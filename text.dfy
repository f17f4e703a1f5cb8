/** Splitting and joining strings on a separator character. */
module Text {

  /** `str::split(sep)`: the pieces between separators, always at least one. */
  function SplitOn(s: string, sep: char): (parts: seq<string>)
    ensures |parts| >= 1
    decreases |s|
  {
    if s == [] then [""]
    else
      var rest := SplitOn(s[1..], sep);
      if s[0] == sep then [""] + rest
      else [[s[0]] + rest[0]] + rest[1..]
  }

  /** No piece contains the separator. */
  lemma {:induction false} SplitOnPiecesFree(s: string, sep: char)
    ensures forall i | 0 <= i < |SplitOn(s, sep)| :: sep !in SplitOn(s, sep)[i]
    decreases |s|
  {
    if s != [] {
      SplitOnPiecesFree(s[1..], sep);
    }
  }

  /** The pieces glued back together with `sep` between neighbours. */
  function Join(parts: seq<string>, sep: char): string
    requires |parts| >= 1
    decreases |parts|
  {
    if |parts| == 1 then parts[0] else parts[0] + [sep] + Join(parts[1..], sep)
  }

  /** A separator-free prefix only extends the first piece. */
  lemma {:induction false} SplitOnFreePrefix(p: string, rest: string, sep: char)
    requires sep !in p
    ensures SplitOn(p + rest, sep) == [p + SplitOn(rest, sep)[0]] + SplitOn(rest, sep)[1..]
  {
    var r := SplitOn(rest, sep);
    if p == [] {
      assert p + rest == rest && p + r[0] == r[0];
      assert [r[0]] + r[1..] == r;
    } else {
      SplitOnFreePrefix(p[1..], rest, sep);
      assert p[0] in p && (p + rest)[0] == p[0] != sep;
      assert (p + rest)[1..] == p[1..] + rest;
      var inner := [p[1..] + r[0]] + r[1..];
      assert SplitOn(p[1..] + rest, sep) == inner;
      assert inner[0] == p[1..] + r[0] && inner[1..] == r[1..];
      assert [p[0]] + (p[1..] + r[0]) == p + r[0];
    }
  }

  /** A string without the separator is a single piece. */
  lemma SplitOnFree(p: string, sep: char)
    requires sep !in p
    ensures SplitOn(p, sep) == [p]
  {
    SplitOnFreePrefix(p, "", sep);
    assert p + "" == p;
  }

  /** Splitting undoes joining when no piece contains the separator. */
  lemma {:induction false} SplitJoin(parts: seq<string>, sep: char)
    requires |parts| >= 1
    requires forall i | 0 <= i < |parts| :: sep !in parts[i]
    ensures SplitOn(Join(parts, sep), sep) == parts
  {
    if |parts| == 1 {
      SplitOnFreePrefix(parts[0], "", sep);
      assert parts[0] + "" == parts[0];
    } else {
      var tail := Join(parts[1..], sep);
      SplitJoin(parts[1..], sep);
      assert ([sep] + tail)[1..] == tail;
      assert SplitOn([sep] + tail, sep) == [""] + parts[1..];
      var r := SplitOn([sep] + tail, sep);
      SplitOnFreePrefix(parts[0], [sep] + tail, sep);
      assert Join(parts, sep) == parts[0] + ([sep] + tail);
      assert r[0] == "" && r[1..] == parts[1..];
      assert parts[0] + r[0] == parts[0];
      assert parts == [parts[0]] + parts[1..];
    }
  }

  /** Appending a piece to the join appends the separator and the piece. */
  lemma {:induction false} JoinSnoc(parts: seq<string>, p: string, sep: char)
    requires |parts| >= 1
    ensures Join(parts + [p], sep) == Join(parts, sep) + [sep] + p
    decreases |parts|
  {
    if |parts| > 1 {
      assert (parts + [p])[1..] == parts[1..] + [p];
      JoinSnoc(parts[1..], p, sep);
    }
  }

  /**
   * With an empty last piece the join ends with the separator, so a piece
   * put before that empty piece is appended followed by the separator.
   */
  lemma JoinTerminated(parts: seq<string>, p: string, sep: char)
    ensures Join(parts + [p] + [""], sep) == Join(parts + [""], sep) + p + [sep]
  {
    if parts == [] {
      assert parts + [p] + [""] == [p, ""];
      assert parts + [""] == [""];
      assert Join([p, ""], sep) == p + [sep] + "";
    } else {
      JoinSnoc(parts, "", sep);
      JoinSnoc(parts, p, sep);
      JoinSnoc(parts + [p], "", sep);
      var j := Join(parts, sep);
      assert j + [sep] + p + [sep] + "" == j + [sep] + "" + p + [sep];
    }
  }

  /** A character in no piece, other than the separator, is not in the join. */
  lemma {:induction false} JoinAvoids(parts: seq<string>, sep: char, c: char)
    requires |parts| >= 1 && c != sep
    requires forall i | 0 <= i < |parts| :: c !in parts[i]
    ensures c !in Join(parts, sep)
    decreases |parts|
  {
    if |parts| > 1 {
      JoinAvoids(parts[1..], sep, c);
    }
  }

  /**
   * Joining non-empty, separator-free pieces never puts two separators side by
   * side, nor one at the start.
   */
  lemma {:induction false} JoinNoAdjacentSeparators(parts: seq<string>, sep: char)
    requires |parts| >= 1
    requires forall i | 0 <= i < |parts| :: parts[i] != [] && sep !in parts[i]
    ensures var j := Join(parts, sep); |j| >= 1 && j[0] != sep
    ensures var j := Join(parts, sep); forall i | 0 <= i < |j| - 1 :: !(j[i] == sep && j[i + 1] == sep)
    decreases |parts|
  {
    var j := Join(parts, sep);
    var p := parts[0];
    assert p[0] in p;
    if |parts| > 1 {
      var rest := Join(parts[1..], sep);
      JoinNoAdjacentSeparators(parts[1..], sep);
      assert j == p + [sep] + rest;
      forall i | 0 <= i < |j| - 1 ensures !(j[i] == sep && j[i + 1] == sep) {
        if i < |p| {
          assert j[i] == p[i] && p[i] in p;
        } else if i == |p| {
          assert j[i + 1] == rest[0];
        } else {
          assert j[i] == rest[i - |p| - 1] && j[i + 1] == rest[i - |p|];
        }
      }
    } else {
      forall i | 0 <= i < |j| - 1 ensures j[i] != sep {
        assert j[i] in p;
      }
    }
  }
}
