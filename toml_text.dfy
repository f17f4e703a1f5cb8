/**
 * The configuration file as text: it opens with the fixed header, which ends
 * with the `[global]` table header whatever the configuration, and when no
 * string in the configuration holds a newline, splitting the text at newlines
 * gives back exactly the rendered lines.
 */
module TomlText {
  import opened Wrappers
  import opened Numeric
  import opened Text
  import opened Configuration
  import opened TomlWriter

  // ------------------------------------------------------------ prefixes

  /** `longer` is `shorter` followed by zero or more lines. */
  ghost predicate Extends(longer: Lines, shorter: Lines)
    decreases longer
  {
    longer == shorter || (longer.Then? && Extends(longer.before, shorter))
  }

  /** Adding a line keeps every prefix. */
  lemma ExtendsStep()
    ensures forall b: Lines, l: Line, base: Lines {:trigger Extends(Then(b, l), base)} ::
      Extends(b, base) ==> Extends(Then(b, l), base)
  {
  }

  lemma {:induction false} ExtendsTrans(a: Lines, b: Lines, c: Lines)
    requires Extends(a, b) && Extends(b, c)
    ensures Extends(a, c)
    decreases a
  {
    if a != b {
      ExtendsTrans(a.before, b, c);
    }
  }

  /** Lines written later only lengthen the text. */
  lemma {:induction false} ExtendsEmit(longer: Lines, shorter: Lines)
    requires Extends(longer, shorter)
    ensures Emit(shorter) <= Emit(longer)
    decreases longer
  {
    if longer != shorter {
      ExtendsEmit(longer.before, shorter);
    }
  }

  lemma {:induction false} TcpBlocksExtend(lines: Lines, rs: seq<TcpRule>)
    ensures Extends(WithTcpBlocks(lines, rs), lines)
    decreases |rs|
  {
    if rs != [] {
      var init := WithTcpBlocks(lines, rs[..|rs| - 1]);
      TcpBlocksExtend(lines, rs[..|rs| - 1]);
      ExtendsStep();
      assert Extends(WithTcpBlock(init, rs[|rs| - 1]), init);
      ExtendsTrans(WithTcpBlocks(lines, rs), init, lines);
    }
  }

  lemma {:induction false} UdpBlocksExtend(lines: Lines, rs: seq<UdpRule>)
    ensures Extends(WithUdpBlocks(lines, rs), lines)
    decreases |rs|
  {
    if rs != [] {
      var init := WithUdpBlocks(lines, rs[..|rs| - 1]);
      UdpBlocksExtend(lines, rs[..|rs| - 1]);
      ExtendsStep();
      assert Extends(WithUdpBlock(init, rs[|rs| - 1]), init);
      ExtendsTrans(WithUdpBlocks(lines, rs), init, lines);
    }
  }

  /** The `[global]` body and the rule sections come after what was written before them. */
  lemma BodyExtends(lines: Lines, c: Config)
    ensures Extends(WithBody(lines, c), lines)
  {
    var global := WithGlobal(lines, c.global);
    ExtendsStep();
    assert Extends(global, lines);
    var tcpDone := WithTcpSection(global, c.tcp);
    if c.tcp.Some? {
      TcpBlocksExtend(global.Add(Comment(TcpHeading)), c.tcp.value);
      ExtendsTrans(tcpDone, global.Add(Comment(TcpHeading)), global);
    }
    ExtendsTrans(tcpDone, global, lines);
    if c.udp.Some? {
      UdpBlocksExtend(tcpDone.Add(Comment(UdpHeading)), c.udp.value);
      ExtendsTrans(WithBody(lines, c), tcpDone.Add(Comment(UdpHeading)), tcpDone);
    }
    ExtendsTrans(WithBody(lines, c), tcpDone, lines);
  }

  /** The header's first line is the title comment. */
  lemma HeaderStartsWithTitle(lines: Lines)
    ensures Extends(WithHeader(lines), lines.Add(Comment(Title)))
  {
    ExtendsStep();
  }

  /**
   * Every file starts with the fixed header, whose first line is the title
   * comment, whether or not the configuration has a global table. The writer
   * starts from nothing (`lines` is `Start`), so the text of `TomlDoc(c)`
   * starts with the header text.
   */
  lemma HeaderComesFirst(lines: Lines, c: Config)
    ensures Emit(WithHeader(lines)) <= Emit(WithBody(WithHeader(lines), c))
    ensures Emit(lines) + ("# " + NoteText(Title)) + "\n" <= Emit(WithBody(WithHeader(lines), c))
  {
    var header := WithHeader(lines);
    BodyExtends(header, c);
    ExtendsEmit(WithBody(header, c), header);
    HeaderStartsWithTitle(lines);
    ExtendsEmit(header, lines.Add(Comment(Title)));
  }

  /** A text ends with the rendering of its last line and a newline. */
  lemma EmitEndsWithLast(lines: Lines)
    requires lines.Then?
    ensures var t := Emit(lines); var n := |Render(lines.last)| + 1;
      |t| >= n && t[|t| - n..] == Render(lines.last) + "\n"
  {
    var t := Emit(lines);
    assert t == Emit(lines.before) + (Render(lines.last) + "\n");
  }

  /** The header's last line is the `[global]` table header, whatever came before it. */
  lemma HeaderEndsWithGlobalTable(lines: Lines)
    ensures var h := Emit(WithHeader(lines)); |h| >= 9 && h[|h| - 9..] == "[" + "global" + "]" + "\n"
  {
    var header := WithHeader(lines);
    assert header.last == Table("global");
    EmitEndsWithLast(header);
  }

  // ------------------------------------------------------------ lines of text

  /** The rendered lines, in order. */
  function Rendered(lines: Lines): (r: seq<string>)
    ensures |r| == Length(lines)
  {
    match lines
    case Start => []
    case Then(before, l) => Rendered(before) + [Render(l)]
  }

  function Length(lines: Lines): nat {
    match lines
    case Start => 0
    case Then(before, _) => Length(before) + 1
  }

  /** The text is the rendered lines joined by newlines, ending with one. */
  lemma {:induction false} EmitJoins(lines: Lines)
    ensures Emit(lines) == Join(Rendered(lines) + [""], '\n')
  {
    match lines
    case Start =>
    case Then(before, l) =>
      EmitJoins(before);
      JoinTerminated(Rendered(before), Render(l), '\n');
  }

  lemma KeyFree(k: Key)
    ensures '\n' !in KeyText(k)
  {
  }

  /** A line whose strings hold no newline renders without one. */
  lemma RenderFree(l: Line)
    requires LineFree(l)
    ensures '\n' !in Render(l)
  {
    match l
    case Setting(k, v) =>
      KeyFree(k);
      if v.Num? {
        assert AllDigits(DecimalText(v.n));
      }
    case _ =>
  }

  ghost predicate AllFree(lines: Lines) {
    match lines
    case Start => true
    case Then(before, l) => AllFree(before) && LineFree(l)
  }

  /**
   * When no line holds a newline in its strings, the text's lines (split at
   * `\n`) are exactly the rendered lines, followed by the empty piece after
   * the last newline.
   */
  lemma {:induction false} TextLines(lines: Lines)
    requires AllFree(lines)
    ensures SplitOn(Emit(lines), '\n') == Rendered(lines) + [""]
  {
    EmitJoins(lines);
    var rs := Rendered(lines);
    RenderedFree(lines);
    assert forall i | 0 <= i < |rs + [""]| :: '\n' !in (rs + [""])[i] by {
      forall i | 0 <= i < |rs + [""]| ensures '\n' !in (rs + [""])[i] {
        if i < |rs| {
          assert (rs + [""])[i] == rs[i];
        }
      }
    }
    SplitJoin(rs + [""], '\n');
  }

  lemma {:induction false} RenderedFree(lines: Lines)
    requires AllFree(lines)
    ensures forall i | 0 <= i < |Rendered(lines)| :: '\n' !in Rendered(lines)[i]
  {
    match lines
    case Start =>
    case Then(before, l) =>
      RenderedFree(before);
      RenderFree(l);
  }
}
