/**
 * The textual IP addresses accepted by Rust's `IpAddr::from_str`, which the
 * configuration uses to turn `bind_addr` and `target_addr` into socket
 * addresses.
 *
 * IPv4: exactly four dot-separated decimal octets, each one to three digits,
 * at most 255, with no leading zero. IPv6 (section 2.2 of RFC 4291): eight
 * colon-separated groups of one to four hex digits; one `::` may stand for one
 * or more zero groups; the last 32 bits may be written as an IPv4 address.
 * Zone identifiers and brackets are not accepted.
 */
module IpAddress {
  import opened Wrappers
  import opened Numeric
  import opened Text

  datatype IpAddr = V4(octets: seq<u8>) | V6(segments: seq<u16>)

  /** `std::net::SocketAddr`: an IP address and a port. */
  datatype SocketAddr = SocketAddr(ip: IpAddr, port: u16)

  // ---------------------------------------------------------------- IPv4

  /** One IPv4 octet as written: 1-3 digits, no leading zero, at most 255. */
  predicate IsOctetText(p: string) {
    && 1 <= |p| <= 3
    && AllDigits(p)
    && (p[0] == '0' ==> |p| == 1)
    && DecimalValue(p) <= 255
  }

  /** The octets spelt by dot-separated pieces, or `None` when a piece is not an octet. */
  function Octets(parts: seq<string>): (r: Option<seq<u8>>)
    ensures r.Some? ==> |r.value| == |parts|
    ensures r.Some? <==> forall i | 0 <= i < |parts| :: IsOctetText(parts[i])
  {
    if parts == [] then Some([])
    else if IsOctetText(parts[0]) then
      match Octets(parts[1..])
      case None => None
      case Some(rest) => Some([DecimalValue(parts[0]) as u8] + rest)
    else None
  }

  /** Each octet read is the decimal value of its piece. */
  lemma {:induction false} OctetsValues(parts: seq<string>)
    requires Octets(parts).Some?
    ensures forall i | 0 <= i < |parts| :: Octets(parts).value[i] as nat == DecimalValue(parts[i])
  {
    if parts != [] {
      OctetsValues(parts[1..]);
      assert forall i | 1 <= i < |parts| :: parts[i] == parts[1..][i - 1];
    }
  }

  function ParseIpv4(s: string): (r: Option<seq<u8>>)
    ensures r.Some? ==> |r.value| == 4
  {
    var parts := SplitOn(s, '.');
    if |parts| == 4 then Octets(parts) else None
  }

  /** The dotted-decimal spelling of four octets. */
  function FormatIpv4(octets: seq<u8>): string
    requires |octets| == 4
  {
    Join(seq(4, i requires 0 <= i < 4 => DecimalText(octets[i] as nat)), '.')
  }

  /** The dotted-decimal spelling written out piece by piece. */
  lemma FormatIpv4Pieces(octets: seq<u8>)
    requires |octets| == 4
    ensures FormatIpv4(octets) == DecimalText(octets[0] as nat) + "." + DecimalText(octets[1] as nat)
                                  + "." + DecimalText(octets[2] as nat) + "." + DecimalText(octets[3] as nat)
  {
    var parts := seq(4, i requires 0 <= i < 4 => DecimalText(octets[i] as nat));
    assert parts[3..] == [parts[3]];
    assert parts[2..][1..] == parts[3..];
    assert parts[1..][1..] == parts[2..];
    assert Join(parts[2..], '.') == parts[2] + "." + parts[3];
    assert Join(parts[1..], '.') == parts[1] + "." + (parts[2] + "." + parts[3]);
  }

  /** Every dotted-decimal spelling parses back to its octets. */
  lemma Ipv4RoundTrip(octets: seq<u8>)
    requires |octets| == 4
    ensures ParseIpv4(FormatIpv4(octets)) == Some(octets)
  {
    var parts := seq(4, i requires 0 <= i < 4 => DecimalText(octets[i] as nat));
    forall i | 0 <= i < 4
      ensures '.' !in parts[i] && IsOctetText(parts[i]) && DecimalValue(parts[i]) == octets[i] as nat
    {
      DecimalTextShort(octets[i] as nat);
      DecimalRoundTrip(octets[i] as nat);
    }
    SplitJoin(parts, '.');
    OctetsValues(parts);
    var r := ParseIpv4(FormatIpv4(octets));
    assert r.Some?;
    assert r.value == octets;
  }

  // ---------------------------------------------------------------- IPv6

  predicate IsHexDigit(c: char) {
    '0' <= c <= '9' || 'a' <= c <= 'f' || 'A' <= c <= 'F'
  }

  function HexDigitValue(c: char): (d: nat)
    requires IsHexDigit(c)
    ensures d < 16
  {
    if '0' <= c <= '9' then c as int - '0' as int
    else if 'a' <= c <= 'f' then c as int - 'a' as int + 10
    else c as int - 'A' as int + 10
  }

  /** One IPv6 group as written: 1-4 hex digits, leading zeros allowed. */
  predicate IsGroupText(p: string) {
    1 <= |p| <= 4 && forall i | 0 <= i < |p| :: IsHexDigit(p[i])
  }

  function HexValue(p: string): (v: nat)
    requires forall i | 0 <= i < |p| :: IsHexDigit(p[i])
    ensures |p| <= 1 ==> v < 0x10
    ensures |p| <= 2 ==> v < 0x100
    ensures |p| <= 3 ==> v < 0x1000
    ensures |p| <= 4 ==> v < 0x1_0000
    decreases |p|
  {
    if p == [] then 0 else HexValue(p[..|p| - 1]) * 16 + HexDigitValue(p[|p| - 1])
  }

  /** The two 16-bit segments that carry an embedded IPv4 address. */
  function Ipv4Segments(octets: seq<u8>): (r: seq<u16>)
    requires |octets| == 4
    ensures |r| == 2
  {
    [(octets[0] as int * 256 + octets[1] as int) as u16, (octets[2] as int * 256 + octets[3] as int) as u16]
  }

  /**
   * The segments spelt by colon-separated pieces. When `allowIpv4` holds the
   * last piece may be an IPv4 address, which counts as two segments.
   */
  function Segments(parts: seq<string>, allowIpv4: bool): (r: Option<seq<u16>>)
    decreases |parts|
  {
    if parts == [] then Some([])
    else if allowIpv4 && |parts| == 1 && ParseIpv4(parts[0]).Some? then
      Some(Ipv4Segments(ParseIpv4(parts[0]).value))
    else if IsGroupText(parts[0]) then
      match Segments(parts[1..], allowIpv4)
      case None => None
      case Some(rest) => Some([HexValue(parts[0]) as u16] + rest)
    else None
  }

  /** The first position at or after `from` where `::` starts. */
  function DoubleColonAt(s: string, from: nat): (r: Option<nat>)
    requires from <= |s|
    ensures r.Some? ==> from <= r.value && r.value + 2 <= |s| && s[r.value] == ':' && s[r.value + 1] == ':'
    decreases |s| - from
  {
    if from + 2 > |s| then None
    else if s[from] == ':' && s[from + 1] == ':' then Some(from)
    else DoubleColonAt(s, from + 1)
  }

  /** `n` zero groups, the ones a `::` stands for. */
  function Zeros(n: nat): (r: seq<u16>)
    ensures |r| == n && forall i | 0 <= i < n :: r[i] == 0
  {
    if n == 0 then [] else Zeros(n - 1) + [0]
  }

  function ParseIpv6(s: string): (r: Option<seq<u16>>)
    ensures r.Some? ==> |r.value| == 8
  {
    match DoubleColonAt(s, 0)
    case None =>
      var all := Segments(SplitOn(s, ':'), true);
      if all.Some? && |all.value| == 8 then all else None
    case Some(k) =>
      // `::` stands for at least one zero group; no IPv4 part before it.
      var head := if k == 0 then Some([]) else Segments(SplitOn(s[..k], ':'), false);
      var tail := if k + 2 == |s| then Some([]) else Segments(SplitOn(s[k + 2..], ':'), true);
      if head.Some? && tail.Some? && |head.value| + |tail.value| <= 7 then
        Some(head.value + Zeros(8 - |head.value| - |tail.value|) + tail.value)
      else None
  }

  /** `IpAddr::from_str`: IPv4 is tried first, then IPv6. */
  function ParseIp(s: string): (r: Option<IpAddr>)
    ensures r.Some? && r.value.V4? ==> |r.value.octets| == 4
    ensures r.Some? && r.value.V6? ==> |r.value.segments| == 8
  {
    match ParseIpv4(s)
    case Some(octets) => Some(V4(octets))
    case None =>
      match ParseIpv6(s)
      case Some(segments) => Some(V6(segments))
      case None => None
  }

  // ---------------------------------------------------------------- IPv6 spelling

  function HexDigitChar(d: nat): (c: char)
    requires d < 16
    ensures IsHexDigit(c) && HexDigitValue(c) == d
  {
    if d < 10 then ('0' as int + d) as char else ('a' as int + d - 10) as char
  }

  /** The lower-case hex spelling of `n`, with no leading zero. */
  function HexText(n: nat): (s: string)
    ensures |s| >= 1 && forall i | 0 <= i < |s| :: IsHexDigit(s[i])
    decreases n
  {
    if n < 16 then [HexDigitChar(n)] else HexText(n / 16) + [HexDigitChar(n % 16)]
  }

  /** Reading back the hex text of `n` gives `n`. */
  lemma {:induction false} HexRoundTrip(n: nat)
    ensures HexValue(HexText(n)) == n
  {
    if n >= 16 {
      HexRoundTrip(n / 16);
      var s := HexText(n);
      assert s[..|s| - 1] == HexText(n / 16);
    }
  }

  /** A 16-bit group takes at most four hex digits. */
  lemma HexTextShort(n: nat)
    requires n < 0x1_0000
    ensures |HexText(n)| <= 4
  {
    if n >= 16 {
      var m := n / 16;
      assert |HexText(n)| == |HexText(m)| + 1;
      if m >= 16 {
        assert |HexText(m)| == |HexText(m / 16)| + 1;
        if m / 16 >= 16 {
          assert |HexText(m / 16)| == |HexText(m / 16 / 16)| + 1;
          assert m / 16 / 16 < 16;
        }
      }
    }
  }

  /** The full spelling of eight groups: each in hex, separated by colons, with no `::`. */
  function FormatIpv6(groups: seq<u16>): string
    requires |groups| == 8
  {
    Join(seq(8, i requires 0 <= i < 8 => HexText(groups[i] as nat)), ':')
  }

  /** Pieces that are all group texts give their values as segments. */
  lemma {:induction false} GroupSegments(parts: seq<string>, values: seq<u16>)
    requires |parts| == |values|
    requires forall i | 0 <= i < |parts| ::
      IsGroupText(parts[i]) && '.' !in parts[i] && HexValue(parts[i]) == values[i] as nat
    ensures Segments(parts, true) == Some(values)
    decreases |parts|
  {
    if parts != [] {
      if |parts| == 1 {
        SplitOnFree(parts[0], '.');
      }
      GroupSegments(parts[1..], values[1..]);
      assert values == [values[0]] + values[1..];
    }
  }

  /** A text with no two colons side by side holds no `::`. */
  lemma {:induction false} NoDoubleColon(s: string, from: nat)
    requires from <= |s|
    requires forall i | from <= i < |s| - 1 :: !(s[i] == ':' && s[i + 1] == ':')
    ensures DoubleColonAt(s, from).None?
    decreases |s| - from
  {
    if from + 2 <= |s| {
      NoDoubleColon(s, from + 1);
    }
  }

  /** Every full eight-group spelling parses back to its groups, as an IPv6 address. */
  lemma Ipv6RoundTrip(groups: seq<u16>)
    requires |groups| == 8
    ensures ParseIpv6(FormatIpv6(groups)) == Some(groups)
    ensures ParseIp(FormatIpv6(groups)) == Some(V6(groups))
  {
    var parts := seq(8, i requires 0 <= i < 8 => HexText(groups[i] as nat));
    forall i | 0 <= i < 8
      ensures IsGroupText(parts[i]) && HexValue(parts[i]) == groups[i] as nat
      ensures parts[i] != [] && '.' !in parts[i] && ':' !in parts[i]
    {
      HexTextShort(groups[i] as nat);
      HexRoundTrip(groups[i] as nat);
      forall k | 0 <= k < |parts[i]| ensures parts[i][k] != '.' && parts[i][k] != ':' {
        assert IsHexDigit(parts[i][k]);
      }
    }
    var s := FormatIpv6(groups);
    JoinNoAdjacentSeparators(parts, ':');
    NoDoubleColon(s, 0);
    SplitJoin(parts, ':');
    GroupSegments(parts, groups);
    JoinAvoids(parts, ':', '.');
    SplitOnFree(s, '.');
  }

  /** `::1`, the IPv6 loopback address in its shortest spelling. */
  lemma Ipv6Loopback()
    ensures ParseIp("::1") == Some(V6([0, 0, 0, 0, 0, 0, 0, 1]))
  {
    SplitOnFree("1", '.');
    SplitOnFree("1", ':');
    SplitOnFree("::1", '.');
    var one := ["1"];
    assert ParseIpv4(one[0]).None? && IsGroupText(one[0]) && HexValue(one[0]) == 1;
    assert Segments(one[1..], true) == Some([]);
    assert [HexValue(one[0]) as u16] + [] == [1 as u16];
    assert Segments(one, true) == Some([1 as u16]);
    var loopback := "::1";
    assert DoubleColonAt(loopback, 0) == Some(0) && loopback[2..] == "1";
    var zeros := Zeros(7);
    assert [] + zeros + [1 as u16] == [0, 0, 0, 0, 0, 0, 0, 1];
    assert ParseIpv6(loopback) == Some([0, 0, 0, 0, 0, 0, 0, 1]);
  }

  /** `::`, the unspecified IPv6 address: the double colon alone stands for all eight groups. */
  lemma Ipv6Unspecified()
    ensures ParseIp("::") == Some(V6([0, 0, 0, 0, 0, 0, 0, 0]))
  {
    SplitOnFree("::", '.');
    var unspecified := "::";
    assert DoubleColonAt(unspecified, 0) == Some(0);
    var zeros := Zeros(8);
    assert [] + zeros + [] == [0, 0, 0, 0, 0, 0, 0, 0];
    assert ParseIpv6(unspecified) == Some([0, 0, 0, 0, 0, 0, 0, 0]);
  }
}
