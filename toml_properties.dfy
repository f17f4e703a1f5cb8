/**
 * What the configuration file written by `Config::to_toml_with_comments`
 * promises: the fixed header comes first, one table per rule in list order
 * with TCP before UDP and each rule's endpoints in its own block, optional settings exactly when they are set, and (when
 * no string holds a newline) the text's lines are exactly the rendered lines.
 */
module TomlProperties {
  import opened Wrappers
  import opened Numeric
  import opened Text
  import opened Configuration
  import opened TomlWriter

  // ------------------------------------------------------------ selecting lines

  /** Which lines to pick out of a file. */
  datatype Pick = ArrayTables | Settings(key: Key) | Comments

  predicate Picks(p: Pick, l: Line) {
    match p
    case ArrayTables => l.ArrayTable?
    case Settings(k) => l.Setting? && l.key == k
    case Comments => l.Comment?
  }

  /** The lines `p` picks, in the order they were written. */
  function Select(lines: Lines, p: Pick): seq<Line> {
    match lines
    case Start => []
    case Then(before, l) => if Picks(p, l) then Select(before, p) + [l] else Select(before, p)
  }

  /** One step of `Select`, for any number of steps in a row. */
  lemma SelectStep(p: Pick)
    ensures forall b: Lines, l: Line {:trigger Select(Then(b, l), p)} ::
      Select(Then(b, l), p) == if Picks(p, l) then Select(b, p) + [l] else Select(b, p)
  {
  }

  // ------------------------------------------------------------ within one block

  /** A TCP block writes a `name` setting exactly when the rule has a name. */
  lemma TcpNameIffSet(lines: Lines, r: TcpRule)
    ensures Select(WithTcpBlock(lines, r), Settings(Name))
         == Select(lines, Settings(Name)) + (if r.name.Some? then [Setting(Name, Str(r.name.value))] else [])
  {
    SelectStep(Settings(Name));
  }

  /** A UDP block writes a `name` setting exactly when the rule has a name. */
  lemma UdpNameIffSet(lines: Lines, r: UdpRule)
    ensures Select(WithUdpBlock(lines, r), Settings(Name))
         == Select(lines, Settings(Name)) + (if r.name.Some? then [Setting(Name, Str(r.name.value))] else [])
  {
    SelectStep(Settings(Name));
  }

  /** A UDP block writes a `timeout` setting exactly when the rule sets one. */
  lemma UdpTimeoutIffSet(lines: Lines, r: UdpRule)
    ensures Select(WithUdpBlock(lines, r), Settings(Timeout))
         == Select(lines, Settings(Timeout)) + (if r.timeout.Some? then [Setting(Timeout, Num(r.timeout.value as nat))] else [])
  {
    SelectStep(Settings(Timeout));
  }

  /**
   * The comments of a UDP block: the four endpoint comments, the name comment
   * when the rule has a name, and the timeout comment whether or not a timeout
   * is set.
   */
  lemma UdpBlockComments(lines: Lines, r: UdpRule)
    ensures Select(WithUdpBlock(lines, r), Comments)
         == Select(lines, Comments)
            + [Comment(BindAddrHelp)] + [Comment(BindPortHelp)]
            + [Comment(TargetAddrHelp)] + [Comment(TargetPortHelp)]
            + (if r.name.Some? then [Comment(NameHelp)] else [])
            + [Comment(TimeoutHelp)]
  {
    SelectStep(Comments);
  }

  // ------------------------------------------------------------ rules in list order

  /** `n` copies of `l`. */
  function Repeat(l: Line, n: nat): (r: seq<Line>)
    ensures |r| == n && forall i | 0 <= i < n :: r[i] == l
  {
    if n == 0 then [] else Repeat(l, n - 1) + [l]
  }

  /** The four keys every rule block sets once: its two addresses and two ports. */
  predicate IsEndpointKey(k: Key) {
    k == BindAddr || k == BindPort || k == TargetAddr || k == TargetPort
  }

  /** The setting line a rule block writes for endpoint key `k`. */
  function EndpointSetting(k: Key, bindAddr: string, bindPort: u16, targetAddr: string, targetPort: u16): Line
    requires IsEndpointKey(k)
  {
    if k == BindAddr then Setting(BindAddr, Str(bindAddr))
    else if k == BindPort then Setting(BindPort, Num(bindPort as nat))
    else if k == TargetAddr then Setting(TargetAddr, Str(targetAddr))
    else Setting(TargetPort, Num(targetPort as nat))
  }

  function TcpEndpoint(r: TcpRule, k: Key): Line
    requires IsEndpointKey(k)
  {
    EndpointSetting(k, r.bindAddr, r.bindPort, r.targetAddr, r.targetPort)
  }

  function UdpEndpoint(r: UdpRule, k: Key): Line
    requires IsEndpointKey(k)
  {
    EndpointSetting(k, r.bindAddr, r.bindPort, r.targetAddr, r.targetPort)
  }

  /** The `k` settings of TCP rules, in list order. */
  function TcpSettings(rs: seq<TcpRule>, k: Key): (r: seq<Line>)
    requires IsEndpointKey(k)
    ensures |r| == |rs| && forall i | 0 <= i < |rs| :: r[i] == TcpEndpoint(rs[i], k)
  {
    if rs == [] then [] else TcpSettings(rs[..|rs| - 1], k) + [TcpEndpoint(rs[|rs| - 1], k)]
  }

  /** The `k` settings of UDP rules, in list order. */
  function UdpSettings(rs: seq<UdpRule>, k: Key): (r: seq<Line>)
    requires IsEndpointKey(k)
    ensures |r| == |rs| && forall i | 0 <= i < |rs| :: r[i] == UdpEndpoint(rs[i], k)
  {
    if rs == [] then [] else UdpSettings(rs[..|rs| - 1], k) + [UdpEndpoint(rs[|rs| - 1], k)]
  }

  /** The endpoint and name lines of a rule open no table and set each endpoint key once. */
  lemma RuleBodyShape(lines: Lines, bindAddr: string, bindPort: u16, targetAddr: string, targetPort: u16, name: Option<string>, k: Key)
    requires IsEndpointKey(k)
    ensures Select(WithName(WithEndpoints(lines, bindAddr, bindPort, targetAddr, targetPort), name), ArrayTables)
         == Select(lines, ArrayTables)
    ensures Select(WithName(WithEndpoints(lines, bindAddr, bindPort, targetAddr, targetPort), name), Settings(k))
         == Select(lines, Settings(k)) + [EndpointSetting(k, bindAddr, bindPort, targetAddr, targetPort)]
  {
    SelectStep(ArrayTables);
    SelectStep(Settings(k));
  }

  /** Each TCP rule opens one `[[tcp]]` table and writes each endpoint setting once. */
  lemma TcpBlockShape(lines: Lines, r: TcpRule, k: Key)
    requires IsEndpointKey(k)
    ensures Select(WithTcpBlock(lines, r), ArrayTables) == Select(lines, ArrayTables) + [ArrayTable("tcp")]
    ensures Select(WithTcpBlock(lines, r), Settings(k)) == Select(lines, Settings(k)) + [TcpEndpoint(r, k)]
  {
    RuleBodyShape(lines.Add(ArrayTable("tcp")), r.bindAddr, r.bindPort, r.targetAddr, r.targetPort, r.name, k);
    SelectStep(ArrayTables);
    SelectStep(Settings(k));
  }

  /** Each UDP rule opens one `[[udp]]` table and writes each endpoint setting once. */
  lemma UdpBlockShape(lines: Lines, r: UdpRule, k: Key)
    requires IsEndpointKey(k)
    ensures Select(WithUdpBlock(lines, r), ArrayTables) == Select(lines, ArrayTables) + [ArrayTable("udp")]
    ensures Select(WithUdpBlock(lines, r), Settings(k)) == Select(lines, Settings(k)) + [UdpEndpoint(r, k)]
  {
    RuleBodyShape(lines.Add(ArrayTable("udp")), r.bindAddr, r.bindPort, r.targetAddr, r.targetPort, r.name, k);
    SelectStep(ArrayTables);
    SelectStep(Settings(k));
  }

  /** The TCP loop writes one `[[tcp]]` table per rule and their endpoint settings in list order. */
  lemma {:induction false} TcpBlocksInOrder(lines: Lines, rs: seq<TcpRule>, k: Key)
    requires IsEndpointKey(k)
    ensures Select(WithTcpBlocks(lines, rs), ArrayTables) == Select(lines, ArrayTables) + Repeat(ArrayTable("tcp"), |rs|)
    ensures Select(WithTcpBlocks(lines, rs), Settings(k)) == Select(lines, Settings(k)) + TcpSettings(rs, k)
    decreases |rs|
  {
    if rs != [] {
      var init := rs[..|rs| - 1];
      TcpBlocksInOrder(lines, init, k);
      TcpBlockShape(WithTcpBlocks(lines, init), rs[|rs| - 1], k);
    }
  }

  /** The UDP loop writes one `[[udp]]` table per rule and their endpoint settings in list order. */
  lemma {:induction false} UdpBlocksInOrder(lines: Lines, rs: seq<UdpRule>, k: Key)
    requires IsEndpointKey(k)
    ensures Select(WithUdpBlocks(lines, rs), ArrayTables) == Select(lines, ArrayTables) + Repeat(ArrayTable("udp"), |rs|)
    ensures Select(WithUdpBlocks(lines, rs), Settings(k)) == Select(lines, Settings(k)) + UdpSettings(rs, k)
    decreases |rs|
  {
    if rs != [] {
      var init := rs[..|rs| - 1];
      UdpBlocksInOrder(lines, init, k);
      UdpBlockShape(WithUdpBlocks(lines, init), rs[|rs| - 1], k);
    }
  }

  /** Neither the header nor the `[global]` body opens an array table or sets an endpoint key. */
  lemma PreambleHasNoRules(lines: Lines, global: Option<GlobalConfig>, k: Key)
    requires IsEndpointKey(k)
    ensures Select(WithGlobal(WithHeader(lines), global), ArrayTables) == Select(lines, ArrayTables)
    ensures Select(WithGlobal(WithHeader(lines), global), Settings(k)) == Select(lines, Settings(k))
  {
    HeaderHasOnlyComments(lines, ArrayTables);
    HeaderHasOnlyComments(lines, Settings(k));
    GlobalHasNoRules(WithHeader(lines), global, k);
  }

  /** The header writes comments, blank lines and the `[global]` heading, and nothing else. */
  lemma HeaderHasOnlyComments(lines: Lines, p: Pick)
    requires !p.Comments?
    ensures Select(WithHeader(lines), p) == Select(lines, p)
  {
    SelectStep(p);
  }

  /** The `[global]` body opens no array table and sets no endpoint key. */
  lemma GlobalHasNoRules(lines: Lines, global: Option<GlobalConfig>, k: Key)
    requires IsEndpointKey(k)
    ensures Select(WithGlobal(lines, global), ArrayTables) == Select(lines, ArrayTables)
    ensures Select(WithGlobal(lines, global), Settings(k)) == Select(lines, Settings(k))
  {
    assert k != LogLevel && k != BufferSize;
    SelectStep(ArrayTables);
    SelectStep(Settings(k));
  }

  /** The TCP section writes one `[[tcp]]` table per rule and their endpoint settings in list order. */
  lemma TcpSectionInOrder(lines: Lines, tcp: Option<seq<TcpRule>>, k: Key)
    requires IsEndpointKey(k)
    ensures Select(WithTcpSection(lines, tcp), ArrayTables)
         == Select(lines, ArrayTables) + Repeat(ArrayTable("tcp"), |tcp.GetOr([])|)
    ensures Select(WithTcpSection(lines, tcp), Settings(k))
         == Select(lines, Settings(k)) + TcpSettings(tcp.GetOr([]), k)
  {
    if tcp.Some? {
      SelectStep(ArrayTables);
      SelectStep(Settings(k));
      TcpBlocksInOrder(lines.Add(Comment(TcpHeading)), tcp.value, k);
    }
  }

  /** The UDP section writes one `[[udp]]` table per rule and their endpoint settings in list order. */
  lemma UdpSectionInOrder(lines: Lines, udp: Option<seq<UdpRule>>, k: Key)
    requires IsEndpointKey(k)
    ensures Select(WithUdpSection(lines, udp), ArrayTables)
         == Select(lines, ArrayTables) + Repeat(ArrayTable("udp"), |udp.GetOr([])|)
    ensures Select(WithUdpSection(lines, udp), Settings(k))
         == Select(lines, Settings(k)) + UdpSettings(udp.GetOr([]), k)
  {
    if udp.Some? {
      SelectStep(ArrayTables);
      SelectStep(Settings(k));
      UdpBlocksInOrder(lines.Add(Comment(UdpHeading)), udp.value, k);
    }
  }

  /** The rule tables and endpoint settings written after any earlier lines. */
  lemma RulesInOrderAfter(lines: Lines, c: Config, k: Key)
    requires IsEndpointKey(k)
    ensures Select(WithBody(WithHeader(lines), c), ArrayTables)
         == Select(lines, ArrayTables) + Repeat(ArrayTable("tcp"), |c.TcpRules()|) + Repeat(ArrayTable("udp"), |c.UdpRules()|)
    ensures Select(WithBody(WithHeader(lines), c), Settings(k))
         == Select(lines, Settings(k)) + TcpSettings(c.TcpRules(), k) + UdpSettings(c.UdpRules(), k)
  {
    var preamble := WithGlobal(WithHeader(lines), c.global);
    PreambleHasNoRules(lines, c.global, k);
    TcpSectionInOrder(preamble, c.tcp, k);
    UdpSectionInOrder(WithTcpSection(preamble, c.tcp), c.udp, k);
  }

  /**
   * The file holds one `[[tcp]]` table per TCP rule followed by one `[[udp]]`
   * table per UDP rule, and each endpoint setting (`bind_addr`, `bind_port`,
   * `target_addr`, `target_port`) appears once per rule, in list order, TCP
   * before UDP.
   */
  lemma RulesInOrder(c: Config, k: Key)
    requires IsEndpointKey(k)
    ensures Select(TomlDoc(c), ArrayTables) == Repeat(ArrayTable("tcp"), |c.TcpRules()|) + Repeat(ArrayTable("udp"), |c.UdpRules()|)
    ensures Select(TomlDoc(c), Settings(k)) == TcpSettings(c.TcpRules(), k) + UdpSettings(c.UdpRules(), k)
  {
    RulesInOrderAfter(Start, c, k);
    assert Select(Start, ArrayTables) == [] && Select(Start, Settings(k)) == [];
    var tcp, udp := Repeat(ArrayTable("tcp"), |c.TcpRules()|), Repeat(ArrayTable("udp"), |c.UdpRules()|);
    assert [] + tcp + udp == tcp + udp;
    var tcpSettings, udpSettings := TcpSettings(c.TcpRules(), k), UdpSettings(c.UdpRules(), k);
    assert [] + tcpSettings + udpSettings == tcpSettings + udpSettings;
  }

  /** Two rules with the same addresses and ports. */
  predicate SameTcpEndpoints(a: TcpRule, b: TcpRule) {
    a.bindAddr == b.bindAddr && a.bindPort == b.bindPort && a.targetAddr == b.targetAddr && a.targetPort == b.targetPort
  }

  predicate SameUdpEndpoints(a: UdpRule, b: UdpRule) {
    a.bindAddr == b.bindAddr && a.bindPort == b.bindPort && a.targetAddr == b.targetAddr && a.targetPort == b.targetPort
  }

  /** `n` copies of `l` hold `x` `n` times when it is `l`, and never otherwise. */
  lemma {:induction false} RepeatCount(l: Line, n: nat, x: Line)
    ensures multiset(Repeat(l, n))[x] == if x == l then n else 0
  {
    if n > 0 {
      RepeatCount(l, n - 1, x);
      assert Repeat(l, n) == Repeat(l, n - 1) + [l];
    }
  }

  /** Two equal joins of equally long first parts have equal parts. */
  lemma SplitEqual(a1: seq<Line>, b1: seq<Line>, a2: seq<Line>, b2: seq<Line>)
    requires |a1| == |a2| && a1 + b1 == a2 + b2
    ensures a1 == a2 && b1 == b2
  {
    assert a1 == (a1 + b1)[..|a1|] && a2 == (a2 + b2)[..|a2|];
    assert b1 == (a1 + b1)[|a1|..] && b2 == (a2 + b2)[|a2|..];
  }

  /** Equal runs of `[[tcp]]` then `[[udp]]` tables have equal counts of each. */
  lemma TableCounts(tc: nat, uc: nat, td: nat, ud: nat)
    requires Repeat(ArrayTable("tcp"), tc) + Repeat(ArrayTable("udp"), uc)
          == Repeat(ArrayTable("tcp"), td) + Repeat(ArrayTable("udp"), ud)
    ensures tc == td && uc == ud
  {
    var tcp, udp := ArrayTable("tcp"), ArrayTable("udp");
    assert tcp != udp by { assert "tcp"[0] != "udp"[0]; }
    var m1 := multiset(Repeat(tcp, tc)) + multiset(Repeat(udp, uc));
    var m2 := multiset(Repeat(tcp, td)) + multiset(Repeat(udp, ud));
    assert m1 == m2 by {
      assert multiset(Repeat(tcp, tc) + Repeat(udp, uc)) == m1;
      assert multiset(Repeat(tcp, td) + Repeat(udp, ud)) == m2;
    }
    RepeatCount(tcp, tc, tcp);
    RepeatCount(udp, uc, tcp);
    RepeatCount(tcp, td, tcp);
    RepeatCount(udp, ud, tcp);
    assert m1[tcp] == tc && m2[tcp] == td;
    RepeatCount(tcp, tc, udp);
    RepeatCount(udp, uc, udp);
    RepeatCount(tcp, td, udp);
    RepeatCount(udp, ud, udp);
    assert m1[udp] == uc && m2[udp] == ud;
  }

  /** Two configurations written to the same text have the same endpoint settings, list by list. */
  lemma SameTextSameSettings(c: Config, d: Config, k: Key)
    requires TomlDoc(c) == TomlDoc(d) && IsEndpointKey(k)
    ensures |c.TcpRules()| == |d.TcpRules()| && |c.UdpRules()| == |d.UdpRules()|
    ensures TcpSettings(c.TcpRules(), k) == TcpSettings(d.TcpRules(), k)
    ensures UdpSettings(c.UdpRules(), k) == UdpSettings(d.UdpRules(), k)
  {
    RulesInOrder(c, k);
    RulesInOrder(d, k);
    TableCounts(|c.TcpRules()|, |c.UdpRules()|, |d.TcpRules()|, |d.UdpRules()|);
    SplitEqual(TcpSettings(c.TcpRules(), k), UdpSettings(c.UdpRules(), k),
               TcpSettings(d.TcpRules(), k), UdpSettings(d.UdpRules(), k));
  }

  /**
   * Two configurations written to the same text have the same number of TCP
   * and UDP rules, and rule `i` of each list has the same endpoints in both:
   * the file keeps every rule's block in its place.
   */
  lemma FileFixesEndpoints(c: Config, d: Config)
    requires TomlDoc(c) == TomlDoc(d)
    ensures |c.TcpRules()| == |d.TcpRules()| && |c.UdpRules()| == |d.UdpRules()|
    ensures forall i | 0 <= i < |c.TcpRules()| :: SameTcpEndpoints(c.TcpRules()[i], d.TcpRules()[i])
    ensures forall i | 0 <= i < |c.UdpRules()| :: SameUdpEndpoints(c.UdpRules()[i], d.UdpRules()[i])
  {
    var tc, uc, td, ud := c.TcpRules(), c.UdpRules(), d.TcpRules(), d.UdpRules();
    SameTextSameSettings(c, d, BindAddr);
    SameTextSameSettings(c, d, BindPort);
    SameTextSameSettings(c, d, TargetAddr);
    SameTextSameSettings(c, d, TargetPort);
    forall i | 0 <= i < |tc| ensures SameTcpEndpoints(tc[i], td[i]) {
      assert TcpSettings(tc, BindAddr)[i] == TcpSettings(td, BindAddr)[i];
      assert TcpSettings(tc, BindPort)[i] == TcpSettings(td, BindPort)[i];
      assert TcpSettings(tc, TargetAddr)[i] == TcpSettings(td, TargetAddr)[i];
      assert TcpSettings(tc, TargetPort)[i] == TcpSettings(td, TargetPort)[i];
    }
    forall i | 0 <= i < |uc| ensures SameUdpEndpoints(uc[i], ud[i]) {
      assert UdpSettings(uc, BindAddr)[i] == UdpSettings(ud, BindAddr)[i];
      assert UdpSettings(uc, BindPort)[i] == UdpSettings(ud, BindPort)[i];
      assert UdpSettings(uc, TargetAddr)[i] == UdpSettings(ud, TargetAddr)[i];
      assert UdpSettings(uc, TargetPort)[i] == UdpSettings(ud, TargetPort)[i];
    }
  }

  // ------------------------------------------------------------ global settings

  /** The keys only the `[global]` table sets. */
  predicate IsGlobalKey(k: Key) {
    k == LogLevel || k == BufferSize
  }

  /** A TCP block sets no global key. */
  lemma TcpBlockNoGlobal(lines: Lines, r: TcpRule, k: Key)
    requires IsGlobalKey(k)
    ensures Select(WithTcpBlock(lines, r), Settings(k)) == Select(lines, Settings(k))
  {
    SelectStep(Settings(k));
  }

  /** A UDP block sets no global key. */
  lemma UdpBlockNoGlobal(lines: Lines, r: UdpRule, k: Key)
    requires IsGlobalKey(k)
    ensures Select(WithUdpBlock(lines, r), Settings(k)) == Select(lines, Settings(k))
  {
    SelectStep(Settings(k));
  }

  lemma {:induction false} TcpBlocksNoGlobal(lines: Lines, rs: seq<TcpRule>, k: Key)
    requires IsGlobalKey(k)
    ensures Select(WithTcpBlocks(lines, rs), Settings(k)) == Select(lines, Settings(k))
    decreases |rs|
  {
    if rs != [] {
      TcpBlocksNoGlobal(lines, rs[..|rs| - 1], k);
      TcpBlockNoGlobal(WithTcpBlocks(lines, rs[..|rs| - 1]), rs[|rs| - 1], k);
    }
  }

  lemma {:induction false} UdpBlocksNoGlobal(lines: Lines, rs: seq<UdpRule>, k: Key)
    requires IsGlobalKey(k)
    ensures Select(WithUdpBlocks(lines, rs), Settings(k)) == Select(lines, Settings(k))
    decreases |rs|
  {
    if rs != [] {
      UdpBlocksNoGlobal(lines, rs[..|rs| - 1], k);
      UdpBlockNoGlobal(WithUdpBlocks(lines, rs[..|rs| - 1]), rs[|rs| - 1], k);
    }
  }

  /** The rule sections set no global key. */
  lemma SectionsNoGlobal(lines: Lines, c: Config, k: Key)
    requires IsGlobalKey(k)
    ensures Select(WithUdpSection(WithTcpSection(lines, c.tcp), c.udp), Settings(k)) == Select(lines, Settings(k))
  {
    SelectStep(Settings(k));
    if c.tcp.Some? {
      TcpBlocksNoGlobal(lines.Add(Comment(TcpHeading)), c.tcp.value, k);
    }
    if c.udp.Some? {
      UdpBlocksNoGlobal(WithTcpSection(lines, c.tcp).Add(Comment(UdpHeading)), c.udp.value, k);
    }
  }

  /** The header sets nothing; the `[global]` body sets each global key exactly when it is present. */
  lemma PreambleGlobalSettings(lines: Lines, global: Option<GlobalConfig>)
    ensures Select(WithGlobal(WithHeader(lines), global), Settings(LogLevel))
         == Select(lines, Settings(LogLevel))
            + if global.Some? && global.value.logLevel.Some? then [Setting(LogLevel, Str(global.value.logLevel.value))] else []
    ensures Select(WithGlobal(WithHeader(lines), global), Settings(BufferSize))
         == Select(lines, Settings(BufferSize))
            + if global.Some? && global.value.bufferSize.Some? then [Setting(BufferSize, Num(global.value.bufferSize.value as nat))] else []
  {
    SelectStep(Settings(LogLevel));
    SelectStep(Settings(BufferSize));
  }

  /**
   * `log_level` is written once when the global table is present and sets it,
   * and not at all otherwise; the same for `buffer_size`.
   */
  lemma GlobalSettingsIffSet(c: Config)
    ensures Select(TomlDoc(c), Settings(LogLevel))
         == if c.global.Some? && c.global.value.logLevel.Some?
            then [Setting(LogLevel, Str(c.global.value.logLevel.value))] else []
    ensures Select(TomlDoc(c), Settings(BufferSize))
         == if c.global.Some? && c.global.value.bufferSize.Some?
            then [Setting(BufferSize, Num(c.global.value.bufferSize.value as nat))] else []
  {
    var preamble := WithGlobal(WithHeader(Start), c.global);
    PreambleGlobalSettings(Start, c.global);
    SectionsNoGlobal(preamble, c, LogLevel);
    SectionsNoGlobal(preamble, c, BufferSize);
  }
}
