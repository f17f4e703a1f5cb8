/**
 * The forwarding rules and the configuration file of the forwarder
 * (`src/config.rs`): socket-address resolution and validation of each rule,
 * the derived rule names, the UDP idle timeout default, validation of a whole
 * configuration and the built-in default configuration.
 */
module Configuration {
  import opened Wrappers
  import opened Numeric
  import opened Text
  import opened IpAddress

  /** Idle timeout of a UDP rule that does not set one, in seconds. */
  const DEFAULT_UDP_TIMEOUT: u64 := 30

  /**
   * `std::net::AddrParseError`. Rust's error records only that an IP address
   * failed to parse; here it also records the text that failed, so that which
   * rule failed first is observable.
   */
  datatype AddrParseError = AddrParseError(input: string)

  predicate IsIpText(s: string) {
    ParseIp(s).Some?
  }

  /** `IpAddr::from_str(addr)?` followed by `SocketAddr::new(ip, port)`. */
  function ResolveSocketAddr(addr: string, port: u16): (r: Result<SocketAddr, AddrParseError>)
    ensures r.Success? <==> IsIpText(addr)
    ensures r.Success? ==> r.value.port == port && ParseIp(addr) == Some(r.value.ip)
    ensures r.Failure? ==> r.error == AddrParseError(addr)
  {
    match ParseIp(addr)
    case Some(ip) => Success(SocketAddr(ip, port))
    case None => Failure(AddrParseError(addr))
  }

  /** A rule's `validate`: the bind address is resolved first, then the target. */
  function CheckEndpoints(bindAddr: string, bindPort: u16, targetAddr: string, targetPort: u16): (r: Result<(), AddrParseError>)
    ensures r.Success? <==> IsIpText(bindAddr) && IsIpText(targetAddr)
    ensures r.Failure? ==> r.error == AddrParseError(if IsIpText(bindAddr) then targetAddr else bindAddr)
  {
    match ResolveSocketAddr(bindAddr, bindPort)
    case Failure(e) => Failure(e)
    case Success(_) =>
      match ResolveSocketAddr(targetAddr, targetPort)
      case Failure(e) => Failure(e)
      case Success(_) => Success(())
  }

  /** `format!("{protocol}_{bind_addr}:{bind_port}_to_{target_addr}:{target_port}")`. */
  function DerivedName(protocol: string, bindAddr: string, bindPort: u16, targetAddr: string, targetPort: u16): string {
    protocol + "_" + bindAddr + ":" + DecimalText(bindPort as nat) + "_to_" + targetAddr + ":" + DecimalText(targetPort as nat)
  }

  datatype GlobalConfig = GlobalConfig(logLevel: Option<string>, bufferSize: Option<usize>)

  datatype TcpRule = TcpRule(bindAddr: string, bindPort: u16, targetAddr: string, targetPort: u16, name: Option<string>)
  {
    function BindSocketAddr(): (r: Result<SocketAddr, AddrParseError>)
      ensures r.Success? <==> IsIpText(bindAddr)
      ensures r.Success? ==> ParseIp(bindAddr) == Some(r.value.ip) && r.value.port == bindPort
    {
      ResolveSocketAddr(bindAddr, bindPort)
    }

    function TargetSocketAddr(): (r: Result<SocketAddr, AddrParseError>)
      ensures r.Success? <==> IsIpText(targetAddr)
      ensures r.Success? ==> ParseIp(targetAddr) == Some(r.value.ip) && r.value.port == targetPort
    {
      ResolveSocketAddr(targetAddr, targetPort)
    }

    /** Succeeds exactly when both addresses are IP addresses; ports are not checked further. */
    function Validate(): (r: Result<(), AddrParseError>)
      ensures r.Success? <==> BindSocketAddr().Success? && TargetSocketAddr().Success?
      ensures r.Failure? ==> r.error == AddrParseError(if IsIpText(bindAddr) then targetAddr else bindAddr)
    {
      CheckEndpoints(bindAddr, bindPort, targetAddr, targetPort)
    }

    function RuleName(): (r: string)
      ensures name.Some? ==> r == name.value
      ensures name.None? ==> r == DerivedName("tcp", bindAddr, bindPort, targetAddr, targetPort)
    {
      name.GetOr(DerivedName("tcp", bindAddr, bindPort, targetAddr, targetPort))
    }
  }

  datatype UdpRule = UdpRule(bindAddr: string, bindPort: u16, targetAddr: string, targetPort: u16, name: Option<string>, timeout: Option<u64>)
  {
    function BindSocketAddr(): (r: Result<SocketAddr, AddrParseError>)
      ensures r.Success? <==> IsIpText(bindAddr)
      ensures r.Success? ==> ParseIp(bindAddr) == Some(r.value.ip) && r.value.port == bindPort
    {
      ResolveSocketAddr(bindAddr, bindPort)
    }

    function TargetSocketAddr(): (r: Result<SocketAddr, AddrParseError>)
      ensures r.Success? <==> IsIpText(targetAddr)
      ensures r.Success? ==> ParseIp(targetAddr) == Some(r.value.ip) && r.value.port == targetPort
    {
      ResolveSocketAddr(targetAddr, targetPort)
    }

    /** Succeeds exactly when both addresses are IP addresses; ports are not checked further. */
    function Validate(): (r: Result<(), AddrParseError>)
      ensures r.Success? <==> BindSocketAddr().Success? && TargetSocketAddr().Success?
      ensures r.Failure? ==> r.error == AddrParseError(if IsIpText(bindAddr) then targetAddr else bindAddr)
    {
      CheckEndpoints(bindAddr, bindPort, targetAddr, targetPort)
    }

    function RuleName(): (r: string)
      ensures name.Some? ==> r == name.value
      ensures name.None? ==> r == DerivedName("udp", bindAddr, bindPort, targetAddr, targetPort)
    {
      name.GetOr(DerivedName("udp", bindAddr, bindPort, targetAddr, targetPort))
    }

    /** The configured idle timeout, or 30 seconds when none is set. */
    function TimeoutSeconds(): (t: u64)
      ensures timeout.Some? ==> t == timeout.value
      ensures timeout.None? ==> t == DEFAULT_UDP_TIMEOUT
    {
      timeout.GetOr(DEFAULT_UDP_TIMEOUT)
    }
  }

  /**
   * A derived name starts with its protocol, so a TCP rule and a UDP rule that
   * both go unnamed never share a name, even with the same endpoints.
   */
  lemma DerivedNamesKeepProtocolsApart(t: TcpRule, u: UdpRule)
    requires t.name.None? && u.name.None?
    ensures |t.RuleName()| >= 4 && t.RuleName()[..4] == "tcp_"
    ensures |u.RuleName()| >= 4 && u.RuleName()[..4] == "udp_"
    ensures t.RuleName() != u.RuleName()
  {
    var tn, un := t.RuleName(), u.RuleName();
    assert tn[..4] == "tcp_";
    assert un[..4] == "udp_";
    assert tn[0] != un[0];
  }

  datatype Config = Config(global: Option<GlobalConfig>, tcp: Option<seq<TcpRule>>, udp: Option<seq<UdpRule>>)
  {
    /** The TCP rules; an absent list holds none. */
    function TcpRules(): seq<TcpRule> {
      tcp.GetOr([])
    }

    function UdpRules(): seq<UdpRule> {
      udp.GetOr([])
    }

    /** Each rule's own validation outcome, TCP rules first, each list in order. */
    function RuleResults(): (rs: seq<Result<(), AddrParseError>>)
      ensures |rs| == |TcpRules()| + |UdpRules()|
    {
      TcpResults(TcpRules()) + UdpResults(UdpRules())
    }

    /**
     * `Config::validate`: every TCP rule, then every UDP rule, stopping at the
     * first rule that fails and returning its error.
     */
    method Validate() returns (r: Result<(), AddrParseError>)
      ensures r.Success? <==> AllPass(RuleResults())
      ensures r.Failure? ==> FirstFailure(RuleResults(), r.error)
    {
      ghost var tcpResults, udpResults := TcpResults(TcpRules()), UdpResults(UdpRules());
      r := ValidateTcpRules(TcpRules());
      if r.Failure? {
        FirstFailureExtends(tcpResults, udpResults, r.error);
        return;
      }
      r := ValidateUdpRules(UdpRules());
      AllPassJoin(tcpResults, udpResults);
      if r.Failure? {
        FirstFailureAfterPasses(tcpResults, udpResults, r.error);
      }
    }
  }

  /** The TCP half of `Config::validate`: the rules in order, up to the first failure. */
  method ValidateTcpRules(rules: seq<TcpRule>) returns (r: Result<(), AddrParseError>)
    ensures r.Success? <==> AllPass(TcpResults(rules))
    ensures r.Failure? ==> FirstFailure(TcpResults(rules), r.error)
  {
    ghost var results := TcpResults(rules);
    for i := 0 to |rules|
      invariant forall j | 0 <= j < i :: results[j].Success?
    {
      var outcome := rules[i].Validate();
      assert results[i] == outcome;
      if outcome.Failure? {
        FailureAt(results, i);
        return Failure(outcome.error);
      }
    }
    return Success(());
  }

  /** The UDP half of `Config::validate`: the rules in order, up to the first failure. */
  method ValidateUdpRules(rules: seq<UdpRule>) returns (r: Result<(), AddrParseError>)
    ensures r.Success? <==> AllPass(UdpResults(rules))
    ensures r.Failure? ==> FirstFailure(UdpResults(rules), r.error)
  {
    ghost var results := UdpResults(rules);
    for i := 0 to |rules|
      invariant forall j | 0 <= j < i :: results[j].Success?
    {
      var outcome := rules[i].Validate();
      assert results[i] == outcome;
      if outcome.Failure? {
        FailureAt(results, i);
        return Failure(outcome.error);
      }
    }
    return Success(());
  }

  /** The validation outcomes of TCP rules, in list order. */
  function TcpResults(rules: seq<TcpRule>): (rs: seq<Result<(), AddrParseError>>)
    ensures |rs| == |rules| && forall i | 0 <= i < |rules| :: rs[i] == rules[i].Validate()
  {
    if rules == [] then [] else TcpResults(rules[..|rules| - 1]) + [rules[|rules| - 1].Validate()]
  }

  /** The validation outcomes of UDP rules, in list order. */
  function UdpResults(rules: seq<UdpRule>): (rs: seq<Result<(), AddrParseError>>)
    ensures |rs| == |rules| && forall i | 0 <= i < |rules| :: rs[i] == rules[i].Validate()
  {
    if rules == [] then [] else UdpResults(rules[..|rules| - 1]) + [rules[|rules| - 1].Validate()]
  }

  ghost predicate AllPass<E>(rs: seq<Result<(), E>>) {
    forall i | 0 <= i < |rs| :: rs[i].Success?
  }

  /** `e` is the error of the first failing outcome in `rs`. */
  ghost predicate FirstFailure<E>(rs: seq<Result<(), E>>, e: E) {
    exists i | 0 <= i < |rs| :: rs[i] == Failure(e) && AllPass(rs[..i])
  }

  /** A failure preceded only by successes is the first failure, and the outcomes do not all pass. */
  lemma FailureAt<E>(rs: seq<Result<(), E>>, i: nat)
    requires i < |rs| && rs[i].Failure?
    requires forall j | 0 <= j < i :: rs[j].Success?
    ensures FirstFailure(rs, rs[i].error) && !AllPass(rs)
  {
    assert AllPass(rs[..i]);
  }

  /** Outcomes pass together exactly when each half passes. */
  lemma AllPassJoin<E>(a: seq<Result<(), E>>, b: seq<Result<(), E>>)
    ensures AllPass(a + b) <==> AllPass(a) && AllPass(b)
  {
    if AllPass(a) && AllPass(b) {
      forall i | 0 <= i < |a + b| ensures (a + b)[i].Success? {
        if i >= |a| { assert (a + b)[i] == b[i - |a|]; }
      }
    }
    if AllPass(a + b) {
      forall i | 0 <= i < |a| ensures a[i].Success? {
        assert (a + b)[i] == a[i];
      }
      forall i | 0 <= i < |b| ensures b[i].Success? {
        assert (a + b)[|a| + i] == b[i];
      }
    }
  }

  /** The first failure of a prefix is the first failure of the whole. */
  lemma FirstFailureExtends<E>(a: seq<Result<(), E>>, b: seq<Result<(), E>>, e: E)
    requires FirstFailure(a, e)
    ensures FirstFailure(a + b, e) && !AllPass(a + b)
  {
    var i :| 0 <= i < |a| && a[i] == Failure(e) && AllPass(a[..i]);
    assert (a + b)[..i] == a[..i];
    assert (a + b)[i] == a[i];
  }

  /** After a passing prefix, the first failure of the rest is the first failure of the whole. */
  lemma FirstFailureAfterPasses<E>(a: seq<Result<(), E>>, b: seq<Result<(), E>>, e: E)
    requires AllPass(a) && FirstFailure(b, e)
    ensures FirstFailure(a + b, e)
  {
    var i :| 0 <= i < |b| && b[i] == Failure(e) && AllPass(b[..i]);
    assert (a + b)[..|a| + i] == a + b[..i];
    AllPassJoin(a, b[..i]);
    assert (a + b)[|a| + i] == b[i];
  }

  /** `Config::create_default_config`. */
  function DefaultConfig(): Config {
    Config(
      Some(GlobalConfig(Some("info"), Some(8192))),
      Some([
        TcpRule("127.0.0.1", 8080, "127.0.0.1", 80, Some("web_proxy_example")),
        TcpRule("127.0.0.1", 2222, "127.0.0.1", 22, Some("ssh_proxy_example"))
      ]),
      Some([
        UdpRule("127.0.0.1", 5353, "8.8.8.8", 53, Some("dns_proxy_example"), Some(30))
      ]))
  }

  /**
   * The default configuration passes validation; it uses 8192-byte buffers,
   * two TCP rules and one UDP rule whose idle timeout is 30 seconds.
   */
  lemma DefaultConfigIsValid()
    ensures AllPass(DefaultConfig().RuleResults())
    ensures DefaultConfig().global.Some? && DefaultConfig().global.value.bufferSize == Some(8192)
    ensures |DefaultConfig().TcpRules()| == 2 && |DefaultConfig().UdpRules()| == 1
    ensures DefaultConfig().UdpRules()[0].TimeoutSeconds() == 30
  {
    DefaultTcpAddressesAreIp();
    DefaultUdpAddressesAreIp();
    AddressesDecideValidity(DefaultConfig());
  }

  lemma DefaultTcpAddressesAreIp()
    ensures forall r | r in DefaultConfig().TcpRules() :: IsIpText(r.bindAddr) && IsIpText(r.targetAddr)
  {
    LoopbackIsIp();
  }

  lemma DefaultUdpAddressesAreIp()
    ensures forall r | r in DefaultConfig().UdpRules() :: IsIpText(r.bindAddr) && IsIpText(r.targetAddr)
  {
    LoopbackIsIp();
    GoogleDnsIsIp();
  }

  /** A configuration passes validation when every rule's two addresses are IP addresses. */
  lemma AddressesDecideValidity(c: Config)
    requires forall r | r in c.TcpRules() :: IsIpText(r.bindAddr) && IsIpText(r.targetAddr)
    requires forall r | r in c.UdpRules() :: IsIpText(r.bindAddr) && IsIpText(r.targetAddr)
    ensures AllPass(c.RuleResults())
  {
    var rs := c.RuleResults();
    forall i | 0 <= i < |rs| ensures rs[i].Success? {
      if i < |c.TcpRules()| {
        assert c.TcpRules()[i] in c.TcpRules();
      } else {
        assert c.UdpRules()[i - |c.TcpRules()|] in c.UdpRules();
      }
    }
  }

  lemma LoopbackIsIp()
    ensures IsIpText("127.0.0.1")
  {
    var octets: seq<u8> := [127, 0, 0, 1];
    assert DecimalText(1) == "1";
    assert DecimalText(12) == DecimalText(1) + "2";
    assert DecimalText(127) == DecimalText(12) + "7";
    assert DecimalText(0) == "0";
    FormatIpv4Pieces(octets);
    Ipv4RoundTrip(octets);
    var s := FormatIpv4(octets);
    assert s == "127.0.0.1";
    assert ParseIp(s).Some?;
  }

  lemma GoogleDnsIsIp()
    ensures IsIpText("8.8.8.8")
  {
    var octets: seq<u8> := [8, 8, 8, 8];
    assert DecimalText(8) == "8";
    FormatIpv4Pieces(octets);
    Ipv4RoundTrip(octets);
    var s := FormatIpv4(octets);
    assert s == "8.8.8.8";
    assert ParseIp(s).Some?;
  }

}
