/**
 * The UDP session table of the forwarder (`src/udp_forwarder.rs`).
 *
 * UDP has no connections, so the forwarder keeps one pseudo-session per client
 * address: an outbound socket towards the target and the time of the last
 * packet seen in either direction. Packets from a client go out through its
 * session's socket; a relay per session copies the target's replies back to
 * the client; a periodic sweep drops idle sessions.
 *
 * Sockets are opaque ids handed out in increasing order, time is a count of
 * nanoseconds passed in by the caller, and the outcome of every socket call
 * (bind, send, receive, wait) is a parameter. Each section the source runs
 * under the table's lock is one method here.
 */
module UdpForwarder {
  import opened Wrappers
  import opened IpAddress
  import opened Configuration

  /** A point in time, in nanoseconds. */
  type Instant = nat

  /** An outbound UDP socket, known only by identity. */
  type SocketId = nat

  const NANOS_PER_SECOND: nat := 1_000_000_000

  /** `UdpSession`: the outbound socket and the last time the session saw traffic. */
  datatype UdpSession = UdpSession(targetSocket: SocketId, lastActivity: Instant)

  /**
   * The session map and the id the next bound socket will get. Ids below
   * `nextSocket` have been handed out.
   */
  datatype Table = Table(sessions: map<SocketAddr, UdpSession>, nextSocket: SocketId)

  /** Every session holds a socket already handed out, and no two sessions share one. */
  predicate WellFormed(t: Table) {
    && (forall c | c in t.sessions :: t.sessions[c].targetSocket < t.nextSocket)
    && (forall a, b | a in t.sessions && b in t.sessions && a != b ::
          t.sessions[a].targetSocket != t.sessions[b].targetSocket)
  }

  /** `Duration::from_secs(rule.timeout_seconds())` in nanoseconds. */
  function TimeoutDuration(rule: UdpRule): (d: nat)
    ensures rule.timeout.Some? ==> d == rule.timeout.value as nat * NANOS_PER_SECOND
    ensures rule.timeout.None? ==> d == 30 * NANOS_PER_SECOND
  {
    rule.TimeoutSeconds() as nat * NANOS_PER_SECOND
  }

  /** `now.duration_since(since)`, which is zero when `since` is later than `now`. */
  function Elapsed(now: Instant, since: Instant): nat {
    if now >= since then now - since else 0
  }

  /** Idle for strictly longer than the timeout. */
  predicate IsExpired(s: UdpSession, now: Instant, timeout: nat) {
    Elapsed(now, s.lastActivity) > timeout
  }

  // ------------------------------------------------------------ removal

  /** `HashMap::remove` on the session map. */
  function RemoveClient(t: Table, client: SocketAddr): (r: Table)
    ensures client !in r.sessions && r.nextSocket == t.nextSocket
    ensures forall c | c != client :: (c in r.sessions <==> c in t.sessions)
    ensures forall c | c in r.sessions :: r.sessions[c] == t.sessions[c]
  {
    t.(sessions := t.sessions - {client})
  }

  /** Removing an absent client changes nothing, so removing twice is removing once. */
  lemma RemoveIdempotent(t: Table, client: SocketAddr)
    ensures client !in t.sessions ==> RemoveClient(t, client) == t
    ensures RemoveClient(RemoveClient(t, client), client) == RemoveClient(t, client)
  {
    if client !in t.sessions {
      assert t.sessions - {client} == t.sessions;
    }
    var once := RemoveClient(t, client);
    assert once.sessions - {client} == once.sessions;
  }

  lemma RemovePreservesWellFormed(t: Table, client: SocketAddr)
    requires WellFormed(t)
    ensures WellFormed(RemoveClient(t, client))
  {
  }

  // ------------------------------------------------------------ refresh

  /** `session.last_activity = Instant::now()` through `get_mut`: the socket stays, the time moves. */
  function Refresh(t: Table, client: SocketAddr, now: Instant): (r: Table)
    requires client in t.sessions
    ensures r.sessions.Keys == t.sessions.Keys && r.nextSocket == t.nextSocket
    ensures r.sessions[client] == UdpSession(t.sessions[client].targetSocket, now)
    ensures forall c | c in t.sessions && c != client :: r.sessions[c] == t.sessions[c]
  {
    t.(sessions := t.sessions[client := t.sessions[client].(lastActivity := now)])
  }

  lemma RefreshPreservesWellFormed(t: Table, client: SocketAddr, now: Instant)
    requires WellFormed(t) && client in t.sessions
    ensures WellFormed(Refresh(t, client, now))
  {
  }

  // ------------------------------------------------------------ get-or-create

  /** What the get-or-create section hands back. */
  datatype Lookup = Lookup(table: Table, session: Option<UdpSession>, created: bool)

  /**
   * The get-or-create section of `handle_udp_packet`, under one write lock: a
   * known client's session is refreshed and reused; an unknown client gets a
   * newly bound socket, unless binding fails, which leaves the table as it was.
   */
  function GetOrCreate(t: Table, client: SocketAddr, now: Instant, bindOk: bool): (r: Lookup)
    ensures r.session.None? <==> client !in t.sessions && !bindOk
    ensures r.created <==> client !in t.sessions && bindOk
    ensures r.session.Some? ==> client in r.table.sessions && r.table.sessions[client] == r.session.value
  {
    if client in t.sessions then
      var refreshed := Refresh(t, client, now);
      Lookup(refreshed, Some(refreshed.sessions[client]), false)
    else if bindOk then
      var newSession := UdpSession(t.nextSocket, now);
      Lookup(Table(t.sessions[client := newSession], t.nextSocket + 1), Some(newSession), true)
    else
      Lookup(t, None, false)
  }

  /**
   * A packet from a client already in the table keeps that session's socket,
   * sets its last activity to now and changes no other entry.
   */
  lemma GetOrCreateHit(t: Table, client: SocketAddr, now: Instant, bindOk: bool)
    requires client in t.sessions
    ensures var r := GetOrCreate(t, client, now, bindOk);
      && !r.created && r.session == Some(UdpSession(t.sessions[client].targetSocket, now))
      && r.table.sessions.Keys == t.sessions.Keys && r.table.sessions[client] == r.session.value
      && r.table.nextSocket == t.nextSocket
      && (forall c | c in t.sessions && c != client :: r.table.sessions[c] == t.sessions[c])
  {
  }

  /**
   * A packet from an unknown client adds exactly one entry, for that client,
   * with a socket no other session holds and last activity now; every other
   * entry stays as it was. When binding fails nothing changes.
   */
  lemma GetOrCreateMiss(t: Table, client: SocketAddr, now: Instant, bindOk: bool)
    requires WellFormed(t) && client !in t.sessions
    ensures var r := GetOrCreate(t, client, now, bindOk);
      && (bindOk ==> r.created && r.session.Some? && r.session.value.lastActivity == now
                     && r.table.sessions.Keys == t.sessions.Keys + {client}
                     && r.table.sessions[client] == r.session.value
                     && (forall c | c in t.sessions ::
                           r.table.sessions[c] == t.sessions[c]
                           && t.sessions[c].targetSocket != r.session.value.targetSocket))
      && (!bindOk ==> r == Lookup(t, None, false))
  {
  }

  lemma GetOrCreatePreservesWellFormed(t: Table, client: SocketAddr, now: Instant, bindOk: bool)
    requires WellFormed(t)
    ensures WellFormed(GetOrCreate(t, client, now, bindOk).table)
  {
  }

  // ------------------------------------------------------------ packet dispatch

  /** Why handling a packet failed: the target address does not parse, or no socket could be bound. */
  datatype PacketError = BadTarget(e: AddrParseError) | BindFailed

  /**
   * The outcome of one packet: the new table, the handler's result, the socket
   * the packet was sent through, and whether a relay was started for a new
   * session.
   */
  datatype Handled = Handled(table: Table, result: Result<(), PacketError>, socket: Option<SocketId>, relayStarted: bool)

  /**
   * `handle_udp_packet`. The target address is resolved first; then the
   * session is looked up or created (starting its relay when created); then
   * the packet is sent, and a failed send removes the client's session. A
   * failed send is logged, not returned.
   */
  function HandlePacket(t: Table, rule: UdpRule, client: SocketAddr, now: Instant, bindOk: bool, sendOk: bool): (r: Handled) {
    match rule.TargetSocketAddr()
    case Failure(e) => Handled(t, Failure(BadTarget(e)), None, false)
    case Success(_) =>
      var l := GetOrCreate(t, client, now, bindOk);
      match l.session
      case None => Handled(l.table, Failure(BindFailed), None, false)
      case Some(session) =>
        var after := if sendOk then l.table else RemoveClient(l.table, client);
        Handled(after, Success(()), Some(session.targetSocket), l.created)
  }

  /**
   * After a packet is sent the client has a session exactly when the send
   * succeeded; a handler that fails before sending leaves the table untouched.
   */
  lemma SendOutcomeDecidesSession(t: Table, rule: UdpRule, client: SocketAddr, now: Instant, bindOk: bool, sendOk: bool)
    ensures var r := HandlePacket(t, rule, client, now, bindOk, sendOk);
      && (r.socket.Some? ==> (client in r.table.sessions <==> sendOk))
      && (r.result.Failure? ==> r.table == t)
      && (r.result.Success? <==> rule.TargetSocketAddr().Success? && (client in t.sessions || bindOk))
  {
  }

  /**
   * Two packets from one client with no removal in between (the first send
   * succeeded) go out through the same socket, and only the first can start a
   * relay.
   */
  lemma SameClientSameSocket(t: Table, rule: UdpRule, client: SocketAddr,
                             now1: Instant, bind1: bool, now2: Instant, bind2: bool, send2: bool)
    requires HandlePacket(t, rule, client, now1, bind1, true).result.Success?
    ensures var first := HandlePacket(t, rule, client, now1, bind1, true);
      var second := HandlePacket(first.table, rule, client, now2, bind2, send2);
      && second.result.Success? && second.socket == first.socket && !second.relayStarted
  {
  }

  lemma HandlePacketPreservesWellFormed(t: Table, rule: UdpRule, client: SocketAddr, now: Instant, bindOk: bool, sendOk: bool)
    requires WellFormed(t)
    ensures WellFormed(HandlePacket(t, rule, client, now, bindOk, sendOk).table)
  {
    GetOrCreatePreservesWellFormed(t, client, now, bindOk);
  }

  // ------------------------------------------------------------ response relay

  /** What one wait of the relay produced. */
  datatype RecvOutcome =
    | Reply(at: Instant, sendOk: bool)  // a datagram from the target at time `at`, and whether sending it on to the client worked
    | SocketError                      // `recv` on the outbound socket failed
    | WaitTimeout                      // nothing arrived within 60 seconds

  /** One iteration of the relay loop: the table after it, what it forwarded, and whether the loop goes on. */
  datatype RelayStep = RelayStep(table: Table, forwarded: seq<Instant>, goOn: bool)

  function Step(t: Table, client: SocketAddr, event: RecvOutcome): (r: RelayStep)
    ensures |r.forwarded| <= 1 && (r.forwarded != [] ==> r.goOn && client in t.sessions)
  {
    match event
    case Reply(at, sendOk) =>
      if client in t.sessions then RelayStep(Refresh(t, client, at), if sendOk then [at] else [], sendOk)
      else RelayStep(t, [], false)
    case SocketError => RelayStep(t, [], false)
    case WaitTimeout => RelayStep(t, [], client in t.sessions)
  }

  /** The table after a run of the relay, the replies it forwarded, and whether it has ended. */
  datatype Relayed = Relayed(table: Table, forwarded: seq<Instant>, ended: bool)

  /**
   * `forward_responses` over a finite run of receive outcomes. The loop stops
   * at the first outcome that breaks it, and the session of `client` is then
   * removed, whichever session that is. If the outcomes run out first, the
   * relay is still waiting.
   */
  function RelayRun(t: Table, client: SocketAddr, events: seq<RecvOutcome>): (r: Relayed)
    ensures |r.forwarded| <= |events|
    ensures events == [] ==> !r.ended
    decreases |events|
  {
    if events == [] then Relayed(t, [], false)
    else
      var s := Step(t, client, events[0]);
      if !s.goOn then Relayed(RemoveClient(s.table, client), s.forwarded, true)
      else
        var rest := RelayRun(s.table, client, events[1..]);
        Relayed(rest.table, s.forwarded + rest.forwarded, rest.ended)
  }

  /**
   * Where a relay stands partway through its outcomes: `done` forwarded so far
   * and, unless it has already `stopped`, `rest` still to come.
   */
  function Resume(t: Table, client: SocketAddr, done: seq<Instant>, stopped: bool, rest: seq<RecvOutcome>): Relayed {
    if stopped then Relayed(RemoveClient(t, client), done, true)
    else
      var r := RelayRun(t, client, rest);
      Relayed(r.table, done + r.forwarded, r.ended)
  }

  /** One more outcome taken from the rest. */
  lemma ResumeStep(t: Table, client: SocketAddr, done: seq<Instant>, events: seq<RecvOutcome>, i: nat)
    requires i < |events|
    ensures var s := Step(t, client, events[i]);
      Resume(t, client, done, false, events[i..]) == Resume(s.table, client, done + s.forwarded, !s.goOn, events[i + 1..])
  {
    assert events[i..][0] == events[i] && events[i..][1..] == events[i + 1..];
    var s := Step(t, client, events[i]);
    if s.goOn {
      var r := RelayRun(s.table, client, events[i + 1..]);
      assert done + (s.forwarded + r.forwarded) == (done + s.forwarded) + r.forwarded;
    }
  }

  /**
   * A reply for a client with no session stops the relay without sending; a
   * reply for a present session refreshes its activity time, keeping its
   * socket, before it is forwarded.
   */
  lemma ReplyRefreshesBeforeForwarding(t: Table, client: SocketAddr, at: Instant, sendOk: bool)
    ensures var s := Step(t, client, Reply(at, sendOk));
      && (client !in t.sessions ==> s == RelayStep(t, [], false))
      && (client in t.sessions ==>
            && s.table.sessions[client] == UdpSession(t.sessions[client].targetSocket, at)
            && s.table.sessions.Keys == t.sessions.Keys
            && (s.forwarded == [at] <==> sendOk) && s.goOn == sendOk)
  {
  }

  /**
   * A relay whose client has no session forwards nothing, ends at its next
   * outcome whatever that is, and leaves the table as it was.
   */
  lemma AbsentClientRelayEnds(t: Table, client: SocketAddr, events: seq<RecvOutcome>)
    requires client !in t.sessions && events != []
    ensures RelayRun(t, client, events) == Relayed(t, [], true)
  {
    RemoveIdempotent(t, client);
  }

  /** However the relay ends, the client has no session afterwards. */
  lemma {:induction false} RelayEndRemovesClient(t: Table, client: SocketAddr, events: seq<RecvOutcome>)
    ensures var r := RelayRun(t, client, events); r.ended ==> client !in r.table.sessions
    decreases |events|
  {
    if events != [] {
      var s := Step(t, client, events[0]);
      if s.goOn {
        RelayEndRemovesClient(s.table, client, events[1..]);
      }
    }
  }

  /** The relay touches no session but its client's, and never hands out a socket. */
  lemma {:induction false} RelayTouchesOnlyItsClient(t: Table, client: SocketAddr, events: seq<RecvOutcome>)
    ensures var r := RelayRun(t, client, events);
      && r.table.nextSocket == t.nextSocket
      && (forall c | c != client :: (c in r.table.sessions <==> c in t.sessions))
      && (forall c | c != client && c in t.sessions :: r.table.sessions[c] == t.sessions[c])
    decreases |events|
  {
    if events != [] {
      var s := Step(t, client, events[0]);
      if s.goOn {
        RelayTouchesOnlyItsClient(s.table, client, events[1..]);
      }
    }
  }

  // ------------------------------------------------------------ sweep

  /** The clients whose sessions have been idle strictly longer than `timeout` at `now`. */
  function ExpiredClients(t: Table, now: Instant, timeout: nat): (r: set<SocketAddr>)
    ensures r <= t.sessions.Keys
  {
    set c | c in t.sessions && IsExpired(t.sessions[c], now, timeout)
  }

  /** `cleanup_expired_sessions` as one step: the expired sessions removed, nothing added. */
  function Sweep(t: Table, now: Instant, timeout: nat): (r: Table)
    ensures r.sessions.Keys <= t.sessions.Keys && r.nextSocket == t.nextSocket
  {
    t.(sessions := t.sessions - ExpiredClients(t, now, timeout))
  }

  /**
   * The sweep keeps exactly the sessions idle for at most the timeout, with
   * their values, and adds none.
   */
  lemma SweepKeepsExactlyTheLive(t: Table, now: Instant, timeout: nat)
    ensures var r := Sweep(t, now, timeout);
      && r.nextSocket == t.nextSocket
      && (forall c :: c in r.sessions <==> c in t.sessions && Elapsed(now, t.sessions[c].lastActivity) <= timeout)
      && (forall c | c in r.sessions :: r.sessions[c] == t.sessions[c])
  {
  }

  /** A second sweep at the same time removes nothing more. */
  lemma SweepIdempotent(t: Table, now: Instant, timeout: nat)
    ensures Sweep(Sweep(t, now, timeout), now, timeout) == Sweep(t, now, timeout)
  {
    var once := Sweep(t, now, timeout);
    assert ExpiredClients(once, now, timeout) == {};
    assert once.sessions - {} == once.sessions;
  }

  lemma SweepPreservesWellFormed(t: Table, now: Instant, timeout: nat)
    requires WellFormed(t)
    ensures WellFormed(Sweep(t, now, timeout))
  {
  }

  /**
   * The sweep a rule's cleanup task runs keeps exactly the sessions idle for
   * at most the rule's timeout in seconds (30 when unset).
   */
  lemma RuleSweepKeepsTheLive(t: Table, rule: UdpRule, now: Instant)
    ensures var r := Sweep(t, now, TimeoutDuration(rule));
      forall c :: c in r.sessions <==>
        c in t.sessions && Elapsed(now, t.sessions[c].lastActivity) <= rule.TimeoutSeconds() as nat * NANOS_PER_SECOND
  {
    SweepKeepsExactlyTheLive(t, now, TimeoutDuration(rule));
  }

  // ------------------------------------------------------------ stale relay

  /**
   * The relay's final removal is keyed by client address, not by socket. A
   * relay whose session was swept away, and which is still waiting when the
   * same client sends again, removes the newer session, which has a different
   * socket and a relay of its own still running.
   */
  lemma StaleRelayEvictsNewerSession(t: Table, rule: UdpRule, client: SocketAddr, timeout: nat, now1: Instant, now2: Instant)
    requires WellFormed(t) && client !in t.sessions && rule.TargetSocketAddr().Success?
    requires now2 > now1 + timeout
    ensures var first := HandlePacket(t, rule, client, now1, true, true);
      var swept := Sweep(first.table, now2, timeout);
      var second := HandlePacket(swept, rule, client, now2, true, true);
      var stale := RelayRun(second.table, client, [WaitTimeout, SocketError]);
      && first.relayStarted && client !in swept.sessions
      && second.relayStarted && second.socket != first.socket
      && client in second.table.sessions && second.table.sessions[client].targetSocket == second.socket.value
      && stale.ended && client !in stale.table.sessions
  {
    var first := HandlePacket(t, rule, client, now1, true, true);
    var swept := Sweep(first.table, now2, timeout);
    assert client in ExpiredClients(first.table, now2, timeout);
    var second := HandlePacket(swept, rule, client, now2, true, true);
    var events := [WaitTimeout, SocketError];
    assert events[1..] == [SocketError];
    var stale := RelayRun(second.table, client, events);
  }

  /**
   * Until it ends, a stale relay serves the client's newer session: its wait
   * timeout sees the client present and goes on, and a late reply on the old
   * socket refreshes the newer session, keeping the newer socket, and is
   * forwarded.
   */
  lemma StaleRelayServesNewerSession(t: Table, client: SocketAddr, at: Instant)
    requires client in t.sessions
    ensures var r := RelayRun(t, client, [WaitTimeout, Reply(at, true)]);
      && !r.ended && r.forwarded == [at]
      && client in r.table.sessions && r.table.sessions[client] == UdpSession(t.sessions[client].targetSocket, at)
  {
    var events := [WaitTimeout, Reply(at, true)];
    var reply := [Reply(at, true)];
    assert events[1..] == reply && reply[1..] == [];
    var refreshed := Refresh(t, client, at);
    assert Step(t, client, WaitTimeout) == RelayStep(t, [], true);
    assert Step(t, client, reply[0]) == RelayStep(refreshed, [at], true);
    assert RelayRun(refreshed, client, []) == Relayed(refreshed, [], false);
    assert RelayRun(t, client, reply) == Relayed(refreshed, [at] + [], false);
    assert RelayRun(t, client, events) == Relayed(refreshed, [] + ([at] + []), false);
  }

  /**
   * `handle_udp_packet` takes the lock once to get or create the session and
   * again to remove it after a failed send. In between, a second packet from
   * the same client can reuse the session and send through it successfully;
   * the first packet's failed send then removes the session the second one
   * just used.
   */
  lemma SendFailureDropsConcurrentHit(t: Table, client: SocketAddr, now1: Instant, now2: Instant)
    requires client !in t.sessions
    ensures var a := GetOrCreate(t, client, now1, true);
      var b := GetOrCreate(a.table, client, now2, true);
      var afterFailedSend := RemoveClient(b.table, client);
      && a.created && !b.created
      && b.session == Some(UdpSession(a.session.value.targetSocket, now2))
      && client in b.table.sessions && client !in afterFailedSend.sessions
  {
  }

  // ------------------------------------------------------------ the shared table

  /** The clients listed in `s`. */
  function Members(s: seq<SocketAddr>): set<SocketAddr> {
    set c | c in s
  }

  /** The `Arc<RwLock<HashMap<SocketAddr, UdpSession>>>` shared by the handler, the relays and the sweep. */
  class SessionTable {
    var sessions: map<SocketAddr, UdpSession>
    var nextSocket: SocketId

    function State(): Table
      reads this
    {
      Table(sessions, nextSocket)
    }

    ghost predicate Valid()
      reads this
    {
      WellFormed(State())
    }

    /** `HashMap::new()`. */
    constructor ()
      ensures Valid() && sessions == map[] && nextSocket == 0
    {
      sessions := map[];
      nextSocket := 0;
    }

    /** `sessions.write().await.remove(&client_addr)`. */
    method Remove(client: SocketAddr)
      requires Valid()
      modifies this
      ensures Valid() && State() == RemoveClient(old(State()), client)
    {
      sessions := sessions - {client};
    }

    /** The get-or-create section of `handle_udp_packet`, under the write lock. */
    method GetOrCreateSession(client: SocketAddr, now: Instant, bindOk: bool) returns (session: Option<UdpSession>, created: bool)
      requires Valid()
      modifies this
      ensures Valid() && GetOrCreate(old(State()), client, now, bindOk) == Lookup(State(), session, created)
    {
      GetOrCreatePreservesWellFormed(State(), client, now, bindOk);
      if client in sessions {
        sessions := sessions[client := sessions[client].(lastActivity := now)];
        session, created := Some(sessions[client]), false;
      } else if bindOk {
        var newSession := UdpSession(nextSocket, now);
        sessions := sessions[client := newSession];
        nextSocket := nextSocket + 1;
        session, created := Some(newSession), true;
      } else {
        session, created := None, false;
      }
    }

    /** `handle_udp_packet`; `relayStarted` says whether a new session's relay was spawned. */
    method HandleUdpPacket(rule: UdpRule, client: SocketAddr, now: Instant, bindOk: bool, sendOk: bool)
      returns (result: Result<(), PacketError>, socket: Option<SocketId>, relayStarted: bool)
      requires Valid()
      modifies this
      ensures Valid()
      ensures HandlePacket(old(State()), rule, client, now, bindOk, sendOk) == Handled(State(), result, socket, relayStarted)
    {
      var target := rule.TargetSocketAddr();
      if target.Failure? {
        return Failure(BadTarget(target.error)), None, false;
      }
      var session, created := GetOrCreateSession(client, now, bindOk);
      if session.None? {
        return Failure(BindFailed), None, false;
      }
      if !sendOk {
        Remove(client);
      }
      return Success(()), Some(session.value.targetSocket), created;
    }

    /** One iteration of the relay loop of `forward_responses`. */
    method RelayIteration(client: SocketAddr, event: RecvOutcome) returns (sent: seq<Instant>, goOn: bool)
      requires Valid()
      modifies this
      ensures Valid()
      ensures Step(old(State()), client, event) == RelayStep(State(), sent, goOn)
    {
      sent, goOn := [], true;
      match event {
        case Reply(at, sendOk) =>
          if client in sessions {
            RefreshPreservesWellFormed(State(), client, at);
            sessions := sessions[client := sessions[client].(lastActivity := at)];
            if sendOk {
              sent := [at];
            } else {
              goOn := false;
            }
          } else {
            goOn := false;
          }
        case SocketError =>
          goOn := false;
        case WaitTimeout =>
          if client !in sessions {
            goOn := false;
          }
      }
    }

    /**
     * `forward_responses` over the given receive outcomes, with no other
     * operation on the table in between.
     */
    method ForwardResponses(client: SocketAddr, events: seq<RecvOutcome>) returns (forwarded: seq<Instant>, ended: bool)
      requires Valid()
      modifies this
      ensures Valid()
      ensures RelayRun(old(State()), client, events) == Relayed(State(), forwarded, ended)
    {
      ghost var start := State();
      forwarded, ended := [], false;
      var i := 0;
      assert events[0..] == events;
      while i < |events| && !ended
        invariant i <= |events| && Valid()
        invariant RelayRun(start, client, events) == Resume(State(), client, forwarded, ended, events[i..])
        decreases |events| - i
      {
        ResumeStep(State(), client, forwarded, events, i);
        var sent, goOn := RelayIteration(client, events[i]);
        forwarded, ended := forwarded + sent, !goOn;
        i := i + 1;
      }
      if ended {
        Remove(client);
      } else {
        assert events[i..] == [];
      }
    }

    /** The read-locked half of `cleanup_expired_sessions`: the clients to drop, each once. */
    method CollectExpired(now: Instant, timeout: nat) returns (expired: seq<SocketAddr>)
      ensures Members(expired) == ExpiredClients(State(), now, timeout)
      ensures forall i, j | 0 <= i < j < |expired| :: expired[i] != expired[j]
    {
      expired := [];
      var remaining := sessions.Keys;
      while remaining != {}
        invariant remaining <= sessions.Keys
        invariant forall c :: c in expired <==> c in sessions && c !in remaining && IsExpired(sessions[c], now, timeout)
        invariant forall i, j | 0 <= i < j < |expired| :: expired[i] != expired[j]
        decreases |remaining|
      {
        var c :| c in remaining;
        if IsExpired(sessions[c], now, timeout) {
          expired := expired + [c];
        }
        remaining := remaining - {c};
      }
      assert Members(expired) == ExpiredClients(State(), now, timeout);
    }

    /** The write-locked half: every collected client removed. */
    method RemoveAll(clients: seq<SocketAddr>)
      requires Valid()
      modifies this
      ensures Valid()
      ensures sessions == old(sessions) - Members(clients) && nextSocket == old(nextSocket)
    {
      for i := 0 to |clients|
        invariant Valid() && nextSocket == old(nextSocket)
        invariant sessions == old(sessions) - Members(clients[..i])
      {
        assert Members(clients[..i + 1]) == Members(clients[..i]) + {clients[i]} by {
          assert clients[..i + 1] == clients[..i] + [clients[i]];
        }
        Remove(clients[i]);
      }
      assert clients[..|clients|] == clients;
    }

    /**
     * `cleanup_expired_sessions` with no other operation between its read and
     * its write section.
     */
    method CleanupExpiredSessions(now: Instant, timeout: nat)
      requires Valid()
      modifies this
      ensures Valid() && State() == Sweep(old(State()), now, timeout)
    {
      var expired := CollectExpired(now, timeout);
      if |expired| > 0 {
        RemoveAll(expired);
      } else {
        assert sessions - {} == sessions;
      }
    }
  }
}
