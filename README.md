# porture: the UDP session table and the configuration, in Dafny

porture is a TCP/UDP port forwarder. Each rule binds a local endpoint and
relays traffic to one fixed target. This project models two parts of it and
proves what they promise.

**The configuration** (`src/config.rs`, modules `Configuration`,
`IpAddress`, `TomlWriter`, `TomlProperties`, `TomlText`):
- Each TCP or UDP rule turns its `bind_addr` and `target_addr` into socket
  addresses with `IpAddr::from_str`. `IpAddress` models that parser concretely:
  dotted-decimal IPv4 with no leading zeros, and IPv6 with `::` and an
  embedded IPv4 tail.
- Rule names are derived when no name is given.
- A UDP rule's idle timeout defaults to 30 seconds.
- `Config::validate` checks every TCP rule and then every UDP rule, and
  stops at the first failure.
- The built-in default configuration is modelled.
- The commented TOML text written by `to_toml_with_comments` is modelled.
  The writer method is proved to produce `Emit(TomlDoc(c))`. `TomlDoc(c)` is
  the file described line by line: a `Line` is one line without its newline,
  and `Emit` spells the lines one after another, each followed by `\n`. The
  properties of the file are proved about that description:
  - the fixed header comes first and ends with `[global]`;
  - there is one `[[tcp]]` table per TCP rule, followed by one `[[udp]]` table
    per UDP rule, in list order, and each rule's four endpoint settings appear
    in its own block, so the text fixes every rule's endpoints in place;
  - `name`, `timeout`, `log_level` and `buffer_size` are written exactly when
    they are set, and the timeout comment is always written;
  - when no string holds a newline, splitting the text at `\n` gives back the
    rendered lines.

**The UDP session table** (`src/udp_forwarder.rs`, module `UdpForwarder`):
- UDP has no connections, so the forwarder keeps one session per client
  address. A session holds an outbound socket towards the target and the time
  it last saw traffic.
- `SessionTable` is the shared map, modelled as a class whose methods are the
  table operations of the source, each run as one step. Each method is proved
  equal to a function on values:
  - `HandleUdpPacket` equals `HandlePacket`: get-or-create, then send, and a
    failed send removes the session;
  - `ForwardResponses` equals `RelayRun`, the per-session relay loop and its
    final removal;
  - `CleanupExpiredSessions` equals `Sweep`, which drops the sessions idle for
    strictly longer than the timeout.
- Sockets are opaque ids handed out in increasing order. Time is a count of
  nanoseconds passed in by the caller. Every socket outcome (bind, send,
  receive, wait timeout) is a parameter.
- The model also shows a behaviour of the source: the relay looks up and
  removes its session by client address, not by socket. A relay whose session
  was swept, and which is still waiting when the same client sends again,
  serves the client's newer session until it ends: a wait timeout goes on, and
  a late reply refreshes the newer session and is forwarded
  (`StaleRelayServesNewerSession`). When it ends, on a receive error or a
  failed send to the client, it removes that newer session
  (`StaleRelayEvictsNewerSession`).

## Model

| member | source | states |
|---|---|---|
| Configuration.ResolveSocketAddr | src/config.rs:192-193 | succeeds exactly when the text is an IP address; the socket address carries that address and the given port; on failure, the error names the rejected text |
| Configuration.CheckEndpoints | src/config.rs:201-205 | succeeds exactly when both addresses are IP addresses; the error is the bind address's when that one fails, otherwise the target's |
| Configuration.TcpRule.BindSocketAddr | src/config.rs:191-194 | succeeds exactly when `bind_addr` parses; the address is the one `bind_addr` parses to and the port is `bind_port` |
| Configuration.TcpRule.TargetSocketAddr | src/config.rs:196-199 | succeeds exactly when `target_addr` parses; the address is the one `target_addr` parses to and the port is `target_port` |
| Configuration.TcpRule.Validate | src/config.rs:201-205 | a TCP rule is valid iff both its socket addresses resolve; the bind address is checked first |
| Configuration.TcpRule.RuleName | src/config.rs:207-213 | the configured name when set, otherwise `tcp_<bind>:<port>_to_<target>:<port>` |
| Configuration.UdpRule.BindSocketAddr | src/config.rs:217-220 | succeeds exactly when `bind_addr` parses; the address is the one `bind_addr` parses to and the port is `bind_port` |
| Configuration.UdpRule.TargetSocketAddr | src/config.rs:222-225 | succeeds exactly when `target_addr` parses; the address is the one `target_addr` parses to and the port is `target_port` |
| Configuration.UdpRule.Validate | src/config.rs:227-231 | a UDP rule is valid iff both its socket addresses resolve; the bind address is checked first |
| Configuration.UdpRule.RuleName | src/config.rs:233-239 | the configured name when set, otherwise `udp_<bind>:<port>_to_<target>:<port>` |
| Configuration.UdpRule.TimeoutSeconds | src/config.rs:241-243 | the configured timeout when set, otherwise 30 |
| Configuration.DerivedNamesKeepProtocolsApart | src/config.rs:207-239 | derived names start with `tcp_` or `udp_`, so an unnamed TCP rule and an unnamed UDP rule never share a name |
| Configuration.Config.RuleResults | src/config.rs:173-187 | one validation outcome per rule, TCP rules then UDP rules |
| Configuration.TcpResults | src/config.rs:175-177 | one outcome per TCP rule; outcome `i` is the validation of rule `i` |
| Configuration.UdpResults | src/config.rs:181-183 | one outcome per UDP rule; outcome `i` is the validation of rule `i` |
| Configuration.ValidateTcpRules | src/config.rs:174-178 | the TCP loop succeeds iff every TCP rule validates, and otherwise returns the first failing rule's error |
| Configuration.ValidateUdpRules | src/config.rs:180-184 | the UDP loop succeeds iff every UDP rule validates, and otherwise returns the first failing rule's error |
| Configuration.AllPassJoin | src/config.rs:173-187 | the two lists of outcomes pass together exactly when each one passes |
| Configuration.FirstFailureExtends | src/config.rs:174-178 | a failure in the TCP rules stops validation before any UDP rule and decides the error |
| Configuration.FirstFailureAfterPasses | src/config.rs:180-184 | once every TCP rule passes, the first failing UDP rule decides the error |
| Configuration.Config.Validate | src/config.rs:173-187 | succeeds iff every rule validates; otherwise it returns the error of the first failing rule, where every TCP rule comes before every UDP rule; an absent list counts as empty |
| Configuration.FailureAt | src/config.rs:174-184 | a failure preceded only by successes is the first failure, and the outcomes do not all pass |
| Configuration.AddressesDecideValidity | src/config.rs:173-187 | a configuration whose rule addresses are all IP addresses passes validation |
| Configuration.DefaultConfig | src/config.rs:44-77 | `create_default_config`: global `info` and 8192 bytes, the web and ssh TCP rules and the DNS UDP rule; its properties are `DefaultConfigIsValid` |
| Configuration.DefaultConfigIsValid | src/config.rs:44-77 | the default configuration validates, uses 8192-byte buffers, has two TCP rules and one UDP rule, and that rule's timeout is 30 s |
| Configuration.DefaultTcpAddressesAreIp | src/config.rs:50-65 | every address in the default TCP rules parses |
| Configuration.DefaultUdpAddressesAreIp | src/config.rs:66-75 | every address in the default UDP rule parses |
| Configuration.LoopbackIsIp | src/config.rs:52 | `127.0.0.1` parses as an IP address |
| Configuration.GoogleDnsIsIp | src/config.rs:70 | `8.8.8.8` parses as an IP address |
| IpAddress.Octets | src/config.rs:192 | pieces give octets exactly when each piece is an octet (1-3 digits, no leading zero, at most 255); one octet per piece |
| IpAddress.OctetsValues | src/config.rs:192 | each octet read is the decimal value of its piece |
| IpAddress.ParseIpv4 | src/config.rs:192 | an IPv4 address has exactly four octets |
| IpAddress.FormatIpv4Pieces | src/config.rs:192 | the dotted form is the four decimal octets joined by dots |
| IpAddress.Ipv4RoundTrip | src/config.rs:192 | parsing the dotted-decimal spelling of any four octets gives back those octets |
| IpAddress.ParseIpv6 | src/config.rs:192 | an IPv6 address has exactly eight 16-bit groups |
| IpAddress.HexText | src/config.rs:192 | the hex spelling of a number is non-empty and all hex digits |
| IpAddress.HexRoundTrip | src/config.rs:192 | reading back a number's hex spelling gives the number |
| IpAddress.Ipv6RoundTrip | src/config.rs:192 | every full eight-group spelling (groups in hex, joined by `:`) parses back to its groups, as an IPv6 address and not an IPv4 one |
| IpAddress.ParseIp | src/config.rs:192 | `IpAddr::from_str`: a V4 result has four octets and a V6 result has eight groups |
| IpAddress.Ipv6Loopback | src/config.rs:192 | `::1` parses as the IPv6 loopback address |
| IpAddress.Ipv6Unspecified | src/config.rs:192 | `::` parses as eight zero groups |
| Numeric.DecimalText | src/config.rs:118 | the `{}` spelling of a number is non-empty, all digits, and has a leading `0` only for zero |
| Numeric.DecimalRoundTrip | src/config.rs:118 | reading back a number's decimal spelling gives the number |
| Text.SplitJoin | src/config.rs:85-156 | splitting at a separator undoes joining pieces that do not contain it |
| TomlWriter.PushLine | src/config.rs:86-155 | one `push_str` of a line and its newline extends the text by exactly that line |
| TomlWriter.PushHeader | src/config.rs:88-98 | writes the eight header comment lines, a blank line, the global heading and `[global]`, in that order |
| TomlWriter.PushGlobal | src/config.rs:99-109 | writes the log-level comment always; when `global` is present, `log_level` if set, the buffer-size comment, and `buffer_size` if set; then a blank line |
| TomlWriter.PushEndpoints | src/config.rs:115-122 | writes the commented bind and target address and port lines of a rule |
| TomlWriter.PushTcpBlock | src/config.rs:114-127 | writes `[[tcp]]`, the endpoints, the commented name when set, and a blank line |
| TomlWriter.PushUdpBlock | src/config.rs:134-151 | writes `[[udp]]`, the endpoints, the commented name when set, the timeout comment, the timeout when set, and a blank line |
| TomlWriter.TcpBlocksSnoc | src/config.rs:113-128 | the blocks of the first `i + 1` TCP rules are those of the first `i` followed by rule `i`'s block |
| TomlWriter.PushTcpBlocks | src/config.rs:113-128 | the loop writes one block per TCP rule, in list order |
| TomlWriter.PushTcpSection | src/config.rs:111-129 | an absent TCP list writes nothing; a present one writes its heading and its blocks |
| TomlWriter.UdpBlocksSnoc | src/config.rs:133-152 | the blocks of the first `i + 1` UDP rules are those of the first `i` followed by rule `i`'s block |
| TomlWriter.PushUdpBlocks | src/config.rs:133-152 | the loop writes one block per UDP rule, in list order |
| TomlWriter.PushUdpSection | src/config.rs:131-153 | an absent UDP list writes nothing; a present one writes its heading and its blocks |
| TomlWriter.TomlDoc | src/config.rs:85-156 | the lines the writer produces for a configuration, in order; its properties are the `TomlProperties` and `TomlText` lemmas |
| TomlWriter.ToTomlWithComments | src/config.rs:85-156 | the text written is exactly the header, the global body, the TCP section and then the UDP section of `TomlDoc(c)` |
| TomlProperties.TcpNameIffSet | src/config.rs:123-126 | a TCP block writes a `name` setting iff the rule has a name, and that setting holds the name |
| TomlProperties.UdpNameIffSet | src/config.rs:143-146 | a UDP block writes a `name` setting iff the rule has a name, and that setting holds the name |
| TomlProperties.UdpTimeoutIffSet | src/config.rs:147-150 | a UDP block writes a `timeout` setting iff the rule sets one, and that setting holds the timeout |
| TomlProperties.UdpBlockComments | src/config.rs:134-151 | a UDP block's comments are the four endpoint comments, the name comment iff named, and the timeout comment always |
| TomlProperties.RuleBodyShape | src/config.rs:115-126 | a rule's endpoint and name lines open no table and set each of `bind_addr`, `bind_port`, `target_addr`, `target_port` once, to the rule's value |
| TomlProperties.TcpBlockShape | src/config.rs:114-127 | a TCP block opens exactly one `[[tcp]]` table and sets each endpoint key once, to the rule's value |
| TomlProperties.UdpBlockShape | src/config.rs:134-151 | a UDP block opens exactly one `[[udp]]` table and sets each endpoint key once, to the rule's value |
| TomlProperties.TcpBlocksInOrder | src/config.rs:113-128 | the TCP loop adds one `[[tcp]]` per rule and, for each endpoint key, the rules' values in list order |
| TomlProperties.UdpBlocksInOrder | src/config.rs:133-152 | the UDP loop adds one `[[udp]]` per rule and, for each endpoint key, the rules' values in list order |
| TomlProperties.HeaderHasOnlyComments | src/config.rs:87-97 | the header lines are comments, blank lines and the `[global]` heading: whatever else is picked out of the file, the header adds nothing to it |
| TomlProperties.GlobalHasNoRules | src/config.rs:98-108 | the `[global]` body opens no array table and sets no endpoint key, whichever global settings are present |
| TomlProperties.PreambleHasNoRules | src/config.rs:87-108 | the header and the global body open no array table and set no endpoint key |
| TomlProperties.TcpSectionInOrder | src/config.rs:111-129 | the TCP section adds one `[[tcp]]` per rule, none when the list is absent, with each endpoint key's values in order |
| TomlProperties.UdpSectionInOrder | src/config.rs:131-153 | the UDP section adds one `[[udp]]` per rule, none when the list is absent, with each endpoint key's values in order |
| TomlProperties.RulesInOrderAfter | src/config.rs:88-153 | after any earlier lines, the header and body add the rule tables and each endpoint key's values, TCP rules then UDP rules, each list in order |
| TomlProperties.RulesInOrder | src/config.rs:111-153 | the file's array tables are one `[[tcp]]` per TCP rule followed by one `[[udp]]` per UDP rule; for each endpoint key, the values appear in list order, TCP before UDP |
| TomlProperties.TableCounts | src/config.rs:110-153 | the run of `[[tcp]]` tables then `[[udp]]` tables fixes how many of each there are |
| TomlProperties.SameTextSameSettings | src/config.rs:111-153 | two configurations with the same text have as many TCP and UDP rules and the same endpoint values, list by list |
| TomlProperties.FileFixesEndpoints | src/config.rs:111-153 | two configurations with the same text agree, rule by rule and in order, on every rule's bind and target address and port: no two rules can trade places |
| TomlProperties.SectionsNoGlobal | src/config.rs:111-153 | the rule sections set neither `log_level` nor `buffer_size` |
| TomlProperties.PreambleGlobalSettings | src/config.rs:99-109 | the global body sets `log_level` and `buffer_size` each exactly once when present and set, and not otherwise |
| TomlProperties.GlobalSettingsIffSet | src/config.rs:99-109 | in the whole file, `log_level` appears once with its value iff the global table sets it, and likewise `buffer_size` |
| TomlText.BodyExtends | src/config.rs:99-153 | everything after the header only appends lines |
| TomlText.HeaderComesFirst | src/config.rs:88-98 | the text starts with the header, whose first line is `# Porture Configuration File` |
| TomlText.HeaderEndsWithGlobalTable | src/config.rs:97-98 | the header's last line is `[global]` |
| TomlText.EmitJoins | src/config.rs:85-156 | the text is the rendered lines joined by `\n` and ending with one |
| TomlText.TextLines | src/config.rs:85-156 | when no line holds a newline, splitting the text at `\n` gives the rendered lines followed by one empty piece |
| UdpForwarder.TimeoutDuration | src/udp_forwarder.rs:44 | the idle timeout in nanoseconds: the configured seconds times 10^9, or 30 s when the rule sets none |
| UdpForwarder.RemoveClient | src/udp_forwarder.rs:147 | the client's entry is gone and every other entry is unchanged |
| UdpForwarder.RemoveIdempotent | src/udp_forwarder.rs:197 | removing an absent client changes nothing, so a second removal is a no-op |
| UdpForwarder.RemovePreservesWellFormed | src/udp_forwarder.rs:147 | removal keeps every session's socket distinct and handed out |
| UdpForwarder.Refresh | src/udp_forwarder.rs:104-107 | a refresh keeps the client's socket, sets its last activity and changes no other entry |
| UdpForwarder.RefreshPreservesWellFormed | src/udp_forwarder.rs:104-107 | a refresh keeps every session's socket distinct |
| UdpForwarder.GetOrCreate | src/udp_forwarder.rs:102-141 | no session exactly when the client is unknown and binding fails; created exactly when unknown and binding works; a session handed back is the client's entry |
| UdpForwarder.GetOrCreateHit | src/udp_forwarder.rs:103-107 | a known client keeps its socket, its last activity becomes now, nothing is created and no other entry changes |
| UdpForwarder.GetOrCreateMiss | src/udp_forwarder.rs:108-120 | an unknown client gets exactly one new entry, with a socket no other session holds; a failed bind leaves the table unchanged and yields no session |
| UdpForwarder.GetOrCreatePreservesWellFormed | src/udp_forwarder.rs:102-141 | get-or-create keeps sockets distinct, so a client's replies cannot reach another client |
| UdpForwarder.HandlePacket | src/udp_forwarder.rs:91-153 | the packet handler on values; its properties are `SendOutcomeDecidesSession`, `SameClientSameSocket` and `HandlePacketPreservesWellFormed` |
| UdpForwarder.SendOutcomeDecidesSession | src/udp_forwarder.rs:143-150 | after a packet is sent, the client has a session iff the send succeeded; an early error leaves the table untouched; the handler succeeds iff the target parses and the client is known or a socket binds |
| UdpForwarder.SameClientSameSocket | src/udp_forwarder.rs:102-141 | two packets from one client with no removal between them use the same socket, and only the first starts a relay |
| UdpForwarder.HandlePacketPreservesWellFormed | src/udp_forwarder.rs:91-153 | handling a packet keeps the table well formed |
| UdpForwarder.Step | src/udp_forwarder.rs:165-193 | one relay iteration forwards at most one reply, and only for a present client when the loop goes on |
| UdpForwarder.RelayRun | src/udp_forwarder.rs:164-197 | the relay over a run of outcomes forwards at most one reply per outcome, and has not ended when no outcome came |
| UdpForwarder.ResumeStep | src/udp_forwarder.rs:164-194 | taking one more receive outcome advances the relay by one step |
| UdpForwarder.ReplyRefreshesBeforeForwarding | src/udp_forwarder.rs:166-182 | a reply for a removed session stops the relay unsent; otherwise the session is refreshed, keeping its socket, and the reply is forwarded iff the send succeeds |
| UdpForwarder.AbsentClientRelayEnds | src/udp_forwarder.rs:164-197 | a relay whose client has no session forwards nothing, ends at its next outcome of any kind, and leaves the table as it was |
| UdpForwarder.RelayEndRemovesClient | src/udp_forwarder.rs:164-197 | however the relay loop ends, the client has no session afterwards |
| UdpForwarder.RelayTouchesOnlyItsClient | src/udp_forwarder.rs:164-197 | the relay changes no other client's entry and binds no socket |
| UdpForwarder.ExpiredClients | src/udp_forwarder.rs:210-217 | the expired clients are among the table's clients |
| UdpForwarder.Sweep | src/udp_forwarder.rs:203-226 | the sweep only removes sessions and hands out no socket |
| UdpForwarder.SweepKeepsExactlyTheLive | src/udp_forwarder.rs:203-226 | after the sweep a client has a session iff it had one idle for at most the timeout; kept sessions are unchanged |
| UdpForwarder.SweepIdempotent | src/udp_forwarder.rs:203-226 | a second sweep at the same time removes nothing |
| UdpForwarder.RuleSweepKeepsTheLive | src/udp_forwarder.rs:44-53 | the sweep a rule's cleanup task runs keeps exactly the sessions idle for at most the rule's timeout in seconds, 30 when unset |
| UdpForwarder.SweepPreservesWellFormed | src/udp_forwarder.rs:219-225 | the sweep keeps the table well formed |
| UdpForwarder.StaleRelayEvictsNewerSession | src/udp_forwarder.rs:197 | a swept session's relay that ends after the same client sends again removes the client's newer session, which holds a different socket |
| UdpForwarder.StaleRelayServesNewerSession | src/udp_forwarder.rs:164-194 | until it ends, a relay keyed by client address goes on at a wait timeout while the client has a newer session, and a late reply refreshes that session, keeping its socket, and is forwarded |
| UdpForwarder.SendFailureDropsConcurrentHit | src/udp_forwarder.rs:102-147 | if a second packet from a new client reuses the session between the first packet's get-or-create and its failed send, that failed send removes the session the second packet used |
| UdpForwarder.SessionTable.constructor | src/udp_forwarder.rs:40-41 | the table starts empty and well formed |
| UdpForwarder.SessionTable.Remove | src/udp_forwarder.rs:147 | the client's entry is removed and nothing else changes |
| UdpForwarder.SessionTable.GetOrCreateSession | src/udp_forwarder.rs:102-141 | the write-locked section leaves exactly the state and session `GetOrCreate` describes |
| UdpForwarder.SessionTable.HandleUdpPacket | src/udp_forwarder.rs:91-153 | the new table, result, socket and relay start are those of `HandlePacket` |
| UdpForwarder.SessionTable.RelayIteration | src/udp_forwarder.rs:165-193 | one loop iteration leaves the table, forwarded reply and continue flag of `Step` |
| UdpForwarder.SessionTable.ForwardResponses | src/udp_forwarder.rs:155-201 | the loop and the final removal leave the table, forwarded replies and end flag of `RelayRun` |
| UdpForwarder.SessionTable.CollectExpired | src/udp_forwarder.rs:207-217 | the read-locked scan lists exactly the expired clients, each once |
| UdpForwarder.SessionTable.RemoveAll | src/udp_forwarder.rs:219-225 | the write-locked batch removes exactly the listed clients |
| UdpForwarder.SessionTable.CleanupExpiredSessions | src/udp_forwarder.rs:203-226 | the whole cleanup leaves exactly `Sweep` of the previous table |

## Left out

- Sockets, datagrams and their payloads are not modelled. Every socket outcome is a parameter: bind success, send success, and receive as reply, error or timeout. Buffer sizes and the payload bytes play no part.
- `UdpForwarder::start` (src/udp_forwarder.rs:28-88) is not modelled: binding the listener, spawning the 30-second cleanup interval and the receive loop. The model starts from the table those create.
- Concurrency: tasks, `tokio::spawn` and the `RwLock` are not modelled. Each method runs as one step, with no other operation on the table during it. `CleanupExpiredSessions` composes its read-locked and write-locked halves with nothing in between, whereas the source can interleave other tasks there. `CollectExpired` and `RemoveAll` are the separate halves.
- UdpForwarder.SessionTable.HandleUdpPacket runs its two locked sections, get-or-create and the removal after a failed send, with nothing in between. In the source another packet from the same client can reuse the session between them and then lose it to the first packet's failed send; `SendFailureDropsConcurrentHit` shows that interleaving on the value functions.
- UdpForwarder.SessionTable.ForwardResponses runs every iteration's locked lookup and the final removal with no other operation in between. In the source the sweep and other packets can change the table between iterations. That is how a relay comes to act on a newer session of its client (`StaleRelayServesNewerSession`, `StaleRelayEvictsNewerSession`, stated on the value functions). It also runs over a finite sequence of receive outcomes. A relay that never stops is represented by its finite prefixes (`ended` false).
- Time is an explicit nanosecond count. `Instant::now()` is the caller's `now`, and `duration_since` saturates at zero as in Rust.
- Logging (`info!`, `debug!`, `error!`) is not modelled.
- `Configuration.ResolveSocketAddr`, `Configuration.CheckEndpoints` and `Config.Validate` use an `AddrParseError` that carries the rejected text. Rust's error carries no text. It is kept so that which rule failed first is visible in the result.
- IpAddress.ParseIpv6: for all inputs, only the result's shape and the round trip of the full eight-group spelling are proved. Compressed spellings with `::` and embedded IPv4 tails are proved only for `::1` and `::`.
- `IpAddress.ParseIp` follows the IPv4 and IPv6 text forms (section 2.2 of RFC 4291). It does not accept zone identifiers or bracketed forms, and it is not claimed to match every corner of Rust's parser.
- `TomlText.TextLines` holds only for files whose strings contain no newline. A newline inside a name, an address or the log level would split a line. Newline-freedom of the fixed comment texts is part of its precondition and is not proved separately.
- `TomlText.HeaderComesFirst` and `TomlText.HeaderEndsWithGlobalTable` are stated for any lines written before the header. The writer starts from none.
- The TOML text is not parsed back. The writer does not escape quotes, and neither does the model, so a string holding `"` gives text that does not read back as the same value.
- `Config::from_file`, `save_to_file` and `from_file_or_create_default` read and write files. They are not modelled beyond the text that `save_to_file` writes.
- `src/tcp_forwarder.rs` and `src/main.rs` are not part of this model. They start forwarders from validated rules and copy TCP byte streams.
