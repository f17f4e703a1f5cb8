/**
 * `Config::to_toml_with_comments` (`src/config.rs`): the configuration file
 * text, written with a comment before each setting.
 *
 * The text is described line by line: `Line` is one line of the file without
 * its newline, `Render` spells it, and `Emit` joins rendered lines, each
 * followed by `\n`. `TomlDoc` lists the lines written for a configuration,
 * and the writer method is proved to produce exactly `Emit(TomlDoc(c))`.
 */
module TomlWriter {
  import opened Wrappers
  import opened Numeric
  import opened Text
  import opened Configuration

  datatype Key = LogLevel | BufferSize | BindAddr | BindPort | TargetAddr | TargetPort | Name | Timeout

  function KeyText(k: Key): string {
    match k
    case LogLevel => "log_level"
    case BufferSize => "buffer_size"
    case BindAddr => "bind_addr"
    case BindPort => "bind_port"
    case TargetAddr => "target_addr"
    case TargetPort => "target_port"
    case Name => "name"
    case Timeout => "timeout"
  }

  /** A setting's value: a string, quoted but not escaped, or a number in decimal. */
  datatype Value = Str(s: string) | Num(n: nat)

  /** The fixed comment lines of the file. */
  datatype Note =
    | Title
    | Tagline
    | Spacer
    | Generated
    | EditHint
    | DocsHint
    | DocsLink
    | GlobalHeading
    | LogLevelHelp
    | BufferSizeHelp
    | TcpHeading
    | UdpHeading
    | BindAddrHelp
    | BindPortHelp
    | TargetAddrHelp
    | TargetPortHelp
    | NameHelp
    | TimeoutHelp

  function NoteText(n: Note): string {
    match n
    case Title => "Porture Configuration File"
    case Tagline => "TCP/UDP Port Forwarding Tool"
    case Spacer => ""
    case Generated => "This configuration was automatically generated."
    case EditHint => "Please edit it to suit your needs."
    case DocsHint => "For more examples and documentation, visit:"
    case DocsLink => "https://github.com/AptS-1547/porture"
    case GlobalHeading => "Global settings"
    case LogLevelHelp => "Log level: error, warn, info, debug, trace"
    case BufferSizeHelp => "Buffer size for data transfer (in bytes)"
    case TcpHeading => "TCP forwarding rules"
    case UdpHeading => "UDP forwarding rules"
    case BindAddrHelp => "Local address to bind to (use \"0.0.0.0\" for all interfaces)"
    case BindPortHelp => "Local port to bind to"
    case TargetAddrHelp => "Target address to forward to"
    case TargetPortHelp => "Target port to forward to"
    case NameHelp => "Optional: rule name for logging"
    case TimeoutHelp => "UDP session timeout in seconds"
  }

  datatype Line =
    | Comment(note: Note)
    | Blank
    | Table(name: string)
    | ArrayTable(name: string)
    | Setting(key: Key, value: Value)

  /** The line holds no newline in any of its strings. */
  predicate LineFree(l: Line) {
    match l
    case Comment(n) => '\n' !in NoteText(n)
    case Blank => true
    case Table(n) => '\n' !in n
    case ArrayTable(n) => '\n' !in n
    case Setting(_, Str(s)) => '\n' !in s
    case Setting(_, Num(_)) => true
  }

  function ValueText(v: Value): string {
    match v
    case Str(s) => "\"" + s + "\""
    case Num(n) => DecimalText(n)
  }

  /** One line of the file, without its newline. */
  function Render(l: Line): string {
    match l
    case Comment(n) => "# " + NoteText(n)
    case Blank => ""
    case Table(n) => "[" + n + "]"
    case ArrayTable(n) => "[[" + n + "]]"
    case Setting(k, v) => KeyText(k) + " = " + ValueText(v)
  }

  /** The lines written so far, the latest outermost. */
  datatype Lines = Start | Then(before: Lines, last: Line)
  {
    /** These lines followed by `l`. */
    function Add(l: Line): Lines {
      Then(this, l)
    }
  }

  /** The lines rendered one after another, each ended by a newline. */
  function Emit(lines: Lines): string {
    match lines
    case Start => ""
    case Then(before, l) => Emit(before) + Render(l) + "\n"
  }

  // ------------------------------------------------------------ the document
  //
  // Each `With…` function gives the lines written so far followed by the lines
  // one part of the writer adds, in the order it adds them.

  /** The fixed opening of every file, up to and including the `[global]` table header. */
  function WithHeader(lines: Lines): Lines {
    lines.Add(Comment(Title))
      .Add(Comment(Tagline))
      .Add(Comment(Spacer))
      .Add(Comment(Generated))
      .Add(Comment(EditHint))
      .Add(Comment(Spacer))
      .Add(Comment(DocsHint))
      .Add(Comment(DocsLink))
      .Add(Blank)
      .Add(Comment(GlobalHeading))
      .Add(Table("global"))
  }

  /**
   * The body of the `[global]` table and the blank line after it: the log level
   * comment always, the rest only when `global` is present, and each setting
   * only when it is set.
   */
  function WithGlobal(lines: Lines, global: Option<GlobalConfig>): Lines {
    var started := lines.Add(Comment(LogLevelHelp));
    var settings :=
      match global
      case None => started
      case Some(g) =>
        var logged := if g.logLevel.Some? then started.Add(Setting(LogLevel, Str(g.logLevel.value))) else started;
        var commented := logged.Add(Comment(BufferSizeHelp));
        if g.bufferSize.Some? then commented.Add(Setting(BufferSize, Num(g.bufferSize.value as nat))) else commented;
    settings.Add(Blank)
  }

  /** The four commented endpoint settings shared by TCP and UDP rules. */
  function WithEndpoints(lines: Lines, bindAddr: string, bindPort: u16, targetAddr: string, targetPort: u16): Lines {
    lines.Add(Comment(BindAddrHelp))
      .Add(Setting(BindAddr, Str(bindAddr)))
      .Add(Comment(BindPortHelp))
      .Add(Setting(BindPort, Num(bindPort as nat)))
      .Add(Comment(TargetAddrHelp))
      .Add(Setting(TargetAddr, Str(targetAddr)))
      .Add(Comment(TargetPortHelp))
      .Add(Setting(TargetPort, Num(targetPort as nat)))
  }

  function WithName(lines: Lines, name: Option<string>): Lines {
    if name.Some? then lines.Add(Comment(NameHelp)).Add(Setting(Name, Str(name.value))) else lines
  }

  function WithTcpBlock(lines: Lines, r: TcpRule): Lines {
    WithName(WithEndpoints(lines.Add(ArrayTable("tcp")), r.bindAddr, r.bindPort, r.targetAddr, r.targetPort), r.name).Add(Blank)
  }

  /** A UDP block always carries the timeout comment; the setting follows only when set. */
  function WithUdpBlock(lines: Lines, r: UdpRule): Lines {
    var named := WithName(WithEndpoints(lines.Add(ArrayTable("udp")), r.bindAddr, r.bindPort, r.targetAddr, r.targetPort), r.name);
    var commented := named.Add(Comment(TimeoutHelp));
    (if r.timeout.Some? then commented.Add(Setting(Timeout, Num(r.timeout.value as nat))) else commented).Add(Blank)
  }

  function WithTcpBlocks(lines: Lines, rs: seq<TcpRule>): Lines
    decreases |rs|
  {
    if rs == [] then lines else WithTcpBlock(WithTcpBlocks(lines, rs[..|rs| - 1]), rs[|rs| - 1])
  }

  function WithUdpBlocks(lines: Lines, rs: seq<UdpRule>): Lines
    decreases |rs|
  {
    if rs == [] then lines else WithUdpBlock(WithUdpBlocks(lines, rs[..|rs| - 1]), rs[|rs| - 1])
  }

  /** An absent list writes nothing, not even its section comment. */
  function WithTcpSection(lines: Lines, tcp: Option<seq<TcpRule>>): Lines {
    if tcp.Some? then WithTcpBlocks(lines.Add(Comment(TcpHeading)), tcp.value) else lines
  }

  function WithUdpSection(lines: Lines, udp: Option<seq<UdpRule>>): Lines {
    if udp.Some? then WithUdpBlocks(lines.Add(Comment(UdpHeading)), udp.value) else lines
  }

  /** Everything after the header: the `[global]` body, then the TCP and UDP sections. */
  function WithBody(lines: Lines, c: Config): Lines {
    WithUdpSection(WithTcpSection(WithGlobal(lines, c.global), c.tcp), c.udp)
  }

  /** Every line written for `c`, in order. */
  function TomlDoc(c: Config): Lines {
    WithBody(WithHeader(Start), c)
  }

  // ------------------------------------------------------------ the writer

  /** `content.push_str` of one line and its newline; `written` follows the lines so far. */
  method PushLine(content: string, ghost lines: Lines, l: Line) returns (r: string, ghost written: Lines)
    requires content == Emit(lines)
    ensures written == lines.Add(l) && r == Emit(written)
  {
    r := content + Render(l) + "\n";
    written := lines.Add(l);
  }

  /** The eight endpoint lines of one rule, as both rule loops write them. */
  method PushEndpoints(content: string, ghost lines: Lines, bindAddr: string, bindPort: u16, targetAddr: string, targetPort: u16)
    returns (r: string, ghost written: Lines)
    requires content == Emit(lines)
    ensures written == WithEndpoints(lines, bindAddr, bindPort, targetAddr, targetPort) && r == Emit(written)
  {
    r, written := PushLine(content, lines, Comment(BindAddrHelp));
    r, written := PushLine(r, written, Setting(BindAddr, Str(bindAddr)));
    r, written := PushLine(r, written, Comment(BindPortHelp));
    r, written := PushLine(r, written, Setting(BindPort, Num(bindPort as nat)));
    r, written := PushLine(r, written, Comment(TargetAddrHelp));
    r, written := PushLine(r, written, Setting(TargetAddr, Str(targetAddr)));
    r, written := PushLine(r, written, Comment(TargetPortHelp));
    r, written := PushLine(r, written, Setting(TargetPort, Num(targetPort as nat)));
  }

  /** The opening comments and the `[global]` header, one `push_str` per line. */
  method PushHeader(content: string, ghost lines: Lines) returns (r: string, ghost written: Lines)
    requires content == Emit(lines)
    ensures written == WithHeader(lines) && r == Emit(written)
  {
    r, written := PushLine(content, lines, Comment(Title));
    r, written := PushLine(r, written, Comment(Tagline));
    r, written := PushLine(r, written, Comment(Spacer));
    r, written := PushLine(r, written, Comment(Generated));
    r, written := PushLine(r, written, Comment(EditHint));
    r, written := PushLine(r, written, Comment(Spacer));
    r, written := PushLine(r, written, Comment(DocsHint));
    r, written := PushLine(r, written, Comment(DocsLink));
    r, written := PushLine(r, written, Blank);
    r, written := PushLine(r, written, Comment(GlobalHeading));
    r, written := PushLine(r, written, Table("global"));
  }

  /** One iteration of the TCP rule loop. */
  method PushTcpBlock(content: string, ghost lines: Lines, rule: TcpRule) returns (r: string, ghost written: Lines)
    requires content == Emit(lines)
    ensures written == WithTcpBlock(lines, rule) && r == Emit(written)
  {
    r, written := PushLine(content, lines, ArrayTable("tcp"));
    r, written := PushEndpoints(r, written, rule.bindAddr, rule.bindPort, rule.targetAddr, rule.targetPort);
    if rule.name.Some? {
      r, written := PushLine(r, written, Comment(NameHelp));
      r, written := PushLine(r, written, Setting(Name, Str(rule.name.value)));
    }
    r, written := PushLine(r, written, Blank);
  }

  /** One iteration of the UDP rule loop. */
  method PushUdpBlock(content: string, ghost lines: Lines, rule: UdpRule) returns (r: string, ghost written: Lines)
    requires content == Emit(lines)
    ensures written == WithUdpBlock(lines, rule) && r == Emit(written)
  {
    r, written := PushLine(content, lines, ArrayTable("udp"));
    r, written := PushEndpoints(r, written, rule.bindAddr, rule.bindPort, rule.targetAddr, rule.targetPort);
    if rule.name.Some? {
      r, written := PushLine(r, written, Comment(NameHelp));
      r, written := PushLine(r, written, Setting(Name, Str(rule.name.value)));
    }
    r, written := PushLine(r, written, Comment(TimeoutHelp));
    if rule.timeout.Some? {
      r, written := PushLine(r, written, Setting(Timeout, Num(rule.timeout.value as nat)));
    }
    r, written := PushLine(r, written, Blank);
  }

  /** The `[global]` table's body and the blank line after it. */
  method PushGlobal(content: string, ghost lines: Lines, global: Option<GlobalConfig>) returns (r: string, ghost written: Lines)
    requires content == Emit(lines)
    ensures written == WithGlobal(lines, global) && r == Emit(written)
  {
    r, written := PushLine(content, lines, Comment(LogLevelHelp));
    if global.Some? {
      var g := global.value;
      if g.logLevel.Some? {
        r, written := PushLine(r, written, Setting(LogLevel, Str(g.logLevel.value)));
      }
      r, written := PushLine(r, written, Comment(BufferSizeHelp));
      if g.bufferSize.Some? {
        r, written := PushLine(r, written, Setting(BufferSize, Num(g.bufferSize.value as nat)));
      }
    }
    r, written := PushLine(r, written, Blank);
  }

  /** The blocks of the first `i + 1` rules are those of the first `i` followed by rule `i`'s. */
  lemma TcpBlocksSnoc(lines: Lines, rules: seq<TcpRule>, i: nat)
    requires i < |rules|
    ensures WithTcpBlocks(lines, rules[..i + 1]) == WithTcpBlock(WithTcpBlocks(lines, rules[..i]), rules[i])
  {
    assert rules[..i + 1][..i] == rules[..i];
  }

  /** The TCP rule loop: one block per rule, in list order. */
  method PushTcpBlocks(content: string, ghost lines: Lines, rules: seq<TcpRule>) returns (r: string, ghost written: Lines)
    requires content == Emit(lines)
    ensures written == WithTcpBlocks(lines, rules) && r == Emit(written)
  {
    r, written := content, lines;
    for i := 0 to |rules|
      invariant r == Emit(written)
      invariant written == WithTcpBlocks(lines, rules[..i])
    {
      TcpBlocksSnoc(lines, rules, i);
      r, written := PushTcpBlock(r, written, rules[i]);
    }
    assert rules[..|rules|] == rules;
  }

  /** The TCP section: its comment and its rules, only when the list is present. */
  method PushTcpSection(content: string, ghost lines: Lines, tcp: Option<seq<TcpRule>>) returns (r: string, ghost written: Lines)
    requires content == Emit(lines)
    ensures written == WithTcpSection(lines, tcp) && r == Emit(written)
  {
    r, written := content, lines;
    if tcp.Some? {
      r, written := PushLine(r, written, Comment(TcpHeading));
      r, written := PushTcpBlocks(r, written, tcp.value);
    }
  }

  /** The blocks of the first `i + 1` rules are those of the first `i` followed by rule `i`'s. */
  lemma UdpBlocksSnoc(lines: Lines, rules: seq<UdpRule>, i: nat)
    requires i < |rules|
    ensures WithUdpBlocks(lines, rules[..i + 1]) == WithUdpBlock(WithUdpBlocks(lines, rules[..i]), rules[i])
  {
    assert rules[..i + 1][..i] == rules[..i];
  }

  /** The UDP rule loop: one block per rule, in list order. */
  method PushUdpBlocks(content: string, ghost lines: Lines, rules: seq<UdpRule>) returns (r: string, ghost written: Lines)
    requires content == Emit(lines)
    ensures written == WithUdpBlocks(lines, rules) && r == Emit(written)
  {
    r, written := content, lines;
    for i := 0 to |rules|
      invariant r == Emit(written)
      invariant written == WithUdpBlocks(lines, rules[..i])
    {
      UdpBlocksSnoc(lines, rules, i);
      r, written := PushUdpBlock(r, written, rules[i]);
    }
    assert rules[..|rules|] == rules;
  }

  /** The UDP section: its comment and its rules, only when the list is present. */
  method PushUdpSection(content: string, ghost lines: Lines, udp: Option<seq<UdpRule>>) returns (r: string, ghost written: Lines)
    requires content == Emit(lines)
    ensures written == WithUdpSection(lines, udp) && r == Emit(written)
  {
    r, written := content, lines;
    if udp.Some? {
      r, written := PushLine(r, written, Comment(UdpHeading));
      r, written := PushUdpBlocks(r, written, udp.value);
    }
  }

  /** `Config::to_toml_with_comments`. */
  method ToTomlWithComments(c: Config) returns (content: string)
    ensures content == Emit(TomlDoc(c))
  {
    ghost var doc: Lines;
    content, doc := PushHeader("", Start);
    content, doc := PushGlobal(content, doc, c.global);
    content, doc := PushTcpSection(content, doc, c.tcp);
    content, doc := PushUdpSection(content, doc, c.udp);
  }
}
