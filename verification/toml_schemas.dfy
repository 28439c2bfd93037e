/** The two schemas that share one `relay.toml`: the node's pinned relay
    (src/infra/relay_toml_store.rs) and the relay's own serve configuration
    (src/infra/relay_serve_toml_store.rs). Each parser takes its own keys, skips
    the other schema's and refuses the rest. */
module TomlSchemas {
  import opened Frames
  import opened TomlText

  // ---------------------------------------------------------------------
  // Keys and lines

  datatype Key =
    | Address | RelayFingerprint | HeartbeatInterval | UseProxy
    | Listen | AdminSocket | WhitelistDir | InviteTtl | DeployTtl | OfflineAfter | RegisterTimeout
    | MaxNodes | MaxStreams | MaxThroughput | LegacyEnroll

  predicate PinKey(k: Key) {
    k.Address? || k.RelayFingerprint? || k.HeartbeatInterval? || k.UseProxy?
  }

  function PinName(k: Key): string
    requires PinKey(k)
  {
    match k
    case Address => "address"
    case RelayFingerprint => "relay_fingerprint"
    case HeartbeatInterval => "heartbeat_interval_secs"
    case UseProxy => "use_proxy"
  }

  function ServeName(k: Key): string
    requires !PinKey(k)
  {
    match k
    case Listen => "listen"
    case AdminSocket => "admin_socket"
    case WhitelistDir => "whitelist_dir"
    case InviteTtl => "token_invite_ttl_secs"
    case DeployTtl => "token_deploy_ttl_secs"
    case OfflineAfter => "heartbeat_offline_after_secs"
    case RegisterTimeout => "register_timeout_secs"
    case MaxNodes => "capacity_max_nodes"
    case MaxStreams => "capacity_max_streams"
    case MaxThroughput => "capacity_max_throughput_bytes_per_sec"
    case LegacyEnroll => "legacy_enroll_listener"
  }

  function Name(k: Key): string {
    if PinKey(k) then PinName(k) else ServeName(k)
  }

  function KeyOf(name: string): Option<Key> {
    if name == "address" then Some(Address)
    else if name == "relay_fingerprint" then Some(RelayFingerprint)
    else if name == "heartbeat_interval_secs" then Some(HeartbeatInterval)
    else if name == "use_proxy" then Some(UseProxy)
    else if name == "listen" then Some(Listen)
    else if name == "admin_socket" then Some(AdminSocket)
    else if name == "whitelist_dir" then Some(WhitelistDir)
    else if name == "token_invite_ttl_secs" then Some(InviteTtl)
    else if name == "token_deploy_ttl_secs" then Some(DeployTtl)
    else if name == "heartbeat_offline_after_secs" then Some(OfflineAfter)
    else if name == "register_timeout_secs" then Some(RegisterTimeout)
    else if name == "capacity_max_nodes" then Some(MaxNodes)
    else if name == "capacity_max_streams" then Some(MaxStreams)
    else if name == "capacity_max_throughput_bytes_per_sec" then Some(MaxThroughput)
    else if name == "legacy_enroll_listener" then Some(LegacyEnroll)
    else None
  }

  datatype Line = Blank | Bad | Setting(key: Key, value: string)

  function Classify(raw: string): Line {
    var line := Trim(raw);
    if line == "" || line[0] == '#' then Blank
    else
      var entry := EntryOf(line);
      if entry.None? || KeyOf(entry.value.key).None? then Bad
      else Setting(KeyOf(entry.value.key).value, entry.value.value)
  }

  /** What a parser does with all lines, given what it does with one setting. */
  function Fold<S>(put: (S, Key, string) -> Option<S>, s: S, lines: seq<string>): Option<S>
    decreases |lines|
  {
    if lines == [] then Some(s)
    else
      match Classify(lines[0])
      case Blank => Fold(put, s, lines[1..])
      case Bad => None
      case Setting(k, v) =>
        var next := put(s, k, v);
        if next.None? then None else Fold(put, next.value, lines[1..])
  }

  // ---------------------------------------------------------------------
  // Values

  function ParseBool(value: string): Option<bool> {
    if Trim(value) == "true" then Some(true) else if Trim(value) == "false" then Some(false) else None
  }

  function Positive(value: string): Option<nat> {
    var n := ParseUnsigned(value, U64);
    if n.None? || n.value == 0 then None else n
  }

  function Heartbeat(value: string): Option<nat> {
    var n := ParseUnsigned(value, U64);
    if n.None? || n.value == 0 || n.value > 300 then None else n
  }

  /** The last position of `c`, or the length. */
  function LastIndexOf(s: string, c: char): (i: nat)
    ensures i <= |s|
  {
    if s == "" then 0
    else if s[|s| - 1] == c then |s| - 1
    else
      var i := LastIndexOf(s[..|s| - 1], c);
      if i == |s| - 1 then |s| else i
  }

  /** `host` or `host:port` (src/infra/relay_join.rs). */
  predicate ValidAddress(text: string) {
    var address := Trim(text);
    address != "" &&
    var i := LastIndexOf(address, ':');
    i < |address| ==> Trim(address[..i]) != "" && ParseUnsigned(Trim(address[i + 1..]), 65536).Some?
  }

  predicate IsHex(c: char) {
    '0' <= c <= '9' || 'a' <= c <= 'f' || 'A' <= c <= 'F'
  }

  function Lower(s: string): (r: string)
    ensures |r| == |s|
    ensures forall i :: 0 <= i < |s| ==> r[i] == if 'A' <= s[i] <= 'Z' then s[i] - 'A' + 'a' else s[i]
  {
    if s == "" then "" else [if 'A' <= s[0] <= 'Z' then s[0] - 'A' + 'a' else s[0]] + Lower(s[1..])
  }

  function NormalizeFingerprint(text: string): Option<string> {
    if |text| != 64 || exists i :: 0 <= i < |text| && !IsHex(text[i]) then None else Some(Lower(text))
  }

  // ---------------------------------------------------------------------
  // The pin

  datatype PinConfig = PinConfig(address: string, fingerprint: string, heartbeat: Option<nat>, useProxy: bool)

  datatype PinDraft =
    PinDraft(address: Option<string>, fingerprint: Option<string>, heartbeat: Option<nat>, useProxy: bool)

  const NO_PIN := PinDraft(None, None, None, false)

  function PutPin(d: PinDraft, k: Key, value: string): Option<PinDraft> {
    match k
    case Address => Some(d.(address := Some(value)))
    case RelayFingerprint => Some(d.(fingerprint := Some(value)))
    case HeartbeatInterval =>
      var n := Heartbeat(value);
      if n.None? then None else Some(d.(heartbeat := n))
    case UseProxy =>
      var b := ParseBool(value);
      if b.None? then None else Some(d.(useProxy := b.value))
    case _ => Some(d)
  }

  function FinishPin(d: PinDraft): Option<PinConfig> {
    if d.address.None? || !ValidAddress(d.address.value) || d.fingerprint.None? then None
    else
      var fingerprint := NormalizeFingerprint(d.fingerprint.value);
      if fingerprint.None? then None
      else Some(PinConfig(d.address.value, fingerprint.value, d.heartbeat, d.useProxy))
  }

  function PinOf(text: string): Option<PinConfig> {
    var d := Fold(PutPin, NO_PIN, Lines(text));
    if d.None? then None else FinishPin(d.value)
  }

  method ParsePin(text: string) returns (r: Option<PinConfig>)
    ensures r == PinOf(text)
  {
    var lines := Lines(text);
    var d := NO_PIN;
    for i := 0 to |lines|
      invariant Fold(PutPin, NO_PIN, lines) == Fold(PutPin, d, lines[i..])
    {
      assert lines[i..][1..] == lines[i + 1..];
      match Classify(lines[i]) {
        case Blank =>
        case Bad => return None;
        case Setting(k, v) =>
          var next := PutPin(d, k, v);
          if next.None? {
            return None;
          }
          d := next.value;
      }
    }
    return FinishPin(d);
  }

  // ---------------------------------------------------------------------
  // The serve configuration; `A` is the type of socket addresses

  datatype ServeConfig<A> = ServeConfig(
    listen: Option<A>,
    adminSocket: Option<string>,
    whitelistDir: Option<string>,
    inviteTtl: Option<nat>,
    deployTtl: Option<nat>,
    offlineAfter: Option<nat>,
    registerTimeout: Option<nat>,
    maxNodes: Option<nat>,
    maxStreams: Option<nat>,
    maxThroughput: Option<nat>,
    legacyEnroll: Option<bool>)

  function NoServe<A>(): ServeConfig<A> {
    ServeConfig(None, None, None, None, None, None, None, None, None, None, None)
  }

  predicate Absolute(path: string) {
    path != "" && path[0] == '/'
  }

  predicate NumberKey(k: Key) {
    k.InviteTtl? || k.DeployTtl? || k.OfflineAfter? || k.RegisterTimeout? ||
    k.MaxNodes? || k.MaxStreams? || k.MaxThroughput?
  }

  function SetNumber<A>(c: ServeConfig<A>, k: Key, n: Option<nat>): ServeConfig<A>
    requires NumberKey(k)
  {
    match k
    case InviteTtl => c.(inviteTtl := n)
    case DeployTtl => c.(deployTtl := n)
    case OfflineAfter => c.(offlineAfter := n)
    case RegisterTimeout => c.(registerTimeout := n)
    case MaxNodes => c.(maxNodes := n)
    case MaxStreams => c.(maxStreams := n)
    case MaxThroughput => c.(maxThroughput := n)
  }

  function PutServe<A>(parse: string -> Option<A>, c: ServeConfig<A>, k: Key, value: string): Option<ServeConfig<A>> {
    if NumberKey(k) then
      var n := Positive(value);
      if n.None? then None else Some(SetNumber(c, k, n))
    else
      match k
      case Listen => if parse(value).None? then None else Some(c.(listen := parse(value)))
      case AdminSocket => if Absolute(value) then Some(c.(adminSocket := Some(value))) else None
      case WhitelistDir => Some(c.(whitelistDir := Some(value)))
      case LegacyEnroll =>
        var b := ParseBool(value);
        if b.None? then None else Some(c.(legacyEnroll := b))
      case _ => Some(c)
  }

  function Putter<A>(parse: string -> Option<A>): (ServeConfig<A>, Key, string) -> Option<ServeConfig<A>> {
    (c, k, value) => PutServe(parse, c, k, value)
  }

  function ServeOf<A>(parse: string -> Option<A>, text: string): Option<ServeConfig<A>> {
    Fold(Putter(parse), NoServe(), Lines(text))
  }

  method ParseServe<A>(parse: string -> Option<A>, text: string) returns (r: Option<ServeConfig<A>>)
    ensures r == ServeOf(parse, text)
  {
    var lines := Lines(text);
    var c := NoServe();
    for i := 0 to |lines|
      invariant Fold(Putter(parse), NoServe(), lines) == Fold(Putter(parse), c, lines[i..])
    {
      assert lines[i..][1..] == lines[i + 1..];
      match Classify(lines[i]) {
        case Blank =>
        case Bad => return None;
        case Setting(k, v) =>
          var next := PutServe(parse, c, k, v);
          assert next == Putter(parse)(c, k, v);
          if next.None? {
            return None;
          }
          c := next.value;
      }
    }
    return Some(c);
  }

  // ---------------------------------------------------------------------
  // Writing: the lines of a file, and the serializers that write them

  datatype Header = PinHeader | ServeHeader

  function HeaderText(h: Header): string {
    match h
    case PinHeader => "# WaitAgent pinned relay" + " (written by `relay join`)"
    case ServeHeader => "# WaitAgent relay" + " serve configuration"
  }

  datatype Field = Note(header: Header) | Text(key: Key, value: string) | Bare(key: Key, text: string)

  function FieldLine(f: Field): string {
    match f
    case Note(header) => HeaderText(header)
    case Text(key, value) => Name(key) + " = \"" + Escape(value) + "\""
    case Bare(key, text) => Name(key) + " = " + text
  }

  function Render(fs: seq<Field>): string
    decreases |fs|
  {
    if fs == [] then "" else Render(fs[..|fs| - 1]) + FieldLine(fs[|fs| - 1]) + "\n"
  }

  lemma RenderSnoc(fs: seq<Field>, f: Field)
    ensures Render(fs + [f]) == Render(fs) + FieldLine(f) + "\n"
  {
    assert (fs + [f])[..|fs|] == fs;
  }

  function BoolText(b: bool): string {
    if b then "true" else "false"
  }

  function PinFields(c: PinConfig): seq<Field> {
    [Note(PinHeader), Text(Address, c.address), Text(RelayFingerprint, c.fingerprint)]
    + NumberField(HeartbeatInterval, c.heartbeat) + [Bare(UseProxy, BoolText(c.useProxy))]
  }

  function TextField(key: Key, value: Option<string>): seq<Field> {
    if value.None? then [] else [Text(key, value.value)]
  }

  function NumberField(key: Key, value: Option<nat>): seq<Field> {
    if value.None? then [] else [Bare(key, Decimal(value.value))]
  }

  function BoolField(key: Key, value: Option<bool>): seq<Field> {
    if value.None? then [] else [Bare(key, BoolText(value.value))]
  }

  function ListenField<A>(show: A -> string, value: Option<A>): seq<Field> {
    if value.None? then [] else [Text(Listen, show(value.value))]
  }

  function ServeFields<A>(show: A -> string, c: ServeConfig<A>): seq<Field> {
    [Note(ServeHeader)]
    + ListenField(show, c.listen)
    + TextField(AdminSocket, c.adminSocket)
    + TextField(WhitelistDir, c.whitelistDir)
    + NumberField(InviteTtl, c.inviteTtl)
    + NumberField(DeployTtl, c.deployTtl)
    + NumberField(OfflineAfter, c.offlineAfter)
    + NumberField(RegisterTimeout, c.registerTimeout)
    + NumberField(MaxNodes, c.maxNodes)
    + NumberField(MaxStreams, c.maxStreams)
    + NumberField(MaxThroughput, c.maxThroughput)
    + BoolField(LegacyEnroll, c.legacyEnroll)
  }

  lemma GlueBare(out: string, name: string, text: string)
    ensures out + (name + " = " + text) + "\n" == out + name + " = " + text + "\n"
  {
  }

  lemma GlueText(out: string, name: string, text: string)
    ensures out + (name + " = \"" + text + "\"") + "\n" == out + name + " = \"" + text + "\"\n"
  {
  }

  method PushBare(out: string, key: Key, text: string, ghost done: seq<Field>) returns (r: string)
    requires out == Render(done)
    ensures r == Render(done + [Bare(key, text)])
  {
    var name := Name(key);
    RenderSnoc(done, Bare(key, text));
    GlueBare(out, name, text);
    r := out + name + " = " + text + "\n";
  }

  method PushNumber(out: string, key: Key, value: Option<nat>, ghost done: seq<Field>) returns (r: string)
    requires out == Render(done)
    ensures r == Render(done + NumberField(key, value))
  {
    if value.None? {
      assert done + [] == done;
      return out;
    }
    r := PushBare(out, key, Decimal(value.value), done);
  }

  method PushBool(out: string, key: Key, value: Option<bool>, ghost done: seq<Field>) returns (r: string)
    requires out == Render(done)
    ensures r == Render(done + BoolField(key, value))
  {
    if value.None? {
      assert done + [] == done;
      return out;
    }
    r := PushBare(out, key, if value.value then "true" else "false", done);
  }

  method PushText(out: string, key: Key, value: Option<string>, ghost done: seq<Field>) returns (r: string)
    requires out == Render(done)
    ensures r == Render(done + TextField(key, value))
  {
    if value.None? {
      assert done + [] == done;
      return out;
    }
    var name := Name(key);
    RenderSnoc(done, Text(key, value.value));
    GlueText(out, name, Escape(value.value));
    r := PushString(out, name, value.value);
  }

  /** The text of a socket address needs no escaping, and is written as it is. */
  ghost predicate PlainText<A(!new)>(show: A -> string) {
    forall a: A :: Escape(show(a)) == show(a)
  }

  method PushListen<A(!new)>(out: string, show: A -> string, value: Option<A>, ghost done: seq<Field>)
      returns (r: string)
    requires PlainText(show) && out == Render(done)
    ensures r == Render(done + ListenField(show, value))
  {
    if value.None? {
      assert done + [] == done;
      return out;
    }
    var name := Name(Listen);
    RenderSnoc(done, Text(Listen, show(value.value)));
    GlueText(out, name, show(value.value));
    r := out + name + " = \"" + show(value.value) + "\"\n";
  }

  method StartFile(header: Header) returns (out: string)
    ensures out == Render([Note(header)])
  {
    RenderSnoc([], Note(header));
    assert [] + [Note(header)] == [Note(header)];
    out := HeaderText(header) + "\n";
  }

  method SerializePin(c: PinConfig) returns (out: string)
    ensures out == Render(PinFields(c))
  {
    out := StartFile(PinHeader);
    ghost var done := [Note(PinHeader)];
    out := PushText(out, Address, Some(c.address), done);
    done := done + [Text(Address, c.address)];
    out := PushText(out, RelayFingerprint, Some(c.fingerprint), done);
    done := done + [Text(RelayFingerprint, c.fingerprint)];
    out := PushNumber(out, HeartbeatInterval, c.heartbeat, done);
    done := done + NumberField(HeartbeatInterval, c.heartbeat);
    out := PushBare(out, UseProxy, BoolText(c.useProxy), done);
    done := done + [Bare(UseProxy, BoolText(c.useProxy))];
    assert done == PinFields(c);
  }

  method SerializeServe<A(!new)>(show: A -> string, c: ServeConfig<A>) returns (out: string)
    requires PlainText(show)
    ensures out == Render(ServeFields(show, c))
  {
    out := StartFile(ServeHeader);
    ghost var done := [Note(ServeHeader)];
    out := PushListen(out, show, c.listen, done);
    done := done + ListenField(show, c.listen);
    out := PushText(out, AdminSocket, c.adminSocket, done);
    done := done + TextField(AdminSocket, c.adminSocket);
    out := PushText(out, WhitelistDir, c.whitelistDir, done);
    done := done + TextField(WhitelistDir, c.whitelistDir);
    out := PushNumber(out, InviteTtl, c.inviteTtl, done);
    done := done + NumberField(InviteTtl, c.inviteTtl);
    out := PushNumber(out, DeployTtl, c.deployTtl, done);
    done := done + NumberField(DeployTtl, c.deployTtl);
    out := PushNumber(out, OfflineAfter, c.offlineAfter, done);
    done := done + NumberField(OfflineAfter, c.offlineAfter);
    out := PushNumber(out, RegisterTimeout, c.registerTimeout, done);
    done := done + NumberField(RegisterTimeout, c.registerTimeout);
    out := PushNumber(out, MaxNodes, c.maxNodes, done);
    done := done + NumberField(MaxNodes, c.maxNodes);
    out := PushNumber(out, MaxStreams, c.maxStreams, done);
    done := done + NumberField(MaxStreams, c.maxStreams);
    out := PushNumber(out, MaxThroughput, c.maxThroughput, done);
    done := done + NumberField(MaxThroughput, c.maxThroughput);
    out := PushBool(out, LegacyEnroll, c.legacyEnroll, done);
  }
}
