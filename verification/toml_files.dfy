/** The files themselves: the text a pin is written as, and what each setting of a hand
    written file does, name by name. */
module TomlFiles {
  import opened Frames
  import opened Sequences
  import opened TomlText
  import opened TomlSchemas
  import opened TomlRoundTrip

  // ---------------------------------------------------------------------
  // The text of a pin

  function TextLine(name: string, value: string): string {
    name + " = \"" + Escape(value) + "\"\n"
  }

  lemma RenderOne(f: Field)
    ensures Render([f]) == FieldLine(f) + "\n"
  {
    RenderSnoc([], f);
    assert [] + [f] == [f];
  }

  lemma RenderThree(a: Field, b: Field, c: Field)
    ensures Render([a, b, c]) == FieldLine(a) + "\n" + (FieldLine(b) + "\n") + (FieldLine(c) + "\n")
  {
    RenderOne(a);
    RenderSnoc([a], b);
    RenderSnoc([a, b], c);
    assert [a] + [b] == [a, b] && [a, b] + [c] == [a, b, c];
    Assoc(Render([a]), FieldLine(b), "\n");
    Assoc(Render([a, b]), FieldLine(c), "\n");
  }

  lemma RenderMore(fs: seq<Field>, f: Field)
    ensures Render(fs + [f]) == Render(fs) + (FieldLine(f) + "\n")
  {
    RenderSnoc(fs, f);
    Assoc(Render(fs), FieldLine(f), "\n");
  }

  lemma HeaderLine()
    ensures FieldLine(Note(PinHeader)) + "\n" == "# WaitAgent pinned relay (written by `relay join`)\n"
  {
  }

  lemma TextFieldLine(name: string, k: Key, value: string)
    requires name == Name(k)
    ensures FieldLine(Text(k, value)) + "\n" == TextLine(name, value)
  {
  }

  lemma HeartbeatLine(n: nat)
    ensures FieldLine(Bare(HeartbeatInterval, Decimal(n))) + "\n" == "heartbeat_interval_secs = " + Decimal(n) + "\n"
  {
    assert "heartbeat_interval_secs" + " = " == "heartbeat_interval_secs = ";
  }

  lemma ProxyLine(b: bool)
    ensures FieldLine(Bare(UseProxy, BoolText(b))) + "\n" == "use_proxy = " + (if b then "true" else "false") + "\n"
  {
    assert "use_proxy" + " = " == "use_proxy = ";
  }

  function HeadText(c: PinConfig): string {
    "# WaitAgent pinned relay (written by `relay join`)\n"
    + TextLine("address", c.address) + TextLine("relay_fingerprint", c.fingerprint)
  }

  lemma PinHead(c: PinConfig)
    ensures Render([Note(PinHeader), Text(Address, c.address), Text(RelayFingerprint, c.fingerprint)]) == HeadText(c)
  {
    RenderThree(Note(PinHeader), Text(Address, c.address), Text(RelayFingerprint, c.fingerprint));
    HeaderLine();
    TextFieldLine("address", Address, c.address);
    TextFieldLine("relay_fingerprint", RelayFingerprint, c.fingerprint);
  }

  lemma RenderTail(head: seq<Field>, beat: seq<Field>, proxy: Field)
    requires |beat| <= 1
    ensures Render(head + beat + [proxy]) ==
            Render(head) + (if beat == [] then "" else FieldLine(beat[0]) + "\n") + (FieldLine(proxy) + "\n")
  {
    RenderMore(head + beat, proxy);
    if beat == [] {
      assert head + beat == head;
    } else {
      assert beat == [beat[0]];
      RenderMore(head, beat[0]);
    }
  }

  /** The text written for a pin, to the letter. */
  lemma PinText(c: PinConfig)
    ensures Render(PinFields(c)) ==
            HeadText(c)
            + (if c.heartbeat.Some? then "heartbeat_interval_secs = " + Decimal(c.heartbeat.value) + "\n" else "")
            + ("use_proxy = " + (if c.useProxy then "true" else "false") + "\n")
  {
    PinHead(c);
    RenderTail([Note(PinHeader), Text(Address, c.address), Text(RelayFingerprint, c.fingerprint)],
               NumberField(HeartbeatInterval, c.heartbeat), Bare(UseProxy, BoolText(c.useProxy)));
    ProxyLine(c.useProxy);
    if c.heartbeat.Some? {
      HeartbeatLine(c.heartbeat.value);
    }
  }

  // ---------------------------------------------------------------------
  // Single settings

  /** A file of one setting does what that setting does. */
  lemma OneSetting<S>(put: (S, Key, string) -> Option<S>, s: S, f: Field)
    requires !f.Note? && FieldOk(f)
    ensures Fold(put, s, Lines(FieldLine(f) + "\n")) == put(s, f.key, Held(f))
  {
    RenderOne(f);
    LinesOfRender([f], "");
    assert Render([f]) + "" == Render([f]);
    FoldOfLines(put, s, [f], []);
    assert FieldLines([f]) + [] == FieldLines([f]) && [f][..0] == [];
    assert FoldFields(put, s, []) == Some(s);
  }

  lemma NumberSetting<A(!new)>(parse: string -> Option<A>, name: string, k: Key, n: nat)
    requires NumberKey(k) && name == Name(k) && n < U64
    ensures ServeOf(parse, name + " = " + Decimal(n) + "\n") == if n == 0 then None else Some(SetNumber(NoServe(), k, Some(n)))
  {
    var f := Bare(k, Decimal(n));
    DecimalIsBare(n);
    OneSetting(Putter(parse), NoServe(), f);
    ParseDecimal(n, U64);
  }

  /** The numeric settings of a serve file, by the names its documentation gives them. */
  function WithNumber<A>(c: ServeConfig<A>, name: string, n: nat): Option<ServeConfig<A>> {
    match name
    case "token_invite_ttl_secs" => Some(c.(inviteTtl := Some(n)))
    case "token_deploy_ttl_secs" => Some(c.(deployTtl := Some(n)))
    case "heartbeat_offline_after_secs" => Some(c.(offlineAfter := Some(n)))
    case "register_timeout_secs" => Some(c.(registerTimeout := Some(n)))
    case "capacity_max_nodes" => Some(c.(maxNodes := Some(n)))
    case "capacity_max_streams" => Some(c.(maxStreams := Some(n)))
    case "capacity_max_throughput_bytes_per_sec" => Some(c.(maxThroughput := Some(n)))
    case _ => None
  }

  lemma NumberNames<A>(c: ServeConfig<A>, k: Key, n: nat)
    requires NumberKey(k)
    ensures WithNumber(c, Name(k), n) == Some(SetNumber(c, k, Some(n)))
  {
  }

  lemma NumberNamed<A>(c: ServeConfig<A>, name: string, n: nat) returns (k: Key)
    requires WithNumber(c, name, n).Some?
    ensures NumberKey(k) && name == Name(k)
  {
    k := match name
         case "token_invite_ttl_secs" => InviteTtl
         case "token_deploy_ttl_secs" => DeployTtl
         case "heartbeat_offline_after_secs" => OfflineAfter
         case "register_timeout_secs" => RegisterTimeout
         case "capacity_max_nodes" => MaxNodes
         case "capacity_max_streams" => MaxStreams
         case _ => MaxThroughput;
  }

  /** For every name and number, a serve file with just that setting sets that field and no
      other, and is refused for zero. */
  lemma ServeNumbers<A(!new)>(parse: string -> Option<A>, name: string, n: nat)
    requires WithNumber<A>(NoServe(), name, n).Some? && n < U64
    ensures ServeOf(parse, name + " = " + Decimal(n) + "\n") == if n == 0 then None else WithNumber(NoServe(), name, n)
  {
    var k := NumberNamed<A>(NoServe(), name, n);
    NumberNames<A>(NoServe(), k, n);
    NumberSetting(parse, name, k, n);
  }

  lemma TextSetting<A(!new)>(parse: string -> Option<A>, name: string, k: Key, value: string)
    requires name == Name(k)
    ensures ServeOf(parse, TextLine(name, value)) == PutServe(parse, NoServe(), k, value)
  {
    OneSetting(Putter(parse), NoServe(), Text(k, value));
    TextFieldLine(name, k, value);
  }

  /** For every text, a serve file with just one quoted setting: the whitelist directory is
      taken as it is, the admin socket if it is an absolute path, and the listen address if
      it parses. */
  lemma ServeTexts<A(!new)>(parse: string -> Option<A>, value: string)
    ensures ServeOf(parse, TextLine("whitelist_dir", value)) == Some(NoServe().(whitelistDir := Some(value)))
    ensures ServeOf(parse, TextLine("admin_socket", value)) ==
            if "/" <= value then Some(NoServe().(adminSocket := Some(value))) else None
    ensures ServeOf(parse, TextLine("listen", value)) ==
            if parse(value).Some? then Some(NoServe().(listen := parse(value))) else None
  {
    TextSetting(parse, "whitelist_dir", WhitelistDir, value);
    TextSetting(parse, "admin_socket", AdminSocket, value);
    TextSetting(parse, "listen", Listen, value);
  }

  // ---------------------------------------------------------------------
  // Values

  /** The characters with the White_Space property of the Unicode character database. */
  lemma WhitespaceIs(c: char)
    ensures IsWhitespace(c) <==>
            c in {'\U{9}', '\U{A}', '\U{B}', '\U{C}', '\U{D}', ' ', '\U{85}', '\U{A0}', '\U{1680}', '\U{2000}', '\U{2001}',
                  '\U{2002}', '\U{2003}', '\U{2004}', '\U{2005}', '\U{2006}', '\U{2007}', '\U{2008}', '\U{2009}', '\U{200A}',
                  '\U{2028}', '\U{2029}', '\U{202F}', '\U{205F}', '\U{3000}'}
  {
  }

  lemma {:induction false} LastIndexSplits(a: string, c: char, b: string)
    requires c !in b
    ensures LastIndexOf(a + [c] + b, c) == |a|
    decreases |b|
  {
    var s := a + [c] + b;
    if b == "" {
    } else {
      var init := b[..|b| - 1];
      LastIndexSplits(a, c, init);
      assert s[..|s| - 1] == a + [c] + init;
      assert b[|b| - 1] in b;
    }
  }

  lemma {:induction false} LastIndexMeans(s: string, c: char)
    ensures LastIndexOf(s, c) == |s| <==> c !in s
    ensures LastIndexOf(s, c) < |s| ==>
      s[LastIndexOf(s, c)] == c && c !in s[LastIndexOf(s, c) + 1..]
    decreases |s|
  {
    if s == "" {
    } else {
      var init, i := s[..|s| - 1], LastIndexOf(s, c);
      LastIndexMeans(init, c);
      assert s == init + [s[|s| - 1]];
      if s[|s| - 1] != c && i < |s| {
        assert s[i + 1..] == init[i + 1..] + [s[|s| - 1]];
      }
    }
  }

  ghost predicate HostAndPort(address: string, host: string, port: string) {
    && address == host + ":" + port && ':' !in port
    && Trim(host) != "" && ParseUnsigned(Trim(port), 65536).Some?
  }

  /** An address is a host, or a host and a port below 65536 after its last colon; nothing
      else is taken. */
  lemma AddressExactly(text: string)
    ensures ValidAddress(text) <==>
            var address := Trim(text);
            address != "" && (':' !in address || exists host, port :: HostAndPort(address, host, port))
  {
    var address := Trim(text);
    var i := LastIndexOf(address, ':');
    LastIndexMeans(address, ':');
    if i < |address| {
      assert address == address[..i] + ":" + address[i + 1..];
      if ValidAddress(text) {
        assert HostAndPort(address, address[..i], address[i + 1..]);
      }
      if host, port :| HostAndPort(address, host, port) {
        LastIndexSplits(host, ':', port);
        assert address[..i] == host && address[i + 1..] == port;
      }
    }
  }

  /** A fingerprint is 64 hexadecimal digits, and is kept in lower case. */
  lemma FingerprintExactly(text: string)
    ensures NormalizeFingerprint(text).Some? <==>
            |text| == 64 && forall i :: 0 <= i < |text| ==> text[i] in "0123456789abcdefABCDEF"
    ensures NormalizeFingerprint(text).Some? ==>
            var r := NormalizeFingerprint(text).value;
            |r| == 64 && forall i :: 0 <= i < 64 ==> r[i] in "0123456789abcdef" && (text[i] in "0123456789abcdef" ==> r[i] == text[i])
  {
    forall i | 0 <= i < |text|
      ensures IsHex(text[i]) <==> text[i] in "0123456789abcdefABCDEF"
      ensures IsHex(text[i]) ==> var d := Lower(text)[i]; d in "0123456789abcdef" && (text[i] in "0123456789abcdef" ==> d == text[i])
    {
      HexDigits(text[i]);
      HexLower(text[i], Lower(text)[i]);
    }
  }

  lemma HexDigits(c: char)
    ensures IsHex(c) <==> c in "0123456789abcdefABCDEF"
  {
  }

  lemma HexLower(c: char, d: char)
    requires d == if 'A' <= c <= 'Z' then c - 'A' + 'a' else c
    ensures IsHex(c) ==> d in "0123456789abcdef" && (c in "0123456789abcdef" ==> d == c)
  {
  }
}
