/** Two schemas, one file: either parser reads its own configuration back from
    both printed texts put together, whatever the strings contain, and exactly
    the valid configurations survive. */
module TomlRoundTrip {
  import opened Frames
  import opened Sequences
  import opened TomlText
  import opened TomlSchemas

  // ---------------------------------------------------------------------
  // One printed line

  predicate FieldOk(f: Field) {
    match f
    case Note(_) => true
    case Text(_, _) => true
    case Bare(_, text) => Tight(text) && text[0] != '"' && '\n' !in text
  }

  predicate IsWord(c: char) {
    'a' <= c <= 'z' || c == '_'
  }

  predicate Word(s: string) {
    s != "" && forall i :: 0 <= i < |s| ==> IsWord(s[i])
  }

  lemma NamesAreWords(k: Key)
    ensures Word(Name(k))
  {
    if PinKey(k) {
      PinNamesAreWords(k);
    } else {
      ServeNamesAreWords(k);
    }
  }

  lemma PinNamesAreWords(k: Key)
    requires PinKey(k)
    ensures Word(PinName(k))
  {
  }

  lemma ServeNamesAreWords(k: Key)
    requires !PinKey(k)
    ensures Word(ServeName(k))
  {
    if !NumberKey(k) {
      PlainNamesAreWords(k);
    } else if k.MaxNodes? || k.MaxStreams? || k.MaxThroughput? {
      CapacityNamesAreWords(k);
    } else {
      TimeNamesAreWords(k);
    }
  }

  lemma PlainNamesAreWords(k: Key)
    requires !PinKey(k) && !NumberKey(k)
    ensures Word(ServeName(k))
  {
  }

  lemma CapacityNamesAreWords(k: Key)
    requires k.MaxNodes? || k.MaxStreams? || k.MaxThroughput?
    ensures Word(ServeName(k))
  {
  }

  lemma TimeNamesAreWords(k: Key)
    requires k.InviteTtl? || k.DeployTtl? || k.OfflineAfter? || k.RegisterTimeout?
    ensures Word(ServeName(k))
  {
  }

  predicate IsNote(s: string) {
    Tight(s) && s[0] == '#' && '\n' !in s
  }

  lemma NoteJoin(a: string, b: string)
    requires IsNote(a) && b != "" && !IsWhitespace(b[|b| - 1]) && '\n' !in b
    ensures IsNote(a + b)
  {
  }

  lemma HeadersAreNotes(h: Header)
    ensures IsNote(HeaderText(h))
  {
    match h
    case PinHeader =>
      NoteJoin("# WaitAgent pinned relay", " (written by `relay join`)");
    case ServeHeader =>
      NoteJoin("# WaitAgent relay", " serve configuration");
  }

  lemma KeyOfName(k: Key)
    ensures KeyOf(Name(k)) == Some(k)
  {
  }

  function Body(f: Field): string
    requires !f.Note?
  {
    if f.Text? then "\"" + Escape(f.value) + "\"" else f.text
  }

  function Held(f: Field): string
    requires !f.Note?
  {
    if f.Text? then f.value else f.text
  }

  lemma LineIsNameAndBody(name: string, value: string)
    ensures name + " = \"" + Escape(value) + "\"" == name + " = " + ("\"" + Escape(value) + "\"")
  {
  }

  lemma EntryOfName(name: string, f: Field)
    requires Word(name) && !f.Note? && FieldOk(f)
    ensures EntryOf(name + " = " + Body(f)) == Some(Entry(name, Held(f)))
    ensures Tight(name + " = " + Body(f)) && (name + " = " + Body(f))[0] != '#'
  {
    EntryOfSplit(name, Body(f));
    if f.Text? {
      QuotedEscape(f.value);
    }
  }

  lemma NamedReadsBack(name: string, f: Field)
    requires Word(name) && !f.Note? && FieldOk(f) && KeyOf(name) == Some(f.key)
    ensures Classify(name + " = " + Body(f)) == Setting(f.key, Held(f))
  {
    EntryOfName(name, f);
    TrimTight(name + " = " + Body(f));
  }

  lemma LineOfField(f: Field)
    requires !f.Note?
    ensures FieldLine(f) == Name(f.key) + " = " + Body(f)
  {
    if f.Text? {
      LineIsNameAndBody(Name(f.key), f.value);
    }
  }

  /** A printed line is read back as its own key and value. */
  lemma ReadsBack(f: Field)
    requires FieldOk(f)
    ensures Classify(FieldLine(f)) == if f.Note? then Blank else Setting(f.key, Held(f))
  {
    if f.Note? {
      HeadersAreNotes(f.header);
      TrimTight(HeaderText(f.header));
    } else {
      NamesAreWords(f.key);
      KeyOfName(f.key);
      NamedReadsBack(Name(f.key), f);
      LineOfField(f);
    }
  }

  lemma NamedLineIsOneLine(name: string, f: Field)
    requires Word(name) && !f.Note? && FieldOk(f)
    ensures OneLine(name + " = " + Body(f))
  {
    if f.Text? {
      EscapeIsOneLine(f.value);
    }
  }

  lemma FieldIsOneLine(f: Field)
    requires FieldOk(f)
    ensures OneLine(FieldLine(f))
  {
    if f.Note? {
      HeadersAreNotes(f.header);
    } else {
      NamesAreWords(f.key);
      NamedLineIsOneLine(Name(f.key), f);
      LineOfField(f);
    }
  }

  // ---------------------------------------------------------------------
  // A printed text

  predicate FieldsOk(fs: seq<Field>) {
    forall i :: 0 <= i < |fs| ==> FieldOk(fs[i])
  }

  function FieldLines(fs: seq<Field>): seq<string>
    decreases |fs|
  {
    if fs == [] then [] else FieldLines(fs[..|fs| - 1]) + [FieldLine(fs[|fs| - 1])]
  }

  lemma LinesNext(before: string, lines: seq<string>, line: string, rest: string)
    requires OneLine(line) && Lines(before + (line + "\n" + rest)) == lines + Lines(line + "\n" + rest)
    ensures Lines(before + line + "\n" + rest) == lines + [line] + Lines(rest)
  {
    LinesStep(line, rest);
    AssocFour(before, line, "\n", rest);
    Assoc(lines, [line], Lines(rest));
  }

  lemma {:induction false} LinesOfRender(fs: seq<Field>, rest: string)
    requires FieldsOk(fs)
    ensures Lines(Render(fs) + rest) == FieldLines(fs) + Lines(rest)
    decreases |fs|
  {
    if fs == [] {
      assert "" + rest == rest;
    } else {
      var before, line := fs[..|fs| - 1], FieldLine(fs[|fs| - 1]);
      FieldIsOneLine(fs[|fs| - 1]);
      LinesOfRender(before, line + "\n" + rest);
      LinesNext(Render(before), FieldLines(before), line, rest);
    }
  }

  /** Settings put one after another. */
  function FoldFields<S>(put: (S, Key, string) -> Option<S>, s: S, fs: seq<Field>): Option<S>
    decreases |fs|
  {
    if fs == [] then Some(s)
    else
      var before := FoldFields(put, s, fs[..|fs| - 1]);
      var f := fs[|fs| - 1];
      if before.None? then None else if f.Note? then before else put(before.value, f.key, Held(f))
  }

  function Then<S>(put: (S, Key, string) -> Option<S>, s: Option<S>, lines: seq<string>): Option<S> {
    if s.None? then None else Fold(put, s.value, lines)
  }

  lemma {:induction false} FoldOfLines<S>(put: (S, Key, string) -> Option<S>, s: S, fs: seq<Field>, rest: seq<string>)
    requires FieldsOk(fs)
    ensures Fold(put, s, FieldLines(fs) + rest) == Then(put, FoldFields(put, s, fs), rest)
    decreases |fs|
  {
    if fs == [] {
      assert [] + rest == rest;
    } else {
      var before, f := fs[..|fs| - 1], fs[|fs| - 1];
      var tail := [FieldLine(f)] + rest;
      assert FieldLines(fs) + rest == FieldLines(before) + tail;
      FoldOfLines(put, s, before, tail);
      ReadsBack(f);
      assert tail[1..] == rest;
    }
  }

  /** Reading two printed texts in a row. */
  lemma FoldOfTexts<S>(put: (S, Key, string) -> Option<S>, s: S, a: seq<Field>, b: seq<Field>)
    requires FieldsOk(a) && FieldsOk(b)
    ensures Fold(put, s, Lines(Render(a) + Render(b))) ==
            var middle := FoldFields(put, s, a);
            if middle.None? then None else FoldFields(put, middle.value, b)
  {
    assert Render(b) + "" == Render(b);
    LinesOfRender(b, "");
    LinesOfRender(a, Render(b));
    FoldOfLines(put, s, a, FieldLines(b) + []);
    var middle := FoldFields(put, s, a);
    if middle.Some? {
      FoldOfLines(put, middle.value, b, []);
    }
  }

  /** Keys of the other schema change nothing. */
  lemma {:induction false} FoldIgnores<S>(put: (S, Key, string) -> Option<S>, s: S, fs: seq<Field>)
    requires forall i :: 0 <= i < |fs| ==> fs[i].Note? || put(s, fs[i].key, Held(fs[i])) == Some(s)
    ensures FoldFields(put, s, fs) == Some(s)
    decreases |fs|
  {
    if fs == [] {
    } else {
      FoldIgnores(put, s, fs[..|fs| - 1]);
    }
  }

  lemma {:induction false} FoldJoin<S>(put: (S, Key, string) -> Option<S>, s: S, a: seq<Field>, b: seq<Field>)
    requires FoldFields(put, s, a).Some?
    ensures FoldFields(put, s, a + b) == FoldFields(put, FoldFields(put, s, a).value, b)
    decreases |b|
  {
    if b == [] {
      assert a + b == a;
    } else {
      FoldJoin(put, s, a, b[..|b| - 1]);
      assert (a + b)[..|a + b| - 1] == a + b[..|b| - 1];
    }
  }

  // ---------------------------------------------------------------------
  // The pin

  predicate ValidPin(c: PinConfig) {
    && ValidAddress(c.address)
    && NormalizeFingerprint(c.fingerprint) == Some(c.fingerprint)
    && (c.heartbeat.Some? ==> 1 <= c.heartbeat.value <= 300)
  }

  lemma DecimalIsBare(n: nat)
    ensures Tight(Decimal(n)) && Decimal(n)[0] != '"' && '\n' !in Decimal(n)
  {
    var s := Decimal(n);
    assert IsDigit(s[0]) && IsDigit(s[|s| - 1]);
  }

  lemma OkJoin(a: seq<Field>, b: seq<Field>)
    requires FieldsOk(a) && FieldsOk(b)
    ensures FieldsOk(a + b)
  {
  }

  lemma NumberFieldOk(k: Key, n: Option<nat>)
    ensures FieldsOk(NumberField(k, n))
  {
    if n.Some? {
      DecimalIsBare(n.value);
    }
  }

  predicate AllPin(fs: seq<Field>) {
    forall i :: 0 <= i < |fs| ==> fs[i].Note? || PinKey(fs[i].key)
  }

  lemma PinFieldsOk(c: PinConfig)
    ensures FieldsOk(PinFields(c)) && AllPin(PinFields(c))
  {
    NumberFieldOk(HeartbeatInterval, c.heartbeat);
    assert Tight(BoolText(c.useProxy)) && '\n' !in BoolText(c.useProxy);
  }

  lemma BoolReadsBack(b: bool)
    ensures ParseBool(BoolText(b)) == Some(b)
  {
    TrimTight(BoolText(b));
  }

  function DraftOf(c: PinConfig): PinDraft {
    PinDraft(Some(c.address), Some(c.fingerprint), c.heartbeat, c.useProxy)
  }

  /** One more group of at most one setting. */
  lemma ReadsOne<S>(put: (S, Key, string) -> Option<S>, s: S, done: seq<Field>, group: seq<Field>, before: S, after: S)
    requires FoldFields(put, s, done) == Some(before) && |group| <= 1
    requires group == [] || group[0].Note? ==> after == before
    requires group != [] && !group[0].Note? ==> put(before, group[0].key, Held(group[0])) == Some(after)
    ensures FoldFields(put, s, done + group) == Some(after)
  {
    FoldJoin(put, s, done, group);
    if group != [] {
      assert group[..0] == [];
    }
  }

  lemma PinReadsHead(c: PinConfig)
    ensures FoldFields(PutPin, NO_PIN, [Note(PinHeader), Text(Address, c.address), Text(RelayFingerprint, c.fingerprint)])
            == Some(NO_PIN.(address := Some(c.address), fingerprint := Some(c.fingerprint)))
  {
    var d := NO_PIN.(address := Some(c.address));
    ReadsOne(PutPin, NO_PIN, [], [Note(PinHeader)], NO_PIN, NO_PIN);
    assert [] + [Note(PinHeader)] == [Note(PinHeader)];
    ReadsOne(PutPin, NO_PIN, [Note(PinHeader)], [Text(Address, c.address)], NO_PIN, d);
    ReadsOne(PutPin, NO_PIN, [Note(PinHeader)] + [Text(Address, c.address)], [Text(RelayFingerprint, c.fingerprint)],
             d, d.(fingerprint := Some(c.fingerprint)));
    assert [Note(PinHeader)] + [Text(Address, c.address)] + [Text(RelayFingerprint, c.fingerprint)]
        == [Note(PinHeader), Text(Address, c.address), Text(RelayFingerprint, c.fingerprint)];
  }

  lemma PinReadsOwn(c: PinConfig)
    requires c.heartbeat.Some? ==> 1 <= c.heartbeat.value <= 300
    ensures FoldFields(PutPin, NO_PIN, PinFields(c)) == Some(DraftOf(c))
  {
    var head := [Note(PinHeader), Text(Address, c.address), Text(RelayFingerprint, c.fingerprint)];
    var number := NumberField(HeartbeatInterval, c.heartbeat);
    var d := NO_PIN.(address := Some(c.address), fingerprint := Some(c.fingerprint));
    PinReadsHead(c);
    if c.heartbeat.Some? {
      ParseDecimal(c.heartbeat.value, U64);
    }
    ReadsOne(PutPin, NO_PIN, head, number, d, d.(heartbeat := c.heartbeat));
    BoolReadsBack(c.useProxy);
    ReadsOne(PutPin, NO_PIN, head + number, [Bare(UseProxy, BoolText(c.useProxy))], d.(heartbeat := c.heartbeat), DraftOf(c));
  }

  predicate AllServe(fs: seq<Field>) {
    forall i :: 0 <= i < |fs| ==> fs[i].Note? || !PinKey(fs[i].key)
  }

  lemma PinIgnores(d: PinDraft, fs: seq<Field>)
    requires AllServe(fs)
    ensures FoldFields(PutPin, d, fs) == Some(d)
  {
    FoldIgnores(PutPin, d, fs);
  }

  /** What every setting keeps, a whole file keeps. */
  lemma {:induction false} FoldKeeps<S(!new)>(put: (S, Key, string) -> Option<S>, ok: S -> bool, s: S, lines: seq<string>)
    requires ok(s) && forall x, k, v :: ok(x) && put(x, k, v).Some? ==> ok(put(x, k, v).value)
    ensures var r := Fold(put, s, lines); r.Some? ==> ok(r.value)
    decreases |lines|
  {
    if lines == [] {
    } else {
      match Classify(lines[0])
      case Blank => FoldKeeps(put, ok, s, lines[1..]);
      case Bad =>
      case Setting(k, v) =>
        var next := put(s, k, v);
        if next.Some? {
          FoldKeeps(put, ok, next.value, lines[1..]);
        }
    }
  }

  predicate HeartbeatInRange(d: PinDraft) {
    d.heartbeat.Some? ==> 1 <= d.heartbeat.value <= 300
  }

  lemma PutPinKeepsRange()
    ensures forall d, k, v :: HeartbeatInRange(d) && PutPin(d, k, v).Some? ==> HeartbeatInRange(PutPin(d, k, v).value)
  {
  }

  lemma NormalizedIsStable(text: string)
    requires NormalizeFingerprint(text).Some?
    ensures NormalizeFingerprint(NormalizeFingerprint(text).value) == NormalizeFingerprint(text)
  {
    var low := Lower(text);
    assert forall i :: 0 <= i < |low| ==> IsHex(text[i]) && IsHex(low[i]);
    assert Lower(low) == low;
  }

  /** Whatever the pin parser accepts is a valid pin. */
  lemma ParsedPinIsValid(text: string)
    requires PinOf(text).Some?
    ensures ValidPin(PinOf(text).value)
  {
    PutPinKeepsRange();
    FoldKeeps(PutPin, HeartbeatInRange, NO_PIN, Lines(text));
    NormalizedIsStable(Fold(PutPin, NO_PIN, Lines(text)).value.fingerprint.value);
  }

  // ---------------------------------------------------------------------
  // The serve configuration

  predicate ValidNumber(n: Option<nat>) {
    n.Some? ==> 1 <= n.value < U64
  }

  predicate ValidServe<A>(c: ServeConfig<A>) {
    && (c.adminSocket.Some? ==> Absolute(c.adminSocket.value))
    && ValidNumber(c.inviteTtl) && ValidNumber(c.deployTtl) && ValidNumber(c.offlineAfter)
    && ValidNumber(c.registerTimeout) && ValidNumber(c.maxNodes) && ValidNumber(c.maxStreams)
    && ValidNumber(c.maxThroughput)
  }

  /** Socket addresses print and parse back. */
  ghost predicate Faithful<A(!new)>(show: A -> string, parse: string -> Option<A>) {
    forall a :: parse(show(a)) == Some(a)
  }

  function NumberKeyAt(n: nat): (k: Key)
    ensures NumberKey(k)
  {
    if n == 4 then InviteTtl else if n == 5 then DeployTtl else if n == 6 then OfflineAfter
    else if n == 7 then RegisterTimeout else if n == 8 then MaxNodes else if n == 9 then MaxStreams
    else MaxThroughput
  }

  function NumberOf<A>(c: ServeConfig<A>, k: Key): Option<nat>
    requires NumberKey(k)
  {
    match k
    case InviteTtl => c.inviteTtl
    case DeployTtl => c.deployTtl
    case OfflineAfter => c.offlineAfter
    case RegisterTimeout => c.registerTimeout
    case MaxNodes => c.maxNodes
    case MaxStreams => c.maxStreams
    case MaxThroughput => c.maxThroughput
  }

  /** The `n`-th group of printed fields, and the configuration with the first `n`
      groups read. */
  function Group<A>(show: A -> string, c: ServeConfig<A>, n: nat): seq<Field> {
    if n == 0 then [Note(ServeHeader)]
    else if n == 1 then ListenField(show, c.listen)
    else if n == 2 then TextField(AdminSocket, c.adminSocket)
    else if n == 3 then TextField(WhitelistDir, c.whitelistDir)
    else if n <= 10 then NumberField(NumberKeyAt(n), NumberOf(c, NumberKeyAt(n)))
    else BoolField(LegacyEnroll, c.legacyEnroll)
  }

  function Groups<A>(show: A -> string, c: ServeConfig<A>, n: nat): seq<Field> {
    if n == 0 then [] else Groups(show, c, n - 1) + Group(show, c, n - 1)
  }

  function Partial<A>(c: ServeConfig<A>, n: nat): ServeConfig<A> {
    ServeConfig(
      if n > 1 then c.listen else None,
      if n > 2 then c.adminSocket else None,
      if n > 3 then c.whitelistDir else None,
      if n > 4 then c.inviteTtl else None,
      if n > 5 then c.deployTtl else None,
      if n > 6 then c.offlineAfter else None,
      if n > 7 then c.registerTimeout else None,
      if n > 8 then c.maxNodes else None,
      if n > 9 then c.maxStreams else None,
      if n > 10 then c.maxThroughput else None,
      if n > 11 then c.legacyEnroll else None)
  }

  lemma GroupsNext<A>(show: A -> string, c: ServeConfig<A>, n: nat)
    ensures Groups(show, c, n + 1) == Groups(show, c, n) + Group(show, c, n)
  {
  }

  lemma GroupsAre<A>(show: A -> string, c: ServeConfig<A>)
    ensures Groups(show, c, 12) == ServeFields(show, c)
  {
    GroupsNext(show, c, 0);
    assert Groups(show, c, 1) == [Note(ServeHeader)];
    GroupsNext(show, c, 1);
    GroupsNext(show, c, 2);
    GroupsNext(show, c, 3);
    GroupsNext(show, c, 4);
    GroupsNext(show, c, 5);
    GroupsNext(show, c, 6);
    GroupsNext(show, c, 7);
    GroupsNext(show, c, 8);
    GroupsNext(show, c, 9);
    GroupsNext(show, c, 10);
    GroupsNext(show, c, 11);
  }

  lemma GroupIsOne<A>(show: A -> string, c: ServeConfig<A>, n: nat)
    ensures |Group(show, c, n)| <= 1 && FieldsOk(Group(show, c, n)) && AllServe(Group(show, c, n))
  {
    if 4 <= n <= 10 {
      NumberFieldOk(NumberKeyAt(n), NumberOf(c, NumberKeyAt(n)));
    } else if n > 10 && c.legacyEnroll.Some? {
      var text := BoolText(c.legacyEnroll.value);
      assert Tight(text) && '\n' !in text;
    }
  }

  lemma {:induction false} GroupsOk<A>(show: A -> string, c: ServeConfig<A>, n: nat)
    ensures FieldsOk(Groups(show, c, n)) && AllServe(Groups(show, c, n))
  {
    if n == 0 {
    } else {
      GroupIsOne(show, c, n - 1);
      GroupsOk(show, c, n - 1);
      OkJoin(Groups(show, c, n - 1), Group(show, c, n - 1));
    }
  }

  lemma ServeFieldsOk<A>(show: A -> string, c: ServeConfig<A>)
    ensures FieldsOk(ServeFields(show, c)) && AllServe(ServeFields(show, c))
  {
    GroupsAre(show, c);
    GroupsOk(show, c, 12);
  }

  lemma NumberReadsBack(n: Option<nat>)
    requires ValidNumber(n)
    ensures n.Some? ==> Positive(Decimal(n.value)) == n
  {
    if n.Some? {
      ParseDecimal(n.value, U64);
    }
  }

  lemma NumberValid<A>(c: ServeConfig<A>, k: Key)
    requires ValidServe(c) && NumberKey(k)
    ensures ValidNumber(NumberOf(c, k))
  {
  }

  lemma PartialNumber<A>(c: ServeConfig<A>, n: nat)
    requires 4 <= n <= 10
    ensures var k := NumberKeyAt(n); SetNumber(Partial(c, n), k, NumberOf(c, k)) == Partial(c, n + 1)
    ensures NumberOf(c, NumberKeyAt(n)).None? ==> Partial(c, n + 1) == Partial(c, n)
  {
  }

  lemma GroupReads<A(!new)>(show: A -> string, parse: string -> Option<A>, c: ServeConfig<A>, n: nat)
    requires Faithful(show, parse) && ValidServe(c) && n < 12
    ensures var g := Group(show, c, n);
            if g == [] || g[0].Note? then Partial(c, n + 1) == Partial(c, n)
            else PutServe(parse, Partial(c, n), g[0].key, Held(g[0])) == Some(Partial(c, n + 1))
  {
    if 4 <= n <= 10 {
      NumberValid(c, NumberKeyAt(n));
      NumberReadsBack(NumberOf(c, NumberKeyAt(n)));
      PartialNumber(c, n);
    } else if n == 11 && c.legacyEnroll.Some? {
      BoolReadsBack(c.legacyEnroll.value);
    }
  }

  lemma {:induction false} GroupsRead<A(!new)>(show: A -> string, parse: string -> Option<A>, c: ServeConfig<A>, n: nat)
    requires Faithful(show, parse) && ValidServe(c) && n <= 12
    ensures FoldFields(Putter(parse), NoServe(), Groups(show, c, n)) == Some(Partial(c, n))
  {
    if n == 0 {
    } else {
      GroupsRead(show, parse, c, n - 1);
      GroupReads(show, parse, c, n - 1);
      GroupIsOne(show, c, n - 1);
      ReadsOne(Putter(parse), NoServe(), Groups(show, c, n - 1), Group(show, c, n - 1), Partial(c, n - 1), Partial(c, n));
    }
  }

  lemma ServeReadsOwn<A(!new)>(show: A -> string, parse: string -> Option<A>, c: ServeConfig<A>)
    requires Faithful(show, parse) && ValidServe(c)
    ensures FoldFields(Putter(parse), NoServe(), ServeFields(show, c)) == Some(c)
  {
    GroupsAre(show, c);
    GroupsRead(show, parse, c, 12);
  }

  lemma ServeIgnores<A>(parse: string -> Option<A>, c: ServeConfig<A>, fs: seq<Field>)
    requires AllPin(fs)
    ensures FoldFields(Putter(parse), c, fs) == Some(c)
  {
    FoldIgnores(Putter(parse), c, fs);
  }

  lemma PutServeStaysValid<A>(parse: string -> Option<A>, c: ServeConfig<A>, k: Key, value: string)
    requires ValidServe(c) && PutServe(parse, c, k, value).Some?
    ensures ValidServe(PutServe(parse, c, k, value).value)
  {
    var n := ParseUnsigned(value, U64);
  }

  // ---------------------------------------------------------------------
  // One file

  function PinText(c: PinConfig): string {
    Render(PinFields(c))
  }

  function ServeText<A>(show: A -> string, c: ServeConfig<A>): string {
    Render(ServeFields(show, c))
  }

  /** The pin parser reads the pin back from a file that holds both texts, in either
      order. */
  lemma PinSurvivesSharing<A>(pin: PinConfig, show: A -> string, serve: ServeConfig<A>)
    requires ValidPin(pin)
    ensures PinOf(PinText(pin) + ServeText(show, serve)) == Some(pin)
    ensures PinOf(ServeText(show, serve) + PinText(pin)) == Some(pin)
  {
    PinFieldsOk(pin);
    ServeFieldsOk(show, serve);
    PinReadsBoth(pin, ServeFields(show, serve));
  }

  lemma PinReadsBoth(pin: PinConfig, others: seq<Field>)
    requires ValidPin(pin) && FieldsOk(PinFields(pin)) && FieldsOk(others) && AllServe(others)
    ensures PinOf(Render(PinFields(pin)) + Render(others)) == Some(pin)
    ensures PinOf(Render(others) + Render(PinFields(pin))) == Some(pin)
  {
    PinReadsOwn(pin);
    PinIgnores(NO_PIN, others);
    PinIgnores(DraftOf(pin), others);
    FoldOfTexts(PutPin, NO_PIN, PinFields(pin), others);
    FoldOfTexts(PutPin, NO_PIN, others, PinFields(pin));
  }

  /** And the serve parser reads the serve configuration back from either. */
  lemma ServeSurvivesSharing<A(!new)>(pin: PinConfig, show: A -> string, parse: string -> Option<A>, serve: ServeConfig<A>)
    requires Faithful(show, parse) && ValidServe(serve)
    ensures ServeOf(parse, PinText(pin) + ServeText(show, serve)) == Some(serve)
    ensures ServeOf(parse, ServeText(show, serve) + PinText(pin)) == Some(serve)
  {
    PinFieldsOk(pin);
    ServeFieldsOk(show, serve);
    ServeReadsOwn(show, parse, serve);
    FoldOfTexts(Putter(parse), NoServe(), PinFields(pin), ServeFields(show, serve));
    FoldOfTexts(Putter(parse), NoServe(), ServeFields(show, serve), PinFields(pin));
    ServeIgnores(parse, NoServe(), PinFields(pin));
    ServeIgnores(parse, serve, PinFields(pin));
  }

  /** A pin survives its own text exactly when it is valid. */
  lemma PinRoundTripExactly(c: PinConfig)
    ensures PinOf(PinText(c)) == Some(c) <==> ValidPin(c)
  {
    if ValidPin(c) {
      PinFieldsOk(c);
      PinReadsOwn(c);
      FoldOfTexts(PutPin, NO_PIN, PinFields(c), []);
      assert PinText(c) + "" == PinText(c);
    }
    if PinOf(PinText(c)).Some? {
      ParsedPinIsValid(PinText(c));
    }
  }

  lemma ServeRoundTripExactly<A(!new)>(show: A -> string, parse: string -> Option<A>, c: ServeConfig<A>)
    requires Faithful(show, parse)
    ensures ServeOf(parse, ServeText(show, c)) == Some(c) <==> ValidServe(c)
  {
    if ValidServe(c) {
      ServeFieldsOk(show, c);
      ServeReadsOwn(show, parse, c);
      FoldOfTexts(Putter(parse), NoServe(), ServeFields(show, c), []);
      assert ServeText(show, c) + "" == ServeText(show, c);
    }
    forall x: ServeConfig<A>, k, v | ValidServe(x) && Putter(parse)(x, k, v).Some?
      ensures ValidServe(Putter(parse)(x, k, v).value)
    {
      PutServeStaysValid(parse, x, k, v);
    }
    FoldKeeps(Putter(parse), x => ValidServe(x), NoServe(), Lines(ServeText(show, c)));
  }
}
