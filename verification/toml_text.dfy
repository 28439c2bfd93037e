/** Text handling shared by the two stores of `relay.toml`
    (src/infra/relay_toml_store.rs, src/infra/relay_serve_toml_store.rs): lines,
    trimming, quoting and numbers. */
module TomlText {
  import opened Frames

  // ---------------------------------------------------------------------
  // Trimming and lines

  /** The characters `str::trim` removes. */
  predicate IsWhitespace(c: char) {
    '\t' <= c <= '\r' || c == ' ' || c == '\U{85}' || c == '\U{A0}' || c == '\U{1680}' ||
    '\U{2000}' <= c <= '\U{200A}' || c == '\U{2028}' || c == '\U{2029}' || c == '\U{202F}' ||
    c == '\U{205F}' || c == '\U{3000}'
  }

  function TrimStart(s: string): string {
    if s != "" && IsWhitespace(s[0]) then TrimStart(s[1..]) else s
  }

  function TrimEnd(s: string): string {
    if s != "" && IsWhitespace(s[|s| - 1]) then TrimEnd(s[..|s| - 1]) else s
  }

  function Trim(s: string): string {
    TrimEnd(TrimStart(s))
  }

  /** Nothing to trim, and something there. */
  predicate Tight(s: string) {
    s != "" && !IsWhitespace(s[0]) && !IsWhitespace(s[|s| - 1])
  }

  lemma TrimTight(s: string)
    requires Tight(s)
    ensures Trim(s) == s && Trim(" " + s) == s && Trim(s + " ") == s
  {
    assert (" " + s)[1..] == s;
    assert (s + " ")[..|s|] == s;
  }

  /** The first position of `c`, or the length. */
  function IndexOf(s: string, c: char): (i: nat)
    ensures i <= |s| && c !in s[..i]
    ensures i < |s| ==> s[i] == c
  {
    if s == "" || s[0] == c then 0
    else
      assert s[..1 + IndexOf(s[1..], c)] == [s[0]] + s[1..][..IndexOf(s[1..], c)];
      1 + IndexOf(s[1..], c)
  }

  lemma {:induction false} IndexOfFirst(a: string, c: char, b: string)
    requires c !in a
    ensures IndexOf(a + [c] + b, c) == |a|
  {
    if a == "" {
    } else {
      IndexOfFirst(a[1..], c, b);
      assert (a + [c] + b)[1..] == a[1..] + [c] + b;
    }
  }

  /** `str::lines`: a final line needs no line feed, and one carriage return before
      a line feed goes with it. */
  function Lines(text: string): seq<string>
    decreases |text|
  {
    if text == "" then []
    else
      var i := IndexOf(text, '\n');
      if i == |text| then [text]
      else
        [if i > 0 && text[i - 1] == '\r' then text[..i - 1] else text[..i]] + Lines(text[i + 1..])
  }

  predicate OneLine(s: string) {
    '\n' !in s && (s != "" ==> s[|s| - 1] != '\r')
  }

  lemma LinesStep(line: string, rest: string)
    requires OneLine(line)
    ensures Lines(line + "\n" + rest) == [line] + Lines(rest)
  {
    var text := line + "\n" + rest;
    IndexOfFirst(line, '\n', rest);
    assert text[..|line|] == line && text[|line| + 1..] == rest;
  }

  // ---------------------------------------------------------------------
  // Quoting

  function EscapeChar(c: char): string {
    if c == '\\' then "\\\\" else if c == '"' then "\\\"" else if c == '\n' then "\\n"
    else if c == '\r' then "\\r" else if c == '\t' then "\\t" else [c]
  }

  function Escape(s: string): string {
    if s == "" then "" else EscapeChar(s[0]) + Escape(s[1..])
  }

  function UnescapeChar(c: char): char {
    if c == 'n' then '\n' else if c == 'r' then '\r' else if c == 't' then '\t' else c
  }

  /** A backslash at the very end stands for itself. */
  function Unescape(s: string): string
    decreases |s|
  {
    if s == "" then ""
    else if s[0] != '\\' then [s[0]] + Unescape(s[1..])
    else if |s| == 1 then "\\"
    else [UnescapeChar(s[1])] + Unescape(s[2..])
  }

  lemma UnescapeFirst(c: char, rest: string)
    ensures Unescape(EscapeChar(c) + rest) == [c] + Unescape(rest)
  {
    var e := EscapeChar(c);
    if |e| == 1 {
      assert (e + rest)[1..] == rest;
    } else {
      assert (e + rest)[2..] == rest;
    }
  }

  lemma {:induction false} UnescapeEscape(s: string)
    ensures Unescape(Escape(s)) == s
  {
    if s == "" {
    } else {
      UnescapeFirst(s[0], Escape(s[1..]));
      UnescapeEscape(s[1..]);
    }
  }

  /** No character of an escaped text ends a line. */
  lemma {:induction false} EscapeIsOneLine(s: string)
    ensures forall i :: 0 <= i < |Escape(s)| ==> Escape(s)[i] != '\n' && Escape(s)[i] != '\r'
  {
    if s == "" {
    } else {
      EscapeIsOneLine(s[1..]);
    }
  }

  method PushString(out: string, key: string, value: string) returns (r: string)
    ensures r == out + key + " = \"" + Escape(value) + "\"\n"
  {
    r := out + key + " = \"";
    ghost var start := r;
    for i := 0 to |value|
      invariant r + Escape(value[i..]) == start + Escape(value)
    {
      assert value[i..][1..] == value[i + 1..];
      ghost var before := r;
      r := r + EscapeChar(value[i]);
      assert r + Escape(value[i + 1..]) == before + Escape(value[i..]);
    }
    r := r + "\"\n";
  }

  function Quoted(value: string): Option<string> {
    if value == "" || value[|value| - 1] != '"' || |value| < 2 then None
    else Some(Unescape(value[1..|value| - 1]))
  }

  method ParseQuoted(value: string) returns (r: Option<string>)
    ensures r == Quoted(value)
  {
    if value == "" || value[|value| - 1] != '"' || |value| < 2 {
      return None;
    }
    var inner := value[1..|value| - 1];
    var out := "";
    var i := 0;
    while i < |inner|
      invariant 0 <= i <= |inner| && out + Unescape(inner[i..]) == Unescape(inner)
    {
      ghost var was, rest := out, inner[i..];
      if inner[i] != '\\' {
        out := out + [inner[i]];
        i := i + 1;
        assert rest[1..] == inner[i..];
      } else if i + 1 < |inner| {
        out := out + [UnescapeChar(inner[i + 1])];
        i := i + 2;
        assert rest[2..] == inner[i..];
      } else {
        out := out + "\\";
        i := i + 1;
      }
      assert out + Unescape(inner[i..]) == was + Unescape(rest);
    }
    assert inner[i..] == "" && out + "" == out;
    return Some(out);
  }

  // ---------------------------------------------------------------------
  // key = value

  datatype Entry = Entry(key: string, value: string)

  function EntryOf(line: string): Option<Entry> {
    var i := IndexOf(line, '=');
    if i == |line| then None
    else
      var key, value := Trim(line[..i]), Trim(line[i + 1..]);
      if value != "" && value[0] == '"' then
        var quoted := Quoted(value);
        if quoted.None? then None else Some(Entry(key, quoted.value))
      else Some(Entry(key, value))
  }

  lemma EntryOfSplit(key: string, body: string)
    requires Tight(key) && '=' !in key && Tight(body)
    ensures EntryOf(key + " = " + body) ==
            if body[0] != '"' then Some(Entry(key, body))
            else if Quoted(body).None? then None else Some(Entry(key, Quoted(body).value))
  {
    var line := key + " = " + body;
    assert line == (key + " ") + "=" + (" " + body);
    IndexOfFirst(key + " ", '=', " " + body);
    assert line[..|key| + 1] == key + " " && line[|key| + 2..] == " " + body;
    TrimTight(key);
    TrimTight(body);
  }

  lemma QuotedEscape(value: string)
    ensures Quoted("\"" + Escape(value) + "\"") == Some(value)
  {
    var q := "\"" + Escape(value) + "\"";
    assert q[1..|q| - 1] == Escape(value);
    UnescapeEscape(value);
  }

  // ---------------------------------------------------------------------
  // Numbers

  const U64 := 0x1_0000_0000_0000_0000

  predicate IsDigit(c: char) {
    '0' <= c <= '9'
  }

  predicate AllDigits(s: string) {
    forall i :: 0 <= i < |s| ==> IsDigit(s[i])
  }

  function Value(digits: string): nat
    requires AllDigits(digits)
  {
    if digits == "" then 0 else Value(digits[..|digits| - 1]) * 10 + (digits[|digits| - 1] - '0') as nat
  }

  function Decimal(n: nat): (s: string)
    ensures s != "" && AllDigits(s)
  {
    (if n < 10 then "" else Decimal(n / 10)) + ['0' + (n % 10) as char]
  }

  lemma {:induction false} DecimalValue(n: nat)
    ensures Value(Decimal(n)) == n
  {
    var s := Decimal(n);
    if n < 10 {
      assert s[..0] == "";
    } else {
      assert s[..|s| - 1] == Decimal(n / 10);
      DecimalValue(n / 10);
    }
  }

  /** `str::parse` of an unsigned number below `limit`: digits, perhaps after one
      plus sign. */
  function ParseUnsigned(s: string, limit: nat): (r: Option<nat>)
    ensures r.Some? ==> r.value < limit
  {
    var digits := if s != "" && s[0] == '+' then s[1..] else s;
    if digits == "" || !AllDigits(digits) || Value(digits) >= limit then None else Some(Value(digits))
  }

  lemma ParseDecimal(n: nat, limit: nat)
    requires n < limit
    ensures ParseUnsigned(Decimal(n), limit) == Some(n)
  {
    DecimalValue(n);
  }
}
