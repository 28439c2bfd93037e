/** The reconciler of an agent's TOML hook configuration
    (src/application/agent_hooks_config_service.rs): it drops the hook blocks
    WaitAgent wrote before and appends one fresh block per event. */
module Hooks {
  import opened Sequences
  import opened TomlText

  const HOOK_TAG := "waitagent-agent-signal"
  const SENDER_MARK := "agent-signal-send"

  // ---------------------------------------------------------------------
  // Lines

  function Join(lines: seq<string>): string
    decreases |lines|
  {
    if lines == [] then ""
    else if |lines| == 1 then lines[0]
    else Join(lines[..|lines| - 1]) + "\n" + lines[|lines| - 1]
  }

  /** Every line followed by a line feed. */
  function Text(lines: seq<string>): string
    decreases |lines|
  {
    if lines == [] then "" else Text(lines[..|lines| - 1]) + lines[|lines| - 1] + "\n"
  }

  predicate IsBlank(line: string) {
    Trim(line) == ""
  }

  predicate IsHeader(line: string) {
    Trim(line) == "[[hooks]]"
  }

  /** The start of any table. */
  predicate IsBracket(line: string) {
    TrimStart(line) != "" && TrimStart(line)[0] == '['
  }

  // ---------------------------------------------------------------------
  // Which blocks are WaitAgent's

  predicate At(s: string, i: nat, needle: string) {
    i + |needle| <= |s| && s[i..i + |needle|] == needle
  }

  predicate Contains(s: string, needle: string) {
    exists i :: 0 <= i <= |s| && At(s, i, needle)
  }

  predicate Marked(block: seq<string>) {
    Contains(Join(block), HOOK_TAG) || Contains(Join(block), SENDER_MARK)
  }

  // ---------------------------------------------------------------------
  // What is kept

  /** How many lines follow before the next table. */
  function Run(lines: seq<string>): (n: nat)
    ensures n <= |lines|
  {
    if lines == [] || IsBracket(lines[0]) then 0 else 1 + Run(lines[1..])
  }

  function Flushed(block: seq<string>): seq<string> {
    if block == [] || Marked(block) then [] else block
  }

  /** A hook block is its header and the lines up to the next table; marked blocks
      go, everything else stays in order. */
  function Kept(lines: seq<string>): seq<string>
    decreases |lines|
  {
    if lines == [] then []
    else if IsHeader(lines[0]) then
      var n := 1 + Run(lines[1..]);
      Flushed(lines[..n]) + Kept(lines[n..])
    else [lines[0]] + Kept(lines[1..])
  }

  function DropTrailingBlank(lines: seq<string>): (r: seq<string>)
    ensures r <= lines && (r != [] ==> !IsBlank(r[|r| - 1]))
    ensures forall i :: |r| <= i < |lines| ==> IsBlank(lines[i])
    decreases |lines|
  {
    if lines != [] && IsBlank(lines[|lines| - 1]) then DropTrailingBlank(lines[..|lines| - 1]) else lines
  }

  // ---------------------------------------------------------------------
  // Fresh blocks

  function Replaced(value: string): string {
    if value == "" then "" else (if value[0] == '\'' then "'\"'\"'" else [value[0]]) + Replaced(value[1..])
  }

  function ShellSingleQuote(value: string): string {
    "'" + Replaced(value) + "'"
  }

  function HookCommand(sender: string, event: string, agent: string): string {
    (if agent == "kimi" then "WAITAGENT_AGENT_NAME=kimi " else "")
    + ShellSingleQuote(sender) + " " + ShellSingleQuote(event)
  }

  function TomlQuoted(value: string): string {
    "\"" + Escape(value) + "\""
  }

  method TomlString(value: string) returns (out: string)
    ensures out == TomlQuoted(value)
  {
    out := "\"";
    for i := 0 to |value|
      invariant out + Escape(value[i..]) == "\"" + Escape(value)
    {
      assert value[i..][1..] == value[i + 1..];
      ghost var before := out;
      out := out + EscapeChar(value[i]);
      assert out + Escape(value[i + 1..]) == before + Escape(value[i..]);
    }
    out := out + "\"";
  }

  function TagLine(event: string): string {
    "# " + HOOK_TAG + ":" + event
  }

  function BlockLines(sender: string, event: string, agent: string): seq<string> {
    ["[[hooks]]",
     "event = " + TomlQuoted(event),
     "command = " + TomlQuoted(HookCommand(sender, event, agent)),
     "timeout = 5",
     TagLine(event)]
  }

  /** A blank line follows each block. */
  function AllBlocks(sender: string, events: seq<string>, agent: string): seq<string>
    decreases |events|
  {
    if events == [] then []
    else AllBlocks(sender, events[..|events| - 1], agent) + BlockLines(sender, events[|events| - 1], agent) + [""]
  }

  // ---------------------------------------------------------------------
  // The whole file

  function KeptLines(content: string): seq<string> {
    DropTrailingBlank(Kept(Lines(content)))
  }

  function WithGap(kept: seq<string>): seq<string> {
    if kept == [] then [] else kept + [""]
  }

  function Reconciled(content: string, sender: string, events: seq<string>, agent: string): string {
    Text(WithGap(KeptLines(content)) + AllBlocks(sender, events, agent))
  }

  method FlushHook(kept: seq<string>, current: seq<string>) returns (r: seq<string>)
    ensures r == kept + Flushed(current)
  {
    if current == [] {
      return kept;
    }
    if Marked(current) {
      return kept;
    }
    return kept + current;
  }

  /** What the loop still owes, with an open block in hand or not. */
  ghost function Continued(current: seq<string>, inHook: bool, rest: seq<string>): seq<string> {
    if inHook then Flushed(current + rest[..Run(rest)]) + Kept(rest[Run(rest)..])
    else Kept(rest)
  }

  lemma HeaderIsBracket(line: string)
    requires IsHeader(line)
    ensures IsBracket(line)
  {
    TrimEndKeepsStart(TrimStart(line));
    assert Trim(line)[0] == '[';
  }

  lemma {:induction false} TrimEndKeepsStart(s: string)
    ensures TrimEnd(s) != "" ==> s != "" && TrimEnd(s)[0] == s[0]
    decreases |s|
  {
    if s == "" || !IsWhitespace(s[|s| - 1]) {
    } else {
      TrimEndKeepsStart(s[..|s| - 1]);
    }
  }

  // One line of the loop: a header, another table inside a block, a line of the
  // block, a line outside.

  lemma HeaderStep(current: seq<string>, inHook: bool, rest: seq<string>)
    requires rest != [] && IsHeader(rest[0]) && (!inHook ==> current == [])
    ensures Continued(current, inHook, rest) == Flushed(current) + Continued([rest[0]], true, rest[1..])
  {
    HeaderIsBracket(rest[0]);
    OpenBlock(current, rest);
  }

  lemma TableStep(current: seq<string>, rest: seq<string>)
    requires rest != [] && !IsHeader(rest[0]) && IsBracket(rest[0])
    ensures Continued(current, true, rest) == Flushed(current) + [rest[0]] + Continued([], false, rest[1..])
  {
    CutNone(current, rest);
    Assoc(Flushed(current), [rest[0]], Kept(rest[1..]));
  }

  lemma BodyStep(current: seq<string>, rest: seq<string>)
    requires rest != [] && !IsBracket(rest[0])
    ensures Continued(current, true, rest) == Continued(current + [rest[0]], true, rest[1..])
  {
    GrowBlock(current, rest);
  }

  lemma PlainStep(rest: seq<string>)
    requires rest != [] && !IsHeader(rest[0])
    ensures Continued([], false, rest) == [rest[0]] + Continued([], false, rest[1..])
  {
  }

  lemma GrowBlock(current: seq<string>, rest: seq<string>)
    requires rest != [] && !IsBracket(rest[0])
    ensures current + rest[..Run(rest)] == current + [rest[0]] + rest[1..][..Run(rest[1..])]
    ensures rest[Run(rest)..] == rest[1..][Run(rest[1..])..]
  {
    CutOne(current, rest, Run(rest[1..]));
  }

  lemma OpenBlock(current: seq<string>, rest: seq<string>)
    requires rest != [] && IsHeader(rest[0]) && IsBracket(rest[0])
    ensures current + rest[..Run(rest)] == current && rest[Run(rest)..] == rest
    ensures Kept(rest) == Continued([rest[0]], true, rest[1..])
  {
    CutNone(current, rest);
    SplitOne(rest, Run(rest[1..]));
  }

  method KeepLine(kept: seq<string>, current: seq<string>, inHook: bool, line: string, ghost rest: seq<string>)
      returns (k: seq<string>, c: seq<string>, h: bool)
    requires rest != [] && rest[0] == line && (inHook <==> current != [])
    ensures h <==> c != []
    ensures k + Continued(c, h, rest[1..]) == kept + Continued(current, inHook, rest)
  {
    if IsHeader(line) {
      HeaderStep(current, inHook, rest);
      k := FlushHook(kept, current);
      c, h := [line], true;
      Assoc(kept, Flushed(current), Continued(c, h, rest[1..]));
    } else if inHook && IsBracket(line) {
      TableStep(current, rest);
      k := FlushHook(kept, current);
      c, h := [], false;
      k := k + [line];
      AssocFour(kept, Flushed(current), [line], Continued(c, h, rest[1..]));
    } else if inHook {
      BodyStep(current, rest);
      k, c, h := kept, current + [line], true;
    } else {
      PlainStep(rest);
      k, c, h := kept + [line], [], false;
      Assoc(kept, [line], Continued(c, h, rest[1..]));
    }
  }

  method KeepLines(lines: seq<string>) returns (kept: seq<string>)
    ensures kept == Kept(lines)
  {
    kept := [];
    var current: seq<string> := [];
    var inHook := false;
    assert lines[0..] == lines;
    for i := 0 to |lines|
      invariant inHook <==> current != []
      invariant kept + Continued(current, inHook, lines[i..]) == Kept(lines)
    {
      assert lines[i..][1..] == lines[i + 1..];
      kept, current, inHook := KeepLine(kept, current, inHook, lines[i], lines[i..]);
    }
    assert current + [] == current;
    kept := FlushHook(kept, current);
  }

  method PopBlank(lines: seq<string>) returns (kept: seq<string>)
    ensures kept == DropTrailingBlank(lines)
  {
    kept := lines;
    while kept != [] && IsBlank(kept[|kept| - 1])
      invariant DropTrailingBlank(kept) == DropTrailingBlank(lines)
      decreases |kept|
    {
      kept := kept[..|kept| - 1];
    }
  }

  lemma {:induction false} JoinIsText(lines: seq<string>)
    requires lines != []
    ensures Join(lines) + "\n" == Text(lines)
    decreases |lines|
  {
    var last := lines[|lines| - 1];
    if |lines| == 1 {
      assert lines[..0] == [];
      assert "" + last + "\n" == last + "\n";
    } else {
      JoinIsText(lines[..|lines| - 1]);
    }
  }

  lemma TextSnoc(lines: seq<string>, line: string)
    ensures Text(lines + [line]) == Text(lines) + line + "\n"
  {
    assert (lines + [line])[..|lines|] == lines;
  }

  lemma {:induction false} TextJoin(a: seq<string>, b: seq<string>)
    ensures Text(a + b) == Text(a) + Text(b)
    decreases |b|
  {
    if b == [] {
      assert a + b == a;
    } else {
      var rest, last := b[..|b| - 1], b[|b| - 1];
      TextJoin(a, rest);
      assert a + b == a + rest + [last];
      TextSnoc(a + rest, last);
      AssocFour(Text(a), Text(rest), last, "\n");
    }
  }

  method HookBlock(sender: string, event: string, agent: string) returns (out: string)
    ensures out == Text(BlockLines(sender, event, agent))
  {
    var quotedEvent := TomlString(event);
    var quotedCommand := TomlString(HookCommand(sender, event, agent));
    out := "[[hooks]]\n" + "event = " + quotedEvent + "\n" + "command = " + quotedCommand + "\n"
           + "timeout = 5\n" + TagLine(event) + "\n";
    BlockText("[[hooks]]", "event = " + quotedEvent, "command = " + quotedCommand, "timeout = 5", TagLine(event));
    GlueBlock(quotedEvent, quotedCommand, TagLine(event));
  }

  lemma GlueBlock(event: string, command: string, tag: string)
    ensures "[[hooks]]\n" + "event = " + event + "\n" + "command = " + command + "\n" + "timeout = 5\n" + tag + "\n"
         == "[[hooks]]" + "\n" + ("event = " + event) + "\n" + ("command = " + command) + "\n" + "timeout = 5" + "\n" + tag + "\n"
  {
  }

  lemma BlockText(a: string, b: string, c: string, d: string, e: string)
    ensures Text([a, b, c, d, e]) == a + "\n" + b + "\n" + c + "\n" + d + "\n" + e + "\n"
  {
    TextSnoc([], a);
    TextSnoc([a], b);
    TextSnoc([a, b], c);
    TextSnoc([a, b, c], d);
    TextSnoc([a, b, c, d], e);
    assert [] + [a] == [a] && [a] + [b] == [a, b] && [a, b] + [c] == [a, b, c];
    assert [a, b, c] + [d] == [a, b, c, d] && [a, b, c, d] + [e] == [a, b, c, d, e];
  }

  /** A last line that is not blank is not empty either. */
  lemma LastLineNotEmpty(kept: seq<string>)
    requires kept != [] && !IsBlank(kept[|kept| - 1])
    ensures Join(kept) != ""
  {
    var last := kept[|kept| - 1];
    EmptyIsBlank(last);
  }

  lemma EmptyIsBlank(line: string)
    ensures line == "" ==> IsBlank(line)
  {
  }

  method AppendBlock(text: string, sender: string, event: string, agent: string, ghost lines: seq<string>)
      returns (out: string)
    requires text == Text(lines)
    ensures out == Text(lines + (BlockLines(sender, event, agent) + [""]))
  {
    var block := HookBlock(sender, event, agent);
    out := text + block;
    out := out + "\n";
    ghost var added := BlockLines(sender, event, agent);
    TextJoin(lines, added);
    TextSnoc(lines + added, "");
    Assoc(lines, added, [""]);
  }

  method Reconcile(content: string, sender: string, events: seq<string>, agent: string) returns (out: string)
    ensures out == Reconciled(content, sender, events, agent)
  {
    var all := KeepLines(Lines(content));
    var kept := PopBlank(all);
    ghost var lines := WithGap(kept);
    out := Join(kept);
    if kept != [] {
      LastLineNotEmpty(kept);
      JoinIsText(kept);
      TextSnoc(kept, "");
    }
    if out != "" {
      out := out + "\n\n";
    }
    assert lines + [] == lines;
    for i := 0 to |events|
      invariant out == Text(lines + AllBlocks(sender, events[..i], agent))
    {
      out := AppendBlock(out, sender, events[i], agent, lines + AllBlocks(sender, events[..i], agent));
      NextBlock(lines, sender, events, agent, i);
    }
    assert events[..|events|] == events;
  }

  lemma NextBlock(lines: seq<string>, sender: string, events: seq<string>, agent: string, i: nat)
    requires i < |events|
    ensures lines + AllBlocks(sender, events[..i + 1], agent)
         == lines + AllBlocks(sender, events[..i], agent) + (BlockLines(sender, events[i], agent) + [""])
  {
    assert events[..i + 1][..i] == events[..i];
    Assoc(AllBlocks(sender, events[..i], agent), BlockLines(sender, events[i], agent), [""]);
    Assoc(lines, AllBlocks(sender, events[..i], agent), BlockLines(sender, events[i], agent) + [""]);
  }
}
