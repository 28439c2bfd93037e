/** What the quoting of a hook command (src/application/agent_hooks_config_service.rs)
    means to a POSIX shell. */
module HooksShell {
  import opened Frames
  import opened Hooks
  import opened HooksIdempotent
  import opened TomlText

  datatype Mode = Bare | Single | Double

  /** Characters that a shell does not take literally outside quotes. */
  predicate Special(c: char) {
    c in {' ', '\t', '\n', '|', '&', ';', '<', '>', '(', ')', '$', '`', '\\', '*', '?', '[', '#', '~', '=', '%', '!', '{', '}'}
  }

  /** The value of one shell word, by the quoting rules of the POSIX shell command
      language, section 2.2: nothing is special between single quotes; between
      double quotes dollar, backquote and backslash are. */
  function WordValue(s: string, mode: Mode): Option<string>
    decreases |s|
  {
    if s == "" then if mode.Bare? then Some("") else None
    else
      var c, rest := s[0], s[1..];
      match mode
      case Bare =>
        if c == '\'' then WordValue(rest, Single)
        else if c == '"' then WordValue(rest, Double)
        else if Special(c) then None
        else Prefixed(c, WordValue(rest, Bare))
      case Single => if c == '\'' then WordValue(rest, Bare) else Prefixed(c, WordValue(rest, Single))
      case Double =>
        if c == '"' then WordValue(rest, Bare)
        else if c == '$' || c == '`' || c == '\\' then None
        else Prefixed(c, WordValue(rest, Double))
  }

  function Prefixed(c: char, value: Option<string>): Option<string> {
    if value.None? then None else Some([c] + value.value)
  }

  lemma QuoteInside(rest: string)
    ensures WordValue("'\"'\"'" + rest, Single) == Prefixed('\'', WordValue(rest, Single))
  {
    assert ("'" + rest)[1..] == rest;
    assert WordValue("'" + rest, Bare) == WordValue(rest, Single);
    assert ("\"'" + rest)[1..] == "'" + rest;
    assert WordValue("\"'" + rest, Double) == WordValue("'" + rest, Bare);
    assert ("'\"'" + rest)[1..] == "\"'" + rest;
    assert WordValue("'\"'" + rest, Double) == Prefixed('\'', WordValue("\"'" + rest, Double));
    assert ("\"'\"'" + rest)[1..] == "'\"'" + rest;
    assert WordValue("\"'\"'" + rest, Bare) == WordValue("'\"'" + rest, Double);
    assert ("'\"'\"'" + rest)[1..] == "\"'\"'" + rest;
  }

  lemma {:induction false} ReplacedReads(value: string)
    ensures WordValue(Replaced(value) + "'", Single) == Some(value)
  {
    if value == "" {
      assert ("" + "'")[1..] == "";
    } else {
      ReplacedReads(value[1..]);
      var rest := Replaced(value[1..]) + "'";
      assert [value[0]] + value[1..] == value;
      if value[0] == '\'' {
        QuoteInside(rest);
        assert Replaced(value) + "'" == "'\"'\"'" + rest;
      } else {
        assert Replaced(value) + "'" == [value[0]] + rest;
        assert ([value[0]] + rest)[1..] == rest;
      }
    }
  }

  /** Any text, quotes and all, comes back unchanged from the quoted word. */
  lemma QuotedWordIsTheValue(value: string)
    ensures WordValue(ShellSingleQuote(value), Bare) == Some(value)
  {
    ReplacedReads(value);
    assert ShellSingleQuote(value)[1..] == Replaced(value) + "'";
  }

  // ---------------------------------------------------------------------
  // A whole command

  function NextMode(mode: Mode, c: char): Mode {
    match mode
    case Bare => if c == '\'' then Single else if c == '"' then Double else Bare
    case Single => if c == '\'' then Bare else Single
    case Double => if c == '"' then Bare else Double
  }

  /** The length of the word that a text starts with: up to a space outside quotes. */
  function WordEnd(s: string, mode: Mode): (n: nat)
    ensures n <= |s|
  {
    if s == "" || (mode.Bare? && s[0] == ' ') then 0 else 1 + WordEnd(s[1..], NextMode(mode, s[0]))
  }

  function Words(s: string): seq<string>
    decreases |s|
  {
    if s == "" then []
    else if s[0] == ' ' then Words(s[1..])
    else
      assert WordEnd(s, Bare) > 0;
      [s[..WordEnd(s, Bare)]] + Words(s[WordEnd(s, Bare)..])
  }

  predicate IsNameChar(c: char) {
    'A' <= c <= 'Z' || 'a' <= c <= 'z' || c == '_'
  }

  /** A word of the form name=value. Names with digits do not occur here. */
  predicate IsAssignment(word: string) {
    var i := IndexOf(word, '=');
    0 < i < |word| && forall j :: 0 <= j < i ==> IsNameChar(word[j])
  }

  /** A simple command, by section 2.9.1 of the same language: assignments first, then
      the program and its arguments. */
  datatype Command = Command(assignments: seq<string>, words: seq<string>)

  function CommandOf(words: seq<string>): Option<Command> {
    if words == [] then Some(Command([], []))
    else if IsAssignment(words[0]) then
      var rest := CommandOf(words[1..]);
      if rest.None? then None else Some(rest.value.(assignments := [words[0]] + rest.value.assignments))
    else Arguments(words)
  }

  function Arguments(words: seq<string>): Option<Command> {
    if words == [] then Some(Command([], []))
    else
      var first, rest := WordValue(words[0], Bare), Arguments(words[1..]);
      if first.None? || rest.None? then None else Some(Command([], [first.value] + rest.value.words))
  }

  lemma {:induction false} ReplacedWord(value: string, tail: string)
    ensures WordEnd(Replaced(value) + "'" + tail, Single) == |Replaced(value)| + 1 + WordEnd(tail, Bare)
  {
    if value == "" {
      assert ("" + "'" + tail)[1..] == tail;
    } else {
      var rest := Replaced(value[1..]) + "'" + tail;
      ReplacedWord(value[1..], tail);
      if value[0] == '\'' {
        QuoteWord(rest);
        assert Replaced(value) + "'" + tail == "'\"'\"'" + rest;
      } else {
        assert Replaced(value) + "'" + tail == [value[0]] + rest;
        assert ([value[0]] + rest)[1..] == rest;
      }
    }
  }

  lemma QuoteWord(rest: string)
    ensures WordEnd("'\"'\"'" + rest, Single) == 5 + WordEnd(rest, Single)
  {
    assert ("'" + rest)[1..] == rest;
    assert ("\"'" + rest)[1..] == "'" + rest;
    assert WordEnd("\"'" + rest, Double) == 2 + WordEnd(rest, Single);
    assert ("'\"'" + rest)[1..] == "\"'" + rest;
    assert ("\"'\"'" + rest)[1..] == "'\"'" + rest;
    assert WordEnd("\"'\"'" + rest, Bare) == 4 + WordEnd(rest, Single);
    assert ("'\"'\"'" + rest)[1..] == "\"'\"'" + rest;
  }

  /** A quoted word ends where the quoting ends. */
  lemma QuotedWordEnds(value: string, tail: string)
    requires tail == "" || tail[0] == ' '
    ensures WordEnd(ShellSingleQuote(value) + tail, Bare) == |ShellSingleQuote(value)|
    ensures Words(ShellSingleQuote(value) + tail) == [ShellSingleQuote(value)] + Words(tail)
    ensures !IsAssignment(ShellSingleQuote(value))
  {
    var q := ShellSingleQuote(value);
    ReplacedWord(value, tail);
    assert (q + tail)[1..] == Replaced(value) + "'" + tail;
    assert (q + tail)[..|q|] == q && (q + tail)[|q|..] == tail;
    assert q[0] == '\'' && !IsNameChar(q[0]);
  }

  const AGENT_ASSIGNMENT := "WAITAGENT_AGENT_NAME=kimi"

  lemma NameThenValue(name: string, value: string)
    requires name != "" && forall i :: 0 <= i < |name| ==> IsNameChar(name[i])
    ensures IsAssignment(name + "=" + value)
  {
    IndexOfFirst(name, '=', value);
  }

  lemma AgentIsAssignment()
    ensures IsAssignment(AGENT_ASSIGNMENT)
  {
    NameThenValue("WAITAGENT_AGENT_NAME", "kimi");
    assert AGENT_ASSIGNMENT == "WAITAGENT_AGENT_NAME" + "=" + "kimi";
  }

  lemma WordThenSpace(word: string, tail: string)
    requires word != "" && forall i :: 0 <= i < |word| ==> word[i] != ' ' && word[i] != '\'' && word[i] != '"'
    ensures Words(word + " " + tail) == [word] + Words(tail)
  {
    var s := word + (" " + tail);
    PlainWord(word, " " + tail);
    assert word + " " + tail == s && s[..|word|] == word && s[|word|..] == " " + tail;
    assert (" " + tail)[1..] == tail;
  }

  lemma {:induction false} PlainWord(word: string, tail: string)
    requires forall i :: 0 <= i < |word| ==> word[i] != ' ' && word[i] != '\'' && word[i] != '"'
    requires tail != "" && tail[0] == ' '
    ensures WordEnd(word + tail, Bare) == |word|
  {
    if word == "" {
      assert word + tail == tail;
    } else {
      PlainWord(word[1..], tail);
      assert (word + tail)[1..] == word[1..] + tail;
    }
  }

  lemma TwoWords(sender: string, event: string)
    ensures var s, e := ShellSingleQuote(sender), ShellSingleQuote(event); Words(s + " " + e) == [s, e]
  {
    var s, e := ShellSingleQuote(sender), ShellSingleQuote(event);
    QuotedWordEnds(event, "");
    assert e + "" == e && [e] + Words("") == [e];
    QuotedWordEnds(sender, " " + e);
    assert (" " + e)[1..] == e && s + (" " + e) == s + " " + e;
    assert [s] + [e] == [s, e];
  }

  lemma RunsWords(s: string, e: string, sender: string, event: string)
    requires WordValue(s, Bare) == Some(sender) && WordValue(e, Bare) == Some(event) && !IsAssignment(s)
    ensures CommandOf([s, e]) == Some(Command([], [sender, event]))
  {
    assert [s, e][1..] == [e] && [e][1..] == [];
    assert Arguments([]) == Some(Command([], [])) && [event] + [] == [event];
    assert Arguments([e]) == Some(Command([], [event]));
    assert [sender] + [event] == [sender, event];
  }

  lemma RunsWordsFor(s: string, e: string, sender: string, event: string)
    requires WordValue(s, Bare) == Some(sender) && WordValue(e, Bare) == Some(event) && !IsAssignment(s)
    ensures CommandOf([AGENT_ASSIGNMENT] + [s, e]) == Some(Command([AGENT_ASSIGNMENT], [sender, event]))
  {
    RunsWords(s, e, sender, event);
    AgentIsAssignment();
    assert ([AGENT_ASSIGNMENT] + [s, e])[1..] == [s, e] && [AGENT_ASSIGNMENT] + [] == [AGENT_ASSIGNMENT];
  }

  /** What a shell makes of a hook's command: it runs the sender with the event as its
      one argument, whatever characters they hold, and names the agent in the environment
      if and only if it is kimi. */
  predicate RunsSender(command: string, sender: string, event: string, agent: string) {
    CommandOf(Words(command)) ==
    Some(Command(if agent == "kimi" then ["WAITAGENT_AGENT_NAME=kimi"] else [], [sender, event]))
  }

  lemma CommandRunsSender(sender: string, event: string, agent: string)
    ensures RunsSender(HookCommand(sender, event, agent), sender, event, agent)
  {
    var s, e := ShellSingleQuote(sender), ShellSingleQuote(event);
    TwoWords(sender, event);
    QuotedWordIsTheValue(sender);
    QuotedWordIsTheValue(event);
    QuotedWordEnds(sender, "");
    if agent == "kimi" {
      CommandForAgent(s, e);
      WordThenSpace(AGENT_ASSIGNMENT, s + " " + e);
      RunsWordsFor(s, e, sender, event);
    } else {
      assert HookCommand(sender, event, agent) == s + " " + e;
      RunsWords(s, e, sender, event);
    }
  }

  lemma CommandForAgent(s: string, e: string)
    ensures "WAITAGENT_AGENT_NAME=kimi " + s + " " + e == AGENT_ASSIGNMENT + " " + (s + " " + e)
  {
    assert "WAITAGENT_AGENT_NAME=kimi " == AGENT_ASSIGNMENT + " ";
  }

  // ---------------------------------------------------------------------
  // A whole block

  lemma QuotedEntry(key: string, value: string)
    requires Tight(key) && '=' !in key
    ensures EntryOf(key + " = " + TomlQuoted(value)) == Some(Entry(key, value))
  {
    EntryOfSplit(key, TomlQuoted(value));
    QuotedEscape(value);
  }

  lemma EventEntry(event: string)
    ensures EntryOf("event = " + TomlQuoted(event)) == Some(Entry("event", event))
  {
    QuotedEntry("event", event);
    assert "event" + " = " == "event = ";
  }

  lemma CommandEntry(command: string)
    ensures EntryOf("command = " + TomlQuoted(command)) == Some(Entry("command", command))
  {
    QuotedEntry("command", command);
    assert "command" + " = " == "command = ";
  }

  lemma TimeoutEntry()
    ensures EntryOf("timeout = 5") == Some(Entry("timeout", "5"))
  {
    EntryOfSplit("timeout", "5");
    assert "timeout" + " = " + "5" == "timeout = 5";
  }

  lemma HookHeader()
    ensures IsHeader("[[hooks]]")
  {
    TrimTight("[[hooks]]");
  }

  /** A block of lines is a marked hook table whose entries read as this event, as a
      command that runs this sender for it, and as a timeout of five seconds. */
  predicate ReadsAsHook(block: seq<string>, sender: string, event: string, agent: string) {
    && |block| == 5 && IsHeader(block[0]) && Marked(block)
    && EntryOf(block[1]) == Some(Entry("event", event))
    && EntryOf(block[2]).Some? && EntryOf(block[2]).value.key == "command"
    && RunsSender(EntryOf(block[2]).value.value, sender, event, agent)
    && EntryOf(block[3]) == Some(Entry("timeout", "5"))
    && block[4] == "# waitagent-agent-signal:" + event
  }

  lemma TagNames(event: string)
    ensures TagLine(event) == "# waitagent-agent-signal:" + event
  {
    assert "# " + HOOK_TAG + ":" == "# waitagent-agent-signal:";
  }

  lemma LinesAreMarked(sender: string, event: string, agent: string)
    ensures Marked(BlockLines(sender, event, agent))
  {
    TagIsMarked(event);
    assert BlockLines(sender, event, agent)[4] == TagLine(event);
    MarkedByLine(BlockLines(sender, event, agent));
  }

  lemma BlockReadsBack(sender: string, event: string, agent: string)
    ensures ReadsAsHook(BlockLines(sender, event, agent), sender, event, agent)
  {
    var command := HookCommand(sender, event, agent);
    EventEntry(event);
    CommandEntry(command);
    CommandRunsSender(sender, event, agent);
    TimeoutEntry();
    HookHeader();
    LinesAreMarked(sender, event, agent);
    TagNames(event);
    FiveLines("[[hooks]]", "event = " + TomlQuoted(event), "command = " + TomlQuoted(command), "timeout = 5",
              TagLine(event), sender, event, agent);
  }

  lemma FiveLines(a: string, b: string, c: string, d: string, e: string, sender: string, event: string, agent: string)
    requires IsHeader(a) && Marked([a, b, c, d, e]) && EntryOf(b) == Some(Entry("event", event))
    requires EntryOf(c).Some? && EntryOf(c).value.key == "command" && RunsSender(EntryOf(c).value.value, sender, event, agent)
    requires EntryOf(d) == Some(Entry("timeout", "5")) && e == "# waitagent-agent-signal:" + event
    ensures ReadsAsHook([a, b, c, d, e], sender, event, agent)
  {
  }

  lemma {:induction false} BlocksInOrder(sender: string, events: seq<string>, agent: string, i: nat)
    requires i < |events|
    ensures var all := AllBlocks(sender, events, agent);
            && |all| == 6 * |events| && all[6 * i + 5] == ""
            && all[6 * i..6 * i + 5] == BlockLines(sender, events[i], agent)
    decreases |events|
  {
    var init, last := events[..|events| - 1], events[|events| - 1];
    var before, block := AllBlocks(sender, init, agent), BlockLines(sender, last, agent);
    BlocksCount(sender, init, agent);
    assert AllBlocks(sender, events, agent) == before + block + [""];
    if i == |events| - 1 {
      assert (before + block + [""])[6 * i..6 * i + 5] == block;
    } else {
      BlocksInOrder(sender, init, agent, i);
      assert (before + block + [""])[6 * i..6 * i + 5] == before[6 * i..6 * i + 5];
    }
  }

  lemma {:induction false} BlocksCount(sender: string, events: seq<string>, agent: string)
    ensures |AllBlocks(sender, events, agent)| == 6 * |events|
    decreases |events|
  {
    if events == [] {
    } else {
      BlocksCount(sender, events[..|events| - 1], agent);
    }
  }

  /** The reconciled file, for every text and every list of events: the lines that were
      kept, an empty one, and then for each event in turn a block that reads as its hook,
      followed by an empty line; nothing else. */
  lemma ReconciledHolds(content: string, sender: string, events: seq<string>, agent: string, i: nat)
    requires i < |events|
    ensures var kept := WithGap(KeptLines(content));
            exists blocks: seq<string> ::
              && Reconciled(content, sender, events, agent) == Text(kept + blocks)
              && |blocks| == 6 * |events| && blocks[6 * i + 5] == ""
              && ReadsAsHook(blocks[6 * i..6 * i + 5], sender, events[i], agent)
  {
    BlocksInOrder(sender, events, agent, i);
    BlockReadsBack(sender, events[i], agent);
  }
}
