/** Reconciling twice. The second run finds the blocks the first one wrote, and
    changes nothing else, exactly when no kept line ends with a carriage return. */
module HooksIdempotent {
  import opened Sequences
  import opened TomlText
  import opened Hooks

  // ---------------------------------------------------------------------
  // A block is marked when one of its lines is

  predicate MarkedLine(line: string) {
    Contains(line, HOOK_TAG) || Contains(line, SENDER_MARK)
  }

  /** An occurrence lies on one side of a line feed. */
  lemma OneSide(s: string, i: nat, needle: string, k: nat)
    requires At(s, i, needle) && '\n' !in needle && k < |s| && s[k] == '\n'
    ensures k < i || i + |needle| <= k
  {
    var here := s[i..i + |needle|];
    assert forall j :: i <= j < i + |needle| ==> s[j] == here[j - i];
  }

  lemma AtLeft(a: string, b: string, needle: string, i: nat)
    requires i + |needle| <= |a|
    ensures At(a + "\n" + b, i, needle) <==> At(a, i, needle)
  {
    assert (a + "\n" + b)[i..i + |needle|] == a[i..i + |needle|];
  }

  lemma AtRight(a: string, b: string, needle: string, i: nat)
    requires i + |needle| <= |b|
    ensures At(a + "\n" + b, |a| + 1 + i, needle) <==> At(b, i, needle)
  {
    var j := |a| + 1 + i;
    assert (a + "\n" + b)[j..j + |needle|] == b[i..i + |needle|];
  }

  lemma ContainsSplit(a: string, b: string, needle: string)
    requires needle != "" && '\n' !in needle
    ensures Contains(a + "\n" + b, needle) <==> Contains(a, needle) || Contains(b, needle)
  {
    var s := a + "\n" + b;
    if Contains(s, needle) {
      var i :| 0 <= i <= |s| && At(s, i, needle);
      OneSide(s, i, needle, |a|);
      if i + |needle| <= |a| {
        AtLeft(a, b, needle, i);
      } else {
        AtRight(a, b, needle, i - |a| - 1);
      }
    }
    if Contains(a, needle) {
      var i :| 0 <= i <= |a| && At(a, i, needle);
      AtLeft(a, b, needle, i);
    }
    if Contains(b, needle) {
      var i :| 0 <= i <= |b| && At(b, i, needle);
      AtRight(a, b, needle, i);
    }
  }

  predicate SomeContains(block: seq<string>, needle: string) {
    exists i :: 0 <= i < |block| && Contains(block[i], needle)
  }

  lemma {:induction false} ContainsJoin(block: seq<string>, needle: string)
    requires needle != "" && '\n' !in needle
    ensures Contains(Join(block), needle) <==> SomeContains(block, needle)
    decreases |block|
  {
    if block == [] {
      assert forall i :: 0 <= i <= |""| ==> !At("", i, needle);
    } else if |block| > 1 {
      var init, last := block[..|block| - 1], block[|block| - 1];
      ContainsJoin(init, needle);
      ContainsSplit(Join(init), last, needle);
      SomeSnoc(init, last, needle);
      assert block == init + [last];
    } else {
      assert Join(block) == block[0];
    }
  }

  lemma SomeSnoc(block: seq<string>, line: string, needle: string)
    ensures SomeContains(block + [line], needle) <==> SomeContains(block, needle) || Contains(line, needle)
  {
    var all := block + [line];
    if SomeContains(block, needle) {
      var i :| 0 <= i < |block| && Contains(block[i], needle);
      assert all[i] == block[i];
    }
    assert all[|block|] == line;
  }

  predicate SomeMarked(block: seq<string>) {
    exists i :: 0 <= i < |block| && MarkedLine(block[i])
  }

  lemma MarkedByLine(block: seq<string>)
    ensures Marked(block) <==> SomeMarked(block)
  {
    ContainsJoin(block, HOOK_TAG);
    ContainsJoin(block, SENDER_MARK);
  }

  // ---------------------------------------------------------------------
  // White space at the end of a line

  function Strip(line: string): string {
    if line != "" && line[|line| - 1] == '\r' then line[..|line| - 1] else line
  }

  function StripAll(lines: seq<string>): (r: seq<string>)
    ensures |r| == |lines| && forall i :: 0 <= i < |r| ==> r[i] == Strip(lines[i])
  {
    seq(|lines|, i requires 0 <= i < |lines| => Strip(lines[i]))
  }

  lemma StripConcat(a: seq<string>, b: seq<string>)
    ensures StripAll(a + b) == StripAll(a) + StripAll(b)
  {
  }

  lemma {:induction false} TrimStartSnoc(s: string, c: char)
    requires IsWhitespace(c)
    ensures TrimStart(s + [c]) == if TrimStart(s) == "" then "" else TrimStart(s) + [c]
    decreases |s|
  {
    if s == "" {
      assert (s + [c])[1..] == "";
    } else {
      assert (s + [c])[1..] == s[1..] + [c];
      if IsWhitespace(s[0]) {
        TrimStartSnoc(s[1..], c);
      }
    }
  }

  lemma TrimSnoc(s: string, c: char)
    requires IsWhitespace(c)
    ensures Trim(s + [c]) == Trim(s) && IsBracket(s + [c]) == IsBracket(s)
  {
    TrimStartSnoc(s, c);
    var t := TrimStart(s);
    assert (t + [c])[..|t|] == t;
  }

  lemma {:induction false} TrimStartHead(s: string)
    ensures TrimStart(s) != "" ==> !IsWhitespace(TrimStart(s)[0])
  {
    if s == "" || !IsWhitespace(s[0]) {
    } else {
      TrimStartHead(s[1..]);
    }
  }

  lemma {:induction false} TrimEndKeepsHead(s: string)
    requires s != "" && !IsWhitespace(s[0])
    ensures TrimEnd(s) != ""
    decreases |s|
  {
    if !IsWhitespace(s[|s| - 1]) {
    } else {
      TrimEndKeepsHead(s[..|s| - 1]);
    }
  }

  lemma BlankStartsNothing(line: string)
    requires IsBlank(line)
    ensures !IsBracket(line) && !IsHeader(line)
  {
    TrimStartHead(line);
    if TrimStart(line) != "" {
      TrimEndKeepsHead(TrimStart(line));
    }
  }

  lemma {:induction false} TrimStartTakesWhite(line: string)
    requires TrimStart(line) == ""
    ensures forall i :: 0 <= i < |line| ==> IsWhitespace(line[i])
  {
    if line == "" {
    } else {
      TrimStartTakesWhite(line[1..]);
    }
  }

  predicate Dark(needle: string) {
    needle != "" && !IsWhitespace(needle[0]) && !IsWhitespace(needle[|needle| - 1])
  }

  lemma BlankContainsNothing(line: string, needle: string)
    requires IsBlank(line) && Dark(needle)
    ensures !Contains(line, needle)
  {
    TrimStartHead(line);
    if TrimStart(line) != "" {
      TrimEndKeepsHead(TrimStart(line));
    } else {
      TrimStartTakesWhite(line);
      forall i | 0 <= i <= |line|
        ensures !At(line, i, needle)
      {
        assert i < |line| ==> IsWhitespace(line[i]);
      }
    }
  }

  lemma StripContains(line: string, needle: string)
    requires Dark(needle)
    ensures Contains(Strip(line), needle) <==> Contains(line, needle)
  {
    if line != "" && line[|line| - 1] == '\r' {
      var s := line[..|line| - 1];
      if Contains(line, needle) {
        var i :| 0 <= i <= |line| && At(line, i, needle);
        assert line[i + |needle| - 1] == line[i..i + |needle|][|needle| - 1];
        assert i + |needle| < |line|;
        assert line[i..i + |needle|] == s[i..i + |needle|];
        assert At(s, i, needle);
      }
      if Contains(s, needle) {
        var i :| 0 <= i <= |s| && At(s, i, needle);
        assert s[i..i + |needle|] == line[i..i + |needle|];
        assert At(line, i, needle);
      }
    }
  }

  /** Stripping a line changes nothing the reconciler looks at. */
  lemma StripChangesNothing(line: string)
    ensures IsHeader(Strip(line)) == IsHeader(line) && IsBracket(Strip(line)) == IsBracket(line)
    ensures IsBlank(Strip(line)) == IsBlank(line) && MarkedLine(Strip(line)) == MarkedLine(line)
  {
    if line != "" && line[|line| - 1] == '\r' {
      TrimSnoc(Strip(line), '\r');
      assert Strip(line) + ['\r'] == line;
    }
    StripContains(line, HOOK_TAG);
    StripContains(line, SENDER_MARK);
  }

  // ---------------------------------------------------------------------
  // Blocks

  predicate StartsTable(lines: seq<string>) {
    lines == [] || IsBracket(lines[0])
  }

  predicate NoTable(lines: seq<string>) {
    forall i :: 0 <= i < |lines| ==> !IsBracket(lines[i])
  }

  lemma {:induction false} RunFacts(lines: seq<string>)
    ensures NoTable(lines[..Run(lines)]) && StartsTable(lines[Run(lines)..])
  {
    if lines == [] || IsBracket(lines[0]) {
    } else {
      RunFacts(lines[1..]);
      var n := Run(lines[1..]);
      assert lines[..1 + n] == [lines[0]] + lines[1..][..n];
      assert lines[1 + n..] == lines[1..][n..];
    }
  }

  lemma {:induction false} RunIs(body: seq<string>, rest: seq<string>)
    requires NoTable(body) && StartsTable(rest)
    ensures Run(body + rest) == |body|
    decreases |body|
  {
    if body == [] {
      assert body + rest == rest;
    } else {
      RunIs(body[1..], rest);
      assert (body + rest)[1..] == body[1..] + rest;
    }
  }

  /** One block at the front. */
  lemma KeptBlock(block: seq<string>, rest: seq<string>)
    requires block != [] && IsHeader(block[0]) && NoTable(block[1..]) && StartsTable(rest)
    ensures Kept(block + rest) == Flushed(block) + Kept(rest)
  {
    RunIs(block[1..], rest);
    assert (block + rest)[1..] == block[1..] + rest;
    assert (block + rest)[..|block|] == block && (block + rest)[|block|..] == rest;
  }

  /** The first block of a text that starts with a header. */
  lemma FirstBlock(lines: seq<string>) returns (block: seq<string>, rest: seq<string>)
    requires lines != [] && IsHeader(lines[0])
    ensures lines == block + rest && block != [] && block[0] == lines[0]
    ensures NoTable(block[1..]) && StartsTable(rest) && Kept(lines) == Flushed(block) + Kept(rest)
  {
    var n := 1 + Run(lines[1..]);
    block, rest := lines[..n], lines[n..];
    RunFacts(lines[1..]);
    assert block[1..] == lines[1..][..n - 1] && rest == lines[1..][n - 1..];
    assert lines == block + rest;
  }

  lemma {:induction false} KeptStartsTable(lines: seq<string>)
    requires StartsTable(lines)
    ensures StartsTable(Kept(lines))
    decreases |lines|
  {
    if lines == [] || !IsHeader(lines[0]) {
    } else {
      var block, rest := FirstBlock(lines);
      KeptStartsTable(rest);
    }
  }

  /** What is kept once is kept again. */
  lemma {:induction false} KeptTwice(lines: seq<string>)
    ensures Kept(Kept(lines)) == Kept(lines)
    decreases |lines|
  {
    if lines == [] {
    } else {
      if IsHeader(lines[0]) {
        var block, rest := FirstBlock(lines);
        KeptTwice(rest);
        KeptStartsTable(rest);
        if Flushed(block) != [] {
          KeptBlock(block, Kept(rest));
        } else {
          assert Kept(lines) == Kept(rest);
        }
      } else {
        KeptTwice(lines[1..]);
        assert ([lines[0]] + Kept(lines[1..]))[1..] == Kept(lines[1..]);
      }
    }
  }

  lemma KeptBlockConcat(block: seq<string>, rest: seq<string>, b: seq<string>)
    requires block != [] && IsHeader(block[0]) && NoTable(block[1..]) && StartsTable(rest) && StartsTable(b)
    requires Kept(rest + b) == Kept(rest) + Kept(b)
    ensures Kept(block + rest + b) == Flushed(block) + Kept(rest) + Kept(b)
  {
    Assoc(block, rest, b);
    Assoc(Flushed(block), Kept(rest), Kept(b));
    assert StartsTable(rest + b) by {
      if rest == [] {
        assert rest + b == b;
      }
    }
    KeptBlock(block, rest + b);
  }

  lemma KeptLineConcat(a: seq<string>, b: seq<string>)
    requires a != [] && !IsHeader(a[0]) && Kept(a[1..] + b) == Kept(a[1..]) + Kept(b)
    ensures Kept(a + b) == Kept(a) + Kept(b)
  {
    TailOfConcat(a, b);
    Assoc([a[0]], Kept(a[1..]), Kept(b));
  }

  lemma {:induction false} KeptConcat(a: seq<string>, b: seq<string>)
    requires StartsTable(b)
    ensures Kept(a + b) == Kept(a) + Kept(b)
    decreases |a|
  {
    if a == [] {
      assert a + b == b;
    } else if IsHeader(a[0]) {
      var block, rest := FirstBlock(a);
      KeptConcat(rest, b);
      KeptBlockConcat(block, rest, b);
    } else {
      KeptConcat(a[1..], b);
      KeptLineConcat(a, b);
    }
  }

  predicate Closed(lines: seq<string>) {
    Kept(lines) == lines
  }

  lemma ClosedParts(block: seq<string>, rest: seq<string>)
    requires block != [] && IsHeader(block[0]) && NoTable(block[1..]) && StartsTable(rest)
    ensures Closed(block + rest) <==> !Marked(block) && Closed(rest)
  {
    KeptBlock(block, rest);
    KeptShrinks(rest);
    if Closed(block + rest) {
      assert |Kept(block + rest)| == |block| + |rest|;
      assert (block + rest)[|block|..] == rest;
    }
  }

  lemma {:induction false} KeptShrinks(lines: seq<string>)
    ensures |Kept(lines)| <= |lines|
    ensures forall line :: line in Kept(lines) ==> line in lines
    decreases |lines|
  {
    if lines == [] {
    } else {
      if IsHeader(lines[0]) {
        var block, rest := FirstBlock(lines);
        KeptShrinks(rest);
      } else {
        KeptShrinks(lines[1..]);
      }
    }
  }

  lemma MarkedSnoc(block: seq<string>, line: string)
    requires IsBlank(line)
    ensures Marked(block + [line]) == Marked(block)
  {
    BlankContainsNothing(line, HOOK_TAG);
    BlankContainsNothing(line, SENDER_MARK);
    MarkedByLine(block);
    MarkedByLine(block + [line]);
    var all := block + [line];
    assert all[..|block|] == block && all[|block|] == line;
    if SomeMarked(block) {
      var i :| 0 <= i < |block| && MarkedLine(block[i]);
      assert MarkedLine(all[i]);
    }
    if SomeMarked(all) {
      var i :| 0 <= i < |all| && MarkedLine(all[i]);
      assert MarkedLine(block[i]);
    }
  }

  lemma ClosedSnocBlock(block: seq<string>, rest: seq<string>, line: string)
    requires block != [] && IsHeader(block[0]) && NoTable(block[1..]) && StartsTable(rest)
    requires IsBlank(line) && !IsBracket(line)
    requires rest != [] ==> (Closed(rest + [line]) <==> Closed(rest))
    ensures Closed(block + rest + [line]) <==> Closed(block + rest)
  {
    ClosedParts(block, rest);
    if rest == [] {
      var longer := block + [line];
      MarkedSnoc(block, line);
      assert longer[1..] == block[1..] + [line];
      ClosedParts(longer, []);
      assert block + rest + [line] == longer + [];
    } else {
      Assoc(block, rest, [line]);
      ClosedParts(block, rest + [line]);
    }
  }

  /** A blank line at the end goes with whatever is there. */
  lemma {:induction false} ClosedSnoc(lines: seq<string>, line: string)
    requires IsBlank(line)
    ensures Closed(lines + [line]) <==> Closed(lines)
    decreases |lines|
  {
    BlankStartsNothing(line);
    var all := lines + [line];
    if lines == [] {
      assert all[1..] == [];
    } else if IsHeader(lines[0]) {
      var block, rest := FirstBlock(lines);
      if rest != [] {
        ClosedSnoc(rest, line);
      }
      ClosedSnocBlock(block, rest, line);
    } else {
      ClosedSnoc(lines[1..], line);
      assert all[1..] == lines[1..] + [line];
      assert all == [lines[0]] + all[1..] && lines == [lines[0]] + lines[1..];
    }
  }

  lemma {:induction false} ClosedDrop(lines: seq<string>)
    requires Closed(lines)
    ensures Closed(DropTrailingBlank(lines))
    decreases |lines|
  {
    if lines == [] || !IsBlank(lines[|lines| - 1]) {
    } else {
      assert lines == lines[..|lines| - 1] + [lines[|lines| - 1]];
      ClosedSnoc(lines[..|lines| - 1], lines[|lines| - 1]);
      ClosedDrop(lines[..|lines| - 1]);
    }
  }

  lemma MarkedStrip(block: seq<string>)
    ensures Marked(StripAll(block)) == Marked(block)
  {
    MarkedByLine(block);
    MarkedByLine(StripAll(block));
    forall i | 0 <= i < |block|
      ensures MarkedLine(StripAll(block)[i]) == MarkedLine(block[i])
    {
      StripChangesNothing(block[i]);
    }
  }

  lemma StripBlock(block: seq<string>)
    requires block != [] && IsHeader(block[0]) && NoTable(block[1..])
    ensures IsHeader(StripAll(block)[0]) && NoTable(StripAll(block)[1..])
  {
    StripChangesNothing(block[0]);
    forall i | 0 <= i < |block| - 1
      ensures !IsBracket(StripAll(block)[1..][i])
    {
      StripChangesNothing(block[1..][i]);
    }
  }

  lemma {:induction false} ClosedStrip(lines: seq<string>)
    requires Closed(lines)
    ensures Closed(StripAll(lines))
    decreases |lines|
  {
    if lines == [] {
    } else {
      StripChangesNothing(lines[0]);
      if IsHeader(lines[0]) {
        var block, rest := FirstBlock(lines);
        ClosedParts(block, rest);
        ClosedStrip(rest);
        MarkedStrip(block);
        StripBlock(block);
        if rest != [] {
          StripChangesNothing(rest[0]);
        }
        StripConcat(block, rest);
        ClosedParts(StripAll(block), StripAll(rest));
      } else {
        assert lines == [lines[0]] + lines[1..];
        assert Kept(lines)[1..] == Kept(lines[1..]);
        ClosedStrip(lines[1..]);
        assert StripAll(lines)[1..] == StripAll(lines[1..]);
      }
    }
  }

  // ---------------------------------------------------------------------
  // Reading a printed text

  lemma LinesStepAny(line: string, rest: string)
    requires '\n' !in line
    ensures Lines(line + "\n" + rest) == [Strip(line)] + Lines(rest)
  {
    var text := line + "\n" + rest;
    IndexOfFirst(line, '\n', rest);
    assert text[..|line|] == line && text[|line| + 1..] == rest;
    if line != "" {
      assert text[|line| - 1] == line[|line| - 1];
      assert text[..|line| - 1] == line[..|line| - 1];
    }
  }

  predicate NoFeeds(lines: seq<string>) {
    forall i :: 0 <= i < |lines| ==> '\n' !in lines[i]
  }

  lemma {:induction false} LinesOfText(lines: seq<string>, rest: string)
    requires NoFeeds(lines)
    ensures Lines(Text(lines) + rest) == StripAll(lines) + Lines(rest)
    decreases |lines|
  {
    if lines == [] {
      assert "" + rest == rest;
    } else {
      var init, last := lines[..|lines| - 1], lines[|lines| - 1];
      LinesOfText(init, last + "\n" + rest);
      LinesStepAny(last, rest);
      AssocFour(Text(init), last, "\n", rest);
      assert lines == init + [last];
      StripConcat(init, [last]);
      assert StripAll([last]) == [Strip(last)];
      Assoc(StripAll(init), [Strip(last)], Lines(rest));
    }
  }

  lemma {:induction false} LinesHaveNoFeeds(text: string)
    ensures NoFeeds(Lines(text))
    ensures '\r' !in text ==> forall i :: 0 <= i < |Lines(text)| ==> '\r' !in Lines(text)[i]
    decreases |text|
  {
    if text == "" {
    } else {
      var i := IndexOf(text, '\n');
      if i < |text| {
        LinesHaveNoFeeds(text[i + 1..]);
      } else {
        assert text[..i] == text;
      }
    }
  }

  // ---------------------------------------------------------------------
  // The fresh blocks

  predicate Plain(event: string) {
    '\n' !in event && '\r' !in event
  }

  predicate AllPlain(events: seq<string>) {
    forall i :: 0 <= i < |events| ==> Plain(events[i])
  }

  function Block(sender: string, event: string, agent: string): seq<string> {
    BlockLines(sender, event, agent) + [""]
  }

  lemma QuotedIsPlain(value: string)
    ensures Plain(TomlQuoted(value))
  {
    EscapeIsOneLine(value);
  }

  lemma BlockIsPlain(sender: string, event: string, agent: string)
    requires Plain(event)
    ensures AllPlain(Block(sender, event, agent))
  {
    QuotedIsPlain(event);
    QuotedIsPlain(HookCommand(sender, event, agent));
  }

  lemma NotBracket(line: string, c: char)
    requires line != "" && line[0] == c && c != '[' && !IsWhitespace(c)
    ensures !IsBracket(line)
  {
  }

  lemma BlockShape(sender: string, event: string, agent: string)
    ensures var b := Block(sender, event, agent); IsHeader(b[0]) && NoTable(b[1..])
  {
    var b := Block(sender, event, agent);
    TrimTight("[[hooks]]");
    NotBracket(b[1], 'e');
    NotBracket(b[2], 'c');
    NotBracket(b[3], 't');
    NotBracket(b[4], '#');
    assert b[1..] == [b[1], b[2], b[3], b[4], b[5]];
    assert b[5] == "" && TrimStart("") == "";
  }

  lemma BlockIsMarked(sender: string, event: string, agent: string)
    ensures Marked(Block(sender, event, agent))
  {
    var b := Block(sender, event, agent);
    TagIsMarked(event);
    assert b[4] == TagLine(event);
    MarkedByLine(b);
  }

  lemma TagIsMarked(event: string)
    ensures MarkedLine(TagLine(event))
  {
    var line := TagLine(event);
    assert line[2..2 + |HOOK_TAG|] == HOOK_TAG;
    assert At(line, 2, HOOK_TAG);
  }

  lemma {:induction false} BlocksAreDropped(sender: string, events: seq<string>, agent: string)
    ensures Kept(AllBlocks(sender, events, agent)) == [] && StartsTable(AllBlocks(sender, events, agent))
    decreases |events|
  {
    if events == [] {
    } else {
      var init, last := events[..|events| - 1], events[|events| - 1];
      var blocks, block := AllBlocks(sender, init, agent), Block(sender, last, agent);
      BlocksAreDropped(sender, init, agent);
      BlockIsDropped(sender, last, agent);
      KeptConcat(blocks, block);
      Assoc(blocks, BlockLines(sender, last, agent), [""]);
    }
  }

  lemma BlockIsDropped(sender: string, event: string, agent: string)
    ensures Kept(Block(sender, event, agent)) == [] && StartsTable(Block(sender, event, agent))
  {
    var block := Block(sender, event, agent);
    BlockShape(sender, event, agent);
    BlockIsMarked(sender, event, agent);
    HeaderIsBracket(block[0]);
    KeptBlock(block, []);
    assert block + [] == block;
  }

  lemma {:induction false} BlocksArePlain(sender: string, events: seq<string>, agent: string)
    requires AllPlain(events)
    ensures AllPlain(AllBlocks(sender, events, agent))
    decreases |events|
  {
    if events == [] {
    } else {
      BlocksArePlain(sender, events[..|events| - 1], agent);
      BlockIsPlain(sender, events[|events| - 1], agent);
      assert AllBlocks(sender, events, agent)
          == AllBlocks(sender, events[..|events| - 1], agent) + Block(sender, events[|events| - 1], agent);
    }
  }

  lemma PlainIsUnstripped(lines: seq<string>)
    requires AllPlain(lines)
    ensures StripAll(lines) == lines
  {
    forall i | 0 <= i < |lines|
      ensures Strip(lines[i]) == lines[i]
    {
      assert Plain(lines[i]);
    }
  }

  // ---------------------------------------------------------------------
  // The second run

  lemma KeptLinesAreSound(content: string)
    ensures NoFeeds(KeptLines(content)) && Closed(KeptLines(content)) && Closed(WithGap(KeptLines(content)))
    ensures '\r' !in content ==> AllPlain(KeptLines(content))
  {
    var all := Lines(content);
    LinesHaveNoFeeds(content);
    KeptShrinks(all);
    var kept := KeptLines(content);
    assert forall i :: 0 <= i < |kept| ==> kept[i] in Kept(all) && kept[i] in all;
    KeptTwice(all);
    ClosedDrop(Kept(all));
    ClosedSnoc(kept, "");
  }

  /** The lines of the first run's output. */
  lemma OutputLines(content: string, sender: string, events: seq<string>, agent: string)
    requires AllPlain(events)
    ensures Lines(Reconciled(content, sender, events, agent))
         == StripAll(WithGap(KeptLines(content))) + AllBlocks(sender, events, agent)
  {
    var head, blocks := WithGap(KeptLines(content)), AllBlocks(sender, events, agent);
    KeptLinesAreSound(content);
    BlocksArePlain(sender, events, agent);
    PlainIsUnstripped(blocks);
    JoinNoFeeds(head, blocks);
    LinesOfText(head + blocks, "");
    assert Text(head + blocks) + "" == Text(head + blocks);
    StripConcat(head, blocks);
  }

  lemma JoinNoFeeds(a: seq<string>, b: seq<string>)
    requires NoFeeds(a) && AllPlain(b)
    ensures NoFeeds(a + b)
  {
    forall i | 0 <= i < |a + b|
      ensures '\n' !in (a + b)[i]
    {
      assert i >= |a| ==> Plain(b[i - |a|]);
    }
  }

  lemma DropGap(kept: seq<string>)
    requires kept != [] ==> !IsBlank(kept[|kept| - 1])
    ensures DropTrailingBlank(StripAll(WithGap(kept))) == StripAll(kept)
  {
    if kept != [] {
      var all := StripAll(WithGap(kept));
      StripChangesNothing(kept[|kept| - 1]);
      assert all[|all| - 1] == "" && IsBlank("");
      assert all[..|all| - 1] == StripAll(kept);
    }
  }

  /** The second run keeps the lines the first one kept, each without one trailing
      carriage return. */
  lemma SecondRunKeeps(content: string, sender: string, events: seq<string>, agent: string)
    requires AllPlain(events)
    ensures KeptLines(Reconciled(content, sender, events, agent)) == StripAll(KeptLines(content))
  {
    var head := StripAll(WithGap(KeptLines(content)));
    OutputLines(content, sender, events, agent);
    KeptLinesAreSound(content);
    ClosedStrip(WithGap(KeptLines(content)));
    BlocksAreDropped(sender, events, agent);
    KeptConcat(head, AllBlocks(sender, events, agent));
    assert head + [] == head;
    DropGap(KeptLines(content));
  }

  lemma StripSnoc(init: seq<string>, last: string)
    ensures StripAll(init + [last]) == StripAll(init) + [Strip(last)]
  {
  }

  lemma {:induction false} TextLength(lines: seq<string>)
    ensures |Text(StripAll(lines))| <= |Text(lines)|
    ensures |Text(StripAll(lines))| == |Text(lines)| ==> StripAll(lines) == lines
    decreases |lines|
  {
    if lines == [] {
    } else {
      var init, last := lines[..|lines| - 1], lines[|lines| - 1];
      assert lines == init + [last];
      TextLength(init);
      StripSnoc(init, last);
      TextSnoc(init, last);
      TextSnoc(StripAll(init), Strip(last));
    }
  }

  predicate EndsWithReturn(line: string) {
    line != "" && line[|line| - 1] == '\r'
  }

  /** For every text and every list of one-line events: reconciling again changes
      nothing exactly when no kept line ends with a carriage return. */
  lemma IdempotentExactly(content: string, sender: string, events: seq<string>, agent: string)
    requires AllPlain(events)
    ensures var once := Reconciled(content, sender, events, agent);
            Reconciled(once, sender, events, agent) == once <==>
            forall i :: 0 <= i < |KeptLines(content)| ==> !EndsWithReturn(KeptLines(content)[i])
  {
    var kept, blocks := KeptLines(content), AllBlocks(sender, events, agent);
    var once := Reconciled(content, sender, events, agent);
    SecondRunKeeps(content, sender, events, agent);
    TextJoin(WithGap(kept), blocks);
    TextJoin(WithGap(StripAll(kept)), blocks);
    GapLength(kept);
    if StripAll(kept) == kept {
      forall i | 0 <= i < |kept|
        ensures !EndsWithReturn(kept[i])
      {
        assert StripAll(kept)[i] == kept[i];
      }
    } else {
      var i :| 0 <= i < |kept| && StripAll(kept)[i] != kept[i];
      assert EndsWithReturn(kept[i]);
    }
  }

  lemma GapLength(kept: seq<string>)
    ensures StripAll(kept) != kept ==> |Text(WithGap(StripAll(kept)))| < |Text(WithGap(kept))|
  {
    TextLength(kept);
    TextSnoc(kept, "");
    TextSnoc(StripAll(kept), "");
  }

  /** In particular on every text without carriage returns. */
  lemma IdempotentWithoutReturns(content: string, sender: string, events: seq<string>, agent: string)
    requires AllPlain(events) && '\r' !in content
    ensures var once := Reconciled(content, sender, events, agent);
            Reconciled(once, sender, events, agent) == once
  {
    KeptLinesAreSound(content);
    assert forall i :: 0 <= i < |KeptLines(content)| ==> Plain(KeptLines(content)[i]);
    IdempotentExactly(content, sender, events, agent);
  }

  /** One line that ends in two carriage returns loses one at each run. */
  lemma ReturnsAreLostOneAtATime(sender: string, events: seq<string>, agent: string)
    requires AllPlain(events)
    ensures var once := Reconciled("a\r\r\n", sender, events, agent);
            Reconciled(once, sender, events, agent) != once
  {
    var line := "a\r\r";
    LinesStepAny(line, "");
    assert line + "\n" + "" == "a\r\r\n" && Strip(line) == "a\r";
    assert Lines("a\r\r\n") == ["a\r"];
    TrimSnoc("a", '\r');
    TrimTight("a");
    assert "a" + ['\r'] == "a\r";
    assert ["a\r"][1..] == [];
    assert Kept(["a\r"]) == ["a\r"];
    assert KeptLines("a\r\r\n") == ["a\r"];
    assert EndsWithReturn(KeptLines("a\r\r\n")[0]);
    IdempotentExactly("a\r\r\n", sender, events, agent);
  }
}
