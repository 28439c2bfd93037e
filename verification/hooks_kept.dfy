/** Which lines a reconciliation keeps, line by line: all but those of marked hook
    blocks. */
module HooksKept {
  import opened Hooks
  import opened Sequences

  /** Lines `h` to `e` are one hook block, and line `i` belongs to it: it starts with a
      header and reaches to the next table or the end. */
  predicate InBlock(lines: seq<string>, h: nat, e: nat, i: nat) {
    && h <= i < e <= |lines| && IsHeader(lines[h])
    && (forall j :: h < j < e ==> !IsBracket(lines[j]))
    && (e < |lines| ==> IsBracket(lines[e]))
  }

  /** Line `i` belongs to a block that mentions WaitAgent's tag or its sender. */
  ghost predicate Ours(lines: seq<string>, i: nat) {
    exists h: nat, e: nat ::
      InBlock(lines, h, e, i) &&
      (Contains(Join(lines[h..e]), "waitagent-agent-signal") || Contains(Join(lines[h..e]), "agent-signal-send"))
  }

  /** The lines from `k` on that are not ours, in order. */
  ghost function Others(lines: seq<string>, k: nat): seq<string>
    requires k <= |lines|
    decreases |lines| - k
  {
    if k == |lines| then [] else (if Ours(lines, k) then [] else [lines[k]]) + Others(lines, k + 1)
  }

  /** No block reaches from before `k` to `k`. */
  ghost predicate Boundary(lines: seq<string>, k: nat) {
    k < |lines| ==> forall h :: 0 <= h < k && IsHeader(lines[h]) ==> exists j :: h < j <= k && IsBracket(lines[j])
  }

  lemma {:induction false} RunStops(lines: seq<string>)
    ensures forall i :: 0 <= i < Run(lines) ==> !IsBracket(lines[i])
    ensures Run(lines) < |lines| ==> IsBracket(lines[Run(lines)])
  {
    if lines == [] || IsBracket(lines[0]) {
    } else {
      RunStops(lines[1..]);
    }
  }

  lemma BlockHere(lines: seq<string>, k: nat, e: nat)
    requires k < |lines| && IsHeader(lines[k]) && e == k + 1 + Run(lines[k + 1..])
    ensures e <= |lines| && InBlock(lines, k, e, k) && Boundary(lines, e)
  {
    var rest := lines[k + 1..];
    RunStops(rest);
    assert forall j :: k < j < e ==> lines[j] == rest[j - k - 1];
    if e < |lines| {
      assert lines[e] == rest[Run(rest)];
    }
  }

  lemma OnlyBlock(lines: seq<string>, k: nat, e: nat, h: nat, f: nat, i: nat)
    requires Boundary(lines, k) && k <= i < e && InBlock(lines, k, e, k) && InBlock(lines, h, f, i)
    ensures h == k && f == e
  {
    if h > k {
      HeaderIsBracket(lines[h]);
    }
  }

  lemma OursInBlock(lines: seq<string>, k: nat, e: nat, i: nat)
    requires Boundary(lines, k) && k <= i < e && InBlock(lines, k, e, k)
    ensures Ours(lines, i) <==> Marked(lines[k..e])
  {
    if Ours(lines, i) {
      var h: nat, f: nat :| InBlock(lines, h, f, i) &&
        (Contains(Join(lines[h..f]), "waitagent-agent-signal") || Contains(Join(lines[h..f]), "agent-signal-send"));
      OnlyBlock(lines, k, e, h, f, i);
    }
    if Marked(lines[k..e]) {
      assert InBlock(lines, k, e, i);
    }
  }

  lemma {:induction false} OthersOfRun(lines: seq<string>, i: nat, e: nat, ours: bool)
    requires i <= e <= |lines| && forall j :: i <= j < e ==> Ours(lines, j) == ours
    ensures Others(lines, i) == (if ours then [] else lines[i..e]) + Others(lines, e)
    decreases e - i
  {
    if i == e {
    } else {
      OthersOfRun(lines, i + 1, e, ours);
      assert lines[i..e] == [lines[i]] + lines[i + 1..e];
      Assoc([lines[i]], lines[i + 1..e], Others(lines, e));
    }
  }

  lemma OthersOfBlock(lines: seq<string>, k: nat, e: nat)
    requires Boundary(lines, k) && InBlock(lines, k, e, k)
    ensures Others(lines, k) == Flushed(lines[k..e]) + Others(lines, e)
  {
    forall i | k <= i < e
      ensures Ours(lines, i) == Marked(lines[k..e])
    {
      OursInBlock(lines, k, e, i);
    }
    OthersOfRun(lines, k, e, Marked(lines[k..e]));
  }

  lemma PlainIsNotOurs(lines: seq<string>, k: nat)
    requires k < |lines| && Boundary(lines, k) && !IsHeader(lines[k])
    ensures !Ours(lines, k) && Boundary(lines, k + 1)
  {
    forall h: nat, e: nat
      ensures !InBlock(lines, h, e, k)
    {
      if h < k && k < |lines| && IsHeader(lines[h]) {
        var j :| h < j <= k && IsBracket(lines[j]);
      }
    }
    if k + 1 < |lines| {
      forall h | 0 <= h < k + 1 && IsHeader(lines[h])
        ensures exists j :: h < j <= k + 1 && IsBracket(lines[j])
      {
        var j :| h < j <= k && IsBracket(lines[j]);
      }
    }
  }

  lemma BlockContinued(lines: seq<string>, k: nat, e: nat)
    requires k < |lines| && e == k + 1 + Run(lines[k + 1..]) <= |lines|
    ensures Continued([lines[k]], true, lines[k + 1..]) == Flushed(lines[k..e]) + Kept(lines[e..])
  {
    var after := lines[k + 1..];
    assert [lines[k]] + after[..Run(after)] == lines[k..e];
    assert after[Run(after)..] == lines[e..];
  }

  lemma {:induction false} KeptFrom(lines: seq<string>, k: nat)
    requires k <= |lines| && Boundary(lines, k)
    ensures Kept(lines[k..]) == Others(lines, k)
    decreases |lines| - k
  {
    if k == |lines| {
    } else if IsHeader(lines[k]) {
      var e := k + 1 + Run(lines[k + 1..]);
      BlockHere(lines, k, e);
      OthersOfBlock(lines, k, e);
      KeptFrom(lines, e);
      HeaderIsBracket(lines[k]);
      OpenBlock([], lines[k..]);
      assert lines[k..][1..] == lines[k + 1..];
      BlockContinued(lines, k, e);
    } else {
      PlainIsNotOurs(lines, k);
      KeptFrom(lines, k + 1);
      assert lines[k..][1..] == lines[k + 1..];
    }
  }

  /** For every text: exactly the lines that belong to no block of ours are kept, in
      order. */
  lemma KeptAreOthers(lines: seq<string>)
    ensures Kept(lines) == Others(lines, 0)
  {
    KeptFrom(lines, 0);
    assert lines[0..] == lines;
  }
}
