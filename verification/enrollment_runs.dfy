/** Any run of mints, sessions and removals of one relay process. */
module EnrollmentRuns {
  import opened Enrollment

  datatype Event =
    | Mint(t: Token)
    | Session(first: First, peer: string, now: nat, writes: bool)
    | Remove(node: string)

  datatype World = World(tokens: Store, whitelist: set<string>)

  const EMPTY := World(map[], {})

  predicate Accepts(hash: string -> string, tokens: Store, e: Event) {
    e.Session? && e.first.Enroll? && RedeemResult(hash, tokens, e.first.token, e.now).EnrollOk?
  }

  predicate AcceptsOneTime(hash: string -> string, tokens: Store, e: Event) {
    Accepts(hash, tokens, e) && RedeemResult(hash, tokens, e.first.token, e.now).oneTime
  }

  function Apply(hash: string -> string, w: World, e: Event): World {
    match e
    case Mint(t) => w.(tokens := Minted(hash, w.tokens, t))
    case Session(first, peer, now, writes) =>
      World(if first.Enroll? then Redeemed(hash, w.tokens, first.token, now) else w.tokens,
            if Answer(hash, w.tokens, first, "", now, writes).EnrollResponse? then w.whitelist + {peer} else w.whitelist)
    case Remove(node) => w.(whitelist := w.whitelist - {node})
  }

  function Run(hash: string -> string, events: seq<Event>): World
    decreases |events|
  {
    if events == [] then EMPTY else Apply(hash, Run(hash, events[..|events| - 1]), events[|events| - 1])
  }

  // ---------------------------------------------------------------------
  // Enrollments never outnumber mints

  function OneTimeMints(events: seq<Event>): nat
    decreases |events|
  {
    if events == [] then 0
    else
      var e := events[|events| - 1];
      OneTimeMints(events[..|events| - 1]) + if e.Mint? && e.t.oneTime then 1 else 0
  }

  /** Sessions a one-time token let through. */
  function OneTimeEnrollments(hash: string -> string, events: seq<Event>): nat
    decreases |events|
  {
    if events == [] then 0
    else
      var before := events[..|events| - 1];
      OneTimeEnrollments(hash, before) +
      if AcceptsOneTime(hash, Run(hash, before).tokens, events[|events| - 1]) then 1 else 0
  }

  function OneTimeLeft(tokens: Store): set<string> {
    set k | k in tokens && tokens[k].oneTime
  }

  /** Every run: accepted one-time sessions and unused one-time tokens together stay
      within the one-time tokens minted. */
  lemma {:induction false} OneTimeConserved(hash: string -> string, events: seq<Event>)
    ensures OneTimeEnrollments(hash, events) + |OneTimeLeft(Run(hash, events).tokens)| <= OneTimeMints(events)
    decreases |events|
  {
    if events == [] {
      assert OneTimeLeft(EMPTY.tokens) == {};
    } else {
      var before, e := events[..|events| - 1], events[|events| - 1];
      OneTimeConserved(hash, before);
      OneTimeStep(hash, Run(hash, before), e);
    }
  }

  lemma OneTimeStep(hash: string -> string, w: World, e: Event)
    ensures |OneTimeLeft(Apply(hash, w, e).tokens)| + (if AcceptsOneTime(hash, w.tokens, e) then 1 else 0)
         <= |OneTimeLeft(w.tokens)| + if e.Mint? && e.t.oneTime then 1 else 0
  {
    match e
    case Mint(t) => MintStep(hash, w.tokens, t);
    case Session(first, _, now, _) =>
      if first.Enroll? {
        RedeemStep(hash, w.tokens, first.token, now);
      }
    case Remove(_) =>
  }

  lemma MintStep(hash: string -> string, tokens: Store, t: Token)
    ensures |OneTimeLeft(Minted(hash, tokens, t))| <= |OneTimeLeft(tokens)| + if t.oneTime then 1 else 0
  {
    var k := hash(t.text);
    assert OneTimeLeft(Minted(hash, tokens, t)) ==
      if t.oneTime then OneTimeLeft(tokens) + {k} else OneTimeLeft(tokens) - {k};
  }

  lemma RedeemStep(hash: string -> string, tokens: Store, text: string, now: nat)
    ensures var result := RedeemResult(hash, tokens, text, now);
            |OneTimeLeft(Redeemed(hash, tokens, text, now))| + (if result.EnrollOk? && result.oneTime then 1 else 0)
            <= |OneTimeLeft(tokens)|
  {
    if Redeemed(hash, tokens, text, now) != tokens {
      assert OneTimeLeft(Redeemed(hash, tokens, text, now)) == OneTimeLeft(tokens) - {hash(text)};
    }
  }

  // ---------------------------------------------------------------------
  // Exactly which attempts succeed

  predicate Attempts(e: Event, text: string) {
    e.Session? && e.first == Enroll(text)
  }

  /** The token as it stands after an attempt at `now`. */
  predicate Survives(t: Token, now: nat) {
    !t.oneTime && now < t.expiresAt
  }

  predicate NotReminted(events: seq<Event>, text: string) {
    forall i :: 0 <= i < |events| ==> !(events[i].Mint? && events[i].t.text == text)
  }

  predicate AllSurvived(events: seq<Event>, t: Token) {
    forall i :: 0 <= i < |events| && Attempts(events[i], t.text) ==> Survives(t, events[i].now)
  }

  lemma StepKeepsToken(hash: string -> string, w: World, e: Event, t: Token)
    requires Injective(hash) && Keyed(hash, w.tokens) && !(e.Mint? && e.t.text == t.text)
    ensures Keyed(hash, Apply(hash, w, e).tokens)
    ensures var k := hash(t.text);
            var v := Apply(hash, w, e).tokens;
            if k in w.tokens && !(Attempts(e, t.text) && !Survives(w.tokens[k], e.now))
            then k in v && v[k] == w.tokens[k] else k !in v
  {
  }

  lemma {:induction false} RunIsKeyed(hash: string -> string, events: seq<Event>)
    ensures Keyed(hash, Run(hash, events).tokens)
    decreases |events|
  {
    if events == [] {
    } else {
      RunIsKeyed(hash, events[..|events| - 1]);
    }
  }

  /** After its mint, a token stays exactly as long as it survives every attempt. */
  lemma {:induction false} TokenStays(hash: string -> string, prior: seq<Event>, t: Token, later: seq<Event>)
    requires Injective(hash) && NotReminted(later, t.text)
    ensures var tokens := Run(hash, prior + [Mint(t)] + later).tokens;
            if AllSurvived(later, t) then hash(t.text) in tokens && tokens[hash(t.text)] == t
            else hash(t.text) !in tokens
    decreases |later|
  {
    var events := prior + [Mint(t)] + later;
    if later == [] {
      assert events[..|events| - 1] == prior && events[|events| - 1] == Mint(t);
    } else {
      var before, e := later[..|later| - 1], later[|later| - 1];
      var w := Run(hash, prior + [Mint(t)] + before);
      assert events[..|events| - 1] == prior + [Mint(t)] + before && events[|events| - 1] == e;
      TokenStays(hash, prior, t, before);
      RunIsKeyed(hash, prior + [Mint(t)] + before);
      StepKeepsToken(hash, w, e, t);
      AllSurvivedSnoc(before, e, t);
      assert later == before + [e];
    }
  }

  lemma AllSurvivedSnoc(events: seq<Event>, e: Event, t: Token)
    ensures AllSurvived(events + [e], t) <==> AllSurvived(events, t) && (Attempts(e, t.text) ==> Survives(t, e.now))
  {
    var all := events + [e];
    assert all[|events|] == e;
    assert forall i :: 0 <= i < |events| ==> all[i] == events[i];
  }

  /** An attempt succeeds exactly when it comes before expiry and the token survived
      every attempt since its mint; for a one-time token that means there was none. */
  lemma SucceedsExactly(hash: string -> string, prior: seq<Event>, t: Token, later: seq<Event>, now: nat)
    requires Injective(hash) && NotReminted(later, t.text)
    ensures RedeemResult(hash, Run(hash, prior + [Mint(t)] + later).tokens, t.text, now).EnrollOk? <==>
            now < t.expiresAt && AllSurvived(later, t)
  {
    TokenStays(hash, prior, t, later);
  }

  /** Any attempt at all, accepted or not, uses up a one-time token for good. */
  lemma OneTimeMeansOnce(hash: string -> string, prior: seq<Event>, t: Token, later: seq<Event>, i: nat, now: nat)
    requires Injective(hash) && NotReminted(later, t.text) && t.oneTime
    requires i < |later| && Attempts(later[i], t.text)
    ensures RedeemResult(hash, Run(hash, prior + [Mint(t)] + later).tokens, t.text, now) == Invalid
  {
    assert !AllSurvived(later, t);
    TokenStays(hash, prior, t, later);
  }

  /** What a session is told over a run, code by code: 0x0008 for a token that survived
      every attempt since its mint and is past expiry, 0x0007 for one that was used up. */
  lemma RefusalCodes(hash: string -> string, prior: seq<Event>, t: Token, later: seq<Event>, fingerprint: string,
                     now: nat, writes: bool)
    requires Injective(hash) && NotReminted(later, t.text)
    ensures var answer := Answer(hash, Run(hash, prior + [Mint(t)] + later).tokens, Enroll(t.text), fingerprint, now, writes);
            && (answer == Refused(0x0008) <==> AllSurvived(later, t) && t.expiresAt <= now)
            && (answer == Refused(0x0007) <==> !AllSurvived(later, t))
            && (answer == EnrollResponse(fingerprint) <==> AllSurvived(later, t) && now < t.expiresAt && writes)
            && (answer == Close <==> AllSurvived(later, t) && now < t.expiresAt && !writes)
  {
    TokenStays(hash, prior, t, later);
  }

  /** A token that was never minted is unknown. */
  lemma {:induction false} NeverMinted(hash: string -> string, events: seq<Event>, text: string)
    requires Injective(hash) && NotReminted(events, text)
    ensures hash(text) !in Run(hash, events).tokens
    decreases |events|
  {
    if events == [] {
    } else {
      NeverMinted(hash, events[..|events| - 1], text);
      assert !(events[|events| - 1].Mint? && events[|events| - 1].t.text == text);
    }
  }

  lemma UnknownIsInvalid(hash: string -> string, events: seq<Event>, text: string, fingerprint: string, now: nat, writes: bool)
    requires Injective(hash) && NotReminted(events, text)
    ensures Answer(hash, Run(hash, events).tokens, Enroll(text), fingerprint, now, writes) == Refused(0x0007)
    ensures Answer(hash, Run(hash, events).tokens, OtherFrame, fingerprint, now, writes) == Refused(0x0007)
  {
    NeverMinted(hash, events, text);
  }

  /** The clock never went past `now` in these events. */
  predicate NotAfter(events: seq<Event>, now: nat) {
    forall i :: 0 <= i < |events| && events[i].Session? ==> events[i].now <= now
  }

  /** Under a clock that never goes back, a deploy token works exactly until it
      expires. */
  lemma DeployUntilExpiry(hash: string -> string, prior: seq<Event>, t: Token, later: seq<Event>, now: nat)
    requires Injective(hash) && NotReminted(later, t.text) && !t.oneTime && NotAfter(later, now)
    ensures RedeemResult(hash, Run(hash, prior + [Mint(t)] + later).tokens, t.text, now).EnrollOk? <==> now < t.expiresAt
  {
    SucceedsExactly(hash, prior, t, later, now);
  }

  // ---------------------------------------------------------------------
  // Who is on the whitelist

  /** The session let its peer in. */
  predicate LetIn(hash: string -> string, events: seq<Event>, i: nat)
    requires i < |events|
  {
    Accepts(hash, Run(hash, events[..i]).tokens, events[i]) && events[i].writes
  }

  /** Whoever is on the whitelist was let in by a session with an accepted token and
      not removed since. */
  lemma {:induction false} WhitelistedWasLetIn(hash: string -> string, events: seq<Event>, node: string) returns (i: nat)
    requires node in Run(hash, events).whitelist
    ensures i < |events| && LetIn(hash, events, i) && events[i].peer == node
    ensures forall j :: i < j < |events| ==> events[j] != Remove(node)
    decreases |events|
  {
    var before, e := events[..|events| - 1], events[|events| - 1];
    if e.Session? && e.peer == node && Accepts(hash, Run(hash, before).tokens, e) && e.writes {
      i := |events| - 1;
      assert events[..i] == before;
    } else {
      i := WhitelistedWasLetIn(hash, before, node);
      assert events[..i] == before[..i];
    }
  }
}
