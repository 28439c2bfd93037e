/** Enrollment tokens (src/infra/relay_enrollment.rs). The store is keyed by a hash
    of the token, taken here as any injective function. */
module Enrollment {

  datatype Token = Token(text: string, expiresAt: nat, oneTime: bool)

  type Store = map<string, Token>

  datatype RedeemOutcome = EnrollOk(oneTime: bool) | Invalid | Expired

  ghost predicate Injective(hash: string -> string) {
    forall a, b :: hash(a) == hash(b) ==> a == b
  }

  /** Every record sits under the hash of its own text. */
  predicate Keyed(hash: string -> string, tokens: Store) {
    forall k :: k in tokens ==> k == hash(tokens[k].text)
  }

  function Minted(hash: string -> string, tokens: Store, t: Token): Store {
    tokens[hash(t.text) := t]
  }

  function RedeemResult(hash: string -> string, tokens: Store, text: string, now: nat): RedeemOutcome {
    if hash(text) !in tokens then Invalid
    else if tokens[hash(text)].expiresAt <= now then Expired
    else EnrollOk(tokens[hash(text)].oneTime)
  }

  /** One attempt uses up a one-time token whatever the answer; an expired deploy
      token goes too. */
  function Redeemed(hash: string -> string, tokens: Store, text: string, now: nat): Store {
    if hash(text) in tokens && (tokens[hash(text)].oneTime || tokens[hash(text)].expiresAt <= now)
    then tokens - {hash(text)} else tokens
  }

  function Unexpired(tokens: Store, now: nat): Store {
    map k | k in tokens && tokens[k].expiresAt > now :: tokens[k]
  }

  /** What loading does with a list of records. */
  function Loaded(hash: string -> string, records: seq<Token>, now: nat): Store
    decreases |records|
  {
    if records == [] then map[]
    else
      var before := Loaded(hash, records[..|records| - 1], now);
      var last := records[|records| - 1];
      if last.expiresAt <= now then before else before[hash(last.text) := last]
  }

  class TokenStore {
    var tokens: Store
    const hash: string -> string

    ghost predicate Valid()
      reads this
    {
      Keyed(hash, tokens)
    }

    constructor (hash: string -> string)
      ensures this.hash == hash && tokens == map[] && Valid()
    {
      this.hash := hash;
      tokens := map[];
    }

    method Mint(text: string, oneTime: bool, ttl: nat, now: nat) returns (t: Token)
      requires Valid()
      modifies this`tokens
      ensures Valid() && t == Token(text, now + ttl, oneTime)
      ensures tokens == Minted(hash, old(tokens), t)
      ensures forall later: nat :: later < now + ttl ==> RedeemResult(hash, tokens, text, later) == EnrollOk(oneTime)
    {
      t := Token(text, now + ttl, oneTime);
      tokens := tokens[hash(text) := t];
    }

    method Redeem(text: string, now: nat) returns (outcome: RedeemOutcome)
      requires Valid()
      modifies this`tokens
      ensures Valid() && outcome == RedeemResult(hash, old(tokens), text, now)
      ensures tokens == Redeemed(hash, old(tokens), text, now)
    {
      var key := hash(text);
      if key !in tokens {
        return Invalid;
      }
      var record := tokens[key];
      if record.oneTime {
        tokens := tokens - {key};
      }
      if record.expiresAt <= now {
        if !record.oneTime {
          tokens := tokens - {key};
        }
        return Expired;
      }
      return EnrollOk(record.oneTime);
    }

    /** The records written, in whatever order the map gives them. */
    method Persist(now: nat) returns (records: seq<Token>)
      requires Valid()
      ensures forall r :: r in records <==> hash(r.text) in tokens && tokens[hash(r.text)] == r && r.expiresAt > now
    {
      records := [];
      var rest := tokens.Keys;
      while rest != {}
        invariant rest <= tokens.Keys
        invariant forall r :: r in records <==>
          hash(r.text) in tokens.Keys - rest && tokens[hash(r.text)] == r && r.expiresAt > now
        decreases |rest|
      {
        var key :| key in rest;
        rest := rest - {key};
        if tokens[key].expiresAt > now {
          records := records + [tokens[key]];
        }
      }
    }

    method Load(records: seq<Token>, now: nat)
      requires tokens == map[]
      modifies this`tokens
      ensures Valid() && tokens == Loaded(hash, records, now)
    {
      for i := 0 to |records|
        invariant tokens == Loaded(hash, records[..i], now) && Keyed(hash, tokens)
      {
        assert records[..i + 1][..i] == records[..i];
        if records[i].expiresAt > now {
          tokens := tokens[hash(records[i].text) := records[i]];
        }
      }
      assert records[..|records|] == records;
    }
  }

  // ---------------------------------------------------------------------
  // Loading what was persisted

  ghost predicate PersistedFrom(hash: string -> string, tokens: Store, now: nat, records: seq<Token>) {
    forall r :: r in records <==> hash(r.text) in tokens && tokens[hash(r.text)] == r && r.expiresAt > now
  }

  lemma {:induction false} LoadedHolds(hash: string -> string, records: seq<Token>, now: nat, tokens: Store)
    requires forall r :: r in records ==> hash(r.text) in tokens && tokens[hash(r.text)] == r
    ensures forall k :: k in Loaded(hash, records, now) <==> exists r :: r in records && hash(r.text) == k && r.expiresAt > now
    ensures forall k :: k in Loaded(hash, records, now) ==> k in tokens && Loaded(hash, records, now)[k] == tokens[k]
    decreases |records|
  {
    if records == [] {
    } else {
      var init, last := records[..|records| - 1], records[|records| - 1];
      assert records == init + [last];
      LoadedHolds(hash, init, now, tokens);
    }
  }

  /** Persisting and loading later, in any order, keeps exactly the tokens that are
      still unexpired. */
  lemma LoadAfterPersist(hash: string -> string, tokens: Store, earlier: nat, records: seq<Token>, now: nat)
    requires Keyed(hash, tokens) && PersistedFrom(hash, tokens, earlier, records) && earlier <= now
    ensures Loaded(hash, records, now) == Unexpired(tokens, now)
  {
    LoadedHolds(hash, records, now, tokens);
    var loaded := Loaded(hash, records, now);
    forall k | k in Unexpired(tokens, now)
      ensures k in loaded
    {
      assert tokens[k] in records;
    }
    assert loaded.Keys == Unexpired(tokens, now).Keys;
  }

  // ---------------------------------------------------------------------
  // One enrollment session

  const TOKEN_INVALID := 0x0007
  const TOKEN_EXPIRED := 0x0008

  datatype First = Enroll(token: string) | OtherFrame

  datatype Response = EnrollResponse(fingerprint: string) | Refused(code: nat) | Close

  /** `writes` is whether the whitelist file could be written. */
  function Answer(hash: string -> string, tokens: Store, first: First, relayFingerprint: string, now: nat, writes: bool): Response {
    if first.OtherFrame? then Refused(TOKEN_INVALID)
    else
      match RedeemResult(hash, tokens, first.token, now)
      case EnrollOk(_) => if writes then EnrollResponse(relayFingerprint) else Close
      case Invalid => Refused(TOKEN_INVALID)
      case Expired => Refused(TOKEN_EXPIRED)
  }

  class Enroller {
    const store: TokenStore
    var whitelist: map<string, string>

    constructor (store: TokenStore)
      ensures this.store == store && whitelist == map[]
    {
      this.store := store;
      whitelist := map[];
    }

    /** Only an accepted token puts the peer on the whitelist. */
    method HandleFrame(first: First, peer: string, pem: string, relayFingerprint: string, now: nat, writes: bool)
        returns (response: Response)
      requires store.Valid()
      modifies this`whitelist, store`tokens
      ensures store.Valid()
      ensures response == Answer(store.hash, old(store.tokens), first, relayFingerprint, now, writes)
      ensures store.tokens == if first.Enroll? then Redeemed(store.hash, old(store.tokens), first.token, now) else old(store.tokens)
      ensures whitelist == if response.EnrollResponse? then old(whitelist)[peer := pem] else old(whitelist)
    {
      if first.OtherFrame? {
        return Refused(TOKEN_INVALID);
      }
      var outcome := store.Redeem(first.token, now);
      match outcome {
        case EnrollOk(_) =>
          if !writes {
            return Close;
          }
          whitelist := whitelist[peer := pem];
          return EnrollResponse(relayFingerprint);
        case Invalid => return Refused(TOKEN_INVALID);
        case Expired => return Refused(TOKEN_EXPIRED);
      }
    }
  }
}
