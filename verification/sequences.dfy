/** Regrouping concatenations, kept apart from the definitions that use it. */
module Sequences {
  lemma Assoc<T>(a: seq<T>, b: seq<T>, c: seq<T>)
    ensures a + b + c == a + (b + c)
  {
  }

  lemma SpreadFive<T>(x: seq<T>, a: seq<T>, b: seq<T>, c: seq<T>, d: seq<T>, e: seq<T>)
    ensures x + (a + b + c + d + e) == x + a + b + c + d + e
  {
    Assoc(x, a + b + c + d, e);
    Assoc(x, a + b + c, d);
    Assoc(x, a + b, c);
    Assoc(x, a, b);
  }

  lemma AssocFour<T>(a: seq<T>, b: seq<T>, c: seq<T>, d: seq<T>)
    ensures a + b + c + d == a + (b + c + d)
  {
  }

  lemma TailOfConcat<T>(a: seq<T>, b: seq<T>)
    requires a != []
    ensures (a + b)[0] == a[0] && (a + b)[1..] == a[1..] + b
  {
  }

  lemma CutNone<T>(before: seq<T>, rest: seq<T>)
    ensures before + rest[..0] == before && rest[0..] == rest
  {
  }

  lemma CutOne<T>(before: seq<T>, rest: seq<T>, n: nat)
    requires n < |rest|
    ensures before + rest[..1 + n] == before + [rest[0]] + rest[1..][..n] && rest[1 + n..] == rest[1..][n..]
  {
  }

  lemma SplitOne<T>(rest: seq<T>, n: nat)
    requires n < |rest|
    ensures rest[..1 + n] == [rest[0]] + rest[1..][..n] && rest[1 + n..] == rest[1..][n..]
  {
  }
}
