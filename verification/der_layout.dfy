/** What the walker's answer means: certificates described independently of it,
    by the layout of section 4.1 of RFC 5280 and the definite lengths of section
    8.1.3 of X.690. */
module DerLayout {
  import opened Frames
  import opened Der
  import Q = Sequences

  /** One element: identifier octet, length octets, contents octets. */
  datatype Element = Element(tag: Byte, length: seq<Byte>, contents: seq<Byte>)

  function Encode(e: Element): seq<Byte> {
    [e.tag] + e.length + e.contents
  }

  function EncodeAll(es: seq<Element>): seq<Byte>
    decreases |es|
  {
    if es == [] then [] else Encode(es[0]) + EncodeAll(es[1..])
  }

  predicate LongForm(length: seq<Byte>) {
    |length| >= 2 && length[0] as nat == 127 + |length|
  }

  /** The short form, or the long form with any number of octets but 127. */
  predicate Definite(length: seq<Byte>, size: nat) {
    || (|length| == 1 && length[0] < 128 && length[0] as nat == size)
    || (LongForm(length) && length[0] != 255 && BigEndian(length[1..]) == size)
  }

  /** What the walker takes for it: only the last 64 bits of a long form count. */
  predicate Accepted(length: seq<Byte>, size: nat) {
    || (|length| == 1 && length[0] < 128 && length[0] as nat == size)
    || (LongForm(length) && BigEndian(length[1..]) % WORD == size)
  }

  /** The length octets fit 64 bits and do not use the reserved first octet. */
  predicate LengthFits(length: seq<Byte>) {
    |length| == 1 || (|length| > 1 && length[0] != 255 && BigEndian(length[1..]) < WORD)
  }

  /** The two agree on a length exactly when the long form does not overflow 64
      bits and does not use the reserved first octet. */
  lemma AcceptedIsDefiniteExactly(length: seq<Byte>, size: nat)
    requires Accepted(length, size)
    ensures Definite(length, size) <==> LengthFits(length)
  {
  }

  lemma DefiniteIsAccepted(length: seq<Byte>, size: nat)
    requires Definite(length, size) && size < WORD
    ensures Accepted(length, size)
  {
  }

  predicate Sequence(e: Element) {
    e.tag == 0x30
  }

  /** A certificate: the outer sequence holds the to-be-signed sequence, which
      holds an optional [0] version, the serial number, four sequences (signature,
      issuer, validity, subject), the public key and whatever follows. */
  datatype Certificate = Certificate(
    outer: Element,
    tbs: Element,
    version: Option<Element>,
    serial: Element,
    middle: seq<Element>,
    spki: Element,
    rest: seq<Byte>,
    signature: seq<Byte>)

  function VersionBytes(c: Certificate): seq<Byte> {
    if c.version.None? then [] else Encode(c.version.value)
  }

  function Fields(c: Certificate): seq<Byte> {
    VersionBytes(c) + Encode(c.serial) + EncodeAll(c.middle) + Encode(c.spki) + c.rest
  }

  predicate Nested(c: Certificate) {
    && c.outer.contents == Encode(c.tbs) + c.signature
    && c.tbs.contents == Fields(c)
    && Sequence(c.outer) && Sequence(c.tbs) && Sequence(c.spki)
    && |c.middle| == |MIDDLE| && (forall i :: 0 <= i < |c.middle| ==> Sequence(c.middle[i]))
    && (c.version.Some? ==> c.version.value.tag == 0xA0)
    && (c.version.None? ==> c.serial.tag != 0xA0)
  }

  predicate LengthOk(e: Element) {
    Accepted(e.length, |e.contents|)
  }

  predicate LengthsOk(c: Certificate) {
    && LengthOk(c.outer) && LengthOk(c.tbs) && LengthOk(c.serial) && LengthOk(c.spki)
    && (c.version.Some? ==> LengthOk(c.version.value))
    && (forall i :: 0 <= i < |c.middle| ==> LengthOk(c.middle[i]))
  }

  predicate DefiniteElement(e: Element) {
    Definite(e.length, |e.contents|)
  }

  /** The layout of RFC 5280: the serial number is an INTEGER and every length is
      definite. */
  predicate WellFormed(c: Certificate) {
    && Nested(c) && c.serial.tag == 0x02
    && DefiniteElement(c.outer) && DefiniteElement(c.tbs) && DefiniteElement(c.serial) && DefiniteElement(c.spki)
    && (c.version.Some? ==> DefiniteElement(c.version.value))
    && (forall i :: 0 <= i < |c.middle| ==> DefiniteElement(c.middle[i]))
  }

  // ---------------------------------------------------------------------
  // Slices of concatenations

  lemma CutTwo<T>(buf: seq<T>, offset: nat, a: seq<T>, b: seq<T>)
    requires offset + |a| + |b| <= |buf| && buf[offset..offset + |a| + |b|] == a + b
    ensures buf[offset..offset + |a|] == a && buf[offset + |a|..offset + |a| + |b|] == b
  {
    var here := buf[offset..offset + |a| + |b|];
    assert buf[offset..offset + |a|] == here[..|a|];
    assert buf[offset + |a|..offset + |a| + |b|] == here[|a|..];
  }

  lemma CutFive<T>(a: seq<T>, b: seq<T>, c: seq<T>, d: seq<T>, e: seq<T>)
    ensures var s := a + b + c + d + e;
            && s[..|a|] == a
            && s[|a|..|a| + |b|] == b
            && s[|a| + |b|..|a| + |b| + |c|] == c
            && s[|a| + |b| + |c|..|a| + |b| + |c| + |d|] == d
  {
  }

  lemma JoinFive<T>(s: seq<T>, i: nat, j: nat, k: nat, l: nat)
    requires i <= j <= k <= l <= |s|
    ensures s == s[..i] + s[i..j] + s[j..k] + s[k..l] + s[l..]
  {
  }

  // ---------------------------------------------------------------------
  // One element

  /** An element in the middle of a buffer is read as itself. */
  lemma ReadsElement(buf: seq<Byte>, offset: nat, e: Element)
    requires LengthOk(e) && |buf| < WORD
    requires offset + |Encode(e)| <= |buf| && buf[offset..offset + |Encode(e)|] == Encode(e)
    ensures ElementAt(buf, offset) == Some(Span(offset + 1 + |e.length|, offset + |Encode(e)|))
    ensures buf[offset] == e.tag
  {
    CutTwo(buf, offset, [e.tag] + e.length, e.contents);
    CutTwo(buf, offset, [e.tag], e.length);
    assert buf[offset] == buf[offset..offset + 1][0];
    ReadsLength(buf, offset + 1, e.length, |e.contents|);
  }

  lemma ReadsLength(buf: seq<Byte>, offset: nat, length: seq<Byte>, size: nat)
    requires Accepted(length, size)
    requires offset + |length| <= |buf| && buf[offset..offset + |length|] == length
    ensures LengthAt(buf, offset) == Some(Length(size, offset + |length|))
  {
    assert buf[offset] == buf[offset..offset + |length|][0];
    if |length| > 1 {
      assert buf[offset..offset + |length|][1..] == buf[offset + 1..offset + |length|];
    }
  }

  /** Whatever is read is an element with a length the walker takes for it. */
  lemma ReadMeansElement(buf: seq<Byte>, offset: nat) returns (e: Element)
    requires ElementAt(buf, offset).Some?
    ensures LengthOk(e) && e.tag == buf[offset]
    ensures var span := ElementAt(buf, offset).value;
            Encode(e) == buf[offset..span.end] && e.contents == buf[span.start..span.end]
  {
    var span := ElementAt(buf, offset).value;
    e := Element(buf[offset], buf[offset + 1..span.start], buf[span.start..span.end]);
    if |e.length| > 1 {
      assert e.length[1..] == buf[offset + 2..span.start];
    }
  }

  // ---------------------------------------------------------------------
  // A row of sequences

  lemma {:induction false} SkipsAll(buf: seq<Byte>, offset: nat, es: seq<Element>)
    requires |buf| < WORD && forall i :: 0 <= i < |es| ==> Sequence(es[i]) && LengthOk(es[i])
    requires offset + |EncodeAll(es)| <= |buf| && buf[offset..offset + |EncodeAll(es)|] == EncodeAll(es)
    ensures SkipSequences(buf, offset, |es|) == Some(offset + |EncodeAll(es)|)
    decreases |es|
  {
    if es == [] {
    } else {
      CutTwo(buf, offset, Encode(es[0]), EncodeAll(es[1..]));
      ReadsElement(buf, offset, es[0]);
      SkipsAll(buf, offset + |Encode(es[0])|, es[1..]);
    }
  }

  lemma {:induction false} SkipMeansSequences(buf: seq<Byte>, offset: nat, count: nat) returns (es: seq<Element>)
    requires SkipSequences(buf, offset, count).Some? && offset <= |buf|
    ensures |es| == count && forall i :: 0 <= i < |es| ==> Sequence(es[i]) && LengthOk(es[i])
    ensures EncodeAll(es) == buf[offset..SkipSequences(buf, offset, count).value]
    decreases count
  {
    if count == 0 {
      es := [];
    } else {
      var span := SequenceAt(buf, offset).value;
      var e := ReadMeansElement(buf, offset);
      var tail := SkipMeansSequences(buf, span.end, count - 1);
      es := [e] + tail;
      assert es[1..] == tail;
      var end := SkipSequences(buf, offset, count).value;
      assert buf[offset..end] == buf[offset..span.end] + buf[span.end..end];
    }
  }

  // ---------------------------------------------------------------------
  // The whole certificate

  function MiddleAt(c: Certificate): nat {
    |VersionBytes(c)| + |Encode(c.serial)|
  }

  lemma LocatesFields(c: Certificate)
    requires Nested(c) && LengthsOk(c) && |Fields(c)| < WORD
    ensures SpkiIn(Fields(c)) == Some(Encode(c.spki))
  {
    LocatesSerial(c);
    EndsSerial(c);
    LocatesMiddle(c);
    LocatesSpki(c);
  }

  lemma LocatesMiddle(c: Certificate)
    requires |c.middle| == |MIDDLE| && |Fields(c)| < WORD
    requires forall i :: 0 <= i < |c.middle| ==> Sequence(c.middle[i]) && LengthOk(c.middle[i])
    ensures SpkiAfterSerial(Fields(c), MiddleAt(c)) == SpkiAt(Fields(c), MiddleAt(c) + |EncodeAll(c.middle)|)
  {
    CutFive(VersionBytes(c), Encode(c.serial), EncodeAll(c.middle), Encode(c.spki), c.rest);
    SkipsAll(Fields(c), MiddleAt(c), c.middle);
  }

  lemma LocatesSpki(c: Certificate)
    requires LengthOk(c.spki) && Sequence(c.spki) && |Fields(c)| < WORD
    ensures SpkiAt(Fields(c), MiddleAt(c) + |EncodeAll(c.middle)|) == Some(Encode(c.spki))
  {
    var start := MiddleAt(c) + |EncodeAll(c.middle)|;
    assert start + |Encode(c.spki)| <= |Fields(c)| && Fields(c)[start..start + |Encode(c.spki)|] == Encode(c.spki) by {
      CutFive(VersionBytes(c), Encode(c.serial), EncodeAll(c.middle), Encode(c.spki), c.rest);
    }
    ReadsElement(Fields(c), start, c.spki);
  }

  lemma EndsSerial(c: Certificate)
    requires LengthOk(c.serial) && |Fields(c)| < WORD
    ensures ElementAt(Fields(c), |VersionBytes(c)|).Some?
    ensures ElementAt(Fields(c), |VersionBytes(c)|).value.end == MiddleAt(c)
  {
    CutFive(VersionBytes(c), Encode(c.serial), EncodeAll(c.middle), Encode(c.spki), c.rest);
    ReadsElement(Fields(c), |VersionBytes(c)|, c.serial);
  }

  lemma LocatesSerial(c: Certificate)
    requires LengthOk(c.serial) && |Fields(c)| < WORD
    requires c.version.Some? ==> c.version.value.tag == 0xA0 && LengthOk(c.version.value)
    requires c.version.None? ==> c.serial.tag != 0xA0
    ensures SerialAt(Fields(c)) == Some(|VersionBytes(c)|)
  {
    CutFive(VersionBytes(c), Encode(c.serial), EncodeAll(c.middle), Encode(c.spki), c.rest);
    if c.version.Some? {
      ReadsElement(Fields(c), 0, c.version.value);
    } else {
      ReadsElement(Fields(c), 0, c.serial);
    }
  }

  /** Any buffer that starts with such a certificate gives exactly its public key
      element. */
  lemma LayoutGivesSpki(c: Certificate, trailing: seq<Byte>)
    requires Nested(c) && LengthsOk(c) && |Encode(c.outer) + trailing| < WORD
    ensures SpkiOf(Encode(c.outer) + trailing) == Some(Encode(c.spki))
  {
    var buf := Encode(c.outer) + trailing;
    assert buf[0..|Encode(c.outer)|] == Encode(c.outer);
    ReadsElement(buf, 0, c.outer);
    var outer := SequenceAt(buf, 0).value;
    var contents := buf[outer.start..outer.end];
    assert contents == c.outer.contents;
    assert contents[0..|Encode(c.tbs)|] == Encode(c.tbs);
    ReadsElement(contents, 0, c.tbs);
    var inner := SequenceAt(contents, 0).value;
    assert contents[inner.start..inner.end] == c.tbs.contents;
    LocatesFields(c);
  }

  /** For every certificate laid out as RFC 5280 says, with definite lengths in
      short or long form, the walker returns exactly the public key element. */
  lemma WellFormedGivesSpki(c: Certificate, trailing: seq<Byte>)
    requires WellFormed(c) && |Encode(c.outer) + trailing| < WORD
    ensures SpkiOf(Encode(c.outer) + trailing) == Some(Encode(c.spki))
  {
    SizesFit(c);
    LayoutGivesSpki(c, trailing);
  }

  lemma SizesFit(c: Certificate)
    requires WellFormed(c) && |Encode(c.outer)| < WORD
    ensures LengthsOk(c)
  {
    Fits(c.outer, |Encode(c.outer)|);
    Fits(c.tbs, |Encode(c.outer)|);
    Fits(c.serial, |Encode(c.outer)|);
    Fits(c.spki, |Encode(c.outer)|);
    if c.version.Some? {
      Fits(c.version.value, |Encode(c.outer)|);
    }
    forall i | 0 <= i < |c.middle|
      ensures LengthOk(c.middle[i])
    {
      PartNoLonger(c.middle, i);
      Fits(c.middle[i], |Encode(c.outer)|);
    }
  }

  lemma Fits(e: Element, bound: nat)
    requires DefiniteElement(e) && |e.contents| <= bound < WORD
    ensures LengthOk(e)
  {
    DefiniteIsAccepted(e.length, |e.contents|);
  }

  lemma {:induction false} PartNoLonger(es: seq<Element>, i: nat)
    requires i < |es|
    ensures |es[i].contents| <= |EncodeAll(es)|
    decreases |es|
  {
    if i == 0 {
    } else {
      PartNoLonger(es[1..], i - 1);
    }
  }

  lemma FieldsMeanLayout(tbs: seq<Byte>)
      returns (version: Option<Element>, serial: Element, middle: seq<Element>, spki: Element, rest: seq<Byte>)
    requires SpkiIn(tbs).Some?
    ensures tbs == (if version.None? then [] else Encode(version.value))
                   + Encode(serial) + EncodeAll(middle) + Encode(spki) + rest
    ensures (version.Some? ==> version.value.tag == 0xA0 && LengthOk(version.value)) &&
            (version.None? ==> serial.tag != 0xA0)
    ensures LengthOk(serial) && LengthOk(spki) && Sequence(spki)
    ensures |middle| == |MIDDLE| && forall i :: 0 <= i < |middle| ==> Sequence(middle[i]) && LengthOk(middle[i])
    ensures SpkiIn(tbs) == Some(Encode(spki))
  {
    var serialAt := SerialAt(tbs).value;
    version := None;
    if tbs[0] == 0xA0 {
      var e := ReadMeansElement(tbs, 0);
      version := Some(e);
    }
    serial := ReadMeansElement(tbs, serialAt);
    var middleAt := ElementAt(tbs, serialAt).value.end;
    middle := SkipMeansSequences(tbs, middleAt, |MIDDLE|);
    var spkiAt := SkipSequences(tbs, middleAt, |MIDDLE|).value;
    spki := ReadMeansElement(tbs, spkiAt);
    var end := SequenceAt(tbs, spkiAt).value.end;
    rest := tbs[end..];
    JoinFive(tbs, serialAt, middleAt, spkiAt, end);
  }

  /** Whenever the walker succeeds, its input starts with such a certificate and
      the result is that certificate's public key element, complete. */
  lemma SpkiMeansLayout(buf: seq<Byte>) returns (c: Certificate, trailing: seq<Byte>)
    requires SpkiOf(buf).Some?
    ensures Nested(c) && LengthsOk(c)
    ensures buf == Encode(c.outer) + trailing && SpkiOf(buf) == Some(Encode(c.spki))
  {
    var outer, tbs, signature;
    outer, tbs, signature, trailing := EnterMeansElements(buf);
    var version, serial, middle, spki, rest := FieldsMeanLayout(tbs.contents);
    c := Certificate(outer, tbs, version, serial, middle, spki, rest, signature);
  }

  /** Every success is one SEQUENCE element of the input. Its declared length is
      the length returned exactly when the length octets do not overflow 64 bits
      and do not use the reserved first octet. */
  lemma ResultIsCompleteExactly(buf: seq<Byte>) returns (e: Element, before: seq<Byte>, after: seq<Byte>)
    requires SpkiOf(buf).Some?
    ensures SpkiOf(buf) == Some(Encode(e)) && Sequence(e) && buf == before + Encode(e) + after
    ensures DefiniteElement(e) <==> LengthFits(e.length)
  {
    var c, trailing := SpkiMeansLayout(buf);
    e := c.spki;
    before := [c.outer.tag] + c.outer.length + [c.tbs.tag] + c.tbs.length
              + VersionBytes(c) + Encode(c.serial) + EncodeAll(c.middle);
    after := c.rest + c.signature + trailing;
    AcceptedIsDefiniteExactly(e.length, |e.contents|);
    Regroup(c, trailing, before, after);
  }

  lemma Regroup(c: Certificate, trailing: seq<Byte>, before: seq<Byte>, after: seq<Byte>)
    requires c.outer.contents == Encode(c.tbs) + c.signature && c.tbs.contents == Fields(c)
    requires before == [c.outer.tag] + c.outer.length + [c.tbs.tag] + c.tbs.length
                       + VersionBytes(c) + Encode(c.serial) + EncodeAll(c.middle)
    requires after == c.rest + c.signature + trailing
    ensures Encode(c.outer) + trailing == before + Encode(c.spki) + after
  {
    var o, t := [c.outer.tag] + c.outer.length, [c.tbs.tag] + c.tbs.length;
    Q.AssocFour(o, t, Fields(c), c.signature);
    Q.Assoc(o, [c.tbs.tag], c.tbs.length);
    Q.SpreadFive(o + t, VersionBytes(c), Encode(c.serial), EncodeAll(c.middle), Encode(c.spki), c.rest);
    Q.AssocFour(before + Encode(c.spki), c.rest, c.signature, trailing);
  }

  lemma EnterMeansElements(buf: seq<Byte>)
      returns (outer: Element, tbs: Element, signature: seq<Byte>, trailing: seq<Byte>)
    requires SpkiOf(buf).Some?
    ensures Sequence(outer) && Sequence(tbs) && LengthOk(outer) && LengthOk(tbs)
    ensures buf == Encode(outer) + trailing && outer.contents == Encode(tbs) + signature
    ensures SpkiIn(tbs.contents) == SpkiOf(buf)
  {
    outer, trailing := SequenceMeansElement(buf);
    tbs, signature := SequenceMeansElement(outer.contents);
  }

  lemma SequenceMeansElement(buf: seq<Byte>) returns (e: Element, after: seq<Byte>)
    requires SequenceAt(buf, 0).Some?
    ensures Sequence(e) && LengthOk(e) && buf == Encode(e) + after
    ensures e.contents == buf[SequenceAt(buf, 0).value.start..SequenceAt(buf, 0).value.end]
  {
    e := ReadMeansElement(buf, 0);
    after := buf[SequenceAt(buf, 0).value.end..];
  }

  /** For every certificate layout the walker accepts, the result is the public key
      element, and it is as long as it declares if and only if its length octets fit. */
  lemma CompleteExactly(c: Certificate, trailing: seq<Byte>)
    requires Nested(c) && LengthsOk(c) && |Encode(c.outer) + trailing| < WORD
    ensures SpkiOf(Encode(c.outer) + trailing) == Some(Encode(c.spki))
    ensures DefiniteElement(c.spki) <==> LengthFits(c.spki.length)
  {
    LayoutGivesSpki(c, trailing);
    AcceptedIsDefiniteExactly(c.spki.length, |c.spki.contents|);
  }

  // ---------------------------------------------------------------------
  // A key length beyond 64 bits

  const LONG_LENGTH: seq<Byte> := [0x89, 1, 0, 0, 0, 0, 0, 0, 0, 0]

  lemma LongLengthSaysTwoToThe64()
    ensures Definite(LONG_LENGTH, WORD) && Accepted(LONG_LENGTH, 0) && !LengthFits(LONG_LENGTH)
  {
    var octets: seq<Byte> := [1, 0, 0, 0, 0, 0, 0, 0, 0];
    assert LONG_LENGTH[1..] == octets;
    var s0: seq<Byte> := [1];
    assert s0[..0] == [];
    var s1 := s0 + [0];
    Append(s0, 0);
    var s2 := s1 + [0];
    Append(s1, 0);
    var s3 := s2 + [0];
    Append(s2, 0);
    var s4 := s3 + [0];
    Append(s3, 0);
    var s5 := s4 + [0];
    Append(s4, 0);
    var s6 := s5 + [0];
    Append(s5, 0);
    var s7 := s6 + [0];
    Append(s6, 0);
    var s8 := s7 + [0];
    Append(s7, 0);
    assert octets == s8;
    assert BigEndian(octets) == WORD;
  }

  const EMPTY_SEQUENCE := Element(0x30, [0], [])
  const LONG_KEY := Element(0x30, LONG_LENGTH, [])
  const SERIAL := Element(0x02, [1], [7])

  /** A certificate whose public key element declares 2^64 octets and has none. */
  function LongKeyCertificate(): (c: Certificate)
    ensures |c.tbs.contents| == 22 && |c.outer.contents| == 24
  {
    var middle := [EMPTY_SEQUENCE, EMPTY_SEQUENCE, EMPTY_SEQUENCE, EMPTY_SEQUENCE];
    var fields := [] + Encode(SERIAL) + EncodeAll(middle) + Encode(LONG_KEY) + [];
    FourEmpty();
    var tbs := Element(0x30, [22], fields);
    Certificate(Element(0x30, [24], Encode(tbs) + []), tbs, None, SERIAL, middle, LONG_KEY, [], [])
  }

  lemma FourEmpty()
    ensures |EncodeAll([EMPTY_SEQUENCE, EMPTY_SEQUENCE, EMPTY_SEQUENCE, EMPTY_SEQUENCE])| == 8
  {
    var e := EMPTY_SEQUENCE;
    assert [e][1..] == [];
    assert [e, e][1..] == [e];
    assert [e, e, e][1..] == [e, e];
    assert [e, e, e, e][1..] == [e, e, e];
    assert |EncodeAll([e])| == 2;
    assert |EncodeAll([e, e])| == 4;
    assert |EncodeAll([e, e, e])| == 6;
  }

  /** The walker takes that certificate and returns its public key element as if it
      were empty. */
  lemma LongLengthIsTruncated()
    ensures var c := LongKeyCertificate();
            && Nested(c) && LengthsOk(c) && Definite(c.spki.length, WORD) && !DefiniteElement(c.spki)
            && SpkiOf(Encode(c.outer)) == Some([0x30] + LONG_LENGTH)
  {
    var c := LongKeyCertificate();
    LongLengthSaysTwoToThe64();
    assert c.tbs.contents == Fields(c);
    CompleteExactly(c, []);
    assert Encode(c.outer) + [] == Encode(c.outer);
    assert Encode(c.spki) == [0x30] + LONG_LENGTH;
  }

  lemma Append(octets: seq<Byte>, octet: Byte)
    ensures BigEndian(octets + [octet]) == BigEndian(octets) * 256 + octet as nat
  {
    assert (octets + [octet])[..|octets|] == octets;
  }
}
