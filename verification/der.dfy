/** The DER walker that finds the SubjectPublicKeyInfo of a certificate
    (src/infra/node_credentials.rs). Offsets and lengths are 64-bit. */
module Der {
  import opened Frames

  const WORD := 0x1_0000_0000_0000_0000

  function BigEndian(octets: seq<Byte>): nat
    decreases |octets|
  {
    if octets == [] then 0
    else BigEndian(octets[..|octets| - 1]) * 256 + octets[|octets| - 1] as nat
  }

  // ---------------------------------------------------------------------
  // What the readers compute

  datatype Length = Length(value: nat, next: nat)

  /** Content bounds of an element. */
  datatype Span = Span(start: nat, end: nat)

  function LengthAt(buf: seq<Byte>, offset: nat): (r: Option<Length>)
    ensures r.Some? ==> offset < r.value.next <= |buf| && r.value.value < WORD
  {
    if offset >= |buf| then None
    else if buf[offset] < 128 then Some(Length(buf[offset] as nat, offset + 1))
    else
      var count := buf[offset] as nat - 128;
      if count == 0 || offset + 1 + count > |buf| then None
      else Some(Length(BigEndian(buf[offset + 1..offset + 1 + count]) % WORD, offset + 1 + count))
  }

  function ElementAt(buf: seq<Byte>, offset: nat): (r: Option<Span>)
    ensures r.Some? ==> offset + 2 <= r.value.start <= r.value.end <= |buf|
  {
    if offset >= |buf| then None
    else
      var length := LengthAt(buf, offset + 1);
      if length.None? then None
      else
        var end := length.value.next + length.value.value;
        if end >= WORD || end > |buf| then None else Some(Span(length.value.next, end))
  }

  function SequenceAt(buf: seq<Byte>, offset: nat): (r: Option<Span>)
    ensures r.Some? ==> offset + 2 <= r.value.start <= r.value.end <= |buf|
  {
    if offset >= |buf| || buf[offset] != 0x30 then None else ElementAt(buf, offset)
  }

  /** The offset after `count` sequences in a row. */
  function SkipSequences(buf: seq<Byte>, offset: nat, count: nat): (r: Option<nat>)
    ensures r.Some? && 0 < count ==> offset < r.value <= |buf|
    ensures r.Some? && 0 == count ==> r.value == offset
    decreases count
  {
    if count == 0 then Some(offset)
    else
      var span := SequenceAt(buf, offset);
      if span.None? then None else SkipSequences(buf, span.value.end, count - 1)
  }

  /** Where serialNumber starts: an optional version field precedes it. */
  function SerialAt(tbs: seq<Byte>): Option<nat> {
    if tbs == [] then None
    else if tbs[0] != 0xA0 then Some(0)
    else
      var version := ElementAt(tbs, 0);
      if version.None? then None else Some(version.value.end)
  }

  /** The sequences between serialNumber and subjectPublicKeyInfo. */
  const MIDDLE := ["signature", "issuer", "validity", "subject"]

  function SpkiAt(tbs: seq<Byte>, start: nat): Option<seq<Byte>> {
    var spki := SequenceAt(tbs, start);
    if spki.None? then None else Some(tbs[start..spki.value.end])
  }

  function SpkiAfterSerial(tbs: seq<Byte>, offset: nat): Option<seq<Byte>> {
    var start := SkipSequences(tbs, offset, |MIDDLE|);
    if start.None? then None else SpkiAt(tbs, start.value)
  }

  function SpkiIn(tbs: seq<Byte>): Option<seq<Byte>> {
    var serialAt := SerialAt(tbs);
    if serialAt.None? then None
    else
      var serial := ElementAt(tbs, serialAt.value);
      if serial.None? then None else SpkiAfterSerial(tbs, serial.value.end)
  }

  function SpkiOf(cert: seq<Byte>): Option<seq<Byte>> {
    var outer := SequenceAt(cert, 0);
    if outer.None? then None
    else
      var contents := cert[outer.value.start..outer.value.end];
      var inner := SequenceAt(contents, 0);
      if inner.None? then None else SpkiIn(contents[inner.value.start..inner.value.end])
  }

  // ---------------------------------------------------------------------
  // The readers

  lemma ShiftIn(x: nat, octet: nat)
    requires octet < 256
    ensures (x % WORD) * 256 % WORD + octet == (x * 256 + octet) % WORD
  {
    var q, r := x / WORD, x % WORD;
    var q2, r2 := r * 256 / WORD, r * 256 % WORD;
    assert r2 == 256 * (r - q2 * (WORD / 256));
    assert r2 <= WORD - 256;
    assert x * 256 + octet == (q * 256 + q2) * WORD + (r2 + octet);
  }

  /** `len << 8` drops the bits above 64. */
  method ReadLength(buf: seq<Byte>, offset: nat) returns (length: Option<nat>, next: nat)
    ensures length.Some? <==> LengthAt(buf, offset).Some?
    ensures length.Some? ==> LengthAt(buf, offset) == Some(Length(length.value, next))
  {
    if offset >= |buf| {
      return None, offset;
    }
    var first := buf[offset];
    next := offset + 1;
    if first < 128 {
      return Some(first as nat), next;
    }
    var count := first as nat - 128;
    if count == 0 || next + count > |buf| {
      return None, next;
    }
    var len: nat := 0;
    for i := 0 to count
      invariant len == BigEndian(buf[next..next + i]) % WORD
    {
      assert buf[next..next + i + 1][..i] == buf[next..next + i];
      ShiftIn(BigEndian(buf[next..next + i]), buf[next + i] as nat);
      len := len * 256 % WORD + buf[next + i] as nat;
    }
    return Some(len), next + count;
  }

  method ReadElement(buf: seq<Byte>, offset: nat) returns (element: Option<seq<Byte>>, next: nat)
    ensures element.Some? <==> ElementAt(buf, offset).Some?
    ensures element.Some? ==> next == ElementAt(buf, offset).value.end
    ensures element.Some? ==> element.value == buf[ElementAt(buf, offset).value.start..next]
  {
    if offset >= |buf| {
      return None, offset;
    }
    var length, start := ReadLength(buf, offset + 1);
    if length.None? || start + length.value >= WORD || start + length.value > |buf| {
      return None, start;
    }
    return Some(buf[start..start + length.value]), start + length.value;
  }

  method ReadSequence(buf: seq<Byte>, offset: nat) returns (element: Option<seq<Byte>>, next: nat)
    ensures element.Some? <==> SequenceAt(buf, offset).Some?
    ensures element.Some? ==> next == SequenceAt(buf, offset).value.end
    ensures element.Some? ==> element.value == buf[SequenceAt(buf, offset).value.start..next]
  {
    if offset >= |buf| || buf[offset] != 0x30 {
      return None, offset;
    }
    element, next := ReadElement(buf, offset);
  }

  method SkipElement(buf: seq<Byte>, offset: nat) returns (next: Option<nat>)
    ensures next.Some? <==> ElementAt(buf, offset).Some?
    ensures next.Some? ==> next.value == ElementAt(buf, offset).value.end
  {
    var element, after := ReadElement(buf, offset);
    return if element.Some? then Some(after) else None;
  }

  method SkipSequence(buf: seq<Byte>, offset: nat) returns (next: Option<nat>)
    ensures next == SkipSequences(buf, offset, 1)
  {
    var element, after := ReadSequence(buf, offset);
    return if element.Some? then Some(after) else None;
  }

  lemma SkipOneMore(buf: seq<Byte>, offset: nat, count: nat)
    requires 0 < count
    ensures var one := SkipSequences(buf, offset, 1);
            SkipSequences(buf, offset, count) == if one.None? then None else SkipSequences(buf, one.value, count - 1)
  {
  }

  /** Past signature, issuer, validity and subject. */
  method SkipToSpki(tbs: seq<Byte>, offset: nat) returns (next: Option<nat>)
    ensures next == SkipSequences(tbs, offset, |MIDDLE|)
  {
    SkipOneMore(tbs, offset, |MIDDLE|);
    next := SkipSequence(tbs, offset);
    if next.None? {
      return;
    }
    SkipOneMore(tbs, next.value, 3);
    next := SkipSequence(tbs, next.value);
    if next.None? {
      return;
    }
    SkipOneMore(tbs, next.value, 2);
    next := SkipSequence(tbs, next.value);
    if next.None? {
      return;
    }
    next := SkipSequence(tbs, next.value);
  }

  method FieldsToSpki(tbs: seq<Byte>) returns (spki: Option<seq<Byte>>)
    ensures spki == SpkiIn(tbs)
  {
    if tbs == [] {
      return None;
    }
    var offset: nat := 0;
    if tbs[0] == 0xA0 {
      var version := SkipElement(tbs, offset);
      if version.None? {
        return None;
      }
      offset := version.value;
    }
    var serial := SkipElement(tbs, offset);
    if serial.None? {
      return None;
    }
    var start := SkipToSpki(tbs, serial.value);
    if start.None? {
      return None;
    }
    var end := SkipSequence(tbs, start.value);
    if end.None? {
      return None;
    }
    return Some(tbs[start.value..end.value]);
  }

  method ExtractSpki(cert: seq<Byte>) returns (spki: Option<seq<Byte>>)
    ensures spki == SpkiOf(cert)
  {
    var contents, _ := ReadSequence(cert, 0);
    if contents.None? {
      return None;
    }
    var tbs, _ := ReadSequence(contents.value, 0);
    if tbs.None? {
      return None;
    }
    spki := FieldsToSpki(tbs.value);
  }
}
