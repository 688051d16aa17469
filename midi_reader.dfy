/** The primitive readers of src/midi.cpp. Each takes the buffer and a cursor
    and either fails or yields the value read together with the advanced
    cursor (the source passes the cursor by reference). */
module MidiReader {
  import opened MidiTypes

  /** The throw sites of the decoder. Only NotEnoughData can actually be
      raised: the other two guards are dead as written. */
  datatype Error = NotEnoughData | UnexpectedIdentifier | VlqTooLong

  datatype Result<T> = Ok(value: T) | Err(error: Error) {
    predicate IsFailure() { Err? }
    function PropagateFailure<U>(): Result<U> requires Err? { Err(error) }
    function Extract(): T requires Ok? { value }
  }

  /** A check that either passes or raises an error. */
  datatype Outcome = Pass | Fail(error: Error) {
    predicate IsFailure() { Fail? }
    function PropagateFailure<U>(): Result<U> requires Fail? { Err(error) }
  }

  /** A value read and the cursor just after it. */
  datatype Read<T> = Read(value: T, next: nat)

  /** EXPECTS_ENOUGH_DATA: `n` bytes are available at `pos`. */
  predicate EnoughData(n: nat, size: nat, pos: nat) {
    !(pos > size || n > size - pos)
  }

  /** EXPECTS_EQUAL as written: it compares `expected` with itself, so it
      never fails, whatever `actual` is. */
  function ExpectEqual(expected: Bytes, actual: Bytes): (o: Outcome)
    ensures o == Pass
  {
    if expected != expected then Fail(UnexpectedIdentifier) else Pass
  }

  /** ReadString: exactly `n` raw bytes. The source's `int` parameter receives
      a uint32 length; a length of 2^31 or more turns negative and, compared
      against the remaining size as an unsigned value, fails the same test. */
  function ReadString(data: Bytes, pos: nat, n: uint32): (r: Result<Read<Bytes>>)
    ensures r.Ok? <==> pos + n <= |data|
    ensures r.Err? ==> r.error == NotEnoughData
    ensures r.Ok? ==> r.value.next == pos + n && |r.value.value| == n
    ensures r.Ok? ==> r.value.value == data[pos..pos + n]
  {
    if !EnoughData(n, |data|, pos) then Err(NotEnoughData)
    else Ok(Read(data[pos..pos + n], pos + n))
  }

  function ReadUint8(data: Bytes, pos: nat): (r: Result<Read<uint8>>)
    ensures r.Ok? <==> pos < |data|
    ensures r.Err? ==> r.error == NotEnoughData
    ensures r.Ok? ==> r.value.next == pos + 1 && r.value.value == data[pos]
  {
    if !EnoughData(1, |data|, pos) then Err(NotEnoughData)
    else Ok(Read(data[pos], pos + 1))
  }

  function ReadUint16(data: Bytes, pos: nat): (r: Result<Read<uint16>>)
    ensures r.Ok? <==> pos + 2 <= |data|
    ensures r.Err? ==> r.error == NotEnoughData
    ensures r.Ok? ==> r.value.next == pos + 2 && EncodeUint16(r.value.value) == data[pos..pos + 2]
  {
    if !EnoughData(2, |data|, pos) then Err(NotEnoughData)
    else Ok(Read(data[pos] as int * 0x100 + data[pos + 1], pos + 2))
  }

  function ReadUint32(data: Bytes, pos: nat): (r: Result<Read<uint32>>)
    ensures r.Ok? <==> pos + 4 <= |data|
    ensures r.Err? ==> r.error == NotEnoughData
    ensures r.Ok? ==> r.value.next == pos + 4 && EncodeUint32(r.value.value) == data[pos..pos + 4]
  {
    if !EnoughData(4, |data|, pos) then Err(NotEnoughData)
    else
      var v := ((data[pos] as int * 0x100 + data[pos + 1]) * 0x100 + data[pos + 2]) * 0x100 + data[pos + 3];
      Ok(Read(v, pos + 4))
  }

  /** Big-endian byte layout of the fixed-width integers. */
  function EncodeUint16(v: uint16): (b: Bytes)
    ensures |b| == 2
  {
    [v / 0x100, v % 0x100]
  }

  function EncodeUint32(v: uint32): (b: Bytes)
    ensures |b| == 4
  {
    var q1 := v / 0x100;
    var q2 := q1 / 0x100;
    [q2 / 0x100, q2 % 0x100, q1 % 0x100, v % 0x100]
  }

  /** Reading back a big-endian 16-bit value anywhere in a buffer. */
  lemma ReadUint16Encode(prefix: Bytes, v: uint16, rest: Bytes)
    ensures ReadUint16(prefix + EncodeUint16(v) + rest, |prefix|) == Ok(Read(v, |prefix| + 2))
  {
    var data := prefix + EncodeUint16(v) + rest;
    assert data[|prefix|] == v / 0x100 && data[|prefix| + 1] == v % 0x100;
  }

  lemma ReadUint32Encode(prefix: Bytes, v: uint32, rest: Bytes)
    ensures ReadUint32(prefix + EncodeUint32(v) + rest, |prefix|) == Ok(Read(v, |prefix| + 4))
  {
    var data := prefix + EncodeUint32(v) + rest;
    var p := |prefix|;
    var q1 := v / 0x100;
    var q2 := q1 / 0x100;
    assert data[p] == q2 / 0x100 && data[p + 1] == q2 % 0x100;
    assert data[p + 2] == q1 % 0x100 && data[p + 3] == v % 0x100;
    assert (data[p] as int * 0x100 + data[p + 1]) == q2;
  }

  // ---------------------------------------------------------------------
  // Variable-length quantities

  /** One step of the accumulator: `(value << 7) | (byte & 0x7f)` in uint32. */
  function Shift7(acc: uint32, b: uint8): uint32 {
    Wrap32(acc * 0x80 + Low7(b))
  }

  /** `b & 0x7f` */
  function Low7(b: uint8): (r: uint8)
    ensures r < 0x80 && r == b % 0x80
  {
    if b >= 0x80 then b - 0x80 else b
  }

  /** Reduction modulo 2^32, as uint32 arithmetic drops the carry. */
  function Wrap32(x: nat): (r: uint32)
    ensures x < 0x1_0000_0000 ==> r == x
  {
    if x < 0x1_0000_0000 then x else Wrap32(x - 0x1_0000_0000)
  }

  /** The decoder's reading of a VLQ from `pos` with accumulator `acc`: bytes
      are folded into the accumulator up to and including the first byte
      below 0x80. No length limit applies. */
  function VlqFrom(data: Bytes, pos: nat, acc: uint32): (r: Result<Read<uint32>>)
    ensures r.Err? ==> r.error == NotEnoughData
    ensures r.Ok? ==> pos < r.value.next <= |data| && data[r.value.next - 1] < 0x80
    decreases |data| - pos
  {
    match ReadUint8(data, pos)
    case Err(e) => Err(e)
    case Ok(b) =>
      if b.value >= 0x80 then VlqFrom(data, b.next, Shift7(acc, b.value))
      else Ok(Read(Shift7(acc, b.value), b.next))
  }

  /** A VLQ read fails exactly when no byte below 0x80 follows `pos`, and
      otherwise ends at the first such byte. */
  lemma {:induction false} VlqFromShape(data: Bytes, pos: nat, acc: uint32)
    ensures VlqFrom(data, pos, acc).Err? <==> forall k | pos <= k < |data| :: data[k] >= 0x80
    ensures VlqFrom(data, pos, acc).Ok? ==>
              forall k | pos <= k < VlqFrom(data, pos, acc).value.next - 1 :: data[k] >= 0x80
    decreases |data| - pos
  {
    if pos < |data| && data[pos] >= 0x80 {
      VlqFromShape(data, pos + 1, Shift7(acc, data[pos]));
    }
  }

  /** ReadVariableLengthQuantity, as a function. */
  function Vlq(data: Bytes, pos: nat): Result<Read<uint32>> {
    VlqFrom(data, pos, 0)
  }

  /** ReadVariableLengthQuantity as the source runs it: a do-while loop over
      ReadUint8. Its length guard tests `nread`, which nothing increments. */
  method ReadVariableLengthQuantity(data: Bytes, pos: nat) returns (r: Result<Read<uint32>>)
    ensures r == Vlq(data, pos)
  {
    var value: uint32 := 0;
    var p := pos;
    var nread := 0;
    while true
      invariant VlqFrom(data, p, value) == Vlq(data, pos)
      decreases |data| - p
    {
      var b :- ReadUint8(data, p);
      p := b.next;
      value := Shift7(value, b.value);
      if nread != 0 {
        return Err(VlqTooLong);
      }
      if b.value < 0x80 {
        return Ok(Read(value, p));
      }
    }
  }

  /** The canonical VLQ encoding: continuation bytes (bit 7 set) for the
      high 7-bit groups, most significant first, then the low group. */
  function EncodeVlq(v: uint32): (b: Bytes)
    ensures 1 <= |b| <= 5 && b[|b| - 1] == v % 0x80
  {
    assert Pow128(4) == 0x1000_0000;
    ContinuationLength(v / 0x80, 4);
    Continuation(v / 0x80) + [v % 0x80]
  }

  function Continuation(u: nat): (b: Bytes)
    ensures forall k | 0 <= k < |b| :: b[k] >= 0x80
  {
    if u == 0 then [] else Continuation(u / 0x80) + [0x80 + u % 0x80]
  }

  /** Folding a run of bytes into the accumulator, last byte applied last. */
  function Fold(bs: Bytes, acc: uint32): uint32 {
    if bs == [] then acc else Shift7(Fold(bs[..|bs| - 1], acc), bs[|bs| - 1])
  }

  /** A byte with bit 7 set is folded in and reading continues after it. */
  lemma VlqFromContinue(data: Bytes, q: nat, acc: uint32)
    requires q < |data| && data[q] >= 0x80
    ensures VlqFrom(data, q, acc) == VlqFrom(data, q + 1, Shift7(acc, data[q]))
  {
    assert ReadUint8(data, q) == Ok(Read(data[q], q + 1));
  }

  /** A byte below 0x80 is folded in and ends the quantity. */
  lemma VlqFromLast(data: Bytes, q: nat, acc: uint32)
    requires q < |data| && data[q] < 0x80
    ensures VlqFrom(data, q, acc) == Ok(Read(Shift7(acc, data[q]), q + 1))
  {
    assert ReadUint8(data, q) == Ok(Read(data[q], q + 1));
  }

  /** Reading across continuation bytes is folding them. */
  lemma {:induction false} VlqFromSkip(data: Bytes, pos: nat, k: nat, acc: uint32)
    requires pos + k <= |data|
    requires forall i | pos <= i < pos + k :: data[i] >= 0x80
    ensures VlqFrom(data, pos, acc) == VlqFrom(data, pos + k, Fold(data[pos..pos + k], acc))
    decreases k
  {
    if k == 0 {
      assert data[pos..pos] == [];
    } else {
      VlqFromSkip(data, pos, k - 1, acc);
      FoldLast(data, pos, k, acc);
      VlqFromContinue(data, pos + k - 1, Fold(data[pos..pos + k - 1], acc));
    }
  }

  /** Folding a slice is folding all but its last byte, then that byte. */
  lemma FoldLast(data: Bytes, pos: nat, k: nat, acc: uint32)
    requires 0 < k && pos + k <= |data|
    ensures Fold(data[pos..pos + k], acc) == Shift7(Fold(data[pos..pos + k - 1], acc), data[pos + k - 1])
  {
    var run := data[pos..pos + k];
    assert run[..k - 1] == data[pos..pos + k - 1];
  }

  lemma {:induction false} FoldContinuation(u: nat)
    requires u < 0x200_0000
    ensures Fold(Continuation(u), 0) == u
    decreases u
  {
    if u != 0 {
      var c := Continuation(u / 0x80) + [0x80 + u % 0x80];
      assert c[..|c| - 1] == Continuation(u / 0x80);
      FoldContinuation(u / 0x80);
    }
  }

  lemma {:induction false} ContinuationLength(u: nat, n: nat)
    requires u < Pow128(n)
    ensures |Continuation(u)| <= n
    decreases u
  {
    if u != 0 {
      assert n > 0;
      ContinuationLength(u / 0x80, n - 1);
    }
  }

  function Pow128(n: nat): nat {
    if n == 0 then 1 else 0x80 * Pow128(n - 1)
  }

  /** Any value below 2^28 has an encoding of at most four bytes. */
  lemma EncodeVlqLength(v: uint32)
    requires v < 0x1000_0000
    ensures |EncodeVlq(v)| <= 4
  {
    assert Pow128(3) == 0x20_0000;
    ContinuationLength(v / 0x80, 3);
  }

  /** Round trip: the canonical encoding of any uint32 value, followed by
      anything, reads back as that value and consumes exactly the encoding. */
  lemma VlqRoundTrip(prefix: Bytes, v: uint32, rest: Bytes)
    ensures Vlq(prefix + EncodeVlq(v) + rest, |prefix|) == Ok(Read(v, |prefix| + |EncodeVlq(v)|))
  {
    var c := Continuation(v / 0x80);
    var data := prefix + EncodeVlq(v) + rest;
    var p := |prefix|;
    EncodedLayout(prefix, v, rest);
    VlqFromSkip(data, p, |c|, 0);
    FoldContinuation(v / 0x80);
    VlqFromLast(data, p + |c|, v / 0x80);
    Shift7Split(v);
  }

  /** Where the continuation bytes and the last byte of an encoding sit. */
  lemma EncodedLayout(prefix: Bytes, v: uint32, rest: Bytes)
    ensures var c, p := Continuation(v / 0x80), |prefix|;
            var data := prefix + EncodeVlq(v) + rest;
            && |EncodeVlq(v)| == |c| + 1
            && p + |c| < |data|
            && data[p..p + |c|] == c
            && (forall i | p <= i < p + |c| :: data[i] >= 0x80)
            && data[p + |c|] == v % 0x80
  {
    var c := Continuation(v / 0x80);
    var data := prefix + EncodeVlq(v) + rest;
    var p := |prefix|;
    assert EncodeVlq(v) == c + [v % 0x80];
    assert data[p..p + |c|] == c;
    forall i | p <= i < p + |c| ensures data[i] >= 0x80 {
      assert data[i] == c[i - p];
    }
  }

  lemma Shift7Split(v: uint32)
    ensures Shift7(v / 0x80, v % 0x80) == v
  {
    var q, m := v / 0x80, v % 0x80;
    assert q * 0x80 + m == v;
    assert m % 0x80 == m;
    assert (q * 0x80 + m % 0x80) == v;
  }
}
