/** Packed bit strings (bitstring.h): a byte array and the byte masks that test, set and clear
    single bits and inclusive ranges of bits. Every operation takes the array and the byte
    offset `base` of the bit string inside it, so several bit strings may share one flat record. */
module BitString {

  // ---------------------------------------------------------------- masks

  /** The mask 1 << k, written out. */
  function BitMask(k: nat): bv8
    requires k < 8
  {
    if k == 0 then 0x01 else if k == 1 then 0x02 else if k == 2 then 0x04 else if k == 3 then 0x08
    else if k == 4 then 0x10 else if k == 5 then 0x20 else if k == 6 then 0x40 else 0x80
  }

  /** The mask 0xff >> (8 - s): the `s` low bits. */
  function LowBits(s: nat): bv8
    requires s <= 8
  {
    if s == 0 then 0x00 else if s == 1 then 0x01 else if s == 2 then 0x03 else if s == 3 then 0x07
    else if s == 4 then 0x0f else if s == 5 then 0x1f else if s == 6 then 0x3f else if s == 7 then 0x7f
    else 0xff
  }

  /** The mask 0xff << s, truncated to a byte: all but the `s` low bits. */
  function HighBits(s: nat): bv8
    requires s <= 8
  {
    if s == 0 then 0xff else if s == 1 then 0xfe else if s == 2 then 0xfc else if s == 3 then 0xf8
    else if s == 4 then 0xf0 else if s == 5 then 0xe0 else if s == 6 then 0xc0 else if s == 7 then 0x80
    else 0x00
  }

  /** The tables are the shifts that the header's macros write. */
  lemma MasksAreShifts(s: nat)
    requires s <= 8
    ensures s < 8 ==> BitMask(s) == (1 as bv8) << s
    ensures LowBits(s) == (0xff as bv8) >> (8 - s)
    ensures HighBits(s) == (0xff as bv8) << s
  {
    if s == 0 {} else if s == 1 {} else if s == 2 {} else if s == 3 {} else if s == 4 {}
    else if s == 5 {} else if s == 6 {} else if s == 7 {} else {}
  }

  /** Bit `k` of one byte. */
  predicate ByteBit(b: bv8, k: nat)
    requires k < 8
  {
    b & BitMask(k) != 0
  }

  /** Bit `n` of a whole record of bytes. */
  predicate BitTest(bytes: seq<bv8>, n: nat)
    requires n / 8 < |bytes|
  {
    ByteBit(bytes[n / 8], n % 8)
  }

  lemma SameByte(a: bv8, b: bv8)
    requires forall k: nat :: k < 8 ==> (ByteBit(a, k) <==> ByteBit(b, k))
    ensures a == b
  {
    assert (ByteBit(a, 0) <==> ByteBit(b, 0)) && (ByteBit(a, 1) <==> ByteBit(b, 1));
    assert (ByteBit(a, 2) <==> ByteBit(b, 2)) && (ByteBit(a, 3) <==> ByteBit(b, 3));
    assert (ByteBit(a, 4) <==> ByteBit(b, 4)) && (ByteBit(a, 5) <==> ByteBit(b, 5));
    assert (ByteBit(a, 6) <==> ByteBit(b, 6)) && (ByteBit(a, 7) <==> ByteBit(b, 7));
  }

  /** The bits determine the bytes. */
  lemma SameBits(a: seq<bv8>, b: seq<bv8>)
    requires |a| == |b| && forall n: nat :: n < 8 * |a| ==> (BitTest(a, n) <==> BitTest(b, n))
    ensures a == b
  {
    forall i | 0 <= i < |a| ensures a[i] == b[i] {
      forall k: nat | k < 8 ensures ByteBit(a[i], k) <==> ByteBit(b[i], k) {
        assert BitTest(a, 8 * i + k) <==> BitTest(b, 8 * i + k);
      }
      SameByte(a[i], b[i]);
    }
  }

  /** Number of bytes that hold `nbits` bits: enough, and never a whole byte too many. */
  function BitstrSize(nbits: nat): (size: nat)
    requires nbits > 0
    ensures forall n: nat :: n < nbits ==> n / 8 < size
    ensures 8 * size < nbits + 8
  {
    (nbits - 1) / 8 + 1
  }

  // ---------------------------------------------------------------- mask algebra

  lemma OrBits(a: bv8, b: bv8, k: nat)
    requires k < 8
    ensures ByteBit(a | b, k) <==> ByteBit(a, k) || ByteBit(b, k)
  {}

  lemma AndBits(a: bv8, b: bv8, k: nat)
    requires k < 8
    ensures ByteBit(a & b, k) <==> ByteBit(a, k) && ByteBit(b, k)
  {}

  lemma SetInByte(b: bv8, j: nat, k: nat)
    requires j < 8 && k < 8
    ensures ByteBit(b | BitMask(j), k) <==> k == j || ByteBit(b, k)
  {}

  lemma ClearInByte(b: bv8, j: nat, k: nat)
    requires j < 8 && k < 8
    ensures ByteBit(b & !BitMask(j), k) <==> k != j && ByteBit(b, k)
  {}

  lemma LowMask(s: nat, k: nat)
    requires s <= 8 && k < 8
    ensures ByteBit(LowBits(s), k) <==> k < s
  {}

  lemma HighMask(s: nat, k: nat)
    requires s <= 8 && k < 8
    ensures ByteBit(HighBits(s), k) <==> s <= k
  {}

  lemma OuterMask(lo: nat, hi: nat, k: nat)
    requires lo <= hi < 8 && k < 8
    ensures ByteBit(LowBits(lo) | HighBits(hi + 1), k) <==> !(lo <= k <= hi)
  {
    LowMask(lo, k);
    HighMask(hi + 1, k);
    OrBits(LowBits(lo), HighBits(hi + 1), k);
  }

  lemma InnerMask(lo: nat, hi: nat, k: nat)
    requires lo <= hi < 8 && k < 8
    ensures ByteBit(HighBits(lo) & LowBits(hi + 1), k) <==> lo <= k <= hi
  {
    HighMask(lo, k);
    LowMask(hi + 1, k);
    AndBits(HighBits(lo), LowBits(hi + 1), k);
  }

  // ---------------------------------------------------------------- single bits

  method BitSet(a: array<bv8>, base: nat, bit: nat)
    requires base + bit / 8 < a.Length
    modifies a
    ensures forall n: nat :: n < 8 * a.Length ==>
              (BitTest(a[..], n) <==> n == 8 * base + bit || old(BitTest(a[..], n)))
  {
    var byte := base + bit / 8;
    var was := a[byte];
    a[byte] := was | BitMask(bit % 8);
    forall k: nat | k < 8
      ensures ByteBit(a[byte], k) <==> k == bit % 8 || ByteBit(was, k)
    {
      SetInByte(was, bit % 8, k);
    }
  }

  method BitClear(a: array<bv8>, base: nat, bit: nat)
    requires base + bit / 8 < a.Length
    modifies a
    ensures forall n: nat :: n < 8 * a.Length ==>
              (BitTest(a[..], n) <==> n != 8 * base + bit && old(BitTest(a[..], n)))
  {
    var byte := base + bit / 8;
    var was := a[byte];
    a[byte] := was & !BitMask(bit % 8);
    forall k: nat | k < 8
      ensures ByteBit(a[byte], k) <==> k != bit % 8 && ByteBit(was, k)
    {
      ClearInByte(was, bit % 8, k);
    }
  }

  // ---------------------------------------------------------------- ranges of bits

  /** `now` is `was` with its bits `lo..hi` set to `value`; the range may start before the byte or
      end after it. */
  ghost predicate Filled(was: bv8, now: bv8, lo: int, hi: int, value: bool) {
    forall k: nat :: k < 8 ==> ByteBit(now, k) == if lo <= k <= hi then value else ByteBit(was, k)
  }

  /** A mask that spares exactly the bits outside `lo..hi` clears them under `&`. */
  lemma FillAnd(b: bv8, mask: bv8, lo: int, hi: int)
    requires forall k: nat :: k < 8 ==> (ByteBit(mask, k) <==> !(lo <= k <= hi))
    ensures Filled(b, b & mask, lo, hi, false)
  {
    forall k: nat | k < 8
      ensures ByteBit(b & mask, k) <==> !(lo <= k <= hi) && ByteBit(b, k)
    { AndBits(b, mask, k); }
  }

  /** A mask that holds exactly the bits of `lo..hi` sets them under `|`. */
  lemma FillOr(b: bv8, mask: bv8, lo: int, hi: int)
    requires forall k: nat :: k < 8 ==> (ByteBit(mask, k) <==> lo <= k <= hi)
    ensures Filled(b, b | mask, lo, hi, true)
  {
    forall k: nat | k < 8
      ensures ByteBit(b | mask, k) <==> lo <= k <= hi || ByteBit(b, k)
    { OrBits(b, mask, k); }
  }

  /** A range inside one byte. */
  lemma ClearMiddle(b: bv8, lo: nat, hi: nat)
    requires lo <= hi < 8
    ensures Filled(b, b & (LowBits(lo) | HighBits(hi + 1)), lo, hi, false)
  {
    var mask := LowBits(lo) | HighBits(hi + 1);
    forall k: nat | k < 8 ensures ByteBit(mask, k) <==> !(lo <= k <= hi) { OuterMask(lo, hi, k); }
    FillAnd(b, mask, lo, hi);
  }

  lemma SetMiddle(b: bv8, lo: nat, hi: nat)
    requires lo <= hi < 8
    ensures Filled(b, b | (HighBits(lo) & LowBits(hi + 1)), lo, hi, true)
  {
    var mask := HighBits(lo) & LowBits(hi + 1);
    forall k: nat | k < 8 ensures ByteBit(mask, k) <==> lo <= k <= hi { InnerMask(lo, hi, k); }
    FillOr(b, mask, lo, hi);
  }

  /** The first byte of a range that goes on into the next. */
  lemma ClearTail(b: bv8, lo: nat, hi: int)
    requires lo < 8 <= hi
    ensures Filled(b, b & LowBits(lo), lo, hi, false)
  {
    var mask := LowBits(lo);
    forall k: nat | k < 8 ensures ByteBit(mask, k) <==> !(lo <= k <= hi) { LowMask(lo, k); }
    FillAnd(b, mask, lo, hi);
  }

  lemma SetTail(b: bv8, lo: nat, hi: int)
    requires lo < 8 <= hi
    ensures Filled(b, b | HighBits(lo), lo, hi, true)
  {
    var mask := HighBits(lo);
    forall k: nat | k < 8 ensures ByteBit(mask, k) <==> lo <= k <= hi { HighMask(lo, k); }
    FillOr(b, mask, lo, hi);
  }

  /** The last byte of a range that began in an earlier one. */
  lemma ClearHead(b: bv8, lo: int, hi: nat)
    requires lo < 0 && hi < 8
    ensures Filled(b, b & HighBits(hi + 1), lo, hi, false)
  {
    var mask := HighBits(hi + 1);
    forall k: nat | k < 8 ensures ByteBit(mask, k) <==> !(lo <= k <= hi) { HighMask(hi + 1, k); }
    FillAnd(b, mask, lo, hi);
  }

  lemma SetHead(b: bv8, lo: int, hi: nat)
    requires lo < 0 && hi < 8
    ensures Filled(b, b | LowBits(hi + 1), lo, hi, true)
  {
    var mask := LowBits(hi + 1);
    forall k: nat | k < 8 ensures ByteBit(mask, k) <==> lo <= k <= hi { LowMask(hi + 1, k); }
    FillOr(b, mask, lo, hi);
  }

  lemma FillWhole(b: bv8, lo: int, hi: int)
    requires lo <= 0 && 7 <= hi
    ensures Filled(b, 0, lo, hi, false)
    ensures Filled(b, 0xff, lo, hi, true)
  {}

  lemma FillNone(b: bv8, lo: int, hi: int, value: bool)
    requires hi < 0 || 7 < lo
    ensures Filled(b, b, lo, hi, value)
  {}

  /** Filling every byte fills exactly the range. */
  lemma FillBits(before: seq<bv8>, after: seq<bv8>, from: nat, to: nat, value: bool)
    requires |after| == |before|
    requires forall i :: 0 <= i < |after| ==> Filled(before[i], after[i], from - 8 * i, to - 8 * i, value)
    ensures forall n: nat :: n < 8 * |after| ==>
              BitTest(after, n) == if from <= n <= to then value else BitTest(before, n)
  {
    forall n: nat | n < 8 * |after|
      ensures BitTest(after, n) == if from <= n <= to then value else BitTest(before, n)
    {
      assert Filled(before[n / 8], after[n / 8], from - 8 * (n / 8), to - 8 * (n / 8), value);
    }
  }

  /** The record after the bytes `first..last` of `was` have been rewritten, the inner ones to
      `inner`, the outer ones to `head` and `tail`. */
  ghost predicate Rewritten(was: seq<bv8>, now: seq<bv8>, first: nat, last: nat, head: bv8, inner: bv8, tail: bv8) {
    && |now| == |was| && first < last < |now|
    && now[first] == head && now[last] == tail
    && (forall i :: first < i < last ==> now[i] == inner)
    && (forall i :: 0 <= i < |now| && !(first <= i <= last) ==> now[i] == was[i])
  }

  /** The record `now` is the record `was` with bits `start..stop` of the bit string at `base` set
      to `value`, and no other bit changed. */
  ghost predicate RangeSet(was: seq<bv8>, now: seq<bv8>, base: nat, start: nat, stop: nat, value: bool) {
    && |now| == |was|
    && (forall n: nat :: n < 8 * |now| ==>
          BitTest(now, n) == if 8 * base + start <= n <= 8 * base + stop then value else BitTest(was, n))
  }

  lemma FillSpan(was: seq<bv8>, now: seq<bv8>, base: nat, start: nat, stop: nat, head: bv8, tail: bv8, value: bool)
    requires Rewritten(was, now, base + start / 8, base + stop / 8, head, if value then 0xff else 0, tail)
    requires Filled(was[base + start / 8], head, start % 8, stop - 8 * (start / 8), value)
    requires Filled(was[base + stop / 8], tail, start - 8 * (stop / 8), stop % 8, value)
    ensures RangeSet(was, now, base, start, stop, value)
  {
    var from, to := 8 * base + start, 8 * base + stop;
    forall i | 0 <= i < |now| ensures Filled(was[i], now[i], from - 8 * i, to - 8 * i, value) {
      if i < base + start / 8 || base + stop / 8 < i {
        FillNone(was[i], from - 8 * i, to - 8 * i, value);
      } else if base + start / 8 < i < base + stop / 8 {
        FillWhole(was[i], from - 8 * i, to - 8 * i);
      }
    }
    FillBits(was, now, from, to, value);
  }

  lemma FillOne(was: seq<bv8>, now: seq<bv8>, base: nat, start: nat, stop: nat, b: bv8, value: bool)
    requires start / 8 == stop / 8 && base + start / 8 < |was| && now == was[base + start / 8 := b]
    requires Filled(was[base + start / 8], b, start % 8, stop % 8, value)
    ensures RangeSet(was, now, base, start, stop, value)
  {
    var from, to := 8 * base + start, 8 * base + stop;
    forall i | 0 <= i < |now| ensures Filled(was[i], now[i], from - 8 * i, to - 8 * i, value) {
      if i != base + start / 8 {
        FillNone(was[i], from - 8 * i, to - 8 * i, value);
      }
    }
    FillBits(was, now, from, to, value);
  }

  lemma NclearWithin(was: seq<bv8>, base: nat, start: nat, stop: nat, b: bv8)
    requires start <= stop && start / 8 == stop / 8 && base + stop / 8 < |was|
    requires b == was[base + start / 8] & (LowBits(start % 8) | HighBits(stop % 8 + 1))
    ensures RangeSet(was, was[base + start / 8 := b], base, start, stop, false)
  {
    ClearMiddle(was[base + start / 8], start % 8, stop % 8);
    FillOne(was, was[base + start / 8 := b], base, start, stop, b, false);
  }

  lemma AcrossBounds(start: nat, stop: nat)
    requires start / 8 < stop / 8
    ensures start - 8 * (stop / 8) < 0 && 7 < stop - 8 * (start / 8)
  {}

  lemma ClearEnds(b: bv8, c: bv8, lo: nat, far: int, near: int, hi: nat)
    requires lo < 8 && 7 < far && near < 0 && hi < 8
    ensures Filled(b, b & LowBits(lo), lo, far, false) && Filled(c, c & HighBits(hi + 1), near, hi, false)
  {
    ClearTail(b, lo, far);
    ClearHead(c, near, hi);
  }

  lemma SetEnds(b: bv8, c: bv8, lo: nat, far: int, near: int, hi: nat)
    requires lo < 8 && 7 < far && near < 0 && hi < 8
    ensures Filled(b, b | HighBits(lo), lo, far, true) && Filled(c, c | LowBits(hi + 1), near, hi, true)
  {
    SetTail(b, lo, far);
    SetHead(c, near, hi);
  }

  lemma NclearAcross(was: seq<bv8>, now: seq<bv8>, base: nat, start: nat, stop: nat, head: bv8, tail: bv8)
    requires start <= stop && base + stop / 8 < |was|
    requires Rewritten(was, now, base + start / 8, base + stop / 8, head, 0, tail)
    requires head == was[base + start / 8] & LowBits(start % 8)
    requires tail == was[base + stop / 8] & HighBits(stop % 8 + 1)
    ensures RangeSet(was, now, base, start, stop, false)
  {
    AcrossBounds(start, stop);
    ClearEnds(was[base + start / 8], was[base + stop / 8], start % 8, stop - 8 * (start / 8), start - 8 * (stop / 8),
              stop % 8);
    FillSpan(was, now, base, start, stop, head, tail, false);
  }

  lemma NsetWithin(was: seq<bv8>, base: nat, start: nat, stop: nat, b: bv8)
    requires start <= stop && start / 8 == stop / 8 && base + stop / 8 < |was|
    requires b == was[base + start / 8] | (HighBits(start % 8) & LowBits(stop % 8 + 1))
    ensures RangeSet(was, was[base + start / 8 := b], base, start, stop, true)
  {
    SetMiddle(was[base + start / 8], start % 8, stop % 8);
    FillOne(was, was[base + start / 8 := b], base, start, stop, b, true);
  }

  lemma NsetAcross(was: seq<bv8>, now: seq<bv8>, base: nat, start: nat, stop: nat, head: bv8, tail: bv8)
    requires start <= stop && base + stop / 8 < |was|
    requires Rewritten(was, now, base + start / 8, base + stop / 8, head, 0xff, tail)
    requires head == was[base + start / 8] | HighBits(start % 8)
    requires tail == was[base + stop / 8] | LowBits(stop % 8 + 1)
    ensures RangeSet(was, now, base, start, stop, true)
  {
    AcrossBounds(start, stop);
    SetEnds(was[base + start / 8], was[base + stop / 8], start % 8, stop - 8 * (start / 8), start - 8 * (stop / 8),
            stop % 8);
    FillSpan(was, now, base, start, stop, head, tail, true);
  }

  /** Clears bits `start..stop`, both included, and no others. */
  method BitNclear(a: array<bv8>, base: nat, start: nat, stop: nat)
    requires start <= stop && base + stop / 8 < a.Length
    modifies a
    ensures RangeSet(old(a[..]), a[..], base, start, stop, false)
  {
    if start / 8 == stop / 8 {
      BitNclearWithin(a, base, start, stop);
    } else {
      BitNclearAcross(a, base, start, stop);
    }
  }

  /** The branch for a range inside one byte. */
  method BitNclearWithin(a: array<bv8>, base: nat, start: nat, stop: nat)
    requires start <= stop && start / 8 == stop / 8 && base + stop / 8 < a.Length
    modifies a
    ensures RangeSet(old(a[..]), a[..], base, start, stop, false)
  {
    var startByte := base + start / 8;
    var b := a[startByte] & (LowBits(start % 8) | HighBits(stop % 8 + 1));
    a[startByte] := b;
    NclearWithin(old(a[..]), base, start, stop, b);
  }

  /** The branch for a range that spans several bytes. */
  method BitNclearAcross(a: array<bv8>, base: nat, start: nat, stop: nat)
    requires start <= stop && start / 8 < stop / 8 && base + stop / 8 < a.Length
    modifies a
    ensures RangeSet(old(a[..]), a[..], base, start, stop, false)
  {
    var startByte, stopByte := base + start / 8, base + stop / 8;
    var head := a[startByte] & LowBits(start % 8);
    a[startByte] := head;
    var byte := startByte + 1;
    while byte < stopByte
      invariant startByte < byte <= stopByte
      invariant a[startByte] == head
      invariant forall i :: startByte < i < byte ==> a[i] == 0
      invariant forall i :: 0 <= i < a.Length && !(startByte <= i < byte) ==> a[i] == old(a[i])
    {
      a[byte] := 0;
      byte := byte + 1;
    }
    var tail := a[stopByte] & HighBits(stop % 8 + 1);
    a[stopByte] := tail;
    NclearAcross(old(a[..]), a[..], base, start, stop, head, tail);
  }

  /** Sets bits `start..stop`, both included, and no others. */
  method BitNset(a: array<bv8>, base: nat, start: nat, stop: nat)
    requires start <= stop && base + stop / 8 < a.Length
    modifies a
    ensures RangeSet(old(a[..]), a[..], base, start, stop, true)
  {
    if start / 8 == stop / 8 {
      BitNsetWithin(a, base, start, stop);
    } else {
      BitNsetAcross(a, base, start, stop);
    }
  }

  /** The branch for a range inside one byte. */
  method BitNsetWithin(a: array<bv8>, base: nat, start: nat, stop: nat)
    requires start <= stop && start / 8 == stop / 8 && base + stop / 8 < a.Length
    modifies a
    ensures RangeSet(old(a[..]), a[..], base, start, stop, true)
  {
    var startByte := base + start / 8;
    var b := a[startByte] | (HighBits(start % 8) & LowBits(stop % 8 + 1));
    a[startByte] := b;
    NsetWithin(old(a[..]), base, start, stop, b);
  }

  /** The branch for a range that spans several bytes. */
  method BitNsetAcross(a: array<bv8>, base: nat, start: nat, stop: nat)
    requires start <= stop && start / 8 < stop / 8 && base + stop / 8 < a.Length
    modifies a
    ensures RangeSet(old(a[..]), a[..], base, start, stop, true)
  {
    var startByte, stopByte := base + start / 8, base + stop / 8;
    var head := a[startByte] | HighBits(start % 8);
    a[startByte] := head;
    var byte := startByte + 1;
    while byte < stopByte
      invariant startByte < byte <= stopByte
      invariant a[startByte] == head
      invariant forall i :: startByte < i < byte ==> a[i] == 0xff
      invariant forall i :: 0 <= i < a.Length && !(startByte <= i < byte) ==> a[i] == old(a[i])
    {
      a[byte] := 0xff;
      byte := byte + 1;
    }
    var tail := a[stopByte] | LowBits(stop % 8 + 1);
    a[stopByte] := tail;
    NsetAcross(old(a[..]), a[..], base, start, stop, head, tail);
  }

  // ---------------------------------------------------------------- searches

  lemma ShiftedBit(b: bv8, k: nat)
    requires k < 8
    ensures ByteBit(b, k) <==> (b >> k) & 1 != 0
    ensures k < 7 ==> (b >> k) >> 1 == b >> (k + 1)
  {
    if k == 0 {} else if k == 1 {} else if k == 2 {} else if k == 3 {}
    else if k == 4 {} else if k == 5 {} else if k == 6 {} else {}
  }

  /** A byte is zero exactly when no bit of it is set, and 0xff exactly when every bit is. */
  lemma ExtremeBytes(b: bv8)
    ensures b == 0 <==> forall k: nat :: k < 8 ==> !ByteBit(b, k)
    ensures b == 0xff <==> forall k: nat :: k < 8 ==> ByteBit(b, k)
  {
    assert ByteBit(b, 0) <==> b & 0x01 != 0;
    assert ByteBit(b, 1) <==> b & 0x02 != 0;
    assert ByteBit(b, 2) <==> b & 0x04 != 0;
    assert ByteBit(b, 3) <==> b & 0x08 != 0;
    assert ByteBit(b, 4) <==> b & 0x10 != 0;
    assert ByteBit(b, 5) <==> b & 0x20 != 0;
    assert ByteBit(b, 6) <==> b & 0x40 != 0;
    assert ByteBit(b, 7) <==> b & 0x80 != 0;
  }

  /** The least bit with value `sought` among those of bytes `0..stopByte`, or -1. */
  ghost predicate IsFirstBit(bytes: seq<bv8>, base: nat, stopByte: nat, sought: bool, value: int)
    requires base + stopByte < |bytes|
  {
    && -1 <= value < 8 * stopByte + 8
    && (value >= 0 ==> BitTest(bytes, 8 * base + value) == sought)
    && (forall n: nat :: 8 * base <= n < 8 * base + (if value < 0 then 8 * stopByte + 8 else value)
          ==> BitTest(bytes, n) != sought)
  }

  /** The scan looks at every bit of the byte that holds bit `nbits`, so it may answer with a
      bit at or beyond `nbits`. */
  method BitFfs(a: array<bv8>, base: nat, nbits: nat) returns (value: int)
    requires base + nbits / 8 < a.Length
    ensures IsFirstBit(a[..], base, nbits / 8, true, value)
  {
    var stopByte := nbits / 8;
    value := -1;
    var byte := 0;
    while byte <= stopByte
      invariant 0 <= byte <= stopByte + 1
      invariant value == -1
      invariant forall n: nat :: 8 * base <= n < 8 * base + 8 * byte ==> !BitTest(a[..], n)
    {
      ExtremeBytes(a[base + byte]);
      if a[base + byte] != 0 {
        value := FirstOne(a[base + byte]);
        value := 8 * byte + value;
        return;
      }
      byte := byte + 1;
    }
  }

  method FirstOne(b: bv8) returns (k: nat)
    requires b != 0
    ensures k < 8 && ByteBit(b, k)
    ensures forall i: nat :: i < k ==> !ByteBit(b, i)
  {
    ExtremeBytes(b);
    k := 0;
    var rest := b;
    while rest & 1 == 0
      invariant k < 8 && rest == b >> k
      invariant forall i: nat :: i < k ==> !ByteBit(b, i)
      decreases 8 - k
    {
      ShiftedBit(b, k);
      assert k < 7;
      k, rest := k + 1, rest >> 1;
    }
    ShiftedBit(b, k);
  }

  method BitFfc(a: array<bv8>, base: nat, nbits: nat) returns (value: int)
    requires base + nbits / 8 < a.Length
    ensures IsFirstBit(a[..], base, nbits / 8, false, value)
  {
    var stopByte := nbits / 8;
    value := -1;
    var byte := 0;
    while byte <= stopByte
      invariant 0 <= byte <= stopByte + 1
      invariant value == -1
      invariant forall n: nat :: 8 * base <= n < 8 * base + 8 * byte ==> BitTest(a[..], n)
    {
      ExtremeBytes(a[base + byte]);
      if a[base + byte] != 0xff {
        value := FirstZero(a[base + byte]);
        value := 8 * byte + value;
        return;
      }
      byte := byte + 1;
    }
  }

  method FirstZero(b: bv8) returns (k: nat)
    requires b != 0xff
    ensures k < 8 && !ByteBit(b, k)
    ensures forall i: nat :: i < k ==> ByteBit(b, i)
  {
    ExtremeBytes(b);
    k := 0;
    var rest := b;
    while rest & 1 != 0
      invariant k < 8 && rest == b >> k
      invariant forall i: nat :: i < k ==> ByteBit(b, i)
      decreases 8 - k
    {
      ShiftedBit(b, k);
      assert k < 7;
      k, rest := k + 1, rest >> 1;
    }
    ShiftedBit(b, k);
  }
}
