/**
 The MSB-first bitfield accessors of src/mad/helpers.rs.

 A buffer is read as one long row of bits, the most significant bit of byte 0 first.
 The specification (`Field`, `WithField`) works on that row; the two methods work, as the
 original does, on a window of at most nine bytes gathered into one wide accumulator.
 */
module Bitfield {
  import opened Prelude

  type bit = x: int | 0 <= x < 2

  /** The low `w` bits of `v`, most significant first. */
  function BitsOf(v: nat, w: nat): (s: seq<bit>)
    ensures |s| == w
  {
    if w == 0 then [] else BitsOf(v / 2, w - 1) + [v % 2]
  }

  /** The number a row of bits denotes, most significant bit first. */
  function Val(s: seq<bit>): nat {
    if s == [] then 0 else 2 * Val(s[..|s| - 1]) + s[|s| - 1]
  }

  /** A buffer as a row of bits. */
  function Bits(data: seq<byte>): (s: seq<bit>)
    ensures |s| == 8 * |data|
  {
    if data == [] then [] else Bits(data[..|data| - 1]) + BitsOf(data[|data| - 1], 8)
  }

  /** A buffer as one big-endian number. */
  function BigEndian(data: seq<byte>): nat {
    if data == [] then 0 else 0x100 * BigEndian(data[..|data| - 1]) + data[|data| - 1]
  }

  /** The `n` low bytes of `v`, most significant first. */
  function BytesOf(v: nat, n: nat): (s: seq<byte>)
    ensures |s| == n
  {
    if n == 0 then [] else BytesOf(v / 0x100, n - 1) + [v % 0x100]
  }

  predicate InRange(data: seq<byte>, off: nat, w: nat) {
    1 <= w <= 64 && off + w <= 8 * |data|
  }

  /** The value of bits [off, off + w). */
  function Field(data: seq<byte>, off: nat, w: nat): nat
    requires InRange(data, off, w)
  {
    Val(Bits(data)[off..off + w])
  }

  /** The row of bits with [off, off + w) replaced by the low `w` bits of `v`. */
  function Splice(row: seq<bit>, off: nat, w: nat, v: nat): (s: seq<bit>)
    requires off + w <= |row|
    ensures |s| == |row|
  {
    row[..off] + BitsOf(v, w) + row[off + w..]
  }

  /** The buffer whose bits are those of `data` with [off, off + w) set to `v`. */
  function WithField(data: seq<byte>, off: nat, w: nat, v: nat): (r: seq<byte>)
    requires InRange(data, off, w)
    ensures |r| == |data|
  {
    BytesOf(Val(Splice(Bits(data), off, w, v)), |data|)
  }

  // ---- Shifts and masks, by recursion so that no multiplication is involved ----

  /** `v << n` */
  function Shl(v: nat, n: nat): nat {
    if n == 0 then v else 2 * Shl(v, n - 1)
  }

  /** `v >> n` */
  function Shr(v: nat, n: nat): nat {
    if n == 0 then v else Shr(v / 2, n - 1)
  }

  /** `v & ((1 << n) - 1)` */
  function Low(v: nat, n: nat): nat {
    if n == 0 then 0 else 2 * Low(v / 2, n - 1) + v % 2
  }

  /** `v & !(((1 << w) - 1) << lo)`: bits [lo, lo + w) cleared. */
  function ClearBits(v: nat, lo: nat, w: nat): nat {
    Shl(Shr(v, w + lo), w + lo) + Low(v, lo)
  }

  lemma ModTwice(v: nat, p: nat)
    requires p > 0
    ensures v % (2 * p) == 2 * (v / 2 % p) + v % 2
  {
    var q, r := v / 2 / p, v / 2 % p;
    assert v / 2 == p * q + r;
    assert v == q * (2 * p) + (2 * r + v % 2) by { assert q * (2 * p) == 2 * (p * q); }
    DivModUnique(q, 2 * p, 2 * r + v % 2);
  }

  lemma {:induction false} LowIsMod(v: nat, w: nat)
    ensures Low(v, w) == v % Pow2(w)
  {
    if w > 0 {
      LowIsMod(v / 2, w - 1);
      ModTwice(v, Pow2(w - 1));
    }
  }

  lemma {:induction false} LowSmall(v: nat, n: nat)
    requires v < Pow2(n)
    ensures Low(v, n) == v
  {
    if n > 0 { LowSmall(v / 2, n - 1); }
  }

  lemma {:induction false} ShlAdd(a: nat, b: nat, n: nat)
    ensures Shl(a + b, n) == Shl(a, n) + Shl(b, n)
  {
    if n > 0 { ShlAdd(a, b, n - 1); }
  }

  lemma {:induction false} ShlShl(a: nat, m: nat, n: nat)
    ensures Shl(Shl(a, m), n) == Shl(a, m + n)
  {
    if n > 0 { ShlShl(a, m, n - 1); }
  }

  lemma Shift8(v: nat)
    ensures Shl(v, 8) == 0x100 * v && Shr(v, 8) == v / 0x100
  {
    assert Shl(v, 4) == 2 * Shl(v, 3) == 4 * Shl(v, 2) == 8 * Shl(v, 1) == 16 * v;
    assert Shl(v, 8) == 2 * Shl(v, 7) == 4 * Shl(v, 6) == 8 * Shl(v, 5) == 16 * Shl(v, 4);
    var q := v / 2 / 2 / 2 / 2;
    assert Shr(v, 8) == Shr(v / 2, 7) == Shr(v / 2 / 2, 6) == Shr(v / 2 / 2 / 2, 5) == Shr(q, 4);
    assert Shr(q, 4) == Shr(q / 2, 3) == Shr(q / 2 / 2, 2) == Shr(q / 2 / 2 / 2, 1) == q / 2 / 2 / 2 / 2;
  }

  // ---- Rows of bits and the numbers they denote ----

  lemma {:induction false} ValBound(s: seq<bit>)
    ensures Val(s) < Pow2(|s|)
  {
    if s != [] { ValBound(s[..|s| - 1]); }
  }

  /** Concatenation of rows, read as a shift and an addition, and taken apart again. */
  lemma {:induction false} ValConcat(a: seq<bit>, b: seq<bit>)
    ensures Val(a + b) == Shl(Val(a), |b|) + Val(b)
    ensures Shr(Val(a + b), |b|) == Val(a)
    ensures Low(Val(a + b), |b|) == Val(b)
  {
    if b == [] {
      assert a + b == a;
    } else {
      var n := |b| - 1;
      assert (a + b)[..|a + b| - 1] == a + b[..n];
      ValConcat(a, b[..n]);
    }
  }

  lemma {:induction false} ValBitsOf(v: nat, w: nat)
    ensures Val(BitsOf(v, w)) == Low(v, w)
  {
    if w > 0 {
      ValBitsOf(v / 2, w - 1);
      assert BitsOf(v, w)[..w - 1] == BitsOf(v / 2, w - 1);
    }
  }

  lemma {:induction false} BitsOfVal(s: seq<bit>)
    ensures BitsOf(Val(s), |s|) == s
  {
    if s != [] { BitsOfVal(s[..|s| - 1]); }
  }

  lemma {:induction false} BitsOfSplit(v: nat, a: nat, b: nat)
    ensures BitsOf(v, a + b) == BitsOf(Shr(v, b), a) + BitsOf(v, b)
  {
    if b > 0 { BitsOfSplit(v / 2, a, b - 1); }
  }

  lemma {:induction false} BitsConcat(a: seq<byte>, b: seq<byte>)
    ensures Bits(a + b) == Bits(a) + Bits(b)
  {
    hide BitsOf;
    if b == [] {
      assert a + b == a;
    } else {
      assert (a + b)[..|a + b| - 1] == a + b[..|b| - 1];
      BitsConcat(a, b[..|b| - 1]);
    }
  }

  lemma ValOfByte(b: byte)
    ensures Val(BitsOf(b, 8)) == b
  {
    ValBitsOf(b, 8);
    Pow2Values();
    LowSmall(b, 8);
  }

  lemma {:induction false} ValBits(data: seq<byte>)
    ensures Val(Bits(data)) == BigEndian(data)
  {
    if data != [] {
      var n := |data| - 1;
      ValBits(data[..n]);
      ValConcat(Bits(data[..n]), BitsOf(data[n], 8));
      ValOfByte(data[n]);
      Shift8(BigEndian(data[..n]));
    }
  }

  lemma LowByte(v: nat)
    ensures BitsOf(v, 8) == BitsOf(v % 0x100, 8)
  {
    ValBitsOf(v, 8);
    LowIsMod(v, 8);
    Pow2Values();
    BitsOfVal(BitsOf(v, 8));
  }

  lemma {:induction false} BitsOfBytesOf(v: nat, n: nat)
    ensures Bits(BytesOf(v, n)) == BitsOf(v, 8 * n)
  {
    if n > 0 {
      BitsOfBytesOf(v / 0x100, n - 1);
      assert BytesOf(v, n)[..n - 1] == BytesOf(v / 0x100, n - 1);
      LowByte(v);
      BitsOfSplit(v, 8 * (n - 1), 8);
      Shift8(v);
    }
  }

  /** Two buffers of one length with the same bits are the same buffer. */
  lemma {:induction false} BitsInjective(a: seq<byte>, b: seq<byte>)
    requires |a| == |b| && Bits(a) == Bits(b)
    ensures a == b
  {
    if a != [] {
      var n := |a| - 1;
      SplitEqual(Bits(a[..n]), BitsOf(a[n], 8), Bits(b[..n]), BitsOf(b[n], 8));
      BitsInjective(a[..n], b[..n]);
      ValOfByte(a[n]);
      ValOfByte(b[n]);
    }
  }

  /** The bits of a stretch of whole bytes. */
  lemma BitsOfStretch(data: seq<byte>, lo: nat, hi: nat)
    requires lo <= hi <= |data|
    ensures Bits(data) == Bits(data[..lo]) + Bits(data[lo..hi]) + Bits(data[hi..])
  {
    ThreeParts(data, lo, hi);
    BitsConcat(data[..lo] + data[lo..hi], data[hi..]);
    BitsConcat(data[..lo], data[lo..hi]);
  }

  /** What `WithField` means, bit by bit. */
  lemma BitsOfWithField(data: seq<byte>, off: nat, w: nat, v: nat)
    requires InRange(data, off, w)
    ensures Bits(WithField(data, off, w, v)) == Splice(Bits(data), off, w, v)
  {
    var row := Splice(Bits(data), off, w, v);
    BitsOfBytesOf(Val(row), |data|);
    BitsOfVal(row);
  }

  // ---- The laws of the accessors ----

  /** Reading back what was written gives the value cut to its width. */
  lemma GetSet(data: seq<byte>, off: nat, w: nat, v: nat)
    requires InRange(data, off, w)
    ensures Field(WithField(data, off, w, v), off, w) == v % Pow2(w)
  {
    BitsOfWithField(data, off, w, v);
    assert Splice(Bits(data), off, w, v)[off..off + w] == BitsOf(v, w);
    ValBitsOf(v, w);
    LowIsMod(v, w);
  }

  /** Writing back what was read changes nothing. */
  lemma SetGet(data: seq<byte>, off: nat, w: nat)
    requires InRange(data, off, w)
    ensures WithField(data, off, w, Field(data, off, w)) == data
  {
    var row := Bits(data);
    BitsOfWithField(data, off, w, Field(data, off, w));
    BitsOfVal(row[off..off + w]);
    assert Splice(row, off, w, Field(data, off, w)) == row;
    BitsInjective(WithField(data, off, w, Field(data, off, w)), data);
  }

  /** The last of two writes to one field wins. */
  lemma SetSet(data: seq<byte>, off: nat, w: nat, u: nat, v: nat)
    requires InRange(data, off, w)
    ensures WithField(WithField(data, off, w, u), off, w, v) == WithField(data, off, w, v)
  {
    var once := WithField(data, off, w, u);
    BitsOfWithField(data, off, w, u);
    SpliceTwice(Bits(data), off, w, u, v);
  }

  lemma SpliceTwice(row: seq<bit>, off: nat, w: nat, u: nat, v: nat)
    requires off + w <= |row|
    ensures Splice(Splice(row, off, w, u), off, w, v) == Splice(row, off, w, v)
  {
    var once := Splice(row, off, w, u);
    assert once[..off] == row[..off] && once[off + w..] == row[off + w..];
  }

  predicate Disjoint(off1: nat, w1: nat, off2: nat, w2: nat) {
    off1 + w1 <= off2 || off2 + w2 <= off1
  }

  /** A write leaves every field that shares no bit with it as it was. */
  lemma GetOther(data: seq<byte>, off: nat, w: nat, v: nat, off2: nat, w2: nat)
    requires InRange(data, off, w) && InRange(data, off2, w2) && Disjoint(off, w, off2, w2)
    ensures Field(WithField(data, off, w, v), off2, w2) == Field(data, off2, w2)
  {
    BitsOfWithField(data, off, w, v);
    assert Splice(Bits(data), off, w, v)[off2..off2 + w2] == Bits(data)[off2..off2 + w2];
  }

  /** Writes to fields that share no bit commute. */
  lemma SetCommutes(data: seq<byte>, off1: nat, w1: nat, u: nat, off2: nat, w2: nat, v: nat)
    requires InRange(data, off1, w1) && InRange(data, off2, w2) && Disjoint(off1, w1, off2, w2)
    ensures WithField(WithField(data, off1, w1, u), off2, w2, v)
         == WithField(WithField(data, off2, w2, v), off1, w1, u)
  {
    BitsOfWithField(data, off1, w1, u);
    BitsOfWithField(data, off2, w2, v);
    SpliceCommutes(Bits(data), off1, w1, u, off2, w2, v);
  }

  lemma SpliceCommutes(row: seq<bit>, off1: nat, w1: nat, u: nat, off2: nat, w2: nat, v: nat)
    requires off1 + w1 <= |row| && off2 + w2 <= |row| && Disjoint(off1, w1, off2, w2)
    ensures Splice(Splice(row, off1, w1, u), off2, w2, v) == Splice(Splice(row, off2, w2, v), off1, w1, u)
  {
    if off2 + w2 <= off1 {
      SpliceInOrder(row, off2, w2, BitsOf(v, w2), off1, w1, BitsOf(u, w1));
    } else {
      SpliceInOrder(row, off1, w1, BitsOf(u, w1), off2, w2, BitsOf(v, w2));
    }
  }

  lemma SpliceInOrder(row: seq<bit>, off1: nat, w1: nat, x: seq<bit>, off2: nat, w2: nat, y: seq<bit>)
    requires off1 + w1 <= off2 && off2 + w2 <= |row| && |x| == w1 && |y| == w2
    ensures var first := row[..off1] + x + row[off1 + w1..];
            var second := row[..off2] + y + row[off2 + w2..];
            first[..off2] + y + first[off2 + w2..] == second[..off1] + x + second[off1 + w1..]
  {
  }

  /** A two-bit field is its first bit followed by its second. */
  lemma TwoBits(data: seq<byte>, off: nat)
    requires InRange(data, off, 2)
    ensures Field(data, off, 2) == 2 * Field(data, off, 1) + Field(data, off + 1, 1)
    ensures Field(data, off, 1) < 2 && Field(data, off + 1, 1) < 2
  {
    var row := Bits(data);
    assert row[off..off + 2] == row[off..off + 1] + row[off + 1..off + 2];
    ValConcat(row[off..off + 1], row[off + 1..off + 2]);
    ValBound(row[off..off + 1]);
    ValBound(row[off + 1..off + 2]);
  }

  /** Writing a two-bit field writes its second bit. */
  lemma SetTwoBits(data: seq<byte>, off: nat, v: nat)
    requires InRange(data, off, 2)
    ensures Field(WithField(data, off, 2, v), off + 1, 1) == v % 2
  {
    hide Field, WithField, Pow2;
    GetSet(data, off, 2, v);
    TwoBits(WithField(data, off, 2, v), off);
    Pow2Values();
  }

  /** Writing the second bit of a two-bit field keeps the first. */
  lemma SetSecondBit(data: seq<byte>, off: nat, v: nat)
    requires InRange(data, off, 2)
    ensures Field(WithField(data, off + 1, 1, v), off, 2) == Field(data, off, 2) / 2 * 2 + v % 2
  {
    hide Field, WithField, Pow2;
    GetSet(data, off + 1, 1, v);
    GetOther(data, off + 1, 1, v, off, 1);
    TwoBits(data, off);
    TwoBits(WithField(data, off + 1, 1, v), off);
    Pow2Values();
  }

  // ---- The window of whole bytes the methods work on ----

  /** Shifting the window's number right and masking it leaves the field. */
  lemma FieldOfWindow(head: seq<bit>, mid: seq<bit>, tail: seq<bit>)
    ensures Low(Shr(Val(head + mid + tail), |tail|), |mid|) == Val(mid)
  {
    ValConcat(head + mid, tail);
    ValConcat(head, mid);
  }

  lemma ClearedWindow(head: seq<bit>, mid: seq<bit>, tail: seq<bit>)
    ensures ClearBits(Val(head + mid + tail), |tail|, |mid|) == Shl(Val(head), |mid| + |tail|) + Val(tail)
  {
    ValConcat(head + mid, tail);
    assert head + mid + tail == head + (mid + tail);
    ValConcat(head, mid + tail);
  }

  lemma ThreeDigits(head: seq<bit>, mid: seq<bit>, tail: seq<bit>)
    ensures Val(head + mid + tail)
         == Shl(Val(head), |mid| + |tail|) + Shl(Val(mid), |tail|) + Val(tail)
  {
    ValConcat(head + mid, tail);
    ValConcat(head, mid);
    ShlAdd(Shl(Val(head), |mid|), Val(mid), |tail|);
    ShlShl(Val(head), |mid|, |tail|);
  }

  /** Adding the shifted digits to the cleared window splices the row. */
  lemma SpliceOfWindow(head: seq<bit>, digits: seq<bit>, tail: seq<bit>, w: nat, cleared: nat)
    requires |digits| == w && cleared == Shl(Val(head), w + |tail|) + Val(tail)
    ensures cleared + Shl(Val(digits), |tail|) == Val(head + digits + tail)
  {
    ThreeDigits(head, digits, tail);
  }

  /** Splicing a stretch of a row splices the row. */
  lemma SpliceInside(row: seq<bit>, a: seq<bit>, mid: seq<bit>, c: seq<bit>, off: nat, pre: nat, w: nat, v: nat)
    requires row == a + mid + c && off == |a| + pre && pre + w <= |mid|
    ensures Splice(row, off, w, v) == a + Splice(mid, pre, w, v) + c
  {
    assert row[..off] == a + mid[..pre];
    assert row[off + w..] == mid[pre + w..] + c;
  }

  // ---- get_bitfield and set_bitfield ----

  /** The whole bytes that hold bits [off, off + w): first byte and number of bytes. */
  function WindowStart(off: nat): nat { off / 8 }

  function WindowBytes(off: nat, w: nat): nat { (off % 8 + w + 7) / 8 }

  lemma WindowFits(data: seq<byte>, off: nat, w: nat)
    requires InRange(data, off, w)
    ensures WindowStart(off) + WindowBytes(off, w) <= |data|
    ensures 1 <= WindowBytes(off, w) <= 9
    ensures off % 8 + w <= 8 * WindowBytes(off, w) < off % 8 + w + 8
  {
  }

  /** The accumulator is a u128: a left shift drops what leaves its 128 bits. */
  const U128: nat := 0x1_0000_0000_0000_0000_0000_0000_0000_0000

  lemma BigEndianBound(data: seq<byte>)
    requires |data| <= 8
    ensures BigEndian(data) < 0x1_0000_0000_0000_0000
  {
    ValBits(data);
    FieldFits(Bits(data));
  }

  /** The loop both accessors open with: the bytes [lo, hi) as one big-endian number. */
  method Gather(data: seq<byte>, lo: nat, hi: nat) returns (tmp: nat)
    requires lo <= hi <= |data| && hi - lo <= 9
    ensures tmp == BigEndian(data[lo..hi])
  {
    tmp := 0;
    var i := lo;
    while i < hi
      invariant lo <= i <= hi
      invariant tmp == BigEndian(data[lo..i])
    {
      assert data[lo..i + 1][..i - lo] == data[lo..i];
      BigEndianBound(data[lo..i]);
      tmp := 0x100 * tmp % U128 + data[i];
      i := i + 1;
    }
  }

  method GetBitfield(data: seq<byte>, bitOffset: nat, width: nat) returns (val: u64)
    requires InRange(data, bitOffset, width)
    ensures val == Field(data, bitOffset, width)
  {
    WindowFits(data, bitOffset, width);
    var startByte := bitOffset / 8;
    var posInFirstByte := bitOffset % 8;
    var neededBytes := (posInFirstByte + width + 7) / 8;
    var endByte := startByte + neededBytes;

    var tmp := Gather(data, startByte, endByte);

    var leading := neededBytes * 8 - (posInFirstByte + width);
    FieldOfAccumulator(data, startByte, endByte, posInFirstByte, width, leading);
    val := Low(Shr(tmp, leading), width);
  }

  /** `(tmp >> leading) & ((1 << width) - 1)` is the field, and fits a u64. */
  lemma FieldOfAccumulator(data: seq<byte>, lo: nat, hi: nat, pre: nat, w: nat, leading: nat)
    requires lo <= hi <= |data| && 1 <= w <= 64 && pre + w + leading == 8 * (hi - lo)
    ensures Low(Shr(BigEndian(data[lo..hi]), leading), w) == Field(data, 8 * lo + pre, w)
    ensures Field(data, 8 * lo + pre, w) < 0x1_0000_0000_0000_0000
  {
    var row := Bits(data[lo..hi]);
    ValBits(data[lo..hi]);
    FieldOfRow(row, pre, w, leading);
    FieldFits(row[pre..pre + w]);
    FieldOfStretch(data, lo, hi, 8 * lo + pre, pre, w);
  }

  lemma FieldOfStretch(data: seq<byte>, lo: nat, hi: nat, off: nat, pre: nat, w: nat)
    requires lo <= hi <= |data| && pre + w <= 8 * (hi - lo) && off == 8 * lo + pre
    ensures Bits(data)[off..off + w] == Bits(data[lo..hi])[pre..pre + w]
  {
    BitsOfStretch(data, lo, hi);
    SliceThrough(Bits(data), Bits(data[..lo]), Bits(data[lo..hi]), Bits(data[hi..]), off, pre, w);
  }

  lemma SliceThrough(row: seq<bit>, a: seq<bit>, mid: seq<bit>, c: seq<bit>, off: nat, pre: nat, w: nat)
    requires row == a + mid + c && off == |a| + pre && pre + w <= |mid|
    ensures row[off..off + w] == mid[pre..pre + w]
  {
  }

  lemma FieldOfRow(row: seq<bit>, pre: nat, w: nat, post: nat)
    requires |row| == pre + w + post
    ensures Low(Shr(Val(row), post), w) == Val(row[pre..pre + w])
  {
    ThreeParts(row, pre, pre + w);
    FieldOfWindow(row[..pre], row[pre..pre + w], row[pre + w..]);
  }

  lemma FieldFits(row: seq<bit>)
    requires |row| <= 64
    ensures Val(row) < 0x1_0000_0000_0000_0000
  {
    ValBound(row);
    Pow2Monotone(|row|, 64);
    Pow2Values();
  }

  method SetBitfield(data: array<byte>, bitOffset: nat, width: nat, value: u64)
    requires InRange(data[..], bitOffset, width)
    modifies data
    ensures data[..] == WithField(old(data[..]), bitOffset, width, value)
  {
    hide Shl, ClearBits, Low, BigEndian, WithField, BytesOf;
    ghost var before := data[..];
    WindowFits(before, bitOffset, width);
    MaskedFits(value, width);
    var val := if width < 64 then Low(value, width) else value;
    var startByte := bitOffset / 8;
    var posInFirstByte := bitOffset % 8;
    var neededBytes := (posInFirstByte + width + 7) / 8;
    var endByte := startByte + neededBytes;

    var curVal := Gather(data[..], startByte, endByte);

    var shift := neededBytes * 8 - (posInFirstByte + width);
    ShlFits(val, shift);
    var newVal := ClearBits(curVal, shift, width) + Shl(val, shift) % U128;
    SetResult(before, startByte, endByte, posInFirstByte, width, shift, value, val, newVal);
    Scatter(data, startByte, endByte, newVal);
  }

  lemma ShlFits(val: nat, shift: nat)
    requires val < 0x1_0000_0000_0000_0000 && shift < 8
    ensures Shl(val, shift) < U128
  {
    ShlMonotone(val, shift);
    Shift8(val);
  }

  lemma {:induction false} ShlMonotone(v: nat, n: nat)
    requires n <= 8
    ensures Shl(v, n) <= Shl(v, 8)
    decreases 8 - n
  {
    if n < 8 { ShlMonotone(v, n + 1); }
  }

  lemma MaskedFits(value: u64, w: nat)
    requires 1 <= w <= 64
    ensures Low(value, w) < 0x1_0000_0000_0000_0000
  {
    ValBitsOf(value, w);
    FieldFits(BitsOf(value, w));
  }

  /** Writing `(cur & !mask) | (val << shift)` back over the window gives the specified buffer. */
  lemma SetResult(data: seq<byte>, lo: nat, hi: nat, pre: nat, w: nat, shift: nat, value: u64, val: nat, new_: nat)
    requires lo <= hi <= |data| && 1 <= w <= 64 && pre + w + shift == 8 * (hi - lo)
    requires val == if w < 64 then Low(value, w) else value
    requires new_ == ClearBits(BigEndian(data[lo..hi]), shift, w) + Shl(val, shift)
    ensures WithField(data, 8 * lo + pre, w, value) == data[..lo] + BytesOf(new_, hi - lo) + data[hi..]
  {
    AccumulatorAfter(data[lo..hi], pre, w, shift, value, val);
    WindowAfter(data, lo, hi, 8 * lo + pre, pre, w, value, new_);
  }

  /** The loop `set_bitfield` ends with: the low bytes of `v` over [lo, hi), last byte first. */
  method Scatter(data: array<byte>, lo: nat, hi: nat, v: nat)
    requires lo <= hi <= data.Length
    modifies data
    ensures data[..] == old(data[..lo]) + BytesOf(v, hi - lo) + old(data[hi..])
  {
    var newVal := v;
    var i := hi;
    while i > lo
      invariant lo <= i <= hi
      invariant data[..lo] == old(data[..lo]) && data[hi..] == old(data[hi..])
      invariant BytesOf(newVal, i - lo) + data[i..hi] == BytesOf(v, hi - lo)
    {
      i := i - 1;
      ghost var tail := data[i + 1..hi];
      data[i] := newVal % 0x100;
      assert data[i..hi] == [newVal % 0x100] + tail;
      newVal := newVal / 0x100;
    }
    ThreeParts(data[..], lo, hi);
  }

  /** The bytes written back over the window are the window of the specified buffer. */
  lemma WindowAfter(data: seq<byte>, lo: nat, hi: nat, off: nat, pre: nat, w: nat, value: nat, new_: nat)
    requires lo <= hi <= |data| && 1 <= w <= 64 && pre + w <= 8 * (hi - lo) && off == 8 * lo + pre
    requires new_ == Val(Splice(Bits(data[lo..hi]), pre, w, value))
    ensures WithField(data, off, w, value) == data[..lo] + BytesOf(new_, hi - lo) + data[hi..]
  {
    BitsOfBytesOf(new_, hi - lo);
    BitsOfVal(Splice(Bits(data[lo..hi]), pre, w, value));
    SpliceInBuffer(data, lo, hi, off, pre, w, value);
    AssembledIsWithField(data, off, w, value, BytesOf(new_, hi - lo), lo, hi);
  }

  lemma SpliceInBuffer(data: seq<byte>, lo: nat, hi: nat, off: nat, pre: nat, w: nat, value: nat)
    requires lo <= hi <= |data| && pre + w <= 8 * (hi - lo) && off == 8 * lo + pre
    ensures Splice(Bits(data), off, w, value)
         == Bits(data[..lo]) + Splice(Bits(data[lo..hi]), pre, w, value) + Bits(data[hi..])
  {
    BitsOfStretch(data, lo, hi);
    SpliceInside(Bits(data), Bits(data[..lo]), Bits(data[lo..hi]), Bits(data[hi..]), off, pre, w, value);
  }

  /** `(cur & !mask) | (val << shift)` is the number of the spliced window. */
  lemma AccumulatorAfter(window: seq<byte>, pre: nat, w: nat, shift: nat, value: u64, val: nat)
    requires 1 <= w <= 64 && pre + w + shift == 8 * |window|
    requires val == if w < 64 then Low(value, w) else value
    ensures ClearBits(BigEndian(window), shift, w) + Shl(val, shift)
         == Val(Splice(Bits(window), pre, w, value))
  {
    ValBits(window);
    MaskedValue(value, w, val);
    RowAfter(Bits(window), pre, w, shift, value);
  }

  lemma RowAfter(row: seq<bit>, pre: nat, w: nat, post: nat, value: nat)
    requires |row| == pre + w + post
    ensures ClearBits(Val(row), post, w) + Shl(Val(BitsOf(value, w)), post) == Val(Splice(row, pre, w, value))
  {
    hide BitsOf, Val, Shl, ClearBits;
    ThreeParts(row, pre, pre + w);
    ClearedWindow(row[..pre], row[pre..pre + w], row[pre + w..]);
    SpliceOfWindow(row[..pre], BitsOf(value, w), row[pre + w..], w, ClearBits(Val(row), post, w));
  }

  lemma AssembledIsWithField(data: seq<byte>, off: nat, w: nat, value: nat, window: seq<byte>, lo: nat, hi: nat)
    requires InRange(data, off, w) && lo <= hi <= |data| && |window| == hi - lo
    requires Splice(Bits(data), off, w, value) == Bits(data[..lo]) + Bits(window) + Bits(data[hi..])
    ensures WithField(data, off, w, value) == data[..lo] + window + data[hi..]
  {
    BitsConcat(data[..lo] + window, data[hi..]);
    BitsConcat(data[..lo], window);
    BitsOfWithField(data, off, w, value);
    BitsInjective(data[..lo] + window + data[hi..], WithField(data, off, w, value));
  }

  lemma MaskedValue(value: u64, w: nat, val: nat)
    requires 1 <= w <= 64 && val == if w < 64 then Low(value, w) else value
    ensures Val(BitsOf(value, w)) == val
  {
    ValBitsOf(value, w);
    if w == 64 {
      Pow2Values();
      LowSmall(value, w);
    }
  }
}
