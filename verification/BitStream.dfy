/**
 The EXI bit stream inside a byte buffer: the bit-level writer of
 core/exi_output.c and the bit-level reader of core/exi_parse.c.

 A writer denotes the bits it has written, a reader the bits of its buffer and a
 position in them. Both keep a byte pointer and a bit offset from 0 to 7.
 */
module BitStream {
  import opened Words

  // ---- one partly filled byte ----

  /** A byte whose low `k` bits are still clear. */
  predicate Clear(c: nat, k: nat) { c == Shl(Shr(c, k), k) }

  /** Two pieces of a byte, one above the other, both left-aligned above `k` clear bits. */
  lemma OrPieces(hi: nat, v: nat, m: nat, k: nat)
    requires v < Pow2(m)
    ensures Or(Shl(hi, m + k), Shl(v, k)) == Shl(Shl(hi, m) + v, k)
  {
    ShlShl(hi, m, k);
    ShlOr(Shl(hi, m), v, k);
    OrLow(hi, v, m);
  }

  lemma {:induction false} ClearZero(k: nat)
    ensures Shr(0, k) == 0 && Shl(0, k) == 0
  {
    if k > 0 { ClearZero(k - 1); }
  }

  lemma ShlClear(y: nat, k: nat)
    ensures Shr(Shl(y, k), k) == y && Clear(Shl(y, k), k)
  {
    ShlJoin(y, 0, 0, k);
  }

  /** Adding `m` bits below the ones already in the high part of a byte. */
  lemma PartialByte(c: byte, bit: nat, v: nat, m: nat, k: nat)
    requires bit + m + k == 8 && Clear(c, m + k) && v < Pow2(m)
    ensures Or(c, Shl(v, k)) < 256
    ensures Clear(Or(c, Shl(v, k)), k)
    ensures NBits(Shr(Or(c, Shl(v, k)), k), bit + m) == NBits(Shr(c, m + k), bit) + NBits(v, m)
  {
    hide Shl, Shr, Or, NBits, Pow2;
    var hi := Shr(c, m + k);
    var y := Shl(hi, m) + v;
    OrPieces(hi, v, m, k);
    ShlClear(y, k);
    ShlJoin(hi, v, bit, m);
    assert hi < Pow2(bit) by { Pow2Values(); ShrBound(c, 8, m + k); }
    assert y < Pow2(bit + m) by { ShlBound(hi, bit, m); }
    assert Shl(y, k) < 256 by { Pow2Values(); ShlBound(y, bit + m, k); }
  }

  /** The truncated left shift of a byte keeps its low bits. */
  lemma ShlByte(x: nat, k: nat, j: nat)
    requires k + j == 8
    ensures Shl(x, j) % 256 == Shl(x % Pow2(k), j)
  {
    hide Shl, Shr, Or, NBits, Pow2;
    var hi, lo := Shr(x, k), x % Pow2(k);
    ShrSplit(x, k);
    ShlOr(Shl(hi, k), lo, j);
    ShlShl(hi, k, j);
    ShlBound(lo, k, j);
    ShlJoin(hi, Shl(lo, j), 0, k + j);
    assert Pow2(k + j) == 256 by { Pow2Values(); }
  }

  lemma NoShift(x: nat)
    ensures Shl(x, 0) == x && Shr(x, 0) == x && NBits(x, 0) == []
  {
  }

  lemma OneBit(b: bool)
    ensures NBits(if b then 1 else 0, 1) == [b] && Pow2(1) == 2
  {
    Pow2Values();
    assert NBits(0, 0) == [];
  }

  /** Whole bytes followed by the used part of a last one. */
  ghost function LowPart(bytes: seq<byte>, last: byte, m: nat): seq<bool>
    requires m <= 8
  {
    StreamBits(bytes) + NBits(Shr(last, 8 - m), m)
  }

  lemma LowPartStep(b: byte, bytes: seq<byte>, last: byte, m: nat)
    requires m <= 8
    ensures LowPart([b] + bytes, last, m) == NBits(b, 8) + LowPart(bytes, last, m)
  {
    hide NBits, Shr;
    StreamBitsConcat([b], bytes);
    assert StreamBits([b]) == StreamBits([]) + NBits(b, 8);
  }

  /** The eight bits of a word above its lowest `done`. */
  lemma NextByte(bits: nat, done: nat)
    ensures Or(0, Shr(bits, done) % 256) == Shr(bits, done) % 256
    ensures NBits(Shr(bits, done) % 256, 8) + NBits(bits, done) == NBits(bits, 8 + done)
  {
    assert forall x: nat :: Or(0, x) == x;
    assert Pow2(8) == 256 by { Pow2Values(); }
    hide Shr, NBits, Pow2, Or;
    NBitsSplit(bits, 8, done);
    NBitsMod(Shr(bits, done), 8);
  }

  /** What is left of a word fills up the first byte. */
  lemma FirstByte(c: byte, bit: nat, bits: nat, n: nat, done: nat)
    requires bit < 8 && Clear(c, 8 - bit) && n == 8 - bit + done && bits < Pow2(n)
    ensures var v := Shr(bits, done) % 256;
            Or(c, v) < 256 && NBits(Or(c, v), 8) + NBits(bits, done) == NBits(Shr(c, 8 - bit), bit) + NBits(bits, n)
  {
    hide Shr, NBits, Pow2, Or, Shl, Clear;
    var x := Shr(bits, done);
    ShrBound(bits, n, done);
    assert x < 256 by { Pow2Monotone(8 - bit, 8); Pow2Values(); }
    PartialByte(c, bit, x, 8 - bit, 0);
    NoShift(x);
    NoShift(Or(c, x));
    NBitsSplit(bits, 8 - bit, done);
  }

  // ---- the written part of a buffer ----

  /** Everything after bit `bit` of byte `ptr` is still zero, as `exi_output_header` left it. */
  ghost predicate ValidAt(s: seq<byte>, ptr: nat, bit: nat) {
    && ptr < |s|
    && bit < 8
    && Clear(s[ptr], 8 - bit)
    && forall j :: ptr < j < |s| ==> s[j] == 0
  }

  ghost function WrittenAt(s: seq<byte>, ptr: nat, bit: nat): (w: seq<bool>)
    requires ValidAt(s, ptr, bit)
    ensures |w| == 8 * ptr + bit
  {
    LowPart(s[..ptr], s[ptr], bit)
  }

  /** One more piece of `m` bits inside the current byte, leaving `k` bits free. */
  lemma PutPiece(s: seq<byte>, ptr: nat, bit: nat, v: nat, m: nat, k: nat)
    requires ValidAt(s, ptr, bit) && bit + m + k == 8 && k > 0 && v < Pow2(m)
    ensures Or(s[ptr], Shl(v, k)) < 256
    ensures var s' := s[ptr := Or(s[ptr], Shl(v, k))];
            ValidAt(s', ptr, bit + m) && WrittenAt(s', ptr, bit + m) == WrittenAt(s, ptr, bit) + NBits(v, m)
  {
    hide Shl, Shr, Or, NBits, Pow2, Clear;
    PartialByte(s[ptr], bit, v, m, k);
    var s' := s[ptr := Or(s[ptr], Shl(v, k))];
    assert s'[..ptr] == s[..ptr];
  }

  lemma ZeroIsClear(k: nat)
    ensures Clear(0, k) && NBits(Shr(0, k), 0) == []
  {
    ClearZero(k);
  }

  /** The last piece of the current byte. */
  lemma PutLast(s: seq<byte>, ptr: nat, bit: nat, v: nat, m: nat)
    requires ValidAt(s, ptr, bit) && bit + m == 8 && ptr + 1 < |s| && v < Pow2(m)
    ensures Or(s[ptr], v) < 256
    ensures var s' := s[ptr := Or(s[ptr], v)];
            ValidAt(s', ptr + 1, 0) && WrittenAt(s', ptr + 1, 0) == WrittenAt(s, ptr, bit) + NBits(v, m)
  {
    hide Shl, Shr, Or, NBits, Pow2, Clear;
    PartialByte(s[ptr], bit, v, m, 0);
    NoShift(v);
    NoShift(Or(s[ptr], v));
    ZeroIsClear(8);
    var s' := s[ptr := Or(s[ptr], v)];
    assert s'[..ptr + 1] == s[..ptr] + [s'[ptr]];
  }

  /** A run of bytes written after the current one, and then part of a last byte. */
  lemma PutBytes(s: seq<byte>, s': seq<byte>, ptr: nat, bit: nat, i: nat, m: nat, bits: seq<bool>)
    requires ValidAt(s, ptr, bit) && i > 0 && ptr + i < |s| == |s'| && m < 8
    requires s'[..ptr] == s[..ptr] && Clear(s'[ptr + i], 8 - m)
    requires forall j :: ptr + i < j < |s'| ==> s'[j] == 0
    requires LowPart(s'[ptr..ptr + i], s'[ptr + i], m) == NBits(Shr(s[ptr], 8 - bit), bit) + bits
    ensures ValidAt(s', ptr + i, m) && WrittenAt(s', ptr + i, m) == WrittenAt(s, ptr, bit) + bits
  {
    hide Shl, Shr, Or, NBits, Pow2, Clear;
    StreamBitsConcat(s[..ptr], s'[ptr..ptr + i]);
    assert s'[..ptr + i] == s[..ptr] + s'[ptr..ptr + i];
    var head := StreamBits(s[..ptr]);
    calc {
      WrittenAt(s', ptr + i, m);
      head + StreamBits(s'[ptr..ptr + i]) + NBits(Shr(s'[ptr + i], 8 - m), m);
      head + LowPart(s'[ptr..ptr + i], s'[ptr + i], m);
      head + (NBits(Shr(s[ptr], 8 - bit), bit) + bits);
      WrittenAt(s, ptr, bit) + bits;
    }
  }

  lemma InRange(s: seq<byte>, ptr: nat, bit: nat)
    requires ValidAt(s, ptr, bit)
    ensures bit < 8 && ptr < |s| && Clear(s[ptr], 8 - bit)
    ensures forall j :: ptr < j < |s| ==> s[j] == 0
    ensures bit == 0 ==> s[ptr] == 0
    ensures forall x: nat :: Or(0, x) == x
  {
    if bit == 0 { Pow2Values(); ShrBound(s[ptr], 8, 8); assert Shr(s[ptr], 8) == 0; ClearZero(8); }
  }

  /** How a byte that straddles a byte boundary is cut. */
  lemma ByteHalves(b: byte, bit: nat)
    requires 0 < bit < 8
    ensures Shr(b, bit) < Pow2(8 - bit)
    ensures Shl(b, 8 - bit) % 256 == Shl(b % Pow2(bit), 8 - bit)
    ensures NBits(b, 8) == NBits(Shr(b, bit), 8 - bit) + NBits(b % Pow2(bit), bit)
  {
    assert Pow2(8) == 256 by { Pow2Values(); }
    hide Shl, Shr, NBits, Pow2;
    ShrBound(b, 8, bit);
    ShlByte(b, bit, 8 - bit);
    NBitsSplit(b, 8 - bit, bit);
    NBitsMod(b, bit);
  }

  /** `OutputBits` when the bits end inside the current byte. */
  lemma WithinByte(s: seq<byte>, ptr: nat, bit: nat, bits: nat, n: nat)
    requires ValidAt(s, ptr, bit) && 0 < bit + n < 8 && bits < Pow2(n)
    ensures var v := Or(s[ptr], Shl(bits, 8 - (bit + n)) % 256);
            && v < 256
            && ValidAt(s[ptr := v], ptr, bit + n)
            && WrittenAt(s[ptr := v], ptr, bit + n) == WrittenAt(s, ptr, bit) + NBits(bits, n)
  {
    hide Shl, Shr, Or, NBits, Pow2, Clear, LowPart, ValidAt, WrittenAt;
    var k := 8 - (bit + n);
    PutPiece(s, ptr, bit, bits, n, k);
    assert Shl(bits, k) < 256 by {
      ShlBound(bits, n, k);
      Pow2Monotone(n + k, 8);
      Pow2Values();
    }
  }

  /** The last byte of `OutputBits`, which holds the low `m` bits. */
  lemma LastByte(c: byte, bits: nat, m: nat)
    requires c == 0 && 0 < m < 8
    ensures var v := Or(c, Shl(bits, 8 - m) % 256);
            v < 256 && Clear(v, 8 - m) && LowPart([], v, m) == NBits(bits, m)
  {
    hide Shl, Shr, Or, NBits, Pow2, Clear;
    ShlByte(bits, m, 8 - m);
    NBitsMod(bits, m);
    ZeroIsClear(8);
    PartialByte(c, 0, bits % Pow2(m), m, 8 - m);
  }

  /** When the bits end on a byte boundary the byte after them is untouched. */
  lemma WholeBytes(s: seq<byte>, ptr: nat, bit: nat, bits: nat, n: nat)
    requires ValidAt(s, ptr, bit) && (bit + n) % 8 == 0 && ptr + (bit + n) / 8 < |s|
    ensures n == 0 ==> WrittenAt(s, ptr, bit) == WrittenAt(s, ptr, bit) + NBits(bits, n)
    ensures n == 0 ==> bit == 0
    ensures n > 0 ==> (bit + n) / 8 > 0 && Clear(s[ptr + (bit + n) / 8], 8) && LowPart([], s[ptr + (bit + n) / 8], 0) == NBits(bits, 0)
    ensures Shr(bits, 0) == bits
  {
    ZeroIsClear(8);
  }

  /** A word of `n` bits to be written at a byte and bit position. */
  datatype Word = Word(ptr: nat, bit: nat, bits: nat, n: nat) {
    /** How many bytes further the word ends, and at which bit. */
    function Last(): nat { (bit + n) / 8 }
    function Offset(): nat { (bit + n) % 8 }
  }

  /** The bytes of `w` are in place from index `i` up, and those below are as before. */
  ghost predicate FilledDownTo(was: seq<byte>, s: seq<byte>, w: Word, i: nat)
  {
    var last, m := w.Last(), w.Offset();
    && w.ptr + last < |s| == |was|
    && 0 < last && i <= last && w.bit < 8
    && Clear(s[w.ptr + last], 8 - m)
    && s[..w.ptr] == was[..w.ptr]
    && (forall j :: w.ptr < j < w.ptr + i ==> s[j] == 0)
    && (forall j :: w.ptr + last < j < |s| ==> s[j] == 0)
    && (i > 0 ==> s[w.ptr] == was[w.ptr])
    && LowPart(s[w.ptr + i..w.ptr + last], s[w.ptr + last], m)
       == if i > 0 then NBits(w.bits, m + 8 * (last - i)) else NBits(Shr(was[w.ptr], 8 - w.bit), w.bit) + NBits(w.bits, w.n)
  }

  lemma FilledInitially(was: seq<byte>, s: seq<byte>, w: Word)
    requires ValidAt(was, w.ptr, w.bit) && w.ptr + w.Last() < |s| && w.Last() > 0
    requires |s| == |was| && s == was[w.ptr + w.Last() := s[w.ptr + w.Last()]]
    requires Clear(s[w.ptr + w.Last()], 8 - w.Offset())
    requires LowPart([], s[w.ptr + w.Last()], w.Offset()) == NBits(w.bits, w.Offset())
    ensures FilledDownTo(was, s, w, w.Last())
  {
    hide Shl, Shr, Or, NBits, Pow2, Clear, LowPart;
    var e := w.ptr + w.Last();
    assert s[e..e] == [];
  }

  lemma FilledStep(was: seq<byte>, s: seq<byte>, w: Word, i: nat)
    requires FilledDownTo(was, s, w, i + 1) && ValidAt(was, w.ptr, w.bit) && w.bits < Pow2(w.n)
    ensures var v := Or(s[w.ptr + i], Shr(w.bits, w.Offset() + 8 * (w.Last() - i - 1)) % 256);
            v < 256 && FilledDownTo(was, s[w.ptr + i := v], w, i)
  {
    hide Shl, Shr, Or, NBits, Pow2, Clear, LowPart;
    var e, done := w.ptr + w.Last(), w.Offset() + 8 * (w.Last() - i - 1);
    if i == 0 {
      assert w.n == 8 - w.bit + done;
      FirstByte(was[w.ptr], w.bit, w.bits, w.n, done);
    } else {
      NextByte(w.bits, done);
    }
    var v: byte := Or(s[w.ptr + i], Shr(w.bits, done) % 256);
    var s' := s[w.ptr + i := v];
    assert s'[w.ptr + i..e] == [v] + s[w.ptr + i + 1..e];
    LowPartStep(v, s[w.ptr + i + 1..e], s[e], w.Offset());
  }

  lemma FilledDone(was: seq<byte>, s: seq<byte>, w: Word)
    requires FilledDownTo(was, s, w, 0) && ValidAt(was, w.ptr, w.bit)
    ensures ValidAt(s, w.ptr + w.Last(), w.Offset())
    ensures WrittenAt(s, w.ptr + w.Last(), w.Offset()) == WrittenAt(was, w.ptr, w.bit) + NBits(w.bits, w.n)
  {
    hide Shl, Shr, Or, NBits, Pow2, Clear, LowPart;
    PutBytes(was, s, w.ptr, w.bit, w.Last(), w.Offset(), NBits(w.bits, w.n));
  }

  // ---- writer ----

  class BitWriter {
    const buf: array<byte>
    var ptr: nat
    var bit: nat

    ghost predicate Valid()
      reads this, buf
    {
      ValidAt(buf[..], ptr, bit)
    }

    /** The bits written so far. */
    ghost function Written(): (w: seq<bool>)
      requires Valid()
      reads this, buf
      ensures |w| == 8 * ptr + bit
    {
      WrittenAt(buf[..], ptr, bit)
    }

    constructor (size: nat)
      requires size > 0
      ensures Valid() && fresh(buf) && buf.Length == size && Written() == []
    {
      buf := new byte[size](_ => 0);
      ptr, bit := 0, 0;
      new;
      ClearZero(8);
    }

    method OutputBit(b: bool)
      requires Valid() && ptr + 1 < buf.Length
      modifies `ptr, `bit, buf
      ensures Valid() && Written() == old(Written()) + [b]
    {
      hide Shl, Shr, Or, NBits, Pow2, Clear, LowPart, ValidAt, WrittenAt;
      var v := if b then 1 else 0;
      OneBit(b);
      assert bit < 8 by { InRange(buf[..], ptr, bit); }
      if bit == 7 {
        PutLast(buf[..], ptr, bit, v, 1);
        buf[ptr] := Or(buf[ptr], v);
        ptr := ptr + 1;
        bit := 0;
      } else {
        PutPiece(buf[..], ptr, bit, v, 1, 7 - bit);
        buf[ptr] := Or(buf[ptr], Shl(v, 7 - bit));
        bit := bit + 1;
      }
    }

    method OutputByte(b: byte)
      requires Valid() && ptr + 1 < buf.Length
      modifies `ptr, buf
      ensures Valid() && Written() == old(Written()) + NBits(b, 8)
    {
      hide Shl, Shr, Or, NBits, Pow2, Clear, LowPart, ValidAt, WrittenAt;
      InRange(buf[..], ptr, bit);
      if bit > 0 {
        var hi, lo := Shr(b, bit), Shl(b, 8 - bit) % 256;
        ByteHalves(b, bit);
        PutLast(buf[..], ptr, bit, hi, 8 - bit);
        buf[ptr] := Or(buf[ptr], hi);
        ptr := ptr + 1;
        PutPiece(buf[..], ptr, 0, b % Pow2(bit), bit, 8 - bit);
        InRange(buf[..], ptr, 0);
        buf[ptr] := lo;
      } else {
        Pow2Values();
        PutLast(buf[..], ptr, 0, b, 8);
        InRange(buf[..], ptr, 0);
        buf[ptr] := b;
        ptr := ptr + 1;
      }
    }

    /** Writes the low `n` bits of `bits`, last byte first. */
    method OutputBits(bits: nat, n: nat)
      requires Valid() && bits < Pow2(n) && ptr + (bit + n) / 8 < buf.Length
      modifies `ptr, `bit, buf
      ensures Valid() && Written() == old(Written()) + NBits(bits, n)
    {
      hide Shl, Shr, Or, NBits, Pow2, Clear, LowPart, ValidAt, WrittenAt, FilledDownTo;
      InRange(buf[..], ptr, bit);
      ghost var was, w := buf[..], Word(ptr, bit, bits, n);
      var m, i, start := (bit + n) % 8, (bit + n) / 8, ptr;
      var x := bits;
      bit, ptr := m, ptr + i;
      if m > 0 {
        if i == 0 { WithinByte(was, start, w.bit, bits, n); } else { LastByte(was[ptr], bits, m); }
        buf[ptr] := Or(buf[ptr], Shl(x, 8 - m) % 256);
        x := Shr(x, m);
      } else {
        WholeBytes(was, start, w.bit, bits, n);
      }
      if i == 0 { return; }
      FilledInitially(was, buf[..], w);
      while i > 0
        invariant 0 <= i <= w.Last() && start == w.ptr && ptr == start + w.Last() && bit == m == w.Offset()
        invariant x == Shr(bits, m + 8 * (w.Last() - i))
        invariant FilledDownTo(was, buf[..], w, i)
      {
        i := i - 1;
        FilledStep(was, buf[..], w, i);
        buf[start + i] := Or(buf[start + i], x % 256);
        ShrShr(bits, m + 8 * (w.Last() - i - 1), 8);
        x := Shr(x, 8);
      }
      FilledDone(was, buf[..], w);
    }
  }

  // ---- reader ----

  /** The value of the `n` bits at position `pos`. */
  function Peek(bits: seq<bool>, pos: nat, n: nat): nat
    requires pos + n <= |bits|
  {
    Val(bits[pos..pos + n])
  }

  lemma Inside<T>(a: seq<T>, m: seq<T>, b: seq<T>, i: nat, n: nat)
    requires i + n <= |m|
    ensures (a + m + b)[|a| + i..|a| + i + n] == m[i..i + n]
  {
    var s := a + m + b;
    var v, w := s[|a| + i..|a| + i + n], m[i..i + n];
    forall k | 0 <= k < n ensures v[k] == w[k] {
      assert v[k] == s[|a| + i + k] == m[i + k];
    }
    assert v == w;
  }

  /** Bits of a run of bytes that lie inside a part `m` of it. */
  lemma PeekInside(s: seq<byte>, a: seq<byte>, m: seq<byte>, b: seq<byte>, bit: nat, n: nat)
    requires s == a + m + b && bit + n <= 8 * |m|
    ensures Peek(StreamBits(s), 8 * |a| + bit, n) == Peek(StreamBits(m), bit, n)
    ensures n == 1 ==> StreamBits(s)[8 * |a| + bit] == StreamBits(m)[bit]
  {
    hide StreamBits, Val, NBits;
    StreamBitsConcat(a + m, b);
    StreamBitsConcat(a, m);
    var x, y, z := StreamBits(a), StreamBits(m), StreamBits(b);
    assert StreamBits(s) == x + y + z;
    hide Peek;
    PeekMiddle(x, y, z, bit, n);
  }

  lemma PeekMiddle(x: seq<bool>, y: seq<bool>, z: seq<bool>, i: nat, n: nat)
    requires i + n <= |y|
    ensures Peek(x + y + z, |x| + i, n) == Peek(y, i, n)
    ensures n == 1 ==> (x + y + z)[|x| + i] == y[i]
  {
    hide Val;
    Inside(x, y, z, i, n);
  }

  /** Reading a word in the middle of a run of bytes: shift the rest away, mask the top. */
  lemma MiddleBits(acc: nat, w: seq<bool>, bit: nat, n: nat, drop: nat)
    requires |w| == bit + n + drop && NBits(acc, |w|) == w
    ensures Shr(acc, drop) % Pow2(n) == Val(w[bit..bit + n])
  {
    hide Shr, NBits, Pow2, Val;
    var y := Shr(acc, drop);
    NBitsSplit(acc, bit + n, drop);
    NBitsSplit(y, bit, n);
    ValNBits(y, n);
    assert w[..bit + n] == NBits(y, bit + n);
    assert w[bit..bit + n] == w[..bit + n][bit..] == NBits(y, n);
  }

  /** The 32-bit accumulator of `parse_bits` takes up to four bytes. */
  lemma NextFetch(acc: nat, w: seq<byte>, b: byte)
    requires |w| <= 3 && acc == Val(StreamBits(w))
    ensures Or((acc * 256) % 0x1_0000_0000, b) == Val(StreamBits(w + [b]))
  {
    hide Shl, Or, NBits, Pow2, Val, StreamBits;
    assert Pow2(8) == 256 by { Pow2Values(); }
    assert StreamBits(w + [b]) == StreamBits(w) + NBits(b, 8) by { StreamBitsConcat(w, [b]); OneByte(b); }
    NBitsVal(StreamBits(w));
    assert acc < 0x100_0000 by { Pow2Monotone(8 * |w|, 24); BigPow2(); }
    ShlByEight(acc);
    var x := Or((acc * 256) % 0x1_0000_0000, b);
    assert (acc * 256) % 0x1_0000_0000 == acc * 256;
    ShlJoin(acc, b, 8 * |w|, 8);
    OrLow(acc, b, 8);
    assert x < Pow2(8 * |w| + 8) by { ShlBound(acc, 8 * |w|, 8); }
    ValOfSmall(x, 8 * |w| + 8);
  }

  lemma BigPow2()
    ensures Pow2(24) == 0x100_0000
  {
    assert Pow2(8) == 256 by { Pow2Values(); }
    assert Pow2(16) == 65536;
  }

  lemma ShlByEight(x: nat)
    ensures Shl(x, 8) == x * 256
  {
    assert Shl(x, 1) == 2 * x;
    assert Shl(x, 2) == x * 4;
    ShlShl(x, 2, 2);
    assert Shl(x * 4, 2) == x * 16;
    ShlShl(x, 4, 2);
    assert Shl(x * 16, 2) == x * 64;
    ShlShl(x, 6, 2);
    assert Shl(x * 64, 2) == x * 256;
  }

  class BitReader {
    const buf: array<byte>
    const end: nat
    var ptr: nat
    var bit: nat
    var truncated: bool

    /** One spare byte follows the data: `parse_bits` may look at it. */
    ghost predicate Valid()
      reads this
    {
      end < buf.Length && bit < 8 && Pos() <= 8 * end
    }

    ghost function Pos(): nat
      reads this
    {
      8 * ptr + bit
    }

    ghost function Input(): (s: seq<bool>)
      requires end < buf.Length
      reads buf
      ensures |s| == 8 * end
    {
      StreamBits(buf[..end])
    }

    constructor (buf: array<byte>, end: nat)
      requires end < buf.Length
      ensures Valid() && this.buf == buf && this.end == end && Pos() == 0 && !truncated
    {
      this.buf, this.end := buf, end;
      ptr, bit, truncated := 0, 0, false;
    }

    /** The bits of bytes `from` to `to` are where they should be in the input. */
    lemma BitsAt(from: nat, to: nat, bit: nat, n: nat)
      requires end < buf.Length && from <= to <= end && bit + n <= 8 * (to - from)
      ensures Peek(Input(), 8 * from + bit, n) == Peek(StreamBits(buf[from..to]), bit, n)
      ensures n == 1 ==> Input()[8 * from + bit] == StreamBits(buf[from..to])[bit]
    {
      PeekInside(buf[..end], buf[..from], buf[from..to], buf[to..end], bit, n);
    }

    /** The same when the last byte fetched is the one after the bits wanted. */
    lemma FetchedAt(from: nat, to: nat, bit: nat, n: nat)
      requires end < buf.Length && from <= to == from + (bit + n) / 8 && 8 * from + bit + n <= 8 * end
      ensures Peek(Input(), 8 * from + bit, n) == Peek(StreamBits(buf[from..to + 1]), bit, n)
    {
      hide StreamBits, Peek;
      if (bit + n) % 8 > 0 {
        BitsAt(from, to + 1, bit, n);
      } else {
        BitsAt(from, to, bit, n);
        assert buf[from..to + 1] == [] + buf[from..to] + [buf[to]];
        PeekInside(buf[from..to + 1], [], buf[from..to], [buf[to]], bit, n);
      }
    }

    /** What `ParseBits` makes of the bytes fetched. */
    lemma WordAt(from: nat, bit: nat, n: nat, bytes: nat, m: nat, acc: nat)
      requires end < buf.Length && bit < 8 && 8 * from + bit + n <= 8 * end && 8 * bytes + m == bit + n && m < 8
      requires from + bytes < buf.Length && acc == Val(StreamBits(buf[from..from + bytes + 1]))
      ensures Shr(acc, 8 - m) % Pow2(n) == Peek(Input(), 8 * from + bit, n)
    {
      hide Shr, Pow2, Val, StreamBits, Peek;
      FetchedBits(buf[from..from + bytes + 1], acc, bit, n);
      FetchedAt(from, from + bytes, bit, n);
    }

    method ParseByte() returns (b: byte)
      requires Valid()
      modifies `ptr, `truncated
      ensures Valid()
      ensures if old(Pos()) + 8 <= |Input()|
              then b == Peek(Input(), old(Pos()), 8) && Pos() == old(Pos()) + 8 && truncated == old(truncated)
              else b == 0 && truncated && Pos() == old(Pos())
    {
      hide Shl, Shr, Or, NBits, Pow2, Val, StreamBits, Peek;
      if end - ptr < (if bit > 0 then 2 else 1) {
        truncated := true;
        return 0;
      }
      if bit > 0 {
        Straddle(buf[ptr], buf[ptr + 1], bit);
        BitsAt(ptr, ptr + 2, bit, 8);
        assert buf[ptr..ptr + 2] == [buf[ptr], buf[ptr + 1]];
        b := Or(Shl(buf[ptr], bit) % 256, Shr(buf[ptr + 1], 8 - bit));
        ptr := ptr + 1;
      } else {
        WholeByte(buf[ptr]);
        BitsAt(ptr, ptr + 1, 0, 8);
        assert buf[ptr..ptr + 1] == [buf[ptr]];
        b := buf[ptr];
        ptr := ptr + 1;
      }
    }

    method ParseBit() returns (b: bool)
      requires Valid()
      modifies `ptr, `bit, `truncated
      ensures Valid()
      ensures if old(Pos()) < |Input()|
              then b == Input()[old(Pos())] && Pos() == old(Pos()) + 1 && truncated == old(truncated)
              else !b && truncated && Pos() == old(Pos())
    {
      hide Shr, NBits;
      if end - ptr < 1 {
        truncated := true;
        return false;
      }
      BitsAt(ptr, ptr + 1, bit, 1);
      assert buf[ptr..ptr + 1] == [buf[ptr]];
      BitOfByte(buf[ptr], bit);
      b := Shr(buf[ptr], 7 - bit) % 2 == 1;
      bit := bit + 1;
      if bit == 8 {
        ptr, bit := ptr + 1, 0;
      }
    }

    /** Collects the current byte and the next `count` in a 32-bit accumulator. */
    method Fetch(count: nat) returns (bits: nat)
      requires count <= 3 && ptr + count < buf.Length
      modifies `ptr
      ensures ptr == old(ptr) + count && bits == Val(StreamBits(buf[old(ptr)..ptr + 1]))
    {
      hide Or, Val, StreamBits;
      bits := buf[ptr] as nat;
      var bytes := count;
      WholeByte(buf[ptr]);
      assert buf[old(ptr)..ptr + 1] == [buf[ptr]];
      while bytes > 0
        invariant 0 <= bytes <= count && ptr == old(ptr) + count - bytes
        invariant bits == Val(StreamBits(buf[old(ptr)..ptr + 1]))
      {
        bytes := bytes - 1;
        ptr := ptr + 1;
        NextFetch(bits, buf[old(ptr)..ptr], buf[ptr]);
        bits := Or((bits * 256) % 0x1_0000_0000, buf[ptr]);
        assert buf[old(ptr)..ptr + 1] == buf[old(ptr)..ptr] + [buf[ptr]];
      }
    }

    /** Reads `n` bits; the accumulator makes it exact for `n` up to 24 at any offset. */
    method ParseBits(n: nat) returns (r: nat)
      requires Valid() && n <= 24
      modifies `ptr, `bit, `truncated
      ensures Valid()
      ensures if old(Pos()) + n <= |Input()|
              then r == Peek(Input(), old(Pos()), n) && Pos() == old(Pos()) + n && truncated == old(truncated)
              else r == 0 && truncated && Pos() == old(Pos())
    {
      hide Shr, Pow2, Val, StreamBits, Peek;
      var m: nat, bytes: nat := (bit + n) % 8, (bit + n) / 8;
      assert 8 * bytes + m == bit + n;
      if end - ptr < (if m > 0 then bytes + 1 else bytes) {
        truncated := true;
        return 0;
      }
      var bits := Fetch(bytes);
      ghost var from, last := old(Pos()), 8 * ptr + m;
      assert last == from + n && m < 8;
      r := Shr(bits, 8 - m) % Pow2(n);
      assert r == Peek(Input(), from, n) by { WordAt(old(ptr), bit, n, bytes, m, bits); }
      hide Input;
      bit := m;
      assert Pos() == last;
    }
  }

  /** What the accumulator of `parse_bits` holds once `k` whole bytes and one more are fetched. */
  lemma FetchedBits(w: seq<byte>, acc: nat, bit: nat, n: nat)
    requires bit + n <= 8 * |w| && acc == Val(StreamBits(w))
    ensures Shr(acc, 8 * |w| - bit - n) % Pow2(n) == Peek(StreamBits(w), bit, n)
  {
    hide Shr, NBits, Pow2, Val, StreamBits;
    NBitsVal(StreamBits(w));
    MiddleBits(acc, StreamBits(w), bit, n, 8 * |w| - bit - n);
  }

  lemma MiddleParts<T>(x: seq<T>, y: seq<T>, z: seq<T>, u: seq<T>)
    ensures (x + y + (z + u))[|x|..|x| + |y| + |z|] == y + z
  {
    assert x + y + (z + u) == x + (y + z) + u;
  }

  lemma OneByte(b: byte)
    ensures StreamBits([b]) == NBits(b, 8)
  {
    assert StreamBits([b]) == StreamBits([]) + NBits(b, 8);
  }

  lemma BitOfByte(b: byte, i: nat)
    requires i < 8
    ensures StreamBits([b])[i] == (Shr(b, 7 - i) % 2 == 1)
  {
    hide NBits, StreamBits;
    OneByte(b);
    NBitsSplit(b, i + 1, 7 - i);
    LowestBit(Shr(b, 7 - i), i);
  }

  lemma LowestBit(x: nat, i: nat)
    ensures NBits(x, i + 1)[i] == (x % 2 == 1)
  {
  }

  lemma WholeByte(b: byte)
    ensures Peek(StreamBits([b]), 0, 8) == b == Val(StreamBits([b]))
  {
    hide Val, NBits, StreamBits, Pow2;
    OneByte(b);
    assert StreamBits([b])[0..8] == StreamBits([b]);
    assert Pow2(8) == 256 by { Pow2Values(); }
    ValOfSmall(b, 8);
  }

  /** A byte put together from the end of one byte and the start of the next. */
  lemma Straddle(c: byte, d: byte, bit: nat)
    requires 0 < bit < 8
    ensures Or(Shl(c, bit) % 256, Shr(d, 8 - bit)) == Peek(StreamBits([c, d]), bit, 8) < 256
  {
    hide Shl, Shr, Or, NBits, Pow2, Val, StreamBits;
    assert Pow2(8) == 256 by { Pow2Values(); }
    assert StreamBits([c, d]) == NBits(c, 8) + NBits(d, 8) by {
      StreamBitsConcat([c], [d]);
      OneByte(c);
      OneByte(d);
      assert [c] + [d] == [c, d];
    }
    var lo, hi := c % Pow2(8 - bit), Shr(d, 8 - bit);
    ShlByte(c, 8 - bit, bit);
    ShrBound(d, 8, 8 - bit);
    ShlJoin(lo, hi, 8 - bit, bit);
    OrLow(lo, hi, bit);
    ShlBound(lo, 8 - bit, bit);
    NBitsSplit(c, bit, 8 - bit);
    NBitsMod(c, 8 - bit);
    NBitsSplit(d, bit, 8 - bit);
    MiddleParts(NBits(Shr(c, 8 - bit), bit), NBits(lo, 8 - bit), NBits(hi, bit), NBits(d, 8 - bit));
    ValOfSmall(Shl(lo, bit) + hi, 8);
  }

  // ---- bits in their place ----

  /** The input shows `w` at position `pos`. */
  ghost predicate At(bits: seq<bool>, pos: nat, w: seq<bool>) {
    pos + |w| <= |bits| && bits[pos..pos + |w|] == w
  }

  lemma AtConcat(bits: seq<bool>, pos: nat, x: seq<bool>, y: seq<bool>)
    ensures At(bits, pos, x + y) <==> At(bits, pos, x) && At(bits, pos + |x|, y)
  {
    if pos + |x| + |y| <= |bits| {
      var w := bits[pos..pos + |x| + |y|];
      assert w == bits[pos..pos + |x|] + bits[pos + |x|..pos + |x| + |y|];
      assert (x + y)[..|x|] == x && (x + y)[|x|..] == y;
    }
  }

  lemma AtBit(bits: seq<bool>, pos: nat, b: bool)
    ensures At(bits, pos, [b]) <==> pos < |bits| && bits[pos] == b
  {
  }

  lemma PeekAt(bits: seq<bool>, pos: nat, x: nat, n: nat)
    requires At(bits, pos, NBits(x, n)) && x < Pow2(n)
    ensures pos + n <= |bits| && Peek(bits, pos, n) == x
  {
    ValOfSmall(x, n);
  }

  lemma PeekByteAt(bits: seq<bool>, pos: nat, x: nat)
    requires At(bits, pos, NBits(x, 8)) && x < 256
    ensures pos + 8 <= |bits| && Peek(bits, pos, 8) == x
  {
    Pow2Values();
    PeekAt(bits, pos, x, 8);
  }

  /** The bits written start the bits read, once the last byte is counted in. */
  lemma WrittenIsRead(s: seq<byte>, ptr: nat, bit: nat, end: nat)
    requires ValidAt(s, ptr, bit) && end == (if bit > 0 then ptr + 1 else ptr) && end <= |s|
    ensures At(StreamBits(s[..end]), 0, WrittenAt(s, ptr, bit))
  {
    hide NBits, StreamBits, Shr, Clear;
    var head := StreamBits(s[..ptr]);
    if bit > 0 {
      assert s[..end] == s[..ptr] + [s[ptr]];
      StreamBitsConcat(s[..ptr], [s[ptr]]);
      OneByte(s[ptr]);
      NBitsSplit(s[ptr], bit, 8 - bit);
      var used, free := NBits(Shr(s[ptr], 8 - bit), bit), NBits(s[ptr], 8 - bit);
      assert StreamBits(s[..end]) == head + used + free;
    } else {
      NoBits(Shr(s[ptr], 8));
      assert WrittenAt(s, ptr, bit) == head + [] == head;
    }
  }

  lemma NoBits(x: nat)
    ensures NBits(x, 0) == []
  {
  }
}
