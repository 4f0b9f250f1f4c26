/**
 `bit_rank` of core/hash.c: the set bits of a 64-bit word below a position, counted in
 parallel by masks, shifts and one multiplication. It equals the plain count for every
 word and every position.
 */
module WordRank {

  type Word = bv64

  // ---- positions as machine words ----

  /** The `int` position of the source as a shift amount. */
  function Place(k: nat): Word { if k == 0 then 0 else Place(k - 1) + 1 }

  lemma Increment(a: Word)
    requires a < 64
    ensures (a + 1) as int == a as int + 1
  {
  }

  lemma NotBelow(a: Word)
    requires a as int < 64
    ensures a < 64
  {
  }

  lemma {:induction false} PlaceValue(k: nat)
    requires k <= 64
    ensures Place(k) as int == k && (k < 64 ==> Place(k) < 64) && Place(k) <= 64
  {
    if k > 0 {
      PlaceValue(k - 1);
      Increment(Place(k - 1));
    }
    if k < 64 { NotBelow(Place(k)); }
  }

  lemma PlaceDistinct(i: nat, j: nat)
    requires i <= 64 && j <= 64 && i != j
    ensures Place(i) != Place(j)
  {
    PlaceValue(i);
    PlaceValue(j);
    hide Place;
  }

  // ---- the specification ----

  /** Whether bit `k` of the word is set, as `sg_empty` asks. */
  predicate Bit(x: Word, k: nat)
    requires k < 64
  {
    PlaceValue(k);
    Set(x, Place(k))
  }

  predicate Set(x: Word, p: Word)
    requires p < 64
  {
    x & (1 << p) != 0
  }

  /** The set bits below `k`. */
  function Rank(x: Word, k: nat): (n: nat)
    requires k <= 64
    ensures n <= k
  {
    if k == 0 then 0 else Rank(x, k - 1) + if Bit(x, k - 1) then 1 else 0
  }

  // ---- the code ----

  function Pairs(r: Word): Word { r - ((r >> 1) & 0x5555555555555555) }
  function Nibbles(r: Word): Word { (r & 0x3333333333333333) + ((r >> 2) & 0x3333333333333333) }
  function Bytes(r: Word): Word { (r + (r >> 4)) & 0x0f0f0f0f0f0f0f0f }

  function Top(r: Word): nat { (r >> 56) as int }

  function Parallel(r: Word): nat { Top(Bytes(Nibbles(Pairs(r))) * 0x0101010101010101) }

  /** Shift out the bits at and above the position. */
  function Cut(bits: Word, p: Word): Word
    requires p <= 64
  {
    bits << (64 - p)
  }

  /** `bit_rank` */
  function BitRank(bits: Word, i: nat): int
    requires i <= 64
  {
    if i == 0 then 0
    else
      PlaceValue(i);
      Parallel(Cut(bits, Place(i)))
  }

  // ---- counting in parallel ----

  // The steps are kept apart by names for what is between them.

  function Down(r: Word, k: bv7): Word
    requires k < 64
  {
    r >> k
  }

  function Byte(r: Word, k: bv7): nat
    requires k < 64
  {
    Octet(r, k) as int
  }

  function Octet(r: Word, k: bv7): Word
    requires k < 64
  {
    (r >> k) & 0xff
  }

  function Low4(y: Word): Word { (y & 1) + ((y >> 1) & 1) + ((y >> 2) & 1) + ((y >> 3) & 1) }

  /** The set bits of the low byte. */
  function Low8(y: Word): Word { Low4(y) + Low4(y >> 4) }

  /** The set bits among the eight from position `k` on. */
  function Ones(r: Word, k: bv7): nat
    requires k < 64
  {
    Low8(Down(r, k)) as int
  }

  lemma Cancel(x: Word, t: Word)
    ensures (x + t) - t == x
  {
  }

  lemma Halves(r: Word)
    ensures r == (r & 0x5555555555555555) + ((r >> 1) & 0x5555555555555555) + ((r >> 1) & 0x5555555555555555)
  {
  }

  /** The first step adds neighbours. */
  lemma PairsAdd(r: Word)
    ensures Pairs(r) == (r & 0x5555555555555555) + ((r >> 1) & 0x5555555555555555)
  {
    Halves(r);
    Cancel((r & 0x5555555555555555) + ((r >> 1) & 0x5555555555555555), (r >> 1) & 0x5555555555555555);
  }

  /** After three steps each byte holds its own count. */
  lemma BytesCountLow(r: Word, p: Word)
    requires p == (r & 0x5555555555555555) + ((r >> 1) & 0x5555555555555555)
    ensures var b := Bytes(Nibbles(p)); Byte(b, 0) == Ones(r, 0) && Byte(b, 8) == Ones(r, 8)
  {
  }

  lemma BytesCount(r: Word, p: Word)
    requires p == (r & 0x5555555555555555) + ((r >> 1) & 0x5555555555555555)
    ensures var b := Bytes(Nibbles(p)); Byte(b, 16) == Ones(r, 16) && Byte(b, 24) == Ones(r, 24)
  {
  }

  lemma BytesCountMiddle(r: Word, p: Word)
    requires p == (r & 0x5555555555555555) + ((r >> 1) & 0x5555555555555555)
    ensures var b := Bytes(Nibbles(p)); Byte(b, 32) == Ones(r, 32) && Byte(b, 40) == Ones(r, 40)
  {
  }

  lemma BytesCountHigh(r: Word, p: Word)
    requires p == (r & 0x5555555555555555) + ((r >> 1) & 0x5555555555555555)
    ensures var b := Bytes(Nibbles(p)); Byte(b, 48) == Ones(r, 48) && Byte(b, 56) == Ones(r, 56)
  {
  }

  // ---- gathering the bytes ----

  /** Every byte at most 15, 31, 63. */
  predicate Below16(x: Word) { x & 0x0f0f0f0f0f0f0f0f == x }
  predicate Below32(x: Word) { x & 0x1f1f1f1f1f1f1f1f == x }
  predicate Below64(x: Word) { x & 0x3f3f3f3f3f3f3f3f == x }

  // The multiplication in three steps, each of which adds a shifted copy.

  predicate Fold8(x: Word, t: Word) { t == x + (x << 8) }
  predicate Fold16(x: Word, t: Word) { t == x + (x << 16) }
  predicate Fold32(x: Word, t: Word) { t == x + (x << 32) }

  lemma FoldsOf(r: Word)
    ensures Fold8(r, r * 0x0101)
    ensures Fold16(r * 0x0101, r * 0x01010101)
    ensures Fold32(r * 0x01010101, r * 0x0101010101010101)
  {
  }

  function Sum(x: Word, y: Word): Word { x + y }

  lemma SmallSum(x: Word, y: Word)
    requires x <= 64 && y <= 64
    ensures Sum(x, y) as int == x as int + y as int
  {
    assert x & 0x7f == x && y & 0x7f == y;
  }

  lemma AllRaw(x: Word, t: Word)
    requires x & 0x3f3f3f3f3f3f3f3f == x && t == x + (x << 32)
    ensures t >> 56 == ((x >> 56) & 0xff) + ((x >> 24) & 0xff)
    ensures (x >> 56) & 0xff <= 64 && (x >> 24) & 0xff <= 64
  {
  }

  lemma FoldPairs(x: Word, t: Word)
    requires Below16(x) && Fold8(x, t)
    ensures Below32(t) && Byte(t, 56) == Byte(x, 56) + Byte(x, 48) && Byte(t, 40) == Byte(x, 40) + Byte(x, 32)
    ensures Byte(t, 24) == Byte(x, 24) + Byte(x, 16) && Byte(t, 8) == Byte(x, 8) + Byte(x, 0)
  {
    PairsSplit(x, t);
    hide Octet, Sum, Below16, Below32, Fold8;
    SmallSum(Octet(x, 56), Octet(x, 48));
    SmallSum(Octet(x, 40), Octet(x, 32));
    SmallSum(Octet(x, 24), Octet(x, 16));
    SmallSum(Octet(x, 8), Octet(x, 0));
  }

  lemma PairsSplit(x: Word, t: Word)
    requires Below16(x) && Fold8(x, t)
    ensures Below32(t) && Octet(t, 56) == Sum(Octet(x, 56), Octet(x, 48)) && Octet(t, 40) == Sum(Octet(x, 40), Octet(x, 32))
    ensures Octet(t, 24) == Sum(Octet(x, 24), Octet(x, 16)) && Octet(t, 8) == Sum(Octet(x, 8), Octet(x, 0))
    ensures Octet(x, 56) <= 64 && Octet(x, 48) <= 64 && Octet(x, 40) <= 64 && Octet(x, 32) <= 64
    ensures Octet(x, 24) <= 64 && Octet(x, 16) <= 64 && Octet(x, 8) <= 64 && Octet(x, 0) <= 64
  {
    PairsTop(x, t);
    PairsHigh(x, t);
    PairsMiddle(x, t);
    PairsLow(x, t);
    PairsBound(x, t);
    hide *;
  }

  lemma PairsTop(x: Word, t: Word)
    requires Below16(x) && Fold8(x, t)
    ensures Octet(t, 56) == Sum(Octet(x, 56), Octet(x, 48))
  {
  }

  lemma PairsHigh(x: Word, t: Word)
    requires Below16(x) && Fold8(x, t)
    ensures Octet(t, 40) == Sum(Octet(x, 40), Octet(x, 32))
  {
  }

  lemma PairsMiddle(x: Word, t: Word)
    requires Below16(x) && Fold8(x, t)
    ensures Octet(t, 24) == Sum(Octet(x, 24), Octet(x, 16))
  {
  }

  lemma PairsLow(x: Word, t: Word)
    requires Below16(x) && Fold8(x, t)
    ensures Octet(t, 8) == Sum(Octet(x, 8), Octet(x, 0))
  {
  }

  lemma PairsBound(x: Word, t: Word)
    requires Below16(x) && Fold8(x, t)
    ensures Below32(t) && Octet(x, 56) <= 64 && Octet(x, 48) <= 64 && Octet(x, 40) <= 64 && Octet(x, 32) <= 64
    ensures Octet(x, 24) <= 64 && Octet(x, 16) <= 64 && Octet(x, 8) <= 64 && Octet(x, 0) <= 64
  {
  }

  lemma FoldFours(x: Word, t: Word)
    requires Below32(x) && Fold16(x, t)
    ensures Below64(t) && Byte(t, 56) == Byte(x, 56) + Byte(x, 40) && Byte(t, 24) == Byte(x, 24) + Byte(x, 8)
  {
    FoursSplit(x, t);
    hide Octet, Sum, Below32, Below64, Fold16;
    SmallSum(Octet(x, 56), Octet(x, 40));
    SmallSum(Octet(x, 24), Octet(x, 8));
  }

  lemma FoursSplit(x: Word, t: Word)
    requires Below32(x) && Fold16(x, t)
    ensures Below64(t) && Octet(t, 56) == Sum(Octet(x, 56), Octet(x, 40)) && Octet(t, 24) == Sum(Octet(x, 24), Octet(x, 8))
    ensures Octet(x, 56) <= 64 && Octet(x, 40) <= 64 && Octet(x, 24) <= 64 && Octet(x, 8) <= 64
  {
    FoursTop(x, t);
    FoursLow(x, t);
    FoursBound(x, t);
    hide *;
  }

  lemma FoursTop(x: Word, t: Word)
    requires Below32(x) && Fold16(x, t)
    ensures Octet(t, 56) == Sum(Octet(x, 56), Octet(x, 40))
  {
  }

  lemma FoursLow(x: Word, t: Word)
    requires Below32(x) && Fold16(x, t)
    ensures Octet(t, 24) == Sum(Octet(x, 24), Octet(x, 8))
  {
  }

  lemma FoursBound(x: Word, t: Word)
    requires Below32(x) && Fold16(x, t)
    ensures Below64(t) && Octet(x, 56) <= 64 && Octet(x, 40) <= 64 && Octet(x, 24) <= 64 && Octet(x, 8) <= 64
  {
  }

  lemma FoldAll(x: Word, t: Word)
    requires Below64(x) && Fold32(x, t)
    ensures Top(t) == Byte(x, 56) + Byte(x, 24)
  {
    AllSplit(x, t);
    hide Octet, Sum, Below64, Fold32;
    SumTop(t, Octet(x, 56), Octet(x, 24));
    hide Top, Sum;
  }

  lemma AllSplit(x: Word, t: Word)
    requires Below64(x) && Fold32(x, t)
    ensures t >> 56 == Sum(Octet(x, 56), Octet(x, 24)) && Octet(x, 56) <= 64 && Octet(x, 24) <= 64
  {
    AllRaw(x, t);
  }

  lemma SumTop(t: Word, y: Word, z: Word)
    requires t >> 56 == Sum(y, z) && y <= 64 && z <= 64
    ensures Top(t) == y as int + z as int
  {
    SmallSum(y, z);
    SameTop(t, Sum(y, z));
    hide Top, Sum;
  }

  lemma SameTop(t: Word, y: Word)
    requires t >> 56 == y
    ensures Top(t) == y as int
  {
  }

  /** The multiplication leaves the sum of the bytes at the top. */
  lemma Gathered(r: Word)
    requires Below16(r)
    ensures Top(r * 0x0101010101010101) ==
      Byte(r, 56) + Byte(r, 48) + Byte(r, 40) + Byte(r, 32) + Byte(r, 24) + Byte(r, 16) + Byte(r, 8) + Byte(r, 0)
  {
    hide *;
    FoldsOf(r);
    FoldPairs(r, r * 0x0101);
    FoldFours(r * 0x0101, r * 0x01010101);
    FoldAll(r * 0x01010101, r * 0x0101010101010101);
  }

  lemma AllBytes(r: Word)
    ensures var b := Bytes(Nibbles(Pairs(r)));
      && Byte(b, 0) == Ones(r, 0) && Byte(b, 8) == Ones(r, 8) && Byte(b, 16) == Ones(r, 16) && Byte(b, 24) == Ones(r, 24)
      && Byte(b, 32) == Ones(r, 32) && Byte(b, 40) == Ones(r, 40) && Byte(b, 48) == Ones(r, 48) && Byte(b, 56) == Ones(r, 56)
  {
    hide *;
    PairsAdd(r);
    BytesCountLow(r, Pairs(r));
    BytesCount(r, Pairs(r));
    BytesCountMiddle(r, Pairs(r));
    BytesCountHigh(r, Pairs(r));
  }

  lemma BytesBelow(r: Word)
    ensures Below16(Bytes(r))
  {
  }

  /** The parallel count is the sum of the counts of the bytes. */
  lemma ParallelCounts(r: Word)
    ensures Parallel(r) ==
      Ones(r, 56) + Ones(r, 48) + Ones(r, 40) + Ones(r, 32) + Ones(r, 24) + Ones(r, 16) + Ones(r, 8) + Ones(r, 0)
  {
    hide Top, Byte, Ones, Bytes, Nibbles, Pairs, Below16;
    AllBytes(r);
    BytesBelow(Nibbles(Pairs(r)));
    Gathered(Bytes(Nibbles(Pairs(r))));
  }

  function One(y: Word, k: bv7): nat
    requires k < 64
  {
    if (y >> k) & 1 == 1 then 1 else 0
  }

  function Bits4(y: Word): nat { One(y, 0) + One(y, 1) + One(y, 2) + One(y, 3) }

  function Bits8(y: Word): nat { Bits4(y) + Bits4(y >> 4) }

  lemma Low4Value(y: Word)
    ensures Low4(y) <= 4 && Low4(y) as int == Bits4(y)
  {
  }

  lemma Low8Value(y: Word)
    ensures Low8(y) as int == Bits8(y)
  {
    hide Low4, Bits4;
    Low4Value(y);
    Low4Value(y >> 4);
    SmallSum(Low4(y), Low4(y >> 4));
  }

  /** The set bits among the eight from position `k` on, as a number. */
  function Eight(r: Word, k: bv7): nat
    requires k < 64
  {
    Bits8(Down(r, k))
  }

  lemma EightValue(r: Word, k: bv7)
    requires k < 64
    ensures Ones(r, k) == Eight(r, k)
  {
    hide Low8, Bits8, Down;
    Low8Value(Down(r, k));
  }

  /** All 64 bits. */
  function Whole(r: Word): nat {
    Eight(r, 56) + Eight(r, 48) + Eight(r, 40) + Eight(r, 32) + Eight(r, 24) + Eight(r, 16) + Eight(r, 8) + Eight(r, 0)
  }

  lemma ParallelValue(r: Word)
    ensures Parallel(r) == Whole(r)
  {
    hide Parallel, Ones, Eight;
    ParallelCounts(r);
    EightValue(r, 0);
    EightValue(r, 8);
    EightValue(r, 16);
    EightValue(r, 24);
    EightValue(r, 32);
    EightValue(r, 40);
    EightValue(r, 48);
    EightValue(r, 56);
  }

  // ---- shifting out what is at and above the position ----

  function Left(y: Word): Word { y << 1 }

  lemma LowMoved(y: Word)
    ensures Moved(Down(Left(y), 0), Down(y, 0)) && Moved(Down(Left(y), 8), Down(y, 8))
    ensures Moved(Down(Left(y), 16), Down(y, 16)) && Moved(Down(Left(y), 24), Down(y, 24))
    ensures Moved(Down(Left(y), 32), Down(y, 32)) && Moved(Down(Left(y), 40), Down(y, 40))
    ensures Moved(Down(Left(y), 48), Down(y, 48)) && Moved(Down(Left(y), 56), Down(y, 56))
  {
  }

  lemma BitsMoved(w: Word, z: Word)
    requires (w >> 1) & 0x7f == z & 0x7f
    ensures One(w, 1) == One(z, 0) && One(w, 2) == One(z, 1) && One(w, 3) == One(z, 2) && One(w >> 4, 0) == One(z, 3)
    ensures One(w >> 4, 1) == One(z >> 4, 0) && One(w >> 4, 2) == One(z >> 4, 1) && One(w >> 4, 3) == One(z >> 4, 2)
    ensures One(z >> 4, 3) == One(z, 7)
  {
  }

  lemma BitEntering(y: Word, k: bv7)
    requires 8 <= k <= 56
    ensures One(Down(Left(y), k), 0) == One(Down(y, k - 8), 7)
  {
  }

  lemma NothingEnters(y: Word)
    ensures One(Down(Left(y), 0), 0) == 0
  {
  }

  predicate Moved(w: Word, z: Word) { (w >> 1) & 0x7f == z & 0x7f }

  lemma Bits8Moved(w: Word, z: Word)
    requires Moved(w, z)
    ensures Bits8(z) + One(w, 0) == Bits8(w) + One(z, 7)
  {
    BitsMoved(w, z);
    hide One;
  }

  /** Of the byte at `k`, a shift by one drops the highest bit and takes in another. */
  lemma ByteMoved(y: Word, k: bv7)
    requires k <= 56 && Moved(Down(Left(y), k), Down(y, k))
    ensures Eight(y, k) + One(Down(Left(y), k), 0) == Eight(Left(y), k) + One(Down(y, k), 7)
  {
    hide One, Down, Left, Bits8, Moved;
    Bits8Moved(Down(Left(y), k), Down(y, k));
  }

  /** Shifting a word up by one drops its highest bit. */
  lemma WholeMoved(y: Word)
    ensures Whole(y) == Whole(Left(y)) + One(Down(y, 56), 7)
  {
    hide One, Eight, Down, Left, Moved;
    LowMoved(y);
    NothingEnters(y);
    ByteMoved(y, 0);
    BitEntering(y, 8);
    ByteMoved(y, 8);
    BitEntering(y, 16);
    ByteMoved(y, 16);
    BitEntering(y, 24);
    ByteMoved(y, 24);
    BitEntering(y, 32);
    ByteMoved(y, 32);
    BitEntering(y, 40);
    ByteMoved(y, 40);
    BitEntering(y, 48);
    ByteMoved(y, 48);
    BitEntering(y, 56);
    ByteMoved(y, 56);
  }

  lemma RankNone(bits: Word)
    ensures Place(0) <= 64 && Whole(Cut(bits, Place(0))) == Rank(bits, 0)
  {
    assert Cut(bits, 0) == 0;
    hide Cut;
  }

  /** The next bit of the word comes to the top. */
  lemma NextBit(bits: Word, p: Word)
    requires p < 64
    ensures p + 1 <= 64 && Left(Cut(bits, p + 1)) == Cut(bits, p)
  {
    hide Left, Cut;
    if p & 1 == 0 {
      NextBitEven(bits, p);
    } else {
      NextBitOdd(bits, p);
    }
  }

  lemma NextBitEven(bits: Word, p: Word)
    requires p < 64 && p & 1 == 0
    ensures p + 1 <= 64 && Left(Cut(bits, p + 1)) == Cut(bits, p)
  {
  }

  lemma NextBitOdd(bits: Word, p: Word)
    requires p < 64 && p & 1 == 1
    ensures p + 1 <= 64 && Left(Cut(bits, p + 1)) == Cut(bits, p)
  {
  }

  lemma TopBit(bits: Word, p: Word, q: Word)
    requires p < 64 && q == p + 1
    ensures q <= 64 && One(Down(Cut(bits, q), 56), 7) == if Set(bits, p) then 1 else 0
  {
  }

  lemma RankNext(bits: Word, i: nat)
    requires 0 < i <= 64
    ensures Place(i - 1) < 64 && Place(i) == Place(i - 1) + 1 && Place(i) <= 64
    ensures Rank(bits, i) == Rank(bits, i - 1) + if Set(bits, Place(i - 1)) then 1 else 0
  {
    PlaceValue(i - 1);
    PlaceValue(i);
    hide Set;
  }

  lemma {:induction false} WholeRank(bits: Word, i: nat)
    requires i <= 64
    ensures Place(i) <= 64 && Whole(Cut(bits, Place(i))) == Rank(bits, i)
  {
    hide *;
    if i == 0 {
      RankNone(bits);
    } else {
      RankNext(bits, i);
      WholeRank(bits, i - 1);
      NextBit(bits, Place(i - 1));
      TopBit(bits, Place(i - 1), Place(i));
      WholeMoved(Cut(bits, Place(i)));
    }
  }

  /** `bit_rank` counts the set bits below the position, for every word. */
  lemma BitRankCounts(bits: Word, i: nat)
    requires i <= 64
    ensures BitRank(bits, i) == Rank(bits, i)
  {
    if i > 0 {
      PlaceValue(i);
      hide Place, Rank, Parallel, Cut, Whole;
      WholeRank(bits, i);
      ParallelValue(Cut(bits, Place(i)));
    }
  }
}
