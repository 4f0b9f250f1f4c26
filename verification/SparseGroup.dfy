/**
 The sparse groups of core/hash.c: 58 slots of which only the occupied ones are stored, in
 the order of their positions, found by the rank of a position in a bitmap.
 */
module SparseGroup {
  import opened Common
  import opened WordRank

  const GROUP: nat := 58

  /** The stored elements, and a word of a count (6 bits) above a bitmap (58). */
  datatype Group<D> = Group(slot: seq<D>, bits: Word)

  function Count(bits: Word): nat { (bits >> 58) as int }

  /** The count, the number of set bits, and the number of stored elements agree. */
  predicate GroupValid<D>(g: Group<D>) {
    |g.slot| == Rank(g.bits, GROUP) && Count(g.bits) == |g.slot|
  }

  /** The group as a partial map from positions. */
  function At<D>(g: Group<D>, i: nat): Option<D>
    requires i < GROUP
  {
    if Bit(g.bits, i) && 0 <= BitRank(g.bits, i) < |g.slot| then Some(g.slot[BitRank(g.bits, i)]) else None
  }

  /** In a valid group the bitmap alone tells what is occupied. */
  lemma AtOccupied<D>(g: Group<D>, i: nat)
    requires GroupValid(g) && i < GROUP
    ensures Bit(g.bits, i) <==> At(g, i).Some?
    ensures Bit(g.bits, i) ==> 0 <= BitRank(g.bits, i) < |g.slot| && At(g, i) == Some(g.slot[BitRank(g.bits, i)])
  {
    if Bit(g.bits, i) { RankInside(g.bits, i); }
  }

  lemma {:induction false} RankMonotone(x: Word, i: nat, j: nat)
    requires i <= j <= 64
    ensures Rank(x, i) <= Rank(x, j)
    decreases j - i
  {
    if i < j { RankMonotone(x, i, j - 1); }
  }

  /** The rank of an occupied position is an index of a stored element. */
  lemma RankInside(x: Word, i: nat)
    requires i < GROUP && Bit(x, i)
    ensures 0 <= BitRank(x, i) < Rank(x, GROUP)
  {
    BitRankCounts(x, i);
    RankMonotone(x, i + 1, GROUP);
  }

  /** The word after an insertion at `i`: one more in the count (at bit 58), one more bit. */
  function Marked(bits: Word, i: nat): Word
    requires i < GROUP
  {
    PlaceLow(i);
    Mark(bits, Place(i))
  }

  function Mark(bits: Word, p: Word): Word
    requires p < 58
  {
    WithBit(bits + 0x0400000000000000, p)
  }

  function WithBit(x: Word, p: Word): Word
    requires p < 58
  {
    x | (1 << p)
  }

  /** `sg_insert` */
  function SgInsert<D>(g: Group<D>, i: nat, data: D): Group<D>
    requires GroupValid(g) && i < GROUP
  {
    BitRankCounts(g.bits, i);
    RankMonotone(g.bits, i, GROUP);
    var s := BitRank(g.bits, i);
    Group(g.slot[..s] + [data] + g.slot[s..], Marked(g.bits, i))
  }

  // ---- an insertion changes one position of the map ----

  lemma CountApart(bits: Word, q: Word)
    requires q < 58
    ensures Set(bits + 0x0400000000000000, q) == Set(bits, q)
  {
  }

  lemma WithBitSets(x: Word, p: Word, q: Word)
    requires p < 58 && q < 58
    ensures Set(WithBit(x, p), q) <==> p == q || Set(x, q)
  {
    WithBitRaw(x, p, q);
    assert WithBit(x, p) == x | (1 << p);
    hide WithBit;
  }

  lemma WithBitRaw(x: Word, p: Word, q: Word)
    requires p < 58 && q < 58
    ensures (x | (1 << p)) & (1 << q) != 0 <==> p == q || x & (1 << q) != 0
  {
  }

  lemma MarkSets(bits: Word, p: Word, q: Word)
    requires p < 58 && q < 58
    ensures Set(Mark(bits, p), q) <==> p == q || Set(bits, q)
  {
    hide Set, WithBit;
    CountApart(bits, q);
    WithBitSets(bits + 0x0400000000000000, p, q);
  }

  lemma MarkCounts(bits: Word, p: Word)
    requires p < 58 && bits >> 58 < 58
    ensures Mark(bits, p) >> 58 == (bits >> 58) + 1
  {
  }

  lemma MarkedBit(bits: Word, i: nat, j: nat)
    requires i < GROUP && j < GROUP
    ensures Bit(Marked(bits, i), j) <==> i == j || Bit(bits, j)
  {
    hide Place, Mark, Set;
    PlaceLow(i);
    PlaceLow(j);
    MarkSets(bits, Place(i), Place(j));
    if i != j { PlaceDistinct(i, j); }
  }

  lemma MarkedCount(bits: Word, i: nat)
    requires i < GROUP && Count(bits) < GROUP
    ensures Count(Marked(bits, i)) == Count(bits) + 1
  {
    PlaceLow(i);
    hide Place;
    CountLow(bits);
    MarkCounts(bits, Place(i));
    hide Mark;
    Increment(bits >> 58);
  }

  lemma CountLow(bits: Word)
    requires Count(bits) < GROUP
    ensures bits >> 58 < 58
  {
    if bits >> 58 >= 58 { AtLeast(bits >> 58); assert false; }
  }

  lemma PlaceLow(i: nat)
    requires i < GROUP
    ensures Place(i) < 58
  {
    PlaceValue(i);
    if Place(i) >= 58 { AtLeast(Place(i)); assert false; }
  }

  lemma AtLeast(a: Word)
    requires a >= 58
    ensures a as int >= 58
  {
  }

  lemma {:induction false} MarkedRank(bits: Word, i: nat, j: nat)
    requires i < GROUP && j <= GROUP && !Bit(bits, i)
    ensures Rank(Marked(bits, i), j) == Rank(bits, j) + if i < j then 1 else 0
  {
    if j > 0 {
      MarkedRank(bits, i, j - 1);
      MarkedBit(bits, i, j - 1);
    }
  }

  lemma {:induction false} RankBelow(x: Word, i: nat, j: nat)
    requires i < j <= 64 && !Bit(x, i)
    ensures Rank(x, j) < j
  {
    if j - 1 != i { RankBelow(x, i, j - 1); }
  }

  /** `sg_insert` at a clear position changes exactly that position of the group, and the
      count, the bitmap and the stored elements still agree. */
  lemma InsertChangesOne<D>(g: Group<D>, i: nat, data: D, j: nat)
    requires GroupValid(g) && i < GROUP && j < GROUP && !Bit(g.bits, i)
    ensures GroupValid(SgInsert(g, i, data))
    ensures At(SgInsert(g, i, data), j) == if j == i then Some(data) else At(g, j)
  {
    hide Marked, Count, Rank, Bit, BitRank;
    InsertValid(g, i, data);
    var r := SgInsert(g, i, data);
    MarkedBit(g.bits, i, j);
    MarkedRank(g.bits, i, j);
    BitRankCounts(g.bits, i);
    BitRankCounts(g.bits, j);
    BitRankCounts(r.bits, j);
    RankMonotone(g.bits, i, GROUP);
    if j != i && Bit(g.bits, j) {
      RankInside(g.bits, j);
      if i < j { RankStep(g.bits, i, j); } else { RankStep(g.bits, j, i); }
    }
  }

  lemma RankStep(x: Word, i: nat, j: nat)
    requires i < j <= 64
    ensures Rank(x, i) <= Rank(x, j) && (Bit(x, i) ==> Rank(x, i) < Rank(x, j))
  {
    RankMonotone(x, i + 1, j);
  }

  lemma InsertValid<D>(g: Group<D>, i: nat, data: D)
    requires GroupValid(g) && i < GROUP && !Bit(g.bits, i)
    ensures GroupValid(SgInsert(g, i, data))
  {
    hide Marked, Count, Bit, BitRank;
    RankBelow(g.bits, i, GROUP);
    MarkedRank(g.bits, i, GROUP);
    MarkedCount(g.bits, i);
    BitRankCounts(g.bits, i);
    RankMonotone(g.bits, i, GROUP);
  }

  /** The element stored at an occupied position is replaced. */
  function SgReplace<D>(g: Group<D>, i: nat, data: D): Group<D>
    requires GroupValid(g) && i < GROUP && Bit(g.bits, i)
  {
    RankInside(g.bits, i);
    g.(slot := g.slot[BitRank(g.bits, i) := data])
  }

  lemma ReplaceChangesOne<D>(g: Group<D>, i: nat, data: D, j: nat)
    requires GroupValid(g) && i < GROUP && j < GROUP && Bit(g.bits, i)
    ensures GroupValid(SgReplace(g, i, data))
    ensures At(SgReplace(g, i, data), j) == if j == i then Some(data) else At(g, j)
  {
    hide Count, Rank, Bit, BitRank;
    RankInside(g.bits, i);
    if j != i && Bit(g.bits, j) {
      RankInside(g.bits, j);
      BitRankCounts(g.bits, i);
      BitRankCounts(g.bits, j);
      if i < j { RankStep(g.bits, i, j); } else { RankStep(g.bits, j, i); }
    }
  }

  /** A fresh group. */
  function NewGroup<D>(): Group<D> { Group([], 0) }

  lemma NewGroupEmpty<D>(i: nat)
    requires i < GROUP
    ensures GroupValid(NewGroup<D>()) && !Bit(NewGroup<D>().bits, i)
  {
    PlaceLow(i);
    NoBits(i);
    NoRank(GROUP);
    assert (0 as Word) >> 58 == 0;
  }

  lemma NoBits(i: nat)
    requires i < 64
    ensures !Bit(0, i)
  {
    PlaceValue(i);
    hide Place;
  }

  lemma {:induction false} NoRank(j: nat)
    requires j <= 64
    ensures Rank(0, j) == 0
  {
    if j > 0 {
      NoRank(j - 1);
      NoBits(j - 1);
    }
  }
}
