/**
 Iteration over the hash table of core/hash.c: the elements are met group by group in the
 order in which they are stored, each exactly once.
 */
module HashIterate {
  import opened Common
  import opened WordRank
  import opened SparseGroup
  import opened HashTable

  /** The stored elements of all groups, one group after the other. */
  function Elements<D>(groups: seq<Group<D>>): seq<D> {
    if groups == [] then [] else Elements(groups[..|groups| - 1]) + groups[|groups| - 1].slot
  }

  lemma {:induction false} GroupElements<D>(groups: seq<Group<D>>, g: nat, s: nat)
    requires g < |groups| && s < |groups[g].slot|
    ensures var a := |Elements(groups[..g])| + s; a < |Elements(groups)| && Elements(groups)[a] == groups[g].slot[s]
    decreases |groups|
  {
    var init := groups[..|groups| - 1];
    if g < |init| {
      GroupElements(init, g, s);
      assert init[..g] == groups[..g];
    }
  }

  /** Every stored element belongs to an occupied position, the one with its index as rank. */
  lemma {:induction false} RankReached(x: Word, n: nat, s: nat) returns (i: nat)
    requires n <= GROUP && s < Rank(x, n)
    ensures i < n && Bit(x, i) && Rank(x, i) == s
  {
    hide Bit;
    if s < Rank(x, n - 1) { i := RankReached(x, n - 1, s); } else { i := n - 1; }
  }

  /** What position `p` of the whole table holds. */
  function Slot<D>(groups: seq<Group<D>>, p: nat): Option<D>
    requires p < GROUP * |groups|
  {
    At(groups[p / GROUP], p % GROUP)
  }

  /** Where the element in front of position `p` ends up in the iteration. */
  function Index<D>(groups: seq<Group<D>>, p: nat): nat
    requires p < GROUP * |groups|
  {
    |Elements(groups[..p / GROUP])| + Rank(groups[p / GROUP].bits, p % GROUP)
  }

  ghost predicate AllValid<D>(groups: seq<Group<D>>) {
    forall g :: 0 <= g < |groups| ==> GroupValid(groups[g])
  }

  /** An occupied position is met in the iteration. */
  lemma Met<D>(groups: seq<Group<D>>, p: nat)
    requires AllValid(groups) && p < GROUP * |groups| && Slot(groups, p).Some?
    ensures Index(groups, p) < |Elements(groups)| && Slot(groups, p) == Some(Elements(groups)[Index(groups, p)])
  {
    hide Rank, Bit, Count, BitRank, Elements;
    var g, i := p / GROUP, p % GROUP;
    AtOccupied(groups[g], i);
    BitRankCounts(groups[g].bits, i);
    GroupElements(groups, g, BitRank(groups[g].bits, i));
  }

  /** What is met in the iteration stands at an occupied position. */
  lemma {:induction false} Located<D>(groups: seq<Group<D>>, a: nat) returns (p: nat)
    requires AllValid(groups) && a < |Elements(groups)|
    ensures p < GROUP * |groups| && Index(groups, p) == a && Slot(groups, p) == Some(Elements(groups)[a])
    decreases |groups|
  {
    var n := |groups| - 1;
    var init := groups[..n];
    if a < |Elements(init)| {
      p := Located(init, a);
      assert init[..p / GROUP] == groups[..p / GROUP];
    } else {
      var s := a - |Elements(init)|;
      assert GroupValid(groups[n]);
      p := LastPosition(groups[n], n, s);
    }
  }

  lemma LastPosition<D>(group: Group<D>, n: nat, s: nat) returns (p: nat)
    requires GroupValid(group) && s < |group.slot|
    ensures p / GROUP == n && Rank(group.bits, p % GROUP) == s && At(group, p % GROUP) == Some(group.slot[s])
  {
    hide Bit, Count;
    var i := RankReached(group.bits, GROUP, s);
    BitRankCounts(group.bits, i);
    AtOccupied(group, i);
    p := GROUP * n + i;
  }

  /** The iteration meets exactly the elements of the map, and no key twice. */
  lemma ElementsExactly<K, D>(groups: seq<Group<D>>, size: nat, key: D -> K, hash: K -> int, contents: map<K, D>)
    requires Sound(groups, size, key, hash, contents)
    ensures forall d :: d in Elements(groups) <==> key(d) in contents && contents[key(d)] == d
    ensures forall k :: k in contents ==> contents[k] in Elements(groups)
    ensures OneEach(Elements(groups), key)
    ensures |Elements(groups)| == |contents|
  {
    hide GroupValid, Elements, At, Reachable;
    var all := Elements(groups);
    var slots := Flat(groups, size);
    forall a | 0 <= a < |all| ensures key(all[a]) in contents && contents[key(all[a])] == all[a] {
      var p := InTable(groups, size, key, hash, contents, a);
    }
    forall a, b | 0 <= a < b < |all| ensures key(all[a]) != key(all[b]) {
      var p := InTable(groups, size, key, hash, contents, a);
      var q := InTable(groups, size, key, hash, contents, b);
      if p < q { KeysDistinct(slots, key, hash, p, q); } else { KeysDistinct(slots, key, hash, q, p); }
    }
    forall k | k in contents ensures contents[k] in all && key(contents[k]) == k {
      var p := KeyAt(groups, size, key, hash, contents, k);
      Met(groups, p);
    }
    forall k | k in contents.Keys ensures exists a :: 0 <= a < |all| && key(all[a]) == k {
      var a :| 0 <= a < |all| && all[a] == contents[k];
    }
    KeysOnce(all, key, contents.Keys);
  }

  lemma KeyAt<K, D>(groups: seq<Group<D>>, size: nat, key: D -> K, hash: K -> int, contents: map<K, D>, k: K) returns (p: nat)
    requires Sound(groups, size, key, hash, contents) && k in contents
    ensures p < GROUP * |groups| && Slot(groups, p) == Some(contents[k]) && key(contents[k]) == k
  {
    hide GroupValid, At, Reachable;
    var slots := Flat(groups, size);
    p :| p < |slots| && Holds(slots, key, p, k);
    assert slots[p] == At(groups[p / GROUP], p % GROUP);
  }

  lemma InTable<K, D>(groups: seq<Group<D>>, size: nat, key: D -> K, hash: K -> int, contents: map<K, D>, a: nat) returns (p: nat)
    requires Sound(groups, size, key, hash, contents) && a < |Elements(groups)|
    ensures p < size && p < GROUP * |groups| && Index(groups, p) == a && Flat(groups, size)[p] == Some(Elements(groups)[a])
  {
    hide GroupValid, Elements, At, Reachable, Represents, Index;
    p := Located(groups, a);
    assert Slot(groups, p) == At(groups[p / GROUP], p % GROUP);
  }

  ghost predicate OneEach<K, D>(all: seq<D>, key: D -> K) {
    forall a, b :: 0 <= a < b < |all| ==> key(all[a]) != key(all[b])
  }

  /** A list of elements with distinct keys is as long as its set of keys. */
  lemma {:induction false} KeysOnce<K, D>(all: seq<D>, key: D -> K, keys: set<K>)
    requires OneEach(all, key)
    requires forall a :: 0 <= a < |all| ==> key(all[a]) in keys
    requires forall k :: k in keys ==> exists a :: 0 <= a < |all| && key(all[a]) == k
    ensures |all| == |keys|
    decreases |all|
  {
    if all == [] {
      assert keys == {};
    } else {
      var n := |all| - 1;
      var init, rest := all[..n], keys - {key(all[n])};
      assert |rest| == |keys| - 1;
      forall k | k in rest ensures exists a :: 0 <= a < |init| && key(init[a]) == k {
        var a :| 0 <= a < |all| && key(all[a]) == k;
        assert key(init[a]) == k;
      }
      KeysOnce(init, key, rest);
    }
  }

  // ---- the pointer ----

  class HashPointer<K(==), D> {
    const ht: HashTable<K, D>
    var g: nat
    var i: int

    /** How many elements have been met. */
    ghost function Done(): int
      requires g < ht.table.Length
      reads this, ht, ht.table
    {
      |Elements(ht.table[..g])| + i + 1
    }

    ghost predicate Valid()
      reads this, ht, ht.table
    {
      && AllValid(ht.table[..]) && g < ht.table.Length && -1 <= i < |ht.table[g].slot| && (i < 0 ==> g == 0)
    }

    /** The start of `hash_iterate`. */
    constructor (ht: HashTable<K, D>)
      requires AllValid(ht.table[..]) && ht.table.Length > 0
      ensures Valid() && Done() == 0 && this.ht == ht
    {
      this.ht, g, i := ht, 0, -1;
      new;
      assert ht.table[..0] == [];
    }

    /** `hash_next`, on a table with no deleted elements: the next element, or none when all have been met. */
    method Next() returns (e: Option<D>)
      requires Valid()
      modifies this
      ensures ht.table[..] == old(ht.table[..])
      ensures if old(Done()) < |Elements(ht.table[..])|
              then Valid() && Done() == old(Done()) + 1 && e == Some(Elements(ht.table[..])[old(Done())])
              else e == None
    {
      hide GroupValid;
      i := i + 1;
      while i == |ht.table[g].slot|
        invariant g < ht.table.Length && 0 <= i <= |ht.table[g].slot| && Done() == old(Done()) + 1
        decreases ht.table.Length - g
      {
        if g == ht.table.Length - 1 {
          assert ht.table[..] == ht.table[..g] + [ht.table[g]];
          return None;
        }
        assert ht.table[..g + 1] == ht.table[..g] + [ht.table[g]];
        g, i := g + 1, 0;
      }
      GroupElements(ht.table[..], g, i);
      assert ht.table[..][..g] == ht.table[..g];
      e := Some(ht.table[g].slot[i]);
    }
  }

  lemma SomeGroup<K, D>(groups: seq<Group<D>>, size: nat, key: D -> K, hash: K -> int, contents: map<K, D>)
    requires Sound(groups, size, key, hash, contents)
    ensures AllValid(groups) && (size > 0 ==> groups != [])
  {
  }

  /** `foreach_h`: every element of the table, each once. */
  method ForEach<K, D>(ht: HashTable<K, D>) returns (all: seq<D>)
    requires ht.Valid()
    ensures all == Elements(ht.table[..]) && |all| == |ht.contents|
  {
    hide Elements, Sound;
    ghost var groups := ht.table[..];
    ghost var met := Elements(groups);
    ElementsExactly(groups, ht.size, ht.key, ht.hash, ht.contents);
    SomeGroup(groups, ht.size, ht.key, ht.hash, ht.contents);
    var p := new HashPointer(ht);
    all := [];
    var e := p.Next();
    while e.Some?
      invariant p.ht == ht && ht.table[..] == groups && (e.Some? ==> p.Valid() && p.Done() == |all| + 1)
      invariant |all| <= |met| && all == met[..|all|]
      invariant if |all| < |met| then e == Some(met[|all|]) else e == None
      decreases |met| - |all|
    {
      all := all + [e.value];
      e := p.Next();
    }
    assert all == met;
  }
}
