/**
 The hash table of core/hash.c: sparse groups under triangular probing. For every hash
 function and every run of insertions below the load limit it behaves as a finite map.
 */
module HashTable {
  import opened Common
  import opened SparseGroup
  import opened WordRank
  import opened Probing
  import opened Words

  // ---- the slots of the table, group structure forgotten ----

  type Slots<D> = seq<Option<D>>

  predicate Holds<K(==), D>(slots: Slots<D>, key: D -> K, p: nat, k: K) {
    p < |slots| && slots[p].Some? && key(slots[p].value) == k
  }

  /** The slots the first `n` probes for `k` visit are taken by other keys. */
  predicate Passed<K(==), D>(slots: Slots<D>, key: D -> K, hash: int, k: K, n: nat)
    requires |slots| > 0
  {
    forall j :: 0 <= j < n ==> var p := Probe(|slots|, hash, j); slots[p].Some? && key(slots[p].value) != k
  }

  /** The key `k` is held where its probe `n` finds it. */
  ghost predicate ReachedBy<K, D>(slots: Slots<D>, key: D -> K, hash: K -> int, p: nat, k: K, n: nat)
    requires |slots| > 0
  {
    n < |slots| && Probe(|slots|, hash(k), n) == p && Passed(slots, key, hash(k), k, n)
  }

  /** Every element is where the probes for its key find it. */
  ghost predicate Reachable<K, D>(slots: Slots<D>, key: D -> K, hash: K -> int) {
    forall p :: 0 <= p < |slots| && slots[p].Some? ==> exists n :: ReachedBy(slots, key, hash, p, key(slots[p].value), n)
  }

  /** The elements are exactly those of the map. */
  ghost predicate Represents<K, D>(slots: Slots<D>, key: D -> K, contents: map<K, D>) {
    && (forall p :: 0 <= p < |slots| && slots[p].Some? ==> key(slots[p].value) in contents && contents[key(slots[p].value)] == slots[p].value)
    && (forall k :: k in contents ==> exists p :: Holds(slots, key, p, k))
  }

  /** No key is held twice. */
  lemma KeysDistinct<K, D>(slots: Slots<D>, key: D -> K, hash: K -> int, a: nat, b: nat)
    requires Reachable(slots, key, hash) && a < b < |slots| && slots[a].Some? && slots[b].Some?
    ensures key(slots[a].value) != key(slots[b].value)
  {
  }

  /** A probe that meets an empty slot before the key proves the key is absent. */
  lemma Absent<K, D>(slots: Slots<D>, key: D -> K, hash: K -> int, k: K, n: nat, p: nat)
    requires Reachable(slots, key, hash) && |slots| > 0 && n < |slots|
    requires Passed(slots, key, hash(k), k, n) && slots[Probe(|slots|, hash(k), n)].None?
    ensures !Holds(slots, key, p, k)
  {
  }

  function KeysOf<K(==), D>(slots: Slots<D>, key: D -> K, n: nat): set<K>
    requires n <= |slots| && forall p :: 0 <= p < n ==> slots[p].Some?
  {
    if n == 0 then {} else KeysOf(slots, key, n - 1) + {key(slots[n - 1].value)}
  }

  lemma {:induction false} KeyAmong<K, D>(slots: Slots<D>, key: D -> K, n: nat, k: K)
    requires n <= |slots| && (forall p :: 0 <= p < n ==> slots[p].Some?) && k in KeysOf(slots, key, n)
    ensures exists p :: 0 <= p < n && Holds(slots, key, p, k)
  {
    if k == key(slots[n - 1].value) {
      assert Holds(slots, key, n - 1, k);
    } else {
      KeyAmong(slots, key, n - 1, k);
    }
  }

  lemma HoldsMeans<K, D>(slots: Slots<D>, key: D -> K, p: nat, k: K)
    requires Holds(slots, key, p, k)
    ensures p < |slots| && slots[p].Some? && key(slots[p].value) == k
  {
  }

  lemma {:induction false} KeysCount<K, D>(slots: Slots<D>, key: D -> K, hash: K -> int, contents: map<K, D>, n: nat)
    requires Reachable(slots, key, hash) && Represents(slots, key, contents)
    requires n <= |slots| && forall p :: 0 <= p < |slots| ==> slots[p].Some?
    ensures |KeysOf(slots, key, n)| == n && KeysOf(slots, key, n) <= contents.Keys
  {
    hide Reachable, Holds;
    if n > 0 {
      assert key(slots[n - 1].value) in contents;
      hide Represents;
      KeysCount(slots, key, hash, contents, n - 1);
      var k := key(slots[n - 1].value);
      if k in KeysOf(slots, key, n - 1) {
        KeyAmong(slots, key, n - 1, k);
        var p :| 0 <= p < n - 1 && Holds(slots, key, p, k);
        assert key(slots[p].value) == k by { HoldsMeans(slots, key, p, k); }
        KeysDistinct(slots, key, hash, p, n - 1);
        assert false;
      }
    }
  }

  lemma SubsetSmaller<K>(a: set<K>, b: set<K>)
    requires a <= b
    ensures |a| <= |b|
  {
    assert b == a + (b - a);
  }

  /** Fewer elements than slots leave a slot empty. */
  lemma EmptySlot<K, D>(slots: Slots<D>, key: D -> K, hash: K -> int, contents: map<K, D>) returns (p: nat)
    requires Reachable(slots, key, hash) && Represents(slots, key, contents) && |contents| < |slots|
    ensures p < |slots| && slots[p].None?
  {
    if exists q :: 0 <= q < |slots| && slots[q].None? {
      p :| 0 <= p < |slots| && slots[p].None?;
    } else {
      KeysCount(slots, key, hash, contents, |slots|);
      SubsetSmaller(KeysOf(slots, key, |slots|), contents.Keys);
      assert false;
    }
  }

  /** The search for any key ends within `size` probes. */
  lemma SearchEnds<K, D>(m: nat, slots: Slots<D>, key: D -> K, hash: K -> int, contents: map<K, D>, k: K) returns (n: nat)
    requires |slots| == Pow2(m) && Reachable(slots, key, hash) && Represents(slots, key, contents) && |contents| < |slots|
    ensures n < |slots| && slots[Probe(|slots|, hash(k), n)].None?
  {
    var p := EmptySlot(slots, key, hash, contents);
    n := EverySlotOnce(m, hash(k), p);
  }

  // ---- an insertion ----

  /** A new element at the first empty slot of its probes: the map gains the element, and
      every other element stays reachable. */
  lemma Inserted<K, D>(slots: Slots<D>, key: D -> K, hash: K -> int, contents: map<K, D>, data: D, n: nat)
    requires |slots| > 0 && n < |slots| && Reachable(slots, key, hash) && Represents(slots, key, contents)
    requires Passed(slots, key, hash(key(data)), key(data), n) && slots[Probe(|slots|, hash(key(data)), n)].None?
    ensures key(data) !in contents
    ensures var r := slots[Probe(|slots|, hash(key(data)), n) := Some(data)];
      Reachable(r, key, hash) && Represents(r, key, contents[key(data) := data])
  {
    var k := key(data);
    var at := Probe(|slots|, hash(k), n);
    var r := slots[at := Some(data)];
    if k in contents {
      var p :| Holds(slots, key, p, k);
      Absent(slots, key, hash, k, n, p);
    }
    forall p | 0 <= p < |r| && r[p].Some? ensures exists j :: ReachedBy(r, key, hash, p, key(r[p].value), j) {
      if p == at {
        assert ReachedBy(r, key, hash, at, k, n);
      } else {
        var k' := key(slots[p].value);
        var j :| ReachedBy(slots, key, hash, p, k', j);
        assert ReachedBy(r, key, hash, p, k', j);
      }
    }
    InsertedMap(slots, key, contents, data, at);
  }

  lemma InsertedMap<K, D>(slots: Slots<D>, key: D -> K, contents: map<K, D>, data: D, at: nat)
    requires Represents(slots, key, contents) && at < |slots| && key(data) !in contents && slots[at].None?
    ensures Represents(slots[at := Some(data)], key, contents[key(data) := data])
  {
    var r := slots[at := Some(data)];
    assert Holds(r, key, at, key(data));
    forall k | k in contents ensures exists p :: Holds(r, key, p, k) {
      var p :| Holds(slots, key, p, k);
      assert Holds(r, key, p, k);
    }
  }

  /** A new element in the place of the one with its key. */
  lemma Replaced<K, D>(slots: Slots<D>, key: D -> K, hash: K -> int, contents: map<K, D>, data: D, at: nat)
    requires Reachable(slots, key, hash) && Represents(slots, key, contents) && Holds(slots, key, at, key(data))
    ensures key(data) in contents
    ensures var r := slots[at := Some(data)];
      Reachable(r, key, hash) && Represents(r, key, contents[key(data) := data])
  {
    var r := slots[at := Some(data)];
    forall p | 0 <= p < |r| && r[p].Some? ensures exists j :: ReachedBy(r, key, hash, p, key(r[p].value), j) {
      var k' := key(slots[p].value);
      var j :| ReachedBy(slots, key, hash, p, k', j);
      assert ReachedBy(r, key, hash, p, k', j);
    }
    forall p | 0 <= p < |slots| && slots[p].Some? && p != at ensures key(slots[p].value) != key(data) {
      if p < at { KeysDistinct(slots, key, hash, p, at); } else { KeysDistinct(slots, key, hash, at, p); }
    }
    assert Holds(r, key, at, key(data));
    forall k | k in contents ensures exists p :: Holds(r, key, p, k) {
      var p :| Holds(slots, key, p, k);
      assert Holds(r, key, p, k);
    }
  }

  // ---- the table ----

  /** The slots behind the groups. */
  function Flat<D>(groups: seq<Group<D>>, size: nat): (slots: Slots<D>)
    requires |groups| == (size + 57) / GROUP
    ensures |slots| == size && forall p :: 0 <= p < size ==> slots[p] == At(groups[p / GROUP], p % GROUP)
  {
    seq(size, p requires 0 <= p < size => At(groups[p / GROUP], p % GROUP))
  }

  /** What holds of the groups between calls. */
  ghost predicate Sound<K, D>(groups: seq<Group<D>>, size: nat, key: D -> K, hash: K -> int, contents: map<K, D>) {
    && |groups| == (size + 57) / GROUP && (forall g :: 0 <= g < |groups| ==> GroupValid(groups[g]))
    && (forall p :: size <= p < GROUP * |groups| ==> At(groups[p / GROUP], p % GROUP).None?)
    && Reachable(Flat(groups, size), key, hash) && Represents(Flat(groups, size), key, contents)
  }

  /** The probes for `k` first meet an empty slot at `p`. */
  ghost predicate OpenAt<K, D>(slots: Slots<D>, key: D -> K, hash: int, k: K, n: nat, p: nat)
    requires |slots| > 0
  {
    n < |slots| && Probe(|slots|, hash, n) == p && Passed(slots, key, hash, k, n)
  }

  lemma PassedNone<K, D>(slots: Slots<D>, key: D -> K, hash: int, k: K)
    requires |slots| > 0
    ensures Passed(slots, key, hash, k, 0)
  {
  }

  lemma PassedOne<K, D>(slots: Slots<D>, key: D -> K, hash: int, k: K, n: nat)
    requires |slots| > 0 && Passed(slots, key, hash, k, n)
    requires var p := Probe(|slots|, hash, n); slots[p].Some? && key(slots[p].value) != k
    ensures Passed(slots, key, hash, k, n + 1)
  {
  }

  lemma GroupReplaced<D>(g: Group<D>, i: nat, data: D)
    requires GroupValid(g) && i < GROUP && Bit(g.bits, i)
    ensures var r := SgReplace(g, i, data);
      GroupValid(r) && forall j :: 0 <= j < GROUP ==> At(r, j) == if j == i then Some(data) else At(g, j)
  {
    hide Rank, Bit, Count;
    forall j | 0 <= j < GROUP
      ensures GroupValid(SgReplace(g, i, data)) && At(SgReplace(g, i, data), j) == if j == i then Some(data) else At(g, j)
    {
      ReplaceChangesOne(g, i, data, j);
    }
    ReplaceChangesOne(g, i, data, i);
  }

  lemma GroupInserted<D>(g: Group<D>, i: nat, data: D)
    requires GroupValid(g) && i < GROUP && !Bit(g.bits, i)
    ensures var r := SgInsert(g, i, data);
      GroupValid(r) && forall j :: 0 <= j < GROUP ==> At(r, j) == if j == i then Some(data) else At(g, j)
  {
    hide Rank, Bit, Count, SgInsert;
    forall j | 0 <= j < GROUP
      ensures GroupValid(SgInsert(g, i, data)) && At(SgInsert(g, i, data), j) == if j == i then Some(data) else At(g, j)
    {
      InsertChangesOne(g, i, data, j);
    }
    InsertChangesOne(g, i, data, i);
  }

  /** A change of one position of one group changes one slot of the table. */
  lemma FlatChanged<D>(groups: seq<Group<D>>, size: nat, p: nat, group: Group<D>, data: D)
    requires |groups| == (size + 57) / GROUP && p < size
    requires forall j :: 0 <= j < GROUP ==> At(group, j) == if j == p % GROUP then Some(data) else At(groups[p / GROUP], j)
    ensures Flat(groups[p / GROUP := group], size) == Flat(groups, size)[p := Some(data)]
  {
    hide At;
    var r := groups[p / GROUP := group];
    forall q | 0 <= q < size ensures Flat(r, size)[q] == Flat(groups, size)[p := Some(data)][q] {
      assert q == (q / GROUP) * GROUP + q % GROUP && p == (p / GROUP) * GROUP + p % GROUP;
    }
  }

  lemma KeyKept<K, D>(m: map<K, D>, k: K, data: D)
    requires k in m
    ensures |m[k := data]| == |m|
  {
    assert m[k := data].Keys == m.Keys;
  }

  lemma KeyAdded<K, D>(m: map<K, D>, k: K, data: D)
    requires k !in m
    ensures |m[k := data]| == |m| + 1
  {
    assert m[k := data].Keys == m.Keys + {k};
  }

  lemma ReplacedSound<K, D>(groups: seq<Group<D>>, size: nat, key: D -> K, hash: K -> int, contents: map<K, D>, p: nat, data: D)
    requires Sound(groups, size, key, hash, contents) && p < size && Holds(Flat(groups, size), key, p, key(data))
    ensures GroupValid(groups[p / GROUP]) && Bit(groups[p / GROUP].bits, p % GROUP)
    ensures Sound(groups[p / GROUP := SgReplace(groups[p / GROUP], p % GROUP, data)], size, key, hash, contents[key(data) := data])
    ensures |contents[key(data) := data]| == |contents|
  {
    hide Rank, Bit, Count, At, GroupValid, Reachable, Represents, SgReplace;
    var group := groups[p / GROUP];
    AtOccupied(group, p % GROUP);
    GroupReplaced(group, p % GROUP, data);
    FlatChanged(groups, size, p, SgReplace(group, p % GROUP, data), data);
    Replaced(Flat(groups, size), key, hash, contents, data, p);
    KeyKept(contents, key(data), data);
  }

  lemma InsertedSound<K, D>(groups: seq<Group<D>>, size: nat, key: D -> K, hash: K -> int, contents: map<K, D>, p: nat, data: D, n: nat)
    requires Sound(groups, size, key, hash, contents) && p < size && Flat(groups, size)[p].None?
    requires OpenAt(Flat(groups, size), key, hash(key(data)), key(data), n, p)
    ensures GroupValid(groups[p / GROUP]) && !Bit(groups[p / GROUP].bits, p % GROUP)
    ensures Sound(groups[p / GROUP := SgInsert(groups[p / GROUP], p % GROUP, data)], size, key, hash, contents[key(data) := data])
    ensures |contents[key(data) := data]| == |contents| + 1
  {
    hide Rank, Bit, Count, At, GroupValid, Reachable, Represents, SgInsert;
    var group := groups[p / GROUP];
    AtOccupied(group, p % GROUP);
    GroupInserted(group, p % GROUP, data);
    FlatChanged(groups, size, p, SgInsert(group, p % GROUP, data), data);
    Inserted(Flat(groups, size), key, hash, contents, data, n);
    KeyAdded(contents, key(data), data);
  }

  lemma NewSound<K, D>(groups: seq<Group<D>>, size: nat, key: D -> K, hash: K -> int)
    requires |groups| == (size + 57) / GROUP && forall g :: 0 <= g < |groups| ==> groups[g] == NewGroup<D>()
    ensures Sound(groups, size, key, hash, map[])
  {
    NewGroupEmpty<D>(0);
    forall p | 0 <= p < size ensures Flat(groups, size)[p].None? {
      NewGroupEmpty<D>(p % GROUP);
      AtOccupied(groups[p / GROUP], p % GROUP);
    }
    hide GroupValid;
  }

  class HashTable<K(==), D> {
    const key: D -> K
    const hash: K -> int
    const size: nat
    const max: nat
    const table: array<Group<D>>
    var items: nat
    // the group and position marked for an insertion, none while `g` is negative
    var g: int
    var i: nat
    ghost const log: nat
    ghost var contents: map<K, D>

    ghost predicate Valid()
      reads this, table
    {
      && size == Pow2(log) && max == size * 80 / 100 && items == |contents| && items <= max
      && Sound(table[..], size, key, hash, contents)
    }

    ghost function View(): (slots: Slots<D>)
      requires table.Length == (size + 57) / GROUP
      reads this, table
    {
      Flat(table[..], size)
    }

    /** `hash_new`; the size must be a power of two. */
    constructor (ghost log: nat, size: nat, key: D -> K, hash: K -> int)
      requires size == Pow2(log)
      ensures Valid() && contents == map[] && fresh(table)
      ensures this.size == size && this.key == key && this.hash == hash
      ensures 100 * max <= 80 * size < 100 * (max + 1)
    {
      this.log, this.size, this.key, this.hash := log, size, key, hash;
      max := size * 80 / 100;
      items, g, i, contents := 0, -1, 0, map[];
      table := new Group<D>[(size + 57) / GROUP](_ => NewGroup<D>());
      new;
      NewSound(table[..], size, key, hash);
      hide Sound;
    }

    /** The first empty slot the probes for `k` meet is `p`, and it is marked. */
    ghost predicate Vacant(k: K, p: nat)
      requires table.Length == (size + 57) / GROUP
      reads this, table
    {
      && p < size && g == p / GROUP && i == p % GROUP && View()[p].None?
      && exists n :: OpenAt(View(), key, hash(k), k, n, p)
    }

    /** `hash_find`: the slot of the key, or else a mark where it can be put. */
    method Find(k: K) returns (found: bool, p: nat)
      requires Valid()
      modifies this`g, this`i
      ensures Valid() && table.Length == (size + 57) / GROUP && p < size
      ensures if found then Holds(View(), key, p, k) else Vacant(k, p)
    {
      hide GroupValid, Rank, Probe, Reachable, Represents, Pow2, At, Following, Passed, Start;
      ghost var slots := View();
      ghost var last := SearchEnds(log, slots, key, hash, contents, k);
      hide Sound, Flat;
      var probes: nat := 0;
      p := Start(size, hash(k));
      g := -1;
      PassedNone(slots, key, hash(k), k);
      while true
        invariant g == -1 && Valid() && table.Length == (size + 57) / GROUP && View() == slots && p < size
        invariant p == Probe(size, hash(k), probes) && probes <= last
        invariant Passed(slots, key, hash(k), k, probes)
        decreases last - probes
      {
        var e := Element(p);
        if e.None? {
          g, i := p / GROUP, p % GROUP;
          assert OpenAt(View(), key, hash(k), k, probes, p);
          assert View()[p].None?;
          return false, p;
        }
        if key(e.value) == k { return true, p; }
        assert probes != last;
        FollowingProbe(size, hash(k), probes);
        PassedOne(slots, key, hash(k), k, probes);
        probes := probes + 1;
        p := Following(size, p, probes);
      }
    }

    /** `sg_empty` and `sg_element` at a slot. */
    method Element(p: nat) returns (e: Option<D>)
      requires Valid() && p < size
      ensures e == View()[p]
    {
      var group := table[p / GROUP];
      assert GroupValid(group);
      AtOccupied(group, p % GROUP);
      hide Reachable, Represents, GroupValid;
      e := if Bit(group.bits, p % GROUP) then Some(group.slot[BitRank(group.bits, p % GROUP)]) else None;
    }

    /** `*e = data` */
    method Replace(p: nat, data: D)
      requires Valid() && p < size && table.Length == (size + 57) / GROUP && Holds(View(), key, p, key(data))
      modifies this`contents, table
      ensures Valid() && contents == old(contents)[key(data) := data]
    {
      hide GroupValid, Reachable, Represents, Pow2, Holds, Flat, SgReplace, Bit, Rank;
      ReplacedSound(table[..], size, key, hash, contents, p, data);
      hide Sound;
      table[p / GROUP] := SgReplace(table[p / GROUP], p % GROUP, data);
      contents := contents[key(data) := data];
    }

    /** `hash_insert` at the mark. */
    method Insert(p: nat, data: D)
      requires Valid() && table.Length == (size + 57) / GROUP && Vacant(key(data), p) && items < max
      modifies this`contents, this`items, table
      ensures Valid() && contents == old(contents)[key(data) := data]
    {
      hide GroupValid, Reachable, Represents, Pow2, Flat, SgInsert, OpenAt, Bit, Rank;
      ghost var n :| OpenAt(View(), key, hash(key(data)), key(data), n, p);
      InsertedSound(table[..], size, key, hash, contents, p, data, n);
      hide Sound;
      table[g] := SgInsert(table[g], i, data);
      contents := contents[key(data) := data];
      items := items + 1;
    }

    /** `hash_put`, below the load limit or for a key the table holds. */
    method Put(data: D)
      requires Valid() && (items < max || key(data) in contents)
      modifies this, table
      ensures Valid() && contents == old(contents)[key(data) := data]
    {
      var found, p := Find(key(data));
      if found {
        hide *;
        Replace(p, data);
      } else {
        VacantAbsent(key(data), p);
        hide *;
        Insert(p, data);
      }
    }

    /** A key with no slot of its own is not in the table. */
    lemma VacantAbsent(k: K, p: nat)
      requires Valid() && table.Length == (size + 57) / GROUP && Vacant(k, p)
      ensures k !in contents
    {
      hide GroupValid, Flat, Pow2, Rank;
      var n :| OpenAt(View(), key, hash(k), k, n, p);
      forall q ensures !Holds(View(), key, q, k) { Absent(View(), key, hash, k, n, q); }
    }

    /** `hash_get` */
    method Get(k: K) returns (r: Option<D>)
      requires Valid()
      modifies this`g, this`i
      ensures Valid() && r == if k in contents then Some(contents[k]) else None
    {
      var found, p := Find(k);
      if found {
        r := Element(p);
      } else {
        VacantAbsent(k, p);
        r := None;
      }
    }
  }

  /** The slot of a further probe. */
  function Following(size: nat, p: nat, probes: nat): (r: nat)
    requires size > 0
    ensures r < size
  {
    (p + probes) % size
  }

  lemma FollowingProbe(size: nat, hash: int, n: nat)
    requires size > 0
    ensures Following(size, Probe(size, hash, n), n + 1) == Probe(size, hash, n + 1)
  {
    hide Probe;
    ProbeNext(size, hash, n);
  }

  /** The slot of the first probe. */
  function Start(size: nat, hash: int): (p: nat)
    requires size > 0
    ensures p == Probe(size, hash, 0)
  {
    hash % size
  }
}
