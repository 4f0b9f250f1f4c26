/**
 The ordering of schema types in core/schema_gen.c: `build_graph` collects an edge from each
 type to every type it depends on, and `top_sort` takes types nobody depends on, one after
 the other, putting each in front of those taken before it.
 */
module TopSort {
  import opened Common

  /** The identity of a schema type. */
  type Type = nat

  /** Type `a` depends on type `b`. */
  datatype Edge = Edge(a: Type, b: Type)

  /** Every dependency goes down some measure. */
  ghost predicate Acyclic(edges: seq<Edge>) {
    exists rank: Type -> nat :: Descends(edges, rank)
  }

  ghost predicate Descends(edges: seq<Edge>, rank: Type -> nat) {
    forall i :: 0 <= i < |edges| ==> rank(edges[i].b) < rank(edges[i].a)
  }

  predicate Pointed(edges: seq<Edge>, x: Type) { exists i :: 0 <= i < |edges| && edges[i].b == x }

  /** Edges between the given types only. */
  predicate Among(edges: seq<Edge>, types: seq<Type>) {
    forall i :: 0 <= i < |edges| ==> edges[i].a in types && edges[i].b in types
  }

  /** Every dependency that is listed has its dependents listed behind it. */
  ghost predicate Ordered(edges: seq<Edge>, l: seq<Type>) {
    forall i, p :: 0 <= i < |edges| && 0 <= p < |l| && l[p] == edges[i].b ==> exists q :: p < q < |l| && l[q] == edges[i].a
  }

  /** Every type once, each after all it depends on. */
  ghost predicate Sorted(edges: seq<Edge>, types: seq<Type>, l: seq<Type>) {
    && Unique(l) && (forall x :: x in l <==> x in types)
    && (forall i :: 0 <= i < |edges| ==> Before(l, edges[i].b, edges[i].a))
  }

  predicate Before(l: seq<Type>, x: Type, y: Type) { exists p, q :: 0 <= p < q < |l| && l[p] == x && l[q] == y }

  class Graph {
    var start: seq<Type>
    var edges: seq<Edge>

    constructor ()
      ensures start == [] && edges == []
    {
      start, edges := [], [];
    }

    /** `list_delete` on the start list. */
    method Delete(x: Type)
      requires Unique(start)
      modifies this`start
      ensures Unique(start) && forall y :: y in start <==> y in old(start) && y != x
    {
      var i := 0;
      while i < |start| && start[i] != x
        invariant i <= |start| && x !in start[..i]
      {
        i := i + 1;
      }
      if i < |start| {
        Dropped(start, i);
        start := Drop(start, i);
      }
    }

    /** The edges of one type. */
    method AddDeps(t: Type, deps: seq<Type>)
      modifies this`edges
      ensures forall e :: e in edges <==> e in old(edges) || (e.a == t && e.b in deps)
    {
      var j := 0;
      while j < |deps|
        invariant j <= |deps|
        invariant forall e :: e in edges <==> e in old(edges) || (e.a == t && e.b in deps[..j])
      {
        edges := [Edge(t, deps[j])] + edges;
        assert deps[..j + 1] == deps[..j] + [deps[j]];
        j := j + 1;
      }
      assert deps[..j] == deps;
    }

    /** `build_graph`: `deps[i]` lists what `types[i]` depends on. */
    method Build(types: seq<Type>, deps: seq<seq<Type>>)
      requires |deps| == |types| && Unique(types)
      requires forall i, j :: 0 <= i < |deps| && 0 <= j < |deps[i]| ==> deps[i][j] in types
      modifies this
      ensures forall e :: e in edges <==> exists i :: Dep(types, deps, i, e)
      ensures Among(edges, types)
      ensures Unique(start) && forall x :: x in start <==> x in types && !Pointed(edges, x)
    {
      start, edges := [], [];
      var i := 0;
      while i < |types|
        invariant i <= |types| && Unique(start)
        invariant forall x :: x in start <==> x in types[..i]
        invariant forall e :: e in edges <==> exists k :: 0 <= k < i && Dep(types, deps, k, e)
      {
        assert types[..i + 1] == types[..i] + [types[i]];
        assert types[i] !in types[..i];
        start := [types[i]] + start;
        AddDeps(types[i], deps[i]);
        assert forall e :: Dep(types, deps, i, e) <==> e.a == types[i] && e.b in deps[i];
        i := i + 1;
      }
      assert types[..i] == types;
      label built:
      i := 0;
      while i < |edges|
        invariant i <= |edges| && Unique(start) && edges == old@built(edges)
        invariant forall x :: x in start <==> x in types && !Pointed(edges[..i], x)
      {
        Delete(edges[i].b);
        PointedMore(edges, i);
        i := i + 1;
      }
      assert edges[..i] == edges;
      forall k | 0 <= k < |edges| ensures edges[k].a in types && edges[k].b in types {
        assert edges[k] in edges;
        var j :| Dep(types, deps, j, edges[k]);
      }
    }

    /** `top_sort` */
    method Sort(ghost types: seq<Type>) returns (l: seq<Type>)
      requires Among(edges, types)
      requires Unique(start) && forall x :: x in start <==> x in types && !Pointed(edges, x)
      modifies this
      ensures Stuck(old(edges), types, l)
      ensures Sorted(old(edges), types, l) <==> Acyclic(old(edges))
    {
      l := [];
      var s := start;
      ghost var all := edges;
      while s != []
        invariant Progress(all, edges, types, l, s)
        decreases |types| - |l|
      {
        var n := s[0];
        Listing(all, edges, types, l, s);
        l := [n] + l;
        s := Visit(n, s[1..], all, types, l);
        Shorter(l, types);
      }
      forall x | x in types && x !in l ensures Blocked(all, l, x) {
        var k :| 0 <= k < |edges| && edges[k].b == x;
        assert edges[k] in edges;
        assert edges[k] in all;
      }
      if Acyclic(all) { AllListed(all, types, l); }
      if Sorted(all, types, l) { ListedAcyclic(all, types, l); }
    }

    /** One round of the outer loop: the edges of `n` go, and with them the last obstacle of
        some types. */
    method Visit(n: Type, from: seq<Type>, ghost all: seq<Edge>, ghost types: seq<Type>, ghost l: seq<Type>) returns (s: seq<Type>)
      requires Visiting(all, edges, types, l, from, n, 0)
      modifies this`edges
      ensures Progress(all, edges, types, l, s)
    {
      s := from;
      var i := 0;
      hide Among, Ordered, Waiting, Pointed, Drop;
      while i < |edges|
        invariant Visiting(all, edges, types, l, s, n, i)
        decreases |edges| - i
      {
        if edges[i].a == n {
          var m := edges[i].b;
          Removing(all, edges, types, l, s, n, i);
          edges := Drop(edges, i);
          var inUse := InUse(m);
          if !inUse { s := [m] + s; }
        } else {
          i := i + 1;
        }
      }
    }

    method InUse(m: Type) returns (used: bool)
      ensures used == Pointed(edges, m)
    {
      for j := 0 to |edges|
        invariant forall k :: 0 <= k < j ==> edges[k].b != m
      {
        if edges[j].b == m { return true; }
      }
      used := false;
    }
  }

  /** `types[i]` depends on what `e` points to. */
  predicate Dep(types: seq<Type>, deps: seq<seq<Type>>, i: int, e: Edge) {
    0 <= i < |types| && i < |deps| && e.a == types[i] && e.b in deps[i]
  }

  lemma PointedMore(edges: seq<Edge>, i: nat)
    requires i < |edges|
    ensures forall x :: Pointed(edges[..i + 1], x) <==> Pointed(edges[..i], x) || x == edges[i].b
  {
    var p, q := edges[..i], edges[..i + 1];
    assert forall k :: 0 <= k < i ==> p[k] == q[k];
    assert q[i] == edges[i];
    forall x ensures Pointed(q, x) <==> Pointed(p, x) || x == edges[i].b {
      if Pointed(p, x) {
        var k :| 0 <= k < i && p[k].b == x;
        assert q[k].b == x;
      }
      if Pointed(q, x) {
        var k :| 0 <= k <= i && q[k].b == x;
        if k < i { assert p[k].b == x; }
      }
    }
  }

  /** What the outer loop keeps: the edges left are those of types not yet listed, a type is
      listed or waiting exactly when no edge left points to it, and the list is in order. */
  ghost predicate Progress(all: seq<Edge>, edges: seq<Edge>, types: seq<Type>, l: seq<Type>, s: seq<Type>) {
    && Among(all, types) && Ordered(all, l)
    && (forall e :: e in edges <==> e in all && e.a !in l)
    && Waiting(edges, types, l, s)
  }

  ghost predicate Waiting(edges: seq<Edge>, types: seq<Type>, l: seq<Type>, s: seq<Type>) {
    && Unique(l) && Unique(s) && (forall x :: x in s ==> x !in l)
    && (forall x :: x in l || x in s <==> x in types && !Pointed(edges, x))
  }

  /** The same while the edges of `n`, just listed, are being removed; none is left in front of `i`. */
  ghost predicate Visiting(all: seq<Edge>, edges: seq<Edge>, types: seq<Type>, l: seq<Type>, s: seq<Type>, n: Type, i: nat) {
    && Among(all, types) && Ordered(all, l) && i <= |edges| && n in l
    && (forall e :: e in edges ==> e in all && (e.a !in l || e.a == n))
    && (forall e :: e in all && e.a !in l ==> e in edges)
    && (forall j :: 0 <= j < i ==> edges[j].a != n)
    && Waiting(edges, types, l, s)
  }

  /** The first waiting type may be listed: all that depend on it are. */
  lemma Listing(all: seq<Edge>, edges: seq<Edge>, types: seq<Type>, l: seq<Type>, s: seq<Type>)
    requires Progress(all, edges, types, l, s) && s != []
    ensures Visiting(all, edges, types, [s[0]] + l, s[1..], s[0], 0)
  {
    var n := s[0];
    var r := [n] + l;
    assert n in s && s == [n] + s[1..];
    assert forall e :: e in all && e.a !in l ==> Pointed(edges, e.b);
    assert Ordered(all, r) by {
      forall i, p | 0 <= i < |all| && 0 <= p < |r| && r[p] == all[i].b ensures exists q :: p < q < |r| && r[q] == all[i].a {
        assert all[i] in all;
        if p == 0 {
          var q :| 0 <= q < |l| && l[q] == all[i].a;
          assert r[q + 1] == all[i].a;
        } else {
          assert l[p - 1] == all[i].b;
          var q :| p - 1 < q < |l| && l[q] == all[i].a;
          assert r[q + 1] == all[i].a;
        }
      }
    }
  }

  /** One edge less. Its target waits from now on if nothing else points to it. */
  lemma Removing(all: seq<Edge>, edges: seq<Edge>, types: seq<Type>, l: seq<Type>, s: seq<Type>, n: Type, i: nat)
    requires Visiting(all, edges, types, l, s, n, i) && i < |edges| && edges[i].a == n
    ensures var m, r := edges[i].b, Drop(edges, i);
      Visiting(all, r, types, l, if Pointed(r, m) then s else [m] + s, n, i)
  {
    var m, r := edges[i].b, Drop(edges, i);
    EdgesLeft(edges, i);
    assert forall j :: 0 <= j < i ==> r[j] == edges[j];
    assert edges[i] in edges && edges[i] in all;
    hide Drop, Ordered;
    assert m in types by {
      var k :| 0 <= k < |all| && all[k] == edges[i];
    }
    RemovingWaits(edges, r, types, l, s, m);
    hide Waiting, Pointed, Among;
  }

  /** With its last edge gone, a type waits. */
  lemma RemovingWaits(edges: seq<Edge>, r: seq<Edge>, types: seq<Type>, l: seq<Type>, s: seq<Type>, m: Type)
    requires Waiting(edges, types, l, s) && m in types
    requires forall x :: Pointed(edges, x) <==> x == m || Pointed(r, x)
    ensures Waiting(r, types, l, if Pointed(r, m) then s else [m] + s)
  {
    assert m !in l && m !in s;
    hide Pointed;
    if !Pointed(r, m) {
      var q := [m] + s;
      assert forall x :: x in q <==> x == m || x in s;
      assert forall i :: 0 < i < |q| ==> q[i] == s[i - 1];
    }
  }

  lemma EdgesLeft(edges: seq<Edge>, i: nat)
    requires i < |edges|
    ensures forall e :: e in edges <==> e == edges[i] || e in Drop(edges, i)
    ensures forall x :: Pointed(edges, x) <==> x == edges[i].b || Pointed(Drop(edges, i), x)
  {
    var r := Drop(edges, i);
    forall j | 0 <= j < |edges| && j != i ensures edges[j] in r {
      assert r[if j < i then j else j - 1] == edges[j];
    }
    forall j | 0 <= j < |r| ensures r[j] in edges {
      assert r[j] == edges[if j < i then j else j + 1];
    }
    hide Drop;
    forall x ensures Pointed(edges, x) <==> x == edges[i].b || Pointed(r, x) {
      PointedIn(edges, x);
      PointedIn(r, x);
      hide Pointed;
    }
  }

  lemma PointedIn(edges: seq<Edge>, x: Type)
    ensures Pointed(edges, x) <==> exists e :: e in edges && e.b == x
  {
    if j :| 0 <= j < |edges| && edges[j].b == x { assert edges[j] in edges; }
  }

  lemma Shorter(l: seq<Type>, types: seq<Type>)
    requires Unique(l) && forall x :: x in l ==> x in types
    ensures |l| <= |types|
  {
    ToSetSize(l);
    ToSetSize(types);
    var a, b := ToSet(l), ToSet(types);
    assert a <= b && b == a + (b - a);
  }

  function ToSet(q: seq<Type>): (s: set<Type>)
    ensures forall x :: x in s <==> x in q
  {
    if q == [] then {} else ToSetHead(q); {q[0]} + ToSet(q[1..])
  }

  lemma ToSetHead(q: seq<Type>)
    requires q != []
    ensures forall x :: x in q <==> x == q[0] || x in q[1..]
  {
    assert q == [q[0]] + q[1..];
  }

  lemma {:induction false} ToSetSize(q: seq<Type>)
    ensures |ToSet(q)| <= |q| && (Unique(q) ==> |ToSet(q)| == |q|)
  {
    if q != [] { ToSetSize(q[1..]); }
  }

  // ---- what the list says of the graph ----

  /** The list is in order, and every type missing from it has a dependent missing too. */
  ghost predicate Stuck(all: seq<Edge>, types: seq<Type>, l: seq<Type>) {
    && Among(all, types) && Unique(l) && Ordered(all, l) && (forall x :: x in l ==> x in types)
    && (forall x :: x in types && x !in l ==> Blocked(all, l, x))
  }

  predicate Blocked(all: seq<Edge>, l: seq<Type>, x: Type) {
    exists i :: 0 <= i < |all| && all[i].b == x && all[i].a !in l
  }

  /** From a missing type one can climb from dependent to dependent without end. */
  lemma {:induction false} Climb(all: seq<Edge>, types: seq<Type>, l: seq<Type>, rank: Type -> nat, x: Type, top: nat)
    requires Stuck(all, types, l) && Descends(all, rank) && x in types && x !in l
    requires forall y :: y in types ==> rank(y) <= top
    ensures false
    decreases top - rank(x)
  {
    var i := Dependent(all, types, l, x);
    hide Stuck;
    Climb(all, types, l, rank, all[i].a, top);
  }

  lemma Dependent(all: seq<Edge>, types: seq<Type>, l: seq<Type>, x: Type) returns (i: nat)
    requires Stuck(all, types, l) && x in types && x !in l
    ensures i < |all| && all[i].b == x && all[i].a in types && all[i].a !in l
  {
    hide Ordered, Unique;
    i :| 0 <= i < |all| && all[i].b == x && all[i].a !in l;
  }

  lemma {:induction false} Highest(types: seq<Type>, rank: Type -> nat) returns (top: nat)
    ensures forall y :: y in types ==> rank(y) <= top
  {
    top := 0;
    if types != [] {
      var t := Highest(types[1..], rank);
      top := if rank(types[0]) > t then rank(types[0]) else t;
      assert types == [types[0]] + types[1..];
    }
  }

  /** Without cycles every type is listed, after all it depends on. */
  lemma AllListed(all: seq<Edge>, types: seq<Type>, l: seq<Type>)
    requires Stuck(all, types, l) && Acyclic(all)
    ensures Sorted(all, types, l)
  {
    NoneMissing(all, types, l);
    hide Acyclic, Descends;
    forall i | 0 <= i < |all| ensures Before(l, all[i].b, all[i].a) {
      assert all[i].b in types;
      var p :| 0 <= p < |l| && l[p] == all[i].b;
      var q :| p < q < |l| && l[q] == all[i].a;
    }
  }

  lemma NoneMissing(all: seq<Edge>, types: seq<Type>, l: seq<Type>)
    requires Stuck(all, types, l) && Acyclic(all)
    ensures forall x :: x in types ==> x in l
  {
    var rank :| Descends(all, rank);
    hide *;
    var top := Highest(types, rank);
    forall x | x in types ensures x in l {
      if x !in l { Climb(all, types, l, rank, x, top); }
    }
  }

  function Position(l: seq<Type>, x: Type): nat {
    if l == [] || l[0] == x then 0 else 1 + Position(l[1..], x)
  }

  lemma {:induction false} PositionAt(l: seq<Type>, p: nat)
    requires Unique(l) && p < |l|
    ensures Position(l, l[p]) == p
  {
    if p > 0 { PositionAt(l[1..], p - 1); }
  }

  /** A list of all types in order is a measure that every dependency goes down. */
  lemma ListedAcyclic(all: seq<Edge>, types: seq<Type>, l: seq<Type>)
    requires Sorted(all, types, l)
    ensures Acyclic(all)
  {
    var rank := (x: Type) => Position(l, x);
    forall i | 0 <= i < |all| ensures rank(all[i].b) < rank(all[i].a) {
      assert Before(l, all[i].b, all[i].a);
      var p, q :| 0 <= p < q < |l| && l[p] == all[i].b && l[q] == all[i].a;
      PositionAt(l, p);
      PositionAt(l, q);
    }
    assert Descends(all, rank);
  }

  // ---- from dependencies to a list ----

  /** Some measure is lower for every type that another depends on. */
  ghost predicate NoCycle(types: seq<Type>, deps: seq<seq<Type>>)
    requires |deps| == |types|
  {
    exists rank: Type -> nat :: Lowers(types, deps, rank)
  }

  ghost predicate Lowers(types: seq<Type>, deps: seq<seq<Type>>, rank: Type -> nat)
    requires |deps| == |types|
  {
    forall i, j :: 0 <= i < |types| && 0 <= j < |deps[i]| ==> rank(deps[i][j]) < rank(types[i])
  }

  /** Every type once, and each behind all it depends on. */
  ghost predicate InOrder(types: seq<Type>, deps: seq<seq<Type>>, l: seq<Type>)
    requires |deps| == |types|
  {
    && Unique(l) && (forall x :: x in l <==> x in types)
    && (forall i, j :: 0 <= i < |types| && 0 <= j < |deps[i]| ==> Before(l, deps[i][j], types[i]))
  }

  lemma EdgeOf(types: seq<Type>, deps: seq<seq<Type>>, edges: seq<Edge>, i: nat, j: nat) returns (k: nat)
    requires |deps| == |types| && i < |types| && j < |deps[i]|
    requires forall e :: e in edges <==> exists m :: Dep(types, deps, m, e)
    ensures k < |edges| && edges[k].b == deps[i][j] && edges[k].a == types[i]
  {
    var e := Edge(types[i], deps[i][j]);
    assert Dep(types, deps, i, e);
    assert e in edges;
    k :| 0 <= k < |edges| && edges[k] == e;
  }

  lemma DependencyOf(types: seq<Type>, deps: seq<seq<Type>>, edges: seq<Edge>, k: nat) returns (i: nat, j: nat)
    requires |deps| == |types| && k < |edges|
    requires forall e :: e in edges <==> exists m :: Dep(types, deps, m, e)
    ensures i < |types| && j < |deps[i]| && edges[k].b == deps[i][j] && edges[k].a == types[i]
  {
    assert edges[k] in edges;
    i :| Dep(types, deps, i, edges[k]);
    j :| 0 <= j < |deps[i]| && deps[i][j] == edges[k].b;
  }

  /** The edges say what the dependencies do. */
  lemma SameOrder(types: seq<Type>, deps: seq<seq<Type>>, edges: seq<Edge>, l: seq<Type>)
    requires |deps| == |types| && forall e :: e in edges <==> exists m :: Dep(types, deps, m, e)
    ensures Sorted(edges, types, l) <==> InOrder(types, deps, l)
    ensures Acyclic(edges) <==> NoCycle(types, deps)
  {
    hide Before, Unique, Dep;
    if Sorted(edges, types, l) {
      forall i, j | 0 <= i < |types| && 0 <= j < |deps[i]| ensures Before(l, deps[i][j], types[i]) {
        var k := EdgeOf(types, deps, edges, i, j);
      }
    }
    if InOrder(types, deps, l) {
      forall k | 0 <= k < |edges| ensures Before(l, edges[k].b, edges[k].a) {
        var i, j := DependencyOf(types, deps, edges, k);
      }
    }
    if Acyclic(edges) {
      var rank :| Descends(edges, rank);
      forall i, j | 0 <= i < |types| && 0 <= j < |deps[i]| ensures rank(deps[i][j]) < rank(types[i]) {
        var k := EdgeOf(types, deps, edges, i, j);
      }
      assert Lowers(types, deps, rank);
    }
    if NoCycle(types, deps) {
      var rank :| Lowers(types, deps, rank);
      forall k | 0 <= k < |edges| ensures rank(edges[k].b) < rank(edges[k].a) {
        var i, j := DependencyOf(types, deps, edges, k);
      }
      assert Descends(edges, rank);
    }
  }

  /** `build_graph` and `top_sort`: every type once, each behind all it depends on, if and only
      if no type depends on itself over whatever others. */
  method SortTypes(types: seq<Type>, deps: seq<seq<Type>>) returns (l: seq<Type>)
    requires |deps| == |types| && Unique(types)
    requires forall i, j :: 0 <= i < |deps| && 0 <= j < |deps[i]| ==> deps[i][j] in types
    ensures InOrder(types, deps, l) <==> NoCycle(types, deps)
    ensures Unique(l) && forall x :: x in l ==> x in types
  {
    var g := new Graph();
    g.Build(types, deps);
    ghost var edges := g.edges;
    l := g.Sort(types);
    SameOrder(types, deps, edges, l);
  }
}
