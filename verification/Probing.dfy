/**
 The probe sequence of `hash_find` in core/hash.c: step by 1, 2, 3, ... around a table
 whose size is a power of two. Its first `size` probes visit every slot exactly once.
 */
module Probing {
  import opened Words

  /** The sum of the first `n` steps. */
  function Triangle(n: nat): (t: nat)
    ensures 2 * t == n * (n + 1)
  {
    if n == 0 then 0 else Triangle(n - 1) + n
  }

  /** The slot of probe `n` for a hash value; `& mask` is the remainder for a power of two,
      whatever the sign of the hash. */
  function Probe(size: nat, hash: int, n: nat): (p: nat)
    requires size > 0
    ensures p < size
  {
    (hash + Triangle(n)) % size
  }

  /** The next slot as the loop computes it. */
  lemma ProbeNext(size: nat, hash: int, n: nat)
    requires size > 0
    ensures Probe(size, hash, n + 1) == (Probe(size, hash, n) + (n + 1)) % size
  {
    var x := hash + Triangle(n);
    SameRemainder(x, size, n + 1);
    assert hash + Triangle(n + 1) == x + (n + 1);
  }

  lemma SameRemainder(x: int, size: int, y: int)
    requires size > 0
    ensures (x + y) % size == (x % size + y) % size
  {
    var q := x / size;
    assert x == q * size + x % size;
    Multiple(x % size + y, q, size);
    assert x + y == (x % size + y) + q * size;
  }

  lemma {:induction false} Multiple(z: int, q: int, size: int)
    requires size > 0
    ensures (z + q * size) % size == z % size
    decreases if q < 0 then 0 - q else q
  {
    if q > 0 {
      Multiple(z, q - 1, size);
      AddSize(z + (q - 1) * size, size);
      assert z + q * size == z + (q - 1) * size + size;
    } else if q < 0 {
      Multiple(z, q + 1, size);
      AddSize(z + q * size, size);
      assert z + (q + 1) * size == z + q * size + size;
    }
  }

  lemma AddSize(z: int, size: int)
    requires size > 0
    ensures (z + size) % size == z % size
  {
    var q, r := z / size, z % size;
    assert z + size == (q + 1) * size + r;
    Unique(z + size, size, q + 1, r);
  }

  lemma Unique(x: int, size: int, q: int, r: int)
    requires size > 0 && x == q * size + r && 0 <= r < size
    ensures x % size == r
  {
    var d := q - x / size;
    assert d * size == x % size - r;
    assert d >= 1 ==> d * size >= size;
    assert d <= -1 ==> d * size <= -size;
  }

  // ---- no slot twice ----

  predicate Divides(d: int, x: int)
    requires d > 0
  {
    x % d == 0
  }

  /** A power of two that divides a product with an odd factor divides the other one. */
  lemma {:induction false} OddFactor(m: nat, x: int, y: int)
    requires x % 2 == 1 && Divides(Pow2(m), x * y)
    ensures Divides(Pow2(m), y)
  {
    if m > 0 {
      var k := x * y / Pow2(m);
      assert x * y == k * (2 * Pow2(m - 1));
      var z := y / 2;
      EvenFactor(x, y, k * Pow2(m - 1));
      assert x * z == k * Pow2(m - 1);
      Multiple(0, k, Pow2(m - 1));
      OddFactor(m - 1, x, z);
      var q := z / Pow2(m - 1);
      assert y == 2 * z == q * Pow2(m);
      Multiple(0, q, Pow2(m));
    }
  }

  lemma EvenFactor(x: int, y: int, h: int)
    requires x % 2 == 1 && x * y == 2 * h
    ensures y % 2 == 0 && x * (y / 2) == h
  {
    var u := x / 2;
    OddTimes(u, y);
    assert y == 2 * (h - u * y);
    OddTimes(u, y / 2);
    Halves(u, y / 2);
  }

  lemma OddTimes(u: int, y: int)
    ensures (2 * u + 1) * y == 2 * (u * y) + y
  {
  }

  lemma Halves(u: int, z: int)
    ensures u * (2 * z) == 2 * (u * z)
  {
  }

  /** What two equal probes would say about the distance of their steps. */
  lemma EqualProbes(m: nat, hash: int, a: nat, b: nat)
    requires a < b && Probe(Pow2(m), hash, a) == Probe(Pow2(m), hash, b)
    ensures Divides(Pow2(m + 1), (b - a) * (a + b + 1))
  {
    var size := Pow2(m);
    var x, y := hash + Triangle(a), hash + Triangle(b);
    var k := y / size - x / size;
    Difference(x, y, size);
    Gap(a, b);
    Doubled(k, size);
    Multiple(0, k, Pow2(m + 1));
  }

  lemma Difference(x: int, y: int, size: int)
    requires size > 0 && x % size == y % size
    ensures y - x == (y / size - x / size) * size
  {
  }

  lemma Doubled(k: int, size: int)
    ensures 2 * (k * size) == k * (2 * size)
  {
  }

  /** A product of two small numbers, one of them odd, is no multiple. */
  lemma SmallFactors(m: nat, u: int, v: int)
    requires 0 < u < Pow2(m) && 0 < v < Pow2(m) && (u % 2 == 1 || v % 2 == 1)
    ensures !Divides(Pow2(m), u * v)
  {
    hide *;
    Small(u, Pow2(m));
    Small(v, Pow2(m));
    if Divides(Pow2(m), u * v) {
      if u % 2 == 1 {
        OddFactor(m, u, v);
        assert false;
      } else {
        assert u * v == v * u;
        OddFactor(m, v, u);
        assert false;
      }
    }
  }

  /** One of the two factors is odd, and neither is a multiple. */
  lemma TooSmall(m: nat, a: nat, b: nat)
    requires a < b < Pow2(m)
    ensures !Divides(Pow2(m + 1), (b - a) * (a + b + 1))
  {
    SmallFactors(m + 1, b - a, a + b + 1);
  }

  /** Two of the first `size` probes differ. */
  lemma ProbesDiffer(m: nat, hash: int, a: nat, b: nat)
    requires a < b < Pow2(m)
    ensures Probe(Pow2(m), hash, a) != Probe(Pow2(m), hash, b)
  {
    hide *;
    TooSmall(m, a, b);
    if Probe(Pow2(m), hash, a) == Probe(Pow2(m), hash, b) {
      EqualProbes(m, hash, a, b);
      assert false;
    }
  }

  lemma Gap(a: nat, b: nat)
    requires a <= b
    ensures 2 * (Triangle(b) - Triangle(a)) == (b - a) * (a + b + 1)
  {
  }

  lemma Small(x: int, d: int)
    requires 0 < x < d
    ensures !Divides(d, x)
  {
    Unique(x, d, 0, x);
  }

  // ---- every slot ----

  /** The slots of the first `n` probes. */
  function Visited(size: nat, hash: int, n: nat): set<nat>
    requires size > 0
  {
    if n == 0 then {} else Visited(size, hash, n - 1) + {Probe(size, hash, n - 1)}
  }

  lemma {:induction false} VisitedBy(size: nat, hash: int, n: nat, p: nat)
    requires size > 0 && p in Visited(size, hash, n)
    ensures exists k :: 0 <= k < n && Probe(size, hash, k) == p
  {
    if p != Probe(size, hash, n - 1) {
      VisitedBy(size, hash, n - 1, p);
    }
  }

  lemma {:induction false} VisitedCount(m: nat, hash: int, n: nat)
    requires n <= Pow2(m)
    ensures |Visited(Pow2(m), hash, n)| == n && forall p :: p in Visited(Pow2(m), hash, n) ==> p < Pow2(m)
  {
    if n > 0 {
      VisitedCount(m, hash, n - 1);
      if Probe(Pow2(m), hash, n - 1) in Visited(Pow2(m), hash, n - 1) {
        VisitedBy(Pow2(m), hash, n - 1, Probe(Pow2(m), hash, n - 1));
        var k :| 0 <= k < n - 1 && Probe(Pow2(m), hash, k) == Probe(Pow2(m), hash, n - 1);
        ProbesDiffer(m, hash, k, n - 1);
      }
    }
  }

  function Below(n: nat): (s: set<nat>)
    ensures forall p: nat :: p in s <==> p < n
  {
    if n == 0 then {} else Below(n - 1) + {n - 1}
  }

  lemma {:induction false} BelowCount(n: nat)
    ensures |Below(n)| == n
  {
    if n > 0 {
      BelowCount(n - 1);
    }
  }

  lemma SubsetFull(a: set<nat>, b: set<nat>)
    requires a <= b && |a| == |b|
    ensures a == b
  {
    assert b == a + (b - a) && |b| == |a| + |b - a|;
  }

  /** Every slot is visited by one of the first `size` probes, and by no two. */
  lemma EverySlotOnce(m: nat, hash: int, p: nat) returns (n: nat)
    requires p < Pow2(m)
    ensures n < Pow2(m) && Probe(Pow2(m), hash, n) == p
    ensures forall k :: 0 <= k < Pow2(m) && k != n ==> Probe(Pow2(m), hash, k) != p
  {
    var size := Pow2(m);
    VisitedCount(m, hash, size);
    BelowCount(size);
    SubsetFull(Visited(size, hash, size), Below(size));
    assert p in Visited(size, hash, size);
    VisitedBy(size, hash, size, p);
    n :| 0 <= n < size && Probe(size, hash, n) == p;
    forall k | 0 <= k < size && k != n ensures Probe(size, hash, k) != p {
      if k < n { ProbesDiffer(m, hash, k, n); } else { ProbesDiffer(m, hash, n, k); }
    }
  }
}
