/**
 Machine words seen as numbers and as sequences of bits.

 A byte is a number below 256 and a bit string is a `seq<bool>`, most significant
 bit first. Shifts are multiplication and division by a power of two, a cast to a
 narrower type is a remainder, and `Or` is the bitwise inclusive or.
 */
module Words {

  function Pow2(k: nat): (p: nat)
    ensures p > 0
  {
    if k == 0 then 1 else 2 * Pow2(k - 1)
  }

  type byte = x: nat | x < 256

  /** The low `n` bits of `x`, most significant first. */
  function NBits(x: nat, n: nat): (r: seq<bool>)
    ensures |r| == n
  {
    if n == 0 then [] else NBits(x / 2, n - 1) + [x % 2 == 1]
  }

  /** The number a bit string denotes. */
  function Val(b: seq<bool>): nat {
    if b == [] then 0 else 2 * Val(b[..|b| - 1]) + (if b[|b| - 1] then 1 else 0)
  }

  /** Logical shift right. */
  function Shr(x: nat, k: nat): nat {
    if k == 0 then x else Shr(x / 2, k - 1)
  }

  /** Shift left, before any cast to a narrower type. */
  function Shl(x: nat, k: nat): nat {
    if k == 0 then x else 2 * Shl(x, k - 1)
  }

  /** Bitwise inclusive or of two words. */
  function Or(a: nat, b: nat): nat {
    if a == 0 then b else if b == 0 then a
    else 2 * Or(a / 2, b / 2) + (if a % 2 == 1 || b % 2 == 1 then 1 else 0)
  }

  /** Number of significant bits: the loop of `bit_count`. */
  function BitCount(x: nat): nat {
    if x == 0 then 0 else 1 + BitCount(x / 2)
  }

  /** All the bits of a run of bytes. */
  function StreamBits(bytes: seq<byte>): (r: seq<bool>)
    ensures |r| == 8 * |bytes|
  {
    if bytes == [] then [] else StreamBits(bytes[..|bytes| - 1]) + NBits(bytes[|bytes| - 1], 8)
  }

  // ---- division and powers of two ----

  lemma DivUnique(x: int, d: int, q: int, r: int)
    requires d > 0 && 0 <= r < d && x == d * q + r
    ensures x / d == q && x % d == r
  {
    var q', r' := x / d, x % d;
    assert x == d * q' + r';
    assert d * (q - q') == r' - r;
    assert q - q' >= 1 ==> d * (q - q') >= d;
    assert q - q' <= -1 ==> d * (q - q') <= -d;
  }

  lemma ModStep(x: nat, p: nat)
    requires p > 0
    ensures x % (2 * p) == 2 * ((x / 2) % p) + x % 2
  {
    var q := x / 2 / p;
    assert x / 2 == p * q + (x / 2) % p;
    assert 2 * (p * q) == (2 * p) * q;
    DivUnique(x, 2 * p, q, 2 * ((x / 2) % p) + x % 2);
  }

  lemma Pow2Values()
    ensures Pow2(0) == 1 && Pow2(1) == 2 && Pow2(2) == 4 && Pow2(3) == 8 && Pow2(4) == 16
    ensures Pow2(5) == 32 && Pow2(6) == 64 && Pow2(7) == 128 && Pow2(8) == 256
  {
    assert Pow2(2) == 4;
    assert Pow2(4) == 16;
    assert Pow2(6) == 64;
  }

  lemma {:induction false} Pow2Monotone(a: nat, b: nat)
    requires a <= b
    ensures Pow2(a) <= Pow2(b)
    decreases b
  {
    if a < b { Pow2Monotone(a, b - 1); }
  }

  // ---- bit strings and numbers ----

  lemma {:induction false} NBitsVal(b: seq<bool>)
    ensures NBits(Val(b), |b|) == b
    ensures Val(b) < Pow2(|b|)
  {
    if b != [] {
      var init := b[..|b| - 1];
      NBitsVal(init);
      assert Val(b) / 2 == Val(init);
      assert b == init + [b[|b| - 1]];
    }
  }

  lemma {:induction false} ValNBits(x: nat, n: nat)
    ensures Val(NBits(x, n)) == x % Pow2(n)
  {
    if n > 0 {
      ValNBits(x / 2, n - 1);
      var b := NBits(x, n);
      assert b[..n - 1] == NBits(x / 2, n - 1);
      ModStep(x, Pow2(n - 1));
    }
  }

  lemma ValOfSmall(x: nat, n: nat)
    requires x < Pow2(n)
    ensures Val(NBits(x, n)) == x
  {
    ValNBits(x, n);
    DivUnique(x, Pow2(n), 0, x);
  }

  /** Two numbers with the same low bits look the same. */
  lemma NBitsMod(x: nat, n: nat)
    ensures NBits(x % Pow2(n), n) == NBits(x, n)
  {
    ValNBits(x, n);
    NBitsVal(NBits(x, n));
  }

  lemma {:induction false} NBitsSplit(x: nat, m: nat, k: nat)
    ensures NBits(x, m + k) == NBits(Shr(x, k), m) + NBits(x, k)
  {
    if k > 0 { NBitsSplit(x / 2, m, k - 1); }
  }

  /** What lies above and below bit `k` of a word put together from two parts. */
  lemma {:induction false} ShlJoin(hi: nat, lo: nat, m: nat, k: nat)
    requires lo < Pow2(k)
    ensures Shr(Shl(hi, k) + lo, k) == hi
    ensures (Shl(hi, k) + lo) % Pow2(k) == lo
    ensures NBits(Shl(hi, k) + lo, m + k) == NBits(hi, m) + NBits(lo, k)
  {
    if k > 0 {
      ShlJoin(hi, lo / 2, m, k - 1);
      var x := Shl(hi, k) + lo;
      assert x / 2 == Shl(hi, k - 1) + lo / 2;
      ModStep(x, Pow2(k - 1));
    }
  }

  lemma {:induction false} OrLow(hi: nat, lo: nat, k: nat)
    requires lo < Pow2(k)
    ensures Or(Shl(hi, k), lo) == Shl(hi, k) + lo
  {
    if k > 0 { OrLow(hi, lo / 2, k - 1); }
  }

  lemma {:induction false} OrCommutes(a: nat, b: nat)
    ensures Or(a, b) == Or(b, a)
  {
    if a != 0 && b != 0 { OrCommutes(a / 2, b / 2); }
  }

  lemma {:induction false} ShrSplit(x: nat, k: nat)
    ensures x == Shl(Shr(x, k), k) + x % Pow2(k)
  {
    if k > 0 {
      ShrSplit(x / 2, k - 1);
      ModStep(x, Pow2(k - 1));
    }
  }

  lemma {:induction false} ShlShl(x: nat, j: nat, k: nat)
    ensures Shl(Shl(x, j), k) == Shl(x, j + k)
  {
    if k > 0 { ShlShl(x, j, k - 1); }
  }

  lemma {:induction false} ShlOr(a: nat, b: nat, k: nat)
    ensures Or(Shl(a, k), Shl(b, k)) == Shl(Or(a, b), k)
    ensures Shl(a, k) + Shl(b, k) == Shl(a + b, k)
  {
    if k > 0 { ShlOr(a, b, k - 1); }
  }

  lemma {:induction false} ShlBound(x: nat, n: nat, k: nat)
    requires x < Pow2(n)
    ensures Shl(x, k) <= Pow2(n + k) - Pow2(k)
  {
    if k > 0 { ShlBound(x, n, k - 1); }
  }

  lemma {:induction false} ShrBound(x: nat, n: nat, k: nat)
    requires k <= n && x < Pow2(n)
    ensures Shr(x, k) < Pow2(n - k)
  {
    if k > 0 { ShrBound(x / 2, n - 1, k - 1); }
  }

  lemma {:induction false} ShrShr(x: nat, j: nat, k: nat)
    ensures Shr(Shr(x, j), k) == Shr(x, j + k)
  {
    if j > 0 { ShrShr(x / 2, j - 1, k); }
  }

  lemma {:induction false} NBitsZero(n: nat)
    ensures NBits(0, n) == seq(n, _ => false)
  {
    if n > 0 { NBitsZero(n - 1); }
  }

  lemma {:induction false} BitCountBound(x: nat)
    ensures x < Pow2(BitCount(x))
    ensures x > 0 ==> Pow2(BitCount(x) - 1) <= x
  {
    if x > 0 { BitCountBound(x / 2); }
  }

  lemma {:induction false} BitCountMonotone(x: nat, y: nat)
    requires x <= y
    ensures BitCount(x) <= BitCount(y)
  {
    if x > 0 { BitCountMonotone(x / 2, y / 2); }
  }

  /** A number below `2^k` has at most `k` significant bits. */
  lemma {:induction false} BitCountAtMost(x: nat, k: nat)
    requires x < Pow2(k)
    ensures BitCount(x) <= k
  {
    if x > 0 { BitCountAtMost(x / 2, k - 1); }
  }

  // ---- streams of bytes ----

  lemma {:induction false} StreamBitsConcat(a: seq<byte>, b: seq<byte>)
    ensures StreamBits(a + b) == StreamBits(a) + StreamBits(b)
  {
    hide NBits;
    if b == [] {
      assert a + b == a;
    } else {
      var init, last := b[..|b| - 1], b[|b| - 1];
      StreamBitsConcat(a, init);
      assert (a + b)[..|a + b| - 1] == a + init;
      assert StreamBits(a + b) == StreamBits(a) + StreamBits(init) + NBits(last, 8);
    }
  }
}
