/**
 The schema row table of core/schema.c and the production counts that
 core/c_gen.c puts into it. Writer and reader share nothing but this table.
 */
module ExiSchema {
  import opened ExiValue

  /** One attribute or element of a type; a row with `n == 0` starts or ends a type. */
  datatype Row = Row(min: nat, max: nat, n: nat, attribute: bool, simple: bool, unbounded: bool,
                     xs: XsType, index: nat, name: Name)
  {
    predicate Flexible() { min < max || unbounded }

    /** Another occurrence may follow the first `count`. */
    predicate More(count: nat) { unbounded || count < max }

    /** `output_count`: of a bounded row, fewer than the minimum count as none. */
    function Counted(count: nat): nat { if !unbounded && count < min then 0 else count }

    /** Number of event codes after `count` occurrences. */
    function Codes(count: nat): nat { if count >= min then n else 1 }

    /** A Boolean that may be absent. */
    predicate Optional() { min == 0 }
  }

  /** Rows below `length` are the global elements, the others the types. */
  datatype Schema = Schema(length: nat, rows: seq<Row>)

  // ---- production counts ----

  /** What the loop of `productions` counts. */
  function Count(entries: seq<Row>, first: bool): (n: nat)
    ensures 1 <= n <= |entries| + 1
  {
    if entries == [] then 1
    else
      var e := entries[0];
      1 + if first && e.Flexible() then Count(entries[1..], false)
          else if e.min > 0 then 0 else Count(entries[1..], first)
  }

  method Productions(entries: seq<Row>) returns (n: nat)
    ensures n == Count(entries, true)
  {
    n := 0;
    var first, i, stop := true, 0, false;
    assert entries[0..] == entries;
    while i < |entries| && !stop
      invariant 0 <= i <= |entries|
      invariant Count(entries, true) == n + if stop then 0 else Count(entries[i..], first)
      decreases !stop, |entries| - i
    {
      var se := entries[i];
      n := n + 1;
      assert entries[i..][1..] == entries[i + 1..];
      if first && se.Flexible() {
        first := false;
      } else if se.min > 0 {
        stop := true;
      }
      if !stop { i := i + 1; }
    }
    if !stop { n := n + 1; }
  }

  /** The rows of a type from row `r` to its end. */
  function Entries(s: Schema, r: nat): (e: seq<Row>)
    ensures r + |e| <= |s.rows| || e == []
    decreases |s.rows| - r
  {
    if r >= |s.rows| || s.rows[r].n == 0 then [] else [s.rows[r]] + Entries(s, r + 1)
  }

  /** The event codes from row `r` on: its own, those of the rows it may skip to, the end. */
  function Gap(s: Schema, r: nat): nat {
    Count(Entries(s, r), false)
  }

  // ---- well-formed tables ----

  predicate TypeAt(s: Schema, i: nat) {
    s.length <= i && i + 1 < |s.rows| && s.rows[i].n == 0 && s.rows[i + 1].n > 0
  }

  predicate GlobalRow(s: Schema, r: nat)
    requires r < |s.rows|
  {
    var e := s.rows[r];
    && e.n == 0 && e.min == 1 && e.max == 1 && !e.attribute && !e.unbounded
    && (!e.simple ==> TypeAt(s, e.index))
  }

  predicate TypeRow(s: Schema, r: nat)
    requires r < |s.rows|
  {
    var e := s.rows[r];
    e.n > 0 ==>
      && e.n == Count(Entries(s, r), true) && e.n < 256
      && (e.attribute ==> !e.simple && !e.unbounded && e.max == 1)
      && (!e.unbounded ==> 1 <= e.max && e.min <= e.max)
      && (!e.attribute && !e.simple ==> TypeAt(s, e.index))
      && ((e.attribute || e.simple) && e.xs.XsBoolean? ==> e.max == 1 && !e.unbounded)
  }

  /** What the generator guarantees: types are non-empty, closed by a zero row, counted by `productions`. */
  predicate WellFormed(s: Schema) {
    && 0 < s.length < |s.rows| && s.length < 0x1_0000
    && s.rows[s.length].n == 0 && s.rows[|s.rows| - 1].n == 0
    && (forall r :: 0 <= r < s.length ==> GlobalRow(s, r))
    && (forall r :: s.length <= r < |s.rows| ==> TypeRow(s, r))
  }

  /** `r` is a row of some type, or the zero row behind it. */
  predicate InType(s: Schema, r: nat) { s.length < r < |s.rows| }

  lemma {:induction false} EntriesFrom(s: Schema, r: nat, k: nat)
    requires WellFormed(s) && InType(s, r) && k <= |Entries(s, r)|
    ensures InType(s, r + k) && Entries(s, r + k) == Entries(s, r)[k..]
    ensures s.rows[r + k].n == 0 <==> k == |Entries(s, r)|
    ensures k < |Entries(s, r)| ==> Entries(s, r)[k] == s.rows[r + k]
    decreases k
  {
    if k > 0 {
      assert Entries(s, r)[1..] == Entries(s, r + 1);
      EntriesFrom(s, r + 1, k - 1);
    } else {
      assert s.rows[r].n > 0 ==> Entries(s, r)[0] == s.rows[r];
    }
  }

  /** The count in a row in terms of the codes of the row behind it. */
  lemma RowCodes(s: Schema, r: nat)
    requires WellFormed(s) && InType(s, r) && s.rows[r].n > 0
    ensures InType(s, r + 1)
    ensures s.rows[r].n == if s.rows[r].Flexible() then 1 + Gap(s, r + 1) else 1
    ensures Gap(s, r) == s.rows[r].Codes(0)
    ensures s.rows[r].attribute ==> Gap(s, r) == s.rows[r].n
    ensures s.rows[r].min == 0 ==> Gap(s, r) == 1 + Gap(s, r + 1)
    ensures 1 <= Gap(s, r) <= |Entries(s, r)| + 1
  {
    EntriesFrom(s, r, 1);
    assert TypeRow(s, r);
    assert Entries(s, r)[0] == s.rows[r];
  }

  /** Where the codes of a row lead: over optional rows only, up to a mandatory row or the end. */
  lemma {:induction false} CodesReach(s: Schema, r: nat, k: nat)
    requires WellFormed(s) && InType(s, r) && k < Gap(s, r)
    ensures k <= |Entries(s, r)| && InType(s, r + k)
    ensures forall j :: r <= j < r + k ==> s.rows[j].n > 0 && s.rows[j].min == 0
    ensures k == Gap(s, r) - 1 ==> s.rows[r + k].n == 0 || s.rows[r + k].min > 0
    decreases k
  {
    if s.rows[r].n > 0 { RowCodes(s, r); }
    if k > 0 {
      CodesReach(s, r + 1, k - 1);
    }
  }
}
