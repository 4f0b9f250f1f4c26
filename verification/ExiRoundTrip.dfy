/**
 Reading back what was written: over every well-formed table, every object the
 writer accepts and every input that shows its bits.
 */
module ExiRoundTrip {
  import opened Words
  import opened BitStream
  import opened ExiValue
  import opened ExiValueProofs
  import opened ExiSchema
  import opened ExiDocument

  // ---- what comes back ----

  /** An empty string element leaves its field zeroed; an optional Boolean comes back true. */
  function LeafBack(row: Row, v: Value): Value {
    if !row.attribute && row.xs.Textual() && v == Text([]) then Zero(row.xs) else Read(row.xs, row.Optional(), v)
  }

  function NodeBack(s: Schema, row: Row, node: Node): Node
    decreases node, 1
  {
    match node
    case Leaf(v) => Leaf(LeafBack(row, v))
    case Obj(fields) => Obj(FieldsBack(s, row.index + 1, fields))
  }

  function FieldsBack(s: Schema, r: nat, fields: seq<Field>): (f: seq<Field>)
    ensures |f| == |fields|
    decreases fields
  {
    if fields == [] || r >= |s.rows| then fields
    else [Field(ItemsBack(s, s.rows[r], fields[0].items))] + FieldsBack(s, r + 1, fields[1..])
  }

  function ItemsBack(s: Schema, row: Row, items: seq<Node>): (b: seq<Node>)
    ensures |b| == |items|
    decreases items
  {
    if items == [] then [] else [NodeBack(s, row, items[0])] + ItemsBack(s, row, items[1..])
  }

  // ---- strings that keep the tables in step ----

  /** Every string belongs to one name. */
  type Owner = map<Str, Name>

  predicate OwnedLeaf(row: Row, v: Value, owner: Owner) {
    && (v.Text? ==> Exact(row.xs, v))
    && (v.Text? && (row.attribute || v.s != []) ==> v.s in owner && owner[v.s] == row.name)
  }

  /** All strings can be read back exactly and none is used under two names. */
  predicate OwnedNode(s: Schema, row: Row, node: Node, owner: Owner)
    decreases node, 1
  {
    match node
    case Leaf(v) => OwnedLeaf(row, v, owner)
    case Obj(fields) => OwnedFields(s, row.index + 1, fields, owner)
  }

  predicate OwnedFields(s: Schema, r: nat, fields: seq<Field>, owner: Owner)
    decreases fields
  {
    fields == [] || r >= |s.rows|
    || (OwnedItems(s, s.rows[r], fields[0].items, owner) && OwnedFields(s, r + 1, fields[1..], owner))
  }

  predicate OwnedItems(s: Schema, row: Row, items: seq<Node>, owner: Owner)
    decreases items
  {
    items == [] || (OwnedNode(s, row, items[0], owner) && OwnedItems(s, row, items[1..], owner))
  }

  // ---- values the reader can hold ----

  /** All values can be read back exactly. */
  predicate ExactNode(s: Schema, row: Row, node: Node)
    decreases node, 1
  {
    match node
    case Leaf(v) => Exact(row.xs, v)
    case Obj(fields) => ExactFields(s, row.index + 1, fields)
  }

  predicate ExactFields(s: Schema, r: nat, fields: seq<Field>)
    decreases fields
  {
    fields == [] || r >= |s.rows| || (ExactItems(s, s.rows[r], fields[0].items) && ExactFields(s, r + 1, fields[1..]))
  }

  predicate ExactItems(s: Schema, row: Row, items: seq<Node>)
    decreases items
  {
    items == [] || (ExactNode(s, row, items[0]) && ExactItems(s, row, items[1..]))
  }

  // ---- tables in step ----

  /** Every string of the global table is in the local table of its owner. */
  predicate InStep(t: Tables, owner: Owner) {
    forall i :: 0 <= i < |t.global| ==> t.global[i] in owner && t.global[i] in t.Local(owner[t.global[i]])
  }

  lemma StringInStep(t: Tables, name: Name, s: Str, owner: Owner)
    requires InStep(t, owner) && s in owner && owner[s] == name
    ensures !GlobalOnly(t, name, s)
    ensures InStep(StringBits(t, name, s).1, owner)
  {
    var t' := t.AddLocal(name, s);
    assert t'.Local(name)[|t.Local(name)|] == s;
    assert forall m, x :: x in t.Local(m) ==> x in t'.Local(m);
  }

  lemma ValueInStep(t: Tables, name: Name, xs: XsType, optional: bool, v: Value, owner: Owner)
    requires Fits(xs, v) && InStep(t, owner)
    requires v.Text? ==> v.s in owner && owner[v.s] == name
    ensures v.Text? ==> !GlobalOnly(t, name, v.s)
    ensures InStep(ValueBits(t, name, xs, optional, v).1, owner)
  {
    if v.Text? { StringInStep(t, name, v.s, owner); }
  }

  // ---- one simple element ----

  /** The content read is `fields` and, its end read too, the reader is at `s`. */
  ghost predicate Reads(bits: seq<bool>, d: Decoded<Content>, fields: seq<Field>, s: Reader) {
    d.Got? && d.value.fields == fields && End(bits, d.value.needEnd, d.s) == Got((), s)
  }

  ghost predicate ReadsItem(bits: seq<bool>, d: Decoded<Item>, node: Node, s: Reader) {
    d.Got? && d.value.node == node && End(bits, d.value.needEnd, d.s) == Got((), s)
  }

  /** The content is read if it is exact; if not, the reader comes to grief in it. */
  ghost predicate Meets(exact: bool, bits: seq<bool>, d: Decoded<Content>, fields: seq<Field>, s: Reader) {
    if exact then Reads(bits, d, fields, s) else d == Lost(Undefined)
  }

  ghost predicate MeetsItem(exact: bool, bits: seq<bool>, d: Decoded<Item>, node: Node, s: Reader) {
    if exact then ReadsItem(bits, d, node, s) else d == Lost(Undefined)
  }

  lemma SimpleBack(bits: seq<bool>, pos: nat, row: Row, v: Value, t: Tables, owner: Owner)
    requires !row.attribute && Fits(row.xs, v) && OwnedLeaf(row, v, owner) && InStep(t, owner)
    requires At(bits, pos, SimpleBits(t, row.name, row.xs, row.Optional(), v).0 + EventBits(0, 0))
    ensures var (b, t') := SimpleBits(t, row.name, row.xs, row.Optional(), v);
            && MeetsItem(Exact(row.xs, v), bits, SimpleItem(bits, row, Reader(pos, t, false)), Leaf(LeafBack(row, v)), Reader(pos + |b| + 1, t', false))
            && InStep(t', owner)
  {
    EndBit();
    FitsText(row.xs, v);
    hide At, NBits, ValueBits, EventBits, InStep, Fits, Exact;
    if row.xs.Textual() && v.s == [] {
      hide DecodeValue;
      EmptyString(bits, pos);
    } else {
      var (b, t') := ValueBits(t, row.name, row.xs, row.Optional(), v);
      ValueInStep(t, row.name, row.xs, row.Optional(), v, owner);
      AtConcat(bits, pos, [false] + b, [false]);
      AtConcat(bits, pos, [false], b);
      SimpleValueBack(bits, pos, row, v, t, b, t');
    }
  }

  lemma SimpleValueBack(bits: seq<bool>, pos: nat, row: Row, v: Value, t: Tables, b: seq<bool>, t': Tables)
    requires Fits(row.xs, v) && (v.Text? ==> Exact(row.xs, v)) && (b, t') == ValueBits(t, row.name, row.xs, row.Optional(), v)
    requires v.Text? ==> !GlobalOnly(t, row.name, v.s)
    requires At(bits, pos, [false]) && At(bits, pos + 1, b) && At(bits, pos + 1 + |b|, [false])
    ensures MeetsItem(Exact(row.xs, v), bits, SimpleItem(bits, row, Reader(pos, t, false)), Leaf(Read(row.xs, row.Optional(), v)), Reader(pos + |b| + 2, t', false))
  {
    hide At, NBits, DecodeValue, ValueBits, Fits, Exact, Read;
    AtBit(bits, pos, false);
    AtBit(bits, pos + 1 + |b|, false);
    ValueRoundTrip(bits, pos + 1, t, row.name, row.xs, row.Optional(), v);
  }

  lemma FitsText(xs: XsType, v: Value)
    requires Fits(xs, v)
    ensures xs.Textual() <==> v.Text?
  {
  }

  /** The three bits of the second-level code, and the end of element bit, read as one bit and three. */
  lemma EmptyString(bits: seq<bool>, pos: nat)
    requires At(bits, pos, NBits(4, 3) + [false])
    ensures pos + 4 <= |bits| && bits[pos] && Peek(bits, pos + 1, 3) == 0
  {
    assert NBits(4, 3) + [false] == [true, false, false, false] by {
      assert NBits(1, 1) == [true];
      assert NBits(2, 2) == [true, false];
    }
    var w := bits[pos..pos + 4];
    assert w == [true, false, false, false];
    assert bits[pos + 1..pos + 4] == w[1..] == [false, false, false];
    assert Val([false, false, false]) == 0 by {
      assert Val([false]) == 0;
      assert [false, false][..1] == [false];
      assert Val([false, false]) == 0;
      assert [false, false, false][..2] == [false, false];
    }
  }

  // ---- objects ----

  /** Where event code `k` of row `r` leads. */
  function Landing(bits: seq<bool>, sc: Schema, r: nat, k: nat, s: Reader, depth: nat): Decoded<Content>
    requires WellFormed(sc) && InType(sc, r) && s.pos <= |bits| && k <= |Entries(sc, r)|
  {
    EntriesFrom(sc, r, k);
    if sc.rows[r + k].n == 0 then Got(Content(Skipped(k), false), s)
    else Before(Skipped(k), DecodeRow(bits, sc, r + k, s, depth))
  }

  /** An event code pending in front of row `r` is found among `n`, and leads to the rest of the object. */
  lemma SkipBack(bits: seq<bool>, pos: nat, sc: Schema, r: nat, code: nat, n: nat, fields: seq<Field>,
                 t: Tables, depth: nat, owner: Owner) returns (k: nat, s: Reader)
    requires WellFormed(sc) && InType(sc, r) && ShapedFields(sc, r, fields) && OwnedFields(sc, r, fields, owner)
    requires InStep(t, owner) && n == code + Gap(sc, r)
    requires var e := EncodeFields(sc, r, code, n, fields, t, depth); e.Done? && At(bits, pos, e.bits)
    ensures pos + BitCount(n) <= |bits| && Peek(bits, pos, BitCount(n)) == code + k < n && k <= |Entries(sc, r)|
    ensures var e := EncodeFields(sc, r, code, n, fields, t, depth);
            s == Reader(pos + |e.bits|, e.t, false)
    ensures Meets(ExactFields(sc, r, fields), bits, Landing(bits, sc, r, k, Reader(pos + BitCount(n), t, false), depth), FieldsBack(sc, r, fields), s)
    ensures InStep(s.t, owner)
    decreases fields, 2
  {
    hide NBits, Peek, BitCount, Pow2, At, InStep, EncodePresent, DecodeRow, Entries, ItemsBack;
    var e := EncodeFields(sc, r, code, n, fields, t, depth);
    s := Reader(pos + |e.bits|, e.t, false);
    if fields == [] {
      k := 0;
      BitCountBound(n);
      PeekAt(bits, pos, code, BitCount(n));
    } else {
      RowCodes(sc, r);
      RowKind(sc, r);
      if fields[0].items == [] {
        var k', s' := SkipBack(bits, pos, sc, r + 1, code + 1, n, fields[1..], t, depth, owner);
        k := k' + 1;
        SkipOne(bits, sc, r, k', Reader(pos + BitCount(n), t, false), depth);
        assert ItemsBack(sc, sc.rows[r], fields[0].items) == [];
      } else {
        k := 0;
        var p := EncodePresent(sc, r, fields, t, depth);
        assert e == p.After(EventBits(code, n));
        BitCountBound(n);
        AtConcat(bits, pos, EventBits(code, n), p.bits);
        PeekAt(bits, pos, code, BitCount(n));
        var s' := PresentBack(bits, pos + BitCount(n), sc, r, fields, t, depth, owner);
        BeforeNothing(DecodeRow(bits, sc, r, Reader(pos + BitCount(n), t, false), depth));
      }
    }
  }

  lemma BeforeNothing(d: Decoded<Content>)
    ensures Before(Skipped(0), d) == d
  {
    if d.Got? { assert Skipped(0) + d.value.fields == d.value.fields; }
  }

  lemma BeforeOneMore(k: nat, d: Decoded<Content>)
    ensures Before(Skipped(k + 1), d) == Before([NO_ITEMS], Before(Skipped(k), d))
    ensures Skipped(k + 1) == [NO_ITEMS] + Skipped(k)
  {
    assert Skipped(k + 1) == [NO_ITEMS] + Skipped(k);
    if d.Got? { assert Skipped(k + 1) + d.value.fields == [NO_ITEMS] + (Skipped(k) + d.value.fields); }
  }

  /** Skipping an absent row first. */
  lemma SkipOne(bits: seq<bool>, sc: Schema, r: nat, k: nat, s: Reader, depth: nat)
    requires WellFormed(sc) && InType(sc, r) && sc.rows[r].n > 0 && InType(sc, r + 1) && s.pos <= |bits|
    requires k <= |Entries(sc, r + 1)| && k + 1 <= |Entries(sc, r)|
    ensures Landing(bits, sc, r, k + 1, s, depth) == Before([NO_ITEMS], Landing(bits, sc, r + 1, k, s, depth))
  {
    hide DecodeRow, Entries, Before, Skipped;
    EntriesFrom(sc, r, k + 1);
    EntriesFrom(sc, r + 1, k);
    assert r + (k + 1) == r + 1 + k;
    if sc.rows[r + 1 + k].n == 0 {
      BeforeOneMore(k, Got(Content([], false), s));
      assert Before([NO_ITEMS], Got(Content(Skipped(k), false), s)) == Got(Content([NO_ITEMS] + Skipped(k), false), s) by { BeforeGot(Skipped(k), false, s); }
    } else {
      BeforeOneMore(k, DecodeRow(bits, sc, r + 1 + k, s, depth));
    }
  }

  lemma BeforeGot(fields: seq<Field>, needEnd: bool, s: Reader)
    ensures Before([NO_ITEMS], Got(Content(fields, needEnd), s)) == Got(Content([NO_ITEMS] + fields, needEnd), s)
  {
  }

  /** Reading the token oneself, or having it handed over, leads to the same place. */
  lemma TokenLands(bits: seq<bool>, sc: Schema, r: nat, k: nat, s: Reader, depth: nat)
    requires WellFormed(sc) && InType(sc, r) && s.pos <= |bits| && k <= |Entries(sc, r)|
    ensures DecodeFields(bits, sc, r, Token(k), s, depth) == Landing(bits, sc, r, k, s, depth)
  {
    hide DecodeRow;
    EntriesFrom(sc, r, k);
    EntriesFrom(sc, r, 0);
    if sc.rows[r].n == 0 { assert Skipped(0) == []; }
  }

  lemma EventLands(bits: seq<bool>, sc: Schema, r: nat, k: nat, s: Reader, s': Reader, depth: nat)
    requires WellFormed(sc) && InType(sc, r) && s.pos <= |bits| && sc.rows[r].n > 0
    requires Event(bits, Gap(sc, r), s) == Got(k, s')
    ensures k <= |Entries(sc, r)|
    ensures DecodeFields(bits, sc, r, NoToken, s, depth) == Landing(bits, sc, r, k, s', depth)
  {
    hide DecodeRow, Event;
    RowCodes(sc, r);
    EntriesFrom(sc, r, k);
  }

  lemma PresentBack(bits: seq<bool>, pos: nat, sc: Schema, r: nat, fields: seq<Field>,
                    t: Tables, depth: nat, owner: Owner) returns (s: Reader)
    requires WellFormed(sc) && InType(sc, r) && ShapedFields(sc, r, fields) && OwnedFields(sc, r, fields, owner)
    requires InStep(t, owner) && fields != [] && fields[0].items != [] && (sc.rows[r].attribute || depth > 0)
    requires var e := EncodePresent(sc, r, fields, t, depth); e.Done? && At(bits, pos, e.bits)
    ensures sc.rows[r].n > 0 && pos <= |bits|
    ensures var e := EncodePresent(sc, r, fields, t, depth); s == Reader(pos + |e.bits|, e.t, false)
    ensures Meets(ExactFields(sc, r, fields), bits, DecodeRow(bits, sc, r, Reader(pos, t, false), depth), FieldsBack(sc, r, fields), s)
    ensures InStep(s.t, owner)
    decreases fields, 1
  {
    hide NBits, Peek, BitCount, Pow2, At, InStep, DecodeValue, ValueBits;
    RowKind(sc, r);
    var e, row, items := EncodePresent(sc, r, fields, t, depth), sc.rows[r], fields[0].items;
    if row.attribute {
      var (b, t') := ValueBits(t, row.name, row.xs, row.Optional(), items[0].v);
      var rest := EncodeFields(sc, r + 1, 0, 0, fields[1..], t', depth);
      AtConcat(bits, pos, b, rest.bits);
      OwnedFirst(sc, row, items, owner);
      ValueInStep(t, row.name, row.xs, row.Optional(), items[0].v, owner);
      ValueRoundTrip(bits, pos, t, row.name, row.xs, row.Optional(), items[0].v);
      s := ContentBack(bits, pos + |b|, sc, r + 1, fields[1..], t', depth, owner);
      assert items[1..] == [];
      assert ItemsBack(sc, row, items) == [Leaf(Read(row.xs, row.Optional(), items[0].v))];
      assert ExactItems(sc, row, items) == Exact(row.xs, items[0].v);
    } else {
      assert items[0..] == items;
      s := RunBack(bits, pos, sc, r, 0, fields, t, depth, owner);
    }
  }

  lemma OwnedFirst(sc: Schema, row: Row, items: seq<Node>, owner: Owner)
    requires OwnedItems(sc, row, items, owner) && items != []
    ensures OwnedNode(sc, row, items[0], owner) && (items[0].Leaf? ==> OwnedLeaf(row, items[0].v, owner))
  {
  }

  lemma ContentBack(bits: seq<bool>, pos: nat, sc: Schema, r: nat, fields: seq<Field>,
                    t: Tables, depth: nat, owner: Owner) returns (s: Reader)
    requires WellFormed(sc) && InType(sc, r) && ShapedFields(sc, r, fields) && OwnedFields(sc, r, fields, owner)
    requires InStep(t, owner)
    requires var e := EncodeFields(sc, r, 0, 0, fields, t, depth); e.Done? && At(bits, pos, e.bits)
    ensures pos <= |bits|
    ensures var e := EncodeFields(sc, r, 0, 0, fields, t, depth); s == Reader(pos + |e.bits|, e.t, false)
    ensures Meets(ExactFields(sc, r, fields), bits, DecodeFields(bits, sc, r, NoToken, Reader(pos, t, false), depth), FieldsBack(sc, r, fields), s)
    ensures InStep(s.t, owner)
    decreases fields, 3
  {
    hide NBits, Peek, BitCount, Pow2, InStep;
    if fields == [] {
      var e := EncodeFields(sc, r, 0, 0, fields, t, depth);
      assert EventBits(0, 0) == [false] by { EndBit(); }
      AtBit(bits, pos, false);
      s := Reader(pos + |e.bits|, e.t, false);
    } else {
      RowCodes(sc, r);
      assert EncodeFields(sc, r, 0, 0, fields, t, depth) == EncodeFields(sc, r, 0, Gap(sc, r), fields, t, depth);
      var k;
      k, s := SkipBack(bits, pos, sc, r, 0, Gap(sc, r), fields, t, depth, owner);
      EventLands(bits, sc, r, k, Reader(pos, t, false), Reader(pos + BitCount(Gap(sc, r)), t, false), depth);
    }
  }

  lemma EndBit()
    ensures EventBits(0, 0) == [false]
  {
    assert NBits(0, 0) == [];
  }

  lemma {:induction false} ItemsFrom(sc: Schema, row: Row, items: seq<Node>, i: nat, owner: Owner)
    requires ShapedItems(sc, row, items) && OwnedItems(sc, row, items, owner) && i < |items|
    ensures ShapedItems(sc, row, items[i..]) && OwnedItems(sc, row, items[i..], owner)
    ensures Shaped(sc, row, items[i]) && OwnedNode(sc, row, items[i], owner)
    decreases i
  {
    if i > 0 {
      ItemsFrom(sc, row, items[1..], i - 1, owner);
      assert items[1..][i - 1..] == items[i..];
    } else {
      assert items[0..] == items;
    }
  }

  /** The occurrences of row `r` from the `i`-th on, and the rows behind it. */
  lemma RunBack(bits: seq<bool>, pos: nat, sc: Schema, r: nat, i: nat, fields: seq<Field>,
                t: Tables, depth: nat, owner: Owner) returns (s: Reader)
    requires WellFormed(sc) && InType(sc, r) && ShapedFields(sc, r, fields) && OwnedFields(sc, r, fields, owner)
    requires InStep(t, owner) && fields != [] && i < |fields[0].items| && ElementRow(sc, r) && depth > 0
    requires ShapedItems(sc, sc.rows[r], fields[0].items[i..])
    requires var e := EncodeItems(sc, sc.rows[r], i, fields[0].items[i..], t, depth);
             && e.Done?
             && var rest := EncodeRest(sc, r, |fields[0].items|, fields, e.t, depth);
             && rest.Done? && At(bits, pos, e.bits + rest.bits)
    ensures sc.rows[r].n > 0 && InType(sc, r + 1) && pos <= |bits|
    ensures var e := EncodeItems(sc, sc.rows[r], i, fields[0].items[i..], t, depth);
            var rest := EncodeRest(sc, r, |fields[0].items|, fields, e.t, depth);
            s == Reader(pos + |e.bits| + |rest.bits|, rest.t, false)
    ensures var d := DecodeItems(bits, sc, r, i, Reader(pos, t, false), depth);
            if !ExactItems(sc, sc.rows[r], fields[0].items[i..]) then d == Lost(Undefined)
            else
              && d.Got? && d.value.items == ItemsBack(sc, sc.rows[r], fields[0].items[i..])
              && Meets(ExactFields(sc, r + 1, fields[1..]), bits, DecodeFields(bits, sc, r + 1, d.value.token, d.s, depth), FieldsBack(sc, r + 1, fields[1..]), s)
    ensures InStep(s.t, owner)
    decreases fields, 0, |fields[0].items| - i
  {
    hide NBits, Peek, BitCount, Pow2, InStep, At, EventBits, DecodeFields, DecodeNode, EncodeNode, EncodeFields, EncodeRest, FieldsBack, NodeBack, Shaped, Entries, ShapedFields, End, WellFormed;
    var row, items := sc.rows[r], fields[0].items;
    RowOf(sc, r, fields, owner);
    ItemsFrom(sc, row, items, i, owner);
    var e := EncodeItems(sc, row, i, items[i..], t, depth);
    var rest := EncodeRest(sc, r, |items|, fields, e.t, depth);
    AtConcat(bits, pos, e.bits, rest.bits);
    var node := EncodeNode(sc, row, items[i], t, depth - 1);
    assert items[i..][0] == items[i] && items[i..][1..] == items[i + 1..];
    assert ExactItems(sc, row, items[i..]) == (ExactNode(sc, row, items[i]) && ExactItems(sc, row, items[i + 1..]));
    hide ExactNode, ExactFields;
    if i + 1 == |items| {
      var s0 := ElementBack(bits, pos, sc, r, items[i], t, depth - 1, owner);
      assert items[i + 1..] == [];
      var d := DecodeNode(bits, sc, r, Reader(pos, t, false), depth - 1);
      if ExactNode(sc, row, items[i]) {
        s := RunEnds(bits, s0.pos, sc, r, d.value.needEnd, d.s, fields, s0.t, depth, owner);
      } else {
        s := RestInStep(bits, s0.pos, sc, r, fields, s0.t, depth, owner);
      }
    } else {
      var n := row.Codes(i + 1);
      var more := EncodeItems(sc, row, i + 1, items[i + 1..], node.t, depth);
      AtConcat(bits, pos, node.bits + EventBits(0, n), more.bits);
      AtConcat(bits, pos, node.bits, EventBits(0, n));
      var s0 := ElementBack(bits, pos, sc, r, items[i], t, depth - 1, owner);
      FirstCode(bits, s0.pos, n);
      var p := s0.pos + BitCount(n);
      AtConcat(bits, p, more.bits, rest.bits);
      s := RunBack(bits, p, sc, r, i + 1, fields, s0.t, depth, owner);
      var d := DecodeNode(bits, sc, r, Reader(pos, t, false), depth - 1);
      if ExactNode(sc, row, items[i]) { GoesOn(bits, sc, r, i + 1, d.value.needEnd, d.s, s0, depth); }
    }
  }

  lemma RowOf(sc: Schema, r: nat, fields: seq<Field>, owner: Owner)
    requires WellFormed(sc) && InType(sc, r) && ShapedFields(sc, r, fields) && OwnedFields(sc, r, fields, owner)
    requires fields != [] && ElementRow(sc, r)
    ensures sc.rows[r].n > 0 && InType(sc, r + 1)
    ensures !sc.rows[r].unbounded ==> |fields[0].items| <= sc.rows[r].max
    ensures ShapedItems(sc, sc.rows[r], fields[0].items) && OwnedItems(sc, sc.rows[r], fields[0].items, owner)
  {
    RowCodes(sc, r);
  }

  /** Event code 0 asks for one more occurrence. */
  lemma GoesOn(bits: seq<bool>, sc: Schema, r: nat, count: nat, needEnd: bool, s: Reader, s0: Reader, depth: nat)
    requires WellFormed(sc) && InType(sc, r) && ElementRow(sc, r) && sc.rows[r].n > 0 && s.pos <= |bits| && depth > 0
    requires End(bits, needEnd, s) == Got((), s0) && !s0.short
    requires var n := sc.rows[r].Codes(count);
             sc.rows[r].More(count) && s0.pos + BitCount(n) <= |bits| && Peek(bits, s0.pos, BitCount(n)) == 0
    ensures DecodeMore(bits, sc, r, count, needEnd, s, depth)
            == DecodeItems(bits, sc, r, count, s0.(pos := s0.pos + BitCount(sc.rows[r].Codes(count))), depth)
  {
    hide DecodeItems, End;
    RowCodes(sc, r);
  }

  /** What follows the last occurrence of row `r`. */
  lemma RunEnds(bits: seq<bool>, pos: nat, sc: Schema, r: nat, needEnd: bool, s1: Reader, fields: seq<Field>,
                t: Tables, depth: nat, owner: Owner) returns (s: Reader)
    requires WellFormed(sc) && InType(sc, r) && ShapedFields(sc, r, fields) && OwnedFields(sc, r, fields, owner)
    requires InStep(t, owner) && fields != [] && ElementRow(sc, r) && depth > 0 && s1.pos <= |bits|
    requires End(bits, needEnd, s1) == Got((), Reader(pos, t, false))
    requires var rest := EncodeRest(sc, r, |fields[0].items|, fields, t, depth); rest.Done? && At(bits, pos, rest.bits)
    ensures sc.rows[r].n > 0 && InType(sc, r + 1)
    ensures var rest := EncodeRest(sc, r, |fields[0].items|, fields, t, depth); s == Reader(pos + |rest.bits|, rest.t, false)
    ensures var d := DecodeMore(bits, sc, r, |fields[0].items|, needEnd, s1, depth);
            && d.Got? && d.value.items == []
            && Meets(ExactFields(sc, r + 1, fields[1..]), bits, DecodeFields(bits, sc, r + 1, d.value.token, d.s, depth), FieldsBack(sc, r + 1, fields[1..]), s)
    ensures InStep(s.t, owner)
    decreases fields, 0, 0
  {
    hide NBits, Peek, BitCount, Pow2, InStep, At, EventBits, DecodeFields, EncodeFields, FieldsBack, Shaped, Entries, End;
    var row, count := sc.rows[r], |fields[0].items|;
    RowOf(sc, r, fields, owner);
    RowCodes(sc, r);
    if row.More(count) {
      var k;
      k, s := SkipBack(bits, pos, sc, r + 1, 1, row.n, fields[1..], t, depth, owner);
      TokenLands(bits, sc, r + 1, k, Reader(pos + BitCount(row.n), t, false), depth);
    } else {
      s := ContentBack(bits, pos, sc, r + 1, fields[1..], t, depth, owner);
    }
  }

  /** What is written behind the last occurrence keeps the tables in step. */
  lemma RestInStep(bits: seq<bool>, pos: nat, sc: Schema, r: nat, fields: seq<Field>,
                   t: Tables, depth: nat, owner: Owner) returns (s: Reader)
    requires WellFormed(sc) && InType(sc, r) && ShapedFields(sc, r, fields) && OwnedFields(sc, r, fields, owner)
    requires InStep(t, owner) && fields != [] && ElementRow(sc, r) && depth > 0
    requires var rest := EncodeRest(sc, r, |fields[0].items|, fields, t, depth); rest.Done? && At(bits, pos, rest.bits)
    ensures var rest := EncodeRest(sc, r, |fields[0].items|, fields, t, depth); s == Reader(pos + |rest.bits|, rest.t, false)
    ensures InStep(s.t, owner)
    decreases fields, 0, 0
  {
    hide NBits, Peek, BitCount, Pow2, InStep, At, EventBits, DecodeFields, EncodeFields, FieldsBack, Shaped, Entries, End;
    var row, count := sc.rows[r], |fields[0].items|;
    RowOf(sc, r, fields, owner);
    RowCodes(sc, r);
    if row.More(count) {
      var k;
      k, s := SkipBack(bits, pos, sc, r + 1, 1, row.n, fields[1..], t, depth, owner);
    } else {
      s := ContentBack(bits, pos, sc, r + 1, fields[1..], t, depth, owner);
    }
  }

  lemma FirstCode(bits: seq<bool>, pos: nat, n: nat)
    requires n > 0 && At(bits, pos, EventBits(0, n))
    ensures |EventBits(0, n)| == BitCount(n) && pos + BitCount(n) <= |bits| && Peek(bits, pos, BitCount(n)) == 0
  {
    hide NBits, Peek, BitCount, Pow2, At;
    PeekAt(bits, pos, 0, BitCount(n));
  }

  lemma ElementBack(bits: seq<bool>, pos: nat, sc: Schema, r: nat, node: Node,
                    t: Tables, depth: nat, owner: Owner) returns (s: Reader)
    requires WellFormed(sc) && r < |sc.rows| && ElementRow(sc, r) && Shaped(sc, sc.rows[r], node) && OwnedNode(sc, sc.rows[r], node, owner)
    requires InStep(t, owner)
    requires var e := EncodeNode(sc, sc.rows[r], node, t, depth); e.Done? && At(bits, pos, e.bits)
    ensures pos <= |bits|
    ensures var e := EncodeNode(sc, sc.rows[r], node, t, depth); s == Reader(pos + |e.bits|, e.t, false)
    ensures MeetsItem(ExactNode(sc, sc.rows[r], node), bits, DecodeNode(bits, sc, r, Reader(pos, t, false), depth), NodeBack(sc, sc.rows[r], node), s)
    ensures InStep(s.t, owner)
    decreases node
  {
    hide InStep;
    var row := sc.rows[r];
    if row.simple {
      EndBit();
      hide At, NBits, SimpleBits, EventBits;
      SimpleBack(bits, pos, row, node.v, t, owner);
      var (b, t') := SimpleBits(t, row.name, row.xs, row.Optional(), node.v);
      s := Reader(pos + |b| + 1, t', false);
    } else {
      s := ContentBack(bits, pos, sc, row.index + 1, node.fields, t, depth, owner);
    }
  }

  // ---- documents ----

  /** Parsing what `output_doc` wrote gives the document back and ends where it ended, if and
      only if all its numbers and binary data are exact. */
  lemma DocumentRoundTrip(bits: seq<bool>, pos: nat, sc: Schema, kind: nat, node: Node, owner: Owner)
    requires WellFormed(sc) && kind < sc.length && GlobalRow(sc, kind) && Shaped(sc, sc.rows[kind], node)
    requires OwnedNode(sc, sc.rows[kind], node, owner)
    requires EncodeDoc(sc, kind, node).Done? && At(bits, pos, EncodeDoc(sc, kind, node).bits)
    ensures pos <= |bits|
    ensures var e := EncodeDoc(sc, kind, node);
            DecodeDoc(bits, sc, pos)
            == if ExactNode(sc, sc.rows[kind], node)
               then Got((kind, NodeBack(sc, sc.rows[kind], node)), Reader(pos + |e.bits|, e.t, false))
               else Lost(Undefined)
  {
    hide ExactNode, NBits, Peek, BitCount, Pow2, At, DecodeNode, EncodeNode, Shaped, OwnedNode, NodeBack;
    var n := BitCount(sc.length);
    var e := EncodeNode(sc, sc.rows[kind], node, NO_TABLES, MAX_STACK - 1);
    AtConcat(bits, pos, EventBits(kind, sc.length), e.bits);
    BitCountBound(sc.length);
    PeekAt(bits, pos, kind, n);
    var s := ElementBack(bits, pos + n, sc, kind, node, NO_TABLES, MAX_STACK - 1, owner);
  }

  /** Nothing in the object is lost on the way: no false optional Boolean, no empty string behind a pointer. */
  predicate Kept(s: Schema, row: Row, node: Node)
    decreases node, 1
  {
    match node
    case Leaf(v) =>
      && !(row.xs.XsBoolean? && row.Optional() && v == Flag(false))
      && !(!row.attribute && row.xs.Pointer() && v == Text([]))
    case Obj(fields) => KeptFields(s, row.index + 1, fields)
  }

  predicate KeptFields(s: Schema, r: nat, fields: seq<Field>)
    decreases fields
  {
    fields == [] || r >= |s.rows| || (KeptItems(s, s.rows[r], fields[0].items) && KeptFields(s, r + 1, fields[1..]))
  }

  predicate KeptItems(s: Schema, row: Row, items: seq<Node>)
    decreases items
  {
    items == [] || (Kept(s, row, items[0]) && KeptItems(s, row, items[1..]))
  }

  lemma {:induction false} KeptNode(s: Schema, row: Row, node: Node)
    requires Shaped(s, row, node) || (row.attribute && LeafFits(row, node))
    ensures NodeBack(s, row, node) == node <==> Kept(s, row, node)
    decreases node, 1
  {
    if node.Obj? { KeptAll(s, row.index + 1, node.fields); }
  }

  lemma {:induction false} KeptAll(s: Schema, r: nat, fields: seq<Field>)
    requires ShapedFields(s, r, fields)
    ensures FieldsBack(s, r, fields) == fields <==> KeptFields(s, r, fields)
    decreases fields
  {
    if fields != [] {
      var row, items := s.rows[r], fields[0].items;
      KeptAll(s, r + 1, fields[1..]);
      KeptRun(s, row, items);
      var b := FieldsBack(s, r, fields);
      assert b[0] == Field(ItemsBack(s, row, items)) && b[1..] == FieldsBack(s, r + 1, fields[1..]);
      assert fields == [fields[0]] + fields[1..] && fields[0] == Field(items);
    }
  }

  lemma {:induction false} KeptRun(s: Schema, row: Row, items: seq<Node>)
    requires if row.attribute then |items| <= 1 && (items != [] ==> LeafFits(row, items[0])) else ShapedItems(s, row, items)
    ensures ItemsBack(s, row, items) == items <==> KeptItems(s, row, items)
    decreases items
  {
    if items != [] {
      KeptNode(s, row, items[0]);
      KeptRun(s, row, items[1..]);
      var b := ItemsBack(s, row, items);
      assert b[0] == NodeBack(s, row, items[0]) && b[1..] == ItemsBack(s, row, items[1..]);
      assert items == [items[0]] + items[1..];
    }
  }

  /** The same object comes back if and only if it is exact and `Kept`. */
  lemma DocumentKept(bits: seq<bool>, pos: nat, sc: Schema, kind: nat, node: Node, owner: Owner)
    requires WellFormed(sc) && kind < sc.length && GlobalRow(sc, kind) && Shaped(sc, sc.rows[kind], node)
    requires OwnedNode(sc, sc.rows[kind], node, owner)
    requires EncodeDoc(sc, kind, node).Done? && At(bits, pos, EncodeDoc(sc, kind, node).bits)
    ensures pos <= |bits|
    ensures var d := DecodeDoc(bits, sc, pos);
            (d.Got? && d.value == (kind, node)) <==> ExactNode(sc, sc.rows[kind], node) && Kept(sc, sc.rows[kind], node)
  {
    hide ExactNode, DecodeDoc, EncodeDoc, At, Kept, NodeBack;
    DocumentRoundTrip(bits, pos, sc, kind, node, owner);
    KeptNode(sc, sc.rows[kind], node);
  }

  // ---- which objects can be written ----

  /** Every row has its minimum of occurrences and no element row lies below the 32nd level. */
  predicate Complete(s: Schema, row: Row, node: Node, depth: nat)
    decreases node, 1
  {
    node.Obj? && !row.simple ==> CompleteFields(s, row.index + 1, node.fields, depth)
  }

  predicate CompleteFields(s: Schema, r: nat, fields: seq<Field>, depth: nat)
    decreases fields
  {
    fields == [] || r >= |s.rows|
    || (var row := s.rows[r];
        && row.min <= |fields[0].items|
        && (!row.attribute ==> depth > 0 && CompleteItems(s, row, fields[0].items, depth - 1))
        && CompleteFields(s, r + 1, fields[1..], depth))
  }

  predicate CompleteItems(s: Schema, row: Row, items: seq<Node>, depth: nat)
    decreases items
  {
    items == [] || (Complete(s, row, items[0], depth) && CompleteItems(s, row, items[1..], depth))
  }

  lemma {:induction false} NodeWritten(s: Schema, row: Row, node: Node, t: Tables, depth: nat)
    requires WellFormed(s) && Shaped(s, row, node) && !row.attribute && (!row.simple ==> InType(s, row.index + 1))
    ensures EncodeNode(s, row, node, t, depth).Done? <==> Complete(s, row, node, depth)
    decreases node, 1
  {
    if !row.simple { FieldsWritten(s, row.index + 1, 0, 0, node.fields, t, depth); }
  }

  lemma {:induction false} FieldsWritten(s: Schema, r: nat, code: nat, n: nat, fields: seq<Field>, t: Tables, depth: nat)
    requires WellFormed(s) && InType(s, r) && ShapedFields(s, r, fields)
    ensures EncodeFields(s, r, code, n, fields, t, depth).Done? <==> CompleteFields(s, r, fields, depth)
    decreases fields
  {
    if fields != [] {
      hide EncodeNode, Complete, NBits, Entries;
      var row, items, rest := s.rows[r], fields[0].items, fields[1..];
      RowKind(s, r);
      assert TypeRow(s, r);
      if items == [] {
        FieldsWritten(s, r + 1, code + 1, if n == 0 then row.n else n, rest, t, depth);
      } else if row.attribute {
        var t' := ValueBits(t, row.name, row.xs, row.Optional(), items[0].v).1;
        FieldsWritten(s, r + 1, 0, 0, rest, t', depth);
      } else if depth > 0 {
        RunWritten(s, row, 0, items, t, depth);
        var e := EncodeItems(s, row, 0, items, t, depth);
        assert EncodeFields(s, r, code, n, fields, t, depth).Done? == EncodePresent(s, r, fields, t, depth).Done?;
        if e.Done? {
          assert EncodePresent(s, r, fields, t, depth).Done? == EncodeRest(s, r, |items|, fields, e.t, depth).Done?;
          FieldsWritten(s, r + 1, 0, 0, rest, e.t, depth);
          FieldsWritten(s, r + 1, 1, row.n, rest, e.t, depth);
        }
      }
    }
  }

  lemma {:induction false} RunWritten(s: Schema, row: Row, count: nat, items: seq<Node>, t: Tables, depth: nat)
    requires WellFormed(s) && ShapedItems(s, row, items) && items != [] && !row.attribute && depth > 0
    requires !row.simple ==> InType(s, row.index + 1)
    ensures EncodeItems(s, row, count, items, t, depth).Done? <==> CompleteItems(s, row, items, depth - 1)
    decreases items
  {
    NodeWritten(s, row, items[0], t, depth - 1);
    var e := EncodeNode(s, row, items[0], t, depth - 1);
    if |items| > 1 && e.Done? { RunWritten(s, row, count + 1, items[1..], e.t, depth); }
  }

  /** `output_doc` succeeds on exactly the complete objects. */
  lemma DocumentWritten(sc: Schema, kind: nat, node: Node)
    requires WellFormed(sc) && kind < sc.length && GlobalRow(sc, kind) && Shaped(sc, sc.rows[kind], node)
    ensures EncodeDoc(sc, kind, node).Done? <==> Complete(sc, sc.rows[kind], node, 31)
  {
    NodeWritten(sc, sc.rows[kind], node, NO_TABLES, MAX_STACK - 1);
  }
}
