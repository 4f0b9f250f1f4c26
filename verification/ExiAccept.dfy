/**
 What the parser accepts on any input: every occurrence count within the bounds
 of its row, every value within the range of its field.
 */
module ExiAccept {
  import opened Words
  import opened BitStream
  import opened ExiValue
  import opened ExiSchema
  import opened ExiDocument

  /** A value the parser may leave in a field. */
  predicate LegalLeaf(row: Row, node: Node) {
    node.Leaf? && (Fits(row.xs, node.v) || (node.v == Absent && row.xs.Pointer() && row.simple))
  }

  predicate Legal(s: Schema, row: Row, node: Node)
    decreases node, 1
  {
    if row.attribute || row.simple then LegalLeaf(row, node)
    else node.Obj? && LegalFields(s, row.index + 1, node.fields)
  }

  predicate LegalFields(s: Schema, r: nat, fields: seq<Field>)
    decreases fields
  {
    if r >= |s.rows| || s.rows[r].n == 0 then fields == []
    else
      && fields != []
      && s.rows[r].min <= |fields[0].items|
      && (!s.rows[r].unbounded ==> |fields[0].items| <= s.rows[r].max)
      && LegalItems(s, s.rows[r], fields[0].items)
      && LegalFields(s, r + 1, fields[1..])
  }

  predicate LegalItems(s: Schema, row: Row, items: seq<Node>)
    decreases items
  {
    items == [] || (Legal(s, row, items[0]) && LegalItems(s, row, items[1..]))
  }

  /** The tables hold C strings. */
  predicate CleanTables(t: Tables) {
    && (forall i :: 0 <= i < |t.global| ==> Codes(t.global[i], 0x11_0000))
    && (forall n, i :: n in t.local && 0 <= i < |t.local[n]| ==> Codes(t.local[n][i], 0x11_0000))
  }

  // ---- values ----

  lemma {:induction false} CodesRead(bits: seq<bool>, pos: nat, k: nat)
    ensures var r := ReadCodes(bits, pos, k); r.Ok? ==> forall i :: 0 <= i < |r.value| ==> r.value[i] < 0x2_0000
    decreases k
  {
    if k > 0 {
      var r := DecodeUint(bits, pos);
      if r.Ok? {
        hide DecodeUint;
        CodesRead(bits, r.pos, k - 1);
        var rest := ReadCodes(bits, r.pos, k - 1);
        if rest.Ok? { assert forall i :: 0 < i < k ==> ([r.value] + rest.value)[i] == rest.value[i - 1]; }
      }
    }
  }

  lemma {:induction false} CStringClean(s: Str)
    requires forall i :: 0 <= i < |s| ==> s[i] < 0x11_0000
    ensures Codes(CString(s), 0x11_0000) && StringSize(CString(s)) <= StringSize(s)
  {
    if s != [] && s[0] != 0 {
      CStringClean(s[1..]);
      assert ([s[0]] + CString(s[1..]))[1..] == CString(s[1..]);
    }
  }

  lemma StringLegal(bits: seq<bool>, pos: nat, t: Tables, name: Name, size: nat)
    requires CleanTables(t)
    ensures var r := DecodeString(bits, pos, t, name, size);
            r.Ok? ==> && r.value.0.Text? && Codes(r.value.0.s, 0x11_0000) && (size > 0 ==> StringSize(r.value.0.s) < size)
                      && CleanTables(r.value.1)
  {
    hide ReadCodes, ScanLiteral, DecodeUint, StringSize, Peek, BitCount, Codes, CString;
    var d := DecodeUint(bits, pos);
    if d.Ok? && !d.short && d.value > 1 {
      var scan := ScanLiteral(bits, d.pos, d.value - 2);
      if scan.Ok? {
        CodesRead(bits, d.pos, scan.value);
        var codes := ReadCodes(bits, d.pos, scan.value);
        if codes.Ok? { CStringClean(codes.value); }
      }
    }
  }

  lemma BinaryLegal(bits: seq<bool>, pos: nat, size: nat)
    ensures var r := DecodeBinary(bits, pos, size); r.Ok? ==> r.value.Binary? && |r.value.data| == size
  {
  }

  lemma ValueLegal(bits: seq<bool>, pos: nat, t: Tables, name: Name, xs: XsType)
    requires CleanTables(t)
    ensures var r := DecodeValue(bits, pos, t, name, xs); r.Ok? ==> Fits(xs, r.value.0) && CleanTables(r.value.1)
  {
    hide DecodeString, DecodeBinary, DecodeUint, DecodeInteger, Peek, CleanTables;
    match xs
    case XsString(n) => StringLegal(bits, pos, t, name, n);
    case XsAnyUri => StringLegal(bits, pos, t, name, 0);
    case XsHexBinary(n) => BinaryLegal(bits, pos, n);
    case _ =>
  }

  lemma ZeroLegal(row: Row)
    requires row.simple
    ensures LegalLeaf(row, Leaf(Zero(row.xs)))
  {
    assert StringSize([]) == 0;
  }

  lemma SimpleLegal(bits: seq<bool>, row: Row, s: Reader)
    requires CleanTables(s.t) && row.simple
    ensures var d := SimpleItem(bits, row, s); d.Got? ==> LegalLeaf(row, d.value.node) && CleanTables(d.s.t)
  {
    hide DecodeValue, CleanTables, Fits, Zero, Peek;
    ZeroLegal(row);
    ValueLegal(bits, s.pos + 1, s.t, row.name, row.xs);
  }

  // ---- objects ----

  lemma {:induction false} SkippedLegal(sc: Schema, r: nat, k: nat, rest: seq<Field>)
    requires WellFormed(sc) && InType(sc, r) && k < Gap(sc, r) && k <= |Entries(sc, r)| && LegalFields(sc, r + k, rest)
    ensures LegalFields(sc, r, Skipped(k) + rest)
    decreases k
  {
    hide Entries, Count;
    if k == 0 {
      assert Skipped(0) + rest == rest;
    } else {
      CodesReach(sc, r, k);
      RowCodes(sc, r);
      EntriesFrom(sc, r, 1);
      SkippedLegal(sc, r + 1, k - 1, rest);
      assert (Skipped(k) + rest)[1..] == Skipped(k - 1) + rest;
      assert LegalItems(sc, sc.rows[r], []);
    }
  }

  /** On any input, the object content accepted from row `r` on is legal. */
  lemma {:induction false} FieldsLegal(bits: seq<bool>, sc: Schema, r: nat, tok: Token, s: Reader, depth: nat)
    requires WellFormed(sc) && InType(sc, r) && s.pos <= |bits| && CleanTables(s.t)
    requires tok.Token? ==> tok.k < Gap(sc, r) && tok.k <= |Entries(sc, r)|
    ensures var d := DecodeFields(bits, sc, r, tok, s, depth);
            d.Got? ==> LegalFields(sc, r, d.value.fields) && CleanTables(d.s.t)
    decreases depth, 2, |Entries(sc, r)|, 1
  {
    hide CleanTables, Peek, BitCount, DecodeRow, Entries, LegalItems, Count, Event;
    if sc.rows[r].n > 0 {
      RowCodes(sc, r);
      var next := NextToken(bits, sc, r, tok, s);
      if next.Got? {
        var k := next.value;
        CodesReach(sc, r, k);
        EntriesFrom(sc, r, k);
        if sc.rows[r + k].n == 0 {
          SkippedLegal(sc, r, k, []);
          assert Skipped(k) + [] == Skipped(k);
        } else {
          RowLegal(bits, sc, r + k, next.s, depth);
          var d := DecodeRow(bits, sc, r + k, next.s, depth);
          if d.Got? { SkippedLegal(sc, r, k, d.value.fields); }
        }
      }
    }
  }

  lemma {:induction false} RowLegal(bits: seq<bool>, sc: Schema, r: nat, s: Reader, depth: nat)
    requires WellFormed(sc) && InType(sc, r) && sc.rows[r].n > 0 && s.pos <= |bits| && CleanTables(s.t)
    ensures var d := DecodeRow(bits, sc, r, s, depth);
            d.Got? ==> LegalFields(sc, r, d.value.fields) && CleanTables(d.s.t)
    decreases depth, 2, |Entries(sc, r)|, 0
  {
    hide CleanTables, Peek, BitCount, DecodeValue, DecodeItems, DecodeFields, Fits, Entries;
    RowKind(sc, r);
    assert TypeRow(sc, r);
    var row := sc.rows[r];
    if row.attribute {
      ValueLegal(bits, s.pos, s.t, row.name, row.xs);
      var v := AttributeValue(bits, row, s);
      if v.Got? {
        FieldsLegal(bits, sc, r + 1, NoToken, v.s, depth);
        var d := DecodeFields(bits, sc, r + 1, NoToken, v.s, depth);
        if d.Got? {
          assert LegalLeaf(row, Leaf(v.value));
          Joined(sc, r, [Leaf(v.value)], d.value.fields) by { assert LegalItems(sc, row, [Leaf(v.value)][1..]); }
        }
      }
    } else if depth > 0 {
      ItemsLegal(bits, sc, r, 0, s, depth);
      var run := DecodeItems(bits, sc, r, 0, s, depth);
      if run.Got? {
        FieldsLegal(bits, sc, r + 1, run.value.token, run.s, depth);
        var d := DecodeFields(bits, sc, r + 1, run.value.token, run.s, depth);
        if d.Got? { Joined(sc, r, run.value.items, d.value.fields); }
      }
    }
  }

  lemma Joined(sc: Schema, r: nat, items: seq<Node>, rest: seq<Field>)
    requires r < |sc.rows| && sc.rows[r].n > 0 && LegalItems(sc, sc.rows[r], items) && LegalFields(sc, r + 1, rest)
    requires sc.rows[r].min <= |items| && (!sc.rows[r].unbounded ==> |items| <= sc.rows[r].max)
    ensures LegalFields(sc, r, [Field(items)] + rest)
  {
    assert ([Field(items)] + rest)[1..] == rest;
  }

  /** However often the events repeat a row, it ends between its minimum and its maximum. */
  lemma {:induction false} ItemsLegal(bits: seq<bool>, sc: Schema, r: nat, count: nat, s: Reader, depth: nat)
    requires WellFormed(sc) && InType(sc, r) && ElementRow(sc, r) && sc.rows[r].n > 0 && s.pos <= |bits| && depth > 0
    requires CleanTables(s.t) && sc.rows[r].More(count)
    ensures var d := DecodeItems(bits, sc, r, count, s, depth);
            d.Got? ==>
              && LegalItems(sc, sc.rows[r], d.value.items) && CleanTables(d.s.t)
              && sc.rows[r].min <= count + |d.value.items|
              && (!sc.rows[r].unbounded ==> count + |d.value.items| <= sc.rows[r].max)
              && (d.value.token.Token? ==> d.value.token.k < Gap(sc, r + 1))
    decreases depth, 1, |bits| - s.pos
  {
    hide CleanTables, Peek, BitCount, DecodeNode, Legal, Entries, Gap;
    assert TypeRow(sc, r);
    RowCodes(sc, r);
    NodeLegal(bits, sc, r, s, depth - 1);
    var d := DecodeItems(bits, sc, r, count, s, depth);
    var one := DecodeNode(bits, sc, r, s, depth - 1);
    if d.Got? {
      var e := End(bits, one.value.needEnd, one.s);
      var more := Sequel(bits, sc, r, count + 1, e.s, depth);
      assert DecodeMore(bits, sc, r, count + 1, one.value.needEnd, one.s, depth) == more;
      assert d.value.items[1..] == more.value.items;
      if sc.rows[r].More(count + 1) {
        var k := Event(bits, sc.rows[r].Codes(count + 1), e.s);
        if k.value == 0 { ItemsLegal(bits, sc, r, count + 1, k.s, depth); }
      }
    }
  }

  lemma {:induction false} NodeLegal(bits: seq<bool>, sc: Schema, r: nat, s: Reader, depth: nat)
    requires WellFormed(sc) && r < |sc.rows| && ElementRow(sc, r) && s.pos <= |bits| && CleanTables(s.t)
    ensures var d := DecodeNode(bits, sc, r, s, depth);
            d.Got? ==> Legal(sc, sc.rows[r], d.value.node) && CleanTables(d.s.t)
    decreases depth, 3
  {
    hide CleanTables, SimpleItem, DecodeFields;
    if sc.rows[r].simple {
      SimpleLegal(bits, sc.rows[r], s);
    } else {
      FieldsLegal(bits, sc, sc.rows[r].index + 1, NoToken, s, depth);
    }
  }

  /** Whatever the input, a document that is accepted is a legal object of a type of the schema. */
  lemma DocumentLegal(bits: seq<bool>, sc: Schema, pos: nat)
    requires WellFormed(sc) && pos <= |bits|
    ensures var d := DecodeDoc(bits, sc, pos);
            d.Got? ==> d.value.0 < sc.length && Legal(sc, sc.rows[d.value.0], d.value.1)
  {
    var d := DecodeKind(bits, sc, pos);
    if d.Got? {
      assert GlobalRow(sc, d.value);
      assert CleanTables(NO_TABLES);
      NodeLegal(bits, sc, d.value, d.s, MAX_STACK - 1);
    }
  }
}
