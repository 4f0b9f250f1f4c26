/**
 The formats of EXI, told bit by bit: the order of the bits in a number, the groups of an
 unsigned integer, the event code of an element behind absent ones, and one whole document.
 Round trips alone would hold of any pair of writer and reader that agree.
 */
module ExiFormat {
  import opened Words
  import opened BitStream
  import opened ExiValue
  import opened ExiSchema
  import opened ExiDocument
  import opened ExiRoundTrip

  // ---- numbers ----

  /** The most significant bit comes first. */
  lemma {:induction false} BitOrder(x: nat, n: nat, i: nat)
    requires i < n
    ensures NBits(x, n)[i] <==> x / Pow2(n - 1 - i) % 2 == 1
    decreases n
  {
    if i < n - 1 {
      BitOrder(x / 2, n - 1, i);
      HalfFirst(x, Pow2(n - 2 - i));
    }
  }

  lemma HalfFirst(x: nat, p: nat)
    requires p > 0
    ensures x / 2 / p == x / (2 * p)
  {
    var q, r, b := x / 2 / p, x / 2 % p, x % 2;
    assert x == 2 * (q * p + r) + b == q * (2 * p) + (2 * r + b);
    DivUnique(x, 2 * p, q, 2 * r + b);
  }

  /** At byte `i` stand the low seven bits of `y`, with a one in front unless `y` is all that is
      left, and then it is the last byte. */
  predicate GroupAt(u: seq<bool>, i: nat, y: nat) {
    && |u| >= 8 * i + 8 && (y < 128 <==> |u| == 8 * i + 8)
    && u[8 * i..8 * i + 8] == NBits(y % 128 + if y < 128 then 0 else 128, 8)
  }

  /** What is left of a number behind `i` groups of seven bits. */
  function Left(x: nat, i: nat): nat { if i == 0 then x else Left(x / 128, i - 1) }

  lemma {:induction false} LeftIs(x: nat, i: nat)
    ensures Left(x, i) == x / Pow2(7 * i)
  {
    if i == 0 {
      assert Pow2(0) == 1;
    } else {
      LeftIs(x / 128, i - 1);
      GroupShift(x, i - 1);
    }
  }

  /** Byte `i` of an unsigned integer holds its seven bits from `7 * i` on. */
  lemma {:induction false} UintByte(x: nat, i: nat)
    requires 8 * i < |UintBits(x)|
    ensures GroupAt(UintBits(x), i, Left(x, i))
  {
    FirstGroup(x);
    if i > 0 {
      var head, tail := UintBits(x)[..8], UintBits(x / 128);
      assert x >= 128 && UintBits(x) == head + tail && Left(x, i) == Left(x / 128, i - 1);
      hide *;
      UintByte(x / 128, i - 1);
      GroupBehind(head, tail, i - 1, Left(x, i));
    }
  }

  lemma FirstGroup(x: nat)
    ensures GroupAt(UintBits(x), 0, x)
    ensures x < 128 ==> |UintBits(x)| == 8
    ensures x >= 128 ==> UintBits(x) == UintBits(x)[..8] + UintBits(x / 128)
  {
    UintBytes(x);
    if x < 128 {
      assert UintBits(x)[0..8] == NBits(x, 8);
    } else {
      UintBytes(x / 128);
      var head, tail := NBits(128 + x % 128, 8), UintBits(x / 128);
      assert UintBits(x) == head + tail;
      hide NBits, UintBits;
      assert (head + tail)[..8] == head && (head + tail)[0..8] == head;
    }
  }

  lemma GroupBehind(head: seq<bool>, tail: seq<bool>, i: nat, y: nat)
    requires |head| == 8 && GroupAt(tail, i, y)
    ensures GroupAt(head + tail, i + 1, y)
  {
    Behind(head, tail, i);
  }

  /** A byte further on, seen from one byte further back. */
  lemma Behind(head: seq<bool>, tail: seq<bool>, i: nat)
    requires |head| == 8 && 8 * i + 8 <= |tail|
    ensures (head + tail)[8 * (i + 1)..8 * (i + 1) + 8] == tail[8 * i..8 * i + 8]
  {
  }

  lemma {:induction false} UintBytes(x: nat)
    ensures |UintBits(x)| % 8 == 0 && |UintBits(x)| >= 8
    ensures |UintBits(x)| == 8 <==> x < 128
  {
    hide NBits;
    if x >= 128 { UintBytes(x / 128); }
  }

  lemma GroupShift(x: nat, i: nat)
    ensures x / 128 / Pow2(7 * i) == x / Pow2(7 * (i + 1))
  {
    var p := Pow2(7 * i);
    ExiValueProofs.Pow2Seven(i);
    var y := x / 128;
    var q, r, b := y / p, y % p, x % 128;
    assert x == 128 * (q * p + r) + b == q * (128 * p) + (128 * r + b);
    DivUnique(x, 128 * p, q, 128 * r + b);
  }

  /** The bytes of binary data come one after the other. */
  lemma {:induction false} BytesInOrder(b: seq<byte>, i: nat)
    requires i < |b|
    ensures |ByteBits(b)| == 8 * |b| && ByteBits(b)[8 * i..8 * i + 8] == NBits(b[i], 8)
  {
    hide NBits;
    var head, tail := NBits(b[0], 8), ByteBits(b[1..]);
    if |b| > 1 { BytesInOrder(b[1..], if i > 0 then i - 1 else 0); }
    if i > 0 { Behind(head, tail, i - 1); }
  }

  /** A byte goes out as its distance from -128, an unsigned one as it is, in eight bits. */
  lemma ByteValues(t: Tables, name: Name, optional: bool, x: int)
    ensures -128 <= x < 128 ==> var b := ValueBits(t, name, XsByte, optional, Number(x)).0; |b| == 8 && Val(b) == x + 128
    ensures 0 <= x < 256 ==> var b := ValueBits(t, name, XsUByte, optional, Number(x)).0; |b| == 8 && Val(b) == x
  {
    Pow2Values();
    if -128 <= x < 128 { ValOfSmall(x + 128, 8); }
    if 0 <= x < 256 { ValOfSmall(x, 8); }
    hide NBits, Val, Pow2;
  }

  /** A signed integer is its sign and its magnitude, binary data the number of its bytes without
      leading zeros and these bytes; a Boolean that must be there is its value, one that need not
      be a one. An empty string is the end of its element, 100, and any other content comes
      behind a 0. */
  lemma Contents(t: Tables, name: Name, xs: XsType, optional: bool, v: Value)
    requires Fits(xs, v)
    ensures var b := ValueBits(t, name, xs, optional, v).0;
      && (xs.XsLong? || xs.XsInt? || xs.XsShort? ==> b == [v.x < 0] + UintBits(if v.x < 0 then -v.x else v.x))
      && (xs.XsBoolean? ==> b == [optional || v.b])
      && (xs.XsHexBinary? && v.data != [] ==>
            var k := |v.data| - |Strip(v.data)|;
            && k >= 0 && b == UintBits(|v.data| - k) + ByteBits(v.data[k..])
            && (forall i :: 0 <= i < k ==> v.data[i] == 0) && (k < |v.data| - 1 ==> v.data[k] != 0))
      && SimpleBits(t, name, xs, optional, v).0 == (if xs.Textual() && v.s == [] then [true, false, false] else [false] + b)
  {
    EmptyMark();
    if xs.XsHexBinary? { Stripped(v.data); }
    hide NBits, UintBits, ByteBits, StringBits, Strip, CodeBits, Codes;
  }

  lemma EmptyMark()
    ensures NBits(4, 3) == [true, false, false]
  {
    assert NBits(2, 2) == [true, false] && NBits(1, 1) == [true];
  }

  lemma Stripped(data: seq<byte>)
    ensures var k := |data| - |Strip(data)|;
      && k <= |data| && data[k..] == Strip(data) && (forall i :: 0 <= i < k ==> data[i] == 0)
      && (k < |data| - 1 ==> data[k] != 0)
  {
    var r := Strip(data);
    var k := |data| - |r|;
    assert data[k..] == r;
    assert forall i :: 0 <= i < k ==> data[i] == (seq(k, _ => 0) + r)[i];
  }

  /** Storing into a narrower field keeps the number up to multiples of the field's range. */
  lemma ReadModulo(bits: seq<bool>, pos: nat, t: Tables, name: Name, xs: XsType)
    requires xs.XsLong? || xs.XsInt? || xs.XsShort? || xs.XsULong? || xs.XsUInt? || xs.XsUShort?
    ensures var r, v := (if xs.XsLong? || xs.XsInt? || xs.XsShort? then DecodeInteger(bits, pos) else DecodeUint(bits, pos)), DecodeValue(bits, pos, t, name, xs);
      var range := if xs.XsLong? || xs.XsULong? then 0x1_0000_0000_0000_0000 else if xs.XsInt? || xs.XsUInt? then 0x1_0000_0000 else 0x1_0000;
      && (v.Ok? <==> r.Ok? && !r.short)
      && (v.Ok? ==> v.pos == r.pos && v.value.0.Number? && v.value.1 == t && Fits(xs, v.value.0) && (v.value.0.x - r.value) % range == 0)
  {
    hide DecodeUint;
    var r: Parse<int> := if xs.XsLong? || xs.XsInt? || xs.XsShort? then DecodeInteger(bits, pos) else DecodeUint(bits, pos);
    if r.Ok? {
      Wrapped(r.value, -0x8000_0000_0000_0000, 0x1_0000_0000_0000_0000);
      Wrapped(r.value, -0x8000_0000, 0x1_0000_0000);
      Wrapped(r.value, -0x8000, 0x1_0000);
      Wrapped(r.value, 0, 0x1_0000_0000_0000_0000);
      Wrapped(r.value, 0, 0x1_0000_0000);
      Wrapped(r.value, 0, 0x1_0000);
    }
    hide DecodeInteger, Wrap;
  }

  lemma Wrapped(x: int, lo: int, width: nat)
    requires width > 0
    ensures lo <= Wrap(x, lo, width) < lo + width && (Wrap(x, lo, width) - x) % width == 0
  {
    var q := (x - lo) / width;
    assert Wrap(x, lo, width) - x == (-q) * width;
    DivUnique(Wrap(x, lo, width) - x, width, -q, 0);
  }

  // ---- event codes ----

  /** `k` absent optional rows from `r` on and then one that is present. */
  predicate Absent(s: Schema, r: nat, fields: seq<Field>, k: nat) {
    && k < |fields| && r + k < |s.rows| && fields[k].items != []
    && (forall j :: 0 <= j < k ==> fields[j].items == [] && s.rows[r + j].min == 0)
  }

  lemma {:induction false} SkippedRows(s: Schema, r: nat, code: nat, n: nat, fields: seq<Field>, k: nat, t: Tables, depth: nat)
    requires WellFormed(s) && InType(s, r) && ShapedFields(s, r, fields) && Absent(s, r, fields, k) && depth > 0 && n > 0
    requires s.rows[r + k].attribute || s.rows[r + k].min <= |fields[k].items|
    ensures ShapedFields(s, r + k, fields[k..]) && InType(s, r + k)
    ensures EncodeFields(s, r, code, n, fields, t, depth) == EncodePresent(s, r + k, fields[k..], t, depth).After(EventBits(code + k, n))
    decreases k
  {
    FirstRow(s, r, fields, k);
    hide *;
    if k > 0 {
      AbsentTail(s, r, fields, k);
      NoneHere(s, r, code, n, fields, t, depth);
      SkippedRows(s, r + 1, code + 1, n, fields[1..], k - 1, t, depth);
      assert fields[1..][k - 1..] == fields[k..];
    } else {
      assert fields[0..] == fields;
      SomeHere(s, r, code, n, fields, t, depth);
    }
  }

  lemma FirstRow(s: Schema, r: nat, fields: seq<Field>, k: nat)
    requires WellFormed(s) && InType(s, r) && ShapedFields(s, r, fields) && Absent(s, r, fields, k)
    ensures fields != [] && s.rows[r].n > 0 && InType(s, r + 1)
    ensures if k > 0 then fields[0].items == [] && s.rows[r].min == 0 else fields[0].items != []
  {
    RowKind(s, r);
    if k > 0 { assert s.rows[r + 0] == s.rows[r] && fields[0].items == []; }
  }

  lemma NoneHere(s: Schema, r: nat, code: nat, n: nat, fields: seq<Field>, t: Tables, depth: nat)
    requires WellFormed(s) && InType(s, r) && s.rows[r].n > 0 && ShapedFields(s, r, fields) && depth > 0 && n > 0
    requires fields != [] && fields[0].items == [] && s.rows[r].min == 0
    ensures ShapedFields(s, r + 1, fields[1..])
    ensures EncodeFields(s, r, code, n, fields, t, depth) == EncodeFields(s, r + 1, code + 1, n, fields[1..], t, depth)
  {
    hide EncodePresent, EventBits;
  }

  lemma SomeHere(s: Schema, r: nat, code: nat, n: nat, fields: seq<Field>, t: Tables, depth: nat)
    requires WellFormed(s) && InType(s, r) && s.rows[r].n > 0 && ShapedFields(s, r, fields) && depth > 0 && n > 0
    requires fields != [] && fields[0].items != [] && (s.rows[r].attribute || s.rows[r].min <= |fields[0].items|)
    ensures EncodeFields(s, r, code, n, fields, t, depth) == EncodePresent(s, r, fields, t, depth).After(EventBits(code, n))
  {
    assert TypeRow(s, r);
    hide EncodePresent, EventBits, Entries;
  }

  /** An element or attribute behind `k` absent ones goes out as event code `k` of those that are
      possible at the first of them. */
  lemma SkippedCode(s: Schema, r: nat, fields: seq<Field>, k: nat, t: Tables, depth: nat)
    requires WellFormed(s) && InType(s, r) && ShapedFields(s, r, fields) && Absent(s, r, fields, k) && depth > 0
    requires s.rows[r + k].attribute || s.rows[r + k].min <= |fields[k].items|
    ensures ShapedFields(s, r + k, fields[k..]) && InType(s, r + k)
    ensures EncodeFields(s, r, 0, 0, fields, t, depth) == EncodePresent(s, r + k, fields[k..], t, depth).After(EventBits(k, Gap(s, r)))
  {
    RowCodes(s, r);
    RowKind(s, r);
    hide EncodePresent, EventBits, Gap;
    if k > 0 {
      assert s.rows[r] == s.rows[r + 0] && fields[0].items == [] && s.rows[r].min == 0;
      AbsentTail(s, r, fields, k);
      SkippedRows(s, r + 1, 1, s.rows[r].n, fields[1..], k - 1, t, depth);
    } else {
      assert fields[0..] == fields && TypeRow(s, r);
    }
  }

  lemma AbsentTail(s: Schema, r: nat, fields: seq<Field>, k: nat)
    requires k > 0 && Absent(s, r, fields, k)
    ensures Absent(s, r + 1, fields[1..], k - 1) && fields[1..][k - 1] == fields[k] && fields[1..][k - 1..] == fields[k..]
  {
    forall j | 0 <= j < k - 1 ensures fields[1..][j].items == [] && s.rows[r + 1 + j].min == 0 {
      assert fields[1..][j] == fields[j + 1] && s.rows[r + 1 + j] == s.rows[r + (j + 1)];
    }
  }

  // ---- one document ----

  const ATTRIBUTE := Row(0, 1, 3, true, false, false, XsUByte, 0, 1)
  const NAMES := Row(0, 1, 2, false, true, true, XsString(0), 0, 2)
  const LEVEL := Row(1, 2, 3, false, true, false, XsInt, 0, 3)
  const SWITCH := Row(0, 1, 2, false, true, false, XsBoolean, 0, 4)
  const EDGE := Row(0, 0, 0, false, false, false, XsInt, 0, 0)

  /** One type: an optional attribute, any number of strings, one or two numbers, an optional
      Boolean. */
  const SAMPLE := Schema(1, [Row(1, 1, 0, false, false, false, XsInt, 1, 0), EDGE, ATTRIBUTE, NAMES, LEVEL, SWITCH, EDGE])

  lemma SampleWellFormed()
    ensures WellFormed(SAMPLE)
  {
    var s := SAMPLE;
    assert Entries(s, 6) == [];
    assert Entries(s, 5) == [SWITCH];
    assert Entries(s, 4) == [LEVEL, SWITCH];
    assert Entries(s, 3) == [NAMES, LEVEL, SWITCH];
    assert Entries(s, 2) == [ATTRIBUTE, NAMES, LEVEL, SWITCH];
    assert [SWITCH][1..] == [] && [LEVEL, SWITCH][1..] == [SWITCH];
    assert [NAMES, LEVEL, SWITCH][1..] == [LEVEL, SWITCH] && [ATTRIBUTE, NAMES, LEVEL, SWITCH][1..] == [NAMES, LEVEL, SWITCH];
    assert Count([SWITCH], false) == 2 && Count([SWITCH], true) == 2;
    assert Count([LEVEL, SWITCH], false) == 1 && Count([LEVEL, SWITCH], true) == 3;
    assert Count([NAMES, LEVEL, SWITCH], false) == 2 && Count([NAMES, LEVEL, SWITCH], true) == 2;
    assert Count([ATTRIBUTE, NAMES, LEVEL, SWITCH], true) == 3;
    assert TypeRow(s, 1) && TypeRow(s, 2) && TypeRow(s, 3) && TypeRow(s, 4) && TypeRow(s, 5) && TypeRow(s, 6);
    assert TypeAt(s, 1);
  }

  const AB: Str := [97, 98]

  /** No attribute, the string "ab" twice, the number -3, and the Boolean false. */
  const NONE := Field([])
  const STRINGS := Field([Leaf(Text(AB)), Leaf(Text(AB))])
  const NUMBERS := Field([Leaf(Number(-3))])
  const FLAGS := Field([Leaf(Flag(false))])
  const OBJECT := Obj([NONE, STRINGS, NUMBERS, FLAGS])

  lemma SampleShaped()
    ensures Shaped(SAMPLE, SAMPLE.rows[0], OBJECT) && OBJECT.fields == [NONE, STRINGS, NUMBERS, FLAGS]
    ensures ShapedFields(SAMPLE, 2, [NONE, STRINGS, NUMBERS, FLAGS]) && ShapedFields(SAMPLE, 3, [STRINGS, NUMBERS, FLAGS])
    ensures ShapedFields(SAMPLE, 4, [NUMBERS, FLAGS]) && ShapedFields(SAMPLE, 5, [FLAGS]) && ShapedFields(SAMPLE, 6, [])
    ensures ShapedItems(SAMPLE, SWITCH, FLAGS.items) && ShapedItems(SAMPLE, LEVEL, NUMBERS.items)
    ensures ShapedItems(SAMPLE, NAMES, STRINGS.items) && ShapedItems(SAMPLE, NAMES, [Leaf(Text(AB))])
    ensures [FLAGS][1..] == [] && [NUMBERS, FLAGS][1..] == [FLAGS] && [STRINGS, NUMBERS, FLAGS][1..] == [NUMBERS, FLAGS]
    ensures [NONE, STRINGS, NUMBERS, FLAGS][1..] == [STRINGS, NUMBERS, FLAGS] && STRINGS.items[1..] == [Leaf(Text(AB))]
  {
    assert ShapedItems(SAMPLE, SWITCH, FLAGS.items) by { assert FLAGS.items[1..] == []; }
    assert ShapedItems(SAMPLE, LEVEL, NUMBERS.items) by { assert NUMBERS.items[1..] == []; }
    assert [Leaf(Text(AB))][1..] == [];
    assert ShapedItems(SAMPLE, NAMES, [Leaf(Text(AB))]);
    assert STRINGS.items[1..] == [Leaf(Text(AB))];
    assert ShapedItems(SAMPLE, NAMES, STRINGS.items);
    assert [NONE, STRINGS, NUMBERS, FLAGS][1..] == [STRINGS, NUMBERS, FLAGS];
    assert ShapedFields(SAMPLE, 6, []);
    ShapedMore(SAMPLE, 5, [FLAGS]);
    ShapedMore(SAMPLE, 4, [NUMBERS, FLAGS]);
    ShapedMore(SAMPLE, 3, [STRINGS, NUMBERS, FLAGS]);
    ShapedMore(SAMPLE, 2, [NONE, STRINGS, NUMBERS, FLAGS]);
    hide ShapedFields;
    assert SAMPLE.rows[0].index == 1;
  }

  lemma ShapedMore(s: Schema, r: nat, fields: seq<Field>)
    requires r < |s.rows| && s.rows[r].n > 0 && fields != [] && ShapedFields(s, r + 1, fields[1..])
    requires !s.rows[r].unbounded ==> |fields[0].items| <= s.rows[r].max
    requires if s.rows[r].attribute then fields[0].items == [] else ShapedItems(s, s.rows[r], fields[0].items)
    ensures ShapedFields(s, r, fields)
  {
    hide ShapedItems;
  }

  lemma Counts()
    ensures BitCount(0) == 0 && BitCount(1) == 1 && BitCount(2) == 2 && BitCount(3) == 2
    ensures NBits(0, 1) == [false] && NBits(0, 0) == []
  {
  }

  /** An occurrence of a row whose maximum is one, and what comes behind it. */
  lemma One(s: Schema, r: nat, n: nat, fields: seq<Field>, t: Tables, depth: nat, b: seq<bool>, t1: Tables, rest: seq<bool>)
    requires r < |s.rows| && !s.rows[r].attribute && depth > 0 && n > 0
    requires ShapedFields(s, r, fields) && s.rows[r].n > 0 && fields != [] && |fields[0].items| == 1 && s.rows[r].Counted(1) == 1
    requires ShapedItems(s, s.rows[r], fields[0].items) && Shaped(s, s.rows[r], fields[0].items[0])
    requires EncodeNode(s, s.rows[r], fields[0].items[0], t, depth - 1) == Done(b, t1)
    requires EncodeRest(s, r, 1, fields, t1, depth) == Done(rest, t1)
    ensures EncodeFields(s, r, 1, n, fields, t, depth) == Done(EventBits(1, n) + (b + rest), t1)
  {
    hide EncodeNode, EncodeRest, Shaped, ShapedItems;
    assert EncodeItems(s, s.rows[r], 0, fields[0].items, t, depth) == Done(b, t1);
  }

  /** What follows a row that may be behind the last of its occurrences, or not. */
  lemma RestIs(r: nat, count: nat, fields: seq<Field>, t: Tables, depth: nat)
    requires r < |SAMPLE.rows| && ShapedFields(SAMPLE, r, fields) && fields != [] && count >= SAMPLE.rows[r].min
    ensures ShapedFields(SAMPLE, r + 1, fields[1..])
    ensures EncodeRest(SAMPLE, r, count, fields, t, depth) ==
      var row := SAMPLE.rows[r];
      if !row.unbounded && count == row.max then EncodeFields(SAMPLE, r + 1, 0, 0, fields[1..], t, depth)
      else EncodeFields(SAMPLE, r + 1, 1, row.n, fields[1..], t, depth)
  {
    hide EncodeFields, SAMPLE;
  }

  /** The Boolean and the end. */
  function Last(): seq<bool> { NBits(1, 2) + ([false, true, false] + [false]) }

  lemma FlagNode(t: Tables, depth: nat)
    ensures EncodeNode(SAMPLE, SWITCH, Leaf(Flag(false)), t, depth) == Done([false, true, false], t)
  {
    Counts();
    hide NBits, BitCount;
  }

  lemma NothingLeft(t: Tables, depth: nat)
    ensures EncodeFields(SAMPLE, 6, 0, 0, [], t, depth) == Done([false], t)
  {
    Counts();
    hide NBits, BitCount;
  }

  lemma SampleSwitch()
    ensures |SAMPLE.rows| == 7 && SAMPLE.rows[5] == SWITCH && EventBits(1, 3) == NBits(1, 2)
    ensures SWITCH.n == 2 && !SWITCH.attribute && !SWITCH.unbounded && SWITCH.min == 0 && SWITCH.max == 1 && SWITCH.Counted(1) == 1
    ensures |FLAGS.items| == 1 && FLAGS.items[0] == Leaf(Flag(false)) && Shaped(SAMPLE, SWITCH, Leaf(Flag(false)))
    ensures Last() == NBits(1, 2) + ([false, true, false] + [false])
  {
    Counts();
  }

  lemma SampleEnd(t: Tables, depth: nat)
    requires depth > 0
    ensures ShapedFields(SAMPLE, 5, [FLAGS]) && EncodeFields(SAMPLE, 5, 1, 3, [FLAGS], t, depth) == Done(Last(), t)
  {
    hide *;
    SampleSwitch();
    SampleShaped();
    FlagNode(t, depth - 1);
    NothingLeft(t, depth);
    RestIs(5, 1, [FLAGS], t, depth);
    One(SAMPLE, 5, 3, [FLAGS], t, depth, [false, true, false], t, [false]);
  }

  /** The number -3: its sign and its magnitude. */
  function Middle(): seq<bool> { NBits(1, 2) + ([false] + ([true] + NBits(3, 8)) + [false]) }

  lemma NumberNode(t: Tables, depth: nat)
    ensures EncodeNode(SAMPLE, LEVEL, Leaf(Number(-3)), t, depth) == Done([false] + ([true] + NBits(3, 8)) + [false], t)
  {
    Counts();
    hide NBits, BitCount;
    assert UintBits(3) == NBits(3, 8);
    hide UintBits;
  }

  lemma SampleLevel(b: seq<bool>)
    requires b == [false] + ([true] + NBits(3, 8)) + [false]
    ensures |SAMPLE.rows| == 7 && SAMPLE.rows[4] == LEVEL && EventBits(1, 2) == NBits(1, 2)
    ensures LEVEL.n == 3 && !LEVEL.attribute && !LEVEL.unbounded && LEVEL.min == 1 && LEVEL.max == 2 && LEVEL.Counted(1) == 1
    ensures |NUMBERS.items| == 1 && NUMBERS.items[0] == Leaf(Number(-3)) && Shaped(SAMPLE, LEVEL, Leaf(Number(-3)))
    ensures NBits(1, 2) + (b + Last()) == Middle() + Last()
  {
    Counts();
    hide Last, NBits;
  }

  lemma SampleNumbers(t: Tables, depth: nat)
    requires depth > 0
    ensures ShapedFields(SAMPLE, 4, [NUMBERS, FLAGS])
    ensures EncodeFields(SAMPLE, 4, 1, 2, [NUMBERS, FLAGS], t, depth) == Done(Middle() + Last(), t)
  {
    var b := [false] + ([true] + NBits(3, 8)) + [false];
    hide *;
    SampleLevel(b);
    SampleShaped();
    NumberNode(t, depth - 1);
    SampleEnd(t, depth);
    RestIs(4, 1, [NUMBERS, FLAGS], t, depth);
    One(SAMPLE, 4, 2, [NUMBERS, FLAGS], t, depth, b, t, Last());
  }

  /** The string "ab" in full, and by its number. */
  function InFull(): seq<bool> { [false] + (NBits(4, 8) + (NBits(97, 8) + NBits(98, 8))) + [false] }
  function Again(): seq<bool> { [false] + NBits(0, 8) + [false] }

  function Known(): Tables { Tables([AB], map[2 := [AB]]) }

  lemma FirstString(depth: nat)
    ensures EncodeNode(SAMPLE, NAMES, Leaf(Text(AB)), NO_TABLES, depth) == Done(InFull(), Known())
  {
    assert AB[1..] == [98] && [98][1..] == [];
    hide NBits;
    assert UintBits(4) == NBits(4, 8) && UintBits(97) == NBits(97, 8) && UintBits(98) == NBits(98, 8);
    assert CodeBits([]) == [] && CodeBits([98]) == NBits(98, 8);
    assert CodeBits(AB) == NBits(97, 8) + NBits(98, 8);
    assert LiteralBits(AB) == NBits(4, 8) + (NBits(97, 8) + NBits(98, 8));
    hide UintBits, CodeBits, LiteralBits;
    assert NO_TABLES.AddLocal(2, AB).AddGlobal(AB) == Known();
    Counts();
  }

  lemma SecondString(depth: nat)
    ensures EncodeNode(SAMPLE, NAMES, Leaf(Text(AB)), Known(), depth) == Done(Again(), Known())
  {
    assert [AB][..0] == [] && IndexOf([AB], AB) == 0;
    Counts();
    hide NBits, BitCount;
    assert UintBits(0) == NBits(0, 8);
    hide UintBits, IndexOf;
    assert NBits(0, 8) + [] == NBits(0, 8);
  }

  /** Two occurrences of a row. */
  lemma Two(s: Schema, row: Row, items: seq<Node>, t: Tables, t1: Tables, depth: nat, x: seq<bool>, y: seq<bool>)
    requires ShapedItems(s, row, items) && |items| == 2 && !row.attribute && depth > 0 && Shaped(s, row, items[0]) && Shaped(s, row, items[1])
    requires EncodeNode(s, row, items[0], t, depth - 1) == Done(x, t1) && EncodeNode(s, row, items[1], t1, depth - 1) == Done(y, t1)
    ensures EncodeItems(s, row, 0, items, t, depth) == Done(x + EventBits(0, row.Codes(1)) + y, t1)
  {
    hide EncodeNode, Shaped, EventBits;
    assert items[1..] == [items[1]];
    assert EncodeItems(s, row, 1, items[1..], t1, depth) == Done(y, t1);
  }

  /** A row with two occurrences behind one absent row. */
  lemma Pair(s: Schema, r: nat, n: nat, fields: seq<Field>, t: Tables, depth: nat, b: seq<bool>, t1: Tables, rest: seq<bool>)
    requires r < |s.rows| && !s.rows[r].attribute && depth > 0 && n > 0
    requires ShapedFields(s, r, fields) && s.rows[r].n > 0 && fields != [] && |fields[0].items| == 2 && s.rows[r].Counted(2) == 2
    requires ShapedItems(s, s.rows[r], fields[0].items)
    requires EncodeItems(s, s.rows[r], 0, fields[0].items, t, depth) == Done(b, t1)
    requires EncodeRest(s, r, 2, fields, t1, depth) == Done(rest, t1)
    ensures EncodeFields(s, r, 1, n, fields, t, depth) == Done(EventBits(1, n) + (b + rest), t1)
  {
    hide EncodeItems, EncodeRest, ShapedItems;
  }

  lemma SampleNames()
    ensures |SAMPLE.rows| == 7 && SAMPLE.rows[3] == NAMES && EventBits(1, 3) == NBits(1, 2) && EventBits(0, NAMES.Codes(1)) == NBits(0, 2)
    ensures EventBits(0, 2) == NBits(0, 2) && NAMES.Codes(1) == 2 && NAMES.n > 0 && !NAMES.attribute && NAMES.unbounded && NAMES.min == 0 && NAMES.n == 2 && NAMES.Counted(2) == 2
    ensures STRINGS.items[0] == Leaf(Text(AB)) && STRINGS.items[1] == Leaf(Text(AB)) && |STRINGS.items| == 2
    ensures Shaped(SAMPLE, NAMES, Leaf(Text(AB)))
  {
    Counts();
  }

  lemma SampleStrings(depth: nat)
    requires depth > 0
    ensures ShapedFields(SAMPLE, 3, [STRINGS, NUMBERS, FLAGS])
    ensures EncodeFields(SAMPLE, 3, 1, 3, [STRINGS, NUMBERS, FLAGS], NO_TABLES, depth)
            == Done(NBits(1, 2) + (InFull() + NBits(0, 2) + Again() + (Middle() + Last())), Known())
  {
    hide *;
    SampleNames();
    SampleShaped();
    FirstString(depth - 1);
    SecondString(depth - 1);
    Two(SAMPLE, NAMES, STRINGS.items, NO_TABLES, Known(), depth, InFull(), Again());
    SampleNumbers(Known(), depth);
    RestIs(3, 2, [STRINGS, NUMBERS, FLAGS], Known(), depth);
    Pair(SAMPLE, 3, 3, [STRINGS, NUMBERS, FLAGS], NO_TABLES, depth, InFull() + NBits(0, 2) + Again(), Known(), Middle() + Last());
  }

  /** A first row that is absent. */
  lemma NoAttribute(t: Tables, depth: nat)
    requires ShapedFields(SAMPLE, 2, [NONE, STRINGS, NUMBERS, FLAGS])
    ensures ShapedFields(SAMPLE, 3, [STRINGS, NUMBERS, FLAGS])
    ensures EncodeFields(SAMPLE, 2, 0, 0, [NONE, STRINGS, NUMBERS, FLAGS], t, depth)
            == EncodeFields(SAMPLE, 3, 1, 3, [STRINGS, NUMBERS, FLAGS], t, depth)
  {
    SampleShaped();
    hide EncodePresent, ShapedFields, STRINGS, NUMBERS, FLAGS;
  }

  /** The type; no attribute, so code 1 of 3; the string in full and its end; another occurrence,
      the string by its number, its end; code 1 of 2 past any further string; the number with its
      sign, its end; code 1 of 3 past any further number; the presence of the Boolean, its end;
      the end. */
  lemma SampleWritten()
    ensures Shaped(SAMPLE, SAMPLE.rows[0], OBJECT)
    ensures var bits := [false]
        + (NBits(1, 2) + (([false] + (NBits(4, 8) + (NBits(97, 8) + NBits(98, 8))) + [false]) + NBits(0, 2) + ([false] + NBits(0, 8) + [false])
           + ((NBits(1, 2) + ([false] + ([true] + NBits(3, 8)) + [false])) + (NBits(1, 2) + ([false, true, false] + [false])))));
      EncodeDoc(SAMPLE, 0, OBJECT) == Done(bits, Tables([AB], map[2 := [AB]]))
  {
    var d := MAX_STACK - 1;
    SampleShaped();
    Counts();
    SampleStrings(d);
    NoAttribute(NO_TABLES, d);
    hide ShapedFields, NBits, BitCount, EncodeFields;
  }
}
