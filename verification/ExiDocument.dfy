/**
 Documents: what `output_doc` emits for an object and what `parse_doc` accepts,
 as functions on bit strings. The machines in ExiOutput and ExiParse compute them.
 */
module ExiDocument {
  import opened Words
  import opened BitStream
  import opened ExiValue
  import opened ExiSchema

  /** An object is a tree: a value, or for each row of its type the occurrences of that row. */
  datatype Node = Leaf(v: Value) | Obj(fields: seq<Field>)
  datatype Field = Field(items: seq<Node>)

  const NO_ITEMS := Field([])
  const MAX_STACK := 32

  // ---- objects of a type ----

  /** An element is stored as its row says. */
  predicate Shaped(s: Schema, row: Row, node: Node)
    decreases node, 1
  {
    if row.simple then LeafFits(row, node)
    else node.Obj? && ShapedFields(s, row.index + 1, node.fields)
  }

  predicate LeafFits(row: Row, node: Node) { node.Leaf? && Fits(row.xs, node.v) }

  predicate ShapedFields(s: Schema, r: nat, fields: seq<Field>)
    decreases fields
  {
    if r >= |s.rows| || s.rows[r].n == 0 then fields == []
    else
      && fields != []
      && (!s.rows[r].unbounded ==> |fields[0].items| <= s.rows[r].max)
      && (if s.rows[r].attribute then |fields[0].items| <= 1 && (fields[0].items == [] || LeafFits(s.rows[r], fields[0].items[0]))
          else ShapedItems(s, s.rows[r], fields[0].items))
      && ShapedFields(s, r + 1, fields[1..])
  }

  predicate ShapedItems(s: Schema, row: Row, items: seq<Node>)
    decreases items
  {
    items == [] || (Shaped(s, row, items[0]) && ShapedItems(s, row, items[1..]))
  }

  // ---- writing ----

  /** `Failed` keeps what was written before the error. */
  datatype Encoded = Done(bits: seq<bool>, t: Tables) | Failed(bits: seq<bool>) {
    function After(b: seq<bool>): Encoded {
      this.(bits := b + bits)
    }
  }

  /** An event code among `n`; a lone end of element takes one bit. */
  function EventBits(code: nat, n: nat): seq<bool> {
    NBits(code, if n == 0 then 1 else BitCount(n))
  }

  /** The rest of an object from row `r` on, its end included; `code` rows were skipped since the last event. */
  function EncodeFields(s: Schema, r: nat, code: nat, n: nat, fields: seq<Field>, t: Tables, depth: nat): Encoded
    requires ShapedFields(s, r, fields)
    decreases fields, 2
  {
    if fields == [] then Done(EventBits(code, n), t)
    else
      var row, items := s.rows[r], fields[0].items;
      if !row.attribute && depth == 0 then Failed([])
      else if row.Counted(|items|) == 0 then
        if row.min > 0 then Failed([])
        else EncodeFields(s, r + 1, code + 1, if n == 0 then row.n else n, fields[1..], t, depth)
      else
        var codes := if n > 0 then n else if row.attribute then row.n else row.Codes(0);
        EncodePresent(s, r, fields, t, depth).After(EventBits(code, codes))
  }

  /** The same once the event code of row `r` is out. */
  function EncodePresent(s: Schema, r: nat, fields: seq<Field>, t: Tables, depth: nat): Encoded
    requires ShapedFields(s, r, fields) && fields != [] && fields[0].items != []
    requires s.rows[r].attribute || depth > 0
    decreases fields, 1
  {
    var row, items := s.rows[r], fields[0].items;
    if row.attribute then
      var (b, t') := ValueBits(t, row.name, row.xs, row.Optional(), items[0].v);
      EncodeFields(s, r + 1, 0, 0, fields[1..], t', depth).After(b)
    else
      match EncodeItems(s, row, 0, items, t, depth)
      case Failed(b) => Failed(b)
      case Done(b, t') => EncodeRest(s, r, |items|, fields, t', depth).After(b)
  }

  /** What follows the last of `count` occurrences of row `r`. */
  function EncodeRest(s: Schema, r: nat, count: nat, fields: seq<Field>, t: Tables, depth: nat): Encoded
    requires ShapedFields(s, r, fields) && fields != []
    decreases fields, 0
  {
    var row := s.rows[r];
    if !row.unbounded && count == row.max then EncodeFields(s, r + 1, 0, 0, fields[1..], t, depth)
    else if count < row.min then Failed([])
    else EncodeFields(s, r + 1, 1, row.n, fields[1..], t, depth)
  }

  /** Occurrences of one row, of which `count` came before; the code of the first is out. */
  function EncodeItems(s: Schema, row: Row, count: nat, items: seq<Node>, t: Tables, depth: nat): Encoded
    requires ShapedItems(s, row, items) && items != [] && !row.attribute && depth > 0
    decreases items
  {
    match EncodeNode(s, row, items[0], t, depth - 1)
    case Failed(b) => Failed(b)
    case Done(b, t') =>
      if |items| == 1 then Done(b, t')
      else EncodeItems(s, row, count + 1, items[1..], t', depth).After(b + EventBits(0, row.Codes(count + 1)))
  }

  /** Content of an element and its end. */
  function EncodeNode(s: Schema, row: Row, node: Node, t: Tables, depth: nat): Encoded
    requires Shaped(s, row, node) && !row.attribute
    decreases node, 0
  {
    if row.simple then
      var (b, t') := SimpleBits(t, row.name, row.xs, row.Optional(), node.v);
      Done(b + EventBits(0, 0), t')
    else EncodeFields(s, row.index + 1, 0, 0, node.fields, t, depth)
  }

  const NO_TABLES := Tables([], map[])

  function EncodeDoc(s: Schema, kind: nat, node: Node): Encoded
    requires kind < s.length <= |s.rows| && GlobalRow(s, kind) && Shaped(s, s.rows[kind], node)
  {
    EncodeNode(s, s.rows[kind], node, NO_TABLES, MAX_STACK - 1).After(EventBits(kind, s.length))
  }

  // ---- reading ----

  /** Position in the input, string tables, and whether the input already ran out. */
  datatype Reader = Reader(pos: nat, t: Tables, short: bool)

  datatype Decoded<+T> = Got(value: T, s: Reader) | Lost(why: Failure)

  /** The fields read, and whether the end of the element is still to be read. */
  datatype Content = Content(fields: seq<Field>, needEnd: bool)

  /** Fields already read, in front of those still to come. */
  function Before(head: seq<Field>, d: Decoded<Content>): Decoded<Content> {
    match d
    case Lost(why) => Lost(why)
    case Got(c, s) => Got(Content(head + c.fields, c.needEnd), s)
  }

  function Skipped(k: nat): (f: seq<Field>)
    ensures |f| == k
  {
    seq(k, _ => NO_ITEMS)
  }
  datatype Item = Item(node: Node, needEnd: bool)

  /** Occurrences of a row, and an event code already read for the row behind it. */
  datatype Run = Run(items: seq<Node>, token: Token)
  datatype Token = NoToken | Token(k: nat)

  function Event(bits: seq<bool>, n: nat, s: Reader): (d: Decoded<nat>)
    ensures d.Got? ==> d.value < n && d.s == s.(pos := s.pos + BitCount(n)) && !s.short && d.s.pos <= |bits|
    ensures d.Got? ==> s.pos < d.s.pos
  {
    if s.short || s.pos + BitCount(n) > |bits| then Lost(Truncated)
    else
      var k := Peek(bits, s.pos, BitCount(n));
      if k < n then Got(k, s.(pos := s.pos + BitCount(n))) else Lost(Invalid)
  }

  /** The end of an element; out of input it is taken as read. */
  function End(bits: seq<bool>, needEnd: bool, s: Reader): (d: Decoded<()>)
    ensures d.Got? ==> s.pos <= d.s.pos && (s.pos <= |bits| ==> d.s.pos <= |bits|)
  {
    if !needEnd then Got((), s)
    else if s.pos + 1 > |bits| then Got((), s.(short := true))
    else if bits[s.pos] then Lost(Invalid)
    else Got((), s.(pos := s.pos + 1))
  }

  function AttributeValue(bits: seq<bool>, row: Row, s: Reader): (d: Decoded<Value>)
    ensures d.Got? ==> s.pos < d.s.pos && (s.pos <= |bits| ==> d.s.pos <= |bits|)
  {
    ValueConsumes(bits, s.pos, s.t, row.name, row.xs);
    match DecodeValue(bits, s.pos, s.t, row.name, row.xs)
    case Fail(why) => Lost(why)
    case Ok((v, t), p, short) => Got(v, Reader(p, t, s.short || short))
  }

  function SimpleItem(bits: seq<bool>, row: Row, s: Reader): (d: Decoded<Item>)
    ensures d.Got? ==> s.pos < d.s.pos && (s.pos <= |bits| ==> d.s.pos <= |bits|)
  {
    if s.short && (s.pos + 1 > |bits| || !bits[s.pos]) then Lost(Truncated)
    else
      SimpleConsumes(bits, s.pos, s.t, row.name, row.xs);
      match DecodeSimple(bits, s.pos, s.t, row.name, row.xs)
      case Fail(why) => Lost(why)
      case Ok(x, p, short) => Got(Item(Leaf(x.v), x.needEnd), Reader(p, x.t, s.short || short))
  }

  /** The event code for row `r`, unless the row before it has read one. */
  function NextToken(bits: seq<bool>, sc: Schema, r: nat, tok: Token, s: Reader): (d: Decoded<nat>)
    requires WellFormed(sc) && InType(sc, r) && sc.rows[r].n > 0 && s.pos <= |bits|
    requires tok.Token? ==> tok.k <= |Entries(sc, r)|
    ensures d.Got? ==> s.pos <= d.s.pos <= |bits| && d.value <= |Entries(sc, r)| && InType(sc, r + d.value)
    ensures d.Got? ==> (sc.rows[r + d.value].n == 0 <==> d.value == |Entries(sc, r)|)
    ensures d.Got? ==> Entries(sc, r + d.value) == Entries(sc, r)[d.value..]
    ensures d.Got? ==> d.s.short == s.short && (if tok.NoToken? then !s.short && s.pos < d.s.pos else d.s == s)
  {
    RowCodes(sc, r);
    var d := if tok.Token? then Got(tok.k, s) else Event(bits, sc.rows[r].Codes(0), s);
    if d.Got? then EntriesFrom(sc, r, d.value); d else d
  }

  /** The content of an object from row `r` on; `tok` is an event code already read for it. */
  function DecodeFields(bits: seq<bool>, sc: Schema, r: nat, tok: Token, s: Reader, depth: nat): (d: Decoded<Content>)
    requires WellFormed(sc) && InType(sc, r) && s.pos <= |bits|
    requires tok.Token? ==> tok.k <= |Entries(sc, r)|
    ensures d.Got? ==> s.pos <= d.s.pos <= |bits|
    decreases depth, 2, |Entries(sc, r)|, 1
  {
    if sc.rows[r].n == 0 then Got(Content([], tok.NoToken?), s)
    else
      match NextToken(bits, sc, r, tok, s)
      case Lost(why) => Lost(why)
      case Got(k, s1) =>
        if sc.rows[r + k].n == 0 then Got(Content(Skipped(k), false), s1)
        else Before(Skipped(k), DecodeRow(bits, sc, r + k, s1, depth))
  }

  /** The content of an object from row `r` on, once the event code has led there. */
  function DecodeRow(bits: seq<bool>, sc: Schema, r: nat, s: Reader, depth: nat): (d: Decoded<Content>)
    requires WellFormed(sc) && InType(sc, r) && sc.rows[r].n > 0 && s.pos <= |bits|
    ensures d.Got? ==> s.pos <= d.s.pos <= |bits|
    decreases depth, 2, |Entries(sc, r)|, 0
  {
    RowKind(sc, r);
    var row := sc.rows[r];
    if row.attribute then
      match AttributeValue(bits, row, s)
      case Lost(why) => Lost(why)
      case Got(v, s1) => Before([Field([Leaf(v)])], DecodeFields(bits, sc, r + 1, NoToken, s1, depth))
    else if depth == 0 then Lost(Invalid)
    else
      match DecodeItems(bits, sc, r, 0, s, depth)
      case Lost(why) => Lost(why)
      case Got(run, s1) => Before([Field(run.items)], DecodeFields(bits, sc, r + 1, run.token, s1, depth))
  }

  lemma RowKind(sc: Schema, r: nat)
    requires WellFormed(sc) && InType(sc, r) && sc.rows[r].n > 0
    ensures sc.rows[r].attribute || ElementRow(sc, r)
    ensures InType(sc, r + 1) && |Entries(sc, r + 1)| < |Entries(sc, r)|
  {
    assert TypeRow(sc, r);
    EntriesFrom(sc, r, 1);
  }

  /** Element row `r`, once more and then as often as the events say. */
  function DecodeItems(bits: seq<bool>, sc: Schema, r: nat, count: nat, s: Reader, depth: nat): (d: Decoded<Run>)
    requires WellFormed(sc) && InType(sc, r) && ElementRow(sc, r) && sc.rows[r].n > 0 && s.pos <= |bits| && depth > 0
    ensures d.Got? ==> s.pos <= d.s.pos <= |bits|
    ensures d.Got? && d.value.token.Token? ==> d.value.token.k <= |Entries(sc, r + 1)|
    decreases depth, 1, |bits| - s.pos, 2
  {
    match DecodeNode(bits, sc, r, s, depth - 1)
    case Lost(why) => Lost(why)
    case Got(item, s1) =>
      match DecodeMore(bits, sc, r, count + 1, item.needEnd, s1, depth)
      case Lost(why) => Lost(why)
      case Got(run, s2) => Got(Run([item.node] + run.items, run.token), s2)
  }

  /** What follows the content of the `count`-th occurrence of row `r`. */
  function DecodeMore(bits: seq<bool>, sc: Schema, r: nat, count: nat, needEnd: bool, s: Reader, depth: nat): (d: Decoded<Run>)
    requires WellFormed(sc) && InType(sc, r) && ElementRow(sc, r) && sc.rows[r].n > 0 && s.pos <= |bits| && depth > 0
    ensures d.Got? ==> s.pos <= d.s.pos <= |bits|
    ensures d.Got? && d.value.token.Token? ==> d.value.token.k <= |Entries(sc, r + 1)|
    decreases depth, 1, |bits| - s.pos, 1
  {
    match End(bits, needEnd, s)
    case Lost(why) => Lost(why)
    case Got(_, s1) => Sequel(bits, sc, r, count, s1, depth)
  }

  /** After `count` occurrences of row `r`: one more, or the row behind it. */
  function Sequel(bits: seq<bool>, sc: Schema, r: nat, count: nat, s: Reader, depth: nat): (d: Decoded<Run>)
    requires WellFormed(sc) && InType(sc, r) && ElementRow(sc, r) && sc.rows[r].n > 0 && s.pos <= |bits| && depth > 0
    ensures d.Got? ==> s.pos <= d.s.pos <= |bits|
    ensures d.Got? && d.value.token.Token? ==> d.value.token.k <= |Entries(sc, r + 1)|
    decreases depth, 1, |bits| - s.pos, 0
  {
    var row := sc.rows[r];
    if !row.More(count) then Got(Run([], NoToken), s)
    else
      match Event(bits, row.Codes(count), s)
      case Lost(why) => Lost(why)
      case Got(k, s1) =>
        RowCodes(sc, r);
        if k == 0 then DecodeItems(bits, sc, r, count, s1, depth) else Got(Run([], Token(k - 1)), s1)
  }

  /** Content of one occurrence of element row `r`. */
  function DecodeNode(bits: seq<bool>, sc: Schema, r: nat, s: Reader, depth: nat): (d: Decoded<Item>)
    requires WellFormed(sc) && r < |sc.rows| && ElementRow(sc, r) && s.pos <= |bits|
    ensures d.Got? ==> s.pos <= d.s.pos <= |bits|
    decreases depth, 3
  {
    var row := sc.rows[r];
    if row.simple then SimpleItem(bits, row, s)
    else
      match DecodeFields(bits, sc, row.index + 1, NoToken, s, depth)
      case Lost(why) => Lost(why)
      case Got(c, s1) => Got(Item(Obj(c.fields), c.needEnd), s1)
  }

  predicate ElementRow(sc: Schema, r: nat)
    requires r < |sc.rows|
  {
    !sc.rows[r].attribute && (!sc.rows[r].simple ==> TypeAt(sc, sc.rows[r].index))
  }

  /** The type token; out of input it reads as zero. */
  function DecodeKind(bits: seq<bool>, sc: Schema, pos: nat): Decoded<nat> {
    var n := BitCount(sc.length);
    if pos + n > |bits| then Got(0, Reader(pos, NO_TABLES, true))
    else
      var k := Peek(bits, pos, n);
      if k < sc.length then Got(k, Reader(pos + n, NO_TABLES, false)) else Lost(Invalid)
  }

  /** The root element, its end included. */
  function Root(bits: seq<bool>, d: Decoded<Item>): Decoded<Node> {
    match d
    case Lost(why) => Lost(why)
    case Got(item, s) =>
      match End(bits, item.needEnd, s)
      case Lost(why) => Lost(why)
      case Got(_, s1) => Got(item.node, s1)
  }

  /** A document: its type and its root object. */
  function DecodeDoc(bits: seq<bool>, sc: Schema, pos: nat): (d: Decoded<(nat, Node)>)
    requires WellFormed(sc) && pos <= |bits|
    ensures d.Got? ==> d.value.0 < sc.length
  {
    match DecodeKind(bits, sc, pos)
    case Lost(why) => Lost(why)
    case Got(kind, s) =>
      assert GlobalRow(sc, kind);
      match Root(bits, DecodeNode(bits, sc, kind, s, MAX_STACK - 1))
      case Lost(why) => Lost(why)
      case Got(node, s1) => Got((kind, node), s1)
  }

  // ---- the reader moves forward ----

  lemma UintConsumes(bits: seq<bool>, pos: nat)
    ensures var r := DecodeUint(bits, pos);
            r.Ok? ==> (pos <= |bits| ==> r.pos <= |bits|) && (!r.short ==> pos + 8 <= r.pos)
  {
  }

  lemma ValueConsumes(bits: seq<bool>, pos: nat, t: Tables, name: Name, xs: XsType)
    ensures var r := DecodeValue(bits, pos, t, name, xs);
            r.Ok? ==> pos < r.pos && (pos <= |bits| ==> r.pos <= |bits|)
  {
    UintConsumes(bits, pos);
    UintConsumes(bits, pos + 1);
  }

  lemma SimpleConsumes(bits: seq<bool>, pos: nat, t: Tables, name: Name, xs: XsType)
    ensures var r := DecodeSimple(bits, pos, t, name, xs);
            r.Ok? ==> pos < r.pos && (pos <= |bits| ==> r.pos <= |bits|)
  {
    ValueConsumes(bits, pos + 1, t, name, xs);
  }
}
