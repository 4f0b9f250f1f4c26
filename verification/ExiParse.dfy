/**
 The EXI reader: the value readers of core/exi_parse.c and the state machine
 `parse_doc` of core/parse.c with the EXI driver, over one buffer.
 */
module ExiParse {
  import opened Words
  import opened BitStream
  import opened ExiValue
  import opened ExiSchema
  import opened ExiDocument

  // ---- positions of the machine ----

  /** An element in progress: its row, the fields of the parent before that row, the occurrences read. */
  datatype Frame = Frame(row: nat, fields: seq<Field>, items: seq<Node>)

  datatype State = ParseElement | ParseNext | ParseAttribute | ParseValue | ParseEnd | ParseSequence | SequenceEnd

  /** `need` is `need_token`; `token` counts only when it is false. `item` is the element just read. */
  datatype Config = Config(state: State, row: nat, need: bool, token: nat, fields: seq<Field>, item: Node, stack: seq<Frame>, s: Reader)
  {
    function Tok(): Token { if need then NoToken else Token(token) }
  }

  predicate FrameOk(sc: Schema, f: Frame) {
    InType(sc, f.row) && InType(sc, f.row + 1) && ElementRow(sc, f.row) && sc.rows[f.row].n > 0
  }

  predicate RootOk(sc: Schema, f: Frame) {
    f.row < sc.length < |sc.rows| && GlobalRow(sc, f.row) && sc.rows[f.row + 1].n == 0
  }

  predicate StackOk(sc: Schema, stack: seq<Frame>) {
    && |stack| <= MAX_STACK
    && (stack != [] ==> RootOk(sc, stack[0]))
    && (|stack| > 1 ==> stack[0].items == [])
    && forall i :: 1 <= i < |stack| ==> FrameOk(sc, stack[i])
  }

  function Top(stack: seq<Frame>): Frame
    requires stack != []
  {
    stack[|stack| - 1]
  }

  predicate ConfigOk(bits: seq<bool>, sc: Schema, c: Config) {
    && WellFormed(sc) && StackOk(sc, c.stack) && c.s.pos <= |bits|
    && (|c.stack| == 1 && !c.state.SequenceEnd? ==> c.stack[0].items == [])
    && match c.state
       case ParseElement => c.need && !c.s.short && c.stack != [] && InType(sc, c.row) && sc.rows[c.row].n > 0
       case ParseAttribute => c.need && !c.s.short && c.stack != [] && InType(sc, c.row) && sc.rows[c.row].n > 0 && sc.rows[c.row].attribute
       case ParseNext =>
         if c.stack == [] then c.row < |sc.rows| && sc.rows[c.row].n == 0
         else InType(sc, c.row) && (!c.need ==> !c.s.short && c.token <= |Entries(sc, c.row)|)
       case ParseValue => c.need && c.stack != [] && sc.rows[Top(c.stack).row].simple
       case ParseEnd => true
       case ParseSequence => c.need && |c.stack| > 1 && Top(c.stack).items != [] && sc.rows[Top(c.stack).row].More(|Top(c.stack).items|)
       case SequenceEnd =>
         && c.stack != [] && Top(c.stack).items != []
         && (|c.stack| > 1 && !c.need ==> !c.s.short && c.token <= |Entries(sc, Top(c.stack).row + 1)|)
  }

  // ---- what the rest of the input means ----

  /** An object whose first fields are `head`. */
  function InObject(head: seq<Field>, d: Decoded<Content>): Decoded<Item> {
    match d
    case Lost(why) => Lost(why)
    case Got(c, s) => Got(Item(Obj(head + c.fields), c.needEnd), s)
  }

  predicate ItemOk(bits: seq<bool>, d: Decoded<Item>) { d.Got? ==> d.s.pos <= |bits| }

  predicate RunOk(bits: seq<bool>, sc: Schema, r: nat, d: Decoded<Run>) {
    d.Got? ==> d.s.pos <= |bits| && (d.value.token.Token? ==> d.value.token.k <= |Entries(sc, r + 1)|)
  }

  /** The document, given the content `d` of the top element. */
  function Closed(bits: seq<bool>, sc: Schema, stack: seq<Frame>, d: Decoded<Item>): Decoded<Node>
    requires WellFormed(sc) && StackOk(sc, stack) && stack != [] && ItemOk(bits, d)
    decreases |stack|, 1
  {
    if |stack| == 1 then Root(bits, d)
    else
      match d
      case Lost(why) => Lost(why)
      case Got(item, s) =>
        var f := Top(stack);
        Opened(bits, sc, stack, [item.node], DecodeMore(bits, sc, f.row, |f.items| + 1, item.needEnd, s, MAX_STACK + 1 - |stack|))
  }

  /** The document, given the occurrences of the top element that follow those in its frame and `more`. */
  function Opened(bits: seq<bool>, sc: Schema, stack: seq<Frame>, more: seq<Node>, d: Decoded<Run>): Decoded<Node>
    requires WellFormed(sc) && StackOk(sc, stack) && |stack| > 1 && RunOk(bits, sc, Top(stack).row, d)
    decreases |stack|, 0
  {
    match d
    case Lost(why) => Lost(why)
    case Got(run, s) =>
      var f := Top(stack);
      Closed(bits, sc, stack[..|stack| - 1],
             InObject(f.fields + [Field(f.items + more + run.items)], DecodeFields(bits, sc, f.row + 1, run.token, s, MAX_STACK + 1 - |stack|)))
  }

  /** What the machine will return from here on. */
  function Resume(bits: seq<bool>, sc: Schema, c: Config): Decoded<Node>
    requires ConfigOk(bits, sc, c)
  {
    var depth := MAX_STACK - |c.stack|;
    if c.stack == [] then Got(c.item, c.s)
    else
      match c.state
      case ParseElement => Closed(bits, sc, c.stack, InObject(c.fields, DecodeRow(bits, sc, c.row, c.s, depth)))
      case ParseAttribute => Closed(bits, sc, c.stack, InObject(c.fields, DecodeRow(bits, sc, c.row, c.s, depth)))
      case ParseNext => Closed(bits, sc, c.stack, InObject(c.fields, DecodeFields(bits, sc, c.row, c.Tok(), c.s, depth)))
      case ParseValue => Closed(bits, sc, c.stack, SimpleItem(bits, sc.rows[Top(c.stack).row], c.s))
      case ParseEnd => Closed(bits, sc, c.stack, Got(Item(c.item, c.need), c.s))
      case ParseSequence =>
        var f := Top(c.stack);
        Opened(bits, sc, c.stack, [], Sequel(bits, sc, f.row, |f.items|, c.s, depth + 1))
      case SequenceEnd =>
        if |c.stack| == 1 then Got(Top(c.stack).items[0], c.s)
        else Opened(bits, sc, c.stack, [], Got(Run([], c.Tok()), c.s))
  }

  // ---- the turns of the machine ----

  lemma Pushed(sc: Schema, p: seq<Frame>, f: Frame)
    requires StackOk(sc, p) && p != [] && FrameOk(sc, f) && |p| < MAX_STACK && p[0].items == []
    ensures StackOk(sc, p + [f]) && (p + [f])[..|p|] == p && Top(p + [f]) == f
  {
    assert (p + [f])[..|p|] == p;
  }

  lemma Popped(sc: Schema, stack: seq<Frame>)
    requires StackOk(sc, stack) && |stack| > 1
    ensures StackOk(sc, stack[..|stack| - 1]) && stack == stack[..|stack| - 1] + [Top(stack)] && FrameOk(sc, Top(stack))
    ensures |stack| <= MAX_STACK
  {
  }

  /** It makes no difference whether occurrences are counted as read or as still to come. */
  lemma OpenedMore(bits: seq<bool>, sc: Schema, stack: seq<Frame>, a: seq<Node>, b: seq<Node>, run: Run, s: Reader)
    requires WellFormed(sc) && StackOk(sc, stack) && |stack| > 1 && RunOk(bits, sc, Top(stack).row, Got(run, s))
    ensures Opened(bits, sc, stack, a, Got(run.(items := b + run.items), s)) == Opened(bits, sc, stack, a + b, Got(run, s))
  {
    hide Closed, DecodeFields;
    var f := Top(stack);
    assert f.items + a + (b + run.items) == f.items + (a + b) + run.items;
  }

  /** One more occurrence, from its first bit. */
  lemma ItemStarts(bits: seq<bool>, sc: Schema, stack: seq<Frame>, s: Reader)
    requires WellFormed(sc) && StackOk(sc, stack) && |stack| > 1 && s.pos <= |bits|
    ensures var f := Top(stack);
            Opened(bits, sc, stack, [], DecodeItems(bits, sc, f.row, |f.items|, s, MAX_STACK + 1 - |stack|))
            == Closed(bits, sc, stack, DecodeNode(bits, sc, f.row, s, MAX_STACK - |stack|))
  {
    hide DecodeNode, DecodeMore, DecodeFields, Opened, StackOk;
    Popped(sc, stack);
    var f, depth := Top(stack), MAX_STACK + 1 - |stack|;
    var one := DecodeNode(bits, sc, f.row, s, depth - 1);
    if one.Got? {
      var more := DecodeMore(bits, sc, f.row, |f.items| + 1, one.value.needEnd, one.s, depth);
      if more.Got? {
        OpenedMore(bits, sc, stack, [], [one.value.node], more.value, more.s);
        assert [] + [one.value.node] == [one.value.node];
      } else {
        OpenedLost(bits, sc, stack, [], more.why);
        OpenedLost(bits, sc, stack, [one.value.node], more.why);
      }
    } else {
      OpenedLost(bits, sc, stack, [], one.why);
    }
  }

  lemma OpenedLost(bits: seq<bool>, sc: Schema, stack: seq<Frame>, a: seq<Node>, why: Failure)
    requires WellFormed(sc) && StackOk(sc, stack) && |stack| > 1
    ensures Opened(bits, sc, stack, a, Lost(why)) == Lost(why)
  {
  }

  /** An object starts with no fields. */
  lemma ObjectStarts(bits: seq<bool>, sc: Schema, r: nat, s: Reader, depth: nat)
    requires WellFormed(sc) && r < |sc.rows| && ElementRow(sc, r) && s.pos <= |bits| && !sc.rows[r].simple
    ensures DecodeNode(bits, sc, r, s, depth) == InObject([], DecodeFields(bits, sc, sc.rows[r].index + 1, NoToken, s, depth))
  {
    hide DecodeFields;
    var d := DecodeFields(bits, sc, sc.rows[r].index + 1, NoToken, s, depth);
    if d.Got? { assert [] + d.value.fields == d.value.fields; }
  }

  lemma InObjectBefore(head: seq<Field>, next: seq<Field>, d: Decoded<Content>)
    ensures InObject(head, Before(next, d)) == InObject(head + next, d)
  {
    if d.Got? { assert head + (next + d.value.fields) == head + next + d.value.fields; }
  }

  lemma LastRow(bits: seq<bool>, sc: Schema, c: Config)
    requires ConfigOk(bits, sc, c) && c.state.ParseNext? && c.stack != [] && sc.rows[c.row].n == 0
    ensures Turn(bits, sc, c, c.(state := ParseEnd, item := Obj(c.fields)))
  {
    hide Closed, StackOk;
    assert c.fields + [] == c.fields;
  }

  lemma AttributeTurn(bits: seq<bool>, sc: Schema, c: Config)
    requires ConfigOk(bits, sc, c) && c.state.ParseAttribute?
    ensures var d := AttributeValue(bits, sc.rows[c.row], c.s);
            if d.Lost? then Resume(bits, sc, c) == Lost(d.why)
            else
              var c' := c.(state := ParseNext, row := c.row + 1, fields := c.fields + [Field([Leaf(d.value)])], s := d.s);
              ConfigOk(bits, sc, c') && Resume(bits, sc, c) == Resume(bits, sc, c')
  {
    hide Closed, DecodeFields, Entries, AttributeValue;
    RowKind(sc, c.row);
    var d, depth := AttributeValue(bits, sc.rows[c.row], c.s), MAX_STACK - |c.stack|;
    if d.Got? { InObjectBefore(c.fields, [Field([Leaf(d.value)])], DecodeFields(bits, sc, c.row + 1, NoToken, d.s, depth)); }
    if d.Lost? { ClosedLost(bits, sc, c.stack, d.why); }
  }

  /** Where an element's content starts. */
  function StartItem(sc: Schema, c: Config): Config
    requires c.stack != [] && Top(c.stack).row < |sc.rows|
  {
    var row := sc.rows[Top(c.stack).row];
    if row.simple then c.(state := ParseValue) else c.(state := ParseNext, row := row.index + 1, fields := [])
  }

  lemma StartTurn(bits: seq<bool>, sc: Schema, c: Config)
    requires WellFormed(sc) && StackOk(sc, c.stack) && c.stack != [] && c.stack[0].items == [] && c.s.pos <= |bits| && c.need
    ensures Top(c.stack).row < |sc.rows| && ElementRow(sc, Top(c.stack).row)
    ensures ConfigOk(bits, sc, StartItem(sc, c))
    ensures Resume(bits, sc, StartItem(sc, c))
            == Closed(bits, sc, c.stack, DecodeNode(bits, sc, Top(c.stack).row, c.s, MAX_STACK - |c.stack|))
  {
    hide Closed, DecodeFields;
    var r := Top(c.stack).row;
    if !sc.rows[r].simple { ObjectStarts(bits, sc, r, c.s, MAX_STACK - |c.stack|); }
  }

  lemma ElementTurn(bits: seq<bool>, sc: Schema, c: Config)
    requires ConfigOk(bits, sc, c) && c.state.ParseElement? && !sc.rows[c.row].attribute
    ensures |c.stack| == MAX_STACK ==> Resume(bits, sc, c) == Lost(Invalid)
    ensures |c.stack| < MAX_STACK ==>
              var p := c.(stack := c.stack + [Frame(c.row, c.fields, [])]);
              var c' := StartItem(sc, p);
              ConfigOk(bits, sc, c') && Resume(bits, sc, c) == Resume(bits, sc, c')
  {
    hide DecodeItems, DecodeFields, DecodeNode, Entries, Closed, Opened;
    RowKind(sc, c.row);
    if |c.stack| < MAX_STACK {
      var f, depth := Frame(c.row, c.fields, []), MAX_STACK - |c.stack|;
      Pushed(sc, c.stack, f);
      var p := c.(stack := c.stack + [f]);
      ItemStarts(bits, sc, p.stack, c.s);
      StartTurn(bits, sc, p);
      ElementOpened(bits, sc, c);
    } else {
      ClosedLost(bits, sc, c.stack, Invalid);
    }
  }

  lemma ClosedLost(bits: seq<bool>, sc: Schema, stack: seq<Frame>, why: Failure)
    requires WellFormed(sc) && StackOk(sc, stack) && stack != []
    ensures Closed(bits, sc, stack, Lost(why)) == Lost(why)
  {
  }

  lemma ElementOpened(bits: seq<bool>, sc: Schema, c: Config)
    requires ConfigOk(bits, sc, c) && c.state.ParseElement? && !sc.rows[c.row].attribute && |c.stack| < MAX_STACK
    requires var stack := c.stack + [Frame(c.row, c.fields, [])]; StackOk(sc, stack)
    ensures ElementRow(sc, c.row)
    ensures var stack := c.stack + [Frame(c.row, c.fields, [])];
            Resume(bits, sc, c) == Opened(bits, sc, stack, [], DecodeItems(bits, sc, c.row, 0, c.s, MAX_STACK - |c.stack|))
  {
    hide DecodeItems, DecodeFields, Entries, Closed;
    RowKind(sc, c.row);
    var f, depth := Frame(c.row, c.fields, []), MAX_STACK - |c.stack|;
    Pushed(sc, c.stack, f);
    var run := DecodeItems(bits, sc, c.row, 0, c.s, depth);
    if run.Got? {
      InObjectBefore(c.fields, [Field(run.value.items)], DecodeFields(bits, sc, c.row + 1, run.value.token, run.s, depth));
      assert [] + [] + run.value.items == run.value.items;
    } else {
      ClosedLost(bits, sc, c.stack, run.why);
    }
  }

  lemma ValueTurn(bits: seq<bool>, sc: Schema, c: Config)
    requires ConfigOk(bits, sc, c) && c.state.ParseValue?
    ensures var d := SimpleItem(bits, sc.rows[Top(c.stack).row], c.s);
            if d.Lost? then Resume(bits, sc, c) == Lost(d.why)
            else
              var c' := c.(state := ParseEnd, need := d.value.needEnd, item := d.value.node, s := d.s);
              ConfigOk(bits, sc, c') && Resume(bits, sc, c) == Resume(bits, sc, c')
  {
    hide SimpleItem;
  }

  /** The item just read is added to the top frame. */
  function Grown(stack: seq<Frame>, item: Node): seq<Frame>
    requires stack != []
  {
    var f := Top(stack);
    stack[..|stack| - 1] + [f.(items := f.items + [item])]
  }

  lemma EndTurn(bits: seq<bool>, sc: Schema, c: Config)
    requires ConfigOk(bits, sc, c) && c.state.ParseEnd? && c.stack != []
    ensures Top(c.stack).row < |sc.rows|
    ensures var d := End(bits, c.need, c.s);
            if d.Lost? then Resume(bits, sc, c) == Lost(d.why)
            else
              var f := Top(c.stack);
              var more := sc.rows[f.row].More(|f.items| + 1);
              var c' := c.(state := if more then ParseSequence else SequenceEnd, need := true, stack := Grown(c.stack, c.item), s := d.s);
              ConfigOk(bits, sc, c') && Resume(bits, sc, c) == Resume(bits, sc, c')
  {
    hide DecodeFields, End, Opened, Sequel;
    var d := End(bits, c.need, c.s);
    if |c.stack| > 1 {
      var f := Top(c.stack);
      Popped(sc, c.stack);
      Pushed(sc, c.stack[..|c.stack| - 1], f.(items := f.items + [c.item]));
      if d.Got? {
        GrownOpened(bits, sc, c.stack, c.item, Sequel(bits, sc, f.row, |f.items| + 1, d.s, MAX_STACK + 1 - |c.stack|));
        if !sc.rows[f.row].More(|f.items| + 1) { SequelEnds(bits, sc, f.row, |f.items| + 1, d.s, MAX_STACK + 1 - |c.stack|); }
      } else {
        OpenedLost(bits, sc, c.stack, [c.item], d.why);
      }
    }
  }

  lemma SequelEnds(bits: seq<bool>, sc: Schema, r: nat, count: nat, s: Reader, depth: nat)
    requires WellFormed(sc) && InType(sc, r) && ElementRow(sc, r) && sc.rows[r].n > 0 && s.pos <= |bits| && depth > 0
    requires !sc.rows[r].More(count)
    ensures Sequel(bits, sc, r, count, s, depth) == Got(Run([], NoToken), s)
  {
  }

  lemma GrownOpened(bits: seq<bool>, sc: Schema, stack: seq<Frame>, item: Node, d: Decoded<Run>)
    requires WellFormed(sc) && StackOk(sc, stack) && |stack| > 1 && RunOk(bits, sc, Top(stack).row, d)
    requires StackOk(sc, Grown(stack, item))
    ensures Opened(bits, sc, stack, [item], d) == Opened(bits, sc, Grown(stack, item), [], d)
  {
    hide DecodeFields, Closed;
    var f := Top(stack);
    assert Grown(stack, item)[..|stack| - 1] == stack[..|stack| - 1];
    if d.Got? { assert f.items + [item] + d.value.items == f.items + [item] + [] + d.value.items; }
  }

  lemma SequenceTurn(bits: seq<bool>, sc: Schema, c: Config)
    requires ConfigOk(bits, sc, c) && c.state.ParseSequence?
    ensures Top(c.stack).row < |sc.rows|
    ensures var f := Top(c.stack);
            var d := Event(bits, sc.rows[f.row].Codes(|f.items|), c.s);
            if d.Lost? then Resume(bits, sc, c) == Lost(d.why)
            else
              var c' := if d.value == 0 then StartItem(sc, c.(token := 0, s := d.s))
                        else c.(state := SequenceEnd, need := false, token := d.value - 1, s := d.s);
              ConfigOk(bits, sc, c') && Resume(bits, sc, c) == Resume(bits, sc, c')
  {
    hide DecodeFields, DecodeItems, DecodeNode, Event, Entries, Closed;
    Popped(sc, c.stack);
    var f := Top(c.stack);
    var d := Event(bits, sc.rows[f.row].Codes(|f.items|), c.s);
    RowCodes(sc, f.row);
    if d.Got? && d.value == 0 {
      StartTurn(bits, sc, c.(token := 0, s := d.s));
      ItemStarts(bits, sc, c.stack, d.s);
    }
  }

  lemma SequenceEndTurn(bits: seq<bool>, sc: Schema, c: Config)
    requires ConfigOk(bits, sc, c) && c.state.SequenceEnd?
    ensures var f := Top(c.stack);
            var c' := c.(state := ParseNext, row := f.row + 1, fields := f.fields + [Field(f.items)],
                         stack := c.stack[..|c.stack| - 1], item := f.items[0]);
            ConfigOk(bits, sc, c') && Resume(bits, sc, c) == Resume(bits, sc, c')
  {
    hide DecodeFields, Entries, Closed;
    var f := Top(c.stack);
    assert f.items + [] + [] == f.items;
    if |c.stack| > 1 { Popped(sc, c.stack); }
  }

  // ---- the machine stops ----

  /** Falls whenever a turn reads nothing. */
  function Rank(sc: Schema, c: Config): nat {
    match c.state
    case ParseElement => 3
    case ParseValue => 1
    case ParseAttribute => 1
    case ParseSequence => 1
    case ParseNext => if c.need && c.stack != [] && c.row < |sc.rows| && sc.rows[c.row].n > 0 then 1 else 10 * |c.stack| + 9
    case ParseEnd => 10 * |c.stack| + 8
    case SequenceEnd => 10 * |c.stack| + 7
  }

  /** One turn: the result is the same, and the machine came further. */
  ghost predicate Turn(bits: seq<bool>, sc: Schema, c: Config, c': Config) {
    && ConfigOk(bits, sc, c) && ConfigOk(bits, sc, c') && Resume(bits, sc, c) == Resume(bits, sc, c')
    && (c.s.pos < c'.s.pos || (c.s.pos == c'.s.pos && Rank(sc, c') < Rank(sc, c)))
  }

  /** The first configuration of a document. */
  lemma StartConfig(bits: seq<bool>, sc: Schema, c: Config, kind: nat)
    requires WellFormed(sc) && kind < sc.length && c.s.pos <= |bits| && c.need && c.stack == [Frame(kind, [], [])]
    ensures ConfigOk(bits, sc, StartItem(sc, c)) && ElementRow(sc, kind)
    ensures Resume(bits, sc, StartItem(sc, c)) == Root(bits, DecodeNode(bits, sc, kind, c.s, MAX_STACK - 1))
  {
    hide DecodeNode, Root;
    assert GlobalRow(sc, kind);
    assert kind + 1 < sc.length ==> GlobalRow(sc, kind + 1);
    StartTurn(bits, sc, c);
  }

  lemma TurnMeans(bits: seq<bool>, sc: Schema, c: Config, c': Config)
    requires Turn(bits, sc, c, c')
    ensures ConfigOk(bits, sc, c') && c'.s.pos <= |bits|
    ensures ConfigOk(bits, sc, c) && Resume(bits, sc, c) == Resume(bits, sc, c')
    ensures c.s.pos < c'.s.pos || (c.s.pos == c'.s.pos && Rank(sc, c') < Rank(sc, c))
  {
  }

  lemma EndForward(bits: seq<bool>, needEnd: bool, s: Reader)
    ensures var d := End(bits, needEnd, s); d.Got? ==> s.pos <= d.s.pos
  {
  }

  lemma LengthBits(n: nat)
    requires n < 0x1_0000
    ensures BitCount(n) <= 24
  {
    BigPow2();
    Pow2Monotone(16, 24);
    assert n < Pow2(24);
    BitCountAtMost(n, 24);
  }

  lemma NextTurn(bits: seq<bool>, sc: Schema, c: Config)
    requires ConfigOk(bits, sc, c) && c.state.ParseNext? && c.stack != [] && sc.rows[c.row].n > 0
    ensures var d := NextToken(bits, sc, c.row, c.Tok(), c.s);
            if d.Lost? then Resume(bits, sc, c) == Lost(d.why)
            else
              var fields := c.fields + Skipped(d.value);
              var c' := if sc.rows[c.row + d.value].n == 0
                        then c.(state := ParseEnd, need := false, token := d.value, row := c.row + d.value, fields := fields, item := Obj(fields), s := d.s)
                        else c.(state := ParseElement, need := true, token := d.value, row := c.row + d.value, fields := fields, s := d.s);
              Turn(bits, sc, c, c')
  {
    hide Closed, DecodeRow, Entries, NextToken;
    var d, depth := NextToken(bits, sc, c.row, c.Tok(), c.s), MAX_STACK - |c.stack|;
    if d.Got? && sc.rows[c.row + d.value].n > 0 {
      InObjectBefore(c.fields, Skipped(d.value), DecodeRow(bits, sc, c.row + d.value, d.s, depth));
    }
    if d.Lost? { ClosedLost(bits, sc, c.stack, d.why); }
  }

  lemma AttributeStarts(bits: seq<bool>, sc: Schema, c: Config)
    requires ConfigOk(bits, sc, c) && c.state.ParseElement? && sc.rows[c.row].attribute
    ensures Turn(bits, sc, c, c.(state := ParseAttribute))
  {
  }

  /** With no element left open the document is complete. */
  lemma Outside(bits: seq<bool>, sc: Schema, c: Config)
    requires ConfigOk(bits, sc, c) && c.stack == []
    ensures Resume(bits, sc, c) == Got(c.item, c.s)
    ensures c.state.ParseNext? ==> Turn(bits, sc, c, c.(state := ParseEnd))
  {
  }

  // ---- string tables stay small ----

  /** No table holds more strings than the input has bytes so far. */
  ghost predicate Bounded(t: Tables, pos: nat) {
    8 * |t.global| <= pos && forall n :: n in t.local ==> 8 * |t.local[n]| <= pos
  }

  lemma NoStrings(pos: nat)
    ensures Bounded(NO_TABLES, pos)
  {
  }

  lemma BoundedAdd(t: Tables, name: Name, s: Str, pos: nat, p: nat)
    requires Bounded(t, pos) && pos + 8 <= p
    ensures Bounded(t.AddLocal(name, s).AddGlobal(s), p)
  {
  }

  /** An identifier of a table takes at most 24 bits. */
  lemma CompactBits(size: nat)
    requires 0 < size <= 0x100_0000
    ensures BitCount(size - 1) <= 24
  {
    BigPow2();
    BitCountAtMost(size - 1, 24);
  }

  // ---- the reader ----

  /** The largest buffer for which every bit count is one `parse_bits` handles exactly. */
  const MAX_BYTES := 0x100_0000

  class Parser {
    const schema: Schema
    const r: BitReader
    var tables: Tables
    var error: Failure
    var state: State
    var row: nat
    var need: bool
    var token: nat
    var fields: seq<Field>
    var item: Node
    var stack: seq<Frame>

    constructor (schema: Schema, r: BitReader)
      ensures this.schema == schema && this.r == r && tables == NO_TABLES
    {
      this.schema, this.r := schema, r;
      tables, error, state, row, need, token := NO_TABLES, Invalid, ParseEnd, 0, true, 0;
      fields, item, stack := [], Obj([]), [];
    }

    ghost function Bits(): seq<bool>
      requires r.end < r.buf.Length
      reads r.buf
    {
      r.Input()
    }

    /** The buffer is readable and the tables are no larger than what was read. */
    ghost predicate Ready()
      reads this, r
    {
      r.Valid() && r.end <= MAX_BYTES && Bounded(tables, r.Pos())
    }

    ghost function Rd(): Reader
      reads this, r
    {
      Reader(r.Pos(), tables, r.truncated)
    }

    // -- values --

    method ParseUint() returns (ok: bool, x: nat)
      requires r.Valid()
      modifies r`ptr, r`truncated, `error
      ensures r.Valid() && old(r.Pos()) <= r.Pos() && (old(r.truncated) ==> ok && r.truncated)
      ensures (old(r.truncated) ==> old(r.Pos()) + 8 > |Bits()|) ==>
                match DecodeUint(Bits(), old(r.Pos()))
                case Ok(y, p, short) => ok && x == y && r.Pos() == p && r.truncated == short
                case Fail(why) => !ok && error == why
    {
      hide Or, Shl, Pow2, Peek;
      var n, more := 0, true;
      x, ok := 0, true;
      assert Pow2(0) == 1 by { Pow2Values(); }
      while more
        invariant r.Valid() && old(r.Pos()) <= r.Pos() && (old(r.truncated) ==> r.truncated)
        invariant x < Pow2(n)
        invariant n > 0 && old(r.truncated) ==> !more
        invariant more ==> r.truncated == old(r.truncated) && (n > 0 ==> !r.truncated)
        invariant (old(r.truncated) ==> old(r.Pos()) + 8 > |Bits()|) ==>
                    DecodeUint(Bits(), old(r.Pos()))
                    == if more then ReadUint(Bits(), r.Pos(), n, x) else Ok(x, r.Pos(), r.truncated)
        decreases more, 70 - n
      {
        if n >= 32 {
          error := Undefined;
          return false, 0;
        }
        var b := r.ParseByte();
        assert n == 0 ==> Shl(b % 128, n) == b % 128 by { NoShift(b % 128); }
        assert b == 0 ==> Shl(b % 128, n) == 0 by { ClearZero(n); }
        if Shl(b % 128, n) >= 0x8000_0000 {
          error := Undefined;
          return false, 0;
        }
        OrCommutes(x, Shl(b % 128, n));
        OrLow(b % 128, x, n);
        assert Shl(b % 128, n) + x < Pow2(n + 7) by { assert Pow2(7) == 128 by { Pow2Values(); } ShlBound(b % 128, 7, n); }
        x := Or(x, Shl(b % 128, n));
        n := n + 7;
        more := !r.truncated && b >= 128 && n < 70;
      }
    }

    method ParseInteger() returns (ok: bool, x: int)
      requires r.Valid()
      modifies r`ptr, r`bit, r`truncated, `error
      ensures r.Valid() && (old(r.truncated) ==> r.truncated)
      ensures !old(r.truncated) ==>
                match DecodeInteger(Bits(), old(r.Pos()))
                case Ok(y, p, short) => ok && r.truncated == short && (!short ==> x == y && r.Pos() == p)
                case Fail(why) => !ok && error == why
      ensures r.truncated ==> r.ptr == old(r.ptr) && r.bit == old(r.bit)
    {
      hide DecodeUint;
      var ptr, bit := r.ptr, r.bit;
      var sign := r.ParseBit();
      var y;
      ok, y := ParseUint();
      if r.truncated { r.ptr, r.bit := ptr, bit; }
      x := Signed(sign, y);
    }

    method ParseBinary(size: nat) returns (ok: bool, data: seq<byte>)
      requires r.Valid()
      modifies r`ptr, r`truncated, `error
      ensures r.Valid() && (old(r.truncated) ==> !ok)
      ensures !old(r.truncated) ==>
                match DecodeBinary(Bits(), old(r.Pos()), size)
                case Ok(v, p, short) => ok && v == Binary(data) && r.Pos() == p && r.truncated == short
                case Fail(why) => !ok && error == why
    {
      hide DecodeUint, Peek;
      data := [];
      var m;
      ok, m := ParseUint();
      if !ok { return; }
      if r.truncated { error := Truncated; return false, []; }
      if m > size { error := Invalid; return false, []; }
      NeedBytes(r.end, r.ptr, r.bit, m);
      if r.end - r.ptr < (if r.bit > 0 then m + 1 else m) {
        r.truncated := true;
        error := Truncated;
        return false, [];
      }
      var bytes := ParseBytes(m);
      data := seq(size - m, _ => 0) + bytes;
    }

    method ParseBytes(m: nat) returns (data: seq<byte>)
      requires r.Valid() && r.Pos() + 8 * m <= |Bits()|
      modifies r`ptr, r`truncated
      ensures r.Valid() && r.Pos() == old(r.Pos()) + 8 * m && r.truncated == old(r.truncated)
      ensures data == ReadBytes(Bits(), old(r.Pos()), m)
    {
      hide Peek;
      data := [];
      var i := 0;
      assert ReadBytes(Bits(), r.Pos(), m) == [] + ReadBytes(Bits(), r.Pos(), m - i);
      while i < m
        invariant 0 <= i <= m && r.Valid() && r.Pos() == old(r.Pos()) + 8 * i && r.truncated == old(r.truncated)
        invariant |data| == i
        invariant ReadBytes(Bits(), old(r.Pos()), m) == data + ReadBytes(Bits(), r.Pos(), m - i)
      {
        ghost var rest := ReadBytes(Bits(), r.Pos() + 8, m - i - 1);
        var b := r.ParseByte();
        assert data + ([b] + rest) == data + [b] + rest;
        data := data + [b];
        i := i + 1;
      }
      assert data + [] == data;
    }

    method ParseLiteral(n: nat) returns (ok: bool, codes: Str)
      requires r.Valid() && !r.truncated
      modifies r`ptr, r`truncated, `error
      ensures r.Valid()
      ensures match ReadCodes(Bits(), old(r.Pos()), n)
              case Ok(s, p, short) => ok && codes == s && r.Pos() == p && r.truncated == short
              case Fail(why) => !ok && error == why
    {
      hide DecodeUint;
      codes := [];
      var i := 0;
      OntoNothing(ReadCodes(Bits(), r.Pos(), n));
      while i < n
        invariant 0 <= i <= n && r.Valid()
        invariant ReadCodes(Bits(), old(r.Pos()), n) == Onto(codes, r.truncated, ReadCodes(Bits(), r.Pos(), n - i))
        invariant r.truncated ==> r.Pos() + 8 > |Bits()|
      {
        ghost var was := r.truncated;
        UintShort(Bits(), r.Pos());
        var c;
        ok, c := ParseUint();
        if !ok { return; }
        if c >= 0x2_0000 { error := Undefined; return false, []; }
        OntoOne(codes, c, was, r.truncated, ReadCodes(Bits(), r.Pos(), n - i - 1));
        codes := codes + [c];
        i := i + 1;
      }
      ok := true;
    }

    /** Length in UTF-8 of one character that is encoded as an integer. */
    method Utf8Char() returns (length: int)
      requires r.Valid() && !r.truncated
      modifies r`ptr, r`truncated, `error
      ensures r.Valid()
      ensures match ScanCode(Bits(), old(r.Pos()), 1)
              case Ok(size, p, _) => length == size && r.Pos() == p && !r.truncated
              case Fail(why) => length == -1 && error == why
    {
      hide Peek;
      var m := 1;
      var b := r.ParseByte();
      while b >= 128
        invariant 1 <= m <= 3 && r.Valid()
        invariant r.truncated ==> b == 0 && ScanCode(Bits(), old(r.Pos()), 1) == Fail(Truncated)
        invariant !r.truncated ==>
                    && old(r.Pos()) + 8 <= r.Pos() && r.Pos() - 8 >= 0 && b == Peek(Bits(), r.Pos() - 8, 8)
                    && ScanCode(Bits(), old(r.Pos()), 1) == ScanCode(Bits(), r.Pos() - 8, m)
        decreases if b >= 128 then 4 - m else 0
      {
        m := m + 1;
        if m > 3 { error := Invalid; return -1; }
        b := r.ParseByte();
      }
      if r.truncated { error := Truncated; return -1; }
      if (m == 2 && b >= 16) || (m == 3 && b >= 4) { m := m + 1; }
      length := m;
    }

    /** Length in UTF-8 of the next `n` characters; the position is put back. */
    method Utf8Length(n: nat) returns (length: int)
      requires r.Valid() && !r.truncated
      modifies r`ptr, r`truncated, `error
      ensures r.Valid()
      ensures match ScanLiteral(Bits(), old(r.Pos()), n)
              case Ok(size, _, _) => length == size && r.Pos() == old(r.Pos()) && !r.truncated
              case Fail(why) => length == -1 && error == why
    {
      hide ScanCode;
      var ptr, i := r.ptr, 0;
      length := 0;
      while i < n
        invariant 0 <= i <= n && r.Valid() && !r.truncated && length >= 0 && r.bit == old(r.bit)
        invariant ScanLiteral(Bits(), old(r.Pos()), n) == Longer(length, ScanLiteral(Bits(), r.Pos(), n - i))
      {
        var size := Utf8Char();
        if size < 0 { return -1; }
        length := length + size;
        i := i + 1;
      }
      r.ptr := ptr;
    }

    method ParseCompact(t: seq<Str>, size: nat) returns (ok: bool, s: Str)
      requires r.Valid() && !r.truncated && |t| <= MAX_BYTES
      modifies r`ptr, r`bit, r`truncated, `error
      ensures r.Valid()
      ensures match DecodeCompact(Bits(), old(r.Pos()), t, size)
              case Ok(x, p, short) => ok && s == x && r.Pos() == p && r.truncated == short
              case Fail(why) => !ok && error == why
    {
      hide Peek, BitCount;
      if |t| > 0 {
        CompactBits(|t|);
        var id := r.ParseBits(BitCount(|t| - 1));
        if r.truncated { error := Truncated; return false, []; }
        if id < |t| && (size == 0 || StringSize(t[id]) + 1 <= size) { return true, t[id]; }
      }
      error := Invalid;
      return false, [];
    }

    /** A string of `k` characters written out, into a container of `size` bytes or, for 0, a new one. */
    method ParseNewString(k: nat, size: nat) returns (ok: bool, s: Str)
      requires r.Valid() && !r.truncated
      modifies r`ptr, r`bit, r`truncated, `error
      ensures r.Valid()
      ensures match DecodeLiteral(Bits(), old(r.Pos()), k, size)
              case Ok(x, p, short) => ok && s == x && r.Pos() == p && r.truncated == short
              case Fail(why) => !ok && error == why
    {
      hide ScanLiteral, ReadCodes;
      var m := Utf8Length(k);
      if m < 0 { return false, []; }
      if size > 0 && m >= size { error := Invalid; return false, []; }
      var codes;
      ok, codes := ParseLiteral(m);
      if !ok { return false, []; }
      if StringSize(codes) > (if size > 0 then size - 1 else m) { error := Undefined; return false, []; }
      s := CString(codes);
    }

    method ParseString(name: Name, size: nat) returns (ok: bool, s: Str)
      requires Ready()
      modifies r`ptr, r`bit, r`truncated, `error, `tables
      ensures r.Valid() && (old(r.truncated) ==> !ok)
      ensures ok ==> Ready()
      ensures !old(r.truncated) ==>
                match DecodeString(Bits(), old(r.Pos()), old(tables), name, size)
                case Ok((v, t), p, short) => ok && v == Text(s) && tables == t && r.Pos() == p && r.truncated == short
                case Fail(why) => !ok && error == why
    {
      hide DecodeUint, DecodeCompact, DecodeLiteral;
      UintConsumes(Bits(), r.Pos());
      s := [];
      var m;
      ok, m := ParseUint();
      if !ok { return; }
      if r.truncated { error := Truncated; return false, []; }
      if m <= 1 {
        ok, s := ParseCompact(if m == 0 then tables.Local(name) else tables.global, size);
        StringForward(Bits(), old(r.Pos()), old(tables), name, size);
      } else {
        ok, s := ParseNewString(m - 2, size);
        if !ok { return; }
        StringForward(Bits(), old(r.Pos()), old(tables), name, size);
        BoundedAdd(tables, name, s, old(r.Pos()), r.Pos());
        tables := tables.AddLocal(name, s).AddGlobal(s);
      }
    }

    method ParseValueOf(e: Row) returns (ok: bool, v: Value)
      requires Ready()
      modifies r`ptr, r`bit, r`truncated, `error, `tables
      ensures r.Valid() && (old(r.truncated) ==> !ok)
      ensures ok ==> Ready()
      ensures !old(r.truncated) ==>
                match DecodeValue(Bits(), old(r.Pos()), old(tables), e.name, e.xs)
                case Ok((x, t), p, short) => ok && v == x && tables == t && r.Pos() == p && r.truncated == short
                case Fail(why) => !ok && error == why
    {
      hide DecodeString, DecodeUint, DecodeInteger, DecodeBinary, Peek;
      ValueConsumes(Bits(), r.Pos(), tables, e.name, e.xs);
      match e.xs {
        case XsString(n) => var s; ok, s := ParseString(e.name, n); v := Text(s);
        case XsAnyUri => var s; ok, s := ParseString(e.name, 0); v := Text(s);
        case XsBoolean => var b := r.ParseBit(); v := Flag(b); ok := NotTruncated();
        case XsHexBinary(n) => var d; ok, d := ParseBinary(n); v := Binary(d);
        case _ => var x; ok, x := ParseNumber(e.xs); v := Number(x);
      }
    }

    method ParseNumber(xs: XsType) returns (ok: bool, x: int)
      requires r.Valid() && !xs.Textual() && !xs.XsBoolean? && !xs.XsHexBinary?
      modifies r`ptr, r`bit, r`truncated, `error
      ensures r.Valid() && (old(r.truncated) ==> !ok)
      ensures !old(r.truncated) ==>
                match DecodeValue(Bits(), old(r.Pos()), tables, 0, xs)
                case Ok((v, t), p, short) => ok && v == Number(x) && tables == t && r.Pos() == p && r.truncated == short
                case Fail(why) => !ok && error == why
    {
      hide DecodeUint, DecodeInteger, Peek;
      x, ok := 0, true;
      var b: nat := 0;
      match xs {
        case XsLong => ok, x := ParseInteger(); x := Wrap(x, -0x8000_0000_0000_0000, 0x1_0000_0000_0000_0000);
        case XsInt => ok, x := ParseInteger(); x := Wrap(x, -0x8000_0000, 0x1_0000_0000);
        case XsShort => ok, x := ParseInteger(); x := Wrap(x, -0x8000, 0x1_0000);
        case XsByte => b := r.ParseBits(8); x := Wrap(-128 + b, -128, 256);
        case XsULong => ok, b := ParseUint(); x := Wrap(b, 0, 0x1_0000_0000_0000_0000);
        case XsUInt => ok, b := ParseUint(); x := Wrap(b, 0, 0x1_0000_0000);
        case XsUShort => ok, b := ParseUint(); x := Wrap(b, 0, 0x1_0000);
        case XsUByte => b := r.ParseBits(8); x := Wrap(b, 0, 256);
      }
      if ok { ok := NotTruncated(); }
    }

    method ParseSimple(e: Row) returns (ok: bool)
      requires Ready()
      modifies r`ptr, r`bit, r`truncated, `error, `tables, `need, `item
      ensures r.Valid() && (ok ==> Ready())
      ensures match SimpleItem(Bits(), e, old(Rd()))
              case Got(x, s) => ok && item == x.node && need == (old(need) && x.needEnd) && Rd() == s
              case Lost(why) => !ok && error == why
    {
      hide DecodeValue, Peek;
      SimpleConsumes(Bits(), r.Pos(), tables, e.name, e.xs);
      var second := r.ParseBit();
      if second {
        var code := r.ParseBits(3);
        if code != 0 { error := Invalid; return false; }
        need, item := false, Leaf(Zero(e.xs));
        return true;
      }
      var v;
      var short := r.truncated;
      ok, v := ParseValueOf(e);
      if short { error := Truncated; }
      item := Leaf(v);
    }

    method NotTruncated() returns (ok: bool)
      modifies `error
      ensures ok == !r.truncated && error == if ok then old(error) else Truncated
    {
      ok := !r.truncated;
      if !ok { error := Truncated; }
    }

    /** An event code among `n`. */
    method ParseEvent(n: nat) returns (ok: bool)
      requires Ready() && n < 256
      modifies r`ptr, r`bit, r`truncated, `error, `token
      ensures r.Valid() && (ok ==> Ready())
      ensures match Event(Bits(), n, old(Rd()))
              case Got(k, s) => ok && token == k && Rd() == s
              case Lost(why) => !ok && error == why
    {
      hide Peek, BitCount;
      assert BitCount(n) <= 24 by { Pow2Values(); BitCountAtMost(n, 8); }
      token := r.ParseBits(BitCount(n));
      if r.truncated { error := Truncated; return false; }
      if token >= n { error := Invalid; return false; }
      ok := true;
    }

    // -- the machine --

    ghost function Cfg(): Config
      reads this, r
    {
      Config(state, row, need, token, fields, item, stack, Rd())
    }

    ghost predicate Valid()
      reads this, r, r.buf
    {
      Ready() && ConfigOk(Bits(), schema, Cfg())
    }

    /** The driver's `exi_parse_next` in front of a row. */
    method StepNextRow() returns (ok: bool)
      requires Valid() && state.ParseNext? && schema.rows[row].n > 0
      modifies this, r`ptr, r`bit, r`truncated
      ensures ok ==> Ready() && Turn(Bits(), schema, old(Cfg()), Cfg())
      ensures !ok ==> r.Valid() && old(Resume(Bits(), schema, Cfg())) == Lost(error)
    {
      hide Resume, Entries, StackOk, NextToken, Bounded, Turn;
      NextTurn(Bits(), schema, Cfg());
      ok := ReadToken();
      if !ok { return; }
      row := row + token;
      fields := fields + Skipped(token);
      need := schema.rows[row].n > 0;
      if need {
        state := ParseElement;
      } else {
        item, state := Obj(fields), ParseEnd;
      }
    }

    /** The event code for the current row, unless the row before it has read one. */
    method ReadToken() returns (ok: bool)
      requires Valid() && state.ParseNext? && stack != [] && schema.rows[row].n > 0
      modifies r`ptr, r`bit, r`truncated, `error, `token
      ensures r.Valid() && (ok ==> Ready())
      ensures match NextToken(Bits(), schema, row, old(Cfg()).Tok(), old(Rd()))
              case Got(k, s) => ok && token == k && Rd() == s
              case Lost(why) => !ok && error == why
    {
      hide Entries, StackOk, Event, Bounded;
      ok := true;
      if need {
        var se := schema.rows[row];
        RowCodes(schema, row);
        assert TypeRow(schema, row);
        ok := ParseEvent(if se.min > 0 then 1 else se.n);
      }
    }

    /** And behind the last row. */
    method StepNext() returns (ok: bool)
      requires Valid() && state.ParseNext?
      modifies this, r`ptr, r`bit, r`truncated
      ensures ok ==> Ready() && Turn(Bits(), schema, old(Cfg()), Cfg())
      ensures !ok ==> r.Valid() && old(Resume(Bits(), schema, Cfg())) == Lost(error)
    {
      hide Resume, Turn, Bounded, StackOk;
      if schema.rows[row].n > 0 {
        ok := StepNextRow();
      } else {
        if stack != [] {
          LastRow(Bits(), schema, Cfg());
          item := Obj(fields);
        } else {
          Outside(Bits(), schema, Cfg());
        }
        state := ParseEnd;
        ok := true;
      }
    }

    /** Enters the current element: an attribute's value, or one more level of the stack. */
    method StepElement() returns (ok: bool)
      requires Valid() && state.ParseElement?
      modifies this
      ensures ok ==> Ready() && Turn(Bits(), schema, old(Cfg()), Cfg())
      ensures !ok ==> r.Valid() && old(Resume(Bits(), schema, Cfg())) == Lost(error)
    {
      hide Resume, Entries, Bounded;
      ghost var c := Cfg();
      var se := schema.rows[row];
      if se.attribute {
        AttributeStarts(Bits(), schema, c);
        state := ParseAttribute;
        return true;
      }
      ElementTurn(Bits(), schema, c);
      if |stack| == MAX_STACK { error := Invalid; return false; }
      stack := stack + [Frame(row, fields, [])];
      RowKind(schema, row);
      Enter();
      ok := true;
    }

    /** Where the content of the top element starts. */
    method Enter()
      requires WellFormed(schema) && stack != [] && Top(stack).row < |schema.rows| && ElementRow(schema, Top(stack).row)
      modifies `state, `row, `fields
      ensures Cfg() == StartItem(schema, old(Cfg()))
    {
      var se := schema.rows[stack[|stack| - 1].row];
      if se.simple {
        state := ParseValue;
      } else {
        row, fields, state := se.index + 1, [], ParseNext;
      }
    }

    method StepAttribute() returns (ok: bool)
      requires Valid() && state.ParseAttribute?
      modifies this, r`ptr, r`bit, r`truncated
      ensures ok ==> Ready() && Turn(Bits(), schema, old(Cfg()), Cfg())
      ensures !ok ==> r.Valid() && old(Resume(Bits(), schema, Cfg())) == Lost(error)
    {
      hide Resume, Entries, StackOk, DecodeValue, Bounded;
      AttributeTurn(Bits(), schema, Cfg());
      var v;
      ok, v := ParseValueOf(schema.rows[row]);
      fields := fields + [Field([Leaf(v)])];
      row, state := row + 1, ParseNext;
    }

    method StepValue() returns (ok: bool)
      requires Valid() && state.ParseValue?
      modifies this, r`ptr, r`bit, r`truncated
      ensures ok ==> Ready() && Turn(Bits(), schema, old(Cfg()), Cfg())
      ensures !ok ==> r.Valid() && old(Resume(Bits(), schema, Cfg())) == Lost(error)
    {
      hide Resume, Entries, DecodeValue, DecodeSimple, Bounded;
      ValueTurn(Bits(), schema, Cfg());
      ok := ParseSimple(schema.rows[stack[|stack| - 1].row]);
      state := ParseEnd;
    }

    /** The driver's `exi_parse_end`. */
    method ParseEndBit() returns (ok: bool)
      requires Ready()
      modifies r`ptr, r`bit, r`truncated, `error, `need
      ensures r.Valid() && (ok ==> Ready())
      ensures match End(Bits(), old(need), old(Rd()))
              case Got(_, s) => ok && need && Rd() == s
              case Lost(why) => !ok && error == why
    {
      if need {
        var bit := r.ParseBit();
        if bit { error := Invalid; return false; }
      } else {
        need := true;
      }
      ok := true;
    }

    method StepEnd() returns (ok: bool)
      requires Valid() && state.ParseEnd? && stack != []
      modifies this, r`ptr, r`bit, r`truncated
      ensures ok ==> Ready() && Turn(Bits(), schema, old(Cfg()), Cfg())
      ensures !ok ==> r.Valid() && old(Resume(Bits(), schema, Cfg())) == Lost(error)
    {
      hide Resume, Entries, End, Bounded, StackOk;
      EndTurn(Bits(), schema, Cfg());
      EndForward(Bits(), need, Rd());
      var f := stack[|stack| - 1];
      ok := ParseEndBit();
      if !ok { return; }
      stack := stack[..|stack| - 1] + [f.(items := f.items + [item])];
      state := if schema.rows[f.row].More(|f.items| + 1) then ParseSequence else SequenceEnd;
    }

    /** The driver's `exi_parse_sequence`: another occurrence, or the event code of the next row. */
    method StepSequence() returns (ok: bool)
      requires Valid() && state.ParseSequence?
      modifies this, r`ptr, r`bit, r`truncated
      ensures ok ==> Ready() && Turn(Bits(), schema, old(Cfg()), Cfg())
      ensures !ok ==> r.Valid() && old(Resume(Bits(), schema, Cfg())) == Lost(error)
    {
      hide Resume, Entries, Event, Bounded;
      SequenceTurn(Bits(), schema, Cfg());
      var f := stack[|stack| - 1];
      var se, count := schema.rows[f.row], |f.items|;
      assert TypeRow(schema, f.row);
      ok := ParseEvent(if count >= se.min then se.n else 1);
      if !ok { return; }
      if token > 0 {
        need, token, state := false, token - 1, SequenceEnd;
      } else {
        Enter();
      }
    }

    method StepSequenceEnd()
      requires Valid() && state.SequenceEnd?
      modifies this
      ensures Ready() && Turn(Bits(), schema, old(Cfg()), Cfg())
    {
      hide Resume, Entries, Bounded, StackOk;
      SequenceEndTurn(Bits(), schema, Cfg());
      var f := stack[|stack| - 1];
      fields, item := f.fields + [Field(f.items)], f.items[0];
      stack, row, state := stack[..|stack| - 1], f.row + 1, ParseNext;
    }

    method Step() returns (ok: bool)
      requires Valid() && (state.ParseEnd? ==> stack != [])
      modifies this, r`ptr, r`bit, r`truncated
      ensures ok ==> Ready() && Turn(Bits(), schema, old(Cfg()), Cfg())
      ensures !ok ==> r.Valid() && old(Resume(Bits(), schema, Cfg())) == Lost(error)
    {
      hide Resume, ConfigOk, Turn, Bounded;
      match state {
        case ParseElement => ok := StepElement();
        case ParseNext => ok := StepNext();
        case ParseAttribute => ok := StepAttribute();
        case ParseValue => ok := StepValue();
        case ParseEnd => ok := StepEnd();
        case ParseSequence => ok := StepSequence();
        case SequenceEnd => StepSequenceEnd(); ok := true;
      }
    }

    /** The loop of `parse_doc`, from any point of a document to its end. */
    method Run() returns (ok: bool)
      requires Valid()
      modifies this, r`ptr, r`bit, r`truncated
      ensures r.Valid()
      ensures old(Resume(Bits(), schema, Cfg())) == if ok then Got(item, Rd()) else Lost(error)
    {
      hide Resume, ConfigOk, Turn, Bounded;
      ghost var bits, d := Bits(), Resume(Bits(), schema, Cfg());
      while !(state.ParseEnd? && stack == [])
        invariant Valid() && Bits() == bits && Resume(bits, schema, Cfg()) == d
        decreases |bits| - r.Pos(), Rank(schema, Cfg())
      {
        ghost var c := Cfg();
        ok := Step();
        if !ok { return; }
        TurnMeans(bits, schema, c, Cfg());
      }
      Outside(bits, schema, Cfg());
      ok := true;
    }

    /** `parse_doc` from its start state, on any input: the type and object of the document, or nothing. */
    method ParseDoc() returns (ok: bool, kind: nat, obj: Node)
      requires WellFormed(schema) && Ready() && tables == NO_TABLES && !r.truncated
      modifies this, r`ptr, r`bit, r`truncated
      ensures r.Valid()
      ensures match DecodeDoc(Bits(), schema, old(r.Pos()))
              case Got((k, node), s) => ok && kind == k && obj == node && Rd() == s
              case Lost(why) => !ok && error == why
    {
      hide Resume, ConfigOk, Peek, BitCount, Bounded, DecodeNode, Root;
      ghost var bits := Bits();
      obj := Obj([]);
      assert BitCount(schema.length) <= 24 by { LengthBits(schema.length); }
      kind := r.ParseBits(BitCount(schema.length));
      if kind >= schema.length {
        error := Invalid;
        return false, kind, obj;
      }
      need, stack := true, [Frame(kind, [], [])];
      StartConfig(bits, schema, Cfg(), kind);
      NoStrings(r.Pos());
      Enter();
      ok := Run();
      obj := item;
    }
  }

  lemma StringForward(bits: seq<bool>, pos: nat, t: Tables, name: Name, size: nat)
    ensures var d := DecodeString(bits, pos, t, name, size); d.Ok? ==> pos + 8 <= d.pos
  {
    UintConsumes(bits, pos);
  }

  /** Characters measured so far added to the others. */
  ghost function Longer(length: nat, d: Parse<nat>): Parse<nat> {
    match d
    case Fail(why) => Fail(why)
    case Ok(size, p, more) => Ok(length + size, p, more)
  }

  /** Code points read so far in front of the others. */
  ghost function Onto(codes: Str, short: bool, d: Parse<Str>): Parse<Str> {
    match d
    case Fail(why) => Fail(why)
    case Ok(rest, p, more) => Ok(codes + rest, p, short || more)
  }

  lemma UintShort(bits: seq<bool>, pos: nat)
    ensures pos + 8 > |bits| ==> DecodeUint(bits, pos) == Ok(0, pos, true)
    ensures var d := DecodeUint(bits, pos); d.Ok? && d.short ==> d.pos + 8 > |bits|
  {
  }

  lemma OntoNothing(d: Parse<Str>)
    ensures Onto([], false, d) == d
  {
    if d.Ok? { assert [] + d.value == d.value; }
  }

  lemma OntoOne(codes: Str, c: nat, was: bool, short: bool, d: Parse<Str>)
    ensures Onto(codes, was, Onto([c], short, d)) == Onto(codes + [c], was || short, d)
  {
    if d.Ok? { assert codes + ([c] + d.value) == codes + [c] + d.value; }
  }

  lemma NeedBytes(end: nat, ptr: nat, bit: nat, m: nat)
    requires bit < 8 && 8 * ptr + bit <= 8 * end
    ensures end - ptr < (if bit > 0 then m + 1 else m) <==> 8 * ptr + bit + 8 * m > 8 * end
  {
  }
}