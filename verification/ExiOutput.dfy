/**
 The EXI writer: the value writers of core/exi_output.c and the state machine
 `output_doc` of core/output.c, over one buffer that is large enough.
 */
module ExiOutput {
  import opened Words
  import opened BitStream
  import opened ExiValue
  import opened ExiSchema
  import opened ExiDocument

  // ---- positions of the machine ----

  /** An element in progress: its row, the fields of the parent from that row on,
      the occurrences left (the current one first) and how many are done. */
  datatype Frame = Frame(row: nat, rest: seq<Field>, queue: seq<Node>, count: nat)

  datatype State = OutputElement | OutputAttribute | OutputAttrValue | OutputSimple | OutputValue | OutputEnd | OutputComplex

  datatype Config = Config(state: State, row: nat, code: nat, n: nat, rest: seq<Field>, stack: seq<Frame>, t: Tables)

  predicate FrameOk(s: Schema, f: Frame) {
    && InType(s, f.row) && InType(s, f.row + 1) && ElementRow(s, f.row) && s.rows[f.row].n > 0
    && ShapedFields(s, f.row, f.rest) && f.rest != []
    && ShapedItems(s, s.rows[f.row], f.queue) && f.queue != []
    && f.count + |f.queue| == |f.rest[0].items|
  }

  predicate RootOk(s: Schema, f: Frame) {
    && f.row < s.length < |s.rows| && GlobalRow(s, f.row) && s.rows[f.row + 1].n == 0
    && |f.queue| == 1 && f.count == 0 && ShapedItems(s, s.rows[f.row], f.queue)
  }

  predicate StackOk(s: Schema, stack: seq<Frame>) {
    stack == []
    || (if |stack| == 1 then RootOk(s, stack[0])
        else FrameOk(s, stack[|stack| - 1]) && StackOk(s, stack[..|stack| - 1]))
  }

  /** The code is one of the `n`, or nothing was skipped yet. */
  predicate CodeOk(code: nat, n: nat) { code < n || (code == 0 && n == 0) }

  predicate ConfigOk(s: Schema, c: Config) {
    && WellFormed(s) && |c.stack| <= MAX_STACK && StackOk(s, c.stack)
    && CodeOk(c.code, c.n)
    && (c.state.OutputEnd? || c.stack != [])
    && match c.state
       case OutputElement => InType(s, c.row) && s.rows[c.row].n > 0 && ShapedFields(s, c.row, c.rest) && (c.n > 0 ==> c.n == c.code + Gap(s, c.row))
       case OutputAttribute => AtAttribute(s, c) && c.n > 0
       case OutputAttrValue => AtAttribute(s, c) && c.n == 0
       case OutputSimple => s.rows[Top(c).row].simple && c.n > 0
       case OutputValue => s.rows[Top(c).row].simple && c.n == 0
       case OutputComplex => !s.rows[Top(c).row].simple && c.n > 0
       case OutputEnd => true
  }

  predicate AtAttribute(s: Schema, c: Config) {
    && InType(s, c.row) && InType(s, c.row + 1) && ShapedFields(s, c.row, c.rest)
    && c.rest != [] && c.rest[0].items != [] && s.rows[c.row].attribute
  }

  function Top(c: Config): (f: Frame)
    requires c.stack != []
  {
    c.stack[|c.stack| - 1]
  }

  // ---- what is still to be written ----

  /** The occurrences of an element behind the current one. */
  function Others(s: Schema, f: Frame, t: Tables, depth: nat): Encoded
    requires FrameOk(s, f) && depth > 0
  {
    if |f.queue| == 1 then Done([], t)
    else EncodeItems(s, s.rows[f.row], f.count + 1, f.queue[1..], t, depth).After(EventBits(0, s.rows[f.row].Codes(f.count + 1)))
  }

  /** What follows the end of the current occurrence of the top element. */
  function Rest(s: Schema, stack: seq<Frame>, t: Tables): Encoded
    requires StackOk(s, stack) && |stack| <= MAX_STACK
    decreases stack, 0
  {
    if |stack| <= 1 then Done([], t)
    else
      var f, depth := stack[|stack| - 1], MAX_STACK + 1 - |stack|;
      match Others(s, f, t, depth)
      case Failed(b) => Failed(b)
      case Done(b, t') => Then(s, stack[..|stack| - 1], EncodeRest(s, f.row, |f.rest[0].items|, f.rest, t', depth)).After(b)
  }

  /** The current element or object `e`, and what follows it. */
  function Then(s: Schema, stack: seq<Frame>, e: Encoded): Encoded
    requires StackOk(s, stack) && |stack| <= MAX_STACK
    decreases stack, 1
  {
    match e
    case Failed(b) => Failed(b)
    case Done(b, t) => Rest(s, stack, t).After(b)
  }

  /** Everything the machine will write from here on. */
  function Remaining(s: Schema, c: Config): Encoded
    requires ConfigOk(s, c)
  {
    var depth := MAX_STACK - |c.stack|;
    if c.stack == [] then Done([], c.t)
    else
      match c.state
      case OutputElement => Then(s, c.stack, EncodeFields(s, c.row, c.code, c.n, c.rest, c.t, depth))
      case OutputAttribute => Then(s, c.stack, EncodePresent(s, c.row, c.rest, c.t, depth).After(EventBits(c.code, c.n)))
      case OutputAttrValue => Then(s, c.stack, EncodePresent(s, c.row, c.rest, c.t, depth))
      case OutputEnd => Then(s, c.stack, Done(EventBits(c.code, c.n), c.t))
      case _ =>
        TopItem(s, c.stack);
        var e := EncodeNode(s, s.rows[Top(c).row], Top(c).queue[0], c.t, depth);
        Then(s, c.stack, if c.state.OutputValue? then e else e.After(EventBits(c.code, c.n)))
  }

  lemma TopItem(s: Schema, stack: seq<Frame>)
    requires StackOk(s, stack) && stack != []
    ensures var f := stack[|stack| - 1];
            && f.queue != [] && f.row < |s.rows| && ElementRow(s, f.row)
            && Shaped(s, s.rows[f.row], f.queue[0])
  {
  }

  lemma AfterAfter(e: Encoded, a: seq<bool>, b: seq<bool>)
    ensures e.After(b).After(a) == e.After(a + b)
  {
    assert a + (b + e.bits) == a + b + e.bits;
  }

  lemma ThenAfter(s: Schema, stack: seq<Frame>, e: Encoded, a: seq<bool>)
    requires StackOk(s, stack) && |stack| <= MAX_STACK
    ensures Then(s, stack, e.After(a)) == Then(s, stack, e).After(a)
  {
    if e.Done? { AfterAfter(Rest(s, stack, e.t), a, e.bits); }
  }

  /** All of frame `f` on top of the stack `p`: its occurrences, then the rest of the parent. */
  function Run(s: Schema, p: seq<Frame>, f: Frame, t: Tables): Encoded
    requires StackOk(s, p) && FrameOk(s, f) && |p| < MAX_STACK
  {
    var depth := MAX_STACK - |p|;
    match EncodeItems(s, s.rows[f.row], f.count, f.queue, t, depth)
    case Failed(b) => Failed(b)
    case Done(b, t') => Then(s, p, EncodeRest(s, f.row, |f.rest[0].items|, f.rest, t', depth)).After(b)
  }

  lemma Pushed(s: Schema, p: seq<Frame>, f: Frame)
    requires StackOk(s, p) && p != [] && FrameOk(s, f)
    ensures (p + [f])[..|p|] == p && (p + [f])[|p|] == f
    ensures StackOk(s, p + [f])
  {
    assert (p + [f])[..|p|] == p;
  }

  /** The frame starts with its current occurrence. */
  lemma RunHead(s: Schema, p: seq<Frame>, f: Frame, t: Tables)
    requires StackOk(s, p) && p != [] && FrameOk(s, f) && |p| < MAX_STACK
    ensures StackOk(s, p + [f]) && Shaped(s, s.rows[f.row], f.queue[0])
    ensures Run(s, p, f, t) == Then(s, p + [f], EncodeNode(s, s.rows[f.row], f.queue[0], t, MAX_STACK - |p| - 1))
  {
    hide EncodeNode, EncodeRest, ShapedFields, Shaped;
    Pushed(s, p, f);
    var depth := MAX_STACK - |p|;
    var e := EncodeNode(s, s.rows[f.row], f.queue[0], t, depth - 1);
    if e.Done? {
      var o := Others(s, f, e.t, depth);
      if o.Done? {
        AfterAfter(Then(s, p, EncodeRest(s, f.row, |f.rest[0].items|, f.rest, o.t, depth)), e.bits, o.bits);
      }
      if |f.queue| > 1 {
        var m := EncodeItems(s, s.rows[f.row], f.count + 1, f.queue[1..], e.t, depth);
        AfterAfter(m, e.bits, EventBits(0, s.rows[f.row].Codes(f.count + 1)));
      }
    }
  }

  /** The next occurrence of the top element. */
  lemma RunNext(s: Schema, p: seq<Frame>, f: Frame, t: Tables)
    requires StackOk(s, p) && p != [] && FrameOk(s, f) && |p| < MAX_STACK && |f.queue| > 1
    ensures StackOk(s, p + [f])
    ensures var f' := f.(queue := f.queue[1..], count := f.count + 1);
            FrameOk(s, f') && Rest(s, p + [f], t) == Run(s, p, f', t).After(EventBits(0, s.rows[f.row].Codes(f.count + 1)))
  {
    hide EncodeItems, EncodeRest, ShapedFields, Shaped;
    Pushed(s, p, f);
    var depth := MAX_STACK - |p|;
    var m := EncodeItems(s, s.rows[f.row], f.count + 1, f.queue[1..], t, depth);
    if m.Done? {
      AfterAfter(Then(s, p, EncodeRest(s, f.row, |f.rest[0].items|, f.rest, m.t, depth)), EventBits(0, s.rows[f.row].Codes(f.count + 1)), m.bits);
    }
  }

  /** An element row with occurrences is entered. */
  lemma RunStart(s: Schema, p: seq<Frame>, row: nat, rest: seq<Field>, t: Tables)
    requires StackOk(s, p) && |p| < MAX_STACK && ShapedFields(s, row, rest) && rest != [] && rest[0].items != []
    requires FrameOk(s, Frame(row, rest, rest[0].items, 0))
    ensures Then(s, p, EncodePresent(s, row, rest, t, MAX_STACK - |p|)) == Run(s, p, Frame(row, rest, rest[0].items, 0), t)
  {
    hide EncodeItems, EncodeRest, ShapedFields, Shaped;
    var depth := MAX_STACK - |p|;
    var m := EncodeItems(s, s.rows[row], 0, rest[0].items, t, depth);
    if m.Done? { ThenAfter(s, p, EncodeRest(s, row, |rest[0].items|, rest, m.t, depth), m.bits); }
  }

  // ---- how much work is left ----

  function NodeWork(node: Node): (w: nat)
    ensures w >= 1
    decreases node, 1
  {
    match node
    case Leaf(_) => 1
    case Obj(fields) => 1 + FieldsWork(fields)
  }

  function FieldsWork(fields: seq<Field>): nat
    decreases fields
  {
    if fields == [] then 0 else 2 + ItemsWork(fields[0].items) + FieldsWork(fields[1..])
  }

  function ItemsWork(items: seq<Node>): nat
    decreases items
  {
    if items == [] then 0 else 4 + NodeWork(items[0]) + ItemsWork(items[1..])
  }

  function StackWork(stack: seq<Frame>): nat {
    if stack == [] then 0
    else
      var f := stack[|stack| - 1];
      2 + (if f.queue == [] then 0 else ItemsWork(f.queue[1..])) + (if f.rest == [] then 0 else FieldsWork(f.rest[1..])) + StackWork(stack[..|stack| - 1])
  }

  function Work(c: Config): nat {
    StackWork(c.stack) +
    match c.state
    case OutputElement => FieldsWork(c.rest) + 1
    case OutputAttribute => FieldsWork(c.rest)
    case OutputAttrValue => if FieldsWork(c.rest) > 0 then FieldsWork(c.rest) - 1 else 0
    case OutputSimple => 4
    case OutputValue => 3
    case OutputEnd => 1
    case OutputComplex => if c.stack == [] || Top(c).queue == [] then 0 else NodeWork(Top(c).queue[0]) + 3
  }

  lemma UintStep(y: nat)
    ensures UintBits(y) == NBits(if y / 128 > 0 then y % 128 + 128 else y % 128, 8) + if y / 128 > 0 then UintBits(y / 128) else []
  {
    hide NBits;
  }

  // ---- the writer ----

  class Output {
    const schema: Schema
    const w: BitWriter
    var tables: Tables
    var state: State
    var row: nat
    var code: nat
    var n: nat
    var rest: seq<Field>
    var stack: seq<Frame>

    constructor (schema: Schema, w: BitWriter)
      ensures this.schema == schema && this.w == w && tables == NO_TABLES
    {
      this.schema, this.w := schema, w;
      tables := NO_TABLES;
      state, row, code, n, rest, stack := OutputEnd, 0, 0, 0, [], [];
    }

    /** `k` more bits fit, with twelve bytes to spare for the checks of the source. */
    ghost predicate Room(k: nat)
      reads w, w.buf
    {
      w.Valid() && |w.Written()| + k + 96 <= 8 * w.buf.Length
    }

    // -- values --

    method OutputUint(x: nat)
      requires Room(|UintBits(x)|)
      modifies w`ptr, w.buf
      ensures w.Valid() && w.Written() == old(w.Written()) + UintBits(x)
    {
      hide ValidAt, WrittenAt, LowPart, NBits, Pow2, BitCount, UintBits;
      var y, more := x, true;
      ghost var done := [];
      assert w.Written() == old(w.Written()) + [];
      while more
        invariant w.Valid() && w.Written() == old(w.Written()) + done
        invariant UintBits(x) == done + if more then UintBits(y) else []
        decreases more, y
      {
        UintStep(y);
        var b := y % 128;
        y := y / 128;
        if y > 0 { b := b + 128; }
        w.OutputByte(b);
        done := done + NBits(b, 8);
        more := y > 0;
      }
    }

    method OutputInteger(x: int)
      requires Room(|IntegerBits(x)|)
      modifies w`ptr, w`bit, w.buf
      ensures w.Valid() && w.Written() == old(w.Written()) + IntegerBits(x)
    {
      hide ValidAt, WrittenAt, LowPart, NBits, Pow2, BitCount;
      var sign := x < 0;
      w.OutputBit(sign);
      OutputUint(if sign then -x else x);
    }

    method OutputBytes(b: seq<byte>)
      requires Room(|ByteBits(b)|)
      modifies w`ptr, w.buf
      ensures w.Valid() && w.Written() == old(w.Written()) + ByteBits(b)
    {
      hide ValidAt, WrittenAt, LowPart, NBits, Pow2, BitCount;
      var i := 0;
      ghost var done := [];
      assert w.Written() == old(w.Written()) + [];
      assert b[0..] == b;
      while i < |b|
        invariant 0 <= i <= |b|
        invariant w.Valid() && w.Written() == old(w.Written()) + done
        invariant ByteBits(b) == done + ByteBits(b[i..])
      {
        assert b[i..][1..] == b[i + 1..];
        w.OutputByte(b[i]);
        done := done + NBits(b[i], 8);
        i := i + 1;
      }
    }

    method OutputBinary(b: seq<byte>) returns (ok: bool)
      requires Room(|BinaryBits(b)|)
      modifies w`ptr, w.buf
      ensures ok && w.Valid() && w.Written() == old(w.Written()) + BinaryBits(b)
    {
      hide ValidAt, WrittenAt, LowPart, NBits, Pow2, BitCount;
      var i := 0;
      assert b[0..] == b;
      while |b| - i > 1 && b[i] == 0
        invariant 0 <= i <= |b|
        invariant Strip(b) == Strip(b[i..])
      {
        assert b[i..][1..] == b[i + 1..];
        i := i + 1;
      }
      assert Strip(b) == b[i..];
      ByteBitsLength(b[i..]);
      OutputUint(|b| - i);
      if w.ptr + (|b| - i) + 1 > w.buf.Length { return false; }
      OutputBytes(b[i..]);
      ok := true;
    }

    method FindString(t: seq<Str>, s: Str) returns (i: int)
      ensures i == IndexOf(t, s)
    {
      i := 0;
      while i < |t|
        invariant 0 <= i <= |t| && s !in t[..i]
      {
        if t[i] == s {
          FirstIndex(t, s, i);
          return;
        }
        i := i + 1;
      }
      assert t[..i] == t;
      i := -1;
    }

    method OutputLiteral(s: Str)
      requires Room(|LiteralBits(s)|)
      modifies w`ptr, w.buf
      ensures w.Valid() && w.Written() == old(w.Written()) + LiteralBits(s)
    {
      hide ValidAt, WrittenAt, LowPart, NBits, Pow2, BitCount;
      OutputUint(|s| + 2);
      var i := 0;
      ghost var done := UintBits(|s| + 2);
      assert s[0..] == s;
      while i < |s|
        invariant 0 <= i <= |s|
        invariant w.Valid() && w.Written() == old(w.Written()) + done
        invariant LiteralBits(s) == done + CodeBits(s[i..])
      {
        assert s[i..][1..] == s[i + 1..];
        OutputUint(s[i]);
        done := done + UintBits(s[i]);
        i := i + 1;
      }
    }

    /** The compact identifier `i` in a table of `size` strings. */
    method OutputCompact(part: nat, i: nat, size: nat)
      requires i < size && Room(|UintBits(part)| + BitCount(size - 1))
      modifies w`ptr, w`bit, w.buf
      ensures w.Valid() && w.Written() == old(w.Written()) + (UintBits(part) + NBits(i, BitCount(size - 1)))
    {
      hide ValidAt, WrittenAt, LowPart, NBits, Pow2, BitCount;
      OutputUint(part);
      var bits := BitCount(size - 1);
      BitCountBound(size - 1);
      if bits > 0 { w.OutputBits(i, bits); }
    }

    method OutputString(name: Name, s: Str)
      requires Room(|StringBits(tables, name, s).0|)
      modifies w`ptr, w`bit, w.buf, `tables
      ensures w.Valid() && w.Written() == old(w.Written()) + StringBits(old(tables), name, s).0
      ensures tables == StringBits(old(tables), name, s).1
    {
      hide ValidAt, WrittenAt, LowPart, NBits, Pow2, BitCount;
      var local := tables.Local(name);
      var i := FindString(local, s);
      if i >= 0 {
        OutputCompact(0, i, |local|);
        return;
      }
      tables := tables.AddLocal(name, s);
      i := FindString(tables.global, s);
      if i >= 0 {
        OutputCompact(1, i, |tables.global|);
        return;
      }
      tables := tables.AddGlobal(s);
      OutputLiteral(s);
    }

    method OutputValueOf(r: Row, v: Value) returns (ok: bool)
      requires Fits(r.xs, v) && Room(|ValueBits(tables, r.name, r.xs, r.Optional(), v).0|)
      modifies w`ptr, w`bit, w.buf, `tables
      ensures ok && w.Valid()
      ensures w.Written() == old(w.Written()) + ValueBits(old(tables), r.name, r.xs, r.Optional(), v).0
      ensures tables == ValueBits(old(tables), r.name, r.xs, r.Optional(), v).1
    {
      hide ValidAt, WrittenAt, LowPart, NBits, Pow2, BitCount;
      if w.buf.Length - w.ptr < 10 { return false; }
      ok := true;
      match r.xs
      case XsString(_) => OutputString(r.name, v.s);
      case XsAnyUri => OutputString(r.name, v.s);
      case XsBoolean => w.OutputBit(r.Optional() || v.b);
      case XsHexBinary(_) => ok := OutputBinary(v.data);
      case XsLong => OutputInteger(v.x);
      case XsInt => OutputInteger(v.x);
      case XsShort => OutputInteger(v.x);
      case XsByte => Pow2Values(); w.OutputBits(v.x + 128, 8);
      case XsULong => OutputUint(v.x);
      case XsUInt => OutputUint(v.x);
      case XsUShort => OutputUint(v.x);
      case XsUByte => Pow2Values(); w.OutputBits(v.x, 8);
    }

    method OutputSimpleOf(r: Row, v: Value) returns (ok: bool)
      requires Fits(r.xs, v) && Room(|SimpleBits(tables, r.name, r.xs, r.Optional(), v).0|)
      modifies w`ptr, w`bit, w.buf, `tables
      ensures ok && w.Valid()
      ensures w.Written() == old(w.Written()) + SimpleBits(old(tables), r.name, r.xs, r.Optional(), v).0
      ensures tables == SimpleBits(old(tables), r.name, r.xs, r.Optional(), v).1
    {
      hide ValidAt, WrittenAt, LowPart, NBits, Pow2, BitCount;
      Pow2Values();
      if r.xs.Textual() && v.s == [] {
        w.OutputBits(4, 3);
        ok := true;
      } else {
        w.OutputBit(false);
        ok := OutputValueOf(r, v);
      }
    }

    /** Writes the current event code and starts over. */
    method OutputEvent() returns (ok: bool)
      requires CodeOk(code, n) && Room(|EventBits(code, n)|)
      modifies w`ptr, w`bit, w.buf, `code, `n
      ensures ok && w.Valid() && w.Written() == old(w.Written()) + EventBits(old(code), old(n))
      ensures code == 0 && n == 0
    {
      hide ValidAt, WrittenAt, LowPart, NBits, Pow2, BitCount;
      if w.buf.Length - w.ptr < 3 { return false; }
      var bits := if n == 0 then 1 else BitCount(n);
      BitCountBound(n);
      Pow2Values();
      w.OutputBits(code, bits);
      code, n := 0, 0;
      ok := true;
    }

    // -- the machine --

    ghost function Cfg(): Config
      reads this
    {
      Config(state, row, code, n, rest, stack, tables)
    }

    ghost predicate Valid()
      reads this, w, w.buf
    {
      ConfigOk(schema, Cfg()) && Room(|Remaining(schema, Cfg()).bits|)
    }

    /** All the machine will have written in the end. */
    ghost function Total(): Encoded
      requires Valid()
      reads this, w, w.buf
    {
      Remaining(schema, Cfg()).After(w.Written())
    }

    /** To the row behind the current one. */
    method Next()
      requires row + 1 < |schema.rows| && rest != []
      modifies `row, `rest, `state
      ensures Cfg() == NextRow(schema, old(Cfg()), code, n)
    {
      row := row + 1;
      rest := rest[1..];
      state := if schema.rows[row].n > 0 then OutputElement else OutputEnd;
    }

    method StepElement() returns (ok: bool)
      requires Valid() && state.OutputElement?
      modifies this
      ensures ok ==> Turn(schema, old(Cfg()), [], Cfg())
      ensures !ok ==> old(Remaining(schema, Cfg())) == Failed([])
    {
      hide Remaining, EncodeFields, StackOk, Entries, ShapedFields, Work;
      var se := schema.rows[row];
      ShapedEnd(schema, row, rest);
      ElementFails(schema, Cfg());
      if se.attribute {
        if se.Counted(|rest[0].items|) > 0 {
          AttributeTurn(schema, Cfg());
          if n == 0 { n := se.n; }
          state := OutputAttribute;
        } else {
          if se.min > 0 { return false; }
          SkipTurn(schema, Cfg());
          if n == 0 { n := se.n; }
          code := code + 1;
          Next();
        }
      } else {
        if |stack| == MAX_STACK { return false; }
        if se.Counted(|rest[0].items|) == 0 {
          if se.min > 0 { return false; }
          SkipTurn(schema, Cfg());
          if n == 0 { n := se.n; }
          code := code + 1;
          Next();
        } else {
          PushTurn(schema, Cfg());
          stack := stack + [Frame(row, rest, rest[0].items, 0)];
          if n == 0 { n := se.Codes(0); }
          state := if se.simple then OutputSimple else OutputComplex;
        }
      }
      ok := true;
    }

    /** The end of an occurrence, after its event is out. */
    method StepEnd(ghost c: Config) returns (ok: bool)
      requires ConfigOk(schema, c) && c.state.OutputEnd? && c.stack != []
      requires Cfg() == c.(code := 0, n := 0)
      modifies this
      ensures ok ==> Turn(schema, c, EventBits(c.code, c.n), Cfg())
      ensures !ok ==> Remaining(schema, c) == Failed(EventBits(c.code, c.n))
    {
      hide Remaining, EncodeFields, StackOk, Entries, ShapedFields, Work, EventBits;
      var f := stack[|stack| - 1];
      TopItem(schema, stack);
      var se, count, queue := schema.rows[f.row], f.count + 1, f.queue[1..];
      if queue != [] {
        NextOccurrence(schema, c);
        stack := stack[..|stack| - 1] + [f.(queue := queue, count := count)];
        n := se.Codes(count);
        state := if se.simple then OutputSimple else OutputComplex;
        return true;
      }
      if |stack| == 1 {
        RootDone(schema, c);
        stack, row, rest := [], f.row + 1, [];
        state := if schema.rows[row].n > 0 then OutputElement else OutputEnd;
        return true;
      }
      LastOccurrence(schema, c);
      if !se.unbounded && count == se.max {
        stack, row, rest := stack[..|stack| - 1], f.row, f.rest;
      } else {
        if count < se.min { return false; }
        n, code := se.n, 1;
        stack, row, rest := stack[..|stack| - 1], f.row, f.rest;
      }
      Next();
      ok := true;
    }

    lemma RoomFor(b: seq<bool>, c': Config)
      requires Valid() && Turn(schema, Cfg(), b, c')
      ensures Room(|b|)
    {
    }

    /** An event in front of the configuration `next`. */
    method StepEvent(ghost next: Config) returns (ok: bool)
      requires Valid() && Turn(schema, Cfg(), EventBits(code, n), next)
      modifies `code, `n, w`ptr, w`bit, w.buf
      ensures ok && code == 0 && n == 0
      ensures w.Valid() && w.Written() == old(w.Written()) + EventBits(old(code), old(n))
    {
      hide Remaining, StackOk, EventBits, Work, Turn;
      RoomFor(EventBits(code, n), next);
      ok := OutputEvent();
    }

    method StepAttribute() returns (ok: bool)
      requires Valid() && (state.OutputAttribute? || state.OutputAttrValue?)
      modifies this, w`ptr, w`bit, w.buf
      ensures ok && Valid() && Total() == old(Total()) && Work(Cfg()) < old(Work(Cfg()))
    {
      hide Remaining, StackOk, Work, EventBits, ValueBits, ShapedFields, Entries, ValidAt, WrittenAt, Turn;
      ghost var c, b := Cfg(), EventBits(code, n);
      if state.OutputAttribute? {
        AttributeEvent(schema, c);
        ok := StepEvent(c.(state := OutputAttrValue, code := 0, n := 0));
        state := OutputAttrValue;
      } else {
        AttributeValueTurn(schema, c);
        var r, v := schema.rows[row], rest[0].items[0].v;
        ghost var out := ValueBits(tables, r.name, r.xs, r.Optional(), v);
        RoomFor(out.0, NextRow(schema, c, 0, 0).(t := out.1));
        ok := OutputValueOf(r, v);
        Next();
        b := out.0;
      }
      Advance(schema, c, b, Cfg(), old(w.Written()));
    }

    method StepSimple() returns (ok: bool)
      requires Valid() && (state.OutputSimple? || state.OutputValue?)
      modifies this, w`ptr, w`bit, w.buf
      ensures ok && Valid() && Total() == old(Total()) && Work(Cfg()) < old(Work(Cfg()))
    {
      hide Remaining, StackOk, Work, EventBits, SimpleBits, ShapedFields, Entries, ValidAt, WrittenAt, Turn;
      ghost var c, b := Cfg(), EventBits(code, n);
      if state.OutputSimple? {
        SimpleEvent(schema, c);
        ok := StepEvent(c.(state := OutputValue, code := 0, n := 0));
        state := OutputValue;
      } else {
        SimpleValueTurn(schema, c);
        var f := stack[|stack| - 1];
        var r, v := schema.rows[f.row], f.queue[0].v;
        ghost var out := SimpleBits(tables, r.name, r.xs, r.Optional(), v);
        RoomFor(out.0, c.(state := OutputEnd, t := out.1));
        ok := OutputSimpleOf(r, v);
        state := OutputEnd;
        b := out.0;
      }
      Advance(schema, c, b, Cfg(), old(w.Written()));
    }

    method StepComplex() returns (ok: bool)
      requires Valid() && state.OutputComplex?
      modifies this, w`ptr, w`bit, w.buf
      ensures ok && Valid() && Total() == old(Total()) && Work(Cfg()) < old(Work(Cfg()))
    {
      hide Remaining, StackOk, Work, EventBits, ShapedFields, Entries, ValidAt, WrittenAt, Turn;
      ghost var c := Cfg();
      ComplexEvent(schema, c);
      var f := stack[|stack| - 1];
      ghost var next := c.(state := OutputElement, code := 0, n := 0, row := schema.rows[f.row].index + 1, rest := f.queue[0].fields);
      ok := StepEvent(next);
      row, rest, state := schema.rows[f.row].index + 1, f.queue[0].fields, OutputElement;
      Advance(schema, c, EventBits(c.code, c.n), Cfg(), old(w.Written()));
    }

    method StepEndEvent() returns (ok: bool)
      requires Valid() && state.OutputEnd? && stack != []
      modifies this, w`ptr, w`bit, w.buf
      ensures ok ==> Valid() && Total() == old(Total()) && Work(Cfg()) < old(Work(Cfg()))
      ensures !ok ==> w.Valid() && old(Total()) == Failed(w.Written())
    {
      hide Rest, StackOk, Work, EventBits, ShapedFields, Entries, ValidAt, WrittenAt, Turn;
      ghost var c := Cfg();
      EndThen(schema, c);
      ok := OutputEvent();
      ok := StepEnd(c);
      if ok { Advance(schema, c, EventBits(c.code, c.n), Cfg(), old(w.Written())); }
    }

    method Step() returns (ok: bool)
      requires Valid() && (state.OutputEnd? ==> stack != [])
      modifies this, w`ptr, w`bit, w.buf
      ensures ok ==> Valid() && Total() == old(Total()) && Work(Cfg()) < old(Work(Cfg()))
      ensures !ok ==> w.Valid() && old(Total()) == Failed(w.Written())
    {
      hide Remaining, StackOk, Entries, ShapedFields, Work, EventBits, ValidAt, WrittenAt, Turn;
      match state {
        case OutputElement =>
          ghost var c := Cfg();
          ok := StepElement();
          assert w.Written() == old(w.Written()) + [];
          if ok { Advance(schema, c, [], Cfg(), old(w.Written())); }
        case OutputAttribute => ok := StepAttribute();
        case OutputAttrValue => ok := StepAttribute();
        case OutputSimple => ok := StepSimple();
        case OutputValue => ok := StepSimple();
        case OutputEnd => ok := StepEndEvent();
        case OutputComplex => ok := StepComplex();
      }
    }

    /** `output_doc` from its start state: writes the document, or stops at the first error. */
    method OutputDoc(node: Node, kind: nat) returns (ok: bool)
      requires WellFormed(schema)
      requires kind < schema.length ==> GlobalRow(schema, kind) && Shaped(schema, schema.rows[kind], node)
                                        && Room(|EncodeDoc(schema, kind, node).bits|)
      requires w.Valid() && tables == NO_TABLES
      modifies this, w`ptr, w`bit, w.buf
      ensures w.Valid()
      ensures kind >= schema.length ==> !ok && w.Written() == old(w.Written())
      ensures kind < schema.length ==>
                var e := EncodeDoc(schema, kind, node);
                ok == e.Done? && w.Written() == old(w.Written()) + e.bits && (ok ==> tables == e.t)
    {
      if kind >= schema.length { return false; }
      hide Remaining, Entries, ShapedFields, Work, EventBits, ValidAt, WrittenAt;
      stack, row, rest, code, n := [Frame(kind, [], [node], 0)], kind, [], kind, schema.length;
      state := if schema.rows[kind].simple then OutputSimple else OutputComplex;
      StartConfig(schema, node, kind);
      ghost var e := EncodeDoc(schema, kind, node).After(w.Written());
      while !(state.OutputEnd? && stack == [])
        invariant Valid() && Total() == e
        decreases Work(Cfg())
      {
        ok := Step();
        if !ok { return; }
      }
      Finished(schema, Cfg());
      ok := true;
    }
  }

  // ---- one turn of the machine ----

  lemma StartConfig(s: Schema, node: Node, kind: nat)
    requires WellFormed(s) && kind < s.length && GlobalRow(s, kind) && Shaped(s, s.rows[kind], node)
    ensures var row := s.rows[kind];
            var c := Config(ItemState(row), kind, kind, s.length, [], [Frame(kind, [], [node], 0)], NO_TABLES);
            ConfigOk(s, c) && Remaining(s, c) == EncodeDoc(s, kind, node)
  {
    hide EncodeNode, EventBits;
    var e := EncodeNode(s, s.rows[kind], node, NO_TABLES, MAX_STACK - 1);
    assert ShapedItems(s, s.rows[kind], [node]) by { assert [node][1..] == []; }
    assert kind + 1 < s.length ==> GlobalRow(s, kind + 1);
    var c := Config(ItemState(s.rows[kind]), kind, kind, s.length, [], [Frame(kind, [], [node], 0)], NO_TABLES);
    assert ConfigOk(s, c);
    assert Remaining(s, c) == Then(s, c.stack, e.After(EventBits(kind, s.length)));
    if e.Done? {
      var b := EventBits(kind, s.length) + e.bits;
      assert b + [] == b;
      assert Rest(s, c.stack, e.t).After(b) == Done(b, e.t);
    }
  }

  lemma Finished(s: Schema, c: Config)
    requires ConfigOk(s, c) && c.stack == []
    ensures Remaining(s, c) == Done([], c.t)
  {
  }

  /** Where the machine gives up in front of a row. */
  lemma ElementFails(s: Schema, c: Config)
    requires ConfigOk(s, c) && c.state.OutputElement?
    ensures c.rest != []
    ensures (!s.rows[c.row].attribute && |c.stack| == MAX_STACK) || (s.rows[c.row].Counted(|c.rest[0].items|) == 0 && s.rows[c.row].min > 0)
            ==> Remaining(s, c) == Failed([])
  {
    FailedThen(s, c.stack, []);
  }

  /** `c'` has just the bits `b` less to write than `c`, and less to do. */
  ghost predicate Turn(s: Schema, c: Config, b: seq<bool>, c': Config) {
    ConfigOk(s, c) && ConfigOk(s, c') && Remaining(s, c) == Remaining(s, c').After(b) && Work(c') < Work(c)
  }

  lemma Advance(s: Schema, c: Config, b: seq<bool>, c': Config, written: seq<bool>)
    requires Turn(s, c, b, c')
    ensures ConfigOk(s, c') && Work(c') < Work(c)
    ensures Remaining(s, c').After(written + b) == Remaining(s, c).After(written)
    ensures |written + b| + |Remaining(s, c').bits| == |written| + |Remaining(s, c).bits|
  {
    hide Remaining, ConfigOk, Work;
    AfterAfter(Remaining(s, c'), written, b);
  }

  /** The state after a row is done. */
  function NextState(s: Schema, row: nat): State
    requires row < |s.rows|
  {
    if s.rows[row].n > 0 then OutputElement else OutputEnd
  }

  lemma AfterNothing(e: Encoded)
    ensures e.After([]) == e
  {
    assert [] + e.bits == e.bits;
  }

  lemma ShapedEnd(s: Schema, r: nat, fields: seq<Field>)
    requires r < |s.rows| && ShapedFields(s, r, fields)
    ensures s.rows[r].n == 0 <==> fields == []
  {
  }

  /** The next row after one that is done, with the code and number of codes it starts with. */
  function NextRow(s: Schema, c: Config, code: nat, n: nat): Config
    requires c.row + 1 < |s.rows| && c.rest != []
  {
    c.(row := c.row + 1, code := code, n := n, rest := c.rest[1..], state := NextState(s, c.row + 1))
  }

  lemma NextRowRemaining(s: Schema, c: Config)
    requires ConfigOk(s, c) && c.stack != [] && InType(s, c.row) && ShapedFields(s, c.row, c.rest) && c.state == NextState(s, c.row)
    ensures Remaining(s, c) == Then(s, c.stack, EncodeFields(s, c.row, c.code, c.n, c.rest, c.t, MAX_STACK - |c.stack|))
  {
    hide Then, EventBits;
    ShapedEnd(s, c.row, c.rest);
  }

  lemma SkippedRow(s: Schema, r: nat, code: nat, n: nat, rest: seq<Field>, t: Tables, depth: nat)
    requires WellFormed(s) && InType(s, r) && s.rows[r].n > 0 && ShapedFields(s, r, rest) && (s.rows[r].attribute || depth > 0)
    requires rest != [] ==> s.rows[r].Counted(|rest[0].items|) == 0 && s.rows[r].min == 0
    ensures rest != [] && ShapedFields(s, r + 1, rest[1..])
    ensures EncodeFields(s, r, code, n, rest, t, depth) == EncodeFields(s, r + 1, code + 1, if n == 0 then s.rows[r].n else n, rest[1..], t, depth)
  {
    hide EncodePresent, EventBits, Shaped, LeafFits;
  }

  lemma ElementRemaining(s: Schema, c: Config)
    requires ConfigOk(s, c) && c.stack != [] && c.state.OutputElement?
    ensures InType(s, c.row) && ShapedFields(s, c.row, c.rest)
    ensures Remaining(s, c) == Then(s, c.stack, EncodeFields(s, c.row, c.code, c.n, c.rest, c.t, MAX_STACK - |c.stack|))
  {
    hide Then, EventBits;
  }

  /** A row is skipped. */
  lemma SkipTurn(s: Schema, c: Config)
    requires ConfigOk(s, c) && c.state.OutputElement? && s.rows[c.row].Counted(|c.rest[0].items|) == 0 && s.rows[c.row].min == 0
    requires s.rows[c.row].attribute || |c.stack| < MAX_STACK
    ensures InType(s, c.row + 1)
    ensures Turn(s, c, [], NextRow(s, c, c.code + 1, if c.n == 0 then s.rows[c.row].n else c.n))
  {
    hide StackOk, Rest, Entries, EventBits, StackWork, Shaped, LeafFits, ElementRow;
    RowCodes(s, c.row);
    var c' := NextRow(s, c, c.code + 1, if c.n == 0 then s.rows[c.row].n else c.n);
    SkippedRow(s, c.row, c.code, c.n, c.rest, c.t, MAX_STACK - |c.stack|);
    ElementRemaining(s, c);
    assert ConfigOk(s, c') && Work(c') < Work(c);
    NextRowRemaining(s, c');
    hide *;
    AfterNothing(Remaining(s, c'));
    TurnIs(s, c, [], c');
  }

  lemma TurnIs(s: Schema, c: Config, b: seq<bool>, c': Config)
    requires ConfigOk(s, c) && ConfigOk(s, c') && Remaining(s, c) == Remaining(s, c').After(b) && Work(c') < Work(c)
    ensures Turn(s, c, b, c')
  {
  }

  lemma AttributeTurn(s: Schema, c: Config)
    requires ConfigOk(s, c) && c.state.OutputElement? && s.rows[c.row].Counted(|c.rest[0].items|) > 0 && s.rows[c.row].attribute
    ensures Turn(s, c, [], c.(state := OutputAttribute, n := if c.n == 0 then s.rows[c.row].n else c.n))
  {
    hide StackOk, Rest, Gap, EventBits, StackWork, EncodePresent, Then;
    RowCodes(s, c.row);
    var c' := c.(state := OutputAttribute, n := if c.n == 0 then s.rows[c.row].n else c.n);
    assert EncodeFields(s, c.row, c.code, c.n, c.rest, c.t, MAX_STACK - |c.stack|)
           == EncodePresent(s, c.row, c.rest, c.t, MAX_STACK - |c.stack|).After(EventBits(c'.code, c'.n));
    AfterNothing(Remaining(s, c'));
  }

  /** The state in which an occurrence of a row is written. */
  function ItemState(row: Row): State { if row.simple then OutputSimple else OutputComplex }

  lemma PushWork(p: seq<Frame>, f: Frame)
    requires f.rest != [] && f.queue != [] && f.queue == f.rest[0].items
    ensures StackWork(p + [f]) + NodeWork(f.queue[0]) + 4 == FieldsWork(f.rest) + StackWork(p)
  {
    assert (p + [f])[..|p|] == p;
  }

  lemma PushTurn(s: Schema, c: Config)
    requires ConfigOk(s, c) && c.state.OutputElement? && s.rows[c.row].Counted(|c.rest[0].items|) > 0 && !s.rows[c.row].attribute && |c.stack| < MAX_STACK
    ensures Turn(s, c, [], c.(state := ItemState(s.rows[c.row]), n := if c.n == 0 then s.rows[c.row].Codes(0) else c.n,
                              stack := c.stack + [Frame(c.row, c.rest, c.rest[0].items, 0)]))
  {
    hide Rest, Gap, EventBits, EncodeNode, Then, Shaped, Run, FieldsWork, StackWork, NodeWork, Entries;
    RowCodes(s, c.row);
    RowKind(s, c.row);
    var f, row, depth := Frame(c.row, c.rest, c.rest[0].items, 0), s.rows[c.row], MAX_STACK - |c.stack|;
    var n := if c.n == 0 then row.Codes(0) else c.n;
    var c' := c.(state := ItemState(row), n := n, stack := c.stack + [f]);
    Pushed(s, c.stack, f);
    var p := EncodePresent(s, c.row, c.rest, c.t, depth);
    var e := EncodeNode(s, row, f.queue[0], c.t, depth - 1);
    calc {
      Remaining(s, c);
      Then(s, c.stack, p.After(EventBits(c.code, n)));
      { ThenAfter(s, c.stack, p, EventBits(c.code, n)); }
      Then(s, c.stack, p).After(EventBits(c.code, n));
      { RunStart(s, c.stack, c.row, c.rest, c.t); RunHead(s, c.stack, f, c.t); }
      Then(s, c.stack + [f], e).After(EventBits(c.code, n));
      { ThenAfter(s, c.stack + [f], e, EventBits(c.code, n)); }
      Then(s, c.stack + [f], e.After(EventBits(c.code, n)));
      Remaining(s, c');
    }
    PushWork(c.stack, f);
    AfterNothing(Remaining(s, c'));
  }

  // events

  lemma AttributeEvent(s: Schema, c: Config)
    requires ConfigOk(s, c) && c.state.OutputAttribute?
    ensures Turn(s, c, EventBits(c.code, c.n), c.(state := OutputAttrValue, code := 0, n := 0))
  {
    hide StackOk, Rest, Entries, EventBits, StackWork, EncodePresent, Then;
    ThenAfter(s, c.stack, EncodePresent(s, c.row, c.rest, c.t, MAX_STACK - |c.stack|), EventBits(c.code, c.n));
  }

  lemma SimpleEvent(s: Schema, c: Config)
    requires ConfigOk(s, c) && c.state.OutputSimple?
    ensures Turn(s, c, EventBits(c.code, c.n), c.(state := OutputValue, code := 0, n := 0))
  {
    hide Rest, EventBits, StackWork, EncodeNode, Then;
    TopItem(s, c.stack);
    ThenAfter(s, c.stack, EncodeNode(s, s.rows[Top(c).row], Top(c).queue[0], c.t, MAX_STACK - |c.stack|), EventBits(c.code, c.n));
  }

  lemma ComplexEvent(s: Schema, c: Config)
    requires ConfigOk(s, c) && c.state.OutputComplex?
    ensures Top(c).queue != [] && Top(c).queue[0].Obj? && Top(c).row < |s.rows|
    ensures Turn(s, c, EventBits(c.code, c.n),
                 c.(state := OutputElement, code := 0, n := 0, row := s.rows[Top(c).row].index + 1, rest := Top(c).queue[0].fields))
  {
    hide Rest, EventBits, StackWork, Then, EncodeFields, StackOk;
    TopItem(s, c.stack);
    var node := Top(c).queue[0];
    ThenAfter(s, c.stack, EncodeNode(s, s.rows[Top(c).row], node, c.t, MAX_STACK - |c.stack|), EventBits(c.code, c.n));
  }

  // values

  lemma AttributeValueTurn(s: Schema, c: Config)
    requires ConfigOk(s, c) && c.state.OutputAttrValue?
    ensures c.row + 1 < |s.rows| && c.rest != [] && c.rest[0].items != [] && LeafFits(s.rows[c.row], c.rest[0].items[0])
    ensures var row := s.rows[c.row];
            var out := ValueBits(c.t, row.name, row.xs, row.Optional(), c.rest[0].items[0].v);
            Turn(s, c, out.0, NextRow(s, c, 0, 0).(t := out.1))
  {
    hide Rest, EventBits, StackWork, Then, StackOk, ValueBits, Fits;
    RowCodes(s, c.row);
    var row, depth := s.rows[c.row], MAX_STACK - |c.stack|;
    var (b, t') := ValueBits(c.t, row.name, row.xs, row.Optional(), c.rest[0].items[0].v);
    var c' := NextRow(s, c, 0, 0).(t := t');
    NextRowRemaining(s, c');
    ThenAfter(s, c.stack, EncodeFields(s, c'.row, 0, 0, c'.rest, t', depth), b);
    assert FieldsWork(c.rest) == 2 + ItemsWork(c.rest[0].items) + FieldsWork(c'.rest);
    assert ItemsWork(c.rest[0].items) >= 4;
  }

  lemma SimpleValueTurn(s: Schema, c: Config)
    requires ConfigOk(s, c) && c.state.OutputValue?
    ensures Top(c).queue != [] && Top(c).row < |s.rows| && LeafFits(s.rows[Top(c).row], Top(c).queue[0])
    ensures var row := s.rows[Top(c).row];
            var out := SimpleBits(c.t, row.name, row.xs, row.Optional(), Top(c).queue[0].v);
            Turn(s, c, out.0, c.(state := OutputEnd, t := out.1))
  {
    hide Rest, EventBits, StackWork, Then, StackOk, SimpleBits, Fits;
    TopItem(s, c.stack);
    var row, depth := s.rows[Top(c).row], MAX_STACK - |c.stack|;
    var (b, t') := SimpleBits(c.t, row.name, row.xs, row.Optional(), Top(c).queue[0].v);
    ThenAfter(s, c.stack, Done(EventBits(0, 0), t'), b);
  }

  // the end of an occurrence

  /** `f` with its current occurrence done. */
  function Popped(f: Frame): Frame
    requires f.queue != []
  {
    f.(queue := f.queue[1..], count := f.count + 1)
  }

  lemma NextOccurrence(s: Schema, c: Config)
    requires ConfigOk(s, c) && c.state.OutputEnd? && c.stack != [] && |Top(c).queue| > 1
    ensures Top(c).row < |s.rows|
    ensures var f := Popped(Top(c));
            Turn(s, c, EventBits(c.code, c.n),
                 c.(stack := c.stack[..|c.stack| - 1] + [f], code := 0, n := s.rows[f.row].Codes(f.count), state := ItemState(s.rows[f.row])))
  {
    hide EventBits, EncodeNode, Then, Shaped, Entries, ShapedFields, Rest, Run, NodeWork, ItemsWork, FieldsWork, EncodeRest, StackOk, StackWork;
    var p, f0 := c.stack[..|c.stack| - 1], Top(c);
    assert c.stack == p + [f0];
    NotRoot(s, c.stack);
    var f, row, depth := Popped(f0), s.rows[f0.row], MAX_STACK - |p|;
    RunNext(s, p, f0, c.t);
    RunHead(s, p, f, c.t);
    Pushed(s, p, f);
    ThenAfter(s, p + [f], EncodeNode(s, row, f.queue[0], c.t, depth - 1), EventBits(0, row.Codes(f.count)));
    OccurrenceWork(p, f0);
    RowCodes(s, f0.row);
    EndThen(s, c);
  }

  lemma NotRoot(s: Schema, stack: seq<Frame>)
    requires StackOk(s, stack) && stack != [] && |stack[|stack| - 1].queue| > 1
    ensures |stack| > 1 && StackOk(s, stack[..|stack| - 1]) && FrameOk(s, stack[|stack| - 1])
  {
  }

  lemma OccurrenceWork(p: seq<Frame>, f: Frame)
    requires |f.queue| > 1
    ensures StackWork(p + [f]) == StackWork(p + [Popped(f)]) + 4 + NodeWork(f.queue[1])
  {
    hide NodeWork, FieldsWork;
    assert (p + [f])[..|p|] == p && (p + [Popped(f)])[..|p|] == p;
    assert ItemsWork(f.queue[1..]) == 4 + NodeWork(f.queue[1]) + ItemsWork(f.queue[1..][1..]);
  }

  lemma EndThen(s: Schema, c: Config)
    requires ConfigOk(s, c) && c.state.OutputEnd? && c.stack != []
    ensures Remaining(s, c) == Rest(s, c.stack, c.t).After(EventBits(c.code, c.n))
  {
    hide EventBits, Rest;
  }

  lemma RootDone(s: Schema, c: Config)
    requires ConfigOk(s, c) && c.state.OutputEnd? && |c.stack| == 1
    ensures Top(c).queue != [] && |Top(c).queue| == 1 && Top(c).row + 1 < |s.rows|
    ensures s.rows[Top(c).row].max == 1 && Top(c).count == 0 && !s.rows[Top(c).row].unbounded
    ensures Turn(s, c, EventBits(c.code, c.n),
                 c.(stack := [], row := Top(c).row + 1, code := 0, n := 0, rest := [], state := NextState(s, Top(c).row + 1)))
  {
    hide EventBits;
    EndThen(s, c);
    assert StackWork([]) == 0;
  }

  /** The last occurrence is done: on to the next row of the parent, if there were enough. */
  lemma LastOccurrence(s: Schema, c: Config)
    requires ConfigOk(s, c) && c.state.OutputEnd? && |c.stack| > 1 && |Top(c).queue| == 1
    ensures var f := Top(c); InType(s, f.row) && InType(s, f.row + 1) && f.rest != []
    ensures var f := Popped(Top(c));
            var row := s.rows[f.row];
            var up := c.(stack := c.stack[..|c.stack| - 1], row := f.row, rest := f.rest);
            if !row.unbounded && f.count == row.max then Turn(s, c, EventBits(c.code, c.n), NextRow(s, up, 0, 0))
            else if f.count < row.min then Remaining(s, c) == Failed(EventBits(c.code, c.n))
            else Turn(s, c, EventBits(c.code, c.n), NextRow(s, up, 1, row.n))
  {
    hide EventBits, Shaped, Entries, EncodeFields, Then, FieldsWork, ItemsWork;
    var p, f := c.stack[..|c.stack| - 1], Top(c);
    var e := EncodeRest(s, f.row, |f.rest[0].items|, f.rest, c.t, MAX_STACK - |p|);
    AfterNothing(Then(s, p, e));
    EndThen(s, c);
    assert Rest(s, c.stack, c.t) == Then(s, p, e);
    LastStep(s, c);
    if e.Failed? { FailedThen(s, p, EventBits(c.code, c.n)); }
  }

  lemma FailedThen(s: Schema, stack: seq<Frame>, b: seq<bool>)
    requires StackOk(s, stack) && |stack| <= MAX_STACK
    ensures Then(s, stack, Failed([])) == Failed([]) && Failed([]).After(b) == Failed(b)
  {
    assert b + [] == b;
  }

  lemma LastStep(s: Schema, c: Config)
    requires ConfigOk(s, c) && c.state.OutputEnd? && |c.stack| > 1 && |Top(c).queue| == 1
    ensures var f := Top(c); InType(s, f.row) && InType(s, f.row + 1) && f.rest != []
    ensures var f, p := Popped(Top(c)), c.stack[..|c.stack| - 1];
            var row := s.rows[f.row];
            var up := c.(stack := p, row := f.row, rest := f.rest);
            var e := EncodeRest(s, f.row, |f.rest[0].items|, f.rest, c.t, MAX_STACK - |p|);
            if !row.unbounded && f.count == row.max then StepsTo(s, c, NextRow(s, up, 0, 0), e)
            else if f.count < row.min then e == Failed([])
            else StepsTo(s, c, NextRow(s, up, 1, row.n), e)
  {
    hide EventBits, Shaped, Entries, EncodeFields, Then, FieldsWork, ItemsWork;
    var p, f := c.stack[..|c.stack| - 1], Top(c);
    RowCodes(s, f.row);
    assert TypeRow(s, f.row);
    assert StackWork(c.stack) > FieldsWork(f.rest[1..]) + StackWork(p) + 1;
    ShapedEnd(s, f.row + 1, f.rest[1..]);
    var row, up := s.rows[f.row], c.(stack := p, row := f.row, rest := f.rest);
    if !row.unbounded && f.count + 1 == row.max {
      NextRowRemaining(s, NextRow(s, up, 0, 0));
    } else if f.count + 1 >= row.min {
      NextRowRemaining(s, NextRow(s, up, 1, row.n));
    }
  }

  ghost predicate StepsTo(s: Schema, c: Config, c': Config, e: Encoded) {
    ConfigOk(s, c') && Remaining(s, c') == Then(s, c'.stack, e) && Work(c') < Work(c)
  }

  lemma {:induction false} ByteBitsLength(b: seq<byte>)
    ensures |ByteBits(b)| == 8 * |b|
  {
    if b != [] { ByteBitsLength(b[1..]); }
  }

  lemma {:induction false} FirstIndex(t: seq<Str>, s: Str, i: nat)
    requires i < |t| && t[i] == s && s !in t[..i]
    ensures IndexOf(t, s) == i
    decreases |t|
  {
    var init := t[..|t| - 1];
    if i < |t| - 1 {
      assert init[..i] == t[..i];
      FirstIndex(init, s, i);
    }
  }
}
