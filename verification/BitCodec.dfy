/**
 A run of writes at the bit level and the run of reads that matches it
 (core/exi_output.c and core/exi_parse.c): from any bit offset, the reads give back
 what was written and stop where the writer stopped.
 */
module BitCodec {
  import opened Common
  import opened Words
  import opened BitStream

  /** One call of `output_bit`, `output_byte` or `output_bits`. */
  datatype Item = Bit(b: bool) | Byte(x: byte) | Bits(v: nat, n: nat) {
    predicate Fits() { Bits? ==> n <= 24 && v < Pow2(n) }

    /** The read that matches: everything but the value. */
    function Width(): Width {
      match this
      case Bit(_) => OneBit
      case Byte(_) => OneByte
      case Bits(_, n) => Several(n)
    }

    function Image(): seq<bool> {
      match this
      case Bit(b) => [b]
      case Byte(x) => NBits(x, 8)
      case Bits(v, n) => NBits(v, n)
    }
  }

  datatype Width = OneBit | OneByte | Several(n: nat) {
    function Size(): nat {
      match this
      case OneBit => 1
      case OneByte => 8
      case Several(n) => n
    }
  }

  predicate AllFit(items: seq<Item>) { forall i :: 0 <= i < |items| ==> items[i].Fits() }

  predicate Narrow(widths: seq<Width>) { forall i :: 0 <= i < |widths| ==> widths[i].Size() <= 24 }

  function Widths(items: seq<Item>): (r: seq<Width>)
    ensures |r| == |items|
  {
    seq(|items|, i requires 0 <= i < |items| => items[i].Width())
  }

  /** What a run of writes puts on the stream. */
  function Image(items: seq<Item>): seq<bool> {
    if items == [] then [] else items[0].Image() + Image(items[1..])
  }

  function Total(widths: seq<Width>): nat {
    if widths == [] then 0 else widths[0].Size() + Total(widths[1..])
  }

  /** One read: the item at `pos`, `None` when the stream is too short. */
  function ReadItem(bits: seq<bool>, pos: nat, w: Width): Option<Item> {
    if pos + w.Size() > |bits| then None
    else match w
      case OneBit => Some(Bit(bits[pos]))
      case OneByte => ByteRead(bits, pos); Some(Byte(Peek(bits, pos, 8)))
      case Several(n) => Some(Bits(Peek(bits, pos, n), n))
  }

  /** A run of reads, cut short when the stream is. */
  function ReadItems(bits: seq<bool>, pos: nat, widths: seq<Width>): Option<seq<Item>>
    decreases |widths|
  {
    if widths == [] then Some([])
    else match ReadItem(bits, pos, widths[0])
      case None => None
      case Some(it) =>
        match ReadItems(bits, pos + widths[0].Size(), widths[1..])
        case None => None
        case Some(rest) => Some([it] + rest)
  }

  lemma ByteRead(bits: seq<bool>, pos: nat)
    requires pos + 8 <= |bits|
    ensures Peek(bits, pos, 8) < 256
  {
    NBitsVal(bits[pos..pos + 8]);
    Pow2Values();
  }

  /** A read gives back an item exactly when that item is what stands there. */
  lemma ItemRoundTrip(bits: seq<bool>, pos: nat, it: Item)
    requires it.Fits()
    ensures |it.Image()| == it.Width().Size()
    ensures ReadItem(bits, pos, it.Width()) == Some(it) <==> At(bits, pos, it.Image())
  {
    var n := it.Width().Size();
    if pos + n <= |bits| {
      NBitsVal(bits[pos..pos + n]);
      match it
      case Bit(b) => AtBit(bits, pos, b);
      case Byte(x) => if At(bits, pos, NBits(x, 8)) { PeekByteAt(bits, pos, x); }
      case Bits(v, n) => if At(bits, pos, NBits(v, n)) { PeekAt(bits, pos, v, n); }
    }
  }

  lemma FitNarrow(items: seq<Item>)
    requires AllFit(items)
    ensures Narrow(Widths(items))
  {
    forall i | 0 <= i < |items| ensures Widths(items)[i].Size() <= 24 {
      assert items[i].Fits();
    }
  }

  lemma {:induction false} ImageSize(items: seq<Item>)
    ensures |Image(items)| == Total(Widths(items))
    decreases |items|
  {
    if items == [] {
      assert Widths(items) == [];
    } else {
      assert Widths(items)[1..] == Widths(items[1..]);
      ImageSize(items[1..]);
    }
  }

  lemma Bounds(bits: seq<bool>, pos: nat, w: seq<bool>)
    requires At(bits, pos, w)
    ensures pos + |w| <= |bits|
  {
  }

  /** The matching reads give back a run of writes exactly when its bits stand there, and
      they take up as many bits as it does. */
  lemma {:induction false} ItemsRoundTrip(bits: seq<bool>, pos: nat, items: seq<Item>)
    requires AllFit(items) && pos <= |bits|
    ensures ReadItems(bits, pos, Widths(items)) == Some(items) <==> At(bits, pos, Image(items))
    decreases |items|
  {
    hide NBits, ReadItem, Pow2;
    if items == [] {
      assert Widths(items) == [];
    } else {
      hide At;
      var it, rest := items[0], items[1..];
      assert Widths(items)[1..] == Widths(rest);
      ItemRoundTrip(bits, pos, it);
      AtConcat(bits, pos, it.Image(), Image(rest));
      if At(bits, pos, it.Image()) {
        Bounds(bits, pos, it.Image());
        ItemsRoundTrip(bits, pos + |it.Image()|, rest);
      }
      assert items == [it] + rest;
    }
  }

  method WriteOne(w: BitWriter, it: Item)
    requires w.Valid() && it.Fits() && w.ptr + 1 < w.buf.Length && w.ptr + (w.bit + |it.Image()|) / 8 < w.buf.Length
    modifies w`ptr, w`bit, w.buf
    ensures w.Valid() && w.Written() == old(w.Written()) + it.Image()
  {
    hide NBits, Pow2, ValidAt, WrittenAt;
    match it {
      case Bit(b) => w.OutputBit(b);
      case Byte(x) => w.OutputByte(x);
      case Bits(v, n) => w.OutputBits(v, n);
    }
  }

  lemma ImageFrom(items: seq<Item>, i: nat)
    requires i < |items|
    ensures Image(items[i..]) == items[i].Image() + Image(items[i + 1..])
  {
    assert items[i..][0] == items[i] && items[i..][1..] == items[i + 1..];
  }

  /** Carries out a run of writes. */
  method WriteAll(w: BitWriter, items: seq<Item>)
    requires w.Valid() && AllFit(items) && 8 * w.ptr + w.bit + |Image(items)| + 8 < 8 * w.buf.Length
    modifies w`ptr, w`bit, w.buf
    ensures w.Valid() && w.Written() == old(w.Written()) + Image(items)
  {
    hide ValidAt, WrittenAt;
    var i := 0;
    assert items[0..] == items;
    while i < |items|
      invariant 0 <= i <= |items| && w.Valid()
      invariant w.Written() + Image(items[i..]) == old(w.Written()) + Image(items)
    {
      hide Image;
      ImageFrom(items, i);
      Room(w, items[i..]);
      ghost var before, rest := w.Written(), Image(items[i + 1..]);
      assert before + (items[i].Image() + rest) == before + items[i].Image() + rest;
      WriteOne(w, items[i]);
      i := i + 1;
    }
    assert Image(items[i..]) == [];
  }

  /** What is still to be written fits. */
  lemma Room(w: BitWriter, items: seq<Item>)
    requires w.Valid() && items != [] && |w.Written()| + |Image(items)| + 8 < 8 * w.buf.Length
    ensures w.ptr + 1 < w.buf.Length && w.ptr + (w.bit + |items[0].Image()|) / 8 < w.buf.Length
  {
  }

  method ReadOne(r: BitReader, w: Width) returns (it: Item)
    requires r.Valid() && !r.truncated && w.Size() <= 24
    modifies r`ptr, r`bit, r`truncated
    ensures r.Valid()
    ensures ReadItem(r.Input(), old(r.Pos()), w) == if r.truncated then None else Some(it)
    ensures !r.truncated ==> r.Pos() == old(r.Pos()) + w.Size()
  {
    hide Peek;
    match w {
      case OneBit => var b := r.ParseBit(); it := Bit(b);
      case OneByte => var x := r.ParseByte(); it := Byte(x);
      case Several(n) => var v := r.ParseBits(n); it := Bits(v, n);
    }
  }

  /** Carries out a run of reads, up to the first that the stream is too short for. */
  method ReadAll(r: BitReader, widths: seq<Width>) returns (items: seq<Item>)
    requires r.Valid() && !r.truncated && Narrow(widths)
    modifies r`ptr, r`bit, r`truncated
    ensures r.Valid() && (r.truncated <==> ReadItems(r.Input(), old(r.Pos()), widths).None?)
    ensures !r.truncated ==> ReadItems(r.Input(), old(r.Pos()), widths) == Some(items)
    ensures !r.truncated ==> r.Pos() == old(r.Pos()) + Total(widths)
  {
    hide Peek, ReadItem;
    items := [];
    var i := 0;
    ghost var d := ReadItems(r.Input(), r.Pos(), widths);
    assert widths[0..] == widths;
    OntoNothing(d);
    while i < |widths|
      invariant 0 <= i <= |widths| && r.Valid() && !r.truncated
      invariant r.Pos() + Total(widths[i..]) == old(r.Pos()) + Total(widths)
      invariant d == Onto(items, ReadItems(r.Input(), r.Pos(), widths[i..]))
    {
      assert widths[i..][0] == widths[i] && widths[i..][1..] == widths[i + 1..];
      var it := ReadOne(r, widths[i]);
      if r.truncated { return; }
      OntoOne(items, it, ReadItems(r.Input(), r.Pos(), widths[i + 1..]));
      items := items + [it];
      i := i + 1;
    }
    assert widths[i..] == [] && items + [] == items;
  }

  /** Items read so far in front of the others. */
  ghost function Onto(items: seq<Item>, d: Option<seq<Item>>): Option<seq<Item>> {
    if d.Some? then Some(items + d.value) else None
  }

  lemma OntoNothing(d: Option<seq<Item>>)
    ensures Onto([], d) == d
  {
    if d.Some? { assert [] + d.value == d.value; }
  }

  lemma OntoOne(items: seq<Item>, it: Item, d: Option<seq<Item>>)
    ensures Onto(items, Onto([it], d)) == Onto(items + [it], d)
  {
    if d.Some? { assert items + ([it] + d.value) == items + [it] + d.value; }
  }

  /** Writes items behind whatever the writer holds, then reads them from that bit offset:
      they come back, and the reader stops at the byte and bit where the writer stopped. */
  method WriteAndRead(w: BitWriter, items: seq<Item>) returns (back: seq<Item>, r: BitReader)
    requires w.Valid() && AllFit(items) && 8 * w.ptr + w.bit + |Image(items)| + 16 < 8 * w.buf.Length
    modifies w`ptr, w`bit, w.buf
    ensures w.Valid() && w.Written() == old(w.Written()) + Image(items) && back == items
    ensures r.Valid() && !r.truncated && r.ptr == w.ptr && r.bit == w.bit
  {
    hide NBits, Pow2, ValidAt, WrittenAt, At, Image, ReadItems, AllFit, Narrow, Total, StreamBits;
    var ptr, bit := w.ptr, w.bit;
    ghost var before := w.Written();
    InRange(w.buf[..], ptr, bit);
    WriteAll(w, items);
    var end := if w.bit > 0 then w.ptr + 1 else w.ptr;
    InRange(w.buf[..], w.ptr, w.bit);
    assert |w.Written()| == 8 * w.ptr + w.bit;
    WrittenIsRead(w.buf[..], w.ptr, w.bit, end);
    assert w.buf[..][..end] == w.buf[..end];
    r := new BitReader(w.buf, end);
    r.ptr, r.bit := ptr, bit;
    AtConcat(r.Input(), 0, before, Image(items));
    Bounds(r.Input(), |before|, Image(items));
    ImageSize(items);
    ItemsRoundTrip(r.Input(), 8 * ptr + bit, items);
    FitNarrow(items);
    back := ReadAll(r, Widths(items));
  }
}
