/**
 EXI values as bit strings: the value codecs of core/exi_output.c and
 core/exi_parse.c, with the string tables both ends grow (sections 7.1 and 7.3.3
 of the Efficient XML Interchange Format 1.0).

 `...Bits` says what the writer emits, `Read...` and `Decode...` what the reader
 makes of any input. `Undefined` stands for the inputs on which the C reader
 shifts an `int` past its sign bit or runs over a string buffer.
 */
module ExiValue {
  import opened Words
  import opened BitStream

  type Str = seq<nat> // code points
  type Name = nat     // index into the table of qualified names

  datatype XsType =
    | XsString(size: nat) | XsBoolean | XsHexBinary(size: nat) | XsAnyUri
    | XsLong | XsInt | XsShort | XsByte | XsULong | XsUInt | XsUShort | XsUByte
  {
    predicate Pointer() { XsAnyUri? || this == XsString(0) }
    predicate Textual() { XsAnyUri? || XsString? }
  }

  /** `Absent` is the null pointer the reader leaves for an empty string element. */
  datatype Value = Text(s: Str) | Flag(b: bool) | Binary(data: seq<byte>) | Number(x: int) | Absent

  /** The global string table and the local one of each name. */
  datatype Tables = Tables(global: seq<Str>, local: map<Name, seq<Str>>) {
    function Local(name: Name): seq<Str> { if name in local then local[name] else [] }
    function AddLocal(name: Name, s: Str): Tables { this.(local := local[name := Local(name) + [s]]) }
    function AddGlobal(s: Str): Tables { this.(global := global + [s]) }
  }

  /** A C string holds no zero; its code points are below `limit`. */
  predicate Codes(s: Str, limit: nat) {
    forall i :: 0 <= i < |s| ==> 0 < s[i] < limit
  }

  /** First index of a string in a table, -1 if there is none. */
  function IndexOf(t: seq<Str>, s: Str): (i: int)
    ensures -1 <= i < |t|
    ensures i >= 0 ==> t[i] == s && s !in t[..i]
    ensures i < 0 ==> s !in t
  {
    if t == [] then -1
    else
      var i := IndexOf(t[..|t| - 1], s);
      if i >= 0 then i else if t[|t| - 1] == s then |t| - 1 else -1
  }

  // ---- what the writer emits ----

  /** Seven bits a byte, least significant group first, high bit set on all but the last. */
  function UintBits(x: nat): seq<bool> {
    if x < 128 then NBits(x, 8) else NBits(128 + x % 128, 8) + UintBits(x / 128)
  }

  function IntegerBits(x: int): seq<bool> {
    [x < 0] + UintBits(if x < 0 then -x else x)
  }

  function ByteBits(b: seq<byte>): seq<bool> {
    if b == [] then [] else NBits(b[0], 8) + ByteBits(b[1..])
  }

  /** Binary data without its leading zero bytes; at least one byte is kept. */
  function Strip(b: seq<byte>): (r: seq<byte>)
    ensures |r| <= |b|
    ensures b == seq(|b| - |r|, _ => 0) + r
    ensures |r| > 1 ==> r[0] != 0
    ensures |b| > 0 ==> |r| > 0
  {
    if |b| > 1 && b[0] == 0 then Strip(b[1..]) else b
  }

  function BinaryBits(b: seq<byte>): seq<bool> {
    UintBits(|Strip(b)|) + ByteBits(Strip(b))
  }

  function CodeBits(s: Str): seq<bool> {
    if s == [] then [] else UintBits(s[0]) + CodeBits(s[1..])
  }

  function LiteralBits(s: Str): seq<bool> {
    UintBits(|s| + 2) + CodeBits(s)
  }

  /** A hit in the local table, a hit in the global one, or a literal. */
  function StringBits(t: Tables, name: Name, s: Str): (seq<bool>, Tables) {
    var i := IndexOf(t.Local(name), s);
    if i >= 0 then (UintBits(0) + NBits(i, BitCount(|t.Local(name)| - 1)), t)
    else
      var t' := t.AddLocal(name, s);
      var j := IndexOf(t.global, s);
      if j >= 0 then (UintBits(1) + NBits(j, BitCount(|t.global| - 1)), t')
      else (LiteralBits(s), t'.AddGlobal(s))
  }

  /** The values a C field of this type can hold. */
  predicate Fits(xs: XsType, v: Value) {
    match xs
    case XsString(n) => v.Text? && Codes(v.s, 0x11_0000) && (n > 0 ==> StringSize(v.s) < n)
    case XsAnyUri => v.Text? && Codes(v.s, 0x11_0000)
    case XsBoolean => v.Flag?
    case XsHexBinary(n) => v.Binary? && |v.data| == n
    case XsLong => v.Number? && -0x8000_0000_0000_0000 <= v.x < 0x8000_0000_0000_0000
    case XsInt => v.Number? && -0x8000_0000 <= v.x < 0x8000_0000
    case XsShort => v.Number? && -0x8000 <= v.x < 0x8000
    case XsByte => v.Number? && -128 <= v.x < 128
    case XsULong => v.Number? && 0 <= v.x < 0x1_0000_0000_0000_0000
    case XsUInt => v.Number? && 0 <= v.x < 0x1_0000_0000
    case XsUShort => v.Number? && 0 <= v.x < 0x1_0000
    case XsUByte => v.Number? && 0 <= v.x < 256
  }

  /** `optional` rows of type Boolean show their presence bit, not their value. */
  function ValueBits(t: Tables, name: Name, xs: XsType, optional: bool, v: Value): (seq<bool>, Tables)
    requires Fits(xs, v)
  {
    match xs
    case XsString(_) => StringBits(t, name, v.s)
    case XsAnyUri => StringBits(t, name, v.s)
    case XsBoolean => ([optional || v.b], t)
    case XsHexBinary(_) => (BinaryBits(v.data), t)
    case XsLong => (IntegerBits(v.x), t)
    case XsInt => (IntegerBits(v.x), t)
    case XsShort => (IntegerBits(v.x), t)
    case XsByte => (NBits(v.x + 128, 8), t)
    case XsULong => (UintBits(v.x), t)
    case XsUInt => (UintBits(v.x), t)
    case XsUShort => (UintBits(v.x), t)
    case XsUByte => (NBits(v.x, 8), t)
  }

  /** Content of a simple element: an empty string is an immediate end of element. */
  function SimpleBits(t: Tables, name: Name, xs: XsType, optional: bool, v: Value): (seq<bool>, Tables)
    requires Fits(xs, v)
  {
    if xs.Textual() && v.s == [] then (NBits(4, 3), t)
    else
      var (b, t') := ValueBits(t, name, xs, optional, v);
      ([false] + b, t')
  }

  // ---- what the reader does ----

  datatype Failure = Truncated | Invalid | Undefined

  /** `short` records that the input ran out; the reader remembers it and goes on. */
  datatype Parse<+T> = Ok(value: T, pos: nat, short: bool) | Fail(why: Failure)

  /** The loop of `parse_uint`, which shifts in `int`. */
  function ReadUint(bits: seq<bool>, pos: nat, n: nat, acc: nat): (r: Parse<nat>)
    ensures r.Ok? ==> pos <= r.pos && (!r.short ==> pos + 8 <= r.pos <= |bits|) && (pos <= |bits| ==> r.pos <= |bits|)
    ensures r.Ok? && r.short ==> r.pos + 8 > |bits|
    decreases |bits| - pos
  {
    if n >= 32 then Fail(Undefined)
    else if pos + 8 > |bits| then Ok(acc, pos, true)
    else
      var b := Peek(bits, pos, 8);
      if Shl(b % 128, n) >= 0x8000_0000 then Fail(Undefined)
      else
        var x := acc + Shl(b % 128, n);
        if b >= 128 && n + 7 < 70 then ReadUint(bits, pos + 8, n + 7, x) else Ok(x, pos + 8, false)
  }

  function DecodeUint(bits: seq<bool>, pos: nat): Parse<nat> {
    ReadUint(bits, pos, 0, 0)
  }

  function Signed(negative: bool, x: nat): int {
    if negative then 0 - x else x
  }

  function DecodeInteger(bits: seq<bool>, pos: nat): Parse<int> {
    if pos + 1 > |bits| then Ok(0, pos, true)
    else
      match DecodeUint(bits, pos + 1)
      case Ok(x, p, short) => Ok(Signed(bits[pos], x), p, short)
      case Fail(why) => Fail(why)
  }

  /** `k` whole bytes of input. */
  function ReadBytes(bits: seq<bool>, pos: nat, k: nat): (r: seq<byte>)
    requires pos + 8 * k <= |bits|
    ensures |r| == k
    decreases k
  {
    if k == 0 then []
    else
      PeekByte(bits, pos);
      [Peek(bits, pos, 8) as byte] + ReadBytes(bits, pos + 8, k - 1)
  }

  lemma PeekByte(bits: seq<bool>, pos: nat)
    requires pos + 8 <= |bits|
    ensures Peek(bits, pos, 8) < 256
  {
    NBitsVal(bits[pos..pos + 8]);
    Pow2Values();
  }

  /** At most `size` bytes, right-aligned in a zeroed field. */
  function DecodeBinary(bits: seq<bool>, pos: nat, size: nat): Parse<Value> {
    match DecodeUint(bits, pos)
    case Fail(why) => Fail(why)
    case Ok(m, p, short) =>
      if short then Fail(Truncated)
      else if m > size then Fail(Invalid)
      else if p + 8 * m > |bits| then Fail(Truncated)
      else Ok(Binary(seq(size - m, _ => 0) + ReadBytes(bits, p, m)), p + 8 * m, false)
  }

  /** Bytes of a code point in UTF-8. */
  function CodeSize(c: nat): nat {
    if c <= 0x7f then 1 else if c <= 0x7ff then 2 else if c <= 0xffff then 3 else 4
  }

  function StringSize(s: Str): nat {
    if s == [] then 0 else CodeSize(s[0]) + StringSize(s[1..])
  }

  /** The scan of `exi_utf8_length`: at most three groups a character. */
  function ScanCode(bits: seq<bool>, pos: nat, m: nat): (r: Parse<nat>)
    requires 1 <= m <= 3
    ensures r.Ok? ==> pos + 8 <= r.pos <= |bits| && 1 <= r.value <= 4 && !r.short
    decreases 3 - m
  {
    if pos + 8 > |bits| then Fail(Truncated)
    else
      var b := Peek(bits, pos, 8);
      if b >= 128 then if m == 3 then Fail(Invalid) else ScanCode(bits, pos + 8, m + 1)
      else Ok(m + (if (m == 2 && b >= 16) || (m == 3 && b >= 4) then 1 else 0), pos + 8, false)
  }

  function ScanLiteral(bits: seq<bool>, pos: nat, k: nat): (r: Parse<nat>)
    ensures r.Ok? ==> !r.short && k <= r.value && (pos <= |bits| ==> pos + 8 * k <= r.pos <= |bits|)
    decreases k
  {
    if k == 0 then Ok(0, pos, false)
    else
      match ScanCode(bits, pos, 1)
      case Fail(why) => Fail(why)
      case Ok(size, p, _) =>
        match ScanLiteral(bits, p, k - 1)
        case Fail(why) => Fail(why)
        case Ok(rest, q, _) => Ok(size + rest, q, false)
  }

  /** `k` code points, as `parse_literal` reads them; out of input they read as zero. */
  function ReadCodes(bits: seq<bool>, pos: nat, k: nat): (r: Parse<Str>)
    ensures r.Ok? ==> |r.value| == k && pos <= r.pos && (pos <= |bits| ==> r.pos <= |bits|)
    ensures r.Ok? && !r.short ==> pos + 8 * k <= r.pos
    decreases k
  {
    if k == 0 then Ok([], pos, false)
    else
      match DecodeUint(bits, pos)
      case Fail(why) => Fail(why)
      case Ok(c, p, short) =>
        if c >= 0x2_0000 then Fail(Undefined)
        else
          match ReadCodes(bits, p, k - 1)
          case Fail(why) => Fail(why)
          case Ok(rest, q, more) => Ok([c] + rest, q, short || more)
  }

  /** A C string ends at the first zero. */
  function CString(s: Str): Str {
    if s == [] || s[0] == 0 then [] else [s[0]] + CString(s[1..])
  }

  /** A compact identifier looked up in a table; `size` is the container, 0 for a pointer. */
  function DecodeCompact(bits: seq<bool>, pos: nat, t: seq<Str>, size: nat): Parse<Str> {
    if t == [] then Fail(Invalid)
    else
      var n := BitCount(|t| - 1);
      if pos + n > |bits| then Fail(Truncated)
      else
        var id := Peek(bits, pos, n);
        if id < |t| && (size > 0 ==> StringSize(t[id]) + 1 <= size) then Ok(t[id], pos + n, false) else Fail(Invalid)
  }

  /** A literal of `k` characters. The reader then takes as many code points as the scan counted bytes. */
  function DecodeLiteral(bits: seq<bool>, pos: nat, k: nat, size: nat): Parse<Str> {
    match ScanLiteral(bits, pos, k)
    case Fail(why) => Fail(why)
    case Ok(m, _, _) =>
      if size > 0 && m >= size then Fail(Invalid)
      else
        match ReadCodes(bits, pos, m)
        case Fail(why) => Fail(why)
        case Ok(codes, p, short) =>
          if StringSize(codes) > (if size > 0 then size - 1 else m) then Fail(Undefined)
          else Ok(CString(codes), p, short)
  }

  function DecodeString(bits: seq<bool>, pos: nat, t: Tables, name: Name, size: nat): Parse<(Value, Tables)> {
    match DecodeUint(bits, pos)
    case Fail(why) => Fail(why)
    case Ok(m, p, short) =>
      if short then Fail(Truncated)
      else if m <= 1 then
        match DecodeCompact(bits, p, if m == 0 then t.Local(name) else t.global, size)
        case Fail(why) => Fail(why)
        case Ok(s, q, sh) => Ok((Text(s), t), q, sh)
      else
        match DecodeLiteral(bits, p, m - 2, size)
        case Fail(why) => Fail(why)
        case Ok(s, q, sh) => Ok((Text(s), t.AddLocal(name, s).AddGlobal(s)), q, sh)
  }

  /** Storing into a narrower C field. */
  function Wrap(x: int, lo: int, width: nat): int
    requires width > 0
  {
    lo + (x - lo) % width
  }

  /** A number, rejected when the input was too short for it. */
  function AsNumber(r: Parse<int>, t: Tables, lo: int, width: nat): Parse<(Value, Tables)>
    requires width > 0
  {
    match r
    case Fail(why) => Fail(why)
    case Ok(x, p, short) => if short then Fail(Truncated) else Ok((Number(Wrap(x, lo, width)), t), p, false)
  }

  function DecodeValue(bits: seq<bool>, pos: nat, t: Tables, name: Name, xs: XsType): (r: Parse<(Value, Tables)>) {
    match xs
    case XsString(n) => DecodeString(bits, pos, t, name, n)
    case XsAnyUri => DecodeString(bits, pos, t, name, 0)
    case XsBoolean => if pos + 1 > |bits| then Fail(Truncated) else Ok((Flag(bits[pos]), t), pos + 1, false)
    case XsHexBinary(n) =>
      (match DecodeBinary(bits, pos, n)
       case Fail(why) => Fail(why)
       case Ok(v, p, short) => Ok((v, t), p, short))
    case XsLong => AsNumber(DecodeInteger(bits, pos), t, -0x8000_0000_0000_0000, 0x1_0000_0000_0000_0000)
    case XsInt => AsNumber(DecodeInteger(bits, pos), t, -0x8000_0000, 0x1_0000_0000)
    case XsShort => AsNumber(DecodeInteger(bits, pos), t, -0x8000, 0x1_0000)
    case XsByte => if pos + 8 > |bits| then Fail(Truncated) else Ok((Number(Wrap(Peek(bits, pos, 8) - 128, -128, 256)), t), pos + 8, false)
    case XsULong => AsNumber(DecodeUint(bits, pos), t, 0, 0x1_0000_0000_0000_0000)
    case XsUInt => AsNumber(DecodeUint(bits, pos), t, 0, 0x1_0000_0000)
    case XsUShort => AsNumber(DecodeUint(bits, pos), t, 0, 0x1_0000)
    case XsUByte => if pos + 8 > |bits| then Fail(Truncated) else Ok((Number(Wrap(Peek(bits, pos, 8), 0, 256)), t), pos + 8, false)
  }

  /** What a zeroed field of this type holds. */
  function Zero(xs: XsType): Value {
    match xs
    case XsString(n) => if n > 0 then Text([]) else Absent
    case XsAnyUri => Absent
    case XsBoolean => Flag(false)
    case XsHexBinary(n) => Binary(seq(n, _ => 0))
    case _ => Number(0)
  }

  /** A simple element's content, and whether the end of the element is still to be read. */
  datatype Simple = Simple(v: Value, t: Tables, needEnd: bool)

  function DecodeSimple(bits: seq<bool>, pos: nat, t: Tables, name: Name, xs: XsType): Parse<Simple> {
    if pos + 1 > |bits| then Fail(Truncated)
    else if bits[pos] then
      if pos + 4 > |bits| then Ok(Simple(Zero(xs), t, false), pos + 1, true)
      else if Peek(bits, pos + 1, 3) != 0 then Fail(Invalid)
      else Ok(Simple(Zero(xs), t, false), pos + 4, false)
    else
      match DecodeValue(bits, pos + 1, t, name, xs)
      case Fail(why) => Fail(why)
      case Ok((v, t'), p, short) => Ok(Simple(v, t', true), p, short)
  }
}
