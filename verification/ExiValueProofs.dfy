/** The value codecs undo each other, and exactly when they do. */
module ExiValueProofs {
  import opened Words
  import opened BitStream
  import opened ExiValue

  // ---- unsigned integers ----

  lemma {:induction false} ShlIsMul(x: nat, k: nat)
    ensures Shl(x, k) == x * Pow2(k)
  {
    if k > 0 { ShlIsMul(x, k - 1); }
  }

  /** One group of seven bits more. */
  lemma ShlGroup(x: nat, n: nat)
    ensures Shl(x, n) == Shl(x % 128, n) + Shl(x / 128, n + 7)
  {
    hide Shl, Pow2;
    ShlIsMul(x / 128, 7);
    assert Pow2(7) == 128 by { Pow2Values(); }
    ShlOr(x % 128, Shl(x / 128, 7), n);
    ShlShl(x / 128, 7, n);
  }

  lemma ShiftLimits(x: nat, n: nat)
    requires n in {0, 7, 14, 21, 28}
    ensures n < 28 && x < 128 ==> Shl(x, n) < 0x1000_0000
    ensures n == 28 ==> (Shl(x, n) < 0x8000_0000 <==> x < 8)
    ensures Pow2(n) <= 0x1000_0000
    ensures Pow2(7) == 128
  {
    assert Pow2(7) == 128 by { Pow2Values(); }
    assert Pow2(14) == 0x4000;
    assert Pow2(21) == 0x20_0000;
    assert Pow2(28) == 0x1000_0000;
    hide Shl, Pow2;
    ShlIsMul(x, n);
  }

  /** What taking the lowest group of `x` does to the accumulated number. */
  lemma GroupFits(x: nat, n: nat, acc: nat)
    requires n in {0, 7, 14, 21, 28} && acc < Pow2(n)
    ensures acc + Shl(x, n) == acc + Shl(x % 128, n) + Shl(x / 128, n + 7)
    ensures acc + Shl(x % 128, n) < Pow2(n + 7)
    ensures x < 128 ==> (Shl(x, n) < 0x8000_0000 <==> acc + Shl(x, n) < 0x8000_0000)
  {
    hide Shl, Pow2;
    ShlGroup(x, n);
    ShiftLimits(x, n);
    ShiftLimits(x % 128, n);
    ShlBound(x % 128, 7, n);
    if x < 8 && n == 28 {
      ShlIsMul(x, 28);
      assert Pow2(28) == 0x1000_0000 by { Pow35(); }
    }
  }

  lemma FirstGroup(bits: seq<bool>, pos: nat, x: nat)
    requires At(bits, pos, UintBits(x))
    ensures pos + 8 <= |bits| && Peek(bits, pos, 8) == if x < 128 then x else 128 + x % 128
    ensures if x < 128 then |UintBits(x)| == 8
            else At(bits, pos + 8, UintBits(x / 128)) && |UintBits(x)| == 8 + |UintBits(x / 128)|
  {
    hide NBits, Peek, At;
    if x < 128 {
      PeekByteAt(bits, pos, x);
    } else {
      AtConcat(bits, pos, NBits(128 + x % 128, 8), UintBits(x / 128));
      PeekByteAt(bits, pos, 128 + x % 128);
    }
  }

  lemma {:induction false} ReadUintBits(bits: seq<bool>, pos: nat, x: nat, n: nat, acc: nat)
    requires At(bits, pos, UintBits(x)) && n in {0, 7, 14, 21, 28, 35} && acc < Pow2(n)
    requires n > 0 ==> x > 0
    ensures ReadUint(bits, pos, n, acc)
            == if acc + Shl(x, n) < 0x8000_0000 then Ok(acc + Shl(x, n), pos + |UintBits(x)|, false) else Fail(Undefined)
    decreases x
  {
    hide Shl, Pow2, NBits, Peek, At, UintBits;
    var low := x % 128;
    FirstGroup(bits, pos, x);
    if n == 35 {
      assert Shl(x, 35) >= 0x8000_0000 by { ShlIsMul(x, 35); Pow35(); }
    } else {
      GroupFits(x, n, acc);
      if x >= 128 && Shl(low, n) < 0x8000_0000 {
        ReadUintBits(bits, pos + 8, x / 128, n + 7, acc + Shl(low, n));
      }
    }
  }

  lemma Pow35()
    ensures Pow2(35) >= 0x8000_0000 && Pow2(28) == 0x1000_0000
  {
    assert Pow2(7) == 128 by { Pow2Values(); }
    assert Pow2(14) == 0x4000;
    assert Pow2(21) == 0x20_0000;
    assert Pow2(28) == 0x1000_0000;
  }

  /** The reader returns the number written if and only if it is below 2^31. */
  lemma UintRoundTrip(bits: seq<bool>, pos: nat, x: nat)
    requires At(bits, pos, UintBits(x))
    ensures DecodeUint(bits, pos)
            == if x < 0x8000_0000 then Ok(x, pos + |UintBits(x)|, false) else Fail(Undefined)
  {
    ReadUintBits(bits, pos, x, 0, 0);
  }

  /** No encoding with fewer groups of seven bits could hold the number. */
  lemma {:induction false} UintGroups(x: nat)
    ensures |UintBits(x)| % 8 == 0 && |UintBits(x)| >= 8
    ensures var k := |UintBits(x)| / 8; x < Pow2(7 * k) && (k > 1 ==> x >= Pow2(7 * (k - 1)))
  {
    assert Pow2(7) == 128 by { Pow2Values(); }
    if x >= 128 {
      UintGroups(x / 128);
      var k := |UintBits(x / 128)| / 8;
      assert |UintBits(x)| / 8 == k + 1;
      Pow2Seven(k);
      Pow2Seven(k - 1);
    }
  }

  lemma Pow2Seven(k: nat)
    ensures Pow2(7 * (k + 1)) == 128 * Pow2(7 * k)
  {
    var n := 7 * k;
    assert Pow2(n + 2) == 4 * Pow2(n);
    assert Pow2(n + 4) == 4 * Pow2(n + 2);
    assert Pow2(n + 6) == 4 * Pow2(n + 4);
  }

  lemma IntegerRoundTrip(bits: seq<bool>, pos: nat, x: int)
    requires At(bits, pos, IntegerBits(x))
    ensures DecodeInteger(bits, pos)
            == if -0x8000_0000 < x < 0x8000_0000 then Ok(x, pos + |IntegerBits(x)|, false) else Fail(Undefined)
  {
    var m := if x < 0 then -x else x;
    AtConcat(bits, pos, [x < 0], UintBits(m));
    AtBit(bits, pos, x < 0);
    UintRoundTrip(bits, pos + 1, m);
  }

  /** The encoding of section 7.1.5 of EXI 1.0: of a negative number, the magnitude less one. */
  function StandardBits(x: int): seq<bool> {
    [x < 0] + UintBits(if x < 0 then -x - 1 else x)
  }

  lemma {:induction false} UintsDiffer(x: nat, y: nat)
    requires UintBits(x) == UintBits(y)
    ensures x == y
    decreases x
  {
    UintGroups(x);
    UintGroups(y);
    assert x < 128 ==> |UintBits(x)| == 8;
    assert x >= 128 ==> |UintBits(x)| > 8 by { if x >= 128 { UintGroups(x / 128); } }
    assert y < 128 ==> |UintBits(y)| == 8;
    assert y >= 128 ==> |UintBits(y)| > 8 by { if y >= 128 { UintGroups(y / 128); } }
    Pow2Values();
    hide NBits;
    if x < 128 {
      ValOfSmall(x, 8);
      ValOfSmall(y, 8);
    } else {
      var g, h := NBits(128 + x % 128, 8), NBits(128 + y % 128, 8);
      assert UintBits(x)[..8] == g && UintBits(y)[..8] == h;
      assert UintBits(x)[8..] == UintBits(x / 128) && UintBits(y)[8..] == UintBits(y / 128);
      ValOfSmall(128 + x % 128, 8);
      ValOfSmall(128 + y % 128, 8);
      UintsDiffer(x / 128, y / 128);
    }
  }

  /** The writer meets the standard exactly for numbers that are not negative; what it writes
      for a negative one is the standard's encoding of the number one below. */
  lemma StandardExactly(x: int)
    ensures IntegerBits(x) == StandardBits(x) <==> x >= 0
    ensures x < 0 ==> IntegerBits(x) == StandardBits(x - 1)
  {
    if x < 0 && IntegerBits(x) == StandardBits(x) {
      assert IntegerBits(x)[1..] == UintBits(-x) && StandardBits(x)[1..] == UintBits(-x - 1);
      UintsDiffer(-x, -x - 1);
    }
  }

  // ---- binary data ----

  lemma {:induction false} ReadBytesAt(bits: seq<bool>, pos: nat, b: seq<byte>)
    requires At(bits, pos, ByteBits(b))
    ensures |ByteBits(b)| == 8 * |b| && pos + 8 * |b| <= |bits|
    ensures ReadBytes(bits, pos, |b|) == b
    decreases |b|
  {
    if b != [] {
      AtConcat(bits, pos, NBits(b[0], 8), ByteBits(b[1..]));
      PeekByteAt(bits, pos, b[0]);
      ReadBytesAt(bits, pos + 8, b[1..]);
    }
  }

  /** Leading zeros are stripped by the writer and put back by the reader. */
  lemma BinaryRoundTrip(bits: seq<bool>, pos: nat, b: seq<byte>)
    requires At(bits, pos, BinaryBits(b))
    ensures DecodeBinary(bits, pos, |b|)
            == if |Strip(b)| < 0x8000_0000 then Ok(Binary(b), pos + |BinaryBits(b)|, false) else Fail(Undefined)
  {
    hide At, UintBits, ByteBits, DecodeUint, ReadBytes, Strip;
    var s := Strip(b);
    AtConcat(bits, pos, UintBits(|s|), ByteBits(s));
    UintRoundTrip(bits, pos, |s|);
    ReadBytesAt(bits, pos + |UintBits(|s|)|, s);
  }

  // ---- strings ----

  predicate Ascii(s: Str) { Codes(s, 0x80) }

  /** The scan finds the UTF-8 size of any code point. */
  lemma ScanCodeAt(bits: seq<bool>, pos: nat, c: nat)
    requires At(bits, pos, UintBits(c)) && c < 0x11_0000
    ensures ScanCode(bits, pos, 1) == Ok(CodeSize(c), pos + |UintBits(c)|, false)
  {
    hide At, Peek, NBits;
    if c < 128 {
      PeekByteAt(bits, pos, c);
    } else {
      AtConcat(bits, pos, NBits(128 + c % 128, 8), UintBits(c / 128));
      PeekByteAt(bits, pos, 128 + c % 128);
      var d := c / 128;
      if d < 128 {
        PeekByteAt(bits, pos + 8, d);
      } else {
        AtConcat(bits, pos + 8, NBits(128 + d % 128, 8), UintBits(d / 128));
        PeekByteAt(bits, pos + 8, 128 + d % 128);
        PeekByteAt(bits, pos + 16, d / 128);
      }
      assert ScanCode(bits, pos, 1) == ScanCode(bits, pos + 8, 2);
    }
  }

  lemma {:induction false} ScanLiteralAt(bits: seq<bool>, pos: nat, s: Str)
    requires At(bits, pos, CodeBits(s)) && Codes(s, 0x11_0000)
    ensures ScanLiteral(bits, pos, |s|) == Ok(StringSize(s), pos + |CodeBits(s)|, false)
    decreases |s|
  {
    hide At, UintBits, ScanCode;
    if s != [] {
      AtConcat(bits, pos, UintBits(s[0]), CodeBits(s[1..]));
      ScanCodeAt(bits, pos, s[0]);
      ScanLiteralAt(bits, pos + |UintBits(s[0])|, s[1..]);
    }
  }

  lemma {:induction false} ReadAsciiAt(bits: seq<bool>, pos: nat, s: Str)
    requires At(bits, pos, CodeBits(s)) && Ascii(s)
    ensures ReadCodes(bits, pos, |s|) == Ok(s, pos + |CodeBits(s)|, false)
    decreases |s|
  {
    hide At, UintBits, DecodeUint;
    if s != [] {
      AtConcat(bits, pos, UintBits(s[0]), CodeBits(s[1..]));
      UintRoundTrip(bits, pos, s[0]);
      ReadAsciiAt(bits, pos + |UintBits(s[0])|, s[1..]);
      assert s == [s[0]] + s[1..];
    }
  }

  /** Reading at least as many code points as were written gives those first, if it gives anything. */
  lemma {:induction false} ReadCodesAt(bits: seq<bool>, pos: nat, s: Str, k: nat)
    requires At(bits, pos, CodeBits(s)) && |s| <= k && Codes(s, 0x11_0000)
    ensures ReadCodes(bits, pos, k).Ok? ==> s <= ReadCodes(bits, pos, k).value
    decreases k
  {
    hide At, UintBits, DecodeUint;
    if s != [] {
      AtConcat(bits, pos, UintBits(s[0]), CodeBits(s[1..]));
      UintRoundTrip(bits, pos, s[0]);
      ReadCodesAt(bits, pos + |UintBits(s[0])|, s[1..], k - 1);
    }
  }

  lemma {:induction false} ReadCodesFailure(bits: seq<bool>, pos: nat, k: nat)
    ensures ReadCodes(bits, pos, k).Fail? ==> ReadCodes(bits, pos, k).why == Undefined
    decreases k
  {
    if k > 0 {
      var r := DecodeUint(bits, pos);
      ReadUintFailure(bits, pos, 0, 0);
      if r.Ok? { ReadCodesFailure(bits, r.pos, k - 1); }
    }
  }

  lemma {:induction false} ReadUintFailure(bits: seq<bool>, pos: nat, n: nat, acc: nat)
    ensures ReadUint(bits, pos, n, acc).Fail? ==> ReadUint(bits, pos, n, acc).why == Undefined
    decreases |bits| - pos
  {
    if pos + 8 <= |bits| {
      var b := Peek(bits, pos, 8);
      ReadUintFailure(bits, pos + 8, n + 7, acc + Shl(b % 128, n));
    }
  }

  lemma {:induction false} SizeOfPrefix(s: Str, t: Str)
    requires s <= t
    ensures StringSize(t) >= StringSize(s) + |t| - |s|
  {
    if s != [] {
      SizeOfPrefix(s[1..], t[1..]);
    } else if t != [] {
      SizeOfPrefix([], t[1..]);
    }
  }

  lemma {:induction false} SizeOfAscii(s: Str)
    requires Codes(s, 0x11_0000)
    ensures StringSize(s) >= |s|
    ensures StringSize(s) == |s| <==> Ascii(s)
    ensures CString(s) == s
  {
    if s != [] { SizeOfAscii(s[1..]); }
  }

  /** Reading more code points than were written moves past what was written, or runs short. */
  lemma {:induction false} ReadCodesPast(bits: seq<bool>, pos: nat, s: Str, k: nat)
    requires At(bits, pos, CodeBits(s)) && |s| <= k && Codes(s, 0x11_0000)
    ensures var r := ReadCodes(bits, pos, k); r.Ok? && !r.short ==> r.pos >= pos + |CodeBits(s)| + 8 * (k - |s|)
    decreases k
  {
    hide At, UintBits, DecodeUint;
    if s != [] {
      AtConcat(bits, pos, UintBits(s[0]), CodeBits(s[1..]));
      UintRoundTrip(bits, pos, s[0]);
      ReadCodesPast(bits, pos + |UintBits(s[0])|, s[1..], k - 1);
    }
  }

  /** A literal is read back, from a container of any size that holds it or behind a pointer,
      if and only if it is plain ASCII. */
  lemma LiteralRoundTrip(bits: seq<bool>, pos: nat, s: Str, size: nat)
    requires At(bits, pos, CodeBits(s)) && Codes(s, 0x11_0000) && (size > 0 ==> StringSize(s) < size)
    ensures DecodeLiteral(bits, pos, |s|, size) == Ok(s, pos + |CodeBits(s)|, false) <==> Ascii(s)
    ensures size == 0 && !Ascii(s) ==> DecodeLiteral(bits, pos, |s|, size) == Fail(Undefined)
  {
    hide At, Codes;
    var m := StringSize(s);
    ScanLiteralAt(bits, pos, s);
    SizeOfAscii(s);
    if Ascii(s) {
      ReadAsciiAt(bits, pos, s);
    } else {
      ReadCodesAt(bits, pos, s, m);
      ReadCodesPast(bits, pos, s, m);
      ReadCodesFailure(bits, pos, m);
      var r := ReadCodes(bits, pos, m);
      if r.Ok? { SizeOfPrefix(s, r.value); }
      hide ReadCodes, ScanLiteral, StringSize, CString;
    }
  }

  lemma CompactAt(bits: seq<bool>, pos: nat, t: seq<Str>, i: nat, size: nat)
    requires i < |t| && At(bits, pos, NBits(i, BitCount(|t| - 1)))
    requires size > 0 ==> StringSize(t[i]) < size
    ensures DecodeCompact(bits, pos, t, size) == Ok(t[i], pos + BitCount(|t| - 1), false)
  {
    hide BitCount, NBits, Pow2, Peek;
    BitCountBound(|t| - 1);
    PeekAt(bits, pos, i, BitCount(|t| - 1));
  }

  /** A string the global table knows and the table of its name does not. */
  predicate GlobalOnly(t: Tables, name: Name, s: Str) {
    s !in t.Local(name) && s in t.global
  }

  /** The strings the reader can read back: those in a table, and ASCII literals. */
  predicate Readable(t: Tables, name: Name, s: Str) {
    s in t.Local(name) || s in t.global || (Ascii(s) && |s| + 2 < 0x8000_0000)
  }

  /** A string is read back if and only if it is in a table or ASCII; and only the writer grows
      its tables on a global hit. */
  lemma StringRoundTrip(bits: seq<bool>, pos: nat, t: Tables, name: Name, s: Str, size: nat)
    requires At(bits, pos, StringBits(t, name, s).0)
    requires Codes(s, 0x11_0000) && (size > 0 ==> StringSize(s) < size)
    ensures DecodeString(bits, pos, t, name, size)
            == Ok((Text(s), if GlobalOnly(t, name, s) then t else StringBits(t, name, s).1), pos + |StringBits(t, name, s).0|, false)
            <==> Readable(t, name, s)
  {
    hide At, UintBits, NBits, BitCount, DecodeCompact, DecodeLiteral, CodeBits, DecodeUint, Codes;
    var local := t.Local(name);
    var i, j := IndexOf(local, s), IndexOf(t.global, s);
    if i >= 0 {
      AtConcat(bits, pos, UintBits(0), NBits(i, BitCount(|local| - 1)));
      UintRoundTrip(bits, pos, 0);
      CompactAt(bits, pos + |UintBits(0)|, local, i, size);
    } else if j >= 0 {
      AtConcat(bits, pos, UintBits(1), NBits(j, BitCount(|t.global| - 1)));
      UintRoundTrip(bits, pos, 1);
      CompactAt(bits, pos + |UintBits(1)|, t.global, j, size);
    } else {
      AtConcat(bits, pos, UintBits(|s| + 2), CodeBits(s));
      UintRoundTrip(bits, pos, |s| + 2);
      LiteralRoundTrip(bits, pos + |UintBits(|s| + 2)|, s, size);
    }
  }

  /** After one string the two ends agree if and only if it was not a hit in the global table alone. */
  lemma TablesInStep(bits: seq<bool>, pos: nat, t: Tables, name: Name, s: Str, size: nat)
    requires At(bits, pos, StringBits(t, name, s).0)
    requires Codes(s, 0x11_0000) && (size > 0 ==> StringSize(s) < size) && Readable(t, name, s)
    ensures var r := DecodeString(bits, pos, t, name, size);
            r.Ok? && (r.value.1 == StringBits(t, name, s).1 <==> !GlobalOnly(t, name, s))
  {
    StringRoundTrip(bits, pos, t, name, s, size);
    WriterGrows(t, name, s);
  }

  lemma WriterGrows(t: Tables, name: Name, s: Str)
    ensures GlobalOnly(t, name, s) ==> StringBits(t, name, s).1 != t
  {
    var t' := t.AddLocal(name, s);
    assert s in t'.Local(name) by { assert t'.Local(name)[|t.Local(name)|] == s; }
  }

  // ---- any value ----

  /** The values the reader can read back from a field of this type. */
  predicate Exact(xs: XsType, v: Value) {
    match v
    case Text(s) => Ascii(s) && |s| + 2 < 0x8000_0000
    case Binary(data) => |Strip(data)| < 0x8000_0000
    case Number(x) => xs.XsByte? || xs.XsUByte? || -0x8000_0000 < x < 0x8000_0000
    case _ => true
  }

  /** What comes back for a value: an optional Boolean always reads as true. */
  function Read(xs: XsType, optional: bool, v: Value): Value {
    if xs.XsBoolean? && optional then Flag(true) else v
  }

  lemma NumberValue(bits: seq<bool>, pos: nat, t: Tables, xs: XsType, v: Value)
    requires v.Number? && Fits(xs, v) && At(bits, pos, ValueBits(t, 0, xs, false, v).0)
    ensures DecodeValue(bits, pos, t, 0, xs)
            == if Exact(xs, v) then Ok((v, t), pos + |ValueBits(t, 0, xs, false, v).0|, false) else Fail(Undefined)
  {
    hide At, UintBits, NBits, DecodeUint, IntegerBits, DecodeInteger, Peek;
    match xs
    case XsLong => IntegerRoundTrip(bits, pos, v.x);
    case XsInt => IntegerRoundTrip(bits, pos, v.x);
    case XsShort => IntegerRoundTrip(bits, pos, v.x);
    case XsByte => PeekByteAt(bits, pos, v.x + 128);
    case XsULong => UintRoundTrip(bits, pos, v.x);
    case XsUInt => UintRoundTrip(bits, pos, v.x);
    case XsUShort => UintRoundTrip(bits, pos, v.x);
    case XsUByte => PeekByteAt(bits, pos, v.x);
  }

  /** The values that come back, with both ends' tables the same: a string in the table of its
      name or in none, and of the latter, as of all other values, the exact ones. */
  predicate Faithful(t: Tables, name: Name, xs: XsType, v: Value) {
    (v.Text? && v.s in t.Local(name)) || (Exact(xs, v) && (v.Text? ==> v.s !in t.global))
  }

  /** A value of any type is read back, tables included, if and only if it is faithful. */
  lemma ValueRoundTrip(bits: seq<bool>, pos: nat, t: Tables, name: Name, xs: XsType, optional: bool, v: Value)
    requires Fits(xs, v) && At(bits, pos, ValueBits(t, name, xs, optional, v).0)
    ensures var (w, t') := ValueBits(t, name, xs, optional, v);
            DecodeValue(bits, pos, t, name, xs) == Ok((Read(xs, optional, v), t'), pos + |w|, false) <==> Faithful(t, name, xs, v)
    ensures !v.Text? && !Exact(xs, v) ==> DecodeValue(bits, pos, t, name, xs) == Fail(Undefined)
  {
    hide At, UintBits, NBits, DecodeUint, DecodeString, StringBits;
    match v
    case Text(s) =>
      StringRoundTrip(bits, pos, t, name, s, if xs.XsAnyUri? then 0 else xs.size);
      WriterGrows(t, name, s);
    case Flag(b) => AtBit(bits, pos, optional || b);
    case Number(x) => NumberValue(bits, pos, t, xs, v);
    case Binary(data) =>
      BinaryRoundTrip(bits, pos, data);
  }
}
