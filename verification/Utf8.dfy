/**
 The UTF-8 decoder and encoder of core/utf8.c. The decoder is driven by a table of byte
 classes and state transitions; on every input, what it accepts in up to three bytes is
 exactly what the encoder writes for a code point up to 0xFFFF that is not a surrogate.
 */
module Utf8 {
  import opened Common

  type Byte = b: int | 0 <= b < 256

  const REJECT := 99

  /** `utf_table` for the bytes c0..ff. */
  function Class(c: Byte): (t: nat)
    requires c >= 0xc0
    ensures 1 <= t <= 8
  {
    if c < 0xc2 then 1 else if c < 0xe0 then 2 else if c == 0xe0 then 7 else if c == 0xed then 4
    else if c < 0xf0 then 3 else if c == 0xf0 then 8 else if c < 0xf4 then 6 else if c == 0xf4 then 5 else 1
  }

  /** `utf_table` for the first byte of a class. */
  function Lead(class_: nat): nat
    requires 1 <= class_ <= 8
  {
    if class_ == 1 then REJECT else 9 + 4 * (class_ - 2)
  }

  predicate State(s: int) { s == 0 || s == 9 || s == 13 || s == 17 || s == 21 || s == 25 || s == 29 || s == 33 }

  /** `utf_table` for a further byte, by its bits 4 and 5. */
  function Follow(state: int, kind: nat): (s: int)
    requires State(state) && state != 0 && kind < 4
    ensures State(s) || s == REJECT
  {
    match state
    case 9 => 0
    case 13 => 9
    case 17 => if kind < 2 then 9 else REJECT
    case 21 => if kind == 0 then 17 else REJECT
    case 25 => 17
    case 29 => if kind < 2 then REJECT else 9
    case _ => if kind == 0 then REJECT else 17
  }

  /** `(0xff >> type) & c` */
  function LeadBits(class_: nat, c: Byte): int
    requires 1 <= class_ <= 8
  {
    c % (match class_ case 1 => 128 case 2 => 64 case 3 => 32 case 4 => 16 case 5 => 8 case 6 => 4 case 7 => 2 case _ => 1)
  }

  /** A string in memory, up to its zero byte. */
  predicate Closed(b: seq<Byte>) { |b| > 0 && b[|b| - 1] == 0 }

  /** The loop of `utf8_char`: the code point and where it ends. */
  function Decode(b: seq<Byte>, at: nat, state: int, code: int): (r: Option<(int, nat)>)
    requires Closed(b) && at < |b| && State(state)
    ensures r.Some? ==> at < r.value.1 <= |b| && (b[at] != 0 ==> r.value.1 < |b|)
    decreases |b| - at
  {
    var c := b[at];
    if c < 128 then
      if state != 0 then None else Some((c, at + 1))
    else if state != 0 then
      if c >= 0xc0 then None
      else
        var s := Follow(state, c / 16 % 4);
        if s == REJECT then None
        else if s == 0 then Some((code * 64 + c % 64, at + 1))
        else Decode(b, at + 1, s, code * 64 + c % 64)
    else if c >= 0xc0 then
      var s := Lead(Class(c));
      if s == REJECT then None else Decode(b, at + 1, s, LeadBits(Class(c), c))
    else None
  }

  /** `utf8_char` */
  function Char(b: seq<Byte>, at: nat): (r: Option<(int, nat)>)
    requires Closed(b) && at < |b|
    ensures r.Some? ==> at < r.value.1 <= |b| && (b[at] != 0 ==> r.value.1 < |b|)
  {
    Decode(b, at, 0, 0)
  }

  /** `utf8_encode`; beyond 0x1ffff it fails. */
  function Encode(code: nat): Option<seq<Byte>> {
    if code <= 0x7f then Some([code])
    else if code <= 0x7ff then Some([0xc0 + code / 64, 0x80 + code % 64])
    else if code <= 0xffff then Some([0xe0 + code / 4096, 0x80 + code / 64 % 64, 0x80 + code % 64])
    else if code <= 0x1ffff then
      Some([0xe0 + code / 0x40000 % 32, 0x80 + code / 4096 % 64, 0x80 + code / 64 % 64, 0x80 + code % 64])
    else None
  }

  /** The code points the two ends agree on. */
  predicate Agreed(code: int) { 0 <= code < 0xd800 || 0xe000 <= code <= 0xffff }

  /** The bytes `e` are in memory at a position. */
  predicate Holds(b: seq<Byte>, at: nat, e: seq<Byte>) { at + |e| <= |b| && forall i :: 0 <= i < |e| ==> b[at + i] == e[i] }

  // ---- the loop, round by round ----

  /** One round of the loop at the first byte of several. */
  lemma FirstByte(b: seq<Byte>, at: nat)
    requires Closed(b) && at < |b| && b[at] >= 0xc0 && Lead(Class(b[at])) != REJECT
    ensures at + 1 < |b|
    ensures Char(b, at) == Decode(b, at + 1, Lead(Class(b[at])), LeadBits(Class(b[at]), b[at]))
  {
  }

  /** One round at a further byte. */
  lemma FurtherByte(b: seq<Byte>, at: nat, state: int, code: int)
    requires Closed(b) && at < |b| && State(state) && state != 0 && 0x80 <= b[at] < 0xc0
    ensures at + 1 < |b|
    ensures Decode(b, at, state, code) == (var s := Follow(state, b[at] / 16 % 4);
      if s == REJECT then None else if s == 0 then Some((code * 64 + b[at] % 64, at + 1)) else Decode(b, at + 1, s, code * 64 + b[at] % 64))
  {
  }

  predicate TwoBytes(c: Byte, d: Byte) { 0xc2 <= c < 0xe0 && 0x80 <= d < 0xc0 }

  predicate ThreeBytes(c: Byte, d: Byte, e: Byte) {
    0xe0 <= c < 0xf0 && 0x80 <= d < 0xc0 && 0x80 <= e < 0xc0 && (c == 0xe0 ==> d >= 0xa0) && (c == 0xed ==> d < 0xa0)
  }

  /** The code point two or three bytes stand for. */
  function Two(c: int, d: int): int { c % 64 * 64 + d % 64 }
  function Three(c: int, d: int, e: int): int { (c % 16 * 64 + d % 64) * 64 + e % 64 }

  lemma DecodeTwo(b: seq<Byte>, at: nat)
    requires Closed(b) && at + 1 < |b| && TwoBytes(b[at], b[at + 1])
    ensures Char(b, at).Some? && Char(b, at).value == (Two(b[at], b[at + 1]), at + 2)
  {
    FirstByte(b, at);
    hide Decode;
    FurtherByte(b, at + 1, 9, b[at] % 64);
  }

  lemma DecodeThree(b: seq<Byte>, at: nat)
    requires Closed(b) && at + 2 < |b| && ThreeBytes(b[at], b[at + 1], b[at + 2])
    ensures Char(b, at).Some? && Char(b, at).value == (Three(b[at], b[at + 1], b[at + 2]), at + 3)
  {
    var s, x := Lead(Class(b[at])), LeadBits(Class(b[at]), b[at]);
    assert x == b[at] % 16;
    FirstByte(b, at);
    hide Decode, LeadBits;
    FurtherByte(b, at + 1, s, x);
    var kind := b[at + 1] / 16 % 4;
    assert Follow(s, kind) == 9;
    FurtherByte(b, at + 2, 9, x * 64 + b[at + 1] % 64);
  }

  /** The first byte tells how many follow. */
  lemma DecodeShape(b: seq<Byte>, at: nat)
    requires Closed(b) && at < |b| && Char(b, at).Some? && Char(b, at).value.1 <= at + 3
    ensures b[at] < 0x80
      || (at + 1 < |b| && TwoBytes(b[at], b[at + 1]))
      || (at + 2 < |b| && ThreeBytes(b[at], b[at + 1], b[at + 2]))
  {
    if b[at] >= 0x80 {
      var s, x := Lead(Class(b[at])), LeadBits(Class(b[at]), b[at]);
      FirstByte(b, at);
      Round(b, at + 1, s, x);
      var s2, y := Follow(s, b[at + 1] / 16 % 4), x * 64 + b[at + 1] % 64;
      if s2 != 0 {
        hide LeadBits;
        Round(b, at + 2, s2, y);
      }
    }
  }

  /** A further byte is there when a state asks for one, and it is the last only in one state. */
  lemma Round(b: seq<Byte>, at: nat, state: int, code: int)
    requires Closed(b) && at < |b| && State(state) && state != 0 && Decode(b, at, state, code).Some?
    ensures 0x80 <= b[at] < 0xc0 && at + 1 < |b| && Follow(state, b[at] / 16 % 4) != REJECT
    ensures Follow(state, b[at] / 16 % 4) != 0 ==>
      && Decode(b, at + 1, Follow(state, b[at] / 16 % 4), code * 64 + b[at] % 64) == Decode(b, at, state, code)
      && Decode(b, at, state, code).value.1 > at + 1
  {
    FurtherByte(b, at, state, code);
  }

  // ---- the two ends agree ----

  lemma EncodeTwo(code: nat)
    requires 0x80 <= code <= 0x7ff
    ensures var e := Encode(code).value;
      |e| == 2 && TwoBytes(e[0], e[1]) && Two(e[0], e[1]) == code
  {
  }

  lemma EncodeThree(code: nat)
    requires 0x800 <= code && Agreed(code)
    ensures var e := Encode(code).value;
      |e| == 3 && ThreeBytes(e[0], e[1], e[2]) && Three(e[0], e[1], e[2]) == code
  {
  }

  lemma TwoEncodes(c: Byte, d: Byte)
    requires TwoBytes(c, d)
    ensures Agreed(Two(c, d)) && Encode(Two(c, d)) == Some([c, d])
  {
  }

  lemma ThreeEncodes(c: Byte, d: Byte, e: Byte)
    requires ThreeBytes(c, d, e)
    ensures Agreed(Three(c, d, e)) && Encode(Three(c, d, e)) == Some([c, d, e])
  {
    var x, y, z := c - 0xe0, d - 0x80, e - 0x80;
    assert c % 16 == x && d % 64 == y && e % 64 == z;
    var n := Three(c, d, e);
    assert n == x * 4096 + y * 64 + z;
    assert 0x800 <= n && Agreed(n);
    hide Three, Encode, Agreed;
    EncodeDigits(n, x, y, z);
  }

  lemma EncodeDigits(n: nat, x: nat, y: nat, z: nat)
    requires 0x800 <= n <= 0xffff && x < 16 && y < 64 && z < 64 && n == x * 4096 + y * 64 + z
    ensures Encode(n) == Some([0xe0 + x, 0x80 + y, 0x80 + z])
  {
    Digits(x, y, z);
  }

  lemma Digits(x: int, y: int, z: int)
    requires 0 <= x && 0 <= y < 64 && 0 <= z < 64
    ensures var n := x * 4096 + y * 64 + z; n / 4096 == x && n / 64 == x * 64 + y && n % 64 == z && (x * 64 + y) % 64 == y
  {
  }

  /** What is encoded is decoded, ending where the encoding ends. */
  lemma EncodedDecodes(b: seq<Byte>, at: nat, code: nat)
    requires Closed(b) && Agreed(code) && Holds(b, at, Encode(code).value) && at < |b|
    ensures Char(b, at).Some? && Char(b, at).value == (code, at + |Encode(code).value|)
  {
    var e := Encode(code).value;
    assert b[at + 0] == e[0];
    if code > 0x7f {
      assert b[at + 1] == e[1];
      if code > 0x7ff {
        assert b[at + 2] == e[2];
        EncodeThree(code);
        hide Encode, Char;
        DecodeThree(b, at);
      } else {
        EncodeTwo(code);
        hide Encode, Char;
        DecodeTwo(b, at);
      }
    }
  }

  /** What is decoded from up to three bytes is encoded so. */
  lemma DecodedEncodes(b: seq<Byte>, at: nat)
    requires Closed(b) && at < |b| && Char(b, at).Some? && Char(b, at).value.1 <= at + 3
    ensures var (code, end) := Char(b, at).value;
      Agreed(code) && end == at + |Encode(code).value| && Holds(b, at, Encode(code).value)
  {
    DecodeShape(b, at);
    if b[at] >= 0x80 {
      hide Encode, Char;
      if b[at] < 0xe0 {
        DecodeTwo(b, at);
        TwoEncodes(b[at], b[at + 1]);
      } else {
        DecodeThree(b, at);
        ThreeEncodes(b[at], b[at + 1], b[at + 2]);
      }
    }
  }

  /** From these states at most two more bytes are taken. */
  lemma Short(b: seq<Byte>, at: nat, state: int, code: int)
    requires Closed(b) && at < |b| && (state == 9 || state == 13 || state == 17 || state == 29) && Decode(b, at, state, code).Some?
    ensures Decode(b, at, state, code).value.1 <= at + if state == 9 then 1 else 2
  {
    Round(b, at, state, code);
  }

  /** Of all the code points the encoder takes, the decoder gives back those up to 0xFFFF that
      are no surrogates, and no other. */
  lemma RoundTripExactly(code: nat)
    requires Encode(code).Some?
    ensures var e := Encode(code).value;
      (Char(e + [0], 0).Some? && Char(e + [0], 0).value == (code, |e|)) <==> Agreed(code)
  {
    var e := Encode(code).value;
    var b := e + [0];
    if Agreed(code) {
      EncodedDecodes(b, 0, code);
    } else if Char(b, 0).Some? {
      assert b[0] == e[0] && 0xe0 <= e[0] < 0xf0;
      FirstByte(b, 0);
      Short(b, 1, Lead(Class(b[0])), LeadBits(Class(b[0]), b[0]));
      DecodedEncodes(b, 0);
    }
  }

  // ---- what is accepted ----

  /** A further byte. */
  predicate Tail(b: seq<Byte>, at: nat) { at < |b| && 0x80 <= b[at] <= 0xbf }

  /** The six bits of a further byte behind those in front of it. */
  function More(x: int, c: int): int { x * 64 + (c - 0x80) }

  /** The `n` bytes at `at` are the encoding of `code` by section 4 of RFC 3629. */
  predicate WellFormed(b: seq<Byte>, at: nat, code: int, n: nat)
    requires at < |b|
  {
    var c: int := b[at];
    || (n == 1 && c <= 0x7f && code == c)
    || (n == 2 && 0xc2 <= c <= 0xdf && Tail(b, at + 1) && code == More(c - 0xc0, b[at + 1]))
    || (n == 3 && 0xe0 <= c <= 0xef && Tail(b, at + 1) && Tail(b, at + 2)
        && (c == 0xe0 ==> b[at + 1] >= 0xa0) && (c == 0xed ==> b[at + 1] <= 0x9f)
        && code == More(More(c - 0xe0, b[at + 1]), b[at + 2]))
    || (n == 4 && 0xf0 <= c <= 0xf4 && Tail(b, at + 1) && Tail(b, at + 2) && Tail(b, at + 3)
        && (c == 0xf0 ==> b[at + 1] >= 0x90) && (c == 0xf4 ==> b[at + 1] <= 0x8f)
        && code == More(More(More(c - 0xf0, b[at + 1]), b[at + 2]), b[at + 3]))
  }

  lemma DecodeFour(b: seq<Byte>, at: nat)
    requires Closed(b) && at < |b| && 0xf0 <= b[at] <= 0xf4 && Tail(b, at + 1) && Tail(b, at + 2) && Tail(b, at + 3)
    requires (b[at] == 0xf0 ==> b[at + 1] >= 0x90) && (b[at] == 0xf4 ==> b[at + 1] <= 0x8f) && b[at + 2] <= 0x9f
    ensures Char(b, at).Some? && Char(b, at).value ==
      (var c: int := b[at]; More(More(More(c - 0xf0, b[at + 1]), b[at + 2]), b[at + 3]), at + 4)
  {
    var c, d, e, f := b[at], b[at + 1], b[at + 2], b[at + 3];
    var s, x := Lead(Class(c)), LeadBits(Class(c), c);
    LeadBitsOfFour(c);
    LeadOfFour(c);
    SecondOfFour(c, d, s);
    ThirdOfFour(e);
    LastOfFour(f);
    SixBits(d);
    SixBits(e);
    SixBits(f);
    hide LeadBits, Lead, Class, Follow, Char, Decode;
    FirstByte(b, at);
    FurtherByte(b, at + 1, s, x);
    FurtherByte(b, at + 2, 17, More(x, d));
    FurtherByte(b, at + 3, 9, More(More(x, d), e));
  }

  lemma LeadBitsOfFour(c: Byte)
    requires 0xf0 <= c <= 0xf4
    ensures LeadBits(Class(c), c) == c - 0xf0
  {
  }

  lemma LastOfFour(f: Byte)
    requires 0x80 <= f < 0xc0
    ensures Follow(9, f / 16 % 4) == 0
  {
  }

  lemma SixBits(c: Byte)
    requires 0x80 <= c < 0xc0
    ensures c % 64 == c - 0x80 && c / 16 % 4 < 4
  {
  }

  /** Four bytes are accepted only if the third is below 0xa0: the table goes on from the second
      as it does behind 0xed. */
  lemma ShapeFour(b: seq<Byte>, at: nat)
    requires Closed(b) && at < |b| && Char(b, at).Some? && Char(b, at).value.1 > at + 3
    ensures 0xf0 <= b[at] <= 0xf4 && Tail(b, at + 1) && Tail(b, at + 2) && Tail(b, at + 3)
    ensures (b[at] == 0xf0 ==> b[at + 1] >= 0x90) && (b[at] == 0xf4 ==> b[at + 1] <= 0x8f) && b[at + 2] <= 0x9f
  {
    var s, x := Lead(Class(b[at])), LeadBits(Class(b[at]), b[at]);
    FirstByte(b, at);
    LeadOfFour(b[at]);
    hide Decode, LeadBits, Lead, Class;
    if s == 9 || s == 13 || s == 17 || s == 29 {
      Short(b, at + 1, s, x);
    } else {
      Round(b, at + 1, s, x);
      SecondOfFour(b[at], b[at + 1], s);
      hide Follow;
      var y := x * 64 + b[at + 1] % 64;
      Round(b, at + 2, 17, y);
      ThirdOfFour(b[at + 2]);
      Round(b, at + 3, 9, y * 64 + b[at + 2] % 64);
    }
  }

  lemma LeadOfFour(c: Byte)
    requires c >= 0xc0 && Lead(Class(c)) != REJECT
    ensures var s := Lead(Class(c));
      if c < 0xf0 then s == 9 || s == 13 || s == 17 || s == 29
      else c <= 0xf4 && s == if c == 0xf0 then 33 else if c == 0xf4 then 21 else 25
  {
  }

  lemma SecondOfFour(c: Byte, d: Byte, s: int)
    requires 0xf0 <= c <= 0xf4 && 0x80 <= d < 0xc0 && s == if c == 0xf0 then 33 else if c == 0xf4 then 21 else 25
    ensures var r := Follow(s, d / 16 % 4);
      if (c == 0xf0 && d < 0x90) || (c == 0xf4 && d > 0x8f) then r == REJECT else r == 17
  {
  }

  lemma ThirdOfFour(e: Byte)
    requires 0x80 <= e < 0xc0
    ensures Follow(17, e / 16 % 4) == if e <= 0x9f then 9 else REJECT
  {
  }

  /** `utf8_char` accepts exactly the well-formed encodings of up to three bytes, with their code
      points, and of those of four bytes the ones whose third byte is below 0xa0. */
  lemma DecodedExactly(b: seq<Byte>, at: nat, code: int, n: nat)
    requires Closed(b) && at < |b|
    ensures Char(b, at) == Some((code, at + n)) <==> WellFormed(b, at, code, n) && (n == 4 ==> b[at + 2] < 0xa0)
  {
    if WellFormed(b, at, code, n) && (n == 4 ==> b[at + 2] < 0xa0) {
      assert at + n < |b| || b[|b| - 1] == 0;
      if n == 2 {
        DecodeTwo(b, at);
      } else if n == 3 {
        DecodeThree(b, at);
      } else if n == 4 {
        DecodeFour(b, at);
      }
    }
    if Char(b, at) == Some((code, at + n)) && b[at] >= 0x80 {
      hide Char;
      if n > 3 {
        ShapeFour(b, at);
        DecodeFour(b, at);
      } else {
        DecodeShape(b, at);
        if b[at] < 0xe0 { DecodeTwo(b, at); } else { DecodeThree(b, at); }
      }
    }
  }

  // ---- the code ----

  /** `utf8_char` on a string in memory. */
  method ReadChar(b: array<Byte>, at: nat) returns (r: Option<(int, nat)>)
    requires Closed(b[..]) && at < b.Length
    ensures r == Char(b[..], at)
  {
    var state: int, code: int, data: nat := 0, 0, at;
    ghost var s := b[..];
    hide Char, Class, Follow, LeadBits, Lead;
    assert Decode(s, data, state, code) == Char(s, at) by { CharDecodes(s, at); }
    while true
      invariant data < b.Length && State(state) && Decode(s, data, state, code) == Char(s, at)
      decreases b.Length - data
    {
      var c := b[data];
      assert s[data] == c;
      if c < 128 { return if state != 0 then None else Some((c, data + 1)); }
      if state != 0 {
        if c >= 0xc0 { return None; }
        code := code * 64 + c % 64;
        state := Follow(state, c / 16 % 4);
      } else if c >= 0xc0 {
        code := LeadBits(Class(c), c);
        state := Lead(Class(c));
        LeadState(c);
      } else {
        return None;
      }
      data := data + 1;
      if state == REJECT { return None; }
      if state == 0 { return Some((code, data)); }
    }
  }

  lemma CharDecodes(b: seq<Byte>, at: nat)
    requires Closed(b) && at < |b|
    ensures Decode(b, at, 0, 0) == Char(b, at)
  {
  }

  lemma LeadState(c: Byte)
    requires c >= 0xc0
    ensures Lead(Class(c)) == REJECT || (State(Lead(Class(c))) && Lead(Class(c)) != 0)
  {
  }
}
