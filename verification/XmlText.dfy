/**
 Element text in XML: `output_escaped` of core/xml_output.c writes a string with its markup
 characters as references (sections 2.4 and 4.6 of XML 1.0), and the text state of
 `xml_token` of core/xml_token.c decodes it in place, in front of what it still has to read.
 */
module XmlText {
  import opened Common
  import opened Utf8

  const LT: Byte := 60
  const GT: Byte := 62
  const AMP: Byte := 38
  const QUOT: Byte := 34
  const SEMI: Byte := 59
  const BANG: Byte := 33
  const HASH: Byte := 35

  predicate Ws(c: int) { c == 10 || c == 32 || c == 9 || c == 13 }

  predicate XmlChar(c: int) { Ws(c) || 0x20 <= c <= 0xd7ff || 0xe000 <= c <= 0xfffd || 0x10000 <= c <= 0x10ffff }

  // ---- escaping ----

  /** The names `output_escaped` writes. */
  function Name(c: int): seq<Byte> {
    if c == LT then [108, 116]
    else if c == GT then [103, 116]
    else if c == AMP then [97, 109, 112]
    else if c == QUOT then [113, 117, 111, 116]
    else []
  }

  /** `string_index` over the names `xml_reference` knows. */
  function Entity(name: seq<Byte>): Option<Byte> {
    if name == [97, 109, 112] then Some('&' as Byte)
    else if name == [108, 116] then Some('<' as Byte)
    else if name == [103, 116] then Some('>' as Byte)
    else if name == [113, 117, 111, 116] then Some('\U{22}' as Byte)
    else if name == [97, 112, 111, 115] then Some('\U{27}' as Byte)
    else None
  }

  predicate Marked(c: int) { c == LT || c == GT || c == AMP || c == QUOT }

  /** A string: the characters of section 2.2 of XML 1.0 up to 0xFFFF. */
  predicate IsText(cs: seq<nat>) {
    forall i :: 0 <= i < |cs| ==>
      cs[i] == 0x9 || cs[i] == 0xa || cs[i] == 0xd || 0x20 <= cs[i] <= 0xd7ff || 0xe000 <= cs[i] <= 0xfffd
  }

  function EscapeChar(c: nat): seq<Byte>
    requires Agreed(c)
  {
    if Marked(c) then [AMP] + Name(c) + [SEMI] else Encode(c).value
  }

  function Escaped(cs: seq<nat>): seq<Byte>
    requires IsText(cs)
  {
    if cs == [] then [] else EscapeChar(cs[0]) + Escaped(cs[1..])
  }

  function Bytes(cs: seq<nat>): seq<Byte>
    requires IsText(cs)
  {
    if cs == [] then [] else Encode(cs[0]).value + Bytes(cs[1..])
  }

  // ---- scanning ----

  /** A text token with where it starts and where its markup begins; a tag; markup or a
      numeric reference that is not part of this model; malformed; cut off by the end of the
      buffer; or past what the encoder takes. */
  datatype Outcome = Text(content: seq<Byte>, start: nat, at: nat) | Tag(at: nat) | Elsewhere | Invalid | Incomplete | Broken

  /** `strchr` for a semicolon. */
  function Semicolon(b: seq<Byte>, at: nat): (r: Option<nat>)
    requires Closed(b) && at < |b|
    ensures r.Some? ==> at <= r.value < |b| - 1 && b[r.value] == SEMI
    decreases |b| - at
  {
    if b[at] == SEMI then Some(at) else if b[at] == 0 then None else Semicolon(b, at + 1)
  }

  /** What `xml_reference` finds behind an ampersand. */
  datatype Found = Unended | Numeric | Unknown(end: nat) | Known(c: Byte, end: nat)

  function ReferenceAt(b: seq<Byte>, at: nat): (f: Found)
    requires Closed(b) && at < |b|
    ensures f.Unknown? || f.Known? ==> at <= f.end < |b| - 1
  {
    var end := Semicolon(b, at);
    if end.None? then Unended
    else if b[at] == HASH then Numeric
    else
      var e := Entity(b[at..end.value]);
      if e.None? then Unknown(end.value) else Known(e.value, end.value)
  }

  /** The text state. */
  function ScanText(b: seq<Byte>, at: nat, start: nat, content: seq<Byte>): Outcome
    requires Closed(b) && at < |b|
    decreases |b| - at
  {
    var c := b[at];
    if c == 0 then Incomplete
    else if c == AMP then
      match ReferenceAt(b, at + 1) {
        case Unended => Incomplete
        case Numeric => Elsewhere
        case Unknown(_) => Invalid
        case Known(e, end) => ScanText(b, end + 1, start, content + [e])
      }
    else if c == LT then
      if b[at + 1] == 0 then Incomplete
      else if b[at + 1] == BANG then Elsewhere
      else Text(content, start, at + 1)
    else
      var r := Char(b, at);
      if r.None? then Incomplete
      else if !XmlChar(r.value.0) then Invalid
      else if Encode(r.value.0).None? then Broken
      else ScanText(b, r.value.1, start, content + Encode(r.value.0).value)
  }

  /** From the initial state. */
  function Scan(b: seq<Byte>, at: nat): Outcome
    requires Closed(b) && at < |b|
    decreases |b| - at
  {
    if b[at] == 0 then Incomplete
    else if b[at] == LT then Tag(at + 1)
    else if Ws(b[at]) then Scan(b, at + 1)
    else ScanText(b, at, at, [])
  }

  // ---- the predefined entities ----

  /** These characters stand at `at`. */
  predicate Spelled(b: seq<Byte>, at: nat, text: string) {
    at + |text| <= |b| && forall i :: 0 <= i < |text| ==> b[at + i] as int == text[i] as int
  }

  predicate Predefined(name: string, c: char) {
    (name, c) in {("lt", '<'), ("gt", '>'), ("amp", '&'), ("quot", '\U{22}'), ("apos", '\U{27}')}
  }

  /** Behind an ampersand, the name of a predefined entity and a semicolon stand for its
      character. */
  lemma ReferenceKnown(b: seq<Byte>, at: nat, name: string, c: char)
    requires Closed(b) && at < |b| && Predefined(name, c) && Spelled(b, at, name + ";")
    ensures ReferenceAt(b, at) == Known(c as Byte, at + |name|)
  {
    var end := at + |name|;
    assert (name + ";")[|name|] == ';' && |name + ";"| == |name| + 1 && b[at + |name|] as int == ';' as int;
    assert (name + ";")[0] == name[0];
    forall i | at <= i < end ensures b[i] as int == name[i - at] as int { assert (name + ";")[i - at] == name[i - at]; }
    assert forall i :: 0 <= i < |name| ==> name[i] != ';' && name[i] != '#' && name[i] as int != 0;
    assert end < |b| - 1 || b[|b| - 1] == 0;
    SemicolonFound(b, at, end);
    EntityNamed(b[at..end], name, c);
    hide Entity, Semicolon, Predefined;
  }

  lemma EntityNamed(n: seq<Byte>, name: string, c: char)
    requires Predefined(name, c) && |n| == |name| && forall i :: 0 <= i < |n| ==> n[i] as int == name[i] as int
    ensures Entity(n) == Some(c as Byte)
  {
    if name == "lt" { assert n == [108, 116]; }
    else if name == "gt" { assert n == [103, 116]; }
    else if name == "amp" { assert n == [97, 109, 112]; }
    else if name == "quot" { assert n == [113, 117, 111, 116]; }
    else { assert n == [97, 112, 111, 115]; }
  }

  /** And nothing else is known. */
  lemma KnownOnly(b: seq<Byte>, at: nat) returns (name: string, c: char)
    requires Closed(b) && at < |b| && ReferenceAt(b, at).Known?
    ensures Predefined(name, c) && Spelled(b, at, name + ";") && ReferenceAt(b, at) == Known(c as Byte, at + |name|)
  {
    var end := Semicolon(b, at).value;
    var n := b[at..end];
    var p :=
      if n == [108, 116] then ("lt", '<')
      else if n == [103, 116] then ("gt", '>')
      else if n == [97, 109, 112] then ("amp", '&')
      else if n == [113, 117, 111, 116] then ("quot", '\U{22}')
      else ("apos", '\U{27}');
    name, c := p.0, p.1;
    assert |n| == |name| && forall i :: 0 <= i < |n| ==> b[at + i] == n[i] && n[i] as int == name[i] as int;
    ReferenceKnown(b, at, name, c);
  }

  /** The characters of a text as bytes. */
  function Ascii(text: string): seq<Byte>
    requires forall i :: 0 <= i < |text| ==> text[i] as int < 256
  {
    seq(|text|, i requires 0 <= i < |text| => text[i] as Byte)
  }

  /** `<`, `>`, `&` and the quotation mark go out as their entities, all else as it is. */
  lemma EscapesAs(c: nat)
    requires Agreed(c)
    ensures EscapeChar(c) ==
      if c == '<' as int then Ascii("&lt;") else if c == '>' as int then Ascii("&gt;")
      else if c == '&' as int then Ascii("&amp;") else if c == '\U{22}' as int then Ascii("&quot;")
      else Encode(c).value
  {
    assert Ascii("&lt;") == [38, 108, 116, 59] && Ascii("&gt;") == [38, 103, 116, 59];
    assert Ascii("&amp;") == [38, 97, 109, 112, 59] && Ascii("&quot;") == [38, 113, 117, 111, 116, 59];
    assert [AMP] + [108, 116] + [SEMI] == [38, 108, 116, 59] && [AMP] + [103, 116] + [SEMI] == [38, 103, 116, 59];
    assert [AMP] + [97, 109, 112] + [SEMI] == [38, 97, 109, 112, 59];
    assert [AMP] + [113, 117, 111, 116] + [SEMI] == [38, 113, 117, 111, 116, 59];
    hide Encode;
  }

  /** A character that is none of section 2.2 of XML 1.0 is refused. */
  lemma OtherRefused(b: seq<Byte>, at: nat, start: nat, content: seq<Byte>)
    requires Closed(b) && at < |b| && b[at] != 0 && b[at] != '&' as Byte && b[at] != '<' as Byte && Char(b, at).Some?
    requires var c := Char(b, at).value.0;
      !(c == 0x9 || c == 0xa || c == 0xd || 0x20 <= c <= 0xd7ff || 0xe000 <= c <= 0xfffd || 0x10000 <= c <= 0x10ffff)
    ensures ScanText(b, at, start, content) == Invalid
  {
    hide Char;
  }

  // ---- what is escaped is read back ----

  lemma HeldParts(b: seq<Byte>, at: nat, x: seq<Byte>, y: seq<Byte>)
    requires Holds(b, at, x + y)
    ensures Holds(b, at, x) && Holds(b, at + |x|, y)
  {
    forall i | 0 <= i < |x| ensures b[at + i] == x[i] { assert b[at + i] == (x + y)[i]; }
    forall i | 0 <= i < |y| ensures b[at + |x| + i] == y[i] { assert b[at + (|x| + i)] == (x + y)[|x| + i]; }
  }

  lemma HeldAt(b: seq<Byte>, at: nat, e: seq<Byte>, i: nat)
    requires Holds(b, at, e) && i < |e|
    ensures b[at + i] == e[i]
  {
  }

  lemma {:induction false} SemicolonFound(b: seq<Byte>, at: nat, end: nat)
    requires Closed(b) && at <= end < |b| && b[end] == SEMI && forall i :: at <= i < end ==> b[i] != SEMI && b[i] != 0
    ensures Semicolon(b, at) == Some(end)
    decreases end - at
  {
    if at < end { SemicolonFound(b, at + 1, end); }
  }

  /** A reference written for a character stands for it. */
  lemma ReferenceRead(b: seq<Byte>, at: nat, c: nat, start: nat, content: seq<Byte>)
    requires Closed(b) && Marked(c) && Holds(b, at, EscapeChar(c)) && at < |b|
    ensures at + |EscapeChar(c)| < |b|
    ensures ScanText(b, at, start, content) == ScanText(b, at + |EscapeChar(c)|, start, content + Encode(c).value)
  {
    ReferenceStands(b, at, c);
    assert Encode(c).value == [c];
    hide *;
    OneReference(b, at, start, content, c, at + 1 + |Name(c)|);
  }

  lemma OneReference(b: seq<Byte>, at: nat, start: nat, content: seq<Byte>, c: Byte, end: nat)
    requires Closed(b) && at < |b| && b[at] == AMP && ReferenceAt(b, at + 1) == Known(c, end)
    ensures end + 1 < |b| && ScanText(b, at, start, content) == ScanText(b, end + 1, start, content + [c])
  {
    hide ReferenceAt, Char, Encode;
  }

  /** Where the reference is found. */
  lemma ReferenceStands(b: seq<Byte>, at: nat, c: nat)
    requires Closed(b) && Marked(c) && Holds(b, at, EscapeChar(c)) && at < |b|
    ensures b[at] == AMP && at + 1 < |b| && |EscapeChar(c)| == 2 + |Name(c)| && at + |EscapeChar(c)| < |b|
    ensures c < 256 && ReferenceAt(b, at + 1) == Known(c, at + 1 + |Name(c)|)
  {
    var n := Name(c);
    assert EscapeChar(c) == [AMP] + n + [SEMI];
    EntityOf(c);
    hide Name, Entity, EscapeChar, Marked, Encode;
    NameStands(b, at, n);
    SemicolonFound(b, at + 1, at + 1 + |n|);
    assert b[at + 1] == n[0];
    hide Semicolon;
  }

  lemma NameStands(b: seq<Byte>, at: nat, n: seq<Byte>)
    requires Closed(b) && Holds(b, at, [AMP] + n + [SEMI]) && at < |b|
    ensures at + |n| + 2 < |b| && b[at] == AMP && b[at + 1 + |n|] == SEMI && b[at + 1..at + 1 + |n|] == n
    ensures forall i :: at + 1 <= i < at + 1 + |n| ==> b[i] == n[i - at - 1]
  {
    var e := [AMP] + n + [SEMI];
    HeldAt(b, at, e, 0);
    HeldAt(b, at, e, 1 + |n|);
    forall i | at + 1 <= i < at + 1 + |n| ensures b[i] == n[i - at - 1] { HeldAt(b, at, e, i - at); }
  }

  lemma EntityOf(c: int)
    requires Marked(c)
    ensures Entity(Name(c)).Some? && Entity(Name(c)).value == c && |Name(c)| > 0
    ensures forall i :: 0 <= i < |Name(c)| ==> Name(c)[i] != SEMI && Name(c)[i] != 0 && Name(c)[i] != HASH
  {
    assert |Name(LT)| == 2 && |Name(AMP)| == 3 && Name(AMP)[1] == 109;
  }

  /** Any other character is read as it was written. */
  lemma PlainRead(b: seq<Byte>, at: nat, c: nat, start: nat, content: seq<Byte>)
    requires Closed(b) && XmlChar(c) && Agreed(c) && !Marked(c) && Holds(b, at, EscapeChar(c)) && at < |b|
    ensures at + |EscapeChar(c)| < |b|
    ensures ScanText(b, at, start, content) == ScanText(b, at + |EscapeChar(c)|, start, content + Encode(c).value)
  {
    HeldAt(b, at, EscapeChar(c), 0);
    EncodedDecodes(b, at, c);
    FirstOfChar(c);
    hide Char, Encode;
  }

  lemma FirstOfChar(c: nat)
    requires XmlChar(c) && Agreed(c) && !Marked(c)
    ensures var e := Encode(c).value; |e| > 0 && e[0] != 0 && e[0] != AMP && e[0] != LT
  {
  }

  lemma Unfolded(cs: seq<nat>)
    requires IsText(cs) && cs != []
    ensures XmlChar(cs[0]) && Agreed(cs[0]) && IsText(cs[1..]) && Encode(cs[0]).Some?
    ensures Escaped(cs) == EscapeChar(cs[0]) + Escaped(cs[1..])
    ensures Bytes(cs) == Encode(cs[0]).value + Bytes(cs[1..])
    ensures |EscapeChar(cs[0])| > 0 && |Encode(cs[0]).value| > 0
  {
  }

  lemma NothingEscaped()
    ensures IsText([]) && Escaped([]) == [] && Bytes([]) == []
  {
  }

  lemma {:induction false} EscapedRead(b: seq<Byte>, at: nat, cs: seq<nat>, start: nat, content: seq<Byte>)
    requires Closed(b) && IsText(cs) && Holds(b, at, Escaped(cs)) && at < |b|
    ensures at + |Escaped(cs)| < |b|
    ensures ScanText(b, at, start, content) == ScanText(b, at + |Escaped(cs)|, start, content + Bytes(cs))
    decreases |cs|
  {
    hide *;
    if cs == [] {
      NothingEscaped();
      assert content + [] == content;
    } else {
      var c := cs[0];
      Unfolded(cs);
      HeldParts(b, at, EscapeChar(c), Escaped(cs[1..]));
      if Marked(c) {
        ReferenceRead(b, at, c, start, content);
      } else {
        PlainRead(b, at, c, start, content);
      }
      EscapedRead(b, at + |EscapeChar(c)|, cs[1..], start, content + Encode(c).value);
      assert (content + Encode(c).value) + Bytes(cs[1..]) == content + Bytes(cs);
    }
  }

  /** Leading white space is dropped. */
  function Trimmed(cs: seq<nat>): (r: seq<nat>)
    ensures IsText(cs) ==> IsText(r)
  {
    if cs != [] && Ws(cs[0]) then Trimmed(cs[1..]) else cs
  }

  /** The escaped string in memory at `at`, and behind it a tag. */
  predicate Element(b: seq<Byte>, at: nat, cs: seq<nat>)
    requires IsText(cs)
  {
    && Closed(b) && Holds(b, at, Escaped(cs)) && at + |Escaped(cs)| + 1 < |b|
    && b[at + |Escaped(cs)|] == LT && b[at + |Escaped(cs)| + 1] != 0 && b[at + |Escaped(cs)| + 1] != BANG
  }

  /** Element text is read back without its leading white space; a string of white space only
      is no text at all. */
  lemma {:induction false} TextRead(b: seq<Byte>, at: nat, cs: seq<nat>) returns (start: nat)
    requires IsText(cs) && Element(b, at, cs)
    ensures at < |b| && at <= start <= at + |Escaped(cs)|
    ensures Scan(b, at) ==
      if Trimmed(cs) == [] then Tag(at + |Escaped(cs)| + 1) else Text(Bytes(Trimmed(cs)), start, at + |Escaped(cs)| + 1)
    decreases |cs|
  {
    start := at;
    hide *;
    ElementParts(b, at, cs);
    if cs == [] {
      TrimmedNone(cs);
      NothingEscaped();
      TagFound(b, at);
    } else if Ws(cs[0]) {
      TrimmedOne(b, at, cs);
      start := TextRead(b, at + 1, cs[1..]);
    } else {
      TrimmedNone(cs);
      TextBegins(b, at, cs);
    }
  }

  lemma ElementParts(b: seq<Byte>, at: nat, cs: seq<nat>)
    requires IsText(cs) && Element(b, at, cs)
    ensures at < |b| && Closed(b) && Holds(b, at, Escaped(cs)) && at + |Escaped(cs)| + 1 < |b|
    ensures var end := at + |Escaped(cs)|; b[end] == LT && b[end + 1] != 0 && b[end + 1] != BANG
  {
  }

  lemma TrimmedNone(cs: seq<nat>)
    requires cs == [] || !Ws(cs[0])
    ensures Trimmed(cs) == cs
  {
  }

  lemma TagFound(b: seq<Byte>, at: nat)
    requires Closed(b) && at < |b| && b[at] == LT
    ensures Scan(b, at) == Tag(at + 1)
  {
  }

  /** One white space character is skipped. */
  lemma TrimmedOne(b: seq<Byte>, at: nat, cs: seq<nat>)
    requires IsText(cs) && Element(b, at, cs) && cs != [] && Ws(cs[0])
    ensures Trimmed(cs) == Trimmed(cs[1..]) && IsText(cs[1..]) && |Escaped(cs)| == 1 + |Escaped(cs[1..])|
    ensures Element(b, at + 1, cs[1..]) && at < |b| && Closed(b) && at + 1 < |b| && Scan(b, at) == Scan(b, at + 1)
  {
    assert Trimmed(cs) == Trimmed(cs[1..]);
    hide Trimmed, EscapeChar, Escaped, Scan, Element;
    Unfolded(cs);
    ElementParts(b, at, cs);
    HeldParts(b, at, EscapeChar(cs[0]), Escaped(cs[1..]));
    WsEscaped(cs[0]);
    HeldAt(b, at, EscapeChar(cs[0]), 0);
    hide Holds;
    WsSkipped(b, at);
    ElementOf(b, at + 1, cs[1..]);
  }

  lemma WsEscaped(c: nat)
    requires Ws(c)
    ensures Agreed(c) && |EscapeChar(c)| == 1 && EscapeChar(c)[0] == c
  {
  }

  lemma WsSkipped(b: seq<Byte>, at: nat)
    requires Closed(b) && at < |b| && Ws(b[at])
    ensures at + 1 < |b| && Scan(b, at) == Scan(b, at + 1)
  {
  }

  lemma ElementOf(b: seq<Byte>, at: nat, cs: seq<nat>)
    requires IsText(cs) && Closed(b) && Holds(b, at, Escaped(cs)) && at + |Escaped(cs)| + 1 < |b|
    requires var end := at + |Escaped(cs)|; b[end] == LT && b[end + 1] != 0 && b[end + 1] != BANG
    ensures Element(b, at, cs)
  {
  }

  lemma TextBegins(b: seq<Byte>, at: nat, cs: seq<nat>)
    requires IsText(cs) && Element(b, at, cs) && cs != [] && !Ws(cs[0])
    ensures at < |b| && Closed(b) && Scan(b, at) == Text(Bytes(cs), at, at + |Escaped(cs)| + 1)
  {
    hide *;
    Unfolded(cs);
    ElementParts(b, at, cs);
    HeldParts(b, at, EscapeChar(cs[0]), Escaped(cs[1..]));
    HeldAt(b, at, EscapeChar(cs[0]), 0);
    FirstOfEscaped(cs[0]);
    TextState(b, at);
    EscapedRead(b, at, cs, at, []);
    assert [] + Bytes(cs) == Bytes(cs);
    TextEnds(b, at + |Escaped(cs)|, at, Bytes(cs));
  }

  lemma TextState(b: seq<Byte>, at: nat)
    requires Closed(b) && at < |b| && b[at] != 0 && b[at] != LT && !Ws(b[at])
    ensures Scan(b, at) == ScanText(b, at, at, [])
  {
  }

  lemma TextEnds(b: seq<Byte>, at: nat, start: nat, content: seq<Byte>)
    requires Closed(b) && at + 1 < |b| && b[at] == LT && b[at + 1] != 0 && b[at + 1] != BANG
    ensures ScanText(b, at, start, content) == Text(content, start, at + 1)
  {
  }

  lemma FirstOfEscaped(c: nat)
    requires XmlChar(c) && Agreed(c) && !Ws(c)
    ensures |EscapeChar(c)| > 0 && EscapeChar(c)[0] != 0 && EscapeChar(c)[0] != LT && !Ws(EscapeChar(c)[0])
  {
  }

  lemma {:induction false} TrimmedShorter(cs: seq<nat>)
    requires IsText(cs)
    ensures |Bytes(Trimmed(cs))| <= |Bytes(cs)|
    ensures cs != [] && Ws(cs[0]) ==> |Bytes(Trimmed(cs))| < |Bytes(cs)|
  {
    if cs != [] && Ws(cs[0]) {
      Unfolded(cs);
      TrimmedShorter(cs[1..]);
      hide Bytes, Encode, Escaped;
    }
  }

  /** Escaped element text comes back as it was exactly when it does not begin with white
      space and is not empty. */
  lemma TextRoundTrip(b: seq<Byte>, cs: seq<nat>)
    requires IsText(cs) && Element(b, 0, cs)
    ensures ReadsAs(Scan(b, 0), Bytes(cs)) <==> cs != [] && cs[0] !in {9, 10, 13, 32}
  {
    var start := TextRead(b, 0, cs);
    TrimmedShorter(cs);
    hide Scan, Bytes, Element;
  }

  predicate ReadsAs(o: Outcome, content: seq<Byte>) { o.Text? && o.content == content }
}
