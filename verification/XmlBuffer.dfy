/**
 The two ends of element text at work on memory: the tokenizer rewrites its buffer in place,
 never writing past what it has read, and what the writer leaves in a buffer is read back
 from there.
 */
module XmlBuffer {
  import opened Common
  import opened Utf8
  import opened XmlText

  /** Two strings that agree from a position on. */
  predicate Alike(b: seq<Byte>, s: seq<Byte>, at: nat) { |b| == |s| && forall i :: at <= i < |s| ==> b[i] == s[i] }

  lemma {:induction false} DecodeAlike(b: seq<Byte>, s: seq<Byte>, at: nat, state: int, code: int)
    requires Closed(b) && Closed(s) && Alike(b, s, at) && at < |b| && State(state)
    ensures Decode(b, at, state, code) == Decode(s, at, state, code)
    decreases |b| - at
  {
    hide Class, Lead, LeadBits, Follow;
    var c := b[at];
    if c >= 128 {
      if state != 0 {
        var next := Follow(state, c / 16 % 4);
        if c < 0xc0 && next != REJECT && next != 0 { DecodeAlike(b, s, at + 1, next, code * 64 + c % 64); }
      } else if c >= 0xc0 {
        LeadState(c);
        if Lead(Class(c)) != REJECT { DecodeAlike(b, s, at + 1, Lead(Class(c)), LeadBits(Class(c), c)); }
      }
    }
  }

  /** No character grows when it is written again. */
  lemma NoLonger(b: seq<Byte>, at: nat)
    requires Closed(b) && at < |b| && Char(b, at).Some? && Char(b, at).value.0 >= 0 && Encode(Char(b, at).value.0).Some?
    ensures |Encode(Char(b, at).value.0).value| <= Char(b, at).value.1 - at
  {
    if Char(b, at).value.1 <= at + 3 { DecodedEncodes(b, at); }
  }

  /** `strchr` for a semicolon. */
  method FindSemicolon(b: array<Byte>, at: nat) returns (r: Option<nat>)
    requires Closed(b[..]) && at < b.Length
    ensures r == Semicolon(b[..], at)
  {
    var i := at;
    while b[i] != SEMI && b[i] != 0
      invariant at <= i < b.Length && Semicolon(b[..], i) == Semicolon(b[..], at)
      decreases b.Length - i
    {
      i := i + 1;
    }
    r := if b[i] == SEMI then Some(i) else None;
  }

  lemma {:induction false} SemicolonAlike(b: seq<Byte>, s: seq<Byte>, at: nat)
    requires Closed(b) && Closed(s) && Alike(b, s, at) && at < |b|
    ensures Semicolon(b, at) == Semicolon(s, at)
    decreases |b| - at
  {
    if b[at] != SEMI && b[at] != 0 { SemicolonAlike(b, s, at + 1); }
  }

  /** What the text state has done so far: `s` is the buffer as it was, `content` the text. */
  ghost predicate Scanning(b: seq<Byte>, s: seq<Byte>, start: nat, text: nat, data: nat, content: seq<Byte>, o: Outcome) {
    && Closed(b) && Closed(s) && Alike(b, s, data) && start <= text <= data < |b|
    && text == start + |content| && Holds(b, start, content) && o == ScanText(s, data, start, content)
  }

  datatype Step = Done(outcome: Outcome) | Going(text: nat, data: nat)

  /** `xml_reference` up to what it writes. */
  method Lookup(b: array<Byte>, at: nat) returns (f: Found)
    requires Closed(b[..]) && at < b.Length
    ensures f == ReferenceAt(b[..], at)
  {
    hide Semicolon, Entity;
    var end := FindSemicolon(b, at);
    if end.None? { return Unended; }
    if b[at] == HASH { return Numeric; }
    assert b[at..end.value] == b[..][at..end.value];
    var e := Entity(b[at..end.value]);
    f := if e.None? then Unknown(end.value) else Known(e.value, end.value);
  }

  lemma ReferenceAlike(b: seq<Byte>, s: seq<Byte>, at: nat)
    requires Closed(b) && Closed(s) && Alike(b, s, at) && at < |b|
    ensures ReferenceAt(b, at) == ReferenceAt(s, at)
  {
    SemicolonAlike(b, s, at);
    hide Semicolon, Entity;
    var end := Semicolon(b, at);
    if end.Some? { assert b[at..end.value] == s[at..end.value]; }
  }

  /** The entity goes to the end of the text, and a zero where the reference ended. */
  method Shorten(b: array<Byte>, text: nat, end: nat, e: Byte)
    requires text < b.Length && end < b.Length
    modifies b
    ensures b[..] == old(b[..])[end := 0][text := e]
  {
    b[end] := 0;
    b[text] := e;
  }

  /** A reference in the text. */
  method Reference(b: array<Byte>, start: nat, text: nat, data: nat, ghost s: seq<Byte>, ghost content: seq<Byte>, ghost o: Outcome)
    returns (step: Step, ghost content': seq<Byte>)
    requires data < b.Length && b[data] == AMP && Scanning(b[..], s, start, text, data, content, o)
    modifies b
    ensures step.Done? ==> step.outcome == o && !o.Text?
    ensures step.Going? ==> step.data > data && Scanning(b[..], s, start, step.text, step.data, content', o)
  {
    hide *;
    content' := content;
    Referred(b[..], s, start, text, data, content, o);
    var f := Lookup(b, data + 1);
    match f {
      case Unended => step := Done(Incomplete);
      case Numeric => step := Done(Elsewhere);
      case Unknown(end) =>
        b[end] := 0;
        step := Done(Invalid);
      case Known(e, end) =>
        Shorten(b, text, end, e);
        content' := content + [e];
        step := Going(text + 1, end + 1);
    }
  }

  /** What a reference means for the scan. */
  lemma Referred(b: seq<Byte>, s: seq<Byte>, start: nat, text: nat, data: nat, content: seq<Byte>, o: Outcome)
    requires data < |b| && b[data] == AMP && Scanning(b, s, start, text, data, content, o)
    ensures data + 1 < |s| == |b| && text < |b| && Closed(s) && Closed(b)
    ensures match ReferenceAt(b, data + 1)
      case Unended => o == Incomplete
      case Numeric => o == Elsewhere
      case Unknown(end) => o == Invalid && end < |b|
      case Known(e, end) =>
        data < end < |b| && Scanning(b[end := 0][text := e], s, start, text + 1, end + 1, content + [e], o)
  {
    ReferenceAlike(b, s, data + 1);
  }

  /** Any other character in the text: `utf8_encode` writes it at `text`. */
  method Character(b: array<Byte>, start: nat, text: nat, data: nat, ghost s: seq<Byte>, ghost content: seq<Byte>, ghost o: Outcome)
    returns (step: Step, ghost content': seq<Byte>)
    requires Scanning(b[..], s, start, text, data, content, o) && b[data] != 0 && b[data] != AMP && b[data] != LT
    modifies b
    ensures step.Done? ==> step.outcome == o && !o.Text?
    ensures step.Going? ==> step.data > data && Scanning(b[..], s, start, step.text, step.data, content', o)
  {
    content' := content;
    CharAlike(b[..], s, data);
    var r := ReadChar(b, data);
    if r.None? { return Done(Incomplete), content; }
    var c := r.value.0;
    if !XmlChar(c) { return Done(Invalid), content; }
    var e := Encode(c);
    if e.None? { return Done(Broken), content; }
    NoLonger(b[..], data);
    forall i | 0 <= i < |e.value| { b[text + i] := e.value[i]; }
    content' := content + e.value;
    hide Char, Encode, Decode;
    step := Going(text + |e.value|, r.value.1);
  }

  lemma CharAlike(b: seq<Byte>, s: seq<Byte>, at: nat)
    requires Closed(b) && Closed(s) && Alike(b, s, at) && at < |b|
    ensures Char(b, at) == Char(s, at)
  {
    DecodeAlike(b, s, at, 0, 0);
  }

  /** The text state of `xml_token`. */
  method TextState(b: array<Byte>, start: nat) returns (o: Outcome)
    requires Closed(b[..]) && start < b.Length
    modifies b
    ensures o == ScanText(old(b[..]), start, start, [])
    ensures o.Text? ==> Left(b[..], old(b[..]), o)
  {
    ghost var s := b[..];
    ghost var want, content := ScanText(s, start, start, []), [];
    var text, data := start, start;
    hide Char, Encode, Semicolon, Entity;
    while b[data] != 0
      invariant Scanning(b[..], s, start, text, data, content, want)
      decreases b.Length - data
    {
      if b[data] == LT {
        assert data + 1 < b.Length;
        if b[data + 1] == 0 { return Incomplete; }
        if b[data + 1] == BANG { return Elsewhere; }
        b[text] := 0;
        assert b[start..text] == content;
        return Text(b[start..text], start, data + 1);
      }
      var step: Step;
      if b[data] == AMP {
        step, content := Reference(b, start, text, data, s, content, want);
      } else {
        step, content := Character(b, start, text, data, s, content, want);
      }
      if step.Done? { return step.outcome; }
      text, data := step.text, step.data;
    }
    o := Incomplete;
  }

  /** A text token in place: the content with a zero byte behind it, all in front of what is
      still to be read, which is untouched. */
  predicate Left(b: seq<Byte>, s: seq<Byte>, o: Outcome)
    requires o.Text?
  {
    var end := o.start + |o.content|;
    end < o.at <= |b| && b[o.start..end] == o.content && b[end] == 0 && Alike(b, s, o.at)
  }

  /** `xml_token` from the initial state. */
  method Token(b: array<Byte>, from: nat) returns (o: Outcome)
    requires Closed(b[..]) && from < b.Length
    modifies b
    ensures o == Scan(old(b[..]), from)
    ensures o.Text? ==> Left(b[..], old(b[..]), o)
  {
    var data := from;
    hide ScanText;
    while b[data] != LT && b[data] != 0 && Ws(b[data])
      invariant data < b.Length && b[..] == old(b[..]) && Scan(b[..], data) == Scan(b[..], from)
      decreases b.Length - data
    {
      assert data + 1 < b.Length;
      data := data + 1;
    }
    if b[data] == 0 { return Incomplete; }
    if b[data] == LT { return Tag(data + 1); }
    o := TextState(b, data);
  }

  // ---- the writer ----

  /** The characters `rest` of the string are still to come at `i`. */
  predicate Coming(src: seq<Byte>, i: nat, rest: seq<nat>) {
    IsText(rest) && i + |Bytes(rest)| + 1 == |src| && Holds(src, i, Bytes(rest)) && src[|src| - 1] == 0
  }

  lemma NextChar(src: seq<Byte>, i: nat, rest: seq<nat>)
    requires Coming(src, i, rest)
    ensures Closed(src) && i < |src| && (src[i] == 0 <==> rest == [])
    ensures rest != [] ==>
      && Agreed(rest[0]) && Encode(rest[0]).Some? && Char(src, i).Some? && Char(src, i).value == (rest[0], i + |Encode(rest[0]).value|)
      && Holds(src, i, Encode(rest[0]).value) && Coming(src, i + |Encode(rest[0]).value|, rest[1..])
      && |Encode(rest[0]).value| > 0
  {
    hide *;
    ComingParts(src, i, rest);
    if rest == [] {
      NothingEscaped();
    } else {
      Unfolded(rest);
      HeldParts(src, i, Encode(rest[0]).value, Bytes(rest[1..]));
      HeldAt(src, i, Encode(rest[0]).value, 0);
      NotZero(rest[0]);
      EncodedDecodes(src, i, rest[0]);
      ComingOf(src, i + |Encode(rest[0]).value|, rest[1..]);
    }
  }

  lemma ComingParts(src: seq<Byte>, i: nat, rest: seq<nat>)
    requires Coming(src, i, rest)
    ensures IsText(rest) && i + |Bytes(rest)| + 1 == |src| && Holds(src, i, Bytes(rest)) && src[|src| - 1] == 0 && Closed(src)
  {
  }

  lemma ComingOf(src: seq<Byte>, i: nat, rest: seq<nat>)
    requires IsText(rest) && i + |Bytes(rest)| + 1 == |src| && Holds(src, i, Bytes(rest)) && src[|src| - 1] == 0
    ensures Coming(src, i, rest)
  {
  }

  lemma NotZero(c: nat)
    requires XmlChar(c) && Agreed(c)
    ensures |Encode(c).value| > 0 && Encode(c).value[0] != 0
  {
  }

  /** The piece written for a character, as `output_escaped` picks it. */
  method Piece(src: array<Byte>, i: nat, next: nat, c: nat) returns (piece: seq<Byte>)
    requires Agreed(c) && i <= next <= src.Length && src[i..next] == Encode(c).value
    ensures piece == EscapeChar(c)
  {
    piece :=
      if c == LT then [AMP, 108, 116, SEMI]
      else if c == GT then [AMP, 103, 116, SEMI]
      else if c == AMP then [AMP, 97, 109, 112, SEMI]
      else if c == QUOT then [AMP, 113, 117, 111, 116, SEMI]
      else src[i..next];
  }

  /** The first `n` bytes are as they were. */
  predicate Kept(a: seq<Byte>, b: seq<Byte>, n: nat) { |a| == |b| && n <= |a| && forall i :: 0 <= i < n ==> a[i] == b[i] }

  /** Of `cs`, all but `rest` is written from `ptr` on, and nothing in front of it is changed. */
  predicate Written(was: seq<Byte>, out: seq<Byte>, ptr: nat, done: seq<Byte>, end: nat, cs: seq<nat>, rest: seq<nat>) {
    && IsText(cs) && IsText(rest) && done + Escaped(rest) == Escaped(cs)
    && Holds(out, ptr, done) && ptr + |done| < end <= |out| && Kept(was, out, ptr)
  }

  /** `utf8_char` and the choice of what to write for it. */
  method PieceAt(src: array<Byte>, s: nat, ghost rest: seq<nat>) returns (piece: seq<Byte>, after: nat)
    requires Closed(src[..]) && s < src.Length && rest != [] && Agreed(rest[0]) && Encode(rest[0]).Some?
    requires Char(src[..], s).Some? && Char(src[..], s).value == (rest[0], s + |Encode(rest[0]).value|)
    requires Holds(src[..], s, Encode(rest[0]).value)
    ensures piece == EscapeChar(rest[0]) && after == s + |Encode(rest[0]).value|
  {
    hide Char, Encode, EscapeChar;
    var r := ReadChar(src, s);
    after := r.value.1;
    HeldSlice(src[..], s, Encode(rest[0]).value);
    piece := Piece(src, s, after, r.value.0);
  }

  /** `memcpy` */
  method Copy(piece: seq<Byte>, out: array<Byte>, p: nat)
    requires p + |piece| <= out.Length
    modifies out
    ensures With(old(out[..]), out[..], p, piece)
  {
    forall i | 0 <= i < |piece| { out[p + i] := piece[i]; }
  }

  lemma RoomFor(was: seq<Byte>, out: seq<Byte>, ptr: nat, done: seq<Byte>, end: nat, cs: seq<nat>, rest: seq<nat>)
    requires Written(was, out, ptr, done, end, cs, rest) && rest != []
    ensures Agreed(rest[0]) && IsText(cs) && ptr + |done| < end <= |out|
    ensures |Escaped(cs)| >= |done| + |EscapeChar(rest[0])| && |EscapeChar(rest[0])| > 0
  {
    Unfolded(rest);
    hide Escaped, EscapeChar, Encode, IsText;
    assert |done + Escaped(rest)| == |done| + |Escaped(rest)|;
  }

  /** `r` is `out` with a piece at `p`. */
  predicate With(out: seq<Byte>, r: seq<Byte>, p: nat, piece: seq<Byte>) {
    && p + |piece| <= |r| == |out| && (forall i :: 0 <= i < p ==> r[i] == out[i])
    && (forall i :: p <= i < p + |piece| ==> r[i] == piece[i - p])
  }

  lemma Extended(out: seq<Byte>, r: seq<Byte>, ptr: nat, done: seq<Byte>, piece: seq<Byte>)
    requires With(out, r, ptr + |done|, piece) && Holds(out, ptr, done)
    ensures Holds(r, ptr, done + piece) && Kept(out, r, ptr)
  {
    var e := done + piece;
    forall i | 0 <= i < |e| ensures r[ptr + i] == e[i] {
      if i < |done| { HeldAt(out, ptr, done, i); }
    }
  }

  lemma WrittenMore(was: seq<Byte>, out: seq<Byte>, r: seq<Byte>, ptr: nat, done: seq<Byte>, end: nat, cs: seq<nat>, rest: seq<nat>)
    requires Written(was, out, ptr, done, end, cs, rest) && rest != [] && Agreed(rest[0])
    requires With(out, r, ptr + |done|, EscapeChar(rest[0])) && ptr + |done| + |EscapeChar(rest[0])| < end
    ensures Written(was, r, ptr, done + EscapeChar(rest[0]), end, cs, rest[1..])
  {
    Unfolded(rest);
    Extended(out, r, ptr, done, EscapeChar(rest[0]));
    Joined(done, EscapeChar(rest[0]), Escaped(rest[1..]));
    KeptOn(was, out, r, ptr);
    hide With, Escaped, EscapeChar, Encode, IsText, XmlChar, Agreed, Kept, Holds;
  }

  /** The piece for the next character goes out. */
  method Put(piece: seq<Byte>, out: array<Byte>, ptr: nat, ghost was: seq<Byte>, ghost done: seq<Byte>, p: nat, end: nat,
             ghost cs: seq<nat>, ghost rest: seq<nat>)
    requires Written(was, out[..], ptr, done, end, cs, rest) && rest != [] && Agreed(rest[0]) && p == ptr + |done|
    requires piece == EscapeChar(rest[0]) && p + |piece| < end
    modifies out
    ensures Written(was, out[..], ptr, done + piece, end, cs, rest[1..])
  {
    ghost var now := out[..];
    WrittenBounds(was, now, ptr, done, end, cs, rest);
    hide *;
    Copy(piece, out, p);
    WrittenMore(was, now, out[..], ptr, done, end, cs, rest);
  }

  /** The next character goes out if its piece fits. */
  method PutNext(src: array<Byte>, s: nat, out: array<Byte>, ptr: nat, ghost was: seq<Byte>, ghost done: seq<Byte>, p: nat, end: nat,
                 ghost cs: seq<nat>, ghost rest: seq<nat>) returns (fits: bool, after: nat, q: nat)
    requires src != out && s < src.Length && Coming(src[..], s, rest) && rest != []
    requires Written(was, out[..], ptr, done, end, cs, rest) && p == ptr + |done| < end
    modifies out
    ensures fits <==> |EscapeChar(rest[0])| < end - p
    ensures !fits ==> out[..] == old(out[..])
    ensures fits ==> q == p + |EscapeChar(rest[0])| && Written(was, out[..], ptr, done + EscapeChar(rest[0]), end, cs, rest[1..])
    ensures s < after && Coming(src[..], after, rest[1..])
  {
    hide *;
    NextChar(src[..], s, rest);
    var piece;
    piece, after := PieceAt(src, s, rest);
    fits, q := |piece| < end - p, p + |piece|;
    if fits { Put(piece, out, ptr, was, done, p, end, cs, rest); }
  }

  /** `output_escaped`: the whole of the escaped string and a zero byte, or nothing. */
  method OutputEscaped(src: array<Byte>, out: array<Byte>, ptr: nat, end: nat, ghost cs: seq<nat>) returns (ok: bool, next: nat)
    requires src != out && Coming(src[..], 0, cs) && ptr < end <= out.Length
    modifies out
    ensures IsText(cs) && Kept(old(out[..]), out[..], ptr)
    ensures ok <==> |Escaped(cs)| < end - ptr
    ensures if ok then next == ptr + |Escaped(cs)| < end && Holds(out[..], ptr, Escaped(cs)) && out[next] == 0 else next == ptr && out[ptr] == 0
  {
    var p: nat, s: nat := ptr, 0;
    ghost var was, rest, done: seq<Byte> := out[..], cs, [];
    hide *;
    NextChar(src[..], 0, cs);
    StartWriting(src[..], was, ptr, end, cs);
    WrittenBounds(was, was, ptr, done, end, cs, rest);
    while src[s] != 0
      invariant s < src.Length && Coming(src[..], s, rest) && (src[s] == 0 <==> rest == [])
      invariant Written(was, out[..], ptr, done, end, cs, rest) && p == ptr + |done| < end
      decreases src.Length - s
    {
      RoomFor(was, out[..], ptr, done, end, cs, rest);
      var fits, after, q := PutNext(src, s, out, ptr, was, done, p, end, cs, rest);
      if !fits {
        Zeroed(was, out[..], ptr, done, end, cs, rest, ptr);
        out[ptr] := 0;
        return false, ptr;
      }
      done := done + EscapeChar(rest[0]);
      p, s, rest := q, after, rest[1..];
      WrittenBounds(was, out[..], ptr, done, end, cs, rest);
      NextChar(src[..], s, rest);
    }
    WrittenAll(was, out[..], ptr, done, end, cs);
    Zeroed(was, out[..], ptr, done, end, cs, rest, p);
    out[p] := 0;
    return true, p;
  }

  /** The terminating zero. */
  lemma Zeroed(was: seq<Byte>, out: seq<Byte>, ptr: nat, done: seq<Byte>, end: nat, cs: seq<nat>, rest: seq<nat>, p: nat)
    requires Written(was, out, ptr, done, end, cs, rest) && (p == ptr || p == ptr + |done|)
    ensures p < |out| && Kept(was, out[p := 0], ptr) && (p == ptr + |done| ==> Holds(out[p := 0], ptr, done))
  {
  }

  lemma KeptOn(a: seq<Byte>, b: seq<Byte>, c: seq<Byte>, n: nat)
    requires Kept(a, b, n) && Kept(b, c, n)
    ensures Kept(a, c, n)
  {
  }

  lemma WrittenBounds(was: seq<Byte>, out: seq<Byte>, ptr: nat, done: seq<Byte>, end: nat, cs: seq<nat>, rest: seq<nat>)
    requires Written(was, out, ptr, done, end, cs, rest)
    ensures IsText(cs) && IsText(rest) && ptr + |done| < end <= |out|
  {
  }

  lemma StartWriting(src: seq<Byte>, out: seq<Byte>, ptr: nat, end: nat, cs: seq<nat>)
    requires Coming(src, 0, cs) && ptr < end <= |out|
    ensures Written(out, out, ptr, [], end, cs, cs)
  {
    assert [] + Escaped(cs) == Escaped(cs);
  }

  lemma WrittenAll(was: seq<Byte>, out: seq<Byte>, ptr: nat, done: seq<Byte>, end: nat, cs: seq<nat>)
    requires Written(was, out, ptr, done, end, cs, [])
    ensures IsText(cs) && done == Escaped(cs) && Holds(out, ptr, Escaped(cs))
  {
    NothingEscaped();
    assert done + [] == done;
  }

  lemma HeldStill(b: seq<Byte>, r: seq<Byte>, at: nat, e: seq<Byte>, p: nat)
    requires Holds(b, at, e) && |r| == |b| && at + |e| <= p <= |b| && forall i :: 0 <= i < p ==> r[i] == b[i]
    ensures Holds(r, at, e)
  {
  }

  lemma HeldSlice(b: seq<Byte>, at: nat, e: seq<Byte>)
    requires Holds(b, at, e)
    ensures at + |e| <= |b| && b[at..at + |e|] == e
  {
  }

  lemma Joined(a: seq<Byte>, b: seq<Byte>, c: seq<Byte>)
    ensures a + (b + c) == (a + b) + c
  {
  }

  // ---- both ends ----

  /** A string written as element text and tokenized in the same buffer: what comes back is
      the string without its leading white space. */
  method WriteAndRead(src: array<Byte>, out: array<Byte>, ghost cs: seq<nat>) returns (o: Outcome)
    requires src != out && Coming(src[..], 0, cs) && IsText(cs) && |Escaped(cs)| + 3 < out.Length
    modifies out
    ensures Trimmed(cs) == [] ==> o.Tag?
    ensures Trimmed(cs) != [] ==> ReadsAs(o, Bytes(Trimmed(cs))) && Held(out[..], o.start, Bytes(Trimmed(cs)))
  {
    hide Escaped, Bytes, Scan, Coming, Trimmed, IsText;
    var ok, n := OutputEscaped(src, out, 0, out.Length - 3, cs);
    ghost var was := out[..];
    out[n], out[n + 1], out[out.Length - 1] := LT, 47, 0;
    HeldStill(was, out[..], 0, Escaped(cs), n);
    ElementWritten(out[..], cs);
    ghost var start := TextRead(out[..], 0, cs);
    o := Token(out, 0);
  }

  /** A string in memory with its terminating zero. */
  predicate Held(b: seq<Byte>, at: nat, s: seq<Byte>) { at + |s| < |b| && b[at..at + |s|] == s && b[at + |s|] == 0 }

  lemma ElementWritten(b: seq<Byte>, cs: seq<nat>)
    requires IsText(cs) && |Escaped(cs)| + 3 < |b| && Holds(b, 0, Escaped(cs))
    requires b[|Escaped(cs)|] == LT && b[|Escaped(cs)| + 1] == 47 && b[|b| - 1] == 0
    ensures Element(b, 0, cs)
  {
  }
}
