/**
 What a DNS packet holds, by the layout of sections 4.1.3 and 4.1.4 of RFC 1035: a name and a
 record laid out there are read as what they are, and a name ends in the record where its
 last label does.
 */
module DnsFormat {
  import opened Common
  import opened DnsName
  import opened DnsRecords

  /** The bytes `e` stand at `at`. */
  predicate Holds(p: Packet, at: nat, e: seq<Byte>) { at + |e| <= |p| && forall i :: 0 <= i < |e| ==> p[at + i] == e[i] }

  lemma HeldParts(p: Packet, at: nat, x: seq<Byte>, y: seq<Byte>)
    ensures Holds(p, at, x + y) <==> Holds(p, at, x) && Holds(p, at + |x|, y)
  {
    if Holds(p, at, x + y) {
      forall i | 0 <= i < |x| ensures p[at + i] == x[i] { assert p[at + i] == (x + y)[i]; }
      forall i | 0 <= i < |y| ensures p[at + |x| + i] == y[i] { assert p[at + (|x| + i)] == (x + y)[|x| + i]; }
    }
  }

  // ---- names ----

  /** A label: 1 to 63 bytes. */
  predicate Legal(labels: seq<seq<Byte>>) { forall i :: 0 <= i < |labels| ==> 1 <= |labels[i]| <= 63 }

  /** Every label behind its length. */
  function Counted(labels: seq<seq<Byte>>): seq<Byte>
    requires Legal(labels)
  {
    if labels == [] then [] else [|labels[0]| as Byte] + labels[0] + Counted(labels[1..])
  }

  /** How the labels of a name may end: at the root, or with a pointer to where the others are. */
  datatype Ending = Root | Pointer(target: nat)

  function Ended(e: Ending): seq<Byte>
    requires e.Pointer? ==> e.target < 0x4000
  {
    match e
    case Root => [0]
    case Pointer(t) => [(192 + t / 256) as Byte, (t % 256) as Byte]
  }

  /** A name laid out at a position is its labels and what its pointer leads to, and the record
      goes on behind its end there: after the zero, or after the two bytes of the pointer. */
  lemma {:induction false} NameRead(p: Packet, at: nat, labels: seq<seq<Byte>>, e: Ending, room: nat, bare: bool)
    requires Legal(labels) && (e.Pointer? ==> e.target < 0x4000) && Holds(p, at, Counted(labels) + Ended(e))
    requires labels == [] && e.Pointer? ==> !bare
    ensures Expand(p, at, room, bare) ==
      if |Counted(labels)| > room then None
      else if e.Root? then Some(Counted(labels))
      else Prefixed(Counted(labels), Expand(p, e.target, room - |Counted(labels)|, true))
    ensures After(p, at) == at + |Counted(labels)| + if e.Root? then 1 else 2
    decreases |labels|
  {
    hide *;
    HeldParts(p, at, Counted(labels), Ended(e));
    if labels == [] {
      NoneCounted();
      NameEnds(p, at, e, room, bare);
    } else {
      CountedHead(labels);
      var x, y := [|labels[0]| as Byte] + labels[0], Counted(labels[1..]);
      var n, m := |x|, |y|;
      HeldTwice(p, at, x, y, Ended(e));
      AtLabel(p, at, labels[0], room, bare);
      NameRead(p, at + n, labels[1..], e, if room < n then 0 else room - n, false);
      if n <= room {
        Together(x, y, room, e, Expand(p, at, room, bare), Expand(p, at + n, room - n, false),
                 if e.Pointer? && n + m <= room then Expand(p, e.target, room - n - m, true) else None);
        assert room - n - m == room - (n + m);
      }
    }
  }

  lemma NoneCounted()
    ensures Legal([]) && Counted([]) == []
  {
  }

  lemma CountedHead(labels: seq<seq<Byte>>)
    requires Legal(labels) && labels != []
    ensures Legal(labels[1..]) && 1 <= |labels[0]| <= 63
    ensures Counted(labels) == [|labels[0]| as Byte] + labels[0] + Counted(labels[1..])
    ensures |Counted(labels)| == |[|labels[0]| as Byte] + labels[0]| + |Counted(labels[1..])|
  {
  }

  lemma HeldTwice(p: Packet, at: nat, x: seq<Byte>, y: seq<Byte>, z: seq<Byte>)
    requires Holds(p, at, (x + y) + z)
    ensures Holds(p, at, x) && Holds(p, at + |x|, y + z)
  {
    assert (x + y) + z == x + (y + z);
    HeldParts(p, at, x, y + z);
  }

  lemma Together(x: seq<Byte>, y: seq<Byte>, room: nat, e: Ending, whole: Option<seq<Byte>>, rest: Option<seq<Byte>>, tail: Option<seq<Byte>>)
    requires |x| <= room && whole == Prefixed(x, rest)
    requires rest == if |y| > room - |x| then None else if e.Root? then Some(y) else Prefixed(y, tail)
    ensures whole == if |x| + |y| > room then None else if e.Root? then Some(x + y) else Prefixed(x + y, tail)
  {
    if tail.Some? { assert x + (y + tail.value) == (x + y) + tail.value; }
  }

  lemma NameEnds(p: Packet, at: nat, e: Ending, room: nat, bare: bool)
    requires (e.Pointer? ==> e.target < 0x4000 && !bare) && Holds(p, at, Ended(e))
    ensures Expand(p, at, room, bare) == if e.Root? then Some([]) else Prefixed([], Expand(p, e.target, room, true))
    ensures After(p, at) == at + if e.Root? then 1 else 2
  {
    assert p[at] == Ended(e)[0];
    if e.Pointer? {
      assert p[at + 1] == Ended(e)[1];
      assert e.target == e.target / 256 * 256 + e.target % 256;
      assert Target(p, at) == e.target;
      PrefixedNone([], Expand(p, e.target, room, true));
    }
  }

  lemma AtLabel(p: Packet, at: nat, text: seq<Byte>, room: nat, bare: bool)
    requires 1 <= |text| <= 63 && Holds(p, at, [|text| as Byte] + text)
    ensures var n := 1 + |text|;
      && After(p, at) == After(p, at + n)
      && Expand(p, at, room, bare) == if n > room then None else Prefixed([|text| as Byte] + text, Expand(p, at + n, room - n, false))
  {
    var x := [|text| as Byte] + text;
    assert p[at] == x[0];
    assert Label(p, at) == x;
  }

  // ---- records ----

  /** A number of `n` bytes, the highest first. */
  function BigEndian(x: nat, n: nat): (e: seq<Byte>)
    ensures |e| == n
  {
    if n == 0 then [] else BigEndian(x / 256, n - 1) + [(x % 256) as Byte]
  }

  lemma Number16(p: Packet, at: nat, x: nat)
    requires x < 0x1_0000 && Holds(p, at, BigEndian(x, 2))
    ensures at + 2 <= |p| && Unpack16(p, at) == x
  {
    var e := BigEndian(x, 2);
    assert BigEndian(x / 256, 1) == [] + [(x / 256 % 256) as Byte];
    assert e == [(x / 256) as Byte, (x % 256) as Byte];
    assert p[at] == e[0] && p[at + 1] == e[1];
  }

  /** Type, class, time to live, and the data behind its length. */
  function Fields(kind: nat, class_: nat, ttl: nat, data: seq<Byte>): seq<Byte> {
    BigEndian(kind, 2) + (BigEndian(class_, 2) + (BigEndian(ttl, 4) + (BigEndian(|data|, 2) + data)))
  }

  /** A record laid out at a position is found there with its name and data, its type where
      `dns_find` looks for it, and the next record follows. */
  lemma RecordRead(p: Packet, at: nat, labels: seq<seq<Byte>>, e: Ending, kind: nat, class_: nat, ttl: nat, data: seq<Byte>)
    requires Legal(labels) && (e.Pointer? ==> e.target < 0x4000) && kind < 0x1_0000 && |data| < 0x1_0000
    requires Holds(p, at, Counted(labels) + Ended(e) + Fields(kind, class_, ttl, data))
    ensures at <= |p| && RecordAt(p, at).Some? == Expand(p, at, LIMIT, false).Some?
    ensures RecordAt(p, at).Some? ==>
      var r := RecordAt(p, at).value;
      && Some(r.name) == Expand(p, at, LIMIT, false) && r.length == |data| && r.Next() == at + |Counted(labels)| + |Ended(e)| + 10 + |data|
      && Holds(p, r.fields + 10, data) && Unpack16(p, r.fields) == kind
  {
    var n := Counted(labels) + Ended(e);
    hide *;
    HeldParts(p, at, n, Fields(kind, class_, ttl, data));
    FieldsHeld(p, at + |n|, kind, class_, ttl, data);
    NameRead(p, at, labels, e, LIMIT, false);
    EndedLength(e);
    RecordOf(p, at, at + |n|, |data|);
  }

  lemma EndedLength(e: Ending)
    requires e.Pointer? ==> e.target < 0x4000
    ensures |Ended(e)| == if e.Root? then 1 else 2
  {
  }

  lemma RecordOf(p: Packet, at: nat, f: nat, length: nat)
    requires at <= |p| && f + 10 + length <= |p| && After(p, at) == f && Unpack16(p, f + 8) == length
    ensures RecordAt(p, at).Some? == Expand(p, at, LIMIT, false).Some?
    ensures RecordAt(p, at).Some? ==> RecordAt(p, at).value == Record(Expand(p, at, LIMIT, false).value, f, length) && RecordAt(p, at).value.Next() == f + 10 + length
  {
    hide Expand, After, Unpack16;
  }

  lemma FieldsHeld(p: Packet, f: nat, kind: nat, class_: nat, ttl: nat, data: seq<Byte>)
    requires Holds(p, f, Fields(kind, class_, ttl, data)) && kind < 0x1_0000 && |data| < 0x1_0000
    ensures f + 10 + |data| <= |p| && Unpack16(p, f) == kind && Unpack16(p, f + 8) == |data| && Holds(p, f + 10, data)
  {
    HeldParts(p, f, BigEndian(kind, 2), BigEndian(class_, 2) + (BigEndian(ttl, 4) + (BigEndian(|data|, 2) + data)));
    HeldParts(p, f + 2, BigEndian(class_, 2), BigEndian(ttl, 4) + (BigEndian(|data|, 2) + data));
    HeldParts(p, f + 4, BigEndian(ttl, 4), BigEndian(|data|, 2) + data);
    HeldParts(p, f + 8, BigEndian(|data|, 2), data);
    Number16(p, f, kind);
    Number16(p, f + 8, |data|);
    assert f + 10 + |data| <= |p|;
    hide BigEndian, Unpack16, Fields;
  }

  /** A question is a name and the four bytes of its type and class; the next one, or the first
      record, follows. */
  lemma QuestionRead(p: Packet, at: nat, labels: seq<seq<Byte>>, e: Ending, fields: seq<Byte>, count: nat)
    requires Legal(labels) && (e.Pointer? ==> e.target < 0x4000) && |fields| == 4
    requires Holds(p, at, Counted(labels) + Ended(e) + fields)
    ensures at <= |p| && Expand(p, at, LIMIT, false).Some? ==>
      var next := at + |Counted(labels)| + |Ended(e)| + 4;
      next <= |p| && Questions(p, at, count + 1) == Questions(p, next, count)
  {
    var n := Counted(labels) + Ended(e);
    assert |n| == |Counted(labels)| + |Ended(e)|;
    hide *;
    HeldParts(p, at, n, fields);
    NameAfter(p, at, labels, e, |n|);
    QuestionAt(p, at, |n|, fields, count);
  }

  lemma QuestionAt(p: Packet, at: nat, k: nat, fields: seq<Byte>, count: nat)
    requires |fields| == 4 && Holds(p, at + k, fields) && After(p, at) == at + k
    ensures at <= |p| && Expand(p, at, LIMIT, false).Some? ==>
      at + k + 4 <= |p| && Questions(p, at, count + 1) == Questions(p, at + k + 4, count)
  {
    hide *;
    HeldLength(p, at + k, fields);
    if Expand(p, at, LIMIT, false).Some? { OneQuestion(p, at, count); }
  }

  lemma NameAfter(p: Packet, at: nat, labels: seq<seq<Byte>>, e: Ending, k: nat)
    requires Legal(labels) && (e.Pointer? ==> e.target < 0x4000) && Holds(p, at, Counted(labels) + Ended(e))
    requires k == |Counted(labels)| + |Ended(e)|
    ensures After(p, at) == at + k
  {
    hide *;
    NameRead(p, at, labels, e, LIMIT, false);
    EndedLength(e);
  }

  lemma HeldLength(p: Packet, at: nat, e: seq<Byte>)
    requires Holds(p, at, e)
    ensures at + |e| <= |p|
  {
  }

  lemma OneQuestion(p: Packet, at: nat, count: nat)
    requires at <= |p| && Expand(p, at, LIMIT, false).Some? && After(p, at) + 4 <= |p|
    ensures Questions(p, at, count + 1) == Questions(p, After(p, at) + 4, count)
  {
    hide Expand, After;
  }
}
