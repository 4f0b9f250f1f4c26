/**
 Walks over the resource records of a DNS packet: `parse_rr`, `skip_section`,
 `skip_questions` and `dns_find` of core/dnssd_client.c. Every record is at least eleven
 bytes, so the walks always advance and end.
 */
module DnsRecords {
  import opened Common
  import opened DnsName

  function Unpack16(p: Packet, at: nat): (n: nat)
    requires at + 2 <= |p|
    ensures n < 0x1_0000
  {
    p[at] as int * 256 + p[at + 1] as int
  }

  /** A record: its owner name, where its fields begin, and the length of its data. */
  datatype Record = Record(name: seq<Byte>, fields: nat, length: nat)
  {
    function Next(): nat { fields + 10 + length }
  }

  /** The record at a position, if name, fields and data lie within the packet. */
  function RecordAt(p: Packet, at: nat): (r: Option<Record>)
    requires at <= |p|
    ensures r.Some? ==> at + 11 <= r.value.Next() <= |p|
  {
    var name, f := Expand(p, at, LIMIT, false), After(p, at);
    if name.None? || f + 10 > |p| || f + 10 + Unpack16(p, f + 8) > |p| then None
    else Some(Record(name.value, f, Unpack16(p, f + 8)))
  }

  /** Where `count` records lead. */
  function Skip(p: Packet, at: nat, count: nat): (r: Option<nat>)
    requires at <= |p|
    ensures r.Some? ==> at + 11 * count <= r.value <= |p|
    decreases count
  {
    if count == 0 then Some(at)
    else
      var r := RecordAt(p, at);
      if r.None? then None else Skip(p, r.value.Next(), count - 1)
  }

  /** The record `n` behind a position. */
  function Nth(p: Packet, at: nat, n: nat): Option<Record>
    requires at <= |p|
  {
    var s := Skip(p, at, n);
    if s.None? then None else RecordAt(p, s.value)
  }

  /** A string ends at its first zero byte. */
  function CString(s: seq<Byte>): seq<Byte> {
    if s == [] || s[0] == 0 then [] else [s[0]] + CString(s[1..])
  }

  predicate Matches(p: Packet, r: Record, name: seq<Byte>, kind: nat)
    requires r.fields + 2 <= |p|
  {
    CString(r.name) == CString(name) && Unpack16(p, r.fields) == kind
  }

  /** `parse_rr`: the fields and the length of the data; the name is in the buffer. */
  method ParseRecord(p: Packet, start: nat, buffer: array<Byte>) returns (fields: Option<nat>, length: nat)
    requires start <= |p| && buffer.Length == 256
    modifies buffer
    ensures fields.Some? <==> RecordAt(p, start).Some?
    ensures fields.Some? ==> Parsed(RecordAt(p, start).value, fields.value, length, buffer[..])
  {
    hide Expand, After;
    length := 0;
    var next, k := Read(p, start, buffer);
    if next.None? || next.value + 10 > |p| { return None, 0; }
    var data := next.value;
    length := Unpack16(p, data + 8);
    if data + 10 + length > |p| { return None, 0; }
    fields := Some(data);
  }

  predicate Parsed(r: Record, fields: nat, length: nat, buffer: seq<Byte>) {
    r.fields == fields && r.length == length && Terminated(buffer, r.name)
  }

  /** The buffer begins with the string and a zero byte. */
  predicate Terminated(buffer: seq<Byte>, s: seq<Byte>) {
    |s| < |buffer| && buffer[..|s|] == s && buffer[|s|] == 0
  }

  lemma {:induction false} TerminatedString(buffer: seq<Byte>, s: seq<Byte>)
    requires Terminated(buffer, s)
    ensures CString(buffer) == CString(s)
  {
    if s != [] && s[0] != 0 {
      assert buffer[0] == s[0] && buffer[1..][..|s| - 1] == s[1..];
      TerminatedString(buffer[1..], s[1..]);
    }
  }

  /** `streq` on two buffers that hold a zero byte. */
  method StrEq(a: array<Byte>, b: array<Byte>) returns (eq: bool)
    requires 0 in a[..] && 0 in b[..]
    ensures eq == (CString(a[..]) == CString(b[..]))
  {
    ghost var s, t := a[..], b[..];
    ghost var y :| 0 <= y < |s| && s[y] == 0;
    ghost var z :| 0 <= z < |t| && t[z] == 0;
    hide CString;
    var i := 0;
    assert s[0..] == s && t[0..] == t;
    while a[i] == b[i] && a[i] != 0
      invariant i <= y && i <= z
      invariant (CString(s) == CString(t)) == (CString(s[i..]) == CString(t[i..]))
      decreases a.Length - i
    {
      CStringBoth(s, t, i);
      i := i + 1;
    }
    eq := a[i] == b[i];
    CStringHead(s[i..], t[i..]);
  }

  lemma CStringBoth(s: seq<Byte>, t: seq<Byte>, i: nat)
    requires i < |s| && i < |t| && s[i] == t[i] && s[i] != 0
    ensures (CString(s[i..]) == CString(t[i..])) == (CString(s[i + 1..]) == CString(t[i + 1..]))
  {
    assert s[i..][1..] == s[i + 1..] && t[i..][1..] == t[i + 1..];
    CStringTail(s[i..]);
    CStringTail(t[i..]);
    hide CString;
    var x, y := CString(s[i + 1..]), CString(t[i + 1..]);
    assert ([s[i]] + x)[1..] == x && ([s[i]] + y)[1..] == y;
  }

  lemma CStringTail(s: seq<Byte>)
    requires s != [] && s[0] != 0
    ensures CString(s) == [s[0]] + CString(s[1..])
  {
  }

  lemma CStringHead(s: seq<Byte>, t: seq<Byte>)
    requires s != [] && t != [] && (s[0] != t[0] || s[0] == 0)
    ensures (CString(s) == CString(t)) == (s[0] == t[0])
  {
    if s[0] != t[0] {
      if s[0] != 0 { assert CString(s)[0] == s[0]; }
      if t[0] != 0 { assert CString(t)[0] == t[0]; }
    }
  }

  /** `skip_section` */
  method SkipSection(p: Packet, start: nat, count: nat) returns (next: Option<nat>)
    requires start <= |p|
    ensures next == Skip(p, start, count)
    ensures next.Some? ==> start + 11 * count <= next.value <= |p|
  {
    hide RecordAt;
    var buffer := new Byte[256];
    var data: nat, left: nat := start, count;
    while left > 0
      invariant data <= |p| && Skip(p, data, left) == Skip(p, start, count)
    {
      var fields, length := ParseRecord(p, data, buffer);
      if fields.None? { return None; }
      data := fields.value + 10 + length;
      left := left - 1;
    }
    next := Some(data);
  }

  /** Where `count` questions lead. */
  function Questions(p: Packet, at: nat, count: nat): (r: Option<nat>)
    requires at <= |p|
    ensures r.Some? ==> at + 5 * count <= r.value <= |p|
    decreases count
  {
    if count == 0 then Some(at)
    else if Expand(p, at, LIMIT, false).None? || After(p, at) + 4 > |p| then None
    else Questions(p, After(p, at) + 4, count - 1)
  }

  /** `skip_questions` */
  method SkipQuestions(p: Packet, start: nat, count: nat) returns (next: Option<nat>)
    requires start <= |p|
    ensures next == Questions(p, start, count)
    ensures next.Some? ==> start + 5 * count <= next.value <= |p|
  {
    hide Expand, After;
    var buffer := new Byte[256];
    var data: nat, left: nat := start, count;
    while left > 0
      invariant data <= |p| && Questions(p, data, left) == Questions(p, start, count)
    {
      var after, _ := Read(p, data, buffer);
      if after.None? || after.value + 4 > |p| { return None; }
      data := after.value + 4;
      left := left - 1;
    }
    next := Some(data);
  }

  /** `dns_find`: the first record of the section with the name and type; none when the
      records run out first. */
  method Find(p: Packet, section: nat, name: array<Byte>, kind: nat)
    returns (fields: Option<nat>, length: nat, ghost n: nat)
    requires section <= |p| && 0 in name[..]
    ensures fields.Some? ==> var r := Nth(p, section, n);
      r.Some? && r.value.fields == fields.value && r.value.length == length && Matches(p, r.value, name[..], kind)
    ensures fields.None? ==> Nth(p, section, n).None?
    ensures forall k :: 0 <= k < n ==> Nth(p, section, k).Some? && !Matches(p, Nth(p, section, k).value, name[..], kind)
  {
    hide RecordAt, Skip, CString;
    var buffer := new Byte[256];
    var data := section;
    n := 0;
    SkipNone(p, section);
    while true
      invariant data <= |p| && Skip(p, section, n) == Some(data)
      invariant forall k :: 0 <= k < n ==> Nth(p, section, k).Some? && !Matches(p, Nth(p, section, k).value, name[..], kind)
      decreases |p| - data
    {
      fields, length := ParseRecord(p, data, buffer);
      if fields.None? { return None, 0, n; }
      ghost var r := RecordAt(p, data).value;
      TerminatedString(buffer[..], r.name);
      assert buffer[|r.name|] in buffer[..];
      var eq := StrEq(name, buffer);
      if eq && kind == Unpack16(p, fields.value) { return fields, length, n; }
      SkipMore(p, section, n);
      data := fields.value + 10 + length;
      n := n + 1;
    }
  }

  lemma SkipNone(p: Packet, at: nat)
    requires at <= |p|
    ensures Skip(p, at, 0) == Some(at)
  {
  }

  lemma {:induction false} SkipMore(p: Packet, at: nat, n: nat)
    requires at <= |p| && Skip(p, at, n).Some?
    ensures Skip(p, at, n + 1) == var r := RecordAt(p, Skip(p, at, n).value); if r.None? then None else Some(r.value.Next())
    decreases n
  {
    hide RecordAt, Expand, After;
    if n > 0 {
      SkipMore(p, RecordAt(p, at).value.Next(), n - 1);
    } else {
      var r := RecordAt(p, at);
      if r.Some? { SkipNone(p, r.value.Next()); }
    }
  }
}
