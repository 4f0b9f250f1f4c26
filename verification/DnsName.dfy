/**
 Names in DNS packets, `dns_name` of core/mdns.c: counted labels and pointers to labels
 elsewhere in the packet (section 4.1.4 of RFC 1035). Decompression ends on every packet,
 cyclic pointers included, and the names it accepts are exactly those of at most 254 bytes
 that reach a label or the end from every pointer.
 */
module DnsName {
  import opened Common

  newtype Byte = b: int | 0 <= b < 256

  type Packet = seq<Byte>

  const LIMIT: nat := 254

  // ---- the format ----

  predicate IsEnd(p: Packet, at: int) { 0 <= at < |p| && p[at] == 0 }

  predicate IsLabel(p: Packet, at: int) {
    0 <= at < |p| && 0 < p[at] < 64 && at + 1 + p[at] as int <= |p|
  }

  predicate IsPointer(p: Packet, at: int) { 0 <= at && at + 2 <= |p| && p[at] >= 192 }

  /** The label with its count. */
  function Label(p: Packet, at: int): seq<Byte>
    requires IsLabel(p, at)
  {
    p[at..at + 1 + p[at] as int]
  }

  /** `UNPACK16 (data) & 0x3fff` */
  function Target(p: Packet, at: int): nat
    requires IsPointer(p, at)
  {
    (p[at] as int * 256 + p[at + 1] as int) % 0x4000
  }

  /** The bytes at `at` spell `name` in `steps` labels and pointers. `bare` says that a pointer
      has led here: unless pointers may follow pointers, a label or the end must come first. */
  predicate Spells(p: Packet, at: int, name: seq<Byte>, steps: nat, bare: bool)
    decreases steps
  {
    && 0 <= at < |p|
    && var c := p[at] as int;
      if c == 0 then name == [] && steps == 0
      else if c < 64 then
        && steps > 0 && at + c < |p| && c < |name| && name[..c + 1] == p[at..at + c + 1]
        && Spells(p, at + c + 1, name[c + 1..], steps - 1, false)
      else
        c >= 192 && at + 1 < |p| && steps > 0 && !bare && Spells(p, (c - 192) * 256 + p[at + 1] as int, name, steps - 1, true)
  }

  /** Where the bytes of the name end in the record itself. */
  function After(p: Packet, at: int): (r: int)
    requires 0 <= at <= |p|
    ensures at < r
    decreases |p| - at
  {
    if IsLabel(p, at) then After(p, at + 1 + p[at] as int)
    else if IsPointer(p, at) then at + 2
    else at + 1
  }

  // ---- decompression ----

  /** What `dns_name` reads with `room` bytes left in the name. */
  function Expand(p: Packet, at: int, room: nat, bare: bool): (r: Option<seq<Byte>>)
    ensures r.Some? ==> |r.value| <= room
    decreases room, if bare then 0 else 1
  {
    if IsEnd(p, at) then Some([])
    else if IsLabel(p, at) then
      var n := 1 + p[at] as int;
      if n > room then None
      else
        var rest := Expand(p, at + n, room - n, false);
        if rest.None? then None else Some(Label(p, at) + rest.value)
    else if IsPointer(p, at) && !bare then Expand(p, Target(p, at), room, true)
    else None
  }

  /** A label in front of what is spelled behind it. */
  lemma LabelSpells(p: Packet, at: int, rest: seq<Byte>, steps: nat, bare: bool)
    requires IsLabel(p, at)
    ensures var n := 1 + p[at] as int;
      Spells(p, at + n, rest, steps, false) <==> Spells(p, at, Label(p, at) + rest, steps + 1, bare)
  {
    var name := Label(p, at) + rest;
    assert name[..p[at] as int + 1] == Label(p, at) && name[p[at] as int + 1..] == rest;
  }

  lemma PointerSpells(p: Packet, at: int, name: seq<Byte>, steps: nat, bare: bool)
    requires IsPointer(p, at)
    ensures !bare && Spells(p, Target(p, at), name, steps, true) <==> Spells(p, at, name, steps + 1, bare)
    ensures !Spells(p, at, name, 0, bare)
  {
    assert Target(p, at) == (p[at] as int - 192) * 256 + p[at + 1] as int;
  }

  /** The names accepted are those the format spells within the limit, no pointer leading
      straight to another. */
  lemma {:induction false} ExpandSpells(p: Packet, at: int, room: nat, bare: bool) returns (steps: nat)
    requires Expand(p, at, room, bare).Some?
    ensures Spells(p, at, Expand(p, at, room, bare).value, steps, bare)
    decreases room, if bare then 0 else 1
  {
    if IsEnd(p, at) {
      steps := 0;
    } else if IsLabel(p, at) {
      var n := 1 + p[at] as int;
      var rest := Expand(p, at + n, room - n, false).value;
      hide Spells;
      var k := ExpandSpells(p, at + n, room - n, false);
      LabelSpells(p, at, rest, k, bare);
      steps := k + 1;
    } else {
      hide Spells;
      var k := ExpandSpells(p, Target(p, at), room, true);
      PointerSpells(p, at, Expand(p, at, room, bare).value, k, bare);
      steps := k + 1;
    }
  }

  lemma {:induction false} SpellsExpands(p: Packet, at: int, name: seq<Byte>, steps: nat, bare: bool, room: nat)
    requires Spells(p, at, name, steps, bare) && |name| <= room
    ensures Expand(p, at, room, bare) == Some(name)
    decreases steps
  {
    if IsLabel(p, at) {
      var n := 1 + p[at] as int;
      assert name == Label(p, at) + name[n..];
      assert steps > 0 && !IsEnd(p, at);
      hide Spells;
      LabelSpells(p, at, name[n..], steps - 1, bare);
      SpellsExpands(p, at + n, name[n..], steps - 1, false, room - n);
    } else if IsPointer(p, at) {
      assert steps > 0;
      hide Spells;
      PointerSpells(p, at, name, steps - 1, bare);
      SpellsExpands(p, Target(p, at), name, steps - 1, true, room);
    }
  }

  /** The format spells the name, no pointer leading straight to another. */
  ghost predicate Spelled(p: Packet, at: int, name: seq<Byte>) { exists steps: nat :: Spells(p, at, name, steps, false) }

  /** `dns_name` accepts a name exactly when the format spells it within the limit, no
      pointer leading straight to another. */
  lemma AcceptedExactly(p: Packet, at: int, name: seq<Byte>)
    ensures Expand(p, at, LIMIT, false) == Some(name) <==> |name| <= 254 && Spelled(p, at, name)
  {
    if Expand(p, at, LIMIT, false) == Some(name) {
      var steps := ExpandSpells(p, at, LIMIT, false);
      assert Spells(p, at, name, steps, false);
    }
    if |name| <= LIMIT && Spelled(p, at, name) {
      var steps: nat :| Spells(p, at, name, steps, false);
      SpellsExpands(p, at, name, steps, false, LIMIT);
    }
  }

  /** A pointer that leads to itself spells nothing. */
  lemma SelfPointerRejected(p: Packet, at: int)
    requires IsPointer(p, at) && Target(p, at) == at
    ensures Expand(p, at, LIMIT, false).None?
  {
  }

  // ---- the code ----

  /** `dns_name`: the name with its terminating zero in the buffer, and where the record goes on. */
  method Read(p: Packet, start: nat, name: array<Byte>) returns (next: Option<nat>, ghost length: nat)
    requires start <= |p| && name.Length == 256
    modifies name
    ensures next.Some? <==> Expand(p, start, LIMIT, false).Some?
    ensures next.Some? ==> length <= LIMIT && Some(name[..length]) == Expand(p, start, LIMIT, false) && name[length] == 0
    ensures next.Some? ==> next.value == After(p, start) && start < next.value <= |p|
  {
    hide Expand, Prefixed, Spells, After;
    var ptr: Option<nat> := None;
    var nameLength: nat, prevLength: int := 0, -1;
    var data: nat := start;
    length := 0;
    PrefixedNone(name[..0], Expand(p, start, LIMIT, false));
    while data + 1 <= |p|
      invariant nameLength <= LIMIT && prevLength <= nameLength && data <= |p|
      invariant ptr.Some? ==> start < ptr.value + 2 == After(p, start) <= |p|
      invariant ptr.None? ==> start <= data && After(p, data) == After(p, start)
      invariant Expand(p, start, LIMIT, false) == Prefixed(name[..nameLength], Expand(p, data, LIMIT - nameLength, prevLength == nameLength))
      decreases LIMIT - nameLength, if prevLength == nameLength then 0 else 1
    {
      var move := Next(p, data, name, nameLength, prevLength == nameLength);
      match move {
        case Fail => return None, 0;
        case Finish => return Some(if ptr.Some? then ptr.value + 2 else data + 1), nameLength;
        case Copied(n) =>
          nameLength := nameLength + n;
          data := data + n;
        case Jump(target) =>
          if ptr.None? { ptr := Some(data); }
          data := target;
          prevLength := nameLength;
      }
    }
    Outside(p, data, LIMIT - nameLength, prevLength == nameLength, name[..nameLength]);
    return None, 0;
  }

  datatype Move = Fail | Finish | Copied(n: nat) | Jump(target: nat)

  /** One round of the loop: what is at `data` is copied, followed, or refused. `bare` is
      whether nothing was read since the last pointer. */
  method Next(p: Packet, data: nat, name: array<Byte>, nameLength: nat, bare: bool) returns (move: Move)
    requires data + 1 <= |p| && nameLength <= LIMIT && name.Length == 256
    modifies name
    ensures name[..nameLength] == old(name[..nameLength])
    ensures Moved(p, data, old(name[..nameLength]), name[..], nameLength, LIMIT - nameLength, bare, move)
  {
    ghost var room, a := LIMIT - nameLength, name[..nameLength];
    hide Expand, Prefixed, Spells;
    if p[data] == 0 {
      EndStep(p, data, room, bare, a);
      name[nameLength] := 0;
      return Finish;
    }
    if p[data] < 64 {
      var n := p[data] as int + 1;
      if nameLength + n > LIMIT || data + n > |p| {
        NoLabel(p, data, room, bare, a);
        return Fail;
      }
      LabelStep(p, data, room, bare, a);
      CopyLabel(p, data, name, nameLength);
      assert name[..nameLength] == name[..nameLength + n][..nameLength];
      return Copied(n);
    }
    if p[data] >= 192 && data + 2 <= |p| {
      PointerStep(p, data, room, bare, a);
      var target := Target(p, data);
      return if target > |p| || bare then Fail else Jump(target);
    }
    NoPointer(p, data, room, bare, a);
    return Fail;
  }

  /** What a round leaves to be read, `a` being the name so far. */
  ghost predicate Moved(p: Packet, data: nat, a: seq<Byte>, name: seq<Byte>, length: nat, room: nat, bare: bool, move: Move)
    requires data < |p| && length <= LIMIT && |name| == 256
  {
    var whole := Prefixed(a, Expand(p, data, room, bare));
    match move
    case Fail => whole.None?
    case Finish => whole == Some(a) && name[length] == 0 && After(p, data) == data + 1
    case Copied(n) =>
      && 0 < n <= room && data + n <= |p| && After(p, data) == After(p, data + n)
      && length + n <= 256 && whole == Prefixed(name[..length + n], Expand(p, data + n, room - n, false))
    case Jump(target) =>
      !bare && target <= |p| && After(p, data) == data + 2 <= |p| && whole == Prefixed(a, Expand(p, target, room, true))
  }

  /** `memcpy` of a label. */
  method CopyLabel(p: Packet, at: nat, name: array<Byte>, length: nat)
    requires IsLabel(p, at) && length + |Label(p, at)| <= name.Length
    modifies name
    ensures name[..length + |Label(p, at)|] == old(name[..length]) + Label(p, at)
  {
    var n := p[at] as int + 1;
    forall i | 0 <= i < n { name[length + i] := p[at + i]; }
    assert name[..length] == old(name[..length]);
    assert name[length..length + n] == Label(p, at);
    assert name[..length + n] == name[..length] + name[length..length + n];
  }

  // What each branch of the loop does to the rest of the name, `a` being what is read so far.

  lemma EndStep(p: Packet, at: int, room: nat, bare: bool, a: seq<Byte>)
    requires 0 <= at < |p| && p[at] == 0
    ensures Prefixed(a, Expand(p, at, room, bare)) == Some(a) && After(p, at) == at + 1
  {
    assert a + [] == a;
  }

  lemma NoLabel(p: Packet, at: int, room: nat, bare: bool, a: seq<Byte>)
    requires 0 <= at < |p| && 0 < p[at] < 64 && (1 + p[at] as int > room || at + 1 + p[at] as int > |p|)
    ensures Prefixed(a, Expand(p, at, room, bare)).None? && Expand(p, at, room, bare).None?
  {
  }

  lemma LabelStep(p: Packet, at: int, room: nat, bare: bool, a: seq<Byte>)
    requires 0 <= at < |p| && 0 < p[at] < 64 && 1 + p[at] as int <= room && at + 1 + p[at] as int <= |p|
    ensures var n := 1 + p[at] as int;
      && IsLabel(p, at) && |Label(p, at)| == n && After(p, at) == After(p, at + n)
      && Prefixed(a, Expand(p, at, room, bare)) == Prefixed(a + Label(p, at), Expand(p, at + n, room - n, false))
  {
    var n := 1 + p[at] as int;
    var rest := Expand(p, at + n, room - n, false);
    if rest.Some? { assert a + (Label(p, at) + rest.value) == (a + Label(p, at)) + rest.value; }
  }

  lemma NoPointer(p: Packet, at: int, room: nat, bare: bool, a: seq<Byte>)
    requires 0 <= at < |p| && 64 <= p[at] && (p[at] >= 192 ==> at + 2 > |p|)
    ensures Prefixed(a, Expand(p, at, room, bare)).None?
  {
  }

  lemma PointerStep(p: Packet, at: int, room: nat, bare: bool, a: seq<Byte>)
    requires 0 <= at && at + 2 <= |p| && p[at] >= 192
    ensures IsPointer(p, at) && After(p, at) == at + 2
    ensures Prefixed(a, Expand(p, at, room, bare)) ==
      if bare || Target(p, at) > |p| then None else Prefixed(a, Expand(p, Target(p, at), room, true))
  {
  }

  lemma Outside(p: Packet, at: int, room: nat, bare: bool, a: seq<Byte>)
    requires at >= |p|
    ensures Prefixed(a, Expand(p, at, room, bare)).None?
  {
  }

  lemma PrefixedNone(a: seq<Byte>, r: Option<seq<Byte>>)
    requires a == []
    ensures Prefixed(a, r) == r
  {
    if r.Some? { assert a + r.value == r.value; }
  }

  function Prefixed(a: seq<Byte>, r: Option<seq<Byte>>): Option<seq<Byte>> {
    if r.None? then None else Some(a + r.value)
  }
}
