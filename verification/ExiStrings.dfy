/**
 String tables over whole lists of values: what stands where in the tables of writer and
 reader, told from the values alone, and so which compact identifier stands for which
 string (section 7.3.3 of the Efficient XML Interchange Format 1.0).
 */
module ExiStrings {
  import opened Words
  import opened BitStream
  import opened ExiValue
  import opened ExiValueProofs

  /** A string given to one name. */
  datatype Use = Use(name: Name, s: Str)

  // ---- the values, without tables ----

  /** The strings used under a name, in the order of their first use. */
  function FirstUses(uses: seq<Use>, name: Name): seq<Str> {
    if uses == [] then []
    else
      var n := |uses| - 1;
      var before := FirstUses(uses[..n], name);
      if uses[n].name == name && uses[n].s !in before then before + [uses[n].s] else before
  }

  /** The strings used under any name, in the order of their first use. */
  function FirstOfAll(uses: seq<Use>): seq<Str> {
    if uses == [] then []
    else
      var n := |uses| - 1;
      var before := FirstOfAll(uses[..n]);
      if uses[n].s !in before then before + [uses[n].s] else before
  }

  /** The different strings used under a name, and those used at all. */
  function Strings(uses: seq<Use>, name: Name): set<Str> { set u | u in uses && u.name == name :: u.s }
  function AllStrings(uses: seq<Use>): set<Str> { set u | u in uses :: u.s }

  lemma {:induction false} FirstUsesCount(uses: seq<Use>, name: Name)
    ensures |FirstUses(uses, name)| == |Strings(uses, name)|
    ensures forall s :: s in FirstUses(uses, name) <==> Use(name, s) in uses
  {
    if uses == [] {
      assert Strings(uses, name) == {};
    } else {
      var before, u := uses[..|uses| - 1], uses[|uses| - 1];
      FirstUsesCount(before, name);
      StringsStep(uses, name);
      StringsMeans(before, name);
      hide Strings;
      var was := Strings(before, name);
      assert u.s in was ==> was + {u.s} == was;
      assert u.s !in was ==> |was + {u.s}| == |was| + 1;
    }
  }

  lemma StringsMeans(uses: seq<Use>, name: Name)
    ensures forall s :: s in Strings(uses, name) <==> Use(name, s) in uses
  {
    forall s ensures s in Strings(uses, name) <==> Use(name, s) in uses {
      if Use(name, s) in uses { assert Use(name, s).s == s; }
    }
  }

  lemma StringsStep(uses: seq<Use>, name: Name)
    requires uses != []
    ensures var before, u := uses[..|uses| - 1], uses[|uses| - 1];
      && Strings(uses, name) == (if u.name == name then Strings(before, name) + {u.s} else Strings(before, name))
      && forall s :: Use(name, s) in uses <==> Use(name, s) in before || (u.name == name && u.s == s)
  {
    var before, u := uses[..|uses| - 1], uses[|uses| - 1];
    assert uses == before + [u];
    assert forall v :: v in uses <==> v in before || v == u;
    StringsMeans(uses, name);
    StringsMeans(before, name);
    hide Strings;
  }

  lemma AllStringsStep(uses: seq<Use>)
    requires uses != []
    ensures AllStrings(uses) == AllStrings(uses[..|uses| - 1]) + {uses[|uses| - 1].s}
  {
    assert uses == uses[..|uses| - 1] + [uses[|uses| - 1]];
    assert uses[|uses| - 1] in uses;
    assert forall u :: u in uses ==> u in uses[..|uses| - 1] || u == uses[|uses| - 1];
    assert forall u :: u in uses[..|uses| - 1] ==> u in uses;
  }

  lemma {:induction false} FirstOfAllCount(uses: seq<Use>)
    ensures |FirstOfAll(uses)| == |AllStrings(uses)|
    ensures forall s :: s in FirstOfAll(uses) <==> s in AllStrings(uses)
  {
    if uses == [] {
      assert AllStrings(uses) == {};
    } else {
      var before, s := uses[..|uses| - 1], uses[|uses| - 1].s;
      FirstOfAllCount(before);
      AllStringsStep(uses);
      assert s in AllStrings(before) ==> AllStrings(uses) == AllStrings(before);
      assert s !in AllStrings(before) ==> |AllStrings(before) + {s}| == |AllStrings(before)| + 1;
      hide AllStrings;
    }
  }

  lemma LastUse(uses: seq<Use>, name: Name)
    requires uses != []
    ensures var q, u := FirstUses(uses[..|uses| - 1], name), uses[|uses| - 1];
      FirstUses(uses, name) == if u.name == name && u.s !in q then q + [u.s] else q
  {
  }

  lemma LastOfAll(uses: seq<Use>)
    requires uses != []
    ensures var q, u := FirstOfAll(uses[..|uses| - 1]), uses[|uses| - 1];
      FirstOfAll(uses) == if u.s in q then q else q + [u.s]
  {
  }

  lemma StillAt(q: seq<Str>, r: seq<Str>, k: nat, s: Str, x: Str)
    requires k < |q| && q[k] == s && s !in q[..k] && (r == q || r == q + [x])
    ensures k < |r| && r[k] == s && s !in r[..k]
  {
    assert r[..k] == q[..k];
  }

  lemma JustAdded(q: seq<Str>, r: seq<Str>, s: Str)
    requires s !in q && r == q + [s]
    ensures r[|q|] == s && s !in r[..|q|]
  {
    assert r[..|q|] == q;
  }

  /** A string stands behind as many others as were used before its first use. */
  lemma {:induction false} Rank(uses: seq<Use>, name: Name, s: Str, i: nat)
    requires i < |uses| && uses[i] == Use(name, s) && Use(name, s) !in uses[..i]
    ensures var k, q := |Strings(uses[..i], name)|, FirstUses(uses, name); k < |q| && q[k] == s && s !in q[..k]
  {
    var before, u := uses[..|uses| - 1], uses[|uses| - 1];
    LastUse(uses, name);
    hide FirstUses, Strings;
    FirstUsesCount(before, name);
    var k, q, r := |Strings(uses[..i], name)|, FirstUses(before, name), FirstUses(uses, name);
    if i < |uses| - 1 {
      assert before[..i] == uses[..i];
      Rank(before, name, s, i);
      StillAt(q, r, k, s, u.s);
    } else {
      assert uses[..i] == before;
      JustAdded(q, r, s);
    }
  }

  lemma {:induction false} RankOfAll(uses: seq<Use>, s: Str, i: nat)
    requires i < |uses| && uses[i].s == s && s !in AllStrings(uses[..i])
    ensures var k, q := |AllStrings(uses[..i])|, FirstOfAll(uses); k < |q| && q[k] == s && s !in q[..k]
  {
    var before, u := uses[..|uses| - 1], uses[|uses| - 1];
    LastOfAll(uses);
    hide FirstOfAll, AllStrings;
    FirstOfAllCount(before);
    var k, q, r := |AllStrings(uses[..i])|, FirstOfAll(before), FirstOfAll(uses);
    if i < |uses| - 1 {
      assert before[..i] == uses[..i];
      RankOfAll(before, s, i);
      StillAt(q, r, k, s, u.s);
    } else {
      assert uses[..i] == before;
      JustAdded(q, r, s);
    }
  }

  // ---- the writer ----

  /** The tables of a writer that has written these values. */
  function Written(uses: seq<Use>): Tables {
    if uses == [] then Tables([], map[])
    else
      var n := |uses| - 1;
      StringBits(Written(uses[..n]), uses[n].name, uses[n].s).1
  }

  /** One more value in the tables: in front of it nothing moves. */
  lemma WriterGrowsBy(t: Tables, u: Use)
    ensures var r := StringBits(t, u.name, u.s).1;
      && r.Local(u.name) == (if u.s in t.Local(u.name) then t.Local(u.name) else t.Local(u.name) + [u.s])
      && (forall name :: name != u.name ==> r.Local(name) == t.Local(name))
      && r.global == (if u.s in t.Local(u.name) || u.s in t.global then t.global else t.global + [u.s])
  {
    hide UintBits, NBits, LiteralBits, BitCount;
  }

  /** The table of a name holds the strings used under it, the global table all, each at its
      first use. */
  lemma {:induction false} WriterTables(uses: seq<Use>)
    ensures Written(uses).global == FirstOfAll(uses)
    ensures forall name :: Written(uses).Local(name) == FirstUses(uses, name)
  {
    hide StringBits;
    if uses != [] {
      var before, u := uses[..|uses| - 1], uses[|uses| - 1];
      WriterTables(before);
      LastOfAll(uses);
      WriterGrowsBy(Written(before), u);
      UsedAtAll(before, u);
      assert Written(uses) == StringBits(Written(before), u.name, u.s).1;
      hide Written, FirstUses, FirstOfAll, Tables.Local;
      forall name ensures Written(uses).Local(name) == FirstUses(uses, name) {
        LastUse(uses, name);
        assert Written(before).Local(name) == FirstUses(before, name);
      }
    }
  }

  lemma UsedAtAll(uses: seq<Use>, u: Use)
    ensures u.s in FirstUses(uses, u.name) ==> u.s in FirstOfAll(uses)
  {
    FirstUsesCount(uses, u.name);
    FirstOfAllCount(uses);
    hide FirstUses, FirstOfAll;
    assert Use(u.name, u.s) == u;
    assert u in uses ==> u.s in AllStrings(uses);
  }

  lemma IndexIs(t: seq<Str>, s: Str, i: nat)
    requires i < |t| && t[i] == s && s !in t[..i]
    ensures IndexOf(t, s) == i
  {
    var j := IndexOf(t, s);
    assert forall k, r: seq<Str> | 0 <= k < |r| :: r[k] in r;
    assert forall k, m | 0 <= k < m <= |t| :: t[..m][k] == t[k];
  }

  /** What a writer that has written `uses` emits for one more string. */
  function Emitted(uses: seq<Use>, name: Name, s: Str): seq<bool> { StringBits(Written(uses), name, s).0 }

  /** A compact identifier: the part, and the number `i` among `n`. */
  function Identifier(part: nat, i: nat, n: nat): seq<bool>
    requires n > 0
  {
    NBits(part, 8) + NBits(i, BitCount(n - 1))
  }

  lemma LocalHit(t: Tables, name: Name, s: Str)
    requires s in t.Local(name)
    ensures StringBits(t, name, s).0 == Identifier(0, IndexOf(t.Local(name), s), |t.Local(name)|)
  {
    Found(t.Local(name), s);
    assert UintBits(0) == NBits(0, 8);
    hide NBits, BitCount, UintBits, IndexOf, LiteralBits, Tables.Local, Tables.AddLocal, Tables.AddGlobal;
  }

  lemma GlobalHit(t: Tables, name: Name, s: Str)
    requires s !in t.Local(name) && s in t.global
    ensures StringBits(t, name, s).0 == Identifier(1, IndexOf(t.global, s), |t.global|)
  {
    Found(t.Local(name), s);
    Found(t.global, s);
    assert UintBits(1) == NBits(1, 8);
    hide NBits, BitCount, UintBits, IndexOf, LiteralBits, Tables.Local, Tables.AddLocal, Tables.AddGlobal;
  }

  lemma NoHit(t: Tables, name: Name, s: Str)
    requires s !in t.Local(name) && s !in t.global
    ensures StringBits(t, name, s).0 == LiteralBits(s)
  {
    Found(t.Local(name), s);
    Found(t.global, s);
    hide NBits, BitCount, UintBits, IndexOf, LiteralBits, Tables.Local, Tables.AddLocal, Tables.AddGlobal;
  }

  lemma Found(t: seq<Str>, s: Str)
    ensures IndexOf(t, s) >= 0 <==> s in t
  {
    var i := IndexOf(t, s);
    assert i >= 0 ==> t[i] in t;
  }

  /** A string used before under its name goes out as the number of other strings used under
      the name before its own first use, among all of them. */
  lemma CompactId(uses: seq<Use>, name: Name, s: Str, i: nat)
    requires i < |uses| && uses[i] == Use(name, s) && Use(name, s) !in uses[..i]
    ensures |Strings(uses, name)| > 0
    ensures Emitted(uses, name, s) == Identifier(0, |Strings(uses[..i], name)|, |Strings(uses, name)|)
  {
    hide *;
    var t, q := Written(uses), FirstUses(uses, name);
    LocalIs(uses, name, t, q, s);
    Rank(uses, name, s, i);
    LocalId(t, name, s, q, |Strings(uses[..i], name)|, |Strings(uses, name)|);
  }

  lemma LocalIs(uses: seq<Use>, name: Name, t: Tables, q: seq<Str>, s: Str)
    requires t == Written(uses) && q == FirstUses(uses, name)
    ensures t.Local(name) == q && |q| == |Strings(uses, name)| && Emitted(uses, name, s) == StringBits(t, name, s).0
  {
    WriterTables(uses);
    FirstUsesCount(uses, name);
    hide StringBits, Written, FirstUses, Strings;
  }

  lemma LocalId(t: Tables, name: Name, s: Str, q: seq<Str>, i: nat, n: nat)
    requires t.Local(name) == q && i < |q| == n && q[i] == s && s !in q[..i]
    ensures StringBits(t, name, s).0 == Identifier(0, i, n)
  {
    hide *;
    IndexIs(q, s, i);
    LocalHit(t, name, s);
  }

  lemma OtherId(t: Tables, name: Name, s: Str, q: seq<Str>, i: nat, n: nat)
    requires s !in t.Local(name) && t.global == q && i < |q| == n && q[i] == s && s !in q[..i]
    ensures StringBits(t, name, s).0 == Identifier(1, i, n)
  {
    hide *;
    IndexIs(q, s, i);
    GlobalHit(t, name, s);
  }

  /** One used before under other names only goes out likewise, counting the strings of all names. */
  lemma GlobalId(uses: seq<Use>, name: Name, s: Str, i: nat)
    requires i < |uses| && uses[i].s == s && s !in AllStrings(uses[..i]) && Use(name, s) !in uses
    ensures |AllStrings(uses)| > 0
    ensures Emitted(uses, name, s) == Identifier(1, |AllStrings(uses[..i])|, |AllStrings(uses)|)
  {
    hide *;
    var t, q := Written(uses), FirstOfAll(uses);
    GlobalIs(uses, name, t, q, s);
    RankOfAll(uses, s, i);
    OtherId(t, name, s, q, |AllStrings(uses[..i])|, |AllStrings(uses)|);
  }

  lemma GlobalIs(uses: seq<Use>, name: Name, t: Tables, q: seq<Str>, s: Str)
    requires t == Written(uses) && q == FirstOfAll(uses)
    ensures t.global == q && |q| == |AllStrings(uses)| && Emitted(uses, name, s) == StringBits(t, name, s).0
    ensures s in t.Local(name) <==> Use(name, s) in uses
    ensures s in t.global <==> s in AllStrings(uses)
  {
    WriterTables(uses);
    FirstUsesCount(uses, name);
    FirstOfAllCount(uses);
    hide StringBits, Written, FirstUses, FirstOfAll, AllStrings;
  }

  /** And one never used before goes out in full, behind its length plus two. */
  lemma NewString(uses: seq<Use>, name: Name, s: Str)
    requires s !in AllStrings(uses)
    ensures Emitted(uses, name, s) == LiteralBits(s)
    ensures LiteralBits(s) == UintBits(|s| + 2) + CodeBits(s)
  {
    var t := Written(uses);
    GlobalIs(uses, name, t, FirstOfAll(uses), s);
    assert Use(name, s) in uses ==> s in AllStrings(uses);
    NoHit(t, name, s);
    hide Emitted, StringBits, Written, FirstOfAll, AllStrings, UintBits, CodeBits;
  }

  // ---- the reader ----

  /** A string read under a name, in full or by its identifier, into a container of this size. */
  datatype Ask = Ask(name: Name, size: nat)
  datatype Got = Got(name: Name, s: Str, literal: bool)

  /** A run of strings read one after the other from any input. */
  datatype Reading = Reading(got: seq<Got>, t: Tables, pos: nat) | Refused

  function ReadStrings(bits: seq<bool>, asks: seq<Ask>): Reading {
    if asks == [] then Reading([], Tables([], map[]), 0)
    else
      var a := asks[|asks| - 1];
      match ReadStrings(bits, asks[..|asks| - 1])
      case Refused => Refused
      case Reading(got, t, pos) =>
        match DecodeString(bits, pos, t, a.name, a.size)
        case Fail(_) => Refused
        case Ok((v, t'), p, _) =>
          if v.Text? then Reading(got + [Got(a.name, v.s, IsLiteral(bits, pos))], t', p) else Refused
  }

  /** The first number of a string tells a literal from an identifier. */
  predicate IsLiteral(bits: seq<bool>, pos: nat) {
    var m := DecodeUint(bits, pos);
    m.Ok? && m.value >= 2
  }

  /** The literals read so far, under one name and under any. */
  function LiteralsOf(got: seq<Got>, name: Name): seq<Str> {
    if got == [] then []
    else
      var g := got[|got| - 1];
      LiteralsOf(got[..|got| - 1], name) + if g.literal && g.name == name then [g.s] else []
  }

  function Literals(got: seq<Got>): seq<Str> {
    if got == [] then []
    else
      var g := got[|got| - 1];
      Literals(got[..|got| - 1]) + if g.literal then [g.s] else []
  }

  lemma ReaderGrows(bits: seq<bool>, pos: nat, t: Tables, a: Ask)
    ensures var r := DecodeString(bits, pos, t, a.name, a.size);
      r.Ok? && r.value.0.Text? ==>
        var added := if IsLiteral(bits, pos) then [r.value.0.s] else [];
        && r.value.1.global == t.global + added
        && forall name :: r.value.1.Local(name) == t.Local(name) + if name == a.name then added else []
  {
    hide DecodeUint, DecodeCompact, DecodeLiteral;
  }

  /** Whatever the input, the table of a name holds the literals read under it, the global
      table all, in the order in which they were read. */
  lemma {:induction false} ReaderTables(bits: seq<bool>, asks: seq<Ask>)
    requires ReadStrings(bits, asks).Reading?
    ensures var r := ReadStrings(bits, asks);
      && |r.got| == |asks| && r.t.global == Literals(r.got)
      && forall name :: r.t.Local(name) == LiteralsOf(r.got, name)
  {
    hide DecodeString, IsLiteral;
    if asks != [] {
      var n := |asks| - 1;
      ReaderTables(bits, asks[..n]);
      var r, r' := ReadStrings(bits, asks[..n]), ReadStrings(bits, asks);
      assert r'.got[..|r'.got| - 1] == r.got;
      ReaderGrows(bits, r.pos, r.t, asks[n]);
    }
  }

  /** What an identifier of a table reads as, if it reads. */
  predicate Names(bits: seq<bool>, pos: nat, q: seq<Str>, size: nat, r: Parse<Str>) {
    var n := if q == [] then 0 else BitCount(|q| - 1);
    var legal := pos + n <= |bits| && Peek(bits, pos, n) < |q|
      && (size > 0 ==> StringSize(q[Peek(bits, pos, n)]) < size);
    && r.Ok? == legal
    && (legal ==> r.value == q[Peek(bits, pos, n)] && r.pos == pos + n && !r.short)
  }

  lemma CompactNames(bits: seq<bool>, pos: nat, q: seq<Str>, size: nat)
    ensures Names(bits, pos, q, size, DecodeCompact(bits, pos, q, size))
  {
    hide BitCount, Peek, StringSize;
  }

  /** An identifier reads as the literal with that number, of the name for a leading 0, of all
      for a leading 1, if and only if there is one that fits its container. */
  lemma IdentifierRead(bits: seq<bool>, asks: seq<Ask>, a: Ask)
    requires ReadStrings(bits, asks).Reading?
    ensures var r := ReadStrings(bits, asks);
      var m := DecodeUint(bits, r.pos);
      m.Ok? && !m.short && m.value <= 1 ==>
        var q := if m.value == 0 then LiteralsOf(r.got, a.name) else Literals(r.got);
        match DecodeString(bits, r.pos, r.t, a.name, a.size)
        case Fail(why) => Names(bits, m.pos, q, a.size, Fail(why))
        case Ok((v, t), p, short) => v.Text? && t == r.t && Names(bits, m.pos, q, a.size, Ok(v.s, p, short))
  {
    var r := ReadStrings(bits, asks);
    assert r.t.Local(a.name) == LiteralsOf(r.got, a.name) && r.t.global == Literals(r.got) by { ReaderTables(bits, asks); }
    var m := DecodeUint(bits, r.pos);
    if m.Ok? { CompactNames(bits, m.pos, if m.value == 0 then r.t.Local(a.name) else r.t.global, a.size); }
    hide DecodeUint, DecodeLiteral, DecodeCompact, ReadStrings, Literals, LiteralsOf, Names, IsLiteral;
  }
}
