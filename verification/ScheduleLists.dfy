/** The list operations of core/list.c the schedule uses, by what they keep. */
module ScheduleLists {
  import opened Common
  import opened Schedule

  predicate Keyed(key: map<Id, int>, q: seq<Id>) { forall i :: 0 <= i < |q| ==> q[i] in key }

  /** Whether `insert_sorted` walks past the block `e`. */
  predicate Past(key: map<Id, int>, e: Id, id: Id)
    requires id in key && e in key
  {
    Narrow(key[id] - key[e]) > 0
  }

  /** Where `insert_sorted` puts a block: behind a run of earlier ones. */
  lemma {:induction false} Placed(key: map<Id, int>, q: seq<Id>, id: Id) returns (front: seq<Id>, back: seq<Id>)
    requires id in key && Keyed(key, q)
    ensures q == front + back && InsertSorted(key, q, id) == front + [id] + back
    ensures Keyed(key, front) && Keyed(key, back) && (back != [] ==> !Past(key, back[0], id))
    ensures forall i :: 0 <= i < |front| ==> Past(key, front[i], id)
  {
    hide Narrow, Within;
    if q == [] || Narrow(key[id] - key[q[0]]) <= 0 {
      front, back := [], q;
    } else {
      var f, b := Placed(key, q[1..], id);
      front, back := [q[0]] + f, b;
      Join(q, f, b, id);
      assert Past(key, q[0], id);
      hide Past;
      assert forall i :: 0 < i < |front| ==> front[i] == f[i - 1];
    }
  }

  lemma Join(q: seq<Id>, f: seq<Id>, b: seq<Id>, id: Id)
    requires q != [] && q[1..] == f + b
    ensures q == [q[0]] + f + b && [q[0]] + (f + [id] + b) == [q[0]] + f + [id] + b
  {
    assert q == [q[0]] + q[1..];
  }

  lemma Inserted(key: map<Id, int>, q: seq<Id>, id: Id)
    requires id in key && Keyed(key, q)
    ensures forall k :: k in InsertSorted(key, q, id) <==> k == id || k in q
    ensures Unique(q) && id !in q ==> Unique(InsertSorted(key, q, id))
  {
    hide Narrow, InsertSorted, Past;
    var f, b := Placed(key, q, id);
    Spliced(f, b, id);
  }

  lemma Spliced(f: seq<Id>, b: seq<Id>, id: Id)
    ensures forall k :: k in f + [id] + b <==> k == id || k in f + b
    ensures Unique(f + b) && id !in f + b ==> Unique(f + [id] + b)
    ensures forall i :: 0 <= i < |f| + 1 + |b| ==>
      (f + [id] + b)[i] == if i < |f| then (f + b)[i] else if i == |f| then id else (f + b)[i - 1]
  {
    var q, r := f + b, f + [id] + b;
    assert forall i :: 0 <= i < |q| ==> q[i] == r[if i < |f| then i else i + 1];
    assert r[|f|] == id;
    if Unique(q) && id !in q {
      forall i, j | 0 <= i < j < |r| ensures r[i] != r[j] {
        if i != |f| && j != |f| {
          assert r[i] == q[if i < |f| then i else i - 1];
          assert r[j] == q[if j < |f| then j else j - 1];
        }
      }
    }
  }

  predicate Ascending(key: map<Id, int>, q: seq<Id>)
    requires Keyed(key, q)
  {
    forall i, j :: 0 <= i < j < |q| ==> key[q[i]] <= key[q[j]]
  }

  /** The differences `insert_sorted` takes fit an `int`. */
  predicate Close(a: int, b: int) { -0x8000_0000 <= a - b < 0x8000_0000 }

  lemma Fits(key: map<Id, int>, e: Id, id: Id)
    requires id in key && e in key && Close(key[id], key[e])
    ensures Past(key, e, id) <==> key[id] > key[e]
  {
  }

  lemma InsertedAscending(key: map<Id, int>, q: seq<Id>, id: Id)
    requires id in key && Keyed(key, q) && Ascending(key, q)
    requires forall i :: 0 <= i < |q| ==> Close(key[id], key[q[i]])
    ensures Keyed(key, InsertSorted(key, q, id)) && Ascending(key, InsertSorted(key, q, id))
  {
    hide InsertSorted, Past;
    var f, b := Placed(key, q, id);
    forall i | 0 <= i < |f| ensures f[i] in key && key[f[i]] <= key[id] {
      assert q[i] == f[i];
      Fits(key, f[i], id);
    }
    forall i | 0 <= i < |b| ensures b[i] in key && key[id] <= key[b[i]] {
      assert b[i] == q[|f| + i] && b[0] == q[|f|];
      Fits(key, b[0], id);
    }
    Between(key, f, b, id);
  }

  lemma Between(key: map<Id, int>, f: seq<Id>, b: seq<Id>, id: Id)
    requires id in key && Keyed(key, f + b) && Ascending(key, f + b)
    requires forall i :: 0 <= i < |f| ==> f[i] in key && key[f[i]] <= key[id]
    requires forall i :: 0 <= i < |b| ==> b[i] in key && key[id] <= key[b[i]]
    ensures Keyed(key, f + [id] + b) && Ascending(key, f + [id] + b)
  {
    var q, r := f + b, f + [id] + b;
    forall i, j | 0 <= i < j < |r| ensures r[i] in key && r[j] in key && key[r[i]] <= key[r[j]] {
      assert i != |f| ==> r[i] == q[if i < |f| then i else i - 1];
      assert j != |f| ==> r[j] == q[if j < |f| then j else j - 1];
    }
  }

  lemma {:induction false} Removed(q: seq<Id>, id: Id)
    requires Unique(q)
    ensures Unique(Remove(q, id))
    ensures forall k :: k in Remove(q, id) <==> k in q && k != id
  {
    if id in q {
      var i := RemovedAt(q, id);
      Dropped(q, i);
    } else {
      RemovedNone(q, id);
    }
  }

  lemma {:induction false} RemovedAt(q: seq<Id>, id: Id) returns (i: nat)
    requires id in q
    ensures i < |q| && q[i] == id && Remove(q, id) == Drop(q, i)
  {
    if q[0] == id {
      i := 0;
      assert Drop(q, 0) == q[1..];
    } else {
      var j := RemovedAt(q[1..], id);
      i := j + 1;
      assert [q[0]] + Drop(q[1..], j) == Drop(q, i);
    }
  }

  lemma {:induction false} RemovedNone(q: seq<Id>, id: Id)
    requires id !in q
    ensures Remove(q, id) == q
  {
    if q != [] { RemovedNone(q[1..], id); }
  }

  // ---- the loops of `insert_block` and `insert_active`, one step at a time ----

  lemma OverlapStep(s: State, id: Id, i: nat)
    requires s.Has(id) && Known(s) && i < |s.scheduled| && Overlap(s.events[id], s.events[s.scheduled[i]])
    ensures var e := s.scheduled[i];
      var (sup, s1) := BlockSupersede(s, id, e);
      InsertLoop(s, id, i) ==
        if sup then InsertLoop(Shelve(s1, e).(scheduled := Drop(s.scheduled, i)), id, i)
        else if s1.blocks[id].der == {} then Shelve(s1, id)
        else InsertLoop(s1, id, i + 1)
  {
    hide Overlap, Outranks, Scheduling, Abut;
  }

  lemma AbutStep(s: State, id: Id, i: nat)
    requires s.Has(id) && Known(s) && i < |s.scheduled| && !Overlap(s.events[id], s.events[s.scheduled[i]])
    ensures InsertLoop(s, id, i) == InsertLoop(Abut(s, id, s.scheduled[i]), id, i + 1)
  {
    hide Overlap, BlockSupersede, Abut, Scheduling;
  }

  lemma LoopEnd(s: State, id: Id)
    requires s.Has(id) && Known(s)
    ensures InsertLoop(s, id, |s.scheduled|) == Scheduling(s, id)
  {
  }

  lemma ShelveKnown(s: State, i: nat)
    requires Known(s) && i < |s.scheduled|
    ensures Known(Shelve(s, s.scheduled[i]).(scheduled := Drop(s.scheduled, i)))
  {
  }

  lemma ActiveStep(s: State, id: Id, rest: seq<Id>)
    requires s.Has(id) && Known(s) && AllIn(s, rest) && rest != []
    ensures var (sup, s1) := BlockSupersede(s, id, rest[0]);
      ActiveLoop(s, id, rest) ==
        if sup then ActiveLoop(Displace(s1, rest[0], s1.blocks[id].start).(active := rest[1..]), id, rest[1..])
        else if s1.blocks[id].der == {} then s1.Set(id, s1.blocks[id].(status := Superseded))
        else ActiveLoop(s1, id, rest[1..])
  {
    hide Outranks, Admit;
  }

  lemma ActiveEnd(s: State, id: Id)
    requires s.Has(id) && Known(s)
    ensures ActiveLoop(s, id, []) == Admit(s, id)
  {
  }
}
