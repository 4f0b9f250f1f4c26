/**
 Supersession among overlapping events does not depend on the order of their arrival.
 `insert_block` takes a block's bits away one neighbour at a time, and only from blocks
 still in the scheduled queue; the outcome is nevertheless that a bit belongs to the
 highest ranked of all events that ask for it.
 */
module SchedulePrecedence {
  import opened Common
  import opened Schedule
  import opened ScheduleLists

  type Events = map<Id, Event>
  type Primacies = map<Id, nat>

  predicate Covers(ev: Events, pr: Primacies, ks: set<Id>) { forall k :: k in ks ==> Has(ev, pr, k) }

  predicate Has(ev: Events, pr: Primacies, k: Id) { k in ev && k in pr }

  /** Lower primacy value first, later creation among equals. */
  predicate Above(ev: Events, pr: Primacies, a: Id, b: Id)
    requires Has(ev, pr, a) && Has(ev, pr, b)
  {
    pr[a] < pr[b] || (pr[a] == pr[b] && ev[a].creation > ev[b].creation)
  }

  /** No two events have the same primacy and creation time. */
  predicate Ranked(ev: Events, pr: Primacies, ks: set<Id>)
    requires Covers(ev, pr, ks)
  {
    forall a, b :: a in ks && b in ks && a != b ==> (ev[a].creation != ev[b].creation || pr[a] != pr[b])
  }

  predicate AllOverlap(ev: Events, ks: set<Id>)
    requires ks <= ev.Keys
  {
    forall a, b :: a in ks && b in ks ==> Overlap(ev[a], ev[b])
  }

  /** The bits of `e` that no event of `ks` above it asks for. */
  ghost function Due(ev: Events, pr: Primacies, ks: set<Id>, e: Id): Mask
    requires Covers(ev, pr, ks) && Has(ev, pr, e)
  {
    set b | b in ev[e].mask && (forall j :: j in ks && Above(ev, pr, j, e) ==> b !in ev[j].mask)
  }

  /** The state keeps to the given events and primacies. */
  predicate Keeps(s: State, ev: Events, pr: Primacies, ks: set<Id>) {
    && Covers(ev, pr, ks) && s.events == ev
    && (forall k :: k in ks ==> k in s.blocks && s.blocks[k].primacy == pr[k])
  }

  /** Every event of `ks` holds what it is due, and is in the superseded queue exactly when
      that is nothing. */
  ghost predicate Settled(s: State, ev: Events, pr: Primacies, ks: set<Id>) {
    && Keeps(s, ev, pr, ks) && Unique(s.scheduled)
    && (forall i :: 0 <= i < |s.scheduled| ==> s.scheduled[i] in ks)
    && (forall i :: 0 <= i < |s.superseded| ==> s.superseded[i] in ks)
    && (forall k :: k in ks ==> s.blocks[k].der == Due(ev, pr, ks, k))
    && (forall k :: k in ks ==> (k in s.scheduled <==> s.blocks[k].der != {}))
    && (forall k :: k in ks ==> (k in s.superseded <==> s.blocks[k].der == {}))
  }

  /** The state inside the loop of `insert_block`: the blocks in front of position `i` have
      met the new one. */
  ghost predicate Halfway(s: State, ev: Events, pr: Primacies, ks: set<Id>, id: Id, i: nat) {
    && id !in ks && Keeps(s, ev, pr, ks + {id}) && Unique(s.scheduled) && i <= |s.scheduled|
    && (forall j :: 0 <= j < |s.scheduled| ==> s.scheduled[j] in ks && s.blocks[s.scheduled[j]].der != {})
    && (forall j :: 0 <= j < i ==> s.blocks[s.scheduled[j]].der == Due(ev, pr, ks + {id}, s.scheduled[j]))
    && (forall j :: i <= j < |s.scheduled| ==> s.blocks[s.scheduled[j]].der == Due(ev, pr, ks, s.scheduled[j]))
    && (forall k :: k in ks ==> (k in s.superseded <==> k !in s.scheduled))
    && (forall j :: 0 <= j < |s.superseded| ==> s.superseded[j] in ks)
    && (forall k :: k in ks && k !in s.scheduled ==> s.blocks[k].der == {} == Due(ev, pr, ks + {id}, k))
    && OwnSoFar(s, ev, pr, id, i)
  }

  /** The new block has kept what no block above it in front of `i` holds. */
  ghost predicate OwnSoFar(s: State, ev: Events, pr: Primacies, id: Id, i: nat)
    requires i <= |s.scheduled| && id in s.blocks
    requires forall j :: 0 <= j < i ==> s.scheduled[j] in s.blocks && Has(ev, pr, s.scheduled[j])
    requires Has(ev, pr, id)
  {
    && s.blocks[id].der <= ev[id].mask
    && (forall b :: b in ev[id].mask ==>
          (b in s.blocks[id].der <==> forall j :: 0 <= j < i && Above(ev, pr, s.scheduled[j], id) ==> b !in s.blocks[s.scheduled[j]].der))
  }

  lemma OwnSame(s: State, r: State, ev: Events, pr: Primacies, id: Id, i: nat)
    requires i <= |s.scheduled| && i <= |r.scheduled| && id in s.blocks && id in r.blocks && Has(ev, pr, id)
    requires forall j :: 0 <= j < i ==> s.scheduled[j] in s.blocks && Has(ev, pr, s.scheduled[j])
    requires forall j :: 0 <= j < i ==> r.scheduled[j] in r.blocks && r.scheduled[j] == s.scheduled[j]
    requires forall j :: 0 <= j < i ==> r.blocks[r.scheduled[j]] == s.blocks[s.scheduled[j]]
    requires r.blocks[id] == s.blocks[id] && OwnSoFar(s, ev, pr, id, i)
    ensures OwnSoFar(r, ev, pr, id, i)
  {
    hide Above;
    forall b | b in ev[id].mask
      ensures b in r.blocks[id].der <==> forall j :: 0 <= j < i && Above(ev, pr, r.scheduled[j], id) ==> b !in r.blocks[r.scheduled[j]].der
    {
      if b !in r.blocks[id].der {
        var j :| 0 <= j < i && Above(ev, pr, s.scheduled[j], id) && b in s.blocks[s.scheduled[j]].der;
        assert r.scheduled[j] == s.scheduled[j] && b in r.blocks[r.scheduled[j]].der;
      }
    }
  }

  // ---- facts about what is due ----

  /** A bit asked for by an event above `x` is held by some event above `x`. */
  lemma {:induction false} Holder(ev: Events, pr: Primacies, ks: set<Id>, x: Id, j: Id, b: nat)
    returns (e: Id)
    requires Covers(ev, pr, ks) && Has(ev, pr, x) && Ranked(ev, pr, ks)
    requires j in ks && Above(ev, pr, j, x) && b in ev[j].mask
    ensures e in ks && Above(ev, pr, e, x) && b in Due(ev, pr, ks, e)
    decreases ks - {x}, |set k | k in ks && Above(ev, pr, k, j)|
  {
    if b in Due(ev, pr, ks, j) {
      e := j;
    } else {
      var k :| k in ks && Above(ev, pr, k, j) && b in ev[k].mask;
      var up, down := set m | m in ks && Above(ev, pr, m, k), set m | m in ks && Above(ev, pr, m, j);
      assert up <= down && k in down && k !in up;
      assert up < down;
      SmallerSet(up, down);
      e := Holder(ev, pr, ks, x, k, b);
    }
  }

  lemma SmallerSet(a: set<Id>, b: set<Id>)
    requires a < b
    ensures |a| < |b|
  {
    var x :| x in b && x !in a;
    assert b == (b - a) + a && |b| == |b - a| + |a|;
    assert x in b - a;
  }

  lemma DueAdded(ev: Events, pr: Primacies, ks: set<Id>, id: Id, e: Id)
    requires Covers(ev, pr, ks) && Has(ev, pr, id) && Has(ev, pr, e)
    ensures Above(ev, pr, id, e) ==> Due(ev, pr, ks + {id}, e) == Due(ev, pr, ks, e) - ev[id].mask
    ensures !Above(ev, pr, id, e) ==> Due(ev, pr, ks + {id}, e) == Due(ev, pr, ks, e)
  {
  }

  // ---- the loop ----

  /** What the new block has lost so far, the block at `i` below it has lost already. */
  lemma NothingLeftOver(s: State, ev: Events, pr: Primacies, ks: set<Id>, id: Id, i: nat, k: nat)
    requires Halfway(s, ev, pr, ks, id, i) && i <= k < |s.scheduled|
    requires Above(ev, pr, id, s.scheduled[k])
    ensures s.blocks[s.scheduled[k]].der - s.blocks[id].der == Due(ev, pr, ks + {id}, s.scheduled[k])
  {
    var e := s.scheduled[k];
    var x, y := s.blocks[id].der, s.blocks[e].der;
    DueAdded(ev, pr, ks, id, e);
    assert forall b :: b in y && b in ev[id].mask ==> b in x;
  }

  /** The new block after it has met everyone holds what it is due. */
  lemma OwnDue(s: State, ev: Events, pr: Primacies, ks: set<Id>, id: Id)
    requires Halfway(s, ev, pr, ks, id, |s.scheduled|) && Ranked(ev, pr, ks + {id})
    ensures s.blocks[id].der == Due(ev, pr, ks + {id}, id)
  {
    var n := |s.scheduled|;
    forall b | b in ev[id].mask ensures b in s.blocks[id].der <==> b in Due(ev, pr, ks + {id}, id) {
      if b !in Due(ev, pr, ks + {id}, id) {
        var j :| j in ks + {id} && Above(ev, pr, j, id) && b in ev[j].mask;
        var e := Holder(ev, pr, ks, id, j, b);
        DueAdded(ev, pr, ks, id, e);
        assert b in Due(ev, pr, ks + {id}, e);
        assert e in s.scheduled;
        var k :| 0 <= k < n && s.scheduled[k] == e;
        assert b in s.blocks[s.scheduled[k]].der;
      }
    }
  }

  /** The block at `i` loses everything and leaves the queue. */
  lemma Ousted(s: State, ev: Events, pr: Primacies, ks: set<Id>, id: Id, i: nat)
    requires Halfway(s, ev, pr, ks, id, i) && i < |s.scheduled| && s.blocks[id].der != {}
    requires Above(ev, pr, id, s.scheduled[i]) && s.blocks[s.scheduled[i]].der - s.blocks[id].der == {}
    ensures var e := s.scheduled[i];
      var t := s.Set(e, s.blocks[e].(der := s.blocks[e].der - s.blocks[id].der));
      Halfway(Shelve(t, e).(scheduled := Drop(s.scheduled, i)), ev, pr, ks, id, i)
  {
    var e := s.scheduled[i];
    var t := s.Set(e, s.blocks[e].(der := s.blocks[e].der - s.blocks[id].der));
    var r := Shelve(t, e).(scheduled := Drop(s.scheduled, i));
    NothingLeftOver(s, ev, pr, ks, id, i, i);
    hide Due, Above, Drop, Unique, Overlap, OwnSoFar;
    assert e != id && Keeps(r, ev, pr, ks + {id});
    hide Keeps, Covers;
    OustedLeft(s, t, i);
    hide Left;
    Shifted(s, r, ev, pr, ks, id, i);
    ShiftedDues(s, r, ev, pr, ks, id, i);
  }

  lemma OustedLeft(s: State, t: State, i: nat)
    requires i < |s.scheduled| && Unique(s.scheduled) && t.Has(s.scheduled[i]) && t == s.(blocks := t.blocks)
    requires forall k :: k in s.blocks && k != s.scheduled[i] ==> k in t.blocks && t.blocks[k] == s.blocks[k]
    ensures var r := Shelve(t, s.scheduled[i]).(scheduled := Drop(s.scheduled, i)); Left(s, r, i) && Unique(r.scheduled)
  {
    var q := Drop(s.scheduled, i);
    WithoutOne(s.scheduled, i);
    hide Drop, Unique, Shelve, WithoutAt;
    Shelved(t, s.scheduled[i]);
    assert WithoutAt(s.scheduled, q, i);
  }

  /** `r` is `q` without its element at `i`. */
  ghost predicate WithoutAt(q: seq<Id>, r: seq<Id>, i: nat) {
    && i < |q| && |r| == |q| - 1
    && (forall j :: 0 <= j < i ==> r[j] == q[j])
    && (forall j :: i <= j < |r| ==> r[j] == q[j + 1])
    && (forall j :: 0 <= j < |r| ==> r[j] != q[i])
    && (forall k :: k in r <==> k in q && k != q[i])
  }

  lemma WithoutOne(q: seq<Id>, i: nat)
    requires i < |q| && Unique(q)
    ensures WithoutAt(q, Drop(q, i), i) && Unique(Drop(q, i))
  {
    Dropped(q, i);
    hide Drop, Unique;
    var r := Drop(q, i);
    assert forall j :: 0 <= j < |r| ==> r[j] in r;
  }

  lemma Shelved(s: State, id: Id)
    requires s.Has(id)
    ensures var r := Shelve(s, id);
      && (forall k :: k in r.superseded <==> k == id || k in s.superseded)
      && id in r.blocks && (forall k :: k in s.blocks && k != id ==> k in r.blocks && r.blocks[k] == s.blocks[k])
  {
  }

  /** `e` has left the scheduled queue at `i` for the superseded one, and nothing else has changed. */
  ghost predicate Left(s: State, r: State, i: nat) {
    && WithoutAt(s.scheduled, r.scheduled, i)
    && (forall k :: k in r.superseded <==> k == s.scheduled[i] || k in s.superseded)
    && (forall k :: k in s.blocks && k != s.scheduled[i] ==> k in r.blocks && r.blocks[k] == s.blocks[k])
    && s.scheduled[i] in r.blocks
  }

  lemma Shifted(s: State, r: State, ev: Events, pr: Primacies, ks: set<Id>, id: Id, i: nat)
    requires Halfway(s, ev, pr, ks, id, i) && Left(s, r, i) && s.scheduled[i] != id
    ensures i <= |r.scheduled| && id !in ks
    ensures forall j :: 0 <= j < |r.scheduled| ==> r.scheduled[j] in ks && r.scheduled[j] in r.blocks && r.blocks[r.scheduled[j]].der != {}
    ensures forall k :: k in ks ==> (k in r.superseded <==> k !in r.scheduled)
    ensures forall j :: 0 <= j < |r.superseded| ==> r.superseded[j] in ks
  {
    hide Due, Above, Unique, Overlap, Covers, OwnSoFar;
    assert forall k :: k in ks ==> k in ks + {id} && k in s.blocks;
    assert forall j :: 0 <= j < |r.superseded| ==> r.superseded[j] in r.superseded;
  }

  lemma ShiftedDues(s: State, r: State, ev: Events, pr: Primacies, ks: set<Id>, id: Id, i: nat)
    requires Halfway(s, ev, pr, ks, id, i) && Left(s, r, i) && s.scheduled[i] != id
    requires r.blocks[s.scheduled[i]].der == {} == Due(ev, pr, ks + {id}, s.scheduled[i])
    requires forall j :: 0 <= j < |r.scheduled| ==> r.scheduled[j] in ks && r.scheduled[j] in r.blocks
    ensures forall j :: 0 <= j < i ==> r.blocks[r.scheduled[j]].der == Due(ev, pr, ks + {id}, r.scheduled[j])
    ensures forall j :: i <= j < |r.scheduled| ==> r.blocks[r.scheduled[j]].der == Due(ev, pr, ks, r.scheduled[j])
    ensures forall k :: k in ks && k !in r.scheduled ==> k in r.blocks && r.blocks[k].der == {} == Due(ev, pr, ks + {id}, k)
    ensures OwnSoFar(r, ev, pr, id, i)
  {
    hide Due, Above, Unique, Overlap;
    assert forall k :: k in ks ==> k in ks + {id} && k in s.blocks;
    assert forall j :: 0 <= j < |r.scheduled| ==> r.blocks[r.scheduled[j]] == s.blocks[r.scheduled[j]];
    OwnSame(s, r, ev, pr, id, i);
    hide OwnSoFar, Covers;
  }

  /** The block at `i` ranks below and keeps something. */
  lemma Cut(s: State, ev: Events, pr: Primacies, ks: set<Id>, id: Id, i: nat)
    requires Halfway(s, ev, pr, ks, id, i) && i < |s.scheduled| && s.blocks[id].der != {}
    requires Above(ev, pr, id, s.scheduled[i]) && s.blocks[s.scheduled[i]].der - s.blocks[id].der != {}
    ensures var e := s.scheduled[i];
      Halfway(s.Set(e, s.blocks[e].(der := s.blocks[e].der - s.blocks[id].der)), ev, pr, ks, id, i + 1)
  {
    hide Due;
    var e := s.scheduled[i];
    var r := s.Set(e, s.blocks[e].(der := s.blocks[e].der - s.blocks[id].der));
    NothingLeftOver(s, ev, pr, ks, id, i, i);
    assert e != id && !Above(ev, pr, e, id);
    hide Above;
    assert forall j :: 0 <= j < |s.scheduled| && j != i ==> r.blocks[s.scheduled[j]] == s.blocks[s.scheduled[j]];
  }

  /** The block at `i` ranks above and takes its bits from the new one. */
  lemma Given(s: State, ev: Events, pr: Primacies, ks: set<Id>, id: Id, i: nat)
    requires Halfway(s, ev, pr, ks, id, i) && i < |s.scheduled|
    requires Above(ev, pr, s.scheduled[i], id)
    ensures var e := s.scheduled[i];
      Halfway(s.Set(id, s.blocks[id].(der := s.blocks[id].der - s.blocks[e].der)), ev, pr, ks, id, i + 1)
  {
    hide Due;
    var e := s.scheduled[i];
    var r := s.Set(id, s.blocks[id].(der := s.blocks[id].der - s.blocks[e].der));
    DueAdded(ev, pr, ks, id, e);
    assert !Above(ev, pr, id, e);
    hide Above;
    assert forall j :: 0 <= j < |s.scheduled| ==> r.blocks[s.scheduled[j]] == s.blocks[s.scheduled[j]];
    forall b | b in ev[id].mask
      ensures b in r.blocks[id].der <==> forall j :: 0 <= j < i + 1 && Above(ev, pr, r.scheduled[j], id) ==> b !in r.blocks[r.scheduled[j]].der
    {
      if b in r.blocks[id].der {
        assert b in s.blocks[id].der;
      } else if b in s.blocks[id].der {
        assert b in r.blocks[r.scheduled[i]].der;
      } else {
        var j :| 0 <= j < i && Above(ev, pr, s.scheduled[j], id) && b in s.blocks[s.scheduled[j]].der;
        assert r.scheduled[j] == s.scheduled[j] && b in r.blocks[r.scheduled[j]].der;
      }
    }
  }

  /** The new block has nothing left: it is shelved, and the blocks behind `i` already hold
      what they are due. */
  lemma GivenUp(s: State, ev: Events, pr: Primacies, ks: set<Id>, id: Id, i: nat)
    requires Halfway(s, ev, pr, ks, id, i) && s.blocks[id].der == {}
    ensures Settled(Shelve(s, id), ev, pr, ks + {id})
  {
    hide Due;
    var r := Shelve(s, id);
    forall k | i <= k < |s.scheduled| ensures s.blocks[s.scheduled[k]].der == Due(ev, pr, ks + {id}, s.scheduled[k]) {
      var e := s.scheduled[k];
      DueAdded(ev, pr, ks, id, e);
      if Above(ev, pr, id, e) {
        NothingLeftOver(s, ev, pr, ks, id, i, k);
      }
    }
    EmptyDue(s, ev, pr, ks, id, i);
    hide Above;
    forall k | k in ks ensures r.blocks[k].der == Due(ev, pr, ks + {id}, k) {
      assert r.blocks[k] == s.blocks[k];
      if k in s.scheduled {
        var j :| 0 <= j < |s.scheduled| && s.scheduled[j] == k;
      }
    }
  }

  lemma EmptyDue(s: State, ev: Events, pr: Primacies, ks: set<Id>, id: Id, i: nat)
    requires Halfway(s, ev, pr, ks, id, i) && s.blocks[id].der == {}
    ensures Due(ev, pr, ks + {id}, id) == {}
  {
    forall b | b in ev[id].mask ensures b !in Due(ev, pr, ks + {id}, id) {
      assert b !in s.blocks[id].der;
      var j :| 0 <= j < i && Above(ev, pr, s.scheduled[j], id) && b in s.blocks[s.scheduled[j]].der;
      assert b in ev[s.scheduled[j]].mask;
    }
  }

  lemma ArrivedQueue(s: State, id: Id)
    requires s.Has(id) && Known(s)
    ensures var r := Scheduling(s, id);
      && r.superseded == s.superseded && r.blocks == s.blocks && r.events == s.events
      && (forall k :: k in r.scheduled <==> k == id || k in s.scheduled)
      && (Unique(s.scheduled) && id !in s.scheduled ==> Unique(r.scheduled))
  {
    hide InsertSorted;
    Inserted(Starts(s), s.scheduled, id);
  }

  lemma Arrived(s: State, ev: Events, pr: Primacies, ks: set<Id>, id: Id)
    requires Halfway(s, ev, pr, ks, id, |s.scheduled|) && Ranked(ev, pr, ks + {id}) && s.blocks[id].der != {}
    requires Known(s)
    ensures s.Has(id) && Settled(Scheduling(s, id), ev, pr, ks + {id})
  {
    OwnDue(s, ev, pr, ks, id);
    hide Due, Above, Unique, OwnSoFar, Ranked;
    ArrivedQueue(s, id);
    hide InsertSorted, Starts, Scheduling;
    var r := Scheduling(s, id);
    assert id !in s.scheduled;
    assert id !in s.superseded;
    forall k | k in ks
      ensures r.blocks[k].der == Due(ev, pr, ks + {id}, k)
      ensures k in r.scheduled <==> r.blocks[k].der != {}
    {
      if k in s.scheduled {
        var j :| 0 <= j < |s.scheduled| && s.scheduled[j] == k;
      }
    }
  }

  /** One call of `insert_block`, from position `i` on. */
  lemma {:induction false} LoopSettles(s: State, ev: Events, pr: Primacies, ks: set<Id>, id: Id, i: nat)
    requires Halfway(s, ev, pr, ks, id, i) && Known(s) && s.Has(id) && s.blocks[id].der != {}
    requires Ranked(ev, pr, ks + {id}) && AllOverlap(ev, ks + {id}) && i <= |s.scheduled|
    ensures Settled(InsertLoop(s, id, i), ev, pr, ks + {id})
    decreases |s.scheduled| - i
  {
    hide Due, Settled, Scheduling, Halfway, Ranked, AllOverlap, Above, Overlap, Outranks;
    if i == |s.scheduled| {
      Arrived(s, ev, pr, ks, id);
    } else {
      var e := s.scheduled[i];
      Meeting(s, ev, pr, ks, id, i);
      if Above(ev, pr, id, e) {
        var t := s.Set(e, s.blocks[e].(der := s.blocks[e].der - s.blocks[id].der));
        if s.blocks[e].der - s.blocks[id].der == {} {
          Ousted(s, ev, pr, ks, id, i);
          LoopSettles(Shelve(t, e).(scheduled := Drop(s.scheduled, i)), ev, pr, ks, id, i);
        } else {
          Cut(s, ev, pr, ks, id, i);
          LoopSettles(t, ev, pr, ks, id, i + 1);
        }
      } else {
        Given(s, ev, pr, ks, id, i);
        var t := s.Set(id, s.blocks[id].(der := s.blocks[id].der - s.blocks[e].der));
        if t.blocks[id].der == {} {
          GivenUp(t, ev, pr, ks, id, i + 1);
        } else {
          LoopSettles(t, ev, pr, ks, id, i + 1);
        }
      }
    }
  }

  /** The two blocks that meet overlap, and one ranks above the other. */
  lemma Meeting(s: State, ev: Events, pr: Primacies, ks: set<Id>, id: Id, i: nat)
    requires Halfway(s, ev, pr, ks, id, i) && Known(s) && s.Has(id) && i < |s.scheduled|
    requires Ranked(ev, pr, ks + {id}) && AllOverlap(ev, ks + {id})
    ensures var e := s.scheduled[i];
      && e in ks && e != id && Overlap(s.events[id], s.events[e]) && s.events == ev && Has(ev, pr, id) && Has(ev, pr, e)
      && (Above(ev, pr, id, e) || Above(ev, pr, e, id))
      && (Outranks(s, id, e) <==> Above(ev, pr, id, e))
  {
  }

  // ---- one insertion, and any order of insertions ----

  /** The new block before it has met anyone. */
  lemma Newcomer(s: State, ev: Events, pr: Primacies, ks: set<Id>, id: Id)
    requires Settled(s, ev, pr, ks) && Known(s) && s.Has(id) && id !in ks
    requires Keeps(s, ev, pr, ks + {id}) && ev[id].mask != {}
    ensures var t := s.Set(id, s.blocks[id].(status := Scheduled, der := s.events[id].mask));
      Halfway(t, ev, pr, ks, id, 0) && Known(t) && t.Has(id) && t.blocks[id].der != {}
  {
    StillNothing(s, ev, pr, ks, id);
    var t := s.Set(id, s.blocks[id].(status := Scheduled, der := s.events[id].mask));
    NobodyMet(t, ev, pr, id);
    hide Due, Above, Unique, Covers, OwnSoFar;
    SettledOthers(s, t, ev, pr, ks, id);
    assert Keeps(t, ev, pr, ks + {id});
    hide Settled, Keeps;
  }

  /** What the loop expects of the blocks already there. */
  lemma SettledOthers(s: State, t: State, ev: Events, pr: Primacies, ks: set<Id>, id: Id)
    requires Settled(s, ev, pr, ks) && id !in ks && t == s.(blocks := t.blocks) && t.blocks.Keys == s.blocks.Keys
    requires forall k :: k in ks ==> k in s.blocks && t.blocks[k] == s.blocks[k]
    ensures Unique(t.scheduled)
    ensures forall j :: 0 <= j < |t.scheduled| ==> t.scheduled[j] in ks && t.blocks[t.scheduled[j]].der != {}
    ensures forall j :: 0 <= j < |t.scheduled| ==> t.blocks[t.scheduled[j]].der == Due(ev, pr, ks, t.scheduled[j])
    ensures forall k :: k in ks ==> (k in t.superseded <==> k !in t.scheduled)
    ensures forall j :: 0 <= j < |t.superseded| ==> t.superseded[j] in ks
    ensures forall k :: k in ks && k !in t.scheduled ==> t.blocks[k].der == {}
  {
    hide Due, Above, Unique;
    assert forall j :: 0 <= j < |t.scheduled| ==> t.scheduled[j] in t.scheduled;
  }

  lemma NobodyMet(s: State, ev: Events, pr: Primacies, id: Id)
    requires id in s.blocks && Has(ev, pr, id) && s.blocks[id].der == ev[id].mask
    ensures OwnSoFar(s, ev, pr, id, 0)
  {
  }

  /** What is due nothing is due nothing when one more event comes. */
  lemma StillNothing(s: State, ev: Events, pr: Primacies, ks: set<Id>, id: Id)
    requires Settled(s, ev, pr, ks) && id !in ks && Keeps(s, ev, pr, ks + {id})
    ensures forall k :: k in ks && k !in s.scheduled ==> Due(ev, pr, ks + {id}, k) == {}
  {
    forall k | k in ks && k !in s.scheduled ensures Due(ev, pr, ks + {id}, k) == {} {
      DueAdded(ev, pr, ks, id, k);
    }
  }

  /** `insert_block` on a settled schedule settles it with the new event. */
  lemma InsertSettles(s: State, ev: Events, pr: Primacies, ks: set<Id>, id: Id)
    requires Settled(s, ev, pr, ks) && Known(s) && s.Has(id) && id !in ks
    requires Keeps(s, ev, pr, ks + {id}) && ev[id].mask != {}
    requires Ranked(ev, pr, ks + {id}) && AllOverlap(ev, ks + {id})
    ensures Settled(InsertBlock(s, id), ev, pr, ks + {id})
  {
    hide Settled, Halfway, Keeps, Ranked, AllOverlap, InsertLoop;
    var t := s.Set(id, s.blocks[id].(status := Scheduled, der := s.events[id].mask));
    Newcomer(s, ev, pr, ks, id);
    LoopSettles(t, ev, pr, ks, id, 0);
  }

  // ---- a whole rebuild, in any order ----

  function Elements(ids: seq<Id>): set<Id> { set k | k in ids }

  /** `schedule_event` will insert the block of this control into the scheduled queue. */
  predicate Comes(s: State, c: Control, now: int) {
    && c.id in s.events && s.events[c.id].status.Scheduled?
    && if c.id in s.blocks then !s.blocks[c.id].status.Final() && !s.blocks[c.id].status.ActiveWait?
       else NewBlock(s.events[c.id], c.primacy).end > now
  }

  /** And it asks for something. */
  predicate ToCome(s: State, pr: Primacies, c: Control, now: int) {
    Comes(s, c, now) && c.id in pr && pr[c.id] == c.primacy && s.events[c.id].mask != {}
  }

  predicate AllToCome(s: State, pr: Primacies, cs: seq<Control>, now: int) {
    forall i :: 0 <= i < |cs| ==> ToCome(s, pr, cs[i], now)
  }

  /** Blocks but `id` that are not in the queue stay as they are, and stay out of it. */
  ghost predicate KeepsOthers(s: State, r: State, id: Id) {
    forall k :: k in s.blocks && k != id && k !in s.scheduled ==> k !in r.scheduled && k in r.blocks && r.blocks[k] == s.blocks[k]
  }

  lemma ShelveKeeps(s: State, id: Id, i: nat)
    requires Known(s) && i < |s.scheduled|
    ensures KeepsOthers(s, Shelve(s, s.scheduled[i]).(scheduled := Drop(s.scheduled, i)), id)
  {
    assert forall k :: k in Drop(s.scheduled, i) ==> k in s.scheduled;
  }

  lemma KeepsAgain(s: State, t: State, r: State, id: Id)
    requires KeepsOthers(s, t, id) && KeepsOthers(t, r, id)
    ensures KeepsOthers(s, r, id)
  {
  }

  lemma {:induction false} LoopKeepsOthers(s: State, id: Id, i: nat)
    requires s.Has(id) && Known(s) && i <= |s.scheduled|
    ensures KeepsOthers(s, InsertLoop(s, id, i), id)
    decreases |s.scheduled| - i
  {
    hide InsertSorted, Overlap, Outranks, Drop, InsertLoop;
    if i == |s.scheduled| {
      LoopEnd(s, id);
      Inserted(Starts(s), s.scheduled, id);
    } else if Overlap(s.events[id], s.events[s.scheduled[i]]) {
      var e := s.scheduled[i];
      var (sup, s1) := BlockSupersede(s, id, e);
      OverlapStep(s, id, i);
      assert KeepsOthers(s, s1, id);
      hide BlockSupersede;
      if sup {
        var t := Shelve(s1, e).(scheduled := Drop(s.scheduled, i));
        ShelveKeeps(s1, id, i);
        ShelveKnown(s1, i);
        KeepsAgain(s, s1, t, id);
        hide Shelve;
        LoopKeepsOthers(t, id, i);
        KeepsAgain(s, t, InsertLoop(t, id, i), id);
      } else if s1.blocks[id].der != {} {
        LoopKeepsOthers(s1, id, i + 1);
        KeepsAgain(s, s1, InsertLoop(s1, id, i + 1), id);
      }
    } else {
      var t := Abut(s, id, s.scheduled[i]);
      AbutStep(s, id, i);
      assert KeepsOthers(s, t, id);
      LoopKeepsOthers(t, id, i + 1);
      KeepsAgain(s, t, InsertLoop(t, id, i + 1), id);
    }
  }

  lemma ScheduleSettles(s: State, ev: Events, pr: Primacies, ks: set<Id>, c: Control, now: int)
    requires Settled(s, ev, pr, ks) && Known(s) && c.id !in ks && ToCome(s, pr, c, now)
    requires Ranked(ev, pr, ks + {c.id}) && AllOverlap(ev, ks + {c.id})
    ensures var r := ScheduleEvent(s, c.id, c.primacy, now);
      && Settled(r, ev, pr, ks + {c.id})
      && (forall k :: k !in ks && k != c.id ==> (k in r.blocks <==> k in s.blocks) && (k in s.blocks ==> r.blocks[k] == s.blocks[k]))
  {
    var id := c.id;
    var b := if id !in s.blocks then NewBlock(s.events[id], c.primacy) else s.blocks[id].(primacy := c.primacy);
    var t := s.Set(id, b);
    Enters(s, ev, pr, ks, id, b);
    LoopKeepsOthers(t.Set(id, b.(status := Scheduled, der := s.events[id].mask)), id, 0);
    assert ScheduleEvent(s, id, c.primacy, now) == InsertBlock(t, id);
    assert forall k :: k in s.scheduled ==> k in ks;
    hide InsertLoop, Settled, ScheduleEvent;
    InsertSettles(t, ev, pr, ks, id);
  }

  lemma Enters(s: State, ev: Events, pr: Primacies, ks: set<Id>, id: Id, b: Block)
    requires Settled(s, ev, pr, ks) && Known(s) && id !in ks && Has(ev, pr, id) && b.primacy == pr[id]
    ensures var t := s.Set(id, b); Settled(t, ev, pr, ks) && Known(t) && t.Has(id) && Keeps(t, ev, pr, ks + {id})
  {
    hide Due, Unique;
  }

  lemma {:induction false} AllSettle(s: State, ev: Events, pr: Primacies, ks: set<Id>, cs: seq<Control>, now: int)
    requires Settled(s, ev, pr, ks) && Known(s) && AllToCome(s, pr, cs, now)
    requires Unique(Ids(cs)) && Elements(Ids(cs)) !! ks && Covers(ev, pr, ks + Elements(Ids(cs)))
    requires Ranked(ev, pr, ks + Elements(Ids(cs))) && AllOverlap(ev, ks + Elements(Ids(cs)))
    ensures Listed(s, cs) && Settled(ScheduleEvents(s, cs, now), ev, pr, ks + Elements(Ids(cs)))
    decreases |cs|
  {
    hide ScheduleEvent, Due, Settled;
    if cs == [] {
      assert ks + Elements(Ids(cs)) == ks;
    } else {
      var c := cs[0];
      FirstOf(cs);
      assert ks + Elements(Ids(cs)) == (ks + {c.id}) + Elements(Ids(cs[1..]));
      ScheduleSettles(s, ev, pr, ks, c, now);
      AllSettle(ScheduleEvent(s, c.id, c.primacy, now), ev, pr, ks + {c.id}, cs[1..], now);
    }
  }

  lemma FirstOf(cs: seq<Control>)
    requires cs != [] && Unique(Ids(cs))
    ensures Ids(cs) == [cs[0].id] + Ids(cs[1..]) && cs[0].id !in Ids(cs[1..]) && Unique(Ids(cs[1..]))
    ensures Elements(Ids(cs)) == {cs[0].id} + Elements(Ids(cs[1..]))
  {
    var q := Ids(cs);
    assert q == [cs[0].id] + Ids(cs[1..]);
    assert Ids(cs[1..]) == q[1..];
    forall i | 0 <= i < |q[1..]| ensures q[1..][i] != q[0] { assert q[1..][i] == q[i + 1]; }
  }

  /** The controls of a rebuild: distinct overlapping events still to come, no two of the same
      rank. `pr` holds the primacies of their programs. */
  ghost predicate Batch(s: State, pr: Primacies, cs: seq<Control>, now: int) {
    && s.scheduled == [] && s.active == [] && s.superseded == [] && Unique(Ids(cs)) && AllToCome(s, pr, cs, now)
    && Covers(s.events, pr, Elements(Ids(cs))) && AllOverlap(s.events, Elements(Ids(cs))) && Ranked(s.events, pr, Elements(Ids(cs)))
  }

  /** A rebuild over overlapping events with distinct ranks, in whatever order they are listed:
      each holds exactly the bits no event above it asks for, and is superseded exactly when
      that leaves nothing. */
  lemma RebuildOutcome(s: State, gone: seq<Id>, pr: Primacies, cs: seq<Control>, now: int, k: Id)
    requires AllIn(s, gone) && Batch(Emptied(s, gone, now), pr, cs, now) && k in Ids(cs)
    ensures Listed(s, cs)
    ensures var r := Rebuild(s, gone, cs, now);
      && k in r.blocks && r.blocks[k].der == Due(s.events, pr, Elements(Ids(cs)), k)
      && (k in r.scheduled <==> r.blocks[k].der != {})
      && (k in r.superseded <==> r.blocks[k].der == {})
  {
    var u := Emptied(s, gone, now);
    assert {} + Elements(Ids(cs)) == Elements(Ids(cs));
    AllSettle(u, s.events, pr, {}, cs, now);
    assert k in Elements(Ids(cs));
    hide Emptied, ScheduleEvents, Due;
  }

  /** The outcome is the same for every order in which they are listed. */
  lemma OrderDoesNotMatter(s: State, gone: seq<Id>, pr: Primacies, cs: seq<Control>, cs': seq<Control>, now: int, k: Id)
    requires AllIn(s, gone) && Batch(Emptied(s, gone, now), pr, cs, now) && Batch(Emptied(s, gone, now), pr, cs', now)
    requires Elements(Ids(cs)) == Elements(Ids(cs')) && k in Ids(cs)
    ensures Listed(s, cs) && Listed(s, cs')
    ensures var r, r' := Rebuild(s, gone, cs, now), Rebuild(s, gone, cs', now);
      && k in r.blocks && k in r'.blocks && r.blocks[k].der == r'.blocks[k].der
      && (k in r.scheduled <==> k in r'.scheduled)
      && (k in r.superseded <==> k in r'.superseded)
  {
    assert k in Elements(Ids(cs'));
    RebuildOutcome(s, gone, pr, cs, now, k);
    RebuildOutcome(s, gone, pr, cs', now, k);
  }

  /** A bit any event asks for is held by one of them, and by no two. */
  lemma EveryBitHeldOnce(s: State, gone: seq<Id>, pr: Primacies, cs: seq<Control>, now: int, j: Id, b: nat) returns (k: Id)
    requires AllIn(s, gone) && Batch(Emptied(s, gone, now), pr, cs, now) && j in Ids(cs) && b in s.events[j].mask
    ensures Listed(s, cs) && k in Ids(cs)
    ensures var r := Rebuild(s, gone, cs, now);
      && k in r.blocks && b in r.blocks[k].der
      && forall k' :: k' in Ids(cs) ==> k' in r.blocks && (b in r.blocks[k'].der ==> k' == k)
  {
    var ks, ev := Elements(Ids(cs)), s.events;
    assert j in ks;
    if b in Due(ev, pr, ks, j) {
      k := j;
    } else {
      var m :| m in ks && Above(ev, pr, m, j) && b in ev[m].mask;
      k := Holder(ev, pr, ks, j, m, b);
    }
    assert b in Due(ev, pr, ks, k);
    RebuildOutcome(s, gone, pr, cs, now, k);
    hide Emptied, Rebuild, AllToCome;
    forall k' | k' in Ids(cs) ensures k' in Rebuild(s, gone, cs, now).blocks && (b in Rebuild(s, gone, cs, now).blocks[k'].der ==> k' == k) {
      RebuildOutcome(s, gone, pr, cs, now, k');
      assert k' in ks;
      if b in Due(ev, pr, ks, k') && k' != k { OneHolder(ev, pr, ks, k, k', b); }
    }
  }

  lemma OneHolder(ev: Events, pr: Primacies, ks: set<Id>, a: Id, c: Id, b: nat)
    requires Covers(ev, pr, ks) && Ranked(ev, pr, ks) && a in ks && c in ks && a != c
    requires b in Due(ev, pr, ks, a)
    ensures b !in Due(ev, pr, ks, c)
  {
  }
}
