/**
 What every run of the schedule keeps: a block is in one queue, with the status that queue
 stands for; no control bit has two owners; a finished block never lives again. And what
 every step does to the tally of a block's starts and ends.
 */
module ScheduleSafety {
  import opened Common
  import opened Schedule
  import opened ScheduleActive
  import opened ScheduleLists

  // ---- the invariant ----

  /** Each queue holds a block once, with a status of its own and an event the server still
      wants carried out. */
  ghost predicate Queued(s: State) {
    && Known(s) && s.blocks.Keys <= s.events.Keys
    && Unique(s.scheduled) && Unique(s.active) && Unique(s.superseded)
    && (forall k :: k in s.scheduled ==> s.blocks[k].status.Scheduled? && s.events[k].status.Live())
    && (forall k :: k in s.active ==> (s.blocks[k].status.Active? || s.blocks[k].status.ActiveWait?) && s.events[k].status.Live())
    && (forall k :: k in s.superseded ==> s.blocks[k].status.ScheduleSuperseded? && s.events[k].status.Live())
  }

  predicate Apart(s: State, a: Id, b: Id)
    requires s.Has(a) && s.Has(b)
  {
    s.blocks[a].der !! s.blocks[b].der
  }

  /** No bit belongs to two active blocks, or to two scheduled ones whose server intervals overlap. */
  ghost predicate Owned(s: State)
    requires Known(s)
  {
    && (forall a, b :: a in s.active && b in s.active && a != b ==> Apart(s, a, b))
    && (forall a, b :: a in s.scheduled && b in s.scheduled && a != b && Overlap(s.events[a], s.events[b]) ==> Apart(s, a, b))
  }

  datatype Phase = Fresh | Started | Ended | Bad

  function Advance(p: Phase, kind: Kind): Phase {
    if kind.EventStart? then if p.Fresh? then Started else Bad
    else if p.Started? then Ended else Bad
  }

  /** How far a block has come by its starts and ends. */
  function PhaseOf(log: seq<Ev>, id: Id): Phase {
    if log == [] then Fresh
    else
      var e, p := log[|log| - 1], PhaseOf(log[..|log| - 1], id);
      if e.data == OfBlock(id) then Advance(p, e.kind) else p
  }

  lemma Logged(log: seq<Ev>, e: Ev, id: Id)
    ensures PhaseOf(log + [e], id) == if e.data == OfBlock(id) then Advance(PhaseOf(log, id), e.kind) else PhaseOf(log, id)
  {
    assert (log + [e])[..|log|] == log;
  }

  /** An active block has started and not ended, and a block that waits has not started. */
  predicate Tallied(s: State, k: Id) {
    var p := PhaseOf(s.log, k);
    if k in s.blocks then
      var st := s.blocks[k].status;
      !p.Bad? && (st.Active? ==> p.Started?) && (!st.Active? && !st.Final() ==> p.Fresh?)
    else p.Fresh?
  }

  /** A finished block that has started and not ended. */
  predicate Unended(s: State, k: Id) {
    k in s.blocks && s.blocks[k].status.Final() && PhaseOf(s.log, k).Started?
  }

  ghost predicate Good(s: State) { Queued(s) && Owned(s) }

  lemma GoodKnown(s: State)
    requires Good(s)
    ensures Known(s)
  {
  }

  /** Nothing that was finished lives again or is heard of again, and what has been queued
      stays on record. */
  ghost predicate Forward(s: State, r: State) {
    && s.blocks.Keys <= r.blocks.Keys && s.log <= r.log
    && (forall k :: k in s.blocks && s.blocks[k].status.Final() ==>
          r.blocks[k].status.Final() && PhaseOf(r.log, k) == PhaseOf(s.log, k))
  }

  /** The tally is kept, but for the blocks in `back`; and no block is left without an end,
      but for those in `lost`. */
  ghost predicate OnwardBut(s: State, r: State, back: set<Id>, lost: set<Id>) {
    && Forward(s, r)
    && (forall k :: Tallied(s, k) && k !in back ==> Tallied(r, k))
    && (forall k :: Tallied(s, k) && !Unended(s, k) && k !in back && k !in lost ==> !Unended(r, k))
  }

  ghost predicate Onward(s: State, r: State) { OnwardBut(s, r, {}, {}) }

  lemma OnwardAgainBut(s: State, t: State, r: State, back: set<Id>, lost: set<Id>, back': set<Id>, lost': set<Id>)
    requires OnwardBut(s, t, back, lost) && OnwardBut(t, r, back', lost')
    ensures OnwardBut(s, r, back + back', lost + lost')
  {
    hide PhaseOf, Tallied, Unended;
  }

  lemma OnwardAgain(s: State, t: State, r: State)
    requires Onward(s, t) && Onward(t, r)
    ensures Onward(s, r)
  {
    hide PhaseOf, Tallied, Unended;
  }

  lemma OnwardThen(s: State, t: State, r: State, back: set<Id>, lost: set<Id>)
    requires Onward(s, t) && OnwardBut(t, r, back, lost)
    ensures OnwardBut(s, r, back, lost)
  {
    hide PhaseOf, Tallied, Unended;
  }

  // ---- blocks on their way into a queue ----

  predicate Loose(s: State, id: Id) {
    s.Has(id) && id !in s.scheduled && id !in s.active && id !in s.superseded
  }

  /** A block being inserted: in no queue, and still to be carried out. */
  predicate Floating(s: State, id: Id) {
    Loose(s, id) && !s.blocks[id].status.Final() && s.events[id].status.Live()
  }

  /** The block has given up, or taken, what it shares with the blocks in front of `i`. */
  predicate Met(s: State, id: Id, i: nat)
    requires Known(s) && s.Has(id)
  {
    i <= |s.scheduled| && forall j :: 0 <= j < i && Overlap(s.events[id], s.events[s.scheduled[j]]) ==> Apart(s, id, s.scheduled[j])
  }

  predicate MetActive(s: State, id: Id, rest: seq<Id>)
    requires Known(s) && s.Has(id)
  {
    && Unique(rest) && Within(rest, s.active)
    && forall j :: 0 <= j < |s.active| && s.active[j] !in rest ==> Apart(s, id, s.active[j])
  }

  // ---- moves that touch masks and times only ----

  /** Nothing changes but times, and masks that shrink. */
  predicate Lessened(s: State, r: State) {
    && r == s.(blocks := r.blocks) && r.blocks.Keys == s.blocks.Keys
    && forall k :: k in s.blocks ==> r.blocks[k].status == s.blocks[k].status && r.blocks[k].der <= s.blocks[k].der
  }

  lemma LessGood(s: State, r: State)
    requires Good(s) && Lessened(s, r)
    ensures Good(r) && Onward(s, r)
  {
    hide PhaseOf, Overlap;
    SameTally(s, r);
    forall a, b | s.Has(a) && s.Has(b) && Apart(s, a, b) ensures Apart(r, a, b) {}
  }

  /** No status and no record changes. */
  lemma SameTally(s: State, r: State)
    requires r.blocks.Keys == s.blocks.Keys && r.log == s.log
    requires forall k :: k in s.blocks ==> r.blocks[k].status == s.blocks[k].status
    ensures Onward(s, r)
  {
    hide PhaseOf;
  }

  lemma SupersedeLess(s: State, a: Id, b: Id)
    requires s.Has(a) && s.Has(b) && a != b
    ensures var r := BlockSupersede(s, a, b).1;
      && Lessened(s, r) && Apart(r, a, b)
      && (forall k :: k in s.blocks && k != a && k != b ==> r.blocks[k] == s.blocks[k])
  {
  }

  /** Meeting one more scheduled block. */
  lemma MeetNext(s: State, id: Id, i: nat)
    requires Good(s) && Floating(s, id) && Met(s, id, i) && i < |s.scheduled|
    ensures var r := BlockSupersede(s, id, s.scheduled[i]).1;
      && Good(r) && Onward(s, r) && Floating(r, id) && Met(r, id, i + 1)
      && r.blocks[id].status == s.blocks[id].status
  {
    hide Outranks, Overlap;
    var r := BlockSupersede(s, id, s.scheduled[i]).1;
    SupersedeLess(s, id, s.scheduled[i]);
    hide BlockSupersede;
    LessGood(s, r);
    hide Good;
  }

  lemma MeetAbut(s: State, id: Id, i: nat)
    requires Good(s) && Floating(s, id) && Met(s, id, i) && i < |s.scheduled|
    requires !Overlap(s.events[id], s.events[s.scheduled[i]])
    ensures var r := Abut(s, id, s.scheduled[i]);
      && Good(r) && Onward(s, r) && Floating(r, id) && Met(r, id, i + 1)
      && r.blocks[id].status == s.blocks[id].status && r.scheduled == s.scheduled
  {
    hide Overlap;
    var r := Abut(s, id, s.scheduled[i]);
    assert Lessened(s, r);
    LessGood(s, r);
    hide Good;
  }

  // ---- moves between queues ----

  /** A change of status that queues no start or end, of a block that is not active. */
  lemma Quiet(s: State, r: State, id: Id)
    requires id in s.blocks && r.log == s.log && r.blocks.Keys == s.blocks.Keys
    requires forall k :: k in s.blocks && k != id ==> r.blocks[k].status == s.blocks[k].status
    requires !s.blocks[id].status.Active? && !r.blocks[id].status.Active?
    requires s.blocks[id].status.Final() ==> r.blocks[id].status.Final()
    ensures Onward(s, r)
  {
    hide PhaseOf;
  }

  /** An active block falls back, or is finished, without an end. */
  lemma Silent(s: State, r: State, id: Id)
    requires id in s.blocks && s.blocks[id].status.Active? && r.log == s.log && r.blocks.Keys == s.blocks.Keys
    requires forall k :: k in s.blocks && k != id ==> r.blocks[k].status == s.blocks[k].status
    ensures r.blocks[id].status.Final() ==> OnwardBut(s, r, {}, {id})
    ensures OnwardBut(s, r, {id}, {})
  {
    hide PhaseOf;
  }

  /** A start or end of one block. */
  lemma Noted(s: State, r: State, id: Id, kind: Kind)
    requires id in s.blocks && r.log == s.log + [Ev(OfBlock(id), kind, 0)] && r.blocks.Keys == s.blocks.Keys
    requires forall k :: k in s.blocks && k != id ==> r.blocks[k].status == s.blocks[k].status
    requires kind.EventStart? ==> !s.blocks[id].status.Active? && !s.blocks[id].status.Final() && r.blocks[id].status.Active?
    requires !kind.EventStart? ==> s.blocks[id].status.Active? && r.blocks[id].status.Final()
    ensures Onward(s, r)
  {
    forall k ensures PhaseOf(r.log, k) == if k == id then Advance(PhaseOf(s.log, k), kind) else PhaseOf(s.log, k) {
      Logged(s.log, Ev(OfBlock(id), kind, 0), k);
    }
    hide PhaseOf;
  }

  lemma OwnedLess(s: State, r: State)
    requires Known(s) && Owned(s) && Known(r) && r.events == s.events
    requires forall k :: k in r.scheduled ==> k in s.scheduled
    requires forall k :: k in r.active ==> k in s.active
    requires forall k :: k in r.scheduled || k in r.active ==> r.blocks[k].der <= s.blocks[k].der
    ensures Owned(r)
  {
    hide Overlap;
    forall a, b | a in r.active && b in r.active && a != b ensures Apart(r, a, b) { assert Apart(s, a, b); }
    forall a, b | a in r.scheduled && b in r.scheduled && a != b && Overlap(r.events[a], r.events[b]) ensures Apart(r, a, b) {
      assert Apart(s, a, b);
    }
  }

  /** Every queue of `q` without repetition, and within `q0` except for `id`. */
  predicate Sub(q: seq<Id>, q0: seq<Id>, id: Id) {
    Unique(q) && forall i :: 0 <= i < |q| ==> q[i] in q0 && q[i] != id
  }

  /** Blocks leave their queues, `id` among them; no other status changes. */
  lemma QueuedLess(s: State, r: State, id: Id)
    requires Queued(s) && r.events == s.events && r.blocks.Keys == s.blocks.Keys
    requires Sub(r.scheduled, s.scheduled, id) && Sub(r.active, s.active, id) && Sub(r.superseded, s.superseded, id)
    requires forall k :: k in s.blocks && k != id ==> r.blocks[k].status == s.blocks[k].status
    ensures Queued(r) && (id in r.blocks ==> Loose(r, id))
  {
  }

  lemma SubTail(q: seq<Id>)
    requires Unique(q) && q != []
    ensures Sub(q[1..], q, q[0])
  {
  }

  lemma SubSame(q: seq<Id>, id: Id)
    requires Unique(q) && id !in q
    ensures Sub(q, q, id)
  {
  }

  lemma SubRemoved(q: seq<Id>, id: Id)
    requires Unique(q)
    ensures Sub(Remove(q, id), q, id)
  {
    Removed(q, id);
  }

  /** A scheduled block with nothing left is shelved. */
  lemma ShelveGood(s: State, id: Id, i: nat)
    requires Good(s) && Floating(s, id) && Met(s, id, i + 1) && i < |s.scheduled|
    ensures var r := Shelve(s, s.scheduled[i]).(scheduled := Drop(s.scheduled, i));
      Good(r) && Onward(s, r) && Floating(r, id) && Met(r, id, i) && r.blocks[id].status == s.blocks[id].status
  {
    hide Overlap, PhaseOf;
    var e := s.scheduled[i];
    var r := Shelve(s, e).(scheduled := Drop(s.scheduled, i));
    Dropped(s.scheduled, i);
    Quiet(s, r, e);
    assert forall k :: k in r.superseded <==> k == e || k in s.superseded;
    assert e !in s.superseded && e !in s.active;
    assert Queued(r);
    OwnedLess(s, r);
    hide Good, Queued, Owned, Drop;
  }

  /** The block itself has nothing left. */
  lemma ShelveSelf(s: State, id: Id)
    requires Good(s) && Floating(s, id) && !s.blocks[id].status.Active?
    ensures Good(Shelve(s, id)) && Onward(s, Shelve(s, id))
  {
    hide Overlap, PhaseOf;
    var r := Shelve(s, id);
    Quiet(s, r, id);
    assert forall k :: k in r.superseded <==> k == id || k in s.superseded;
    assert Queued(r);
    OwnedLess(s, r);
  }

  lemma SchedulingGood(s: State, id: Id)
    requires Good(s) && Floating(s, id) && s.blocks[id].status.Scheduled? && Met(s, id, |s.scheduled|)
    ensures Good(Scheduling(s, id)) && Onward(s, Scheduling(s, id))
  {
    hide Overlap, PhaseOf, InsertSorted;
    var r := Scheduling(s, id);
    Inserted(Starts(s), s.scheduled, id);
    SameTally(s, r);
    assert Queued(r);
    forall a, b | a in r.scheduled && b in r.scheduled && a != b && Overlap(r.events[a], r.events[b]) ensures Apart(r, a, b) {
      OverlapBack(r.events[a], r.events[b]);
      if a == id {
        var j :| 0 <= j < |s.scheduled| && s.scheduled[j] == b;
      } else if b == id {
        var j :| 0 <= j < |s.scheduled| && s.scheduled[j] == a;
      } else {
        assert Apart(s, a, b);
      }
    }
    forall a, b | a in r.active && b in r.active && a != b ensures Apart(r, a, b) { assert Apart(s, a, b); }
  }

  lemma OverlapBack(x: Event, y: Event)
    ensures Overlap(x, y) == Overlap(y, x)
  {
  }

  // ---- insert_block ----

  lemma {:induction false} InsertLoopGood(s: State, id: Id, i: nat)
    requires Good(s) && Floating(s, id) && Met(s, id, i) && s.blocks[id].status.Scheduled?
    ensures Good(InsertLoop(s, id, i)) && Onward(s, InsertLoop(s, id, i))
    decreases |s.scheduled| - i, 1
  {
    assert Known(s);
    hide Good, Onward, Overlap, Scheduling, Apart, Unique, Within, Abut, BlockSupersede, Shelve;
    if i == |s.scheduled| {
      SchedulingGood(s, id);
    } else if Overlap(s.events[id], s.events[s.scheduled[i]]) {
      OverlapGood(s, id, i);
    } else {
      MeetAbut(s, id, i);
      var t := Abut(s, id, s.scheduled[i]);
      InsertLoopGood(t, id, i + 1);
      OnwardAgain(s, t, InsertLoop(t, id, i + 1));
    }
  }

  lemma {:induction false} OverlapGood(s: State, id: Id, i: nat)
    requires Good(s) && Floating(s, id) && Met(s, id, i) && s.blocks[id].status.Scheduled?
    requires i < |s.scheduled| && Overlap(s.events[id], s.events[s.scheduled[i]])
    ensures Good(InsertLoop(s, id, i)) && Onward(s, InsertLoop(s, id, i))
    decreases |s.scheduled| - i, 0
  {
    assert Known(s);
    hide Good, Onward, Overlap, Apart, Unique, Within, Outranks, InsertLoop;
    var e := s.scheduled[i];
    var (sup, s1) := BlockSupersede(s, id, e);
    MeetNext(s, id, i);
    assert s1.scheduled == s.scheduled && s1.events == s.events;
    OverlapStep(s, id, i);
    hide BlockSupersede;
    if sup {
      ShelveGood(s1, id, i);
      var t := Shelve(s1, e).(scheduled := Drop(s1.scheduled, i));
      assert |t.scheduled| == |s.scheduled| - 1;
      hide Shelve, Drop;
      InsertLoopGood(t, id, i);
      OnwardAgain(s, s1, t);
      OnwardAgain(s, t, InsertLoop(t, id, i));
    } else if s1.blocks[id].der == {} {
      ShelveSelf(s1, id);
      OnwardAgain(s, s1, Shelve(s1, id));
    } else {
      InsertLoopGood(s1, id, i + 1);
      OnwardAgain(s, s1, InsertLoop(s1, id, i + 1));
    }
  }

  /** The block on its way back, if it is an active one. */
  function Fallen(s: State, id: Id): set<Id>
    requires id in s.blocks
  {
    if s.blocks[id].status.Active? then {id} else {}
  }

  lemma InsertBlockGood(s: State, id: Id)
    requires Good(s) && Floating(s, id)
    ensures Good(InsertBlock(s, id)) && OnwardBut(s, InsertBlock(s, id), Fallen(s, id), {})
  {
    var t := s.Set(id, s.blocks[id].(status := Scheduled, der := s.events[id].mask));
    FloatScheduled(s, id);
    InsertLoopGood(t, id, 0);
    OnwardAgainBut(s, t, InsertLoop(t, id, 0), Fallen(s, id), {}, {}, {});
  }

  lemma FloatScheduled(s: State, id: Id)
    requires Good(s) && Floating(s, id)
    ensures var t := s.Set(id, s.blocks[id].(status := Scheduled, der := s.events[id].mask));
      Good(t) && OnwardBut(s, t, Fallen(s, id), {}) && Floating(t, id)
  {
    hide Overlap, PhaseOf;
    var t := s.Set(id, s.blocks[id].(status := Scheduled, der := s.events[id].mask));
    if s.blocks[id].status.Active? { Silent(s, t, id); } else { Quiet(s, t, id); }
    OwnedLess(s, t);
  }

  // ---- insert_active ----

  lemma MeetActive(s: State, id: Id, rest: seq<Id>)
    requires Good(s) && Floating(s, id) && MetActive(s, id, rest) && rest != []
    ensures s.Has(rest[0]) && rest[0] != id
    ensures var r := BlockSupersede(s, id, rest[0]).1;
      && Good(r) && Onward(s, r) && Floating(r, id) && MetActive(r, id, rest[1..])
      && r.active == s.active && r.blocks[id].status == s.blocks[id].status
  {
    hide Outranks, Overlap;
    var a := rest[0];
    assert a in s.active && s.Has(a) && a != id;
    var r := BlockSupersede(s, id, a).1;
    SupersedeLess(s, id, a);
    hide BlockSupersede;
    LessGood(s, r);
    hide Good;
    assert rest == [a] + rest[1..];
    assert forall j :: 0 <= j < |s.active| && s.active[j] !in rest ==> Apart(r, id, s.active[j]);
  }

  /** An active block with nothing left is displaced, and with it those in front of it. */
  lemma DisplaceGood(s: State, id: Id, rest: seq<Id>, end: int)
    requires Good(s) && Floating(s, id) && rest != [] && Unique(rest) && Within(rest, s.active)
    ensures s.Has(rest[0])
    ensures var r := Displace(s, rest[0], end).(active := rest[1..]);
      && Good(r) && Onward(s, r) && Floating(r, id) && MetActive(r, id, rest[1..])
      && r.blocks[id].status == s.blocks[id].status
  {
    hide Overlap, PhaseOf;
    var a := rest[0];
    assert a in s.active && s.Has(a) && a != id;
    var r := Displace(s, a, end).(active := rest[1..]);
    if s.blocks[a].status.Active? {
      Noted(s, r, a, EventEnd);
    } else {
      Quiet(s, r, a);
    }
    SubTail(rest);
    assert a !in s.scheduled && a !in s.superseded;
    SubSame(s.scheduled, a);
    SubSame(s.superseded, a);
    assert Sub(r.active, s.active, a);
    QueuedLess(s, r, a);
    OwnedLess(s, r);
  }

  /** The block given up, if it is an active one. */
  function GivenAway(s: State, r: State, id: Id): set<Id>
    requires id in s.blocks && id in r.blocks
  {
    if s.blocks[id].status.Active? && r.blocks[id].status.Superseded? then {id} else {}
  }

  lemma YieldGood(s: State, id: Id)
    requires Good(s) && Floating(s, id)
    ensures var r := s.Set(id, s.blocks[id].(status := Superseded)); Good(r) && OnwardBut(s, r, {}, GivenAway(s, r, id))
  {
    hide Overlap, PhaseOf;
    var r := s.Set(id, s.blocks[id].(status := Superseded));
    if s.blocks[id].status.Active? { Silent(s, r, id); } else { Quiet(s, r, id); }
    OwnedLess(s, r);
  }

  /** A block that waits for the server, or starts. */
  lemma BeginGood(s: State, id: Id)
    requires Good(s) && Floating(s, id) && (s.blocks[id].status.Active? ==> s.events[id].status.Active?)
    ensures var t := if s.events[id].status.Scheduled? then s.Set(id, s.blocks[id].(status := ActiveWait)) else Activate(s, id);
      && Good(t) && Onward(s, t) && Loose(t, id) && (t.blocks[id].status.Active? || t.blocks[id].status.ActiveWait?)
      && t.active == s.active && t.scheduled == s.scheduled && t.superseded == s.superseded
      && (forall k :: k in s.blocks ==> t.blocks[k].der == s.blocks[k].der)
  {
    hide Overlap, PhaseOf;
    var t := if s.events[id].status.Scheduled? then s.Set(id, s.blocks[id].(status := ActiveWait)) else Activate(s, id);
    if s.events[id].status.Scheduled? {
      Quiet(s, t, id);
    } else if !s.blocks[id].status.Active? {
      Noted(s, t, id, EventStart);
    } else {
      SameTally(s, t);
    }
    OwnedLess(s, t);
  }

  lemma JoinGood(s: State, id: Id)
    requires Good(s) && Loose(s, id) && s.events[id].status.Live()
    requires s.blocks[id].status.Active? || s.blocks[id].status.ActiveWait?
    requires forall j :: 0 <= j < |s.active| ==> Apart(s, id, s.active[j])
    ensures var r := s.(active := InsertSorted(Ends(s), s.active, id)); Good(r) && Onward(s, r)
  {
    var r := s.(active := InsertSorted(Ends(s), s.active, id));
    Inserted(Ends(s), s.active, id);
    SameTally(s, r);
    hide InsertSorted, Onward, Apart, Overlap;
    JoinQueued(s, r, id);
    hide Queued, Unique;
    JoinOwned(s, r, id);
  }

  lemma JoinQueued(s: State, r: State, id: Id)
    requires Queued(s) && Loose(s, id) && s.events[id].status.Live() && (s.blocks[id].status.Active? || s.blocks[id].status.ActiveWait?)
    requires r == s.(active := r.active) && Unique(r.active) && forall k :: k in r.active <==> k == id || k in s.active
    ensures Queued(r)
  {
    hide Unique;
    assert forall i :: 0 <= i < |r.active| ==> r.active[i] in r.active;
  }

  lemma JoinOwned(s: State, r: State, id: Id)
    requires Known(s) && Owned(s) && s.Has(id) && r == s.(active := r.active) && Known(r)
    requires forall k :: k in r.active <==> k == id || k in s.active
    requires forall j :: 0 <= j < |s.active| ==> Apart(s, id, s.active[j])
    ensures Owned(r)
  {
    hide Overlap;
    forall a, b | a in r.active && b in r.active && a != b ensures Apart(r, a, b) {
      if a == id {
        var j :| 0 <= j < |s.active| && s.active[j] == b;
      } else if b == id {
        var j :| 0 <= j < |s.active| && s.active[j] == a;
      } else {
        assert Apart(s, a, b);
      }
    }
    forall a, b | a in r.scheduled && b in r.scheduled && a != b && Overlap(r.events[a], r.events[b]) ensures Apart(r, a, b) {
      assert Apart(s, a, b);
    }
  }

  lemma AdmitGood(s: State, id: Id)
    requires Good(s) && Floating(s, id) && MetActive(s, id, []) && (s.blocks[id].status.Active? ==> s.events[id].status.Active?)
    ensures Good(Admit(s, id)) && Onward(s, Admit(s, id))
  {
    var t := if s.events[id].status.Scheduled? then s.Set(id, s.blocks[id].(status := ActiveWait)) else Activate(s, id);
    BeginGood(s, id);
    assert forall j :: 0 <= j < |t.active| ==> Apart(s, id, t.active[j]);
    hide Good, Queued, Owned, Activate, Onward;
    JoinGood(t, id);
    OnwardAgain(s, t, Admit(s, id));
  }

  lemma {:induction false} ActiveLoopGood(s: State, id: Id, rest: seq<Id>)
    requires Good(s) && Floating(s, id) && MetActive(s, id, rest) && (s.blocks[id].status.Active? ==> s.events[id].status.Active?)
    ensures var r := ActiveLoop(s, id, rest); Good(r) && OnwardBut(s, r, {}, GivenAway(s, r, id))
    decreases |rest|
  {
    assert Known(s);
    hide Good, Onward, OnwardBut, Admit, Outranks;
    if rest == [] {
      AdmitGood(s, id);
      Nothing(s, Admit(s, id), GivenAway(s, Admit(s, id), id));
    } else {
      var a := rest[0];
      MeetActive(s, id, rest);
      var (sup, s1) := BlockSupersede(s, id, a);
      hide BlockSupersede;
      if sup {
        DisplaceGood(s1, id, rest, s1.blocks[id].start);
        var t := Displace(s1, a, s1.blocks[id].start).(active := rest[1..]);
        hide Displace;
        ActiveLoopGood(t, id, rest[1..]);
        OnwardAgain(s, s1, t);
        OnwardThen(s, t, ActiveLoop(t, id, rest[1..]), {}, GivenAway(t, ActiveLoop(t, id, rest[1..]), id));
      } else if s1.blocks[id].der == {} {
        YieldGood(s1, id);
        var r := s1.Set(id, s1.blocks[id].(status := Superseded));
        OnwardThen(s, s1, r, {}, GivenAway(s1, r, id));
      } else {
        ActiveLoopGood(s1, id, rest[1..]);
        OnwardThen(s, s1, ActiveLoop(s1, id, rest[1..]), {}, GivenAway(s1, ActiveLoop(s1, id, rest[1..]), id));
      }
    }
  }

  lemma Nothing(s: State, r: State, lost: set<Id>)
    requires Onward(s, r)
    ensures OnwardBut(s, r, {}, lost)
  {
    hide PhaseOf, Tallied, Unended;
  }

  /** The active block that gives up when it is inserted again. */
  ghost function GivenUp(s: State, id: Id): set<Id>
    requires s.Has(id) && AllIn(s, s.active)
  {
    if s.blocks[id].status.Active? && GivesUp(s, id) then {id} else {}
  }

  lemma InsertActiveGood(s: State, id: Id)
    requires Good(s) && Floating(s, id) && (s.blocks[id].status.Active? ==> s.events[id].status.Active?)
    ensures Good(InsertActive(s, id)) && OnwardBut(s, InsertActive(s, id), {}, GivenUp(s, id))
  {
    var t := s.Set(id, s.blocks[id].(der := s.events[id].mask));
    FloatActive(s, id);
    ActiveLoopGood(t, id, s.active);
    FloatSeparate(s, id);
    InsertOutcome(s, id);
    hide Good, OnwardBut, Onward, ActiveLoop, GivesUp, MetActive;
    OnwardThen(s, t, ActiveLoop(t, id, s.active), {}, GivenUp(s, id));
  }

  lemma FloatSeparate(s: State, id: Id)
    requires Good(s) && Floating(s, id)
    ensures Separate(s, id)
  {
    hide Overlap;
    forall i, j | 0 <= i < j < |s.active| ensures s.blocks[s.active[i]].der !! s.blocks[s.active[j]].der {
      assert s.active[i] in s.active && s.active[j] in s.active;
      assert Apart(s, s.active[i], s.active[j]);
    }
  }

  lemma FloatActive(s: State, id: Id)
    requires Good(s) && Floating(s, id)
    ensures var t := s.Set(id, s.blocks[id].(der := s.events[id].mask));
      && Good(t) && Onward(s, t) && Floating(t, id) && MetActive(t, id, s.active)
  {
    hide Overlap, PhaseOf;
    var t := s.Set(id, s.blocks[id].(der := s.events[id].mask));
    SameTally(s, t);
    OwnedLess(s, t);
  }

  // ---- removal ----

  /** Only the pending events, or the time of the next update, change. */
  predicate Idle(s: State, r: State) { r == s.(im := r.im, timed := r.timed, next := r.next, sync := r.sync) }

  lemma IdleGood(s: State, r: State)
    requires Good(s) && Idle(s, r)
    ensures Good(r) && Onward(s, r)
  {
    hide PhaseOf, Overlap;
    SameTally(s, r);
    forall a, b | s.Has(a) && s.Has(b) && Apart(s, a, b) ensures Apart(r, a, b) {}
  }

  lemma RetireQueued(s: State, id: Id, status: Status, now: int)
    requires Queued(s) && id in s.blocks && status.Final()
    ensures var r := Retire(s, id, status, now);
      && Queued(r) && Loose(r, id)
      && (forall k :: k in r.scheduled ==> k in s.scheduled) && (forall k :: k in r.active ==> k in s.active)
      && (forall k :: k in s.blocks && k != id ==> r.blocks[k] == s.blocks[k])
  {
    var r := Retire(s, id, status, now);
    hide Unique, Remove, Without;
    RetireSub(s, id, status, now);
    QueuedLess(s, r, id);
  }

  lemma RetireSub(s: State, id: Id, status: Status, now: int)
    requires s.Has(id) && Unique(s.scheduled) && Unique(s.active) && Unique(s.superseded)
    requires var st := s.blocks[id].status;
      && (st.Scheduled? || id !in s.scheduled) && (st.Active? || st.ActiveWait? || id !in s.active)
      && (st.ScheduleSuperseded? || id !in s.superseded)
    ensures var r := Retire(s, id, status, now);
      && Sub(r.scheduled, s.scheduled, id) && Sub(r.active, s.active, id) && Sub(r.superseded, s.superseded, id)
      && (forall k :: k in s.blocks && k != id ==> r.blocks[k] == s.blocks[k])
  {
    SubRemoved(s.scheduled, id);
    SubRemoved(s.active, id);
    SubRemoved(s.superseded, id);
    if id !in s.scheduled { SubSame(s.scheduled, id); }
    if id !in s.active { SubSame(s.active, id); }
    if id !in s.superseded { SubSame(s.superseded, id); }
    hide Sub, Unique, Remove, Without, Within;
  }

  lemma RetireGood(s: State, id: Id, status: Status, now: int)
    requires Good(s) && id in s.blocks && status.Final()
    ensures Good(Retire(s, id, status, now)) && Onward(s, Retire(s, id, status, now))
    ensures Loose(Retire(s, id, status, now), id)
  {
    hide Overlap, PhaseOf, Remove, Without;
    var r := Retire(s, id, status, now);
    RetireQueued(s, id, status, now);
    OwnedLess(s, r);
    if s.blocks[id].status.Active? {
      Noted(s, r, id, EventEnd);
    } else {
      Quiet(s, r, id);
    }
  }

  lemma {:induction false} RemoveProgramsGood(s: State, gone: seq<Id>, now: int)
    requires Good(s) && AllIn(s, gone)
    ensures Good(RemovePrograms(s, gone, now)) && Onward(s, RemovePrograms(s, gone, now))
    decreases |gone|
  {
    hide Good, Onward, Retire;
    if gone != [] {
      var t := Retire(s, gone[0], Aborted, now);
      RetireGood(s, gone[0], Aborted, now);
      RemoveProgramsGood(t, gone[1..], now);
      OnwardAgain(s, t, RemovePrograms(t, gone[1..], now));
    } else {
      OnwardSame(s);
    }
  }

  lemma OnwardSame(s: State)
    ensures Onward(s, s) && Forward(s, s)
  {
  }

  // ---- rebuilding ----

  predicate Queueing(s: State, k: Id) { k in s.scheduled || k in s.active || k in s.superseded }

  /** No block but `id` has come into a queue. */
  ghost predicate Confined(s: State, r: State, id: Id) {
    forall k :: Queueing(r, k) && k != id ==> Queueing(s, k)
  }

  lemma ConfinedAgain(s: State, t: State, r: State, id: Id)
    requires Confined(s, t, id) && Confined(t, r, id)
    ensures Confined(s, r, id)
  {
    hide Queueing;
  }

  lemma ShelveConfined(s: State, id: Id, i: nat)
    requires s.Has(id) && Known(s) && i < |s.scheduled|
    ensures Confined(s, Shelve(s, s.scheduled[i]).(scheduled := Drop(s.scheduled, i)), id)
  {
    assert forall k :: k in Drop(s.scheduled, i) ==> k in s.scheduled;
  }

  lemma {:induction false} InsertLoopConfined(s: State, id: Id, i: nat)
    requires s.Has(id) && Known(s) && i <= |s.scheduled|
    ensures Confined(s, InsertLoop(s, id, i), id)
    decreases |s.scheduled| - i
  {
    hide Overlap, Outranks, InsertSorted, Drop, InsertLoop;
    if i == |s.scheduled| {
      LoopEnd(s, id);
      Inserted(Starts(s), s.scheduled, id);
    } else if Overlap(s.events[id], s.events[s.scheduled[i]]) {
      var e := s.scheduled[i];
      var (sup, s1) := BlockSupersede(s, id, e);
      OverlapStep(s, id, i);
      hide BlockSupersede;
      if sup {
        var t := Shelve(s1, e).(scheduled := Drop(s.scheduled, i));
        ShelveConfined(s1, id, i);
        ShelveKnown(s1, i);
        hide Shelve;
        InsertLoopConfined(t, id, i);
        ConfinedAgain(s1, t, InsertLoop(t, id, i), id);
      } else if s1.blocks[id].der != {} {
        InsertLoopConfined(s1, id, i + 1);
      }
    } else {
      AbutStep(s, id, i);
      InsertLoopConfined(Abut(s, id, s.scheduled[i]), id, i + 1);
    }
  }

  lemma {:induction false} ActiveLoopConfined(s: State, id: Id, rest: seq<Id>)
    requires s.Has(id) && Known(s) && AllIn(s, rest) && Within(rest, s.active)
    ensures Confined(s, ActiveLoop(s, id, rest), id)
    decreases |rest|
  {
    hide Outranks, InsertSorted;
    if rest == [] {
      var t := if s.events[id].status.Scheduled? then s.Set(id, s.blocks[id].(status := ActiveWait))
               else if s.events[id].status.Active? then Activate(s, id)
               else s;
      Inserted(Ends(t), t.active, id);
      hide Activate;
    } else {
      var a := rest[0];
      var (sup, s1) := BlockSupersede(s, id, a);
      if sup {
        var t := Displace(s1, a, s1.blocks[id].start).(active := rest[1..]);
        assert Confined(s, t, id);
        ActiveLoopConfined(t, id, rest[1..]);
      } else if s1.blocks[id].der != {} {
        ActiveLoopConfined(s1, id, rest[1..]);
      }
    }
  }

  lemma ScheduleEventConfined(s: State, id: Id, primacy: nat, now: int)
    requires id in s.events && Known(s)
    ensures Confined(s, ScheduleEvent(s, id, primacy, now), id)
  {
    hide InsertLoop, ActiveLoop;
    var b := if id !in s.blocks then NewBlock(s.events[id], primacy) else s.blocks[id].(primacy := primacy);
    var t := s.Set(id, b);
    InsertLoopConfined(t.Set(id, b.(status := Scheduled, der := s.events[id].mask)), id, 0);
    ActiveLoopConfined(t.Set(id, b.(der := s.events[id].mask)), id, t.active);
  }

  lemma EnterGood(s: State, id: Id, b: Block)
    requires Good(s) && id in s.events && !Queueing(s, id)
    requires if id in s.blocks then b.status == s.blocks[id].status else b.status.Scheduled?
    ensures Good(s.Set(id, b)) && Onward(s, s.Set(id, b))
  {
    hide Overlap, PhaseOf;
    var t := s.Set(id, b);
    OwnedLess(s, t);
  }

  lemma BlockUpdateGood(s: State, id: Id, status: Status, now: int)
    requires Good(s) && Loose(s, id) && status.Final()
    ensures Good(BlockUpdate(s, id, status, now)) && Onward(s, BlockUpdate(s, id, status, now))
  {
    hide Overlap, PhaseOf;
    var r := BlockUpdate(s, id, status, now);
    if s.blocks[id].status.Active? {
      Noted(s, r, id, EventEnd);
    } else {
      Quiet(s, r, id);
    }
    OwnedLess(s, r);
  }

  /** The block is active, and the server has its event as scheduled again. */
  predicate TakenBack(s: State, id: Id) {
    s.Has(id) && s.blocks[id].status.Active? && s.events[id].status.Scheduled?
  }

  /** The block is active, and those it meets leave it nothing. */
  ghost predicate LetGo(s: State, id: Id, primacy: nat)
    requires Known(s)
  {
    && s.Has(id) && s.blocks[id].status.Active? && s.events[id].status.Active?
    && GivesUp(s.Set(id, s.blocks[id].(primacy := primacy)), id)
  }

  lemma ScheduleEventGood(s: State, id: Id, primacy: nat, now: int)
    requires Good(s) && id in s.events && !Queueing(s, id)
    ensures Known(s)
    ensures var r := ScheduleEvent(s, id, primacy, now);
      Good(r) && OnwardBut(s, r, if TakenBack(s, id) then {id} else {}, if LetGo(s, id, primacy) then {id} else {})
  {
    assert Known(s);
    var b := if id !in s.blocks then NewBlock(s.events[id], primacy) else s.blocks[id].(primacy := primacy);
    var t := s.Set(id, b);
    EnterGood(s, id, b);
    hide Good, Onward, OnwardBut, InsertBlock, InsertActive, BlockUpdate, GivesUp;
    if id !in s.blocks && b.end <= now {
      FinishLoose(t, id);
      OnwardThen(s, t, t.Set(id, b.(status := Completed)), {}, {});
    } else if b.status.Final() {
    } else {
      var st := s.events[id].status;
      if st.Scheduled? && !b.status.ActiveWait? {
        InsertBlockGood(t, id);
        OnwardThen(s, t, InsertBlock(t, id), Fallen(t, id), {});
      } else if st.Scheduled? || st.Active? {
        InsertActiveGood(t, id);
        OnwardThen(s, t, InsertActive(t, id), {}, GivenUp(t, id));
      } else if st.Canceled? || st.CanceledRandom? || st.Superseded? {
        BlockUpdateGood(t, id, st, now);
        OnwardThen(s, t, BlockUpdate(t, id, st, now), {}, {});
      }
    }
  }

  lemma FinishLoose(s: State, id: Id)
    requires Good(s) && Loose(s, id) && !s.blocks[id].status.Active?
    ensures var r := s.Set(id, s.blocks[id].(status := Completed)); Good(r) && Onward(s, r)
  {
    hide Overlap, PhaseOf;
    var r := s.Set(id, s.blocks[id].(status := Completed));
    Quiet(s, r, id);
    OwnedLess(s, r);
  }

  /** The blocks taken back, and those let go, while the controls are scheduled again. */
  function BackIn(s: State, cs: seq<Control>, now: int): set<Id>
    requires Known(s) && Listed(s, cs)
    decreases |cs|
  {
    if cs == [] then {}
    else (if TakenBack(s, cs[0].id) then {cs[0].id} else {}) + BackIn(ScheduleEvent(s, cs[0].id, cs[0].primacy, now), cs[1..], now)
  }

  ghost function LostIn(s: State, cs: seq<Control>, now: int): set<Id>
    requires Known(s) && Listed(s, cs)
    decreases |cs|
  {
    if cs == [] then {}
    else (if LetGo(s, cs[0].id, cs[0].primacy) then {cs[0].id} else {}) + LostIn(ScheduleEvent(s, cs[0].id, cs[0].primacy, now), cs[1..], now)
  }

  lemma {:induction false} ScheduleEventsGood(s: State, cs: seq<Control>, now: int)
    requires Good(s) && Listed(s, cs) && Unique(Ids(cs))
    requires forall i :: 0 <= i < |cs| ==> !Queueing(s, cs[i].id)
    ensures Known(s)
    ensures var r := ScheduleEvents(s, cs, now); Good(r) && OnwardBut(s, r, BackIn(s, cs, now), LostIn(s, cs, now))
    decreases |cs|
  {
    assert Known(s);
    hide Good, Onward, OnwardBut, ScheduleEvent, Queueing, LetGo, TakenBack;
    if cs != [] {
      var t := ScheduleEvent(s, cs[0].id, cs[0].primacy, now);
      ScheduleEventGood(s, cs[0].id, cs[0].primacy, now);
      ScheduleEventConfined(s, cs[0].id, cs[0].primacy, now);
      assert forall i :: 0 < i < |cs| ==> Ids(cs)[i] != Ids(cs)[0];
      ScheduleEventsGood(t, cs[1..], now);
      OnwardAgainBut(s, t, ScheduleEvents(t, cs[1..], now),
        if TakenBack(s, cs[0].id) then {cs[0].id} else {}, if LetGo(s, cs[0].id, cs[0].primacy) then {cs[0].id} else {},
        BackIn(t, cs[1..], now), LostIn(t, cs[1..], now));
    } else {
      OnwardSame(s);
    }
  }

  lemma EmptiedGood(s: State, gone: seq<Id>, now: int)
    requires Good(s) && AllIn(s, gone)
    ensures Good(Emptied(s, gone, now)) && Onward(s, Emptied(s, gone, now))
    ensures forall k :: !Queueing(Emptied(s, gone, now), k)
  {
    var t := RemovePrograms(s, gone, now);
    RemoveProgramsGood(s, gone, now);
    SameTally(t, Cleared(t));
    hide Onward, RemovePrograms;
    OnwardAgain(s, t, Cleared(t));
  }

  lemma RebuildGood(s: State, gone: seq<Id>, cs: seq<Control>, now: int)
    requires Good(s) && AllIn(s, gone) && Listed(s, cs) && Unique(Ids(cs))
    ensures var u, r := Emptied(s, gone, now), Rebuild(s, gone, cs, now);
      Good(r) && OnwardBut(s, r, BackIn(u, cs, now), LostIn(u, cs, now))
  {
    var u := Emptied(s, gone, now);
    EmptiedGood(s, gone, now);
    hide Good, Onward, OnwardBut, RemovePrograms, ScheduleEvents, BackIn, LostIn;
    ScheduleEventsGood(u, cs, now);
    var v := ScheduleEvents(u, cs, now);
    IdleGood(v, Announced(v));
    OnwardThen(s, u, v, BackIn(u, cs, now), LostIn(u, cs, now));
    OnwardAtLast(s, v, Announced(v), BackIn(u, cs, now), LostIn(u, cs, now));
  }

  lemma OnwardAtLast(s: State, t: State, r: State, back: set<Id>, lost: set<Id>)
    requires OnwardBut(s, t, back, lost) && Onward(t, r)
    ensures OnwardBut(s, r, back, lost)
  {
    hide PhaseOf, Tallied, Unended;
  }

  // ---- the clock ----

  lemma FinishGood(s: State)
    requires Good(s) && s.active != []
    ensures var r := Finish(s, s.active[0]).(active := s.active[1..]); Good(r) && Onward(s, r)
  {
    hide Overlap, PhaseOf;
    var a := s.active[0];
    var r := Finish(s, a).(active := s.active[1..]);
    if s.blocks[a].status.Active? {
      Noted(s, r, a, EventEnd);
    } else {
      Quiet(s, r, a);
    }
    SubTail(s.active);
    assert a in s.active && a !in s.scheduled && a !in s.superseded;
    SubSame(s.scheduled, a);
    SubSame(s.superseded, a);
    QueuedLess(s, r, a);
    OwnedLess(s, r);
  }

  lemma {:induction false} ExpireGood(s: State, now: int)
    requires Good(s)
    ensures Good(Expire(s, now)) && Onward(s, Expire(s, now))
    decreases |s.active|
  {
    assert Known(s);
    hide Good, Onward;
    if s.active == [] || s.blocks[s.active[0]].end > now {
      OnwardSame(s);
    } else {
      var t := Finish(s, s.active[0]).(active := s.active[1..]);
      FinishGood(s);
      ExpireGood(t, now);
      OnwardAgain(s, t, Expire(t, now));
    }
  }

  lemma TakeGood(s: State)
    requires Good(s) && s.scheduled != []
    ensures var r := s.(scheduled := s.scheduled[1..]);
      Good(r) && Onward(s, r) && Floating(r, s.scheduled[0]) && r.blocks[s.scheduled[0]].status.Scheduled?
  {
    hide Overlap, PhaseOf;
    var e := s.scheduled[0];
    var r := s.(scheduled := s.scheduled[1..]);
    SubTail(s.scheduled);
    assert e in s.scheduled && e !in s.active && e !in s.superseded;
    SubSame(s.active, e);
    SubSame(s.superseded, e);
    QueuedLess(s, r, e);
    SameTally(s, r);
    OwnedLess(s, r);
  }

  lemma {:induction false} PromoteGood(s: State, now: int, last: int)
    requires Good(s)
    ensures Good(Promote(s, now, last).0) && Onward(s, Promote(s, now, last).0)
    decreases |s.scheduled|
  {
    assert Known(s);
    hide Good, Onward, InsertActive;
    if s.scheduled != [] && s.blocks[s.scheduled[0]].start <= now {
      var u := s.(scheduled := s.scheduled[1..]);
      TakeGood(s);
      InsertActiveGood(u, s.scheduled[0]);
      var t := PromoteOne(s);
      assert Onward(u, t);
      hide OnwardBut;
      OnwardAgain(s, u, t);
      PromoteGood(t, now, Earlier(last, t.blocks[s.scheduled[0]].end));
      OnwardAgain(s, t, Promote(t, now, Earlier(last, t.blocks[s.scheduled[0]].end)).0);
    } else {
      OnwardSame(s);
    }
  }

  lemma AbandonGood(s: State)
    requires Good(s) && s.superseded != []
    ensures var e := s.superseded[0];
      var r := s.Set(e, s.blocks[e].(status := Superseded)).(superseded := s.superseded[1..]);
      Good(r) && Onward(s, r)
  {
    hide Overlap, PhaseOf;
    var e := s.superseded[0];
    var r := s.Set(e, s.blocks[e].(status := Superseded)).(superseded := s.superseded[1..]);
    assert e in s.superseded && e !in s.scheduled && e !in s.active;
    SubTail(s.superseded);
    SubSame(s.active, e);
    SubSame(s.scheduled, e);
    QueuedLess(s, r, e);
    Quiet(s, r, e);
    OwnedLess(s, r);
  }

  lemma {:induction false} GiveUpGood(s: State, now: int, last: int)
    requires Good(s)
    ensures Good(GiveUp(s, now, last).0) && Onward(s, GiveUp(s, now, last).0)
    decreases |s.superseded|
  {
    assert Known(s);
    hide Good, Onward;
    if s.superseded != [] && s.blocks[s.superseded[0]].start <= now {
      var e := s.superseded[0];
      var t := s.Set(e, s.blocks[e].(status := Superseded)).(superseded := s.superseded[1..]);
      AbandonGood(s);
      GiveUpGood(t, now, last);
      OnwardAgain(s, t, GiveUp(t, now, last).0);
    } else {
      OnwardSame(s);
    }
  }

  lemma RearmGood(s: State, last: int)
    requires Good(s)
    ensures Known(s) && Good(Rearm(s, last)) && Onward(s, Rearm(s, last))
  {
    assert Known(s);
    hide Good, Onward, InsertTimed, Without;
    IdleGood(s, Rearm(s, last));
  }

  lemma UpdateGood(s: State, now: int)
    requires Good(s)
    ensures Good(UpdateSchedule(s, now)) && Onward(s, UpdateSchedule(s, now))
  {
    assert Known(s);
    ExpireGood(s, now);
    var a := Expire(s, now);
    hide Good, Onward, Expire, Promote, GiveUp, Rearm;
    var l0 := if a.active == [] then 0 else a.blocks[a.active[0]].end;
    PromoteGood(a, now, l0);
    var (b, l1) := Promote(a, now, l0);
    GiveUpGood(b, now, l1);
    var (c, l2) := GiveUp(b, now, l1);
    RearmGood(c, l2);
    OnwardAgain(s, a, b);
    OnwardAgain(s, b, c);
    OnwardAgain(s, c, Rearm(c, l2));
  }

  lemma PollGood(s: State, now: int, default: bool)
    requires Good(s) && Ready(s, now)
    ensures Good(Poll(s, now, default)) && Onward(s, Poll(s, now, default))
  {
    assert Known(s);
    hide Good, Onward, UpdateSchedule;
    var (e, t) := Pop(s, now);
    IdleGood(s, t);
    if e.kind.ScheduleUpdate? {
      UpdateGood(t, now);
      var u := UpdateSchedule(t, now);
      OnwardAgain(s, t, u);
      var v := InsertEvent(u, Ev(OfDevice, DefaultControl, 0));
      IdleGood(u, v);
      OnwardAgain(s, u, v);
    }
  }

  // ---- steps and runs ----

  /** The event of a block that is in no queue, or is still wanted, may be reported again. */
  lemma ReportedGood(s: State, id: Id, status: Status)
    requires Good(s) && id in s.events
    requires status.Live() || !Queueing(s, id)
    requires id in s.blocks && !status.Live() ==> s.blocks[id].status.Final()
    ensures Good(Reported(s, id, status)) && Onward(s, Reported(s, id, status))
  {
    hide PhaseOf;
    var r := Reported(s, id, status);
    SameTally(s, r);
    assert forall k :: k in s.events ==> r.events[k] == s.events[k].(status := r.events[k].status);
    forall a, b | s.Has(a) && s.Has(b) && Apart(s, a, b) ensures Apart(r, a, b) {}
    forall a, b | a in s.scheduled && b in s.scheduled && a != b && Overlap(r.events[a], r.events[b]) ensures Apart(r, a, b) {
      assert Overlap(s.events[a], s.events[b]);
    }
  }

  /** Retiring a block does not look at the event. */
  lemma RetireReported(s: State, id: Id, status: Status, now: int)
    requires s.Has(id)
    ensures Retire(Reported(s, id, status), id, status, now) == Reported(Retire(s, id, status, now), id, status)
  {
    hide Remove, Without, InsertTimed;
  }

  lemma ReportGood(s: State, id: Id, status: Status, now: int)
    requires Good(s) && Known(s) && id in s.events && status.Server()
    ensures Good(Next(s, Report(id, status, now))) && Onward(s, Next(s, Report(id, status, now)))
  {
    var t := Reported(s, id, status);
    hide Good, Onward, Retire, Activate, InsertTimed;
    if id in s.blocks && !status.Live() {
      RetireGood(s, id, status, now);
      var r := Retire(s, id, status, now);
      RetireFinal(s, id, status, now);
      ReportedGood(r, id, status);
      RetireReported(s, id, status, now);
      OnwardAgain(s, r, Reported(r, id, status));
    } else if id in s.blocks {
      ReportedGood(s, id, status);
      if status.Scheduled? {
        IdleGood(t, EventUpdate(t, id, now));
        OnwardAgain(s, t, EventUpdate(t, id, now));
      } else if t.blocks[id].status.ActiveWait? {
        WakeGood(t, id);
        OnwardAgain(s, t, Activate(t, id));
      }
    } else {
      Unqueued(s, id);
      ReportedGood(s, id, status);
    }
  }

  lemma Unqueued(s: State, id: Id)
    requires Good(s) && id !in s.blocks
    ensures !Queueing(s, id)
  {
  }

  lemma RetireFinal(s: State, id: Id, status: Status, now: int)
    requires s.Has(id)
    ensures Retire(s, id, status, now).blocks[id].status == status
  {
  }

  /** The server has started an event that was waiting. */
  lemma WakeGood(s: State, id: Id)
    requires Good(s) && id in s.blocks && s.blocks[id].status.ActiveWait? && s.events[id].status.Active?
    ensures Good(Activate(s, id)) && Onward(s, Activate(s, id))
  {
    hide Overlap, PhaseOf;
    var r := Activate(s, id);
    Noted(s, r, id, EventStart);
    OwnedLess(s, r);
  }

  lemma ArriveGood(s: State, id: Id, e: Event)
    requires Good(s) && Known(s) && Allowed(s, Arrive(id, e))
    ensures Good(Next(s, Arrive(id, e))) && Onward(s, Next(s, Arrive(id, e)))
  {
    hide PhaseOf, Overlap;
    var r := Next(s, Arrive(id, e));
    SameTally(s, r);
    OwnedKept(s, r);
  }

  lemma OwnedKept(s: State, r: State)
    requires Known(s) && Known(r) && Owned(s) && r.blocks == s.blocks && r.scheduled == s.scheduled && r.active == s.active
    requires forall k :: k in s.scheduled ==> r.events[k] == s.events[k]
    ensures Owned(r)
  {
    hide Overlap;
    forall a, b | s.Has(a) && s.Has(b) && r.Has(a) && r.Has(b) && Apart(s, a, b) ensures Apart(r, a, b) {}
  }

  /** The blocks a step takes back, and those it lets go: only a rebuild does. */
  function Back(s: State, step: Step): set<Id>
    requires Known(s) && Allowed(s, step)
  {
    if step.Reschedule? then BackIn(Emptied(s, step.gone, step.now), step.controls, step.now) else {}
  }

  ghost function Lost(s: State, step: Step): set<Id>
    requires Known(s) && Allowed(s, step)
  {
    if step.Reschedule? then LostIn(Emptied(s, step.gone, step.now), step.controls, step.now) else {}
  }

  lemma StepGood(s: State, step: Step)
    requires Good(s) && Known(s) && Allowed(s, step)
    ensures Good(Next(s, step)) && OnwardBut(s, Next(s, step), Back(s, step), Lost(s, step))
  {
    hide Good, OnwardBut, Rebuild, Poll, EventUpdate, BackIn, LostIn, Emptied;
    match step
    case Arrive(id, e) => ArriveGood(s, id, e);
    case Report(id, st, now) => ReportGood(s, id, st, now);
    case Reschedule(gone, cs, now) => RebuildGood(s, gone, cs, now);
    case Wake(now, default) => PollGood(s, now, default);
  }

  lemma ForwardAgain(s: State, t: State, r: State)
    requires Forward(s, t) && Forward(t, r)
    ensures Forward(s, r)
  {
    hide PhaseOf;
  }

  lemma {:induction false} RunGood(s: State, steps: seq<Step>)
    requires Good(s) && Known(s) && Possible(s, steps)
    ensures Good(Run(s, steps)) && Forward(s, Run(s, steps))
    decreases |steps|
  {
    hide Good, Forward, Next, Known, Allowed, Back, Lost;
    if steps == [] {
      OnwardSame(s);
    } else {
      StepGood(s, steps[0]);
      RunGood(Next(s, steps[0]), steps[1..]);
      ForwardAgain(s, Next(s, steps[0]), Run(s, steps));
    }
  }

  lemma StartGood()
    ensures Good(START)
  {
  }

  // ---- what it means ----

  /** In every reachable schedule a control bit has at most one owner in the active queue, and
      at any instant at most one among the scheduled blocks whose server interval covers
      that instant. */
  lemma OneOwner(steps: seq<Step>, a: Id, b: Id, bit: nat, t: int)
    requires Possible(START, steps) && a != b
    ensures var s := Run(START, steps);
      && !(a in s.active && b in s.active && bit in s.blocks[a].der && bit in s.blocks[b].der)
      && !(a in s.scheduled && b in s.scheduled && bit in s.blocks[a].der && bit in s.blocks[b].der
           && s.events[a].start <= t < s.events[a].End() && s.events[b].start <= t < s.events[b].End())
  {
    StartGood();
    RunGood(START, steps);
    var s := Run(START, steps);
    hide Run, Possible;
    if a in s.active && b in s.active { assert Apart(s, a, b); }
    if a in s.scheduled && b in s.scheduled && s.events[a].start <= t < s.events[a].End() && s.events[b].start <= t < s.events[b].End() {
      assert Apart(s, a, b);
    }
  }

  /** A canceled, superseded, aborted or completed block stays one, whatever happens next. */
  lemma NeverAgain(steps: seq<Step>, more: seq<Step>, id: Id)
    requires Possible(START, steps) && Possible(Run(START, steps), more)
    requires id in Run(START, steps).blocks && Run(START, steps).blocks[id].status.Final()
    ensures var r := Run(Run(START, steps), more); id in r.blocks && r.blocks[id].status.Final()
  {
    StartGood();
    RunGood(START, steps);
    RunGood(Run(START, steps), more);
  }
}
