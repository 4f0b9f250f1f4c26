/**
 No transition is missed: while any block is scheduled or active, an update of the schedule
 is pending no later than the first of them starts or ends. This holds for events without
 random offsets, of positive duration, whose times lie within the reach of an `int`.
 */
module ScheduleTimely {
  import opened Common
  import opened Schedule
  import opened ScheduleLists
  import opened ScheduleSafety
  import opened ScheduleRounds

  // ---- what is asked of the surroundings ----

  predicate InReach(base: int, t: int) { 0 < base <= t < base + 0x8000_0000 }

  predicate Plain(base: int, e: Event) {
    && e.randStart == 0 && e.randDuration == 0 && e.duration > 0
    && InReach(base, e.start) && InReach(base, e.End())
  }

  predicate Calm(base: int, step: Step) {
    match step
    case Arrive(_, e) => Plain(base, e)
    case Report(_, _, now) => InReach(base, now) && InReach(base, now + 1)
    case _ => true
  }

  // ---- blocks keep the times of their events, and queues are in order ----

  predicate OnTime(s: State, k: Id)
    requires s.Has(k)
  {
    s.blocks[k].start == s.events[k].start && s.blocks[k].end == s.events[k].End()
  }

  predicate Listing(ev: map<Id, Event>, q: seq<Id>) { forall i :: 0 <= i < |q| ==> q[i] in ev }

  predicate ByStart(ev: map<Id, Event>, q: seq<Id>) {
    Listing(ev, q) && forall i, j :: 0 <= i < j < |q| ==> ev[q[i]].start <= ev[q[j]].start
  }

  predicate ByEnd(ev: map<Id, Event>, q: seq<Id>) {
    Listing(ev, q) && forall i, j :: 0 <= i < j < |q| ==> ev[q[i]].End() <= ev[q[j]].End()
  }

  ghost predicate Punctual(base: int, s: State) {
    && Known(s) && s.blocks.Keys <= s.events.Keys
    && (forall k :: k in s.events ==> Plain(base, s.events[k]))
    && (forall k :: k in s.blocks && !s.blocks[k].status.Final() ==> OnTime(s, k))
    && ByStart(s.events, s.scheduled) && ByEnd(s.events, s.active)
  }

  /** The time of the next update and the timed events are as they were, and no immediate
      update has been queued. */
  ghost predicate Steady(s: State, r: State) {
    && r.timed == s.timed && r.next == s.next
    && forall e :: e in r.im && e !in s.im ==> e.data.OfBlock? && !e.kind.ScheduleUpdate?
  }

  lemma SteadyAgain(s: State, t: State, r: State)
    requires Steady(s, t) && Steady(t, r)
    ensures Steady(s, r)
  {
  }

  lemma SteadySame(s: State, r: State)
    requires r.timed == s.timed && r.next == s.next && r.im == s.im
    ensures Steady(s, r)
  {
  }

  // ---- moves ----

  /** Queues stay in order, and no unfinished block changes its times. */
  lemma PunctualLess(base: int, s: State, r: State)
    requires Punctual(base, s) && Known(r) && r.events == s.events && r.blocks.Keys == s.blocks.Keys
    requires forall k :: k in s.blocks && !r.blocks[k].status.Final() ==>
      !s.blocks[k].status.Final() && r.blocks[k].start == s.blocks[k].start && r.blocks[k].end == s.blocks[k].end
    requires ByStart(s.events, r.scheduled) && ByEnd(s.events, r.active)
    ensures Punctual(base, r)
  {
    hide Plain, ByStart, ByEnd;
    forall k | k in r.blocks && !r.blocks[k].status.Final() ensures OnTime(r, k) { assert OnTime(s, k); }
  }

  lemma SupersedePunctual(base: int, s: State, a: Id, b: Id)
    requires Punctual(base, s) && s.Has(a) && s.Has(b)
    ensures Punctual(base, BlockSupersede(s, a, b).1)
  {
    hide Outranks, Plain, ByStart, ByEnd;
    PunctualLess(base, s, BlockSupersede(s, a, b).1);
  }

  /** Where all is on time, blocks that abut need no adjusting. */
  lemma AbutOnTime(base: int, s: State, id: Id, e: Id)
    requires Punctual(base, s) && s.Has(id) && s.Has(e) && !s.blocks[id].status.Final() && !s.blocks[e].status.Final()
    ensures Abut(s, id, e) == s
  {
    assert OnTime(s, id) && OnTime(s, e);
    assert s.blocks[e := s.blocks[e]] == s.blocks;
  }

  lemma DropPunctual(base: int, s: State, i: nat)
    requires Punctual(base, s) && i < |s.scheduled| && Unique(s.scheduled) && !s.blocks[s.scheduled[i]].status.Final()
    ensures Punctual(base, Shelve(s, s.scheduled[i]).(scheduled := Drop(s.scheduled, i)))
  {
    hide Plain;
    var r := Shelve(s, s.scheduled[i]).(scheduled := Drop(s.scheduled, i));
    assert ByStart(s.events, r.scheduled) && Known(r);
    hide ByStart, ByEnd, Drop;
    PunctualLess(base, s, r);
  }

  lemma ShelvePunctual(base: int, s: State, id: Id)
    requires Punctual(base, s) && s.Has(id) && !s.blocks[id].status.Final()
    ensures Punctual(base, Shelve(s, id))
  {
    hide Plain, ByStart, ByEnd;
    PunctualLess(base, s, Shelve(s, id));
  }

  lemma SchedulingPunctual(base: int, s: State, id: Id)
    requires Punctual(base, s) && s.Has(id) && !s.blocks[id].status.Final()
    requires forall i :: 0 <= i < |s.scheduled| ==> !s.blocks[s.scheduled[i]].status.Final()
    ensures Punctual(base, Scheduling(s, id))
  {
    var key := Starts(s);
    assert OnTime(s, id);
    forall i | 0 <= i < |s.scheduled| ensures key[s.scheduled[i]] == s.events[s.scheduled[i]].start && Close(key[id], key[s.scheduled[i]]) {
      assert OnTime(s, s.scheduled[i]);
      assert Plain(base, s.events[s.scheduled[i]]) && Plain(base, s.events[id]);
    }
    hide Plain, InsertSorted;
    InsertedAscending(key, s.scheduled, id);
    var r := Scheduling(s, id);
    Inserted(key, s.scheduled, id);
    forall i | 0 <= i < |r.scheduled| ensures key[r.scheduled[i]] == s.events[r.scheduled[i]].start {
      assert r.scheduled[i] in r.scheduled;
      assert r.scheduled[i] == id || r.scheduled[i] in s.scheduled;
    }
    assert ByStart(s.events, r.scheduled);
    hide ByStart, ByEnd;
    PunctualLess(base, s, r);
  }

  lemma JoinPunctual(base: int, s: State, id: Id)
    requires Punctual(base, s) && s.Has(id) && !s.blocks[id].status.Final()
    requires forall i :: 0 <= i < |s.active| ==> !s.blocks[s.active[i]].status.Final()
    requires Known(s.(active := InsertSorted(Ends(s), s.active, id)))
    ensures Punctual(base, s.(active := InsertSorted(Ends(s), s.active, id)))
  {
    var key := Ends(s);
    assert OnTime(s, id);
    forall i | 0 <= i < |s.active| ensures key[s.active[i]] == s.events[s.active[i]].End() && Close(key[id], key[s.active[i]]) {
      assert OnTime(s, s.active[i]);
      assert Plain(base, s.events[s.active[i]]) && Plain(base, s.events[id]);
    }
    hide Plain, InsertSorted;
    InsertedAscending(key, s.active, id);
    var r := s.(active := InsertSorted(key, s.active, id));
    Inserted(key, s.active, id);
    forall i | 0 <= i < |r.active| ensures key[r.active[i]] == s.events[r.active[i]].End() {
      assert r.active[i] in r.active;
      assert r.active[i] == id || r.active[i] in s.active;
    }
    assert ByEnd(s.events, r.active);
    hide ByStart, ByEnd;
    PunctualLess(base, s, r);
  }

  // ---- insert_block ----

  /** The facts about statuses the moves above ask for. */
  lemma Unfinished(s: State)
    requires Good(s)
    ensures forall i :: 0 <= i < |s.scheduled| ==> !s.blocks[s.scheduled[i]].status.Final()
    ensures forall i :: 0 <= i < |s.active| ==> !s.blocks[s.active[i]].status.Final()
    ensures Unique(s.scheduled) && Unique(s.active)
  {
    assert forall i :: 0 <= i < |s.scheduled| ==> s.scheduled[i] in s.scheduled;
    assert forall i :: 0 <= i < |s.active| ==> s.active[i] in s.active;
  }

  lemma {:induction false} InsertLoopPunctual(base: int, s: State, id: Id, i: nat)
    requires Good(s) && Floating(s, id) && Met(s, id, i) && s.blocks[id].status.Scheduled? && Punctual(base, s)
    ensures Punctual(base, InsertLoop(s, id, i)) && Steady(s, InsertLoop(s, id, i))
    decreases |s.scheduled| - i, 1
  {
    assert Known(s);
    Unfinished(s);
    hide Good, Punctual, Overlap, Unique, Apart, InsertSorted, BlockSupersede, Shelve, Abut;
    if i == |s.scheduled| {
      SchedulingPunctual(base, s, id);
    } else if Overlap(s.events[id], s.events[s.scheduled[i]]) {
      OverlapPunctual(base, s, id, i);
    } else {
      AbutOnTime(base, s, id, s.scheduled[i]);
      MeetAbut(s, id, i);
      InsertLoopPunctual(base, s, id, i + 1);
    }
  }

  lemma {:induction false} OverlapPunctual(base: int, s: State, id: Id, i: nat)
    requires Good(s) && Floating(s, id) && Met(s, id, i) && s.blocks[id].status.Scheduled? && Punctual(base, s)
    requires i < |s.scheduled| && Overlap(s.events[id], s.events[s.scheduled[i]])
    ensures Punctual(base, InsertLoop(s, id, i)) && Steady(s, InsertLoop(s, id, i))
    decreases |s.scheduled| - i, 0
  {
    assert Known(s);
    Unfinished(s);
    hide Good, Punctual, Overlap, Outranks, Unique, Apart, InsertLoop, Within, Steady;
    var e := s.scheduled[i];
    var (sup, s1) := BlockSupersede(s, id, e);
    SteadySame(s, s1);
    OverlapStep(s, id, i);
    MeetNext(s, id, i);
    SupersedePunctual(base, s, id, e);
    assert s1.scheduled == s.scheduled && s1.events == s.events && !s1.blocks[e].status.Final();
    hide BlockSupersede;
    if sup {
      var t := Shelve(s1, e).(scheduled := Drop(s1.scheduled, i));
      ShelveGood(s1, id, i);
      DropPunctual(base, s1, i);
      assert |t.scheduled| == |s.scheduled| - 1;
      hide Drop;
      InsertLoopPunctual(base, t, id, i);
      SteadySame(s1, t);
      SteadyAgain(s, s1, t);
      SteadyAgain(s, t, InsertLoop(t, id, i));
    } else if s1.blocks[id].der == {} {
      ShelvePunctual(base, s1, id);
      SteadySame(s, Shelve(s1, id));
    } else {
      InsertLoopPunctual(base, s1, id, i + 1);
      SteadyAgain(s, s1, InsertLoop(s1, id, i + 1));
    }
  }

  lemma InsertBlockPunctual(base: int, s: State, id: Id)
    requires Good(s) && Floating(s, id) && Punctual(base, s)
    ensures Punctual(base, InsertBlock(s, id)) && Steady(s, InsertBlock(s, id))
  {
    var t := s.Set(id, s.blocks[id].(status := Scheduled, der := s.events[id].mask));
    FloatScheduled(s, id);
    assert Punctual(base, t) by {
      hide Plain, ByStart, ByEnd;
      PunctualLess(base, s, t);
    }
    InsertLoopPunctual(base, t, id, 0);
  }

  // ---- insert_active ----

  lemma DisplacePunctual(base: int, s: State, rest: seq<Id>, end: int)
    requires Good(s) && Punctual(base, s) && rest != [] && Within(rest, s.active) && ByEnd(s.events, rest)
    ensures s.Has(rest[0])
    ensures var r := Displace(s, rest[0], end).(active := rest[1..]);
      Punctual(base, r) && Steady(s, r) && ByEnd(s.events, rest[1..])
  {
    hide Plain;
    var a := rest[0];
    assert a in s.active;
    assert ByEnd(s.events, rest[1..]);
    var r := Displace(s, a, end).(active := rest[1..]);
    assert Known(r) by {
      assert forall i :: 0 <= i < |r.active| ==> rest[1..][i] == rest[i + 1] && rest[i + 1] in s.active;
    }
    hide ByStart, ByEnd, Good;
    PunctualLess(base, s, r);
  }

  /** The state in which `Admit` inserts the block. */
  function Begun(s: State, id: Id): State
    requires s.Has(id)
  {
    if s.events[id].status.Scheduled? then s.Set(id, s.blocks[id].(status := ActiveWait)) else Activate(s, id)
  }

  lemma AdmitBegun(s: State, id: Id)
    requires s.Has(id) && Known(s) && s.events[id].status.Live() && Known(Begun(s, id))
    ensures Begun(s, id).Has(id)
    ensures var t := Begun(s, id);
      var r := t.(active := InsertSorted(Ends(t), t.active, id));
      Admit(s, id) == r && Known(r)
  {
    hide InsertSorted, Activate;
  }

  lemma BegunReady(s: State, id: Id)
    requires Good(s) && Floating(s, id) && (s.blocks[id].status.Active? ==> s.events[id].status.Active?)
    ensures var t := Begun(s, id);
      && t.Has(id) && Known(t) && !t.blocks[id].status.Final()
      && (forall i :: 0 <= i < |t.active| ==> !t.blocks[t.active[i]].status.Final())
  {
    BeginGood(s, id);
    var t := Begun(s, id);
    hide Begun, Owned, Onward;
    Unfinished(t);
  }

  lemma AdmitPunctual(base: int, s: State, id: Id)
    requires Good(s) && Floating(s, id) && (s.blocks[id].status.Active? ==> s.events[id].status.Active?)
    requires Punctual(base, s)
    ensures Punctual(base, Admit(s, id)) && Steady(s, Admit(s, id)) && Admit(s, id).blocks[id].end == s.blocks[id].end
  {
    var t := Begun(s, id);
    BegunReady(s, id);
    AdmitBegun(s, id);
    BeginPunctual(base, s, id);
    hide *;
    JoinPunctual(base, t, id);
    SteadySame(t, Admit(s, id));
    SteadyAgain(s, t, Admit(s, id));
  }

  lemma BeginPunctual(base: int, s: State, id: Id)
    requires Punctual(base, s) && s.Has(id) && !s.blocks[id].status.Final()
    ensures var t := Begun(s, id); Punctual(base, t) && Steady(s, t) && t.blocks[id].end == s.blocks[id].end
  {
    var t := Begun(s, id);
    hide Plain, ByStart, ByEnd;
    PunctualLess(base, s, t);
  }

  /** What the loop of `insert_active` keeps at each block it meets. */
  ghost predicate Meeting(base: int, s: State, id: Id, rest: seq<Id>) {
    && Good(s) && Floating(s, id) && MetActive(s, id, rest) && (s.blocks[id].status.Active? ==> s.events[id].status.Active?)
    && Punctual(base, s) && ByEnd(s.events, rest)
  }

  /** The mask of one of the two shrinks. */
  lemma MetPunctual(base: int, s: State, id: Id, rest: seq<Id>)
    requires Meeting(base, s, id, rest) && rest != []
    ensures s.Has(id) && s.Has(rest[0])
    ensures var s1 := BlockSupersede(s, id, rest[0]).1;
      && Meeting(base, s1, id, rest[1..]) && s1.Has(id) && s1.Has(rest[0]) && Within(rest, s1.active) && ByEnd(s1.events, rest)
      && Steady(s, s1) && s1.blocks[id].end == s.blocks[id].end
  {
    MeetActive(s, id, rest);
    var s1 := BlockSupersede(s, id, rest[0]).1;
    hide Good, Punctual, Outranks, ByStart, Apart, Unique;
    SupersedePunctual(base, s, id, rest[0]);
    SteadySame(s, s1);
    assert s1.blocks[id].end == s.blocks[id].end && s1.events == s.events && s1.active == s.active;
  }

  /** An active block is displaced. */
  lemma StruckPunctual(base: int, s: State, id: Id, rest: seq<Id>)
    requires rest != [] && Meeting(base, s, id, rest[1..]) && Unique(rest) && Within(rest, s.active) && ByEnd(s.events, rest)
    ensures s.Has(rest[0]) && s.Has(id)
    ensures var t := Displace(s, rest[0], s.blocks[id].start).(active := rest[1..]);
      Meeting(base, t, id, rest[1..]) && Steady(s, t) && t.Has(id) && t.blocks[id].end == s.blocks[id].end
  {
    DisplaceGood(s, id, rest, s.blocks[id].start);
    DisplacePunctual(base, s, rest, s.blocks[id].start);
    hide Good, Punctual, ByStart, ByEnd, Apart, Steady;
    assert rest[0] in s.active && rest[0] != id;
    var t := Displace(s, rest[0], s.blocks[id].start).(active := rest[1..]);
    assert t.blocks[id] == s.blocks[id] && t.events == s.events;
  }

  lemma {:induction false} ActiveLoopPunctual(base: int, s: State, id: Id, rest: seq<Id>)
    requires Meeting(base, s, id, rest)
    ensures s.Has(id) && Known(s) && AllIn(s, rest)
    ensures var r := ActiveLoop(s, id, rest);
      Punctual(base, r) && Steady(s, r) && r.blocks[id].end == s.blocks[id].end
    decreases |rest|
  {
    assert Known(s) && AllIn(s, rest) && Unique(rest);
    if rest == [] {
      AdmitPunctual(base, s, id);
      ActiveEnd(s, id);
      hide *;
    } else {
      MetPunctual(base, s, id, rest);
      ActiveStep(s, id, rest);
      var (sup, s1) := BlockSupersede(s, id, rest[0]);
      hide ActiveLoop, BlockSupersede, Steady, Good, Unique, MetActive, ByEnd;
      if sup {
        StruckPunctual(base, s1, id, rest);
        var t := Displace(s1, rest[0], s1.blocks[id].start).(active := rest[1..]);
        hide Meeting, Displace, Punctual;
        ActiveLoopPunctual(base, t, id, rest[1..]);
        SteadyAgain(s, s1, t);
        SteadyAgain(s, t, ActiveLoop(t, id, rest[1..]));
      } else if s1.blocks[id].der == {} {
        YieldPunctual(base, s1, id);
        SteadySame(s1, s1.Set(id, s1.blocks[id].(status := Superseded)));
        SteadyAgain(s, s1, s1.Set(id, s1.blocks[id].(status := Superseded)));
        hide Punctual;
      } else {
        hide Meeting, Punctual;
        ActiveLoopPunctual(base, s1, id, rest[1..]);
        SteadyAgain(s, s1, ActiveLoop(s1, id, rest[1..]));
      }
    }
  }

  lemma YieldPunctual(base: int, s: State, id: Id)
    requires Punctual(base, s) && s.Has(id)
    ensures Punctual(base, s.Set(id, s.blocks[id].(status := Superseded)))
  {
    hide Plain, ByStart, ByEnd;
    PunctualLess(base, s, s.Set(id, s.blocks[id].(status := Superseded)));
  }

  lemma InsertActivePunctual(base: int, s: State, id: Id)
    requires Good(s) && Floating(s, id) && (s.blocks[id].status.Active? ==> s.events[id].status.Active?) && Punctual(base, s)
    ensures var r := InsertActive(s, id);
      Punctual(base, r) && Steady(s, r) && r.blocks[id].end == s.events[id].End()
  {
    var t := s.Set(id, s.blocks[id].(der := s.events[id].mask));
    FloatActive(s, id);
    assert OnTime(s, id);
    assert Punctual(base, t) by {
      hide Plain, ByStart, ByEnd;
      PunctualLess(base, s, t);
    }
    ActiveLoopPunctual(base, t, id, s.active);
  }

  // ---- removal and rebuilding ----

  lemma {:induction false} OrderRemoved(ev: map<Id, Event>, q: seq<Id>, id: Id)
    ensures ByStart(ev, q) ==> ByStart(ev, Remove(q, id))
    ensures ByEnd(ev, q) ==> ByEnd(ev, Remove(q, id))
  {
    if id in q {
      var i := RemovedAt(q, id);
      hide Remove;
      assert Remove(q, id) == q[..i] + q[i + 1..];
    } else {
      RemovedNone(q, id);
    }
  }

  lemma RetireShape(s: State, id: Id, status: Status, now: int)
    requires s.Has(id)
    ensures var r := Retire(s, id, status, now);
      && (r.scheduled == s.scheduled || r.scheduled == Remove(s.scheduled, id))
      && (r.active == s.active || r.active == Remove(s.active, id))
      && r.blocks[id].status == status && (forall k :: k in s.blocks && k != id ==> r.blocks[k] == s.blocks[k])
  {
    hide Remove, Without, Within;
  }

  lemma RetirePunctual(base: int, s: State, id: Id, status: Status, now: int)
    requires Good(s) && Punctual(base, s) && id in s.blocks && status.Final()
    ensures Punctual(base, Retire(s, id, status, now))
  {
    hide *;
    PunctualParts(base, s, id);
    var r := Retire(s, id, status, now);
    RetireGood(s, id, status, now);
    GoodKnown(r);
    RetireShape(s, id, status, now);
    OrderRemoved(s.events, s.scheduled, id);
    OrderRemoved(s.events, s.active, id);
    FinalNow(r, id, status);
    PunctualLess(base, s, r);
  }

  lemma PunctualParts(base: int, s: State, id: Id)
    requires Punctual(base, s) && id in s.blocks
    ensures ByStart(s.events, s.scheduled) && ByEnd(s.events, s.active) && s.Has(id)
  {
  }

  lemma FinalNow(s: State, id: Id, status: Status)
    requires status.Final() && id in s.blocks && s.blocks[id].status == status
    ensures s.blocks[id].status.Final()
  {
  }

  lemma EnterPunctual(base: int, s: State, id: Id, primacy: nat)
    requires Punctual(base, s) && id in s.events
    ensures var b := if id !in s.blocks then NewBlock(s.events[id], primacy) else s.blocks[id].(primacy := primacy);
      Punctual(base, s.Set(id, b))
  {
    var b := if id !in s.blocks then NewBlock(s.events[id], primacy) else s.blocks[id].(primacy := primacy);
    var t := s.Set(id, b);
    assert Plain(base, s.events[id]);
    hide Plain, ByStart, ByEnd;
    assert !b.status.Final() ==> OnTime(t, id) by {
      if id in s.blocks && !b.status.Final() { assert OnTime(s, id); }
    }
    forall k | k in t.blocks && !t.blocks[k].status.Final() ensures OnTime(t, k) {
      if k != id { assert OnTime(s, k); }
    }
  }

  lemma ScheduleEventPunctual(base: int, s: State, id: Id, primacy: nat, now: int)
    requires Good(s) && Punctual(base, s) && id in s.events && !Queueing(s, id)
    ensures var r := ScheduleEvent(s, id, primacy, now); Punctual(base, r) && Steady(s, r)
  {
    var b := if id !in s.blocks then NewBlock(s.events[id], primacy) else s.blocks[id].(primacy := primacy);
    var t := s.Set(id, b);
    EnterGood(s, id, b);
    EnterPunctual(base, s, id, primacy);
    SteadySame(s, t);
    hide Good, Onward, Punctual, InsertBlock, InsertActive, Steady, BlockUpdate, NewBlock;
    if id !in s.blocks && b.end <= now {
      RestPunctual(base, t, t.Set(id, b.(status := Completed)));
      SteadySame(s, t.Set(id, b.(status := Completed)));
    } else if b.status.Final() {
    } else {
      var st := s.events[id].status;
      if st.Scheduled? && !b.status.ActiveWait? {
        InsertBlockPunctual(base, t, id);
        SteadyAgain(s, t, InsertBlock(t, id));
      } else if st.Scheduled? || st.Active? {
        InsertActivePunctual(base, t, id);
        SteadyAgain(s, t, InsertActive(t, id));
      } else if st.Canceled? || st.CanceledRandom? || st.Superseded? {
        BlockUpdatePunctual(base, t, id, st, now);
        SteadyAgain(s, t, BlockUpdate(t, id, st, now));
      }
    }
  }

  lemma BlockUpdatePunctual(base: int, s: State, id: Id, status: Status, now: int)
    requires Punctual(base, s) && s.Has(id) && status.Final()
    ensures Punctual(base, BlockUpdate(s, id, status, now)) && Steady(s, BlockUpdate(s, id, status, now))
  {
    hide Punctual;
    RestPunctual(base, s, BlockUpdate(s, id, status, now));
  }

  /** The queues stay, and a block may come to its end. */
  lemma RestPunctual(base: int, s: State, r: State)
    requires Punctual(base, s) && r.events == s.events && r.blocks.Keys == s.blocks.Keys
    requires forall k :: k in s.blocks && !r.blocks[k].status.Final() ==> r.blocks[k] == s.blocks[k]
    requires r.scheduled == s.scheduled && r.active == s.active && r.superseded == s.superseded
    ensures Punctual(base, r)
  {
    hide Plain, ByStart, ByEnd;
    PunctualLess(base, s, r);
  }

  lemma {:induction false} ScheduleEventsPunctual(base: int, s: State, cs: seq<Control>, now: int)
    requires Good(s) && Punctual(base, s) && Listed(s, cs) && Unique(Ids(cs))
    requires forall i :: 0 <= i < |cs| ==> !Queueing(s, cs[i].id)
    ensures Known(s)
    ensures Punctual(base, ScheduleEvents(s, cs, now)) && Steady(s, ScheduleEvents(s, cs, now))
    decreases |cs|
  {
    assert Known(s);
    hide Good, Punctual, ScheduleEvent, Queueing;
    if cs != [] {
      var t := ScheduleEvent(s, cs[0].id, cs[0].primacy, now);
      ScheduleEventGood(s, cs[0].id, cs[0].primacy, now);
      ScheduleEventConfined(s, cs[0].id, cs[0].primacy, now);
      ScheduleEventPunctual(base, s, cs[0].id, cs[0].primacy, now);
      assert forall i :: 0 < i < |cs| ==> Ids(cs)[i] != Ids(cs)[0];
      ScheduleEventsPunctual(base, t, cs[1..], now);
    }
  }

  // ---- the pending events ----

  predicate Ordered(q: seq<Ev>) { forall i, j :: 0 <= i < j < |q| ==> q[i].time <= q[j].time }

  /** Updates of the schedule are the events of the schedule; while one is due, they are
      pending at its time only. */
  ghost predicate Loaded(base: int, s: State) {
    && Ordered(s.timed)
    && (forall e :: e in s.timed ==> InReach(base, e.time) && (e.kind.ScheduleUpdate? <==> e.data.TheSchedule?))
    && (forall e :: e in s.im && e.kind.ScheduleUpdate? ==> e.data.TheSchedule?)
    && (s.next != 0 ==> forall e :: e in s.timed && e.data.TheSchedule? ==> e.time == s.next)
  }

  predicate Pending(s: State) { Ev(TheSchedule, ScheduleUpdate, s.next) in s.timed }

  ghost predicate Armed(base: int, s: State) { Loaded(base, s) && (s.next != 0 ==> Pending(s)) }

  /** Unless an immediate update is queued, the next one comes before anything starts or ends. */
  ghost predicate Prompt(s: State)
    requires Known(s)
  {
    (forall e :: e in s.im ==> !e.kind.ScheduleUpdate?) ==>
      && (forall k :: k in s.active ==> s.next != 0 && s.next <= s.events[k].End())
      && (forall k :: k in s.scheduled ==> s.next != 0 && s.next <= s.events[k].start)
  }

  lemma SteadyArmed(base: int, s: State, r: State)
    requires Armed(base, s) && Steady(s, r)
    ensures Armed(base, r)
  {
  }

  lemma {:induction false} WithoutKeeps(q: seq<Ev>, d: Data)
    ensures forall e :: e in Without(q, d) <==> e in q && e.data != d
    ensures Ordered(q) ==> Ordered(Without(q, d))
  {
    if q != [] {
      WithoutKeeps(q[1..], d);
      assert q == [q[0]] + q[1..];
      var r := Without(q[1..], d);
      if Ordered(q) {
        forall i | 0 <= i < |r| ensures q[0].time <= r[i].time {
          assert r[i] in r;
          assert r[i] in q[1..];
        }
      }
    }
  }

  lemma {:induction false} TimedMembers(q: seq<Ev>, e: Ev)
    ensures forall x :: x in InsertTimed(q, e) <==> x == e || x in q
  {
    hide Narrow;
    if q != [] {
      TimedMembers(q[1..], e);
      assert q == [q[0]] + q[1..];
    }
  }

  lemma {:induction false} TimedOrder(base: int, q: seq<Ev>, e: Ev)
    requires Ordered(q) && (forall i :: 0 <= i < |q| ==> InReach(base, q[i].time)) && InReach(base, e.time)
    ensures Ordered(InsertTimed(q, e))
  {
    if q != [] {
      NarrowInReach(base, e.time, q[0].time);
      hide Narrow, InReach;
      if e.time > q[0].time {
        TimedOrder(base, q[1..], e);
        TimedMembers(q[1..], e);
        var r := InsertTimed(q[1..], e);
        hide InsertTimed;
        forall i | 0 <= i < |r| ensures q[0].time <= r[i].time {
          assert r[i] in r;
          if r[i] != e {
            var j :| 0 <= j < |q[1..]| && q[1..][j] == r[i];
            assert q[j + 1] == r[i];
          }
        }
        assert Ordered([q[0]] + r);
      }
    }
  }

  lemma TimedKeeps(base: int, q: seq<Ev>, e: Ev)
    requires Ordered(q) && (forall x :: x in q ==> InReach(base, x.time)) && InReach(base, e.time)
    ensures forall x :: x in InsertTimed(q, e) <==> x == e || x in q
    ensures Ordered(InsertTimed(q, e))
  {
    hide InsertTimed, InReach, Ordered;
    TimedMembers(q, e);
    forall i | 0 <= i < |q| ensures InReach(base, q[i].time) { assert q[i] in q; }
    TimedOrder(base, q, e);
  }

  lemma NarrowInReach(base: int, a: int, b: int)
    requires InReach(base, a) && InReach(base, b)
    ensures Narrow(a - b) == a - b
  {
  }

  lemma RetireArmed(base: int, s: State, id: Id, status: Status, now: int)
    requires Armed(base, s) && s.Has(id)
    ensures Armed(base, Retire(s, id, status, now)) && Retire(s, id, status, now).next == s.next
    ensures forall e :: e in s.im && e.kind.ScheduleUpdate? ==> e in Retire(s, id, status, now).im
  {
    WithoutKeeps(s.im, OfBlock(id));
    WithoutKeeps(s.timed, OfBlock(id));
    hide Without, Remove, Ordered, InReach;
  }

  lemma {:induction false} RemoveProgramsTimely(base: int, s: State, gone: seq<Id>, now: int)
    requires Good(s) && Punctual(base, s) && Armed(base, s) && AllIn(s, gone)
    ensures Punctual(base, RemovePrograms(s, gone, now)) && Armed(base, RemovePrograms(s, gone, now))
    decreases |gone|
  {
    hide Good, Punctual, Armed, Retire;
    if gone != [] {
      RetireGood(s, gone[0], Aborted, now);
      RetirePunctual(base, s, gone[0], Aborted, now);
      RetireArmed(base, s, gone[0], Aborted, now);
      RemoveProgramsTimely(base, Retire(s, gone[0], Aborted, now), gone[1..], now);
    }
  }

  lemma RebuildTimely(base: int, s: State, gone: seq<Id>, cs: seq<Control>, now: int)
    requires Good(s) && Punctual(base, s) && Armed(base, s) && AllIn(s, gone) && Listed(s, cs) && Unique(Ids(cs))
    ensures var r := Rebuild(s, gone, cs, now); Punctual(base, r) && Armed(base, r) && Prompt(r)
  {
    var t := RemovePrograms(s, gone, now);
    RemoveProgramsGood(s, gone, now);
    RemoveProgramsTimely(base, s, gone, now);
    var u := Cleared(t);
    ClearedTimely(base, t);
    hide Good, Punctual, Armed, Steady, RemovePrograms, ScheduleEvents;
    ScheduleEventsPunctual(base, u, cs, now);
    var v := ScheduleEvents(u, cs, now);
    SteadyArmed(base, u, v);
    AnnouncedTimely(base, v);
  }

  lemma ClearedTimely(base: int, s: State)
    requires Good(s) && Punctual(base, s) && Armed(base, s)
    ensures Good(Cleared(s)) && Punctual(base, Cleared(s)) && Armed(base, Cleared(s))
  {
    hide PhaseOf, Plain;
    assert forall k :: k in s.blocks ==> s.blocks[k].status.Final() || OnTime(Cleared(s), k);
  }

  lemma AnnouncedTimely(base: int, s: State)
    requires Punctual(base, s) && Armed(base, s)
    ensures Punctual(base, Announced(s)) && Armed(base, Announced(s)) && Prompt(Announced(s))
  {
    var r := Announced(s);
    assert r.im == s.im + [Ev(TheSchedule, ScheduleUpdate, 0), Ev(OfDevice, DeviceSchedule, 0)];
    assert Ev(TheSchedule, ScheduleUpdate, 0) in r.im;
    IdlePunctual(base, s, r);
    hide Ordered, InReach, Announced;
  }

  lemma IdlePunctual(base: int, s: State, r: State)
    requires Punctual(base, s) && Idle(s, r)
    ensures Punctual(base, r)
  {
    hide Plain, ByStart, ByEnd;
    assert forall k :: k in s.blocks && OnTime(s, k) ==> OnTime(r, k);
  }

  // ---- the clock ----

  /** The wake-up found so far comes no later than the end of any active block; there is
      none only if none is active. */
  ghost predicate Bounds(s: State, last: int)
    requires Known(s)
  {
    forall k :: k in s.active ==> last != 0 && last <= s.events[k].End()
  }

  /** Nor later than the start of a scheduled one. */
  ghost predicate Ahead(s: State, last: int)
    requires Known(s)
  {
    Bounds(s, last) && forall k :: k in s.scheduled ==> last != 0 && last <= s.events[k].start
  }

  /** It comes after `t`. */
  predicate After(base: int, t: int, last: int) { last == 0 || (last > t && InReach(base, last)) }

  function EndOfFirst(s: State): int
    requires Known(s)
  {
    if s.active == [] then 0 else s.blocks[s.active[0]].end
  }

  lemma FirstBounds(base: int, s: State, now: int)
    requires Good(s) && Punctual(base, s) && (s.active == [] || s.blocks[s.active[0]].end > now)
    ensures Bounds(s, EndOfFirst(s)) && After(base, now, EndOfFirst(s))
  {
    if s.active != [] {
      var a := s.active[0];
      assert a in s.active && OnTime(s, a) && Plain(base, s.events[a]);
      forall k | k in s.active ensures s.events[a].End() <= s.events[k].End() {
        var i :| 0 <= i < |s.active| && s.active[i] == k;
      }
    }
  }

  lemma FinishPunctual(base: int, s: State)
    requires Punctual(base, s) && s.active != []
    ensures var r := Finish(s, s.active[0]).(active := s.active[1..]);
      Punctual(base, r) && Steady(s, r)
  {
    var r := Finish(s, s.active[0]).(active := s.active[1..]);
    assert ByEnd(s.events, r.active);
    hide Plain, ByStart, ByEnd;
    PunctualLess(base, s, r);
  }

  lemma {:induction false} ExpireTimely(base: int, s: State, now: int)
    requires Good(s) && Punctual(base, s)
    ensures var r := Expire(s, now);
      && Punctual(base, r) && Steady(s, r) && r.scheduled == s.scheduled
      && Bounds(r, EndOfFirst(r)) && After(base, now, EndOfFirst(r))
    decreases |s.active|
  {
    assert Known(s);
    hide Good, Punctual, Steady, Bounds, After;
    if s.active == [] || s.blocks[s.active[0]].end > now {
      FirstBounds(base, s, now);
      SteadySame(s, s);
    } else {
      var t := Finish(s, s.active[0]).(active := s.active[1..]);
      FinishGood(s);
      FinishPunctual(base, s);
      ExpireTimely(base, t, now);
      SteadyAgain(s, t, Expire(t, now));
    }
  }

  /** The block `insert_active` adds is the only newcomer. */
  lemma OneNewcomer(s: State, id: Id, k: Id)
    requires Good(s) && Floating(s, id) && (s.blocks[id].status.Active? ==> s.events[id].status.Active?)
    requires k in InsertActive(s, id).active
    ensures k == id || k in s.active
  {
    var t := s.Set(id, s.blocks[id].(der := s.events[id].mask));
    InsertActiveGood(s, id);
    ActiveLoopConfined(t, id, s.active);
    ActiveKeeps(t, id, s.active);
    var r := InsertActive(s, id);
    assert Queueing(r, k);
    assert k != id ==> Queueing(t, k);
    hide ActiveLoop;
  }

  /** A block that is due is put among the active ones. */
  lemma PromoteOneTimely(base: int, s: State, t: int, last: int)
    requires Good(s) && Punctual(base, s) && s.scheduled != []
    requires Bounds(s, last) && After(base, t, last) && t <= s.events[s.scheduled[0]].start
    ensures var e := s.scheduled[0];
      var r := PromoteOne(s);
      && Good(r) && Punctual(base, r) && Steady(s, r)
      && Bounds(r, Earlier(last, r.blocks[e].end)) && After(base, t, Earlier(last, r.blocks[e].end))
  {
    var e := s.scheduled[0];
    var u := s.(scheduled := s.scheduled[1..]);
    var r := PromoteOne(s);
    TakeGood(s);
    TakePunctual(base, s);
    assert Plain(base, s.events[e]);
    hide Good, Punctual, ActiveLoop;
    InsertActiveGood(u, e);
    InsertActivePunctual(base, u, e);
    SteadySame(s, u);
    SteadyAgain(s, u, r);
    forall k | k in r.active ensures k == e || k in s.active { OneNewcomer(u, e, k); }
    hide Steady, InsertActive;
  }

  lemma TakePunctual(base: int, s: State)
    requires Punctual(base, s) && s.scheduled != []
    ensures Punctual(base, s.(scheduled := s.scheduled[1..]))
  {
    var r := s.(scheduled := s.scheduled[1..]);
    assert ByStart(s.events, r.scheduled);
    hide Plain, ByStart, ByEnd;
    PunctualLess(base, s, r);
  }

  lemma FirstAhead(base: int, s: State, now: int, t: int, last: int)
    requires Good(s) && Punctual(base, s) && Bounds(s, last) && After(base, t, last) && t <= now
    requires s.scheduled != [] && s.blocks[s.scheduled[0]].start > now
    ensures Ahead(s, Earlier(last, s.blocks[s.scheduled[0]].start)) && After(base, t, Earlier(last, s.blocks[s.scheduled[0]].start))
  {
    var e := s.scheduled[0];
    assert e in s.scheduled && OnTime(s, e) && Plain(base, s.events[e]);
    forall k | k in s.scheduled ensures s.events[e].start <= s.events[k].start {
      var i :| 0 <= i < |s.scheduled| && s.scheduled[i] == k;
    }
  }

  ghost predicate NotBefore(s: State, t: int)
    requires Known(s)
  {
    forall i :: 0 <= i < |s.scheduled| ==> t <= s.events[s.scheduled[i]].start
  }

  /** Every scheduled block is still to come. */
  ghost predicate NoneDue(s: State, now: int)
    requires Known(s)
  {
    forall i :: 0 <= i < |s.scheduled| ==> s.blocks[s.scheduled[i]].start > now
  }

  lemma NobodyDue(s: State, now: int)
    requires Known(s) && s.scheduled == []
    ensures NoneDue(s, now)
  {
  }

  lemma FirstLater(base: int, s: State, now: int)
    requires Good(s) && Punctual(base, s) && s.scheduled != [] && s.blocks[s.scheduled[0]].start > now
    ensures NoneDue(s, now)
  {
    hide Plain, ByEnd;
    forall i | 0 <= i < |s.scheduled| ensures s.blocks[s.scheduled[i]].start > now {
      assert s.scheduled[i] in s.scheduled && s.scheduled[0] in s.scheduled;
      assert OnTime(s, s.scheduled[i]) && OnTime(s, s.scheduled[0]);
    }
  }

  lemma {:induction false} PromoteTimely(base: int, s: State, now: int, t: int, last: int)
    requires Good(s) && Punctual(base, s) && NotBefore(s, t) && Bounds(s, last) && After(base, t, last) && t <= now
    ensures var (r, l) := Promote(s, now, last);
      && Punctual(base, r) && Steady(s, r) && Ahead(r, l) && After(base, t, l) && NoneDue(r, now)
    decreases |s.scheduled|
  {
    assert Known(s);
    hide NoneDue, Good, Punctual, Steady, Bounds, After, PromoteOne, Earlier;
    if s.scheduled == [] {
      SteadySame(s, s);
      assert NoneDue(s, now) by { NobodyDue(s, now); }
    } else if s.blocks[s.scheduled[0]].start > now {
      SteadySame(s, s);
      FirstAhead(base, s, now, t, last);
      FirstLater(base, s, now);
    } else {
      var e := s.scheduled[0];
      var r := PromoteOne(s);
      PromoteOneTimely(base, s, t, last);
      PromoteTimely(base, r, now, t, Earlier(last, r.blocks[e].end));
      SteadyAgain(s, r, Promote(r, now, Earlier(last, r.blocks[e].end)).0);
    }
  }

  lemma AbandonPunctual(base: int, s: State)
    requires Punctual(base, s) && s.superseded != []
    ensures var e := s.superseded[0];
      Punctual(base, s.Set(e, s.blocks[e].(status := Superseded)).(superseded := s.superseded[1..]))
  {
    hide Plain, ByStart, ByEnd;
    var e := s.superseded[0];
    PunctualLess(base, s, s.Set(e, s.blocks[e].(status := Superseded)).(superseded := s.superseded[1..]));
  }

  lemma ShelvedTime(base: int, s: State)
    requires Good(s) && Punctual(base, s) && s.superseded != []
    ensures InReach(base, s.blocks[s.superseded[0]].start)
  {
    var e := s.superseded[0];
    assert e in s.superseded && OnTime(s, e) && Plain(base, s.events[e]);
  }

  lemma {:induction false} GiveUpTimely(base: int, s: State, now: int, t: int, last: int)
    requires Good(s) && Punctual(base, s) && Ahead(s, last) && After(base, t, last) && t <= now
    ensures var (r, l) := GiveUp(s, now, last);
      && Punctual(base, r) && Steady(s, r) && Ahead(r, l) && After(base, t, l)
    decreases |s.superseded|
  {
    assert Known(s);
    hide Good, Punctual, Steady;
    if s.superseded == [] {
      SteadySame(s, s);
    } else if s.blocks[s.superseded[0]].start > now {
      ShelvedTime(base, s);
      SteadySame(s, s);
    } else {
      var e := s.superseded[0];
      var u := s.Set(e, s.blocks[e].(status := Superseded)).(superseded := s.superseded[1..]);
      AbandonGood(s);
      AbandonPunctual(base, s);
      GiveUpTimely(base, u, now, t, last);
      SteadySame(s, u);
      SteadyAgain(s, u, GiveUp(u, now, last).0);
    }
  }

  lemma RearmTimely(base: int, s: State, t: int, last: int)
    requires Punctual(base, s) && Loaded(base, s) && Ahead(s, last) && After(base, t, last)
    requires s.next != 0 ==> s.next <= t || Pending(s)
    ensures var r := Rearm(s, last); Punctual(base, r) && Armed(base, r) && Prompt(r) && r.next == last
  {
    var r := Rearm(s, last);
    IdlePunctual(base, s, r);
    if last != 0 && last != s.next {
      Reload(base, s, last);
    }
    hide Punctual, Ordered, InsertEvent, RemoveEvent, InReach;
    assert r.next == last;
  }

  lemma Reload(base: int, s: State, last: int)
    requires Loaded(base, s) && InReach(base, last)
    ensures Armed(base, InsertEvent(RemoveEvent(s, TheSchedule), Ev(TheSchedule, ScheduleUpdate, last)).(next := last))
  {
    WithoutKeeps(s.timed, TheSchedule);
    WithoutKeeps(s.im, TheSchedule);
    var q := Without(s.timed, TheSchedule);
    TimedKeeps(base, q, Ev(TheSchedule, ScheduleUpdate, last));
    assert last != 0;
    hide Without, InsertTimed, Ordered, InReach;
  }

  lemma UpdateTimely(base: int, s: State, now: int, t: int)
    requires Good(s) && Punctual(base, s) && Loaded(base, s) && NotBefore(s, t) && t <= now
    requires s.next != 0 ==> s.next <= t || Pending(s)
    ensures var r := UpdateSchedule(s, now); Punctual(base, r) && Armed(base, r) && Prompt(r)
  {
    assert Known(s);
    var a := Expire(s, now);
    ExpireGood(s, now);
    ExpireTimely(base, s, now);
    assert NotBefore(a, t) && After(base, t, EndOfFirst(a));
    hide Good, Punctual, Steady, Loaded, Armed, Prompt, Expire, Promote, GiveUp, Rearm, After, Ahead, Bounds, NotBefore;
    PromoteGood(a, now, EndOfFirst(a));
    PromoteTimely(base, a, now, t, EndOfFirst(a));
    var (b, l1) := Promote(a, now, EndOfFirst(a));
    GiveUpTimely(base, b, now, t, l1);
    var (c, l2) := GiveUp(b, now, l1);
    SteadyAgain(s, a, b);
    SteadyAgain(s, b, c);
    SteadyLoaded(base, s, c);
    RearmTimely(base, c, t, l2);
  }

  lemma SteadyLoaded(base: int, s: State, r: State)
    requires Loaded(base, s) && Steady(s, r)
    ensures Loaded(base, r) && r.next == s.next && (Pending(s) ==> Pending(r))
  {
  }

  // ---- steps and runs ----

  ghost predicate Timely(base: int, s: State) {
    Good(s) && Punctual(base, s) && Armed(base, s) && Prompt(s)
  }

  /** What remains when an event is handed out. */
  lemma PoppedLoaded(base: int, s: State, now: int)
    requires Armed(base, s) && Ready(s, now)
    ensures var (e, t) := Pop(s, now);
      && Loaded(base, t) && t.next == s.next && Idle(s, t)
      && (!e.kind.ScheduleUpdate? || s.im != [] ==> Armed(base, t))
      && (e.kind.ScheduleUpdate? && s.im == [] ==> s.next != 0 ==> s.next == e.time)
  {
    hide InReach;
    var (e, t) := Pop(s, now);
    if s.im != [] {
      assert s.im == [e] + s.im[1..];
    } else {
      assert s.timed == [e] + s.timed[1..];
    }
  }

  /** An event handed out that is not an update of the schedule. */
  lemma OtherPopped(base: int, s: State, now: int)
    requires Timely(base, s) && Ready(s, now) && !Pop(s, now).0.kind.ScheduleUpdate?
    ensures Timely(base, Pop(s, now).1)
  {
    var (e, t) := Pop(s, now);
    PoppedLoaded(base, s, now);
    IdleGood(s, t);
    IdlePunctual(base, s, t);
    assert s.im != [] ==> s.im == [e] + s.im[1..];
    hide Good, Punctual, Armed, Loaded;
  }

  lemma UpdatePopped(base: int, s: State, now: int)
    requires Timely(base, s) && Ready(s, now)
    ensures Good(Pop(s, now).1) && Punctual(base, Pop(s, now).1) && Loaded(base, Pop(s, now).1)
  {
    PoppedLoaded(base, s, now);
    hide Pop, Loaded, Armed;
    IdleGood(s, Pop(s, now).1);
    IdlePunctual(base, s, Pop(s, now).1);
  }

  lemma PollTimely(base: int, s: State, now: int, default: bool)
    requires Timely(base, s) && Ready(s, now)
    ensures Known(s) && Timely(base, Poll(s, now, default))
  {
    assert Known(s);
    var (e, t) := Pop(s, now);
    PollGood(s, now, default);
    if e.kind.ScheduleUpdate? {
      UpdatePopped(base, s, now);
      PollBound(base, s, now);
      var bound := if s.im == [] then e.time else if now < 0 then now else 0;
      hide Good, Punctual, Loaded, Prompt, UpdateSchedule, NotBefore;
      UpdateTimely(base, t, now, bound);
      var u := UpdateSchedule(t, now);
      DefaultTimely(base, u);
    } else {
      OtherPopped(base, s, now);
    }
  }

  /** No scheduled block starts before the update that is handed out. */
  lemma PollBound(base: int, s: State, now: int)
    requires Timely(base, s) && Ready(s, now) && Pop(s, now).0.kind.ScheduleUpdate?
    ensures var (e, t) := Pop(s, now);
      var bound := if s.im == [] then e.time else if now < 0 then now else 0;
      Known(t) && NotBefore(t, bound) && bound <= now && (t.next != 0 ==> t.next <= bound || Pending(t))
  {
    UpdatePopped(base, s, now);
    PoppedLoaded(base, s, now);
    var (e, t) := Pop(s, now);
    forall i | 0 <= i < |t.scheduled|
      ensures (if s.im == [] then e.time else 0) <= t.events[t.scheduled[i]].start
    {
      assert t.scheduled[i] in s.scheduled;
      assert Plain(base, s.events[s.scheduled[i]]);
    }
    hide Good, Punctual;
  }

  lemma DefaultTimely(base: int, s: State)
    requires Punctual(base, s) && Armed(base, s) && Prompt(s)
    ensures var r := InsertEvent(s, Ev(OfDevice, DefaultControl, 0)); Punctual(base, r) && Armed(base, r) && Prompt(r)
  {
    var r := InsertEvent(s, Ev(OfDevice, DefaultControl, 0));
    IdlePunctual(base, s, r);
    hide Punctual, InReach;
    assert r.im == s.im + [Ev(OfDevice, DefaultControl, 0)];
    assert forall e :: e in s.im ==> e in r.im;
  }

  lemma ReportedTimely(base: int, s: State, id: Id, status: Status)
    requires Punctual(base, s) && Armed(base, s) && Prompt(s) && id in s.events
    ensures var r := Reported(s, id, status); Punctual(base, r) && Armed(base, r) && Prompt(r)
  {
    var r := Reported(s, id, status);
    assert forall k :: k in s.events ==> r.events[k] == s.events[k].(status := r.events[k].status);
    assert forall k :: k in s.blocks && OnTime(s, k) ==> OnTime(r, k);
    hide InReach, Ordered;
  }

  lemma RetireTimely(base: int, s: State, id: Id, status: Status, now: int)
    requires Timely(base, s) && id in s.blocks && status.Final()
    ensures var r := Retire(s, id, status, now); Punctual(base, r) && Armed(base, r) && Prompt(r)
  {
    var r := Retire(s, id, status, now);
    RetirePunctual(base, s, id, status, now);
    RetireArmed(base, s, id, status, now);
    RetireQueued(s, id, status, now);
    hide Good, Punctual, Armed, Retire, Reported;
  }

  lemma AwaitTimely(base: int, s: State, id: Id, now: int)
    requires Punctual(base, s) && Armed(base, s) && Prompt(s) && id in s.blocks
    requires s.events[id].status.Scheduled? && InReach(base, now) && InReach(base, now + 1)
    ensures var r := EventUpdate(s, id, now); Punctual(base, r) && Armed(base, r) && Prompt(r)
  {
    var r := EventUpdate(s, id, now);
    IdlePunctual(base, s, r);
    var at := if s.sync != now then now else now + 1;
    assert at != 0;
    TimedKeeps(base, s.timed, Ev(OfEvent(id), ResourceUpdate, at));
    hide Punctual, InReach, Ordered, InsertTimed;
    assert r.timed == InsertTimed(s.timed, Ev(OfEvent(id), ResourceUpdate, at));
  }

  lemma ActivateTimely(base: int, s: State, id: Id)
    requires Punctual(base, s) && Armed(base, s) && Prompt(s) && id in s.blocks && !s.blocks[id].status.Final()
    ensures var r := Activate(s, id); Punctual(base, r) && Armed(base, r) && Prompt(r)
  {
    var r := Activate(s, id);
    RestPunctualUnless(base, s, r);
    hide Punctual, InReach, Ordered;
    assert forall e :: e in s.im ==> e in r.im;
  }

  lemma RestPunctualUnless(base: int, s: State, r: State)
    requires Punctual(base, s) && r.events == s.events && r.blocks.Keys == s.blocks.Keys
    requires forall k :: k in s.blocks && !r.blocks[k].status.Final() ==>
      !s.blocks[k].status.Final() && r.blocks[k].start == s.blocks[k].start && r.blocks[k].end == s.blocks[k].end
    requires r.scheduled == s.scheduled && r.active == s.active && r.superseded == s.superseded
    ensures Punctual(base, r)
  {
    hide Plain, ByStart, ByEnd;
    PunctualLess(base, s, r);
  }

  /** What `Timely` asks beyond the queues. */
  ghost predicate OnCall(base: int, s: State)
    requires Known(s)
  {
    Punctual(base, s) && Armed(base, s) && Prompt(s)
  }

  lemma ReportOnCall(base: int, s: State, id: Id, status: Status, now: int)
    requires Timely(base, s) && id in s.events && status.Server() && Calm(base, Report(id, status, now))
    ensures Known(s) && OnCall(base, Next(s, Report(id, status, now)))
  {
    GoodKnown(s);
    var t := Reported(s, id, status);
    ReportedTimely(base, s, id, status);
    if id in s.blocks {
      if status.Scheduled? {
        AwaitTimely(base, t, id, now);
      } else if status.Active? {
        if t.blocks[id].status.ActiveWait? { ActivateTimely(base, t, id); }
      } else {
        RetireTimely(base, s, id, status, now);
        ReportedTimely(base, Retire(s, id, status, now), id, status);
        RetireReported(s, id, status, now);
      }
    }
    hide Good, Punctual, Armed, Prompt, Retire, Activate, InsertEvent, InReach, Known;
  }

  lemma ReportTimely(base: int, s: State, id: Id, status: Status, now: int)
    requires Timely(base, s) && id in s.events && status.Server() && Calm(base, Report(id, status, now))
    ensures Known(s) && Timely(base, Next(s, Report(id, status, now)))
  {
    GoodKnown(s);
    ReportGood(s, id, status, now);
    ReportOnCall(base, s, id, status, now);
    hide Good, Punctual, Armed, Prompt, Next, Onward;
  }

  lemma ArrivePunctual(base: int, s: State, id: Id, e: Event)
    requires Punctual(base, s) && id !in s.events && Plain(base, e)
    ensures Punctual(base, s.(events := s.events[id := e]))
  {
    hide Plain;
    var r := s.(events := s.events[id := e]);
    assert forall k :: k in s.blocks && OnTime(s, k) ==> OnTime(r, k);
  }

  lemma ArriveTimely(base: int, s: State, id: Id, e: Event)
    requires Timely(base, s) && id !in s.events && e.status.Server() && Plain(base, e)
    ensures Known(s) && Timely(base, Next(s, Arrive(id, e)))
  {
    GoodKnown(s);
    ArriveGood(s, id, e);
    ArrivePunctual(base, s, id, e);
    hide Good, InReach, Ordered, Plain, Punctual;
  }

  lemma StepTimely(base: int, s: State, step: Step)
    requires Timely(base, s) && Known(s) && Allowed(s, step) && Calm(base, step)
    ensures Timely(base, Next(s, step))
  {
    StepGood(s, step);
    hide Timely, Rebuild, Poll, EventUpdate, Plain, InReach;
    match step
    case Arrive(id, e) => ArriveTimely(base, s, id, e);
    case Report(id, st, now) => ReportTimely(base, s, id, st, now);
    case Reschedule(gone, cs, now) => RescheduleTimely(base, s, gone, cs, now);
    case Wake(now, default) => PollTimely(base, s, now, default);
  }

  lemma RescheduleTimely(base: int, s: State, gone: seq<Id>, cs: seq<Control>, now: int)
    requires Timely(base, s) && AllIn(s, gone) && Listed(s, cs) && Unique(Ids(cs))
    ensures Timely(base, Rebuild(s, gone, cs, now))
  {
    RebuildGood(s, gone, cs, now);
    RebuildTimely(base, s, gone, cs, now);
  }

  lemma {:induction false} RunTimely(base: int, s: State, steps: seq<Step>)
    requires Timely(base, s) && Known(s) && Possible(s, steps) && (forall i :: 0 <= i < |steps| ==> Calm(base, steps[i]))
    ensures Timely(base, Run(s, steps))
    decreases |steps|
  {
    hide Timely, Next, Known, Allowed, Calm;
    if steps != [] {
      StepTimely(base, s, steps[0]);
      RunTimely(base, Next(s, steps[0]), steps[1..]);
    }
  }

  /** An update is pending no later than the end of any active block and the start of any
      scheduled one. */
  ghost predicate Awaited(s: State)
    requires Known(s)
  {
    && Pending(s)
    && (forall k :: k in s.active ==> s.next <= s.blocks[k].end)
    && (forall k :: k in s.scheduled ==> s.next <= s.blocks[k].start)
  }

  lemma TimelyAwaits(base: int, s: State)
    requires Timely(base, s) && Known(s)
    ensures Ordered(s.timed)
    ensures (forall e :: e in s.im ==> !e.kind.ScheduleUpdate?) && (s.scheduled != [] || s.active != []) ==> Awaited(s)
  {
    hide InReach, Ordered, ByStart, ByEnd, Owned, Unique, Plain;
    if s.scheduled != [] { assert s.scheduled[0] in s.scheduled; }
    if s.active != [] { assert s.active[0] in s.active; }
    assert forall k :: k in s.active || k in s.scheduled ==> OnTime(s, k);
  }

  /** In every run over plain events, unless an immediate update is queued, no block starts
      or ends before the next update, and the pending events are in order of time. */
  lemma NothingMissed(base: int, steps: seq<Step>)
    requires Possible(START, steps) && (forall i :: 0 <= i < |steps| ==> Calm(base, steps[i]))
    ensures var s := Run(START, steps);
      && Ordered(s.timed)
      && ((forall e :: e in s.im ==> !e.kind.ScheduleUpdate?) && (s.scheduled != [] || s.active != []) ==> Awaited(s))
  {
    StartTimely(base);
    hide *;
    StartGood();
    RunTimely(base, START, steps);
    TimelyAwaits(base, Run(START, steps));
  }

  lemma StartTimely(base: int)
    ensures Timely(base, START) && Known(START)
  {
  }

  // ---- when the loop of `der_poll` has ended ----

  /** No block in the active queue is over, none in the scheduled queue is due, and no pending
      event either. */
  ghost predicate UpToDate(s: State, now: int)
    requires Known(s)
  {
    && s.im == [] && (forall i :: 0 <= i < |s.timed| ==> s.timed[i].time > now)
    && (forall k :: k in s.active ==> s.blocks[k].end > now)
    && (forall k :: k in s.scheduled ==> s.blocks[k].start > now)
  }

  lemma IdleUpToDate(base: int, s: State, now: int)
    requires Timely(base, s) && Known(s) && !Ready(s, now)
    ensures UpToDate(s, now)
  {
    TimelyAwaits(base, s);
    hide Timely;
    if s.scheduled != [] || s.active != [] {
      var i :| 0 <= i < |s.timed| && s.timed[i] == Ev(TheSchedule, ScheduleUpdate, s.next);
      assert s.timed[0].time <= s.timed[i].time;
    }
  }

  lemma {:induction false} PollAllTimely(base: int, s: State, now: int, default: bool)
    requires Timely(base, s) && Known(s) && now >= 0
    ensures Timely(base, PollAll(s, now, default))
    decreases Headway(s), UpdatesDue(s, now), EventsDue(s, now)
  {
    hide Timely, Poll, Headway, UpdatesDue, EventsDue;
    if Ready(s, now) {
      PollTimely(base, s, now, default);
      PollLess(s, now, default);
      PollAllTimely(base, Poll(s, now, default), now, default);
    }
  }

  /** After any run over plain events, polling at a time until nothing is ready leaves no
      block in the active queue that is over, none in the scheduled queue that is due, and no
      event whose time has come. */
  lemma PolledUpToDate(base: int, steps: seq<Step>, now: int, default: bool)
    requires Possible(START, steps) && (forall i :: 0 <= i < |steps| ==> Calm(base, steps[i])) && now >= 0
    ensures UpToDate(PollAll(Run(START, steps), now, default), now)
  {
    StartTimely(base);
    hide Timely, Possible, Run, PollAll, Calm, UpToDate;
    RunTimely(base, START, steps);
    PollAllTimely(base, Run(START, steps), now, default);
    IdleUpToDate(base, PollAll(Run(START, steps), now, default), now);
  }
}
