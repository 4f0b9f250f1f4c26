/**
 The starts and ends that `next_event` hands out, against those that were queued: they come
 in the order of the record, and none is missing but a start dropped by `remove_block`.
 */
module ScheduleHandout {
  import opened Common
  import opened Schedule
  import opened ScheduleLists
  import opened ScheduleSafety
  import opened ScheduleTally

  /** The events of one block. */
  function About(q: seq<Ev>, k: Id): seq<Ev> {
    if q == [] then []
    else About(q[..|q| - 1], k) + if q[|q| - 1].data == OfBlock(k) then [q[|q| - 1]] else []
  }

  lemma {:induction false} AboutJoin(p: seq<Ev>, q: seq<Ev>, k: Id)
    ensures About(p + q, k) == About(p, k) + About(q, k)
    decreases |q|
  {
    if q == [] {
      assert p + q == p;
    } else {
      var n := |q| - 1;
      assert (p + q)[..|p + q| - 1] == p + q[..n];
      AboutJoin(p, q[..n], k);
    }
  }

  lemma AboutOne(e: Ev, k: Id)
    ensures About([e], k) == if e.data == OfBlock(k) then [e] else []
  {
    assert [e][..0] == [];
  }

  lemma AboutHead(q: seq<Ev>, k: Id)
    requires q != []
    ensures About(q, k) == (if q[0].data == OfBlock(k) then [q[0]] else []) + About(q[1..], k)
  {
    assert q == [q[0]] + q[1..];
    AboutJoin([q[0]], q[1..], k);
    AboutOne(q[0], k);
  }

  lemma {:induction false} AboutWithout(q: seq<Ev>, d: Data, k: Id)
    ensures About(Without(q, d), k) == if d == OfBlock(k) then [] else About(q, k)
  {
    if q != [] {
      AboutWithout(q[1..], d, k);
      AboutHead(q, k);
      if q[0].data != d {
        AboutHead([q[0]] + Without(q[1..], d), k);
        assert ([q[0]] + Without(q[1..], d))[1..] == Without(q[1..], d);
      }
    }
  }

  lemma {:induction false} AboutTimed(q: seq<Ev>, e: Ev, k: Id)
    requires e.data != OfBlock(k)
    ensures About(InsertTimed(q, e), k) == About(q, k)
  {
    hide Narrow;
    var r := InsertTimed(q, e);
    if q == [] || Narrow(e.time - q[0].time) <= 0 {
      AboutHead(r, k);
      assert r[1..] == q;
    } else {
      AboutTimed(q[1..], e, k);
      AboutHead(r, k);
      AboutHead(q, k);
      assert r[1..] == InsertTimed(q[1..], e);
    }
  }

  /** Of what was queued for the block, `h` has been handed out or dropped, and the rest is
      waiting. */
  ghost predicate Owed(s: State, h: seq<Ev>, k: Id) {
    About(s.log, k) == h + About(s.im, k) && About(s.timed, k) == []
  }

  // ---- moves that hand out nothing ----

  /** Neither the pending events nor the record change, but for updates and the like. */
  lemma Untouched(s: State, r: State, h: seq<Ev>, k: Id)
    requires Owed(s, h, k) && r.im == s.im && r.timed == s.timed && r.log == s.log
    ensures Owed(r, h, k)
  {
    hide About;
  }

  lemma InsertOwed(s: State, e: Ev, h: seq<Ev>, k: Id)
    requires Owed(s, h, k) && !e.data.OfBlock?
    ensures Owed(InsertEvent(s, e), h, k)
  {
    AboutJoin(s.im, [e], k);
    AboutOne(e, k);
    AboutTimed(s.timed, e, k);
    hide About, InsertTimed;
    assert About(s.im, k) + [] == About(s.im, k);
  }

  lemma RemoveOwed(s: State, d: Data, h: seq<Ev>, k: Id)
    requires Owed(s, h, k) && d != OfBlock(k)
    ensures Owed(RemoveEvent(s, d), h, k)
  {
    AboutWithout(s.im, d, k);
    AboutWithout(s.timed, d, k);
    hide About, Without;
  }

  lemma QueueOwed(s: State, id: Id, kind: Kind, h: seq<Ev>, k: Id)
    requires Owed(s, h, k)
    ensures Owed(Queue(s, id, kind), h, k)
  {
    var e := Ev(OfBlock(id), kind, 0);
    AboutJoin(s.im, [e], k);
    AboutJoin(s.log, [e], k);
    hide About;
    assert h + About(s.im, k) + About([e], k) == h + (About(s.im, k) + About([e], k));
  }

  /** `insert_block` queues nothing. */
  lemma {:induction false} InsertLoopSilent(s: State, id: Id, i: nat)
    requires s.Has(id) && Known(s) && i <= |s.scheduled|
    ensures var r := InsertLoop(s, id, i); r.im == s.im && r.timed == s.timed && r.log == s.log
    decreases |s.scheduled| - i
  {
    hide Overlap, Outranks, InsertSorted, Drop, InsertLoop;
    if i == |s.scheduled| {
      LoopEnd(s, id);
    } else if Overlap(s.events[id], s.events[s.scheduled[i]]) {
      var e := s.scheduled[i];
      var (sup, s1) := BlockSupersede(s, id, e);
      OverlapStep(s, id, i);
      hide BlockSupersede;
      if sup {
        ShelveKnown(s1, i);
        InsertLoopSilent(Shelve(s1, e).(scheduled := Drop(s.scheduled, i)), id, i);
      } else if s1.blocks[id].der != {} {
        InsertLoopSilent(s1, id, i + 1);
      }
    } else {
      AbutStep(s, id, i);
      InsertLoopSilent(Abut(s, id, s.scheduled[i]), id, i + 1);
    }
  }

  lemma InsertBlockOwed(s: State, id: Id, h: seq<Ev>, k: Id)
    requires s.Has(id) && Known(s) && Owed(s, h, k)
    ensures Owed(InsertBlock(s, id), h, k)
  {
    InsertLoopSilent(s.Set(id, s.blocks[id].(status := Scheduled, der := s.events[id].mask)), id, 0);
    hide Owed, InsertLoop;
    Untouched(s, InsertBlock(s, id), h, k);
  }

  lemma ActivateOwed(s: State, id: Id, h: seq<Ev>, k: Id)
    requires s.Has(id) && Owed(s, h, k)
    ensures Owed(Activate(s, id), h, k)
  {
    if !s.blocks[id].status.Active? {
      var t := s.Set(id, s.blocks[id].(status := Active));
      Untouched(s, t, h, k);
      hide Owed;
      QueueOwed(t, id, EventStart, h, k);
    }
  }

  lemma AdmitOwed(s: State, id: Id, h: seq<Ev>, k: Id)
    requires s.Has(id) && Known(s) && Owed(s, h, k)
    ensures Owed(Admit(s, id), h, k)
  {
    var st := s.events[id].status;
    var t := if st.Scheduled? then s.Set(id, s.blocks[id].(status := ActiveWait))
             else if st.Active? then Activate(s, id)
             else s;
    if st.Scheduled? {
      Untouched(s, t, h, k);
    } else if st.Active? {
      ActivateOwed(s, id, h, k);
    }
    hide Owed, InsertSorted, Activate;
    Untouched(t, Admit(s, id), h, k);
  }

  lemma DisplaceOwed(s: State, a: Id, end: int, rest: seq<Id>, h: seq<Ev>, k: Id)
    requires s.Has(a) && Owed(s, h, k)
    ensures Owed(Displace(s, a, end).(active := rest), h, k)
  {
    var t := if s.blocks[a].status.Active? then Queue(s, a, EventEnd) else s;
    if s.blocks[a].status.Active? { QueueOwed(s, a, EventEnd, h, k); }
    hide Owed, Queue;
    Untouched(t, Displace(s, a, end).(active := rest), h, k);
  }

  lemma {:induction false} ActiveLoopOwed(s: State, id: Id, rest: seq<Id>, h: seq<Ev>, k: Id)
    requires s.Has(id) && Known(s) && AllIn(s, rest) && Owed(s, h, k)
    ensures Owed(ActiveLoop(s, id, rest), h, k)
    decreases |rest|
  {
    hide Owed, Outranks, Admit, ActiveLoop;
    if rest == [] {
      ActiveEnd(s, id);
      AdmitOwed(s, id, h, k);
    } else {
      var (sup, s1) := BlockSupersede(s, id, rest[0]);
      ActiveStep(s, id, rest);
      Untouched(s, s1, h, k);
      if sup {
        var t := Displace(s1, rest[0], s1.blocks[id].start).(active := rest[1..]);
        DisplaceOwed(s1, rest[0], s1.blocks[id].start, rest[1..], h, k);
        ActiveLoopOwed(t, id, rest[1..], h, k);
      } else if s1.blocks[id].der == {} {
        Untouched(s1, s1.Set(id, s1.blocks[id].(status := Superseded)), h, k);
      } else {
        ActiveLoopOwed(s1, id, rest[1..], h, k);
      }
    }
  }

  lemma InsertActiveOwed(s: State, id: Id, h: seq<Ev>, k: Id)
    requires s.Has(id) && Known(s) && Owed(s, h, k)
    ensures Owed(InsertActive(s, id), h, k)
  {
    var t := s.Set(id, s.blocks[id].(der := s.events[id].mask));
    Untouched(s, t, h, k);
    hide Owed, ActiveLoop;
    ActiveLoopOwed(t, id, s.active, h, k);
  }

  // ---- removal, which may drop a start ----

  /** What `remove_block` of `id` drops of the block `k`: all of it that is waiting, if it is active. */
  function Discarded(s: State, id: Id, k: Id): seq<Ev> {
    if id == k && k in s.blocks && s.blocks[k].status.Active? then About(s.im, k) else []
  }

  lemma RetireOwed(s: State, id: Id, status: Status, now: int, h: seq<Ev>, k: Id)
    requires s.Has(id) && Owed(s, h, k)
    ensures Owed(Retire(s, id, status, now), h + Discarded(s, id, k), k)
  {
    hide Remove, About;
    if s.blocks[id].status.Active? {
      InterruptOwed(s, id, now, h, k);
      hide Owed, Interrupt;
      Untouched(Interrupt(s, id, now), Retire(s, id, status, now), h + Discarded(s, id, k), k);
    } else {
      assert h + [] == h;
      hide Owed;
      Untouched(s, Retire(s, id, status, now), h, k);
    }
  }

  lemma InterruptOwed(s: State, id: Id, now: int, h: seq<Ev>, k: Id)
    requires s.Has(id) && Owed(s, h, k) && s.blocks[id].status.Active?
    ensures Owed(Interrupt(s, id, now), h + Discarded(s, id, k), k)
  {
    var d := OfBlock(id);
    var t := RemoveEvent(s.Set(id, s.blocks[id].(end := now)), d);
    AboutWithout(s.im, d, k);
    AboutWithout(s.timed, d, k);
    assert Owed(t, h + Discarded(s, id, k), k) by {
      hide About, Without;
      assert h + About(s.im, k) + [] == h + About(s.im, k) && h + [] == h;
    }
    hide Owed, RemoveEvent, Without;
    QueueOwed(t, id, EventEnd, h + Discarded(s, id, k), k);
  }

  lemma RetireOthers(s: State, id: Id, status: Status, now: int, k: Id)
    requires s.Has(id) && id != k
    ensures var r := Retire(s, id, status, now);
      About(r.im, k) == About(s.im, k) && (k in r.blocks <==> k in s.blocks) && (k in s.blocks ==> r.blocks[k] == s.blocks[k])
  {
    var im := Without(s.im, OfBlock(id));
    AboutWithout(s.im, OfBlock(id), k);
    AboutJoin(im, [Ev(OfBlock(id), EventEnd, 0)], k);
    AboutOne(Ev(OfBlock(id), EventEnd, 0), k);
    hide About, Without, Remove;
    assert About(im, k) + [] == About(im, k);
  }

  lemma {:induction false} RemoveProgramsOwed(s: State, gone: seq<Id>, now: int, h: seq<Ev>, k: Id)
    requires AllIn(s, gone) && Owed(s, h, k)
    ensures Owed(RemovePrograms(s, gone, now), h + if k in gone then Discarded(s, k, k) else [], k)
    decreases |gone|
  {
    hide Owed, Retire, About;
    assert h + [] == h;
    if gone != [] {
      var id := gone[0];
      var t := Retire(s, id, Aborted, now);
      RetireOwed(s, id, Aborted, now, h, k);
      if id == k {
        RetireFinal(s, id, Aborted, now);
        var g := h + Discarded(s, k, k);
        RemoveProgramsOwed(t, gone[1..], now, g, k);
        assert g + [] == g;
      } else {
        RetireOthers(s, id, Aborted, now, k);
        assert k in gone <==> k in gone[1..];
        RemoveProgramsOwed(t, gone[1..], now, h, k);
      }
    }
  }

  // ---- the other calls ----

  lemma BlockUpdateOwed(s: State, id: Id, status: Status, now: int, h: seq<Ev>, k: Id)
    requires s.Has(id) && Owed(s, h, k)
    ensures Owed(BlockUpdate(s, id, status, now), h, k)
  {
    if s.blocks[id].status.Active? {
      var t := s.Set(id, s.blocks[id].(end := now));
      Untouched(s, t, h, k);
      QueueOwed(t, id, EventEnd, h, k);
      hide Owed, Queue;
      Untouched(EndNow(s, id, now), BlockUpdate(s, id, status, now), h, k);
    } else {
      Untouched(s, BlockUpdate(s, id, status, now), h, k);
    }
  }

  lemma ScheduleEventOwed(s: State, id: Id, primacy: nat, now: int, h: seq<Ev>, k: Id)
    requires id in s.events && Known(s) && Owed(s, h, k)
    ensures Owed(ScheduleEvent(s, id, primacy, now), h, k)
  {
    var b := if id !in s.blocks then NewBlock(s.events[id], primacy) else s.blocks[id].(primacy := primacy);
    var t := s.Set(id, b);
    Untouched(s, t, h, k);
    hide Owed, InsertBlock, InsertActive, BlockUpdate, NewBlock;
    if id !in s.blocks && b.end <= now {
      Untouched(t, t.Set(id, b.(status := Completed)), h, k);
    } else if !b.status.Final() {
      var st := s.events[id].status;
      if st.Scheduled? && !b.status.ActiveWait? {
        InsertBlockOwed(t, id, h, k);
      } else if st.Live() {
        InsertActiveOwed(t, id, h, k);
      } else {
        BlockUpdateOwed(t, id, st, now, h, k);
      }
    }
  }

  lemma {:induction false} ScheduleEventsOwed(s: State, cs: seq<Control>, now: int, h: seq<Ev>, k: Id)
    requires Known(s) && Listed(s, cs) && Owed(s, h, k)
    ensures Owed(ScheduleEvents(s, cs, now), h, k)
    decreases |cs|
  {
    hide Owed, ScheduleEvent;
    if cs != [] {
      ScheduleEventOwed(s, cs[0].id, cs[0].primacy, now, h, k);
      ScheduleEventsOwed(ScheduleEvent(s, cs[0].id, cs[0].primacy, now), cs[1..], now, h, k);
    }
  }

  lemma RebuildOwed(s: State, gone: seq<Id>, cs: seq<Control>, now: int, h: seq<Ev>, k: Id)
    requires AllIn(s, gone) && Listed(s, cs) && Owed(s, h, k)
    ensures Owed(Rebuild(s, gone, cs, now), h + if k in gone then Discarded(s, k, k) else [], k)
  {
    var g := h + if k in gone then Discarded(s, k, k) else [];
    var t := RemovePrograms(s, gone, now);
    RemoveProgramsOwed(s, gone, now, h, k);
    hide Owed, RemovePrograms, ScheduleEvents, InsertEvent;
    Untouched(t, Cleared(t), g, k);
    ScheduleEventsOwed(Emptied(s, gone, now), cs, now, g, k);
    var v := ScheduleEvents(Emptied(s, gone, now), cs, now);
    InsertOwed(v, Ev(TheSchedule, ScheduleUpdate, 0), g, k);
    InsertOwed(InsertEvent(v, Ev(TheSchedule, ScheduleUpdate, 0)), Ev(OfDevice, DeviceSchedule, 0), g, k);
  }

  lemma {:induction false} ExpireOwed(s: State, now: int, h: seq<Ev>, k: Id)
    requires Known(s) && Owed(s, h, k)
    ensures Owed(Expire(s, now), h, k)
    decreases |s.active|
  {
    hide Owed;
    if s.active != [] && s.blocks[s.active[0]].end <= now {
      var a := s.active[0];
      var t := if s.blocks[a].status.Active? then Queue(s, a, EventEnd) else s;
      if s.blocks[a].status.Active? { QueueOwed(s, a, EventEnd, h, k); }
      var u := Finish(s, a).(active := s.active[1..]);
      Untouched(t, u, h, k);
      ExpireOwed(u, now, h, k);
    }
  }

  lemma {:induction false} PromoteOwed(s: State, now: int, last: int, h: seq<Ev>, k: Id)
    requires Known(s) && Owed(s, h, k)
    ensures Owed(Promote(s, now, last).0, h, k)
    decreases |s.scheduled|
  {
    hide Owed, InsertActive;
    if s.scheduled != [] && s.blocks[s.scheduled[0]].start <= now {
      var u := s.(scheduled := s.scheduled[1..]);
      Untouched(s, u, h, k);
      InsertActiveOwed(u, s.scheduled[0], h, k);
      var t := PromoteOne(s);
      PromoteOwed(t, now, Earlier(last, t.blocks[s.scheduled[0]].end), h, k);
    }
  }

  lemma {:induction false} GiveUpOwed(s: State, now: int, last: int, h: seq<Ev>, k: Id)
    requires Known(s) && Owed(s, h, k)
    ensures Owed(GiveUp(s, now, last).0, h, k)
    decreases |s.superseded|
  {
    hide Owed;
    if s.superseded != [] && s.blocks[s.superseded[0]].start <= now {
      var e := s.superseded[0];
      var t := s.Set(e, s.blocks[e].(status := Superseded)).(superseded := s.superseded[1..]);
      Untouched(s, t, h, k);
      GiveUpOwed(t, now, last, h, k);
    }
  }

  lemma RearmOwed(s: State, last: int, h: seq<Ev>, k: Id)
    requires Known(s) && Owed(s, h, k)
    ensures Owed(Rearm(s, last), h, k)
  {
    hide Owed, InsertEvent, RemoveEvent;
    if last == 0 || last == s.next {
      Untouched(s, Rearm(s, last), h, k);
    } else {
      var t := RemoveEvent(s, TheSchedule);
      RemoveOwed(s, TheSchedule, h, k);
      InsertOwed(t, Ev(TheSchedule, ScheduleUpdate, last), h, k);
      Untouched(InsertEvent(t, Ev(TheSchedule, ScheduleUpdate, last)), Rearm(s, last), h, k);
    }
  }

  lemma UpdateOwed(s: State, now: int, h: seq<Ev>, k: Id)
    requires Known(s) && Owed(s, h, k)
    ensures Owed(UpdateSchedule(s, now), h, k)
  {
    hide Owed, Expire, Promote, GiveUp, Rearm;
    var a := Expire(s, now);
    ExpireOwed(s, now, h, k);
    var l0 := if a.active == [] then 0 else a.blocks[a.active[0]].end;
    PromoteOwed(a, now, l0, h, k);
    var (b, l1) := Promote(a, now, l0);
    GiveUpOwed(b, now, l1, h, k);
    var (c, l2) := GiveUp(b, now, l1);
    RearmOwed(c, l2, h, k);
  }

  lemma PopOwed(s: State, now: int, h: seq<Ev>, k: Id)
    requires Ready(s, now) && Owed(s, h, k)
    ensures var (e, t) := Pop(s, now); Owed(t, h + About([e], k), k)
  {
    hide About;
    var (e, t) := Pop(s, now);
    AboutOne(e, k);
    if s.im != [] {
      AboutHead(s.im, k);
      assert h + (About([e], k) + About(t.im, k)) == h + About([e], k) + About(t.im, k);
    } else {
      AboutHead(s.timed, k);
      assert About([e], k) == [] && About(t.timed, k) == [];
      assert h + [] == h;
    }
  }

  lemma PollOwed(s: State, now: int, default: bool, h: seq<Ev>, k: Id)
    requires Known(s) && Ready(s, now) && Owed(s, h, k)
    ensures Owed(Poll(s, now, default), h + About([Pop(s, now).0], k), k)
  {
    var (e, t) := Pop(s, now);
    var g := h + About([e], k);
    PopOwed(s, now, h, k);
    assert Known(t);
    hide Owed, Pop, About, UpdateSchedule, InsertEvent;
    if e.kind.ScheduleUpdate? {
      UpdateOwed(t, now, g, k);
      InsertOwed(UpdateSchedule(t, now), Ev(OfDevice, DefaultControl, 0), g, k);
    }
  }

  // ---- steps ----

  /** The event a step hands out. */
  function HandedBy(s: State, step: Step): seq<Ev>
    requires Known(s) && Allowed(s, step)
  {
    if step.Wake? then [Pop(s, step.now).0] else []
  }

  /** The step takes an active block out of the schedule: its event is reported as no longer
      live, or its program is removed. */
  predicate Retires(s: State, step: Step, k: Id) {
    && k in s.blocks && s.blocks[k].status.Active?
    && match step
       case Report(id, status, _) => id == k && !status.Live()
       case Reschedule(gone, _, _) => k in gone
       case _ => false
  }

  /** What a step drops of what is waiting for the block. */
  function DroppedBy(s: State, step: Step, k: Id): seq<Ev> {
    if Retires(s, step, k) then About(s.im, k) else []
  }

  lemma ReportOwed(s: State, id: Id, status: Status, now: int, h: seq<Ev>, k: Id)
    requires Known(s) && id in s.events && status.Server() && Owed(s, h, k)
    ensures Owed(Next(s, Report(id, status, now)), h + DroppedBy(s, Report(id, status, now), k), k)
  {
    var t := Reported(s, id, status);
    Untouched(s, t, h, k);
    assert h + [] == h;
    hide Owed, Retire, Activate, InsertEvent, About;
    if id in s.blocks {
      if status.Live() {
        if status.Scheduled? {
          Untouched(t, t.(sync := now - 1), h, k);
          InsertOwed(t, Ev(OfEvent(id), ResourceUpdate, now + 1), h, k);
          InsertOwed(t.(sync := now - 1), Ev(OfEvent(id), ResourceUpdate, now), h, k);
        } else {
          ActivateOwed(t, id, h, k);
        }
      } else {
        RetireOwed(t, id, status, now, h, k);
      }
    }
  }

  /** A step moves what is owed of a block by what it hands out and what it drops. */
  lemma StepOwed(s: State, step: Step, h: seq<Ev>, k: Id)
    requires Known(s) && Allowed(s, step) && Owed(s, h, k)
    ensures Owed(Next(s, step), h + About(HandedBy(s, step), k) + DroppedBy(s, step, k), k)
  {
    hide Owed, Rebuild, Poll, EventUpdate, Pop;
    assert About([], k) == [] && h + [] == h && forall g: seq<Ev> :: g + [] == g;
    match step {
      case Arrive(id, e) => Untouched(s, Next(s, step), h, k);
      case Report(id, st, now) => ReportOwed(s, id, st, now, h, k);
      case Reschedule(gone, cs, now) => RebuildOwed(s, gone, cs, now, h, k);
      case Wake(now, default) => PollOwed(s, now, default, h, k);
    }
  }

  /** A step hands out what the record says is next, and keeps the rest waiting, if and only if
      it does not take an active block out while something of it is waiting. */
  lemma HandedKept(s: State, step: Step, h: seq<Ev>, k: Id)
    requires Known(s) && Allowed(s, step) && Owed(s, h, k)
    ensures Owed(Next(s, step), h + About(HandedBy(s, step), k), k) <==> !(Retires(s, step, k) && About(s.im, k) != [])
  {
    StepOwed(s, step, h, k);
    hide About, HandedBy, Next, Retires;
    var g := h + About(HandedBy(s, step), k);
    assert g + [] == g;
  }

  // ---- runs ----

  /** What a run hands out. */
  function HandedOut(s: State, steps: seq<Step>): seq<Ev>
    requires Known(s) && Possible(s, steps)
    decreases |steps|
  {
    if steps == [] then [] else HandedBy(s, steps[0]) + HandedOut(Next(s, steps[0]), steps[1..])
  }

  /** How much of a block a run drops. */
  function DroppedIn(s: State, steps: seq<Step>, k: Id): nat
    requires Known(s) && Possible(s, steps)
    decreases |steps|
  {
    if steps == [] then 0 else |DroppedBy(s, steps[0], k)| + DroppedIn(Next(s, steps[0]), steps[1..], k)
  }

  lemma {:induction false} RunOwed(s: State, steps: seq<Step>, h: seq<Ev>, k: Id) returns (g: seq<Ev>)
    requires Known(s) && Possible(s, steps) && Owed(s, h, k)
    ensures Owed(Run(s, steps), g, k) && |g| == |h| + |About(HandedOut(s, steps), k)| + DroppedIn(s, steps, k)
    ensures DroppedIn(s, steps, k) == 0 ==> g == h + About(HandedOut(s, steps), k)
    decreases |steps|
  {
    hide Owed, Known, Next, Allowed, HandedBy, DroppedBy, About;
    if steps == [] {
      g := h;
      assert About([], k) == [] by { AboutNone(k); }
    } else {
      var t, e, d := Next(s, steps[0]), HandedBy(s, steps[0]), DroppedBy(s, steps[0], k);
      var rest := HandedOut(t, steps[1..]);
      StepOwed(s, steps[0], h, k);
      g := RunOwed(t, steps[1..], h + About(e, k) + d, k);
      AboutJoin(e, rest, k);
      Regrouped(h, About(e, k), d, About(rest, k));
    }
  }

  lemma AboutNone(k: Id)
    ensures About([], k) == []
  {
  }

  lemma Regrouped(h: seq<Ev>, x: seq<Ev>, d: seq<Ev>, y: seq<Ev>)
    ensures |h + x + d| + |y| == |h| + |x + y| + |d|
    ensures |d| == 0 ==> h + x + d + y == h + (x + y)
  {
    if |d| == 0 { assert h + x + d == h + x; }
  }

  /** In every run, the starts and ends of a block are handed out in the order of the record,
      those not handed out yet are waiting, and none is missing, if and only if the block is
      never taken out while active with something of it waiting. */
  lemma HandedExactly(steps: seq<Step>, k: Id)
    requires Possible(START, steps)
    ensures var s := Run(START, steps);
      About(s.log, k) == About(HandedOut(START, steps), k) + About(s.im, k) <==> DroppedIn(START, steps, k) == 0
  {
    assert Owed(START, [], k);
    var g := RunOwed(START, steps, [], k);
    hide Run, HandedOut, DroppedIn, Possible;
    assert [] + About(HandedOut(START, steps), k) == About(HandedOut(START, steps), k);
    hide About;
  }

  /** A tallied record holds nothing of the block, its start, or its start and its end. */
  lemma {:induction false} PhaseAbout(log: seq<Ev>, k: Id)
    requires !PhaseOf(log, k).Bad?
    ensures var q := About(log, k);
      && (PhaseOf(log, k).Fresh? ==> q == [])
      && (PhaseOf(log, k).Started? ==> |q| == 1 && q[0].kind.EventStart?)
      && (PhaseOf(log, k).Ended? ==> |q| == 2 && q[0].kind.EventStart? && !q[1].kind.EventStart?)
  {
    if log != [] { PhaseAbout(log[..|log| - 1], k); }
  }

  /** Of a block that is never taken back and never dropped, a run hands out nothing, its
      start, or its start and then its end. */
  lemma HandedOnce(steps: seq<Step>, k: Id)
    requires Possible(START, steps) && !TakenBackIn(START, steps, k) && DroppedIn(START, steps, k) == 0
    ensures var q := About(HandedOut(START, steps), k);
      |q| <= 2 && (|q| > 0 ==> q[0].kind.EventStart?) && (|q| == 2 ==> !q[1].kind.EventStart?)
  {
    StartGood();
    assert Tallied(START, k);
    RunTally(START, steps, k);
    HandedExactly(steps, k);
    var s := Run(START, steps);
    hide Run, HandedOut, DroppedIn, Possible, TakenBackIn;
    assert !PhaseOf(s.log, k).Bad?;
    PhaseAbout(s.log, k);
    hide About, PhaseOf;
  }
}
