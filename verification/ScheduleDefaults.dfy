/**
 The events of the device itself: a `DeviceSchedule` for every rebuild, and a `DefaultControl`
 whenever an update of the schedule leaves no event active.
 */
module ScheduleDefaults {
  import opened Common
  import opened Schedule
  import opened ScheduleLists
  import opened ScheduleHandout

  /** The events of the device in a list of events. */
  function Device(q: seq<Ev>): seq<Ev> {
    if q == [] then []
    else Device(q[..|q| - 1]) + if q[|q| - 1].data.OfDevice? then [q[|q| - 1]] else []
  }

  lemma {:induction false} DeviceJoin(p: seq<Ev>, q: seq<Ev>)
    ensures Device(p + q) == Device(p) + Device(q)
    decreases |q|
  {
    if q == [] {
      assert p + q == p;
    } else {
      var n := |q| - 1;
      assert (p + q)[..|p + q| - 1] == p + q[..n];
      DeviceJoin(p, q[..n]);
    }
  }

  lemma DeviceOne(e: Ev)
    ensures Device([e]) == if e.data.OfDevice? then [e] else []
  {
    assert [e][..0] == [];
  }

  lemma DeviceHead(q: seq<Ev>)
    requires q != []
    ensures Device(q) == (if q[0].data.OfDevice? then [q[0]] else []) + Device(q[1..])
  {
    assert q == [q[0]] + q[1..];
    DeviceJoin([q[0]], q[1..]);
    DeviceOne(q[0]);
  }

  lemma {:induction false} DeviceWithout(q: seq<Ev>, d: Data)
    requires !d.OfDevice?
    ensures Device(Without(q, d)) == Device(q)
  {
    if q != [] {
      DeviceWithout(q[1..], d);
      DeviceHead(q);
      if q[0].data != d {
        DeviceHead([q[0]] + Without(q[1..], d));
        assert ([q[0]] + Without(q[1..], d))[1..] == Without(q[1..], d);
      }
    }
  }

  lemma {:induction false} DeviceTimed(q: seq<Ev>, e: Ev)
    requires !e.data.OfDevice?
    ensures Device(InsertTimed(q, e)) == Device(q)
  {
    hide Narrow;
    var r := InsertTimed(q, e);
    DeviceHead(r);
    if q == [] || Narrow(e.time - q[0].time) <= 0 {
      assert r[1..] == q;
    } else {
      DeviceTimed(q[1..], e);
      DeviceHead(q);
      assert r[1..] == InsertTimed(q[1..], e);
    }
  }

  // ---- what concerns blocks and the schedule only ----

  /** The events of the device stay as they are. */
  predicate Calm(s: State, r: State) { Device(r.im) == Device(s.im) && Device(r.timed) == Device(s.timed) }

  lemma CalmAgain(s: State, t: State, r: State)
    requires Calm(s, t) && Calm(t, r)
    ensures Calm(s, r)
  {
  }

  lemma InsertCalm(s: State, e: Ev)
    requires !e.data.OfDevice?
    ensures Calm(s, InsertEvent(s, e))
  {
    DeviceJoin(s.im, [e]);
    DeviceOne(e);
    DeviceTimed(s.timed, e);
    hide Device, InsertTimed;
  }

  lemma RemoveCalm(s: State, d: Data)
    requires !d.OfDevice?
    ensures Calm(s, RemoveEvent(s, d))
  {
    DeviceWithout(s.im, d);
    DeviceWithout(s.timed, d);
  }

  lemma QueueCalm(s: State, id: Id, kind: Kind)
    ensures Calm(s, Queue(s, id, kind))
  {
    InsertCalm(s, Ev(OfBlock(id), kind, 0));
  }

  lemma DisplaceCalm(s: State, a: Id, end: int, rest: seq<Id>)
    requires s.Has(a)
    ensures Calm(s, Displace(s, a, end).(active := rest))
  {
    QueueCalm(s, a, EventEnd);
    hide Queue, Device;
    assert s.blocks[a].status.Active? ==> Displace(s, a, end).im == Queue(s, a, EventEnd).im && Displace(s, a, end).timed == Queue(s, a, EventEnd).timed;
  }

  lemma AdmitCalm(s: State, id: Id)
    requires s.Has(id) && Known(s)
    ensures Calm(s, Admit(s, id))
  {
    QueueCalm(s.Set(id, s.blocks[id].(status := Active)), id, EventStart);
    hide Queue, Device, InsertSorted;
  }

  lemma {:induction false} ActiveLoopCalm(s: State, id: Id, rest: seq<Id>)
    requires s.Has(id) && Known(s) && AllIn(s, rest)
    ensures Calm(s, ActiveLoop(s, id, rest))
    decreases |rest|
  {
    hide Calm, Outranks, Admit, ActiveLoop;
    if rest == [] {
      ActiveEnd(s, id);
      AdmitCalm(s, id);
    } else {
      var (sup, s1) := BlockSupersede(s, id, rest[0]);
      ActiveStep(s, id, rest);
      CalmSame(s, s1);
      if sup {
        var t := Displace(s1, rest[0], s1.blocks[id].start).(active := rest[1..]);
        DisplaceCalm(s1, rest[0], s1.blocks[id].start, rest[1..]);
        ActiveLoopCalm(t, id, rest[1..]);
        CalmAgain(s, s1, t);
        CalmAgain(s, t, ActiveLoop(t, id, rest[1..]));
      } else if s1.blocks[id].der == {} {
        CalmSame(s, s1.Set(id, s1.blocks[id].(status := Superseded)));
      } else {
        ActiveLoopCalm(s1, id, rest[1..]);
        CalmAgain(s, s1, ActiveLoop(s1, id, rest[1..]));
      }
    }
  }

  lemma InterruptCalm(s: State, id: Id, now: int)
    requires s.Has(id)
    ensures Calm(s, Interrupt(s, id, now))
  {
    var t := s.Set(id, s.blocks[id].(end := now));
    RemoveCalm(t, OfBlock(id));
    QueueCalm(RemoveEvent(t, OfBlock(id)), id, EventEnd);
    hide Device, Queue, RemoveEvent;
  }

  lemma RetireCalm(s: State, id: Id, status: Status, now: int)
    requires s.Has(id)
    ensures Calm(s, Retire(s, id, status, now))
  {
    var r := Retire(s, id, status, now);
    hide Calm, Interrupt, Remove;
    if s.blocks[id].status.Active? {
      InterruptCalm(s, id, now);
      CalmSame(Interrupt(s, id, now), r);
      CalmAgain(s, Interrupt(s, id, now), r);
    } else {
      CalmSame(s, r);
    }
  }

  lemma {:induction false} RemoveProgramsCalm(s: State, gone: seq<Id>, now: int)
    requires AllIn(s, gone)
    ensures Calm(s, RemovePrograms(s, gone, now))
    decreases |gone|
  {
    hide Calm, Retire;
    assert Calm(s, s) by { CalmSame(s, s); }
    if gone != [] {
      var t := Retire(s, gone[0], Aborted, now);
      RetireCalm(s, gone[0], Aborted, now);
      RemoveProgramsCalm(t, gone[1..], now);
      CalmAgain(s, t, RemovePrograms(t, gone[1..], now));
    }
  }

  lemma CalmSame(s: State, r: State)
    requires r.im == s.im && r.timed == s.timed
    ensures Calm(s, r)
  {
  }

  lemma ScheduleEventCalm(s: State, id: Id, primacy: nat, now: int)
    requires id in s.events && Known(s)
    ensures Calm(s, ScheduleEvent(s, id, primacy, now))
  {
    var b := if id !in s.blocks then NewBlock(s.events[id], primacy) else s.blocks[id].(primacy := primacy);
    var t := s.Set(id, b);
    var r, st := ScheduleEvent(s, id, primacy, now), s.events[id].status;
    CalmSame(s, t);
    hide Calm, InsertBlock, InsertActive, BlockUpdate, NewBlock;
    if id !in s.blocks && b.end <= now {
      CalmSame(t, r);
    } else if b.status.Final() {
      CalmSame(t, r);
    } else if st.Scheduled? && !b.status.ActiveWait? {
      InsertBlockCalm(t, id);
    } else if st.Live() {
      InsertActiveCalm(t, id);
    } else if st.Server() {
      BlockUpdateCalm(t, id, st, now);
    } else {
      CalmSame(t, r);
    }
    CalmAgain(s, t, r);
  }

  lemma InsertBlockCalm(s: State, id: Id)
    requires s.Has(id) && Known(s)
    ensures Calm(s, InsertBlock(s, id))
  {
    InsertLoopSilent(s.Set(id, s.blocks[id].(status := Scheduled, der := s.events[id].mask)), id, 0);
    hide Device, InsertLoop;
  }

  lemma InsertActiveCalm(s: State, id: Id)
    requires s.Has(id) && Known(s)
    ensures Calm(s, InsertActive(s, id))
  {
    ActiveLoopCalm(s.Set(id, s.blocks[id].(der := s.events[id].mask)), id, s.active);
    hide Device, ActiveLoop;
  }

  lemma BlockUpdateCalm(s: State, id: Id, status: Status, now: int)
    requires s.Has(id)
    ensures Calm(s, BlockUpdate(s, id, status, now))
  {
    QueueCalm(s.Set(id, s.blocks[id].(end := now)), id, EventEnd);
    hide Device, Queue;
  }

  lemma {:induction false} ScheduleEventsCalm(s: State, cs: seq<Control>, now: int)
    requires Known(s) && Listed(s, cs)
    ensures Calm(s, ScheduleEvents(s, cs, now))
    decreases |cs|
  {
    hide ScheduleEvent, Device, Calm;
    if cs == [] {
      CalmSame(s, s);
    } else {
      var t := ScheduleEvent(s, cs[0].id, cs[0].primacy, now);
      ScheduleEventCalm(s, cs[0].id, cs[0].primacy, now);
      ScheduleEventsCalm(t, cs[1..], now);
      CalmAgain(s, t, ScheduleEvents(t, cs[1..], now));
    }
  }

  lemma {:induction false} ExpireCalm(s: State, now: int)
    requires Known(s)
    ensures Calm(s, Expire(s, now))
    decreases |s.active|
  {
    hide Device;
    if s.active != [] && s.blocks[s.active[0]].end <= now {
      var a := s.active[0];
      QueueCalm(s, a, EventEnd);
      hide Queue;
      ExpireCalm(Finish(s, a).(active := s.active[1..]), now);
    }
  }

  lemma {:induction false} PromoteCalm(s: State, now: int, last: int)
    requires Known(s)
    ensures Calm(s, Promote(s, now, last).0)
    decreases |s.scheduled|
  {
    hide Device, ActiveLoop;
    if s.scheduled != [] && s.blocks[s.scheduled[0]].start <= now {
      var e := s.scheduled[0];
      var u := s.(scheduled := s.scheduled[1..]);
      ActiveLoopCalm(u.Set(e, s.blocks[e].(der := s.events[e].mask)), e, s.active);
      var t := PromoteOne(s);
      assert Calm(s, t);
      hide PromoteOne;
      PromoteCalm(t, now, Earlier(last, t.blocks[e].end));
    }
  }

  lemma {:induction false} GiveUpCalm(s: State, now: int, last: int)
    requires Known(s)
    ensures Calm(s, GiveUp(s, now, last).0)
    decreases |s.superseded|
  {
    hide Device;
    if s.superseded != [] && s.blocks[s.superseded[0]].start <= now {
      var e := s.superseded[0];
      GiveUpCalm(s.Set(e, s.blocks[e].(status := Superseded)).(superseded := s.superseded[1..]), now, last);
    }
  }

  lemma RearmCalm(s: State, last: int)
    requires Known(s)
    ensures Calm(s, Rearm(s, last))
  {
    RemoveCalm(s, TheSchedule);
    InsertCalm(RemoveEvent(s, TheSchedule), Ev(TheSchedule, ScheduleUpdate, last));
    hide Device, InsertEvent, RemoveEvent;
  }

  lemma UpdateCalm(s: State, now: int)
    requires Known(s)
    ensures Calm(s, UpdateSchedule(s, now))
  {
    hide Device, Expire, Promote, GiveUp, Rearm;
    var a := Expire(s, now);
    ExpireCalm(s, now);
    var l0 := if a.active == [] then 0 else a.blocks[a.active[0]].end;
    PromoteCalm(a, now, l0);
    var (b, l1) := Promote(a, now, l0);
    GiveUpCalm(b, now, l1);
    var (c, l2) := GiveUp(b, now, l1);
    RearmCalm(c, l2);
  }

  // ---- what a step queues for the device ----

  /** This step hands out an update of the schedule, and no event is active after it. */
  predicate LeftIdle(s: State, step: Step)
    requires Known(s) && Allowed(s, step)
  {
    step.Wake? && HandedBy(s, step)[0].kind.ScheduleUpdate? && Next(s, step).active == []
  }

  /** A rebuild announces the device's schedule, an update that leaves nothing active its
      default control, if there is one. */
  function DueTo(s: State, step: Step): seq<Ev>
    requires Known(s) && Allowed(s, step)
  {
    if step.Reschedule? then [Ev(OfDevice, DeviceSchedule, 0)]
    else if LeftIdle(s, step) && step.default then [Ev(OfDevice, DefaultControl, 0)]
    else []
  }

  lemma DeviceAdded(s: State, kind: Kind)
    ensures var r := InsertEvent(s, Ev(OfDevice, kind, 0));
      Device(r.im) == Device(s.im) + [Ev(OfDevice, kind, 0)] && r.timed == s.timed
  {
    var e := Ev(OfDevice, kind, 0);
    DeviceJoin(s.im, [e]);
    DeviceOne(e);
  }

  lemma RebuildDevice(s: State, gone: seq<Id>, cs: seq<Control>, now: int)
    requires AllIn(s, gone) && Listed(s, cs)
    ensures var r := Rebuild(s, gone, cs, now);
      Device(r.im) == Device(s.im) + [Ev(OfDevice, DeviceSchedule, 0)] && Device(r.timed) == Device(s.timed)
  {
    RemoveProgramsCalm(s, gone, now);
    var u := Emptied(s, gone, now);
    assert Calm(s, u);
    ScheduleEventsCalm(u, cs, now);
    var v := ScheduleEvents(u, cs, now);
    InsertCalm(v, Ev(TheSchedule, ScheduleUpdate, 0));
    DeviceAdded(InsertEvent(v, Ev(TheSchedule, ScheduleUpdate, 0)), DeviceSchedule);
    hide Device, InsertEvent, Emptied, ScheduleEvents;
  }

  lemma ReportCalm(s: State, id: Id, status: Status, now: int)
    requires Known(s) && id in s.events && status.Server()
    ensures Calm(s, Next(s, Report(id, status, now)))
  {
    var t := Reported(s, id, status);
    CalmSame(s, t);
    InsertCalm(t, Ev(OfEvent(id), ResourceUpdate, now + 1));
    InsertCalm(t.(sync := now - 1), Ev(OfEvent(id), ResourceUpdate, now));
    if id in s.blocks {
      RetireCalm(t, id, status, now);
      QueueCalm(t.Set(id, t.blocks[id].(status := Active)), id, EventStart);
    }
    hide Device, Retire, InsertEvent, Queue;
  }

  lemma PopDevice(s: State, now: int)
    requires Ready(s, now)
    requires Device(s.timed) == []
    ensures var (e, t) := Pop(s, now); Device([e]) + Device(t.im) == Device(s.im) && Device(t.timed) == []
  {
    var (e, t) := Pop(s, now);
    DeviceOne(e);
    if s.im != [] { DeviceHead(s.im); } else { DeviceHead(s.timed); }
    hide Device;
  }

  lemma PollDevice(s: State, now: int, default: bool)
    requires Known(s) && Ready(s, now) && Device(s.timed) == []
    ensures var r, step := Poll(s, now, default), Wake(now, default);
      Device([Pop(s, now).0]) + Device(r.im) == Device(s.im) + DueTo(s, step) && Device(r.timed) == []
  {
    var (e, t) := Pop(s, now);
    assert Known(t);
    PopDevice(s, now);
    UpdateCalm(t, now);
    PollIs(s, now, default);
    var u := UpdateSchedule(t, now);
    DeviceAdded(u, DefaultControl);
    CalmIs(t, u);
    hide *;
    Behind(Device([e]), Device(t.im), Device(s.im), [Ev(OfDevice, DefaultControl, 0)]);
  }

  lemma CalmIs(s: State, r: State)
    requires Calm(s, r)
    ensures Device(r.im) == Device(s.im) && Device(r.timed) == Device(s.timed)
  {
  }

  lemma Behind(x: seq<Ev>, y: seq<Ev>, z: seq<Ev>, d: seq<Ev>)
    requires x + y == z
    ensures x + (y + d) == z + d && z + [] == z
  {
    assert x + (y + d) == (x + y) + d;
  }

  /** What a round does, by what it hands out. */
  lemma PollIs(s: State, now: int, default: bool)
    requires Known(s) && Ready(s, now)
    ensures var (e, t) := Pop(s, now);
      && Known(t)
      && var r, u := Poll(s, now, default), UpdateSchedule(t, now);
      && r == (if e.kind.ScheduleUpdate? then if u.active == [] && default then InsertEvent(u, Ev(OfDevice, DefaultControl, 0)) else u else t)
      && DueTo(s, Wake(now, default)) == (if e.kind.ScheduleUpdate? && u.active == [] && default then [Ev(OfDevice, DefaultControl, 0)] else [])
  {
    assert Known(Pop(s, now).1);
    hide UpdateSchedule, Known;
  }

  /** One step: what it hands out to the device and what then waits is what waited, and the
      `DeviceSchedule` of a rebuild, or the `DefaultControl` of an update after which nothing
      is active. */
  lemma StepDevice(s: State, step: Step)
    requires Known(s) && Allowed(s, step) && Device(s.timed) == []
    ensures Device(HandedBy(s, step)) + Device(Next(s, step).im) == Device(s.im) + DueTo(s, step)
    ensures Device(Next(s, step).timed) == []
  {
    assert Device([]) == [];
    hide Device, Rebuild, Poll, EventUpdate, Pop;
    match step {
      case Arrive(id, e) =>
      case Report(id, st, now) => ReportCalm(s, id, st, now);
      case Reschedule(gone, cs, now) => RebuildDevice(s, gone, cs, now);
      case Wake(now, default) => PollDevice(s, now, default);
    }
  }

  // ---- runs ----

  /** What is queued for the device in the course of a run. */
  function DueIn(s: State, steps: seq<Step>): seq<Ev>
    requires Known(s) && Possible(s, steps)
    decreases |steps|
  {
    if steps == [] then [] else DueTo(s, steps[0]) + DueIn(Next(s, steps[0]), steps[1..])
  }

  lemma {:induction false} RunDevice(s: State, steps: seq<Step>)
    requires Known(s) && Possible(s, steps) && Device(s.timed) == []
    ensures Device(HandedOut(s, steps)) + Device(Run(s, steps).im) == Device(s.im) + DueIn(s, steps)
    decreases |steps|
  {
    assert Device([]) == [];
    hide Device, Known, Next, Allowed, HandedBy, DueTo;
    if steps != [] {
      var t, e := Next(s, steps[0]), HandedBy(s, steps[0]);
      StepDevice(s, steps[0]);
      RunDevice(t, steps[1..]);
      DeviceJoin(e, HandedOut(t, steps[1..]));
      hide *;
      Reassociated(Device(e), Device(HandedOut(t, steps[1..])), Device(Run(t, steps[1..]).im), Device(t.im), DueIn(t, steps[1..]),
                Device(s.im), DueTo(s, steps[0]));
    }
  }

  lemma Reassociated(x: seq<Ev>, y: seq<Ev>, z: seq<Ev>, w: seq<Ev>, d: seq<Ev>, v: seq<Ev>, c: seq<Ev>)
    requires y + z == w + d && x + w == v + c
    ensures (x + y) + z == v + (c + d)
  {
    assert (x + y) + z == x + (y + z) && x + (w + d) == (x + w) + d && (v + c) + d == v + (c + d);
  }

  /** In every run, the events handed out to the device and those still waiting are, in this
      order, the `DeviceSchedule` of each rebuild and the `DefaultControl` of each update after
      which nothing was active while the device had a default control, and no others. */
  lemma DeviceExactly(steps: seq<Step>)
    requires Possible(START, steps)
    ensures Device(HandedOut(START, steps)) + Device(Run(START, steps).im) == DueIn(START, steps)
  {
    RunDevice(START, steps);
    assert [] + DueIn(START, steps) == DueIn(START, steps);
  }

  /** The default controls in a list of events. */
  function Defaults(q: seq<Ev>): nat {
    if q == [] then 0 else Defaults(q[..|q| - 1]) + if q[|q| - 1] == Ev(OfDevice, DefaultControl, 0) then 1 else 0
  }

  lemma {:induction false} DefaultsJoin(p: seq<Ev>, q: seq<Ev>)
    ensures Defaults(p + q) == Defaults(p) + Defaults(q)
    decreases |q|
  {
    if q == [] {
      assert p + q == p;
    } else {
      assert (p + q)[..|p + q| - 1] == p + q[..|q| - 1];
      DefaultsJoin(p, q[..|q| - 1]);
    }
  }

  lemma {:induction false} DefaultsOfDevice(q: seq<Ev>)
    ensures Defaults(Device(q)) == Defaults(q)
  {
    if q != [] {
      var n := |q| - 1;
      DefaultsOfDevice(q[..n]);
      var one := if q[n].data.OfDevice? then [q[n]] else [];
      DefaultsJoin(Device(q[..n]), one);
      assert one != [] ==> one[..0] == [];
    }
  }

  /** The rounds of a run that leave nothing active although the device has a default control. */
  function IdleRounds(s: State, steps: seq<Step>): nat
    requires Known(s) && Possible(s, steps)
    decreases |steps|
  {
    if steps == [] then 0
    else (if LeftIdle(s, steps[0]) && steps[0].default then 1 else 0) + IdleRounds(Next(s, steps[0]), steps[1..])
  }

  lemma {:induction false} DefaultsDue(s: State, steps: seq<Step>)
    requires Known(s) && Possible(s, steps)
    ensures Defaults(DueIn(s, steps)) == IdleRounds(s, steps)
    decreases |steps|
  {
    hide Known, Next, Allowed, HandedBy;
    if steps != [] {
      var d := DueTo(s, steps[0]);
      DefaultsDue(Next(s, steps[0]), steps[1..]);
      DefaultsJoin(d, DueIn(Next(s, steps[0]), steps[1..]));
      assert d != [] ==> d[..0] == [];
    }
  }

  /** In every run, the default controls handed out and those waiting number exactly the rounds
      that left nothing active while the device had one. */
  lemma DefaultsExactly(steps: seq<Step>)
    requires Possible(START, steps)
    ensures Defaults(HandedOut(START, steps)) + Defaults(Run(START, steps).im) == IdleRounds(START, steps)
  {
    var h, w := HandedOut(START, steps), Run(START, steps).im;
    DeviceExactly(steps);
    DefaultsDue(START, steps);
    DefaultsOfDevice(h);
    DefaultsOfDevice(w);
    DefaultsJoin(Device(h), Device(w));
  }
}
