/**
 The schedule as core/schedule.c, core/event.c and core/der.c run it: one object whose
 queues and blocks change in place. Every method is proved to take the state where the
 function of the same step takes it, so what every run keeps holds of this object.
 */
module Scheduler {
  import opened Common
  import opened Schedule
  import opened ScheduleLists
  import opened ScheduleSafety
  import opened ScheduleRounds

  class Scheduler {
    var events: map<Id, Event>
    var blocks: map<Id, Block>
    var scheduled: seq<Id>
    var active: seq<Id>
    var superseded: seq<Id>
    var next: int
    var im: seq<Ev>
    var timed: seq<Ev>
    var sync: int
    ghost var log: seq<Ev>

    ghost function View(): State
      reads this
    {
      State(events, blocks, scheduled, active, superseded, next, im, timed, log, sync)
    }

    /** `schedule_init` and an empty event queue. */
    constructor ()
      ensures View() == START && Good(View())
    {
      events, blocks := map[], map[];
      scheduled, active, superseded := [], [], [];
      next, im, timed, sync := 0, [], [], 0;
      log := [];
      new;
      StartGood();
    }

    // ---- core/event.c ----

    /** `insert_event`: immediate events queue up, timed ones are sorted in. */
    method InsertEvent(data: Data, kind: Kind, time: int)
      modifies this
      ensures View() == Schedule.InsertEvent(old(View()), Ev(data, kind, time))
    {
      var e := Ev(data, kind, time);
      if time == 0 {
        im := im + [e];
      } else {
        var front, back := [], timed;
        while back != [] && Narrow(e.time - back[0].time) > 0
          invariant View() == old(View())
          invariant InsertTimed(timed, e) == front + InsertTimed(back, e)
          decreases |back|
        {
          TimedStep(front, back, e);
          front, back := front + [back[0]], back[1..];
        }
        TimedHere(front, back, e);
        timed := front + [e] + back;
      }
    }

    /** `remove_by_data`: the events of `data` are unlinked one at a time. */
    static method RemoveByData(q: seq<Ev>, data: Data) returns (r: seq<Ev>)
      ensures r == Without(q, data)
    {
      r := [];
      var rest := q;
      while rest != []
        invariant Without(q, data) == r + Without(rest, data)
        decreases |rest|
      {
        if rest[0].data != data {
          Regroup(r, [rest[0]], Without(rest[1..], data));
          r := r + [rest[0]];
        }
        rest := rest[1..];
      }
    }

    method RemoveEvent(data: Data)
      modifies this
      ensures View() == Schedule.RemoveEvent(old(View()), data)
    {
      im := RemoveByData(im, data);
      timed := RemoveByData(timed, data);
    }

    /** An immediate start or end of a block. */
    method Announce(id: Id, kind: Kind)
      modifies this
      ensures View() == Queue(old(View()), id, kind)
    {
      InsertEvent(OfBlock(id), kind, 0);
      log := log + [Ev(OfBlock(id), kind, 0)];
    }

    // ---- core/schedule.c ----

    method BlockSupersede(a: Id, b: Id) returns (gone: bool)
      requires View().Has(a) && View().Has(b)
      modifies this
      ensures (gone, View()) == Schedule.BlockSupersede(old(View()), a, b)
    {
      var x, y := blocks[a], blocks[b];
      if (x.primacy == y.primacy && events[a].creation > events[b].creation) || x.primacy < y.primacy {
        if x.der != {} {
          blocks := blocks[b := y.(der := y.der - x.der)];
          gone := blocks[b].der == {};
        } else {
          gone := true;
        }
      } else {
        blocks := blocks[a := x.(der := x.der - y.der)];
        gone := false;
      }
    }

    /** `insert_sorted` under `compare_start` or `compare_end`. */
    method InsertSorted(q: seq<Id>, id: Id, byStart: bool) returns (r: seq<Id>)
      requires View().Has(id) && AllIn(View(), q)
      ensures r == Schedule.InsertSorted(if byStart then Starts(View()) else Ends(View()), q, id)
    {
      ghost var key := if byStart then Starts(View()) else Ends(View());
      var front, back := [], q;
      while back != [] && Narrow(if byStart then blocks[id].start - blocks[back[0]].start else blocks[id].end - blocks[back[0]].end) > 0
        invariant AllIn(View(), back)
        invariant Schedule.InsertSorted(key, q, id) == front + Schedule.InsertSorted(key, back, id)
        decreases |back|
      {
        SortedStep(key, front, back, id);
        front, back := front + [back[0]], back[1..];
      }
      SortedHere(key, front, back, id);
      r := front + [id] + back;
    }

    method Shelve(id: Id)
      requires View().Has(id)
      modifies this
      ensures View() == Schedule.Shelve(old(View()), id)
    {
      blocks := blocks[id := blocks[id].(status := ScheduleSuperseded)];
      superseded := [id] + superseded;
    }

    /** A block that starts or ends where the new one ends follows its effective end. */
    method Abut(id: Id, e: Id)
      requires View().Has(id) && View().Has(e)
      modifies this
      ensures View() == Schedule.Abut(old(View()), id, e)
    {
      var b := blocks[e];
      if events[id].End() == events[e].start {
        b := b.(start := blocks[id].end);
      } else if events[id].End() == events[e].End() {
        b := b.(end := blocks[id].end);
      }
      blocks := blocks[e := b];
    }

    /** The new block meets the one at `i`, which overlaps it. */
    method Meet(id: Id, i: nat) returns (k: nat, done: bool)
      requires View().Has(id) && Known(View()) && i < |scheduled| && Overlap(events[id], events[scheduled[i]])
      modifies this
      ensures done ==> View() == InsertLoop(old(View()), id, i)
      ensures !done ==> View().Has(id) && Known(View()) && k <= |scheduled| && |scheduled| - k < old(|scheduled|) - i
      ensures !done ==> InsertLoop(View(), id, k) == InsertLoop(old(View()), id, i)
    {
      var e := scheduled[i];
      OverlapStep(View(), id, i);
      hide InsertLoop, Overlap, Outranks;
      var gone := BlockSupersede(id, e);
      if gone {
        Shelve(e);
        scheduled := scheduled[..i] + scheduled[i + 1..];
        return i, false;
      } else if blocks[id].der == {} {
        Shelve(id);
        return i, true;
      }
      return i + 1, false;
    }

    /** `insert_block` */
    method InsertBlock(id: Id)
      requires View().Has(id) && Known(View())
      modifies this
      ensures View() == Schedule.InsertBlock(old(View()), id)
    {
      blocks := blocks[id := blocks[id].(status := Scheduled, der := events[id].mask)];
      var i: nat := 0;
      hide Overlap, InsertLoop;
      while i < |scheduled|
        invariant View().Has(id) && Known(View()) && i <= |scheduled|
        invariant InsertLoop(View(), id, i) == Schedule.InsertBlock(old(View()), id)
        decreases |scheduled| - i
      {
        if Schedule.Overlap(events[id], events[scheduled[i]]) {
          var k, done := Meet(id, i);
          if done { return; }
          i := k;
        } else {
          AbutStep(View(), id, i);
          Abut(id, scheduled[i]);
          i := i + 1;
        }
      }
      LoopEnd(View(), id);
      scheduled := InsertSorted(scheduled, id, true);
    }

    method ActivateBlock(id: Id)
      requires View().Has(id)
      modifies this
      ensures View() == Activate(old(View()), id)
    {
      if blocks[id].status != Active {
        blocks := blocks[id := blocks[id].(status := Active)];
        Announce(id, EventStart);
      }
    }

    /** A superseded active block ends where the new one starts. */
    method Displace(a: Id, end: int)
      requires View().Has(a)
      modifies this
      ensures View() == Schedule.Displace(old(View()), a, end)
    {
      blocks := blocks[a := blocks[a].(end := end)];
      if blocks[a].status == Active { Announce(a, EventEnd); }
      blocks := blocks[a := blocks[a].(status := Superseded)];
    }

    method Admit(id: Id)
      requires View().Has(id) && Known(View())
      modifies this
      ensures View() == Schedule.Admit(old(View()), id)
    {
      match events[id].status {
        case Scheduled => blocks := blocks[id := blocks[id].(status := ActiveWait)];
        case Active => ActivateBlock(id);
        case _ =>
      }
      active := InsertSorted(active, id, false);
    }

    /** The new block meets the first of `rest`; unlinking it leaves only what is behind it. */
    method MeetActive(id: Id, rest: seq<Id>) returns (done: bool)
      requires View().Has(id) && Known(View()) && rest != [] && AllIn(View(), rest)
      modifies this
      ensures done ==> View() == ActiveLoop(old(View()), id, rest)
      ensures !done ==> View().Has(id) && Known(View()) && AllIn(View(), rest[1..])
      ensures !done ==> ActiveLoop(View(), id, rest[1..]) == ActiveLoop(old(View()), id, rest)
    {
      ActiveStep(View(), id, rest);
      hide ActiveLoop, Outranks;
      var gone := BlockSupersede(id, rest[0]);
      if gone {
        Displace(rest[0], blocks[id].start);
        active := rest[1..];
      } else if blocks[id].der == {} {
        blocks := blocks[id := blocks[id].(status := Superseded)];
        return true;
      }
      done := false;
    }

    /** `insert_active` */
    method InsertActive(id: Id)
      requires View().Has(id) && Known(View())
      modifies this
      ensures View() == Schedule.InsertActive(old(View()), id)
    {
      blocks := blocks[id := blocks[id].(der := events[id].mask)];
      var rest := active;
      hide ActiveLoop;
      while rest != []
        invariant View().Has(id) && Known(View()) && AllIn(View(), rest)
        invariant ActiveLoop(View(), id, rest) == Schedule.InsertActive(old(View()), id)
        decreases |rest|
      {
        var done := MeetActive(id, rest);
        if done { return; }
        rest := rest[1..];
      }
      ActiveEnd(View(), id);
      Admit(id);
    }

    // ---- removal ----

    /** `list_remove` */
    static method ListRemove(q: seq<Id>, id: Id) returns (r: seq<Id>)
      ensures r == Remove(q, id)
    {
      var front, back := [], q;
      while back != [] && back[0] != id
        invariant Remove(q, id) == front + Remove(back, id)
        decreases |back|
      {
        Regroup(front, [back[0]], Remove(back[1..], id));
        front, back := front + [back[0]], back[1..];
      }
      r := if back == [] then front else front + back[1..];
    }

    method RemoveBlock(id: Id, now: int)
      requires View().Has(id)
      modifies this
      ensures View() == Schedule.RemoveBlock(old(View()), id, now)
    {
      match blocks[id].status {
        case Scheduled => scheduled := ListRemove(scheduled, id);
        case Active =>
          blocks := blocks[id := blocks[id].(end := now)];
          RemoveEvent(OfBlock(id));
          Announce(id, EventEnd);
          active := ListRemove(active, id);
        case ActiveWait => active := ListRemove(active, id);
        case ScheduleSuperseded => superseded := ListRemove(superseded, id);
        case _ =>
      }
    }

    /** One block of `remove_blocks` or `remove_programs`. */
    method Retire(id: Id, status: Status, now: int)
      requires View().Has(id)
      modifies this
      ensures View() == Schedule.Retire(old(View()), id, status, now)
    {
      RemoveBlock(id, now);
      blocks := blocks[id := blocks[id].(status := status)];
    }

    /** `event_update` */
    method EventUpdate(id: Id, now: int)
      requires View().Has(id)
      modifies this
      ensures View() == Schedule.EventUpdate(old(View()), id, now)
    {
      hide Schedule.RemoveBlock, InsertTimed;
      match events[id].status {
        case Scheduled =>
          if sync != now {
            sync := now - 1;
            InsertEvent(OfEvent(id), ResourceUpdate, now);
          } else {
            InsertEvent(OfEvent(id), ResourceUpdate, now + 1);
          }
        case Active => if blocks[id].status == ActiveWait { ActivateBlock(id); }
        case Canceled => Retire(id, Canceled, now);
        case CanceledRandom => Retire(id, CanceledRandom, now);
        case Superseded => Retire(id, Superseded, now);
        case _ =>
      }
    }

    method BlockUpdate(id: Id, status: Status, now: int)
      requires View().Has(id)
      modifies this
      ensures View() == Schedule.BlockUpdate(old(View()), id, status, now)
    {
      if blocks[id].status == Active {
        blocks := blocks[id := blocks[id].(end := now)];
        Announce(id, EventEnd);
      }
      blocks := blocks[id := blocks[id].(status := status)];
    }

    // ---- scheduling ----

    /** `schedule_event` */
    method ScheduleEvent(id: Id, primacy: nat, now: int)
      requires id in events && Known(View())
      modifies this
      ensures View() == Schedule.ScheduleEvent(old(View()), id, primacy, now)
    {
      hide Schedule.InsertBlock, Schedule.InsertActive, Schedule.BlockUpdate;
      if id in blocks {
        blocks := blocks[id := blocks[id].(primacy := primacy)];
      } else {
        blocks := blocks[id := NewBlock(events[id], primacy)];
        if blocks[id].end <= now {
          blocks := blocks[id := blocks[id].(status := Completed)];
          return;
        }
      }
      if blocks[id].status.Final() { return; }
      match events[id].status {
        case Scheduled => if blocks[id].status == ActiveWait { InsertActive(id); } else { InsertBlock(id); }
        case Active => InsertActive(id);
        case Canceled => BlockUpdate(id, Canceled, now);
        case CanceledRandom => BlockUpdate(id, CanceledRandom, now);
        case Superseded => BlockUpdate(id, Superseded, now);
        case _ =>
      }
    }

    /** `schedule_der`: the blocks of removed programs are aborted, the queues emptied, and
        every control is scheduled again. */
    method ScheduleDer(gone: seq<Id>, controls: seq<Control>, now: int)
      requires AllIn(View(), gone) && Listed(View(), controls)
      modifies this
      ensures View() == Rebuild(old(View()), gone, controls, now)
    {
      hide Schedule.ScheduleEvent, Schedule.Retire;
      var l := gone;
      while l != []
        invariant AllIn(View(), l) && Listed(View(), controls)
        invariant RemovePrograms(View(), l, now) == RemovePrograms(old(View()), gone, now)
        decreases |l|
      {
        Retire(l[0], Aborted, now);
        l := l[1..];
      }
      scheduled, active, superseded := [], [], [];
      var m := controls;
      while m != []
        invariant Known(View()) && Listed(View(), m)
        invariant ScheduleEvents(View(), m, now) == ScheduleEvents(Cleared(RemovePrograms(old(View()), gone, now)), controls, now)
        decreases |m|
      {
        ScheduleEvent(m[0].id, m[0].primacy, now);
        m := m[1..];
      }
      InsertEvent(TheSchedule, ScheduleUpdate, 0);
      InsertEvent(OfDevice, DeviceSchedule, 0);
    }

    // ---- the clock ----

    /** The first loop of `update_schedule`: the active blocks that are over. */
    method Expire(now: int) returns (last: int)
      requires Known(View())
      modifies this
      ensures View() == Schedule.Expire(old(View()), now)
      ensures last == if active == [] then 0 else blocks[active[0]].end
    {
      hide Narrow;
      while active != [] && blocks[active[0]].end <= now
        invariant Known(View()) && Schedule.Expire(View(), now) == Schedule.Expire(old(View()), now)
        decreases |active|
      {
        var a := active[0];
        if blocks[a].status == Active { Announce(a, EventEnd); }
        blocks := blocks[a := blocks[a].(status := Completed)];
        active := active[1..];
      }
      last := if active == [] then 0 else blocks[active[0]].end;
    }

    /** The second: the scheduled blocks that are due. */
    method Promote(now: int, from: int) returns (last: int)
      requires Known(View())
      modifies this
      ensures (View(), last) == Schedule.Promote(old(View()), now, from)
    {
      last := from;
      hide Schedule.InsertActive;
      while scheduled != [] && blocks[scheduled[0]].start <= now
        invariant Known(View()) && Schedule.Promote(View(), now, last) == Schedule.Promote(old(View()), now, from)
        decreases |scheduled|
      {
        var e := scheduled[0];
        label before:
        scheduled := scheduled[1..];
        InsertActive(e);
        assert View() == PromoteOne(old@before(View()));
        last := if last != 0 && last <= blocks[e].end then last else blocks[e].end;
      }
      if scheduled != [] {
        var start := blocks[scheduled[0]].start;
        last := if last != 0 && last <= start then last else start;
      }
    }

    /** The third: the superseded blocks that are due. */
    method GiveUp(now: int, from: int) returns (last: int)
      requires Known(View())
      modifies this
      ensures (View(), last) == Schedule.GiveUp(old(View()), now, from)
    {
      last := from;
      while superseded != [] && blocks[superseded[0]].start <= now
        invariant Known(View()) && Schedule.GiveUp(View(), now, last) == Schedule.GiveUp(old(View()), now, from)
        decreases |superseded|
      {
        blocks := blocks[superseded[0] := blocks[superseded[0]].(status := Superseded)];
        superseded := superseded[1..];
      }
      if superseded != [] {
        var start := blocks[superseded[0]].start;
        last := if last != 0 && last <= start then last else start;
      }
    }

    /** `update_schedule` */
    method UpdateSchedule(now: int)
      requires Known(View())
      modifies this
      ensures View() == Schedule.UpdateSchedule(old(View()), now)
    {
      hide Schedule.Expire, Schedule.Promote, Schedule.GiveUp;
      var last := Expire(now);
      last := Promote(now, last);
      last := GiveUp(now, last);
      if last != 0 {
        if last != next {
          RemoveEvent(TheSchedule);
          InsertEvent(TheSchedule, ScheduleUpdate, last);
        }
        next := last;
      } else {
        next := 0;
      }
    }

    /** `next_event`; `None` is its EVENT_NONE. */
    method NextEvent(now: int) returns (e: Option<Ev>)
      modifies this
      ensures e.None? <==> !Ready(old(View()), now)
      ensures e.None? ==> View() == old(View())
      ensures e.Some? ==> (e.value, View()) == Pop(old(View()), now)
    {
      if im != [] {
        e := Some(im[0]);
        im := im[1..];
      } else if timed != [] && timed[0].time <= now {
        e := Some(timed[0]);
        timed := timed[1..];
      } else {
        e := None;
      }
    }

    /** One round of the loop of `der_poll`. */
    method Poll(now: int, default: bool) returns (e: Option<Ev>)
      requires Known(View())
      modifies this
      ensures e.None? <==> !Ready(old(View()), now)
      ensures View() == if e.None? then old(View()) else Schedule.Poll(old(View()), now, default)
    {
      hide Schedule.UpdateSchedule;
      e := NextEvent(now);
      if e.Some? && e.value.kind.ScheduleUpdate? {
        UpdateSchedule(now);
        if active == [] && default { InsertEvent(OfDevice, DefaultControl, 0); }
      }
    }

    /** `der_poll` called again and again at one time, until it has no event to hand out. */
    method PollAll(now: int, default: bool)
      requires Known(View()) && now >= 0
      modifies this
      ensures View() == ScheduleRounds.PollAll(old(View()), now, default) && !Ready(View(), now)
    {
      hide Schedule.Poll, Ready, Headway, UpdatesDue, EventsDue;
      ghost var end := ScheduleRounds.PollAll(View(), now, default);
      var more := true;
      while more
        invariant Known(View()) && ScheduleRounds.PollAll(View(), now, default) == end
        invariant !more ==> !Ready(View(), now)
        decreases more, Headway(View()), UpdatesDue(View(), now), EventsDue(View(), now)
      {
        ghost var s := View();
        if Ready(s, now) { PollLess(s, now, default); }
        var e := Poll(now, default);
        more := e.Some?;
      }
    }

    // ---- the surroundings ----

    /** The server's status of an event is retrieved again. */
    method Report(id: Id, status: Status, now: int)
      requires Known(View()) && id in events && status.Server()
      modifies this
      ensures View() == Next(old(View()), Step.Report(id, status, now))
    {
      hide Schedule.EventUpdate;
      events := events[id := events[id].(status := status)];
      if id in blocks { EventUpdate(id, now); }
    }

    method Arrive(id: Id, e: Event)
      requires Known(View()) && id !in events && e.status.Server()
      modifies this
      ensures View() == Next(old(View()), Step.Arrive(id, e))
    {
      events := events[id := e];
    }

    /** Any step of a run. What every run keeps is kept by this object. */
    method Take(step: Step)
      requires Known(View()) && Allowed(View(), step)
      modifies this
      ensures View() == Next(old(View()), step)
      ensures old(Good(View())) ==> Good(View())
    {
      hide Good, Rebuild, Schedule.Poll, Schedule.EventUpdate;
      ghost var s := View();
      match step {
        case Arrive(id, e) => Arrive(id, e);
        case Report(id, status, now) => Report(id, status, now);
        case Reschedule(gone, controls, now) => ScheduleDer(gone, controls, now);
        case Wake(now, default) => var _ := Poll(now, default);
      }
      if Good(s) { StepGood(s, step); }
    }
  }

  // ---- one element further along a list ----

  lemma Regroup<T>(a: seq<T>, b: seq<T>, c: seq<T>)
    ensures a + (b + c) == (a + b) + c
  {
  }

  lemma TimedStep(front: seq<Ev>, back: seq<Ev>, e: Ev)
    requires back != [] && Narrow(e.time - back[0].time) > 0
    ensures front + InsertTimed(back, e) == (front + [back[0]]) + InsertTimed(back[1..], e)
  {
    hide Narrow;
    Regroup(front, [back[0]], InsertTimed(back[1..], e));
  }

  lemma TimedHere(front: seq<Ev>, back: seq<Ev>, e: Ev)
    requires back == [] || Narrow(e.time - back[0].time) <= 0
    ensures front + InsertTimed(back, e) == front + [e] + back
  {
    hide Narrow;
    Regroup(front, [e], back);
  }

  lemma SortedStep(key: map<Id, int>, front: seq<Id>, back: seq<Id>, id: Id)
    requires back != [] && id in key && Keyed(key, back) && Narrow(key[id] - key[back[0]]) > 0
    ensures front + InsertSorted(key, back, id) == (front + [back[0]]) + InsertSorted(key, back[1..], id)
  {
    hide Narrow, Within;
    Regroup(front, [back[0]], InsertSorted(key, back[1..], id));
  }

  lemma SortedHere(key: map<Id, int>, front: seq<Id>, back: seq<Id>, id: Id)
    requires id in key && Keyed(key, back) && (back == [] || Narrow(key[id] - key[back[0]]) <= 0)
    ensures front + InsertSorted(key, back, id) == front + [id] + back
  {
    hide Narrow, Within;
    Regroup(front, [id], back);
  }
}
