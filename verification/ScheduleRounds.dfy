/**
 The loop of `der_poll` at a fixed time: however the events of the queue beget others, it
 comes to an end.
 */
module ScheduleRounds {
  import opened Common
  import opened Schedule

  // ---- what is left to do ----

  /** Falls with every block that is promoted, is over, or is given up. */
  function Headway(s: State): nat { 2 * |s.scheduled| + |s.active| + |s.superseded| }

  /** The timed events that are due. */
  function Late(q: seq<Ev>, now: int): seq<Ev> {
    if q == [] then [] else (if q[0].time <= now then [q[0]] else []) + Late(q[1..], now)
  }

  function Updates(q: seq<Ev>): nat {
    if q == [] then 0 else (if q[0].kind.ScheduleUpdate? then 1 else 0) + Updates(q[1..])
  }

  function UpdatesDue(s: State, now: int): nat { Updates(s.im) + Updates(Late(s.timed, now)) }

  function EventsDue(s: State, now: int): nat { |s.im| + |Late(s.timed, now)| }

  lemma {:induction false} UpdatesJoin(p: seq<Ev>, q: seq<Ev>)
    ensures Updates(p + q) == Updates(p) + Updates(q)
  {
    if p == [] {
      assert p + q == q;
    } else {
      assert (p + q)[1..] == p[1..] + q;
      UpdatesJoin(p[1..], q);
    }
  }

  lemma {:induction false} LateAlike(q: seq<Ev>, e: Ev, now: int)
    requires e.time > now
    ensures Late(InsertTimed(q, e), now) == Late(q, now)
  {
    hide Narrow;
    var r := InsertTimed(q, e);
    if q == [] || Narrow(e.time - q[0].time) <= 0 {
      assert r[1..] == q;
    } else {
      assert r[1..] == InsertTimed(q[1..], e);
      LateAlike(q[1..], e, now);
    }
  }

  lemma {:induction false} WithoutFewer(q: seq<Ev>, d: Data, now: int)
    ensures Updates(Without(q, d)) <= Updates(q)
    ensures Updates(Late(Without(q, d), now)) <= Updates(Late(q, now))
  {
    if q != [] {
      WithoutFewer(q[1..], d, now);
      LateHead(q, now);
      if q[0].data != d {
        assert Without(q, d)[1..] == Without(q[1..], d);
        LateHead(Without(q, d), now);
      }
    }
  }

  lemma LateHead(q: seq<Ev>, now: int)
    requires q != []
    ensures Updates(Late(q, now)) == Updates(Late(q[1..], now)) + if q[0].time <= now && q[0].kind.ScheduleUpdate? then 1 else 0
  {
    var late := Late(q[1..], now);
    assert ([q[0]] + late)[1..] == late && [] + late == late;
  }

  // ---- one update ----

  lemma {:induction false} ActiveLonger(s: State, id: Id, rest: seq<Id>)
    requires s.Has(id) && Known(s) && AllIn(s, rest) && |rest| <= |s.active|
    ensures |ActiveLoop(s, id, rest).active| <= |s.active| + 1
    decreases |rest|
  {
    hide Outranks, InsertSorted;
    if rest == [] {
      var t := if s.events[id].status.Scheduled? then s.Set(id, s.blocks[id].(status := ActiveWait))
               else if s.events[id].status.Active? then Activate(s, id)
               else s;
      OneLonger(Ends(t), t.active, id);
    } else {
      var (sup, s1) := BlockSupersede(s, id, rest[0]);
      if sup {
        ActiveLonger(Displace(s1, rest[0], s1.blocks[id].start).(active := rest[1..]), id, rest[1..]);
      } else if s1.blocks[id].der != {} {
        ActiveLonger(s1, id, rest[1..]);
      }
    }
  }

  lemma {:induction false} OneLonger(key: map<Id, int>, q: seq<Id>, id: Id)
    requires id in key && forall i :: 0 <= i < |q| ==> q[i] in key
    ensures |InsertSorted(key, q, id)| == |q| + 1
  {
    hide Narrow;
    if q != [] { OneLonger(key, q[1..], id); }
  }

  lemma PromoteOneLess(s: State)
    requires Known(s) && s.scheduled != []
    ensures Headway(PromoteOne(s)) < Headway(s)
  {
    var u, e := s.(scheduled := s.scheduled[1..]), s.scheduled[0];
    var t := u.Set(e, u.blocks[e].(der := u.events[e].mask));
    ActiveLonger(t, e, t.active);
    ActiveKeeps(t, e, t.active);
    hide ActiveLoop;
  }

  lemma {:induction false} ExpireLess(s: State, now: int)
    requires Known(s)
    ensures Headway(Expire(s, now)) < Headway(s) || (Expire(s, now) == s && (s.active == [] || s.blocks[s.active[0]].end > now))
    decreases |s.active|
  {
    if s.active != [] && s.blocks[s.active[0]].end <= now {
      ExpireLess(Finish(s, s.active[0]).(active := s.active[1..]), now);
    }
  }

  lemma {:induction false} PromoteLess(s: State, now: int, last: int)
    requires Known(s)
    ensures var (r, l) := Promote(s, now, last);
      Headway(r) < Headway(s) || (r == s && if s.scheduled == [] then l == last else s.blocks[s.scheduled[0]].start > now && l == Earlier(last, s.blocks[s.scheduled[0]].start))
    decreases |s.scheduled|
  {
    if s.scheduled != [] && s.blocks[s.scheduled[0]].start <= now {
      PromoteOneLess(s);
      var t := PromoteOne(s);
      hide PromoteOne;
      PromoteLess(t, now, Earlier(last, t.blocks[s.scheduled[0]].end));
    }
  }

  lemma {:induction false} GiveUpLess(s: State, now: int, last: int)
    requires Known(s)
    ensures var (r, l) := GiveUp(s, now, last);
      Headway(r) < Headway(s) || (r == s && if s.superseded == [] then l == last else s.blocks[s.superseded[0]].start > now && l == Earlier(last, s.blocks[s.superseded[0]].start))
    decreases |s.superseded|
  {
    if s.superseded != [] && s.blocks[s.superseded[0]].start <= now {
      var e := s.superseded[0];
      GiveUpLess(s.Set(e, s.blocks[e].(status := Superseded)).(superseded := s.superseded[1..]), now, last);
    }
  }

  lemma RearmSame(s: State, last: int, now: int)
    requires Known(s) && (last == 0 || last > now)
    ensures Headway(Rearm(s, last)) == Headway(s) && UpdatesDue(Rearm(s, last), now) <= UpdatesDue(s, now)
  {
    WithoutFewer(s.im, TheSchedule, now);
    WithoutFewer(s.timed, TheSchedule, now);
    if last > now { LateAlike(Without(s.timed, TheSchedule), Ev(TheSchedule, ScheduleUpdate, last), now); }
    hide Without, InsertTimed, Late, Updates;
  }

  lemma RearmAhead(s: State, last: int)
    requires Known(s)
    ensures Headway(Rearm(s, last)) == Headway(s)
  {
  }

  /** An update makes headway, or it queues no other update that is due. */
  lemma UpdateLess(s: State, now: int)
    requires Known(s) && now >= 0
    ensures var r := UpdateSchedule(s, now); Headway(r) < Headway(s) || (Headway(r) == Headway(s) && UpdatesDue(r, now) <= UpdatesDue(s, now))
  {
    var a := Expire(s, now);
    ExpireLess(s, now);
    var l0 := if a.active == [] then 0 else a.blocks[a.active[0]].end;
    PromoteLess(a, now, l0);
    var (b, l1) := Promote(a, now, l0);
    GiveUpLess(b, now, l1);
    var (c, l2) := GiveUp(b, now, l1);
    hide Expire, Promote, GiveUp, Rearm;
    RearmAhead(c, l2);
    if Headway(c) == Headway(s) {
      assert c == s && (l2 == 0 || l2 > now);
      RearmSame(c, l2, now);
    }
  }

  lemma PollLess(s: State, now: int, default: bool)
    requires Known(s) && now >= 0 && Ready(s, now)
    ensures var r := Poll(s, now, default);
      || Headway(r) < Headway(s)
      || (Headway(r) == Headway(s) && UpdatesDue(r, now) < UpdatesDue(s, now))
      || (Headway(r) == Headway(s) && UpdatesDue(r, now) == UpdatesDue(s, now) && EventsDue(r, now) < EventsDue(s, now))
  {
    var (e, t) := Pop(s, now);
    PopLess(s, now);
    hide Late, Updates, Pop;
    if e.kind.ScheduleUpdate? {
      UpdateLess(t, now);
      var u := UpdateSchedule(t, now);
      hide UpdateSchedule;
      UpdatesJoin(u.im, [Ev(OfDevice, DefaultControl, 0)]);
      assert Updates([Ev(OfDevice, DefaultControl, 0)]) == 0 by { NoUpdate(); }
    }
  }

  lemma NoUpdate()
    ensures Updates([Ev(OfDevice, DefaultControl, 0)]) == 0
  {
  }

  lemma PopLess(s: State, now: int)
    requires Known(s) && Ready(s, now)
    ensures var (e, t) := Pop(s, now);
      && Known(t) && Headway(t) == Headway(s) && EventsDue(t, now) == EventsDue(s, now) - 1
      && UpdatesDue(t, now) == UpdatesDue(s, now) - if e.kind.ScheduleUpdate? then 1 else 0
  {
    if s.im == [] {
      var late := Late(s.timed[1..], now);
      assert ([s.timed[0]] + late)[1..] == late;
    }
  }

  // ---- all rounds ----

  /** The rounds of `der_poll` at one time, until nothing is ready. */
  function PollAll(s: State, now: int, default: bool): (r: State)
    requires Known(s) && now >= 0
    ensures Known(r) && r.events == s.events && !Ready(r, now)
    decreases Headway(s), UpdatesDue(s, now), EventsDue(s, now)
  {
    if !Ready(s, now) then s
    else
      PollLess(s, now, default);
      PollAll(Poll(s, now, default), now, default)
  }
}
