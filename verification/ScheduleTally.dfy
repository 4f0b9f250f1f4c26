/**
 The starts and ends of one block, step by step and over whole runs: exactly when a block
 can start twice, and exactly when one that has started is finished without an end.
 */
module ScheduleTally {
  import opened Common
  import opened Schedule
  import opened ScheduleActive
  import opened ScheduleLists
  import opened ScheduleSafety

  // ---- what a call leaves alone ----

  predicate Waits(s: State, k: Id) {
    k in s.blocks && (s.blocks[k].status.Scheduled? || s.blocks[k].status.ScheduleSuperseded?)
  }

  /** A block that is not active stays so, nothing is heard of it, and it goes on waiting if
      it does; one that is in no queue stays as it is. */
  predicate AsideAt(s: State, r: State, k: Id) {
    && k !in r.active && PhaseOf(r.log, k) == PhaseOf(s.log, k)
    && (k in s.blocks <==> k in r.blocks)
    && (Waits(s, k) ==> Waits(r, k))
    && (!Queueing(s, k) ==> !Queueing(r, k) && (k in s.blocks ==> r.blocks[k] == s.blocks[k]))
  }

  ghost predicate Aside(s: State, r: State, id: Id) {
    forall k :: k != id && k !in s.active ==> AsideAt(s, r, k)
  }

  lemma AsideAgain(s: State, t: State, r: State, id: Id)
    requires Aside(s, t, id) && Aside(t, r, id)
    ensures Aside(s, r, id)
  {
    hide PhaseOf, Waits, Queueing;
    forall k | k != id && k !in s.active ensures AsideAt(s, r, k) {
      assert AsideAt(s, t, k) && AsideAt(t, r, k);
    }
  }

  /** The scheduled queue, and the block to join it, hold waiting blocks. */
  ghost predicate Waiting(s: State, id: Id) {
    s.Has(id) && Known(s) && Waits(s, id) && forall k :: k in s.scheduled ==> Waits(s, k) && k !in s.active
  }

  /** Nothing but waiting blocks is touched. */
  ghost predicate Calmly(s: State, r: State, id: Id) {
    Aside(s, r, id) && r.log == s.log && r.active == s.active && r.events == s.events && Waits(r, id)
  }

  lemma CalmlyAgain(s: State, t: State, r: State, id: Id)
    requires Calmly(s, t, id) && Calmly(t, r, id)
    ensures Calmly(s, r, id)
  {
    hide Waits, Aside;
    AsideAgain(s, t, r, id);
  }

  /** Only masks and times of blocks in the scheduled queue change. */
  lemma TouchCalmly(s: State, t: State, id: Id)
    requires Waiting(s, id) && t == s.(blocks := t.blocks) && t.blocks.Keys == s.blocks.Keys
    requires forall k :: k in s.blocks ==> t.blocks[k].status == s.blocks[k].status
    requires forall k :: k in s.blocks && k !in s.scheduled && k != id ==> t.blocks[k] == s.blocks[k]
    ensures Waiting(t, id) && Calmly(s, t, id)
  {
    hide PhaseOf;
  }

  lemma ShelveCalmly(s: State, id: Id, i: nat)
    requires Waiting(s, id) && i < |s.scheduled| && s.scheduled[i] != id
    ensures var t := Shelve(s, s.scheduled[i]).(scheduled := Drop(s.scheduled, i)); Waiting(t, id) && Calmly(s, t, id)
  {
    hide PhaseOf;
    var e := s.scheduled[i];
    var t := Shelve(s, e).(scheduled := Drop(s.scheduled, i));
    Members(s.scheduled, i);
    hide Drop;
    assert forall k :: k in t.superseded <==> k == e || k in s.superseded;
  }

  lemma ShelveSelfCalmly(s: State, id: Id)
    requires Waiting(s, id)
    ensures Calmly(s, Shelve(s, id), id)
  {
    hide PhaseOf;
    assert forall k :: k in Shelve(s, id).superseded <==> k == id || k in s.superseded;
  }

  lemma SchedulingCalmly(s: State, id: Id)
    requires Waiting(s, id)
    ensures Calmly(s, Scheduling(s, id), id)
  {
    hide PhaseOf, InsertSorted;
    Inserted(Starts(s), s.scheduled, id);
  }

  /** The loop of `insert_block` concerns waiting blocks only. */
  lemma {:induction false} InsertLoopCalmly(s: State, id: Id, i: nat)
    requires Waiting(s, id) && i <= |s.scheduled| && id !in s.scheduled
    ensures Calmly(s, InsertLoop(s, id, i), id)
    decreases |s.scheduled| - i
  {
    hide Overlap, Outranks, Calmly, Scheduling;
    if i == |s.scheduled| {
      SchedulingCalmly(s, id);
    } else if Overlap(s.events[id], s.events[s.scheduled[i]]) {
      var e := s.scheduled[i];
      var (sup, s1) := BlockSupersede(s, id, e);
      OverlapStep(s, id, i);
      assert e in s.scheduled;
      TouchCalmly(s, s1, id);
      assert s1.scheduled == s.scheduled;
      hide InsertLoop, BlockSupersede;
      if sup {
        var t := Shelve(s1, e).(scheduled := Drop(s.scheduled, i));
        Members(s.scheduled, i);
        ShelveCalmly(s1, id, i);
        hide Waiting, Shelve;
        InsertLoopCalmly(t, id, i);
        CalmlyAgain(s, s1, t, id);
        CalmlyAgain(s, t, InsertLoop(t, id, i), id);
      } else if s1.blocks[id].der == {} {
        ShelveSelfCalmly(s1, id);
        CalmlyAgain(s, s1, Shelve(s1, id), id);
      } else {
        InsertLoopCalmly(s1, id, i + 1);
        CalmlyAgain(s, s1, InsertLoop(s1, id, i + 1), id);
      }
    } else {
      var t := Abut(s, id, s.scheduled[i]);
      assert s.scheduled[i] in s.scheduled;
      TouchCalmly(s, t, id);
      hide Abut;
      InsertLoopCalmly(t, id, i + 1);
      CalmlyAgain(s, t, InsertLoop(t, id, i + 1), id);
    }
  }

  lemma Members(q: seq<Id>, i: nat)
    requires i < |q|
    ensures q[i] in q && forall k :: k in Drop(q, i) ==> k in q
  {
  }

  /** The loop of `insert_active` concerns active blocks only. */
  lemma {:induction false} ActiveLoopAside(s: State, id: Id, rest: seq<Id>)
    requires s.Has(id) && Known(s) && AllIn(s, rest) && Within(rest, s.active) && id !in s.active
    ensures var r := ActiveLoop(s, id, rest); Aside(s, r, id)
    ensures var r := ActiveLoop(s, id, rest);
      s.blocks[id].status.Active? ==> PhaseOf(r.log, id) == PhaseOf(s.log, id)
    decreases |rest|
  {
    hide Outranks, InsertSorted, PhaseOf;
    if rest == [] {
      AdmitAside(s, id);
    } else {
      var a := rest[0];
      assert a in s.active;
      var (sup, s1) := BlockSupersede(s, id, a);
      assert Aside(s, s1, id);
      if sup {
        var t := Displace(s1, a, s1.blocks[id].start).(active := rest[1..]);
        DisplaceAside(s1, a, s1.blocks[id].start, rest[1..], id);
        hide Displace;
        ActiveLoopAside(t, id, rest[1..]);
        AsideAgain(s, s1, t, id);
        AsideAgain(s, t, ActiveLoop(t, id, rest[1..]), id);
      } else if s1.blocks[id].der != {} {
        ActiveLoopAside(s1, id, rest[1..]);
        AsideAgain(s, s1, ActiveLoop(s1, id, rest[1..]), id);
      }
    }
  }

  lemma DisplaceAside(s: State, a: Id, end: int, rest: seq<Id>, id: Id)
    requires s.Has(a) && a in s.active && Within(rest, s.active) && a != id
    ensures var t := Displace(s, a, end).(active := rest); Aside(s, t, id) && PhaseOf(t.log, id) == PhaseOf(s.log, id)
  {
    forall k ensures k != a ==> PhaseOf(Displace(s, a, end).log, k) == PhaseOf(s.log, k) {
      Logged(s.log, Ev(OfBlock(a), EventEnd, 0), k);
    }
    hide PhaseOf;
  }

  lemma AdmitAside(s: State, id: Id)
    requires s.Has(id) && Known(s) && id !in s.active
    ensures Aside(s, Admit(s, id), id)
    ensures s.blocks[id].status.Active? ==> PhaseOf(Admit(s, id).log, id) == PhaseOf(s.log, id)
  {
    hide InsertSorted;
    var t := if s.events[id].status.Scheduled? then s.Set(id, s.blocks[id].(status := ActiveWait))
             else if s.events[id].status.Active? then Activate(s, id)
             else s;
    BeginAside(s, t, id);
    JoinAside(t, id);
    hide Activate, PhaseOf, Aside;
    AsideAgain(s, t, Admit(s, id), id);
  }

  lemma JoinAside(s: State, id: Id)
    requires s.Has(id) && Known(s) && id !in s.active
    ensures Aside(s, s.(active := InsertSorted(Ends(s), s.active, id)), id)
  {
    hide InsertSorted, PhaseOf;
    Inserted(Ends(s), s.active, id);
  }

  lemma BeginAside(s: State, t: State, id: Id)
    requires s.Has(id)
    requires t == if s.events[id].status.Scheduled? then s.Set(id, s.blocks[id].(status := ActiveWait))
                  else if s.events[id].status.Active? then Activate(s, id)
                  else s
    ensures Aside(s, t, id) && t.active == s.active
    ensures s.blocks[id].status.Active? ==> t.log == s.log
  {
    forall k ensures k != id ==> PhaseOf(t.log, k) == PhaseOf(s.log, k) {
      Logged(s.log, Ev(OfBlock(id), EventStart, 0), k);
    }
    hide PhaseOf;
  }

  // ---- one control of a rebuild ----

  lemma EnterAside(s: State, id: Id, b: Block)
    requires Known(s)
    ensures Aside(s, s.Set(id, b), id)
  {
    hide PhaseOf;
  }

  /** `insert_block` of a block in no queue. */
  lemma InsertBlockCalmly(s: State, id: Id)
    requires Good(s) && Floating(s, id)
    ensures var r := InsertBlock(s, id); Aside(s, r, id) && r.log == s.log && id !in r.active && Waits(r, id)
  {
    var t := s.Set(id, s.blocks[id].(status := Scheduled, der := s.events[id].mask));
    assert Waiting(t, id);
    EnterAside(s, id, t.blocks[id]);
    InsertLoopCalmly(t, id, 0);
    hide Good, InsertLoop, Aside, Waits;
    AsideAgain(s, t, InsertLoop(t, id, 0), id);
  }

  lemma InsertActiveAside(s: State, id: Id)
    requires Good(s) && Floating(s, id)
    ensures var r := InsertActive(s, id); Aside(s, r, id) && (s.blocks[id].status.Active? ==> PhaseOf(r.log, id) == PhaseOf(s.log, id))
  {
    var t := s.Set(id, s.blocks[id].(der := s.events[id].mask));
    assert Known(t);
    EnterAside(s, id, t.blocks[id]);
    ActiveLoopAside(t, id, s.active);
    hide Good, ActiveLoop, Aside;
    AsideAgain(s, t, ActiveLoop(t, id, s.active), id);
  }

  lemma BlockUpdateAside(s: State, id: Id, status: Status, now: int)
    requires Known(s) && s.Has(id)
    ensures Aside(s, BlockUpdate(s, id, status, now), id)
  {
    forall k ensures k != id ==> PhaseOf(BlockUpdate(s, id, status, now).log, k) == PhaseOf(s.log, k) {
      Logged(s.log, Ev(OfBlock(id), EventEnd, 0), k);
    }
    hide PhaseOf;
  }

  lemma ScheduleEventAside(s: State, id: Id, primacy: nat, now: int)
    requires Good(s) && Known(s) && id in s.events && !Queueing(s, id)
    ensures Aside(s, ScheduleEvent(s, id, primacy, now), id)
  {
    var b := if id !in s.blocks then NewBlock(s.events[id], primacy) else s.blocks[id].(primacy := primacy);
    var t := s.Set(id, b);
    EnterGood(s, id, b);
    EnterAside(s, id, b);
    hide Good, InsertBlock, InsertActive, BlockUpdate, Aside;
    if id !in s.blocks && b.end <= now {
      EnterAside(t, id, b.(status := Completed));
      AsideAgain(s, t, t.Set(id, b.(status := Completed)), id);
    } else if !b.status.Final() {
      var st := s.events[id].status;
      if st.Scheduled? && !b.status.ActiveWait? {
        InsertBlockCalmly(t, id);
        AsideAgain(s, t, InsertBlock(t, id), id);
      } else if st.Scheduled? || st.Active? {
        InsertActiveAside(t, id);
        AsideAgain(s, t, InsertActive(t, id), id);
      } else if st.Canceled? || st.CanceledRandom? || st.Superseded? {
        BlockUpdateAside(t, id, st, now);
        AsideAgain(s, t, BlockUpdate(t, id, st, now), id);
      }
    }
  }

  /** A block taken back waits again, although it has started. */
  lemma TakenBackWaits(s: State, id: Id, primacy: nat, now: int)
    requires Good(s) && Known(s) && TakenBack(s, id) && !Queueing(s, id)
    ensures var r := ScheduleEvent(s, id, primacy, now); Waits(r, id) && id !in r.active && r.log == s.log
  {
    EnterGood(s, id, s.blocks[id].(primacy := primacy));
    InsertBlockCalmly(s.Set(id, s.blocks[id].(primacy := primacy)), id);
    hide Good, InsertBlock;
  }

  /** A block let go is superseded, and nothing is heard of it. */
  lemma LetGoSilently(s: State, id: Id, primacy: nat, now: int)
    requires Good(s) && Known(s) && LetGo(s, id, primacy) && !Queueing(s, id)
    ensures var r := ScheduleEvent(s, id, primacy, now);
      id in r.blocks && r.blocks[id].status.Superseded? && PhaseOf(r.log, id) == PhaseOf(s.log, id)
  {
    var t := s.Set(id, s.blocks[id].(primacy := primacy));
    EnterGood(s, id, t.blocks[id]);
    InsertActiveAside(t, id);
    FloatSeparate(t, id);
    InsertOutcome(t, id);
    hide Good, InsertActive, GivesUp, PhaseOf;
  }

  /** For an active block whose event the server has as active, `insert_active` finishes it
      exactly when it gives up, and then it logs no end; else it stays active. */
  lemma GivenUpSilently(s: State, id: Id)
    requires Good(s) && Floating(s, id) && s.blocks[id].status.Active? && s.events[id].status.Active?
    ensures var r := InsertActive(s, id);
      && PhaseOf(r.log, id) == PhaseOf(s.log, id)
      && (r.blocks[id].status.Superseded? <==> GivesUp(s, id))
      && (GivesUp(s, id) <==> exists p :: 0 <= p < |s.active| && GivesUpAt(s, id, p))
  {
    InsertActiveAside(s, id);
    FloatSeparate(s, id);
    InsertOutcome(s, id);
  }

  // ---- a rebuild ----

  /** What waits, though it has started, goes on so to the end of the rebuild. */
  lemma {:induction false} WaitsOn(s: State, cs: seq<Control>, now: int, k: Id)
    requires Good(s) && Known(s) && Listed(s, cs) && Unique(Ids(cs)) && k !in Ids(cs)
    requires forall i :: 0 <= i < |cs| ==> !Queueing(s, cs[i].id)
    requires k !in s.active
    ensures AsideAt(s, ScheduleEvents(s, cs, now), k)
    decreases |cs|
  {
    hide Good, ScheduleEvent, PhaseOf, Waits;
    if cs != [] {
      var t := ScheduleEvent(s, cs[0].id, cs[0].primacy, now);
      OneControl(s, cs, now);
      ScheduleEventAside(s, cs[0].id, cs[0].primacy, now);
      assert Ids(cs)[0] in Ids(cs);
      assert AsideAt(s, t, k);
      hide Queueing;
      WaitsOn(t, cs[1..], now, k);
    }
  }

  /** The first control leaves the others to be scheduled. */
  lemma OneControl(s: State, cs: seq<Control>, now: int)
    requires Good(s) && Known(s) && Listed(s, cs) && Unique(Ids(cs)) && cs != []
    requires forall i :: 0 <= i < |cs| ==> !Queueing(s, cs[i].id)
    ensures var t := ScheduleEvent(s, cs[0].id, cs[0].primacy, now);
      && Good(t) && t.events == s.events && Listed(t, cs[1..]) && Unique(Ids(cs[1..]))
      && (forall i :: 0 <= i < |cs[1..]| ==> !Queueing(t, cs[1..][i].id))
    ensures forall k :: k in Ids(cs) <==> k == cs[0].id || k in Ids(cs[1..])
    ensures cs[0].id !in Ids(cs[1..])
  {
    hide Good, ScheduleEvent, OnwardBut;
    ScheduleEventGood(s, cs[0].id, cs[0].primacy, now);
    ScheduleEventConfined(s, cs[0].id, cs[0].primacy, now);
    hide Queueing;
    assert forall i :: 0 < i < |cs| ==> Ids(cs)[i] != Ids(cs)[0];
    assert Ids(cs)[1..] == Ids(cs[1..]);
    assert Ids(cs) == [cs[0].id] + Ids(cs[1..]);
  }

  /** Taken back in a rebuild are the active blocks listed whose event is scheduled again. */
  lemma {:induction false} BackExactly(s: State, cs: seq<Control>, now: int, k: Id)
    requires Good(s) && Known(s) && Listed(s, cs) && Unique(Ids(cs))
    requires forall i :: 0 <= i < |cs| ==> !Queueing(s, cs[i].id)
    ensures k in BackIn(s, cs, now) <==> k in Ids(cs) && TakenBack(s, k)
    decreases |cs|
  {
    hide Good, ScheduleEvent, PhaseOf, Waits;
    if cs != [] {
      var id := cs[0].id;
      var t := ScheduleEvent(s, id, cs[0].primacy, now);
      OneControl(s, cs, now);
      BackExactly(t, cs[1..], now, k);
      ScheduleEventAside(s, id, cs[0].primacy, now);
      if k in Ids(cs[1..]) {
        var i :| 0 <= i < |cs| && cs[i].id == k;
        assert AsideAt(s, t, k);
      }
    }
  }

  /** And their tally is not kept. */
  lemma {:induction false} BackBreaks(s: State, cs: seq<Control>, now: int, k: Id)
    requires Good(s) && Known(s) && Listed(s, cs) && Unique(Ids(cs))
    requires forall i :: 0 <= i < |cs| ==> !Queueing(s, cs[i].id)
    requires k in Ids(cs) && TakenBack(s, k) && Tallied(s, k)
    ensures !Tallied(ScheduleEvents(s, cs, now), k)
    decreases |cs|
  {
    hide Good, ScheduleEvent, PhaseOf, OnwardBut;
    var id := cs[0].id;
    var t := ScheduleEvent(s, id, cs[0].primacy, now);
    OneControl(s, cs, now);
    var j :| 0 <= j < |cs| && cs[j].id == k;
    if k == id {
      TakenBackWaits(s, id, cs[0].primacy, now);
      WaitsOn(t, cs[1..], now, k);
    } else {
      ScheduleEventAside(s, id, cs[0].primacy, now);
      assert AsideAt(s, t, k);
      BackBreaks(t, cs[1..], now, k);
    }
  }

  /** Let go are the blocks that give up when it is their turn. */
  ghost predicate LetGoAt(s: State, cs: seq<Control>, now: int, k: Id, i: nat)
    requires Known(s) && Listed(s, cs) && i < |cs|
  {
    cs[i].id == k && LetGo(ScheduleEvents(s, cs[..i], now), k, cs[i].primacy)
  }

  lemma {:induction false} LostExactly(s: State, cs: seq<Control>, now: int, k: Id)
    requires Known(s) && Listed(s, cs)
    ensures k in LostIn(s, cs, now) <==> exists i :: 0 <= i < |cs| && LetGoAt(s, cs, now, k, i)
    decreases |cs|
  {
    hide ScheduleEvent, LetGo;
    if cs != [] {
      var t := ScheduleEvent(s, cs[0].id, cs[0].primacy, now);
      LostExactly(t, cs[1..], now, k);
      forall i | 0 < i < |cs| ensures LetGoAt(s, cs, now, k, i) <==> LetGoAt(t, cs[1..], now, k, i - 1) {
        assert cs[..i][0] == cs[0] && cs[..i][1..] == cs[1..][..i - 1];
      }
      assert cs[..0] == [];
      assert LetGoAt(s, cs, now, k, 0) <==> cs[0].id == k && LetGo(s, k, cs[0].primacy);
      hide LetGoAt;
      if j :| 0 <= j < |cs| - 1 && LetGoAt(t, cs[1..], now, k, j) {
        assert LetGoAt(s, cs, now, k, j + 1);
      }
      if i :| 0 < i < |cs| && LetGoAt(s, cs, now, k, i) {
        assert LetGoAt(t, cs[1..], now, k, i - 1);
      }
    }
  }

  /** They are finished without an end. */
  lemma {:induction false} LostUnended(s: State, cs: seq<Control>, now: int, k: Id)
    requires Good(s) && Known(s) && Listed(s, cs) && Unique(Ids(cs))
    requires forall i :: 0 <= i < |cs| ==> !Queueing(s, cs[i].id)
    requires k in LostIn(s, cs, now) && Tallied(s, k)
    ensures Unended(ScheduleEvents(s, cs, now), k)
    decreases |cs|
  {
    hide Good, ScheduleEvent, PhaseOf, LetGo, OnwardBut;
    var id := cs[0].id;
    var t := ScheduleEvent(s, id, cs[0].primacy, now);
    OneControl(s, cs, now);
    if k == id && LetGo(s, k, cs[0].primacy) {
      LetGoSilently(s, k, cs[0].primacy, now);
      LetGoActive(s, k, cs[0].primacy);
      ScheduleEventsGood(t, cs[1..], now);
      FinalStays(t, ScheduleEvents(t, cs[1..], now), BackIn(t, cs[1..], now), LostIn(t, cs[1..], now), k);
    } else {
      LostListed(t, cs[1..], now, k);
      ScheduleEventAside(s, id, cs[0].primacy, now);
      var i :| 0 <= i < |cs[1..]| && cs[1..][i].id == k;
      assert cs[i + 1].id == k;
      assert AsideAt(s, t, k);
      LostUnended(t, cs[1..], now, k);
    }
  }

  lemma LetGoActive(s: State, k: Id, primacy: nat)
    requires Known(s) && LetGo(s, k, primacy)
    ensures k in s.blocks && s.blocks[k].status.Active?
  {
  }

  lemma FinalStays(s: State, r: State, back: set<Id>, lost: set<Id>, k: Id)
    requires OnwardBut(s, r, back, lost) && k in s.blocks && s.blocks[k].status.Final()
    ensures k in r.blocks && r.blocks[k].status.Final() && PhaseOf(r.log, k) == PhaseOf(s.log, k)
  {
    hide PhaseOf, Tallied, Unended;
  }

  lemma {:induction false} LostListed(s: State, cs: seq<Control>, now: int, k: Id)
    requires Known(s) && Listed(s, cs) && k in LostIn(s, cs, now)
    ensures k in Ids(cs)
    decreases |cs|
  {
    hide ScheduleEvent, LetGo;
    var t := ScheduleEvent(s, cs[0].id, cs[0].primacy, now);
    assert Ids(cs) == [cs[0].id] + Ids(cs[1..]);
    if k in LostIn(t, cs[1..], now) { LostListed(t, cs[1..], now, k); }
  }

  // ---- one step ----

  lemma {:induction false} RemovedPrograms(s: State, gone: seq<Id>, now: int, k: Id)
    requires AllIn(s, gone) && k in s.blocks
    ensures var r := RemovePrograms(s, gone, now);
      if k in gone then r.blocks[k].status.Aborted? else r.blocks[k] == s.blocks[k]
    ensures s.blocks[k].status.Final() ==> RemovePrograms(s, gone, now).blocks[k].status.Final()
    decreases |gone|
  {
    hide Remove, Without, InsertTimed;
    if gone != [] {
      var t := Retire(s, gone[0], Aborted, now);
      RemovedPrograms(t, gone[1..], now, k);
      assert k in gone <==> k == gone[0] || k in gone[1..];
    }
  }

  /** The step is a rebuild that lists the block, outside the programs removed, while it is
      active and its event scheduled. */
  predicate TakesBack(s: State, step: Step, k: Id) {
    step.Reschedule? && k in Ids(step.controls) && k !in step.gone && TakenBack(s, k)
  }

  /** The step is a rebuild in which the block, active like its event, gives up when it is
      its turn. */
  ghost predicate LetsGo(s: State, step: Step, k: Id)
    requires Known(s) && Allowed(s, step)
  {
    && step.Reschedule?
    && var u := Emptied(s, step.gone, step.now);
      exists i :: 0 <= i < |step.controls| && LetGoAt(u, step.controls, step.now, k, i)
  }

  lemma StillTakenBack(s: State, gone: seq<Id>, now: int, k: Id)
    requires AllIn(s, gone)
    ensures TakenBack(Emptied(s, gone, now), k) <==> k !in gone && TakenBack(s, k)
  {
    if k in s.blocks { RemovedPrograms(s, gone, now, k); }
    hide RemovePrograms;
  }

  /** A step keeps the tally of a block if and only if it does not take the block back. */
  lemma TallyKept(s: State, step: Step, k: Id)
    requires Good(s) && Known(s) && Allowed(s, step) && Tallied(s, k)
    ensures Tallied(Next(s, step), k) <==> !TakesBack(s, step, k)
  {
    if step.Reschedule? {
      RebuildTally(s, step.gone, step.controls, step.now, k);
      hide Good, Tallied, TakenBack, Rebuild;
    } else {
      StepGood(s, step);
      hide Good, Next, Tallied;
    }
  }

  lemma RebuildTally(s: State, gone: seq<Id>, cs: seq<Control>, now: int, k: Id)
    requires Good(s) && AllIn(s, gone) && Listed(s, cs) && Unique(Ids(cs)) && Tallied(s, k)
    ensures Tallied(Rebuild(s, gone, cs, now), k) <==> !(k in Ids(cs) && k !in gone && TakenBack(s, k))
  {
    RebuildGood(s, gone, cs, now);
    var u := Emptied(s, gone, now);
    EmptiedGood(s, gone, now);
    hide Good, BackIn, LostIn, ScheduleEvents, RemovePrograms, TakenBack, PhaseOf;
    StillTakenBack(s, gone, now, k);
    BackExactly(u, cs, now, k);
    hide Queueing, Emptied;
    if k in Ids(cs) && k !in gone && TakenBack(s, k) {
      BackBreaks(u, cs, now, k);
      SameLog(ScheduleEvents(u, cs, now), k);
    }
  }

  lemma SameLog(s: State, k: Id)
    ensures Tallied(Announced(s), k) == Tallied(s, k)
  {
    hide PhaseOf;
  }

  /** A step that does not take the block back leaves it without an end if and only if it
      lets it go. */
  lemma EndKept(s: State, step: Step, k: Id)
    requires Good(s) && Known(s) && Allowed(s, step) && Tallied(s, k) && !Unended(s, k) && !TakesBack(s, step, k)
    ensures Unended(Next(s, step), k) <==> LetsGo(s, step, k)
  {
    if step.Reschedule? {
      RebuildEnds(s, step.gone, step.controls, step.now, k);
      hide Good, Tallied, Unended, TakenBack, Rebuild, Emptied, LetGoAt;
    } else {
      StepGood(s, step);
      hide Good, Next, Tallied, Unended;
    }
  }

  lemma RebuildEnds(s: State, gone: seq<Id>, cs: seq<Control>, now: int, k: Id)
    requires Good(s) && AllIn(s, gone) && Listed(s, cs) && Unique(Ids(cs)) && Tallied(s, k) && !Unended(s, k)
    requires !(k in Ids(cs) && k !in gone && TakenBack(s, k))
    ensures var u := Emptied(s, gone, now);
      Unended(Rebuild(s, gone, cs, now), k) <==> exists i :: 0 <= i < |cs| && LetGoAt(u, cs, now, k, i)
  {
    RebuildGood(s, gone, cs, now);
    var u := Emptied(s, gone, now);
    EmptiedGood(s, gone, now);
    hide Good, BackIn, LostIn, ScheduleEvents, RemovePrograms, TakenBack, PhaseOf, LetGoAt;
    StillTakenBack(s, gone, now, k);
    BackExactly(u, cs, now, k);
    LostExactly(u, cs, now, k);
    hide Queueing, Emptied;
    if k in LostIn(u, cs, now) {
      LostUnended(u, cs, now, k);
      SameEnd(ScheduleEvents(u, cs, now), k);
    }
  }

  lemma SameEnd(s: State, k: Id)
    ensures Unended(Announced(s), k) == Unended(s, k)
  {
    hide PhaseOf;
  }

  // ---- runs ----

  /** Some step of the run takes the block back. */
  predicate TakenBackIn(s: State, steps: seq<Step>, k: Id)
    requires Known(s) && Possible(s, steps)
    decreases |steps|
  {
    steps != [] && (TakesBack(s, steps[0], k) || TakenBackIn(Next(s, steps[0]), steps[1..], k))
  }

  /** Some step of the run lets it go. */
  ghost predicate LetGoIn(s: State, steps: seq<Step>, k: Id)
    requires Known(s) && Possible(s, steps)
    decreases |steps|
  {
    steps != [] && (LetsGo(s, steps[0], k) || LetGoIn(Next(s, steps[0]), steps[1..], k))
  }

  lemma {:induction false} RunTally(s: State, steps: seq<Step>, k: Id)
    requires Good(s) && Known(s) && Possible(s, steps) && Tallied(s, k) && !TakenBackIn(s, steps, k)
    ensures Tallied(Run(s, steps), k)
    ensures Unended(Run(s, steps), k) <==> Unended(s, k) || LetGoIn(s, steps, k)
    decreases |steps|
  {
    hide Good, Next, Known, Allowed, Tallied, TakesBack, LetsGo;
    if steps != [] {
      var t := Next(s, steps[0]);
      StepGood(s, steps[0]);
      TallyKept(s, steps[0], k);
      RunTally(t, steps[1..], k);
      if Unended(s, k) {
        FinalStays(s, t, Back(s, steps[0]), Lost(s, steps[0]), k);
      } else {
        EndKept(s, steps[0], k);
      }
    }
  }

  /** The record says at `i` that the block of `id` starts, or that it ends. */
  predicate StartAt(log: seq<Ev>, id: Id, i: int) { 0 <= i < |log| && log[i].data == OfBlock(id) && log[i].kind.EventStart? }
  predicate EndAt(log: seq<Ev>, id: Id, i: int) { 0 <= i < |log| && log[i].data == OfBlock(id) && !log[i].kind.EventStart? }

  ghost predicate Orderly(log: seq<Ev>, id: Id) {
    && (forall i, j :: StartAt(log, id, i) && StartAt(log, id, j) ==> i == j)
    && (forall i, j :: EndAt(log, id, i) && EndAt(log, id, j) ==> i == j)
    && (forall i :: EndAt(log, id, i) ==> exists j :: 0 <= j < i && StartAt(log, id, j))
  }

  lemma {:induction false} PhaseMeans(log: seq<Ev>, id: Id)
    requires !PhaseOf(log, id).Bad?
    ensures Orderly(log, id)
    ensures PhaseOf(log, id).Fresh? <==> forall i :: !StartAt(log, id, i)
    ensures PhaseOf(log, id).Ended? <==> exists i :: EndAt(log, id, i)
  {
    if log != [] {
      var n := |log| - 1;
      var front := log[..n];
      PhaseMeans(front, id);
      assert forall i :: StartAt(log, id, i) ==> i == n || StartAt(front, id, i);
      assert forall i :: EndAt(log, id, i) ==> i == n || EndAt(front, id, i);
      assert forall i :: StartAt(front, id, i) ==> StartAt(log, id, i);
      assert forall i :: EndAt(front, id, i) ==> EndAt(log, id, i);
      assert log[n].data == OfBlock(id) ==> StartAt(log, id, n) || EndAt(log, id, n);
      if EndAt(log, id, n) {
        assert PhaseOf(front, id).Started?;
        var j :| StartAt(front, id, j);
        assert StartAt(log, id, j);
      }
      forall i | EndAt(front, id, i) ensures exists j :: 0 <= j < i && StartAt(log, id, j) {
        var j :| 0 <= j < i && StartAt(front, id, j);
        assert StartAt(log, id, j);
      }
    }
  }

  /** In every run, a block that is never taken back from active to scheduled queues at most
      one start and at most one end, the end after the start; a block that is not yet
      active has not started, and an active one has started and not ended. */
  lemma OnceEach(steps: seq<Step>, id: Id)
    requires Possible(START, steps) && !TakenBackIn(START, steps, id) && id in Run(START, steps).blocks
    ensures var s := Run(START, steps);
      && Orderly(s.log, id)
      && (s.blocks[id].status.Active? ==> (exists i :: StartAt(s.log, id, i)) && (forall i :: !EndAt(s.log, id, i)))
      && (!s.blocks[id].status.Active? && !s.blocks[id].status.Final() ==> forall i :: !StartAt(s.log, id, i))
  {
    RunTally(START, steps, id);
    var s := Run(START, steps);
    hide Run, Possible, TakenBackIn;
    PhaseMeans(s.log, id);
  }

  /** And one that has started and is finished has ended, if and only if no step let it go. */
  lemma EndsUnlessLetGo(steps: seq<Step>, id: Id)
    requires Possible(START, steps) && !TakenBackIn(START, steps, id) && id in Run(START, steps).blocks
    ensures var s := Run(START, steps);
      && (s.blocks[id].status.Final() && (exists i :: StartAt(s.log, id, i)) ==>
            ((exists i :: EndAt(s.log, id, i)) <==> !LetGoIn(START, steps, id)))
      && (LetGoIn(START, steps, id) ==> s.blocks[id].status.Final() && exists i :: StartAt(s.log, id, i))
  {
    RunTally(START, steps, id);
    var s := Run(START, steps);
    hide Run, Possible, TakenBackIn, LetGoIn;
    PhaseMeans(s.log, id);
  }
}
