/**
 Which events take anything from each other: only those that run at the same time. For any
 rebuild, whatever the events in it, a bit leaves a block only to a listed event that asks
 for it, is not outranked by the one that loses it, and meets it in time.
 */
module ScheduleIntervals {
  import opened Common
  import opened Schedule
  import opened ScheduleLists
  import opened SchedulePrecedence

  // ---- time ----

  /** The event is on at time `t`: from its start on, and no more at its end. */
  predicate On(x: Event, t: int) { x.start <= t && t < x.start + x.duration }

  ghost predicate Shares(x: Event, y: Event) { exists t :: On(x, t) && On(y, t) }

  /** An event without duration, strictly between the start and the end of the other. */
  predicate Inside(x: Event, y: Event) { x.duration == 0 && y.start < x.start < y.start + y.duration }

  ghost predicate Meets(x: Event, y: Event) { Shares(x, y) || Inside(x, y) || Inside(y, x) }

  /** The test of `insert_block` finds the events that share an instant, and besides them
      those without duration inside another. */
  lemma OverlapExactly(x: Event, y: Event)
    ensures Overlap(x, y) <==> Meets(x, y)
    ensures x.duration > 0 && y.duration > 0 ==> (Overlap(x, y) <==> Shares(x, y))
  {
    if Overlap(x, y) && x.duration > 0 && y.duration > 0 {
      var t := if x.start < y.start then y.start else x.start;
      assert On(x, t) && On(y, t);
    }
  }

  /** An event without duration clashes although it shares no instant with the other. */
  lemma NoInstantShared() returns (x: Event, y: Event)
    ensures x.start == 15 && x.duration == 0 && y.start == 10 && y.duration == 10
    ensures Overlap(x, y) && !Shares(x, y)
  {
    x := Event(15, 0, 0, {0}, 0, 0, Status.Scheduled);
    y := Event(10, 10, 0, {0}, 0, 0, Status.Scheduled);
  }

  // ---- who may take from whom ----

  /** `j` may take bits from `k`: it is not outranked by `k`, and the two meet. */
  ghost predicate Beats(ev: Events, pr: Primacies, j: Id, k: Id)
    requires Has(ev, pr, j) && Has(ev, pr, k)
  {
    j != k && !Above(ev, pr, k, j) && Meets(ev[j], ev[k])
  }

  ghost predicate Takes(ev: Events, pr: Primacies, j: Id, k: Id, b: nat)
    requires Has(ev, pr, j) && Has(ev, pr, k)
  {
    Beats(ev, pr, j, k) && b in ev[j].mask
  }

  /** What a block has lost, it has lost to one of `ks`. */
  ghost predicate Excused(ev: Events, pr: Primacies, ks: set<Id>, k: Id, der: Mask)
    requires Covers(ev, pr, ks) && Has(ev, pr, k)
  {
    der <= ev[k].mask && forall b :: b in ev[k].mask && b !in der ==> exists j :: j in ks && Takes(ev, pr, j, k, b)
  }

  ghost predicate Beaten(ev: Events, pr: Primacies, ks: set<Id>, k: Id)
    requires Covers(ev, pr, ks) && Has(ev, pr, k)
  {
    exists j :: j in ks && Beats(ev, pr, j, k)
  }

  /** A waiting block is in one of the two queues, and in the superseded one only if beaten. */
  ghost predicate Waiting(s: State, ev: Events, pr: Primacies, ks: set<Id>, k: Id)
    requires Covers(ev, pr, ks) && Has(ev, pr, k)
  {
    k in s.scheduled || (k in s.superseded && Beaten(ev, pr, ks, k))
  }

  /** The blocks `ks` wait, and have lost nothing but to those of `rivals`. */
  ghost predicate Fair(s: State, ev: Events, pr: Primacies, ks: set<Id>, rivals: set<Id>) {
    && Keeps(s, ev, pr, ks) && Covers(ev, pr, rivals)
    && (forall k :: k in s.scheduled ==> k in ks)
    && (forall k :: k in s.superseded ==> k in ks)
    && (forall k :: k in s.active ==> k !in ks)
    && (forall k :: k in ks ==> Excused(ev, pr, rivals, k, s.blocks[k].der) && Waiting(s, ev, pr, rivals, k))
  }

  lemma ExcusedMore(ev: Events, pr: Primacies, ks: set<Id>, more: set<Id>, k: Id, der: Mask)
    requires ks <= more && Covers(ev, pr, more) && Has(ev, pr, k) && Excused(ev, pr, ks, k, der)
    ensures Excused(ev, pr, more, k, der)
  {
    hide Takes;
  }

  /** Losing the bits that one of the rivals holds is excused. */
  lemma ExcusedLess(ev: Events, pr: Primacies, ks: set<Id>, k: Id, der: Mask, j: Id, held: Mask)
    requires Covers(ev, pr, ks) && Has(ev, pr, k) && Excused(ev, pr, ks, k, der)
    requires j in ks && Beats(ev, pr, j, k) && held <= ev[j].mask
    ensures Excused(ev, pr, ks, k, der - held)
  {
    hide Beats;
    forall b | b in ev[k].mask && b !in der - held ensures exists j :: j in ks && Takes(ev, pr, j, k, b) {
      if b in der { assert Takes(ev, pr, j, k, b); }
    }
  }

  lemma FairMore(s: State, ev: Events, pr: Primacies, ks: set<Id>, more: set<Id>)
    requires Fair(s, ev, pr, ks, ks) && ks <= more && Covers(ev, pr, more)
    ensures Fair(s, ev, pr, ks, more)
  {
    assert forall k :: k in ks ==> k in s.blocks && Has(ev, pr, k);
    hide Beats, Excused;
    forall k | k in ks ensures Excused(ev, pr, more, k, s.blocks[k].der) && Waiting(s, ev, pr, more, k) {
      ExcusedMore(ev, pr, ks, more, k, s.blocks[k].der);
    }
  }

  // ---- one call of `insert_block` ----

  /** The state inside the loop of `insert_block`. */
  ghost predicate Looping(s: State, ev: Events, pr: Primacies, ks: set<Id>, id: Id) {
    && id !in ks && id !in s.active && Known(s) && s.Has(id) && Keeps(s, ev, pr, ks + {id})
    && Fair(s, ev, pr, ks, ks + {id})
    && Excused(ev, pr, ks + {id}, id, s.blocks[id].der)
  }

  /** The new block meets one in the queue. */
  lemma MeetsOne(s: State, ev: Events, pr: Primacies, ks: set<Id>, id: Id, i: nat)
    requires Looping(s, ev, pr, ks, id) && i < |s.scheduled| && Overlap(s.events[id], s.events[s.scheduled[i]])
    ensures var e := s.scheduled[i];
      && e in ks && Has(ev, pr, id) && Has(ev, pr, e) && e != id && e !in s.active && s.Has(e)
      && s.blocks[e].der <= ev[e].mask && s.blocks[id].der <= ev[id].mask
      && (Outranks(s, id, e) ==> Beats(ev, pr, id, e))
      && (!Outranks(s, id, e) ==> Beats(ev, pr, e, id))
  {
    var e := s.scheduled[i];
    assert e in s.scheduled && e in ks && e in ks + {id} && id in ks + {id};
    OverlapExactly(ev[id], ev[e]);
    hide Overlap, Takes, Meets;
  }

  /** The block at `i` loses what the new one holds. */
  lemma Strips(s: State, ev: Events, pr: Primacies, ks: set<Id>, id: Id, i: nat)
    requires Looping(s, ev, pr, ks, id) && i < |s.scheduled| && Overlap(s.events[id], s.events[s.scheduled[i]])
    requires s.Has(s.scheduled[i]) && Outranks(s, id, s.scheduled[i])
    ensures var e := s.scheduled[i];
      Looping(s.Set(e, s.blocks[e].(der := s.blocks[e].der - s.blocks[id].der)), ev, pr, ks, id)
  {
    var e := s.scheduled[i];
    MeetsOne(s, ev, pr, ks, id, i);
    ExcusedLess(ev, pr, ks + {id}, e, s.blocks[e].der, id, s.blocks[id].der);
    hide Beats, Outranks, Excused, Overlap, Above;
  }

  /** The new block loses what the one at `i` holds. */
  lemma Yields(s: State, ev: Events, pr: Primacies, ks: set<Id>, id: Id, i: nat)
    requires Looping(s, ev, pr, ks, id) && i < |s.scheduled| && Overlap(s.events[id], s.events[s.scheduled[i]])
    requires s.Has(s.scheduled[i]) && !Outranks(s, id, s.scheduled[i])
    ensures var t := s.Set(id, s.blocks[id].(der := s.blocks[id].der - s.blocks[s.scheduled[i]].der));
      Looping(t, ev, pr, ks, id) && Beaten(ev, pr, ks + {id}, id)
  {
    var e := s.scheduled[i];
    MeetsOne(s, ev, pr, ks, id, i);
    ExcusedLess(ev, pr, ks + {id}, id, s.blocks[id].der, e, s.blocks[e].der);
    hide Beats, Outranks, Excused, Overlap, Above;
  }

  /** It moves the start or the end of one next to it. */
  lemma Moves(s: State, ev: Events, pr: Primacies, ks: set<Id>, id: Id, i: nat)
    requires Looping(s, ev, pr, ks, id) && i < |s.scheduled|
    ensures s.Has(s.scheduled[i]) && Looping(Abut(s, id, s.scheduled[i]), ev, pr, ks, id)
  {
    hide Beats, Excused, Above;
  }

  /** A block without anything left leaves the scheduled queue. */
  lemma Leaves(s: State, ev: Events, pr: Primacies, ks: set<Id>, id: Id, i: nat)
    requires Looping(s, ev, pr, ks, id) && i < |s.scheduled|
    requires Has(ev, pr, id) && Has(ev, pr, s.scheduled[i]) && Beats(ev, pr, id, s.scheduled[i])
    ensures Looping(Shelve(s, s.scheduled[i]).(scheduled := Drop(s.scheduled, i)), ev, pr, ks, id)
  {
    var e := s.scheduled[i];
    assert e in s.scheduled && e in ks && Beaten(ev, pr, ks + {id}, e);
    ShelveKnown(s, i);
    Dropped(s.scheduled, i);
    hide Beats, Excused, Above, Drop, Beaten, Known;
  }

  /** The new block finds its place, or has lost it. */
  lemma Arrives(s: State, ev: Events, pr: Primacies, ks: set<Id>, id: Id)
    requires Looping(s, ev, pr, ks, id)
    ensures Fair(Scheduling(s, id), ev, pr, ks + {id}, ks + {id})
    ensures Beaten(ev, pr, ks + {id}, id) ==> Fair(Shelve(s, id), ev, pr, ks + {id}, ks + {id})
  {
    ArrivedQueue(s, id);
    hide Beats, Excused, Above, Beaten, Scheduling;
  }

  lemma {:induction false} LoopFair(s: State, ev: Events, pr: Primacies, ks: set<Id>, id: Id, i: nat)
    requires Looping(s, ev, pr, ks, id) && Known(s) && s.Has(id) && i <= |s.scheduled|
    ensures Fair(InsertLoop(s, id, i), ev, pr, ks + {id}, ks + {id}) && InsertLoop(s, id, i).active == s.active
    decreases |s.scheduled| - i
  {
    hide Looping, Fair, Overlap, Outranks, Drop, InsertLoop, Beaten, Known;
    if i == |s.scheduled| {
      LoopEnd(s, id);
      Arrives(s, ev, pr, ks, id);
    } else {
      var e := s.scheduled[i];
      Moves(s, ev, pr, ks, id, i);
      if Overlap(s.events[id], s.events[e]) {
        MeetsOne(s, ev, pr, ks, id, i);
        var (sup, s1) := BlockSupersede(s, id, e);
        OverlapStep(s, id, i);
        if Outranks(s, id, e) {
          Strips(s, ev, pr, ks, id, i);
          AsStripped(s, id, e);
          LoopingKnown(s1, ev, pr, ks, id);
          if sup {
            ShelveKnown(s1, i);
            Leaves(s1, ev, pr, ks, id, i);
            LoopFair(Shelve(s1, e).(scheduled := Drop(s.scheduled, i)), ev, pr, ks, id, i);
          } else {
            LoopFair(s1, ev, pr, ks, id, i + 1);
          }
        } else {
          Yields(s, ev, pr, ks, id, i);
          LoopingKnown(s1, ev, pr, ks, id);
          if s1.blocks[id].der == {} {
            Arrives(s1, ev, pr, ks, id);
          } else {
            LoopFair(s1, ev, pr, ks, id, i + 1);
          }
        }
      } else {
        AbutStep(s, id, i);
        LoopingKnown(Abut(s, id, e), ev, pr, ks, id);
        LoopFair(Abut(s, id, e), ev, pr, ks, id, i + 1);
      }
    }
  }

  lemma LoopingKnown(s: State, ev: Events, pr: Primacies, ks: set<Id>, id: Id)
    requires Looping(s, ev, pr, ks, id)
    ensures Known(s) && s.Has(id)
  {
  }

  /** Nothing is taken by a block that holds nothing. */
  lemma AsStripped(s: State, id: Id, e: Id)
    requires s.Has(id) && s.Has(e) && Outranks(s, id, e)
    ensures var (sup, s1) := BlockSupersede(s, id, e);
      s1 == s.Set(e, s.blocks[e].(der := s.blocks[e].der - s.blocks[id].der)) && (!sup ==> s1.blocks[id].der != {})
  {
    if s.blocks[id].der == {} {
      assert s.blocks[e].der - {} == s.blocks[e].der;
      assert s.blocks == s.blocks[e := s.blocks[e]];
    }
  }

  // ---- a whole rebuild ----

  /** The blocks outside the queues, but for `id`, stay as they are and out of the active queue. */
  ghost predicate Elsewhere(s: State, r: State, id: Id) {
    forall k :: k != id && k !in s.scheduled && k !in s.active ==>
      k !in r.active && (k in r.blocks <==> k in s.blocks) && (k in s.blocks ==> r.blocks[k] == s.blocks[k])
  }

  /** The blocks that wait go on as they are. */
  ghost predicate Undisturbed(s: State, r: State, ks: set<Id>) {
    && r.scheduled == s.scheduled && r.superseded == s.superseded
    && forall k :: k in ks ==> (k in r.blocks <==> k in s.blocks) && (k in s.blocks ==> r.blocks[k] == s.blocks[k])
  }

  lemma {:induction false} ActiveElsewhere(s: State, id: Id, rest: seq<Id>, k: Id)
    requires s.Has(id) && Known(s) && AllIn(s, rest) && k != id && k !in rest
    ensures var r := ActiveLoop(s, id, rest);
      && (k !in s.active ==> k !in r.active) && (k in s.blocks ==> r.blocks[k] == s.blocks[k])
    decreases |rest|
  {
    hide Outranks, InsertSorted;
    if rest == [] {
      ActiveEnd(s, id);
      AdmitElsewhere(s, id, k);
    } else {
      var (sup, s1) := BlockSupersede(s, id, rest[0]);
      ActiveStep(s, id, rest);
      assert rest == [rest[0]] + rest[1..];
      hide ActiveLoop;
      if sup {
        ActiveElsewhere(Displace(s1, rest[0], s1.blocks[id].start).(active := rest[1..]), id, rest[1..], k);
      } else if s1.blocks[id].der != {} {
        ActiveElsewhere(s1, id, rest[1..], k);
      }
    }
  }

  lemma AdmitElsewhere(s: State, id: Id, k: Id)
    requires s.Has(id) && Known(s) && k != id
    ensures var r := Admit(s, id); (k !in s.active ==> k !in r.active) && (k in s.blocks ==> r.blocks[k] == s.blocks[k])
  {
    var st := s.events[id].status;
    var t := if st.Scheduled? then s.Set(id, s.blocks[id].(status := ActiveWait)) else if st.Active? then Activate(s, id) else s;
    assert t.active == s.active && t.blocks.Keys == s.blocks.Keys;
    Inserted(Ends(t), t.active, id);
    hide InsertSorted;
  }

  /** An active event leaves the waiting ones as they were. */
  lemma ActiveFair(s: State, ev: Events, pr: Primacies, ks: set<Id>, id: Id)
    requires Fair(s, ev, pr, ks, ks) && Known(s) && s.Has(id) && id !in ks
    ensures Fair(InsertActive(s, id), ev, pr, ks, ks) && Elsewhere(s, InsertActive(s, id), id)
    ensures Undisturbed(s, InsertActive(s, id), ks)
  {
    var t := s.Set(id, s.blocks[id].(der := s.events[id].mask));
    var r := ActiveLoop(t, id, s.active);
    ActiveKeeps(t, id, s.active);
    hide ActiveLoop, Excused, Beaten;
    forall k | k != id && k !in s.active
      ensures k !in r.active && (k in r.blocks <==> k in s.blocks) && (k in s.blocks ==> r.blocks[k] == s.blocks[k])
    {
      ActiveElsewhere(t, id, s.active, k);
    }
    assert forall k :: k in ks ==> k != id && k !in s.active && k in s.blocks;
  }

  /** Another block changes, outside the queues. */
  lemma BesideFair(s: State, r: State, ev: Events, pr: Primacies, ks: set<Id>, id: Id)
    requires Fair(s, ev, pr, ks, ks) && id !in ks && r.events == s.events && r.blocks.Keys == s.blocks.Keys + {id}
    requires r.scheduled == s.scheduled && r.active == s.active && r.superseded == s.superseded
    requires forall k :: k in s.blocks && k != id ==> r.blocks[k] == s.blocks[k]
    requires id !in s.active
    ensures Fair(r, ev, pr, ks, ks) && Elsewhere(s, r, id) && Undisturbed(s, r, ks)
  {
    hide Excused, Beaten;
  }

  /** The state in which `schedule_event` comes to insert the block. */
  function Entered(s: State, id: Id, primacy: nat): State
    requires id in s.events
  {
    s.Set(id, if id !in s.blocks then NewBlock(s.events[id], primacy) else s.blocks[id].(primacy := primacy))
  }

  /** And the one in which the loop of `insert_block` starts. */
  function Unmet(s: State, id: Id): State
    requires s.Has(id)
  {
    s.Set(id, s.blocks[id].(status := Scheduled, der := s.events[id].mask))
  }

  lemma Joins(s: State, ev: Events, pr: Primacies, ks: set<Id>, id: Id, primacy: nat)
    requires Fair(s, ev, pr, ks, ks) && Known(s) && id in s.events && id !in ks && id !in s.active
    ensures var t := Entered(s, id, primacy);
      && Known(t) && t.Has(id) && Known(Unmet(t, id)) && t.blocks[id].primacy == primacy
      && Fair(t, ev, pr, ks, ks) && Fair(Unmet(t, id), ev, pr, ks, ks)
      && t.active == s.active && t.scheduled == s.scheduled && t.events == s.events
      && Elsewhere(s, t, id) && Elsewhere(s, Unmet(t, id), id)
      && Undisturbed(s, t, ks) && Undisturbed(s, Unmet(t, id), ks)
  {
    var t := Entered(s, id, primacy);
    BesideFair(s, t, ev, pr, ks, id);
    BesideFair(s, Unmet(t, id), ev, pr, ks, id);
    hide Fair, Elsewhere, NewBlock, Undisturbed;
  }

  lemma ComesAs(s: State, c: Control, now: int)
    requires Known(s) && Comes(s, c, now)
    ensures var t := Entered(s, c.id, c.primacy); Known(t) && ScheduleEvent(s, c.id, c.primacy, now) == InsertLoop(Unmet(t, c.id), c.id, 0)
  {
    hide InsertLoop, InsertActive;
    var t := Entered(s, c.id, c.primacy);
    assert InsertBlock(t, c.id) == InsertLoop(Unmet(t, c.id), c.id, 0);
    hide InsertBlock;
    assert ScheduleEvent(s, c.id, c.primacy, now) == InsertBlock(t, c.id);
  }

  /** A control that comes joins those that wait. */
  lemma ComesFair(s: State, ev: Events, pr: Primacies, ks: set<Id>, c: Control, now: int)
    requires Fair(s, ev, pr, ks, ks) && Known(s) && c.id in s.events && Comes(s, c, now)
    requires c.id !in ks && c.id !in s.active && c.id in pr && pr[c.id] == c.primacy
    ensures var r := ScheduleEvent(s, c.id, c.primacy, now);
      Fair(r, ev, pr, ks + {c.id}, ks + {c.id}) && Elsewhere(s, r, c.id)
  {
    var id := c.id;
    var u := Unmet(Entered(s, id, c.primacy), id);
    hide *;
    Joins(s, ev, pr, ks, id, c.primacy);
    ComesAs(s, c, now);
    UnmetIs(Entered(s, id, c.primacy), id);
    EntersLoop(u, ev, pr, ks, id);
    LoopFair(u, ev, pr, ks, id, 0);
    LoopKeepsOthers(u, id, 0);
    StillElsewhere(s, u, InsertLoop(u, id, 0), id);
  }

  lemma UnmetIs(s: State, id: Id)
    requires s.Has(id)
    ensures var u := Unmet(s, id);
      && u.Has(id) && u.blocks[id].primacy == s.blocks[id].primacy && u.blocks[id].der == u.events[id].mask
      && u.active == s.active && u.scheduled == s.scheduled && u.events == s.events
  {
  }

  lemma StillElsewhere(s: State, u: State, r: State, id: Id)
    requires Elsewhere(s, u, id) && KeepsOthers(u, r, id) && r.active == u.active && r.blocks.Keys == u.blocks.Keys
    requires u.scheduled == s.scheduled && u.active == s.active
    ensures Elsewhere(s, r, id)
  {
  }

  lemma EntersLoop(s: State, ev: Events, pr: Primacies, ks: set<Id>, id: Id)
    requires Fair(s, ev, pr, ks, ks) && Known(s) && s.Has(id) && id !in ks && id !in s.active && id in pr
    requires s.blocks[id].primacy == pr[id] && s.blocks[id].der == s.events[id].mask
    ensures Looping(s, ev, pr, ks, id)
  {
    assert Keeps(s, ev, pr, ks);
    FairMore(s, ev, pr, ks, ks + {id});
    hide Fair, Takes;
  }

  /** Any other control leaves those that wait alone. */
  lemma StaysFair(s: State, ev: Events, pr: Primacies, ks: set<Id>, c: Control, now: int)
    requires Fair(s, ev, pr, ks, ks) && Known(s) && c.id in s.events && !Comes(s, c, now) && c.id !in ks && c.id !in s.active
    ensures var r := ScheduleEvent(s, c.id, c.primacy, now);
      Fair(r, ev, pr, ks, ks) && Elsewhere(s, r, c.id) && Undisturbed(s, r, ks)
  {
    var id := c.id;
    var t := Entered(s, id, c.primacy);
    assert t.Has(id);
    if !((id !in s.blocks && t.blocks[id].end <= now) || t.blocks[id].status.Final()) && s.events[id].status.Live() {
      Joins(s, ev, pr, ks, id, c.primacy);
      assert ScheduleEvent(s, id, c.primacy, now) == InsertActive(t, id) by { hide InsertActive, InsertBlock, Fair, Known; }
      hide *;
      ActiveFair(t, ev, pr, ks, id);
      ElsewhereAgain(s, t, InsertActive(t, id), id);
      UndisturbedAgain(s, t, InsertActive(t, id), ks);
    } else {
      NotQueued(s, id, c.primacy, now);
      hide *;
      BesideFair(s, ScheduleEvent(s, id, c.primacy, now), ev, pr, ks, id);
    }
  }

  lemma UndisturbedAgain(s: State, u: State, r: State, ks: set<Id>)
    requires Undisturbed(s, u, ks) && Undisturbed(u, r, ks)
    ensures Undisturbed(s, r, ks)
  {
  }

  lemma ElsewhereAgain(s: State, u: State, r: State, id: Id)
    requires Elsewhere(s, u, id) && Elsewhere(u, r, id) && u.scheduled == s.scheduled && u.active == s.active
    ensures Elsewhere(s, r, id)
  {
  }

  /** An event that is over goes into no queue. */
  lemma NotQueued(s: State, id: Id, primacy: nat, now: int)
    requires Known(s) && id in s.events
    requires var b := if id !in s.blocks then NewBlock(s.events[id], primacy) else s.blocks[id];
      (id !in s.blocks && b.end <= now) || b.status.Final() || !s.events[id].status.Live()
    ensures var r := ScheduleEvent(s, id, primacy, now);
      && r.scheduled == s.scheduled && r.active == s.active && r.superseded == s.superseded
      && forall k :: k in s.blocks && k != id ==> r.blocks[k] == s.blocks[k]
  {
    hide InsertActive, InsertBlock, NewBlock;
  }

  /** The blocks of the controls that come. */
  function Comers(s: State, cs: seq<Control>, now: int): set<Id> {
    set i | 0 <= i < |cs| && Comes(s, cs[i], now) :: cs[i].id
  }

  /** The primacies of the listed programs, by event. */
  predicate Ranks(pr: Primacies, cs: seq<Control>) {
    forall i :: 0 <= i < |cs| ==> cs[i].id in pr && pr[cs[i].id] == cs[i].primacy
  }

  /** None of the listed blocks is in a queue yet. */
  predicate Outside(s: State, cs: seq<Control>) {
    forall i :: 0 <= i < |cs| ==> cs[i].id !in s.scheduled && cs[i].id !in s.active
  }

  lemma {:induction false} AllFair(s: State, ev: Events, pr: Primacies, ks: set<Id>, cs: seq<Control>, now: int)
    requires Fair(s, ev, pr, ks, ks) && Known(s) && Listed(s, cs) && Ranks(pr, cs) && Unique(Ids(cs)) && Outside(s, cs)
    requires forall i :: 0 <= i < |cs| ==> cs[i].id !in ks
    ensures Fair(ScheduleEvents(s, cs, now), ev, pr, ks + Comers(s, cs, now), ks + Comers(s, cs, now))
    decreases |cs|
  {
    hide Fair, Known, ScheduleEvent, Comes;
    if cs == [] {
      assert ks + Comers(s, cs, now) == ks;
    } else {
      var c := cs[0];
      var t := ScheduleEvent(s, c.id, c.primacy, now);
      assert cs[0].id !in ks;
      var more := ks + if Comes(s, c, now) then {c.id} else {};
      if Comes(s, c, now) { ComesFair(s, ev, pr, ks, c, now); } else { StaysFair(s, ev, pr, ks, c, now); }
      assert !Comes(s, c, now) ==> more == ks;
      OthersStill(s, t, ks, more, cs, now, ev, pr);
      AllFair(t, ev, pr, more, cs[1..], now);
    }
  }

  /** The remaining controls find what they would have found before. */
  lemma OthersStill(s: State, t: State, ks: set<Id>, more: set<Id>, cs: seq<Control>, now: int, ev: Events, pr: Primacies)
    requires cs != [] && Elsewhere(s, t, cs[0].id) && t.events == s.events && Listed(s, cs) && Ranks(pr, cs)
    requires Unique(Ids(cs)) && Outside(s, cs) && forall i :: 0 <= i < |cs| ==> cs[i].id !in ks
    requires more == ks + if Comes(s, cs[0], now) then {cs[0].id} else {}
    requires Fair(t, ev, pr, more, more)
    ensures Listed(t, cs[1..]) && Ranks(pr, cs[1..]) && Unique(Ids(cs[1..])) && Outside(t, cs[1..])
    ensures forall i :: 0 <= i < |cs[1..]| ==> cs[1..][i].id !in more
    ensures more + Comers(t, cs[1..], now) == ks + Comers(s, cs, now)
  {
    FirstOf(cs);
    assert forall k :: k in t.scheduled ==> k in more;
    hide Fair, Unique;
    forall i | 0 < i < |cs|
      ensures cs[i].id != cs[0].id && Comes(t, cs[i], now) == Comes(s, cs[i], now)
      ensures cs[i].id !in t.active && cs[i].id !in t.scheduled
    {
      assert Ids(cs[1..])[i - 1] == cs[i].id;
    }
    hide Comes;
    assert forall i :: 0 <= i < |cs[1..]| ==> cs[1..][i] == cs[i + 1];
    forall k ensures k in more + Comers(t, cs[1..], now) <==> k in ks + Comers(s, cs, now) {
      if k in Comers(s, cs, now) {
        var i :| 0 <= i < |cs| && Comes(s, cs[i], now) && cs[i].id == k;
        assert i > 0 ==> cs[1..][i - 1] == cs[i];
      }
      if k in Comers(t, cs[1..], now) {
        var i :| 0 <= i < |cs[1..]| && Comes(t, cs[1..][i], now) && cs[1..][i].id == k;
        assert cs[1..][i] == cs[i + 1];
      }
    }
  }

  // ---- the masks and the queues ----

  /** The blocks that wait have something exactly in the scheduled queue. */
  ghost predicate Firm(s: State, ks: set<Id>) {
    && Unique(s.scheduled)
    && (forall k :: k in ks ==> k in s.blocks && (k in s.scheduled <==> s.blocks[k].der != {}))
    && (forall k :: k in ks ==> (k in s.superseded <==> s.blocks[k].der == {}))
  }

  lemma FirmStill(s: State, r: State, ks: set<Id>)
    requires Firm(s, ks) && Undisturbed(s, r, ks)
    ensures Firm(r, ks)
  {
    hide Unique;
  }

  /** The loop of `insert_block` with a block that has something left. */
  ghost predicate Striving(s: State, ks: set<Id>, id: Id) {
    && id !in ks && Known(s) && s.Has(id) && s.blocks[id].der != {} && Firm(s, ks)
    && (forall k :: k in s.scheduled ==> k in ks) && id !in s.superseded
  }

  lemma StriveCut(s: State, ks: set<Id>, id: Id, i: nat, der: Mask)
    requires Striving(s, ks, id) && i < |s.scheduled| && s.Has(s.scheduled[i])
    ensures var e := s.scheduled[i];
      var t := s.Set(e, s.blocks[e].(der := der));
      && Known(t)
      && (der != {} ==> Striving(t, ks, id))
      && (der == {} ==> Striving(Shelve(t, e).(scheduled := Drop(s.scheduled, i)), ks, id))
  {
    var e := s.scheduled[i];
    assert e in s.scheduled && e in ks;
    Dropped(s.scheduled, i);
    var t := s.Set(e, s.blocks[e].(der := der));
    assert Known(t);
    ShelveKnown(t, i);
    hide Drop, Unique, Known;
  }

  lemma StriveYield(s: State, ks: set<Id>, id: Id, der: Mask)
    requires Striving(s, ks, id)
    ensures var t := s.Set(id, s.blocks[id].(der := der));
      && (der != {} ==> Striving(t, ks, id))
      && (der == {} ==> Firm(Shelve(t, id), ks + {id}))
  {
    hide Unique;
  }

  lemma StriveAbut(s: State, ks: set<Id>, id: Id, i: nat)
    requires Striving(s, ks, id) && i < |s.scheduled|
    ensures s.Has(s.scheduled[i]) && Striving(Abut(s, id, s.scheduled[i]), ks, id)
  {
    hide Unique;
  }

  lemma StriveEnd(s: State, ks: set<Id>, id: Id)
    requires Striving(s, ks, id)
    ensures Firm(Scheduling(s, id), ks + {id})
  {
    ArrivedQueue(s, id);
    hide Unique, Scheduling;
  }

  /** One meeting of the loop, by what it leads to. */
  lemma StriveMeets(s: State, ks: set<Id>, id: Id, i: nat)
    requires Striving(s, ks, id) && Known(s) && s.Has(id) && i < |s.scheduled| && Overlap(s.events[id], s.events[s.scheduled[i]])
    ensures var e := s.scheduled[i];
      var (sup, s1) := BlockSupersede(s, id, e);
      var t := Shelve(s1, e).(scheduled := Drop(s.scheduled, i));
      && s1.scheduled == s.scheduled && Known(s1) && s1.Has(id) && s1.Has(e)
      && (sup ==> Striving(t, ks, id) && Known(t) && t.Has(id))
      && (!sup && s1.blocks[id].der != {} ==> Striving(s1, ks, id))
      && (!sup && s1.blocks[id].der == {} ==> Firm(Shelve(s1, id), ks + {id}))
  {
    var e := s.scheduled[i];
    var (sup, s1) := BlockSupersede(s, id, e);
    assert s.blocks[id].der != {};
    ShelveKnown(s1, i);
    hide Striving, Firm, Overlap, Shelve, Drop;
    if Outranks(s, id, e) {
      StriveCut(s, ks, id, i, s.blocks[e].der - s.blocks[id].der);
    } else {
      StriveYield(s, ks, id, s1.blocks[id].der);
    }
  }

  lemma {:induction false} LoopFirm(s: State, ks: set<Id>, id: Id, i: nat)
    requires Striving(s, ks, id) && Known(s) && s.Has(id) && i <= |s.scheduled|
    ensures Firm(InsertLoop(s, id, i), ks + {id})
    decreases |s.scheduled| - i
  {
    hide Striving, Firm, Overlap, BlockSupersede, Shelve, Drop, InsertLoop, Scheduling, Known;
    if i == |s.scheduled| {
      LoopEnd(s, id);
      StriveEnd(s, ks, id);
    } else {
      var e := s.scheduled[i];
      StriveAbut(s, ks, id, i);
      if Overlap(s.events[id], s.events[e]) {
        var (sup, s1) := BlockSupersede(s, id, e);
        OverlapStep(s, id, i);
        StriveMeets(s, ks, id, i);
        if sup {
          LoopFirm(Shelve(s1, e).(scheduled := Drop(s.scheduled, i)), ks, id, i);
        } else if s1.blocks[id].der != {} {
          LoopFirm(s1, ks, id, i + 1);
        }
      } else {
        AbutStep(s, id, i);
        StriveKnown(Abut(s, id, e), ks, id);
        LoopFirm(Abut(s, id, e), ks, id, i + 1);
      }
    }
  }

  lemma StriveKnown(s: State, ks: set<Id>, id: Id)
    requires Striving(s, ks, id)
    ensures Known(s) && s.Has(id)
  {
  }

  lemma {:induction false} AllFirm(s: State, ev: Events, pr: Primacies, ks: set<Id>, cs: seq<Control>, now: int)
    requires Fair(s, ev, pr, ks, ks) && Known(s) && Listed(s, cs) && Ranks(pr, cs) && Unique(Ids(cs)) && Outside(s, cs)
    requires forall i :: 0 <= i < |cs| ==> cs[i].id !in ks
    requires Firm(s, ks) && forall i :: 0 <= i < |cs| ==> Comes(s, cs[i], now) ==> s.events[cs[i].id].mask != {}
    ensures Firm(ScheduleEvents(s, cs, now), ks + Comers(s, cs, now))
    decreases |cs|
  {
    hide Fair, Known, ScheduleEvent, Comes, Firm;
    if cs == [] {
      assert ks + Comers(s, cs, now) == ks;
    } else {
      var c := cs[0];
      var t := ScheduleEvent(s, c.id, c.primacy, now);
      assert cs[0].id !in ks;
      var more := ks + if Comes(s, c, now) then {c.id} else {};
      assert !Comes(s, c, now) ==> more == ks;
      if Comes(s, c, now) {
        ComesFair(s, ev, pr, ks, c, now);
        ComesFirm(s, ev, pr, ks, c, now);
      } else {
        StaysFair(s, ev, pr, ks, c, now);
        FirmStill(s, t, ks);
      }
      OthersStill(s, t, ks, more, cs, now, ev, pr);
      AllFirm(t, ev, pr, more, cs[1..], now);
    }
  }

  lemma ComesFirm(s: State, ev: Events, pr: Primacies, ks: set<Id>, c: Control, now: int)
    requires Fair(s, ev, pr, ks, ks) && Known(s) && c.id in s.events && Comes(s, c, now) && Firm(s, ks)
    requires c.id !in ks && c.id !in s.active && s.events[c.id].mask != {}
    ensures Firm(ScheduleEvent(s, c.id, c.primacy, now), ks + {c.id})
  {
    var id := c.id;
    var t := Entered(s, id, c.primacy);
    assert (forall k :: k in s.scheduled ==> k in ks) && (forall k :: k in s.superseded ==> k in ks);
    hide *;
    Joins(s, ev, pr, ks, id, c.primacy);
    ComesAs(s, c, now);
    UnmetIs(t, id);
    var u := Unmet(t, id);
    FirmStill(s, u, ks);
    SupersededSame(s, u, ks);
    StrivesFirst(u, ks, id);
    LoopFirm(u, ks, id, 0);
  }

  lemma SupersededSame(s: State, r: State, ks: set<Id>)
    requires Undisturbed(s, r, ks)
    ensures r.superseded == s.superseded
  {
  }

  lemma StrivesFirst(s: State, ks: set<Id>, id: Id)
    requires id !in ks && Known(s) && s.Has(id) && s.blocks[id].der != {} && Firm(s, ks)
    requires (forall k :: k in s.scheduled ==> k in ks) && id !in s.superseded
    ensures Striving(s, ks, id)
  {
  }

  // ---- results ----

  /** The control at `j` may take from the one at `i`: it is inserted too, not outranked, and
      on at a time when the other is. */
  ghost predicate Rival(s: State, cs: seq<Control>, now: int, i: nat, j: nat)
    requires i < |cs| && j < |cs| && Listed(s, cs)
  {
    var x, y := s.events[cs[i].id], s.events[cs[j].id];
    && j != i && Comes(s, cs[j], now) && Meets(y, x)
    && (cs[j].primacy < cs[i].primacy || (cs[j].primacy == cs[i].primacy && y.creation >= x.creation))
  }

  /** One that also asks for this bit. */
  ghost predicate RivalFor(s: State, cs: seq<Control>, now: int, i: nat, j: nat, b: nat)
    requires i < |cs| && j < |cs| && Listed(s, cs)
  {
    Rival(s, cs, now, i, j) && b in s.events[cs[j].id].mask
  }

  function PrimaciesOf(cs: seq<Control>): Primacies {
    if cs == [] then map[] else PrimaciesOf(cs[1..])[cs[0].id := cs[0].primacy]
  }

  lemma {:induction false} PrimaciesRank(cs: seq<Control>)
    requires Unique(Ids(cs))
    ensures Ranks(PrimaciesOf(cs), cs)
  {
    if cs != [] {
      FirstOf(cs);
      PrimaciesRank(cs[1..]);
      forall i | 0 < i < |cs| ensures cs[i].id != cs[0].id && cs[i] == cs[1..][i - 1] {
        assert Ids(cs[1..])[i - 1] == cs[i].id;
      }
    }
  }

  lemma EmptiedFair(s: State, pr: Primacies, cs: seq<Control>)
    requires s.scheduled == [] && s.active == [] && s.superseded == []
    ensures Fair(s, s.events, pr, {}, {}) && Known(s) && Outside(s, cs) && Firm(s, {})
  {
  }

  lemma BeatsAs(s: State, pr: Primacies, cs: seq<Control>, now: int, i: nat, k: Id) returns (j: nat)
    requires Listed(s, cs) && Ranks(pr, cs) && i < |cs| && k in Comers(s, cs, now)
    requires Has(s.events, pr, k) && Has(s.events, pr, cs[i].id) && Beats(s.events, pr, k, cs[i].id)
    ensures j < |cs| && cs[j].id == k && Rival(s, cs, now, i, j)
  {
    hide Comes, Meets;
    j :| 0 <= j < |cs| && Comes(s, cs[j], now) && cs[j].id == k;
  }

  lemma RivalsOf(s: State, pr: Primacies, cs: seq<Control>, now: int, i: nat, r: State)
    requires Listed(s, cs) && Ranks(pr, cs) && i < |cs| && cs[i].id in Comers(s, cs, now)
    requires Fair(r, s.events, pr, Comers(s, cs, now), Comers(s, cs, now))
    ensures var id := cs[i].id;
      && id in r.blocks && r.blocks[id].der <= s.events[id].mask
      && (forall b :: b in s.events[id].mask && b !in r.blocks[id].der ==> exists j :: 0 <= j < |cs| && RivalFor(s, cs, now, i, j, b))
      && (id in r.scheduled || (id in r.superseded && exists j :: 0 <= j < |cs| && Rival(s, cs, now, i, j)))
  {
    var id, ks, ev := cs[i].id, Comers(s, cs, now), s.events;
    assert Has(ev, pr, id) && Excused(ev, pr, ks, id, r.blocks[id].der) && Waiting(r, ev, pr, ks, id);
    assert Covers(ev, pr, ks);
    hide Beats, Fair, Keeps, Comers, Rival;
    forall b | b in ev[id].mask && b !in r.blocks[id].der ensures exists j :: 0 <= j < |cs| && RivalFor(s, cs, now, i, j, b) {
      var k :| k in ks && Takes(ev, pr, k, id, b);
      var j := BeatsAs(s, pr, cs, now, i, k);
      assert RivalFor(s, cs, now, i, j, b);
    }
    if id !in r.scheduled {
      var k :| k in ks && Beats(ev, pr, k, id);
      var j := BeatsAs(s, pr, cs, now, i, k);
    }
  }

  /** Any rebuild, whatever its events: a block that is inserted keeps bits of its event only,
      each bit it does not keep is asked for by a rival, and without a rival it is in the
      scheduled queue. */
  lemma LostToRivals(s: State, gone: seq<Id>, cs: seq<Control>, now: int, i: nat)
    requires AllIn(s, gone) && Listed(s, cs) && Unique(Ids(cs)) && i < |cs| && Comes(Emptied(s, gone, now), cs[i], now)
    ensures var u, r, id := Emptied(s, gone, now), Rebuild(s, gone, cs, now), cs[i].id;
      && id in r.blocks && r.blocks[id].der <= s.events[id].mask
      && (forall b :: b in s.events[id].mask && b !in r.blocks[id].der ==> exists j :: 0 <= j < |cs| && RivalFor(u, cs, now, i, j, b))
      && (id in r.scheduled || (id in r.superseded && exists j :: 0 <= j < |cs| && Rival(u, cs, now, i, j)))
  {
    var u, ev, pr := Emptied(s, gone, now), s.events, PrimaciesOf(cs);
    var ks, v := Comers(u, cs, now), ScheduleEvents(u, cs, now);
    PrimaciesRank(cs);
    EmptiedFair(u, pr, cs);
    assert {} + ks == ks && cs[i].id in ks;
    hide Fair, Firm, ScheduleEvents, Comers, RivalFor, Rival, Emptied, RemovePrograms, Comes;
    AllFair(u, ev, pr, {}, cs, now);
    RivalsOf(u, pr, cs, now, i, v);
  }

  /** If every event that is inserted asks for something, a block has something left exactly
      when it is in the scheduled queue, and nothing exactly when it is in the superseded one. */
  lemma QueuedByMask(s: State, gone: seq<Id>, cs: seq<Control>, now: int, i: nat)
    requires AllIn(s, gone) && Listed(s, cs) && Unique(Ids(cs)) && i < |cs| && Comes(Emptied(s, gone, now), cs[i], now)
    requires forall j :: 0 <= j < |cs| && Comes(Emptied(s, gone, now), cs[j], now) ==> s.events[cs[j].id].mask != {}
    ensures var r, id := Rebuild(s, gone, cs, now), cs[i].id;
      id in r.blocks && (id in r.scheduled <==> r.blocks[id].der != {}) && (id in r.superseded <==> r.blocks[id].der == {})
  {
    var u, ev, pr := Emptied(s, gone, now), s.events, PrimaciesOf(cs);
    var ks, v := Comers(u, cs, now), ScheduleEvents(u, cs, now);
    PrimaciesRank(cs);
    EmptiedFair(u, pr, cs);
    assert {} + ks == ks && cs[i].id in ks;
    hide Fair, Unique, ScheduleEvents, Comers, Emptied, RemovePrograms, Comes;
    AllFirm(u, ev, pr, {}, cs, now);
  }

  /** An event that is on at no time when another inserted one is, and neither a moment inside
      another nor around one, keeps its whole mask and is scheduled. */
  lemma LeftAlone(s: State, gone: seq<Id>, cs: seq<Control>, now: int, i: nat)
    requires AllIn(s, gone) && Listed(s, cs) && Unique(Ids(cs)) && i < |cs| && Comes(Emptied(s, gone, now), cs[i], now)
    requires forall j :: 0 <= j < |cs| && j != i && Comes(Emptied(s, gone, now), cs[j], now) ==>
      !Meets(s.events[cs[j].id], s.events[cs[i].id])
    ensures var r, id := Rebuild(s, gone, cs, now), cs[i].id;
      id in r.blocks && r.blocks[id].der == s.events[id].mask && id in r.scheduled
  {
    LostToRivals(s, gone, cs, now, i);
    var u, r, id := Emptied(s, gone, now), Rebuild(s, gone, cs, now), cs[i].id;
    hide Emptied, Rebuild, Comes, Meets;
    assert forall j :: 0 <= j < |cs| ==> !Rival(u, cs, now, i, j);
    assert forall j, b :: 0 <= j < |cs| ==> !RivalFor(u, cs, now, i, j, b);
    assert forall b :: b in s.events[id].mask ==> b in r.blocks[id].der;
  }
}
