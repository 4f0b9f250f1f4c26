/**
 What the steps leave behind, told from the state before them: the times of new blocks and
 of their neighbours, the blocks an update finishes and promotes, what an insertion among the
 active blocks does to each of them, and when the schedule is woken next.
 */
module ScheduleOutcomes {
  import opened Common
  import opened Schedule
  import opened ScheduleLists
  import opened ScheduleActive
  import opened ScheduleSafety
  import opened SchedulePrecedence
  import opened ScheduleIntervals
  import opened ScheduleTally
  import opened ScheduleHandout

  // ---- the loop of `insert_block` and effective times ----

  /** The times of a block, as a pair. */
  function Times(b: Block): (int, int) { (b.start, b.end) }

  /** The times of a block in the queue after a new one has gone past it: next to the new one
      in time, it follows the new one's effective end. */
  function Pushed(x: Event, end: int, y: Event, b: Block): (int, int) {
    if Overlap(x, y) then (b.start, b.end)
    else if x.start + x.duration == y.start then (end, b.end)
    else if x.start + x.duration == y.start + y.duration then (b.start, end)
    else (b.start, b.end)
  }

  /** `k` is as the loop of `insert_block` for `id` leaves it if it is one of `q`. */
  ghost predicate PushedOnly(s: State, r: State, id: Id, q: seq<Id>, k: Id)
    requires s.Has(id) && s.Has(k) && r.Has(k)
  {
    if k in q && id in r.scheduled then Times(r.blocks[k]) == Pushed(s.events[id], s.blocks[id].end, s.events[k], s.blocks[k])
    else k !in q ==> Times(r.blocks[k]) == Times(s.blocks[k])
  }

  lemma TailAt(q: seq<Id>, i: nat, k: Id)
    requires i < |q| && Unique(q)
    ensures q[i..] == [q[i]] + q[i + 1..] && (k in q[i..] <==> k == q[i] || k in q[i + 1..]) && q[i] !in q[i + 1..]
    ensures Drop(q, i)[i..] == q[i + 1..]
  {
    assert q[i..] == [q[i]] + q[i + 1..];
    var t := q[i + 1..];
    forall j | 0 <= j < |t| ensures t[j] != q[i] { assert t[j] == q[i + 1 + j]; }
  }

  /** Meeting a block that overlaps changes no times. */
  lemma OverlapTimes(s: State, id: Id, i: nat, k: Id)
    requires s.Has(id) && s.Has(k) && Known(s) && i < |s.scheduled| && id != s.scheduled[i]
    ensures var e := s.scheduled[i];
      var s1 := BlockSupersede(s, id, e).1;
      var t := Shelve(s1, e).(scheduled := Drop(s.scheduled, i));
      SameTimes(s, s1, id, k) && SameTimes(s, t, id, k)
  {
    hide Outranks, Drop;
  }

  predicate SameTimes(s: State, t: State, id: Id, k: Id) {
    && t.events == s.events && s.Has(id) && s.Has(k) && t.Has(id) && t.Has(k)
    && Times(t.blocks[id]) == Times(s.blocks[id]) && Times(t.blocks[k]) == Times(s.blocks[k]) && t.blocks[k].primacy == s.blocks[k].primacy
  }

  lemma PastOverlap(s: State, t: State, r: State, id: Id, q: seq<Id>, q1: seq<Id>, e: Id, k: Id)
    requires SameTimes(s, t, id, k) && r.Has(k) && PushedOnly(t, r, id, q1, k)
    requires (k in q <==> k == e || k in q1) && e !in q1 && e in s.events && Overlap(s.events[id], s.events[e])
    ensures PushedOnly(s, r, id, q, k)
  {
    hide Overlap;
  }

  lemma PastAbut(s: State, r: State, id: Id, q: seq<Id>, q1: seq<Id>, e: Id, k: Id)
    requires s.Has(id) && s.Has(k) && s.Has(e) && r.Has(k) && e != id && PushedOnly(Abut(s, id, e), r, id, q1, k)
    requires (k in q <==> k == e || k in q1) && e !in q1 && !Overlap(s.events[id], s.events[e])
    ensures PushedOnly(s, r, id, q, k)
  {
    hide Overlap;
  }

  lemma {:induction false} LoopTimes(s: State, id: Id, i: nat, k: Id)
    requires s.Has(id) && s.Has(k) && Known(s) && i <= |s.scheduled| && Unique(s.scheduled) && id !in s.scheduled
    ensures PushedOnly(s, InsertLoop(s, id, i), id, s.scheduled[i..], k)
    ensures InsertLoop(s, id, i).blocks[k].primacy == s.blocks[k].primacy
    decreases |s.scheduled| - i
  {
    hide Outranks, Drop, InsertLoop, Unique, Scheduling, Overlap;
    if i == |s.scheduled| {
      LoopEnd(s, id);
      ArrivedQueue(s, id);
    } else {
      var e, q, q1 := s.scheduled[i], s.scheduled[i..], s.scheduled[i + 1..];
      TailAt(s.scheduled, i, k);
      if Overlap(s.events[id], s.events[e]) {
        var (sup, s1) := BlockSupersede(s, id, e);
        OverlapStep(s, id, i);
        OverlapTimes(s, id, i, k);
        ShelveKnown(s1, i);
        Dropped(s.scheduled, i);
        var t := Shelve(s1, e).(scheduled := Drop(s.scheduled, i));
        assert s1.scheduled == s.scheduled;
        if !sup && s1.blocks[id].der == {} { YieldTimes(s1, id, q1, k); }
        hide Shelve, BlockSupersede, PushedOnly;
        if sup {
          LoopTimes(t, id, i, k);
          PastOverlap(s, t, InsertLoop(s, id, i), id, q, q1, e, k);
        } else if s1.blocks[id].der != {} {
          LoopTimes(s1, id, i + 1, k);
          PastOverlap(s, s1, InsertLoop(s, id, i), id, q, q1, e, k);
        } else {
          PastOverlap(s, s1, InsertLoop(s, id, i), id, q, q1, e, k);
        }
      } else {
        AbutStep(s, id, i);
        LoopTimes(Abut(s, id, e), id, i + 1, k);
        PastAbut(s, InsertLoop(s, id, i), id, q, q1, e, k);
      }
    }
  }

  lemma YieldTimes(s: State, id: Id, q: seq<Id>, k: Id)
    requires s.Has(id) && s.Has(k) && id !in s.scheduled
    ensures PushedOnly(s, Shelve(s, id), id, q, k)
  {
  }

  /** `insert_block` leaves the effective times of all blocks alone but for those that begin or
      end where the new event ends, which follow the new block's effective end. */
  lemma NeighboursFollow(s: State, id: Id, k: Id)
    requires s.Has(id) && s.Has(k) && Known(s) && Unique(s.scheduled) && id !in s.scheduled
    ensures var r, x, y := InsertBlock(s, id), s.events[id], s.events[k];
      && r.blocks[k].primacy == s.blocks[k].primacy
      && (k !in s.scheduled ==> Times(r.blocks[k]) == Times(s.blocks[k]))
      && (k in s.scheduled && id in r.scheduled ==>
            if Meets(x, y) then Times(r.blocks[k]) == Times(s.blocks[k])
            else if x.start + x.duration == y.start then Times(r.blocks[k]) == (s.blocks[id].end, s.blocks[k].end)
            else if x.start + x.duration == y.start + y.duration then Times(r.blocks[k]) == (s.blocks[k].start, s.blocks[id].end)
            else Times(r.blocks[k]) == Times(s.blocks[k]))
  {
    LoopTimes(Unmet(s, id), id, 0, k);
    OverlapExactly(s.events[id], s.events[k]);
    assert s.scheduled[0..] == s.scheduled;
    hide InsertLoop, Overlap, Meets;
  }

  /** A new block has the times of its event, moved by the offsets drawn for it, and the
      primacy of its program; if it is over by then it is completed and goes nowhere. */
  lemma NewBlockTimes(s: State, id: Id, primacy: nat, now: int)
    requires id in s.events && id !in s.blocks && Known(s) && Unique(s.scheduled)
    ensures var e, r := s.events[id], ScheduleEvent(s, id, primacy, now);
      var start := e.start + e.randStart;
      var end := start + e.duration + e.randDuration;
      && Times(r.blocks[id]) == (start, end) && r.blocks[id].primacy == primacy
      && (end <= now ==> r.blocks[id].status.Completed? && r == s.(blocks := r.blocks) && r.blocks == s.blocks[id := r.blocks[id]])
  {
    var b := NewBlock(s.events[id], primacy);
    var t := s.Set(id, b);
    assert id !in t.scheduled && id !in t.active;
    if b.end > now && s.events[id].status.Scheduled? {
      NeighboursFollow(t, id, id);
      hide InsertBlock;
    } else if b.end > now && s.events[id].status.Active? {
      ActiveTimes(t.Set(id, t.blocks[id].(der := t.events[id].mask)), id, t.active, id);
      hide ActiveLoop;
    } else {
      hide InsertBlock, InsertActive;
    }
  }

  // ---- the active queue ----

  /** The loop of `insert_active` changes no start and no primacy, and no end outside `rest`. */
  lemma {:induction false} ActiveTimes(s: State, id: Id, rest: seq<Id>, k: Id)
    requires s.Has(id) && s.Has(k) && Known(s) && AllIn(s, rest)
    ensures var b, c := ActiveLoop(s, id, rest).blocks[k], s.blocks[k];
      b.start == c.start && b.primacy == c.primacy && (k !in rest ==> b.end == c.end)
    decreases |rest|
  {
    hide Outranks, ActiveLoop, InsertSorted;
    if rest == [] {
      ActiveEnd(s, id);
    } else {
      var (sup, s1) := BlockSupersede(s, id, rest[0]);
      ActiveStep(s, id, rest);
      assert rest == [rest[0]] + rest[1..];
      if sup {
        ActiveTimes(Displace(s1, rest[0], s1.blocks[id].start).(active := rest[1..]), id, rest[1..], k);
      } else if s1.blocks[id].der != {} {
        ActiveTimes(s1, id, rest[1..], k);
      }
    }
  }

  /** The new block: superseded without anything if it gives up; else with all that those it
      does not outrank leave it, active or waiting as the server has it. */
  ghost predicate OwnFate(s: State, id: Id, b: Block)
    requires Separate(s, id)
  {
    var was, e := s.blocks[id], s.events[id];
    if GivesUp(s, id) then b == was.(der := {}, status := Superseded)
    else
      b == was.(der := e.mask - Held(s, id, |s.active|),
                status := if e.status.Scheduled? then ActiveWait else if e.status.Active? then Active else was.status)
  }

  /** An active block: superseded, and over when the new one starts, if it is struck; else, if it
      is outranked and the new block gets as far, without the bits of the new event. */
  ghost predicate Fate(s: State, id: Id, k: nat, b: Block)
    requires Separate(s, id) && k < |s.active|
  {
    var was := s.blocks[s.active[k]];
    if Strikes(s, id, k) then b.status.Superseded? && Times(b) == (was.start, s.blocks[id].start) && b.primacy == was.primacy
    else if Outranks(s, id, s.active[k]) && !GivesUpBefore(s, id, k) then b == was.(der := was.der - s.events[id].mask)
    else b == was
  }

  ghost predicate Told(s: State, r: State, id: Id, n: nat)
    requires Separate(s, id)
  {
    && r.blocks.Keys == s.blocks.Keys && OwnFate(s, id, r.blocks[id])
    && forall k :: n <= k < |s.active| ==> Fate(s, id, k, r.blocks[s.active[k]])
  }

  /** One round of the loop, and what becomes of the block it meets. */
  lemma RoundFate(s0: State, s: State, id: Id, n: nat)
    requires Separate(s0, id) && Reached(s0, s, id, n) && n < |s0.active|
    ensures var a := s0.active[n];
      var (sup, s1) := BlockSupersede(s, id, a);
      var t := if sup then Displace(s1, a, s1.blocks[id].start).(active := s0.active[n + 1..]) else s1;
      && t.Has(a)
      && (sup <==> Strikes(s0, id, n))
      && (sup || s1.blocks[id].der != {} ==> Fate(s0, id, n, t.blocks[a]) && Reached(s0, t, id, n + 1))
      && (!sup && s1.blocks[id].der == {} ==> GivesUpAt(s0, id, n) && s1 == s.Set(id, s0.blocks[id].(der := {})))
  {
    var a := s0.active[n];
    assert a != id && Outranks(s, id, a) == Outranks(s0, id, a);
    if Outranks(s0, id, a) {
      Over(s0, s, id, n);
      HeldWithin(s0, id, n, s0.blocks[a].der);
      MinusHeld(s0.blocks[a].der, s0.events[id].mask, Held(s0, id, n));
      hide Held, Reached, GivesUpBefore, Outranks, Strikes;
      assert s.blocks[a] == s0.blocks[a] && s.blocks[id] == s0.blocks[id].(der := s0.events[id].mask - Held(s0, id, n)) by { ReachedOwn(s0, s, id, n); }
    } else {
      Under(s0, s, id, n);
      hide Held, Reached, GivesUpBefore, Outranks, Strikes, GivesUpAt;
      ReachedOwn(s0, s, id, n);
    }
  }

  lemma ReachedOwn(s0: State, s: State, id: Id, n: nat)
    requires Separate(s0, id) && Reached(s0, s, id, n) && n < |s0.active|
    ensures s.blocks[s0.active[n]] == s0.blocks[s0.active[n]]
    ensures s.blocks[id] == s0.blocks[id].(der := s0.events[id].mask - Held(s0, id, n))
  {
  }

  lemma MinusHeld(x: Mask, mask: Mask, held: Mask)
    requires x !! held
    ensures x - (mask - held) == x - mask
  {
  }

  lemma {:induction false} LoopTold(s0: State, s: State, id: Id, n: nat)
    requires Separate(s0, id) && Reached(s0, s, id, n)
    ensures AllIn(s, s0.active[n..]) && Told(s0, ActiveLoop(s, id, s0.active[n..]), id, n)
    decreases |s0.active| - n
  {
    var rest := s0.active[n..];
    assert forall i :: 0 <= i < |rest| ==> rest[i] == s0.active[n + i] && s.Has(rest[i]);
    assert Known(s) && s.Has(id) && AllIn(s, rest);
    hide ActiveLoop, Outranks, BlockSupersede, Displace, Told, Fate, GivesUpAt, Reached, Separate, Known;
    if n == |s0.active| {
      AdmitTold(s0, s, id);
    } else {
      var a := s0.active[n];
      assert rest[0] == a && rest[1..] == s0.active[n + 1..];
      var (sup, s1) := BlockSupersede(s, id, a);
      var t := if sup then Displace(s1, a, s1.blocks[id].start).(active := rest[1..]) else s1;
      RoundFate(s0, s, id, n);
      ActiveStep(s, id, rest);
      if sup || s1.blocks[id].der != {} {
        LoopTold(s0, t, id, n + 1);
        FateStays(s0, t, id, n);
      } else {
        NothingMoreTold(s0, s, id, n);
      }
    }
  }

  /** What comes later leaves the block at `n` as it is. */
  lemma FateStays(s0: State, t: State, id: Id, n: nat)
    requires Separate(s0, id) && n < |s0.active| && Reached(s0, t, id, n + 1) && t.Has(s0.active[n])
    requires Fate(s0, id, n, t.blocks[s0.active[n]])
    requires AllIn(t, s0.active[n + 1..]) && Told(s0, ActiveLoop(t, id, s0.active[n + 1..]), id, n + 1)
    ensures Told(s0, ActiveLoop(t, id, s0.active[n + 1..]), id, n)
  {
    hide Fate, ActiveLoop, GivesUpBefore, Held, OwnFate;
    var a, rest := s0.active[n], s0.active[n + 1..];
    assert a in s0.active && a != id;
    assert a !in rest;
    ActiveElsewhere(t, id, rest, a);
  }

  lemma AdmitTold(s0: State, s: State, id: Id)
    requires Separate(s0, id) && Reached(s0, s, id, |s0.active|)
    ensures Told(s0, ActiveLoop(s, id, []), id, |s0.active|)
  {
    hide Outranks, InsertSorted, GivesUpBefore;
  }

  lemma NothingMoreTold(s0: State, s: State, id: Id, n: nat)
    requires Separate(s0, id) && Reached(s0, s, id, n) && n < |s0.active| && GivesUpAt(s0, id, n)
    ensures Told(s0, s.Set(id, s0.blocks[id].(der := {}, status := Superseded)), id, n)
  {
    hide GivesUpAt, Held, Outranks;
    forall k | n <= k < |s0.active|
      ensures s0.active[k] != id && !Strikes(s0, id, k) && (k == n ==> !Outranks(s0, id, s0.active[k])) && (k > n ==> GivesUpBefore(s0, id, k))
    {
      assert s0.active[k] in s0.active;
      NotOutranked(s0, id, n);
      if k > n { assert GivesUpBefore(s0, id, k); }
    }
    assert GivesUp(s0, id);
    hide Strikes, GivesUp, GivesUpBefore;
  }

  lemma NotOutranked(s: State, id: Id, n: nat)
    requires s.Has(id) && AllIn(s, s.active) && n < |s.active| && GivesUpAt(s, id, n)
    ensures !Outranks(s, id, s.active[n])
  {
  }

  /** One call of `insert_active`: what becomes of the new block, of every active one and of
      the others. */
  lemma InsertActiveTold(s: State, id: Id)
    requires Separate(s, id)
    ensures var r := InsertActive(s, id);
      && OwnFate(s, id, r.blocks[id])
      && (forall k :: 0 <= k < |s.active| ==> Fate(s, id, k, r.blocks[s.active[k]]))
      && (forall k :: k in s.blocks && k != id && k !in s.active ==> r.blocks[k] == s.blocks[k])
  {
    var t := s.Set(id, s.blocks[id].(der := s.events[id].mask));
    assert s.active[0..] == s.active;
    assert s.events[id].mask - Held(s, id, 0) == s.events[id].mask;
    assert forall k :: 0 <= k < |s.active| ==> s.active[k] != id;
    assert Reached(s, t, id, 0);
    LoopTold(s, t, id, 0);
    hide OwnFate, Fate, ActiveLoop, Reached;
    forall k | k in s.blocks && k != id && k !in s.active ensures InsertActive(s, id).blocks[k] == s.blocks[k] {
      ActiveElsewhere(t, id, s.active, k);
    }
  }

  // ---- an update ----

  /** The ends queued for those of `q` that are active, in order. */
  function EndsOf(s: State, q: seq<Id>): seq<Ev>
    requires AllIn(s, q)
  {
    if q == [] then []
    else (if s.blocks[q[0]].status.Active? then [Ev(OfBlock(q[0]), EventEnd, 0)] else []) + EndsOf(s, q[1..])
  }

  lemma {:induction false} EndsSame(s: State, t: State, q: seq<Id>)
    requires AllIn(s, q) && AllIn(t, q) && forall k :: k in q ==> t.blocks[k] == s.blocks[k]
    ensures EndsOf(s, q) == EndsOf(t, q)
    decreases |q|
  {
    if q != [] {
      assert forall k :: k in q[1..] ==> k in q;
      EndsSame(s, t, q[1..]);
    }
  }

  /** The first `n` of the active queue are over, and the next is not. */
  ghost predicate OverFirst(s: State, now: int, n: nat)
    requires Known(s)
  {
    && n <= |s.active| && (forall i :: 0 <= i < n ==> s.blocks[s.active[i]].end <= now)
    && (n < |s.active| ==> now < s.blocks[s.active[n]].end)
  }

  /** They are finished, each with an end if it had started, and nothing else changes. */
  ghost predicate Expired(s: State, r: State, done: seq<Id>, rest: seq<Id>)
    requires AllIn(s, done)
  {
    && r.active == rest && r.scheduled == s.scheduled && r.superseded == s.superseded && r.timed == s.timed
    && r.blocks.Keys == s.blocks.Keys && r.im == s.im + EndsOf(s, done)
    && (forall k :: k in s.blocks ==> r.blocks[k] == if k in done then s.blocks[k].(status := Completed) else s.blocks[k])
  }

  /** An update finishes exactly those at the head of the active queue that are over. */
  lemma {:induction false} ExpiredExactly(s: State, now: int) returns (n: nat)
    requires Known(s) && Unique(s.active)
    ensures OverFirst(s, now, n) && AllIn(s, s.active[..n])
    ensures Expired(s, Expire(s, now), s.active[..n], s.active[n..])
    decreases |s.active|
  {
    if s.active == [] || s.blocks[s.active[0]].end > now {
      n := 0;
      NoneExpired(s);
    } else {
      var t := Finish(s, s.active[0]).(active := s.active[1..]);
      TailUnique(s.active);
      hide Expired, EndsOf, Unique, Finish;
      var m := ExpiredExactly(t, now);
      n := m + 1;
      ExpireMore(s, Expire(t, now), now, m);
    }
  }

  lemma ExpireMore(s: State, r: State, now: int, m: nat)
    requires Known(s) && s.active != [] && Unique(s.active) && s.blocks[s.active[0]].end <= now
    requires var t := Finish(s, s.active[0]).(active := s.active[1..]);
      Known(t) && OverFirst(t, now, m) && AllIn(t, s.active[1..][..m]) && Expired(t, r, s.active[1..][..m], s.active[1..][m..])
    ensures OverFirst(s, now, m + 1) && AllIn(s, s.active[..m + 1])
    ensures Expired(s, r, s.active[..m + 1], s.active[m + 1..])
  {
    var a, rest := s.active[0], s.active[1..];
    var t := Finish(s, a).(active := rest);
    FinishIs(s, a);
    TailUnique(s.active);
    hide Finish, Expired, EndsOf, Unique;
    OneMoreOver(s, t, now, m);
    hide Known, OverFirst;
    assert s.active[..m + 1] == [a] + rest[..m] && s.active[m + 1..] == rest[m..];
    HeadNot(a, rest, m);
    OneMoreExpired(s, t, r, a, rest[..m], rest[m..]);
  }

  lemma NoneExpired(s: State)
    ensures Expired(s, s, s.active[..0], s.active[0..])
  {
    assert s.im + [] == s.im;
  }

  lemma HeadNot(a: Id, q: seq<Id>, m: nat)
    requires a !in q && m <= |q|
    ensures a !in q[..m]
  {
  }

  lemma OneMoreOver(s: State, t: State, now: int, m: nat)
    requires Known(s) && Known(t) && s.active != [] && t.active == s.active[1..] && s.active[0] !in t.active
    requires s.blocks[s.active[0]].end <= now && OverFirst(t, now, m)
    requires forall k :: k in s.blocks && k != s.active[0] ==> k in t.blocks && t.blocks[k] == s.blocks[k]
    ensures OverFirst(s, now, m + 1) && AllIn(s, s.active[..m + 1]) && AllIn(s, s.active[1..][..m])
  {
    assert forall i :: 0 < i < |s.active| ==> s.active[i] == t.active[i - 1] && s.active[i] in t.active;
  }

  lemma FinishIs(s: State, a: Id)
    requires s.Has(a)
    ensures var t := Finish(s, a);
      && t.events == s.events && t.blocks == s.blocks[a := s.blocks[a].(status := Completed)]
      && t.scheduled == s.scheduled && t.superseded == s.superseded && t.timed == s.timed
      && t.im == s.im + if s.blocks[a].status.Active? then [Ev(OfBlock(a), EventEnd, 0)] else []
  {
  }

  lemma TailUnique(q: seq<Id>)
    requires q != [] && Unique(q)
    ensures Unique(q[1..]) && q[0] !in q[1..]
  {
    var t := q[1..];
    forall i | 0 <= i < |t| ensures t[i] != q[0] { assert t[i] == q[i + 1]; }
  }

  lemma OneMoreExpired(s: State, t: State, r: State, a: Id, done: seq<Id>, rest: seq<Id>)
    requires s.Has(a) && AllIn(s, done) && AllIn(t, done) && a !in done && Expired(t, r, done, rest)
    requires t.blocks == s.blocks[a := s.blocks[a].(status := Completed)]
    requires t.scheduled == s.scheduled && t.superseded == s.superseded && t.timed == s.timed
    requires t.im == s.im + if s.blocks[a].status.Active? then [Ev(OfBlock(a), EventEnd, 0)] else []
    ensures AllIn(s, [a] + done) && Expired(s, r, [a] + done, rest)
  {
    EndsSame(s, t, done);
    AllInMore(s, a, done);
    EndsMore(s, a, done);
    hide EndsOf, AllIn;
  }

  lemma AllInMore(s: State, a: Id, q: seq<Id>)
    requires s.Has(a) && AllIn(s, q)
    ensures AllIn(s, [a] + q) && forall k :: k in [a] + q <==> k == a || k in q
  {
  }

  lemma EndsMore(s: State, a: Id, q: seq<Id>)
    requires s.Has(a) && AllIn(s, q) && AllIn(s, [a] + q)
    ensures s.im + EndsOf(s, [a] + q) == s.im + (if s.blocks[a].status.Active? then [Ev(OfBlock(a), EventEnd, 0)] else []) + EndsOf(s, q)
  {
    assert ([a] + q)[1..] == q;
    var one := if s.blocks[a].status.Active? then [Ev(OfBlock(a), EventEnd, 0)] else [];
    assert EndsOf(s, [a] + q) == one + EndsOf(s, q);
    hide EndsOf;
    assert s.im + (one + EndsOf(s, q)) == s.im + one + EndsOf(s, q);
  }

  // ---- promotion ----

  lemma PromoteOneTimes(s: State, k: Id)
    requires Known(s) && s.scheduled != [] && s.Has(k)
    ensures PromoteOne(s).blocks[k].start == s.blocks[k].start && (k !in s.active ==> PromoteOne(s).blocks[k].end == s.blocks[k].end)
  {
    var e := s.scheduled[0];
    var u := s.(scheduled := s.scheduled[1..]);
    ActiveTimes(u.Set(e, s.blocks[e].(der := s.events[e].mask)), e, s.active, k);
    hide ActiveLoop;
  }

  /** The first `n` of the scheduled queue are due, and the next is not. */
  ghost predicate DueFirst(s: State, now: int, n: nat)
    requires Known(s)
  {
    && n <= |s.scheduled| && (forall i :: 0 <= i < n ==> s.blocks[s.scheduled[i]].start <= now)
    && (n < |s.scheduled| ==> now < s.blocks[s.scheduled[n]].start)
  }

  /** An update takes exactly those out of the scheduled queue, from its head on, that are due. */
  lemma {:induction false} PromotedExactly(s: State, now: int, last: int) returns (n: nat)
    requires Known(s)
    ensures DueFirst(s, now, n) && Promote(s, now, last).0.scheduled == s.scheduled[n..]
    decreases |s.scheduled|
  {
    if s.scheduled == [] || s.blocks[s.scheduled[0]].start > now {
      n := 0;
    } else {
      var t := PromoteOne(s);
      forall k | s.Has(k) ensures t.Has(k) && t.blocks[k].start == s.blocks[k].start { PromoteOneTimes(s, k); }
      hide PromoteOne, DueFirst, InsertActive;
      var m := PromotedExactly(t, now, Earlier(last, t.blocks[s.scheduled[0]].end));
      n := m + 1;
      OneMoreDue(s, t, now, m);
      assert s.scheduled[1..][m..] == s.scheduled[n..];
    }
  }

  lemma OneMoreDue(s: State, t: State, now: int, m: nat)
    requires Known(s) && Known(t) && s.scheduled != [] && t.scheduled == s.scheduled[1..] && DueFirst(t, now, m)
    requires s.blocks[s.scheduled[0]].start <= now && forall k :: s.Has(k) ==> t.Has(k) && t.blocks[k].start == s.blocks[k].start
    ensures DueFirst(s, now, m + 1)
  {
    assert forall i :: 0 < i < |s.scheduled| ==> s.scheduled[i] == t.scheduled[i - 1];
  }

  // ---- the next update ----

  /** No time, or a start or an end of a block. */
  ghost predicate Instant(s: State, t: int) {
    t == 0 || exists k :: k in s.blocks && (t == s.blocks[k].start || t == s.blocks[k].end)
  }

  /** Blocks keep their starts, and those of `q` their ends. */
  ghost predicate TimesKept(s: State, r: State, q: seq<Id>) {
    && r.blocks.Keys == s.blocks.Keys && (forall k :: k in s.blocks ==> r.blocks[k].start == s.blocks[k].start)
    && (forall k :: k in q ==> k in s.blocks && r.blocks[k].end == s.blocks[k].end)
  }

  lemma EarlierInstant(s: State, a: int, b: int)
    requires Instant(s, a) && Instant(s, b)
    ensures Instant(s, Earlier(a, b))
  {
    hide Instant;
  }

  lemma {:induction false} ExpireTimes(s: State, now: int)
    requires Known(s)
    ensures var r := Expire(s, now);
      && r.blocks.Keys == s.blocks.Keys && r.scheduled == s.scheduled
      && forall k :: k in s.blocks ==> Times(r.blocks[k]) == Times(s.blocks[k])
    decreases |s.active|
  {
    if s.active != [] && s.blocks[s.active[0]].end <= now {
      FinishIs(s, s.active[0]);
      hide Finish;
      ExpireTimes(Finish(s, s.active[0]).(active := s.active[1..]), now);
    }
  }

  /** A promotion leaves the times of those that are still scheduled. */
  lemma PromoteOneKeeps(s: State)
    requires Good(s) && s.scheduled != []
    ensures Known(s) && TimesKept(s, PromoteOne(s), s.scheduled)
  {
    assert Known(s) && forall k :: k in s.scheduled ==> k !in s.active;
    hide Good, PromoteOne;
    forall k | k in s.blocks
      ensures PromoteOne(s).blocks[k].start == s.blocks[k].start && (k !in s.active ==> PromoteOne(s).blocks[k].end == s.blocks[k].end)
    {
      GoodHas(s, k);
      PromoteOneTimes(s, k);
    }
  }

  lemma GoodHas(s: State, k: Id)
    requires Good(s) && k in s.blocks
    ensures s.Has(k)
  {
  }

  lemma PromoteOneGood(s: State)
    requires Good(s) && s.scheduled != []
    ensures Known(s) && Good(PromoteOne(s))
  {
    TakeGood(s);
    GoodKnown(s);
    hide Good, InsertActive;
    InsertActiveGood(s.(scheduled := s.scheduled[1..]), s.scheduled[0]);
  }

  lemma {:induction false} PromoteInstant(s0: State, s: State, now: int, last: int)
    requires Good(s) && Known(s) && TimesKept(s0, s, s.scheduled) && Instant(s0, last)
    ensures var (r, l) := Promote(s, now, last); Instant(s0, l) && r.blocks.Keys == s0.blocks.Keys && TimesKept(s0, r, [])
    decreases |s.scheduled|
  {
    hide Good, PromoteOne, Known, Instant;
    if s.scheduled != [] {
      var e := s.scheduled[0];
      InstantOf(s0, s, e);
      if s.blocks[e].start > now {
        EarlierInstant(s0, last, s.blocks[e].start);
      } else {
        var t := PromoteOne(s);
        PromoteOneKeeps(s);
        PromoteOneGood(s);
        InstantOf(s0, t, e);
        EarlierInstant(s0, last, t.blocks[e].end);
        assert forall k :: k in t.scheduled ==> k in s.scheduled;
        PromoteInstant(s0, t, now, Earlier(last, t.blocks[e].end));
      }
    }
  }

  lemma InstantOf(s0: State, s: State, e: Id)
    requires e in s0.blocks && e in s.blocks && s.blocks[e].start == s0.blocks[e].start
    ensures Instant(s0, s.blocks[e].start) && (s.blocks[e].end == s0.blocks[e].end ==> Instant(s0, s.blocks[e].end))
  {
  }

  lemma {:induction false} GiveUpInstant(s0: State, s: State, now: int, last: int)
    requires Known(s) && TimesKept(s0, s, []) && Instant(s0, last)
    ensures Instant(s0, GiveUp(s, now, last).1)
    decreases |s.superseded|
  {
    hide Instant;
    if s.superseded != [] {
      var e := s.superseded[0];
      InstantOf(s0, s, e);
      EarlierInstant(s0, last, s.blocks[e].start);
      if s.blocks[e].start <= now {
        GiveUpInstant(s0, s.(blocks := s.blocks[e := s.blocks[e].(status := Superseded)], superseded := s.superseded[1..]), now, last);
      }
    }
  }

  /** An update leaves the schedule to be woken at no time but the start or the end of a block. */
  lemma WokenForSomething(s: State, now: int)
    requires Good(s)
    ensures Known(s) && Instant(s, UpdateSchedule(s, now).next)
  {
    GoodKnown(s);
    hide Good, Known, Expire, Promote, GiveUp, Instant, Rearm;
    var a := Expire(s, now);
    ExpireGood(s, now);
    GoodKnown(a);
    ExpireTimes(s, now);
    var l0 := if a.active == [] then 0 else a.blocks[a.active[0]].end;
    FirstInstant(s, a);
    var (b, l1) := Promote(a, now, l0);
    StillKept(s, a);
    PromoteInstant(s, a, now, l0);
    GiveUpInstant(s, b, now, l1);
    var (c, l2) := GiveUp(b, now, l1);
    RearmNext(c, l2);
  }

  lemma FirstInstant(s: State, a: State)
    requires Known(a) && a.blocks.Keys == s.blocks.Keys && forall k :: k in s.blocks ==> Times(a.blocks[k]) == Times(s.blocks[k])
    ensures Instant(s, if a.active == [] then 0 else a.blocks[a.active[0]].end)
  {
    if a.active != [] { InstantOf(s, a, a.active[0]); }
  }

  lemma StillKept(s: State, a: State)
    requires Known(a) && a.blocks.Keys == s.blocks.Keys && forall k :: k in s.blocks ==> Times(a.blocks[k]) == Times(s.blocks[k])
    ensures TimesKept(s, a, a.scheduled)
  {
  }

  lemma RearmNext(s: State, last: int)
    requires Known(s)
    ensures Rearm(s, last).next == last
  {
  }

  // ---- pending events ----

  /** A timed event goes behind those that are earlier, and in front of the first that is not. */
  lemma {:induction false} TimedPlaced(q: seq<Ev>, e: Ev) returns (f: seq<Ev>, b: seq<Ev>)
    ensures q == f + b && InsertTimed(q, e) == f + [e] + b
    ensures forall i :: 0 <= i < |f| ==> Narrow(e.time - f[i].time) > 0
    ensures b != [] ==> Narrow(e.time - b[0].time) <= 0
  {
    hide Narrow;
    if q == [] || Narrow(e.time - q[0].time) <= 0 {
      f, b := [], q;
    } else {
      var g, c := TimedPlaced(q[1..], e);
      f, b := [q[0]] + g, c;
      assert q == [q[0]] + q[1..] && [q[0]] + (g + [e] + c) == f + [e] + b;
    }
  }

  /** What a round hands out is waiting: the oldest immediate event, or, if there is none, the
      first timed one, and that not before its time. */
  lemma HandedInTime(s: State, now: int, default: bool)
    requires Known(s) && Allowed(s, Wake(now, default))
    ensures if s.im != [] then HandedBy(s, Wake(now, default)) == [s.im[0]]
      else s.timed != [] && s.timed[0].time <= now && HandedBy(s, Wake(now, default)) == [s.timed[0]]
  {
  }

  // ---- the server's reports ----

  /** The other blocks stay as they are. */
  predicate Only(s: State, r: State, id: Id) {
    r.blocks.Keys == s.blocks.Keys && forall k :: k in s.blocks && k != id ==> r.blocks[k] == s.blocks[k]
  }

  /** An event reported as canceled or superseded: its block has that status, and if it was
      active it ends now, with an end waiting behind all else and nothing else of it. */
  lemma ReportedOver(s: State, id: Id, status: Status, now: int)
    requires Known(s) && s.Has(id) && status.Server() && !status.Live()
    ensures var b, r := s.blocks[id], Next(s, Report(id, status, now));
      && r.blocks[id] == b.(status := status, end := if b.status.Active? then now else b.end) && Only(s, r, id)
      && r.im == (if b.status.Active? then Without(s.im, OfBlock(id)) + [Ev(OfBlock(id), EventEnd, 0)] else s.im)
  {
    hide Without, InsertTimed, Remove;
  }

  /** An event reported as active: its block starts if it has been waiting for that. */
  lemma ReportedActive(s: State, id: Id, now: int)
    requires Known(s) && s.Has(id)
    ensures var b, r := s.blocks[id], Next(s, Report(id, Active, now));
      && r.blocks[id] == (if b.status.ActiveWait? then b.(status := Active) else b) && Only(s, r, id)
      && r.im == s.im + (if b.status.ActiveWait? then [Ev(OfBlock(id), EventStart, 0)] else []) && r.timed == s.timed
  {
    assert s.im + [] == s.im;
  }

  /** An event reported as scheduled is asked for again: at this time, with the clock set back
      a second, or in a second if that has been done at this time already. */
  lemma ReportedScheduled(s: State, id: Id, now: int)
    requires Known(s) && s.Has(id) && 0 < now
    ensures var r := Next(s, Report(id, Scheduled, now));
      && r.blocks == s.blocks && r.im == s.im
      && (s.sync != now ==> Ev(OfEvent(id), ResourceUpdate, now) in r.timed && r.sync == now - 1)
      && (s.sync == now ==> Ev(OfEvent(id), ResourceUpdate, now + 1) in r.timed && r.sync == now)
      && |r.timed| == |s.timed| + 1
  {
    var e := Ev(OfEvent(id), ResourceUpdate, if s.sync != now then now else now + 1);
    var f, b := TimedPlaced(s.timed, e);
    assert (f + [e] + b)[|f|] == e;
    hide InsertTimed;
  }

  // ---- rebuilds ----

  lemma {:induction false} QueuesListed(s: State, cs: seq<Control>, now: int, k: Id)
    requires Known(s) && Listed(s, cs) && Queueing(ScheduleEvents(s, cs, now), k)
    ensures Queueing(s, k) || k in Ids(cs)
    decreases |cs|
  {
    hide Queueing, ScheduleEvent;
    if cs != [] {
      var t := ScheduleEvent(s, cs[0].id, cs[0].primacy, now);
      QueuesListed(t, cs[1..], now, k);
      ScheduleEventConfined(s, cs[0].id, cs[0].primacy, now);
      assert Ids(cs) == [cs[0].id] + Ids(cs[1..]);
    }
  }

  /** After a rebuild no block is in a queue but those of the listed controls. */
  lemma OnlyListed(s: State, gone: seq<Id>, cs: seq<Control>, now: int, k: Id)
    requires AllIn(s, gone) && Listed(s, cs) && Queueing(Rebuild(s, gone, cs, now), k)
    ensures k in Ids(cs)
  {
    QueuesListed(Emptied(s, gone, now), cs, now, k);
  }

  /** A rebuild announces itself behind all else: first the update, then the device's schedule. */
  lemma Announces(s: State, gone: seq<Id>, cs: seq<Control>, now: int)
    requires AllIn(s, gone) && Listed(s, cs)
    ensures var im := Rebuild(s, gone, cs, now).im;
      |im| >= 2 && im[|im| - 2..] == [Ev(TheSchedule, ScheduleUpdate, 0), Ev(OfDevice, DeviceSchedule, 0)]
  {
    var q := ScheduleEvents(Emptied(s, gone, now), cs, now).im;
    assert Rebuild(s, gone, cs, now).im == q + [Ev(TheSchedule, ScheduleUpdate, 0)] + [Ev(OfDevice, DeviceSchedule, 0)];
    hide Rebuild, ScheduleEvents;
  }

  /** A listed event that is canceled or superseded: its block, unless it is finished, has that
      status, and if it was active it ends now. */
  lemma ListedOver(s: State, id: Id, primacy: nat, now: int)
    requires Known(s) && s.Has(id) && s.events[id].status.Server() && !s.events[id].status.Live() && !s.blocks[id].status.Final()
    ensures var b, r := s.blocks[id], ScheduleEvent(s, id, primacy, now);
      && r.blocks[id] == b.(primacy := primacy, status := s.events[id].status, end := if b.status.Active? then now else b.end)
      && Only(s, r, id) && r.scheduled == s.scheduled && r.active == s.active && r.superseded == s.superseded
      && r.im == s.im + (if b.status.Active? then [Ev(OfBlock(id), EventEnd, 0)] else []) && r.timed == s.timed
  {
    assert s.im + [] == s.im;
    hide InsertBlock, InsertActive;
  }

  /** And one that is finished stays as it is, but for the primacy of its program. */
  lemma ListedFinished(s: State, id: Id, primacy: nat, now: int)
    requires Known(s) && s.Has(id) && s.blocks[id].status.Final()
    ensures ScheduleEvent(s, id, primacy, now) == s.(blocks := s.blocks[id := s.blocks[id].(primacy := primacy)])
  {
    hide InsertBlock, InsertActive;
  }

  /** A comparator's difference of two times is taken as an `int` of 32 bits. */
  lemma ComparedAs(x: int)
    ensures -0x8000_0000 <= Narrow(x) < 0x8000_0000 && (Narrow(x) - x) % 0x1_0000_0000 == 0
  {
    var q := (x + 0x8000_0000) / 0x1_0000_0000;
    assert Narrow(x) - x == -q * 0x1_0000_0000;
  }
}
