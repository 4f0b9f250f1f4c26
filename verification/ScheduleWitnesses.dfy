/**
 Runs from the empty schedule that show where it falls short of its rules: a block that
 starts twice, one that never ends, one lost with its control, one given up late, and an
 end handed out without its start.
 */
module ScheduleWitnesses {
  import opened Common
  import opened Schedule
  import opened ScheduleSafety
  import opened ScheduleTally
  import opened ScheduleHandout

  // ---- runs put together ----

  lemma {:induction false} RunOn(s: State, a: seq<Step>, b: seq<Step>)
    requires Known(s) && Possible(s, a) && Possible(Run(s, a), b)
    ensures Possible(s, a + b) && Run(s, a + b) == Run(Run(s, a), b)
    decreases |a|
  {
    hide Next, Known, Allowed;
    if a == [] {
      assert a + b == b;
    } else {
      RunOn(Next(s, a[0]), a[1..], b);
      assert (a + b)[1..] == a[1..] + b;
    }
  }

  // ---- an event taken back ----

  const AGAIN := Reschedule([], [Control(0, 2)], 20)
  const RUNNING := Event(10, 100, 1, {0}, 0, 0, Active)
  const BEGIN := Ev(OfBlock(0), EventStart, 0)

  /** One event and its block. */
  predicate Single(s: State, event: Status, block: Status, log: seq<Ev>) {
    && Known(s) && s.events == map[0 := RUNNING.(status := event)]
    && s.blocks.Keys == {0} && s.blocks[0].status == block && s.log == log
  }

  lemma Comes()
    ensures Possible(START, [Arrive(0, RUNNING)])
    ensures Run(START, [Arrive(0, RUNNING)]) == START.(events := map[0 := RUNNING])
  {
    assert [Arrive(0, RUNNING)][1..] == [];
  }

  lemma FirstTime(s: State)
    requires s == START.(events := map[0 := RUNNING])
    ensures Possible(s, [AGAIN]) && Single(Run(s, [AGAIN]), Active, Active, [BEGIN])
  {
    assert [AGAIN][1..] == [];
    assert Next(s, AGAIN).active == [0];
  }

  lemma Told(s: State, event: Status, block: Status, to: Status, log: seq<Ev>)
    requires Single(s, event, block, log) && to.Live() && (block.Active? || block.Scheduled?)
    ensures Possible(s, [Report(0, to, 20)]) && Single(Run(s, [Report(0, to, 20)]), to, block, log)
  {
    hide InsertTimed;
    assert [Report(0, to, 20)][1..] == [];
    var r := Next(s, Report(0, to, 20));
    assert r.events == map[0 := RUNNING.(status := to)];
  }

  lemma PutBack(s: State)
    requires Single(s, Scheduled, Active, [BEGIN])
    ensures Possible(s, [AGAIN]) && Single(Run(s, [AGAIN]), Scheduled, Scheduled, [BEGIN])
  {
    assert [AGAIN][1..] == [];
    assert Next(s, AGAIN).blocks[0].status.Scheduled?;
  }

  lemma SecondTime(s: State)
    requires Single(s, Active, Scheduled, [BEGIN])
    ensures Possible(s, [AGAIN]) && Single(Run(s, [AGAIN]), Active, Active, [BEGIN, BEGIN])
  {
    assert [AGAIN][1..] == [];
    assert Next(s, AGAIN).log == [BEGIN, BEGIN];
  }

  /** An event taken back from active to scheduled and made active again starts twice. */
  lemma TakenBackStartsTwice() returns (steps: seq<Step>)
    ensures Possible(START, steps)
    ensures StartAt(Run(START, steps).log, 0, 0) && StartAt(Run(START, steps).log, 0, 1)
  {
    hide Run, Possible, Next;
    steps := [Arrive(0, RUNNING)];
    Comes();
    FirstTime(Run(START, steps));
    RunOn(START, steps, [AGAIN]);
    steps := steps + [AGAIN];
    Told(Run(START, steps), Active, Active, Scheduled, [BEGIN]);
    RunOn(START, steps, [Report(0, Scheduled, 20)]);
    steps := steps + [Report(0, Scheduled, 20)];
    PutBack(Run(START, steps));
    RunOn(START, steps, [AGAIN]);
    steps := steps + [AGAIN];
    Told(Run(START, steps), Scheduled, Scheduled, Active, [BEGIN]);
    RunOn(START, steps, [Report(0, Active, 20)]);
    steps := steps + [Report(0, Active, 20)];
    SecondTime(Run(START, steps));
    RunOn(START, steps, [AGAIN]);
    steps := steps + [AGAIN];
  }

  // ---- an active block let go ----

  const SECOND := Ev(OfBlock(1), EventStart, 0)

  /** The first block, active, and a second event that has just arrived. */
  predicate Joined(s: State) {
    && Known(s) && s.events == map[0 := RUNNING, 1 := RUNNING]
    && s.blocks == map[0 := Block(Active, 2, {0}, 10, 110)] && s.log == [BEGIN]
  }

  lemma FirstBlock(s: State)
    requires s == START.(events := map[0 := RUNNING])
    ensures Possible(s, [AGAIN])
    ensures var r := Run(s, [AGAIN]); r.events == s.events && r.blocks == map[0 := Block(Active, 2, {0}, 10, 110)] && r.log == [BEGIN]
  {
    assert [AGAIN][1..] == [];
    var t := ScheduleEvent(s, 0, 2, 20);
    assert t.blocks == map[0 := Block(Active, 2, {0}, 10, 110)];
    assert [Control(0, 2)][1..] == [];
  }

  lemma Joins(s: State)
    requires Known(s) && s.events == map[0 := RUNNING] && s.blocks == map[0 := Block(Active, 2, {0}, 10, 110)] && s.log == [BEGIN]
    ensures Possible(s, [Arrive(1, RUNNING)]) && Joined(Run(s, [Arrive(1, RUNNING)]))
  {
    assert [Arrive(1, RUNNING)][1..] == [];
  }

  /** The second one, of higher primacy, is scheduled in front of the first. */
  const BOTH := Reschedule([], [Control(1, 1), Control(0, 2)], 20)

  lemma PlacedFirst(s: State)
    requires Joined(s) && s.active == []
    ensures var t := ScheduleEvent(s, 1, 1, 20);
      && t.events == s.events && t.active == [1] && t.log == [BEGIN, SECOND]
      && t.blocks == map[0 := Block(Active, 2, {0}, 10, 110), 1 := Block(Active, 1, {0}, 10, 110)]
  {
  }

  lemma PlacedSecond(s: State)
    requires Known(s) && s.events == map[0 := RUNNING, 1 := RUNNING] && s.active == [1]
    requires s.blocks == map[0 := Block(Active, 2, {0}, 10, 110), 1 := Block(Active, 1, {0}, 10, 110)]
    ensures var r := ScheduleEvent(s, 0, 2, 20); 0 in r.blocks && r.blocks[0].status.Superseded? && r.log == s.log
  {
    var t := s.Set(0, s.blocks[0].(der := {0}));
    assert {0} - {0} == {};
    assert BlockSupersede(t, 0, 1) == (false, t.Set(0, t.blocks[0].(der := {})));
    assert ActiveLoop(t, 0, [1]) == t.Set(0, t.blocks[0].(der := {}, status := Superseded));
    assert s.Set(0, s.blocks[0].(primacy := 2)) == s;
  }

  lemma Outranked(s: State)
    requires Joined(s)
    ensures Possible(s, [BOTH])
    ensures var r := Run(s, [BOTH]); 0 in r.blocks && r.blocks[0].status.Superseded? && r.log == [BEGIN, SECOND]
  {
    hide ScheduleEvent;
    var cs := [Control(1, 1), Control(0, 2)];
    assert cs[1..] == [Control(0, 2)] && cs[1..][1..] == [];
    assert Ids(cs) == [1, 0];
    var c := Cleared(s);
    PlacedFirst(c);
    PlacedSecond(ScheduleEvent(c, 1, 1, 20));
    assert [BOTH][1..] == [];
  }

  /** A block that has started is superseded by one of higher primacy, and never ends. */
  lemma LetGoNeverEnds() returns (steps: seq<Step>)
    ensures Possible(START, steps)
    ensures var s := Run(START, steps);
      && 0 in s.blocks && s.blocks[0].status.Superseded? && StartAt(s.log, 0, 0) && forall i :: !EndAt(s.log, 0, i)
  {
    hide Run, Possible, Next;
    steps := [Arrive(0, RUNNING)];
    Comes();
    FirstBlock(Run(START, steps));
    RunOn(START, steps, [AGAIN]);
    steps := steps + [AGAIN];
    Joins(Run(START, steps));
    RunOn(START, steps, [Arrive(1, RUNNING)]);
    steps := steps + [Arrive(1, RUNNING)];
    Outranked(Run(START, steps));
    RunOn(START, steps, [BOTH]);
    steps := steps + [BOTH];
  }

  // ---- three events ----

  predicate Fresh(s: State, a: Event, b: Event, c: Event) { s == START.(events := map[0 := a, 1 := b, 2 := c]) }

  function Arrivals(a: Event, b: Event, c: Event): seq<Step> { [Arrive(0, a), Arrive(1, b), Arrive(2, c)] }

  lemma ThreeCome(a: Event, b: Event, c: Event)
    requires a.status.Server() && b.status.Server() && c.status.Server()
    ensures Possible(START, Arrivals(a, b, c)) && Fresh(Run(START, Arrivals(a, b, c)), a, b, c)
  {
    var q := Arrivals(a, b, c);
    var s1 := START.(events := map[0 := a]);
    var s2 := START.(events := map[0 := a, 1 := b]);
    var s3 := START.(events := map[0 := a, 1 := b, 2 := c]);
    assert Next(START, q[0]) == s1 && Next(s1, q[1]) == s2 && Next(s2, q[2]) == s3;
    assert q[1..] == [q[1], q[2]] && q[1..][1..] == [q[2]] && q[1..][1..][1..] == [];
    assert Possible(s3, []) && Run(s3, []) == s3;
    assert Possible(s2, [q[2]]) && Run(s2, [q[2]]) == s3;
    assert Possible(s1, [q[1], q[2]]) && Run(s1, [q[1], q[2]]) == s3;
  }

  // ---- a block lost with its control ----

  const FIRST := Event(10, 100, 1, {0}, 0, 0, Active)
  const LONGER := Event(11, 200, 1, {1}, 0, 0, Active)
  const LATER := Event(12, 200, 2, {1}, 0, 0, Active)
  const SAME := Reschedule([], [Control(0, 1), Control(1, 1), Control(2, 1)], 20)

  lemma LosesFirst(s: State)
    requires Fresh(s, FIRST, LONGER, LATER)
    ensures var t := ScheduleEvent(s, 0, 1, 20);
      t.events == s.events && t.active == [0] && t.blocks == map[0 := Block(Active, 1, {0}, 10, 110)] && t.log == [BEGIN]
  {
  }

  /** A new block of an active event meets the active ones. */
  lemma NewActive(s: State, id: Id)
    requires Known(s) && id in s.events && id !in s.blocks && s.events[id].status.Active?
    requires var b := NewBlock(s.events[id], 1); b.end > 20
    ensures var t := s.Set(id, NewBlock(s.events[id], 1).(der := s.events[id].mask));
      ScheduleEvent(s, id, 1, 20) == ActiveLoop(t, id, s.active)
  {
    hide ActiveLoop;
    var b := NewBlock(s.events[id], 1);
    assert s.Set(id, b).Set(id, b.(der := s.events[id].mask)) == s.Set(id, b.(der := s.events[id].mask));
  }

  lemma Unchanged(s: State, k: Id)
    requires k in s.blocks
    ensures s.Set(k, s.blocks[k]) == s
  {
    assert s.blocks[k := s.blocks[k]] == s.blocks;
  }

  lemma MeetsFirst(t: State)
    requires Known(t) && t.events == map[0 := FIRST, 1 := LONGER, 2 := LATER] && t.active == [0] && t.log == [BEGIN]
    requires t.blocks == map[0 := Block(Active, 1, {0}, 10, 110), 1 := Block(Scheduled, 1, {1}, 11, 211)]
    ensures var r := ActiveLoop(t, 1, t.active);
      && r.events == t.events && r.active == [0, 1] && r.log == [BEGIN, SECOND]
      && r.blocks == map[0 := Block(Active, 1, {0}, 10, 110), 1 := Block(Active, 1, {1}, 11, 211)]
  {
    assert {1} - {0} == {1};
    Unchanged(t, 1);
    assert BlockSupersede(t, 1, 0) == (false, t);
    assert ActiveLoop(t, 1, [0]) == ActiveLoop(t, 1, []) == Admit(t, 1) by { assert [0][1..] == []; }
    hide ActiveLoop, BlockSupersede;
    LosesBehind(Activate(t, 1));
    hide InsertSorted;
  }

  lemma LosesSecond(s: State)
    requires Known(s) && s.events == map[0 := FIRST, 1 := LONGER, 2 := LATER] && s.active == [0]
    requires s.blocks == map[0 := Block(Active, 1, {0}, 10, 110)] && s.log == [BEGIN]
    ensures var t := ScheduleEvent(s, 1, 1, 20);
      && t.events == s.events && t.active == [0, 1] && t.log == [BEGIN, SECOND]
      && t.blocks == map[0 := Block(Active, 1, {0}, 10, 110), 1 := Block(Active, 1, {1}, 11, 211)]
  {
    hide ScheduleEvent, ActiveLoop;
    NewActive(s, 1);
    MeetsFirst(s.Set(1, Block(Scheduled, 1, {1}, 11, 211)));
  }

  lemma LosesBehind(s: State)
    requires 0 in s.blocks && 1 in s.blocks && s.blocks[0].end == 110 && s.blocks[1].end == 211
    ensures InsertSorted(Ends(s), [0], 1) == [0, 1]
  {
    assert [0][1..] == [];
    assert InsertSorted(Ends(s), [], 1) == [1];
  }

  /** The three blocks when the last one is to join the active queue. */
  predicate Joining(t: State) {
    && Known(t) && t.events == map[0 := FIRST, 1 := LONGER, 2 := LATER] && t.active == [0, 1] && t.log == [BEGIN, SECOND]
    && t.blocks == map[0 := Block(Active, 1, {0}, 10, 110), 1 := Block(Active, 1, {1}, 11, 211),
                       2 := Block(Scheduled, 1, {1}, 12, 212)]
  }

  lemma PassesZero(t: State)
    requires Joining(t)
    ensures AllIn(t, [1]) && ActiveLoop(t, 2, t.active) == ActiveLoop(t, 2, [1])
  {
    assert {0} - {1} == {0};
    Unchanged(t, 0);
    assert BlockSupersede(t, 2, 0) == (false, t);
    assert [0, 1][1..] == [1];
  }

  /** The block 1 displaced, and with it the block 0. */
  function Displaced(t: State): State
    requires Joining(t)
  {
    Displace(t.Set(1, t.blocks[1].(der := {})), 1, 12).(active := [])
  }

  lemma StrikesOne(t: State)
    requires Joining(t)
    ensures AllIn(t, [1]) && Displaced(t).Has(2) && Known(Displaced(t)) && ActiveLoop(t, 2, [1]) == Admit(Displaced(t), 2)
  {
    assert {1} - {1} == {};
    assert [1][1..] == [];
    assert BlockSupersede(t, 2, 1) == (true, t.Set(1, t.blocks[1].(der := {})));
    hide BlockSupersede, Admit, Displace;
  }

  lemma MeetsBoth(t: State)
    requires Joining(t)
    ensures var r := ActiveLoop(t, 2, t.active);
      && r.active == [2] && 0 in r.blocks && r.blocks[0] == Block(Active, 1, {0}, 10, 110)
      && r.log == [BEGIN, SECOND, Ev(OfBlock(1), EventEnd, 0), Ev(OfBlock(2), EventStart, 0)]
  {
    PassesZero(t);
    StrikesOne(t);
    hide ActiveLoop;
  }

  lemma LosesThird(s: State)
    requires Known(s) && s.events == map[0 := FIRST, 1 := LONGER, 2 := LATER] && s.active == [0, 1] && s.log == [BEGIN, SECOND]
    requires s.blocks == map[0 := Block(Active, 1, {0}, 10, 110), 1 := Block(Active, 1, {1}, 11, 211)]
    ensures var t := ScheduleEvent(s, 2, 1, 20);
      && t.active == [2] && 0 in t.blocks && t.blocks[0] == Block(Active, 1, {0}, 10, 110)
      && t.log == [BEGIN, SECOND, Ev(OfBlock(1), EventEnd, 0), Ev(OfBlock(2), EventStart, 0)]
  {
    hide ScheduleEvent, ActiveLoop;
    NewActive(s, 2);
    MeetsBoth(s.Set(2, Block(Scheduled, 1, {1}, 12, 212)));
  }

  lemma LosesAll(s: State)
    requires Fresh(s, FIRST, LONGER, LATER)
    ensures Possible(s, [SAME])
    ensures var r := Run(s, [SAME]);
      && r.active == [2] && 0 in r.blocks && r.blocks[0] == Block(Active, 1, {0}, 10, 110)
      && r.log == [BEGIN, SECOND, Ev(OfBlock(1), EventEnd, 0), Ev(OfBlock(2), EventStart, 0)]
  {
    hide ScheduleEvent;
    var cs := SAME.controls;
    assert cs[1..] == [Control(1, 1), Control(2, 1)] && cs[1..][1..] == [Control(2, 1)] && cs[1..][1..][1..] == [];
    assert Ids(cs) == [0, 1, 2];
    assert Cleared(s) == s;
    LosesFirst(s);
    var t := ScheduleEvent(s, 0, 1, 20);
    LosesSecond(t);
    LosesThird(ScheduleEvent(t, 1, 1, 20));
    assert [SAME][1..] == [];
  }

  /** The block 0 is active, keeps its control and has not ended, and yet it is in no queue:
      the block 1 behind it has been superseded by the block 2. */
  lemma SurvivorLost() returns (steps: seq<Step>)
    ensures Possible(START, steps)
    ensures var s := Run(START, steps);
      && 0 in s.blocks && s.blocks[0].status.Active? && s.blocks[0].der == {0} && 0 !in s.active
      && StartAt(s.log, 0, 0) && forall i :: !EndAt(s.log, 0, i)
  {
    hide Run, Possible, Next;
    steps := Arrivals(FIRST, LONGER, LATER);
    ThreeCome(FIRST, LONGER, LATER);
    LosesAll(Run(START, steps));
    RunOn(START, steps, [SAME]);
    steps := steps + [SAME];
  }

  // ---- a superseded block given up late ----

  const TOP := Event(5, 95, 1, {0}, 0, 0, Scheduled)
  const DUE := Event(10, 90, 1, {0}, 0, 0, Scheduled)
  const AHEAD := Event(50, 50, 1, {0}, 0, 0, Scheduled)
  const ALL := Reschedule([], [Control(0, 1), Control(1, 2), Control(2, 2)], 1)

  lemma ShelvesNone(s: State)
    requires Fresh(s, TOP, DUE, AHEAD)
    ensures ScheduleEvent(s, 0, 1, 1) == s.(scheduled := [0], blocks := map[0 := Block(Scheduled, 1, {0}, 5, 100)])
  {
  }

  lemma Shelves(s: State, id: Id)
    requires Known(s) && s.events == map[0 := TOP, 1 := DUE, 2 := AHEAD] && s.scheduled == [0] && 0 in s.blocks
    requires s.blocks[0] == Block(Scheduled, 1, {0}, 5, 100) && (id == 1 || id == 2) && id !in s.blocks
    ensures var b := Block(ScheduleSuperseded, 2, {}, s.events[id].start, 100);
      ScheduleEvent(s, id, 2, 1) == s.(superseded := [id] + s.superseded, blocks := s.blocks[id := b])
  {
    var t := s.Set(id, Block(Scheduled, 2, {0}, s.events[id].start, 100));
    var u := t.Set(id, t.blocks[id].(der := {}));
    assert {0} - {0} == {};
    assert BlockSupersede(t, id, 0) == (false, u);
    assert InsertLoop(t, id, 0) == Shelve(u, id);
  }

  /** The schedule after the rebuild: one block to come, two shelved. */
  predicate Shelved(s: State) {
    && Known(s) && s.events == map[0 := TOP, 1 := DUE, 2 := AHEAD]
    && s.scheduled == [0] && s.active == [] && s.superseded == [2, 1] && s.im != [] && s.im[0].kind.ScheduleUpdate?
    && s.blocks == map[0 := Block(Scheduled, 1, {0}, 5, 100), 1 := Block(ScheduleSuperseded, 2, {}, 10, 100),
                       2 := Block(ScheduleSuperseded, 2, {}, 50, 100)]
  }

  lemma ShelvesTwo(s: State)
    requires Fresh(s, TOP, DUE, AHEAD)
    ensures Possible(s, [ALL]) && Shelved(Run(s, [ALL]))
  {
    hide ScheduleEvent;
    var cs := ALL.controls;
    assert cs[1..] == [Control(1, 2), Control(2, 2)] && cs[1..][1..] == [Control(2, 2)] && cs[1..][1..][1..] == [];
    assert Ids(cs) == [0, 1, 2];
    assert Cleared(s) == s;
    ShelvesNone(s);
    var t := ScheduleEvent(s, 0, 1, 1);
    Shelves(t, 1);
    Shelves(ScheduleEvent(t, 1, 2, 1), 2);
    assert [ALL][1..] == [];
  }

  lemma Wakes(s: State)
    requires Shelved(s)
    ensures Possible(s, [Wake(20, false)])
    ensures var r := Run(s, [Wake(20, false)]);
      && r.superseded == [2, 1] && r.active == [0] && r.blocks.Keys == s.blocks.Keys
      && r.blocks[1] == s.blocks[1] && r.blocks[2] == s.blocks[2]
  {
    assert [Wake(20, false)][1..] == [];
    var (e, t) := Pop(s, 20);
    var u := t.(scheduled := []);
    assert t.scheduled[1..] == [];
    var v := u.Set(0, u.blocks[0].(der := {0}));
    assert InsertActive(u, 0) == ActiveLoop(v, 0, []) == Admit(v, 0);
    var w := Admit(v, 0);
    assert w.active == [0] && PromoteOne(t) == w;
    assert Expire(t, 20) == t;
    assert Promote(t, 20, 0) == Promote(w, 20, 100) == (w, 100);
    assert GiveUp(w, 20, 100) == (w, 50);
    hide InsertTimed, Without;
    assert UpdateSchedule(t, 20) == Rearm(w, 50);
  }

  /** The block 1 is due, and waits in the superseded queue behind the block 2, which is not. */
  lemma GivenUpLate() returns (steps: seq<Step>)
    ensures Possible(START, steps + [Wake(20, false)])
    ensures var s := Run(START, steps + [Wake(20, false)]);
      && s.superseded == [2, 1] && 1 in s.blocks && 2 in s.blocks
      && s.blocks[1].start == 10 && s.blocks[1].status.ScheduleSuperseded? && s.blocks[2].start == 50
  {
    hide Run, Possible, Next;
    steps := Arrivals(TOP, DUE, AHEAD);
    ThreeCome(TOP, DUE, AHEAD);
    ShelvesTwo(Run(START, steps));
    RunOn(START, steps, [ALL]);
    steps := steps + [ALL];
    Wakes(Run(START, steps));
    RunOn(START, steps, [Wake(20, false)]);
  }

  // ---- a start dropped ----

  const UPDATE := Ev(TheSchedule, ScheduleUpdate, 0)
  const DEVICE := Ev(OfDevice, DeviceSchedule, 0)
  const ENDED := Ev(OfBlock(0), EventEnd, 0)
  const CANCEL := Report(0, Canceled, 20)
  const POLL := Wake(20, false)

  lemma {:induction false} HandedOn(s: State, a: seq<Step>, b: seq<Step>)
    requires Known(s) && Possible(s, a) && Possible(Run(s, a), b)
    ensures Possible(s, a + b) && HandedOut(s, a + b) == HandedOut(s, a) + HandedOut(Run(s, a), b)
    decreases |a|
  {
    hide Next, Known, Allowed, HandedBy;
    RunOn(s, a, b);
    if a == [] {
      assert a + b == b;
      assert [] + HandedOut(s, b) == HandedOut(s, b);
    } else {
      HandedOn(Next(s, a[0]), a[1..], b);
      assert (a + b)[1..] == a[1..] + b;
      var x, y, z := HandedBy(s, a[0]), HandedOut(Next(s, a[0]), a[1..]), HandedOut(Run(s, a), b);
      assert x + (y + z) == x + y + z;
    }
  }

  lemma StartWaits(s: State)
    requires s == START.(events := map[0 := RUNNING])
    ensures Possible(s, [AGAIN]) && HandedOut(s, [AGAIN]) == []
    ensures var r := Run(s, [AGAIN]);
      && r.events == s.events && r.blocks == map[0 := Block(Active, 2, {0}, 10, 110)] && r.active == [0]
      && r.scheduled == [] && r.superseded == [] && r.im == [BEGIN, UPDATE, DEVICE] && r.timed == []
  {
    assert [AGAIN][1..] == [];
    var t := ScheduleEvent(s, 0, 2, 20);
    assert t.blocks == map[0 := Block(Active, 2, {0}, 10, 110)] && t.im == [BEGIN] && t.active == [0];
    assert [Control(0, 2)][1..] == [];
  }

  lemma StartDropped(s: State)
    requires Known(s) && s.events == map[0 := RUNNING] && s.blocks == map[0 := Block(Active, 2, {0}, 10, 110)] && s.active == [0]
    requires s.scheduled == [] && s.superseded == [] && s.im == [BEGIN, UPDATE, DEVICE] && s.timed == []
    ensures Possible(s, [CANCEL]) && HandedOut(s, [CANCEL]) == []
    ensures var r := Run(s, [CANCEL]);
      r.active == [] && r.scheduled == [] && r.superseded == [] && r.im == [UPDATE, DEVICE, ENDED] && r.timed == []
  {
    assert [CANCEL][1..] == [];
    assert s.im[1..] == [UPDATE, DEVICE] && s.im[1..][1..] == [DEVICE] && s.im[1..][1..][1..] == [];
    assert Without([DEVICE], OfBlock(0)) == [DEVICE] + Without([], OfBlock(0)) == [DEVICE];
    assert Without([UPDATE, DEVICE], OfBlock(0)) == [UPDATE] + Without([DEVICE], OfBlock(0)) == [UPDATE, DEVICE];
    assert Without(s.im, OfBlock(0)) == [UPDATE, DEVICE];
    assert [0][1..] == [];
  }

  lemma Polled(s: State, e: Ev)
    requires Known(s) && s.active == [] && s.scheduled == [] && s.superseded == [] && s.im != [] && s.im[0] == e && s.timed == []
    ensures Possible(s, [POLL]) && HandedOut(s, [POLL]) == [e]
    ensures var r := Run(s, [POLL]); r.active == [] && r.scheduled == [] && r.superseded == [] && r.im == s.im[1..] && r.timed == []
  {
    assert [POLL][1..] == [];
    assert [e] + [] == [e];
  }

  /** A block whose event is canceled before its start is handed out: what is handed out of it
      is an end alone. */
  lemma EndAlone() returns (steps: seq<Step>)
    ensures Possible(START, steps) && HandedOut(START, steps) == [UPDATE, DEVICE, ENDED]
    ensures Run(START, steps).im == [] && Run(START, steps).timed == []
  {
    hide Run, Possible, Next, HandedOut;
    steps := [Arrive(0, RUNNING)];
    Comes();
    assert HandedOut(START, steps) == [] by { NothingHanded(); }
    StartWaits(Run(START, steps));
    RunOn(START, steps, [AGAIN]);
    HandedOn(START, steps, [AGAIN]);
    steps := steps + [AGAIN];
    StartDropped(Run(START, steps));
    RunOn(START, steps, [CANCEL]);
    HandedOn(START, steps, [CANCEL]);
    steps := steps + [CANCEL];
    Polled(Run(START, steps), UPDATE);
    RunOn(START, steps, [POLL]);
    HandedOn(START, steps, [POLL]);
    steps := steps + [POLL];
    Polled(Run(START, steps), DEVICE);
    RunOn(START, steps, [POLL]);
    HandedOn(START, steps, [POLL]);
    steps := steps + [POLL];
    Polled(Run(START, steps), ENDED);
    RunOn(START, steps, [POLL]);
    HandedOn(START, steps, [POLL]);
    steps := steps + [POLL];
  }

  lemma NothingHanded()
    ensures Possible(START, [Arrive(0, RUNNING)]) && HandedOut(START, [Arrive(0, RUNNING)]) == []
  {
    assert [Arrive(0, RUNNING)][1..] == [];
  }
}
