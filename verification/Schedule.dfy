/**
 The event schedule of core/schedule.c, its event queue (core/event.c) and the
 rebuild step of core/der.c, as functions on the state of one schedule.

 A control bitmask is the set of its bits. The responses sent to the server and the
 polling of resources are not part of this model; the clock is a parameter of each step.
 */
module Schedule {
  import opened Common

  type Id = nat
  type Mask = set<nat>

  datatype Status = Scheduled | Active | Canceled | CanceledRandom | Superseded | Aborted | Completed | ActiveWait | ScheduleSuperseded {
    /** `in_range (status, Canceled, Completed)` */
    predicate Final() { Canceled? || CanceledRandom? || Superseded? || Aborted? || Completed? }
    /** The values a server gives an event. */
    predicate Server() { Live() || Canceled? || CanceledRandom? || Superseded? }
    /** The server values of an event that is still to be carried out. */
    predicate Live() { Scheduled? || Active? }
  }

  /** A DERControl as retrieved, with the random offsets drawn when its block is made. */
  datatype Event = Event(start: int, duration: nat, creation: int, mask: Mask,
                         randStart: int, randDuration: int, status: Status)
  {
    function End(): int { start + duration }
  }

  datatype Block = Block(status: Status, primacy: nat, der: Mask, start: int, end: int)

  datatype Data = TheSchedule | OfBlock(id: Id) | OfEvent(id: Id) | OfDevice
  datatype Kind = ScheduleUpdate | EventStart | EventEnd | ResourceUpdate | DeviceSchedule | DefaultControl
  datatype Ev = Ev(data: Data, kind: Kind, time: int)

  /** `im` and `timed` are the pending events; `log` is every start and end queued so far;
      `sync` is the clock value at which the clock was last set back. */
  datatype State = State(events: map<Id, Event>, blocks: map<Id, Block>,
                         scheduled: seq<Id>, active: seq<Id>, superseded: seq<Id>,
                         next: int, im: seq<Ev>, timed: seq<Ev>, log: seq<Ev>, sync: int)
  {
    predicate Has(id: Id) { id in blocks && id in events }

    function Set(id: Id, b: Block): State { this.(blocks := blocks[id := b]) }
  }

  predicate AllIn(s: State, q: seq<Id>) { forall i :: 0 <= i < |q| ==> s.Has(q[i]) }

  /** Every element of `r` is one of `q`. */
  predicate Within(r: seq<Id>, q: seq<Id>) { forall i :: 0 <= i < |r| ==> r[i] in q }

  /** The queues hold known blocks only. */
  predicate Known(s: State) {
    AllIn(s, s.scheduled) && AllIn(s, s.active) && AllIn(s, s.superseded)
  }

  // ---- the event queue (core/event.c) ----

  /** A difference of two times squeezed into an `int`. */
  function Narrow(x: int): int {
    (x + 0x8000_0000) % 0x1_0000_0000 - 0x8000_0000
  }

  /** `insert_sorted` under `event_compare`: in front of the first that is not earlier. */
  function InsertTimed(q: seq<Ev>, e: Ev): seq<Ev> {
    if q == [] || Narrow(e.time - q[0].time) <= 0 then [e] + q else [q[0]] + InsertTimed(q[1..], e)
  }

  function InsertEvent(s: State, e: Ev): State {
    if e.time == 0 then s.(im := s.im + [e]) else s.(timed := InsertTimed(s.timed, e))
  }

  function Without(q: seq<Ev>, d: Data): seq<Ev> {
    if q == [] then [] else if q[0].data == d then Without(q[1..], d) else [q[0]] + Without(q[1..], d)
  }

  function RemoveEvent(s: State, d: Data): State {
    s.(im := Without(s.im, d), timed := Without(s.timed, d))
  }

  /** An immediate start or end of a block. */
  function Queue(s: State, id: Id, kind: Kind): State {
    var e := Ev(OfBlock(id), kind, 0);
    InsertEvent(s, e).(log := s.log + [e])
  }

  // ---- supersession ----

  /** Lower primacy value first, later creation among equals. */
  predicate Outranks(s: State, a: Id, b: Id)
    requires s.Has(a) && s.Has(b)
  {
    var x, y := s.blocks[a], s.blocks[b];
    (x.primacy == y.primacy && s.events[a].creation > s.events[b].creation) || x.primacy < y.primacy
  }

  /** `block_supersede`: the lower of the two gives up the bits of the higher. The result
      says whether `a` leaves `b` with nothing. */
  function BlockSupersede(s: State, a: Id, b: Id): (bool, State)
    requires s.Has(a) && s.Has(b)
  {
    var x, y := s.blocks[a], s.blocks[b];
    if Outranks(s, a, b) then
      if x.der != {} then (y.der - x.der == {}, s.Set(b, y.(der := y.der - x.der))) else (true, s)
    else (false, s.Set(a, x.(der := x.der - y.der)))
  }

  predicate Overlap(x: Event, y: Event) { x.start < y.End() && x.End() > y.start }

  /** `insert_sorted` under `compare_start` or `compare_end`. */
  function InsertSorted(key: map<Id, int>, q: seq<Id>, id: Id): (r: seq<Id>)
    requires id in key && forall i :: 0 <= i < |q| ==> q[i] in key
    ensures Within(r, q + [id])
  {
    if q == [] || Narrow(key[id] - key[q[0]]) <= 0 then [id] + q
    else
      [q[0]] + InsertSorted(key, q[1..], id)
  }

  function Starts(s: State): map<Id, int> { map id | id in s.blocks :: s.blocks[id].start }
  function Ends(s: State): map<Id, int> { map id | id in s.blocks :: s.blocks[id].end }

  // ---- the scheduled queue ----

  /** A block with nothing left goes to the front of the superseded queue. */
  function Shelve(s: State, id: Id): State
    requires s.Has(id)
  {
    s.Set(id, s.blocks[id].(status := ScheduleSuperseded)).(superseded := [id] + s.superseded)
  }

  /** A neighbour that starts or ends where the new block ends follows its effective end. */
  function Abut(s: State, id: Id, e: Id): State
    requires s.Has(id) && s.Has(e)
  {
    var x, y, b := s.events[id], s.events[e], s.blocks[e];
    s.Set(e, if x.End() == y.start then b.(start := s.blocks[id].end)
             else if x.End() == y.End() then b.(end := s.blocks[id].end)
             else b)
  }

  /** The loop of `insert_block`, at position `i` of the scheduled queue. */
  function InsertLoop(s: State, id: Id, i: nat): (r: State)
    requires s.Has(id) && Known(s) && i <= |s.scheduled|
    ensures r.events == s.events && r.blocks.Keys == s.blocks.Keys && Known(r)
    decreases |s.scheduled| - i
  {
    if i == |s.scheduled| then Scheduling(s, id)
    else
      var e := s.scheduled[i];
      if Overlap(s.events[id], s.events[e]) then
        var (sup, s1) := BlockSupersede(s, id, e);
        if sup then InsertLoop(Shelve(s1, e).(scheduled := Drop(s.scheduled, i)), id, i)
        else if s1.blocks[id].der == {} then Shelve(s1, id)
        else InsertLoop(s1, id, i + 1)
      else InsertLoop(Abut(s, id, e), id, i + 1)
  }

  function Scheduling(s: State, id: Id): (r: State)
    requires s.Has(id) && Known(s)
    ensures r.events == s.events && r.blocks == s.blocks && Known(r)
  {
    var q := InsertSorted(Starts(s), s.scheduled, id);
    s.(scheduled := q)
  }

  function InsertBlock(s: State, id: Id): (r: State)
    requires s.Has(id) && Known(s)
    ensures r.events == s.events && r.blocks.Keys == s.blocks.Keys && Known(r)
  {
    InsertLoop(s.Set(id, s.blocks[id].(status := Scheduled, der := s.events[id].mask)), id, 0)
  }

  // ---- the active queue ----

  function Activate(s: State, id: Id): (r: State)
    requires s.Has(id)
    ensures r.events == s.events && r.blocks.Keys == s.blocks.Keys
  {
    if s.blocks[id].status.Active? then s
    else Queue(s.Set(id, s.blocks[id].(status := Active)), id, EventStart)
  }

  /** A block that loses its place among the active ones. */
  function Displace(s: State, a: Id, end: int): (r: State)
    requires s.Has(a)
    ensures r.events == s.events && r.blocks.Keys == s.blocks.Keys
  {
    var t := if s.blocks[a].status.Active? then Queue(s, a, EventEnd) else s;
    t.Set(a, s.blocks[a].(end := end, status := Superseded))
  }

  /** A block that keeps some of its controls joins the active queue; it starts unless the
      server still has it as scheduled. */
  function Admit(s: State, id: Id): (r: State)
    requires s.Has(id) && Known(s)
    ensures r.events == s.events && r.blocks.Keys == s.blocks.Keys && Known(r)
  {
    var st := s.events[id].status;
    var t := if st.Scheduled? then s.Set(id, s.blocks[id].(status := ActiveWait))
             else if st.Active? then Activate(s, id)
             else s;
    var q := InsertSorted(Ends(t), t.active, id);
    t.(active := q)
  }

  /** The loop of `insert_active` over the blocks `rest`. Its `prev` stays at the head of
      the list, so unlinking a block leaves only the blocks behind it in the queue. */
  function ActiveLoop(s: State, id: Id, rest: seq<Id>): (r: State)
    requires s.Has(id) && Known(s) && AllIn(s, rest)
    ensures r.events == s.events && r.blocks.Keys == s.blocks.Keys && Known(r)
    decreases |rest|
  {
    if rest == [] then Admit(s, id)
    else
      var a := rest[0];
      var (sup, s1) := BlockSupersede(s, id, a);
      if sup then ActiveLoop(Displace(s1, a, s1.blocks[id].start).(active := rest[1..]), id, rest[1..])
      else if s1.blocks[id].der == {} then s1.Set(id, s1.blocks[id].(status := Superseded))
      else ActiveLoop(s1, id, rest[1..])
  }

  function InsertActive(s: State, id: Id): (r: State)
    requires s.Has(id) && Known(s)
    ensures r.events == s.events && r.blocks.Keys == s.blocks.Keys && Known(r)
  {
    ActiveLoop(s.Set(id, s.blocks[id].(der := s.events[id].mask)), id, s.active)
  }

  // ---- removal ----

  /** The queues of `r` hold nothing the queues of `s` did not. */
  predicate Thinned(s: State, r: State) {
    Within(r.scheduled, s.scheduled) && Within(r.active, s.active) && Within(r.superseded, s.superseded)
  }

  /** `list_remove`: the first occurrence goes. */
  function Remove(q: seq<Id>, id: Id): (r: seq<Id>)
    ensures Within(r, q)
  {
    if q == [] then []
    else
      if q[0] == id then q[1..] else [q[0]] + Remove(q[1..], id)
  }

  /** An active block ends now. */
  function EndNow(s: State, id: Id, now: int): State
    requires s.Has(id)
  {
    Queue(s.Set(id, s.blocks[id].(end := now)), id, EventEnd)
  }

  /** An active block ends now, and a start still waiting in the queue is dropped. */
  function Interrupt(s: State, id: Id, now: int): (r: State)
    requires s.Has(id)
    ensures r.events == s.events && r.blocks.Keys == s.blocks.Keys
    ensures r.scheduled == s.scheduled && r.active == s.active && r.superseded == s.superseded
  {
    Queue(RemoveEvent(s.Set(id, s.blocks[id].(end := now)), OfBlock(id)), id, EventEnd)
  }

  /** `remove_block`; an active block ends first and then leaves the queue like a waiting one. */
  function RemoveBlock(s: State, id: Id, now: int): (r: State)
    requires s.Has(id)
    ensures r.events == s.events && r.blocks.Keys == s.blocks.Keys
    ensures Thinned(s, r)
  {
    match s.blocks[id].status
    case Scheduled => s.(scheduled := Remove(s.scheduled, id))
    case Active => Interrupt(s, id, now).(active := Remove(s.active, id))
    case ActiveWait => s.(active := Remove(s.active, id))
    case ScheduleSuperseded => s.(superseded := Remove(s.superseded, id))
    case _ => s
  }

  /** `remove_blocks` and the body of `remove_programs`: out of its queue, with a final status. */
  function Retire(s: State, id: Id, status: Status, now: int): (r: State)
    requires s.Has(id)
    ensures r.events == s.events && r.blocks.Keys == s.blocks.Keys
    ensures Thinned(s, r)
  {
    var t := RemoveBlock(s, id, now);
    t.Set(id, t.blocks[id].(status := status))
  }

  // ---- steps ----

  /** `event_update`, called when the event has been retrieved again. */
  function EventUpdate(s: State, id: Id, now: int): (r: State)
    requires s.Has(id)
    ensures r.events == s.events && r.blocks.Keys == s.blocks.Keys
    ensures Thinned(s, r)
  {
    match s.events[id].status
    case Scheduled =>
      if s.sync != now then InsertEvent(s.(sync := now - 1), Ev(OfEvent(id), ResourceUpdate, now))
      else InsertEvent(s, Ev(OfEvent(id), ResourceUpdate, now + 1))
    case Active => if s.blocks[id].status.ActiveWait? then Activate(s, id) else s
    case Canceled => Retire(s, id, Canceled, now)
    case CanceledRandom => Retire(s, id, CanceledRandom, now)
    case Superseded => Retire(s, id, Superseded, now)
    case _ => s
  }

  /** `block_update` */
  function BlockUpdate(s: State, id: Id, status: Status, now: int): State
    requires s.Has(id)
  {
    var t := if s.blocks[id].status.Active? then EndNow(s, id, now) else s;
    t.Set(id, t.blocks[id].(status := status))
  }

  /** `new_block` */
  function NewBlock(e: Event, primacy: nat): Block {
    var start := e.start + e.randStart;
    Block(Scheduled, primacy, {}, start, start + e.duration + e.randDuration)
  }

  /** `schedule_event` */
  function ScheduleEvent(s: State, id: Id, primacy: nat, now: int): (r: State)
    requires id in s.events && Known(s)
    ensures r.events == s.events && r.blocks.Keys == s.blocks.Keys + {id} && Known(r)
  {
    var fresh_ := id !in s.blocks;
    var b := if fresh_ then NewBlock(s.events[id], primacy) else s.blocks[id].(primacy := primacy);
    var t := s.Set(id, b);
    if fresh_ && b.end <= now then t.Set(id, b.(status := Completed))
    else if b.status.Final() then t
    else
      match s.events[id].status
      case Scheduled => if b.status.ActiveWait? then InsertActive(t, id) else InsertBlock(t, id)
      case Active => InsertActive(t, id)
      case Canceled => BlockUpdate(t, id, Canceled, now)
      case CanceledRandom => BlockUpdate(t, id, CanceledRandom, now)
      case Superseded => BlockUpdate(t, id, Superseded, now)
      case _ => t
  }

  function RemovePrograms(s: State, gone: seq<Id>, now: int): (r: State)
    requires AllIn(s, gone)
    ensures r.events == s.events && r.blocks.Keys == s.blocks.Keys
    decreases |gone|
  {
    if gone == [] then s else RemovePrograms(Retire(s, gone[0], Aborted, now), gone[1..], now)
  }

  /** An event of a DERControlList and the primacy of its program. */
  datatype Control = Control(id: Id, primacy: nat)

  predicate Listed(s: State, cs: seq<Control>) { forall i :: 0 <= i < |cs| ==> cs[i].id in s.events }

  function ScheduleEvents(s: State, cs: seq<Control>, now: int): (r: State)
    requires Known(s) && Listed(s, cs)
    ensures r.events == s.events && Known(r)
    decreases |cs|
  {
    if cs == [] then s else ScheduleEvents(ScheduleEvent(s, cs[0].id, cs[0].primacy, now), cs[1..], now)
  }

  function Cleared(s: State): State { s.(scheduled := [], active := [], superseded := []) }

  function Announced(s: State): State {
    InsertEvent(InsertEvent(s, Ev(TheSchedule, ScheduleUpdate, 0)), Ev(OfDevice, DeviceSchedule, 0))
  }

  /** The schedule before the controls are inserted again: the blocks of the removed programs,
      listed in `gone`, are aborted, and every queue is empty. */
  function Emptied(s: State, gone: seq<Id>, now: int): (r: State)
    requires AllIn(s, gone)
    ensures r.events == s.events && Known(r)
  {
    Cleared(RemovePrograms(s, gone, now))
  }

  /** `schedule_der`: each control is scheduled anew. */
  function Rebuild(s: State, gone: seq<Id>, cs: seq<Control>, now: int): (r: State)
    requires AllIn(s, gone) && Listed(s, cs)
    ensures r.events == s.events && Known(r)
  {
    Announced(ScheduleEvents(Emptied(s, gone, now), cs, now))
  }

  /** `last? min (last, t) : t` */
  function Earlier(last: int, t: int): int {
    if last == 0 || t < last then t else last
  }

  /** The blocks at the head of the active queue that are over. */
  function Expire(s: State, now: int): (r: State)
    requires Known(s)
    ensures r.events == s.events && r.blocks.Keys == s.blocks.Keys && Known(r)
    decreases |s.active|
  {
    if s.active == [] || s.blocks[s.active[0]].end > now then s
    else Expire(Finish(s, s.active[0]).(active := s.active[1..]), now)
  }

  function Finish(s: State, a: Id): (r: State)
    requires s.Has(a)
    ensures r.events == s.events && r.blocks.Keys == s.blocks.Keys
  {
    var t := if s.blocks[a].status.Active? then Queue(s, a, EventEnd) else s;
    t.Set(a, s.blocks[a].(status := Completed))
  }

  /** The blocks at the head of the scheduled queue that are due become active. */
  function Promote(s: State, now: int, last: int): (r: (State, int))
    requires Known(s)
    ensures r.0.events == s.events && r.0.blocks.Keys == s.blocks.Keys && Known(r.0)
    decreases |s.scheduled|
  {
    if s.scheduled == [] then (s, last)
    else
      var e := s.scheduled[0];
      if s.blocks[e].start > now then (s, Earlier(last, s.blocks[e].start))
      else
        var t := PromoteOne(s);
        Promote(t, now, Earlier(last, t.blocks[e].end))
  }

  function PromoteOne(s: State): (r: State)
    requires Known(s) && s.scheduled != []
    ensures r.events == s.events && r.blocks.Keys == s.blocks.Keys && Known(r)
    ensures r.scheduled == s.scheduled[1..]
  {
    var r := InsertActive(s.(scheduled := s.scheduled[1..]), s.scheduled[0]);
    ActiveKeeps(s.(scheduled := s.scheduled[1..]).Set(s.scheduled[0], s.blocks[s.scheduled[0]].(der := s.events[s.scheduled[0]].mask)), s.scheduled[0], s.active);
    r
  }

  /** `insert_active` leaves the other queues and the next update alone. */
  lemma {:induction false} ActiveKeeps(s: State, id: Id, rest: seq<Id>)
    requires s.Has(id) && Known(s) && AllIn(s, rest)
    ensures var r := ActiveLoop(s, id, rest);
      r.scheduled == s.scheduled && r.superseded == s.superseded && r.next == s.next && r.timed == s.timed && r.sync == s.sync
    decreases |rest|
  {
    if rest != [] {
      var (sup, s1) := BlockSupersede(s, id, rest[0]);
      if sup {
        ActiveKeeps(Displace(s1, rest[0], s1.blocks[id].start).(active := rest[1..]), id, rest[1..]);
      } else if s1.blocks[id].der != {} {
        ActiveKeeps(s1, id, rest[1..]);
      }
    }
  }

  /** The blocks at the head of the superseded queue that are due are given up. */
  function GiveUp(s: State, now: int, last: int): (r: (State, int))
    requires Known(s)
    ensures r.0.events == s.events && r.0.blocks.Keys == s.blocks.Keys && Known(r.0)
    decreases |s.superseded|
  {
    if s.superseded == [] then (s, last)
    else
      var e := s.superseded[0];
      if s.blocks[e].start > now then (s, Earlier(last, s.blocks[e].start))
      else GiveUp(s.Set(e, s.blocks[e].(status := Superseded)).(superseded := s.superseded[1..]), now, last)
  }

  /** The next wake-up of the schedule. */
  function Rearm(s: State, last: int): (r: State)
    requires Known(s)
    ensures r.events == s.events && r.blocks == s.blocks && Known(r)
  {
    if last == 0 then s.(next := 0)
    else if last == s.next then s
    else InsertEvent(RemoveEvent(s, TheSchedule), Ev(TheSchedule, ScheduleUpdate, last)).(next := last)
  }

  /** `update_schedule` */
  function UpdateSchedule(s: State, now: int): (r: State)
    requires Known(s)
    ensures r.events == s.events && r.blocks.Keys == s.blocks.Keys && Known(r)
  {
    var a := Expire(s, now);
    var (b, l1) := Promote(a, now, if a.active == [] then 0 else a.blocks[a.active[0]].end);
    var (c, l2) := GiveUp(b, now, l1);
    Rearm(c, l2)
  }

  /** Whether `next_event` has something to hand out. */
  predicate Ready(s: State, now: int) {
    s.im != [] || (s.timed != [] && s.timed[0].time <= now)
  }

  /** `next_event`: the immediate events come first, then the timed ones that are due. */
  function Pop(s: State, now: int): (Ev, State)
    requires Ready(s, now)
  {
    if s.im != [] then (s.im[0], s.(im := s.im[1..])) else (s.timed[0], s.(timed := s.timed[1..]))
  }

  /** One round of the loop of `der_poll`. */
  function Poll(s: State, now: int, default: bool): (r: State)
    requires Known(s) && Ready(s, now)
    ensures r.events == s.events && r.blocks.Keys == s.blocks.Keys && Known(r)
  {
    var (e, t) := Pop(s, now);
    if e.kind.ScheduleUpdate? then
      var u := UpdateSchedule(t, now);
      if u.active == [] && default then InsertEvent(u, Ev(OfDevice, DefaultControl, 0)) else u
    else t
  }

  // ---- runs ----

  datatype Step =
    | Arrive(id: Id, event: Event)
    | Report(id: Id, status: Status, now: int)
    | Reschedule(gone: seq<Id>, controls: seq<Control>, now: int)
    | Wake(now: int, default: bool)

  function Ids(cs: seq<Control>): (q: seq<Id>)
    ensures |q| == |cs| && forall i :: 0 <= i < |q| ==> q[i] == cs[i].id
  {
    seq(|cs|, i requires 0 <= i < |cs| => cs[i].id)
  }

  /** What the surroundings may do: events have distinct names and server statuses, a rebuild
      names each control once, and the queue is polled when it has something. */
  predicate Allowed(s: State, step: Step) {
    match step
    case Arrive(id, e) => id !in s.events && e.status.Server()
    case Report(id, st, _) => id in s.events && st.Server()
    case Reschedule(gone, cs, _) => AllIn(s, gone) && Listed(s, cs) && Unique(Ids(cs))
    case Wake(now, _) => Ready(s, now)
  }

  /** The event as retrieved again. */
  function Reported(s: State, id: Id, status: Status): State
    requires id in s.events
  {
    s.(events := s.events[id := s.events[id].(status := status)])
  }

  function Next(s: State, step: Step): (r: State)
    requires Known(s) && Allowed(s, step)
    ensures Known(r)
  {
    match step
    case Arrive(id, e) => s.(events := s.events[id := e])
    case Report(id, st, now) =>
      var t := Reported(s, id, st);
      if id in s.blocks then
        KnownUpdate(t, id, now);
        EventUpdate(t, id, now)
      else t
    case Reschedule(gone, cs, now) => Rebuild(s, gone, cs, now)
    case Wake(now, default) => Poll(s, now, default)
  }

  lemma KnownUpdate(s: State, id: Id, now: int)
    requires Known(s) && s.Has(id)
    ensures Known(EventUpdate(s, id, now))
  {
  }

  const START := State(map[], map[], [], [], [], 0, [], [], [], 0)

  /** A run the surroundings may produce. */
  predicate Possible(s: State, steps: seq<Step>)
    requires Known(s)
    decreases |steps|
  {
    steps == [] || (Allowed(s, steps[0]) && Possible(Next(s, steps[0]), steps[1..]))
  }

  function Run(s: State, steps: seq<Step>): (r: State)
    requires Known(s) && Possible(s, steps)
    ensures Known(r)
    decreases |steps|
  {
    if steps == [] then s else Run(Next(s, steps[0]), steps[1..])
  }
}
