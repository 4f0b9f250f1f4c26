/**
 The register bridge of gateway/bridge.py: events become register writes, and the registers
 written are tracked so that the end of an event can set them back to zero.
 */
module Bridge {
  import opened Common

  /** The addresses of the control registers. */
  datatype RegisterMap = RegisterMap(activePower: int, maxPowerLimit: int, reactivePower: int, rampTime: int, connect: int, energize: int)

  /** The fields of a DERControlBase an event may carry. */
  datatype Control = Control(fixedW: Option<int>, targetW: Option<int>, maxLimW: Option<int>, fixedVar: Option<int>,
                             targetVar: Option<int>, rampTms: Option<int>, connect: Option<bool>, energize: Option<bool>)

  datatype Event = Start(control: Control) | End | DefaultControl(control: Control) | Other

  /** A register write. */
  datatype Write = Write(address: int, value: int)

  /** The device's registers and the bridge's record of what it has written. */
  datatype State = State(device: map<int, int>, active: map<int, int>)

  /** A register not yet written holds zero. */
  function Register(device: map<int, int>, a: int): int { if a in device then device[a] else 0 }

  // ---- what an event does ----

  function IfInt(a: int, v: Option<int>): seq<Write> { if v.None? then [] else [Write(a, v.value)] }

  function IfBool(a: int, v: Option<bool>): seq<Write> {
    if v.None? then [] else [Write(a, if v.value then 1 else 0)]
  }

  /** The writes of `_apply_control`, in order. */
  function Writes(reg: RegisterMap, c: Control): seq<Write> {
    IfInt(reg.activePower, c.fixedW) + IfInt(reg.activePower, c.targetW) + IfInt(reg.maxPowerLimit, c.maxLimW)
    + IfInt(reg.reactivePower, c.fixedVar) + IfInt(reg.reactivePower, c.targetVar) + IfInt(reg.rampTime, c.rampTms)
    + IfBool(reg.connect, c.connect) + IfBool(reg.energize, c.energize)
  }

  /** The writes in order, up to the first that fails. */
  function Apply(s: State, ws: seq<Write>, fails: set<int>): State
    decreases |ws|
  {
    if ws == [] || ws[0].address in fails then s
    else Apply(State(s.device[ws[0].address := ws[0].value], s.active[ws[0].address := ws[0].value]), ws[1..], fails)
  }

  /** Zero to every tracked register that does not fail; the record is cleared in any case. */
  function Relinquish(s: State, fails: set<int>): State {
    State(map a | a in s.device.Keys + s.active.Keys :: if a in s.active && a !in fails then 0 else Register(s.device, a), map[])
  }

  /** `apply`, while writes to the addresses `fails` fail. */
  function Next(reg: RegisterMap, s: State, e: Event, fails: set<int>): State {
    match e
    case Start(c) => Apply(s, Writes(reg, c), fails)
    case End => Relinquish(s, fails)
    case DefaultControl(c) => Apply(s.(active := map[]), Writes(reg, c), fails)
    case Other => s
  }

  // ---- the registers are as the record says ----

  /** A tracked register holds its recorded value, an untracked one zero. */
  ghost predicate Tracked(s: State) {
    forall a: int {:trigger Register(s.device, a)} :: Register(s.device, a) == if a in s.active then s.active[a] else 0
  }

  /** The addresses written before a write fails. */
  function Reached(ws: seq<Write>, fails: set<int>): set<int> {
    if ws == [] || ws[0].address in fails then {} else {ws[0].address} + Reached(ws[1..], fails)
  }

  /** Only the registers reached change, and they hold what the record says of them. */
  lemma {:induction false} ApplyChanges(s: State, ws: seq<Write>, fails: set<int>, a: int)
    ensures var r := Apply(s, ws, fails);
      && (a in Reached(ws, fails) ==> a in r.active && Register(r.device, a) == r.active[a])
      && (a !in Reached(ws, fails) ==> Register(r.device, a) == Register(s.device, a))
      && (a !in Reached(ws, fails) ==> (a in r.active <==> a in s.active) && (a in s.active ==> r.active[a] == s.active[a]))
    decreases |ws|
  {
    if ws != [] && ws[0].address !in fails {
      var t := State(s.device[ws[0].address := ws[0].value], s.active[ws[0].address := ws[0].value]);
      ApplyChanges(t, ws[1..], fails, a);
    }
  }

  /** Whether an event leaves the record true. */
  ghost predicate Safe(reg: RegisterMap, s: State, e: Event, fails: set<int>) {
    match e
    case Start(_) => true
    case End => forall a :: a in s.active && a in fails ==> s.active[a] == 0
    case DefaultControl(c) => forall a :: a in s.active && a !in Reached(Writes(reg, c), fails) ==> s.active[a] == 0
    case Other => true
  }

  /** The record stays true exactly when the event is safe: an end must reach every tracked
      register that is not zero, and a default control must write all of them again. */
  lemma TrackedExactly(reg: RegisterMap, s: State, e: Event, fails: set<int>)
    requires Tracked(s)
    ensures Tracked(Next(reg, s, e, fails)) <==> Safe(reg, s, e, fails)
  {
    var r := Next(reg, s, e, fails);
    match e {
      case Other =>
      case Start(c) =>
        forall a: int ensures Register(r.device, a) == if a in r.active then r.active[a] else 0 {
          ApplyChanges(s, Writes(reg, c), fails, a);
        }
      case DefaultControl(c) =>
        var ws := Writes(reg, c);
        forall a: int ensures Register(r.device, a) == (if a in r.active then r.active[a] else 0)
          <==> a !in s.active || a in Reached(ws, fails) || s.active[a] == 0 {
          ApplyChanges(s.(active := map[]), ws, fails, a);
        }
        DefaultExactly(s, r, ws, fails);
      case End =>
        EndExactly(s, fails);
    }
  }

  lemma DefaultExactly(s: State, r: State, ws: seq<Write>, fails: set<int>)
    requires forall a: int ::
      Register(r.device, a) == (if a in r.active then r.active[a] else 0) <==> a !in s.active || a in Reached(ws, fails) || s.active[a] == 0
    ensures Tracked(r) <==> forall a :: a in s.active && a !in Reached(ws, fails) ==> s.active[a] == 0
  {
  }

  lemma EndExactly(s: State, fails: set<int>)
    requires Tracked(s)
    ensures Tracked(Relinquish(s, fails)) <==> forall a :: a in s.active && a in fails ==> s.active[a] == 0
  {
    var r := Relinquish(s, fails);
    forall a: int ensures Register(r.device, a) == if a in s.active && a !in fails then 0 else Register(s.device, a) {}
    forall a | a in s.active && a in fails && Tracked(r) ensures s.active[a] == 0 {
      assert Register(r.device, a) == 0 && Register(s.device, a) == s.active[a];
    }
  }

  // ---- runs ----

  datatype Input = Input(event: Event, fails: set<int>)

  function Run(reg: RegisterMap, s: State, inputs: seq<Input>): State
    decreases |inputs|
  {
    if inputs == [] then s else Run(reg, Next(reg, s, inputs[0].event, inputs[0].fails), inputs[1..])
  }

  /** Every event of the run is safe when it comes. */
  ghost predicate SafeRun(reg: RegisterMap, s: State, inputs: seq<Input>)
    decreases |inputs|
  {
    inputs == [] || (Safe(reg, s, inputs[0].event, inputs[0].fails) && SafeRun(reg, Next(reg, s, inputs[0].event, inputs[0].fails), inputs[1..]))
  }

  const START := State(map[], map[])

  lemma {:induction false} RunTracked(reg: RegisterMap, s: State, inputs: seq<Input>)
    requires Tracked(s) && SafeRun(reg, s, inputs)
    ensures Tracked(Run(reg, s, inputs))
    decreases |inputs|
  {
    if inputs != [] {
      TrackedExactly(reg, s, inputs[0].event, inputs[0].fails);
      hide Next, Safe, Tracked;
      RunTracked(reg, Next(reg, s, inputs[0].event, inputs[0].fails), inputs[1..]);
    }
  }

  /** After any safe run, an end that meets no failure leaves every register at zero and
      nothing tracked. */
  lemma EndClearsAll(reg: RegisterMap, inputs: seq<Input>, a: int)
    requires SafeRun(reg, START, inputs)
    ensures var r := Next(reg, Run(reg, START, inputs), End, {});
      Register(r.device, a) == 0 && r.active == map[]
  {
    RunTracked(reg, START, inputs);
    var s := Run(reg, START, inputs);
    hide Run, SafeRun;
    assert Register(s.device, a) == if a in s.active then s.active[a] else 0;
  }

  // ---- runs without failures ----

  function Addresses(reg: RegisterMap, c: Control): set<int> { Reached(Writes(reg, c), {}) }

  /** Every default control writes all that has been written since the end or the default
      control before it; `live` are the addresses written so far. */
  predicate Covering(reg: RegisterMap, live: set<int>, events: seq<Event>)
    decreases |events|
  {
    events == [] ||
    match events[0]
    case Start(c) => Covering(reg, live + Addresses(reg, c), events[1..])
    case End => Covering(reg, {}, events[1..])
    case DefaultControl(c) => live <= Addresses(reg, c) && Covering(reg, Addresses(reg, c), events[1..])
    case Other => Covering(reg, live, events[1..])
  }

  function Unfailing(events: seq<Event>): seq<Input> {
    seq(|events|, i requires 0 <= i < |events| => Input(events[i], {}))
  }

  lemma {:induction false} ApplyRecords(s: State, ws: seq<Write>)
    ensures Apply(s, ws, {}).active.Keys == s.active.Keys + Reached(ws, {})
    decreases |ws|
  {
    if ws != [] {
      ApplyRecords(State(s.device[ws[0].address := ws[0].value], s.active[ws[0].address := ws[0].value]), ws[1..]);
    }
  }

  lemma {:induction false} CoveredSafe(reg: RegisterMap, s: State, events: seq<Event>)
    requires Covering(reg, s.active.Keys, events)
    ensures SafeRun(reg, s, Unfailing(events))
    decreases |events|
  {
    hide Writes, Apply, Reached;
    if events != [] {
      var e, t := events[0], Next(reg, s, events[0], {});
      assert Unfailing(events)[0] == Input(e, {}) && Unfailing(events)[1..] == Unfailing(events[1..]);
      match e {
        case Start(c) => ApplyRecords(s, Writes(reg, c));
        case End => assert t.active.Keys == {};
        case DefaultControl(c) =>
          ApplyRecords(s.(active := map[]), Writes(reg, c));
          assert t.active.Keys == Addresses(reg, c);
        case Other =>
      }
      CoveredSafe(reg, t, events[1..]);
    }
  }

  /** Over any events of which no default control leaves out what came before it, without
      failures: untracked registers are zero, tracked ones hold their value, and an end
      returns all of them to zero. */
  lemma CoveredRun(reg: RegisterMap, events: seq<Event>, a: int)
    requires Covering(reg, {}, events)
    ensures var s := Run(reg, START, Unfailing(events));
      && Register(s.device, a) == (if a in s.active then s.active[a] else 0)
      && Register(Next(reg, s, End, {}).device, a) == 0
  {
    assert START.active.Keys == {};
    CoveredSafe(reg, START, events);
    RunTracked(reg, START, Unfailing(events));
    EndClearsAll(reg, Unfailing(events), a);
    hide Run, SafeRun, Covering, Next;
  }

  /** A default control that writes less than the event before it leaves a register set that
      no end will clear. */
  lemma LeftBehind(reg: RegisterMap)
    requires reg.activePower != reg.maxPowerLimit
    ensures var one := Control(Some(50), None, None, None, None, None, None, None);
      var other := Control(None, None, Some(80), None, None, None, None, None);
      var s := Next(reg, Next(reg, Next(reg, START, Start(one), {}), DefaultControl(other), {}), End, {});
      Register(s.device, reg.activePower) == 50 && s.active == map[]
  {
    var w, v := Write(reg.activePower, 50), Write(reg.maxPowerLimit, 80);
    var one := Control(Some(50), None, None, None, None, None, None, None);
    var other := Control(None, None, Some(80), None, None, None, None, None);
    assert Writes(reg, one) == [w] && Writes(reg, other) == [v];
    var s1 := Next(reg, START, Start(one), {});
    ApplyOne(START, w);
    assert s1.device == map[reg.activePower := 50];
    var s2 := Next(reg, s1, DefaultControl(other), {});
    ApplyOne(s1.(active := map[]), v);
    assert s2.device == s1.device[reg.maxPowerLimit := 80] && s2.active == map[reg.maxPowerLimit := 80];
    hide Writes, Apply;
    assert Register(Relinquish(s2, {}).device, reg.activePower) == 50;
  }

  lemma ApplyOne(s: State, w: Write)
    ensures Apply(s, [w], {}) == State(s.device[w.address := w.value], s.active[w.address := w.value])
  {
    assert [w][1..] == [];
  }

  // ---- precedence ----

  /** The last value written to an address. */
  function Last(ws: seq<Write>, a: int): Option<int> {
    if ws == [] then None
    else if ws[|ws| - 1].address == a then Some(ws[|ws| - 1].value) else Last(ws[..|ws| - 1], a)
  }

  lemma {:induction false} ApplyLast(s: State, ws: seq<Write>, a: int)
    ensures Register(Apply(s, ws, {}).device, a) == var v := Last(ws, a); if v.Some? then v.value else Register(s.device, a)
    decreases |ws|
  {
    if ws != [] {
      var t := State(s.device[ws[0].address := ws[0].value], s.active[ws[0].address := ws[0].value]);
      ApplyLast(t, ws[1..], a);
      LastHead(ws, a);
    }
  }

  lemma {:induction false} LastHead(ws: seq<Write>, a: int)
    requires ws != []
    ensures Last(ws, a) ==
      if Last(ws[1..], a).Some? then Last(ws[1..], a) else if ws[0].address == a then Some(ws[0].value) else None
    decreases |ws|
  {
    var n := |ws| - 1;
    if n > 0 && ws[n].address != a {
      LastHead(ws[..n], a);
      assert ws[1..][..n - 1] == ws[..n][1..] && ws[1..][n - 1] == ws[n];
    } else if n > 0 {
      assert ws[1..][n - 1] == ws[n];
    }
  }

  predicate Apart(reg: RegisterMap) {
    && reg.activePower !in {reg.maxPowerLimit, reg.reactivePower, reg.rampTime, reg.connect, reg.energize}
    && reg.reactivePower !in {reg.rampTime, reg.connect, reg.energize}
  }

  /** An absolute target wins over a fixed percentage for the same register. */
  lemma TargetWins(reg: RegisterMap, s: State, c: Control)
    requires Apart(reg)
    ensures var r := Next(reg, s, Start(c), {});
      && (c.targetW.Some? ==> Register(r.device, reg.activePower) == c.targetW.value)
      && (c.targetVar.Some? ==> Register(r.device, reg.reactivePower) == c.targetVar.value)
  {
    ApplyLast(s, Writes(reg, c), reg.activePower);
    ApplyLast(s, Writes(reg, c), reg.reactivePower);
    LastTarget(reg, c);
    hide Writes, Apply, Last;
  }

  lemma LastTarget(reg: RegisterMap, c: Control)
    requires Apart(reg)
    ensures c.targetW.Some? ==> Last(Writes(reg, c), reg.activePower) == c.targetW
    ensures c.targetVar.Some? ==> Last(Writes(reg, c), reg.reactivePower) == c.targetVar
  {
    var a := IfInt(reg.activePower, c.fixedW);
    var b := IfInt(reg.activePower, c.targetW);
    var d := IfInt(reg.maxPowerLimit, c.maxLimW) + IfInt(reg.reactivePower, c.fixedVar);
    var e := IfInt(reg.reactivePower, c.targetVar);
    var f := IfInt(reg.rampTime, c.rampTms) + IfBool(reg.connect, c.connect) + IfBool(reg.energize, c.energize);
    assert Writes(reg, c) == (a + b) + (d + (e + f)) == (a + b + d + e) + f;
    LastNone(d + (e + f), reg.activePower);
    LastNone(f, reg.reactivePower);
    LastOne(reg.activePower, c.targetW);
    LastOne(reg.reactivePower, c.targetVar);
    hide Writes, Last, IfInt, IfBool;
    LastBehind(a + b + d + e, f, reg.reactivePower);
    LastBehind(a + b + d, e, reg.reactivePower);
    LastBehind(a + b, d + (e + f), reg.activePower);
    LastBehind(a, b, reg.activePower);
  }

  lemma LastOne(a: int, v: Option<int>)
    ensures Last(IfInt(a, v), a) == v
  {
  }

  lemma {:induction false} LastNone(ws: seq<Write>, a: int)
    requires forall i :: 0 <= i < |ws| ==> ws[i].address != a
    ensures Last(ws, a).None?
    decreases |ws|
  {
    if ws != [] { LastNone(ws[..|ws| - 1], a); }
  }

  lemma {:induction false} LastBehind(x: seq<Write>, y: seq<Write>, a: int)
    ensures Last(x + y, a) == if Last(y, a).Some? then Last(y, a) else Last(x, a)
    decreases |y|
  {
    if y == [] {
      assert x + y == x;
    } else {
      assert (x + y)[..|x + y| - 1] == x + y[..|y| - 1];
      LastBehind(x, y[..|y| - 1], a);
    }
  }

  // ---- every field in its register ----

  predicate Distinct(reg: RegisterMap) {
    && reg.activePower !in {reg.maxPowerLimit, reg.reactivePower, reg.rampTime, reg.connect, reg.energize}
    && reg.maxPowerLimit !in {reg.reactivePower, reg.rampTime, reg.connect, reg.energize}
    && reg.reactivePower !in {reg.rampTime, reg.connect, reg.energize}
    && reg.rampTime !in {reg.connect, reg.energize}
    && reg.connect != reg.energize
  }

  function Otherwise(v: Option<int>, x: int): int { if v.Some? then v.value else x }
  function Digit(v: Option<bool>, x: int): int { if v == Some(true) then 1 else if v == Some(false) then 0 else x }

  /** A start or a default control, whichever writes fail: the registers
      are written in the order of their declaration up to one that fails, each with its own
      field, the target where there is one and not the fixed value. A register without a field
      of the control, behind the failure, or none of the six, is as it was. */
  lemma FieldsWritten(reg: RegisterMap, s: State, e: Event, fails: set<int>, a: int)
    requires Distinct(reg) && (e.Start? || e.DefaultControl?)
    ensures var c, r, was := e.control, Next(reg, s, e, fails), Register(s.device, a);
      var f1 := (c.fixedW.Some? || c.targetW.Some?) && reg.activePower in fails;
      var f2 := f1 || (c.maxLimW.Some? && reg.maxPowerLimit in fails);
      var f3 := f2 || ((c.fixedVar.Some? || c.targetVar.Some?) && reg.reactivePower in fails);
      var f4 := f3 || (c.rampTms.Some? && reg.rampTime in fails);
      var f5 := f4 || (c.connect.Some? && reg.connect in fails);
      var f6 := f5 || (c.energize.Some? && reg.energize in fails);
      Register(r.device, a) ==
        if a == reg.activePower && !f1 then Otherwise(c.targetW, Otherwise(c.fixedW, was))
        else if a == reg.maxPowerLimit && !f2 then Otherwise(c.maxLimW, was)
        else if a == reg.reactivePower && !f3 then Otherwise(c.targetVar, Otherwise(c.fixedVar, was))
        else if a == reg.rampTime && !f4 then Otherwise(c.rampTms, was)
        else if a == reg.connect && !f5 then Digit(c.connect, was)
        else if a == reg.energize && !f6 then Digit(c.energize, was)
        else was
  {
    var c, t := e.control, if e.Start? then s else s.(active := map[]);
    NothingApplied(t, fails);
    var w1 := [] + IfInt(reg.activePower, c.fixedW);
    var w2 := w1 + IfInt(reg.activePower, c.targetW);
    var w3 := w2 + IfInt(reg.maxPowerLimit, c.maxLimW);
    var w4 := w3 + IfInt(reg.reactivePower, c.fixedVar);
    var w5 := w4 + IfInt(reg.reactivePower, c.targetVar);
    var w6 := w5 + IfInt(reg.rampTime, c.rampTms);
    var w7 := w6 + IfInt(reg.connect, AsInt(c.connect));
    var w8 := w7 + IfInt(reg.energize, AsInt(c.energize));
    AsIntWrites(reg.connect, c.connect);
    AsIntWrites(reg.energize, c.energize);
    assert w1 == IfInt(reg.activePower, c.fixedW);
    assert Writes(reg, c) == w8;
    hide Writes, IfInt, IfBool, Apply, Stops;
    FieldApplied(t, [], reg.activePower, c.fixedW, fails, a);
    FieldApplied(t, w1, reg.activePower, c.targetW, fails, a);
    FieldApplied(t, w2, reg.maxPowerLimit, c.maxLimW, fails, a);
    FieldApplied(t, w3, reg.reactivePower, c.fixedVar, fails, a);
    FieldApplied(t, w4, reg.reactivePower, c.targetVar, fails, a);
    FieldApplied(t, w5, reg.rampTime, c.rampTms, fails, a);
    FieldApplied(t, w6, reg.connect, AsInt(c.connect), fails, a);
    FieldApplied(t, w7, reg.energize, AsInt(c.energize), fails, a);
    hide Register;
  }

  /** One more field behind the writes `ws`. */
  lemma FieldApplied(s: State, ws: seq<Write>, b: int, v: Option<int>, fails: set<int>, a: int)
    ensures Stops(ws + IfInt(b, v), fails) <==> Stops(ws, fails) || (v.Some? && b in fails)
    ensures Register(Apply(s, ws + IfInt(b, v), fails).device, a) ==
      if a == b && v.Some? && b !in fails && !Stops(ws, fails) then v.value else Register(Apply(s, ws, fails).device, a)
  {
    var t := Apply(s, ws, fails);
    ApplyMore(s, ws, IfInt(b, v), fails);
    StopsMore(ws, IfInt(b, v), fails);
    if v.Some? { ApplyNext(t, Write(b, v.value), fails); } else { NothingApplied(t, fails); }
    hide Stops, Apply;
  }

  // ---- the code ----

  class DERBridge {
    const registers: RegisterMap
    var device: map<int, int>
    var active: map<int, int>

    function View(): State
      reads this
    {
      State(device, active)
    }

    constructor (registers: RegisterMap)
      ensures View() == START && this.registers == registers && Tracked(View())
    {
      this.registers := registers;
      device, active := map[], map[];
    }

    /** `_write`: a write that fails is raised, and not recorded. */
    method WriteRegister(address: int, value: int, fails: set<int>) returns (raised: bool)
      modifies this
      ensures raised <==> address in fails
      ensures View() == if raised then old(View())
        else State(old(device)[address := value], old(active)[address := value])
    {
      if address in fails { return true; }
      device := device[address := value];
      active := active[address := value];
      raised := false;
    }

    /** A field, if the control carries it and no write of `done` has failed. */
    method Field(address: int, value: Option<int>, fails: set<int>, before: bool, ghost s: State, ghost done: seq<Write>)
      returns (raised: bool, ghost more: seq<Write>)
      requires before == Stops(done, fails) && View() == Apply(s, done, fails)
      modifies this
      ensures more == done + IfInt(address, value)
      ensures raised == Stops(more, fails) && View() == Apply(s, more, fails)
    {
      more := done + IfInt(address, value);
      ApplyMore(s, done, IfInt(address, value), fails);
      StopsMore(done, IfInt(address, value), fails);
      raised := before;
      if !before && value.Some? {
        raised := WriteRegister(address, value.value, fails);
        ApplyNext(old(View()), Write(address, value.value), fails);
      }
      hide Apply, Stops;
    }

    /** `_apply_control`; a failing write ends it. */
    method ApplyControl(c: Control, fails: set<int>) returns (raised: bool)
      modifies this
      ensures View() == Apply(old(View()), Writes(registers, c), fails)
      ensures raised == Stops(Writes(registers, c), fails)
    {
      ghost var s := View();
      ghost var ws: seq<Write> := [];
      raised := false;
      hide Apply, Stops, IfInt, IfBool;
      NothingApplied(s, fails);
      raised, ws := Field(registers.activePower, c.fixedW, fails, raised, s, ws);
      raised, ws := Field(registers.activePower, c.targetW, fails, raised, s, ws);
      raised, ws := Field(registers.maxPowerLimit, c.maxLimW, fails, raised, s, ws);
      raised, ws := Field(registers.reactivePower, c.fixedVar, fails, raised, s, ws);
      raised, ws := Field(registers.reactivePower, c.targetVar, fails, raised, s, ws);
      raised, ws := Field(registers.rampTime, c.rampTms, fails, raised, s, ws);
      raised, ws := Field(registers.connect, AsInt(c.connect), fails, raised, s, ws);
      raised, ws := Field(registers.energize, AsInt(c.energize), fails, raised, s, ws);
      AsIntWrites(registers.connect, c.connect);
      AsIntWrites(registers.energize, c.energize);
      assert ws == Writes(registers, c);
    }

    /** `_relinquish`: a failure is logged, and the next register is cleared. */
    method RelinquishAll(fails: set<int>)
      modifies this
      ensures active == map[] && forall a :: Register(device, a) == Register(Relinquish(old(View()), fails).device, a)
    {
      var left: set<int> := active.Keys;
      while left != {}
        invariant left <= active.Keys && active == old(active)
        invariant forall a ::
          Register(device, a) == if a in active && a !in left && a !in fails then 0 else Register(old(device), a)
        decreases |left|
      {
        Inhabited(left);
        var address: int :| address in left;
        left := left - {address};
        if address !in fails { device := device[address := 0]; }
      }
      active := map[];
      forall a ensures Register(device, a) == Register(Relinquish(old(View()), fails).device, a) {
        RelinquishRegister(old(View()), fails, a);
      }
    }

    /** `apply` keeps the record true exactly when the event is safe. */
    method Take(e: Event, fails: set<int>)
      modifies this
      ensures active == Next(registers, old(View()), e, fails).active
      ensures forall a :: Register(device, a) == Register(Next(registers, old(View()), e, fails).device, a)
      ensures old(Tracked(View())) ==> (Tracked(View()) <==> Safe(registers, old(View()), e, fails))
    {
      ghost var s := View();
      hide Apply, Writes, Relinquish, Reached;
      match e {
        case Start(c) => var _ := ApplyControl(c, fails);
        case End => RelinquishAll(fails);
        case DefaultControl(c) =>
          active := map[];
          var _ := ApplyControl(c, fails);
        case Other =>
      }
      if Tracked(s) { TrackedExactly(registers, s, e, fails); }
      RelinquishForgets(s, fails);
      assert Tracked(View()) <==> Tracked(Next(registers, s, e, fails));
    }
  }

  lemma Inhabited(s: set<int>)
    requires s != {}
    ensures exists a :: a in s
  {
    assert (forall a: int :: a !in s) ==> s == {};
  }

  function AsInt(v: Option<bool>): Option<int> { if v.None? then None else Some(if v.value then 1 else 0) }

  lemma AsIntWrites(a: int, v: Option<bool>)
    ensures IfInt(a, AsInt(v)) == IfBool(a, v)
  {
  }

  lemma RelinquishRegister(s: State, fails: set<int>, a: int)
    ensures Register(Relinquish(s, fails).device, a) == if a in s.active && a !in fails then 0 else Register(s.device, a)
  {
  }

  lemma RelinquishForgets(s: State, fails: set<int>)
    ensures Relinquish(s, fails).active == map[]
  {
  }

  /** Whether some write of a list fails. */
  predicate Stops(ws: seq<Write>, fails: set<int>) { exists i :: 0 <= i < |ws| && ws[i].address in fails }

  lemma NothingApplied(s: State, fails: set<int>)
    ensures Apply(s, [], fails) == s && !Stops([], fails)
  {
  }

  lemma ApplyNext(s: State, w: Write, fails: set<int>)
    ensures Apply(s, [w], fails) == if w.address in fails then s else State(s.device[w.address := w.value], s.active[w.address := w.value])
    ensures Stops([w], fails) <==> w.address in fails
  {
    assert [w][1..] == [] && [w][0] == w;
  }

  lemma StopsMore(x: seq<Write>, y: seq<Write>, fails: set<int>)
    ensures Stops(x + y, fails) <==> Stops(x, fails) || Stops(y, fails)
    ensures x + [] == x && !Stops([], fails)
  {
    if i :| 0 <= i < |x| && x[i].address in fails { assert (x + y)[i] == x[i]; }
    if i :| 0 <= i < |y| && y[i].address in fails { assert (x + y)[|x| + i] == y[i]; }
  }

  /** Two lists of writes, one after the other. */
  lemma {:induction false} ApplyMore(s: State, x: seq<Write>, y: seq<Write>, fails: set<int>)
    ensures Apply(s, x + y, fails) == if Stops(x, fails) then Apply(s, x, fails) else Apply(Apply(s, x, fails), y, fails)
    decreases |x|
  {
    if x == [] {
      assert x + y == y;
    } else if x[0].address !in fails {
      ApplyMore(State(s.device[x[0].address := x[0].value], s.active[x[0].address := x[0].value]), x[1..], y, fails);
      assert x == [x[0]] + x[1..] && (x + y)[1..] == x[1..] + y;
      StopsMore([x[0]], x[1..], fails);
      assert !Stops([x[0]], fails);
    } else {
      assert (x + y)[0] == x[0];
    }
  }
}
