/**
 Which active blocks `insert_active` keeps. Its loop unlinks a block by pointing the head of
 the list behind it, so a block that keeps its controls is nevertheless lost when a later
 one is superseded.
 */
module ScheduleSurvivors {
  import opened Common
  import opened Schedule
  import opened ScheduleActive
  import opened ScheduleLists
  import opened ScheduleSafety

  /** Some block of `q` is superseded. */
  predicate Struck(r: State, q: seq<Id>)
    requires AllIn(r, q)
  {
    exists j :: 0 <= j < |q| && r.blocks[q[j]].status.Superseded?
  }

  /** `q` from `k` on, or all of it. */
  function From(q: seq<Id>, k: Id): (r: seq<Id>)
    ensures Within(r, q)
  {
    if q == [] || k !in q[1..] then q else From(q[1..], k)
  }

  lemma {:induction false} FromAt(q: seq<Id>, p: nat)
    requires Unique(q) && p < |q|
    ensures From(q, q[p]) == q[p..]
  {
    if p == 0 {
      assert q[0] !in q[1..];
    } else {
      assert q[1..][p - 1] == q[p] && q[1..][p - 1..] == q[p..];
      FromAt(q[1..], p - 1);
    }
  }

  lemma StruckHead(r: State, q: seq<Id>, k: Id)
    requires AllIn(r, q) && q != [] && (k in q[1..] || !r.blocks[q[0]].status.Superseded?)
    ensures AllIn(r, From(q, k)) && AllIn(r, q[1..]) && AllIn(r, From(q[1..], k))
    ensures k !in q[1..] ==> From(q[1..], k) == q[1..]
    ensures Struck(r, From(q, k)) == Struck(r, From(q[1..], k))
  {
    if k !in q[1..] {
      assert From(q[1..], k) == q[1..] by { if |q| > 1 { assert k !in q[1..][1..]; } }
      hide From;
      assert forall j :: 0 < j < |q| ==> q[j] == q[1..][j - 1];
      assert forall j :: 0 <= j < |q| - 1 ==> q[1..][j] == q[j + 1];
    }
  }

  lemma {:induction false} LoopKeeps(s: State, id: Id, rest: seq<Id>, k: Id)
    requires Good(s) && Floating(s, id) && MetActive(s, id, rest) && k in s.active
    ensures var r := ActiveLoop(s, id, rest);
      AllIn(r, From(rest, k)) && (k in r.active <==> !Struck(r, From(rest, k)))
    decreases |rest|
  {
    assert Known(s);
    NotStruck(s, rest);
    if rest == [] {
      AdmitKeeps(s, id, k);
    } else {
      MeetActive(s, id, rest);
      hide Good, Outranks, Admit, Unique, Apart, Struck;
      var a := rest[0];
      var (sup, s1) := BlockSupersede(s, id, a);
      var r := ActiveLoop(s, id, rest);
      assert AllIn(r, rest) && AllIn(r, From(rest, k));
      if sup {
        hide BlockSupersede;
        DisplaceGood(s1, id, rest, s1.blocks[id].start);
        var t := Displace(s1, a, s1.blocks[id].start).(active := rest[1..]);
        assert t.blocks[a].status.Superseded?;
        assert r == ActiveLoop(t, id, rest[1..]);
        hide ActiveLoop, Displace;
        if k in rest[1..] {
          LoopKeeps(t, id, rest[1..], k);
          StruckHead(r, rest, k);
        } else {
          StruckKeeps(t, id, rest, k);
        }
      } else if s1.blocks[id].der != {} {
        hide BlockSupersede;
        LoopKeeps(s1, id, rest[1..], k);
        UniqueHead(rest);
        StatusOutside(s1, id, rest[1..], a);
        hide ActiveLoop;
        StruckHead(r, rest, k);
      } else {
        hide ActiveLoop;
        YieldKeeps(s, s1, id, rest, k);
      }
    }
  }

  lemma UniqueHead(q: seq<Id>)
    requires Unique(q) && q != []
    ensures q[0] !in q[1..]
  {
  }

  lemma NotStruck(s: State, rest: seq<Id>)
    requires Good(s) && Within(rest, s.active)
    ensures forall j :: 0 <= j < |rest| ==> !s.blocks[rest[j]].status.Superseded?
  {
  }

  lemma AdmitKeeps(s: State, id: Id, k: Id)
    requires Good(s) && Floating(s, id) && k in s.active
    ensures k in Admit(s, id).active
  {
    var t := if s.events[id].status.Scheduled? then s.Set(id, s.blocks[id].(status := ActiveWait)) else Activate(s, id);
    Inserted(Ends(t), t.active, id);
    hide InsertSorted, Good;
  }

  /** The block gives up: the queue stays, with nothing superseded in it. */
  lemma YieldKeeps(s: State, s1: State, id: Id, rest: seq<Id>, k: Id)
    requires Good(s) && Floating(s, id) && Within(rest, s.active) && s1.blocks.Keys == s.blocks.Keys && s1.events == s.events
    requires forall j :: j in s.blocks ==> s1.blocks[j].status == s.blocks[j].status
    ensures var r := s1.Set(id, s1.blocks[id].(status := Superseded));
      AllIn(r, From(rest, k)) && !Struck(r, From(rest, k))
  {
    var r := s1.Set(id, s1.blocks[id].(status := Superseded));
    var q := From(rest, k);
    hide From;
    forall j | 0 <= j < |q| ensures r.Has(q[j]) && !r.blocks[q[j]].status.Superseded? {
      assert q[j] in rest;
      assert q[j] in s.active;
    }
  }

  /** The first of `rest` has been superseded: what is not behind it is gone. */
  lemma StruckKeeps(t: State, id: Id, rest: seq<Id>, k: Id)
    requires rest != [] && Unique(rest) && k !in rest[1..] && k != id && rest[0] != id
    requires Good(t) && Floating(t, id) && t.active == rest[1..] && MetActive(t, id, t.active)
    requires rest[0] in t.blocks && t.blocks[rest[0]].status.Superseded? && k !in t.scheduled && k !in t.superseded
    requires AllIn(t, rest)
    ensures var r := ActiveLoop(t, id, t.active);
      AllIn(r, From(rest, k)) && Struck(r, From(rest, k)) && k !in r.active
  {
    var r := ActiveLoop(t, id, t.active);
    UniqueHead(rest);
    assert From(rest, k) == rest;
    GoodKnown(t);
    StatusOutside(t, id, t.active, rest[0]);
    ActiveLoopConfined(t, id, t.active);
    hide ActiveLoop, Good, From, Unique;
    assert Struck(r, rest) by { assert r.blocks[rest[0]].status.Superseded?; }
    assert k in r.active ==> Queueing(r, k);
    assert !Queueing(t, k);
  }

  /** `insert_active` keeps an active block exactly when it strikes neither that block nor
      any block behind it in the queue. */
  lemma KeptExactly(s: State, id: Id, p: nat)
    requires Good(s) && Floating(s, id) && p < |s.active|
    ensures s.active[p] in InsertActive(s, id).active <==> forall j :: p <= j < |s.active| ==> !Strikes(s, id, j)
  {
    FloatActive(s, id);
    var t := s.Set(id, s.blocks[id].(der := s.events[id].mask));
    LoopKeeps(t, id, s.active, s.active[p]);
    FromAt(s.active, p);
    FloatSeparate(s, id);
    InsertOutcome(s, id);
    hide Good, ActiveLoop, From, Strikes, GivesUp;
    var r := InsertActive(s, id);
    var q := s.active[p..];
    assert forall j :: 0 <= j < |q| ==> q[j] == s.active[p + j];
    assert forall j :: p <= j < |s.active| ==> s.active[j] == q[j - p];
  }

  // ---- the superseded queue ----

  /** `update_schedule` gives up the superseded blocks that are due only up to the first that
      is not: a block stays in the queue exactly when it or one in front of it is not due.
      The queue is filled at its head, so a due block may stand behind one that is not. */
  lemma {:induction false} GivenUpExactly(s: State, now: int, last: int, p: nat)
    requires Known(s) && Unique(s.superseded) && p < |s.superseded|
    ensures var k := s.superseded[p];
      k in GiveUp(s, now, last).0.superseded <==> exists j :: 0 <= j <= p && s.blocks[s.superseded[j]].start > now
    decreases |s.superseded|
  {
    var q := s.superseded;
    var e := q[0];
    if s.blocks[e].start <= now {
      var t := s.Set(e, s.blocks[e].(status := Superseded)).(superseded := q[1..]);
      assert forall j :: 0 <= j < |q| ==> t.blocks[q[j]].start == s.blocks[q[j]].start;
      if p == 0 {
        Thinner(t, now, last, e);
        UniqueHead(q);
      } else {
        GivenUpExactly(t, now, last, p - 1);
        assert forall j :: 0 <= j < |t.superseded| ==> t.superseded[j] == q[j + 1];
        assert forall j :: 0 < j < |q| ==> q[j] == t.superseded[j - 1];
      }
    }
  }

  lemma {:induction false} Thinner(s: State, now: int, last: int, k: Id)
    requires Known(s) && k !in s.superseded
    ensures k !in GiveUp(s, now, last).0.superseded
    decreases |s.superseded|
  {
    if s.superseded != [] && s.blocks[s.superseded[0]].start <= now {
      var e := s.superseded[0];
      Thinner(s.Set(e, s.blocks[e].(status := Superseded)).(superseded := s.superseded[1..]), now, last, k);
    }
  }
}
