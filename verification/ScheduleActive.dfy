/**
 One call of `insert_active`, told from the state before it: which active blocks it
 supersedes, and whether the block it is to insert gives up.
 */
module ScheduleActive {
  import opened Common
  import opened Schedule

  /** The bits held by the first `n` active blocks that `id` does not outrank. */
  ghost function Held(s: State, id: Id, n: nat): Mask
    requires s.Has(id) && AllIn(s, s.active) && n <= |s.active|
  {
    if n == 0 then {}
    else Held(s, id, n - 1) + if Outranks(s, id, s.active[n - 1]) then {} else s.blocks[s.active[n - 1]].der
  }

  /** The active block at `i` takes the last bit of the new one. */
  ghost predicate GivesUpAt(s: State, id: Id, i: nat)
    requires s.Has(id) && AllIn(s, s.active) && i < |s.active|
  {
    !Outranks(s, id, s.active[i]) && s.events[id].mask <= Held(s, id, i + 1)
  }

  ghost predicate GivesUpBefore(s: State, id: Id, n: nat)
    requires s.Has(id) && AllIn(s, s.active) && n <= |s.active|
  {
    exists i :: 0 <= i < n && GivesUpAt(s, id, i)
  }

  /** The active blocks that the new one does not outrank hold all it asks for. */
  ghost predicate GivesUp(s: State, id: Id)
    requires s.Has(id) && AllIn(s, s.active)
  {
    GivesUpBefore(s, id, |s.active|)
  }

  /** The new block takes all that the active block at `j` holds, and gets as far as that. */
  ghost predicate Strikes(s: State, id: Id, j: nat)
    requires s.Has(id) && AllIn(s, s.active) && j < |s.active|
  {
    && Outranks(s, id, s.active[j])
    && (s.events[id].mask == {} || s.blocks[s.active[j]].der <= s.events[id].mask)
    && !GivesUpBefore(s, id, j)
  }

  lemma {:induction false} HeldWithin(s: State, id: Id, n: nat, m: Mask)
    requires s.Has(id) && AllIn(s, s.active) && n <= |s.active|
    requires forall k :: 0 <= k < n ==> s.blocks[s.active[k]].der !! m
    ensures Held(s, id, n) !! m
  {
    hide Outranks;
    if n > 0 { HeldWithin(s, id, n - 1, m); }
  }

  /** Whoever has no bit left has given up. */
  lemma {:induction false} NothingLeft(s: State, id: Id, n: nat)
    requires s.Has(id) && AllIn(s, s.active) && n <= |s.active|
    requires s.events[id].mask != {} && s.events[id].mask <= Held(s, id, n)
    ensures GivesUpBefore(s, id, n)
  {
    if n > 0 {
      if Outranks(s, id, s.active[n - 1]) {
        NothingLeft(s, id, n - 1);
        var i :| 0 <= i < n - 1 && GivesUpAt(s, id, i);
      } else {
        assert GivesUpAt(s, id, n - 1);
      }
    }
  }

  lemma OneFurther(s: State, id: Id, n: nat)
    requires s.Has(id) && AllIn(s, s.active) && n < |s.active|
    ensures GivesUpBefore(s, id, n + 1) <==> GivesUpBefore(s, id, n) || GivesUpAt(s, id, n)
  {
    hide GivesUpAt;
    if GivesUpBefore(s, id, n) {
      var i :| 0 <= i < n && GivesUpAt(s, id, i);
    }
    if GivesUpBefore(s, id, n + 1) && !GivesUpAt(s, id, n) {
      var i :| 0 <= i < n + 1 && GivesUpAt(s, id, i);
      assert i < n;
    }
  }

  /** A block that may be inserted: active blocks share no bit, and it is not among them. */
  ghost predicate Separate(s: State, id: Id) {
    && s.Has(id) && Known(s) && Unique(s.active) && id !in s.active
    && (forall i, j :: 0 <= i < j < |s.active| ==> s.blocks[s.active[i]].der !! s.blocks[s.active[j]].der)
    && (forall k :: k in s.active ==> !s.blocks[k].status.Superseded?)
    && !s.blocks[id].status.Superseded?
  }

  /** The loop of `insert_active`, called on `s0`, has come to position `n`. */
  ghost predicate Reached(s0: State, s: State, id: Id, n: nat)
    requires Separate(s0, id)
  {
    && Known(s) && s.events == s0.events && s.blocks.Keys == s0.blocks.Keys && n <= |s0.active|
    && !GivesUpBefore(s0, id, n)
    && s.blocks[id] == s0.blocks[id].(der := s0.events[id].mask - Held(s0, id, n))
    && (forall k :: n <= k < |s0.active| ==> s.blocks[s0.active[k]] == s0.blocks[s0.active[k]])
  }

  /** The status `insert_active` leaves with the new block and with those from `n` on. */
  ghost predicate Outcome(s0: State, r: State, id: Id, n: nat)
    requires Separate(s0, id)
  {
    && r.blocks.Keys == s0.blocks.Keys
    && (r.blocks[id].status.Superseded? <==> GivesUp(s0, id))
    && (forall k :: n <= k < |s0.active| ==> (r.blocks[s0.active[k]].status.Superseded? <==> Strikes(s0, id, k)))
  }

  /** The loop changes the status of no block outside `rest`. */
  lemma {:induction false} StatusOutside(s: State, id: Id, rest: seq<Id>, k: Id)
    requires s.Has(id) && Known(s) && AllIn(s, rest) && k in s.blocks && k != id && k !in rest
    ensures ActiveLoop(s, id, rest).blocks[k].status == s.blocks[k].status
    decreases |rest|
  {
    hide Outranks, InsertSorted;
    if rest != [] {
      var (sup, s1) := BlockSupersede(s, id, rest[0]);
      assert rest == [rest[0]] + rest[1..];
      if sup {
        StatusOutside(Displace(s1, rest[0], s1.blocks[id].start).(active := rest[1..]), id, rest[1..], k);
      } else if s1.blocks[id].der != {} {
        StatusOutside(s1, id, rest[1..], k);
      }
    }
  }

  lemma NoneOver(x: Mask, y: Mask)
    ensures x - y == {} <==> x <= y
  {
    if x - y == {} {
      forall b | b in x ensures b in y { assert b in y || b in x - y; }
    }
  }

  lemma OutsideOf(x: Mask, mask: Mask, held: Mask)
    requires x !! held
    ensures x <= mask - held <==> x <= mask
  {
  }

  /** Meeting an active block that the new one outranks. */
  lemma Over(s0: State, s: State, id: Id, n: nat)
    requires Separate(s0, id) && Reached(s0, s, id, n) && n < |s0.active| && Outranks(s0, id, s0.active[n])
    ensures var a := s0.active[n];
      var (sup, s1) := BlockSupersede(s, id, a);
      && (sup <==> Strikes(s0, id, n))
      && (sup ==> var t := Displace(s1, a, s1.blocks[id].start).(active := s0.active[n + 1..]);
                  Reached(s0, t, id, n + 1) && t.blocks[a].status.Superseded?)
      && (!sup ==> s1.blocks[id].der != {} && Reached(s0, s1, id, n + 1) && s1.blocks[a].status == s0.blocks[a].status)
  {
    var a := s0.active[n];
    var mask, held := s0.events[id].mask, Held(s0, id, n);
    assert Outranks(s, id, a);
    OneFurther(s0, id, n);
    hide Outranks, GivesUpBefore;
    HeldWithin(s0, id, n, s0.blocks[a].der);
    if mask != {} && mask <= held { NothingLeft(s0, id, n); }
    NoneOver(mask, held);
    NoneOver(s0.blocks[a].der, mask - held);
    OutsideOf(s0.blocks[a].der, mask, held);
    hide Held;
    assert forall k :: n < k < |s0.active| ==> s0.active[k] != a;
  }

  /** Meeting one that it does not outrank. */
  lemma Under(s0: State, s: State, id: Id, n: nat)
    requires Separate(s0, id) && Reached(s0, s, id, n) && n < |s0.active| && !Outranks(s0, id, s0.active[n])
    ensures var a := s0.active[n];
      var (sup, s1) := BlockSupersede(s, id, a);
      && !sup && !Strikes(s0, id, n) && s1.events == s.events && s1.blocks == s.blocks[id := s1.blocks[id]]
      && s1.blocks[id] == s0.blocks[id].(der := s1.blocks[id].der)
      && (s1.blocks[id].der == {} <==> GivesUpAt(s0, id, n))
      && (s1.blocks[id].der != {} ==> Reached(s0, s1, id, n + 1))
  {
    var a := s0.active[n];
    assert !Outranks(s, id, a);
    OneFurther(s0, id, n);
    var (sup, s1) := BlockSupersede(s, id, a);
    assert s1.blocks[id].der == s0.events[id].mask - Held(s0, id, n + 1);
    NoneOver(s0.events[id].mask, Held(s0, id, n + 1));
    hide Outranks, GivesUpBefore, Held;
    assert forall k :: n <= k < |s0.active| ==> s0.active[k] != id;
  }

  lemma {:induction false} LoopOutcome(s0: State, s: State, id: Id, n: nat)
    requires Separate(s0, id) && Reached(s0, s, id, n)
    ensures AllIn(s, s0.active[n..])
    ensures Outcome(s0, ActiveLoop(s, id, s0.active[n..]), id, n)
    decreases |s0.active| - n
  {
    var rest := s0.active[n..];
    assert forall i :: 0 <= i < |rest| ==> rest[i] == s0.active[n + i] && s.Has(rest[i]);
    if n == |s0.active| {
      AdmitOutcome(s0, s, id);
    } else {
      var a := s0.active[n];
      assert rest[0] == a && rest[1..] == s0.active[n + 1..];
      var (sup, s1) := BlockSupersede(s, id, a);
      if Outranks(s0, id, a) {
        Over(s0, s, id, n);
        var t := if sup then Displace(s1, a, s1.blocks[id].start).(active := rest[1..]) else s1;
        hide Reached, Outranks, BlockSupersede, Strikes, GivesUp, Displace, Outcome;
        LoopOutcome(s0, t, id, n + 1);
        OneMore(s0, t, id, n);
      } else {
        Under(s0, s, id, n);
        if s1.blocks[id].der == {} {
          NothingMore(s0, s, s1, id, n);
        } else {
          hide Reached, Outranks, BlockSupersede, Strikes, GivesUp, Outcome;
          LoopOutcome(s0, s1, id, n + 1);
          OneMore(s0, s1, id, n);
        }
      }
    }
  }

  /** What comes later does not touch the block at `n`. */
  lemma OneMore(s0: State, t: State, id: Id, n: nat)
    requires Separate(s0, id) && n < |s0.active| && Reached(s0, t, id, n + 1)
    requires t.blocks[s0.active[n]].status.Superseded? <==> Strikes(s0, id, n)
    requires AllIn(t, s0.active[n + 1..]) && Outcome(s0, ActiveLoop(t, id, s0.active[n + 1..]), id, n + 1)
    ensures Outcome(s0, ActiveLoop(t, id, s0.active[n + 1..]), id, n)
  {
    hide Strikes, GivesUp, ActiveLoop, Outranks, GivesUpBefore, Held;
    var a, rest := s0.active[n], s0.active[n + 1..];
    assert a in s0.active && a != id;
    assert a !in rest;
    StatusOutside(t, id, rest, a);
  }

  lemma AdmitOutcome(s0: State, s: State, id: Id)
    requires Separate(s0, id) && Reached(s0, s, id, |s0.active|)
    ensures Outcome(s0, ActiveLoop(s, id, []), id, |s0.active|)
  {
    hide Outranks, InsertSorted, GivesUpBefore;
  }

  lemma NothingMore(s0: State, s: State, s1: State, id: Id, n: nat)
    requires Separate(s0, id) && Reached(s0, s, id, n) && n < |s0.active| && GivesUpAt(s0, id, n)
    requires s1.Has(id) && s1.events == s.events && s1.blocks == s.blocks[id := s1.blocks[id]]
    ensures Outcome(s0, s1.Set(id, s1.blocks[id].(status := Superseded)), id, n)
  {
    hide GivesUpAt, Held, Outranks;
    forall k | n <= k < |s0.active| ensures !Strikes(s0, id, k) && s0.active[k] != id && !s0.blocks[s0.active[k]].status.Superseded? {
      assert s0.active[k] in s0.active;
      if k > n { assert GivesUpBefore(s0, id, k); } else { NotBoth(s0, id, n); }
    }
    assert GivesUp(s0, id);
    hide Strikes, GivesUp, GivesUpBefore;
  }

  lemma NotBoth(s: State, id: Id, n: nat)
    requires s.Has(id) && AllIn(s, s.active) && n < |s.active| && GivesUpAt(s, id, n)
    ensures !Strikes(s, id, n)
  {
  }

  /** `insert_active` supersedes exactly the active blocks it strikes, and the new block
      exactly when it gives up. */
  lemma InsertOutcome(s: State, id: Id)
    requires Separate(s, id)
    ensures Outcome(s, InsertActive(s, id), id, 0)
  {
    var t := s.Set(id, s.blocks[id].(der := s.events[id].mask));
    assert s.active[0..] == s.active;
    assert s.events[id].mask - Held(s, id, 0) == s.events[id].mask;
    assert forall k :: 0 <= k < |s.active| ==> s.active[k] != id;
    assert Reached(s, t, id, 0);
    LoopOutcome(s, t, id, 0);
  }
}
