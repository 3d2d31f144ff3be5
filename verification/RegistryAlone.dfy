/**
 The registry's atomic steps and the processor's whole ones: a call to `add` that nothing disturbs finds, takes or is
 refused exactly what the processor's `add`, taken as one step, does.
 */
module RegistryAlone {
  import opened Basics
  import opened DeviceRegistry
  import InputProcessor

  /** The state after `n` moves of thread `t` and of no other. */
  function Alone(s: State, t: nat, n: nat): (s': State)
    requires Shaped(s) && t < |s.pcs|
    ensures Shaped(s') && |s'.pcs| == |s.pcs|
    decreases n
  {
    if n == 0 then s else
      StaysShaped(s, t, false);
      Alone(Next(s, t, false), t, n - 1)
  }

  lemma AloneSteps(s: State, t: nat, n: nat)
    requires Shaped(s) && t < |s.pcs|
    ensures Alone(s, t, 0) == s
    ensures var s' := Next(s, t, false);
            Shaped(s') && |s'.pcs| == |s.pcs| && Alone(s, t, n + 1) == Alone(s', t, n)
  {
    StaysShaped(s, t, false);
  }

  lemma {:induction false} AloneOn(s: State, t: nat, n: nat, m: nat)
    requires Shaped(s) && t < |s.pcs|
    ensures Alone(s, t, n + m) == Alone(Alone(s, t, n), t, m)
    decreases n
  {
    AloneSteps(s, t, n);
    hide Alone, Next, Shaped, Act, Apply, InRange;
    if n > 0 {
      AloneSteps(s, t, n - 1);
      AloneSteps(s, t, n - 1 + m);
      AloneOn(Next(s, t, false), t, n - 1, m);
    }
  }

  /** No other thread is in the middle of anything: no record is claimed or being written. */
  predicate Quiet(recs: seq<Rec>) {
    forall k :: 0 <= k < |recs| ==> recs[k].status != Claimed && !recs[k].writing
  }

  /** Thread `t` stands at `pc` with the records as `recs`; the others are where they were. */
  ghost predicate Stands(s: State, c: State, t: nat, pc: Pc, recs: seq<Rec>) {
    t < |s.pcs| && c.ids == s.ids && c.recs == recs && c.pcs == s.pcs[t := pc]
  }

  lemma OneMove(s: State, t: nat)
    requires Shaped(s) && t < |s.pcs|
    ensures var e := Act(s.pcs[t], s.recs, s.ids[t], false);
            Stands(s, Alone(s, t, 1), t, e.pc, if e.Store? then s.recs[e.i := e.rec] else s.recs)
  {
    StaysShaped(s, t, false);
    assert Alone(Next(s, t, false), t, 0) == Next(s, t, false);
  }

  /** One move to `pc`, and then `m` more. */
  lemma MoveOn(s: State, t: nat, pc: Pc, recs: seq<Rec>) returns (c: State)
    requires Shaped(s) && t < |s.pcs|
    requires var e := Act(s.pcs[t], s.recs, s.ids[t], false);
             e.pc == pc && recs == (if e.Store? then s.recs[e.i := e.rec] else s.recs)
    ensures Shaped(c) && Stands(s, c, t, pc, recs)
    ensures forall m: nat :: Alone(s, t, 1 + m) == Alone(c, t, m)
  {
    OneMove(s, t);
    c := Alone(s, t, 1);
    forall m: nat ensures Alone(s, t, 1 + m) == Alone(c, t, m) { AloneOn(s, t, 1, m); }
  }

  predicate Carries(r: Rec, id: DeviceId) {
    r.status == Live && r.text == id
  }

  /** The lookup ends on the lowest Live record with the id, or goes on to claim. */
  lemma {:induction false} Finds(s: State, t: nat, j: nat, found: Option<nat>) returns (n: nat)
    requires Shaped(s) && t < |s.pcs| && s.pcs[t] == FindLoad(j) && Quiet(s.recs)
    requires match found
             case Some(i) =>
               j <= i < MAX_DEVICES && Carries(s.recs[i], s.ids[t])
               && forall k :: j <= k < i ==> !Carries(s.recs[k], s.ids[t])
             case None => forall k :: j <= k < MAX_DEVICES ==> !Carries(s.recs[k], s.ids[t])
    ensures Stands(s, Alone(s, t, n), t, if found.Some? then Done(found) else TryClaim(0), s.recs)
    decreases MAX_DEVICES - j
  {
    hide Alone;
    if j == MAX_DEVICES {
      var c := MoveOn(s, t, TryClaim(0), s.recs);
      n := 1 + 0;
      Still(c, t);
    } else if s.recs[j].status != Live {
      var c := MoveOn(s, t, FindLoad(j + 1), s.recs);
      n := Finds(c, t, j + 1, found);
      n := 1 + n;
    } else {
      var c := MoveOn(s, t, FindMatch(j), s.recs);
      if s.recs[j].text == s.ids[t] {
        var d := MoveOn(c, t, FindConfirm(j), s.recs);
        var e := MoveOn(d, t, Done(Some(j)), s.recs);
        Still(e, t);
        n := 1 + (1 + (1 + 0));
      } else {
        var d := MoveOn(c, t, FindLoad(j + 1), s.recs);
        n := Finds(d, t, j + 1, found);
        n := 1 + (1 + n);
      }
    }
  }

  lemma Still(s: State, t: nat)
    requires Shaped(s) && t < |s.pcs|
    ensures Alone(s, t, 0) == s
  {
  }

  /** The claim ends on the lowest Free record, or with a refusal. */
  lemma {:induction false} Claims(s: State, t: nat, j: nat, free: Option<nat>) returns (n: nat)
    requires Shaped(s) && t < |s.pcs| && s.pcs[t] == TryClaim(j)
    requires match free
             case Some(i) =>
               j <= i < MAX_DEVICES && s.recs[i].status == Free && forall k :: j <= k < i ==> s.recs[k].status != Free
             case None => forall k :: j <= k < MAX_DEVICES ==> s.recs[k].status != Free
    ensures Stands(s, Alone(s, t, n), t, if free.Some? then OpenId(free.value) else Done(None),
                   if free.Some? then s.recs[free.value := s.recs[free.value].(status := Claimed)] else s.recs)
    decreases MAX_DEVICES - j
  {
    hide Alone;
    if j == MAX_DEVICES {
      var c := MoveOn(s, t, Done(None), s.recs);
      Still(c, t);
      n := 1 + 0;
    } else if s.recs[j].status == Free {
      var c := MoveOn(s, t, OpenId(j), s.recs[j := s.recs[j].(status := Claimed)]);
      Still(c, t);
      n := 1 + 0;
    } else {
      var c := MoveOn(s, t, TryClaim(j + 1), s.recs);
      n := Claims(c, t, j + 1, free);
      n := 1 + n;
    }
  }

  /** With its id on no lower record the thread keeps its own. */
  lemma {:induction false} Keeps(s: State, t: nat, i: nat, j: nat) returns (n: nat)
    requires Shaped(s) && t < |s.pcs| && s.pcs[t] == CheckLower(i, j) && j <= i < MAX_DEVICES
    requires forall k :: 0 <= k < i ==> s.recs[k].status != Claimed && !s.recs[k].writing
    requires forall k :: 0 <= k < i ==> !Carries(s.recs[k], s.ids[t])
    ensures Stands(s, Alone(s, t, n), t, Done(Some(i)), s.recs)
    decreases i - j
  {
    hide Alone;
    if j == i {
      var c := MoveOn(s, t, Done(Some(i)), s.recs);
      Still(c, t);
      n := 1 + 0;
    } else if s.recs[j].status == Free {
      var c := MoveOn(s, t, CheckLower(i, j + 1), s.recs);
      n := Keeps(c, t, i, j + 1);
      n := 1 + n;
    } else {
      var c := MoveOn(s, t, MatchLower(i, j), s.recs);
      var d := MoveOn(c, t, CheckLower(i, j + 1), s.recs);
      n := Keeps(d, t, i, j + 1);
      n := 1 + (1 + n);
    }
  }

  /** From its claim on, the thread writes its id, goes Live and keeps the record. */
  lemma Settles(s: State, t: nat, i: nat) returns (n: nat)
    requires Shaped(s) && t < |s.pcs| && s.pcs[t] == OpenId(i) && i < MAX_DEVICES
    requires forall k :: 0 <= k < i ==> s.recs[k].status != Claimed && !s.recs[k].writing
    requires forall k :: 0 <= k < i ==> !Carries(s.recs[k], s.ids[t])
    ensures Stands(s, Alone(s, t, n), t, Done(Some(i)), s.recs[i := Rec(Live, false, s.ids[t])])
  {
    hide Alone;
    var c := MoveOn(s, t, CloseId(i), s.recs[i := s.recs[i].(writing := true)]);
    var d := MoveOn(c, t, GoLive(i), c.recs[i := c.recs[i].(writing := false, text := s.ids[t])]);
    var e := MoveOn(d, t, CheckLower(i, 0), d.recs[i := d.recs[i].(status := Live)]);
    n := Keeps(e, t, i, 0);
    n := 1 + (1 + (1 + n));
  }

  // ---- the whole call ----

  /** The registry's records and the processor's entries are the same devices in the same places. */
  ghost predicate Same(recs: seq<Rec>, es: seq<InputProcessor.Entry>) {
    && |recs| == |es|
    && forall i :: 0 <= i < |es| ==>
         && recs[i].status == (if es[i].live then Live else Free)
         && (es[i].live ==> recs[i].text == es[i].id)
  }

  /** An id that is not there ends up on the lowest free entry, if there is one. */
  lemma AddTakesLowest(es: seq<InputProcessor.Entry>, id: DeviceId)
    requires |id| <= MAX_ID_BYTES && InputProcessor.IndexOf(es, id) == None
    ensures var (after, free) := (InputProcessor.AfterAdd(es, id), InputProcessor.LowestFree(es));
            && InputProcessor.IndexOf(after, id) == free
            && (match free
                case Some(i) =>
                  && i < |es| && !es[i].live && (forall k :: 0 <= k < i ==> es[k].live)
                  && |after| == |es| && after[i].live && after[i].id == id && after == es[i := after[i]]
                case None => after == es && forall k :: 0 <= k < |es| ==> es[k].live)
  {
    InputProcessor.IndexOfFinds(es, id);
    InputProcessor.LowestFreeFinds(es);
    InputProcessor.IndexOfFinds(InputProcessor.AfterAdd(es, id), id);
  }

  /** The thread takes the lowest Free record for an id no Live record carries, and is done. */
  lemma TakesLowest(s: State, t: nat, i: nat) returns (n: nat)
    requires Shaped(s) && t < |s.pcs| && s.pcs[t] == TryClaim(0) && Quiet(s.recs) && i < MAX_DEVICES
    requires s.recs[i].status == Free && forall k :: 0 <= k < i ==> s.recs[k].status != Free
    requires forall k :: 0 <= k < i ==> !Carries(s.recs[k], s.ids[t])
    ensures Stands(s, Alone(s, t, n), t, Done(Some(i)), s.recs[i := Rec(Live, false, s.ids[t])])
  {
    hide Alone;
    n := Claims(s, t, 0, Some(i));
    var c := Alone(s, t, n);
    var m := Settles(c, t, i);
    AloneOn(s, t, n, m);
    n := n + m;
  }

  lemma ClaimsAndSettles(s: State, t: nat, es: seq<InputProcessor.Entry>) returns (n: nat)
    requires Shaped(s) && t < |s.pcs| && s.pcs[t] == TryClaim(0) && Quiet(s.recs) && Same(s.recs, es)
    requires |s.ids[t]| <= MAX_ID_BYTES && InputProcessor.IndexOf(es, s.ids[t]) == None
    ensures var c := Alone(s, t, n);
            var after := InputProcessor.AfterAdd(es, s.ids[t]);
            Same(c.recs, after) && c.pcs == s.pcs[t := Done(InputProcessor.IndexOf(after, s.ids[t]))]
  {
    var id, free := s.ids[t], InputProcessor.LowestFree(es);
    AddTakesLowest(es, id);
    InputProcessor.IndexOfFinds(es, id);
    hide Alone, InRange, InputProcessor.AfterAdd, InputProcessor.IndexOf, InputProcessor.LowestFree;
    if free.Some? {
      forall k | 0 <= k < free.value ensures !Carries(s.recs[k], id) {
        assert !InputProcessor.Carries(es[k], id);
      }
      n := TakesLowest(s, t, free.value);
    } else {
      n := Claims(s, t, 0, None);
    }
  }

  /** From any state in which no other call is under way, a call by one thread alone ends: with the records, and the
      answer, that the processor's `add` gives as one step. */
  lemma AloneIsWholeStep(s: State, t: nat, es: seq<InputProcessor.Entry>) returns (n: nat)
    requires Shaped(s) && t < |s.pcs| && s.pcs[t] == Enter && Quiet(s.recs) && Same(s.recs, es)
    ensures var c := Alone(s, t, n);
            var id := s.ids[t];
            var after := InputProcessor.AfterAdd(es, id);
            && Same(c.recs, after)
            && c.pcs == s.pcs[t := Done(if |id| > MAX_ID_BYTES then None else InputProcessor.IndexOf(after, id))]
  {
    hide Alone;
    var id := s.ids[t];
    if |id| > MAX_ID_BYTES {
      var c := MoveOn(s, t, Done(None), s.recs);
      Still(c, t);
      n := 1 + 0;
    } else {
      var c := MoveOn(s, t, FindLoad(0), s.recs);
      InputProcessor.IndexOfFinds(es, id);
      var found := InputProcessor.IndexOf(es, id);
      n := Finds(c, t, 0, found);
      if found.None? {
        AloneOn(s, t, 1 + n, 0);
        var m := ClaimsAndSettles(Alone(c, t, n), t, es);
        AloneOn(c, t, n, m);
        n := n + m;
      }
      n := 1 + n;
    }
  }
}
