/**
 Exactly which calls to `add` always agree: for every choice of ids outside the registry's theorem, a run of the same
 atomic steps that answers one id with two records.
 */
module RegistryAgreement {
  import opened Basics
  import opened DeviceRegistry

  // ---- every other choice of ids has a run whose answers differ ----

  /** Calls made in turn: for each pair the first call is over before the second begins. */
  type Turns = set<(nat, nat)>

  ghost predicate MayMove(s: State, t: nat, turns: Turns) {
    forall x :: x in turns ==>
      && x.0 < |s.pcs| && x.1 < |s.pcs| && x.0 != x.1
      && (t == x.0 ==> s.pcs[x.1] == Enter) && (t == x.1 ==> s.pcs[x.0].Done?)
  }

  ghost predicate InTurn(s: State, moves: seq<Move>, turns: Turns)
    requires Shaped(s) && Scheduled(s, moves)
    decreases |moves|
  {
    moves == [] ||
    (assert moves[0] in moves;
     StaysShaped(s, moves[0].thread, moves[0].giveUp);
     MayMove(s, moves[0].thread, turns) && InTurn(Next(s, moves[0].thread, moves[0].giveUp), moves[1..], turns))
  }

  lemma {:induction false} RunAppend(s: State, a: seq<Move>, b: seq<Move>, turns: Turns)
    requires Shaped(s) && Scheduled(s, a) && Scheduled(s, b)
    requires InTurn(s, a, turns) && InTurn(Run(s, a), b, turns)
    ensures Scheduled(s, a + b) && Run(s, a + b) == Run(Run(s, a), b) && InTurn(s, a + b, turns)
    decreases |a|
  {
    hide Next, MayMove;
    if a == [] {
      assert a + b == b;
    } else {
      assert a[0] in a;
      assert (a + b)[0] == a[0] && (a + b)[1..] == a[1..] + b;
      StaysShaped(s, a[0].thread, a[0].giveUp);
      RunAppend(Next(s, a[0].thread, a[0].giveUp), a[1..], b, turns);
    }
  }

  ghost predicate Reaches(s: State, s': State, turns: Turns) {
    Shaped(s) && exists moves :: Scheduled(s, moves) && InTurn(s, moves, turns) && Run(s, moves) == s'
  }

  lemma ReachesNext(a: State, b: State, t: nat, turns: Turns)
    requires Reaches(a, b, turns) && Shaped(b) && t < |b.pcs| && MayMove(b, t, turns)
    ensures Reaches(a, Next(b, t, true), turns) && Shaped(Next(b, t, true))
  {
    StaysShaped(b, t, true);
    var before :| Scheduled(a, before) && InTurn(a, before, turns) && Run(a, before) == b;
    var one := [Move(t, true)];
    assert one[1..] == [];
    RunAppend(a, before, one, turns);
  }

  /** From `b`, thread `t` has gone on to `pc`, leaving the records as `recs`. */
  ghost predicate Onward(a: State, b: State, c: State, t: nat, pc: Pc, recs: seq<Rec>, turns: Turns) {
    && Shaped(b) && Shaped(c) && t < |b.pcs| && Reaches(a, c, turns) && MayMove(c, t, turns)
    && c.ids == b.ids && c.recs == recs && c.pcs == b.pcs[t := pc]
  }

  lemma Advance(a: State, b: State, t: nat, pc: Pc, recs: seq<Rec>, turns: Turns) returns (c: State)
    requires Reaches(a, b, turns) && Shaped(b) && t < |b.pcs| && MayMove(b, t, turns)
    requires var e := Act(b.pcs[t], b.recs, b.ids[t], true);
             e.pc == pc && recs == (if e.Store? then b.recs[e.i := e.rec] else b.recs)
    ensures Onward(a, b, c, t, pc, recs, turns)
    ensures c.answers ==
            if pc.Done? && pc.answer.Some? then b.answers[t := b.answers[t] + {pc.answer.value}] else b.answers
  {
    ReachesNext(a, b, t, turns);
    hide Reaches;
    c := Next(b, t, true);
  }

  /** No Live record below `n` carries the id. */
  predicate NotThere(recs: seq<Rec>, n: nat, id: DeviceId)
    requires n <= |recs|
  {
    forall k :: 0 <= k < n && recs[k].status == Live ==> !recs[k].writing && recs[k].text != id
  }

  /** A lookup that finds nothing goes on to claim. */
  lemma {:induction false} Scans(a: State, b: State, t: nat, j: nat, turns: Turns) returns (c: State)
    requires Reaches(a, b, turns) && Shaped(b) && t < |b.pcs| && MayMove(b, t, turns)
    requires b.pcs[t] == FindLoad(j) && NotThere(b.recs, MAX_DEVICES, b.ids[t])
    ensures Onward(a, b, c, t, TryClaim(0), b.recs, turns) && c.answers == b.answers
    decreases MAX_DEVICES - j
  {
    hide Reaches, MayMove;
    if j == MAX_DEVICES {
      c := Advance(a, b, t, TryClaim(0), b.recs, turns);
    } else {
      if b.recs[j].status == Live {
        c := Advance(a, b, t, FindMatch(j), b.recs, turns);
        c := Advance(a, c, t, FindLoad(j + 1), b.recs, turns);
      } else {
        c := Advance(a, b, t, FindLoad(j + 1), b.recs, turns);
      }
      c := Scans(a, c, t, j + 1, turns);
    }
  }

  /** A claim passes the records that are taken and takes the first that is not. */
  lemma {:induction false} Takes(a: State, b: State, t: nat, j: nat, i: nat, turns: Turns) returns (c: State)
    requires Reaches(a, b, turns) && Shaped(b) && t < |b.pcs| && MayMove(b, t, turns)
    requires b.pcs[t] == TryClaim(j) && j <= i < MAX_DEVICES && b.recs[i].status == Free
    requires forall k :: j <= k < i ==> b.recs[k].status != Free
    ensures Onward(a, b, c, t, OpenId(i), b.recs[i := b.recs[i].(status := Claimed)], turns) && c.answers == b.answers
    decreases i - j
  {
    hide Reaches, MayMove;
    if j == i {
      c := Advance(a, b, t, OpenId(i), b.recs[i := b.recs[i].(status := Claimed)], turns);
    } else {
      c := Advance(a, b, t, TryClaim(j + 1), b.recs, turns);
      c := Takes(a, c, t, j + 1, i, turns);
    }
  }

  lemma LooksUp(a: State, b: State, t: nat, turns: Turns) returns (c: State)
    requires Reaches(a, b, turns) && Shaped(b) && t < |b.pcs| && MayMove(b, t, turns)
    requires b.pcs[t] == Enter && |b.ids[t]| <= MAX_ID_BYTES && NotThere(b.recs, MAX_DEVICES, b.ids[t])
    ensures Onward(a, b, c, t, TryClaim(0), b.recs, turns) && c.answers == b.answers
  {
    hide Reaches, MayMove;
    c := Advance(a, b, t, FindLoad(0), b.recs, turns);
    c := Scans(a, c, t, 0, turns);
  }

  lemma WritesOut(a: State, b: State, t: nat, i: nat, turns: Turns) returns (c: State)
    requires Reaches(a, b, turns) && Shaped(b) && t < |b.pcs| && MayMove(b, t, turns) && b.pcs[t] == OpenId(i)
    ensures Onward(a, b, c, t, CheckLower(i, 0), b.recs[i := Rec(Live, false, b.ids[t])], turns)
    ensures c.answers == b.answers
  {
    hide Reaches, MayMove;
    c := Advance(a, b, t, CloseId(i), b.recs[i := b.recs[i].(writing := true)], turns);
    c := Advance(a, c, t, GoLive(i), c.recs[i := c.recs[i].(writing := false, text := b.ids[t])], turns);
    c := Advance(a, c, t, CheckLower(i, 0), c.recs[i := c.recs[i].(status := Live)], turns);
  }

  /** A thread whose id is on no lower record keeps its own. */
  lemma {:induction false} Keeps(a: State, b: State, t: nat, i: nat, j: nat, turns: Turns) returns (c: State)
    requires Reaches(a, b, turns) && Shaped(b) && t < |b.pcs| && MayMove(b, t, turns)
    requires j <= i < MAX_DEVICES && b.pcs[t] == CheckLower(i, j) && NotThere(b.recs, i, b.ids[t])
    requires forall k :: j <= k < i ==> b.recs[k].status != Claimed
    ensures Onward(a, b, c, t, Done(Some(i)), b.recs, turns) && c.answers == b.answers[t := b.answers[t] + {i}]
    decreases i - j
  {
    hide Reaches, MayMove;
    if j == i {
      c := Advance(a, b, t, Done(Some(i)), b.recs, turns);
    } else {
      if b.recs[j].status == Live {
        c := Advance(a, b, t, MatchLower(i, j), b.recs, turns);
        c := Advance(a, c, t, CheckLower(i, j + 1), b.recs, turns);
      } else {
        c := Advance(a, b, t, CheckLower(i, j + 1), b.recs, turns);
      }
      c := Keeps(a, c, t, i, j + 1, turns);
    }
  }

  lemma FindsSecond(a: State, b: State, t: nat, turns: Turns) returns (c: State)
    requires Reaches(a, b, turns) && Shaped(b) && t < |b.pcs| && MayMove(b, t, turns)
    requires b.pcs[t] == Enter && |b.ids[t]| <= MAX_ID_BYTES
    requires b.recs[0].status == Claimed && b.recs[1] == Rec(Live, false, b.ids[t])
    ensures Onward(a, b, c, t, Done(Some(1)), b.recs, turns) && c.answers == b.answers[t := b.answers[t] + {1}]
  {
    hide Reaches, MayMove;
    c := Advance(a, b, t, FindLoad(0), b.recs, turns);
    c := Advance(a, c, t, FindLoad(1), b.recs, turns);
    c := Advance(a, c, t, FindMatch(1), b.recs, turns);
    c := Advance(a, c, t, FindConfirm(1), b.recs, turns);
    c := Advance(a, c, t, Done(Some(1)), b.recs, turns);
  }

  lemma GivesBackSecond(a: State, b: State, t: nat, turns: Turns) returns (c: State)
    requires Reaches(a, b, turns) && Shaped(b) && t < |b.pcs| && MayMove(b, t, turns)
    requires b.pcs[t] == CheckLower(1, 0) && b.recs[0] == Rec(Live, false, b.ids[t])
    ensures Onward(a, b, c, t, Done(Some(0)), b.recs[1 := b.recs[1].(status := Free)], turns)
    ensures c.answers == b.answers[t := b.answers[t] + {0}]
  {
    hide Reaches, MayMove;
    c := Advance(a, b, t, MatchLower(1, 0), b.recs, turns);
    c := Advance(a, c, t, GiveBack(1, 0), b.recs, turns);
    c := Advance(a, c, t, Done(Some(0)), b.recs[1 := b.recs[1].(status := Free)], turns);
  }

  lemma StartReaches(ids: seq<DeviceId>, turns: Turns)
    ensures Reaches(Start(ids), Start(ids), turns)
  {
    assert Run(Start(ids), []) == Start(ids);
  }

  /** Some run, with the calls in turn, gives two threads of one id different answers. */
  ghost predicate CanDisagree(ids: seq<DeviceId>, t: nat, u: nat, turns: Turns)
    requires t < |ids| && u < |ids|
  {
    exists moves ::
      Scheduled(Start(ids), moves) && InTurn(Start(ids), moves, turns) && !Agreed(Run(Start(ids), moves), t, u)
  }

  lemma AnyoneMayMove()
    ensures forall s: State, t: nat :: MayMove(s, t, {})
  {
  }

  /** `p` has claimed record 0, and record 1 is `q`'s and Live for the same id. */
  lemma UpperGoesLive(ids: seq<DeviceId>, p: nat, q: nat, r: nat) returns (c: State)
    requires p < |ids| && q < |ids| && r < |ids| && p != q && q != r && r != p
    requires ids[p] == ids[q] == ids[r] && |ids[p]| <= MAX_ID_BYTES
    ensures Reaches(Start(ids), c, {}) && Shaped(c) && c.ids == ids && c.pcs[p] == OpenId(0) && c.pcs[r] == Enter
    ensures c.recs[0].status == Claimed && c.recs[1] == Rec(Live, false, ids[p])
  {
    var a := Start(ids);
    StartReaches(ids, {});
    hide Reaches;
    c := LooksUp(a, a, p, {});
    c := Takes(a, c, p, 0, 0, {});
    c := LooksUp(a, c, q, {});
    c := Takes(a, c, q, 0, 1, {});
    c := WritesOut(a, c, q, 1, {});
  }

  /** Any three threads introducing one id can be given different records: one finds the upper record Live before it is
      given back, and one keeps the lower. */
  lemma ThreeCanDisagree(ids: seq<DeviceId>, p: nat, q: nat, r: nat)
    requires p < |ids| && q < |ids| && r < |ids| && p != q && q != r && r != p
    requires ids[p] == ids[q] == ids[r] && |ids[p]| <= MAX_ID_BYTES
    ensures CanDisagree(ids, p, r, {})
  {
    var a := Start(ids);
    var c := UpperGoesLive(ids, p, q, r);
    AnyoneMayMove();
    hide Reaches, InRange, Start, MayMove;
    c := FindsSecond(a, c, r, {});
    c := WritesOut(a, c, p, 0, {});
    c := Keeps(a, c, p, 0, 0, {});
    Disagreed(ids, c, p, 0, r, 1, {});
  }

  lemma Disagreed(ids: seq<DeviceId>, c: State, t: nat, q: nat, u: nat, r: nat, turns: Turns)
    requires Reaches(Start(ids), c, turns) && Shaped(c) && c.ids == ids && t < |ids| && u < |ids|
    requires q in c.answers[t] && r in c.answers[u] && q != r
    ensures CanDisagree(ids, t, u, turns)
  {
  }

  /** Two threads, `p` and `q`, with one id, and two, `r` and `v`, with another. */
  ghost predicate TwoPairs(ids: seq<DeviceId>, p: nat, q: nat, r: nat, v: nat) {
    && p < |ids| && q < |ids| && r < |ids| && v < |ids| && p != q && r != v
    && ids[p] == ids[q] != ids[r] == ids[v] && |ids[p]| <= MAX_ID_BYTES && |ids[r]| <= MAX_ID_BYTES
  }

  /** Of each pair the second thread goes after the first. */
  ghost function InPairs(p: nat, q: nat, r: nat, v: nat): Turns {
    {(p, r), (q, v)}
  }

  /** A stage of the run below: record 0 is Live for the first pair, records 1 and 2 as given, all others Free. */
  ghost predicate Stage(c: State, ids: seq<DeviceId>, turns: Turns, id: DeviceId, one: Status, two: Status) {
    && Reaches(Start(ids), c, turns) && Shaped(c) && c.ids == ids
    && c.recs[0] == Rec(Live, false, id) && c.recs[1].status == one && c.recs[2].status == two
    && forall k :: 3 <= k < MAX_DEVICES ==> c.recs[k].status == Free
  }

  lemma MayMoveNow(c: State, t: nat, p: nat, q: nat, r: nat, v: nat)
    requires TwoPairs(c.ids, p, q, r, v) && |c.pcs| == |c.ids|
    requires t == p ==> c.pcs[r] == Enter
    requires t == q ==> c.pcs[v] == Enter
    requires t == r ==> c.pcs[p].Done?
    requires t == v ==> c.pcs[q].Done?
    ensures MayMove(c, t, InPairs(p, q, r, v))
  {
  }

  lemma NotThereYet(c: State, ids: seq<DeviceId>, turns: Turns, x: DeviceId, one: Status, two: Status, id: DeviceId)
    requires Stage(c, ids, turns, x, one, two) && x != id && one != Live && two != Live
    ensures NotThere(c.recs, MAX_DEVICES, id)
  {
  }

  lemma NotBelow(c: State, ids: seq<DeviceId>, turns: Turns, x: DeviceId, one: Status, two: Status, n: nat,
      id: DeviceId)
    requires Stage(c, ids, turns, x, one, two) && x != id && n <= 2 && (n == 2 ==> one == Free)
    ensures NotThere(c.recs, n, id) && (forall k :: 0 <= k < n ==> c.recs[k].status != Claimed)
  {
  }

  /** `p` has record 0, and `q` has claimed record 1 for the same id. */
  lemma PairClaims(ids: seq<DeviceId>, p: nat, q: nat, r: nat, v: nat) returns (c: State)
    requires TwoPairs(ids, p, q, r, v)
    ensures Stage(c, ids, InPairs(p, q, r, v), ids[p], Claimed, Free)
    ensures c.pcs[p].Done? && c.pcs[q] == OpenId(1) && c.pcs[r] == c.pcs[v] == Enter
  {
    var a, turns := Start(ids), InPairs(p, q, r, v);
    StartReaches(ids, turns);
    hide Reaches;
    c := LooksUp(a, a, p, turns);
    c := Takes(a, c, p, 0, 0, turns);
    c := LooksUp(a, c, q, turns);
    c := Takes(a, c, q, 0, 1, turns);
    c := WritesOut(a, c, p, 0, turns);
    c := Keeps(a, c, p, 0, 0, turns);
  }

  /** `r` looks up the other id. */
  lemma OtherEnters(ids: seq<DeviceId>, p: nat, q: nat, r: nat, v: nat) returns (c: State)
    requires TwoPairs(ids, p, q, r, v)
    ensures Stage(c, ids, InPairs(p, q, r, v), ids[p], Claimed, Free)
    ensures c.pcs[p].Done? && c.pcs[q] == OpenId(1) && c.pcs[r] == TryClaim(0) && c.pcs[v] == Enter
  {
    var turns := InPairs(p, q, r, v);
    c := PairClaims(ids, p, q, r, v);
    MayMoveNow(c, r, p, q, r, v);
    NotThereYet(c, ids, turns, ids[p], Claimed, Free, ids[r]);
    hide Reaches, Start, MayMove, NotThere, InRange, InPairs;
    c := LooksUp(Start(ids), c, r, turns);
  }

  /** `r` claims record 2 for it. */
  lemma OtherClaims(ids: seq<DeviceId>, p: nat, q: nat, r: nat, v: nat) returns (c: State)
    requires TwoPairs(ids, p, q, r, v)
    ensures Stage(c, ids, InPairs(p, q, r, v), ids[p], Claimed, Claimed)
    ensures c.pcs[p].Done? && c.pcs[q] == OpenId(1) && c.pcs[r] == OpenId(2) && c.pcs[v] == Enter
  {
    var turns := InPairs(p, q, r, v);
    c := OtherEnters(ids, p, q, r, v);
    MayMoveNow(c, r, p, q, r, v);
    hide Reaches, Start, MayMove, InRange, InPairs;
    c := Takes(Start(ids), c, r, 0, 2, turns);
  }

  /** `q` writes record 1 out. */
  lemma PairWrites(ids: seq<DeviceId>, p: nat, q: nat, r: nat, v: nat) returns (c: State)
    requires TwoPairs(ids, p, q, r, v)
    ensures Stage(c, ids, InPairs(p, q, r, v), ids[p], Live, Claimed)
    ensures c.pcs[p].Done? && c.pcs[q] == CheckLower(1, 0) && c.pcs[r] == OpenId(2) && c.pcs[v] == Enter
  {
    var turns := InPairs(p, q, r, v);
    c := OtherClaims(ids, p, q, r, v);
    MayMoveNow(c, q, p, q, r, v);
    hide Reaches, Start, MayMove, InRange, InPairs;
    c := WritesOut(Start(ids), c, q, 1, turns);
  }

  /** `q` gives record 1 back to `p`'s. */
  lemma PairSettles(ids: seq<DeviceId>, p: nat, q: nat, r: nat, v: nat) returns (c: State)
    requires TwoPairs(ids, p, q, r, v)
    ensures Stage(c, ids, InPairs(p, q, r, v), ids[p], Free, Claimed)
    ensures c.pcs[p].Done? && c.pcs[q].Done? && c.pcs[r] == OpenId(2) && c.pcs[v] == Enter
  {
    var turns := InPairs(p, q, r, v);
    c := PairWrites(ids, p, q, r, v);
    MayMoveNow(c, q, p, q, r, v);
    hide Reaches, Start, MayMove, InRange, InPairs;
    c := GivesBackSecond(Start(ids), c, q, turns);
  }

  /** `v` looks before record 2 goes Live. */
  lemma OtherLooks(ids: seq<DeviceId>, p: nat, q: nat, r: nat, v: nat) returns (c: State)
    requires TwoPairs(ids, p, q, r, v)
    ensures Stage(c, ids, InPairs(p, q, r, v), ids[p], Free, Claimed)
    ensures c.pcs[p].Done? && c.pcs[q].Done? && c.pcs[r] == OpenId(2) && c.pcs[v] == TryClaim(0)
  {
    var turns := InPairs(p, q, r, v);
    c := PairSettles(ids, p, q, r, v);
    MayMoveNow(c, v, p, q, r, v);
    NotThereYet(c, ids, turns, ids[p], Free, Claimed, ids[v]);
    hide Reaches, Start, MayMove, NotThere, InRange, InPairs;
    c := LooksUp(Start(ids), c, v, turns);
  }

  /** `r` writes record 2 out. */
  lemma OtherWrites(ids: seq<DeviceId>, p: nat, q: nat, r: nat, v: nat) returns (c: State)
    requires TwoPairs(ids, p, q, r, v)
    ensures Stage(c, ids, InPairs(p, q, r, v), ids[p], Free, Live)
    ensures c.pcs[p].Done? && c.pcs[q].Done? && c.pcs[r] == CheckLower(2, 0) && c.pcs[v] == TryClaim(0)
  {
    var turns := InPairs(p, q, r, v);
    c := OtherLooks(ids, p, q, r, v);
    MayMoveNow(c, r, p, q, r, v);
    hide Reaches, Start, MayMove, InRange, InPairs;
    c := WritesOut(Start(ids), c, r, 2, turns);
  }

  /** `r` finds record 1 Free and keeps record 2. */
  lemma OtherKeeps(ids: seq<DeviceId>, p: nat, q: nat, r: nat, v: nat) returns (c: State)
    requires TwoPairs(ids, p, q, r, v)
    ensures Stage(c, ids, InPairs(p, q, r, v), ids[p], Free, Live)
    ensures c.pcs[q].Done? && c.pcs[v] == TryClaim(0) && 2 in c.answers[r]
  {
    var turns := InPairs(p, q, r, v);
    c := OtherWrites(ids, p, q, r, v);
    MayMoveNow(c, r, p, q, r, v);
    NotBelow(c, ids, turns, ids[p], Free, Live, 2, ids[r]);
    hide Reaches, Start, MayMove, InRange, InPairs, NotThere;
    c := Keeps(Start(ids), c, r, 2, 0, turns);
  }

  /** `v` claims record 1, which `r` has passed. */
  lemma OtherTakesLower(ids: seq<DeviceId>, p: nat, q: nat, r: nat, v: nat) returns (c: State)
    requires TwoPairs(ids, p, q, r, v)
    ensures Stage(c, ids, InPairs(p, q, r, v), ids[p], Claimed, Live)
    ensures c.pcs[q].Done? && c.pcs[v] == OpenId(1) && 2 in c.answers[r]
  {
    var turns := InPairs(p, q, r, v);
    c := OtherKeeps(ids, p, q, r, v);
    MayMoveNow(c, v, p, q, r, v);
    hide Reaches, Start, MayMove, InRange, InPairs;
    c := Takes(Start(ids), c, v, 0, 1, turns);
  }

  /** `v` writes record 1 out. */
  lemma OtherWritesLower(ids: seq<DeviceId>, p: nat, q: nat, r: nat, v: nat) returns (c: State)
    requires TwoPairs(ids, p, q, r, v)
    ensures Stage(c, ids, InPairs(p, q, r, v), ids[p], Live, Live)
    ensures c.pcs[q].Done? && c.pcs[v] == CheckLower(1, 0) && 2 in c.answers[r]
  {
    var turns := InPairs(p, q, r, v);
    c := OtherTakesLower(ids, p, q, r, v);
    MayMoveNow(c, v, p, q, r, v);
    hide Reaches, Start, MayMove, InRange, InPairs;
    c := WritesOut(Start(ids), c, v, 1, turns);
  }

  /** `v` keeps record 1. */
  lemma OtherKeepsLower(ids: seq<DeviceId>, p: nat, q: nat, r: nat, v: nat) returns (c: State)
    requires TwoPairs(ids, p, q, r, v)
    ensures Reaches(Start(ids), c, InPairs(p, q, r, v)) && Shaped(c) && c.ids == ids
    ensures 2 in c.answers[r] && 1 in c.answers[v]
  {
    var turns := InPairs(p, q, r, v);
    c := OtherWritesLower(ids, p, q, r, v);
    MayMoveNow(c, v, p, q, r, v);
    NotBelow(c, ids, turns, ids[p], Live, Live, 1, ids[v]);
    hide Reaches, Start, MayMove, InRange, InPairs, NotThere;
    c := Keeps(Start(ids), c, v, 1, 0, turns);
  }

  /** Two threads with one id and two with another can be given different records for the second id, even when each
      thread of the second pair begins only after one of the first is done. */
  lemma TwoPairsCanDisagree(ids: seq<DeviceId>, p: nat, q: nat, r: nat, v: nat)
    requires TwoPairs(ids, p, q, r, v)
    ensures CanDisagree(ids, r, v, {(p, r), (q, v)})
  {
    var c := OtherKeepsLower(ids, p, q, r, v);
    Disagreed(ids, c, r, 2, v, 1, {(p, r), (q, v)});
  }

  // ---- exactly when the answers always agree ----

  ghost predicate AlwaysAgree(ids: seq<DeviceId>) {
    forall moves, t: nat, u: nat :: Scheduled(Start(ids), moves) && t < |ids| && u < |ids| && ids[t] == ids[u] ==>
      Agreed(Run(Start(ids), moves), t, u)
  }

  lemma DisagreeingIsNotAlways(ids: seq<DeviceId>, t: nat, u: nat, turns: Turns)
    requires t < |ids| && u < |ids| && ids[t] == ids[u] && CanDisagree(ids, t, u, turns)
    ensures !AlwaysAgree(ids)
  {
    var moves :|
      Scheduled(Start(ids), moves) && InTurn(Start(ids), moves, turns) && !Agreed(Run(Start(ids), moves), t, u);
  }

  /** For any threads and any ids: every run answers every id with one record, Live with that id, exactly when at most
      one id short enough to be taken has two threads, and none has more. */
  lemma AddsAgreeIff(ids: seq<DeviceId>)
    ensures AlwaysAgree(ids) <==> OnePair(Start(ids))
  {
    if OnePair(Start(ids)) {
      forall moves, t: nat, u: nat | Scheduled(Start(ids), moves) && t < |ids| && u < |ids| && ids[t] == ids[u]
        ensures Agreed(Run(Start(ids), moves), t, u)
      {
        AddsAgree(ids, moves, t, u);
      }
    } else {
      hide Run, Agreed, Reaches, AlwaysAgree, CanDisagree;
      if t, u, v :| Sib(Start(ids), t, u) && Sib(Start(ids), t, v) && u != v {
        ThreeCanDisagree(ids, t, u, v);
        DisagreeingIsNotAlways(ids, t, v, {});
      } else {
        var p, q, r, v :| Sib(Start(ids), p, q) && Sib(Start(ids), r, v) && ids[p] != ids[r];
        TwoPairsCanDisagree(ids, p, q, r, v);
        DisagreeingIsNotAlways(ids, r, v, {(p, r), (q, v)});
      }
    }
  }

  /** Two threads that each add one id and then another can be given different records for the second. */
  lemma TwoScriptsCanDisagree(x: DeviceId, y: DeviceId)
    requires x != y && |x| <= MAX_ID_BYTES && |y| <= MAX_ID_BYTES
    ensures CanDisagree([x, x, y, y], 2, 3, {(0, 2), (1, 3)})
  {
    TwoPairsCanDisagree([x, x, y, y], 0, 1, 2, 3);
  }

  predicate Distinct(script: seq<DeviceId>) {
    forall i, j :: 0 <= i < j < |script| ==> script[i] != script[j]
  }

  /** Two threads that each add a script of different ids, with at most one id in both, always agree. */
  lemma TwoScriptsAgree(a: seq<DeviceId>, b: seq<DeviceId>)
    requires Distinct(a) && Distinct(b)
    requires forall x, y :: x in a && x in b && y in a && y in b ==> x == y
    ensures AlwaysAgree(a + b)
  {
    var s := Start(a + b);
    forall t, u | Sib(s, t, u) ensures (t < |a| <==> u >= |a|) && s.ids[t] in a && s.ids[t] in b {
      var x := s.ids[t];
      assert (if t < |a| then x == a[t] else x == b[t - |a|]) && (if u < |a| then x == a[u] else x == b[u - |a|]);
    }
    forall t, u, v | Sib(s, t, u) && Sib(s, t, v) ensures u == v {
      assert if t < |a| then b[u - |a|] == b[v - |a|] else a[u] == a[v];
    }
    AddsAgreeIff(a + b);
  }
}
