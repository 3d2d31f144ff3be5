/**
 The device registry: a fixed table of records, each Free, Claimed or Live, and any number of threads
 inside `add` at once. One move is one atomic access of one thread.
 */
module DeviceRegistry {
  import opened Basics

  datatype Status = Free | Claimed | Live

  /** `writing` is true between the two generation stores of the id's seqlock. */
  datatype Rec = Rec(status: Status, writing: bool, text: DeviceId)

  /** Where a thread stands inside `add`. `own` is the record it claimed, `at` the one it looks at. */
  datatype Pc =
    | Enter
    | FindLoad(at: nat)
    | FindMatch(at: nat)
    | FindConfirm(at: nat)
    | TryClaim(at: nat)
    | OpenId(own: nat)
    | CloseId(own: nat)
    | GoLive(own: nat)
    | CheckLower(own: nat, at: nat)
    | MatchLower(own: nat, at: nat)
    | GiveBack(own: nat, at: nat)
    | Done(answer: Option<nat>)

  /**
   `ids[t]` is the id thread `t` introduces. `claimed[t]` and `answers[t]` are history: the record the
   thread claimed last and every index its calls have returned.
   */
  datatype State = State(
    recs: seq<Rec>,
    ids: seq<DeviceId>,
    pcs: seq<Pc>,
    claimed: seq<Option<nat>>,
    answers: seq<set<nat>>)

  function Start(ids: seq<DeviceId>): State {
    State(seq(MAX_DEVICES, _ => Rec(Free, false, "")), ids, seq(|ids|, _ => Enter), seq(|ids|, _ => None),
          seq(|ids|, _ => {}))
  }

  ghost predicate Shaped(s: State) {
    && |s.recs| == MAX_DEVICES
    && |s.pcs| == |s.claimed| == |s.answers| == |s.ids|
    && forall t :: 0 <= t < |s.pcs| ==> InRange(s.pcs[t])
  }

  predicate InRange(pc: Pc) {
    match pc
    case Enter => true
    case FindLoad(j) => j <= MAX_DEVICES
    case FindMatch(j) => j < MAX_DEVICES
    case FindConfirm(j) => j < MAX_DEVICES
    case TryClaim(i) => i <= MAX_DEVICES
    case OpenId(i) => i < MAX_DEVICES
    case CloseId(i) => i < MAX_DEVICES
    case GoLive(i) => i < MAX_DEVICES
    case CheckLower(i, j) => j <= i < MAX_DEVICES
    case MatchLower(i, j) => j < i < MAX_DEVICES
    case GiveBack(i, j) => j < i < MAX_DEVICES
    case Done(_) => true
  }

  // ---- one move ----

  datatype Reading = Retry | Verdict(matches: bool)

  /**
   A seqlock read of the id. A read that meets an open write is retried, and after the last attempt
   reads as no match: a failed read always has a moment at which the write was open, which is where
   `giveUp` places it.
   */
  function ReadId(r: Rec, id: DeviceId, giveUp: bool): Reading {
    if !r.writing then Verdict(r.text == id)
    else if giveUp then Verdict(false)
    else Retry
  }

  /** What one move does: where the thread goes and the record it stores, if it stores one. */
  datatype Effect = Look(pc: Pc) | Store(pc: Pc, i: nat, rec: Rec)

  function Act(pc: Pc, recs: seq<Rec>, id: DeviceId, giveUp: bool): Effect
    requires |recs| == MAX_DEVICES && InRange(pc)
  {
    match pc
    case Enter => Look(if |id| > MAX_ID_BYTES then Done(None) else FindLoad(0))
    case FindLoad(j) =>
      Look(if j == MAX_DEVICES then TryClaim(0)
           else if recs[j].status == Live then FindMatch(j)
           else FindLoad(j + 1))
    case FindMatch(j) =>
      (match ReadId(recs[j], id, giveUp)
       case Retry => Look(pc)
       case Verdict(m) => Look(if m then FindConfirm(j) else FindLoad(j + 1)))
    case FindConfirm(j) => Look(if recs[j].status == Live then Done(Some(j)) else FindLoad(j + 1))
    case TryClaim(i) =>
      if i == MAX_DEVICES then Look(Done(None))
      else if recs[i].status == Free then Store(OpenId(i), i, recs[i].(status := Claimed))
      else Look(TryClaim(i + 1))
    case OpenId(i) => Store(CloseId(i), i, recs[i].(writing := true))
    case CloseId(i) => Store(GoLive(i), i, recs[i].(writing := false, text := id))
    case GoLive(i) => Store(CheckLower(i, 0), i, recs[i].(status := Live))
    case CheckLower(i, j) =>
      Look(if j == i then Done(Some(i))
           else if recs[j].status == Claimed then pc
           else if recs[j].status == Live then MatchLower(i, j)
           else CheckLower(i, j + 1))
    case MatchLower(i, j) =>
      (match ReadId(recs[j], id, giveUp)
       case Retry => Look(pc)
       case Verdict(m) => Look(if m then GiveBack(i, j) else CheckLower(i, j + 1)))
    case GiveBack(i, j) => Store(Done(Some(j)), i, recs[i].(status := Free))
    case Done(_) => Look(Enter)
  }

  /** A move's effect on the whole state, with the history kept up to date. */
  function Apply(s: State, t: nat, e: Effect): State
    requires t < |s.pcs| == |s.claimed| == |s.answers|
    requires e.Store? ==> e.i < |s.recs|
  {
    State(
      if e.Store? then s.recs[e.i := e.rec] else s.recs,
      s.ids,
      s.pcs[t := e.pc],
      if e.pc.OpenId? then s.claimed[t := Some(e.pc.own)] else s.claimed,
      if e.pc.Done? && e.pc.answer.Some? then s.answers[t := s.answers[t] + {e.pc.answer.value}] else s.answers)
  }

  /** The state after one move of thread `t`; a move that waits leaves the state as it is. */
  function Next(s: State, t: nat, giveUp: bool): State
    requires Shaped(s) && t < |s.pcs|
  {
    Apply(s, t, Act(s.pcs[t], s.recs, s.ids[t], giveUp))
  }

  datatype Move = Move(thread: nat, giveUp: bool)

  ghost predicate Scheduled(s: State, moves: seq<Move>) {
    forall m :: m in moves ==> m.thread < |s.pcs|
  }

  /** The state after a whole interleaving. */
  ghost function Run(s: State, moves: seq<Move>): (s': State)
    requires Shaped(s) && Scheduled(s, moves)
    ensures Shaped(s') && s'.ids == s.ids
    decreases |moves|
  {
    if moves == [] then s else
      assert moves[0] in moves;
      StaysShaped(s, moves[0].thread, moves[0].giveUp);
      Run(Next(s, moves[0].thread, moves[0].giveUp), moves[1..])
  }

  lemma StaysShaped(s: State, t: nat, giveUp: bool)
    requires Shaped(s) && t < |s.pcs|
    ensures Shaped(Next(s, t, giveUp)) && Next(s, t, giveUp).ids == s.ids
  {
  }

  // ---- ownership of a claimed record, for any threads and ids ----

  predicate Writes(pc: Pc) {
    pc.OpenId? || pc.CloseId? || pc.GoLive?
  }

  predicate Holds(pc: Pc) {
    Writes(pc) || pc.CheckLower? || pc.MatchLower? || pc.GiveBack?
  }

  ghost predicate WritesRec(s: State, t: int, i: nat) {
    0 <= t < |s.pcs| && Writes(s.pcs[t]) && s.pcs[t].own == i
  }

  ghost predicate StatusFits(s: State)
    requires Shaped(s)
  {
    forall t :: 0 <= t < |s.pcs| && Holds(s.pcs[t]) ==>
      s.recs[s.pcs[t].own].status == if Writes(s.pcs[t]) then Claimed else Live
  }

  ghost predicate Exclusive(s: State) {
    forall t, u :: 0 <= t < u < |s.pcs| && Holds(s.pcs[t]) && Holds(s.pcs[u]) ==> s.pcs[t].own != s.pcs[u].own
  }

  ghost predicate ClaimsWritten(s: State)
    requires Shaped(s)
  {
    forall i :: 0 <= i < MAX_DEVICES && s.recs[i].status == Claimed ==> exists t :: WritesRec(s, t, i)
  }

  ghost predicate Owned(s: State) {
    Shaped(s) && StatusFits(s) && Exclusive(s) && ClaimsWritten(s)
  }

  lemma StaysExclusive(s: State, t: nat, giveUp: bool)
    requires Owned(s) && t < |s.pcs|
    ensures Exclusive(Next(s, t, giveUp))
  {
    var e := Act(s.pcs[t], s.recs, s.ids[t], giveUp);
    if Holds(e.pc) {
      forall u | 0 <= u < |s.pcs| && u != t && Holds(s.pcs[u]) ensures s.pcs[u].own != e.pc.own {
        HoldsMove(s.pcs[t], s.recs, s.ids[t], giveUp);
      }
    }
  }

  /** A thread comes to hold a record only by claiming a Free one, and then keeps that one. */
  lemma HoldsMove(pc: Pc, recs: seq<Rec>, id: DeviceId, giveUp: bool)
    requires |recs| == MAX_DEVICES && InRange(pc)
    ensures var e := Act(pc, recs, id, giveUp);
            && InRange(e.pc)
            && (e.Store? ==> e.i < MAX_DEVICES)
            && (Holds(e.pc) && Holds(pc) ==> e.pc.own == pc.own)
            && (Holds(e.pc) && !Holds(pc) ==> e.Store? && e.i == e.pc.own && recs[e.i].status == Free)
  {
  }

  lemma StaysStatusFits(s: State, t: nat, giveUp: bool)
    requires Owned(s) && t < |s.pcs|
    ensures Shaped(Next(s, t, giveUp)) && StatusFits(Next(s, t, giveUp))
  {
    StaysShaped(s, t, giveUp);
    var s' := Next(s, t, giveUp);
    var e := Act(s.pcs[t], s.recs, s.ids[t], giveUp);
    HoldsMove(s.pcs[t], s.recs, s.ids[t], giveUp);
    forall u | 0 <= u < |s.pcs| && Holds(s'.pcs[u])
      ensures s'.recs[s'.pcs[u].own].status == if Writes(s'.pcs[u]) then Claimed else Live
    {
      if u == t {
        assert s.recs[s'.pcs[u].own].status == Free || Holds(s.pcs[t]);
      } else {
        assert e.Store? ==> e.i != s.pcs[u].own;
      }
    }
  }

  lemma StaysClaimsWritten(s: State, t: nat, giveUp: bool)
    requires Owned(s) && t < |s.pcs|
    ensures Shaped(Next(s, t, giveUp)) && ClaimsWritten(Next(s, t, giveUp))
  {
    StaysShaped(s, t, giveUp);
    var s' := Next(s, t, giveUp);
    forall i | 0 <= i < MAX_DEVICES && s'.recs[i].status == Claimed
      ensures exists u :: WritesRec(s', u, i)
    {
      if s.recs[i].status == Claimed {
        var u :| WritesRec(s, u, i);
        assert WritesRec(s', u, i);
      } else {
        assert WritesRec(s', t, i);
      }
    }
  }

  lemma {:induction false} RunOwned(s: State, moves: seq<Move>)
    requires Owned(s) && Scheduled(s, moves)
    ensures Owned(Run(s, moves))
    decreases |moves|
  {
    if moves != [] {
      assert moves[0] in moves;
      var m := moves[0];
      StaysExclusive(s, m.thread, m.giveUp);
      StaysStatusFits(s, m.thread, m.giveUp);
      StaysClaimsWritten(s, m.thread, m.giveUp);
      RunOwned(Next(s, m.thread, m.giveUp), moves[1..]);
    }
  }

  /** Thread `t` can go on: its next move takes it somewhere else. */
  predicate CanMove(s: State, t: nat)
    requires Shaped(s) && t < |s.pcs|
  {
    Act(s.pcs[t], s.recs, s.ids[t], true).pc != s.pcs[t]
  }

  /** A thread that waits does so for a strictly lower record, which exactly one other thread is writing
      and which that thread can go on writing. */
  ghost predicate WaitsForWriter(s: State, t: nat)
    requires Shaped(s) && t < |s.pcs|
  {
    && s.pcs[t].CheckLower? && s.pcs[t].at < s.pcs[t].own
    && exists u: nat ::
         WritesRec(s, u, s.pcs[t].at) && CanMove(s, u) && forall v :: WritesRec(s, v, s.pcs[t].at) ==> v == u
  }

  lemma OwnedWaits(s: State, t: nat)
    requires Owned(s) && t < |s.pcs| && !CanMove(s, t)
    ensures WaitsForWriter(s, t)
  {
  }

  /** Nothing deadlocks, for any number of threads and any ids: while a call is unfinished, some
      unfinished call can move, and every call that cannot waits for one that can. */
  lemma NoDeadlock(ids: seq<DeviceId>, moves: seq<Move>, t: nat)
    requires Scheduled(Start(ids), moves) && t < |ids|
    requires !Run(Start(ids), moves).pcs[t].Done?
    ensures var s := Run(Start(ids), moves);
            && (CanMove(s, t) || WaitsForWriter(s, t))
            && exists u: nat :: u < |ids| && !s.pcs[u].Done? && CanMove(s, u)
  {
    RunOwned(Start(ids), moves);
    var s := Run(Start(ids), moves);
    if !CanMove(s, t) {
      OwnedWaits(s, t);
      var u: nat :| WritesRec(s, u, s.pcs[t].at) && CanMove(s, u);
      assert !s.pcs[u].Done?;
    }
  }

  // ---- every call ends ----

  /** Moves a call can still make. */
  function Rank(pc: Pc): nat
    requires InRange(pc)
  {
    match pc
    case Enter => 600
    case FindLoad(j) => 3 * (MAX_DEVICES - j) + 300
    case FindMatch(j) => 3 * (MAX_DEVICES - j) + 299
    case FindConfirm(j) => 3 * (MAX_DEVICES - j) + 298
    case TryClaim(i) => MAX_DEVICES - i + 200
    case OpenId(_) => 199
    case CloseId(_) => 198
    case GoLive(_) => 197
    case CheckLower(i, j) => 2 * (i - j) + 2
    case MatchLower(i, j) => 2 * (i - j) + 1
    case GiveBack(_, _) => 1
    case Done(_) => 0
  }

  lemma MoveLowersRank(pc: Pc, recs: seq<Rec>, id: DeviceId, giveUp: bool)
    requires |recs| == MAX_DEVICES && InRange(pc) && !pc.Done?
    ensures var e := Act(pc, recs, id, giveUp); InRange(e.pc) && (e == Look(pc) || Rank(e.pc) < Rank(pc))
  {
  }

  function TotalRank(pcs: seq<Pc>): nat
    requires forall t :: 0 <= t < |pcs| ==> InRange(pcs[t])
  {
    if pcs == [] then 0 else Rank(pcs[0]) + TotalRank(pcs[1..])
  }

  lemma {:induction false} TotalRankUpdate(pcs: seq<Pc>, t: nat, pc: Pc)
    requires forall t :: 0 <= t < |pcs| ==> InRange(pcs[t])
    requires t < |pcs| && InRange(pc)
    ensures TotalRank(pcs[t := pc]) == TotalRank(pcs) - Rank(pcs[t]) + Rank(pc)
  {
    if t > 0 {
      assert pcs[t := pc][1..] == pcs[1..][t - 1 := pc];
      TotalRankUpdate(pcs[1..], t - 1, pc);
    }
  }

  /** The moves of a run that took an unfinished call somewhere; no thread starts a second call. */
  ghost function Progress(s: State, moves: seq<Move>): nat
    requires Shaped(s) && Scheduled(s, moves)
    decreases |moves|
  {
    if moves == [] then 0 else
      assert moves[0] in moves;
      StaysShaped(s, moves[0].thread, moves[0].giveUp);
      var s' := Next(s, moves[0].thread, moves[0].giveUp);
      (if s' == s then 0 else 1) + Progress(s', moves[1..])
  }

  ghost predicate OneCallEach(s: State, moves: seq<Move>)
    requires Shaped(s) && Scheduled(s, moves)
    decreases |moves|
  {
    moves == [] ||
    (assert moves[0] in moves;
     StaysShaped(s, moves[0].thread, moves[0].giveUp);
     !s.pcs[moves[0].thread].Done? && OneCallEach(Next(s, moves[0].thread, moves[0].giveUp), moves[1..]))
  }

  /** However long the run, the calls make only boundedly many moves that are not waits. */
  lemma {:induction false} CallsEnd(s: State, moves: seq<Move>)
    requires Shaped(s) && Scheduled(s, moves) && OneCallEach(s, moves)
    ensures Progress(s, moves) + TotalRank(Run(s, moves).pcs) <= TotalRank(s.pcs)
    decreases |moves|
  {
    if moves != [] {
      assert moves[0] in moves;
      var t, giveUp := moves[0].thread, moves[0].giveUp;
      StaysShaped(s, t, giveUp);
      MoveLowersRank(s.pcs[t], s.recs, s.ids[t], giveUp);
      TotalRankUpdate(s.pcs, t, Act(s.pcs[t], s.recs, s.ids[t], giveUp).pc);
      CallsEnd(Next(s, t, giveUp), moves[1..]);
    }
  }

  // ---- two threads introducing one id, one thread for every other id, nobody removing ----

  /** Two threads introduce one id, which is short enough to be taken. */
  ghost predicate Sib(s: State, t: int, u: int) {
    0 <= t < |s.ids| && 0 <= u < |s.ids| && t != u && s.ids[t] == s.ids[u] && |s.ids[t]| <= MAX_ID_BYTES
  }

  /** At most one such id has two threads, and none has more. */
  ghost predicate OnePair(s: State) {
    && (forall t, u, v :: Sib(s, t, u) && Sib(s, t, v) ==> u == v)
    && (forall t, u, v, w :: Sib(s, t, u) && Sib(s, v, w) ==> s.ids[t] == s.ids[v])
  }

  /** Thread `t` claimed a record above the one its sibling `u` claimed. */
  ghost predicate Lost(s: State, t: int, u: int)
    requires |s.claimed| == |s.ids|
  {
    Sib(s, t, u) && s.claimed[t].Some? && s.claimed[u].Some? && s.claimed[u].value < s.claimed[t].value
  }

  ghost predicate Beaten(s: State, t: int)
    requires |s.claimed| == |s.ids|
  {
    exists u :: Lost(s, t, u)
  }

  ghost predicate Owns(s: State, t: int, i: int)
    requires |s.claimed| == |s.ids| == |s.pcs|
  {
    0 <= t < |s.pcs| && s.claimed[t] == Some(i) && (Holds(s.pcs[t]) || !Beaten(s, t))
  }

  ghost predicate TextOwned(s: State, j: nat)
    requires |s.claimed| == |s.ids|
    requires j < |s.recs|
  {
    exists v :: 0 <= v < |s.ids| && s.claimed[v] == Some(j) && s.ids[v] == s.recs[j].text
  }

  /** A lookup that can only end on record `a`. */
  predicate EndsOn(pc: Pc, a: nat) {
    match pc
    case Enter => true
    case FindLoad(j) => j <= a
    case FindMatch(j) => j <= a
    case FindConfirm(j) => j == a
    case Done(r) => r == Some(a)
    case _ => false
  }

  predicate LoserAt(pc: Pc, a: nat) {
    match pc
    case CheckLower(_, j) => j <= a
    case MatchLower(_, j) => j <= a
    case GiveBack(_, j) => j == a
    case _ => Writes(pc) || EndsOn(pc, a)
  }

  /** The loser has seen its sibling's record Live. */
  predicate SawWinner(pc: Pc, a: nat) {
    !Holds(pc) || pc.GiveBack? || (pc.MatchLower? && pc.at == a)
  }

  predicate RecFits(r: Rec, pc: Pc, id: DeviceId) {
    if Writes(pc) then r.status == Claimed && r.writing == pc.CloseId? && (pc.GoLive? ==> r.text == id)
    else r.status == Live && !r.writing && r.text == id
  }

  ghost predicate ClaimsFit(s: State)
    requires Shaped(s)
  {
    forall t :: 0 <= t < |s.pcs| ==>
      && (s.claimed[t].None? ==> !Holds(s.pcs[t]))
      && (s.claimed[t].Some? ==>
            && s.claimed[t].value < MAX_DEVICES && !s.pcs[t].TryClaim?
            && (Holds(s.pcs[t]) ==> s.pcs[t].own == s.claimed[t].value))
      && (s.claimed[t].Some? || !(s.pcs[t].Enter? || s.pcs[t].Done?) ==> |s.ids[t]| <= MAX_ID_BYTES)
  }

  ghost predicate OwnedFit(s: State)
    requires Shaped(s)
  {
    forall t, i :: Owns(s, t, i) ==> 0 <= i < MAX_DEVICES && RecFits(s.recs[i], s.pcs[t], s.ids[t])
  }

  ghost predicate OneOwner(s: State)
    requires Shaped(s)
  {
    forall t, u, i :: Owns(s, t, i) && Owns(s, u, i) ==> t == u
  }

  ghost predicate BusyOwned(s: State)
    requires Shaped(s)
  {
    forall i :: 0 <= i < MAX_DEVICES ==>
      && (s.recs[i].status != Free ==> exists t :: Owns(s, t, i))
      && (s.recs[i].status == Free ==> !s.recs[i].writing)
  }

  ghost predicate LosersFit(s: State)
    requires Shaped(s)
  {
    && (forall t, u :: Lost(s, t, u) ==>
          && LoserAt(s.pcs[t], s.claimed[u].value)
          && (SawWinner(s.pcs[t], s.claimed[u].value) ==> !Writes(s.pcs[u])))
    && (forall t :: 0 <= t < |s.pcs| && s.pcs[t].GiveBack? ==> Beaten(s, t))
  }

  ghost predicate WinnersFit(s: State)
    requires Shaped(s)
  {
    forall t :: 0 <= t < |s.pcs| && s.claimed[t].Some? && !Beaten(s, t) && !Holds(s.pcs[t]) ==>
      EndsOn(s.pcs[t], s.claimed[t].value)
  }

  ghost predicate BusyBelow(s: State, i: int)
    requires |s.recs| == MAX_DEVICES
  {
    forall j :: 0 <= j < i && j < MAX_DEVICES ==> s.recs[j].status != Free
  }

  /** While one of the pair has claimed nothing, nothing below the other's progress has been freed. */
  ghost predicate NoneFreed(s: State)
    requires Shaped(s)
  {
    forall t, u :: Sib(s, t, u) && s.claimed[t].None? ==>
      && (s.pcs[t].TryClaim? ==> BusyBelow(s, s.pcs[t].at))
      && (s.claimed[u].Some? ==> BusyBelow(s, s.claimed[u].value))
  }

  ghost predicate TextsFit(s: State)
    requires Shaped(s)
  {
    forall t :: 0 <= t < |s.pcs| && (s.pcs[t].FindMatch? || s.pcs[t].MatchLower?) ==> TextOwned(s, s.pcs[t].at)
  }

  ghost predicate FoundBySibling(s: State, t: int, j: nat)
    requires |s.claimed| == |s.ids|
  {
    exists u :: Sib(s, t, u) && s.claimed[u] == Some(j)
  }

  ghost predicate FindersFit(s: State)
    requires Shaped(s)
  {
    forall t :: 0 <= t < |s.pcs| && s.claimed[t].None? ==>
      && (s.pcs[t].FindConfirm? ==> FoundBySibling(s, t, s.pcs[t].at))
      && (s.pcs[t].Done? && s.pcs[t].answer.Some? ==> FoundBySibling(s, t, s.pcs[t].answer.value))
  }

  /** Record `r` is the lowest one any thread with `t`'s id has claimed, and it went Live. */
  ghost predicate WinnerFor(s: State, t: int, r: nat)
    requires Shaped(s)
  {
    exists u ::
      && 0 <= u < |s.ids| && 0 <= t < |s.ids| && s.ids[u] == s.ids[t]
      && s.claimed[u] == Some(r) && !Beaten(s, u) && !Writes(s.pcs[u])
  }

  ghost predicate AnswersFit(s: State)
    requires Shaped(s)
  {
    forall t, r :: 0 <= t < |s.pcs| && r in s.answers[t] ==> WinnerFor(s, t, r)
  }

  ghost predicate Paired(s: State) {
    && Shaped(s) && OnePair(s)
    && ClaimsFit(s) && OwnedFit(s) && OneOwner(s) && BusyOwned(s)
    && LosersFit(s) && WinnersFit(s) && NoneFreed(s) && TextsFit(s) && FindersFit(s) && AnswersFit(s)
  }

  lemma OtherUnbeaten(s: State, t: int, u: int)
    requires Shaped(s) && OnePair(s)
    requires Sib(s, t, u)
    requires s.claimed[t].None? || Lost(s, t, u)
    ensures !Beaten(s, u)
  {
    assert Sib(s, u, t);
  }

  lemma TextMatch(s: State, t: int, j: nat)
    requires Shaped(s) && ClaimsFit(s) && j < MAX_DEVICES && TextOwned(s, j)
    requires 0 <= t < |s.ids| && s.recs[j].text == s.ids[t]
    ensures s.claimed[t] == Some(j) || FoundBySibling(s, t, j)
  {
  }

  // -- where one thread's next move leads, from what it can see --

  /** What a thread knows about record `j` when its id was claimed for record `a`. */
  predicate Sees(recs: seq<Rec>, pc: Pc, id: DeviceId, a: nat)
    requires |recs| == MAX_DEVICES && InRange(pc) && a < MAX_DEVICES
  {
    && |id| <= MAX_ID_BYTES
    && recs[a].status != Free
    && (recs[a].status == Live ==> !recs[a].writing && recs[a].text == id)
    && ((pc.FindMatch? || pc.MatchLower?) && pc.at < a ==> recs[pc.at].text != id)
  }

  lemma LoserMoves(pc: Pc, recs: seq<Rec>, id: DeviceId, giveUp: bool, a: nat)
    requires |recs| == MAX_DEVICES && InRange(pc) && a < MAX_DEVICES && Sees(recs, pc, id, a)
    requires LoserAt(pc, a)
    requires Holds(pc) ==> a < pc.own
    requires SawWinner(pc, a) ==> recs[a].status == Live
    ensures var pc' := Act(pc, recs, id, giveUp).pc;
            && LoserAt(pc', a)
            && (SawWinner(pc', a) ==> recs[a].status == Live)
            && (Holds(pc) && !Holds(pc') ==> pc.GiveBack?)
            && (pc'.Done? ==> pc'.answer == Some(a))
  {
  }

  lemma WinnerMoves(pc: Pc, recs: seq<Rec>, id: DeviceId, giveUp: bool, i: nat)
    requires |recs| == MAX_DEVICES && InRange(pc) && i < MAX_DEVICES && Sees(recs, pc, id, i)
    requires if Holds(pc) then pc.own == i && !pc.GiveBack? else EndsOn(pc, i) && recs[i].status == Live
    ensures var pc' := Act(pc, recs, id, giveUp).pc;
            && (if Holds(pc') then pc'.own == i && !pc'.GiveBack? else EndsOn(pc', i))
            && (pc'.Done? ==> pc'.answer == Some(i))
  {
  }

  lemma SeesAsLoser(s: State, t: int, u: int)
    requires Shaped(s) && OnePair(s) && ClaimsFit(s) && OwnedFit(s) && LosersFit(s) && TextsFit(s)
    requires Lost(s, t, u)
    ensures s.claimed[u].value < MAX_DEVICES && Sees(s.recs, s.pcs[t], s.ids[t], s.claimed[u].value)
    ensures SawWinner(s.pcs[t], s.claimed[u].value) ==> s.recs[s.claimed[u].value].status == Live
    ensures Writes(s.pcs[u]) <==> s.recs[s.claimed[u].value].status != Live
    ensures Holds(s.pcs[t]) ==> s.claimed[u].value < s.pcs[t].own
  {
    var pc, a := s.pcs[t], s.claimed[u].value;
    OtherUnbeaten(s, t, u);
    assert Owns(s, u, a);
    if (pc.FindMatch? || pc.MatchLower?) && pc.at < a && s.recs[pc.at].text == s.ids[t] {
      TextMatch(s, t, pc.at);
    }
  }

  lemma SeesAsWinner(s: State, t: int)
    requires Shaped(s) && OnePair(s) && ClaimsFit(s) && OwnedFit(s) && LosersFit(s) && TextsFit(s) && WinnersFit(s)
    requires 0 <= t < |s.pcs| && s.claimed[t].Some? && !Beaten(s, t)
    ensures s.claimed[t].value < MAX_DEVICES && Sees(s.recs, s.pcs[t], s.ids[t], s.claimed[t].value)
    ensures !Holds(s.pcs[t]) ==> EndsOn(s.pcs[t], s.claimed[t].value) && s.recs[s.claimed[t].value].status == Live
  {
    var pc, i := s.pcs[t], s.claimed[t].value;
    assert Owns(s, t, i);
    if (pc.FindMatch? || pc.MatchLower?) && pc.at < i && s.recs[pc.at].text == s.ids[t] {
      TextMatch(s, t, pc.at);
      var u :| Sib(s, t, u) && s.claimed[u] == Some(pc.at);
      assert Lost(s, t, u);
    }
  }

  lemma LiveIsTextOwned(s: State, j: nat)
    requires Shaped(s) && OwnedFit(s) && BusyOwned(s)
    requires j < MAX_DEVICES && s.recs[j].status == Live
    ensures TextOwned(s, j)
  {
  }

  /** What the mover's new place must satisfy for the invariant to go on. */
  ghost predicate PlaceFits(s: State, t: int, pc': Pc)
    requires Shaped(s) && 0 <= t < |s.pcs|
  {
    && (s.claimed[t].None? ==>
          && !Holds(pc')
          && (pc'.FindConfirm? ==> FoundBySibling(s, t, pc'.at))
          && (pc'.Done? && pc'.answer.Some? ==> FoundBySibling(s, t, pc'.answer.value)))
    && (s.claimed[t].Some? ==> !pc'.TryClaim? && (Holds(pc') ==> pc'.own == s.claimed[t].value))
    && (s.claimed[t].Some? && !Beaten(s, t) ==> if Holds(pc') then !pc'.GiveBack? else EndsOn(pc', s.claimed[t].value))
    && (forall u :: Lost(s, t, u) ==>
          && LoserAt(pc', s.claimed[u].value)
          && (SawWinner(pc', s.claimed[u].value) ==> !Writes(s.pcs[u])))
    && (s.claimed[t].Some? || !(pc'.Enter? || pc'.Done?) ==> |s.ids[t]| <= MAX_ID_BYTES)
  }

  lemma ClaimerPlaceFits(s: State, t: int, giveUp: bool)
    requires Shaped(s) && OnePair(s) && ClaimsFit(s) && OwnedFit(s) && LosersFit(s) && TextsFit(s) && WinnersFit(s)
    requires 0 <= t < |s.pcs| && s.claimed[t].Some?
    ensures PlaceFits(s, t, Act(s.pcs[t], s.recs, s.ids[t], giveUp).pc)
    ensures Holds(s.pcs[t]) && !Holds(Act(s.pcs[t], s.recs, s.ids[t], giveUp).pc) && Beaten(s, t) ==> s.pcs[t].GiveBack?
  {
    HoldsMove(s.pcs[t], s.recs, s.ids[t], giveUp);
    if Beaten(s, t) {
      var u :| Lost(s, t, u);
      SeesAsLoser(s, t, u);
      LoserMoves(s.pcs[t], s.recs, s.ids[t], giveUp, s.claimed[u].value);
    } else {
      SeesAsWinner(s, t);
      WinnerMoves(s.pcs[t], s.recs, s.ids[t], giveUp, s.claimed[t].value);
    }
  }

  lemma FinderPlaceFits(s: State, t: int, giveUp: bool)
    requires Shaped(s) && ClaimsFit(s) && TextsFit(s) && FindersFit(s)
    requires 0 <= t < |s.pcs| && s.claimed[t].None?
    requires Act(s.pcs[t], s.recs, s.ids[t], giveUp).Look?
    ensures PlaceFits(s, t, Act(s.pcs[t], s.recs, s.ids[t], giveUp).pc)
  {
  }

  // -- moves that claim nothing --

  /** A move of `t` to `pc'` that left every claim as it was. */
  ghost predicate Stepped(s: State, t: int, pc': Pc, s': State) {
    && Shaped(s) && Shaped(s') && 0 <= t < |s.pcs|
    && s'.ids == s.ids && s'.claimed == s.claimed && s'.pcs == s.pcs[t := pc']
    && InRange(pc') && (Writes(pc') ==> Writes(s.pcs[t]))
    && PlaceFits(s, t, pc')
  }

  lemma StepKeepsBeaten(s: State, t: int, pc': Pc, s': State)
    requires Stepped(s, t, pc', s')
    ensures forall v, w :: Lost(s', v, w) <==> Lost(s, v, w)
    ensures forall v :: Beaten(s', v) <==> Beaten(s, v)
    ensures forall v, w :: Sib(s', v, w) <==> Sib(s, v, w)
  {
  }

  lemma StepKeepsClaims(s: State, t: int, pc': Pc, s': State)
    requires Stepped(s, t, pc', s') && ClaimsFit(s)
    ensures ClaimsFit(s')
  {
  }

  lemma StepKeepsLosers(s: State, t: int, pc': Pc, s': State)
    requires Stepped(s, t, pc', s') && LosersFit(s) && ClaimsFit(s)
    ensures LosersFit(s')
  {
    StepKeepsBeaten(s, t, pc', s');
    forall v, w | Lost(s', v, w)
      ensures LoserAt(s'.pcs[v], s'.claimed[w].value)
      ensures SawWinner(s'.pcs[v], s'.claimed[w].value) ==> !Writes(s'.pcs[w])
    {
      assert Lost(s, v, w);
    }
  }

  lemma StepKeepsWinners(s: State, t: int, pc': Pc, s': State)
    requires Stepped(s, t, pc', s') && WinnersFit(s)
    ensures WinnersFit(s')
  {
    StepKeepsBeaten(s, t, pc', s');
  }

  lemma StepKeepsFinders(s: State, t: int, pc': Pc, s': State)
    requires Stepped(s, t, pc', s') && FindersFit(s)
    ensures FindersFit(s')
  {
  }

  /** The record a move answers with. */
  ghost predicate Answers(s: State, pc': Pc)
    requires |s.recs| == MAX_DEVICES
  {
    pc'.Done? && pc'.answer.Some? ==> pc'.answer.value < MAX_DEVICES && s.recs[pc'.answer.value].status == Live
  }

  lemma NewAnswerFits(s: State, t: int, pc': Pc)
    requires Shaped(s) && OnePair(s) && OwnedFit(s) && 0 <= t < |s.pcs| && PlaceFits(s, t, pc')
    requires pc'.Done? && pc'.answer.Some? && Answers(s, pc')
    ensures WinnerFor(s, t, pc'.answer.value)
  {
    var u :| 0 <= u < |s.ids| &&
      (if s.claimed[t].None? then Sib(s, t, u) && s.claimed[u] == Some(pc'.answer.value)
        else if Beaten(s, t) then Lost(s, t, u) else u == t);
    if u != t { OtherUnbeaten(s, t, u); }
    assert Owns(s, u, pc'.answer.value);
  }

  lemma StepKeepsAnswers(s: State, t: int, pc': Pc, s': State)
    requires Stepped(s, t, pc', s') && OnePair(s) && OwnedFit(s) && AnswersFit(s) && Answers(s, pc')
    requires s'.answers ==
             if pc'.Done? && pc'.answer.Some? then s.answers[t := s.answers[t] + {pc'.answer.value}] else s.answers
    ensures AnswersFit(s')
  {
    StepKeepsBeaten(s, t, pc', s');
    forall v, r | 0 <= v < |s.pcs| && r in s'.answers[v] ensures WinnerFor(s', v, r) {
      if r !in s.answers[v] { NewAnswerFits(s, t, pc'); }
      assert WinnerFor(s, v, r);
    }
  }

  lemma StepKeepsTexts(s: State, t: int, pc': Pc, s': State)
    requires Stepped(s, t, pc', s') && TextsFit(s)
    requires forall j :: 0 <= j < MAX_DEVICES ==>
               s'.recs[j].text == s.recs[j].text || (s.claimed[t] == Some(j) && s'.recs[j].text == s.ids[t])
    requires (pc'.FindMatch? || pc'.MatchLower?) ==> TextOwned(s, pc'.at)
    ensures TextsFit(s')
  {
  }

  lemma StepKeepsNoneFreed(s: State, t: int, pc': Pc, s': State)
    requires Stepped(s, t, pc', s') && NoneFreed(s)
    requires forall j :: 0 <= j < MAX_DEVICES && s.recs[j].status != Free ==> s'.recs[j].status != Free
    requires pc'.TryClaim? ==> pc'.at == 0 || (s.pcs[t] == TryClaim(pc'.at - 1) && s.recs[pc'.at - 1].status != Free)
    ensures NoneFreed(s')
  {
    StepKeepsBeaten(s, t, pc', s');
    forall v, u | Sib(s', v, u) && s'.claimed[v].None?
      ensures s'.pcs[v].TryClaim? ==> BusyBelow(s', s'.pcs[v].at)
      ensures s'.claimed[u].Some? ==> BusyBelow(s', s'.claimed[u].value)
    {
      assert Sib(s, v, u);
    }
  }

  lemma StepKeepsOwners(s: State, t: int, pc': Pc, s': State)
    requires Stepped(s, t, pc', s')
    requires Holds(pc') ==> Holds(s.pcs[t])
    requires Holds(s.pcs[t]) && !Holds(pc') ==> !Beaten(s, t)
    ensures forall v, i :: Owns(s', v, i) <==> Owns(s, v, i)
  {
    StepKeepsBeaten(s, t, pc', s');
  }

  /** Records change only under their owner, and stay as their owner's place says. */
  lemma StepKeepsRecords(s: State, t: int, pc': Pc, s': State)
    requires Stepped(s, t, pc', s') && ClaimsFit(s) && OwnedFit(s) && OneOwner(s) && BusyOwned(s)
    requires forall v, i :: Owns(s', v, i) <==> Owns(s, v, i)
    requires forall j :: 0 <= j < MAX_DEVICES && s'.recs[j] != s.recs[j] ==> Owns(s, t, j)
    requires s.claimed[t].Some? && Owns(s, t, s.claimed[t].value) ==>
               RecFits(s'.recs[s.claimed[t].value], pc', s.ids[t])
    ensures OwnedFit(s') && OneOwner(s') && BusyOwned(s')
  {
  }

  lemma StepStays(s: State, t: int, pc': Pc, s': State)
    requires Paired(s) && Stepped(s, t, pc', s') && Answers(s, pc')
    requires s'.answers ==
             if pc'.Done? && pc'.answer.Some? then s.answers[t := s.answers[t] + {pc'.answer.value}] else s.answers
    requires Holds(pc') ==> Holds(s.pcs[t])
    requires Holds(s.pcs[t]) && !Holds(pc') ==> !Beaten(s, t)
    requires (pc'.FindMatch? || pc'.MatchLower?) ==> TextOwned(s, pc'.at)
    requires pc'.TryClaim? ==> pc'.at == 0 || (s.pcs[t] == TryClaim(pc'.at - 1) && s.recs[pc'.at - 1].status != Free)
    requires forall j :: 0 <= j < MAX_DEVICES && s'.recs[j] != s.recs[j] ==>
               Owns(s, t, j) && s'.recs[j].status != Free && s'.recs[j].text in {s.recs[j].text, s.ids[t]}
    requires s.claimed[t].Some? && Owns(s, t, s.claimed[t].value) ==>
               RecFits(s'.recs[s.claimed[t].value], pc', s.ids[t])
    ensures Paired(s')
  {
    StepKeepsBeaten(s, t, pc', s');
    StepKeepsClaims(s, t, pc', s');
    StepKeepsLosers(s, t, pc', s');
    StepKeepsWinners(s, t, pc', s');
    StepKeepsFinders(s, t, pc', s');
    StepKeepsAnswers(s, t, pc', s');
    StepKeepsTexts(s, t, pc', s');
    StepKeepsNoneFreed(s, t, pc', s');
    StepKeepsOwners(s, t, pc', s');
    StepKeepsRecords(s, t, pc', s');
  }

  lemma LookStays(s: State, t: nat, giveUp: bool)
    requires Paired(s) && t < |s.pcs| && Act(s.pcs[t], s.recs, s.ids[t], giveUp).Look?
    ensures Paired(Next(s, t, giveUp))
  {
    LookSteps(s, t, giveUp);
    LookSees(s, t, giveUp);
    StepStays(s, t, Act(s.pcs[t], s.recs, s.ids[t], giveUp).pc, Next(s, t, giveUp));
  }

  lemma LookSteps(s: State, t: nat, giveUp: bool)
    requires Paired(s) && t < |s.pcs| && Act(s.pcs[t], s.recs, s.ids[t], giveUp).Look?
    ensures var pc' := Act(s.pcs[t], s.recs, s.ids[t], giveUp).pc;
            && PlaceFits(s, t, pc') && !Writes(pc') && Stepped(s, t, pc', Next(s, t, giveUp))
  {
    StaysShaped(s, t, giveUp);
    HoldsMove(s.pcs[t], s.recs, s.ids[t], giveUp);
    if s.claimed[t].Some? { ClaimerPlaceFits(s, t, giveUp); } else { FinderPlaceFits(s, t, giveUp); }
    hide PlaceFits, ClaimsFit, OwnedFit, OneOwner, BusyOwned, LosersFit, WinnersFit, NoneFreed, TextsFit, FindersFit,
      AnswersFit;
  }

  lemma LookSees(s: State, t: nat, giveUp: bool)
    requires Paired(s) && t < |s.pcs| && Act(s.pcs[t], s.recs, s.ids[t], giveUp).Look?
    ensures var pc' := Act(s.pcs[t], s.recs, s.ids[t], giveUp).pc;
            && (Holds(pc') ==> Holds(s.pcs[t]))
            && (Holds(s.pcs[t]) && !Holds(pc') ==> !Beaten(s, t))
            && ((pc'.FindMatch? || pc'.MatchLower?) ==> TextOwned(s, pc'.at))
            && (pc'.TryClaim? ==>
                  pc'.at == 0 || (s.pcs[t] == TryClaim(pc'.at - 1) && s.recs[pc'.at - 1].status != Free))
            && Answers(s, pc')
  {
    HoldsMove(s.pcs[t], s.recs, s.ids[t], giveUp);
    if s.claimed[t].Some? { ClaimerPlaceFits(s, t, giveUp); }
    LookSteps(s, t, giveUp);
    var pc' := Act(s.pcs[t], s.recs, s.ids[t], giveUp).pc;
    if (pc'.FindMatch? || pc'.MatchLower?) && s.recs[pc'.at].status == Live { LiveIsTextOwned(s, pc'.at); }
    hide LosersFit, WinnersFit, NoneFreed, FindersFit, AnswersFit, OwnedFit, OneOwner, BusyOwned;
  }

  lemma WriteStays(s: State, t: nat, giveUp: bool)
    requires Paired(s) && t < |s.pcs| && Writes(s.pcs[t])
    ensures Paired(Next(s, t, giveUp))
  {
    StaysShaped(s, t, giveUp);
    ClaimerPlaceFits(s, t, giveUp);
    assert Owns(s, t, s.claimed[t].value);
    StepStays(s, t, Act(s.pcs[t], s.recs, s.ids[t], giveUp).pc, Next(s, t, giveUp));
  }

  lemma GiveBackStepped(s: State, t: nat, giveUp: bool)
    requires Paired(s) && t < |s.pcs| && s.pcs[t].GiveBack?
    ensures var s', pc' := Next(s, t, giveUp), Done(Some(s.pcs[t].at));
            && Stepped(s, t, pc', s') && Answers(s, pc')
            && s'.answers == s.answers[t := s.answers[t] + {s.pcs[t].at}]
            && forall j :: 0 <= j < MAX_DEVICES ==> s'.recs[j].text == s.recs[j].text
  {
    StaysShaped(s, t, giveUp);
    ClaimerPlaceFits(s, t, giveUp);
    hide PlaceFits, FindersFit, AnswersFit, TextsFit, NoneFreed, WinnersFit;
    var u :| Lost(s, t, u);
    SeesAsLoser(s, t, u);
  }

  lemma OnePairStays(s: State, s': State)
    requires OnePair(s) && s'.ids == s.ids
    ensures OnePair(s')
  {
    forall t, u ensures Sib(s', t, u) <==> Sib(s, t, u) {}
  }

  /** Only the pair gives a record back, and only once both have claimed. */
  lemma GiveBackStays(s: State, t: nat, giveUp: bool)
    requires Paired(s) && t < |s.pcs| && s.pcs[t].GiveBack?
    ensures Paired(Next(s, t, giveUp))
  {
    var s', pc' := Next(s, t, giveUp), Done(Some(s.pcs[t].at));
    GiveBackStepped(s, t, giveUp);
    OnePairStays(s, s');
    hide Next, Shaped, OnePair, PlaceFits, ClaimsFit, OwnedFit, OneOwner, BusyOwned, LosersFit, WinnersFit, NoneFreed,
      TextsFit, FindersFit, AnswersFit;
    StepKeepsClaims(s, t, pc', s');
    StepKeepsLosers(s, t, pc', s');
    StepKeepsWinners(s, t, pc', s');
    StepKeepsFinders(s, t, pc', s');
    StepKeepsAnswers(s, t, pc', s');
    StepKeepsTexts(s, t, pc', s');
    GiveBackKeepsRecords(s, t, giveUp);
  }

  lemma GiveBackKeepsRecords(s: State, t: nat, giveUp: bool)
    requires Paired(s) && t < |s.pcs| && s.pcs[t].GiveBack?
    requires Stepped(s, t, Done(Some(s.pcs[t].at)), Next(s, t, giveUp))
    ensures var s' := Next(s, t, giveUp); OwnedFit(s') && OneOwner(s') && BusyOwned(s') && NoneFreed(s')
  {
    var s', i := Next(s, t, giveUp), s.pcs[t].own;
    StepKeepsBeaten(s, t, Done(Some(s.pcs[t].at)), s');
    assert Owns(s, t, i);
    forall v, j ensures Owns(s', v, j) <==> Owns(s, v, j) && v != t { }
    forall j | 0 <= j < MAX_DEVICES && s'.recs[j].status != Free ensures exists v :: Owns(s', v, j) {
      var v :| Owns(s, v, j);
      assert Owns(s', v, j);
    }
    var u :| Lost(s, t, u);
    forall v, w | Sib(s', v, w) ensures s'.claimed[v].Some? {
      assert Sib(s, v, w);
      assert v == t || v == u by { if v != t { assert Sib(s, t, v); } }
    }
  }

  // -- the claiming move --

  lemma ClaimKeepsBeaten(s: State, t: nat, giveUp: bool)
    requires Paired(s) && t < |s.pcs| && s.pcs[t].TryClaim? && Act(s.pcs[t], s.recs, s.ids[t], giveUp).Store?
    ensures var s' := Next(s, t, giveUp);
            && Shaped(s')
            && (forall v, w :: Sib(s', v, w) <==> Sib(s, v, w))
            && (forall v, w :: v != t && Lost(s', v, w) ==> Lost(s, v, w))
            && (forall v, w :: Lost(s, v, w) ==> Lost(s', v, w) && v != t && w != t)
            && (forall v :: v != t ==> (Beaten(s', v) <==> Beaten(s, v)))
            && (forall u :: Sib(s, t, u) && s.claimed[u].Some? ==> s.claimed[u].value < s.pcs[t].at)
  {
    StaysShaped(s, t, giveUp);
    var s', i := Next(s, t, giveUp), s.pcs[t].at;
    forall u | Sib(s, t, u) && s.claimed[u].Some? ensures s.claimed[u].value < i {
      OtherUnbeaten(s, t, u);
      assert Owns(s, u, s.claimed[u].value);
    }
    forall v, w ensures Sib(s', v, w) <==> Sib(s, v, w) { }
    forall v, w | v != t && Lost(s', v, w) ensures Lost(s, v, w) {
      if w == t { assert Sib(s, t, v); }
    }
    forall v | v != t ensures Beaten(s', v) <==> Beaten(s, v) {
      if Beaten(s, v) { var w :| Lost(s, v, w); assert Lost(s', v, w); }
    }
  }

  lemma ClaimKeepsRecords(s: State, t: nat, giveUp: bool)
    requires Paired(s) && t < |s.pcs| && s.pcs[t].TryClaim? && Act(s.pcs[t], s.recs, s.ids[t], giveUp).Store?
    ensures var s' := Next(s, t, giveUp); Shaped(s') && OwnedFit(s') && OneOwner(s') && BusyOwned(s')
  {
    ClaimKeepsBeaten(s, t, giveUp);
    var s', i := Next(s, t, giveUp), s.pcs[t].at;
    forall v, j | v != t ensures Owns(s', v, j) <==> Owns(s, v, j) { }
    forall v ensures !Owns(s, v, i) { }
    forall j | 0 <= j < MAX_DEVICES && s'.recs[j].status != Free ensures exists v :: Owns(s', v, j) {
      if j == i { assert Owns(s', t, i); } else {
        var v :| Owns(s, v, j);
        assert Owns(s', v, j);
      }
    }
  }

  lemma ClaimKeepsPlaces(s: State, t: nat, giveUp: bool)
    requires Paired(s) && t < |s.pcs| && s.pcs[t].TryClaim? && Act(s.pcs[t], s.recs, s.ids[t], giveUp).Store?
    ensures var s' := Next(s, t, giveUp); Shaped(s') && ClaimsFit(s') && LosersFit(s') && WinnersFit(s')
  {
    ClaimKeepsBeaten(s, t, giveUp);
  }

  lemma ClaimKeepsTexts(s: State, t: nat, giveUp: bool)
    requires Paired(s) && t < |s.pcs| && s.pcs[t].TryClaim? && Act(s.pcs[t], s.recs, s.ids[t], giveUp).Store?
    ensures var s' := Next(s, t, giveUp); Shaped(s') && TextsFit(s')
  {
    StaysShaped(s, t, giveUp);
    var s' := Next(s, t, giveUp);
    forall j | 0 <= j < MAX_DEVICES && TextOwned(s, j) ensures TextOwned(s', j) {
      var v :| 0 <= v < |s.ids| && s.claimed[v] == Some(j) && s.ids[v] == s.recs[j].text;
      assert s'.claimed[v] == Some(j);
    }
  }

  lemma ClaimKeepsFinders(s: State, t: nat, giveUp: bool)
    requires Paired(s) && t < |s.pcs| && s.pcs[t].TryClaim? && Act(s.pcs[t], s.recs, s.ids[t], giveUp).Store?
    ensures var s' := Next(s, t, giveUp); Shaped(s') && FindersFit(s')
  {
    ClaimKeepsBeaten(s, t, giveUp);
    var s' := Next(s, t, giveUp);
    forall v, j: nat | FoundBySibling(s, v, j) ensures FoundBySibling(s', v, j) {
      var u :| Sib(s, v, u) && s.claimed[u] == Some(j);
      assert Sib(s', v, u);
    }
  }

  lemma ClaimFreesNone(s: State, t: nat, giveUp: bool)
    requires Paired(s) && t < |s.pcs| && s.pcs[t].TryClaim? && Act(s.pcs[t], s.recs, s.ids[t], giveUp).Store?
    ensures var s' := Next(s, t, giveUp); Shaped(s') && NoneFreed(s')
  {
    ClaimKeepsBeaten(s, t, giveUp);
    var s' := Next(s, t, giveUp);
    forall v, u | Sib(s', v, u) && s'.claimed[v].None?
      ensures s'.pcs[v].TryClaim? ==> BusyBelow(s', s'.pcs[v].at)
      ensures s'.claimed[u].Some? ==> BusyBelow(s', s'.claimed[u].value)
    {
      assert Sib(s, v, u) && Sib(s, u, v);
    }
  }

  lemma ClaimKeepsAnswers(s: State, t: nat, giveUp: bool)
    requires Paired(s) && t < |s.pcs| && s.pcs[t].TryClaim? && Act(s.pcs[t], s.recs, s.ids[t], giveUp).Store?
    ensures var s' := Next(s, t, giveUp); Shaped(s') && AnswersFit(s')
  {
    ClaimKeepsBeaten(s, t, giveUp);
    var s' := Next(s, t, giveUp);
    forall v, r | 0 <= v < |s.pcs| && r in s'.answers[v] ensures WinnerFor(s', v, r) {
      assert WinnerFor(s, v, r);
      var u :| 0 <= u < |s.ids| && s.ids[u] == s.ids[v] && s.claimed[u] == Some(r) && !Beaten(s, u) &&
        !Writes(s.pcs[u]);
      assert s'.claimed[u] == Some(r) && !Beaten(s', u);
    }
  }

  lemma PairedStays(s: State, t: nat, giveUp: bool)
    requires Paired(s) && t < |s.pcs|
    ensures Paired(Next(s, t, giveUp))
  {
    if Act(s.pcs[t], s.recs, s.ids[t], giveUp).Look? {
      LookStays(s, t, giveUp);
    } else if Writes(s.pcs[t]) {
      WriteStays(s, t, giveUp);
    } else if s.pcs[t].GiveBack? {
      GiveBackStays(s, t, giveUp);
    } else {
      ClaimStays(s, t, giveUp);
    }
  }

  lemma ClaimStays(s: State, t: nat, giveUp: bool)
    requires Paired(s) && t < |s.pcs| && s.pcs[t].TryClaim? && Act(s.pcs[t], s.recs, s.ids[t], giveUp).Store?
    ensures Paired(Next(s, t, giveUp))
  {
    ClaimKeepsBeaten(s, t, giveUp);
    ClaimKeepsRecords(s, t, giveUp);
    ClaimKeepsPlaces(s, t, giveUp);
    ClaimKeepsTexts(s, t, giveUp);
    ClaimKeepsFinders(s, t, giveUp);
    ClaimFreesNone(s, t, giveUp);
    ClaimKeepsAnswers(s, t, giveUp);
  }

  lemma {:induction false} RunPaired(s: State, moves: seq<Move>)
    requires Paired(s) && Scheduled(s, moves)
    ensures Paired(Run(s, moves))
    decreases |moves|
  {
    if moves != [] {
      assert moves[0] in moves;
      PairedStays(s, moves[0].thread, moves[0].giveUp);
      RunPaired(Next(s, moves[0].thread, moves[0].giveUp), moves[1..]);
    }
  }

  lemma WinnersAgree(s: State, t: int, u: int, q: nat, r: nat)
    requires Paired(s)
    requires 0 <= t < |s.ids| && 0 <= u < |s.ids| && s.ids[t] == s.ids[u]
    requires WinnerFor(s, t, q) && WinnerFor(s, u, r)
    ensures q == r
  {
    var v :| 0 <= v < |s.ids| && s.ids[v] == s.ids[t] && s.claimed[v] == Some(q) && !Beaten(s, v);
    var w :| 0 <= w < |s.ids| && s.ids[w] == s.ids[u] && s.claimed[w] == Some(r) && !Beaten(s, w);
    assert !Lost(s, v, w) && !Lost(s, w, v);
  }

  lemma StartPaired(ids: seq<DeviceId>)
    requires OnePair(Start(ids))
    ensures Paired(Start(ids))
  {
  }

  /** Every answer given for an id is the same record, which is Live with that id. */
  ghost predicate Agreed(s: State, t: nat, u: nat)
    requires Shaped(s) && t < |s.ids| && u < |s.ids|
  {
    forall q, r :: q in s.answers[t] && r in s.answers[u] ==>
      q == r && r < MAX_DEVICES && s.recs[r].status == Live && s.recs[r].text == s.ids[t]
  }

  lemma PairedAgrees(s: State, t: nat, u: nat)
    requires Paired(s) && t < |s.ids| && u < |s.ids| && s.ids[t] == s.ids[u]
    ensures Agreed(s, t, u)
  {
    forall q, r | q in s.answers[t] && r in s.answers[u]
      ensures q == r && r < MAX_DEVICES && s.recs[r].status == Live && s.recs[r].text == s.ids[t]
    {
      assert WinnerFor(s, t, q) && WinnerFor(s, u, r);
      WinnersAgree(s, t, u, q, r);
      var w :| 0 <= w < |s.ids| && s.ids[w] == s.ids[u] && s.claimed[w] == Some(r) && !Beaten(s, w) &&
        !Writes(s.pcs[w]);
      assert Owns(s, w, r);
    }
  }

  /** In every interleaving in which at most one id has two threads, the calls for an id agree. */
  lemma AddsAgree(ids: seq<DeviceId>, moves: seq<Move>, t: nat, u: nat)
    requires OnePair(Start(ids)) && Scheduled(Start(ids), moves)
    requires t < |ids| && u < |ids| && ids[t] == ids[u]
    ensures Agreed(Run(Start(ids), moves), t, u)
  {
    StartPaired(ids);
    RunPaired(Start(ids), moves);
    PairedAgrees(Run(Start(ids), moves), t, u);
  }

  /** Live records carrying one id coincide once no call for the id holds a record it might give back. */
  lemma PairedHasOneRecord(s: State, i: nat, j: nat)
    requires Paired(s) && i < MAX_DEVICES && j < MAX_DEVICES
    requires s.recs[i].status == Live && s.recs[j].status == Live && s.recs[i].text == s.recs[j].text
    requires forall t :: 0 <= t < |s.ids| && s.ids[t] == s.recs[i].text ==> !Holds(s.pcs[t])
    ensures i == j
  {
    var v, w :| Owns(s, v, i) && Owns(s, w, j);
    assert !Lost(s, v, w) && !Lost(s, w, v);
  }

  lemma OneRecordPerId(ids: seq<DeviceId>, moves: seq<Move>, i: nat, j: nat)
    requires OnePair(Start(ids)) && Scheduled(Start(ids), moves) && i < MAX_DEVICES && j < MAX_DEVICES
    requires var s := Run(Start(ids), moves);
             && s.recs[i].status == Live && s.recs[j].status == Live && s.recs[i].text == s.recs[j].text
             && forall t :: 0 <= t < |ids| && ids[t] == s.recs[i].text ==> s.pcs[t].Done?
    ensures i == j
  {
    hide Paired, OnePair;
    StartPaired(ids);
    RunPaired(Start(ids), moves);
    PairedHasOneRecord(Run(Start(ids), moves), i, j);
  }
}
