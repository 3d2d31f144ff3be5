/**
 The reaper that closes retired session clients on its own thread, with the wake-up protocol it sleeps
 on. Callers retire, stop and drain from any number of threads; one move is one critical section or one
 atomic access.
 */
module ClientReaper {
  import opened Basics

  type Client = nat

  /** The reaper thread's place in its loop. */
  datatype Worker =
    | Announce
    | LookForWork
    | Asleep
    | Wake
    | TakeBatch
    | Closing(i: nat)
    | CountUp(count: nat)
    | Exited

  /** A calling thread: at rest, inside the wake's `notify`, or inside `drain`. */
  datatype Caller =
    | Resting
    | NotifyLook
    | NotifyTake
    | NotifyPost
    | Draining(target: nat)
    | Drained(target: nat)

  /** The queue and the batch, with the history of every client retired and every client closed. */
  datatype Clients = Clients(queue: seq<Client>, batch: seq<Client>, handed: seq<Client>, closed: seq<Client>)

  /** The two counters, and (history) how many closed clients the reaper no longer refers to. */
  datatype Counts = Counts(retired: nat, closed: nat, dropped: nat)

  /** `sawStop` is the flag the reaper copied with its batch; `late` is history: a retire after the last take. */
  datatype Flags = Flags(stopping: bool, sawStop: bool, late: bool)

  datatype Signal = Signal(sleeping: bool, permits: nat)

  datatype State = State(clients: Clients, counts: Counts, flags: Flags, signal: Signal, worker: Worker,
                         callers: seq<Caller>)

  function Start(threads: nat): State {
    State(Clients([], [], [], []), Counts(0, 0, 0), Flags(false, false, false), Signal(false, 0), Announce,
          seq(threads, _ => Resting))
  }

  predicate HasWork(s: State) {
    s.flags.stopping || s.clients.queue != []
  }

  /** The reaper has made its last take and found nothing: whatever is queued now stays queued. */
  predicate Doomed(s: State) {
    && s.flags.sawStop
    && (|| (s.worker.Closing? && s.clients.batch == [])
        || (s.worker.CountUp? && s.worker.count == 0)
        || s.worker.Exited?)
  }

  function WorkerStep(s: State): State {
    match s.worker
    case Announce => s.(signal := s.signal.(sleeping := true), worker := LookForWork)
    case LookForWork => s.(worker := if HasWork(s) then Wake else Asleep)
    case Asleep =>
      if s.signal.permits == 0 then s
      else s.(signal := s.signal.(permits := s.signal.permits - 1), worker := Wake)
    case Wake => s.(signal := s.signal.(sleeping := false), worker := TakeBatch)
    case TakeBatch =>
      s.(clients := s.clients.(queue := [], batch := s.clients.queue),
         flags := s.flags.(sawStop := s.flags.stopping),
         worker := Closing(0))
    case Closing(i) =>
      if i < |s.clients.batch| then
        s.(clients := s.clients.(closed := s.clients.closed + [s.clients.batch[i]]), worker := Closing(i + 1))
      else
        s.(clients := s.clients.(batch := []),
           counts := s.counts.(dropped := s.counts.dropped + |s.clients.batch|),
           worker := CountUp(|s.clients.batch|))
    case CountUp(n) =>
      s.(counts := s.counts.(closed := s.counts.closed + n),
         worker := if s.flags.sawStop && n == 0 then Exited else Announce)
    case Exited => s
  }

  datatype Call = Retire(client: Option<Client>) | Stop | Drain | Go

  function Place(s: State, p: nat, c: Caller): State
    requires p < |s.callers|
  {
    s.(callers := s.callers[p := c])
  }

  /** A caller's move: a call it makes at rest, or `Go` on with the one it is in. */
  function CallerStep(s: State, p: nat, c: Call): State
    requires p < |s.callers|
  {
    match s.callers[p]
    case Resting =>
      (match c
       case Retire(Some(x)) =>
         Place(s, p, NotifyLook).(
           clients := s.clients.(queue := s.clients.queue + [x], handed := s.clients.handed + [x]),
           counts := s.counts.(retired := s.counts.retired + 1),
           flags := s.flags.(late := s.flags.late || Doomed(s)))
       case Stop => Place(s, p, NotifyLook).(flags := s.flags.(stopping := true))
       case Drain => Place(s, p, Draining(s.counts.retired))
       case _ => s)
    case NotifyLook => Place(s, p, if s.signal.sleeping then NotifyTake else Resting)
    case NotifyTake =>
      Place(s, p, if s.signal.sleeping then NotifyPost else Resting).(signal := s.signal.(sleeping := false))
    case NotifyPost => Place(s, p, Resting).(signal := s.signal.(permits := s.signal.permits + 1))
    case Draining(target) => if s.counts.closed >= target then Place(s, p, Drained(target)) else s
    case Drained(_) => Place(s, p, Resting)
  }

  datatype Move = Work | By(caller: nat, call: Call)

  function Next(s: State, m: Move): State {
    if m.Work? then WorkerStep(s)
    else if m.caller < |s.callers| then CallerStep(s, m.caller, m.call)
    else s
  }

  /** The state after a whole interleaving. */
  function Run(s: State, moves: seq<Move>): State
    decreases |moves|
  {
    if moves == [] then s else Run(Next(s, moves[0]), moves[1..])
  }

  // ---- conservation ----

  /** What the reaper has taken and not yet closed. */
  function Pending(c: Clients, w: Worker): seq<Client> {
    if w.Closing? && w.i <= |c.batch| then c.batch[w.i..] else []
  }

  /** Every client retired is closed, in the batch still to close, or queued, in that order. */
  ghost predicate InOrder(c: Clients, w: Worker) {
    c.handed == c.closed + (Pending(c, w) + c.queue)
  }

  lemma ClosingKeepsOrder(c: Clients, i: nat)
    requires InOrder(c, Closing(i)) && i < |c.batch|
    ensures InOrder(c.(closed := c.closed + [c.batch[i]]), Closing(i + 1))
  {
  }

  lemma RetireKeepsOrder(c: Clients, w: Worker, x: Client)
    requires InOrder(c, w)
    ensures InOrder(c.(queue := c.queue + [x], handed := c.handed + [x]), w)
  {
  }

  ghost predicate Counted(s: State) {
    && (s.worker.Closing? ==> s.worker.i <= |s.clients.batch|)
    && s.counts.retired == |s.clients.handed|
    && |s.clients.closed| == s.counts.dropped + (if s.worker.Closing? then s.worker.i else 0)
    && s.counts.dropped == s.counts.closed + (if s.worker.CountUp? then s.worker.count else 0)
  }

  ghost predicate DrainsFit(s: State) {
    forall p :: 0 <= p < |s.callers| ==>
      && (s.callers[p].Draining? ==> s.callers[p].target <= s.counts.retired)
      && (s.callers[p].Drained? ==> s.callers[p].target <= s.counts.closed)
  }

  lemma WorkerConserves(s: State)
    requires InOrder(s.clients, s.worker) && Counted(s)
    ensures var s' := WorkerStep(s);
            InOrder(s'.clients, s'.worker) && Counted(s') && s'.clients.handed == s.clients.handed
  {
    if s.worker.Closing? && s.worker.i < |s.clients.batch| { ClosingKeepsOrder(s.clients, s.worker.i); }
  }

  lemma WorkerKeepsDrains(s: State)
    requires Counted(s) && DrainsFit(s)
    ensures DrainsFit(WorkerStep(s))
  {
  }

  lemma CallerConserves(s: State, p: nat, c: Call)
    requires p < |s.callers| && InOrder(s.clients, s.worker) && Counted(s)
    ensures var s' := CallerStep(s, p, c);
            InOrder(s'.clients, s'.worker) && Counted(s') && s.clients.handed <= s'.clients.handed
  {
    if c.Retire? && c.client.Some? { RetireKeepsOrder(s.clients, s.worker, c.client.value); }
  }

  lemma CallerKeepsDrains(s: State, p: nat, c: Call)
    requires p < |s.callers| && InOrder(s.clients, s.worker) && Counted(s) && DrainsFit(s)
    ensures DrainsFit(CallerStep(s, p, c))
  {
  }

  // ---- no lost wake-up ----

  ghost predicate Posting(s: State) {
    exists p :: 0 <= p < |s.callers| && s.callers[p].NotifyPost?
  }

  ghost predicate Notifying(s: State) {
    exists p :: 0 <= p < |s.callers| && (s.callers[p].NotifyLook? || s.callers[p].NotifyTake?)
  }

  ghost predicate WakeKept(s: State) {
    && (s.worker.LookForWork? || s.worker.Asleep? ==> s.signal.sleeping || s.signal.permits > 0 || Posting(s))
    && (s.worker.Asleep? && HasWork(s) ==> s.signal.permits > 0 || Posting(s) || Notifying(s))
  }

  /** Another caller's place in `notify` outlives the move of `p`. */
  lemma OthersStay(s: State, p: nat, c: Call)
    requires p < |s.callers|
    ensures var s' := CallerStep(s, p, c);
            && |s'.callers| == |s.callers|
            && (forall q :: 0 <= q < |s.callers| && q != p ==> s'.callers[q] == s.callers[q])
            && (s'.callers[p].NotifyPost? ==> Posting(s'))
            && (s'.callers[p].NotifyLook? || s'.callers[p].NotifyTake? ==> Notifying(s'))
  {
  }

  lemma CallerKeepsWake(s: State, p: nat, c: Call)
    requires WakeKept(s) && p < |s.callers|
    ensures WakeKept(CallerStep(s, p, c))
  {
    var s' := CallerStep(s, p, c);
    OthersStay(s, p, c);
    if s.callers[p].NotifyPost? {
      assert s'.signal.permits > 0;
    } else {
      assert Posting(s) ==> Posting(s');
      if s.callers[p].NotifyLook? || s.callers[p].NotifyTake? {
        assert s.signal.sleeping ==> s'.callers[p].NotifyTake? || s'.callers[p].NotifyPost?;
      } else {
        assert Notifying(s) ==> Notifying(s');
      }
    }
  }

  // ---- the exit ----

  /** Once the last take is made, the queue holds exactly the clients that came too late. */
  ghost predicate ExitFits(s: State) {
    && (s.flags.late ==> Doomed(s))
    && (Doomed(s) ==> s.flags.stopping && (s.flags.late <==> s.clients.queue != []))
    && ((s.worker.Closing? || s.worker.CountUp?) && s.flags.sawStop ==> s.flags.stopping)
    && (s.worker.Exited? ==> s.flags.sawStop)
  }

  ghost predicate Inv(s: State) {
    InOrder(s.clients, s.worker) && Counted(s) && DrainsFit(s) && WakeKept(s) && ExitFits(s)
  }

  lemma NextKeepsInv(s: State, m: Move)
    requires Inv(s)
    ensures Inv(Next(s, m)) && s.clients.handed <= Next(s, m).clients.handed
  {
    hide InOrder, Counted, DrainsFit;
    if m.Work? {
      WorkerConserves(s);
      WorkerKeepsDrains(s);
    } else if m.caller < |s.callers| {
      CallerConserves(s, m.caller, m.call);
      CallerKeepsDrains(s, m.caller, m.call);
      CallerKeepsWake(s, m.caller, m.call);
    }
  }

  lemma {:induction false} RunKeepsInv(s: State, moves: seq<Move>)
    requires Inv(s)
    ensures Inv(Run(s, moves)) && s.clients.handed <= Run(s, moves).clients.handed
    decreases |moves|
  {
    if moves != [] {
      NextKeepsInv(s, moves[0]);
      RunKeepsInv(Next(s, moves[0]), moves[1..]);
    }
  }

  /** In every interleaving the clients closed are the first ones retired, in that order and once each;
      the others are in the batch or queued. */
  lemma ClosedInOrder(threads: nat, moves: seq<Move>)
    ensures var s := Run(Start(threads), moves);
            && s.counts.closed <= s.counts.dropped <= |s.clients.closed| <= s.counts.retired == |s.clients.handed|
            && s.clients.closed <= s.clients.handed
            && s.clients.handed[|s.clients.closed|..] == Pending(s.clients, s.worker) + s.clients.queue
  {
    RunKeepsInv(Start(threads), moves);
  }

  // ---- drain ----

  /** The moves take caller `p` from inside `drain` to its return, and not past it. */
  predicate DrainReturns(s: State, p: nat, moves: seq<Move>)
    decreases |moves|
  {
    && p < |s.callers|
    && if moves == [] then s.callers[p].Drained?
       else s.callers[p].Draining? && DrainReturns(Next(s, moves[0]), p, moves[1..])
  }

  /** The moves leave caller `p` inside `drain` throughout. */
  predicate StaysDraining(s: State, p: nat, moves: seq<Move>)
    decreases |moves|
  {
    p < |s.callers| && s.callers[p].Draining? && (moves == [] || StaysDraining(Next(s, moves[0]), p, moves[1..]))
  }

  lemma TargetStays(s: State, p: nat, m: Move)
    requires p < |s.callers| && s.callers[p].Draining?
    ensures var s' := Next(s, m);
            && p < |s'.callers|
            && (s'.callers[p].Draining? || s'.callers[p].Drained? ==> s'.callers[p].target == s.callers[p].target)
  {
  }

  lemma {:induction false} ReturnsWithTarget(s: State, p: nat, moves: seq<Move>, target: nat)
    requires DrainReturns(s, p, moves) || StaysDraining(s, p, moves)
    requires (s.callers[p].Draining? || s.callers[p].Drained?) && s.callers[p].target == target
    ensures var s' := Run(s, moves);
            && p < |s'.callers|
            && s'.callers[p] == if DrainReturns(s, p, moves) then Drained(target) else Draining(target)
    decreases |moves|
  {
    if moves != [] {
      TargetStays(s, p, moves[0]);
      hide Next;
      ReturnsWithTarget(Next(s, moves[0]), p, moves[1..], target);
    }
  }

  lemma DrainBegins(s: State, p: nat)
    requires Inv(s) && p < |s.callers| && s.callers[p].Resting?
    ensures var s' := Next(s, By(p, Drain));
            && p < |s'.callers| && s'.callers[p] == Draining(|s.clients.handed|)
            && s'.clients == s.clients && s'.counts == s.counts
  {
  }

  /** `drain` returns only once the reaper has closed and let go of all that had been retired when it was called. */
  lemma DrainCovers(threads: nat, before: seq<Move>, p: nat, after: seq<Move>)
    requires var s := Run(Start(threads), before); p < |s.callers| && s.callers[p].Resting?
    requires DrainReturns(Next(Run(Start(threads), before), By(p, Drain)), p, after)
    ensures var s := Run(Start(threads), before);
            var s' := Run(Next(s, By(p, Drain)), after);
            s.clients.handed <= s'.clients.closed && |s.clients.handed| <= s'.counts.dropped
  {
    RunKeepsInv(Start(threads), before);
    var s := Run(Start(threads), before);
    DrainBegins(s, p);
    NextKeepsInv(s, By(p, Drain));
    RunKeepsInv(Next(s, By(p, Drain)), after);
    ReturnsWithTarget(Next(s, By(p, Drain)), p, after, |s.clients.handed|);
  }

  /** A caller still inside `drain` leaves it on its next look exactly if all that had been retired when it was called
      is counted as closed. */
  lemma DrainReturnsIff(threads: nat, before: seq<Move>, p: nat, after: seq<Move>)
    requires var s := Run(Start(threads), before); p < |s.callers| && s.callers[p].Resting?
    requires StaysDraining(Next(Run(Start(threads), before), By(p, Drain)), p, after)
    ensures var s := Run(Start(threads), before);
            var s' := Run(Next(s, By(p, Drain)), after);
            && p < |Next(s', By(p, Go)).callers|
            && (Next(s', By(p, Go)).callers[p].Drained? <==> |s.clients.handed| <= s'.counts.closed)
  {
    RunKeepsInv(Start(threads), before);
    var s := Run(Start(threads), before);
    DrainBegins(s, p);
    hide Inv, StaysDraining, DrainReturns, Run;
    var d := Next(s, By(p, Drain));
    ReturnsWithTarget(d, p, after, |s.clients.handed|);
    NotBoth(d, p, after);
  }

  lemma {:induction false} NotBoth(s: State, p: nat, moves: seq<Move>)
    requires StaysDraining(s, p, moves)
    ensures !DrainReturns(s, p, moves)
    decreases |moves|
  {
    if moves != [] { NotBoth(Next(s, moves[0]), p, moves[1..]); }
  }

  // ---- an awake reaper gets through its work ----

  /** The moves a reaper that is awake needs to close all there is; none if there is nothing to close. */
  function WorkLeft(s: State): nat {
    var n := |s.clients.queue|;
    var again := if n == 0 then 0 else n + 6;
    match s.worker
    case Closing(i) => (if i <= |s.clients.batch| then |s.clients.batch| - i else 0) + 2 + again
    case CountUp(_) => 1 + again
    case Announce => again
    case LookForWork => if n == 0 then 0 else n + 5
    case Asleep => if n == 0 then 0 else n + 5
    case Wake => if n == 0 then 0 else n + 4
    case TakeBatch => if n == 0 then 0 else n + 3
    case Exited => 0
  }

  /** The reaper can move on: it is not asleep without a permit. */
  predicate Awake(s: State) {
    s.worker.Asleep? ==> s.signal.permits > 0
  }

  lemma WorkProgresses(s: State)
    requires Inv(s) && Awake(s) && !Doomed(s) && WorkLeft(s) > 0
    ensures var s' := WorkerStep(s);
            && Awake(s') && !Doomed(s') && WorkLeft(s') == WorkLeft(s) - 1 && s'.clients.handed == s.clients.handed
  {
  }

  lemma NoWorkLeft(s: State)
    requires Inv(s) && !Doomed(s) && WorkLeft(s) == 0
    ensures s.clients.closed == s.clients.handed && s.counts.closed == |s.clients.handed|
  {
  }

  /** A reaper that is awake and has not made its last take closes every client retired, by its own moves alone, and
      counts them all. */
  lemma {:induction false} AwakeReaperClosesAll(s: State)
    requires Inv(s) && Awake(s) && !Doomed(s)
    ensures var s' := Run(s, seq(WorkLeft(s), _ => Work));
            s'.clients.closed == s'.clients.handed == s.clients.handed && s'.counts.closed == |s.clients.handed|
    decreases WorkLeft(s)
  {
    if WorkLeft(s) == 0 {
      NoWorkLeft(s);
    } else {
      var n, s' := WorkLeft(s), WorkerStep(s);
      WorkProgresses(s);
      NextKeepsInv(s, Work);
      assert seq(n, _ => Work)[1..] == seq(n - 1, _ => Work);
      hide Inv, Awake, Doomed, WorkLeft, WorkerStep;
      AwakeReaperClosesAll(s');
    }
  }

  /** With nothing to do the reaper goes to sleep, and stays asleep until a permit is posted. */
  lemma IdleReaperSleeps(s: State)
    requires !HasWork(s) && (s.worker.Announce? || s.worker.LookForWork? || (s.worker.Asleep? && s.signal.permits == 0))
    ensures var s' := if s.worker.Announce? then Next(Next(s, Work), Work) else Next(s, Work);
            s'.worker.Asleep? && s'.clients == s.clients && s'.signal.permits == s.signal.permits
    ensures s.worker.Asleep? ==> Next(s, Work) == s
  {
  }

  // ---- wake-ups ----

  /** A reaper asleep with work to do has a permit waiting, or a caller that is about to post one. */
  lemma NoLostWake(threads: nat, moves: seq<Move>)
    requires var s := Run(Start(threads), moves); s.worker.Asleep? && HasWork(s)
    ensures var s := Run(Start(threads), moves);
            s.signal.permits > 0 || Posting(s) || (s.signal.sleeping && Notifying(s))
  {
    RunKeepsInv(Start(threads), moves);
  }

  /** Such a caller does post: at most three moves of its own hand the sleeper a permit. */
  lemma NotifierPosts(s: State, p: nat)
    requires p < |s.callers|
    requires s.callers[p].NotifyPost? || (s.signal.sleeping && (s.callers[p].NotifyLook? || s.callers[p].NotifyTake?))
    ensures var s1 := Next(s, By(p, Go));
            var s2 := Next(s1, By(p, Go));
            var s3 := Next(s2, By(p, Go));
            || s.signal.permits < s1.signal.permits
            || s.signal.permits < s2.signal.permits
            || s.signal.permits < s3.signal.permits
  {
  }

  // ---- what a wake-up costs ----

  /** The flag is up only while the reaper is about to sleep, asleep, or on its way out of sleep. */
  predicate FlagFits(s: State) {
    s.signal.sleeping ==> s.worker.LookForWork? || s.worker.Asleep? || s.worker.Wake?
  }

  /** The permits a run has posted: the moves of callers that had taken the flag. */
  function Posted(s: State, moves: seq<Move>): nat
    decreases |moves|
  {
    if moves == [] then 0
    else
      var m := moves[0];
      (if m.By? && m.caller < |s.callers| && s.callers[m.caller].NotifyPost? then 1 else 0)
      + Posted(Next(s, m), moves[1..])
  }

  /** The sleeps a run has ended. */
  function Woken(s: State, moves: seq<Move>): nat
    decreases |moves|
  {
    if moves == [] then 0
    else (if s.worker.Asleep? && !Next(s, moves[0]).worker.Asleep? then 1 else 0) + Woken(Next(s, moves[0]), moves[1..])
  }

  lemma {:induction false} PermitsBalance(s: State, moves: seq<Move>)
    requires FlagFits(s)
    ensures var s' := Run(s, moves);
            FlagFits(s') && s'.signal.permits + Woken(s, moves) == s.signal.permits + Posted(s, moves)
    decreases |moves|
  {
    if moves != [] {
      PermitBalances(s, moves[0]);
      hide Next, FlagFits;
      PermitsBalance(Next(s, moves[0]), moves[1..]);
    }
  }

  lemma PermitBalances(s: State, m: Move)
    requires FlagFits(s)
    ensures var s' := Next(s, m);
            && FlagFits(s')
            && s'.signal.permits + (if s.worker.Asleep? && !s'.worker.Asleep? then 1 else 0) == s.signal.permits +
               if m.By? && m.caller < |s.callers| && s.callers[m.caller].NotifyPost? then 1 else 0
  {
  }

  /** In every interleaving each sleep that ends uses up one permit posted, and no other is used up. */
  lemma EachWakeUsesOnePermit(threads: nat, moves: seq<Move>)
    ensures Woken(Start(threads), moves) + Run(Start(threads), moves).signal.permits == Posted(Start(threads), moves)
  {
    PermitsBalance(Start(threads), moves);
  }

  /** A caller that notifies a reaper at work is back after one look and posts nothing. */
  lemma NotifyAtWorkIsFree(threads: nat, moves: seq<Move>, p: nat)
    requires var s := Run(Start(threads), moves);
             && p < |s.callers| && s.callers[p].NotifyLook?
             && !s.worker.LookForWork? && !s.worker.Asleep? && !s.worker.Wake?
    ensures var s := Run(Start(threads), moves); Next(s, By(p, Go)) == s.(callers := s.callers[p := Resting])
  {
    PermitsBalance(Start(threads), moves);
  }

  // ---- what is left at the exit ----

  /** The thread exits only after the stop, and with every client ever retired closed exactly when none was retired
      after its last take. */
  lemma ExitsWithNothingLeftIff(threads: nat, moves: seq<Move>)
    requires Run(Start(threads), moves).worker.Exited?
    ensures var s := Run(Start(threads), moves);
            && s.flags.stopping
            && (!s.flags.late <==> s.clients.closed == s.clients.handed)
            && (!s.flags.late <==> s.clients.queue == []) && (!s.flags.late ==> s.counts.closed == s.counts.retired)
  {
    RunKeepsInv(Start(threads), moves);
  }

  // ---- which clients are closed ----

  lemma DoomedStays(s: State, m: Move)
    requires Doomed(s)
    ensures Doomed(Next(s, m)) && Next(s, m).clients.closed == s.clients.closed
  {
  }

  lemma {:induction false} DoomedForEver(s: State, moves: seq<Move>)
    requires Doomed(s)
    ensures Run(s, moves).clients.closed == s.clients.closed
    decreases |moves|
  {
    if moves != [] {
      DoomedStays(s, moves[0]);
      DoomedForEver(Next(s, moves[0]), moves[1..]);
    }
  }

  /** How many clients are closed or taken to be closed. */
  function Taken(s: State): int {
    |s.clients.closed| + if s.worker.Closing? then |s.clients.batch| - s.worker.i else 0
  }

  /** The `n`th client retired is closed, about to be, or queued before the last take. */
  ghost predicate Covered(s: State, n: nat) {
    n < Taken(s) || (!Doomed(s) && n < |s.clients.handed|)
  }

  lemma CallerKeepsCovered(s: State, p: nat, c: Call, n: nat)
    requires p < |s.callers| && Covered(s, n)
    ensures Covered(CallerStep(s, p, c), n)
  {
    var s' := CallerStep(s, p, c);
    assert s'.worker == s.worker && s'.clients.batch == s.clients.batch && s'.clients.closed == s.clients.closed;
    assert s'.flags.sawStop == s.flags.sawStop && |s.clients.handed| <= |s'.clients.handed|;
  }

  lemma WorkerKeepsCovered(s: State, n: nat)
    requires |s.clients.handed| == Taken(s) + |s.clients.queue|
    requires s.worker.Closing? ==> s.worker.i <= |s.clients.batch|
    requires Covered(s, n)
    ensures Covered(WorkerStep(s), n)
  {
  }

  lemma CoveredStays(s: State, m: Move, n: nat)
    requires InOrder(s.clients, s.worker) && Counted(s) && Covered(s, n)
    ensures Covered(Next(s, m), n)
  {
    if m.Work? {
      assert |s.clients.handed| == Taken(s) + |s.clients.queue|;
      hide Covered;
      WorkerKeepsCovered(s, n);
    } else if m.caller < |s.callers| {
      hide Covered;
      CallerKeepsCovered(s, m.caller, m.call, n);
    }
  }

  lemma {:induction false} CoveredForEver(s: State, moves: seq<Move>, n: nat)
    requires Inv(s) && Covered(s, n)
    ensures Covered(Run(s, moves), n)
    decreases |moves|
  {
    if moves != [] {
      NextKeepsInv(s, moves[0]);
      CoveredStays(s, moves[0], n);
      hide Inv, Covered;
      CoveredForEver(Next(s, moves[0]), moves[1..], n);
    }
  }

  /** In every run that ends with the thread gone, the client of a retire is closed exactly when the retire came before
      the reaper's last take, the stop notwithstanding. */
  lemma RetiredIsClosedIff(threads: nat, before: seq<Move>, p: nat, x: Client, after: seq<Move>)
    requires var s := Run(Start(threads), before); p < |s.callers| && s.callers[p].Resting?
    requires Run(Next(Run(Start(threads), before), By(p, Retire(Some(x)))), after).worker.Exited?
    ensures var s := Run(Start(threads), before);
            var s' := Run(Next(s, By(p, Retire(Some(x)))), after);
            var n := |s.clients.handed|;
            && n < |s'.clients.handed| && s'.clients.handed[n] == x && s'.clients.closed <= s'.clients.handed
            && (n < |s'.clients.closed| <==> !Doomed(s)) && (Doomed(s) ==> s.flags.stopping)
  {
    var s := Run(Start(threads), before);
    RunKeepsInv(Start(threads), before);
    RetireIsClosedIff(s, p, x, after);
  }

  lemma RetireIsClosedIff(s: State, p: nat, x: Client, after: seq<Move>)
    requires Inv(s) && p < |s.callers| && s.callers[p].Resting?
    requires Run(Next(s, By(p, Retire(Some(x)))), after).worker.Exited?
    ensures var s' := Run(Next(s, By(p, Retire(Some(x)))), after);
            var n := |s.clients.handed|;
            && n < |s'.clients.handed| && s'.clients.handed[n] == x && s'.clients.closed <= s'.clients.handed
            && (n < |s'.clients.closed| <==> !Doomed(s))
  {
    var retired, n := Next(s, By(p, Retire(Some(x)))), |s.clients.handed|;
    NextKeepsInv(s, By(p, Retire(Some(x))));
    RunKeepsInv(retired, after);
    assert retired.clients.handed[n] == x;
    if Doomed(s) {
      DoomedStays(s, By(p, Retire(Some(x))));
      DoomedForEver(retired, after);
    } else {
      CoveredForEver(retired, after, n);
    }
  }

  /** Such a take is reached: a client retired after the stop can be left queued by the exit. */
  lemma LateRetireCanBeLost(x: Client)
    ensures exists moves :: var s := Run(Start(2), moves); s.worker.Exited? && s.flags.late && s.clients.queue == [x]
  {
    var stop := [By(0, Stop), Work, Work, Work, Work, Work];
    var late := [By(1, Retire(Some(x))), Work];
    var s := Run(Start(2), stop);
    assert s.worker == CountUp(0) && s.flags == Flags(true, true, false) && s.clients.queue == [] &&
      s.callers == [NotifyLook, Resting] by {
      assert stop[1..] == [Work, Work, Work, Work, Work];
      assert stop[1..][1..] == [Work, Work, Work, Work];
      assert stop[1..][1..][1..] == [Work, Work, Work];
      assert stop[1..][1..][1..][1..] == [Work, Work];
      assert stop[1..][1..][1..][1..][1..] == [Work];
    }
    assert Run(Start(2), stop + late) == Run(s, late) by { RunAppend(Start(2), stop, late); }
    var left := Next(Next(s, late[0]), Work);
    assert left == Run(Next(s, late[0]), [Work]) && late[1..] == [Work];
    assert Run(s, late) == left && left.worker.Exited?;
  }

  lemma {:induction false} RunAppend(s: State, a: seq<Move>, b: seq<Move>)
    ensures Run(s, a + b) == Run(Run(s, a), b)
    decreases |a|
  {
    if a == [] {
      assert a + b == b;
    } else {
      assert (a + b)[1..] == a[1..] + b;
      RunAppend(Next(s, a[0]), a[1..], b);
    }
  }
}
