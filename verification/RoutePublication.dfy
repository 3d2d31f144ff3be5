/**
 Publication of the route table: the GUI thread swaps two pointers, waits out two grace epochs and
 releases the table it replaced, while device, session and mic threads read inside brackets. One move
 is one atomic access of one thread.
 */
module RoutePublication {
  import opened Basics

  /** Device indices and session participants share one epoch; each mic sender has one of its own. */
  const HOT_PARTICIPANTS: nat := 128
  const MIC_PARTICIPANTS: nat := 64

  type Table = nat

  /** One participant's thread: outside its bracket, inside it, or inside with the pointer loaded. */
  datatype Reader = Outside | Entered | Holding(table: Option<Table>)

  /** A published pointer and the grace epoch that guards it. */
  datatype Domain = Domain(pointer: Option<Table>, epochs: seq<nat>, readers: seq<Reader>)

  // ---- a participant's moves ----

  datatype ReaderMove = EnterBracket | LoadPointer | ExitBracket

  predicate CanRead(d: Domain, q: nat, m: ReaderMove) {
    && q < |d.readers| && q < |d.epochs|
    && match m
       case EnterBracket => d.readers[q].Outside?
       case LoadPointer => d.readers[q].Entered?
       case ExitBracket => !d.readers[q].Outside?
  }

  function ReadStep(d: Domain, q: nat, m: ReaderMove): Domain {
    if !CanRead(d, q, m) then d else
      match m
      case EnterBracket => d.(epochs := d.epochs[q := d.epochs[q] + 1], readers := d.readers[q := Entered])
      case LoadPointer => d.(readers := d.readers[q := Holding(d.pointer)])
      case ExitBracket => d.(epochs := d.epochs[q := d.epochs[q] + 1], readers := d.readers[q := Outside])
  }

  // ---- the wait for quiescence ----

  /** Where the wait stands: about to sample slot `k`, or waiting for slot `k` to leave epoch `seen`. */
  datatype Wait = Sample(k: nat) | Await(k: nat, seen: nat)

  function WaitStep(w: Wait, epochs: seq<nat>): Wait
    requires w.k < |epochs|
  {
    match w
    case Sample(k) => if epochs[k] % 2 == 0 then Sample(k + 1) else Await(k, epochs[k])
    case Await(k, seen) => if epochs[k] == seen then w else Sample(k + 1)
  }

  ghost predicate Parity(d: Domain, n: nat) {
    && |d.readers| == |d.epochs| == n
    && forall q :: 0 <= q < n ==> (d.epochs[q] % 2 == 0 <==> d.readers[q].Outside?)
  }

  /** A bracket that does not hold the current table holds `prior`, and the wait has yet to pass it. */
  ghost predicate Draining(d: Domain, w: Wait, prior: Option<Table>) {
    && w.k <= |d.readers| == |d.epochs|
    && (w.Await? ==> w.k < |d.epochs| && w.seen % 2 == 1 && w.seen <= d.epochs[w.k])
    && forall q :: 0 <= q < |d.readers| && d.readers[q].Holding? && d.readers[q].table != d.pointer ==>
         d.readers[q].table == prior && w.k <= q && (w.Await? && w.k == q ==> d.epochs[q] == w.seen)
  }

  lemma ReaderKeepsDraining(d: Domain, n: nat, q: nat, m: ReaderMove, w: Wait, prior: Option<Table>)
    requires Parity(d, n) && Draining(d, w, prior)
    ensures Parity(ReadStep(d, q, m), n) && Draining(ReadStep(d, q, m), w, prior)
  {
  }

  lemma WaitKeepsDraining(d: Domain, n: nat, w: Wait, prior: Option<Table>)
    requires Parity(d, n) && Draining(d, w, prior) && w.k < n
    ensures Draining(d, WaitStep(w, d.epochs), prior)
  {
  }

  function ReadRun(d: Domain, moves: seq<(nat, ReaderMove)>): Domain
    decreases |moves|
  {
    if moves == [] then d else ReadRun(ReadStep(d, moves[0].0, moves[0].1), moves[1..])
  }

  lemma {:induction false} EpochsGrow(d: Domain, moves: seq<(nat, ReaderMove)>, k: nat)
    requires k < |d.epochs|
    ensures var d' := ReadRun(d, moves); |d'.epochs| == |d.epochs| && d.epochs[k] <= d'.epochs[k]
    decreases |moves|
  {
    if moves != [] { EpochsGrow(ReadStep(d, moves[0].0, moves[0].1), moves[1..], k); }
  }

  /** The wait is never starved: closing the bracket it saw is enough to let it pass, whatever brackets
      the participant opens and closes before the wait looks again. */
  lemma WaitNotStarved(d: Domain, w: Wait, prior: Option<Table>, before: seq<(nat, ReaderMove)>,
      after: seq<(nat, ReaderMove)>)
    requires Draining(d, w, prior) && w.Await?
    requires CanRead(ReadRun(d, before), w.k, ExitBracket)
    ensures var d' := ReadRun(ReadStep(ReadRun(d, before), w.k, ExitBracket), after);
            |d'.epochs| == |d.epochs| && WaitStep(w, d'.epochs) == Sample(w.k + 1)
  {
    EpochsGrow(d, before, w.k);
    EpochsGrow(ReadStep(ReadRun(d, before), w.k, ExitBracket), after, w.k);
  }

  // ---- the GUI thread ----

  datatype Gui =
    | Idle
    | StoreHot(next: Table)
    | StoreMic(next: Table)
    | Swap(next: Table)
    | ClearHot
    | ClearMic
    | AwaitHot(wait: Wait, prior: Option<Table>, dying: bool)
    | AwaitMic(wait: Wait, prior: Option<Table>, dying: bool)
    | Drop(prior: Option<Table>, dying: bool)
    | Heartbeat(table: Option<Table>)
    | Gone

  /** What an idle GUI thread does next. */
  datatype Task = Republish | SendBattery | Destroy

  /** `published` owns the current table; `built` counts the tables built, named 0, 1, 2, ... */
  datatype State = State(hot: Domain, mic: Domain, published: Option<Table>, built: nat, released: set<Table>, gui: Gui)

  function Start(): State {
    State(Domain(None, seq(HOT_PARTICIPANTS, _ => 0), seq(HOT_PARTICIPANTS, _ => Outside)),
          Domain(None, seq(MIC_PARTICIPANTS, _ => 0), seq(MIC_PARTICIPANTS, _ => Outside)),
          None, 0, {}, Idle)
  }

  function Owned(t: Option<Table>): set<Table> {
    if t.Some? then {t.value} else {}
  }

  function GuiStep(s: State, task: Task): State {
    match s.gui
    case Idle =>
      (match task
       case Republish => s.(built := s.built + 1, gui := StoreHot(s.built))
       case SendBattery => s.(gui := Heartbeat(s.published))
       case Destroy => s.(gui := ClearHot))
    case StoreHot(next) => s.(hot := s.hot.(pointer := Some(next)), gui := StoreMic(next))
    case StoreMic(next) => s.(mic := s.mic.(pointer := Some(next)), gui := Swap(next))
    case Swap(next) => s.(published := Some(next), gui := AwaitHot(Sample(0), s.published, false))
    case ClearHot => s.(hot := s.hot.(pointer := None), gui := ClearMic)
    case ClearMic => s.(mic := s.mic.(pointer := None), gui := AwaitHot(Sample(0), s.published, true))
    case AwaitHot(w, prior, dying) =>
      if w.k >= |s.hot.epochs| then s.(gui := AwaitMic(Sample(0), prior, dying))
      else s.(gui := AwaitHot(WaitStep(w, s.hot.epochs), prior, dying))
    case AwaitMic(w, prior, dying) =>
      if w.k >= |s.mic.epochs| then s.(gui := Drop(prior, dying))
      else s.(gui := AwaitMic(WaitStep(w, s.mic.epochs), prior, dying))
    case Drop(prior, dying) =>
      s.(released := s.released + Owned(prior), published := if dying then None else s.published,
         gui := if dying then Gone else Idle)
    case Heartbeat(_) => s.(gui := Idle)
    case Gone => s
  }

  datatype Move = Hot(q: nat, step: ReaderMove) | Mic(q: nat, step: ReaderMove) | OnGui(task: Task)

  /** The tables built and not yet released. */
  function Kept(s: State): set<Table> {
    Owned(s.published)
    + (match s.gui
       case StoreHot(n) => {n}
       case StoreMic(n) => {n}
       case Swap(n) => {n}
       case AwaitHot(_, prior, _) => Owned(prior)
       case AwaitMic(_, prior, _) => Owned(prior)
       case Drop(prior, _) => Owned(prior)
       case _ => {})
  }

  /** Nothing is released twice and nothing leaks. */
  ghost predicate Conserved(s: State) {
    && Kept(s) !! s.released
    && forall t: Table :: t in Kept(s) + s.released <==> t < s.built
  }

  /** How far the wait on each epoch has got; past its last slot while nothing is being replaced. */
  function HotWait(g: Gui): Wait {
    match g
    case StoreMic(_) => Sample(0)
    case Swap(_) => Sample(0)
    case ClearMic => Sample(0)
    case AwaitHot(w, _, _) => w
    case _ => Sample(HOT_PARTICIPANTS)
  }

  function MicWait(g: Gui): Wait {
    match g
    case Swap(_) => Sample(0)
    case AwaitHot(_, _, _) => Sample(0)
    case AwaitMic(w, _, _) => w
    case _ => Sample(MIC_PARTICIPANTS)
  }

  predicate Waiting(g: Gui) {
    g.AwaitHot? || g.AwaitMic? || g.Drop?
  }

  /** The table on its way out. */
  function Prior(s: State): Option<Table> {
    if Waiting(s.gui) then s.gui.prior else s.published
  }

  function HotPointer(s: State): Option<Table> {
    if s.gui.StoreMic? || s.gui.Swap? then Some(s.gui.next)
    else if s.gui.ClearMic? || (Waiting(s.gui) && s.gui.dying) then None
    else s.published
  }

  function MicPointer(s: State): Option<Table> {
    if s.gui.Swap? then Some(s.gui.next)
    else if Waiting(s.gui) && s.gui.dying then None
    else s.published
  }

  ghost predicate Pointed(s: State) {
    && s.hot.pointer == HotPointer(s)
    && s.mic.pointer == MicPointer(s)
    && (Waiting(s.gui) ==> if s.gui.dying then s.gui.prior == s.published else s.gui.prior != s.published)
    && (s.gui.StoreHot? || s.gui.StoreMic? || s.gui.Swap? ==> s.published != Some(s.gui.next))
    && (s.gui.Heartbeat? ==> s.gui.table == s.published)
    && (s.gui.Gone? ==> s.published.None?)
  }

  ghost predicate Inv(s: State) {
    && Parity(s.hot, HOT_PARTICIPANTS) && Draining(s.hot, HotWait(s.gui), Prior(s))
    && Parity(s.mic, MIC_PARTICIPANTS) && Draining(s.mic, MicWait(s.gui), Prior(s))
    && Pointed(s)
    && Conserved(s)
  }

  /** The state after one move; a move that waits or is not open to the thread changes nothing. */
  function Next(s: State, m: Move): State {
    match m
    case Hot(q, step) => s.(hot := ReadStep(s.hot, q, step))
    case Mic(q, step) => s.(mic := ReadStep(s.mic, q, step))
    case OnGui(task) => GuiStep(s, task)
  }

  lemma ReaderKeepsInv(s: State, m: Move)
    requires Inv(s) && !m.OnGui?
    ensures Inv(Next(s, m))
  {
    if m.Hot? {
      ReaderKeepsDraining(s.hot, HOT_PARTICIPANTS, m.q, m.step, HotWait(s.gui), Prior(s));
    } else {
      ReaderKeepsDraining(s.mic, MIC_PARTICIPANTS, m.q, m.step, MicWait(s.gui), Prior(s));
    }
    assert Kept(Next(s, m)) == Kept(s);
  }

  lemma GuiKeepsPointed(s: State, task: Task)
    requires Inv(s)
    ensures Pointed(GuiStep(s, task))
  {
    assert s.published.Some? ==> s.published.value in Kept(s) + s.released;
  }

  lemma GuiKeepsHot(s: State, task: Task)
    requires Inv(s)
    ensures var s' := GuiStep(s, task); Parity(s'.hot, HOT_PARTICIPANTS) && Draining(s'.hot, HotWait(s'.gui), Prior(s'))
  {
    if s.gui.AwaitHot? && s.gui.wait.k < HOT_PARTICIPANTS {
      WaitKeepsDraining(s.hot, HOT_PARTICIPANTS, s.gui.wait, s.gui.prior);
    }
  }

  lemma GuiKeepsMic(s: State, task: Task)
    requires Inv(s)
    ensures var s' := GuiStep(s, task); Parity(s'.mic, MIC_PARTICIPANTS) && Draining(s'.mic, MicWait(s'.gui), Prior(s'))
  {
    if s.gui.AwaitMic? && s.gui.wait.k < MIC_PARTICIPANTS {
      WaitKeepsDraining(s.mic, MIC_PARTICIPANTS, s.gui.wait, s.gui.prior);
    }
  }

  lemma GuiKeepsConserved(s: State, task: Task)
    requires Inv(s)
    ensures Conserved(GuiStep(s, task))
  {
    var s' := GuiStep(s, task);
    assert s.built !in Kept(s) + s.released;
    if s.gui.Idle? && task.Republish? {
      assert Kept(s') == Kept(s) + {s.built};
    } else {
      assert Kept(s') + s'.released == Kept(s) + s.released;
    }
  }

  lemma NextKeepsInv(s: State, m: Move)
    requires Inv(s)
    ensures Inv(Next(s, m))
  {
    if m.OnGui? {
      GuiKeepsPointed(s, m.task);
      GuiKeepsHot(s, m.task);
      GuiKeepsMic(s, m.task);
      GuiKeepsConserved(s, m.task);
    } else {
      ReaderKeepsInv(s, m);
    }
  }

  /** The state after a whole interleaving. */
  function Run(s: State, moves: seq<Move>): State
    decreases |moves|
  {
    if moves == [] then s else Run(Next(s, moves[0]), moves[1..])
  }

  lemma {:induction false} RunKeepsInv(s: State, moves: seq<Move>)
    requires Inv(s)
    ensures Inv(Run(s, moves))
    ensures s.gui.Gone? ==> Run(s, moves).gui.Gone?
    decreases |moves|
  {
    if moves != [] {
      NextKeepsInv(s, moves[0]);
      RunKeepsInv(Next(s, moves[0]), moves[1..]);
    }
  }

  /** A table some bracket, or the GUI's battery heartbeat, may be reading. */
  ghost predicate InUse(s: State, t: Table) {
    || Holding(Some(t)) in s.hot.readers
    || Holding(Some(t)) in s.mic.readers
    || s.gui == Heartbeat(Some(t))
  }

  lemma InvProtects(s: State, t: Table)
    requires Inv(s)
    ensures InUse(s, t) ==> t in Kept(s) && t !in s.released
    ensures t < s.built ==> t in Kept(s) || t in s.released
  {
    assert t < s.built ==> t in Kept(s) + s.released;
  }

  /** In every interleaving, no table is released while a bracket or the heartbeat may read it. */
  lemma NoUseAfterRelease(moves: seq<Move>, t: Table)
    requires InUse(Run(Start(), moves), t)
    ensures t !in Run(Start(), moves).released
  {
    RunKeepsInv(Start(), moves);
    InvProtects(Run(Start(), moves), t);
  }

  // ---- what a republish brings about ----

  /** The republishes a run begins: those asked of an idle GUI thread. */
  function Begun(s: State, moves: seq<Move>): nat
    decreases |moves|
  {
    if moves == [] then 0
    else (if s.gui.Idle? && moves[0] == OnGui(Republish) then 1 else 0) + Begun(Next(s, moves[0]), moves[1..])
  }

  /** The table of the `n`th republish; none before the first. */
  function Nth(n: int): Option<Table> {
    if n <= 0 then None else Some(n - 1)
  }

  predicate Storing(g: Gui) {
    g.StoreHot? || g.StoreMic? || g.Swap?
  }

  /** `n` republishes have begun: the last one's table is published, or on its way in. */
  ghost predicate Current(s: State, n: nat) {
    && s.built == n
    && (Storing(s.gui) ==> s.gui.next == n - 1)
    && (!s.gui.Gone? ==> s.published == Nth(if Storing(s.gui) then n - 1 else n))
  }

  lemma {:induction false} RunKeepsCurrent(s: State, moves: seq<Move>, n: nat)
    requires Current(s, n)
    ensures Current(Run(s, moves), n + Begun(s, moves))
    decreases |moves|
  {
    if moves != [] {
      var begins := if s.gui.Idle? && moves[0] == OnGui(Republish) then 1 else 0;
      assert Current(Next(s, moves[0]), n + begins);
      RunKeepsCurrent(Next(s, moves[0]), moves[1..], n + begins);
    }
  }

  lemma RunReaches(moves: seq<Move>)
    ensures Inv(Run(Start(), moves)) && Current(Run(Start(), moves), Begun(Start(), moves))
  {
    assert Inv(Start()) && Current(Start(), 0);
    hide Inv, Current;
    RunKeepsInv(Start(), moves);
    RunKeepsCurrent(Start(), moves, 0);
  }

  lemma IdleReleased(s: State, n: nat, t: Table)
    requires Inv(s) && Current(s, n) && s.gui.Idle?
    ensures t in s.released <==> t + 1 < n
  {
    assert t in Kept(s) <==> s.published == Some(t);
    assert t in Kept(s) + s.released <==> t < s.built;
  }

  lemma IdleBrackets(s: State, r: Reader)
    requires Inv(s) && s.gui.Idle? && (r in s.hot.readers || r in s.mic.readers)
    ensures r.Holding? ==> r.table == s.published
  {
  }

  /** Once every republish has returned, the last one's table is published, every open bracket that has loaded reads
      it, and exactly the tables before it have been released. */
  lemma RepublishTakesEffect(moves: seq<Move>)
    requires Run(Start(), moves).gui.Idle?
    ensures var s, n := Run(Start(), moves), Begun(Start(), moves);
            && s.built == n && s.published == (if n == 0 then None else Some(n - 1))
            && (forall r :: (r in s.hot.readers || r in s.mic.readers) && r.Holding? ==> r.table == s.published)
            && (forall t: Table :: t in s.released <==> t + 1 < n)
  {
    var s, n := Run(Start(), moves), Begun(Start(), moves);
    RunReaches(moves);
    hide Inv, Run, Begun;
    forall r | r in s.hot.readers || r in s.mic.readers ensures r.Holding? ==> r.table == s.published {
      IdleBrackets(s, r);
    }
    forall t: Table ensures t in s.released <==> t + 1 < n { IdleReleased(s, n, t); }
  }

  /** A participant's reader once it has entered its bracket and loaded. */
  function Loaded(d: Domain, q: nat): Option<Reader> {
    var d' := ReadStep(ReadStep(d, q, EnterBracket), q, LoadPointer);
    if q < |d'.readers| then Some(d'.readers[q]) else None
  }

  /** A bracket entered and loaded once every republish has returned holds the last one's table. */
  lemma NewBracketsReadNewest(moves: seq<Move>, q: nat)
    requires Run(Start(), moves).gui.Idle?
    ensures var s, n := Run(Start(), moves), Begun(Start(), moves);
            var newest := if n == 0 then None else Some(n - 1);
            && |s.hot.readers| == HOT_PARTICIPANTS && |s.mic.readers| == MIC_PARTICIPANTS
            && (q < HOT_PARTICIPANTS && s.hot.readers[q].Outside? ==> Loaded(s.hot, q) == Some(Holding(newest)))
            && (q < MIC_PARTICIPANTS && s.mic.readers[q].Outside? ==> Loaded(s.mic, q) == Some(Holding(newest)))
  {
    RunReaches(moves);
    hide Run, Begun;
  }

  // ---- a republish returns ----

  /** The moves the GUI thread still has to make, counting one for each participant it has yet to look at. */
  function MovesLeft(g: Gui): nat {
    match g
    case Idle => 0
    case Gone => 0
    case Heartbeat(_) => 1
    case Drop(_, _) => 1
    case AwaitMic(w, _, _) => 2 + if w.k < MIC_PARTICIPANTS then MIC_PARTICIPANTS - w.k else 0
    case AwaitHot(w, _, _) => 3 + MIC_PARTICIPANTS + if w.k < HOT_PARTICIPANTS then HOT_PARTICIPANTS - w.k else 0
    case ClearMic => 4 + MIC_PARTICIPANTS + HOT_PARTICIPANTS
    case ClearHot => 5 + MIC_PARTICIPANTS + HOT_PARTICIPANTS
    case Swap(_) => 4 + MIC_PARTICIPANTS + HOT_PARTICIPANTS
    case StoreMic(_) => 5 + MIC_PARTICIPANTS + HOT_PARTICIPANTS
    case StoreHot(_) => 6 + MIC_PARTICIPANTS + HOT_PARTICIPANTS
  }

  /** The wait has seen participant `k` inside a bracket that is still open. */
  predicate Held(w: Wait, epochs: seq<nat>) {
    w.k < |epochs| && (if w.Sample? then epochs[w.k] % 2 == 1 else epochs[w.k] == w.seen)
  }

  predicate HeldUp(s: State) {
    match s.gui
    case AwaitHot(w, _, _) => Held(w, s.hot.epochs)
    case AwaitMic(w, _, _) => Held(w, s.mic.epochs)
    case _ => false
  }

  /** Every move of a busy GUI thread brings it one nearer its return, unless it waits for an open bracket. */
  lemma GuiProgresses(s: State, task: Task)
    requires Inv(s) && !s.gui.Idle? && !s.gui.Gone?
    ensures MovesLeft(s.gui) > 0
    ensures MovesLeft(GuiStep(s, task).gui) == if HeldUp(s) then MovesLeft(s.gui) else MovesLeft(s.gui) - 1
  {
  }

  predicate Dying(g: Gui) {
    g.ClearHot? || g.ClearMic? || g.Gone? || (Waiting(g) && g.dying)
  }

  /** No thread is inside a bracket. */
  ghost predicate NoBrackets(s: State) {
    (forall r :: r in s.hot.readers ==> r.Outside?) && forall r :: r in s.mic.readers ==> r.Outside?
  }

  lemma NotHeldUp(s: State)
    requires Inv(s) && NoBrackets(s)
    ensures !HeldUp(s)
  {
    assert forall q :: 0 <= q < |s.hot.readers| ==> s.hot.readers[q] in s.hot.readers;
    assert forall q :: 0 <= q < |s.mic.readers| ==> s.mic.readers[q] in s.mic.readers;
  }

  lemma GuiGoesOn(s: State, task: Task)
    requires Inv(s) && NoBrackets(s) && !s.gui.Idle? && !s.gui.Gone?
    ensures var s' := GuiStep(s, task);
            && Inv(s') && NoBrackets(s') && (Dying(s'.gui) <==> Dying(s.gui))
            && MovesLeft(s'.gui) == MovesLeft(s.gui) - 1
  {
    NotHeldUp(s);
    GuiProgresses(s, task);
    NextKeepsInv(s, OnGui(task));
    assert Next(s, OnGui(task)) == GuiStep(s, task);
    hide Inv, MovesLeft, HeldUp;
  }

  function Repeated(task: Task, n: nat): seq<Move> {
    seq(n, _ => OnGui(task))
  }

  lemma RunsRepeated(s: State, task: Task, n: nat)
    requires n > 0
    ensures Run(s, Repeated(task, n)) == Run(GuiStep(s, task), Repeated(task, n - 1))
  {
    assert Repeated(task, n)[1..] == Repeated(task, n - 1);
    hide GuiStep;
  }

  /** With no bracket open the GUI thread alone finishes what it is doing. */
  lemma {:induction false} GuiReturns(s: State, task: Task)
    requires Inv(s) && NoBrackets(s)
    ensures Run(s, Repeated(task, MovesLeft(s.gui))).gui == if Dying(s.gui) then Gone else Idle
    decreases MovesLeft(s.gui)
  {
    if s.gui.Idle? || s.gui.Gone? {
      assert Repeated(task, 0) == [];
    } else {
      GuiGoesOn(s, task);
      hide Inv, NoBrackets, GuiStep, MovesLeft, Run, Dying, Repeated;
      RunsRepeated(s, task, MovesLeft(s.gui));
      GuiReturns(GuiStep(s, task), task);
    }
  }

  lemma TaskBegins(s: State, n: nat, task: Task)
    requires Inv(s) && Current(s, n) && s.gui.Idle? && NoBrackets(s)
    ensures var begun := Next(s, OnGui(task));
            && Inv(begun) && NoBrackets(begun) && Current(begun, if task.Republish? then n + 1 else n)
            && (task.SendBattery? ==> begun.gui == Heartbeat(if n == 0 then None else Some(n - 1)))
            && (Dying(begun.gui) <==> task.Destroy?)
  {
    NextKeepsInv(s, OnGui(task));
    hide Inv;
  }

  /** In every state a run can idle in with no bracket open, each task is carried through by the GUI thread alone: a
      republish publishes one more table, the heartbeat reads the newest, destruction ends with the router gone. */
  lemma TasksComplete(moves: seq<Move>, task: Task)
    requires Run(Start(), moves).gui.Idle? && NoBrackets(Run(Start(), moves))
    ensures var s, n := Run(Start(), moves), Begun(Start(), moves);
            var begun := Next(s, OnGui(task));
            var s' := Run(begun, Repeated(SendBattery, MovesLeft(begun.gui)));
            match task
            case Republish => s'.gui == Idle && s'.published == Some(n)
            case SendBattery => begun.gui == Heartbeat(if n == 0 then None else Some(n - 1)) && s'.gui == Idle
            case Destroy => s'.gui == Gone
  {
    var s, n := Run(Start(), moves), Begun(Start(), moves);
    var begun := Next(s, OnGui(task));
    RunReaches(moves);
    hide Inv, NoBrackets, MovesLeft, Run, Next, Dying, Begun;
    TaskBegins(s, n, task);
    var rest := Repeated(SendBattery, MovesLeft(begun.gui));
    RunKeepsCurrent(begun, rest, if task.Republish? then n + 1 else n);
    BeginsNone(begun, rest);
    GuiReturns(begun, SendBattery);
  }

  lemma {:induction false} BeginsNone(s: State, moves: seq<Move>)
    requires OnGui(Republish) !in moves
    ensures Begun(s, moves) == 0
    decreases |moves|
  {
    if moves != [] { BeginsNone(Next(s, moves[0]), moves[1..]); }
  }

  /** A mic sender kept past the router sends nothing: once the router is gone, no bracket in this or any
      later state holds a table, and every table ever built has been released. */
  lemma SilentAfterRouter(before: seq<Move>, after: seq<Move>, r: Reader)
    requires Run(Start(), before).gui.Gone?
    requires var s := Run(Run(Start(), before), after); r in s.mic.readers + s.hot.readers
    ensures r.Holding? ==> r.table == None
    ensures var s := Run(Run(Start(), before), after);
            s.mic.pointer == None && forall t: Table :: t < s.built ==> t in s.released
  {
    RunReaches(before);
    RunKeepsInv(Run(Start(), before), after);
    hide Run;
    GoneHoldsNothing(Run(Run(Start(), before), after), r);
  }

  lemma GoneHoldsNothing(s: State, r: Reader)
    requires Inv(s) && s.gui.Gone? && (r in s.mic.readers || r in s.hot.readers)
    ensures r.Holding? ==> r.table == None
    ensures s.mic.pointer == None && forall t: Table :: t < s.built ==> t in s.released
  {
    forall t: Table | t < s.built ensures t in s.released { assert t in Kept(s) + s.released; }
  }
}
