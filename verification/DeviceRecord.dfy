/**
 One device's record and everything that can happen to it, as values: what each publish sends on, what
 the owner thread keeps, what the inspector sees. The input processor's methods are proved against these.
 */
module DeviceRecord {
  import opened Basics
  import opened DeviceTypes
  import MotionGate

  // ---- dead zones and actuation ----

  function ApplyStick(v: int16, flat: int16): int16 {
    if Abs(v) <= flat then 0 else v
  }

  function ApplyTrigger(v: uint8, flat: uint8): uint8 {
    if v <= flat then 0 else v
  }

  function ApplyDeadzones(s: DeviceState, dz: Deadzones): DeviceState {
    s.(lx := ApplyStick(s.lx, dz.stickFlat), ly := ApplyStick(s.ly, dz.stickFlat),
       rx := ApplyStick(s.rx, dz.stickFlat), ry := ApplyStick(s.ry, dz.stickFlat),
       lt := ApplyTrigger(s.lt, dz.triggerFlat), rt := ApplyTrigger(s.rt, dz.triggerFlat))
  }

  /** The stick flat's low 16 bits, then the trigger flat. */
  function PackDeadzones(dz: Deadzones): uint32 {
    (if dz.stickFlat < 0 then dz.stickFlat + 0x1_0000 else dz.stickFlat) + dz.triggerFlat * 0x1_0000
  }

  function UnpackDeadzones(packed: uint32): Deadzones {
    var low := packed % 0x1_0000;
    Deadzones(if low >= 0x8000 then low - 0x1_0000 else low, packed / 0x1_0000 % 0x100)
  }

  lemma DeadzonesRoundTrip(dz: Deadzones)
    ensures UnpackDeadzones(PackDeadzones(dz)) == dz
  {
  }

  const STICK_EPSILON: int := 1536
  const TRIGGER_EPSILON: int := 16

  predicate IsActuation(ref: DeviceState, next: DeviceState) {
    || ref.wButtons != next.wButtons
    || Abs(ref.lx - next.lx) >= STICK_EPSILON
    || Abs(ref.ly - next.ly) >= STICK_EPSILON
    || Abs(ref.rx - next.rx) >= STICK_EPSILON
    || Abs(ref.ry - next.ry) >= STICK_EPSILON
    || Abs(ref.lt - next.lt) >= TRIGGER_EPSILON
    || Abs(ref.rt - next.rt) >= TRIGGER_EPSILON
  }

  // ---- the record ----

  /** Moved by any thread: the two generations and the packed dead zones. */
  datatype Shared = Shared(plugGen: nat, zeroGen: nat, deadzones: uint32)

  const SEEN_REPORT: bv32 := 1
  const SEEN_MOTION: bv32 := 2
  const SEEN_TOUCHPAD: bv32 := 4

  /** What the inspector copies out. */
  datatype Shown = Shown(wire: DeviceState, raw: DeviceState, motion: MotionSample, touchpad: TouchpadSample,
      seen: bv32)

  datatype Counters = Counters(gamepadEvents: nat, motionEvents: nat)

  /** The owner thread's own: the latch, the activity reference, the motion gate and the last touch frame. */
  datatype Own = Own(
    forwarded: bool,
    lastForwarded: DeviceState,
    activityRef: DeviceState,
    gate: MotionGate.Gate,
    lastTouchpad: Option<TouchpadSample>)

  const NEW_OWN := Own(false, NEUTRAL, NEUTRAL, MotionGate.FRESH_GATE, None)

  datatype Rec = Rec(shared: Shared, shown: Shown, counters: Counters, ownGen: nat, ownZeroGen: nat, own: Own)

  const NEVER_USED :=
    Rec(Shared(0, 0, 0),
        Shown(NEUTRAL, NEUTRAL, MotionSample(0, 0, 0, 0, 0, 0), NO_TOUCH, 0),
        Counters(0, 0), 0, 0, NEW_OWN)

  /** A zero the owner thread has not seen yet. */
  predicate ZeroPending(r: Rec) {
    r.shared.zeroGen != r.ownZeroGen
  }

  /** The owner's state once it has caught up with both generations. */
  function SyncedOwn(r: Rec): Own {
    var own := if r.shared.plugGen != r.ownGen then NEW_OWN else r.own;
    if ZeroPending(r) then own.(forwarded := true, lastForwarded := NEUTRAL) else own
  }

  function Sync(r: Rec): Rec {
    r.(ownGen := r.shared.plugGen, ownZeroGen := r.shared.zeroGen, own := SyncedOwn(r))
  }

  // ---- what happens to it ----

  /** `Replug` is a remove followed by an add that takes the record again, for any id. */
  datatype Event =
    | Report(state: DeviceState)
    | Motion(sample: MotionSample, nowUs: uint64)
    | Touch(frame: TouchpadSample)
    | SetDeadzones(dz: Deadzones)
    | ZeroAll
    | Replug

  datatype MotionOut = MotionOut(sample: MotionSample, nowUs: uint64, deltaUs: uint32)

  /** What leaves: to the sink, to the report sender, on the motion and touch streams; and whether it counts. */
  datatype Out = Out(sink: Option<DeviceState>, sender: Option<DeviceState>, motion: Option<MotionOut>,
      touch: Option<TouchpadSample>, actuated: bool)

  const NOTHING := Out(None, None, None, None, false)

  function Filter(r: Rec, s: DeviceState): DeviceState {
    ApplyDeadzones(s, UnpackDeadzones(r.shared.deadzones))
  }

  predicate Latched(own: Own, s: DeviceState) {
    own.forwarded && own.lastForwarded == s
  }

  /** The latch and the activity reference after a dead-zoned report. */
  function TakeReport(own: Own, f: DeviceState): Own {
    own.(forwarded := true, lastForwarded := f,
         activityRef := if IsActuation(own.activityRef, f) then f else own.activityRef)
  }

  function PublishReport(r: Rec, s: DeviceState): (Rec, Out) {
    var own, f := SyncedOwn(r), Filter(r, s);
    var acts := IsActuation(own.activityRef, f);
    (Sync(r).(shown := r.shown.(wire := f, raw := s, seen := r.shown.seen | SEEN_REPORT),
              counters := r.counters.(gamepadEvents := r.counters.gamepadEvents + 1),
              own := TakeReport(own, f)),
     if Latched(own, f) then NOTHING.(actuated := acts) else Out(Some(f), Some(f), None, None, acts))
  }

  function PublishMotion(r: Rec, sample: MotionSample, nowUs: uint64): (Rec, Out) {
    var own := SyncedOwn(r);
    if !MotionGate.Passes(own.gate, nowUs) then (Sync(r), NOTHING)
    else
      (Sync(r).(shown := r.shown.(motion := sample, seen := r.shown.seen | SEEN_MOTION),
                counters := r.counters.(motionEvents := r.counters.motionEvents + 1),
                own := own.(gate := MotionGate.StepGate(own.gate, nowUs))),
       NOTHING.(motion := Some(MotionOut(sample, nowUs, MotionGate.DeltaUs(own.gate, nowUs)))))
  }

  predicate TouchActs(own: Own, frame: TouchpadSample) {
    || frame.finger0.active || frame.finger1.active || frame.buttonPressed
    || (own.lastTouchpad.Some? && !SameTouch(frame, own.lastTouchpad.value))
  }

  function PublishTouch(r: Rec, frame: TouchpadSample): (Rec, Out) {
    var own := SyncedOwn(r);
    (Sync(r).(shown := r.shown.(touchpad := frame, seen := r.shown.seen | SEEN_TOUCHPAD),
              own := own.(lastTouchpad := Some(frame))),
     NOTHING.(touch := Some(frame), actuated := TouchActs(own, frame)))
  }

  /** `remove`: the visible parts start over and the owner is told. */
  function Unplugged(r: Rec): Rec {
    r.(shown := r.shown.(seen := 0), counters := Counters(0, 0),
       shared := r.shared.(deadzones := 0, plugGen := r.shared.plugGen + 1))
  }

  /** `add` taking the record. */
  function Plugged(r: Rec): Rec {
    r.(shared := r.shared.(plugGen := r.shared.plugGen + 1))
  }

  function Step(r: Rec, e: Event): (Rec, Out) {
    match e
    case Report(s) => PublishReport(r, s)
    case Motion(sample, nowUs) => PublishMotion(r, sample, nowUs)
    case Touch(frame) => PublishTouch(r, frame)
    case SetDeadzones(dz) => (r.(shared := r.shared.(deadzones := PackDeadzones(dz))), NOTHING)
    case ZeroAll => (r.(shared := r.shared.(zeroGen := r.shared.zeroGen + 1)), NOTHING.(sender := Some(NEUTRAL)))
    case Replug => (Plugged(Unplugged(r)), NOTHING)
  }

  datatype Inspection = Inspection(wire: Option<DeviceState>, raw: Option<DeviceState>, motion: Option<MotionSample>,
      touchpad: Option<TouchpadSample>)

  function Inspect(s: Shown): Inspection {
    Inspection(
      if s.seen & SEEN_REPORT != 0 then Some(s.wire) else None,
      if s.seen & SEEN_REPORT != 0 then Some(s.raw) else None,
      if s.seen & SEEN_MOTION != 0 then Some(s.motion) else None,
      if s.seen & SEEN_TOUCHPAD != 0 then Some(s.touchpad) else None)
  }

  // ---- whole runs ----

  function RecAfter(r: Rec, es: seq<Event>): Rec {
    if es == [] then r else Step(RecAfter(r, es[..|es| - 1]), es[|es| - 1]).0
  }

  /** What leaves on the last event of a run. */
  function LastOut(r: Rec, es: seq<Event>): Out
    requires es != []
  {
    Step(RecAfter(r, es[..|es| - 1]), es[|es| - 1]).1
  }

  /** The owner is never ahead of the generations it follows. */
  ghost predicate Orderly(r: Rec) {
    r.ownGen <= r.shared.plugGen && r.ownZeroGen <= r.shared.zeroGen
  }

  /** The record just taken for a device: its owner has yet to see the plug. */
  ghost predicate Taken(r: Rec) {
    Orderly(r) && r.ownGen < r.shared.plugGen
  }

  /** Taken with no zero its last owner left unobserved. */
  ghost predicate JustPlugged(r: Rec) {
    Taken(r) && !ZeroPending(r)
  }

  /** The dead-zoned reports of a run, each under the dead zones of its moment. */
  function FilteredReports(r: Rec, es: seq<Event>): seq<DeviceState> {
    if es == [] then []
    else
      var before, e := es[..|es| - 1], es[|es| - 1];
      FilteredReports(r, before) + if e.Report? then [Filter(RecAfter(r, before), e.state)] else []
  }

  function SinkReports(r: Rec, es: seq<Event>): seq<DeviceState> {
    if es == [] then []
    else SinkReports(r, es[..|es| - 1]) + if LastOut(r, es).sink.Some? then [LastOut(r, es).sink.value] else []
  }

  /** Consecutive repeats removed. */
  function Dedup(s: seq<DeviceState>): seq<DeviceState> {
    if |s| <= 1 then s
    else if s[|s| - 1] == s[|s| - 2] then Dedup(s[..|s| - 1])
    else Dedup(s[..|s| - 1]) + [s[|s| - 1]]
  }

  /** What the owner's latch amounts to: the last report it counts as sent, if any. */
  function Latch(r: Rec): Option<DeviceState> {
    if SyncedOwn(r).forwarded then Some(SyncedOwn(r).lastForwarded) else None
  }

  function Last<T>(s: seq<T>): Option<T> {
    if s == [] then None else Some(s[|s| - 1])
  }

  /** How each event moves the latch and what it lets out. */
  lemma LatchStep(r: Rec, e: Event)
    requires Orderly(r)
    ensures var (r', out) := Step(r, e);
            && Orderly(r')
            && (ZeroPending(r') <==> e.ZeroAll? || ((e.SetDeadzones? || e.Replug?) && ZeroPending(r)))
            && Latch(r') == (match e
                             case Report(s) => Some(Filter(r, s))
                             case ZeroAll => Some(NEUTRAL)
                             case Replug => if ZeroPending(r) then Some(NEUTRAL) else None
                             case _ => Latch(r))
            && out.sink ==
               (if e.Report? && Latch(r) != Some(Filter(r, e.state)) then Some(Filter(r, e.state)) else None)
            && out.sender == if e.ZeroAll? then Some(NEUTRAL) else out.sink
  {
  }

  lemma DedupSnoc(f: seq<DeviceState>, x: DeviceState)
    ensures Dedup(f + [x]) == if Last(f) == Some(x) then Dedup(f) else Dedup(f) + [x]
  {
  }

  lemma {:induction false} LatchIsLastFiltered(r: Rec, es: seq<Event>)
    requires JustPlugged(r) && Replug !in es && ZeroAll !in es
    ensures var r' := RecAfter(r, es); Orderly(r') && !ZeroPending(r') && Latch(r') == Last(FilteredReports(r, es))
    ensures SinkReports(r, es) == Dedup(FilteredReports(r, es))
  {
    if es != [] {
      var before, e := es[..|es| - 1], es[|es| - 1];
      LatchIsLastFiltered(r, before);
      LatchStep(RecAfter(r, before), e);
      assert e in es;
      var f := FilteredReports(r, before);
      if e.Report? { DedupSnoc(f, Filter(RecAfter(r, before), e.state)); } else { assert f + [] == f; }
    }
  }

  /** Within one plug, and with no `zeroAndSendAll`, the reports that leave are the dead-zoned inputs with
      consecutive repeats removed, so a receiver that keeps the last one holds the latest. */
  lemma ReportsAreDeduplicated(r: Rec, es: seq<Event>)
    requires JustPlugged(r) && Replug !in es && ZeroAll !in es
    ensures SinkReports(r, es) == Dedup(FilteredReports(r, es))
    ensures Last(SinkReports(r, es)) == Last(FilteredReports(r, es))
  {
    LatchIsLastFiltered(r, es);
    DedupKeepsLast(FilteredReports(r, es));
  }

  lemma {:induction false} DedupKeepsLast(s: seq<DeviceState>)
    ensures Last(Dedup(s)) == Last(s)
  {
    if |s| > 1 { DedupKeepsLast(s[..|s| - 1]); }
  }

  // ---- with zeroAndSendAll and replugs ----

  /** The last report the report sender got for the device now in the record. */
  function SenderLast(r: Rec, es: seq<Event>): Option<DeviceState> {
    if es == [] then None
    else if es[|es| - 1].Replug? then None
    else if LastOut(r, es).sender.Some? then LastOut(r, es).sender
    else SenderLast(r, es[..|es| - 1])
  }

  /** No zero is left unobserved across a replug. */
  ghost predicate ZerosObserved(r: Rec, es: seq<Event>) {
    es != [] ==>
      && ZerosObserved(r, es[..|es| - 1])
      && (es[|es| - 1].Replug? ==> !ZeroPending(RecAfter(r, es[..|es| - 1])))
  }

  /** The plug began with a zero unobserved, and nothing has gone to the sender since. */
  predicate Behind(r: Rec, es: seq<Event>) {
    if es == [] then ZeroPending(r)
    else if es[|es| - 1].Replug? then ZeroPending(RecAfter(r, es[..|es| - 1]))
    else LastOut(r, es).sender.None? && Behind(r, es[..|es| - 1])
  }

  lemma {:induction false} LatchOrBehind(r: Rec, es: seq<Event>)
    requires Taken(r)
    ensures Orderly(RecAfter(r, es))
    ensures Latch(RecAfter(r, es)) == if Behind(r, es) then Some(NEUTRAL) else SenderLast(r, es)
    ensures Behind(r, es) ==> SenderLast(r, es) == None
  {
    if es != [] {
      hide Step, Filter;
      LatchOrBehind(r, es[..|es| - 1]);
      LatchStep(RecAfter(r, es[..|es| - 1]), es[|es| - 1]);
    }
  }

  lemma SenderAfterReport(r: Rec, before: seq<Event>, s: DeviceState)
    requires Orderly(RecAfter(r, before))
    ensures var f := Filter(RecAfter(r, before), s);
            SenderLast(r, before + [Report(s)]) ==
            if Latch(RecAfter(r, before)) == Some(f) then SenderLast(r, before) else Some(f)
  {
    LatchStep(RecAfter(r, before), Report(s));
    hide Step, Filter, Latch, Orderly;
    assert (before + [Report(s)])[..|before|] == before;
  }

  /** However zeros and replugs are interleaved, after a report the sender's last report for the device is its latest
      dead-zoned state, except exactly when the report is neutral, the plug began with a zero unobserved, and nothing
      has gone to the sender since. */
  lemma SenderHoldsLatestIff(r: Rec, before: seq<Event>, s: DeviceState)
    requires Taken(r)
    ensures var f := Filter(RecAfter(r, before), s);
            SenderLast(r, before + [Report(s)]) == Some(f) <==> !(f == NEUTRAL && Behind(r, before))
  {
    hide *;
    LatchOrBehind(r, before);
    SenderAfterReport(r, before, s);
  }

  /** Observing each zero before the record is freed is enough. */
  lemma {:induction false} ObservedIsNotBehind(r: Rec, es: seq<Event>)
    requires JustPlugged(r) && ZerosObserved(r, es)
    ensures !Behind(r, es)
  {
    if es != [] { ObservedIsNotBehind(r, es[..|es| - 1]); }
  }

  /** After every report of such a run the sender's last report for the device is its latest dead-zoned state. */
  lemma SenderHoldsLatest(r: Rec, es: seq<Event>)
    requires JustPlugged(r) && ZerosObserved(r, es)
    ensures Orderly(RecAfter(r, es)) && Latch(RecAfter(r, es)) == SenderLast(r, es)
    ensures es != [] && es[|es| - 1].Report? ==>
              SenderLast(r, es) == Some(Filter(RecAfter(r, es[..|es| - 1]), es[|es| - 1].state))
  {
    LatchOrBehind(r, es);
    ObservedIsNotBehind(r, es);
    if es != [] && es[|es| - 1].Report? {
      var before := es[..|es| - 1];
      ObservedIsNotBehind(r, before);
      SenderHoldsLatestIff(r, before, es[|es| - 1].state);
      assert before + [es[|es| - 1]] == es;
    }
  }

  // ---- the first report of a plug ----

  lemma {:induction false} LatchBeforeFirstReport(plugged: Rec, between: seq<Event>)
    requires Taken(plugged) && Replug !in between && forall e :: e in between ==> !e.Report?
    ensures Orderly(RecAfter(plugged, between))
    ensures Latch(RecAfter(plugged, between)) ==
            if ZeroPending(plugged) || ZeroAll in between then Some(NEUTRAL) else None
  {
    if between != [] {
      hide Step, Filter;
      var rest, e := between[..|between| - 1], between[|between| - 1];
      LatchBeforeFirstReport(plugged, rest);
      LatchStep(RecAfter(plugged, rest), e);
      assert e in between && between == rest + [e];
    }
  }

  /** Whatever else happens first, a device's first report of a plug goes out, except exactly when it is neutral and a
      zero came since the last owner's last look: one pending at the plug, or one since. The header promises it without
      the exception. */
  lemma FirstReportOfPlugGoesIff(plugged: Rec, between: seq<Event>, s: DeviceState)
    requires Taken(plugged) && Replug !in between && forall e :: e in between ==> !e.Report?
    ensures var before := RecAfter(plugged, between);
            Step(before, Report(s)).1.sink == Some(Filter(before, s))
            <==> !(Filter(before, s) == NEUTRAL && (ZeroPending(plugged) || ZeroAll in between))
  {
    hide Step, Filter;
    LatchBeforeFirstReport(plugged, between);
    LatchStep(RecAfter(plugged, between), Report(s));
  }

  /** The same from the replug that frees the record and takes it again. */
  lemma FirstReportGoesIff(r: Rec, between: seq<Event>, s: DeviceState)
    requires Orderly(r) && Replug !in between && forall e :: e in between ==> !e.Report?
    ensures var before := RecAfter(Step(r, Replug).0, between);
            Step(before, Report(s)).1.sink == Some(Filter(before, s))
            <==> !(Filter(before, s) == NEUTRAL && (ZeroPending(r) || ZeroAll in between))
  {
    assert Taken(Step(r, Replug).0) && (ZeroPending(Step(r, Replug).0) <==> ZeroPending(r));
    hide Step, Filter;
    FirstReportOfPlugGoesIff(Step(r, Replug).0, between, s);
  }

  // ---- the sink does not see zeroAndSendAll ----

  function SinkLast(r: Rec, es: seq<Event>): Option<DeviceState> {
    Last(SinkReports(r, es))
  }

  /** A zero came since the sink's last report, or was left unobserved when the plug began with none since. */
  predicate ZeroedBehindSink(r: Rec, es: seq<Event>) {
    if es == [] then ZeroPending(r)
    else if LastOut(r, es).sink.Some? then false
    else es[|es| - 1].ZeroAll? || ZeroedBehindSink(r, es[..|es| - 1])
  }

  lemma {:induction false} LatchOrZeroed(r: Rec, es: seq<Event>)
    requires Taken(r) && Replug !in es
    ensures Orderly(RecAfter(r, es))
    ensures Latch(RecAfter(r, es)) == if ZeroedBehindSink(r, es) then Some(NEUTRAL) else SinkLast(r, es)
  {
    if es != [] {
      var before := es[..|es| - 1];
      LatchOrZeroed(r, before);
      LatchStep(RecAfter(r, before), es[|es| - 1]);
      assert es[|es| - 1] in es;
    }
  }

  lemma SinkAfterReport(r: Rec, before: seq<Event>, s: DeviceState)
    requires Orderly(RecAfter(r, before))
    ensures var f := Filter(RecAfter(r, before), s);
            SinkLast(r, before + [Report(s)]) ==
            if Latch(RecAfter(r, before)) == Some(f) then SinkLast(r, before) else Some(f)
  {
    LatchStep(RecAfter(r, before), Report(s));
    hide Step, Filter, Latch, Orderly;
    assert (before + [Report(s)])[..|before|] == before;
  }

  /** Within any plug, after a report the sink's last report is the device's latest state, except exactly when the
      report is neutral, a zero came behind the sink's last report of the plug, and that one was not neutral. */
  lemma SinkHoldsLatestIff(r: Rec, before: seq<Event>, s: DeviceState)
    requires Taken(r) && Replug !in before
    ensures var f := Filter(RecAfter(r, before), s);
            SinkLast(r, before + [Report(s)]) == Some(f) <==>
            !(f == NEUTRAL && ZeroedBehindSink(r, before) && SinkLast(r, before) != Some(NEUTRAL))
  {
    hide *;
    LatchOrZeroed(r, before);
    SinkAfterReport(r, before, s);
  }

  /** A press, a zero and a release leave the sink holding the press. */
  lemma SinkKeepsPress(press: DeviceState)
    requires press != NEUTRAL
    ensures SinkLast(Plugged(NEVER_USED), [Report(press), ZeroAll, Report(NEUTRAL)]) == Some(press)
  {
    var r, es := Plugged(NEVER_USED), [Report(press), ZeroAll, Report(NEUTRAL)];
    assert es[..2] == [Report(press), ZeroAll] && es[..2][..1] == [Report(press)] && es[..2][..1][..0] == [];
    assert Filter(r, press) == press;
    assert SinkReports(r, es[..2][..1]) == [press];
    assert SinkReports(r, es[..2]) == [press];
    LatchStep(RecAfter(r, es[..2]), Report(NEUTRAL));
  }

  // ---- a record taken over is like new ----

  /** Everything later events, the inspector and the rate counters can see of a record. */
  datatype View = View(deadzones: uint32, shown: Inspection, seen: bv32, counters: Counters, pending: bool, own: Own)

  function ViewOf(r: Rec): View {
    View(r.shared.deadzones, Inspect(r.shown), r.shown.seen, r.counters, ZeroPending(r), SyncedOwn(r))
  }

  lemma ViewDecidesOut(a: Rec, b: Rec, e: Event)
    requires Orderly(a) && Orderly(b) && ViewOf(a) == ViewOf(b)
    ensures Step(a, e).1 == Step(b, e).1
  {
    hide Inspect;
  }

  lemma ViewDecidesOwn(a: Rec, b: Rec, e: Event)
    requires Orderly(a) && Orderly(b) && ViewOf(a) == ViewOf(b)
    ensures var a', b' := Step(a, e).0, Step(b, e).0;
            && Orderly(a') && Orderly(b') && a'.shared.deadzones == b'.shared.deadzones
            && ZeroPending(a') == ZeroPending(b') && SyncedOwn(a') == SyncedOwn(b')
  {
    hide Inspect;
  }

  lemma ViewDecidesShown(a: Rec, b: Rec, e: Event)
    requires ViewOf(a) == ViewOf(b)
    ensures var a', b' := Step(a, e).0, Step(b, e).0;
            Inspect(a'.shown) == Inspect(b'.shown) && a'.shown.seen == b'.shown.seen && a'.counters == b'.counters
  {
  }

  lemma ViewDecidesStep(a: Rec, b: Rec, e: Event)
    requires Orderly(a) && Orderly(b) && ViewOf(a) == ViewOf(b)
    ensures Step(a, e).1 == Step(b, e).1
    ensures Orderly(Step(a, e).0) && Orderly(Step(b, e).0) && ViewOf(Step(a, e).0) == ViewOf(Step(b, e).0)
  {
    ViewDecidesOut(a, b, e);
    ViewDecidesOwn(a, b, e);
    ViewDecidesShown(a, b, e);
    hide Step, Inspect, SyncedOwn, ZeroPending;
  }

  lemma {:induction false} ViewDecidesRun(a: Rec, b: Rec, es: seq<Event>)
    requires Orderly(a) && Orderly(b) && ViewOf(a) == ViewOf(b)
    ensures Orderly(RecAfter(a, es)) && Orderly(RecAfter(b, es)) && ViewOf(RecAfter(a, es)) == ViewOf(RecAfter(b, es))
    ensures es != [] ==> LastOut(a, es) == LastOut(b, es)
  {
    if es != [] {
      ViewDecidesRun(a, b, es[..|es| - 1]);
      ViewDecidesStep(RecAfter(a, es[..|es| - 1]), RecAfter(b, es[..|es| - 1]), es[|es| - 1]);
    }
  }

  /** The two records are told apart by nothing that leaves, no inspection and no counter, on any run. */
  ghost predicate Indistinguishable(a: Rec, b: Rec) {
    forall es ::
      && Inspect(RecAfter(a, es).shown) == Inspect(RecAfter(b, es).shown)
      && RecAfter(a, es).counters == RecAfter(b, es).counters
      && (es != [] ==> LastOut(a, es) == LastOut(b, es))
  }

  /** A record freed and taken over behaves on every later run like one never used, exactly when its last
      owner left no zero unobserved. */
  lemma TakenOverIsLikeNew(r: Rec)
    requires Orderly(r)
    ensures Indistinguishable(Step(r, Replug).0, Plugged(NEVER_USED)) <==> !ZeroPending(r)
  {
    var a, b := Step(r, Replug).0, Plugged(NEVER_USED);
    LatchStep(r, Replug);
    if ZeroPending(r) {
      var es := [Report(NEUTRAL)];
      assert es[..0] == [] && RecAfter(a, es[..0]) == a && RecAfter(b, es[..0]) == b;
      LatchStep(a, es[0]);
      LatchStep(b, es[0]);
      assert LastOut(a, es).sink != LastOut(b, es).sink;
    } else {
      forall es
        ensures ViewOf(RecAfter(a, es)) == ViewOf(RecAfter(b, es)) && (es != [] ==> LastOut(a, es) == LastOut(b, es))
      {
        ViewDecidesRun(a, b, es);
      }
    }
  }

  // ---- actuations ----

  /** Within the epsilons of the reference, with its buttons. */
  predicate Near(ref: DeviceState, f: DeviceState) {
    !IsActuation(ref, f)
  }

  function ActivityRef(r: Rec): DeviceState {
    SyncedOwn(r).activityRef
  }

  /** Only a report that counts moves the reference: touch, motion and zeros leave it. */
  lemma {:induction false} RefMovesOnlyWhenCounted(r: Rec, es: seq<Event>)
    requires Orderly(r) && Replug !in es && ReportActuations(r, es) == 0
    ensures Orderly(RecAfter(r, es)) && ActivityRef(RecAfter(r, es)) == ActivityRef(r)
  {
    if es != [] {
      assert es[|es| - 1] in es;
      RefMovesOnlyWhenCounted(r, es[..|es| - 1]);
      LatchStep(RecAfter(r, es[..|es| - 1]), es[|es| - 1]);
    }
  }

  /** After every report the dead-zoned state is near the reference. */
  lemma ReportLeavesRefNear(r: Rec, s: DeviceState)
    ensures Near(ActivityRef(Step(r, Report(s)).0), Filter(r, s))
  {
  }

  /** The actuations counted for reports, touch frames aside. */
  function ReportActuations(r: Rec, es: seq<Event>): nat {
    if es == [] then 0
    else ReportActuations(r, es[..|es| - 1]) + if es[|es| - 1].Report? && LastOut(r, es).actuated then 1 else 0
  }

  /** Apart in a button, by more than 3070 on a stick axis or by more than 30 on a trigger. */
  predicate FarApart(f: DeviceState, g: DeviceState) {
    || f.wButtons != g.wButtons
    || Abs(f.lx - g.lx) > 2 * (STICK_EPSILON - 1) || Abs(f.ly - g.ly) > 2 * (STICK_EPSILON - 1)
    || Abs(f.rx - g.rx) > 2 * (STICK_EPSILON - 1) || Abs(f.ry - g.ry) > 2 * (STICK_EPSILON - 1)
    || Abs(f.lt - g.lt) > 2 * (TRIGGER_EPSILON - 1) || Abs(f.rt - g.rt) > 2 * (TRIGGER_EPSILON - 1)
  }

  lemma NearOneIsNotFar(ref: DeviceState, f: DeviceState, g: DeviceState)
    requires Near(ref, f) && Near(ref, g)
    ensures !FarApart(f, g)
  {
  }

  /** Two dead-zoned reports of one plug that are far apart have a report counted as an actuation between them, the
      second included, whatever else is published in between. */
  lemma FarReportsAreCounted(r: Rec, s: DeviceState, between: seq<Event>, t: DeviceState)
    requires Orderly(r) && Replug !in between
    requires var r1 := Step(r, Report(s)).0; FarApart(Filter(r, s), Filter(RecAfter(r1, between), t))
    ensures ReportActuations(Step(r, Report(s)).0, between + [Report(t)]) > 0
  {
    var r1, es := Step(r, Report(s)).0, between + [Report(t)];
    LatchStep(r, Report(s));
    ReportLeavesRefNear(r, s);
    assert es[..|es| - 1] == between;
    hide Near, FarApart, Step, Filter;
    if ReportActuations(r1, es) == 0 {
      RefMovesOnlyWhenCounted(r1, es);
      ReportLeavesRefNear(RecAfter(r1, between), t);
      NearOneIsNotFar(ActivityRef(r1), Filter(r, s), Filter(RecAfter(r1, between), t));
      assert false;
    }
  }

  // ---- dead zones ----

  predicate Rests(v: int, flat: int) {
    -flat <= v <= flat
  }

  /** A report with the sticks' and triggers' rest positions taken out, field by field. */
  predicate Zoned(s: DeviceState, dz: Deadzones, f: DeviceState) {
    && f.wButtons == s.wButtons
    && f.lx == (if Rests(s.lx, dz.stickFlat) then 0 else s.lx)
    && f.ly == (if Rests(s.ly, dz.stickFlat) then 0 else s.ly)
    && f.rx == (if Rests(s.rx, dz.stickFlat) then 0 else s.rx)
    && f.ry == (if Rests(s.ry, dz.stickFlat) then 0 else s.ry)
    && f.lt == (if s.lt <= dz.triggerFlat then 0 else s.lt)
    && f.rt == (if s.rt <= dz.triggerFlat then 0 else s.rt)
  }

  predicate KeepsDeadzones(es: seq<Event>) {
    forall i :: 0 <= i < |es| ==> !es[i].SetDeadzones? && !es[i].Replug?
  }

  lemma {:induction false} DeadzonesStay(r: Rec, es: seq<Event>)
    requires KeepsDeadzones(es)
    ensures RecAfter(r, es).shared.deadzones == r.shared.deadzones
  {
    if es != [] { DeadzonesStay(r, es[..|es| - 1]); }
  }

  /** What a report leaves as: to the sink and the sender alike, if it goes, and to the inspector beside the raw one. */
  lemma ReportLeavesAs(r: Rec, s: DeviceState)
    ensures var (r', out) := Step(r, Report(s));
            && out.sender == out.sink && (out.sink.Some? ==> out.sink.value == Filter(r, s))
            && Inspect(r'.shown).wire == Some(Filter(r, s)) && Inspect(r'.shown).raw == Some(s)
  {
  }

  lemma FilterZones(r: Rec, dz: Deadzones, s: DeviceState)
    requires r.shared.deadzones == PackDeadzones(dz)
    ensures Zoned(s, dz, Filter(r, s))
  {
    DeadzonesRoundTrip(dz);
  }

  /** From any record: once dead zones are set, and until they are set again or the device is re-plugged, every report
      that is sent, and every one the inspector shows, is the reported state with exactly those dead zones cut out. */
  lemma ReportsAreZoned(r: Rec, dz: Deadzones, between: seq<Event>, s: DeviceState)
    requires KeepsDeadzones(between)
    ensures var (r', out) := Step(RecAfter(Step(r, SetDeadzones(dz)).0, between), Report(s));
            && out.sender == out.sink && (out.sink.Some? ==> Zoned(s, dz, out.sink.value))
            && (var seen := Inspect(r'.shown);
                seen.raw == Some(s) && seen.wire.Some? && Zoned(s, dz, seen.wire.value))
  {
    var set' := Step(r, SetDeadzones(dz)).0;
    assert set'.shared.deadzones == PackDeadzones(dz);
    DeadzonesStay(set', between);
    hide Step, Filter, Zoned, PackDeadzones, Inspect;
    FilterZones(RecAfter(set', between), dz, s);
    ReportLeavesAs(RecAfter(set', between), s);
  }

  /** A device nobody has set dead zones for since its plug reports what it was given. */
  lemma ReportsWithoutDeadzones(r: Rec, between: seq<Event>, s: DeviceState)
    requires KeepsDeadzones(between)
    ensures var (r', out) := Step(RecAfter(Step(r, Replug).0, between), Report(s));
            && (out.sink.Some? ==> out.sink.value == s)
            && Inspect(r'.shown).raw == Inspect(r'.shown).wire == Some(s)
  {
    var plugged := Step(r, Replug).0;
    assert plugged.shared.deadzones == PackDeadzones(Deadzones(0, 0)) == 0;
    DeadzonesStay(plugged, between);
    hide Step, Filter, Inspect;
    FilterZones(RecAfter(plugged, between), Deadzones(0, 0), s);
    ReportLeavesAs(RecAfter(plugged, between), s);
  }

  // ---- what the inspector shows ----

  /** The last report of the plug, as it was published. */
  function LastRaw(es: seq<Event>): Option<DeviceState> {
    if es == [] || es[|es| - 1].Replug? then None
    else if es[|es| - 1].Report? then Some(es[|es| - 1].state)
    else LastRaw(es[..|es| - 1])
  }

  function LastTouch(es: seq<Event>): Option<TouchpadSample> {
    if es == [] || es[|es| - 1].Replug? then None
    else if es[|es| - 1].Touch? then Some(es[|es| - 1].frame)
    else LastTouch(es[..|es| - 1])
  }

  /** The last motion sample of the plug that went out. */
  function LastMotion(r: Rec, es: seq<Event>): Option<MotionSample> {
    if es == [] || es[|es| - 1].Replug? then None
    else if es[|es| - 1].Motion? && LastOut(r, es).motion.Some? then Some(es[|es| - 1].sample)
    else LastMotion(r, es[..|es| - 1])
  }

  /** The reports of the plug, and its motion samples that went out. */
  function Tally(r: Rec, es: seq<Event>): Counters {
    if es == [] || es[|es| - 1].Replug? then Counters(0, 0)
    else
      var before := Tally(r, es[..|es| - 1]);
      if es[|es| - 1].Report? then before.(gamepadEvents := before.gamepadEvents + 1)
      else if LastOut(r, es).motion.Some? then before.(motionEvents := before.motionEvents + 1)
      else before
  }

  /** How one event moves what the inspector and the counters show. */
  lemma ShownStep(r: Rec, e: Event)
    ensures var (r', out) := Step(r, e);
            var was, now := Inspect(r.shown), Inspect(r'.shown);
            && now.raw == (if e.Replug? then None else if e.Report? then Some(e.state) else was.raw)
            && now.touchpad == (if e.Replug? then None else if e.Touch? then Some(e.frame) else was.touchpad)
            && now.motion ==
               (if e.Replug? then None else if e.Motion? && out.motion.Some? then Some(e.sample) else was.motion)
            && r'.counters ==
               (if e.Replug? then Counters(0, 0)
                else if e.Report? then r.counters.(gamepadEvents := r.counters.gamepadEvents + 1)
                else if out.motion.Some? then r.counters.(motionEvents := r.counters.motionEvents + 1)
                else r.counters)
  {
    hide Filter, IsActuation, SameTouch, PackDeadzones, MotionGate.Passes, MotionGate.StepGate, MotionGate.DeltaUs;
  }

  /** After every run the inspector shows the plug's last report, the last motion sample that went out and the last
      touch frame, and nothing from before the plug; the counters count the plug's reports and motion samples. */
  lemma {:induction false} InspectorShowsLatest(es: seq<Event>)
    ensures var r := RecAfter(Plugged(NEVER_USED), es);
            && Inspect(r.shown).raw == LastRaw(es)
            && Inspect(r.shown).touchpad == LastTouch(es)
            && Inspect(r.shown).motion == LastMotion(Plugged(NEVER_USED), es)
            && r.counters == Tally(Plugged(NEVER_USED), es)
  {
    if es != [] {
      InspectorShowsLatest(es[..|es| - 1]);
      ShownStep(RecAfter(Plugged(NEVER_USED), es[..|es| - 1]), es[|es| - 1]);
      hide Step, Inspect;
    }
  }

  // ---- what counts as an actuation ----

  /** The last dead-zoned report of the plug that counted; the neutral state if none has. */
  function LastCounted(r: Rec, es: seq<Event>): DeviceState {
    if es == [] || es[|es| - 1].Replug? then NEUTRAL
    else if es[|es| - 1].Report? && LastOut(r, es).actuated then
      Filter(RecAfter(r, es[..|es| - 1]), es[|es| - 1].state)
    else LastCounted(r, es[..|es| - 1])
  }

  lemma OwnStep(r: Rec, e: Event)
    requires Orderly(r)
    ensures var (r', out) := Step(r, e);
            && Orderly(r')
            && SyncedOwn(r').lastTouchpad ==
               (if e.Replug? then None else if e.Touch? then Some(e.frame) else SyncedOwn(r).lastTouchpad)
            && ActivityRef(r') ==
               if e.Replug? then NEUTRAL else if e.Report? && out.actuated then Filter(r, e.state) else ActivityRef(r)
  {
    hide Filter, IsActuation, SameTouch, PackDeadzones, MotionGate.Passes, MotionGate.StepGate, MotionGate.DeltaUs;
  }

  /** Over every run the owner keeps the plug's last touch frame and its last report that counted. */
  lemma {:induction false} OwnIsHistory(r: Rec, es: seq<Event>)
    requires Taken(r)
    ensures var r' := RecAfter(r, es);
            && Orderly(r') && SyncedOwn(r').lastTouchpad == LastTouch(es) && ActivityRef(r') == LastCounted(r, es)
  {
    if es != [] {
      OwnIsHistory(r, es[..|es| - 1]);
      OwnStep(RecAfter(r, es[..|es| - 1]), es[|es| - 1]);
      hide Step, Filter, SyncedOwn, ActivityRef, Taken, Orderly;
    }
  }

  /** A report counts exactly if, dead-zoned, it differs from the last one that did in a button, by 1536 or more on a
      stick axis or by 16 or more on a trigger. */
  lemma ReportCountsIff(r: Rec, es: seq<Event>, s: DeviceState)
    requires Taken(r)
    ensures var ref, f := LastCounted(r, es), Filter(RecAfter(r, es), s);
            Step(RecAfter(r, es), Report(s)).1.actuated
            <==> || f.wButtons != ref.wButtons
                 || !(-1536 < f.lx - ref.lx < 1536 && -1536 < f.ly - ref.ly < 1536)
                 || !(-1536 < f.rx - ref.rx < 1536 && -1536 < f.ry - ref.ry < 1536)
                 || !(-16 < f.lt - ref.lt < 16 && -16 < f.rt - ref.rt < 16)
  {
    OwnIsHistory(r, es);
    hide Filter, RecAfter, LastCounted;
  }

  /** A touch frame always goes out, and counts exactly if a finger or the click is down in it or it differs from the
      plug's frame before in anything but its time. */
  lemma TouchCountsIff(r: Rec, es: seq<Event>, frame: TouchpadSample)
    requires Taken(r)
    ensures var out, last := Step(RecAfter(r, es), Touch(frame)).1, LastTouch(es);
            && out.touch == Some(frame) && out.sink == out.sender == None && out.motion == None
            && (out.actuated <==>
                  || frame.finger0.active || frame.finger1.active || frame.buttonPressed
                  || (last.Some? && frame.(eventTimeMs := last.value.eventTimeMs) != last.value))
  {
    OwnIsHistory(r, es);
    hide RecAfter, LastTouch;
  }

  // ---- the motion stream of a plug is the gate's ----

  function MotionTimes(es: seq<Event>): seq<uint64> {
    if es == [] then []
    else MotionTimes(es[..|es| - 1]) + if es[|es| - 1].Motion? then [es[|es| - 1].nowUs] else []
  }

  function MotionEmits(r: Rec, es: seq<Event>): seq<MotionGate.Emit> {
    if es == [] then []
    else
      var out := LastOut(r, es).motion;
      MotionEmits(r, es[..|es| - 1]) + if out.Some? then [MotionGate.Emit(out.value.nowUs, out.value.deltaUs)] else []
  }

  /** A motion sample steps the plug's gate and nothing else in the plug touches it. */
  lemma GateStep(r: Rec, e: Event)
    requires Orderly(r) && e != Replug
    ensures Orderly(Step(r, e).0)
    ensures SyncedOwn(Step(r, e).0).gate ==
            if e.Motion? then MotionGate.StepGate(SyncedOwn(r).gate, e.nowUs) else SyncedOwn(r).gate
    ensures Step(r, e).1.motion ==
            if e.Motion? && MotionGate.Passes(SyncedOwn(r).gate, e.nowUs)
            then Some(MotionOut(e.sample, e.nowUs, MotionGate.DeltaUs(SyncedOwn(r).gate, e.nowUs))) else None
  {
    hide Filter, IsActuation, SameTouch, PackDeadzones;
  }

  /** Whatever else is published in between, a plug's motion stream is its gate's. */
  lemma {:induction false} MotionFollowsGate(r: Rec, es: seq<Event>)
    requires Taken(r) && Replug !in es
    ensures MotionEmits(r, es) == MotionGate.Emitted(MotionTimes(es))
    ensures Orderly(RecAfter(r, es)) && SyncedOwn(RecAfter(r, es)).gate == MotionGate.GateAfter(MotionTimes(es))
  {
    if es != [] {
      var before, e := es[..|es| - 1], es[|es| - 1];
      MotionFollowsGate(r, before);
      assert e in es;
      GateStep(RecAfter(r, before), e);
      hide Step, SyncedOwn, Orderly, Taken;
      hide MotionGate.StepGate, MotionGate.Passes, MotionGate.DeltaUs;
      var ts := MotionTimes(before);
      if e.Motion? { assert (ts + [e.nowUs])[..|ts|] == ts; } else { assert ts + [] == ts; }
    }
  }
}
