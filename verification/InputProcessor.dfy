/**
 The input processor as an object: the table of records, the calls that find, add and remove a device,
 and the hot path that publishes for one. Every call is one whole step here; `add` racing `add` is the
 registry's model.
 */
module InputProcessor {
  import opened Basics
  import opened DeviceTypes
  import opened DeviceRecord
  import MotionGate

  datatype Entry = Entry(live: bool, id: DeviceId, rec: Rec)

  const FREE_ENTRY := Entry(false, "", NEVER_USED)

  /** One thing that left the processor, for the device named. */
  datatype Emission = Emission(index: nat, id: DeviceId, out: Out)

  predicate Carries(e: Entry, id: DeviceId) {
    e.live && e.id == id
  }

  /** The index `find` answers: the lowest Live record with the id. */
  function IndexOf(es: seq<Entry>, id: DeviceId): Option<nat> {
    if es == [] then None
    else
      var earlier := IndexOf(es[..|es| - 1], id);
      if earlier.Some? then earlier
      else if Carries(es[|es| - 1], id) then Some(|es| - 1)
      else None
  }

  function LowestFree(es: seq<Entry>): Option<nat> {
    if es == [] then None
    else
      var earlier := LowestFree(es[..|es| - 1]);
      if earlier.Some? then earlier
      else if !es[|es| - 1].live then Some(|es| - 1)
      else None
  }

  /** No id is Live twice. */
  ghost predicate UniqueIds(es: seq<Entry>) {
    forall i, j :: 0 <= i < |es| && 0 <= j < |es| && es[i].live && es[j].live && es[i].id == es[j].id ==> i == j
  }

  lemma {:induction false} IndexOfFinds(es: seq<Entry>, id: DeviceId)
    ensures match IndexOf(es, id)
            case Some(i) => i < |es| && Carries(es[i], id) && forall j :: 0 <= j < i ==> !Carries(es[j], id)
            case None => forall j :: 0 <= j < |es| ==> !Carries(es[j], id)
  {
    if es != [] { IndexOfFinds(es[..|es| - 1], id); }
  }

  lemma {:induction false} LowestFreeFinds(es: seq<Entry>)
    ensures match LowestFree(es)
            case Some(i) => i < |es| && !es[i].live && forall j :: 0 <= j < i ==> es[j].live
            case None => forall j :: 0 <= j < |es| ==> es[j].live
  {
    if es != [] { LowestFreeFinds(es[..|es| - 1]); }
  }

  function UpdateRec(es: seq<Entry>, i: nat, r: Rec): seq<Entry>
    requires i < |es|
  {
    es[i := es[i].(rec := r)]
  }

  lemma UpdateStaysUnique(es: seq<Entry>, i: nat, r: Rec)
    requires i < |es| && UniqueIds(es)
    ensures UniqueIds(UpdateRec(es, i, r))
  {
  }

  function AfterAdd(es: seq<Entry>, id: DeviceId): seq<Entry> {
    if |id| > MAX_ID_BYTES || IndexOf(es, id).Some? then es
    else match LowestFree(es)
         case None => es
         case Some(i) => if i < |es| then es[i := Entry(true, id, Plugged(es[i].rec))] else es
  }

  function AfterRemove(es: seq<Entry>, id: DeviceId): seq<Entry> {
    match IndexOf(es, id)
    case None => es
    case Some(i) => if i < |es| then es[i := Entry(false, id, Unplugged(es[i].rec))] else es
  }

  /** After a remove no record carries the id, and no other record has changed. */
  lemma RemovedIsGone(es: seq<Entry>, id: DeviceId)
    requires UniqueIds(es)
    ensures var after := AfterRemove(es, id);
            && |after| == |es| && IndexOf(after, id) == None
            && (forall i :: 0 <= i < |es| && !Carries(es[i], id) ==> after[i] == es[i])
  {
    IndexOfFinds(es, id);
    IndexOfFinds(AfterRemove(es, id), id);
  }

  /** A record freed by a remove and taken by the next add, of the same id or another, is one re-plug further; the add
      takes it exactly if no lower record is free. */
  lemma RemoveThenAddIsReplug(es: seq<Entry>, id: DeviceId, id': DeviceId, i: nat)
    requires UniqueIds(es) && i < |es| && Carries(es[i], id)
    requires |id'| <= MAX_ID_BYTES && IndexOf(AfterRemove(es, id), id') == None
    ensures var after := AfterAdd(AfterRemove(es, id), id');
            && |after| == |es|
            && (if forall j :: 0 <= j < i ==> es[j].live
                then after[i] == Entry(true, id', Step(es[i].rec, Replug).0)
                else after[i] == AfterRemove(es, id)[i] && !after[i].live)
  {
    IndexOfFinds(es, id);
    var removed := AfterRemove(es, id);
    assert IndexOf(es, id) == Some(i) && forall j :: 0 <= j < i ==> removed[j] == es[j];
    assert removed[i] == Entry(false, id, Unplugged(es[i].rec));
    LowestFreeFinds(removed);
    var k := LowestFree(removed).value;
    if k < i {
      assert !es[k].live;
    } else {
      assert forall j :: 0 <= j < i ==> removed[j].live;
    }
  }

  /** The neutral reports `zeroAndSendAll` sends, one for each Live record in table order. */
  function ZeroEmissions(es: seq<Entry>): seq<Emission> {
    if es == [] then []
    else
      var e := es[|es| - 1];
      var sent := if e.live then [Emission(|es| - 1, e.id, NOTHING.(sender := Some(NEUTRAL)))] else [];
      ZeroEmissions(es[..|es| - 1]) + sent
  }

  /** A call on the object. */
  datatype Call =
    | Publish(index: nat, state: DeviceState)
    | PublishMotion(index: nat, sample: MotionSample, nowUs: uint64)
    | PublishTouchpad(index: nat, frame: TouchpadSample)
    | ZeroAndSendAll
    | Add(id: DeviceId)
    | Remove(id: DeviceId)
    | SetDeadzones(id: DeviceId, dz: Deadzones)

  function StepAt(es: seq<Entry>, i: nat, e: Event): seq<Entry> {
    if i < |es| then UpdateRec(es, i, Step(es[i].rec, e).0) else es
  }

  function ZeroedEntry(e: Entry): Entry {
    if e.live then e.(rec := Step(e.rec, ZeroAll).0) else e
  }

  function AfterZero(es: seq<Entry>): seq<Entry> {
    seq(|es|, i requires 0 <= i < |es| => ZeroedEntry(es[i]))
  }

  /** The table once the records below `n` are zeroed. */
  function ZeroedTo(es: seq<Entry>, n: nat): (r: seq<Entry>)
    ensures |r| == |es|
  {
    seq(|es|, i requires 0 <= i < |es| => if i < n then ZeroedEntry(es[i]) else es[i])
  }

  lemma ZeroStep(es: seq<Entry>, i: nat)
    requires i < |es|
    ensures ZeroedTo(es, i)[i] == es[i] && ZeroedTo(es, i)[i := ZeroedEntry(es[i])] == ZeroedTo(es, i + 1)
    ensures ZeroEmissions(es[..i + 1]) ==
            ZeroEmissions(es[..i]) +
            if es[i].live then [Emission(i, es[i].id, NOTHING.(sender := Some(NEUTRAL)))] else []
  {
    assert es[..i + 1][..i] == es[..i];
    hide ZeroedEntry;
  }

  /** The table after a call. */
  function AfterCall(es: seq<Entry>, call: Call): seq<Entry> {
    match call
    case Publish(index, state) => StepAt(es, index, Report(state))
    case PublishMotion(index, sample, nowUs) => StepAt(es, index, Motion(sample, nowUs))
    case PublishTouchpad(index, frame) => StepAt(es, index, Touch(frame))
    case ZeroAndSendAll => AfterZero(es)
    case Add(id) => AfterAdd(es, id)
    case Remove(id) => AfterRemove(es, id)
    case SetDeadzones(id, dz) =>
      var added := AfterAdd(es, id);
      match IndexOf(added, id)
      case Some(i) => if |id| <= MAX_ID_BYTES then StepAt(added, i, Event.SetDeadzones(dz)) else added
      case None => added
  }

  /** Something leaves for the sink, the sender, or on the motion or touch stream. */
  predicate Shows(out: Out) {
    out.sink.Some? || out.sender.Some? || out.motion.Some? || out.touch.Some?
  }

  function LeftAt(es: seq<Entry>, i: nat, e: Event): seq<Emission> {
    if i < |es| && Shows(Step(es[i].rec, e).1) then [Emission(i, es[i].id, Step(es[i].rec, e).1)] else []
  }

  /** What leaves on a call. */
  function LeftBy(es: seq<Entry>, call: Call): seq<Emission> {
    match call
    case Publish(index, state) => LeftAt(es, index, Report(state))
    case PublishMotion(index, sample, nowUs) => LeftAt(es, index, Motion(sample, nowUs))
    case PublishTouchpad(index, frame) => LeftAt(es, index, Touch(frame))
    case ZeroAndSendAll => ZeroEmissions(es)
    case _ => []
  }

  lemma ReportAfterSync(r: Rec, state: DeviceState)
    ensures PublishReport(Sync(r), state) == PublishReport(r, state)
    ensures Sync(r).ownGen == Sync(r).shared.plugGen && Sync(r).ownZeroGen == Sync(r).shared.zeroGen
    ensures Shows(PublishReport(r, state).1) <==> PublishReport(r, state).1.sink.Some?
  {
    hide ApplyDeadzones, UnpackDeadzones, IsActuation, TakeReport, Latched;
  }

  lemma SyncedReport(r: Rec, state: DeviceState)
    requires r.ownGen == r.shared.plugGen && r.ownZeroGen == r.shared.zeroGen
    ensures var f := Filter(r, state);
            var acts := IsActuation(r.own.activityRef, f);
            PublishReport(r, state) ==
            (r.(shown := r.shown.(raw := state, wire := f, seen := r.shown.seen | SEEN_REPORT),
                counters := r.counters.(gamepadEvents := r.counters.gamepadEvents + 1), own := TakeReport(r.own, f)),
             if Latched(r.own, f) then NOTHING.(actuated := acts) else Out(Some(f), Some(f), None, None, acts))
  {
    hide ApplyDeadzones, UnpackDeadzones, IsActuation, TakeReport, Latched;
  }

  class GamepadInputProcessor {
    const records: array<Entry>
    var actuations: nat
    var telEvents: nat
    var telSends: nat
    /** Everything that has left, in order. */
    ghost var left: seq<Emission>

    ghost predicate Valid()
      reads records
    {
      records.Length == MAX_DEVICES && UniqueIds(records[..])
    }

    constructor ()
      ensures Valid() && fresh(records)
      ensures forall i :: 0 <= i < MAX_DEVICES ==> records[i] == FREE_ENTRY
      ensures left == [] && actuations == telEvents == telSends == 0
    {
      records := new Entry[MAX_DEVICES](_ => FREE_ENTRY);
      actuations, telEvents, telSends, left := 0, 0, 0, [];
    }

    method Find(id: DeviceId) returns (index: Option<nat>)
      requires Valid()
      ensures index == IndexOf(records[..], id)
      ensures index.Some? ==> index.value < MAX_DEVICES
    {
      var i := 0;
      while i < records.Length
        invariant 0 <= i <= records.Length
        invariant IndexOf(records[..i], id) == None
      {
        assert records[..i + 1][..i] == records[..i];
        if Carries(records[i], id) {
          IndexOfPrefix(records[..], i + 1, id);
          return Some(i);
        }
        i := i + 1;
      }
      assert records[..i] == records[..];
      return None;
    }

    method Add(id: DeviceId) returns (index: Option<nat>)
      requires Valid()
      modifies records
      ensures Valid()
      ensures records[..] == AfterAdd(old(records[..]), id)
      ensures index == if |id| > MAX_ID_BYTES then None else IndexOf(records[..], id)
    {
      if |id| > MAX_ID_BYTES { return None; }
      index := Find(id);
      if index.Some? { return; }
      var i := 0;
      while i < records.Length
        invariant 0 <= i <= records.Length
        invariant records[..] == old(records[..])
        invariant LowestFree(records[..i]) == None
      {
        assert records[..i + 1][..i] == records[..i];
        if !records[i].live {
          LowestFreePrefix(records[..], i + 1);
          IndexOfFinds(records[..], id);
          records[i] := Entry(true, id, Plugged(records[i].rec));
          IndexOfFinds(records[..], id);
          return Some(i);
        }
        i := i + 1;
      }
      assert records[..i] == records[..];
      return None;
    }

    method Remove(id: DeviceId)
      requires Valid()
      modifies records
      ensures Valid()
      ensures records[..] == AfterRemove(old(records[..]), id)
    {
      var index := Find(id);
      if index.None? { return; }
      var i := index.value;
      IndexOfFinds(records[..], id);
      var r := records[i].rec;
      r := r.(shown := r.shown.(seen := 0));
      r := r.(counters := Counters(0, 0));
      r := r.(shared := r.shared.(deadzones := 0));
      r := r.(shared := r.shared.(plugGen := r.shared.plugGen + 1));
      records[i] := Entry(false, records[i].id, r);
    }

    method SetDeadzones(id: DeviceId, dz: Deadzones)
      requires Valid()
      modifies records
      ensures Valid()
      ensures records[..] == AfterCall(old(records[..]), Call.SetDeadzones(id, dz))
    {
      var index := Add(id);
      if index.Some? {
        var i := index.value;
        IndexOfFinds(records[..], id);
        var e := records[i];
        records[i] := e.(rec := e.rec.(shared := e.rec.shared.(deadzones := PackDeadzones(dz))));
      }
    }

    /** The owner thread catching up with the generations the cold side moved. */
    method SyncOwner(index: nat)
      requires Valid() && index < MAX_DEVICES
      modifies records
      ensures Valid()
      ensures records[..] == UpdateRec(old(records[..]), index, Sync(old(records[index].rec)))
    {
      var r := records[index].rec;
      if r.shared.plugGen != r.ownGen {
        r := r.(ownGen := r.shared.plugGen);
        r := r.(own := Own(false, NEUTRAL, NEUTRAL, MotionGate.FRESH_GATE, None));
      }
      if r.shared.zeroGen != r.ownZeroGen {
        r := r.(ownZeroGen := r.shared.zeroGen);
        r := r.(own := r.own.(forwarded := true, lastForwarded := NEUTRAL));
      }
      records[index] := records[index].(rec := r);
    }

    method Publish(index: nat, state: DeviceState)
      requires Valid()
      modifies this, records
      ensures Valid()
      ensures records[..] == AfterCall(old(records[..]), Call.Publish(index, state))
      ensures left == old(left) + LeftBy(old(records[..]), Call.Publish(index, state))
      ensures index >= MAX_DEVICES ==> unchanged(this)
      ensures index < MAX_DEVICES ==>
                var out := Step(old(records[index].rec), Report(state)).1;
                && actuations == old(actuations) + (if out.actuated then 1 else 0)
                && telEvents == old(telEvents) + 1
                && telSends == old(telSends) + (if out.sink.Some? then 1 else 0)
    {
      if index >= records.Length { return; }
      ReportAfterSync(records[index].rec, state);
      SyncOwner(index);
      hide UniqueIds, PublishReport, Sync;
      var r, out := Digest(records[index].rec, state);
      UpdateStaysUnique(records[..], index, r);
      records[index] := records[index].(rec := r);
      actuations := actuations + if out.actuated then 1 else 0;
      telEvents := telEvents + 1;
      if out.sink.None? { return; }
      telSends := telSends + 1;
      left := left + [Emission(index, records[index].id, out)];
    }

    /** A report taken into a record its owner has synced. */
    static method Digest(synced: Rec, state: DeviceState) returns (r: Rec, out: Out)
      requires synced.ownGen == synced.shared.plugGen && synced.ownZeroGen == synced.shared.zeroGen
      ensures (r, out) == PublishReport(synced, state)
    {
      SyncedReport(synced, state);
      hide PublishReport, Sync, SyncedOwn, ApplyDeadzones, UnpackDeadzones, IsActuation, TakeReport, Latched;
      var filtered := ApplyDeadzones(state, UnpackDeadzones(synced.shared.deadzones));
      var shown := synced.shown.(raw := state, wire := filtered, seen := synced.shown.seen | SEEN_REPORT);
      var counters := synced.counters.(gamepadEvents := synced.counters.gamepadEvents + 1);
      var own, acts, goes := Measure(synced.own, filtered);
      r := synced.(shown := shown, counters := counters, own := own);
      out := if goes then Out(Some(filtered), Some(filtered), None, None, acts) else NOTHING.(actuated := acts);
    }

    /** A dead-zoned report against the activity reference and the latch: does it count, does it go? */
    static method Measure(own: Own, filtered: DeviceState) returns (own': Own, acts: bool, goes: bool)
      ensures own' == TakeReport(own, filtered)
      ensures acts == IsActuation(own.activityRef, filtered) && goes == !Latched(own, filtered)
    {
      hide IsActuation;
      own' := own;
      acts := IsActuation(own'.activityRef, filtered);
      if acts { own' := own'.(activityRef := filtered); }
      goes := !(own'.forwarded && own'.lastForwarded == filtered);
      if goes { own' := own'.(forwarded := true, lastForwarded := filtered); }
    }

    /** The gate's verdict on a sample, and the gate and delta it goes out with. */
    static method PassGate(gate: MotionGate.Gate, nowUs: uint64)
      returns (passed: bool, gate': MotionGate.Gate, deltaUs: uint32)
      ensures passed == MotionGate.Passes(gate, nowUs)
      ensures passed ==> gate' == MotionGate.StepGate(gate, nowUs) && deltaUs == MotionGate.DeltaUs(gate, nowUs)
    {
      gate', deltaUs := gate, 0;
      if gate.hasEmitted {
        var d := MotionGate.Elapsed(nowUs, gate.lastUs);
        if d < MotionGate.MIN_INTERVAL_US { return false, gate', deltaUs; }
        deltaUs := if d > MotionGate.MAX_DELTA_US then MotionGate.MAX_DELTA_US else d;
      }
      return true, MotionGate.Gate(nowUs, true), deltaUs;
    }

    method PublishMotionAt(index: nat, sample: MotionSample, nowUs: uint64) returns (passed: bool)
      requires Valid()
      modifies this`left, records
      ensures Valid()
      ensures records[..] == AfterCall(old(records[..]), Call.PublishMotion(index, sample, nowUs))
      ensures left == old(left) + LeftBy(old(records[..]), Call.PublishMotion(index, sample, nowUs))
      ensures passed == (index < MAX_DEVICES && Step(old(records[index].rec), Motion(sample, nowUs)).1.motion.Some?)
    {
      if index >= records.Length { return false; }
      SyncOwner(index);
      hide SyncedOwn, MotionGate.Passes, MotionGate.StepGate, MotionGate.DeltaUs;
      var r := records[index].rec;
      var gate, deltaUs;
      passed, gate, deltaUs := PassGate(r.own.gate, nowUs);
      if !passed { return; }
      r := r.(own := r.own.(gate := gate));
      r := r.(shown := r.shown.(motion := sample, seen := r.shown.seen | SEEN_MOTION));
      r := r.(counters := r.counters.(motionEvents := r.counters.motionEvents + 1));
      records[index] := records[index].(rec := r);
      left := left + [Emission(index, records[index].id, NOTHING.(motion := Some(MotionOut(sample, nowUs, deltaUs))))];
      return true;
    }

    method PublishTouchpad(index: nat, frame: TouchpadSample)
      requires Valid()
      modifies this`left, this`actuations, records
      ensures Valid()
      ensures records[..] == AfterCall(old(records[..]), Call.PublishTouchpad(index, frame))
      ensures left == old(left) + LeftBy(old(records[..]), Call.PublishTouchpad(index, frame))
      ensures actuations == old(actuations) +
                if index < MAX_DEVICES && Step(old(records[index].rec), Touch(frame)).1.actuated then 1 else 0
    {
      if index >= records.Length { return; }
      SyncOwner(index);
      var r, acts := TakeTouch(records[index].rec, frame);
      records[index] := records[index].(rec := r);
      actuations := actuations + if acts then 1 else 0;
      left := left + [Emission(index, records[index].id, NOTHING.(touch := Some(frame), actuated := acts))];
    }

    static method TakeTouch(synced: Rec, frame: TouchpadSample) returns (r: Rec, acts: bool)
      requires synced.ownGen == synced.shared.plugGen && synced.ownZeroGen == synced.shared.zeroGen
      ensures (r, NOTHING.(touch := Some(frame), actuated := acts)) == PublishTouch(synced, frame)
    {
      r := synced.(shown := synced.shown.(touchpad := frame, seen := synced.shown.seen | SEEN_TOUCHPAD));
      var touching := frame.finger0.active || frame.finger1.active || frame.buttonPressed;
      var changed := r.own.lastTouchpad.Some? && !SameTouch(frame, r.own.lastTouchpad.value);
      r := r.(own := r.own.(lastTouchpad := Some(frame)));
      acts := touching || changed;
    }

    method ZeroAndSendAll()
      requires Valid()
      modifies this`left, records
      ensures Valid()
      ensures records[..] == AfterCall(old(records[..]), Call.ZeroAndSendAll)
      ensures left == old(left) + LeftBy(old(records[..]), Call.ZeroAndSendAll)
    {
      ghost var was := records[..];
      assert was[..0] == [] && ZeroEmissions([]) == [] && ZeroedTo(was, 0) == was;
      assert ZeroedTo(was, records.Length) == AfterZero(was);
      hide ZeroEmissions, ZeroedTo, AfterZero;
      var i := 0;
      while i < records.Length
        invariant 0 <= i <= records.Length && records[..] == ZeroedTo(was, i)
        invariant left == old(left) + ZeroEmissions(was[..i])
      {
        var e := records[i];
        ZeroStep(was, i);
        assert e == records[..][i];
        if e.live {
          records[i] := e.(rec := e.rec.(shared := e.rec.shared.(zeroGen := e.rec.shared.zeroGen + 1)));
          left := left + [Emission(i, e.id, NOTHING.(sender := Some(NEUTRAL)))];
        }
        assert records[..] == ZeroedTo(was, i)[i := ZeroedEntry(e)];
        i := i + 1;
      }
      assert was[..i] == was;
    }

    method InspectDevice(id: DeviceId) returns (seen: Inspection)
      requires Valid()
      ensures match IndexOf(records[..], id)
              case None => seen == Inspection(None, None, None, None)
              case Some(i) => i < MAX_DEVICES && seen == Inspect(records[i].rec.shown)
    {
      var index := Find(id);
      if index.None? { return Inspection(None, None, None, None); }
      return Inspect(records[index.value].rec.shown);
    }
  }

  lemma {:induction false} IndexOfPrefix(es: seq<Entry>, n: nat, id: DeviceId)
    requires n <= |es| && IndexOf(es[..n], id).Some?
    ensures IndexOf(es, id) == IndexOf(es[..n], id)
    decreases |es| - n
  {
    if n < |es| {
      assert es[..n + 1][..n] == es[..n];
      IndexOfPrefix(es, n + 1, id);
    } else {
      assert es[..n] == es;
    }
  }

  lemma {:induction false} LowestFreePrefix(es: seq<Entry>, n: nat)
    requires n <= |es| && LowestFree(es[..n]).Some?
    ensures LowestFree(es) == LowestFree(es[..n])
    decreases |es| - n
  {
    if n < |es| {
      assert es[..n + 1][..n] == es[..n];
      LowestFreePrefix(es, n + 1);
    } else {
      assert es[..n] == es;
    }
  }
}
