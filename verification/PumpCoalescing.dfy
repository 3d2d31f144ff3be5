/**
 Holding reports back to the end of a pump cycle loses nothing: a cycle that drains its marks once leaves the same
 pads, and every receiver with the same last report, as one that drains them after every single event.
 */
module PumpCoalescing {
  import opened Basics
  import opened DeviceTypes
  import opened DirtySet
  import ControllerShadow
  import DeviceRecord
  import JoystickMapping
  import opened PadTable
  import opened PadTracking

  /** The reference: the marks are drained after every event. */
  function OneByOne(s: Bridge, events: seq<Event>, raw: Raw): Bridge {
    if events == [] then Drain(s, raw)
    else Drain(Dispatch(OneByOne(s, events[..|events| - 1], raw), events[|events| - 1], raw), raw)
  }

  /** The last report sent from a slot. */
  function LastReport(log: seq<Publication>, slot: nat): Option<DeviceState> {
    if log == [] then None
    else
      var p := log[|log| - 1];
      if p.slot == slot && p.what.Report? then Some(p.what.state) else LastReport(log[..|log| - 1], slot)
  }

  /** The motion samples and touch frames, which are never held back. */
  function Unheld(log: seq<Publication>): seq<Publication> {
    if log == [] then []
    else
      var p := log[|log| - 1];
      Unheld(log[..|log| - 1]) + if p.what.Report? then [] else [p]
  }

  lemma {:induction false} LastReportOfMore(log: seq<Publication>, sent: seq<Publication>, slot: nat)
    ensures LastReport(log + sent, slot) ==
            if LastReport(sent, slot).Some? then LastReport(sent, slot) else LastReport(log, slot)
  {
    if sent == [] {
      assert log + sent == log;
    } else {
      var n := |sent| - 1;
      LastReportOfMore(log, sent[..n], slot);
      assert (log + sent)[..|log + sent| - 1] == log + sent[..n];
    }
  }

  lemma {:induction false} UnheldOfMore(log: seq<Publication>, sent: seq<Publication>)
    ensures Unheld(log + sent) == Unheld(log) + Unheld(sent)
  {
    if sent == [] {
      assert log + sent == log;
    } else {
      var n := |sent| - 1;
      UnheldOfMore(log, sent[..n]);
      assert (log + sent)[..|log + sent| - 1] == log + sent[..n];
    }
  }

  lemma {:induction false} ReportedIsHeld(pads: seq<Pad>, order: seq<nat>, raw: Raw)
    ensures Unheld(Reported(pads, order, raw)) == []
  {
    if order != [] {
      hide Current;
      var n := |order| - 1;
      ReportedIsHeld(pads, order[..n], raw);
      var last := if order[n] < |pads| then Reports(order[n], pads[order[n]], raw) else [];
      assert Unheld(last) == [];
      UnheldOfMore(Reported(pads, order[..n], raw), last);
    }
  }

  lemma DrainSendsOnlyReports(s: Bridge, raw: Raw)
    ensures Unheld(Drain(s, raw).log) == Unheld(s.log)
  {
    hide Unheld, Reported, Ascending;
    ReportedIsHeld(s.pads, Ascending(s.dirty), raw);
    UnheldOfMore(s.log, Reported(s.pads, Ascending(s.dirty), raw));
  }

  lemma LastOfReports(k: nat, pad: Pad, raw: Raw, slot: nat)
    ensures LastReport(Reports(k, pad, raw), slot) ==
            if k == slot && Publishes(pad) then Some(Current(pad, raw)) else None
  {
    hide Current;
  }

  lemma LastOfSends(k: nat, pad: Pad, ev: Event, slot: nat)
    ensures LastReport(Sends(k, pad, ev), slot) == None
  {
  }

  lemma {:induction false} LastOfReported(pads: seq<Pad>, order: seq<nat>, raw: Raw, slot: nat)
    requires slot < |pads|
    ensures LastReport(Reported(pads, order, raw), slot) ==
            if slot in order && Publishes(pads[slot]) then Some(Current(pads[slot], raw)) else None
  {
    if order != [] {
      var n := |order| - 1;
      LastOfReported(pads, order[..n], raw, slot);
      assert slot in order <==> slot in order[..n] || slot == order[n];
      assert LastReport([], slot) == None;
      hide Current, Reports, Publishes, LastReport;
      if order[n] < |pads| {
        LastOfReports(order[n], pads[order[n]], raw, slot);
        LastReportOfMore(Reported(pads, order[..n], raw), Reports(order[n], pads[order[n]], raw), slot);
      } else {
        LastReportOfMore(Reported(pads, order[..n], raw), [], slot);
      }
    }
  }

  /** A drain leaves each marked pad's receiver with the pad's state of that moment and touches no other. */
  lemma DrainReports(s: Bridge, raw: Raw, slot: nat)
    requires slot < |s.pads| <= 64
    ensures LastReport(Drain(s, raw).log, slot) ==
            if slot in s.dirty && Publishes(s.pads[slot]) then Some(Current(s.pads[slot], raw))
            else LastReport(s.log, slot)
  {
    hide Current, Publishes, LastReport, Reported, Ascending;
    VisitsEachOnce(s.dirty, 0);
    LastOfReported(s.pads, Ascending(s.dirty), raw, slot);
    LastReportOfMore(s.log, Reported(s.pads, Ascending(s.dirty), raw), slot);
  }

  // ---- one event ----

  /** The receiver of a slot that publishes: up to date in the reference if the cycle owes it a report, the same if
      not. */
  ghost predicate Even(c: Bridge, b: Bridge, raw: Raw, slot: nat)
    requires slot < |c.pads|
  {
    Publishes(c.pads[slot]) ==>
      if slot in c.dirty then LastReport(b.log, slot) == Some(Current(c.pads[slot], raw))
      else LastReport(c.log, slot) == LastReport(b.log, slot)
  }

  /** `c` has held its reports back, `b` has not. */
  ghost predicate Level(c: Bridge, b: Bridge, raw: Raw) {
    && |c.pads| <= 64
    && c.pads == b.pads && c.openPads == b.openPads && c.inputs == b.inputs && c.calls == b.calls && b.dirty == {}
    && Unheld(c.log) == Unheld(b.log)
    && forall slot :: 0 <= slot < |c.pads| ==> Even(c, b, raw, slot)
  }

  /** An event that asks for no report leaves the pad's report as it was, unless it opened the pad and reported it. */
  lemma UnmarkedKeepsReport(pads: seq<Pad>, inputs: Inputs, ev: Event, raw: Raw, slot: nat)
    requires var e := EffectOf(pads, inputs, ev, raw); e.Effect? && !e.mark && e.slot == slot && Publishes(e.pad)
    ensures var e := EffectOf(pads, inputs, ev, raw);
            || LastReport(e.sent, slot) == Some(Current(e.pad, raw))
            || (LastReport(e.sent, slot) == None && Publishes(pads[slot]) &&
               Current(pads[slot], raw) == Current(e.pad, raw))
  {
    hide SlotOf, FirstFree, LastReport, ControllerShadow.SnapshotOf, ControllerShadow.Seeded;
    var e := EffectOf(pads, inputs, ev, raw);
    if ev.Added? {
      LastOfReports(slot, e.pad, raw, slot);
    } else {
      SlotOfFinds(pads, ev.iid, 0);
      LastOfSends(slot, e.pad, ev, slot);
      hide Sends;
    }
  }

  lemma SentIsLocal(pads: seq<Pad>, inputs: Inputs, ev: Event, raw: Raw, slot: nat)
    requires var e := EffectOf(pads, inputs, ev, raw); e.Effect? && e.slot != slot
    ensures LastReport(EffectOf(pads, inputs, ev, raw).sent, slot) == None
  {
    hide SlotOf, FirstFree, LastReport, Sends, Reports, Publishes;
    var e := EffectOf(pads, inputs, ev, raw);
    if ev.Added? {
      LastOfReports(e.slot, e.pad, raw, slot);
    } else {
      LastOfSends(e.slot, e.pad, ev, slot);
    }
  }

  lemma StepKeepsEven(c: Bridge, b: Bridge, ev: Event, raw: Raw, slot: nat)
    requires Level(c, b, raw) && slot < |c.pads|
    ensures |Dispatch(c, ev, raw).pads| == |c.pads|
    ensures Even(Dispatch(c, ev, raw), Drain(Dispatch(b, ev, raw), raw), raw, slot)
  {
    var e := EffectOf(c.pads, c.inputs, ev, raw);
    var c', b' := Dispatch(c, ev, raw), Dispatch(b, ev, raw);
    assert Even(c, b, raw, slot);
    hide Level;
    DrainReports(b', raw, slot);
    if e.Effect? {
      LastReportOfMore(c.log, e.sent, slot);
      LastReportOfMore(b.log, e.sent, slot);
      if e.slot != slot {
        SentIsLocal(c.pads, c.inputs, ev, raw, slot);
      } else if !e.mark && Publishes(e.pad) {
        UnmarkedKeepsReport(c.pads, c.inputs, ev, raw, slot);
      }
      hide EffectOf, Current, LastReport, Unheld, Publishes, Drain;
    }
  }

  lemma StepKeepsLevel(c: Bridge, b: Bridge, ev: Event, raw: Raw)
    requires Level(c, b, raw)
    ensures Level(Dispatch(c, ev, raw), Drain(Dispatch(b, ev, raw), raw), raw)
  {
    var e := EffectOf(c.pads, c.inputs, ev, raw);
    var c', b' := Dispatch(c, ev, raw), Dispatch(b, ev, raw);
    hide EffectOf, Even, Unheld, LastReport, Ascending;
    assert c'.pads == b'.pads && |c'.pads| == |c.pads|;
    forall slot | 0 <= slot < |c'.pads| ensures Even(c', Drain(b', raw), raw, slot) {
      StepKeepsEven(c, b, ev, raw, slot);
    }
    assert Unheld(c'.log) == Unheld(Drain(b', raw).log) by {
      DrainSendsOnlyReports(b', raw);
      if e.Effect? {
        UnheldOfMore(c.log, e.sent);
        UnheldOfMore(b.log, e.sent);
      }
    }
  }

  lemma StartIsLevel(s: Bridge, raw: Raw)
    requires |s.pads| <= 64
    ensures Level(s, Drain(s, raw), raw)
  {
    hide Unheld, LastReport;
    DrainSendsOnlyReports(s, raw);
    forall slot | 0 <= slot < |s.pads| ensures Even(s, Drain(s, raw), raw, slot) {
      DrainReports(s, raw, slot);
    }
  }

  lemma {:induction false} EventsKeepLevel(s: Bridge, events: seq<Event>, raw: Raw)
    requires |s.pads| <= 64
    ensures Level(DispatchAll(s, events, raw), OneByOne(s, events, raw), raw)
  {
    if events == [] {
      StartIsLevel(s, raw);
    } else {
      hide Level, Dispatch, Drain;
      var rest := events[..|events| - 1];
      EventsKeepLevel(s, rest, raw);
      StepKeepsLevel(DispatchAll(s, rest, raw), OneByOne(s, rest, raw), events[|events| - 1], raw);
    }
  }

  /** A cycle's end state, its motion and touch, and the last report of every pad that publishes are those of
      reporting event by event. */
  lemma CycleMatchesEventByEvent(s: Bridge, events: seq<Event>, raw: Raw)
    requires |s.pads| <= 64
    ensures var a, b := Drain(DispatchAll(s, events, raw), raw), OneByOne(s, events, raw);
            && a.pads == b.pads && a.openPads == b.openPads && a.calls == b.calls && a.dirty == b.dirty == {}
            && Unheld(a.log) == Unheld(b.log)
            && forall k :: 0 <= k < |a.pads| && Publishes(a.pads[k]) ==> LastReport(a.log, k) == LastReport(b.log, k)
  {
    var c, b := DispatchAll(s, events, raw), OneByOne(s, events, raw);
    EventsKeepLevel(s, events, raw);
    hide DispatchAll, OneByOne, Unheld, LastReport, Reported, Current;
    DrainSendsOnlyReports(c, raw);
    forall k | 0 <= k < |c.pads| && Publishes(c.pads[k])
      ensures LastReport(Drain(c, raw).log, k) == LastReport(b.log, k)
    {
      assert Even(c, b, raw, k);
      DrainReports(c, raw, k);
    }
  }

  // ---- what the receiver ends up with ----

  /** The reports sent from a slot, as the processor's record sees them. */
  function ReportCalls(log: seq<Publication>, slot: nat): seq<DeviceRecord.Event> {
    if log == [] then []
    else
      var (rest, p) := (ReportCalls(log[..|log| - 1], slot), log[|log| - 1]);
      if p.slot == slot && p.what.Report? then rest + [DeviceRecord.Report(p.what.state)] else rest
  }

  /** What the receiver holds after the calls, having held `held` before: the last report that got through. */
  function ReceiverAfter(r: DeviceRecord.Rec, held: Option<DeviceState>,
      calls: seq<DeviceRecord.Event>): Option<DeviceState> {
    var last := DeviceRecord.Last(DeviceRecord.SinkReports(r, calls));
    if last.Some? then last else held
  }

  /** The record's latch is what its receiver holds, and no zero is on its way to it. */
  ghost predicate InStep(r: DeviceRecord.Rec, held: Option<DeviceState>) {
    DeviceRecord.Orderly(r) && !DeviceRecord.ZeroPending(r) && DeviceRecord.Latch(r) == held
  }

  lemma ReportStaysInStep(r: DeviceRecord.Rec, held: Option<DeviceState>, state: DeviceState)
    requires InStep(r, held)
    ensures var (r', out) := DeviceRecord.Step(r, DeviceRecord.Report(state));
            && InStep(r', Some(DeviceRecord.Filter(r, state))) && r'.shared == r.shared
            && (if out.sink.Some? then out.sink else held) == Some(DeviceRecord.Filter(r, state))
  {
    DeviceRecord.LatchStep(r, DeviceRecord.Report(state));
  }

  /** Behind the processor's repeat filter the receiver ends up with the dead-zoned last report sent, or what it held if
      none was, however many reports there were. */
  lemma {:induction false} ReceiverHoldsLastReport(r: DeviceRecord.Rec, held: Option<DeviceState>,
      log: seq<Publication>, slot: nat)
    requires InStep(r, held)
    ensures var calls := ReportCalls(log, slot);
            var last := LastReport(log, slot);
            var now := if last.Some? then Some(DeviceRecord.Filter(r, last.value)) else held;
            && ReceiverAfter(r, held, calls) == now
            && InStep(DeviceRecord.RecAfter(r, calls), now) && DeviceRecord.RecAfter(r, calls).shared == r.shared
  {
    if log != [] {
      hide InStep, DeviceRecord.ApplyDeadzones, DeviceRecord.UnpackDeadzones, DeviceRecord.Step;
      ReceiverHoldsLastReport(r, held, log[..|log| - 1], slot);
      var rest, p := ReportCalls(log[..|log| - 1], slot), log[|log| - 1];
      if p.slot == slot && p.what.Report? {
        assert (rest + [DeviceRecord.Report(p.what.state)])[..|rest|] == rest;
        var last := LastReport(log[..|log| - 1], slot);
        var before := if last.Some? then Some(DeviceRecord.Filter(r, last.value)) else held;
        ReportStaysInStep(DeviceRecord.RecAfter(r, rest), before, p.what.state);
      }
    }
  }

  // ---- what one cycle sends ----

  function Unlogged(s: Bridge): Bridge {
    s.(log := [])
  }

  /** The calls of one cycle that reports at its end, and of one that reports after every event. */
  function CycleSends(s: Bridge, events: seq<Event>, raw: Raw): seq<Publication> {
    Drain(DispatchAll(Unlogged(s), events, raw), raw).log
  }

  function OneByOneSends(s: Bridge, events: seq<Event>, raw: Raw): seq<Publication> {
    OneByOne(Unlogged(s), events, raw).log
  }

  function Logged(s: Bridge, log: seq<Publication>): Bridge {
    s.(log := log + s.log)
  }

  lemma DispatchAppends(s: Bridge, log: seq<Publication>, ev: Event, raw: Raw)
    ensures Dispatch(Logged(s, log), ev, raw) == Logged(Dispatch(s, ev, raw), log)
  {
    hide EffectOf;
    var e := EffectOf(s.pads, s.inputs, ev, raw);
    if e.Effect? { assert (log + s.log) + e.sent == log + (s.log + e.sent); }
  }

  lemma DrainAppends(s: Bridge, log: seq<Publication>, raw: Raw)
    ensures Drain(Logged(s, log), raw) == Logged(Drain(s, raw), log)
  {
    var sent := Reported(s.pads, Ascending(s.dirty), raw);
    assert (log + s.log) + sent == log + (s.log + sent);
  }

  lemma {:induction false} DispatchAllAppends(s: Bridge, log: seq<Publication>, events: seq<Event>, raw: Raw)
    ensures DispatchAll(Logged(s, log), events, raw) == Logged(DispatchAll(s, events, raw), log)
    ensures OneByOne(Logged(s, log), events, raw) == Logged(OneByOne(s, events, raw), log)
  {
    hide Dispatch, Drain, Logged;
    if events == [] {
      DrainAppends(s, log, raw);
    } else {
      var rest, ev := events[..|events| - 1], events[|events| - 1];
      DispatchAllAppends(s, log, rest, raw);
      DispatchAppends(DispatchAll(s, rest, raw), log, ev, raw);
      DispatchAppends(OneByOne(s, rest, raw), log, ev, raw);
      DrainAppends(Dispatch(OneByOne(s, rest, raw), ev, raw), log, raw);
    }
  }

  /** A cycle's calls are appended to the log, whichever way it reports, and do not depend on it. */
  lemma CycleAppends(s: Bridge, events: seq<Event>, raw: Raw)
    ensures Drain(DispatchAll(s, events, raw), raw).log == s.log + CycleSends(s, events, raw)
    ensures OneByOne(s, events, raw).log == s.log + OneByOneSends(s, events, raw)
  {
    hide DispatchAll, OneByOne, Drain;
    assert Logged(Unlogged(s), s.log) == s;
    DispatchAllAppends(Unlogged(s), s.log, events, raw);
    DrainAppends(DispatchAll(Unlogged(s), events, raw), s.log, raw);
  }

  /** The calls made from slot `k` are all this pad's. */
  predicate SpeaksFor(log: seq<Publication>, k: nat, who: Identity) {
    forall i :: 0 <= i < |log| && log[i].slot == k ==> log[i].iid == who.iid && Some(log[i].index) == who.index
  }

  lemma StepSpeaksFor(s: Bridge, ev: Event, raw: Raw, who: Identity, k: nat)
    requires Sits(s, who, k) && !(Addresses(ev, who.iid) && (ev.Added? || ev.Removed?)) && SpeaksFor(s.log, k, who)
    ensures SpeaksFor(Dispatch(s, ev, raw).log, k, who)
  {
    hide SlotOf, FirstFree, NextShadow, NextAccel, NextTouch, Current, ControllerShadow.Seeded;
    FirstFreeFinds(s.pads, 0);
    if !ev.Added? { SlotOfFinds(s.pads, ev.iid, 0); }
  }

  lemma {:induction false} ReportedSpeaksFor(pads: seq<Pad>, order: seq<nat>, raw: Raw, who: Identity, k: nat)
    requires k < |pads| && pads[k].Open? && pads[k].who == who
    ensures SpeaksFor(Reported(pads, order, raw), k, who)
  {
    if order != [] {
      hide Current;
      ReportedSpeaksFor(pads, order[..|order| - 1], raw, who, k);
    }
  }

  lemma {:induction false} CycleSpeaksFor(s: Bridge, events: seq<Event>, raw: Raw, who: Identity, k: nat)
    requires Sits(s, who, k) && StaysOpen(who.iid, events) && SpeaksFor(s.log, k, who)
    ensures SpeaksFor(DispatchAll(s, events, raw).log, k, who) && SpeaksFor(OneByOne(s, events, raw).log, k, who)
    ensures Sits(DispatchAll(s, events, raw), who, k) && Sits(OneByOne(s, events, raw), who, k)
  {
    if events == [] {
      ReportedSpeaksFor(s.pads, Ascending(s.dirty), raw, who, k);
    } else {
      var n := |events| - 1;
      CycleSpeaksFor(s, events[..n], raw, who, k);
      var c, b := DispatchAll(s, events[..n], raw), OneByOne(s, events[..n], raw);
      hide SpeaksFor, Reported, Dispatch, Ascending;
      StepSpeaksFor(c, events[n], raw, who, k);
      StepSpeaksFor(b, events[n], raw, who, k);
      StepSits(c, events[n], raw, who, k);
      StepSits(b, events[n], raw, who, k);
      DrainSpeaksFor(Dispatch(b, events[n], raw), raw, who, k);
    }
  }

  lemma DrainSpeaksFor(s: Bridge, raw: Raw, who: Identity, k: nat)
    requires Sits(s, who, k) && SpeaksFor(s.log, k, who)
    ensures SpeaksFor(Drain(s, raw).log, k, who)
  {
    ReportedSpeaksFor(s.pads, Ascending(s.dirty), raw, who, k);
  }

  /** For a pad that stays open in its slot and is not suppressed, and a record whose latch is what its receiver holds:
      the calls from the slot are that pad's alone, and the receiver ends one coalesced cycle in the very state that
      reporting after every event would leave it in. */
  lemma CycleLeavesReceiverAlike(s: Bridge, events: seq<Event>, raw: Raw, who: Identity, k: nat,
                                 r: DeviceRecord.Rec, held: Option<DeviceState>)
    requires |s.pads| <= 64 && Sits(s, who, k) && StaysOpen(who.iid, events) && Publishes(s.pads[k]) && InStep(r, held)
    ensures SpeaksFor(CycleSends(s, events, raw), k, who) && SpeaksFor(OneByOneSends(s, events, raw), k, who)
    ensures ReceiverAfter(r, held, ReportCalls(CycleSends(s, events, raw), k))
            == ReceiverAfter(r, held, ReportCalls(OneByOneSends(s, events, raw), k))
  {
    var u := Unlogged(s);
    CycleSpeaksFor(u, events, raw, who, k);
    DrainSpeaksFor(DispatchAll(u, events, raw), raw, who, k);
    EventsTrack(u, events, raw, who, k);
    CycleMatchesEventByEvent(u, events, raw);
    hide DispatchAll, OneByOne, InStep, ReceiverAfter, ReportCalls, LastReport, StaysOpen, Reported;
    ReceiverHoldsLastReport(r, held, CycleSends(s, events, raw), k);
    ReceiverHoldsLastReport(r, held, OneByOneSends(s, events, raw), k);
  }

  // ---- a pad let go ----

  /** The events a pad is reported for: a controller's axis or button that SDL numbers, its remap, and anything a raw
      joystick does. */
  predicate Stirs(kind: Kind, ev: Event) {
    match ev
    case AxisMoved(_, axis, _) => axis < 6
    case ButtonMoved(_, button, _) => button < 21
    case Remapped(_, _) => kind == Controller
    case RawInput(_) => kind == Joystick
    case _ => false
  }

  predicate StirredBy(who: Identity, events: seq<Event>) {
    exists i :: 0 <= i < |events| && Addresses(events[i], who.iid) && Stirs(who.kind, events[i])
  }

  lemma StepOwes(s: Bridge, ev: Event, raw: Raw, who: Identity, k: nat)
    requires Sits(s, who, k) && !(Addresses(ev, who.iid) && (ev.Added? || ev.Removed?))
    ensures LastReport(Dispatch(s, ev, raw).log, k) == LastReport(s.log, k)
    ensures k in Dispatch(s, ev, raw).dirty <==> k in s.dirty || (Addresses(ev, who.iid) && Stirs(who.kind, ev))
  {
    hide SlotOf, FirstFree, NextShadow, NextAccel, NextTouch, Reports, Sends, LastReport, ControllerShadow.Seeded;
    FirstFreeFinds(s.pads, 0);
    if !ev.Added? { SlotOfFinds(s.pads, ev.iid, 0); }
    var e := EffectOf(s.pads, s.inputs, ev, raw);
    if e.Effect? {
      LastReportOfMore(s.log, e.sent, k);
      if e.slot != k { SentIsLocal(s.pads, s.inputs, ev, raw, k); } else { LastOfSends(k, e.pad, ev, k); }
    }
  }

  /** Events that keep a pad open report nothing of it themselves; they only mark it. */
  lemma {:induction false} EventsOwe(s: Bridge, events: seq<Event>, raw: Raw, who: Identity, k: nat)
    requires Sits(s, who, k) && StaysOpen(who.iid, events)
    ensures var d := DispatchAll(s, events, raw);
            && Sits(d, who, k) && d.pads[k].suppressed == s.pads[k].suppressed && |d.pads| == |s.pads|
            && LastReport(d.log, k) == LastReport(s.log, k)
            && (k in d.dirty <==> k in s.dirty || StirredBy(who, events))
  {
    if events != [] {
      var n := |events| - 1;
      var c := DispatchAll(s, events[..n], raw);
      EventsOwe(s, events[..n], raw, who, k);
      StepSits(c, events[n], raw, who, k);
      StepOwes(c, events[n], raw, who, k);
      assert StirredBy(who, events) <==>
        StirredBy(who, events[..n]) || (Addresses(events[n], who.iid) && Stirs(who.kind, events[n]));
      hide EffectOf, SlotOf, LastReport, Stirs, Addresses, StirredBy;
    }
  }

  /** A cycle in which a pad is not suppressed, just let go or not, leaves its receiver with the pad's state exactly if
      the pad was marked, or its last report was that state already. */
  lemma CaughtUpIff(s: Bridge, next: Option<Inputs>, events: seq<Event>, raw: Raw, who: Identity, k: nat)
    requires |s.pads| <= 64 && Sits(s, who, k) && StaysOpen(who.iid, events) && Publishes(Adopt(s, next).pads[k])
    ensures var t := PumpOnce(s, next, events, raw);
            && Sits(t, who, k)
            && (LastReport(t.log, k) == Some(Current(t.pads[k], raw))
                <==> k in s.dirty || StirredBy(who, events)
                     || LastReport(s.log, k) == Some(Current(t.pads[k], raw)))
  {
    var a := Adopt(s, next);
    var d := DispatchAll(a, events, raw);
    AdoptSits(s, next, who, k);
    EventsOwe(a, events, raw, who, k);
    hide DispatchAll, Adopt, LastReport, StirredBy, StaysOpen, Reported, Current, SlotOf;
    DrainReports(d, raw, k);
  }

  lemma QuietCycle(s: Bridge, next: Option<Inputs>, events: seq<Event>, raw: Raw, who: Identity, k: nat)
    requires |s.pads| <= 64 && Sits(s, who, k) && StaysOpen(who.iid, events)
    requires !Publishes(Adopt(s, next).pads[k]) || (k !in s.dirty && !StirredBy(who, events))
    ensures var t := PumpOnce(s, next, events, raw);
            && Sits(t, who, k) && |t.pads| == |s.pads| && k !in t.dirty
            && LastReport(t.log, k) == LastReport(s.log, k)
  {
    var a := Adopt(s, next);
    AdoptSits(s, next, who, k);
    EventsOwe(a, events, raw, who, k);
    assert |a.pads| == |s.pads| && a.log == s.log && a.dirty == s.dirty;
    hide DispatchAll, Adopt, LastReport, StirredBy, StaysOpen, Reported, Current, SlotOf;
    DrainReports(DispatchAll(a, events, raw), raw, k);
  }

  /** Letting a pad go reports nothing by itself: whatever it did in a cycle under suppression, the receiver stays on
      the report from before until an event marks the pad again. */
  lemma LetGoReportsNothing(s: Bridge, taken: Option<Inputs>, events: seq<Event>, raw: Raw, freed: Option<Inputs>,
      later: seq<Event>, raw': Raw, who: Identity, k: nat)
    requires |s.pads| <= 64 && Sits(s, who, k) && StaysOpen(who.iid, events) && StaysOpen(who.iid, later)
    requires !Publishes(Adopt(s, taken).pads[k]) && !StirredBy(who, later)
    ensures var t := PumpOnce(PumpOnce(s, taken, events, raw), freed, later, raw');
            Sits(t, who, k) && LastReport(t.log, k) == LastReport(s.log, k)
  {
    var mid := PumpOnce(s, taken, events, raw);
    QuietCycle(s, taken, events, raw, who, k);
    hide PumpOnce, Adopt, LastReport, StirredBy, StaysOpen, SlotOf;
    QuietCycle(mid, freed, later, raw', who, k);
  }

  // ---- what a cycle reports, over whole runs ----

  /** In the last cycle of a run the pad stays open in its slot, is outside the suppression set in force, and is
      stirred, or was before in a wait. */
  ghost predicate Reportable(rest: seq<Op>, last: Op, who: Identity, k: nat) {
    && last.Pump? && Sits(Run(rest), who, k) && StaysOpen(who.iid, last.events)
    && who.index.Some? && who.iid !in InForce(rest + [last]).suppressed
    && (k in Run(rest).dirty || StirredBy(who, last.events))
  }

  lemma AdoptedPublishes(rest: seq<Op>, last: Op, who: Identity, k: nat)
    requires Sits(Run(rest), who, k) && !last.Close?
    requires who.index.Some? && who.iid !in InForce(rest + [last]).suppressed
    ensures Sits(Adopt(Run(rest), last.next), who, k) && Publishes(Adopt(Run(rest), last.next).pads[k])
  {
    assert (rest + [last])[..|rest|] == rest;
    SuppressedPadsAreSilent(rest);
    AdoptSits(Run(rest), last.next, who, k);
    assert Obeys(Run(rest).pads[k], InForce(rest));
    hide Run, SlotOf;
  }

  /** Over every run, a pad stirred in a cycle leaves its receiver, at the cycle's end, with the state it has then. */
  lemma StirredIsReported(rest: seq<Op>, last: Op, who: Identity, k: nat)
    requires Reportable(rest, last, who, k)
    ensures var t := Run(rest + [last]);
            Sits(t, who, k) && LastReport(t.log, k) == Some(Current(t.pads[k], last.raw))
  {
    assert (rest + [last])[..|rest|] == rest;
    OpenPadsAreCounted(rest);
    AdoptedPublishes(rest, last, who, k);
    hide Run, Adopt, DispatchAll, Drain, StirredBy, LastReport, Current, Publishes, InForce, StaysOpen;
    assert Run(rest + [last]) == PumpOnce(Run(rest), last.next, last.events, last.raw) by { RunsOneMore(rest, last); }
    CaughtUpIff(Run(rest), last.next, last.events, last.raw, who, k);
  }

  lemma RunsOneMore(rest: seq<Op>, last: Op)
    ensures Run(rest + [last]) == Apply(Run(rest), last)
  {
    assert (rest + [last])[..|rest|] == rest;
  }

  /** Over every run: what a cycle reports of a controller stirred in it and not suppressed, just released or not,
      shows, field by field, what SDL's getters would answer after every event since the pad was opened. */
  lemma PublishedIsWhatGettersSay(before: seq<Op>, o: Opening, after: seq<Op>, k: nat, last: Op)
    requires Opens(before, o, k) && OpsStayOpen(o.who.iid, after) && Reportable(before + [o.op] + after, last, o.who, k)
    ensures var g := ControllerShadow.GettersAfter(o.seed, SinceOpening(o, after + [last]));
            var sent := LastReport(Run(before + [o.op] + after + [last]).log, k);
            sent.Some? && ControllerShadow.ReportShows(sent.value, g)
  {
    assert before + [o.op] + after + [last] == before + [o.op] + (after + [last]);
    assert OpsStayOpen(o.who.iid, after + [last]);
    hide Run, LastReport, Opens, OpsStayOpen, Current, Reportable, Sits, ControllerShadow.GettersAfter;
    hide ControllerShadow.ReportShows;
    ReportIsWhatGettersSay(before, o, after + [last], k, last.raw);
    StirredIsReported(before + [o.op] + after, last, o.who, k);
  }

  /** Over every run: what a cycle reports of a raw joystick stirred in it is its readings of that cycle, through the
      remap the newest inputs have for its model. */
  lemma JoystickReportsThroughRemap(rest: seq<Op>, last: Op, who: Identity, k: nat)
    requires Reportable(rest, last, who, k) && who.kind == Joystick
    ensures LastReport(Run(rest + [last]).log, k) ==
            Some(JoystickMapping.MapJoystick(last.raw(who.iid), RemapFor(InForce(rest + [last]), who.model)))
  {
    StirredIsReported(rest, last, who, k);
    SuppressedPadsAreSilent(rest + [last]);
    hide Run, LastReport, Reportable, InForce, SlotOf;
    var t := Run(rest + [last]);
    assert Obeys(t.pads[k], t.inputs);
  }

  // ---- one report a cycle ----

  function ReportCount(log: seq<Publication>, slot: nat): nat {
    if log == [] then 0
    else
      var p := log[|log| - 1];
      ReportCount(log[..|log| - 1], slot) + if p.slot == slot && p.what.Report? then 1 else 0
  }

  lemma {:induction false} ReportCountOfMore(log: seq<Publication>, sent: seq<Publication>, slot: nat)
    ensures ReportCount(log + sent, slot) == ReportCount(log, slot) + ReportCount(sent, slot)
  {
    if sent == [] {
      assert log + sent == log;
    } else {
      ReportCountOfMore(log, sent[..|sent| - 1], slot);
      assert (log + sent)[..|log + sent| - 1] == log + sent[..|sent| - 1];
    }
  }

  lemma {:induction false} ReportedOnce(pads: seq<Pad>, order: seq<nat>, raw: Raw, slot: nat)
    requires slot < |pads| && forall i, j :: 0 <= i < j < |order| ==> order[i] < order[j]
    ensures ReportCount(Reported(pads, order, raw), slot) == if slot in order && Publishes(pads[slot]) then 1 else 0
  {
    if order != [] {
      var n := |order| - 1;
      ReportedOnce(pads, order[..n], raw, slot);
      assert slot in order <==> slot in order[..n] || slot == order[n];
      assert ReportCount([], slot) == 0;
      hide ReportCount, Reports, Publishes, Current;
      if order[n] < |pads| {
        CountOfReports(order[n], pads[order[n]], raw, slot);
        ReportCountOfMore(Reported(pads, order[..n], raw), Reports(order[n], pads[order[n]], raw), slot);
      } else {
        ReportCountOfMore(Reported(pads, order[..n], raw), [], slot);
      }
    }
  }

  lemma CountOfReports(k: nat, pad: Pad, raw: Raw, slot: nat)
    ensures ReportCount(Reports(k, pad, raw), slot) == if k == slot && Publishes(pad) then 1 else 0
  {
    hide Current;
  }

  /** However often it moved, a marked pad that publishes is reported once at the end of the cycle, and no other. */
  lemma OneReportACycle(s: Bridge, raw: Raw, slot: nat)
    requires slot < |s.pads| <= 64
    ensures ReportCount(Drain(s, raw).log, slot) ==
            ReportCount(s.log, slot) + if slot in s.dirty && Publishes(s.pads[slot]) then 1 else 0
  {
    hide Reported, ReportCount;
    VisitsEachOnce(s.dirty, 0);
    var order := Ascending(s.dirty);
    ReportedOnce(s.pads, order, raw, slot);
    ReportCountOfMore(s.log, Reported(s.pads, order, raw), slot);
  }
}
