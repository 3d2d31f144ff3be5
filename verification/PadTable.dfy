/**
 The SDL thread's table of open pads as a state: what each SDL event does to it, what goes out to the processor at
 once and what waits for the end of the pump cycle, and what every run of cycles keeps.
 */
module PadTable {
  import opened Basics
  import opened DeviceTypes
  import opened JoystickMapping
  import ControllerShadow
  import opened DirtySet
  import opened Bits

  const MAX_PADS: nat := 32
  const TOUCHPAD_BUTTON: nat := 20

  datatype Kind = Controller | Joystick

  /** What opening a pad fixes; `index` is the processor's answer to its `add`, `model` its vendor and product. */
  datatype Identity = Identity(kind: Kind, iid: int, index: Option<nat>, motionCapable: bool, model: (int, int))

  datatype Accel = Accel(x: int16, y: int16, z: int16)

  /** What events move. */
  datatype Tracked = Tracked(shadow: ControllerShadow.Shadow, accel: Option<Accel>, touch: (Finger, Finger))

  datatype Pad = Free | Open(who: Identity, suppressed: bool, remap: Remap, state: Tracked)

  /** What the GUI hands over: the pads another path has claimed, by instance id, and the user's remaps by model. */
  datatype Inputs = Inputs(suppressed: set<int>, remaps: map<(int, int), Remap>)

  datatype What = Report(state: DeviceState) | Motion(sample: MotionSample) | Touch(frame: TouchpadSample)

  /** One call into the processor. */
  datatype Publication = Publication(slot: nat, iid: int, index: nat, what: What)

  /** A device put into the processor's table with its first dead zones, or taken out. */
  datatype RegistryCall = Register(iid: int, dz: Deadzones) | Unregister(iid: int)

  const DEFAULT_DEADZONES := Deadzones(3277, 13)

  datatype Bridge = Bridge(pads: seq<Pad>, openPads: int, dirty: set<nat>, inputs: Inputs, log: seq<Publication>,
                           calls: seq<RegistryCall>)

  /** SDL's raw joystick getters, which one pump fixes for the whole cycle. */
  type Raw = int -> Snapshot

  datatype Phase = Down | Motion | Up

  datatype Event =
    | Added(who: Identity, seed: ControllerShadow.Getters)
    | Removed(kind: Kind, iid: int)
    | Remapped(iid: int, now: ControllerShadow.Getters)
    | AxisMoved(iid: int, axis: uint8, value: int16)
    | ButtonMoved(iid: int, button: uint8, pressed: bool)
    | RawInput(iid: int)
    | AccelSample(iid: int, accel: Accel)
    | GyroSample(iid: int, x: int16, y: int16, z: int16)
    | Touchpad(iid: int, phase: Phase, finger: int, x: int16, y: int16)

  // ---- one pad ----

  function WithInputs(pad: Pad, inputs: Inputs): Pad {
    if pad.Free? then pad
    else pad.(suppressed := pad.who.iid in inputs.suppressed,
              remap := if pad.who.model in inputs.remaps then inputs.remaps[pad.who.model] else DEFAULT_REMAP)
  }

  function NewPad(who: Identity, seed: ControllerShadow.Getters, inputs: Inputs): Pad {
    var shadow :=
      if who.kind == Controller then ControllerShadow.Seeded(seed) else ControllerShadow.Shadow(seq(6, _ => 0), 0);
    WithInputs(Open(who, false, DEFAULT_REMAP, Tracked(shadow, None, (NO_TOUCH.finger0, NO_TOUCH.finger1))), inputs)
  }

  /** Only a new contact's Down takes a new tracking id; the id wraps. */
  function ApplyFinger(f: Finger, phase: Phase, x: int16, y: int16): Finger {
    if phase == Up then f.(active := false)
    else Finger(true, if phase == Down && !f.active then (f.id + 1) % 256 else f.id, x, y)
  }

  function ApplyTouch(touch: (Finger, Finger), phase: Phase, finger: int, x: int16, y: int16): (Finger, Finger) {
    if finger == 0 then (ApplyFinger(touch.0, phase, x, y), touch.1)
    else if finger == 1 then (touch.0, ApplyFinger(touch.1, phase, x, y))
    else touch
  }

  /** The change of the controller's state the event carries, if any. */
  function ChangeOf(ev: Event): ControllerShadow.Event {
    match ev
    case AxisMoved(_, axis, value) => ControllerShadow.AxisMotion(axis, value)
    case ButtonMoved(_, button, pressed) => ControllerShadow.ButtonChange(button, pressed)
    case Remapped(_, now) => ControllerShadow.Remapped(now)
    case _ => ControllerShadow.Other
  }

  /** A remap reaches only a pad opened as a controller. */
  function NextShadow(pad: Pad, ev: Event): ControllerShadow.Shadow
    requires pad.Open?
  {
    if ev.Remapped? && pad.who.kind != Controller then pad.state.shadow
    else ControllerShadow.Applied(pad.state.shadow, ChangeOf(ev))
  }

  function NextAccel(pad: Pad, ev: Event): Option<Accel>
    requires pad.Open?
  {
    if ev.AccelSample? && pad.who.motionCapable then Some(ev.accel) else pad.state.accel
  }

  function NextTouch(pad: Pad, ev: Event): (Finger, Finger)
    requires pad.Open?
  {
    if ev.Touchpad? then ApplyTouch(pad.state.touch, ev.phase, ev.finger, ev.x, ev.y) else pad.state.touch
  }

  /** What an event addressed to an open pad makes of it. */
  function NextPad(pad: Pad, ev: Event): Pad
    requires pad.Open?
  {
    if ev.Removed? && ev.kind == pad.who.kind then Free
    else pad.(state := Tracked(NextShadow(pad, ev), NextAccel(pad, ev), NextTouch(pad, ev)))
  }

  /** Whether the pad has to be reported at the end of the cycle. */
  predicate Marks(pad: Pad, ev: Event)
    requires pad.Open?
  {
    || (ev.Remapped? && pad.who.kind == Controller)
    || ((ev.AxisMoved? || ev.ButtonMoved?) && ControllerShadow.Keeps(ChangeOf(ev)))
    || (ev.RawInput? && pad.who.kind == Joystick)
  }

  predicate Publishes(pad: Pad) {
    pad.Open? && !pad.suppressed && pad.who.index.Some?
  }

  /** The report an open pad's state amounts to. */
  function Current(pad: Pad, raw: Raw): DeviceState
    requires pad.Open?
  {
    if pad.who.kind == Controller then
      MapGamepad(ControllerShadow.SnapshotOf(pad.state.shadow.axes, Members(pad.state.shadow.buttons)))
    else MapJoystick(raw(pad.who.iid), pad.remap)
  }

  function Publish(slot: nat, pad: Pad, what: What): seq<Publication> {
    if Publishes(pad) then [Publication(slot, pad.who.iid, pad.who.index.value, what)] else []
  }

  function Reports(slot: nat, pad: Pad, raw: Raw): seq<Publication> {
    if pad.Open? then Publish(slot, pad, Report(Current(pad, raw))) else []
  }

  /** What an event sends at once: a gyro sample with the accel cached beside it, or a touch frame. */
  function Sends(slot: nat, pad: Pad, ev: Event): seq<Publication> {
    if pad.Free? then []
    else match ev
      case GyroSample(_, x, y, z) =>
        if pad.who.motionCapable && pad.state.accel.Some? then
          var a := pad.state.accel.value;
          Publish(slot, pad, What.Motion(MotionSample(x, y, z, a.x, a.y, a.z)))
        else []
      case Touchpad(_, _, _, _, _) =>
        var pressed := ControllerShadow.Pressed(pad.state.shadow.buttons, TOUCHPAD_BUTTON);
        Publish(slot, pad, Touch(TouchpadSample(pad.state.touch.0, pad.state.touch.1, pressed, 0)))
      case _ => []
  }

  // ---- the table ----

  /** The lowest slot of the pad with this instance id. */
  function SlotOf(pads: seq<Pad>, iid: int, from: nat := 0): Option<nat>
    decreases |pads| - from
  {
    if from >= |pads| then None
    else if pads[from].Open? && pads[from].who.iid == iid then Some(from)
    else SlotOf(pads, iid, from + 1)
  }

  function FirstFree(pads: seq<Pad>, from: nat := 0): Option<nat>
    decreases |pads| - from
  {
    if from >= |pads| then None
    else if pads[from].Free? then Some(from)
    else FirstFree(pads, from + 1)
  }

  lemma {:induction false} SlotOfFinds(pads: seq<Pad>, iid: int, from: nat)
    ensures match SlotOf(pads, iid, from)
            case Some(k) =>
              && from <= k < |pads| && pads[k].Open? && pads[k].who.iid == iid
              && forall j :: from <= j < k ==> !(pads[j].Open? && pads[j].who.iid == iid)
            case None => forall j :: from <= j < |pads| ==> !(pads[j].Open? && pads[j].who.iid == iid)
    decreases |pads| - from
  {
    if from < |pads| { SlotOfFinds(pads, iid, from + 1); }
  }

  lemma {:induction false} FirstFreeFinds(pads: seq<Pad>, from: nat)
    ensures match FirstFree(pads, from)
            case Some(k) => from <= k < |pads| && pads[k].Free? && forall j :: from <= j < k ==> pads[j].Open?
            case None => forall j :: from <= j < |pads| ==> pads[j].Open?
    decreases |pads| - from
  {
    if from < |pads| { FirstFreeFinds(pads, from + 1); }
  }

  /** What an event does: the slot it reaches, the pad it leaves there, whether a report is owed, what it sends now. */
  datatype Effect = Nothing | Effect(slot: nat, pad: Pad, mark: bool, sent: seq<Publication>)

  function EffectOf(pads: seq<Pad>, inputs: Inputs, ev: Event, raw: Raw): (e: Effect)
    ensures e.Effect? ==> e.slot < |pads|
  {
    if ev.Added? then
      FirstFreeFinds(pads, 0);
      match FirstFree(pads)
      case None => Nothing
      case Some(k) => var pad := NewPad(ev.who, ev.seed, inputs); Effect(k, pad, false, Reports(k, pad, raw))
    else
      SlotOfFinds(pads, ev.iid, 0);
      match SlotOf(pads, ev.iid)
      case None => Nothing
      case Some(k) => var pad := NextPad(pads[k], ev); Effect(k, pad, Marks(pads[k], ev), Sends(k, pad, ev))
  }

  function OpenCount(pad: Pad): int {
    if pad.Open? then 1 else 0
  }

  /** A pad that opens is registered, one that closes is taken out. */
  function CallsFor(before: Pad, after: Pad): seq<RegistryCall> {
    if before.Free? && after.Open? then [Register(after.who.iid, DEFAULT_DEADZONES)]
    else if before.Open? && after.Free? then [Unregister(before.who.iid)]
    else []
  }

  function Dispatch(s: Bridge, ev: Event, raw: Raw): Bridge {
    match EffectOf(s.pads, s.inputs, ev, raw)
    case Nothing => s
    case Effect(k, pad, mark, sent) =>
      Bridge(s.pads[k := pad], s.openPads + OpenCount(pad) - OpenCount(s.pads[k]),
             if mark then s.dirty + {k} else s.dirty, s.inputs, s.log + sent, s.calls + CallsFor(s.pads[k], pad))
  }

  function DispatchAll(s: Bridge, events: seq<Event>, raw: Raw): Bridge {
    if events == [] then s else Dispatch(DispatchAll(s, events[..|events| - 1], raw), events[|events| - 1], raw)
  }

  /** The reports of the slots visited, in order. */
  function Reported(pads: seq<Pad>, order: seq<nat>, raw: Raw): seq<Publication> {
    if order == [] then []
    else
      var k := order[|order| - 1];
      Reported(pads, order[..|order| - 1], raw) + if k < |pads| then Reports(k, pads[k], raw) else []
  }

  /** One report for each pad that moved. */
  function Drain(s: Bridge, raw: Raw): Bridge {
    s.(dirty := {}, log := s.log + Reported(s.pads, Ascending(s.dirty), raw))
  }

  function AdoptPads(pads: seq<Pad>, inputs: Inputs): seq<Pad> {
    seq(|pads|, i requires 0 <= i < |pads| => WithInputs(pads[i], inputs))
  }

  function Adopt(s: Bridge, next: Option<Inputs>): Bridge {
    if next.None? then s else s.(pads := AdoptPads(s.pads, next.value), inputs := next.value)
  }

  function PumpOnce(s: Bridge, next: Option<Inputs>, events: seq<Event>, raw: Raw): Bridge {
    Drain(DispatchAll(Adopt(s, next), events, raw), raw)
  }

  function CountOpen(pads: seq<Pad>): nat {
    if pads == [] then 0 else CountOpen(pads[..|pads| - 1]) + OpenCount(pads[|pads| - 1])
  }

  function CloseCalls(pads: seq<Pad>): seq<RegistryCall> {
    if pads == [] then [] else CloseCalls(pads[..|pads| - 1]) + CallsFor(pads[|pads| - 1], Free)
  }

  function CloseAll(s: Bridge): Bridge {
    s.(pads := seq(|s.pads|, _ => Free), openPads := s.openPads - CountOpen(s.pads), dirty := {},
       calls := s.calls + CloseCalls(s.pads))
  }

  // ---- runs ----

  /** A cycle, the wait for an event while no pad is open, or the end of the loop. */
  datatype Op =
    | Pump(next: Option<Inputs>, events: seq<Event>, raw: Raw)
    | Wait(next: Option<Inputs>, events: seq<Event>, raw: Raw)
    | Close

  function Start(): Bridge {
    Bridge(seq(MAX_PADS, _ => Free), 0, {}, Inputs({}, map[]), [], [])
  }

  function Apply(s: Bridge, op: Op): Bridge {
    match op
    case Pump(next, events, raw) => PumpOnce(s, next, events, raw)
    case Wait(next, events, raw) => DispatchAll(Adopt(s, next), events, raw)
    case Close => CloseAll(s)
  }

  function Run(ops: seq<Op>): Bridge {
    if ops == [] then Start() else Apply(Run(ops[..|ops| - 1]), ops[|ops| - 1])
  }

  // ---- the counter ----

  ghost predicate Counted(s: Bridge) {
    |s.pads| == MAX_PADS && s.openPads == CountOpen(s.pads)
  }

  lemma {:induction false} CountOpenUpdate(pads: seq<Pad>, k: nat, pad: Pad)
    requires k < |pads|
    ensures CountOpen(pads[k := pad]) == CountOpen(pads) + OpenCount(pad) - OpenCount(pads[k])
  {
    var n := |pads| - 1;
    if k < n {
      CountOpenUpdate(pads[..n], k, pad);
      assert pads[k := pad][..n] == pads[..n][k := pad];
    } else {
      assert pads[k := pad][..n] == pads[..n];
    }
  }

  lemma {:induction false} CountOpenSame(pads: seq<Pad>, others: seq<Pad>)
    requires |pads| == |others| && forall i :: 0 <= i < |pads| ==> pads[i].Open? == others[i].Open?
    ensures CountOpen(pads) == CountOpen(others) <= |pads|
  {
    if pads != [] { CountOpenSame(pads[..|pads| - 1], others[..|pads| - 1]); }
  }

  lemma {:induction false} CountOpenNone(n: nat)
    ensures CountOpen(seq(n, _ => Free)) == 0
  {
    if n > 0 {
      CountOpenNone(n - 1);
      assert seq(n, _ => Free)[..n - 1] == seq(n - 1, _ => Free);
    }
  }

  lemma DispatchKeepsCount(s: Bridge, ev: Event, raw: Raw)
    requires Counted(s)
    ensures Counted(Dispatch(s, ev, raw))
  {
    hide EffectOf;
    var e := EffectOf(s.pads, s.inputs, ev, raw);
    if e.Effect? { CountOpenUpdate(s.pads, e.slot, e.pad); }
  }

  lemma {:induction false} DispatchAllKeepsCount(s: Bridge, events: seq<Event>, raw: Raw)
    requires Counted(s)
    ensures Counted(DispatchAll(s, events, raw))
  {
    if events != [] {
      hide Counted, Dispatch;
      DispatchAllKeepsCount(s, events[..|events| - 1], raw);
      DispatchKeepsCount(DispatchAll(s, events[..|events| - 1], raw), events[|events| - 1], raw);
    }
  }

  lemma AdoptKeepsCount(s: Bridge, next: Option<Inputs>)
    requires Counted(s)
    ensures Counted(Adopt(s, next))
  {
    if next.Some? { CountOpenSame(s.pads, AdoptPads(s.pads, next.value)); }
  }

  /** Over every run the counter is the number of pads open, which never passes the table's size. */
  lemma {:induction false} OpenPadsAreCounted(ops: seq<Op>)
    ensures Counted(Run(ops)) && 0 <= Run(ops).openPads <= MAX_PADS
  {
    if ops == [] {
      CountOpenNone(MAX_PADS);
    } else {
      hide DispatchAll, AdoptPads, Reported;
      var s, op := Run(ops[..|ops| - 1]), ops[|ops| - 1];
      OpenPadsAreCounted(ops[..|ops| - 1]);
      CountOpenNone(MAX_PADS);
      if !op.Close? {
        AdoptKeepsCount(s, op.next);
        DispatchAllKeepsCount(Adopt(s, op.next), op.events, op.raw);
      }
      CountOpenSame(Run(ops).pads, Run(ops).pads);
    }
  }

  // ---- the processor's side ----

  /** How many more times a pad was registered than taken out. */
  function Balance(calls: seq<RegistryCall>, iid: int): int {
    if calls == [] then 0
    else
      var call := calls[|calls| - 1];
      Balance(calls[..|calls| - 1], iid) + if call.iid != iid then 0 else if call.Register? then 1 else -1
  }

  predicate IsPad(pad: Pad, iid: int) {
    pad.Open? && pad.who.iid == iid
  }

  /** The open pads with this instance id. */
  function OpenAs(pads: seq<Pad>, iid: int): nat {
    if pads == [] then 0 else OpenAs(pads[..|pads| - 1], iid) + if IsPad(pads[|pads| - 1], iid) then 1 else 0
  }

  lemma {:induction false} BalanceOfMore(calls: seq<RegistryCall>, more: seq<RegistryCall>, iid: int)
    ensures Balance(calls + more, iid) == Balance(calls, iid) + Balance(more, iid)
  {
    if more == [] {
      assert calls + more == calls;
    } else {
      BalanceOfMore(calls, more[..|more| - 1], iid);
      assert (calls + more)[..|calls + more| - 1] == calls + more[..|more| - 1];
    }
  }

  lemma {:induction false} OpenAsUpdate(pads: seq<Pad>, k: nat, pad: Pad, iid: int)
    requires k < |pads|
    ensures OpenAs(pads[k := pad], iid) ==
            OpenAs(pads, iid) + (if IsPad(pad, iid) then 1 else 0) - (if IsPad(pads[k], iid) then 1 else 0)
  {
    var n := |pads| - 1;
    if k < n {
      OpenAsUpdate(pads[..n], k, pad, iid);
      assert pads[k := pad][..n] == pads[..n][k := pad];
    } else {
      assert pads[k := pad][..n] == pads[..n];
    }
  }

  lemma {:induction false} OpenAsSame(pads: seq<Pad>, others: seq<Pad>, iid: int)
    requires |pads| == |others| && forall i :: 0 <= i < |pads| ==> IsPad(pads[i], iid) == IsPad(others[i], iid)
    ensures OpenAs(pads, iid) == OpenAs(others, iid)
  {
    if pads != [] { OpenAsSame(pads[..|pads| - 1], others[..|pads| - 1], iid); }
  }

  lemma {:induction false} CloseCallsBalance(pads: seq<Pad>, iid: int)
    ensures Balance(CloseCalls(pads), iid) + OpenAs(pads, iid) == 0
  {
    if pads != [] {
      var n := |pads| - 1;
      CloseCallsBalance(pads[..n], iid);
      BalanceOfMore(CloseCalls(pads[..n]), CallsFor(pads[n], Free), iid);
    }
  }

  lemma {:induction false} OpenAsNone(n: nat, iid: int)
    ensures OpenAs(seq(n, _ => Free), iid) == 0
  {
    if n > 0 {
      OpenAsNone(n - 1, iid);
      assert seq(n, _ => Free)[..n - 1] == seq(n - 1, _ => Free);
    }
  }

  ghost predicate Registered(s: Bridge, iid: int) {
    Balance(s.calls, iid) == OpenAs(s.pads, iid)
  }

  /** An event leaves the pad it reaches under the same identity, opens a free slot or frees it. */
  lemma EffectKeepsIdentity(pads: seq<Pad>, inputs: Inputs, ev: Event, raw: Raw)
    ensures var e := EffectOf(pads, inputs, ev, raw);
            e.Effect? && e.pad.Open? && pads[e.slot].Open? ==> e.pad.who == pads[e.slot].who
  {
    hide SlotOf, FirstFree, NextShadow, NextAccel, NextTouch, Reports, Sends;
    FirstFreeFinds(pads, 0);
  }

  lemma DispatchStaysRegistered(s: Bridge, ev: Event, raw: Raw, iid: int)
    requires Registered(s, iid)
    ensures Registered(Dispatch(s, ev, raw), iid)
  {
    var e := EffectOf(s.pads, s.inputs, ev, raw);
    EffectKeepsIdentity(s.pads, s.inputs, ev, raw);
    hide EffectOf;
    if e.Effect? {
      OpenAsUpdate(s.pads, e.slot, e.pad, iid);
      BalanceOfMore(s.calls, CallsFor(s.pads[e.slot], e.pad), iid);
    }
  }

  lemma {:induction false} DispatchAllStaysRegistered(s: Bridge, events: seq<Event>, raw: Raw, iid: int)
    requires Registered(s, iid)
    ensures Registered(DispatchAll(s, events, raw), iid)
  {
    if events != [] {
      hide Registered, Dispatch;
      DispatchAllStaysRegistered(s, events[..|events| - 1], raw, iid);
      DispatchStaysRegistered(DispatchAll(s, events[..|events| - 1], raw), events[|events| - 1], raw, iid);
    }
  }

  /** Every registration asks for the default dead zones. */
  ghost predicate WithDefaults(calls: seq<RegistryCall>) {
    forall i :: 0 <= i < |calls| && calls[i].Register? ==> calls[i].dz == DEFAULT_DEADZONES
  }

  lemma {:induction false} CloseCallsRegisterNone(pads: seq<Pad>)
    ensures WithDefaults(CloseCalls(pads))
  {
    if pads != [] { CloseCallsRegisterNone(pads[..|pads| - 1]); }
  }

  lemma {:induction false} DispatchAllWithDefaults(s: Bridge, events: seq<Event>, raw: Raw)
    requires WithDefaults(s.calls)
    ensures WithDefaults(DispatchAll(s, events, raw).calls)
  {
    if events != [] {
      hide EffectOf;
      DispatchAllWithDefaults(s, events[..|events| - 1], raw);
    }
  }

  /** Over every run the pads registered with the processor and not taken out are exactly the open ones, and each was
      registered with the default dead zones. */
  lemma {:induction false} OpenPadsAreRegistered(ops: seq<Op>, iid: int)
    ensures Registered(Run(ops), iid) && WithDefaults(Run(ops).calls)
  {
    if ops == [] {
      OpenAsNone(MAX_PADS, iid);
    } else {
      var s, op := Run(ops[..|ops| - 1]), ops[|ops| - 1];
      OpenPadsAreRegistered(ops[..|ops| - 1], iid);
      if op.Close? {
        CloseCallsBalance(s.pads, iid);
        CloseCallsRegisterNone(s.pads);
        BalanceOfMore(s.calls, CloseCalls(s.pads), iid);
        OpenAsNone(|s.pads|, iid);
      } else {
        if op.next.Some? { OpenAsSame(s.pads, AdoptPads(s.pads, op.next.value), iid); }
        assert Registered(Adopt(s, op.next), iid);
        assert WithDefaults(Adopt(s, op.next).calls);
        hide DispatchAll, Adopt, Reported;
        DispatchAllStaysRegistered(Adopt(s, op.next), op.events, op.raw, iid);
        DispatchAllWithDefaults(Adopt(s, op.next), op.events, op.raw);
      }
    }
  }

  // ---- opening and closing ----

  /** An added pad takes the lowest free slot and is registered and reported at once, unless it is suppressed or has no
      record; with no slot free it is not opened. */
  lemma AddedOpens(s: Bridge, who: Identity, seed: ControllerShadow.Getters, raw: Raw)
    ensures var t := Dispatch(s, Added(who, seed), raw);
            match FirstFree(s.pads)
            case None => t == s && forall j :: 0 <= j < |s.pads| ==> s.pads[j].Open?
            case Some(k) =>
              && k < |t.pads| == |s.pads| && s.pads[k].Free? && (forall j :: 0 <= j < k ==> s.pads[j].Open?)
              && t.pads[k].Open? && t.pads[k].who == who && t.pads == s.pads[k := t.pads[k]]
              && t.openPads == s.openPads + 1 && t.calls == s.calls + [Register(who.iid, DEFAULT_DEADZONES)]
              && t.log == s.log +
                 if who.index.None? || who.iid in s.inputs.suppressed then []
                 else [Publication(k, who.iid, who.index.value, Report(Current(t.pads[k], raw)))]
  {
    hide FirstFree, Current, ControllerShadow.Seeded;
    FirstFreeFinds(s.pads, 0);
  }

  /** A removal closes the pad it names, if that was opened on the same path, and takes it out of the processor; any
      other changes nothing. */
  lemma RemovedCloses(s: Bridge, kind: Kind, iid: int, raw: Raw)
    ensures var t := Dispatch(s, Removed(kind, iid), raw);
            match SlotOf(s.pads, iid)
            case None => t == s && forall j :: 0 <= j < |s.pads| ==> !IsPad(s.pads[j], iid)
            case Some(k) =>
              && k < |s.pads| && IsPad(s.pads[k], iid) && t.log == s.log && t.dirty == s.dirty
              && (if s.pads[k].who.kind == kind
                  then t.pads == s.pads[k := Free] && t.openPads == s.openPads - 1
                       && t.calls == s.calls + [Unregister(iid)]
                  else t == s)
  {
    hide SlotOf;
    SlotOfFinds(s.pads, iid, 0);
    assert s.log + [] == s.log && s.calls + [] == s.calls;
    assert forall k :: 0 <= k < |s.pads| ==> s.pads[k := s.pads[k]] == s.pads;
  }

  /** The end of the loop leaves no pad open, counted or marked, and sends nothing. */
  lemma CloseEndsAll(ops: seq<Op>)
    ensures var s, t := Run(ops), Run(ops + [Close]);
            && |t.pads| == MAX_PADS && (forall k :: 0 <= k < MAX_PADS ==> t.pads[k].Free?)
            && t.openPads == 0 && t.dirty == {} && t.log == s.log
  {
    assert (ops + [Close])[..|ops|] == ops;
    OpenPadsAreCounted(ops);
    hide CountOpen, CloseCalls;
  }

  // ---- suppression ----

  /** The newest inputs a run has adopted. */
  function InForce(ops: seq<Op>): Inputs {
    if ops == [] then Inputs({}, map[])
    else
      var op := ops[|ops| - 1];
      if !op.Close? && op.next.Some? then op.next.value else InForce(ops[..|ops| - 1])
  }

  /** The remap the user has for a model, or the default one. */
  function RemapFor(inputs: Inputs, model: (int, int)): Remap {
    if model in inputs.remaps then inputs.remaps[model] else DEFAULT_REMAP
  }

  /** An open pad's flag and remap are what the inputs say. */
  ghost predicate Obeys(pad: Pad, inputs: Inputs) {
    pad.Open? ==>
      && (pad.suppressed <==> pad.who.iid in inputs.suppressed)
      && pad.remap == RemapFor(inputs, pad.who.model)
  }

  ghost predicate Flagged(s: Bridge) {
    forall k :: 0 <= k < |s.pads| ==> Obeys(s.pads[k], s.inputs)
  }

  /** Everything in the list is from pads the inputs leave alone. */
  ghost predicate Allowed(sent: seq<Publication>, inputs: Inputs) {
    forall i :: 0 <= i < |sent| ==> sent[i].iid !in inputs.suppressed
  }

  lemma DispatchStaysFlagged(s: Bridge, ev: Event, raw: Raw)
    requires Flagged(s)
    ensures Flagged(Dispatch(s, ev, raw)) && Dispatch(s, ev, raw).inputs == s.inputs
    ensures s.log <= Dispatch(s, ev, raw).log && Allowed(Dispatch(s, ev, raw).log[|s.log|..], s.inputs)
  {
    hide Current, NextShadow, NextAccel, NextTouch;
    EffectStaysFlagged(s.pads, s.inputs, ev, raw);
  }

  lemma EffectStaysFlagged(pads: seq<Pad>, inputs: Inputs, ev: Event, raw: Raw)
    requires forall k :: 0 <= k < |pads| ==> Obeys(pads[k], inputs)
    ensures var e := EffectOf(pads, inputs, ev, raw); e.Effect? ==> Allowed(e.sent, inputs) && Obeys(e.pad, inputs)
  {
    hide Current, NextShadow, NextAccel, NextTouch, SlotOf, FirstFree;
    if !ev.Added? { SlotOfFinds(pads, ev.iid, 0); }
  }

  lemma {:induction false} DispatchAllStaysFlagged(s: Bridge, events: seq<Event>, raw: Raw)
    requires Flagged(s)
    ensures var t := DispatchAll(s, events, raw);
            Flagged(t) && t.inputs == s.inputs && s.log <= t.log && Allowed(t.log[|s.log|..], s.inputs)
  {
    if events != [] {
      hide Flagged, Dispatch;
      var t := DispatchAll(s, events[..|events| - 1], raw);
      DispatchAllStaysFlagged(s, events[..|events| - 1], raw);
      DispatchStaysFlagged(t, events[|events| - 1], raw);
    }
  }

  lemma {:induction false} ReportedIsAllowed(s: Bridge, order: seq<nat>, raw: Raw)
    requires Flagged(s)
    ensures Allowed(Reported(s.pads, order, raw), s.inputs)
  {
    if order != [] { ReportedIsAllowed(s, order[..|order| - 1], raw); }
  }

  /** In every run each open pad has the flag and the remap of the newest inputs adopted, and whatever an op publishes
      is from pads outside the suppression set it ran under: from the adoption of a set until the adoption of one
      without the pad, nothing of the pad goes out. */
  lemma {:induction false} SuppressedPadsAreSilent(ops: seq<Op>)
    ensures Flagged(Run(ops)) && Run(ops).inputs == InForce(ops)
    ensures ops != [] ==>
              var s, t := Run(ops[..|ops| - 1]), Run(ops);
              s.log <= t.log && Allowed(t.log[|s.log|..], InForce(ops))
  {
    if ops != [] {
      var s, op := Run(ops[..|ops| - 1]), ops[|ops| - 1];
      SuppressedPadsAreSilent(ops[..|ops| - 1]);
      if !op.Close? {
        OpStaysFlagged(s, op);
      }
    }
  }

  lemma OpStaysFlagged(s: Bridge, op: Op)
    requires Flagged(s) && !op.Close?
    ensures var t := Apply(s, op);
            && Flagged(t) && t.inputs == (if op.next.Some? then op.next.value else s.inputs)
            && s.log <= t.log && Allowed(t.log[|s.log|..], t.inputs)
  {
    var a := Adopt(s, op.next);
    assert Flagged(a);
    DispatchAllStaysFlagged(a, op.events, op.raw);
    var d := DispatchAll(a, op.events, op.raw);
    hide DispatchAll, Adopt;
    ReportedIsAllowed(d, Ascending(d.dirty), op.raw);
    hide Reported;
  }

  // ---- suppression loses nothing ----

  function Unflagged(pad: Pad): Pad {
    if pad.Free? then pad else pad.(suppressed := false)
  }

  /** The same pads in the same states, whatever is suppressed in each. */
  ghost predicate Alike(s: Bridge, t: Bridge) {
    && |s.pads| == |t.pads| && s.openPads == t.openPads && s.dirty == t.dirty && s.inputs.remaps == t.inputs.remaps
    && forall k :: 0 <= k < |s.pads| ==> Unflagged(s.pads[k]) == Unflagged(t.pads[k])
  }

  /** The same events under different suppression sets. */
  ghost predicate AlikeOps(a: Op, b: Op) {
    match (a, b)
    case (Pump(next1, events1, raw1), Pump(next2, events2, raw2)) => AlikeInputs(next1, next2) && events1 == events2
    case (Wait(next1, events1, raw1), Wait(next2, events2, raw2)) => AlikeInputs(next1, next2) && events1 == events2
    case (Close, Close) => true
    case _ => false
  }

  ghost predicate AlikeInputs(a: Option<Inputs>, b: Option<Inputs>) {
    a.Some? == b.Some? && (a.Some? ==> a.value.remaps == b.value.remaps)
  }

  lemma {:induction false} SlotOfAlike(p: seq<Pad>, q: seq<Pad>, iid: int, from: nat)
    requires |p| == |q| && forall k :: 0 <= k < |p| ==> Unflagged(p[k]) == Unflagged(q[k])
    ensures SlotOf(p, iid, from) == SlotOf(q, iid, from) && FirstFree(p, from) == FirstFree(q, from)
    decreases |p| - from
  {
    if from < |p| { SlotOfAlike(p, q, iid, from + 1); }
  }

  lemma DispatchAlike(s: Bridge, t: Bridge, ev: Event, raw1: Raw, raw2: Raw)
    requires Alike(s, t)
    ensures Alike(Dispatch(s, ev, raw1), Dispatch(t, ev, raw2))
  {
    var e, f := EffectOf(s.pads, s.inputs, ev, raw1), EffectOf(t.pads, t.inputs, ev, raw2);
    EffectsAlike(s.pads, t.pads, s.inputs, t.inputs, ev, raw1, raw2);
    hide EffectOf;
  }

  lemma EffectsAlike(p: seq<Pad>, q: seq<Pad>, i: Inputs, j: Inputs, ev: Event, raw1: Raw, raw2: Raw)
    requires |p| == |q| && i.remaps == j.remaps && forall k :: 0 <= k < |p| ==> Unflagged(p[k]) == Unflagged(q[k])
    ensures var e, f := EffectOf(p, i, ev, raw1), EffectOf(q, j, ev, raw2);
            && e.Effect? == f.Effect?
            && (e.Effect? ==> e.slot == f.slot && Unflagged(e.pad) == Unflagged(f.pad) && e.mark == f.mark)
  {
    hide SlotOf, FirstFree, Reports, Sends;
    SlotOfAlike(p, q, if ev.Added? then 0 else ev.iid, 0);
    if !ev.Added? { SlotOfFinds(p, ev.iid, 0); }
  }

  lemma {:induction false} DispatchAllAlike(s: Bridge, t: Bridge, events: seq<Event>, raw1: Raw, raw2: Raw)
    requires Alike(s, t)
    ensures Alike(DispatchAll(s, events, raw1), DispatchAll(t, events, raw2))
  {
    if events != [] {
      hide Alike, Dispatch;
      var rest := events[..|events| - 1];
      DispatchAllAlike(s, t, rest, raw1, raw2);
      DispatchAlike(DispatchAll(s, rest, raw1), DispatchAll(t, rest, raw2), events[|events| - 1], raw1, raw2);
    }
  }

  lemma ApplyAlike(s: Bridge, t: Bridge, a: Op, b: Op)
    requires Alike(s, t) && AlikeOps(a, b)
    ensures Alike(Apply(s, a), Apply(t, b))
  {
    if a.Close? {
      CountOpenSame(s.pads, t.pads);
    } else {
      assert Alike(Adopt(s, a.next), Adopt(t, b.next));
      DispatchAllAlike(Adopt(s, a.next), Adopt(t, b.next), a.events, a.raw, b.raw);
      hide DispatchAll, Adopt, Reported;
    }
  }

  /** Two runs of the same events under any two suppression histories leave every pad in the same state, so a pad's
      first report once it is let go is the one it would have made had it never been suppressed. */
  lemma {:induction false} SuppressionLosesNothing(ops: seq<Op>, others: seq<Op>)
    requires |ops| == |others| && forall i :: 0 <= i < |ops| ==> AlikeOps(ops[i], others[i])
    ensures Alike(Run(ops), Run(others))
    ensures forall k, raw :: 0 <= k < |Run(ops).pads| && Run(ops).pads[k].Open? ==>
              && k < |Run(others).pads| && Run(others).pads[k].Open?
              && Current(Run(ops).pads[k], raw) == Current(Run(others).pads[k], raw)
  {
    if ops != [] {
      hide Alike, AlikeOps, Apply;
      var n := |ops| - 1;
      SuppressionLosesNothing(ops[..n], others[..n]);
      ApplyAlike(Run(ops[..n]), Run(others[..n]), ops[n], others[n]);
    }
    AlikeReports(Run(ops), Run(others));
  }

  lemma AlikeReports(s: Bridge, t: Bridge)
    requires Alike(s, t)
    ensures forall k, raw :: 0 <= k < |s.pads| && s.pads[k].Open? ==>
              k < |t.pads| && t.pads[k].Open? && Current(s.pads[k], raw) == Current(t.pads[k], raw)
  {
  }
}
