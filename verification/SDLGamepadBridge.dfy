/** The SDL bridge as an object: its array of pads, its counter and its dirty set, changed in place event by event. */
module SDLGamepadBridge {
  import opened Basics
  import opened DeviceTypes
  import JoystickMapping
  import ControllerShadow
  import opened Bits
  import DirtySet
  import opened PadTable

  /** The pads once those below `n` are closed. */
  function ClosedTo(pads: seq<Pad>, n: nat): (r: seq<Pad>)
    ensures |r| == |pads|
  {
    seq(|pads|, i requires 0 <= i < |pads| => if i < n then Free else pads[i])
  }

  /** A sensor event touches nothing of a pad but its accel cache. */
  lemma SensorLeaves(pad: Pad, ev: Event)
    requires pad.Open? && (ev.AccelSample? || ev.GyroSample?)
    ensures !Marks(pad, ev)
    ensures NextPad(pad, ev) ==
            if ev.AccelSample? && pad.who.motionCapable then pad.(state := pad.state.(accel := Some(ev.accel)))
            else pad
  {
  }

  class SDLGamepadBridge {
    const pads: array<Pad>
    const dirty: DirtySet.DirtySet
    var openPads: int
    var inputs: Inputs
    /** The calls made into the processor, in order. */
    ghost var log: seq<Publication>
    /** The devices put into its table and taken out, in order. */
    ghost var calls: seq<RegistryCall>

    ghost predicate Valid()
      reads this, dirty
    {
      pads.Length == MAX_PADS && dirty.slots == MAX_PADS && dirty.Valid()
    }

    ghost function Value(): Bridge
      reads this, pads, dirty
    {
      Bridge(pads[..], openPads, Members(dirty.bits), inputs, log, calls)
    }

    constructor ()
      ensures Valid() && fresh(pads) && fresh(dirty) && Value() == Start()
    {
      pads := new Pad[MAX_PADS](_ => Free);
      dirty := new DirtySet.DirtySet(MAX_PADS);
      openPads, inputs, log, calls := 0, Inputs({}, map[]), [], [];
    }

    method FindSlot(iid: int) returns (slot: Option<nat>)
      requires Valid()
      ensures slot == SlotOf(pads[..], iid)
      ensures slot.Some? ==> slot.value < pads.Length && pads[slot.value].Open?
    {
      var i := 0;
      while i < pads.Length
        invariant 0 <= i <= pads.Length && SlotOf(pads[..], iid) == SlotOf(pads[..], iid, i)
      {
        if pads[i].Open? && pads[i].who.iid == iid { return Some(i); }
        i := i + 1;
      }
      return None;
    }

    /** The lowest free slot, taken for the pad, or none when the table is full. */
    method ClaimPad(pad: Pad) returns (slot: Option<nat>)
      requires Valid() && pad.Open?
      modifies this`openPads, pads
      ensures Valid() && slot == FirstFree(old(pads[..]))
      ensures slot.Some? ==>
                && slot.value < pads.Length && pads[..] == old(pads[..])[slot.value := pad]
                && openPads == old(openPads) + 1
      ensures slot.None? ==> pads[..] == old(pads[..]) && openPads == old(openPads)
    {
      var i := 0;
      while i < pads.Length
        invariant 0 <= i <= pads.Length && pads[..] == old(pads[..]) && openPads == old(openPads)
        invariant FirstFree(pads[..]) == FirstFree(pads[..], i)
      {
        if pads[i].Free? {
          pads[i] := pad;
          openPads := openPads + 1;
          return Some(i);
        }
        i := i + 1;
      }
      return None;
    }

    method ReleasePad(slot: nat)
      requires Valid() && slot < pads.Length
      modifies this`openPads, this`calls, pads
      ensures Valid() && pads[..] == old(pads[..])[slot := Free] && openPads == old(openPads) - 1
      ensures calls == old(calls) + CallsFor(old(pads[slot]), Free)
    {
      if pads[slot].Open? { calls := calls + [Unregister(pads[slot].who.iid)]; }
      pads[slot] := Free;
      openPads := openPads - 1;
    }

    /** Newer inputs, if there are any, replace the old and reach each pad that is open. */
    method AdoptInputs(next: Option<Inputs>)
      requires Valid()
      modifies this`inputs, pads
      ensures Valid() && Value() == Adopt(old(Value()), next)
    {
      if next.None? { return; }
      inputs := next.value;
      ghost var was := pads[..];
      var i := 0;
      while i < pads.Length
        invariant 0 <= i <= pads.Length && inputs == next.value
        invariant forall j :: 0 <= j < i ==> pads[j] == WithInputs(was[j], inputs)
        invariant forall j :: i <= j < pads.Length ==> pads[j] == was[j]
      {
        if pads[i].Open? { pads[i] := WithInputs(pads[i], inputs); }
        i := i + 1;
      }
    }

    ghost method Send(sent: seq<Publication>)
      modifies this`log
      ensures log == old(log) + sent
    {
      log := log + sent;
    }

    method Rebuild(slot: nat, raw: Raw)
      requires Valid() && slot < pads.Length
      modifies this`log
      ensures log == old(log) + Reports(slot, pads[slot], raw)
    {
      var pad := pads[slot];
      if pad.Free? || pad.suppressed || pad.who.index.None? { return; }
      if pad.who.kind == Controller {
        var snap := ControllerShadow.SnapshotOf(pad.state.shadow.axes, Members(pad.state.shadow.buttons));
        Send([Publication(slot, pad.who.iid, pad.who.index.value, Report(JoystickMapping.MapGamepad(snap)))]);
      } else {
        Send([Publication(slot, pad.who.iid, pad.who.index.value,
          Report(JoystickMapping.MapJoystick(raw(pad.who.iid), pad.remap)))]);
      }
    }

    method OnAdded(who: Identity, seed: ControllerShadow.Getters, raw: Raw)
      requires Valid()
      modifies this, pads
      ensures Valid() && Value() == Dispatch(old(Value()), Added(who, seed), raw)
    {
      hide Reports, NewPad;
      FirstFreeFinds(pads[..], 0);
      var pad := NewPad(who, seed, inputs);
      assert pad.Open? by { OpensAPad(who, seed, inputs); }
      var slot := ClaimPad(pad);
      if slot.Some? {
        calls := calls + [Register(pad.who.iid, DEFAULT_DEADZONES)];
        Rebuild(slot.value, raw);
      }
    }

    method OnRemoved(kind: Kind, iid: int, raw: Raw)
      requires Valid()
      modifies this, pads
      ensures Valid() && Value() == Dispatch(old(Value()), Removed(kind, iid), raw)
    {
      var slot := FindSlot(iid);
      if slot.None? || pads[slot.value].who.kind != kind {
        if slot.Some? { assert pads[..][slot.value := pads[slot.value]] == pads[..]; }
        return;
      }
      ReleasePad(slot.value);
    }

    method OnControllerInput(ev: Event, raw: Raw)
      requires Valid() && (ev.AxisMoved? || ev.ButtonMoved?)
      modifies this, pads, dirty
      ensures Valid() && Value() == Dispatch(old(Value()), ev, raw)
    {
      hide SlotOf, Members, ControllerShadow.Applied;
      var slot := FindSlot(ev.iid);
      if slot.None? { return; }
      var k := slot.value;
      var change := ChangeOf(ev);
      pads[k] := pads[k].(state := pads[k].state.(shadow := ControllerShadow.Applied(pads[k].state.shadow, change)));
      if ControllerShadow.Keeps(change) {
        var ok := dirty.Mark(k);
      }
    }

    method OnRemapped(iid: int, now: ControllerShadow.Getters, raw: Raw)
      requires Valid()
      modifies this, pads, dirty
      ensures Valid() && Value() == Dispatch(old(Value()), Remapped(iid, now), raw)
    {
      hide SlotOf, Members, ControllerShadow.Seeded;
      var slot := FindSlot(iid);
      if slot.None? { return; }
      var k := slot.value;
      if pads[k].who.kind != Controller {
        assert pads[..][k := pads[k]] == pads[..];
        return;
      }
      pads[k] := pads[k].(state := pads[k].state.(shadow := ControllerShadow.Seeded(now)));
      var ok := dirty.Mark(k);
    }

    /** Marks a pad opened as a raw joystick; one opened as a controller is left to its own events. */
    method OnRawJoystickInput(iid: int, raw: Raw)
      requires Valid()
      modifies dirty
      ensures Valid() && Value() == Dispatch(old(Value()), RawInput(iid), raw)
    {
      hide SlotOf, Members;
      var slot := FindSlot(iid);
      if slot.None? { return; }
      assert pads[..][slot.value := pads[slot.value]] == pads[..];
      if pads[slot.value].who.kind == Joystick {
        var ok := dirty.Mark(slot.value);
      }
    }

    /** Accel waits for the next gyro sample; neither goes out alone or while the pad is suppressed. */
    method HandleSensorEvent(ev: Event, raw: Raw)
      requires Valid() && (ev.AccelSample? || ev.GyroSample?)
      modifies this, pads
      ensures Valid() && Value() == Dispatch(old(Value()), ev, raw)
    {
      hide SlotOf, Members, Current, ApplyTouch, ControllerShadow.Pressed;
      var slot := FindSlot(ev.iid);
      if slot.None? { return; }
      var k := slot.value;
      var pad := pads[k];
      SensorLeaves(pad, ev);
      hide NextPad, Marks;
      assert pads[..][k := pad] == pads[..];
      if !pad.who.motionCapable { return; }
      if ev.AccelSample? {
        pads[k] := pad.(state := pad.state.(accel := Some(ev.accel)));
        return;
      }
      if pad.state.accel.None? || pad.suppressed || pad.who.index.None? { return; }
      var a := pad.state.accel.value;
      Send([Publication(k, pad.who.iid, pad.who.index.value,
        What.Motion(MotionSample(ev.x, ev.y, ev.z, a.x, a.y, a.z)))]);
    }

    method HandleTouchpadEvent(ev: Event, raw: Raw)
      requires Valid() && ev.Touchpad?
      modifies this, pads
      ensures Valid() && Value() == Dispatch(old(Value()), ev, raw)
    {
      hide SlotOf, Members, ApplyTouch, ControllerShadow.Pressed;
      var slot := FindSlot(ev.iid);
      if slot.None? { return; }
      var k := slot.value;
      var touch := ApplyTouch(pads[k].state.touch, ev.phase, ev.finger, ev.x, ev.y);
      pads[k] := pads[k].(state := pads[k].state.(touch := touch));
      var pad := pads[k];
      if pad.suppressed || pad.who.index.None? { return; }
      var pressed := ControllerShadow.Pressed(pad.state.shadow.buttons, TOUCHPAD_BUTTON);
      Send([Publication(k, pad.who.iid, pad.who.index.value, Touch(TouchpadSample(touch.0, touch.1, pressed, 0)))]);
    }

    method DispatchEvent(ev: Event, raw: Raw)
      requires Valid()
      modifies this, pads, dirty
      ensures Valid() && Value() == Dispatch(old(Value()), ev, raw)
    {
      hide Dispatch, Members;
      match ev {
        case Added(who, seed) => OnAdded(who, seed, raw);
        case Removed(kind, iid) => OnRemoved(kind, iid, raw);
        case Remapped(iid, now) => OnRemapped(iid, now, raw);
        case AxisMoved(_, _, _) => OnControllerInput(ev, raw);
        case ButtonMoved(_, _, _) => OnControllerInput(ev, raw);
        case RawInput(iid) => OnRawJoystickInput(iid, raw);
        case AccelSample(_, _) => HandleSensorEvent(ev, raw);
        case GyroSample(_, _, _, _) => HandleSensorEvent(ev, raw);
        case Touchpad(_, _, _, _, _) => HandleTouchpadEvent(ev, raw);
      }
    }

    /** Reports the marked pads, in the order the set gives them. */
    method RebuildDirty(raw: Raw)
      requires Valid()
      modifies this`log, dirty
      ensures Valid() && Value() == Drain(old(Value()), raw)
    {
      hide Reports, Members, DirtySet.Ascending;
      var order := dirty.Drain();
      assert order == DirtySet.Ascending(old(Value()).dirty);
      var i := 0;
      while i < |order|
        invariant 0 <= i <= |order| && Valid() && Members(dirty.bits) == {}
        invariant log == old(log) + Reported(pads[..], order[..i], raw)
      {
        assert order[..i + 1][..i] == order[..i];
        if order[i] < pads.Length { Rebuild(order[i], raw); }
        i := i + 1;
      }
      assert order[..i] == order;
    }

    method PumpOnce(next: Option<Inputs>, events: seq<Event>, raw: Raw)
      requires Valid()
      modifies this, pads, dirty
      ensures Valid() && Value() == PadTable.PumpOnce(old(Value()), next, events, raw)
    {
      hide Dispatch, Members, Adopt, Drain;
      AdoptInputs(next);
      ghost var adopted := Value();
      var i := 0;
      while i < |events|
        invariant 0 <= i <= |events| && Valid()
        invariant Value() == DispatchAll(adopted, events[..i], raw)
      {
        assert events[..i + 1][..i] == events[..i];
        DispatchEvent(events[i], raw);
        i := i + 1;
      }
      assert events[..i] == events;
      RebuildDirty(raw);
    }

    method CloseAllDevices()
      requires Valid()
      modifies this`openPads, this`calls, pads, dirty
      ensures Valid() && Value() == CloseAll(old(Value()))
    {
      ghost var was := pads[..];
      assert was[..0] == [] && CountOpen([]) == 0 && CloseCalls([]) == [] && ClosedTo(was, 0) == was;
      assert ClosedTo(was, pads.Length) == seq(pads.Length, _ => Free);
      hide Members, CountOpen, CloseCalls, ClosedTo;
      var i := 0;
      while i < pads.Length
        invariant 0 <= i <= pads.Length && Valid() && pads[..] == ClosedTo(was, i)
        invariant openPads == old(openPads) - CountOpen(was[..i]) && calls == old(calls) + CloseCalls(was[..i])
      {
        CloseStep(was, i);
        assert pads[i] == pads[..][i];
        if pads[i].Open? { ReleasePad(i); }
        i := i + 1;
      }
      assert was[..i] == was;
      dirty.bits := 0;
      MembersOfExtremes();
    }
  }

  lemma CloseStep(pads: seq<Pad>, i: nat)
    requires i < |pads|
    ensures CountOpen(pads[..i + 1]) == CountOpen(pads[..i]) + OpenCount(pads[i])
    ensures CloseCalls(pads[..i + 1]) == CloseCalls(pads[..i]) + CallsFor(pads[i], Free)
    ensures ClosedTo(pads, i)[i] == pads[i] && ClosedTo(pads, i)[i := Free] == ClosedTo(pads, i + 1)
    ensures pads[i] == Free ==> ClosedTo(pads, i) == ClosedTo(pads, i + 1)
  {
    assert pads[..i + 1][..i] == pads[..i];
  }

  lemma OpensAPad(who: Identity, seed: ControllerShadow.Getters, inputs: Inputs)
    ensures NewPad(who, seed, inputs).Open?
  {
  }
}
