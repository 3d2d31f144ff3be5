/**
 One pad followed through a whole run: from the event that opened it, through any cycles and any inputs the GUI hands
 over meanwhile, its slot, its controller state and its contacts are what the events addressed to it make them.
 */
module PadTracking {
  import opened Basics
  import Bits
  import opened DeviceTypes
  import ControllerShadow
  import opened PadTable

  predicate Addresses(ev: Event, iid: int) {
    if ev.Added? then ev.who.iid == iid else ev.iid == iid
  }

  /** The changes the events make to one controller's state. */
  function ChangesTo(iid: int, events: seq<Event>): seq<ControllerShadow.Event> {
    if events == [] then []
    else
      var (rest, ev) := (events[..|events| - 1], events[|events| - 1]);
      if Addresses(ev, iid) then ChangesTo(iid, rest) + [ChangeOf(ev)] else ChangesTo(iid, rest)
  }

  /** No event opens or closes the pad with this instance id. */
  predicate StaysOpen(iid: int, events: seq<Event>) {
    forall k :: 0 <= k < |events| ==> !(Addresses(events[k], iid) && (events[k].Added? || events[k].Removed?))
  }

  /** The pad is open in slot `k`, and events find it there. */
  ghost predicate Sits(s: Bridge, who: Identity, k: nat) {
    k < |s.pads| && SlotOf(s.pads, who.iid) == Some(k) && s.pads[k].Open? && s.pads[k].who == who
  }

  // ---- one event ----

  lemma StepSits(s: Bridge, ev: Event, raw: Raw, who: Identity, k: nat)
    requires Sits(s, who, k) && !(Addresses(ev, who.iid) && (ev.Added? || ev.Removed?))
    ensures var t := Dispatch(s, ev, raw);
            && Sits(t, who, k) && t.pads[k].suppressed == s.pads[k].suppressed
            && t.pads[k].state ==
               if Addresses(ev, who.iid) then NextPad(s.pads[k], ev).state else s.pads[k].state
  {
    hide SlotOf, FirstFree, NextShadow, NextAccel, NextTouch, Reports, Sends, ControllerShadow.Seeded;
    var t := Dispatch(s, ev, raw);
    SlotOfFinds(s.pads, who.iid, 0);
    SlotOfFinds(t.pads, who.iid, 0);
    FirstFreeFinds(s.pads, 0);
    if !ev.Added? { SlotOfFinds(s.pads, ev.iid, 0); }
    assert t.pads[k].Open? && t.pads[k].who == s.pads[k].who;
    forall j | 0 <= j < k ensures !(t.pads[j].Open? && t.pads[j].who.iid == who.iid) {
      assert !(s.pads[j].Open? && s.pads[j].who.iid == who.iid);
    }
  }

  /** A batch of events keeps a pad in its slot, and its controller state takes exactly the changes addressed to it. */
  lemma {:induction false} EventsTrack(s: Bridge, events: seq<Event>, raw: Raw, who: Identity, k: nat)
    requires Sits(s, who, k) && StaysOpen(who.iid, events)
    ensures var t := DispatchAll(s, events, raw);
            && Sits(t, who, k) && t.pads[k].suppressed == s.pads[k].suppressed
            && (who.kind == Controller ==>
                  t.pads[k].state.shadow ==
                    ControllerShadow.AppliedAll(s.pads[k].state.shadow, ChangesTo(who.iid, events)))
  {
    if events != [] {
      hide Dispatch, SlotOf, ControllerShadow.Applied, ChangeOf, Addresses;
      var n := |events| - 1;
      EventsTrack(s, events[..n], raw, who, k);
      StepSits(DispatchAll(s, events[..n], raw), events[n], raw, who, k);
      var changes := ChangesTo(who.iid, events[..n]);
      assert (changes + [ChangeOf(events[n])])[..|changes|] == changes;
    }
  }

  // ---- runs ----

  /** A run that goes on from a state. */
  function RunFrom(s: Bridge, ops: seq<Op>): Bridge {
    if ops == [] then s else Apply(RunFrom(s, ops[..|ops| - 1]), ops[|ops| - 1])
  }

  lemma {:induction false} RunOfMore(ops: seq<Op>, more: seq<Op>)
    ensures Run(ops + more) == RunFrom(Run(ops), more)
  {
    if more == [] {
      assert ops + more == ops;
    } else {
      hide Apply;
      RunOfMore(ops, more[..|more| - 1]);
      assert (ops + more)[..|ops + more| - 1] == ops + more[..|more| - 1];
    }
  }

  predicate OpsStayOpen(iid: int, ops: seq<Op>) {
    forall i :: 0 <= i < |ops| ==> !ops[i].Close? && StaysOpen(iid, ops[i].events)
  }

  /** The changes a run makes to one controller's state. */
  function ChangesIn(iid: int, ops: seq<Op>): seq<ControllerShadow.Event> {
    if ops == [] then []
    else
      var (rest, op) := (ops[..|ops| - 1], ops[|ops| - 1]);
      if op.Close? then ChangesIn(iid, rest) else ChangesIn(iid, rest) + ChangesTo(iid, op.events)
  }

  lemma {:induction false} SlotOfAdopted(pads: seq<Pad>, inputs: Inputs, iid: int, from: nat)
    ensures SlotOf(AdoptPads(pads, inputs), iid, from) == SlotOf(pads, iid, from)
    decreases |pads| - from
  {
    if from < |pads| { SlotOfAdopted(pads, inputs, iid, from + 1); }
  }

  lemma AdoptSits(s: Bridge, next: Option<Inputs>, who: Identity, k: nat)
    requires Sits(s, who, k)
    ensures Sits(Adopt(s, next), who, k) && Adopt(s, next).pads[k].state == s.pads[k].state
  {
    if next.Some? { SlotOfAdopted(s.pads, next.value, who.iid, 0); }
  }

  lemma {:induction false} AppliedAllOfMore(s: ControllerShadow.Shadow, events: seq<ControllerShadow.Event>,
      more: seq<ControllerShadow.Event>)
    ensures ControllerShadow.AppliedAll(s, events + more)
            == ControllerShadow.AppliedAll(ControllerShadow.AppliedAll(s, events), more)
  {
    if more == [] {
      assert events + more == events;
    } else {
      hide ControllerShadow.Applied;
      AppliedAllOfMore(s, events, more[..|more| - 1]);
      assert (events + more)[..|events + more| - 1] == events + more[..|more| - 1];
    }
  }

  lemma OpTracks(s: Bridge, op: Op, who: Identity, k: nat)
    requires Sits(s, who, k) && !op.Close? && StaysOpen(who.iid, op.events)
    ensures Sits(Apply(s, op), who, k)
    ensures who.kind == Controller ==>
              Apply(s, op).pads[k].state.shadow ==
                ControllerShadow.AppliedAll(s.pads[k].state.shadow, ChangesTo(who.iid, op.events))
  {
    AdoptSits(s, op.next, who, k);
    EventsTrack(Adopt(s, op.next), op.events, op.raw, who, k);
    hide DispatchAll, Adopt, ControllerShadow.AppliedAll, SlotOf, Reported, StaysOpen;
  }

  /** Whatever cycles, waits and inputs a run is made of, a pad it does not close keeps its slot, and its controller
      state takes exactly the changes addressed to it in all of them. */
  lemma {:induction false} RunTracks(s: Bridge, ops: seq<Op>, who: Identity, k: nat)
    requires Sits(s, who, k) && OpsStayOpen(who.iid, ops)
    ensures Sits(RunFrom(s, ops), who, k)
    ensures who.kind == Controller ==>
              RunFrom(s, ops).pads[k].state.shadow ==
                ControllerShadow.AppliedAll(s.pads[k].state.shadow, ChangesIn(who.iid, ops))
  {
    if ops != [] {
      hide Apply, Sits, StaysOpen, ControllerShadow.AppliedAll;
      var n := |ops| - 1;
      RunTracks(s, ops[..n], who, k);
      OpTracks(RunFrom(s, ops[..n]), ops[n], who, k);
      if who.kind == Controller {
        AppliedAllOfMore(s.pads[k].state.shadow, ChangesIn(who.iid, ops[..n]), ChangesTo(who.iid, ops[n].events));
      }
    }
  }

  // ---- from the event that opened it ----

  lemma {:induction false} DispatchAllOfMore(s: Bridge, events: seq<Event>, more: seq<Event>, raw: Raw)
    ensures DispatchAll(s, events + more, raw) == DispatchAll(DispatchAll(s, events, raw), more, raw)
  {
    if more == [] {
      assert events + more == events;
    } else {
      hide Dispatch;
      DispatchAllOfMore(s, events, more[..|more| - 1], raw);
      assert (events + more)[..|events + more| - 1] == events + more[..|more| - 1];
    }
  }

  lemma OpeningSits(s: Bridge, who: Identity, seed: ControllerShadow.Getters, raw: Raw, k: nat)
    requires SlotOf(s.pads, who.iid) == None && FirstFree(s.pads) == Some(k)
    ensures Sits(Dispatch(s, Added(who, seed), raw), who, k)
    ensures who.kind == Controller ==>
              Dispatch(s, Added(who, seed), raw).pads[k].state.shadow == ControllerShadow.Seeded(seed)
  {
    hide SlotOf, FirstFree, Reports, ControllerShadow.Seeded;
    var t := Dispatch(s, Added(who, seed), raw);
    FirstFreeFinds(s.pads, 0);
    SlotOfFinds(s.pads, who.iid, 0);
    SlotOfFinds(t.pads, who.iid, 0);
    assert t.pads == s.pads[k := NewPad(who, seed, s.inputs)] && t.pads[k].who == who;
    forall j | 0 <= j < k ensures !(t.pads[j].Open? && t.pads[j].who.iid == who.iid) {
      assert t.pads[j] == s.pads[j];
    }
    assert SlotOf(t.pads, who.iid) == Some(k);
  }

  /** The op in which a pad opens: the events before and after the one that opens it. */
  datatype Opening = Opening(op: Op, early: seq<Event>, who: Identity, seed: ControllerShadow.Getters, late: seq<Event>)

  /** In the run's next op the pad is opened in slot `k`, under an instance id no open pad has, and stays open. */
  ghost predicate Opens(before: seq<Op>, o: Opening, k: nat) {
    && !o.op.Close? && o.op.events == o.early + [Added(o.who, o.seed)] + o.late && o.who.kind == Controller
    && (var s := DispatchAll(Adopt(Run(before), o.op.next), o.early, o.op.raw);
        SlotOf(s.pads, o.who.iid) == None && FirstFree(s.pads) == Some(k))
    && StaysOpen(o.who.iid, o.late)
  }

  lemma OpeningTracks(before: seq<Op>, o: Opening, k: nat)
    requires Opens(before, o, k)
    ensures var t := Apply(Run(before), o.op);
            && Sits(t, o.who, k)
            && t.pads[k].state.shadow ==
               ControllerShadow.AppliedAll(ControllerShadow.Seeded(o.seed), ChangesTo(o.who.iid, o.late))
  {
    var s := DispatchAll(Adopt(Run(before), o.op.next), o.early, o.op.raw);
    OpeningSits(s, o.who, o.seed, o.op.raw, k);
    var opening := [Added(o.who, o.seed)];
    assert opening[..0] == [];
    assert DispatchAll(s, opening, o.op.raw) == Dispatch(s, Added(o.who, o.seed), o.op.raw);
    DispatchAllOfMore(Adopt(Run(before), o.op.next), o.early, opening, o.op.raw);
    DispatchAllOfMore(Adopt(Run(before), o.op.next), o.early + opening, o.late, o.op.raw);
    EventsTrack(DispatchAll(s, opening, o.op.raw), o.late, o.op.raw, o.who, k);
    hide DispatchAll, Adopt, ControllerShadow.AppliedAll, SlotOf, Reported, StaysOpen, Dispatch, Run;
  }

  /** Everything that happened to the controller since its opening read. */
  function SinceOpening(o: Opening, after: seq<Op>): seq<ControllerShadow.Event> {
    ChangesTo(o.who.iid, o.late) + ChangesIn(o.who.iid, after)
  }

  /** Over every run: from the full read that opened it, through any cycles and any changes of what is suppressed, the
      report a controller's state amounts to shows, field by field, what SDL's getters would answer after the same
      events. */
  lemma ReportIsWhatGettersSay(before: seq<Op>, o: Opening, after: seq<Op>, k: nat, raw: Raw)
    requires Opens(before, o, k) && OpsStayOpen(o.who.iid, after)
    ensures var t := Run(before + [o.op] + after);
            var g := ControllerShadow.GettersAfter(o.seed, SinceOpening(o, after));
            Sits(t, o.who, k) && ControllerShadow.ReportShows(Current(t.pads[k], raw), g)
  {
    var opening := Apply(Run(before), o.op);
    OpeningTracks(before, o, k);
    RunTracks(opening, after, o.who, k);
    assert (before + [o.op])[..|before|] == before;
    RunOfMore(before + [o.op], after);
    hide Run, RunFrom, Apply, Opens, OpsStayOpen, StaysOpen, ControllerShadow.AppliedAll;
    AppliedAllOfMore(ControllerShadow.Seeded(o.seed), ChangesTo(o.who.iid, o.late), ChangesIn(o.who.iid, after));
    ControllerShadow.ShadowStandsInForGetters(o.seed, SinceOpening(o, after));
    ControllerShadow.ControllerReport(ControllerShadow.GettersAfter(o.seed, SinceOpening(o, after)));
    hide ControllerShadow.SnapshotOf, ControllerShadow.GettersAfter, ControllerShadow.Seeded, SlotOf;
    hide ControllerShadow.ReportShows;
  }

  // ---- contacts ----

  datatype Contact = Contact(phase: Phase, x: int16, y: int16)

  /** The events of one finger of one pad. */
  function ContactsOf(iid: int, finger: int, events: seq<Event>): seq<Contact> {
    if events == [] then []
    else
      var (rest, ev) := (ContactsOf(iid, finger, events[..|events| - 1]), events[|events| - 1]);
      if ev.Touchpad? && ev.iid == iid && ev.finger == finger then rest + [Contact(ev.phase, ev.x, ev.y)] else rest
  }

  function FingerAfter(f: Finger, contacts: seq<Contact>): Finger {
    if contacts == [] then f
    else
      var c := contacts[|contacts| - 1];
      ApplyFinger(FingerAfter(f, contacts[..|contacts| - 1]), c.phase, c.x, c.y)
  }

  /** A batch of events moves each finger of a pad by that finger's own events alone, suppressed or not. */
  lemma {:induction false} EventsMoveFingers(s: Bridge, events: seq<Event>, raw: Raw, who: Identity, k: nat)
    requires Sits(s, who, k) && StaysOpen(who.iid, events)
    ensures var t := DispatchAll(s, events, raw);
            && Sits(t, who, k)
            && t.pads[k].state.touch.0 == FingerAfter(s.pads[k].state.touch.0, ContactsOf(who.iid, 0, events))
            && t.pads[k].state.touch.1 == FingerAfter(s.pads[k].state.touch.1, ContactsOf(who.iid, 1, events))
  {
    if events != [] {
      hide Dispatch, SlotOf, ApplyFinger, NextShadow, NextAccel, Sits;
      var n := |events| - 1;
      EventsMoveFingers(s, events[..n], raw, who, k);
      StepSits(DispatchAll(s, events[..n], raw), events[n], raw, who, k);
      OneMore(s.pads[k].state.touch.0, ContactsOf(who.iid, 0, events[..n]));
      OneMore(s.pads[k].state.touch.1, ContactsOf(who.iid, 1, events[..n]));
      assert Sits(DispatchAll(s, events[..n], raw), who, k) && DispatchAll(s, events[..n], raw).pads[k].Open? by {
        SitsIsOpen(DispatchAll(s, events[..n], raw), who, k);
      }
    }
  }

  lemma SitsIsOpen(s: Bridge, who: Identity, k: nat)
    requires Sits(s, who, k)
    ensures k < |s.pads| && s.pads[k].Open?
  {
  }

  lemma OneMore(f: Finger, contacts: seq<Contact>)
    ensures forall c: Contact ::
              FingerAfter(f, contacts + [c]) == ApplyFinger(FingerAfter(f, contacts), c.phase, c.x, c.y)
  {
    forall c: Contact
      ensures FingerAfter(f, contacts + [c]) == ApplyFinger(FingerAfter(f, contacts), c.phase, c.x, c.y)
    {
      assert (contacts + [c])[..|contacts|] == contacts;
    }
  }

  predicate Held(contacts: seq<Contact>) {
    forall i :: 0 <= i < |contacts| ==> contacts[i].phase != Up
  }

  predicate Lifted(contacts: seq<Contact>) {
    forall i :: 0 <= i < |contacts| ==> contacts[i].phase == Up
  }

  lemma {:induction false} HeldKeepsId(f: Finger, contacts: seq<Contact>)
    requires f.active && Held(contacts)
    ensures FingerAfter(f, contacts).active && FingerAfter(f, contacts).id == f.id
  {
    if contacts != [] { HeldKeepsId(f, contacts[..|contacts| - 1]); }
  }

  lemma {:induction false} LiftedKeepsId(f: Finger, contacts: seq<Contact>)
    requires Lifted(contacts) && contacts != []
    ensures !FingerAfter(f, contacts).active && FingerAfter(f, contacts).id == f.id
  {
    if |contacts| > 1 { LiftedKeepsId(f, contacts[..|contacts| - 1]); }
  }

  lemma {:induction false} FingerAfterMore(f: Finger, contacts: seq<Contact>, more: seq<Contact>)
    ensures FingerAfter(f, contacts + more) == FingerAfter(FingerAfter(f, contacts), more)
  {
    if more == [] {
      assert contacts + more == contacts;
    } else {
      hide ApplyFinger;
      FingerAfterMore(f, contacts, more[..|more| - 1]);
      assert (contacts + more)[..|contacts + more| - 1] == contacts + more[..|more| - 1];
    }
  }

  /** Two contacts of a finger in a row carry different tracking ids, at every moment of each, exactly when the second
      begins with a Down: the receiver tells them apart unless the Down was missed. */
  lemma ContactsDifferIff(f: Finger, first: seq<Contact>, lift: seq<Contact>, begin: Contact, second: seq<Contact>)
    requires f.active && Held(first) && Lifted(lift) && lift != [] && begin.phase != Up && Held(second)
    ensures FingerAfter(f, first).active && FingerAfter(f, first + lift + [begin] + second).active
    ensures FingerAfter(f, first + lift + [begin] + second).id != FingerAfter(f, first).id <==> begin.phase == Down
  {
    HeldKeepsId(f, first);
    FingerAfterMore(f, first, lift);
    LiftedKeepsId(FingerAfter(f, first), lift);
    OneMore(f, first + lift);
    FingerAfterMore(f, first + lift + [begin], second);
    HeldKeepsId(FingerAfter(f, first + lift + [begin]), second);
  }

  /** Where a finger was last put or moved to. */
  function Place(f: Finger, contacts: seq<Contact>): (int16, int16) {
    if contacts == [] then (f.x, f.y)
    else
      var c := contacts[|contacts| - 1];
      if c.phase == Up then Place(f, contacts[..|contacts| - 1]) else (c.x, c.y)
  }

  /** A finger is down exactly if its last event was not an Up, and is where its last Down or Motion put it. */
  lemma {:induction false} FingerIsWhereItWent(f: Finger, contacts: seq<Contact>)
    ensures var now := FingerAfter(f, contacts);
            && (now.x, now.y) == Place(f, contacts)
            && (now.active <==> if contacts == [] then f.active else contacts[|contacts| - 1].phase != Up)
  {
    if contacts != [] { FingerIsWhereItWent(f, contacts[..|contacts| - 1]); }
  }

  // ---- what goes out at once ----

  /** The last accel sample of a pad, if the events hold one. */
  function LastAccel(iid: int, events: seq<Event>): Option<Accel> {
    if events == [] then None
    else
      var ev := events[|events| - 1];
      if ev.AccelSample? && ev.iid == iid then Some(ev.accel) else LastAccel(iid, events[..|events| - 1])
  }

  /** A batch of events leaves a motion-capable pad with the last accel sample addressed to it, suppressed or not. */
  lemma {:induction false} EventsKeepAccel(s: Bridge, events: seq<Event>, raw: Raw, who: Identity, k: nat)
    requires Sits(s, who, k) && StaysOpen(who.iid, events) && who.motionCapable
    ensures var t := DispatchAll(s, events, raw);
            && Sits(t, who, k)
            && t.pads[k].state.accel ==
               if LastAccel(who.iid, events).Some? then LastAccel(who.iid, events) else s.pads[k].state.accel
  {
    if events != [] {
      hide Dispatch, SlotOf, NextShadow, NextTouch;
      var n := |events| - 1;
      EventsKeepAccel(s, events[..n], raw, who, k);
      StepSits(DispatchAll(s, events[..n], raw), events[n], raw, who, k);
    }
  }

  /** What a pad sends of its own accord: nothing if it has no record or is suppressed. */
  function Sent(s: Bridge, who: Identity, k: nat, what: What): seq<Publication>
    requires Sits(s, who, k)
  {
    if who.index.Some? && !s.pads[k].suppressed then [Publication(k, who.iid, who.index.value, what)] else []
  }

  /** A gyro sample of a motion-capable pad goes out at once, beside the pad's last accel sample; before the first of
      those, and from any other pad, nothing does. */
  lemma GyroGoesWithLastAccel(s: Bridge, events: seq<Event>, raw: Raw, who: Identity, k: nat, x: int16, y: int16,
      z: int16)
    requires Sits(s, who, k) && StaysOpen(who.iid, events)
    ensures var d := DispatchAll(s, events, raw);
            var last := LastAccel(who.iid, events);
            var accel := if last.Some? then last else s.pads[k].state.accel;
            && Sits(d, who, k) && d.pads[k].suppressed == s.pads[k].suppressed
            && Dispatch(d, GyroSample(who.iid, x, y, z), raw).log ==
               if !who.motionCapable || accel.None? then d.log
               else
                 var a := accel.value;
                 d.log + Sent(s, who, k, What.Motion(MotionSample(x, y, z, a.x, a.y, a.z)))
  {
    EventsTrack(s, events, raw, who, k);
    if who.motionCapable { EventsKeepAccel(s, events, raw, who, k); }
    hide DispatchAll, SlotOf, NextShadow, NextTouch, LastAccel, ControllerShadow.AppliedAll, StaysOpen;
    var d := DispatchAll(s, events, raw);
    assert d.log + [] == d.log;
  }

  /** A touch event of a pad sends a frame at once: both fingers as their own events have left them, and the click as
      the pad's touchpad button is. */
  lemma TouchSendsBothFingers(s: Bridge, events: seq<Event>, raw: Raw, who: Identity, k: nat, ev: Event)
    requires Sits(s, who, k) && StaysOpen(who.iid, events + [ev]) && ev.Touchpad? && ev.iid == who.iid
    ensures StaysOpen(who.iid, events)
    ensures var d := DispatchAll(s, events, raw);
            var f0 := FingerAfter(s.pads[k].state.touch.0, ContactsOf(who.iid, 0, events + [ev]));
            var f1 := FingerAfter(s.pads[k].state.touch.1, ContactsOf(who.iid, 1, events + [ev]));
            && Sits(d, who, k)
            && (var click := 20 in Bits.Members(d.pads[k].state.shadow.buttons);
                Dispatch(d, ev, raw).log == d.log + Sent(s, who, k, Touch(TouchpadSample(f0, f1, click, 0))))
  {
    forall i | 0 <= i < |events| ensures !(Addresses(events[i], who.iid) && (events[i].Added? || events[i].Removed?)) {
      assert (events + [ev])[i] == events[i];
    }
    var d := DispatchAll(s, events, raw);
    assert (events + [ev])[..|events|] == events;
    EventsTrack(s, events, raw, who, k);
    EventsMoveFingers(s, events + [ev], raw, who, k);
    TouchLogged(d, ev, raw, who, k);
    hide Dispatch, DispatchAll, SlotOf, FingerAfter, ContactsOf, ControllerShadow.AppliedAll, StaysOpen, Bits.Members;
  }

  lemma TouchLogged(d: Bridge, ev: Event, raw: Raw, who: Identity, k: nat)
    requires Sits(d, who, k) && ev.Touchpad? && ev.iid == who.iid
    ensures var t := Dispatch(d, ev, raw);
            var click := 20 in Bits.Members(d.pads[k].state.shadow.buttons);
            && Sits(t, who, k)
            && t.log == d.log +
                 Sent(d, who, k, Touch(TouchpadSample(t.pads[k].state.touch.0, t.pads[k].state.touch.1, click, 0)))
  {
    StepSits(d, ev, raw, who, k);
    hide SlotOf, ApplyTouch, Bits.Has;
  }
}
