/**
 The route table: what one build reads off the device registry, the bindings and the sessions, and what the
 input, mic and feedback threads then look up in it. The published copy must answer as a direct lookup would.
 */
module RouteTable {
  import opened Basics
  import opened InputProcessor
  import ConnectionHub

  type SlotId = string

  /** Where a session's input goes: the client and the controller number it was registered as. */
  datatype Target = Target(client: nat, controller: int)

  datatype InputRoute = InputRoute(target: Target, motion: bool)

  datatype MicRoute = MicRoute(slot: SlotId, target: Target)

  datatype FeedbackRoute = FeedbackRoute(connection: string, slot: SlotId, pad: Option<nat>, rumbleOn: bool)

  datatype Table = Table(inputs: seq<Option<InputRoute>>, mics: seq<MicRoute>, feedback: seq<FeedbackRoute>)

  /** What a build reads besides the registry: `targets` holds the sessions that can be sent to now. */
  datatype World = World(bindings: map<SlotId, string>, targets: map<string, Target>, motionOn: set<SlotId>,
      rumbleOn: set<SlotId>)

  /** The send target a slot's binding gives, read directly. */
  function DirectTarget(w: World, slot: SlotId): Option<Target> {
    var id := if slot in w.bindings then w.bindings[slot] else "";
    if id == "" || id !in w.targets then None else Some(w.targets[id])
  }

  function DirectRoute(w: World, slot: SlotId): Option<InputRoute> {
    match DirectTarget(w, slot)
    case None => None
    case Some(target) => Some(InputRoute(target, slot in w.motionOn))
  }

  // ---- the build ----

  function AfterAdds(es: seq<Entry>, slots: seq<SlotId>): seq<Entry> {
    if slots == [] then es else AfterAdd(AfterAdds(es, slots[..|slots| - 1]), slots[|slots| - 1])
  }

  function AddAnswer(es: seq<Entry>, slot: SlotId): Option<nat> {
    if |slot| > MAX_ID_BYTES then None else IndexOf(AfterAdd(es, slot), slot)
  }

  function SetRoute(inputs: seq<Option<InputRoute>>, index: Option<nat>,
      route: Option<InputRoute>): seq<Option<InputRoute>> {
    if index.Some? && index.value < |inputs| && route.Some? then inputs[index.value := route] else inputs
  }

  function BuiltInputs(es: seq<Entry>, w: World, slots: seq<SlotId>): seq<Option<InputRoute>> {
    if slots == [] then seq(MAX_DEVICES, _ => None)
    else
      var (rest, slot) := (slots[..|slots| - 1], slots[|slots| - 1]);
      SetRoute(BuiltInputs(es, w, rest), AddAnswer(AfterAdds(es, rest), slot), DirectRoute(w, slot))
  }

  function BuiltMics(w: World, slots: seq<SlotId>): seq<MicRoute> {
    if slots == [] then []
    else
      var (rest, slot) := (slots[..|slots| - 1], slots[|slots| - 1]);
      match DirectTarget(w, slot)
      case None => BuiltMics(w, rest)
      case Some(target) => BuiltMics(w, rest) + [MicRoute(slot, target)]
  }

  function LiveRoute(es: seq<Entry>, w: World, slot: SlotId, connection: string): FeedbackRoute {
    FeedbackRoute(connection, slot, IndexOf(es, slot), slot in w.rumbleOn)
  }

  function BuiltFeedback(es: seq<Entry>, w: World, order: seq<SlotId>): seq<FeedbackRoute>
    requires forall slot :: slot in order ==> slot in w.bindings
  {
    if order == [] then []
    else
      var slot := order[|order| - 1];
      BuiltFeedback(es, w, order[..|order| - 1]) + [LiveRoute(es, w, slot, w.bindings[slot])]
  }

  function Built(es: seq<Entry>, w: World, slots: seq<SlotId>, order: seq<SlotId>): Table
    requires forall slot :: slot in order ==> slot in w.bindings
  {
    Table(BuiltInputs(es, w, slots), BuiltMics(w, slots), BuiltFeedback(AfterAdds(es, slots), w, order))
  }

  /** The two loops of a build: one over the slots shown, one over the bindings as the hash yields them. */
  method Build(processor: GamepadInputProcessor, w: World, slots: seq<SlotId>, order: seq<SlotId>)
      returns (table: Table)
    requires processor.Valid() && ConnectionHub.Enumerates(order, w.bindings)
    modifies processor.records
    ensures processor.Valid()
    ensures processor.records[..] == AfterAdds(old(processor.records[..]), slots)
    ensures table == Built(old(processor.records[..]), w, slots, order)
  {
    var inputs, mics := FillInputs(processor, w, slots);
    var feedback := FillFeedback(processor, w, order);
    return Table(inputs, mics, feedback);
  }

  method FillInputs(processor: GamepadInputProcessor, w: World, slots: seq<SlotId>)
    returns (inputs: seq<Option<InputRoute>>, mics: seq<MicRoute>)
    requires processor.Valid()
    modifies processor.records
    ensures processor.Valid()
    ensures processor.records[..] == AfterAdds(old(processor.records[..]), slots)
    ensures inputs == BuiltInputs(old(processor.records[..]), w, slots)
    ensures mics == BuiltMics(w, slots)
  {
    hide AfterAdd, IndexOf;
    ghost var es := processor.records[..];
    inputs, mics := seq(MAX_DEVICES, _ => None), [];
    var i := 0;
    while i < |slots|
      invariant 0 <= i <= |slots| && processor.Valid()
      invariant processor.records[..] == AfterAdds(es, slots[..i])
      invariant |inputs| == MAX_DEVICES && inputs == BuiltInputs(es, w, slots[..i])
      invariant mics == BuiltMics(w, slots[..i])
    {
      assert slots[..i + 1][..i] == slots[..i];
      var slot := slots[i];
      i := i + 1;
      var index := processor.Add(slot);
      var connection := if slot in w.bindings then w.bindings[slot] else "";
      if connection == "" || connection !in w.targets { continue; }
      var target := w.targets[connection];
      mics := mics + [MicRoute(slot, target)];
      if index.None? { continue; }
      if index.value < |inputs| {
        inputs := inputs[index.value := Some(InputRoute(target, slot in w.motionOn))];
      }
    }
    assert slots[..i] == slots;
  }

  method FillFeedback(processor: GamepadInputProcessor, w: World, order: seq<SlotId>)
      returns (feedback: seq<FeedbackRoute>)
    requires processor.Valid() && forall slot :: slot in order ==> slot in w.bindings
    ensures feedback == BuiltFeedback(processor.records[..], w, order)
  {
    feedback := [];
    var i := 0;
    while i < |order|
      invariant 0 <= i <= |order|
      invariant feedback == BuiltFeedback(processor.records[..], w, order[..i])
    {
      assert order[..i + 1][..i] == order[..i];
      var pad := processor.Find(order[i]);
      feedback := feedback + [FeedbackRoute(w.bindings[order[i]], order[i], pad, order[i] in w.rumbleOn)];
      i := i + 1;
    }
    assert order[..i] == order;
  }

  // ---- the registry keeps its places ----

  ghost predicate Registered(es: seq<Entry>) {
    && |es| == MAX_DEVICES && UniqueIds(es)
    && forall i :: 0 <= i < |es| && es[i].live ==> |es[i].id| <= MAX_ID_BYTES
  }

  /** Everything Live in `es` is Live in the same place in `later`. */
  ghost predicate KeepsPlaces(es: seq<Entry>, later: seq<Entry>) {
    |es| == |later| && forall i :: 0 <= i < |es| && es[i].live ==> later[i].live && later[i].id == es[i].id
  }

  /** Adding the id again would change nothing: it is in the table, cannot be, or finds no room. */
  predicate Settled(es: seq<Entry>, id: DeviceId) {
    |id| > MAX_ID_BYTES || IndexOf(es, id).Some? || LowestFree(es).None?
  }

  lemma AddEffect(es: seq<Entry>, id: DeviceId)
    requires Registered(es)
    ensures var later := AfterAdd(es, id);
            && Registered(later) && KeepsPlaces(es, later) && Settled(later, id)
            && (forall i :: 0 <= i < |es| && later[i].live && !es[i].live ==> later[i].id == id)
            && (Settled(es, id) ==> later == es)
  {
    var later := AfterAdd(es, id);
    IndexOfFinds(es, id);
    LowestFreeFinds(es);
    if later != es { IndexOfFinds(later, id); }
  }

  lemma SettledStays(es: seq<Entry>, other: DeviceId, id: DeviceId)
    requires Registered(es) && Settled(es, id)
    ensures Settled(AfterAdd(es, other), id)
  {
    hide AfterAdd, IndexOf, LowestFree;
    var later := AfterAdd(es, other);
    AddEffect(es, other);
    IndexOfFinds(es, id);
    IndexOfFinds(later, id);
    LowestFreeFinds(es);
    LowestFreeFinds(later);
  }

  lemma {:induction false} AddsEffect(es: seq<Entry>, slots: seq<SlotId>)
    requires Registered(es)
    ensures Registered(AfterAdds(es, slots)) && KeepsPlaces(es, AfterAdds(es, slots))
    ensures forall id :: id in slots || Settled(es, id) ==> Settled(AfterAdds(es, slots), id)
  {
    if slots != [] {
      hide AfterAdd, Settled, Registered;
      var n := |slots| - 1;
      var before := AfterAdds(es, slots[..n]);
      AddsEffect(es, slots[..n]);
      AddEffect(before, slots[n]);
      forall id | id in slots || Settled(es, id) ensures Settled(AfterAdds(es, slots), id) {
        if id != slots[n] { SettledStays(before, slots[n], id); }
      }
    }
  }

  // ---- the table answers as a direct lookup would ----

  /** The route at a device's index: its slot's, if the slot is on screen. */
  function Expected(es: seq<Entry>, w: World, slots: seq<SlotId>, i: nat): Option<InputRoute>
    requires i < |es|
  {
    if es[i].live && es[i].id in slots then DirectRoute(w, es[i].id) else None
  }

  ghost predicate Matches(inputs: seq<Option<InputRoute>>, es: seq<Entry>, w: World, slots: seq<SlotId>) {
    |inputs| == |es| && forall i :: 0 <= i < |es| ==> inputs[i] == Expected(es, w, slots, i)
  }

  lemma SetRouteMatches(inputs: seq<Option<InputRoute>>, es: seq<Entry>, w: World, slots: seq<SlotId>, slot: SlotId)
    requires Registered(es) && Matches(inputs, es, w, slots)
    ensures Matches(SetRoute(inputs, AddAnswer(es, slot), DirectRoute(w, slot)), AfterAdd(es, slot), w, slots + [slot])
  {
    hide AfterAdd, IndexOf, LowestFree;
    var later, index := AfterAdd(es, slot), AddAnswer(es, slot);
    AddEffect(es, slot);
    IndexOfFinds(later, slot);
    forall i | 0 <= i < |es|
      ensures SetRoute(inputs, index, DirectRoute(w, slot))[i] == Expected(later, w, slots + [slot], i)
    {
      assert later[i].live && later[i].id == slot <==> index == Some(i);
    }
  }

  lemma {:induction false} InputsMatch(es: seq<Entry>, w: World, slots: seq<SlotId>)
    requires Registered(es)
    ensures Matches(BuiltInputs(es, w, slots), AfterAdds(es, slots), w, slots)
  {
    if slots != [] {
      hide Matches, Registered, AfterAdd, SetRoute, AddAnswer, DirectRoute;
      var n := |slots| - 1;
      InputsMatch(es, w, slots[..n]);
      AddsEffect(es, slots[..n]);
      SetRouteMatches(BuiltInputs(es, w, slots[..n]), AfterAdds(es, slots[..n]), w, slots[..n], slots[n]);
      assert slots[..n] + [slots[n]] == slots;
    }
  }

  /** The route at every index is the one the binding of the slot Live there gives, and stays so however many
      devices are added after the build. */
  lemma TableRefinesLookup(es: seq<Entry>, w: World, slots: seq<SlotId>, order: seq<SlotId>, more: seq<SlotId>)
    requires Registered(es) && ConnectionHub.Enumerates(order, w.bindings)
    ensures Matches(Built(es, w, slots, order).inputs, AfterAdds(AfterAdds(es, slots), more), w, slots)
  {
    hide AfterAdds, BuiltInputs, DirectRoute, BuiltMics, BuiltFeedback;
    var built, later := AfterAdds(es, slots), AfterAdds(AfterAdds(es, slots), more);
    InputsMatch(es, w, slots);
    AddsEffect(es, slots);
    AddsEffect(built, more);
    forall i | 0 <= i < |later| ensures Expected(built, w, slots, i) == Expected(later, w, slots, i) {
      if later[i].live && !built[i].live && later[i].id in slots {
        NewcomerIsNotListed(es, slots, more, i);
        assert false;
      }
    }
  }

  /** A slot that found no place during the build finds none later. */
  lemma NewcomerIsNotListed(es: seq<Entry>, slots: seq<SlotId>, more: seq<SlotId>, i: nat)
    requires Registered(es)
    requires var later := AfterAdds(AfterAdds(es, slots), more);
             i < |later| && i < |AfterAdds(es, slots)| && later[i].live && !AfterAdds(es, slots)[i].live
    ensures AfterAdds(AfterAdds(es, slots), more)[i].id !in slots
  {
    hide AfterAdds, IndexOf, LowestFree;
    var built, later := AfterAdds(es, slots), AfterAdds(AfterAdds(es, slots), more);
    AddsEffect(es, slots);
    AddsEffect(built, more);
    var id := later[i].id;
    if id in slots {
      assert Settled(built, id);
      IndexOfFinds(built, id);
      LowestFreeFinds(built);
    }
  }

  // ---- lookups by slot and by connection ----

  /** The slot is bound to a session that can be sent to. */
  predicate Bound(w: World, slot: SlotId) {
    slot in w.bindings && w.bindings[slot] != "" && w.bindings[slot] in w.targets
  }

  function MicFor(mics: seq<MicRoute>, slot: SlotId): Option<MicRoute> {
    if mics == [] then None
    else if MicFor(mics[..|mics| - 1], slot).Some? then MicFor(mics[..|mics| - 1], slot)
    else if mics[|mics| - 1].slot == slot then Some(mics[|mics| - 1])
    else None
  }

  lemma DirectIsBound(w: World, slot: SlotId)
    ensures DirectTarget(w, slot) == if Bound(w, slot) then Some(w.targets[w.bindings[slot]]) else None
  {
  }

  lemma {:induction false} MicForIsDirect(w: World, slots: seq<SlotId>, slot: SlotId)
    ensures MicFor(BuiltMics(w, slots), slot) ==
            match DirectTarget(w, slot)
            case None => None
            case Some(target) => if slot in slots then Some(MicRoute(slot, target)) else None
  {
    if slots != [] {
      hide DirectTarget;
      var n := |slots| - 1;
      MicForIsDirect(w, slots[..n], slot);
      var mics := BuiltMics(w, slots[..n]);
      if DirectTarget(w, slots[n]).Some? {
        assert BuiltMics(w, slots)[..|mics|] == mics;
      }
    }
  }

  /** The mic route of a slot on screen is its binding's target, device index or not. */
  lemma MicForRefinesLookup(w: World, slots: seq<SlotId>, slot: SlotId)
    ensures MicFor(BuiltMics(w, slots), slot) ==
            if slot in slots && Bound(w, slot) then Some(MicRoute(slot, w.targets[w.bindings[slot]])) else None
  {
    DirectIsBound(w, slot);
    hide MicFor, BuiltMics, DirectTarget;
    MicForIsDirect(w, slots, slot);
  }

  function FeedbackFor(feedback: seq<FeedbackRoute>, connection: string): Option<FeedbackRoute> {
    if feedback == [] then None
    else if FeedbackFor(feedback[..|feedback| - 1], connection).Some? then
      FeedbackFor(feedback[..|feedback| - 1], connection)
    else if feedback[|feedback| - 1].connection == connection then Some(feedback[|feedback| - 1])
    else None
  }

  /** One walk of the table, as the receive threads do it. */
  method FindFeedback(feedback: seq<FeedbackRoute>, connection: string) returns (route: Option<FeedbackRoute>)
    ensures route == FeedbackFor(feedback, connection)
  {
    var i := 0;
    while i < |feedback|
      invariant 0 <= i <= |feedback|
      invariant FeedbackFor(feedback[..i], connection) == None
    {
      assert feedback[..i + 1][..i] == feedback[..i];
      if feedback[i].connection == connection {
        FeedbackPrefix(feedback, i + 1, connection);
        return Some(feedback[i]);
      }
      i := i + 1;
    }
    assert feedback[..i] == feedback;
    return None;
  }

  method FindMic(mics: seq<MicRoute>, slot: SlotId) returns (route: Option<MicRoute>)
    ensures route == MicFor(mics, slot)
  {
    var i := 0;
    while i < |mics|
      invariant 0 <= i <= |mics|
      invariant MicFor(mics[..i], slot) == None
    {
      assert mics[..i + 1][..i] == mics[..i];
      if mics[i].slot == slot {
        MicPrefix(mics, i + 1, slot);
        return Some(mics[i]);
      }
      i := i + 1;
    }
    assert mics[..i] == mics;
    return None;
  }

  lemma {:induction false} FeedbackPrefix(feedback: seq<FeedbackRoute>, n: nat, connection: string)
    requires n <= |feedback| && FeedbackFor(feedback[..n], connection).Some?
    ensures FeedbackFor(feedback, connection) == FeedbackFor(feedback[..n], connection)
    decreases |feedback| - n
  {
    if n < |feedback| {
      assert feedback[..n + 1][..n] == feedback[..n];
      FeedbackPrefix(feedback, n + 1, connection);
    } else {
      assert feedback[..n] == feedback;
    }
  }

  lemma {:induction false} MicPrefix(mics: seq<MicRoute>, n: nat, slot: SlotId)
    requires n <= |mics| && MicFor(mics[..n], slot).Some?
    ensures MicFor(mics, slot) == MicFor(mics[..n], slot)
    decreases |mics| - n
  {
    if n < |mics| {
      assert mics[..n + 1][..n] == mics[..n];
      MicPrefix(mics, n + 1, slot);
    } else {
      assert mics[..n] == mics;
    }
  }

  lemma {:induction false} FeedbackForFinds(es: seq<Entry>, w: World, order: seq<SlotId>, connection: string,
      slot: SlotId)
    requires ConnectionHub.Injective(w.bindings) && forall s :: s in order ==> s in w.bindings
    requires slot in order && w.bindings[slot] == connection
    ensures FeedbackFor(BuiltFeedback(es, w, order), connection) == Some(LiveRoute(es, w, slot, connection))
  {
    var n := |order| - 1;
    var rest := BuiltFeedback(es, w, order[..n]);
    assert BuiltFeedback(es, w, order)[..|rest|] == rest;
    if slot in order[..n] {
      FeedbackForFinds(es, w, order[..n], connection, slot);
    } else {
      FeedbackForMisses(es, w, order[..n], connection);
    }
  }

  lemma {:induction false} FeedbackForMisses(es: seq<Entry>, w: World, order: seq<SlotId>, connection: string)
    requires forall s :: s in order ==> s in w.bindings && w.bindings[s] != connection
    ensures FeedbackFor(BuiltFeedback(es, w, order), connection) == None
  {
    if order != [] {
      var n := |order| - 1;
      var rest := BuiltFeedback(es, w, order[..n]);
      assert BuiltFeedback(es, w, order)[..|rest|] == rest;
      FeedbackForMisses(es, w, order[..n], connection);
    }
  }

  /** The pad the registry has for a slot: the lowest record Live with its id, or none if there is none. */
  ghost predicate PadOf(es: seq<Entry>, slot: SlotId, pad: Option<nat>) {
    match pad
    case Some(i) =>
      i < |es| && es[i].live && es[i].id == slot && forall j :: 0 <= j < i ==> !(es[j].live && es[j].id == slot)
    case None => forall j :: 0 <= j < |es| ==> !(es[j].live && es[j].id == slot)
  }

  /** After any run of binds and unbinds that overlooks no slot, a session's feedback goes to exactly the slot its
      own last bind gave it, on screen or not, with the pad the registry has for it. */
  lemma FeedbackFollowsBinding(ops: seq<ConnectionHub.Op>, es: seq<Entry>, w: World, slots: seq<SlotId>,
      order: seq<SlotId>, connection: string)
    requires ConnectionHub.Plays(ops) && ConnectionHub.NeverOverlooks(ops)
    requires w.bindings == ConnectionHub.Run(ops) && ConnectionHub.Enumerates(order, w.bindings)
    ensures var route := FeedbackFor(Built(es, w, slots, order).feedback, connection);
            match ConnectionHub.LastSlot(ops, connection)
            case None => route == None
            case Some(slot) =>
              && route.Some? && route.value.connection == connection && route.value.slot == slot
              && route.value.rumbleOn == (slot in w.rumbleOn) && PadOf(AfterAdds(es, slots), slot, route.value.pad)
  {
    hide AfterAdds, BuiltInputs, BuiltMics, BuiltFeedback, FeedbackFor, IndexOf;
    ConnectionHub.RunsStayInjective(ops);
    match ConnectionHub.LastSlot(ops, connection) {
      case Some(slot) =>
        ConnectionHub.BoundByLastBind(ops, slot, connection);
        FeedbackForFinds(AfterAdds(es, slots), w, order, connection, slot);
        IndexOfFinds(AfterAdds(es, slots), slot);
      case None =>
        forall s | s in order ensures w.bindings[s] != connection {
          ConnectionHub.BoundByLastBind(ops, s, connection);
        }
        FeedbackForMisses(AfterAdds(es, slots), w, order, connection);
    }
  }

  // ---- where a report and a motion sample go ----

  datatype Destination = Session(target: Target) | Moonlight(slot: SlotId) | Nowhere

  /** A slot's Moonlight senders: its report sender is always there, the others may be empty. */
  datatype Senders = Senders(motion: bool)

  /** Which slots have Moonlight senders, and a flag that is false while none has. */
  class MoonlightRoutes {
    var routes: map<SlotId, Senders>
    var any: bool

    ghost predicate Valid()
      reads this
    {
      any <==> routes != map[]
    }

    constructor ()
      ensures Valid() && routes == map[]
    {
      routes, any := map[], false;
    }

    /** Routes without a report sender take the slot's routes away. */
    method Set(slot: SlotId, hasReport: bool, senders: Senders)
      requires Valid()
      modifies this
      ensures Valid() && routes == if hasReport then old(routes)[slot := senders] else old(routes) - {slot}
    {
      routes := if hasReport then routes[slot := senders] else routes - {slot};
      any := routes != map[];
    }

    method Report(table: Option<Table>, index: nat, slot: SlotId) returns (d: Destination)
      requires Valid() && (table.Some? ==> index < |table.value.inputs|)
      ensures d == ReportGoes(table, routes, index, slot)
    {
      if table.Some? {
        var route := table.value.inputs[index];
        if route.Some? { return Session(route.value.target); }
      }
      if !any { return Nowhere; }
      return if slot in routes then Moonlight(slot) else Nowhere;
    }

    /** A session route with motion off takes the sample and drops it; Moonlight gets it only without such a route, and
        only with a motion sender. */
    method Motion(table: Option<Table>, index: nat, slot: SlotId) returns (d: Destination)
      requires Valid() && (table.Some? ==> index < |table.value.inputs|)
      ensures d == MotionGoes(table, routes, index, slot)
    {
      if table.Some? {
        var route := table.value.inputs[index];
        if route.Some? { return if route.value.motion then Session(route.value.target) else Nowhere; }
      }
      if !any { return Nowhere; }
      return if slot in routes && routes[slot].motion then Moonlight(slot) else Nowhere;
    }
  }

  function RouteAt(table: Option<Table>, index: nat): Option<InputRoute>
    requires table.Some? ==> index < |table.value.inputs|
  {
    if table.Some? then table.value.inputs[index] else None
  }

  function Otherwise(moonlight: map<SlotId, Senders>, slot: SlotId): Destination {
    if slot in moonlight then Moonlight(slot) else Nowhere
  }

  function MotionOtherwise(moonlight: map<SlotId, Senders>, slot: SlotId): Destination {
    if slot in moonlight && moonlight[slot].motion then Moonlight(slot) else Nowhere
  }

  function ReportGoes(table: Option<Table>, moonlight: map<SlotId, Senders>, index: nat, slot: SlotId): Destination
    requires table.Some? ==> index < |table.value.inputs|
  {
    match RouteAt(table, index)
    case Some(route) => Session(route.target)
    case None => Otherwise(moonlight, slot)
  }

  function MotionGoes(table: Option<Table>, moonlight: map<SlotId, Senders>, index: nat, slot: SlotId): Destination
    requires table.Some? ==> index < |table.value.inputs|
  {
    match RouteAt(table, index)
    case Some(route) => if route.motion then Session(route.target) else Nowhere
    case None => MotionOtherwise(moonlight, slot)
  }

  /** A device on screen sends its reports to the session its slot is bound to, and to its Moonlight host only when
      the binding gives no session; a device off screen sends to Moonlight only. Motion follows, past the session's
      switch or to a Moonlight host with a motion sender. */
  lemma ReportsFollowBinding(es: seq<Entry>, w: World, slots: seq<SlotId>, order: seq<SlotId>, more: seq<SlotId>,
                             moonlight: map<SlotId, Senders>, index: nat)
    requires Registered(es) && ConnectionHub.Enumerates(order, w.bindings)
    requires var later := AfterAdds(AfterAdds(es, slots), more); index < |later| && later[index].live
    ensures var slot := AfterAdds(AfterAdds(es, slots), more)[index].id;
            var table := Some(Built(es, w, slots, order));
            && index < |table.value.inputs|
            && ReportGoes(table, moonlight, index, slot) ==
               (if slot in slots && Bound(w, slot) then Session(w.targets[w.bindings[slot]])
                else if slot in moonlight then Moonlight(slot) else Nowhere)
            && MotionGoes(table, moonlight, index, slot) ==
               (if slot in slots && Bound(w, slot) then
                  if slot in w.motionOn then Session(w.targets[w.bindings[slot]]) else Nowhere
                else if slot in moonlight && moonlight[slot].motion then Moonlight(slot) else Nowhere)
  {
    hide AfterAdds, BuiltInputs, BuiltMics, BuiltFeedback;
    TableRefinesLookup(es, w, slots, order, more);
  }
}
