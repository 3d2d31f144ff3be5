/**
 Runs of calls on the input processor: what has left it for one device is what that device's own record let out on its
 own events, whatever was called for the others in between.
 */
module ProcessorTrace {
  import opened Basics
  import opened DeviceTypes
  import opened DeviceRecord
  import opened InputProcessor

  function TableAfter(es: seq<Entry>, calls: seq<Call>): seq<Entry> {
    if calls == [] then es else AfterCall(TableAfter(es, calls[..|calls| - 1]), calls[|calls| - 1])
  }

  /** Everything the calls let out, in order. */
  function LeftAfter(es: seq<Entry>, calls: seq<Call>): seq<Emission> {
    if calls == [] then []
    else
      var rest := calls[..|calls| - 1];
      LeftAfter(es, rest) + LeftBy(TableAfter(es, rest), calls[|calls| - 1])
  }

  /** The event a call is for record `i`, if it is one. */
  function EventAt(es: seq<Entry>, call: Call, i: nat): Option<Event>
    requires i < |es|
  {
    match call
    case Publish(index, state) => if index == i then Some(Report(state)) else None
    case PublishMotion(index, sample, nowUs) => if index == i then Some(Motion(sample, nowUs)) else None
    case PublishTouchpad(index, frame) => if index == i then Some(Touch(frame)) else None
    case ZeroAndSendAll => if es[i].live then Some(ZeroAll) else None
    case SetDeadzones(id, dz) =>
      if |id| <= MAX_ID_BYTES && IndexOf(AfterAdd(es, id), id) == Some(i) then Some(Event.SetDeadzones(dz)) else None
    case _ => None
  }

  lemma TableKeepsSize(es: seq<Entry>, call: Call)
    ensures |AfterCall(es, call)| == |es|
  {
  }

  /** The call neither takes record `i` nor frees it. */
  predicate Calm(es: seq<Entry>, call: Call, i: nat)
    requires i < |es|
  {
    TableKeepsSize(es, call);
    AfterCall(es, call)[i].live == es[i].live
  }

  function Stepped(r: Rec, e: Option<Event>): Rec {
    if e.Some? then Step(r, e.value).0 else r
  }

  /** A call moves record `i` by its own event alone. */
  lemma RecordSteps(es: seq<Entry>, call: Call, i: nat)
    requires i < |es| && Calm(es, call, i)
    ensures |AfterCall(es, call)| == |es|
    ensures AfterCall(es, call)[i] == es[i].(rec := Stepped(es[i].rec, EventAt(es, call, i)))
  {
    hide Step;
    TableKeepsSize(es, call);
    match call {
      case Add(id) => AddIsCalm(es, id, i);
      case Remove(id) => IndexOfFinds(es, id);
      case SetDeadzones(id, dz) =>
        IndexOfFinds(AfterAdd(es, id), id);
        AddIsCalm(es, id, i);
      case _ =>
    }
  }

  lemma AddIsCalm(es: seq<Entry>, id: DeviceId, i: nat)
    requires i < |es| && |AfterAdd(es, id)| == |es| && AfterAdd(es, id)[i].live == es[i].live
    ensures AfterAdd(es, id)[i] == es[i]
  {
    LowestFreeFinds(es);
  }

  /** What has left for one index. */
  function LeftFor(left: seq<Emission>, i: nat): seq<Out> {
    if left == [] then []
    else
      var e := left[|left| - 1];
      if e.index == i then LeftFor(left[..|left| - 1], i) + [e.out] else LeftFor(left[..|left| - 1], i)
  }

  lemma {:induction false} LeftForMore(left: seq<Emission>, more: seq<Emission>, i: nat)
    ensures LeftFor(left + more, i) == LeftFor(left, i) + LeftFor(more, i)
  {
    if more == [] {
      assert left + more == left;
    } else {
      LeftForMore(left, more[..|more| - 1], i);
      assert (left + more)[..|left + more| - 1] == left + more[..|more| - 1];
    }
  }

  lemma {:induction false} ZeroLeaves(es: seq<Entry>, i: nat)
    ensures LeftFor(ZeroEmissions(es), i) ==
            if i < |es| && es[i].live then [NOTHING.(sender := Some(NEUTRAL))] else []
  {
    if es != [] {
      var n := |es| - 1;
      ZeroLeaves(es[..n], i);
      var last := if es[n].live then [Emission(n, es[n].id, NOTHING.(sender := Some(NEUTRAL)))] else [];
      LeftForMore(ZeroEmissions(es[..n]), last, i);
    }
  }

  /** What a record lets out on an event. */
  function Shown(r: Rec, e: Option<Event>): seq<Out> {
    if e.Some? && Shows(Step(r, e.value).1) then [Step(r, e.value).1] else []
  }

  lemma CallLeaves(es: seq<Entry>, call: Call, i: nat)
    requires i < |es|
    ensures LeftFor(LeftBy(es, call), i) == Shown(es[i].rec, EventAt(es, call, i))
  {
    if call.ZeroAndSendAll? {
      ZeroLeaves(es, i);
      assert es[i].live ==> Step(es[i].rec, ZeroAll).1 == NOTHING.(sender := Some(NEUTRAL));
    }
    hide Step, ZeroEmissions, IndexOf, AfterAdd;
  }

  lemma {:induction false} ZeroNamesItsRecord(es: seq<Entry>, e: Emission)
    requires e in ZeroEmissions(es)
    ensures e.index < |es| && e.id == es[e.index].id && e.out == NOTHING.(sender := Some(NEUTRAL))
  {
    if es != [] && e in ZeroEmissions(es[..|es| - 1]) { ZeroNamesItsRecord(es[..|es| - 1], e); }
  }

  /** Whatever leaves on a call is named after the record it leaves for. */
  lemma EmissionsNameTheirRecord(es: seq<Entry>, call: Call, e: Emission)
    requires e in LeftBy(es, call)
    ensures e.index < |es| && e.id == es[e.index].id && Shows(e.out)
  {
    hide Step;
    if call.ZeroAndSendAll? { ZeroNamesItsRecord(es, e); }
  }

  // ---- runs ----

  /** No call of the run takes or frees record `i`. */
  predicate AlwaysCalm(es: seq<Entry>, calls: seq<Call>, i: nat)
    requires i < |es|
  {
    calls == [] ||
      var rest := calls[..|calls| - 1];
      SizeStays(es, rest);
      AlwaysCalm(es, rest, i) && Calm(TableAfter(es, rest), calls[|calls| - 1], i)
  }

  lemma {:induction false} SizeStays(es: seq<Entry>, calls: seq<Call>)
    ensures |TableAfter(es, calls)| == |es|
  {
    if calls != [] {
      hide AfterCall;
      SizeStays(es, calls[..|calls| - 1]);
      TableKeepsSize(TableAfter(es, calls[..|calls| - 1]), calls[|calls| - 1]);
    }
  }

  function EventsAt(es: seq<Entry>, calls: seq<Call>, i: nat): seq<Event>
    requires i < |es|
  {
    if calls == [] then []
    else
      var rest := calls[..|calls| - 1];
      SizeStays(es, rest);
      var e := EventAt(TableAfter(es, rest), calls[|calls| - 1], i);
      if e.Some? then EventsAt(es, rest, i) + [e.value] else EventsAt(es, rest, i)
  }

  /** Everything a record lets out on a run of events. */
  function ShownThrough(r: Rec, events: seq<Event>): seq<Out> {
    if events == [] then []
    else
      var rest := events[..|events| - 1];
      ShownThrough(r, rest) + Shown(RecAfter(r, rest), Some(events[|events| - 1]))
  }

  /** For any run of calls that neither takes nor frees the record, it is where its own events took it, and what has
      left for its index is exactly what it let out on them: reports, zeros, motion and touch, in order. */
  lemma {:induction false} TraceIsTheRecords(es: seq<Entry>, calls: seq<Call>, i: nat)
    requires i < |es| && AlwaysCalm(es, calls, i)
    ensures |TableAfter(es, calls)| == |es|
    ensures var events := EventsAt(es, calls, i);
            && TableAfter(es, calls)[i] == es[i].(rec := RecAfter(es[i].rec, events))
            && LeftFor(LeftAfter(es, calls), i) == ShownThrough(es[i].rec, events)
  {
    SizeStays(es, calls);
    if calls != [] {
      var rest, call := calls[..|calls| - 1], calls[|calls| - 1];
      TraceIsTheRecords(es, rest, i);
      var table, events := TableAfter(es, rest), EventsAt(es, rest, i);
      hide AfterCall, LeftBy, EventAt, Step, Shows;
      RecordSteps(table, call, i);
      CallLeaves(table, call, i);
      LeftForMore(LeftAfter(es, rest), LeftBy(table, call), i);
      var e := EventAt(table, call, i);
      if e.Some? {
        assert (events + [e.value])[..|events|] == events;
      }
    }
  }

  function Sinks(outs: seq<Out>): seq<DeviceState> {
    if outs == [] then []
    else
      var out := outs[|outs| - 1];
      Sinks(outs[..|outs| - 1]) + if out.sink.Some? then [out.sink.value] else []
  }

  lemma {:induction false} SinksAreSinkReports(r: Rec, events: seq<Event>)
    ensures Sinks(ShownThrough(r, events)) == SinkReports(r, events)
  {
    if events != [] {
      hide Step;
      SinksAreSinkReports(r, events[..|events| - 1]);
      var rest := ShownThrough(r, events[..|events| - 1]);
      var out := LastOut(r, events);
      if Shows(out) {
        assert (rest + [out])[..|rest|] == rest;
      } else {
        assert rest + [] == rest;
      }
    }
  }

  /** For any run of calls on the object, within one plug of a device and with nothing zeroed, what has left for it
      is its dead-zoned inputs with consecutive repeats removed, however the calls for others are interleaved. */
  lemma ReportsLeftAreDeduplicated(es: seq<Entry>, calls: seq<Call>, i: nat)
    requires i < |es| && AlwaysCalm(es, calls, i) && JustPlugged(es[i].rec)
    requires ZeroAll !in EventsAt(es, calls, i)
    ensures var sent := Sinks(LeftFor(LeftAfter(es, calls), i));
            && sent == Dedup(FilteredReports(es[i].rec, EventsAt(es, calls, i)))
            && Last(sent) == Last(FilteredReports(es[i].rec, EventsAt(es, calls, i)))
  {
    TraceIsTheRecords(es, calls, i);
    SinksAreSinkReports(es[i].rec, EventsAt(es, calls, i));
    NoReplug(es, calls, i);
    ReportsAreDeduplicated(es[i].rec, EventsAt(es, calls, i));
  }

  lemma {:induction false} NoReplug(es: seq<Entry>, calls: seq<Call>, i: nat)
    requires i < |es|
    ensures Replug !in EventsAt(es, calls, i)
  {
    if calls != [] { NoReplug(es, calls[..|calls| - 1], i); }
  }

  // ---- dead zones set by id reach the reports published by index ----

  lemma SetDeadzonesReaches(es: seq<Entry>, id: DeviceId, dz: Deadzones, i: nat)
    requires |id| <= MAX_ID_BYTES && IndexOf(AfterAdd(es, id), id) == Some(i)
    ensures var after := AfterCall(es, Call.SetDeadzones(id, dz));
            && i < |after| == |AfterAdd(es, id)| && Carries(after[i], id)
            && after[i].rec == Step(AfterAdd(es, id)[i].rec, Event.SetDeadzones(dz)).0
  {
    IndexOfFinds(AfterAdd(es, id), id);
    hide Step;
  }

  /** Dead zones set for an id that fits and finds room, known before or not, are cut out of every report then
      published for the record it has, until they are set again or the record is freed. */
  lemma DeadzonesReachReports(es: seq<Entry>, id: DeviceId, dz: Deadzones, calls: seq<Call>, i: nat, s: DeviceState)
    requires |id| <= MAX_ID_BYTES && IndexOf(AfterAdd(es, id), id) == Some(i)
    requires var set' := AfterCall(es, Call.SetDeadzones(id, dz));
             i < |set'| && AlwaysCalm(set', calls, i) && KeepsDeadzones(EventsAt(set', calls, i))
    ensures var set' := AfterCall(es, Call.SetDeadzones(id, dz));
            var now := TableAfter(set', calls);
            var published := AfterCall(now, Publish(i, s));
            && i < |now| == |published| && Carries(now[i], id)
            && (forall e :: e in LeftBy(now, Publish(i, s)) ==>
                  && e.index == i && e.id == id && e.out.sink == e.out.sender
                  && e.out.sink.Some? && Zoned(s, dz, e.out.sink.value))
            && (var seen := Inspect(published[i].rec.shown);
                seen.raw == Some(s) && seen.wire.Some? && Zoned(s, dz, seen.wire.value))
  {
    var set' := AfterCall(es, Call.SetDeadzones(id, dz));
    SetDeadzonesReaches(es, id, dz, i);
    TraceIsTheRecords(set', calls, i);
    ReportsAreZoned(AfterAdd(es, id)[i].rec, dz, EventsAt(set', calls, i), s);
    var now := TableAfter(set', calls);
    OnlyReportsShow(now[i].rec, s);
    hide Step, Zoned, Inspect, TableAfter, EventsAt, RecAfter, AlwaysCalm, IndexOf, AfterAdd;
  }

  lemma OnlyReportsShow(r: Rec, s: DeviceState)
    ensures Shows(Step(r, Report(s)).1) <==> Step(r, Report(s)).1.sink.Some?
  {
    ReportLeavesAs(r, s);
    LeavesNoStream(r, s);
    hide Step;
  }

  lemma LeavesNoStream(r: Rec, s: DeviceState)
    ensures Step(r, Report(s)).1.motion == None && Step(r, Report(s)).1.touch == None
  {
    hide Filter, IsActuation;
  }
}
