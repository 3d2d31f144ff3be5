/** The gate between a touchpad's frames and the wire: which frames are sent, which resent, and which dropped. */
module TouchGate {
  import opened Basics
  import opened DeviceTypes

  const MOVE_INTERVAL_NS: int := 8_000_000
  const HEAL_RESENDS: nat := 2
  const NS_PER_MS: int := 1_000_000

  datatype Send = Skip | Fresh | Heal

  datatype Verdict = Verdict(send: Send, eventTimeMs: uint32)

  const SKIPPED := Verdict(Skip, 0)

  /** A change that cannot wait: which fingers touch, whether the pad is clicked, or whose touch it is. */
  predicate IsEdge(last: TouchpadSample, next: TouchpadSample) {
    || next.finger0.active != last.finger0.active
    || next.finger1.active != last.finger1.active
    || next.buttonPressed != last.buttonPressed
    || next.finger0.id != last.finger0.id
    || next.finger1.id != last.finger1.id
  }

  /** Nanoseconds to whole milliseconds: truncating division, then the low 32 bits. */
  function EventTimeMs(nowNs: int): uint32 {
    (if nowNs >= 0 then nowNs / NS_PER_MS else -(-nowNs / NS_PER_MS)) % 0x1_0000_0000
  }

  datatype Gate = Gate(last: TouchpadSample, lastSentNs: int, eventTimeMs: uint32, healsLeft: nat)

  const CLOSED := Gate(NO_TOUCH, 0, 0, 0)

  function DecideSpec(g: Gate, sample: TouchpadSample, nowNs: int): (Gate, Verdict) {
    var inside := nowNs - g.lastSentNs < MOVE_INTERVAL_NS;
    if SameTouch(sample, g.last) then
      if g.healsLeft == 0 || inside then (g, SKIPPED)
      else (g.(healsLeft := g.healsLeft - 1, lastSentNs := nowNs), Verdict(Heal, g.eventTimeMs))
    else if !IsEdge(g.last, sample) && inside then (g, SKIPPED)
    else (Gate(sample, nowNs, EventTimeMs(nowNs), HEAL_RESENDS), Verdict(Fresh, EventTimeMs(nowNs)))
  }

  class TouchGate {
    var last: TouchpadSample
    var lastSentNs: int
    var eventTimeMs: uint32
    var healsLeft: nat

    function State(): Gate
      reads this
    {
      Gate(last, lastSentNs, eventTimeMs, healsLeft)
    }

    constructor ()
      ensures State() == CLOSED
    {
      last, lastSentNs, eventTimeMs, healsLeft := NO_TOUCH, 0, 0, 0;
    }

    method Decide(sample: TouchpadSample, nowNs: int) returns (v: Verdict)
      modifies this
      ensures (State(), v) == DecideSpec(old(State()), sample, nowNs)
    {
      if SameTouch(sample, last) {
        v := HealLast(nowNs);
      } else {
        v := Change(sample, nowNs);
      }
    }

    method Change(sample: TouchpadSample, nowNs: int) returns (v: Verdict)
      requires !SameTouch(sample, last)
      modifies this
      ensures (State(), v) == DecideSpec(old(State()), sample, nowNs)
    {
      var insideTheMoveInterval := nowNs - lastSentNs < MOVE_INTERVAL_NS;
      if !IsEdge(last, sample) && insideTheMoveInterval { return SKIPPED; }
      last := sample;
      lastSentNs := nowNs;
      eventTimeMs := EventTimeMs(nowNs);
      healsLeft := HEAL_RESENDS;
      return Verdict(Fresh, eventTimeMs);
    }

    method HealLast(nowNs: int) returns (v: Verdict)
      modifies this
      ensures (State(), v) == DecideSpec(old(State()), old(last), nowNs)
    {
      var theIntervalElapsed := nowNs - lastSentNs >= MOVE_INTERVAL_NS;
      if healsLeft == 0 || !theIntervalElapsed { return SKIPPED; }
      healsLeft := healsLeft - 1;
      lastSentNs := nowNs;
      return Verdict(Heal, eventTimeMs);
    }
  }

  // ---- whole runs ----

  datatype Report = Report(sample: TouchpadSample, nowNs: int)

  function GateAfter(rs: seq<Report>): Gate {
    if rs == [] then CLOSED
    else var r := rs[|rs| - 1]; DecideSpec(GateAfter(rs[..|rs| - 1]), r.sample, r.nowNs).0
  }

  /** The verdict on the last report of a run. */
  function LastVerdict(rs: seq<Report>): Verdict
    requires rs != []
  {
    var r := rs[|rs| - 1];
    DecideSpec(GateAfter(rs[..|rs| - 1]), r.sample, r.nowNs).1
  }

  /** What a receiver holds that applies Fresh frames and drops heals. */
  function ReceiverView(rs: seq<Report>): TouchpadSample {
    if rs == [] then NO_TOUCH
    else if LastVerdict(rs).send == Fresh then rs[|rs| - 1].sample
    else ReceiverView(rs[..|rs| - 1])
  }

  /** When the last frame went out, heals included. */
  function LastSend(rs: seq<Report>): int {
    if rs == [] then 0
    else if LastVerdict(rs).send != Skip then rs[|rs| - 1].nowNs
    else LastSend(rs[..|rs| - 1])
  }

  /** The event time of the last Fresh frame. */
  function LastFreshMs(rs: seq<Report>): Option<uint32> {
    if rs == [] then None
    else if LastVerdict(rs).send == Fresh then Some(LastVerdict(rs).eventTimeMs)
    else LastFreshMs(rs[..|rs| - 1])
  }

  /** How often the last Fresh frame has been resent. */
  function HealsSinceFresh(rs: seq<Report>): nat {
    if rs == [] then 0
    else match LastVerdict(rs).send
         case Fresh => 0
         case Heal => HealsSinceFresh(rs[..|rs| - 1]) + 1
         case Skip => HealsSinceFresh(rs[..|rs| - 1])
  }

  /** The gate's fields are the run's history. */
  lemma {:induction false} GateRecordsRun(rs: seq<Report>)
    ensures var g := GateAfter(rs);
            && g.last == ReceiverView(rs)
            && g.lastSentNs == LastSend(rs)
            && (LastFreshMs(rs).None? ==> g.healsLeft == 0 && HealsSinceFresh(rs) == 0)
            && (LastFreshMs(rs).Some? ==>
                  g.eventTimeMs == LastFreshMs(rs).value && g.healsLeft + HealsSinceFresh(rs) == HEAL_RESENDS)
  {
    if rs != [] { GateRecordsRun(rs[..|rs| - 1]); }
  }

  /** After every report of every run the receiver agrees with the pad on contacts, click and tracking
      ids, and its positions differ only while the last send is under 8 ms old. */
  lemma ReceiverFollowsPad(rs: seq<Report>)
    requires rs != []
    ensures var (view, pad, nowNs) := (ReceiverView(rs), rs[|rs| - 1].sample, rs[|rs| - 1].nowNs);
            && view.finger0.active == pad.finger0.active && view.finger1.active == pad.finger1.active
            && view.finger0.id == pad.finger0.id && view.finger1.id == pad.finger1.id
            && view.buttonPressed == pad.buttonPressed
            && (nowNs - LastSend(rs) >= 8 * NS_PER_MS ==> view.finger0 == pad.finger0 && view.finger1 == pad.finger1)
  {
    GateRecordsRun(rs);
    GateRecordsRun(rs[..|rs| - 1]);
  }

  /** A heal repeats the last Fresh frame's event time, at most twice. */
  lemma HealsRepeatFresh(rs: seq<Report>)
    ensures HealsSinceFresh(rs) <= HEAL_RESENDS
    ensures rs != [] && LastVerdict(rs).send == Heal ==>
              && LastFreshMs(rs[..|rs| - 1]) == Some(LastVerdict(rs).eventTimeMs)
              && SameTouch(rs[|rs| - 1].sample, ReceiverView(rs[..|rs| - 1]))
  {
    GateRecordsRun(rs);
    if rs != [] { GateRecordsRun(rs[..|rs| - 1]); }
  }

  /** A report is sent at once if it differs from what the receiver has in a contact, a tracking id or the click; any
      other change goes out exactly 8 ms or more after the last send; an unchanged one exactly then, as a heal, if
      one of the two is left. */
  lemma SendsSpaced(rs: seq<Report>)
    requires rs != []
    ensures var (pad, before) := (rs[|rs| - 1].sample, rs[..|rs| - 1]);
            var (view, waited) := (ReceiverView(before), rs[|rs| - 1].nowNs - LastSend(before));
            var urgent :=
              || view.finger0.active != pad.finger0.active || view.finger1.active != pad.finger1.active
              || view.finger0.id != pad.finger0.id || view.finger1.id != pad.finger1.id
              || view.buttonPressed != pad.buttonPressed;
            var moved := view.finger0 != pad.finger0 || view.finger1 != pad.finger1;
            LastVerdict(rs).send ==
            if urgent || (moved && waited >= 8 * NS_PER_MS) then Fresh
            else if !moved && waited >= 8 * NS_PER_MS && LastFreshMs(before).Some? && HealsSinceFresh(before) < 2
            then Heal else Skip
  {
    GateRecordsRun(rs[..|rs| - 1]);
  }

  /** A Fresh frame carries the whole milliseconds of its clock's reading, which start over every 2^32. */
  lemma FreshCarriesItsTime(rs: seq<Report>, turns: nat)
    requires rs != [] && LastVerdict(rs).send == Fresh
    requires turns * 0x1_0000_0000 * NS_PER_MS <= rs[|rs| - 1].nowNs < (turns + 1) * 0x1_0000_0000 * NS_PER_MS
    ensures var ms := turns * 0x1_0000_0000 + LastVerdict(rs).eventTimeMs;
            ms * NS_PER_MS <= rs[|rs| - 1].nowNs < (ms + 1) * NS_PER_MS
  {
    var q := rs[|rs| - 1].nowNs / NS_PER_MS;
    assert turns * 0x1_0000_0000 <= q < (turns + 1) * 0x1_0000_0000;
    assert q % 0x1_0000_0000 == q - turns * 0x1_0000_0000 by { Remainder(q - turns * 0x1_0000_0000, turns); }
  }

  /** Before the clock's zero they count down, cut off towards it. */
  lemma FreshBeforeZero(rs: seq<Report>)
    requires rs != [] && LastVerdict(rs).send == Fresh && rs[|rs| - 1].nowNs < 0
    ensures (LastVerdict(rs).eventTimeMs + -rs[|rs| - 1].nowNs / NS_PER_MS) % 0x1_0000_0000 == 0
  {
  }

  lemma {:induction false} Remainder(low: int, turns: nat)
    requires 0 <= low < 0x1_0000_0000
    ensures (low + turns * 0x1_0000_0000) % 0x1_0000_0000 == low
  {
    if turns > 0 { Remainder(low, turns - 1); }
  }

  // ---- an unchanged pad falls silent ----

  /** The sends an unchanged pad still has coming. */
  function Owed(g: Gate, sample: TouchpadSample): nat {
    if SameTouch(sample, g.last) then g.healsLeft else HEAL_RESENDS + 1
  }

  function GateThrough(g: Gate, sample: TouchpadSample, times: seq<int>): Gate
    decreases |times|
  {
    if times == [] then g else GateThrough(DecideSpec(g, sample, times[0]).0, sample, times[1..])
  }

  function SendsThrough(g: Gate, sample: TouchpadSample, times: seq<int>): nat
    decreases |times|
  {
    if times == [] then 0 else
      var (g', v) := DecideSpec(g, sample, times[0]);
      (if v.send == Skip then 0 else 1) + SendsThrough(g', sample, times[1..])
  }

  /** From any state of the gate, an unchanged pad's sends are exactly the ones it was owed. */
  lemma {:induction false} SendsAreOwed(g: Gate, sample: TouchpadSample, times: seq<int>)
    ensures SendsThrough(g, sample, times) + Owed(GateThrough(g, sample, times), sample) == Owed(g, sample)
    decreases |times|
  {
    if times != [] { SendsAreOwed(DecideSpec(g, sample, times[0]).0, sample, times[1..]); }
  }

  /** A clock that never runs back and reads at most `gap` after the reading before. */
  predicate Paced(start: int, times: seq<int>, gap: nat)
    decreases |times|
  {
    times == [] || (start <= times[0] <= start + gap && Paced(times[0], times[1..], gap))
  }

  function LastTime(start: int, times: seq<int>): int {
    if times == [] then start else times[|times| - 1]
  }

  /** Delivered, and silent from now on whatever the clock says. */
  ghost predicate Settled(g: Gate, sample: TouchpadSample) {
    SameTouch(sample, g.last) && g.healsLeft == 0 && forall nowNs :: DecideSpec(g, sample, nowNs) == (g, SKIPPED)
  }

  /** The time an unchanged pad's sends can take: each waits out the interval and then the next report. */
  function TimeOwed(owed: nat, gap: nat): nat {
    if owed == 0 then 0 else MOVE_INTERVAL_NS + gap + TimeOwed(owed - 1, gap)
  }

  lemma {:induction false} SettlesInTime(g: Gate, sample: TouchpadSample, start: int, times: seq<int>, gap: nat)
    requires Paced(start, times, gap) && g.lastSentNs <= start < g.lastSentNs + MOVE_INTERVAL_NS
    requires LastTime(start, times) - g.lastSentNs >= TimeOwed(Owed(g, sample), gap)
    ensures Settled(GateThrough(g, sample, times), sample)
    decreases |times|
  {
    if Owed(g, sample) == 0 {
      SilentStays(g, sample, times);
    } else {
      SettlesInTime(DecideSpec(g, sample, times[0]).0, sample, times[0], times[1..], gap);
    }
  }

  /** A pad that reports one unchanged sample, however often, falls silent: under any clock that never runs back, with
      gaps of at most `gap`, once it has run an interval and a gap past the last send for each send still owed after
      the first report, the sample is delivered and nothing is ever sent again. */
  lemma FallsSilent(g: Gate, sample: TouchpadSample, first: int, times: seq<int>, gap: nat)
    requires g.lastSentNs <= first && Paced(first, times, gap)
    requires var g' := DecideSpec(g, sample, first).0;
             LastTime(first, times) - g'.lastSentNs >= TimeOwed(Owed(g', sample), gap)
    ensures Settled(GateThrough(g, sample, [first] + times), sample)
  {
    var g' := DecideSpec(g, sample, first).0;
    assert ([first] + times)[1..] == times;
    if Owed(g', sample) == 0 {
      SilentStays(g', sample, times);
    } else {
      SettlesInTime(g', sample, first, times, gap);
    }
  }

  lemma {:induction false} SilentStays(g: Gate, sample: TouchpadSample, times: seq<int>)
    requires Owed(g, sample) == 0
    ensures GateThrough(g, sample, times) == g
    decreases |times|
  {
    if times != [] { SilentStays(g, sample, times[1..]); }
  }
}
