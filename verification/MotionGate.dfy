/** The rate limiter on a device's motion stream, and the inter-arrival time each forwarded sample carries. */
module MotionGate {
  import opened Basics

  const MIN_INTERVAL_US: uint64 := 4000
  const MAX_DELTA_US: uint32 := 0xFFFF_FFFF

  datatype Gate = Gate(lastUs: uint64, hasEmitted: bool)

  const FRESH_GATE := Gate(0, false)

  /** Unsigned 64-bit subtraction. */
  function Elapsed(nowUs: uint64, lastUs: uint64): uint64 {
    if nowUs >= lastUs then nowUs - lastUs else nowUs - lastUs + 0x1_0000_0000_0000_0000
  }

  predicate Passes(g: Gate, nowUs: uint64) {
    !g.hasEmitted || Elapsed(nowUs, g.lastUs) >= MIN_INTERVAL_US
  }

  /** The delta a sample that passes is forwarded with. */
  function DeltaUs(g: Gate, nowUs: uint64): uint32 {
    if !g.hasEmitted then 0
    else if Elapsed(nowUs, g.lastUs) > MAX_DELTA_US then MAX_DELTA_US
    else Elapsed(nowUs, g.lastUs)
  }

  function StepGate(g: Gate, nowUs: uint64): Gate {
    if Passes(g, nowUs) then Gate(nowUs, true) else g
  }

  // ---- whole runs ----

  datatype Emit = Emit(us: uint64, deltaUs: uint32)

  function GateAfter(times: seq<uint64>): Gate {
    if times == [] then FRESH_GATE else StepGate(GateAfter(times[..|times| - 1]), times[|times| - 1])
  }

  /** The samples forwarded out of those taken at the given times. */
  function Emitted(times: seq<uint64>): seq<Emit> {
    if times == [] then []
    else
      var before, now := times[..|times| - 1], times[|times| - 1];
      if Passes(GateAfter(before), now) then Emitted(before) + [Emit(now, DeltaUs(GateAfter(before), now))]
      else Emitted(before)
  }

  ghost predicate NonDecreasing(times: seq<uint64>) {
    forall i, j :: 0 <= i <= j < |times| ==> times[i] <= times[j]
  }

  /** The time from the sample forwarded before the last one to the last one. */
  function LastGap(e: seq<Emit>): int
    requires |e| > 1
  {
    e[|e| - 1].us - e[|e| - 2].us
  }

  /** A forwarded stream: 0 for the first delta, then each gap at least 4000 us and carried, saturated. */
  predicate Stream(e: seq<Emit>) {
    if |e| <= 1 then e == [] || e[0].deltaUs == 0
    else
      && Stream(e[..|e| - 1])
      && LastGap(e) >= MIN_INTERVAL_US
      && e[|e| - 1].deltaUs == if LastGap(e) > MAX_DELTA_US then MAX_DELTA_US else LastGap(e)
  }

  /** Every gap between neighbours fits 32 bits. */
  predicate GapsFit(e: seq<Emit>) {
    |e| > 1 ==> GapsFit(e[..|e| - 1]) && LastGap(e) <= MAX_DELTA_US
  }

  /** What a gate remembers of the stream it let through, by the time `now`. */
  ghost predicate Remembers(g: Gate, e: seq<Emit>, now: uint64) {
    && (g.hasEmitted <==> e != [])
    && (e != [] ==> g.lastUs == e[|e| - 1].us <= now)
  }

  lemma StreamGrows(e: seq<Emit>, g: Gate, now: uint64)
    requires Stream(e) && Remembers(g, e, now) && Passes(g, now)
    ensures Stream(e + [Emit(now, DeltaUs(g, now))])
  {
    var grown := e + [Emit(now, DeltaUs(g, now))];
    assert grown[..|grown| - 1] == e;
  }

  lemma {:induction false} EmitsStream(times: seq<uint64>)
    requires NonDecreasing(times)
    ensures Stream(Emitted(times))
    ensures times == [] ==> Emitted(times) == [] && !GateAfter(times).hasEmitted
    ensures times != [] ==> Remembers(GateAfter(times), Emitted(times), times[|times| - 1])
  {
    if times != [] {
      var before, now := times[..|times| - 1], times[|times| - 1];
      EmitsStream(before);
      assert before != [] ==> before[|before| - 1] <= now;
      assert Remembers(GateAfter(before), Emitted(before), now);
      hide Stream, DeltaUs, Passes;
      if Passes(GateAfter(before), now) { StreamGrows(Emitted(before), GateAfter(before), now); }
    }
  }

  lemma ElapsedIsModular(nowUs: uint64, lastUs: uint64)
    ensures Elapsed(nowUs, lastUs) == (nowUs - lastUs) % 0x1_0000_0000_0000_0000
  {
  }

  /** The gate remembers the last sample it let through, whatever the clock does. */
  lemma {:induction false} GateIsLastEmitted(times: seq<uint64>)
    ensures var e, g := Emitted(times), GateAfter(times);
            (g.hasEmitted <==> e != []) && (e != [] ==> g.lastUs == e[|e| - 1].us)
  {
    if times != [] { GateIsLastEmitted(times[..|times| - 1]); }
  }

  /** For any clock: a sample is forwarded exactly when it is the first, with a delta of 0, or 4000 us or more after the
      last one forwarded, as the 64-bit clock counts, with the time since, saturated. */
  lemma ForwardedIff(before: seq<uint64>, now: uint64)
    ensures var e := Emitted(before);
            Emitted(before + [now]) ==
            if e == [] then [Emit(now, 0)]
            else
              var gap := (now - e[|e| - 1].us) % 0x1_0000_0000_0000_0000;
              if gap < 4000 then e else e + [Emit(now, if gap > 0xFFFF_FFFF then 0xFFFF_FFFF else gap)]
  {
    var times := before + [now];
    assert times[..|times| - 1] == before;
    GateIsLastEmitted(before);
    if Emitted(before) != [] { ElapsedIsModular(now, GateAfter(before).lastUs); }
    hide Elapsed;
  }

  lemma {:induction false} SpacedApart(e: seq<Emit>, i: nat, j: nat)
    requires Stream(e) && i <= j < |e|
    ensures e[j].us - e[i].us >= (j - i) * MIN_INTERVAL_US
    decreases |e|
  {
    if j < |e| - 1 {
      SpacedApart(e[..|e| - 1], i, j);
    } else if i < j {
      SpacedApart(e[..|e| - 1], i, j - 1);
    }
  }

  /** Samples forwarded within any window of `w` microseconds number at most w / 4000 + 1. */
  lemma RateIsLimited(times: seq<uint64>, i: nat, j: nat, w: nat)
    requires NonDecreasing(times)
    requires i <= j < |Emitted(times)| && Emitted(times)[j].us - Emitted(times)[i].us <= w
    ensures j - i + 1 <= w / MIN_INTERVAL_US + 1
  {
    EmitsStream(times);
    SpacedApart(Emitted(times), i, j);
  }

  function SumOfDeltas(e: seq<Emit>): nat {
    if e == [] then 0 else SumOfDeltas(e[..|e| - 1]) + e[|e| - 1].deltaUs
  }

  lemma {:induction false} SumsUp(e: seq<Emit>)
    requires Stream(e) && e != []
    ensures SumOfDeltas(e) <= e[|e| - 1].us - e[0].us
    ensures SumOfDeltas(e) == e[|e| - 1].us - e[0].us <==> GapsFit(e)
  {
    if |e| > 1 { SumsUp(e[..|e| - 1]); }
  }

  /** The deltas start at 0 and add up to the time from the first forwarded sample to the last, exactly
      when every gap between neighbours fits 32 bits. */
  lemma DeltasSumToElapsed(times: seq<uint64>)
    requires NonDecreasing(times) && Emitted(times) != []
    ensures var e := Emitted(times); e[0].deltaUs == 0 && (SumOfDeltas(e) == e[|e| - 1].us - e[0].us <==> GapsFit(e))
  {
    EmitsStream(times);
    SumsUp(Emitted(times));
    StartsAtZero(Emitted(times));
  }

  lemma {:induction false} StartsAtZero(e: seq<Emit>)
    requires Stream(e) && e != []
    ensures e[0].deltaUs == 0
  {
    if |e| > 1 { StartsAtZero(e[..|e| - 1]); }
  }
}
