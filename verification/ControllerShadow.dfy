/**
 The bridge's private copy of a controller: it starts from one full read of SDL's getters, takes each event's change,
 and must always yield the snapshot a fresh read would.
 */
module ControllerShadow {
  import opened Basics
  import opened Bits
  import opened DeviceTypes
  import opened JoystickMapping

  const AXES: nat := 6
  const BUTTONS: nat := 21

  type Axes = s: seq<int16> | |s| == AXES witness seq(AXES, _ => 0)

  type Held = s: set<nat> | forall b :: b in s ==> b < BUTTONS witness {}

  /** What SDL's getters answer for one controller. */
  datatype Getters = Getters(axes: Axes, down: Held)

  /** An event for the controller; `Remapped` carries what the getters answer under the new mapping. */
  datatype Event =
    | AxisMotion(axis: uint8, value: int16)
    | ButtonChange(button: uint8, pressed: bool)
    | Remapped(now: Getters)
    | Other

  predicate Keeps(ev: Event) {
    (ev.AxisMotion? && ev.axis < AXES) || (ev.ButtonChange? && ev.button < BUTTONS)
  }

  // ---- the snapshot ----

  const ROWS: nat := 15

  /** SDL's button of each row of the table. */
  function RowButton(row: nat): nat {
    if row == 0 then 11 else if row == 1 then 12 else if row == 2 then 13 else if row == 3 then 14
    else if row == 4 then 6 else if row == 5 then 4 else if row == 6 then 7 else if row == 7 then 8
    else if row == 8 then 9 else if row == 9 then 10 else if row == 10 then 5 else if row == 11 then 0
    else if row == 12 then 1 else if row == 13 then 2 else 3
  }

  /** The report's bit of each row. */
  function RowBit(row: nat): bv16 {
    if row == 0 then 0x0001 else if row == 1 then 0x0002 else if row == 2 then 0x0004 else if row == 3 then 0x0008
    else if row == 4 then 0x0010 else if row == 5 then 0x0020 else if row == 6 then 0x0040 else if row == 7 then 0x0080
    else if row == 8 then 0x0100 else if row == 9 then 0x0200 else if row == 10 then 0x0400
    else if row == 11 then 0x1000 else if row == 12 then 0x2000 else if row == 13 then 0x4000 else 0x8000
  }

  /** The report word of the first rows. */
  function WireButtons(down: set<nat>, rows: nat): bv16
    requires rows <= ROWS
  {
    if rows == 0 then 0
    else if RowButton(rows - 1) in down then Or(WireButtons(down, rows - 1), RowBit(rows - 1))
    else WireButtons(down, rows - 1)
  }

  function SnapshotOf(axes: Axes, down: set<nat>): GamepadSnapshot {
    GamepadSnapshot(WireButtons(down, ROWS), axes[0], axes[1], axes[2], axes[3], axes[4], axes[5])
  }

  lemma RowsDiffer(r: nat, q: nat)
    requires r < ROWS && q < ROWS
    ensures Tests(RowBit(r), RowBit(q)) <==> r == q
    ensures RowButton(r) == RowButton(q) <==> r == q
  {
  }

  /** The report's bit of a button is set exactly when SDL's button is down. */
  lemma {:induction false} WireButtonsIff(down: set<nat>, rows: nat, row: nat)
    requires rows <= ROWS && row < ROWS
    ensures Tests(WireButtons(down, rows), RowBit(row)) <==> row < rows && RowButton(row) in down
  {
    hide RowBit, RowButton, Or, Tests;
    if rows == 0 {
      NoneTests(RowBit(row));
    } else {
      WireButtonsIff(down, rows - 1, row);
      RowsDiffer(rows - 1, row);
      OrTests(WireButtons(down, rows - 1), RowBit(rows - 1), RowBit(row));
    }
  }

  lemma {:induction false} NoOtherBit(down: set<nat>, rows: nat)
    requires rows <= ROWS
    ensures !Tests(WireButtons(down, rows), 0x0800)
  {
    hide Or, Tests;
    if rows == 0 {
      NoneTests(0x0800);
    } else {
      NoOtherBit(down, rows - 1);
      OutsideTheRows(rows - 1);
      OrTests(WireButtons(down, rows - 1), RowBit(rows - 1), 0x0800);
    }
  }

  lemma OutsideTheRows(row: nat)
    ensures !Tests(RowBit(row), 0x0800)
  {
  }

  /** Which SDL button each bit of a report stands for: A, B, X, Y, Back, Guide, Start, the thumbs, the shoulders and
      the d-pad, by SDL's numbers. One bit stands for none. */
  predicate ShowsButtons(w: bv16, down: set<nat>) {
    && (Tests(w, 0x1000) <==> 0 in down) && (Tests(w, 0x2000) <==> 1 in down)
    && (Tests(w, 0x4000) <==> 2 in down) && (Tests(w, 0x8000) <==> 3 in down)
    && (Tests(w, 0x0020) <==> 4 in down) && (Tests(w, 0x0400) <==> 5 in down) && (Tests(w, 0x0010) <==> 6 in down)
    && (Tests(w, 0x0040) <==> 7 in down) && (Tests(w, 0x0080) <==> 8 in down)
    && (Tests(w, 0x0100) <==> 9 in down) && (Tests(w, 0x0200) <==> 10 in down)
    && (Tests(w, 0x0001) <==> 11 in down) && (Tests(w, 0x0002) <==> 12 in down)
    && (Tests(w, 0x0004) <==> 13 in down) && (Tests(w, 0x0008) <==> 14 in down)
    && !Tests(w, 0x0800)
  }

  lemma WireShowsButtons(down: set<nat>)
    ensures ShowsButtons(WireButtons(down, ROWS), down)
  {
    hide Tests, WireButtons;
    NoOtherBit(down, ROWS);
    WireButtonsIff(down, ROWS, 0);
    WireButtonsIff(down, ROWS, 1);
    WireButtonsIff(down, ROWS, 2);
    WireButtonsIff(down, ROWS, 3);
    WireButtonsIff(down, ROWS, 4);
    WireButtonsIff(down, ROWS, 5);
    WireButtonsIff(down, ROWS, 6);
    WireButtonsIff(down, ROWS, 7);
    WireButtonsIff(down, ROWS, 8);
    WireButtonsIff(down, ROWS, 9);
    WireButtonsIff(down, ROWS, 10);
    WireButtonsIff(down, ROWS, 11);
    WireButtonsIff(down, ROWS, 12);
    WireButtonsIff(down, ROWS, 13);
    WireButtonsIff(down, ROWS, 14);
  }

  /** A controller's report against what SDL's getters answer, field by field: sticks x, y, x, y with up positive, then
      the triggers. */
  predicate ReportShows(f: DeviceState, g: Getters) {
    && ShowsButtons(f.wButtons, g.down)
    && f.lx == g.axes[0] && IsMirrored(g.axes[1], f.ly)
    && f.rx == g.axes[2] && IsMirrored(g.axes[3], f.ry)
    && IsScaled(g.axes[4], f.lt) && IsScaled(g.axes[5], f.rt)
  }

  lemma ControllerReport(g: Getters)
    ensures ReportShows(MapGamepad(SnapshotOf(g.axes, g.down)), g)
  {
    hide WireButtons, ShowsButtons;
    WireShowsButtons(g.down);
    AxesAreCarried(g.axes[1], g.axes[4]);
    AxesAreCarried(g.axes[3], g.axes[5]);
  }

  // ---- the shadow ----

  /** The buttons are one word of bits; the model's word is wider than the 32 bits no SDL button reaches past. */
  datatype Shadow = Shadow(axes: Axes, buttons: bv64)

  function WordOf(down: set<nat>, n: nat): bv64
    requires n <= BUTTONS
  {
    if n == 0 then 0
    else if n - 1 in down then With(WordOf(down, n - 1), n - 1)
    else WordOf(down, n - 1)
  }

  function Seeded(g: Getters): Shadow {
    Shadow(g.axes, WordOf(g.down, BUTTONS))
  }

  predicate Pressed(buttons: bv64, button: nat) {
    button < BUTTONS && Has(buttons, button)
  }

  function Applied(s: Shadow, ev: Event): Shadow {
    match ev
    case AxisMotion(axis, value) => if axis < AXES then s.(axes := s.axes[axis := value]) else s
    case ButtonChange(button, pressed) =>
      if button >= BUTTONS then s
      else s.(buttons := if pressed then With(s.buttons, button) else Without(s.buttons, button))
    case Remapped(now) => Seeded(now)
    case Other => s
  }

  function AppliedAll(s: Shadow, events: seq<Event>): Shadow {
    if events == [] then s else Applied(AppliedAll(s, events[..|events| - 1]), events[|events| - 1])
  }

  class ControllerShadow {
    const axes: array<int16>
    var buttons: bv64

    ghost predicate Valid()
      reads this, axes
    {
      axes.Length == AXES
    }

    ghost function Value(): Shadow
      requires Valid()
      reads this, axes
    {
      Shadow(axes[..], buttons)
    }

    constructor ()
      ensures Valid() && fresh(axes) && buttons == 0
    {
      axes := new int16[AXES](_ => 0);
      buttons := 0;
    }

    method Seed(gc: Getters)
      requires Valid()
      modifies this, axes
      ensures Valid() && Value() == Seeded(gc)
    {
      var axis := 0;
      while axis < AXES
        invariant 0 <= axis <= AXES && axes[..axis] == gc.axes[..axis]
      {
        axes[axis] := gc.axes[axis];
        axis := axis + 1;
      }
      buttons := 0;
      var button := 0;
      while button < BUTTONS
        invariant 0 <= button <= BUTTONS && axes[..] == gc.axes
        invariant buttons == WordOf(gc.down, button)
      {
        if button in gc.down { buttons := With(buttons, button); }
        button := button + 1;
      }
    }

    /** The answer says whether the copy took the event: an axis or button it knows. */
    method Apply(ev: Event) returns (kept: bool)
      requires Valid() && !ev.Remapped?
      modifies this, axes
      ensures Valid() && Value() == Applied(old(Value()), ev) && kept == Keeps(ev)
    {
      match ev {
        case AxisMotion(axis, value) =>
          if axis >= AXES { return false; }
          axes[axis] := value;
          return true;
        case ButtonChange(button, pressed) =>
          if button >= BUTTONS { return false; }
          if pressed {
            buttons := With(buttons, button);
          } else {
            buttons := Without(buttons, button);
          }
          return true;
        case _ =>
          return false;
      }
    }

    method Snapshot() returns (snap: GamepadSnapshot)
      requires Valid()
      ensures snap == SnapshotOf(axes[..], Members(buttons))
    {
      var word, row := 0, 0;
      while row < ROWS
        invariant 0 <= row <= ROWS && word == WireButtons(Members(buttons), row)
      {
        RowsAreButtons(row);
        if Pressed(buttons, RowButton(row)) { word := Or(word, RowBit(row)); }
        row := row + 1;
      }
      return GamepadSnapshot(word, axes[0], axes[1], axes[2], axes[3], axes[4], axes[5]);
    }
  }

  lemma RowsAreButtons(row: nat)
    ensures RowButton(row) < BUTTONS
  {
  }

  /** The reference: a snapshot made from the getters, row by row. */
  method ReadGamepad(gc: Getters) returns (snap: GamepadSnapshot)
    ensures snap == SnapshotOf(gc.axes, gc.down)
  {
    var word, row := 0, 0;
    while row < ROWS
      invariant 0 <= row <= ROWS && word == WireButtons(gc.down, row)
    {
      if RowButton(row) in gc.down { word := Or(word, RowBit(row)); }
      row := row + 1;
    }
    return GamepadSnapshot(word, gc.axes[0], gc.axes[1], gc.axes[2], gc.axes[3], gc.axes[4], gc.axes[5]);
  }

  // ---- the shadow answers as the getters would ----

  /** An axis's value after the events: that of the last event naming it, else of the last full read. */
  function AxisAfter(seed: Getters, events: seq<Event>, axis: nat): int16
    requires axis < AXES
  {
    if events == [] then seed.axes[axis]
    else
      var (rest, ev) := (events[..|events| - 1], events[|events| - 1]);
      if ev.AxisMotion? && ev.axis == axis then ev.value
      else if ev.Remapped? then ev.now.axes[axis]
      else AxisAfter(seed, rest, axis)
  }

  predicate DownAfter(seed: Getters, events: seq<Event>, button: nat) {
    if events == [] then button in seed.down
    else match events[|events| - 1]
         case ButtonChange(b, pressed) =>
           if b == button then pressed else DownAfter(seed, events[..|events| - 1], button)
         case Remapped(now) => button in now.down
         case _ => DownAfter(seed, events[..|events| - 1], button)
  }

  /** What the getters answer after the events. */
  function GettersAfter(seed: Getters, events: seq<Event>): Getters
  {
    Getters(seq(AXES, a requires 0 <= a < AXES => AxisAfter(seed, events, a)),
            set b: nat | b < BUTTONS && DownAfter(seed, events, b))
  }

  ghost predicate Mirrors(s: Shadow, g: Getters) {
    s.axes == g.axes && Members(s.buttons) == g.down
  }

  lemma {:induction false} WordOfDown(down: set<nat>, n: nat)
    requires n <= BUTTONS
    ensures forall b: nat :: b in Members(WordOf(down, n)) <==> b < n && b in down
  {
    hide Members, With;
    if n == 0 {
      MembersOfExtremes();
    } else {
      WordOfDown(down, n - 1);
      MembersUpdate(WordOf(down, n - 1), n - 1);
    }
  }

  lemma SeededMirrors(g: Getters)
    ensures Mirrors(Seeded(g), g)
  {
    hide Members, WordOf;
    WordOfDown(g.down, BUTTONS);
  }

  lemma AxesFollow(s: Shadow, seed: Getters, events: seq<Event>)
    requires events != []
    requires s.axes == GettersAfter(seed, events[..|events| - 1]).axes
    ensures Applied(s, events[|events| - 1]).axes == GettersAfter(seed, events).axes
  {
  }

  /** The buttons down once one more event is in. */
  function DownStep(down: set<nat>, ev: Event): set<nat> {
    match ev
    case ButtonChange(button, pressed) =>
      if button >= BUTTONS then down else if pressed then down + {button} else down - {button}
    case Remapped(now) => now.down
    case _ => down
  }

  lemma GettersStep(seed: Getters, events: seq<Event>)
    requires events != []
    ensures GettersAfter(seed, events).down ==
            DownStep(GettersAfter(seed, events[..|events| - 1]).down, events[|events| - 1])
  {
  }

  lemma ButtonsStep(s: Shadow, ev: Event)
    ensures Members(Applied(s, ev).buttons) == DownStep(Members(s.buttons), ev)
  {
    hide Members, WordOf, With, Without, Seeded;
    match ev {
      case ButtonChange(button, _) => if button < BUTTONS { MembersUpdate(s.buttons, button); }
      case Remapped(now) => SeededMirrors(now);
      case _ =>
    }
  }

  lemma {:induction false} ShadowMirrors(seed: Getters, events: seq<Event>)
    ensures Mirrors(AppliedAll(Seeded(seed), events), GettersAfter(seed, events))
  {
    if events == [] {
      SeededMirrors(seed);
      assert GettersAfter(seed, []).axes == seed.axes && GettersAfter(seed, []).down == seed.down;
    } else {
      hide Applied, GettersAfter, Seeded, Members;
      var n := |events| - 1;
      ShadowMirrors(seed, events[..n]);
      AxesFollow(AppliedAll(Seeded(seed), events[..n]), seed, events);
      ButtonsStep(AppliedAll(Seeded(seed), events[..n]), events[n]);
      GettersStep(seed, events);
    }
  }

  /** After every sequence of events the shadow's snapshot is the one SDL's getters would give. */
  lemma ShadowStandsInForGetters(seed: Getters, events: seq<Event>)
    ensures var s, g := AppliedAll(Seeded(seed), events), GettersAfter(seed, events);
            SnapshotOf(s.axes, Members(s.buttons)) == SnapshotOf(g.axes, g.down)
  {
    hide AppliedAll, Seeded, Members, WireButtons;
    ShadowMirrors(seed, events);
  }
}
