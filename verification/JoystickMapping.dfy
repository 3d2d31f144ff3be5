/**
 How SDL's readings become reports: a recognised game controller's snapshot, and a raw joystick's
 through the routing table the user can correct, with the adaptive guess for pads of fewer than six axes.
 */
module JoystickMapping {
  import opened Basics
  import opened DeviceTypes

  // ---- readings ----

  /** One array of a raw snapshot; a null pointer may still come with a count. */
  datatype Lane<T> = Null(count: nat) | Present(values: seq<T>)

  function Count<T>(lane: Lane<T>): nat {
    if lane.Null? then lane.count else |lane.values|
  }

  datatype Snapshot = Snapshot(axes: Lane<int16>, buttons: Lane<bool>, hats: Lane<bv8>)

  function AxisAt(snap: Snapshot, index: int): int16 {
    if snap.axes.Null? || index < 0 || index >= |snap.axes.values| then 0 else snap.axes.values[index]
  }

  predicate ButtonAt(snap: Snapshot, index: int) {
    snap.buttons.Present? && 0 <= index < |snap.buttons.values| && snap.buttons.values[index]
  }

  function HatAt(snap: Snapshot, index: int): bv8 {
    if snap.hats.Null? || index < 0 || index >= |snap.hats.values| then 0 else snap.hats.values[index]
  }

  predicate HasTriggerAxes(snap: Snapshot) {
    Count(snap.axes) >= 6
  }

  function TriggerFromAxis(v: int16): uint8 {
    if v <= 0 then 0 else v * 255 / 32767
  }

  /** Up is positive in the report and down in SDL; the one value with no mirror image saturates. */
  function InvertStickAxis(v: int16): int16 {
    var mirrored: int := -(v as int);
    if mirrored < 32767 then mirrored else 32767
  }

  /** `y` is `v` turned over; the lowest value has no mirror image and goes to the highest. */
  predicate IsMirrored(v: int, y: int) {
    if v == -32768 then y == 32767 else v + y == 0
  }

  /** `t` is `v`'s share of the positive half of an axis, of 255, rounded down. */
  predicate IsScaled(v: int, t: int) {
    if v <= 0 then t == 0 else 32767 * t <= 255 * v < 32767 * (t + 1)
  }

  lemma AxesAreCarried(y: int16, t: int16)
    ensures IsMirrored(y, InvertStickAxis(y)) && IsScaled(t, TriggerFromAxis(t))
  {
  }

  // ---- the routing table ----

  datatype TriggerSource = Axis(index: int) | Button(index: int)

  /** The report's remappable buttons, in the order of the routing table. */
  type RemapButton = b: int | 0 <= b < 14

  const DPAD_UP: RemapButton := 0
  const DPAD_DOWN: RemapButton := 1
  const DPAD_LEFT: RemapButton := 2
  const DPAD_RIGHT: RemapButton := 3

  predicate IsDpad(b: RemapButton) {
    b <= DPAD_RIGHT
  }

  /** The report bit of each button: d-pad, Start, Back, thumbs, shoulders, then A, B, X, Y past the gap. */
  function BitOf(b: RemapButton): bv16 {
    if b == 0 then 0x0001 else if b == 1 then 0x0002 else if b == 2 then 0x0004 else if b == 3 then 0x0008
    else if b == 4 then 0x0010 else if b == 5 then 0x0020 else if b == 6 then 0x0040 else if b == 7 then 0x0080
    else if b == 8 then 0x0100 else if b == 9 then 0x0200 else if b == 10 then 0x1000 else if b == 11 then 0x2000
    else if b == 12 then 0x4000 else 0x8000
  }

  datatype Sticks = Sticks(leftX: int, leftY: int, rightX: int, rightY: int, invertLeftY: bool, invertRightY: bool,
      adaptiveRight: bool)

  datatype Triggers = Triggers(left: TriggerSource, right: TriggerSource, adaptive: bool)

  /** Indices are raw source indices; a negative one is unassigned and reads neutral. */
  datatype Remap = Remap(sticks: Sticks, triggers: Triggers, buttons: RemapButton -> int, hat: int)

  const DEFAULT_REMAP := Remap(Sticks(0, 1, 3, 4, true, true, true), Triggers(Axis(2), Axis(5), true),
                               (b: RemapButton) => [-1, -1, -1, -1, 7, 6, 10, 11, 4, 5, 0, 1, 2, 3][b], 0)

  // ---- mapping ----

  function TriggerValue(snap: Snapshot, source: TriggerSource): uint8 {
    if source.index < 0 then 0
    else match source
         case Axis(index) => TriggerFromAxis(AxisAt(snap, index))
         case Button(index) => if ButtonAt(snap, index) then 255 else 0
  }

  function StickY(snap: Snapshot, index: int, invert: bool): int16 {
    var y := AxisAt(snap, index);
    if invert then InvertStickAxis(y) else y
  }

  function Or(w: bv16, v: bv16): bv16 {
    w | v
  }

  /** The word after the first `n` buttons of the table have been read. */
  function ButtonWord(snap: Snapshot, buttons: RemapButton -> int, n: nat): bv16
    requires n <= 14
  {
    if n == 0 then 0
    else
      var before := ButtonWord(snap, buttons, n - 1);
      if buttons(n - 1) >= 0 && ButtonAt(snap, buttons(n - 1)) then Or(before, BitOf(n - 1)) else before
  }

  /** The hat's bits moved to the report's: up, right, down and left in the hat, up, down, left, right here. */
  function HatWord(h: bv8): bv16 {
    (if h & 0x01 != 0 then 0x0001 else 0) | (if h & 0x04 != 0 then 0x0002 else 0)
    | (if h & 0x08 != 0 then 0x0004 else 0) | (if h & 0x02 != 0 then 0x0008 else 0)
  }

  function MapJoystick(snap: Snapshot, remap: Remap): DeviceState {
    var few := !HasTriggerAxes(snap);
    var s, t := remap.sticks, remap.triggers;
    var rightX := if s.adaptiveRight && few then 2 else s.rightX;
    var rightY := if s.adaptiveRight && few then 3 else s.rightY;
    DeviceState(
      Or(ButtonWord(snap, remap.buttons, 14), HatWord(HatAt(snap, remap.hat))),
      if t.adaptive && few then (if ButtonAt(snap, 8) then 255 else 0) else TriggerValue(snap, t.left),
      if t.adaptive && few then (if ButtonAt(snap, 9) then 255 else 0) else TriggerValue(snap, t.right),
      AxisAt(snap, s.leftX), StickY(snap, s.leftY, s.invertLeftY),
      AxisAt(snap, rightX), StickY(snap, rightY, s.invertRightY))
  }

  /** A game controller's reading, in SDL's units but with its buttons already in report bits. */
  datatype GamepadSnapshot = GamepadSnapshot(wButtons: bv16, leftX: int16, leftY: int16, rightX: int16, rightY: int16,
      leftTrigger: int16, rightTrigger: int16)

  function MapGamepad(snap: GamepadSnapshot): DeviceState {
    DeviceState(snap.wButtons, TriggerFromAxis(snap.leftTrigger), TriggerFromAxis(snap.rightTrigger),
                snap.leftX, InvertStickAxis(snap.leftY), snap.rightX, InvertStickAxis(snap.rightY))
  }

  // ---- assignments ----

  datatype CaptureKind = AxisCapture | ButtonCapture | HatCapture

  datatype Target =
    | ToButton(b: RemapButton)
    | LeftStickX | LeftStickY | RightStickX | RightStickY
    | LeftTrigger | RightTrigger

  function WithButton(remap: Remap, b: RemapButton, index: int): Remap {
    remap.(buttons := (c: RemapButton) => if c == b then index else remap.buttons(c))
  }

  function WithTrigger(kind: CaptureKind, index: int): TriggerSource {
    if kind == ButtonCapture then Button(index) else Axis(index)
  }

  function WithAssignment(remap: Remap, target: Target, kind: CaptureKind, index: int): Remap {
    match target
    case ToButton(b) =>
      if IsDpad(b) && kind == HatCapture then WithButton(remap, b, -1).(hat := index) else WithButton(remap, b, index)
    case LeftStickX => remap.(sticks := remap.sticks.(leftX := index))
    case LeftStickY => remap.(sticks := remap.sticks.(leftY := index))
    case RightStickX => remap.(sticks := remap.sticks.(rightX := index, adaptiveRight := false))
    case RightStickY => remap.(sticks := remap.sticks.(rightY := index, adaptiveRight := false))
    case LeftTrigger => remap.(triggers := remap.triggers.(left := WithTrigger(kind, index), adaptive := false))
    case RightTrigger => remap.(triggers := remap.triggers.(right := WithTrigger(kind, index), adaptive := false))
  }

  // ---- the adaptive default is an explicit remap ----

  /** The remap with its guesses written out for a pad of this many axes. */
  function Resolved(remap: Remap, few: bool): Remap {
    var s, t := remap.sticks, remap.triggers;
    Remap(if s.adaptiveRight && few then s.(rightX := 2, rightY := 3, adaptiveRight := false)
          else s.(adaptiveRight := false),
          if t.adaptive && few then Triggers(Button(8), Button(9), false) else t.(adaptive := false),
          remap.buttons, remap.hat)
  }

  /** For every snapshot the adaptive remap maps as the explicit one its axis count resolves it to. */
  lemma AdaptiveIsExplicit(snap: Snapshot, remap: Remap)
    ensures MapJoystick(snap, remap) == MapJoystick(snap, Resolved(remap, Count(snap.axes) < 6))
  {
  }

  // ---- what the button word says ----

  function And(w: bv16, v: bv16): bv16 {
    w & v
  }

  predicate Tests(w: bv16, bit: bv16) {
    And(w, bit) != 0
  }

  lemma Distributes(w: bv16, v: bv16, bit: bv16)
    ensures And(Or(w, v), bit) == Or(And(w, bit), And(v, bit))
  {
    assert (w | v) & bit == (w & bit) | (v & bit);
  }

  lemma OrIsNone(w: bv16, v: bv16)
    ensures Or(w, v) == 0 <==> w == 0 && v == 0
  {
  }

  lemma OrTests(w: bv16, v: bv16, bit: bv16)
    ensures Tests(Or(w, v), bit) <==> Tests(w, bit) || Tests(v, bit)
  {
    hide Or, And;
    Distributes(w, v, bit);
    OrIsNone(And(w, bit), And(v, bit));
  }

  lemma LowBitsDiffer(b: RemapButton, c: RemapButton)
    requires b < 7
    ensures Tests(BitOf(b), BitOf(c)) <==> b == c
  {
  }

  lemma BitsDiffer(b: RemapButton, c: RemapButton)
    ensures Tests(BitOf(b), BitOf(c)) <==> b == c
  {
    if b < 7 {
      hide BitOf, Tests;
      LowBitsDiffer(b, c);
    }
  }

  /** The report bits no button of the routing table has: Guide and the one past it. */
  const GAP: bv16 := 0x0C00

  lemma OutsideTheGap(b: RemapButton)
    ensures !Tests(BitOf(b), GAP)
  {
  }

  predicate FromButton(snap: Snapshot, buttons: RemapButton -> int, b: RemapButton) {
    buttons(b) >= 0 && ButtonAt(snap, buttons(b))
  }

  lemma {:induction false} ButtonWordIff(snap: Snapshot, buttons: RemapButton -> int, n: nat, b: RemapButton)
    requires n <= 14
    ensures Tests(ButtonWord(snap, buttons, n), BitOf(b)) <==> b < n && FromButton(snap, buttons, b)
    ensures !Tests(ButtonWord(snap, buttons, n), GAP)
  {
    hide BitOf, ButtonAt, Or;
    if n == 0 {
      NoneTests(BitOf(b));
    } else {
      hide Tests;
      ButtonWordIff(snap, buttons, n - 1, b);
      BitsDiffer(n - 1, b);
      OutsideTheGap(n - 1);
      OrTests(ButtonWord(snap, buttons, n - 1), BitOf(n - 1), BitOf(b));
      OrTests(ButtonWord(snap, buttons, n - 1), BitOf(n - 1), GAP);
    }
  }

  lemma NoneTests(bit: bv16)
    ensures !Tests(0, bit)
  {
  }

  /** The hat's say in a button: only the four directions listen to it. */
  predicate FromHat(h: bv8, b: RemapButton) {
    (b == DPAD_UP && h & 0x01 != 0) || (b == DPAD_DOWN && h & 0x04 != 0)
    || (b == DPAD_LEFT && h & 0x08 != 0) || (b == DPAD_RIGHT && h & 0x02 != 0)
  }

  lemma HatWordIff(h: bv8, b: RemapButton)
    ensures Tests(HatWord(h), BitOf(b)) <==> FromHat(h, b)
    ensures !Tests(HatWord(h), GAP)
  {
  }

  /** Every button of the report, for every snapshot and remap: its bit is set exactly when its raw button is
      pressed, or it is a direction and the hat points there; no other bit ever is. */
  lemma ButtonsMeanTheirSources(snap: Snapshot, remap: Remap, b: RemapButton)
    ensures Tests(MapJoystick(snap, remap).wButtons, BitOf(b))
            <==> FromButton(snap, remap.buttons, b) || FromHat(HatAt(snap, remap.hat), b)
    ensures !Tests(MapJoystick(snap, remap).wButtons, GAP)
  {
    hide ButtonWord, HatWord, BitOf, FromButton, FromHat, TriggerValue, StickY, Tests, Or;
    var word, hat := ButtonWord(snap, remap.buttons, 14), HatWord(HatAt(snap, remap.hat));
    ButtonWordIff(snap, remap.buttons, 14, b);
    HatWordIff(HatAt(snap, remap.hat), b);
    OrTests(word, hat, BitOf(b));
    OrTests(word, hat, GAP);
  }

  /** Assigning a direction from a hat moves the whole d-pad to that hat and takes the direction's own button away; the
      other three keep theirs, and nothing else of any report changes. */
  lemma HatAssignmentMovesDpad(snap: Snapshot, remap: Remap, b: RemapButton, index: int, c: RemapButton)
    requires IsDpad(b)
    ensures var was := MapJoystick(snap, remap);
            var now := MapJoystick(snap, WithAssignment(remap, ToButton(b), HatCapture, index));
            && now.(wButtons := was.wButtons) == was
            && (Tests(now.wButtons, BitOf(c))
                <==> (c != b && FromButton(snap, remap.buttons, c)) || FromHat(HatAt(snap, index), c))
  {
    var after := WithAssignment(remap, ToButton(b), HatCapture, index);
    ButtonsMeanTheirSources(snap, after, c);
    hide ButtonWord, HatWord, BitOf, FromHat, TriggerValue, StickY, AxisAt, Tests, Or;
  }

  /** What a lane holds at an index, or `none` where it holds nothing. */
  function Reading<T>(lane: Lane<T>, index: int, none: T): T {
    if lane.Present? && 0 <= index < |lane.values| then lane.values[index] else none
  }

  predicate FollowsSource(snap: Snapshot, source: TriggerSource, t: uint8) {
    match source
    case Axis(index) => IsScaled(Reading(snap.axes, index, 0), t)
    case Button(index) => t == if Reading(snap.buttons, index, false) then 255 else 0
  }

  predicate FollowsAxis(snap: Snapshot, index: int, invert: bool, v: int16) {
    if invert then IsMirrored(Reading(snap.axes, index, 0), v) else v == Reading(snap.axes, index, 0)
  }

  /** Every output of a remap without guesses, by what the snapshot holds at the remap's indices; an index that is
      unassigned or past the end reads as neutral. */
  lemma ExplicitOutputs(snap: Snapshot, remap: Remap, b: RemapButton)
    requires !remap.sticks.adaptiveRight && !remap.triggers.adaptive
    ensures var (st, s) := (MapJoystick(snap, remap), remap.sticks);
            && FollowsAxis(snap, s.leftX, false, st.lx) && FollowsAxis(snap, s.leftY, s.invertLeftY, st.ly)
            && FollowsAxis(snap, s.rightX, false, st.rx) && FollowsAxis(snap, s.rightY, s.invertRightY, st.ry)
            && FollowsSource(snap, remap.triggers.left, st.lt) && FollowsSource(snap, remap.triggers.right, st.rt)
            && (Tests(st.wButtons, BitOf(b)) <==>
                  Reading(snap.buttons, remap.buttons(b), false) || FromHat(Reading(snap.hats, remap.hat, 0), b))
  {
    ButtonsMeanTheirSources(snap, remap, b);
    hide ButtonWord, HatWord, BitOf, FromHat, Tests, Or;
    AxesAreCarried(AxisAt(snap, remap.sticks.leftY), AxisAt(snap, remap.triggers.left.index));
    AxesAreCarried(AxisAt(snap, remap.sticks.rightY), AxisAt(snap, remap.triggers.right.index));
  }

  /** Assigning a button, captured from anything but a hat on a direction, changes nothing of any report but that
      button's own bit, which then follows the new source. */
  lemma AssignmentChangesOnlyItsBit(snap: Snapshot, remap: Remap, b: RemapButton, kind: CaptureKind, index: int)
    requires !(IsDpad(b) && kind == HatCapture)
    ensures var was := MapJoystick(snap, remap);
            var now := MapJoystick(snap, WithAssignment(remap, ToButton(b), kind, index));
            && now.(wButtons := was.wButtons) == was
            && (forall c: RemapButton :: c != b ==> (Tests(now.wButtons, BitOf(c)) <==> Tests(was.wButtons, BitOf(c))))
            && (Tests(now.wButtons, BitOf(b)) <==> ButtonAt(snap, index) || FromHat(HatAt(snap, remap.hat), b))
  {
    var after := WithAssignment(remap, ToButton(b), kind, index);
    hide ButtonWord, HatWord, BitOf, FromHat, TriggerValue, StickY, AxisAt, Tests, Or;
    forall c: RemapButton
      ensures Tests(MapJoystick(snap, after).wButtons, BitOf(c))
              <==> FromButton(snap, after.buttons, c) || FromHat(HatAt(snap, remap.hat), c)
      ensures Tests(MapJoystick(snap, remap).wButtons, BitOf(c))
              <==> FromButton(snap, remap.buttons, c) || FromHat(HatAt(snap, remap.hat), c)
    {
      ButtonsMeanTheirSources(snap, after, c);
      ButtonsMeanTheirSources(snap, remap, c);
    }
  }

  /** The default buttons: A, B, X, Y on 0 to 3, the shoulders on 4 and 5, Back and Start on 6 and 7, the thumbs on 10
      and 11, the d-pad on the first hat. */
  predicate DefaultButtons(snap: Snapshot, w: bv16) {
    && (Tests(w, 0x1000) <==> ButtonAt(snap, 0)) && (Tests(w, 0x2000) <==> ButtonAt(snap, 1))
    && (Tests(w, 0x4000) <==> ButtonAt(snap, 2)) && (Tests(w, 0x8000) <==> ButtonAt(snap, 3))
    && (Tests(w, 0x0100) <==> ButtonAt(snap, 4)) && (Tests(w, 0x0200) <==> ButtonAt(snap, 5))
    && (Tests(w, 0x0020) <==> ButtonAt(snap, 6)) && (Tests(w, 0x0010) <==> ButtonAt(snap, 7))
    && (Tests(w, 0x0040) <==> ButtonAt(snap, 10)) && (Tests(w, 0x0080) <==> ButtonAt(snap, 11))
    && (Tests(w, 0x0001) <==> HatAt(snap, 0) & 0x01 != 0) && (Tests(w, 0x0002) <==> HatAt(snap, 0) & 0x04 != 0)
    && (Tests(w, 0x0004) <==> HatAt(snap, 0) & 0x08 != 0) && (Tests(w, 0x0008) <==> HatAt(snap, 0) & 0x02 != 0)
  }

  lemma DefaultButtonAt(snap: Snapshot, b: RemapButton)
    ensures Tests(MapJoystick(snap, DEFAULT_REMAP).wButtons, BitOf(b))
            <==> if IsDpad(b) then FromHat(HatAt(snap, 0), b)
                 else ButtonAt(snap, [-1, -1, -1, -1, 7, 6, 10, 11, 4, 5, 0, 1, 2, 3][b])
  {
    ButtonsMeanTheirSources(snap, DEFAULT_REMAP, b);
    hide MapJoystick, BitOf, Tests;
  }

  lemma DefaultButtonsRead(snap: Snapshot)
    ensures DefaultButtons(snap, MapJoystick(snap, DEFAULT_REMAP).wButtons)
  {
    hide MapJoystick, Tests;
    DefaultButtonAt(snap, 0);
    DefaultButtonAt(snap, 1);
    DefaultButtonAt(snap, 2);
    DefaultButtonAt(snap, 3);
    DefaultButtonAt(snap, 4);
    DefaultButtonAt(snap, 5);
    DefaultButtonAt(snap, 6);
    DefaultButtonAt(snap, 7);
    DefaultButtonAt(snap, 8);
    DefaultButtonAt(snap, 9);
    DefaultButtonAt(snap, 10);
    DefaultButtonAt(snap, 11);
    DefaultButtonAt(snap, 12);
    DefaultButtonAt(snap, 13);
  }

  /** The default layout, as documented, on a pad with trigger axes and on one without. */
  lemma DefaultLayout(snap: Snapshot)
    ensures var state, few := MapJoystick(snap, DEFAULT_REMAP), Count(snap.axes) < 6;
            && state.lx == AxisAt(snap, 0) && state.ly == InvertStickAxis(AxisAt(snap, 1))
            && state.rx == AxisAt(snap, if few then 2 else 3)
            && state.ry == InvertStickAxis(AxisAt(snap, if few then 3 else 4))
            && state.lt == (if few then if ButtonAt(snap, 8) then 255 else 0 else TriggerFromAxis(AxisAt(snap, 2)))
            && state.rt == (if few then if ButtonAt(snap, 9) then 255 else 0 else TriggerFromAxis(AxisAt(snap, 5)))
            && DefaultButtons(snap, state.wButtons)
  {
    hide ButtonWord, HatWord, Tests, Or;
    DefaultButtonsRead(snap);
  }

  // ---- a right-stick or trigger assignment reaches past its own output ----

  /** Each axis or trigger target follows its new source; the left stick's leave every other output alone, the
      right stick's and the triggers' every output but their sibling. */
  lemma AnalogAssignmentsFollowTheirSource(snap: Snapshot, remap: Remap, kind: CaptureKind, index: int)
    ensures var was := MapJoystick(snap, remap);
            var to := (target: Target) => MapJoystick(snap, WithAssignment(remap, target, kind, index));
            && to(LeftStickX) == was.(lx := AxisAt(snap, index))
            && to(LeftStickY) == was.(ly := StickY(snap, index, remap.sticks.invertLeftY))
            && to(RightStickX) == was.(rx := AxisAt(snap, index), ry := to(RightStickX).ry)
            && to(RightStickY) == was.(ry := StickY(snap, index, remap.sticks.invertRightY), rx := to(RightStickY).rx)
            && to(LeftTrigger) == was.(lt := to(LeftTrigger).lt, rt := to(LeftTrigger).rt)
            && to(RightTrigger) == was.(lt := to(RightTrigger).lt, rt := to(RightTrigger).rt)
            && to(LeftTrigger).lt == to(RightTrigger).rt ==
               (if kind == ButtonCapture then if ButtonAt(snap, index) then 255 else 0
                else TriggerFromAxis(AxisAt(snap, index)))
  {
  }

  /** Four axes, the last two off centre. */
  const FOUR_AXES := Snapshot(Present([0, 0, 70, 100]), Null(0), Null(0))

  lemma FourAxesRead(index: int)
    ensures AxisAt(FOUR_AXES, index) == (if index == 3 then 100 else if index == 2 then 70 else 0)
    ensures !HasTriggerAxes(FOUR_AXES)
  {
  }

  /** Assigning one axis of the right stick leaves the other alone on every pad exactly when the stick was not
      adaptive, or the other axis is stored where the adaptive guess has it. */
  lemma AssigningRightAxisKeepsOtherIff(remap: Remap, kind: CaptureKind, index: int)
    ensures (forall snap ::
               MapJoystick(snap, WithAssignment(remap, RightStickX, kind, index)).ry == MapJoystick(snap, remap).ry)
            <==> !remap.sticks.adaptiveRight || remap.sticks.rightY == 3
    ensures (forall snap ::
               MapJoystick(snap, WithAssignment(remap, RightStickY, kind, index)).rx == MapJoystick(snap, remap).rx)
            <==> !remap.sticks.adaptiveRight || remap.sticks.rightX == 2
  {
    hide ButtonWord, HatWord, TriggerValue;
    if remap.sticks.adaptiveRight {
      FourAxesRead(2);
      FourAxesRead(3);
      FourAxesRead(remap.sticks.rightX);
      FourAxesRead(remap.sticks.rightY);
      var x, y := WithAssignment(remap, RightStickX, kind, index), WithAssignment(remap, RightStickY, kind, index);
      assert remap.sticks.rightY != 3 ==> MapJoystick(FOUR_AXES, x).ry != MapJoystick(FOUR_AXES, remap).ry;
      assert remap.sticks.rightX != 2 ==> MapJoystick(FOUR_AXES, y).rx != MapJoystick(FOUR_AXES, remap).rx;
    }
  }

  /** No axes, one button pressed. */
  function OneButton(b: nat): Snapshot {
    Snapshot(Null(0), Present(seq(b + 1, i => i == b)), Null(0))
  }

  lemma OneButtonReads(b: nat, source: TriggerSource)
    ensures TriggerValue(OneButton(b), source) == (if source == Button(b) then 255 else 0)
    ensures ButtonAt(OneButton(b), b) && !HasTriggerAxes(OneButton(b))
  {
  }

  /** Assigning one trigger leaves the other alone on every pad exactly when the triggers were not adaptive, or the
      other is stored as the very button the guess uses. */
  lemma AssigningTriggerKeepsOtherIff(remap: Remap, kind: CaptureKind, index: int)
    ensures (forall snap ::
               MapJoystick(snap, WithAssignment(remap, LeftTrigger, kind, index)).rt == MapJoystick(snap, remap).rt)
            <==> !remap.triggers.adaptive || remap.triggers.right == Button(9)
    ensures (forall snap ::
               MapJoystick(snap, WithAssignment(remap, RightTrigger, kind, index)).lt == MapJoystick(snap, remap).lt)
            <==> !remap.triggers.adaptive || remap.triggers.left == Button(8)
  {
    hide ButtonWord, HatWord, StickY, AxisAt, OneButton;
    var left := WithAssignment(remap, LeftTrigger, kind, index);
    var right := WithAssignment(remap, RightTrigger, kind, index);
    if remap.triggers.adaptive && remap.triggers.right != Button(9) {
      OneButtonReads(9, remap.triggers.right);
      assert MapJoystick(OneButton(9), left).rt != MapJoystick(OneButton(9), remap).rt;
    }
    if remap.triggers.adaptive && remap.triggers.left != Button(8) {
      OneButtonReads(8, remap.triggers.left);
      assert MapJoystick(OneButton(8), right).lt != MapJoystick(OneButton(8), remap).lt;
    }
  }

  // ---- assignments as updates ----

  ghost predicate Same(a: Remap, b: Remap) {
    && a.sticks == b.sticks && a.triggers == b.triggers && a.hat == b.hat
    && forall c: RemapButton :: a.buttons(c) == b.buttons(c)
  }

  predicate MovesHat(target: Target, kind: CaptureKind) {
    target.ToButton? && IsDpad(target.b) && kind == HatCapture
  }

  /** The last assignment of a target wins outright, unless a hat capture is replaced by something that leaves the
      dpad on the new hat. */
  lemma LastAssignmentWinsIff(remap: Remap, target: Target, kind1: CaptureKind, index1: int, kind2: CaptureKind,
      index2: int)
    ensures Same(WithAssignment(WithAssignment(remap, target, kind1, index1), target, kind2, index2),
                 WithAssignment(remap, target, kind2, index2))
            <==> !(MovesHat(target, kind1) && !MovesHat(target, kind2) && index1 != remap.hat)
  {
  }

  /** Assignments of different targets commute, unless both move the hat to different places. */
  lemma AssignmentsCommuteIff(remap: Remap, t1: Target, kind1: CaptureKind, index1: int, t2: Target,
      kind2: CaptureKind, index2: int)
    requires t1 != t2
    ensures Same(WithAssignment(WithAssignment(remap, t1, kind1, index1), t2, kind2, index2),
                 WithAssignment(WithAssignment(remap, t2, kind2, index2), t1, kind1, index1))
            <==> !(MovesHat(t1, kind1) && MovesHat(t2, kind2) && index1 != index2)
  {
  }

  // ---- axes ----

  /** The positive half of the axis covers 0 to 255 in order, reaching both ends. */
  lemma TriggerCoversItsRange(v: int16, w: int16)
    ensures v <= w ==> TriggerFromAxis(v) <= TriggerFromAxis(w)
    ensures TriggerFromAxis(v) == 255 <==> v == 32767
    ensures TriggerFromAxis(v) == 0 <==> v <= 128
  {
  }

  /** Inverting twice returns the axis, but for the one value that saturates; the order of values is reversed. */
  lemma InvertTwice(v: int16, w: int16)
    ensures InvertStickAxis(InvertStickAxis(v)) == v <==> v != -32768
    ensures v <= w ==> InvertStickAxis(w) <= InvertStickAxis(v)
  {
  }
}
