/** The values a device publishes: its report, its motion sample and its touch frame. */
module DeviceTypes {
  import opened Basics

  datatype DeviceState = DeviceState(wButtons: bv16, lt: uint8, rt: uint8, lx: int16, ly: int16, rx: int16, ry: int16)

  const NEUTRAL := DeviceState(0, 0, 0, 0, 0, 0, 0)

  datatype MotionSample = MotionSample(gyroX: int16, gyroY: int16, gyroZ: int16, accelX: int16, accelY: int16,
      accelZ: int16)

  datatype Finger = Finger(active: bool, id: uint8, x: int16, y: int16)

  datatype TouchpadSample = TouchpadSample(finger0: Finger, finger1: Finger, buttonPressed: bool, eventTimeMs: uint32)

  const NO_TOUCH := TouchpadSample(Finger(false, 0, 0, 0), Finger(false, 0, 0, 0), false, 0)

  /** The same contact: everything but the event time. */
  predicate SameTouch(a: TouchpadSample, b: TouchpadSample) {
    a.finger0 == b.finger0 && a.finger1 == b.finger1 && a.buttonPressed == b.buttonPressed
  }

  datatype Deadzones = Deadzones(stickFlat: int16, triggerFlat: uint8)
}
