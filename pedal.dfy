/**
 * The pedal subsystem (lib/Pedal/Pedal.cpp): range checks of the two throttle sensors and the
 * brake sensor, the debounced cross-check of the two throttle sensors, the torque mapping with
 * its regenerative-braking rules, the torque frame, motor telemetry decoding, and the latch
 * that registers the motor controller's cyclic telemetry.
 */
module Pedal {
  import opened Words
  import opened Can
  import opened Curves
  import opened CarState

  /**
   * Calibration constants, lookup tables and frames that the pedal code takes from headers
   * not part of this model (Pedal.hpp, Curves.hpp, PedalConstants). `filter` is the smoothing
   * filter's output as a function of the samples it has been given.
   */
  datatype PedalConfig = PedalConfig(
    apps5vMin: U16, apps5vMax: U16,         // APPS_5V_MIN, APPS_5V_MAX
    apps3v3Min: U16, apps3v3Max: U16,       // APPS_3V3_MIN, APPS_3V3_MAX
    brakeMin: U16, brakeMax: U16,           // brake_min, brake_max
    apps5vTableStart: U16,                  // APPS_5V_PERCENT_TABLE[0].in
    throttleMap: Curve,                     // THROTTLE_MAP
    brakeMap: Curve,                        // BRAKE_MAP
    apps3v3ScaleMap: Curve,                 // APPS_3V3_SCALE_MAP
    faultCheckMask: set<FaultBit>,          // FAULT_CHECK_HEX, as the set of bits it covers
    regenEnabled: bool,                     // REGEN_ENABLED
    minRegenRpm: I16,                       // PedalConstants::MIN_REGEN_RPM_VAL
    flipMotorDir: bool,                     // FLIP_MOTOR_DIR
    maxMotorReadMillis: U32,                // MAX_MOTOR_READ_MILLIS
    motorSend: U32, motorRead: U32,         // MOTOR_SEND, MOTOR_READ identifiers
    regIdRead: Byte,                        // REGID_READ opcode
    speedIst: Byte, warnErr: Byte,          // SPEED_IST, WARN_ERR register identifiers
    rpmPeriod: Byte, errPeriod: Byte,       // RPM_PERIOD, ERR_PERIOD
    stopFrame: Frame,                       // stop_frame
    torqueFrame: Frame,                     // initial torque_msg
    filter: seq<U16> -> U16)                // getFiltered() of a moving-average filter

  /** The divergence must last longer than this many milliseconds to latch. */
  const DEBOUNCE_MILLIS: int := 100

  // ---------------------------------------------------------------------------------------
  // Range checks and the debounced cross-check (Pedal::update, Pedal::checkPedalFault)
  // ---------------------------------------------------------------------------------------

  /** The range-fault bits that one set of raw samples violates. */
  function RangeFaults(cfg: PedalConfig, pedal1: U16, pedal2: U16, brake: U16): (r: set<FaultBit>)
    ensures r <= RANGE_BITS
    ensures Apps5vLow in r <==> pedal1 < cfg.apps5vMin
    ensures Apps5vHigh in r <==> pedal1 > cfg.apps5vMax
    ensures Apps3v3Low in r <==> pedal2 < cfg.apps3v3Min
    ensures Apps3v3High in r <==> pedal2 > cfg.apps3v3Max
    ensures BrakeLow in r <==> brake < cfg.brakeMin
    ensures BrakeHigh in r <==> brake > cfg.brakeMax
  {
    (if pedal1 < cfg.apps5vMin then {Apps5vLow} else {})
    + (if pedal1 > cfg.apps5vMax then {Apps5vHigh} else {})
    + (if pedal2 < cfg.apps3v3Min then {Apps3v3Low} else {})
    + (if pedal2 > cfg.apps3v3Max then {Apps3v3High} else {})
    + (if brake < cfg.brakeMin then {BrakeLow} else {})
    + (if brake > cfg.brakeMax then {BrakeHigh} else {})
  }

  function Abs(x: int): nat
  {
    if x < 0 then -x else x
  }

  /**
   * True when the int16 arithmetic of the cross-check cannot wrap: the 5 V reading fits an
   * int16, the difference fits an int16, and the throttle range is non-negative.
   */
  predicate CrossCheckInRange(cfg: PedalConfig, apps5v: U16, apps3v3: U16)
  {
    && apps5v < 0x8000
    && -0x8000 <= apps5v - cfg.apps3v3ScaleMap.interp(apps3v3) < 0x8000
    && cfg.throttleMap.range >= 0
  }

  /**
   * Pedal::checkPedalFault on the filtered snapshots: the 3.3 V sensor is scaled onto the
   * 5 V sensor's scale and the two differ by more than a tenth of the throttle range. Below
   * the first point of the 5 V table the check is skipped.
   */
  function CheckPedalFault(cfg: PedalConfig, apps5v: U16, apps3v3: U16): (r: bool)
    ensures apps5v < cfg.apps5vTableStart ==> !r
    ensures apps5v >= cfg.apps5vTableStart && CrossCheckInRange(cfg, apps5v, apps3v3) ==>
              (r <==> Abs(apps5v - cfg.apps3v3ScaleMap.interp(apps3v3)) > cfg.throttleMap.range / 10)
  {
    if apps5v < cfg.apps5vTableStart then false
    else
      var delta := ToInt16(ToInt16(apps5v) - ToInt16(cfg.apps3v3ScaleMap.interp(apps3v3)));
      var maxDelta := ToInt16(CDiv(cfg.throttleMap.range, 10));
      delta > maxDelta || delta < -maxDelta
  }

  /** The state that Pedal::update reads and writes: the fault byte, force_stop, the timer. */
  datatype FaultState = FaultState(faults: set<FaultBit>, forceStop: bool, faultStartMillis: U32)

  /** One call's inputs: the loop's clock, the filtered snapshots and the raw samples. */
  datatype Sample = Sample(millis: U32, apps5v: U16, apps3v3: U16, pedal1: U16, pedal2: U16, brake: U16)

  predicate Divergent(cfg: PedalConfig, x: Sample)
  {
    CheckPedalFault(cfg, x.apps5v, x.apps3v3)
  }

  /** The call that finds the divergence older than the debounce window. */
  predicate Expires(cfg: PedalConfig, s: FaultState, x: Sample)
  {
    Divergent(cfg, x) && FaultActive in s.faults && Sub32(x.millis, s.faultStartMillis) > DEBOUNCE_MILLIS
  }

  /** force_stop is raised by any fault bit that FAULT_CHECK_HEX covers. */
  function MaskCheck(cfg: PedalConfig, s: FaultState): (r: FaultState)
    ensures r.faults == s.faults && r.faultStartMillis == s.faultStartMillis
    ensures r.forceStop <==> s.forceStop || s.faults * cfg.faultCheckMask != {}
  {
    if s.faults * cfg.faultCheckMask != {} then s.(forceStop := true) else s
  }

  /** The effect of Pedal::update on the fault byte, force_stop and fault_start_millis. */
  function UpdateFaults(cfg: PedalConfig, s: FaultState, x: Sample): (r: FaultState)
    // range bits are only ever set
    ensures forall b :: b in RANGE_BITS ==>
              (b in r.faults <==> b in s.faults || b in RangeFaults(cfg, x.pedal1, x.pedal2, x.brake))
    // fault_active follows the cross-check
    ensures FaultActive in r.faults <==> Divergent(cfg, x)
    // fault_exceeded is sticky and set exactly when the divergence outlives the window
    ensures FaultExceeded in r.faults <==> FaultExceeded in s.faults || Expires(cfg, s, x)
    // the timer starts on the first divergent call only
    ensures r.faultStartMillis ==
              if Divergent(cfg, x) && FaultActive !in s.faults then x.millis else s.faultStartMillis
    // force_stop is never cleared; it is raised by an expiry or by a masked fault bit
    ensures r.forceStop <==> s.forceStop || Expires(cfg, s, x) || r.faults * cfg.faultCheckMask != {}
  {
    Debounce(cfg, s.(faults := s.faults + RangeFaults(cfg, x.pedal1, x.pedal2, x.brake)), x)
  }

  /** The cross-check part of Pedal::update, on the fault byte after the range checks. */
  function Debounce(cfg: PedalConfig, s: FaultState, x: Sample): (r: FaultState)
    // only the two cross-check bits change
    ensures r.faults - {FaultActive, FaultExceeded} == s.faults - {FaultActive, FaultExceeded}
    ensures FaultActive in r.faults <==> Divergent(cfg, x)
    ensures FaultExceeded in r.faults <==> FaultExceeded in s.faults || Expires(cfg, s, x)
    ensures r.faultStartMillis ==
              if Divergent(cfg, x) && FaultActive !in s.faults then x.millis else s.faultStartMillis
    ensures r.forceStop <==> s.forceStop || Expires(cfg, s, x) || r.faults * cfg.faultCheckMask != {}
  {
    if Divergent(cfg, x) then
      if FaultActive in s.faults && Sub32(x.millis, s.faultStartMillis) > DEBOUNCE_MILLIS then
        FaultState(s.faults + {FaultExceeded}, true, s.faultStartMillis)
      else
        var start := if FaultActive in s.faults then s.faultStartMillis else x.millis;
        MaskCheck(cfg, FaultState(s.faults + {FaultActive}, s.forceStop, start))
    else
      MaskCheck(cfg, FaultState(s.faults - {FaultActive}, s.forceStop, s.faultStartMillis))
  }

  /** Successive calls of Pedal::update. */
  function UpdateRun(cfg: PedalConfig, s: FaultState, xs: seq<Sample>): FaultState
    decreases |xs|
  {
    if xs == [] then s else UpdateRun(cfg, UpdateFaults(cfg, s, xs[0]), xs[1..])
  }

  /** Over any number of updates, force_stop, fault_exceeded and the range bits stay latched. */
  lemma {:induction false} UpdateRunKeepsLatches(cfg: PedalConfig, s: FaultState, xs: seq<Sample>)
    ensures s.forceStop ==> UpdateRun(cfg, s, xs).forceStop
    ensures FaultExceeded in s.faults ==> FaultExceeded in UpdateRun(cfg, s, xs).faults
    ensures s.faults * RANGE_BITS <= UpdateRun(cfg, s, xs).faults
    decreases |xs|
  {
    if xs != [] {
      UpdateRunKeepsLatches(cfg, UpdateFaults(cfg, s, xs[0]), xs[1..]);
    }
  }

  /**
   * While the divergence persists, the timer keeps the stamp `t0` of its first call until
   * the window expires; a call more than 100 ms after `t0` then latches the fault.
   */
  lemma {:induction false} DivergenceWindow(cfg: PedalConfig, s: FaultState, xs: seq<Sample>, t0: U32)
    requires xs != []
    requires (FaultActive in s.faults && s.faultStartMillis == t0) || (FaultExceeded in s.faults && s.forceStop)
    requires forall i :: 0 <= i < |xs| ==> Divergent(cfg, xs[i])
    requires Sub32(xs[|xs| - 1].millis, t0) > DEBOUNCE_MILLIS
    ensures FaultExceeded in UpdateRun(cfg, s, xs).faults && UpdateRun(cfg, s, xs).forceStop
    decreases |xs|
  {
    var s' := UpdateFaults(cfg, s, xs[0]);
    if |xs| == 1 {
      assert UpdateRun(cfg, s', xs[1..]) == s';
    } else {
      assert (FaultActive in s'.faults && s'.faultStartMillis == t0) || (FaultExceeded in s'.faults && s'.forceStop);
      assert xs[1..][|xs[1..]| - 1] == xs[|xs| - 1];
      DivergenceWindow(cfg, s', xs[1..], t0);
    }
  }

  /**
   * A divergence that starts on a fresh timer and is still present on a call more than
   * 100 ms after its first call latches fault_exceeded and force_stop.
   */
  lemma {:induction false} PersistentDivergenceForcesStop(cfg: PedalConfig, s: FaultState, xs: seq<Sample>)
    requires |xs| >= 2
    requires FaultActive !in s.faults
    requires forall i :: 0 <= i < |xs| ==> Divergent(cfg, xs[i])
    requires Sub32(xs[|xs| - 1].millis, xs[0].millis) > DEBOUNCE_MILLIS
    ensures FaultExceeded in UpdateRun(cfg, s, xs).faults && UpdateRun(cfg, s, xs).forceStop
  {
    var s' := UpdateFaults(cfg, s, xs[0]);
    assert FaultActive in s'.faults && s'.faultStartMillis == xs[0].millis;
    assert xs[1..][|xs[1..]| - 1] == xs[|xs| - 1];
    DivergenceWindow(cfg, s', xs[1..], xs[0].millis);
  }

  // ---------------------------------------------------------------------------------------
  // Torque mapping (Pedal::pedalTorqueMapping) and the torque frame (Pedal::sendFrame)
  // ---------------------------------------------------------------------------------------

  /** The mapped torque and whether the mapping sets the `screenshot` status bit. */
  datatype Torque = Torque(value: I16, screenshot: bool)

  /** `-x` returned as int16_t. */
  function Negated(x: I16): I16
  {
    ToInt16(-(x as int))
  }

  /** Regenerative braking is requested: enabled, brake past its dead zone, rpm fresh. */
  predicate RegenRequested(cfg: PedalConfig, brake: U16, motorNoRead: bool)
  {
    cfg.regenEnabled && brake > cfg.brakeMap.start && !motorNoRead
  }

  /** Regen applies: requested, and the throttle is inside its dead zone. */
  predicate RegenApplies(cfg: PedalConfig, pedal: U16, brake: U16, motorNoRead: bool)
  {
    RegenRequested(cfg, brake, motorNoRead) && pedal <= cfg.throttleMap.start
  }

  function ThrottleTorque(cfg: PedalConfig, pedal: U16, flipDir: bool): I16
  {
    if flipDir then Negated(cfg.throttleMap.interp(pedal)) else cfg.throttleMap.interp(pedal)
  }

  /** Pedal::pedalTorqueMapping, with the `screenshot` side effect returned as a flag. */
  function PedalTorqueMapping(cfg: PedalConfig, pedal: U16, brake: U16, motorRpm: I16, flipDir: bool,
                              motorNoRead: bool): (r: Torque)
    // both pedals pressed while regen is requested is made observable
    ensures r.screenshot <==> RegenRequested(cfg, brake, motorNoRead) && pedal > cfg.throttleMap.start
    // without regen: the throttle curve, negated exactly when the direction is flipped
    ensures !RegenApplies(cfg, pedal, brake, motorNoRead) ==>
              r.value == ThrottleTorque(cfg, pedal, flipDir)
    // with regen: zero below the minimum speed in the direction of travel, else the brake curve
    ensures RegenApplies(cfg, pedal, brake, motorNoRead) && !flipDir ==>
              r.value == if motorRpm < cfg.minRegenRpm then 0 else cfg.brakeMap.interp(brake)
    ensures RegenApplies(cfg, pedal, brake, motorNoRead) && flipDir ==>
              r.value == if motorRpm > -(cfg.minRegenRpm as int) then 0 else Negated(cfg.brakeMap.interp(brake))
  {
    if cfg.regenEnabled && brake > cfg.brakeMap.start && !motorNoRead then
      if pedal > cfg.throttleMap.start then
        Torque(ThrottleTorque(cfg, pedal, flipDir), true)
      else if !flipDir then
        if motorRpm < cfg.minRegenRpm then Torque(0, false) else Torque(cfg.brakeMap.interp(brake), false)
      else
        if motorRpm > -(cfg.minRegenRpm as int) then Torque(0, false) else Torque(Negated(cfg.brakeMap.interp(brake)), false)
    else
      Torque(ThrottleTorque(cfg, pedal, flipDir), false)
  }

  /**
   * Flipping the motor direction mirrors the mapping: the torque for a flipped motor turning
   * at `rpm` is the negation of the torque for an unflipped motor turning at `-rpm`, as long
   * as no value is the int16 minimum.
   */
  lemma FlipMirrorsTorque(cfg: PedalConfig, pedal: U16, brake: U16, rpm: I16, motorNoRead: bool)
    requires rpm != -0x8000
    requires cfg.throttleMap.interp(pedal) != -0x8000 && cfg.brakeMap.interp(brake) != -0x8000
    ensures PedalTorqueMapping(cfg, pedal, brake, rpm, true, motorNoRead).value
            == -PedalTorqueMapping(cfg, pedal, brake, -rpm, false, motorNoRead).value
  {
  }

  /** With a monotone throttle curve and no regen, more throttle never means less torque. */
  lemma ThrottleTorqueMonotone(cfg: PedalConfig, p: U16, q: U16, brake: U16, rpm: I16, motorNoRead: bool)
    requires Monotone(cfg.throttleMap)
    requires !RegenRequested(cfg, brake, motorNoRead)
    requires p <= q
    ensures PedalTorqueMapping(cfg, p, brake, rpm, false, motorNoRead).value
            <= PedalTorqueMapping(cfg, q, brake, rpm, false, motorNoRead).value
  {
  }

  /** What Pedal::sendFrame produces: new snapshots and status, motor record, torque_msg, frame sent. */
  datatype FrameOut = FrameOut(pedal: PedalData, motor: MotorData, torqueMsg: Frame, sent: Frame)

  /** torque_msg with bytes 1 and 2 replaced by the low and high byte of the torque. */
  function EncodeTorque(msg: Frame, t: I16): (r: Frame)
    ensures r.id == msg.id && r.dlc == msg.dlc && r.data[0] == msg.data[0] && r.data[3..] == msg.data[3..]
    // the receiver reads the torque back from bytes 1-2
    ensures I16OfBytes(r.data[1], r.data[2]) == t
  {
    Int16BytesRoundTrip(t);
    msg.(data := msg.data[1 := LowByte(t)][2 := HighByte(t)])
  }

  /**
   * Pedal::sendFrame given the filters' outputs. The snapshots are refreshed first; outside
   * Drive the stop frame is sent and no torque is computed; in Drive the torque is mapped
   * from the fresh 5 V snapshot (pedal_final) and sent as a little-endian int16.
   */
  function SendFrameStep(cfg: PedalConfig, pedal: PedalData, motor: MotorData, msg: Frame,
                         f5v: U16, f3v3: U16, fBrake: U16): (r: FrameOut)
    ensures r.pedal == pedal.(apps5v := f5v, apps3v3 := f3v3, brake := fBrake, status := r.pedal.status)
    ensures pedal.status.carStatus != Drive ==>
              r.sent == cfg.stopFrame && r.motor == motor && r.torqueMsg == msg && r.pedal.status == pedal.status
    ensures pedal.status.carStatus == Drive ==>
              var m := PedalTorqueMapping(cfg, f5v, fBrake, motor.motorRpm, cfg.flipMotorDir, pedal.status.motorNoRead);
              && r.motor == motor.(torqueVal := m.value)
              && r.pedal.status == pedal.status.(screenshot := pedal.status.screenshot || m.screenshot)
              && r.sent == r.torqueMsg
              && I16OfBytes(r.sent.data[1], r.sent.data[2]) == m.value
              && r.sent.id == msg.id && r.sent.dlc == msg.dlc && r.sent.data[0] == msg.data[0]
              && r.sent.data[3..] == msg.data[3..]
  {
    var p := pedal.(apps5v := f5v, apps3v3 := f3v3, brake := fBrake);
    if p.status.carStatus != Drive then
      FrameOut(p, motor, msg, cfg.stopFrame)
    else
      var m := PedalTorqueMapping(cfg, p.apps5v, p.brake, motor.motorRpm, cfg.flipMotorDir, p.status.motorNoRead);
      var p' := if m.screenshot then p.(status := p.status.(screenshot := true)) else p;
      var msg' := EncodeTorque(msg, m.value);
      FrameOut(p', motor.(torqueVal := m.value), msg', msg')
  }

  // ---------------------------------------------------------------------------------------
  // Motor telemetry (Pedal::readMotor) and cyclic-read registration (Pedal::initMotor)
  // ---------------------------------------------------------------------------------------

  /** The motor record, motor_no_read, and last_motor_read_millis. */
  datatype MotorReadState = MotorReadState(motor: MotorData, motorNoRead: bool, lastReadMillis: U32)

  /** A telemetry frame from the motor controller for register `reg`. */
  predicate IsMotorReply(cfg: PedalConfig, rx: RxResult, reg: Byte)
  {
    rx.Received? && rx.frame.id == cfg.motorRead && rx.frame.dlc > 3 && rx.frame.data[0] == reg
  }

  /** Pedal::readMotor on one non-blocking read. */
  function ReadMotorStep(cfg: PedalConfig, s: MotorReadState, millis: U32, rx: RxResult): (r: MotorReadState)
    // a speed frame: rpm from bytes 1-2, stamped, motor data fresh
    ensures IsMotorReply(cfg, rx, cfg.speedIst) ==>
              var d := rx.frame.data;
              r == MotorReadState(s.motor.(motorRpm := I16OfBytes(d[1], d[2])), false, millis)
    // a warning/error frame: error from bytes 1-2, warning from bytes 3-4, nothing else
    ensures IsMotorReply(cfg, rx, cfg.warnErr) && !IsMotorReply(cfg, rx, cfg.speedIst) ==>
              var d := rx.frame.data;
              r == s.(motor := s.motor.(motorError := U16OfBytes(d[1], d[2]), motorWarn := U16OfBytes(d[3], d[4])))
    // anything else: only the staleness check, which can only set motor_no_read
    ensures !IsMotorReply(cfg, rx, cfg.speedIst) && !IsMotorReply(cfg, rx, cfg.warnErr) ==>
              r == s.(motorNoRead := s.motorNoRead || Sub32(millis, s.lastReadMillis) > cfg.maxMotorReadMillis)
  {
    if rx.Received? && rx.frame.id == cfg.motorRead && rx.frame.dlc > 3 && rx.frame.data[0] == cfg.speedIst then
      var d := rx.frame.data;
      MotorReadState(s.motor.(motorRpm := I16OfBytes(d[1], d[2])), false, millis)
    else if rx.Received? && rx.frame.id == cfg.motorRead && rx.frame.dlc > 3 && rx.frame.data[0] == cfg.warnErr then
      var d := rx.frame.data;
      s.(motor := s.motor.(motorError := U16OfBytes(d[1], d[2]), motorWarn := U16OfBytes(d[3], d[4])))
    else if Sub32(millis, s.lastReadMillis) > cfg.maxMotorReadMillis then
      s.(motorNoRead := true)
    else
      s
  }

  /** One call of Pedal::readMotor: the loop's clock and what the read returned. */
  datatype MotorPoll = MotorPoll(millis: U32, rx: RxResult)

  /** Successive calls of Pedal::readMotor. */
  function ReadMotorRun(cfg: PedalConfig, s: MotorReadState, polls: seq<MotorPoll>): MotorReadState
    decreases |polls|
  {
    if polls == [] then s
    else ReadMotorRun(cfg, ReadMotorStep(cfg, s, polls[0].millis, polls[0].rx), polls[1..])
  }

  /** Once the motor data is stale, only a speed frame clears motor_no_read. */
  lemma {:induction false} StaleUntilSpeedFrame(cfg: PedalConfig, s: MotorReadState, polls: seq<MotorPoll>)
    requires s.motorNoRead
    requires forall i :: 0 <= i < |polls| ==> !IsMotorReply(cfg, polls[i].rx, cfg.speedIst)
    ensures ReadMotorRun(cfg, s, polls).motorNoRead
    decreases |polls|
  {
    if polls != [] {
      StaleUntilSpeedFrame(cfg, ReadMotorStep(cfg, s, polls[0].millis, polls[0].rx), polls[1..]);
    }
  }

  /**
   * Without a speed frame, motor_no_read is not set while every call is within
   * MAX_MOTOR_READ_MILLIS of the last speed read, and that stamp is kept.
   */
  lemma {:induction false} FreshWithinLimit(cfg: PedalConfig, s: MotorReadState, polls: seq<MotorPoll>)
    requires !s.motorNoRead
    requires forall i :: 0 <= i < |polls| ==> !IsMotorReply(cfg, polls[i].rx, cfg.speedIst)
    requires forall i :: 0 <= i < |polls| ==> Sub32(polls[i].millis, s.lastReadMillis) <= cfg.maxMotorReadMillis
    ensures !ReadMotorRun(cfg, s, polls).motorNoRead
    ensures ReadMotorRun(cfg, s, polls).lastReadMillis == s.lastReadMillis
    decreases |polls|
  {
    if polls != [] {
      FreshWithinLimit(cfg, ReadMotorStep(cfg, s, polls[0].millis, polls[0].rx), polls[1..]);
    }
  }

  /** The frame of Pedal::sendCyclicRead: read-register opcode, register, period in ms. */
  function CyclicRequest(cfg: PedalConfig, reg: Byte, periodMs: Byte): (f: Frame)
    ensures f.id == cfg.motorSend && f.dlc == 3
    ensures f.data[..3] == [cfg.regIdRead, reg, periodMs]
  {
    Frame(cfg.motorSend, 3, [cfg.regIdRead, reg, periodMs, 0, 0, 0, 0, 0])
  }

  /** What Pedal::initMotor leaves behind: the two latches and the requests it sent. */
  datatype InitOut = InitOut(gotSpeed: bool, gotError: bool, requests: seq<Frame>)

  /**
   * Pedal::initMotor: for each register not yet confirmed, send the cyclic-read request (the
   * retry loop ends with the one attempt the controller accepts) and poll once for its reply.
   */
  function InitMotorStep(cfg: PedalConfig, gotSpeed: bool, gotError: bool, rxSpeed: RxResult, rxError: RxResult)
    : (r: InitOut)
    ensures r.gotSpeed <==> gotSpeed || IsMotorReply(cfg, rxSpeed, cfg.speedIst)
    ensures r.gotError <==> gotError || IsMotorReply(cfg, rxError, cfg.warnErr)
    ensures r.requests ==
              (if gotSpeed then [] else [CyclicRequest(cfg, cfg.speedIst, cfg.rpmPeriod)])
              + (if gotError then [] else [CyclicRequest(cfg, cfg.warnErr, cfg.errPeriod)])
  {
    var speedReq := if gotSpeed then [] else [CyclicRequest(cfg, cfg.speedIst, cfg.rpmPeriod)];
    var speed := gotSpeed || IsMotorReply(cfg, rxSpeed, cfg.speedIst);
    var errorReq := if gotError then [] else [CyclicRequest(cfg, cfg.warnErr, cfg.errPeriod)];
    var error := gotError || IsMotorReply(cfg, rxError, cfg.warnErr);
    InitOut(speed, error, speedReq + errorReq)
  }

  /** Once both registrations are confirmed, calling initMotor again sends nothing and succeeds. */
  lemma InitMotorIdempotent(cfg: PedalConfig, rxSpeed: RxResult, rxError: RxResult)
    ensures InitMotorStep(cfg, true, true, rxSpeed, rxError) == InitOut(true, true, [])
  {
  }

  // ---------------------------------------------------------------------------------------
  // The Pedal object
  // ---------------------------------------------------------------------------------------

  class Pedal {
    const cfg: PedalConfig
    const car: CarState
    const motorCan: CanBus
    var faultStartMillis: U32
    var lastMotorReadMillis: U32
    var gotSpeed: bool
    var gotError: bool
    /** The samples given to pedal1_filter, pedal2_filter and brake_filter, oldest first. */
    var pedal1Samples: seq<U16>
    var pedal2Samples: seq<U16>
    var brakeSamples: seq<U16>
    var torqueMsg: Frame

    constructor (motorCan: CanBus, car: CarState, cfg: PedalConfig)
      ensures this.cfg == cfg && this.car == car && this.motorCan == motorCan
      ensures faultStartMillis == 0 && lastMotorReadMillis == 0 && !gotSpeed && !gotError
      ensures pedal1Samples == [] && pedal2Samples == [] && brakeSamples == []
      ensures torqueMsg == cfg.torqueFrame
    {
      this.cfg := cfg;
      this.car := car;
      this.motorCan := motorCan;
      faultStartMillis := 0;
      lastMotorReadMillis := 0;
      gotSpeed := false;
      gotError := false;
      pedal1Samples := [];
      pedal2Samples := [];
      brakeSamples := [];
      torqueMsg := cfg.torqueFrame;
    }

    /** pedal_final: the entry point binds it to car.pedal.apps_5v. */
    function PedalFinal(): U16
      reads car
    {
      car.pedal.apps5v
    }

    ghost function Faults(): FaultState
      reads this, car
    {
      FaultState(car.pedal.faults, car.pedal.status.forceStop, faultStartMillis)
    }

    method SetFault(b: FaultBit)
      modifies car`pedal
      ensures car.pedal == old(car.pedal).(faults := old(car.pedal.faults) + {b})
    {
      car.pedal := car.pedal.(faults := car.pedal.faults + {b});
    }

    method ForceStop()
      modifies car`pedal
      ensures car.pedal == old(car.pedal).(status := old(car.pedal.status).(forceStop := true))
    {
      car.pedal := car.pedal.(status := car.pedal.status.(forceStop := true));
    }

    /** Sets fault bit `b` when `cond` holds. */
    method SetFaultIf(cond: bool, b: FaultBit)
      modifies car`pedal
      ensures car.pedal == old(car.pedal).(faults := old(car.pedal.faults) + if cond then {b} else {})
    {
      if cond { SetFault(b); }
    }

    /** The range checks of Pedal::update: each violated bound sets its fault bit. */
    method CheckRanges(pedal1: U16, pedal2: U16, brake: U16)
      modifies car`pedal
      ensures car.pedal == old(car.pedal).(faults := old(car.pedal.faults) + RangeFaults(cfg, pedal1, pedal2, brake))
    {
      SetFaultIf(pedal1 < cfg.apps5vMin, Apps5vLow);
      SetFaultIf(pedal1 > cfg.apps5vMax, Apps5vHigh);
      SetFaultIf(pedal2 < cfg.apps3v3Min, Apps3v3Low);
      SetFaultIf(pedal2 > cfg.apps3v3Max, Apps3v3High);
      SetFaultIf(brake < cfg.brakeMin, BrakeLow);
      SetFaultIf(brake > cfg.brakeMax, BrakeHigh);
    }

    /** Pedal::update: feed the filters, range-check the raw samples, debounce the cross-check. */
    method Update(pedal1: U16, pedal2: U16, brake: U16)
      modifies this`pedal1Samples, this`pedal2Samples, this`brakeSamples, this`faultStartMillis, car`pedal
      ensures var r := UpdateFaults(cfg, old(Faults()),
                                    Sample(car.millis, old(car.pedal.apps5v), old(car.pedal.apps3v3), pedal1, pedal2, brake));
              && car.pedal == old(car.pedal).(faults := r.faults, status := old(car.pedal.status).(forceStop := r.forceStop))
              && faultStartMillis == r.faultStartMillis
      ensures pedal1Samples == old(pedal1Samples) + [pedal1]
      ensures pedal2Samples == old(pedal2Samples) + [pedal2]
      ensures brakeSamples == old(brakeSamples) + [brake]
    {
      ghost var s0 := Faults();
      ghost var x := Sample(car.millis, car.pedal.apps5v, car.pedal.apps3v3, pedal1, pedal2, brake);
      pedal1Samples := pedal1Samples + [pedal1];
      pedal2Samples := pedal2Samples + [pedal2];
      brakeSamples := brakeSamples + [brake];
      CheckRanges(pedal1, pedal2, brake);
      CrossCheck(x);
    }

    /** The debounced cross-check of Pedal::update, after the range checks. */
    method CrossCheck(ghost x: Sample)
      requires x.millis == car.millis && x.apps5v == car.pedal.apps5v && x.apps3v3 == car.pedal.apps3v3
      modifies this`faultStartMillis, car`pedal
      ensures var r := Debounce(cfg, old(Faults()), x);
              && car.pedal == old(car.pedal).(faults := r.faults, status := old(car.pedal.status).(forceStop := r.forceStop))
              && faultStartMillis == r.faultStartMillis
    {
      if CheckPedalFault(cfg, car.pedal.apps5v, car.pedal.apps3v3) {
        if FaultActive in car.pedal.faults {
          if Sub32(car.millis, faultStartMillis) > DEBOUNCE_MILLIS {
            SetFault(FaultExceeded);
            ForceStop();
            return;
          }
        } else {
          faultStartMillis := car.millis;
        }
        SetFault(FaultActive);
      } else {
        car.pedal := car.pedal.(faults := car.pedal.faults - {FaultActive});
      }

      if car.pedal.faults * cfg.faultCheckMask != {} {
        ForceStop();
      }
    }

    /** Pedal::sendFrame: refresh the snapshots, then send the stop frame or the torque frame. */
    method SendFrame()
      modifies car`pedal, car`motor, this`torqueMsg, motorCan
      ensures var r := SendFrameStep(cfg, old(car.pedal), old(car.motor), old(torqueMsg),
                                     cfg.filter(pedal1Samples), cfg.filter(pedal2Samples), cfg.filter(brakeSamples));
              && car.pedal == r.pedal && car.motor == r.motor && torqueMsg == r.torqueMsg
              && motorCan.sent == old(motorCan.sent) + [r.sent]
    {
      car.pedal := car.pedal.(apps5v := cfg.filter(pedal1Samples), apps3v3 := cfg.filter(pedal2Samples),
                              brake := cfg.filter(brakeSamples));

      if car.pedal.status.carStatus != Drive {
        motorCan.SendMessage(cfg.stopFrame);
        return;
      }

      var m := PedalTorqueMapping(cfg, PedalFinal(), car.pedal.brake, car.motor.motorRpm, cfg.flipMotorDir,
                                  car.pedal.status.motorNoRead);
      if m.screenshot {
        car.pedal := car.pedal.(status := car.pedal.status.(screenshot := true));
      }
      car.motor := car.motor.(torqueVal := m.value);

      torqueMsg := torqueMsg.(data := torqueMsg.data[1 := LowByte(car.motor.torqueVal)]);
      torqueMsg := torqueMsg.(data := torqueMsg.data[2 := HighByte(car.motor.torqueVal)]);
      motorCan.SendMessage(torqueMsg);
    }

    /** Pedal::readMotor on the outcome of one non-blocking read. */
    method ReadMotor(rx: RxResult)
      modifies car`pedal, car`motor, this`lastMotorReadMillis
      ensures var r := ReadMotorStep(cfg, MotorReadState(old(car.motor), old(car.pedal.status.motorNoRead),
                                                         old(lastMotorReadMillis)), car.millis, rx);
              && car.motor == r.motor && lastMotorReadMillis == r.lastReadMillis
              && car.pedal == old(car.pedal).(status := old(car.pedal.status).(motorNoRead := r.motorNoRead))
    {
      if rx.Received? {
        var f := rx.frame;
        if f.id == cfg.motorRead && f.dlc > 3 {
          if f.data[0] == cfg.speedIst {
            lastMotorReadMillis := car.millis;
            car.pedal := car.pedal.(status := car.pedal.status.(motorNoRead := false));
            car.motor := car.motor.(motorRpm := I16OfBytes(f.data[1], f.data[2]));
            return;
          } else if f.data[0] == cfg.warnErr {
            car.motor := car.motor.(motorError := U16OfBytes(f.data[1], f.data[2]));
            car.motor := car.motor.(motorWarn := U16OfBytes(f.data[3], f.data[4]));
            return;
          }
        }
      }
      if Sub32(car.millis, lastMotorReadMillis) > cfg.maxMotorReadMillis {
        car.pedal := car.pedal.(status := car.pedal.status.(motorNoRead := true));
      }
    }

    /** Pedal::sendCyclicRead, for the attempt that the controller accepts. */
    method SendCyclicRead(reg: Byte, periodMs: Byte)
      modifies motorCan
      ensures motorCan.sent == old(motorCan.sent) + [CyclicRequest(cfg, reg, periodMs)]
    {
      motorCan.SendMessage(Frame(cfg.motorSend, 3, [cfg.regIdRead, reg, periodMs, 0, 0, 0, 0, 0]));
    }

    /** Pedal::checkCyclicRead: the read returned the controller's reply for `reg`. */
    method CheckCyclicRead(reg: Byte, rx: RxResult) returns (ok: bool)
      ensures ok <==> IsMotorReply(cfg, rx, reg)
    {
      ok := false;
      if rx.Received? {
        var f := rx.frame;
        ok := f.id == cfg.motorRead && f.dlc > 3 && f.data[0] == reg;
      }
    }

    /** Pedal::initMotor; `rxSpeed` and `rxError` are the two polls for the replies. */
    method InitMotor(rxSpeed: RxResult, rxError: RxResult) returns (ok: bool)
      modifies this`gotSpeed, this`gotError, motorCan
      ensures var r := InitMotorStep(cfg, old(gotSpeed), old(gotError), rxSpeed, rxError);
              && gotSpeed == r.gotSpeed && gotError == r.gotError
              && motorCan.sent == old(motorCan.sent) + r.requests
      ensures ok == (gotSpeed && gotError)
    {
      if !gotSpeed {
        SendCyclicRead(cfg.speedIst, cfg.rpmPeriod);
        gotSpeed := CheckCyclicRead(cfg.speedIst, rxSpeed);
      }
      if !gotError {
        SendCyclicRead(cfg.warnErr, cfg.errPeriod);
        gotError := CheckCyclicRead(cfg.warnErr, rxError);
      }
      ok := gotSpeed && gotError;
    }
  }
}
