/**
 * CarState: the single aggregate that the supervisor owns and that the pedal, BMS and
 * supervisor code mutate in place through a shared reference.
 */
module CarState {
  import opened Words

  /** The eight bits of `car.pedal.faults`, all owned by the pedal subsystem. */
  datatype FaultBit =
    | Apps5vLow | Apps5vHigh | Apps3v3Low | Apps3v3High | BrakeLow | BrakeHigh
    | FaultActive | FaultExceeded

  /** The bits that the range checks on the raw samples set. */
  const RANGE_BITS: set<FaultBit> := {Apps5vLow, Apps5vHigh, Apps3v3Low, Apps3v3High, BrakeLow, BrakeHigh}

  /** `car.pedal.status.bits.car_status`; Unknown stands for any other stored value. */
  datatype CarStatus = Init | Startin | Bussin | Drive | Unknown

  /** The status bits that the core reads and writes. */
  datatype Status = Status(
    carStatus: CarStatus,
    hvReady: bool,      // written by the BMS handshake
    bmsNoMsg: bool,     // written by the BMS handshake
    forceStop: bool,    // written by the pedal subsystem, read by the supervisor
    motorNoRead: bool,  // written by the pedal subsystem
    stateUnknown: bool, // written by the supervisor
    screenshot: bool)   // both pedals pressed while regen was requested

  /** `car.pedal`: filtered sensor snapshots, the status bits and the fault byte. */
  datatype PedalData = PedalData(
    apps5v: U16,
    apps3v3: U16,
    brake: U16,
    hallSensor: U16,
    status: Status,
    faults: set<FaultBit>)

  /** `car.motor`: the torque last commanded and the telemetry last received. */
  datatype MotorData = MotorData(torqueVal: I16, motorRpm: I16, motorError: U16, motorWarn: U16)

  const ZERO_STATUS: Status := Status(Init, false, false, false, false, false, false)

  class CarState {
    /** Millisecond clock snapshot, refreshed once per loop iteration. */
    var millis: U32
    var pedal: PedalData
    var motor: MotorData
    /** When the car status last changed, for the timed transitions. */
    var statusMillis: U32

    /** The zero-initialised global `car` of the entry point. */
    constructor ()
      ensures millis == 0 && statusMillis == 0
      ensures pedal == PedalData(0, 0, 0, 0, ZERO_STATUS, {})
      ensures motor == MotorData(0, 0, 0, 0)
    {
      millis := 0;
      pedal := PedalData(0, 0, 0, 0, ZERO_STATUS, {});
      motor := MotorData(0, 0, 0, 0);
      statusMillis := 0;
    }
  }
}
