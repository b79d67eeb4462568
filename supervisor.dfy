/**
 * The entry point (src/main.cpp): the wiring of the components, the task registration of
 * setup(), and loop() — sample the pedals, let the scheduler dispatch the bus tasks, then
 * advance the car status machine Init → Startin → Bussin → Drive.
 */
module Supervisor {
  import opened Words
  import opened Can
  import opened CarState
  import opened Pedal
  import opened Bms
  import opened Scheduler

  /** The task functions that main.cpp hands to the scheduler. */
  datatype TaskId = SchedulerPedal | SchedulerBms | TelemetryPedal | TelemetryMotor | TelemetryBms

  /** McpIndex: the scheduler row of each bus, in the order of the MCPS array. */
  const MOTOR_BUS: Byte := 0
  const BMS_BUS: Byte := 1
  const DATALOGGER_BUS: Byte := 2

  const NUM_MCP: Byte := 3
  /** The NUM_TASKS the entry point instantiates the scheduler with. */
  const NUM_TASKS: Byte := 2
  const PERIOD_US: U32 := 10000
  const SPIN_US: U32 := 500

  const BUSSIN_MILLIS: int := 2000
  const BMS_OVERRIDE_MILLIS: int := 1000
  /** The BMS poll runs every 5 ticks while the car is starting. */
  const BMS_TASK_TICKS: Byte := 5

  /** BRAKE_TABLE[0].in and THROTTLE_TABLE[0].in, from a header that is not part of this model. */
  datatype VcuConfig = VcuConfig(brakeThreshold: U16, throttleTableStart: U16)

  // ---------------------------------------------------------------------------------------
  // The car status machine as a function
  // ---------------------------------------------------------------------------------------

  /** A digitalWrite the iteration performs on a pin, if any. */
  datatype PinWrite = Keep | Low | High

  /** The scheduler call the iteration makes for the BMS poll, if any. */
  datatype TaskChange = NoChange | AddBmsTask | RemoveBmsTask

  /** What the status machine reads: the state after sampling and dispatch, and the button. */
  datatype FsmIn = FsmIn(
    status: CarStatus, forceStop: bool, hvReady: bool, button: bool, brakePressed: bool,
    millis: U32, statusMillis: U32, pedalFinal: U16)

  /** What it writes; `flagUnknown` says whether it sets state_unknown. */
  datatype FsmOut = FsmOut(
    status: CarStatus, statusMillis: U32, flagUnknown: bool, buzzer: PinWrite, frg: PinWrite, task: TaskChange)

  /** The next stage of the start-up sequence. */
  function Next(s: CarStatus): CarStatus
  {
    match s
    case Init => Startin
    case Startin => Bussin
    case Bussin => Drive
    case Drive => Drive
    case Unknown => Init
  }

  /** The switch of loop(), for a status other than Drive. */
  function Switch(x: FsmIn): (r: FsmOut)
    // a case either stays, moves one stage on, or falls back to Init
    ensures r.status == x.status || r.status == Next(x.status) || r.status == Init
    // staying writes nothing
    ensures r.status == x.status ==> r == FsmOut(x.status, x.statusMillis, false, Keep, Keep, NoChange)
    // a stage change is stamped now, except that Drive keeps the stamp of Bussin
    ensures r.status != x.status && x.status != Bussin ==> r.statusMillis == x.millis
    ensures x.status == Bussin ==> r.statusMillis == x.statusMillis
    // the BMS poll changes exactly on entering and on leaving Startin
    ensures r.task != NoChange <==> (x.status == Init && r.status == Startin) || (x.status == Startin && r.status != Startin)
  {
    var stay := FsmOut(x.status, x.statusMillis, false, Keep, Keep, NoChange);
    match x.status
    case Init =>
      if x.button && x.brakePressed then FsmOut(Startin, x.millis, false, Keep, Keep, AddBmsTask) else stay
    case Startin =>
      if !x.button || !x.brakePressed then FsmOut(Init, x.millis, false, Keep, Keep, RemoveBmsTask)
      else if x.hvReady || Sub32(x.millis, x.statusMillis) >= BMS_OVERRIDE_MILLIS then
        FsmOut(Bussin, x.millis, false, High, Keep, RemoveBmsTask)
      else stay
    case Bussin =>
      if Sub32(x.millis, x.statusMillis) >= BUSSIN_MILLIS then FsmOut(Drive, x.statusMillis, false, Low, High, NoChange)
      else stay
    case Drive => stay
    case Unknown => FsmOut(Init, x.millis, true, Keep, Keep, NoChange)
  }

  /**
   * The status machine of loop(): the force-stop override, the early return in Drive, the
   * switch, and then the throttle interlock.
   */
  function FsmStep(x: FsmIn, throttleStart: U16): (r: FsmOut)
    // force_stop: back to Init with BUZZER and FRG low, and nothing else runs
    ensures x.forceStop ==> r == FsmOut(Init, x.statusMillis, false, Low, Low, NoChange)
    // Drive returns at once: no transition, no interlock, no pin written
    ensures !x.forceStop && x.status == Drive ==> r == FsmOut(Drive, x.statusMillis, false, Keep, Keep, NoChange)
    // the BMS poll is registered exactly on leaving Init for Startin
    ensures r.task == AddBmsTask <==> !x.forceStop && x.status == Init && x.button && x.brakePressed
    // ... and unregistered exactly when Startin is left by the switch
    ensures r.task == RemoveBmsTask <==>
              !x.forceStop && x.status == Startin &&
              (!x.button || !x.brakePressed || x.hvReady || Sub32(x.millis, x.statusMillis) >= BMS_OVERRIDE_MILLIS)
    // the buzzer sounds exactly on entering Bussin, FRG is energised exactly on Bussin's timeout
    ensures r.buzzer == High <==>
              !x.forceStop && x.status == Startin && x.button && x.brakePressed &&
              (x.hvReady || Sub32(x.millis, x.statusMillis) >= BMS_OVERRIDE_MILLIS)
    ensures r.frg == High <==> !x.forceStop && x.status == Bussin && Sub32(x.millis, x.statusMillis) >= BUSSIN_MILLIS
    // an unrecognised status is flagged and reset
    ensures r.flagUnknown <==> !x.forceStop && x.status == Unknown
    // a pressed throttle outside Drive forces Init
    ensures !x.forceStop && x.status != Drive && x.pedalFinal > throttleStart ==>
              r.status == Init && r.statusMillis == x.millis
    // Drive is entered only from Bussin after its dwell, with force_stop clear and the throttle released
    ensures r.status == Drive <==>
              !x.forceStop &&
              (x.status == Drive ||
               (x.status == Bussin && Sub32(x.millis, x.statusMillis) >= BUSSIN_MILLIS && x.pedalFinal <= throttleStart))
    // no stage is skipped
    ensures r.status == Init || r.status == x.status || r.status == Next(x.status)
    ensures r.status != Unknown
  {
    if x.forceStop then FsmOut(Init, x.statusMillis, false, Low, Low, NoChange)
    else if x.status == Drive then FsmOut(Drive, x.statusMillis, false, Keep, Keep, NoChange)
    else
      var s := Switch(x);
      if x.pedalFinal > throttleStart then s.(status := Init, statusMillis := x.millis) else s
  }

  /** The inputs of one iteration other than the status and its stamp. */
  datatype Env = Env(forceStop: bool, hvReady: bool, button: bool, brakePressed: bool, millis: U32, pedalFinal: U16)

  /** Successive iterations of the status machine: the final status and status_millis. */
  function FsmRun(status: CarStatus, statusMillis: U32, envs: seq<Env>, throttleStart: U16): (CarStatus, U32)
    decreases |envs|
  {
    if envs == [] then (status, statusMillis)
    else
      var e := envs[0];
      var r := FsmStep(FsmIn(status, e.forceStop, e.hvReady, e.button, e.brakePressed, e.millis, statusMillis, e.pedalFinal),
                       throttleStart);
      FsmRun(r.status, r.statusMillis, envs[1..], throttleStart)
  }

  /** A stage's position in the start-up sequence. */
  function Rank(s: CarStatus): nat
  {
    match s
    case Init => 0
    case Startin => 1
    case Bussin => 2
    case Drive => 3
    case Unknown => 0
  }

  /** Each iteration advances at most one stage, so Drive is at least three iterations from Init. */
  lemma {:induction false} AtMostOneStagePerIteration(status: CarStatus, statusMillis: U32, envs: seq<Env>, throttleStart: U16)
    ensures Rank(FsmRun(status, statusMillis, envs, throttleStart).0) <= Rank(status) + |envs|
    decreases |envs|
  {
    if envs != [] {
      var e := envs[0];
      var r := FsmStep(FsmIn(status, e.forceStop, e.hvReady, e.button, e.brakePressed, e.millis, statusMillis, e.pedalFinal),
                       throttleStart);
      AtMostOneStagePerIteration(r.status, r.statusMillis, envs[1..], throttleStart);
    }
  }

  /** While force_stop stays set (the pedal code never clears it), the car stays in Init. */
  lemma {:induction false} ForceStopHoldsInit(status: CarStatus, statusMillis: U32, envs: seq<Env>, throttleStart: U16)
    requires envs != []
    requires forall k :: 0 <= k < |envs| ==> envs[k].forceStop
    ensures FsmRun(status, statusMillis, envs, throttleStart) == (Init, statusMillis)
    decreases |envs|
  {
    if |envs| > 1 {
      ForceStopHoldsInit(Init, statusMillis, envs[1..], throttleStart);
    }
  }

  /** Without the button held and the brake pressed, the car never leaves Init. */
  lemma {:induction false} NoStartWithoutButtonAndBrake(statusMillis: U32, envs: seq<Env>, throttleStart: U16)
    requires forall k :: 0 <= k < |envs| ==> !(envs[k].button && envs[k].brakePressed)
    ensures FsmRun(Init, statusMillis, envs, throttleStart).0 == Init
    decreases |envs|
  {
    if envs != [] {
      var e := envs[0];
      var r := FsmStep(FsmIn(Init, e.forceStop, e.hvReady, e.button, e.brakePressed, e.millis, statusMillis, e.pedalFinal),
                       throttleStart);
      NoStartWithoutButtonAndBrake(r.statusMillis, envs[1..], throttleStart);
    }
  }

  /** The scheduler table after the iteration's call for the BMS poll. */
  function ApplyTaskChange(tbl: Table<TaskId>, cap: nat, c: TaskChange): Table<TaskId>
    requires BMS_BUS as int < |tbl|
  {
    match c
    case NoChange => tbl
    case AddBmsTask => AddSpec(tbl, cap, BMS_BUS as int, SchedulerBms, BMS_TASK_TICKS).0
    case RemoveBmsTask => RemoveSpec(tbl, BMS_BUS as int, SchedulerBms).0
  }

  /** A pin's level after an iteration. */
  function PinAfter(level: bool, w: PinWrite): bool
  {
    match w
    case Keep => level
    case Low => false
    case High => true
  }

  // ---------------------------------------------------------------------------------------
  // Task registration in setup()
  // ---------------------------------------------------------------------------------------

  /** The four addTask calls of setup() on an empty table with `cap` slots per bus. */
  function Registration(cap: nat): (r: (Table<TaskId>, seq<bool>))
    ensures |r.0| == NUM_MCP as int && |r.1| == 4 && WellFormed(r.0, cap)
    // nothing is registered on the BMS bus before the car starts
    ensures r.0[BMS_BUS] == []
    ensures r.1[0] <==> cap >= 1
    // a registration that reports success leaves its task on its bus
    ensures r.1[3] ==> exists j :: 0 <= j < |r.0[DATALOGGER_BUS]| && r.0[DATALOGGER_BUS][j] == Slot(TelemetryBms, 10, 10)
  {
    var t0: Table<TaskId> := [[], [], []];
    var a1 := AddSpec(t0, cap, MOTOR_BUS as int, SchedulerPedal, 1);
    var a2 := AddSpec(a1.0, cap, DATALOGGER_BUS as int, TelemetryPedal, 1);
    var a3 := AddSpec(a2.0, cap, DATALOGGER_BUS as int, TelemetryMotor, 1);
    var a4 := AddSpec(a3.0, cap, DATALOGGER_BUS as int, TelemetryBms, 10);
    (a4.0, [a1.1, a2.1, a3.1, a4.1])
  }

  /**
   * With the two slots per bus of the entry point, the third Datalogger task does not fit:
   * the fourth addTask fails (its result is ignored) and the BMS telemetry is never scheduled.
   */
  lemma RegistrationAsWritten()
    ensures Registration(NUM_TASKS as int).1 == [true, true, true, false]
    ensures Registration(NUM_TASKS as int).0 ==
              [[Slot(SchedulerPedal, 1, 1)], [], [Slot(TelemetryPedal, 1, 1), Slot(TelemetryMotor, 1, 1)]]
  {
    RegisterFirstThree(2);
    var t3: Table<TaskId> := [[Slot(SchedulerPedal, 1, 1)], [], [Slot(TelemetryPedal, 1, 1), Slot(TelemetryMotor, 1, 1)]];
    FindMissing(t3[2], TelemetryBms);
  }

  /** With three slots per bus (the most tasks any bus is given), every task is registered. */
  lemma RegistrationWithRoom()
    ensures Registration(3).1 == [true, true, true, true]
    ensures Registration(3).0 ==
              [[Slot(SchedulerPedal, 1, 1)], [],
               [Slot(TelemetryPedal, 1, 1), Slot(TelemetryMotor, 1, 1), Slot(TelemetryBms, 10, 10)]]
  {
    RegisterFirstThree(3);
    var t3: Table<TaskId> := [[Slot(SchedulerPedal, 1, 1)], [], [Slot(TelemetryPedal, 1, 1), Slot(TelemetryMotor, 1, 1)]];
    FindMissing(t3[2], TelemetryBms);
    var t4 := t3[2 := t3[2] + [Slot(TelemetryBms, 10, 10)]];
    assert t4[2] == [Slot(TelemetryPedal, 1, 1), Slot(TelemetryMotor, 1, 1), Slot(TelemetryBms, 10, 10)];
    assert |t4| == 3 && t4[0] == t3[0] && t4[1] == [];
    assert t4 ==
           [[Slot(SchedulerPedal, 1, 1)], [],
            [Slot(TelemetryPedal, 1, 1), Slot(TelemetryMotor, 1, 1), Slot(TelemetryBms, 10, 10)]];
  }

  /** The first three registrations fit whenever a bus has room for two tasks. */
  lemma RegisterFirstThree(cap: nat)
    requires cap >= 2
    ensures var t0: Table<TaskId> := [[], [], []];
            var a1 := AddSpec(t0, cap, MOTOR_BUS as int, SchedulerPedal, 1);
            var a2 := AddSpec(a1.0, cap, DATALOGGER_BUS as int, TelemetryPedal, 1);
            var a3 := AddSpec(a2.0, cap, DATALOGGER_BUS as int, TelemetryMotor, 1);
            a1.1 && a2.1 && a3.1 &&
            a3.0 == [[Slot(SchedulerPedal, 1, 1)], [], [Slot(TelemetryPedal, 1, 1), Slot(TelemetryMotor, 1, 1)]]
  {
    var t0: Table<TaskId> := [[], [], []];
    FindMissing(t0[0], SchedulerPedal);
    var t1 := t0[0 := t0[0] + [Slot(SchedulerPedal, 1, 1)]];
    assert AddSpec(t0, cap, 0, SchedulerPedal, 1) == (t1, true);
    FindMissing(t1[2], TelemetryPedal);
    var t2 := t1[2 := t1[2] + [Slot(TelemetryPedal, 1, 1)]];
    assert AddSpec(t1, cap, 2, TelemetryPedal, 1) == (t2, true);
    FindMissing(t2[2], TelemetryMotor);
    var t3 := t2[2 := t2[2] + [Slot(TelemetryMotor, 1, 1)]];
    assert AddSpec(t2, cap, 2, TelemetryMotor, 1) == (t3, true);
    assert t3[2] == [Slot(TelemetryPedal, 1, 1), Slot(TelemetryMotor, 1, 1)];
    assert |t3| == 3 && t3[0] == [Slot(SchedulerPedal, 1, 1)] && t3[1] == [];
    assert t3 == [[Slot(SchedulerPedal, 1, 1)], [], [Slot(TelemetryPedal, 1, 1), Slot(TelemetryMotor, 1, 1)]];
  }

  lemma FindMissing(row: seq<Slot<TaskId>>, t: TaskId)
    requires forall k :: 0 <= k < |row| ==> row[k].task != t
    ensures Find(row, t) == -1
  {
  }

  /** What one task may change in the shared pedal record (see Vcu.RunTask). */
  predicate TaskKeeps(p0: PedalData, p: PedalData, t: TaskId)
  {
    && p.faults == p0.faults && p.hallSensor == p0.hallSensor
    && p.status.forceStop == p0.status.forceStop && p.status.carStatus == p0.status.carStatus
    && p.status.stateUnknown == p0.status.stateUnknown
    && (p0.status.hvReady ==> p.status.hvReady)
    && (p.status.hvReady != p0.status.hvReady ==> t == SchedulerBms)
    && (t != SchedulerPedal ==> p.apps5v == p0.apps5v && p.brake == p0.brake)
  }

  /** What a whole dispatch pass of `fired` may change in the shared pedal record. */
  predicate PassKeeps(p0: PedalData, p: PedalData, fired: seq<TaskId>)
  {
    && p.faults == p0.faults && p.hallSensor == p0.hallSensor
    && p.status.forceStop == p0.status.forceStop && p.status.carStatus == p0.status.carStatus
    && p.status.stateUnknown == p0.status.stateUnknown
    && (p0.status.hvReady ==> p.status.hvReady)
    && (p.status.hvReady != p0.status.hvReady ==> SchedulerBms in fired)
    && (SchedulerPedal !in fired ==> p.apps5v == p0.apps5v && p.brake == p0.brake)
  }

  /** A pass followed by one more task is a pass over the longer sequence. */
  lemma PassKeepsStep(p0: PedalData, p1: PedalData, p2: PedalData, fired: seq<TaskId>, t: TaskId)
    requires PassKeeps(p0, p1, fired) && TaskKeeps(p1, p2, t)
    ensures PassKeeps(p0, p2, fired + [t])
  {
    assert t in fired + [t];
    assert forall u :: u in fired ==> u in fired + [t];
  }

  // ---------------------------------------------------------------------------------------
  // The entry point's objects and loop()
  // ---------------------------------------------------------------------------------------

  /** The inputs of one loop() iteration: clocks, ADC readings, the button, and the two bus reads. */
  datatype LoopIn = LoopIn(
    millis: U32, micros: U32, apps5v: U16, apps3v3: U16, brake: U16, hall: U16,
    button: bool, motorRx: RxResult, bmsRx: RxResult)

  class Vcu {
    const vcfg: VcuConfig
    const car: CarState
    const pedal: Pedal
    const bms: Bms
    const scheduler: Scheduler<TaskId>
    var brakePressed: bool
    /** The last level written to each output pin. */
    var buzzer: bool
    var frg: bool
    var brakeLight: bool

    ghost predicate Valid()
      reads this, scheduler, scheduler.tasks, scheduler.taskTicks, scheduler.taskCounters, scheduler.taskCnt
    {
      && pedal.car == car && bms.car == car
      && scheduler.Valid() && scheduler.numBuses == NUM_MCP
    }

    /** The global objects of main.cpp; `numTasks` is the scheduler's NUM_TASKS. */
    constructor (vcfg: VcuConfig, cfg: PedalConfig, startHvMsg: Frame, rxBmsMsg: Frame,
                 motorCan: CanBus, bmsCan: CanBus, numTasks: Byte, now: U32)
      ensures Valid() && this.vcfg == vcfg
      ensures fresh(car) && fresh(pedal) && fresh(bms) && fresh(scheduler)
      ensures pedal.cfg == cfg && pedal.motorCan == motorCan && bms.bmsCan == bmsCan && bms.startHvMsg == startHvMsg
      ensures scheduler.numTasks == numTasks && scheduler.table == [[], [], []]
      ensures !car.pedal.status.hvReady && car.pedal.status.carStatus == Init
      ensures !brakePressed && !buzzer && !frg && !brakeLight
    {
      this.vcfg := vcfg;
      var c := new CarState();
      var p := new Pedal(motorCan, c, cfg);
      var b := new Bms(bmsCan, c, startHvMsg, rxBmsMsg);
      var s := new Scheduler<TaskId>(NUM_MCP, numTasks, PERIOD_US, SPIN_US, now);
      car, pedal, bms, scheduler := c, p, b, s;
      brakePressed, buzzer, frg, brakeLight := false, false, false, false;
      new;
      assert scheduler.table == [[], [], []];
    }

    /** The task registration of setup(); the results are what the four addTask calls return. */
    method Setup() returns (results: seq<bool>)
      requires Valid() && scheduler.table == [[], [], []]
      modifies scheduler`table, scheduler.tasks, scheduler.taskTicks, scheduler.taskCounters, scheduler.taskCnt
      ensures Valid()
      ensures (scheduler.table, results) == Registration(scheduler.numTasks as int)
    {
      var r1 := scheduler.AddTask(MOTOR_BUS, SchedulerPedal, 1);
      var r2 := scheduler.AddTask(DATALOGGER_BUS, TelemetryPedal, 1);
      var r3 := scheduler.AddTask(DATALOGGER_BUS, TelemetryMotor, 1);
      var r4 := scheduler.AddTask(DATALOGGER_BUS, TelemetryBms, 10);
      results := [r1, r2, r3, r4];
    }

    /** One scheduled task: the pedal task sends the frame and reads the motor, the BMS task polls. */
    method RunTask(t: TaskId, motorRx: RxResult, bmsRx: RxResult)
      requires Valid()
      modifies car`pedal, car`motor, pedal`torqueMsg, pedal`lastMotorReadMillis, pedal.motorCan,
               bms`rxBmsMsg, bms.bmsCan
      ensures Valid()
      ensures t == SchedulerPedal ==>
                var f := SendFrameStep(pedal.cfg, old(car.pedal), old(car.motor), old(pedal.torqueMsg),
                                       pedal.cfg.filter(pedal.pedal1Samples), pedal.cfg.filter(pedal.pedal2Samples),
                                       pedal.cfg.filter(pedal.brakeSamples));
                var m := ReadMotorStep(pedal.cfg, MotorReadState(f.motor, f.pedal.status.motorNoRead,
                                                                 old(pedal.lastMotorReadMillis)), car.millis, motorRx);
                && car.pedal == f.pedal.(status := f.pedal.status.(motorNoRead := m.motorNoRead))
                && car.motor == m.motor && pedal.torqueMsg == f.torqueMsg && pedal.lastMotorReadMillis == m.lastReadMillis
                && pedal.motorCan.sent == old(pedal.motorCan.sent) + [f.sent]
                && bms.rxBmsMsg == old(bms.rxBmsMsg)
      ensures t == SchedulerBms ==>
                var r := CheckHvStep(old(car.pedal.status), old(bms.rxBmsMsg), bmsRx);
                && car.pedal == old(car.pedal).(status := r.status)
                && bms.rxBmsMsg == r.rxBuffer
                && bms.bmsCan.sent == old(bms.bmsCan.sent) + (if r.sentStart then [bms.startHvMsg] else [])
                && car.motor == old(car.motor) && pedal.torqueMsg == old(pedal.torqueMsg)
                && pedal.lastMotorReadMillis == old(pedal.lastMotorReadMillis)
      // the telemetry tasks touch nothing that this model holds
      ensures t !in {SchedulerPedal, SchedulerBms} ==>
                && car.pedal == old(car.pedal) && car.motor == old(car.motor)
                && pedal.torqueMsg == old(pedal.torqueMsg) && pedal.lastMotorReadMillis == old(pedal.lastMotorReadMillis)
                && bms.rxBmsMsg == old(bms.rxBmsMsg)
                && pedal.motorCan.sent == old(pedal.motorCan.sent) && bms.bmsCan.sent == old(bms.bmsCan.sent)
    {
      match t
      case SchedulerPedal =>
        pedal.SendFrame();
        pedal.ReadMotor(motorRx);
      case SchedulerBms =>
        bms.CheckHv(bmsRx);
      case TelemetryPedal =>
      case TelemetryMotor =>
      case TelemetryBms =>
    }

    /**
     * One task of a dispatch pass, as the pass sees it: no task touches the faults,
     * force_stop, the car status, state_unknown or the hall reading; only the BMS task can
     * change hv_ready, and only by raising it; only the pedal task refreshes the snapshots.
     */
    method RunOne(t: TaskId, motorRx: RxResult, bmsRx: RxResult)
      requires Valid()
      modifies car`pedal, car`motor, pedal`torqueMsg, pedal`lastMotorReadMillis, pedal.motorCan,
               bms`rxBmsMsg, bms.bmsCan
      ensures Valid()
      ensures TaskKeeps(old(car.pedal), car.pedal, t)
    {
      RunTask(t, motorRx, bmsRx);
    }

    /**
     * The tasks of one dispatch pass, in order. Only the pedal task refreshes the snapshots and
     * only the BMS task can raise hv_ready; none of them touches the faults, force_stop, the
     * car status, state_unknown or the hall reading.
     */
    method RunFired(fired: seq<TaskId>, motorRx: RxResult, bmsRx: RxResult)
      requires Valid()
      modifies car`pedal, car`motor, pedal`torqueMsg, pedal`lastMotorReadMillis, pedal.motorCan,
               bms`rxBmsMsg, bms.bmsCan
      ensures Valid()
      ensures PassKeeps(old(car.pedal), car.pedal, fired)
    {
      for k := 0 to |fired|
        invariant Valid()
        invariant PassKeeps(old(car.pedal), car.pedal, fired[..k])
      {
        ghost var before := car.pedal;
        RunOne(fired[k], motorRx, bmsRx);
        PassKeepsStep(old(car.pedal), before, car.pedal, fired[..k], fired[k]);
        assert fired[..k + 1] == fired[..k] + [fired[k]];
      }
      assert fired[..|fired|] == fired;
    }

    method SetCarStatus(s: CarStatus)
      modifies car`pedal
      ensures car.pedal == old(car.pedal).(status := old(car.pedal.status).(carStatus := s))
    {
      car.pedal := car.pedal.(status := car.pedal.status.(carStatus := s));
    }

    /** What the status machine of this iteration reads. */
    function FsmInputs(button: bool): FsmIn
      reads this, car, pedal.car
    {
      var st := car.pedal.status;
      FsmIn(st.carStatus, st.forceStop, st.hvReady, button, brakePressed, car.millis, car.statusMillis, pedal.PedalFinal())
    }

    /** The status machine of loop(), from the force-stop check to the throttle interlock. */
    method Supervise(button: bool)
      requires Valid()
      modifies car`pedal, car`statusMillis, this`buzzer, this`frg,
               scheduler`table, scheduler.tasks, scheduler.taskTicks, scheduler.taskCounters, scheduler.taskCnt
      ensures Valid()
      ensures var r := FsmStep(old(FsmInputs(button)), vcfg.throttleTableStart);
              && car.pedal == old(car.pedal).(status := old(car.pedal.status).(
                   carStatus := r.status, stateUnknown := old(car.pedal.status.stateUnknown) || r.flagUnknown))
              && car.statusMillis == r.statusMillis
              && buzzer == PinAfter(old(buzzer), r.buzzer) && frg == PinAfter(old(frg), r.frg)
              && scheduler.table == ApplyTaskChange(old(scheduler.table), scheduler.numTasks as int, r.task)
    {
      if car.pedal.status.forceStop {
        SetCarStatus(Init);
        buzzer := false;
        frg := false;
      } else if car.pedal.status.carStatus != Drive {
        Transition(button);
        Interlock();
      }
    }

    /** The switch of loop() for a status other than Drive, with force_stop clear. */
    method Transition(button: bool)
      requires Valid() && car.pedal.status.carStatus != Drive
      modifies car`pedal, car`statusMillis, this`buzzer, this`frg,
               scheduler`table, scheduler.tasks, scheduler.taskTicks, scheduler.taskCounters, scheduler.taskCnt
      ensures Valid()
      ensures var r := Switch(old(FsmInputs(button)));
              && car.pedal == old(car.pedal).(status := old(car.pedal.status).(
                   carStatus := r.status, stateUnknown := old(car.pedal.status.stateUnknown) || r.flagUnknown))
              && car.statusMillis == r.statusMillis
              && buzzer == PinAfter(old(buzzer), r.buzzer) && frg == PinAfter(old(frg), r.frg)
              && scheduler.table == ApplyTaskChange(old(scheduler.table), scheduler.numTasks as int, r.task)
    {
      match car.pedal.status.carStatus {
        case Init => FromInit(button);
        case Startin => FromStartin(button);
        case Bussin => FromBussin(button);
        case Unknown => FromUnknown(button);
      }
    }

    /** Init: the button with the brake pressed starts the sequence and registers the BMS poll. */
    method FromInit(button: bool)
      requires Valid() && car.pedal.status.carStatus == Init
      modifies car`pedal, car`statusMillis, this`buzzer, this`frg,
               scheduler`table, scheduler.tasks, scheduler.taskTicks, scheduler.taskCounters, scheduler.taskCnt
      ensures Valid()
      ensures var r := Switch(old(FsmInputs(button)));
              && car.pedal == old(car.pedal).(status := old(car.pedal.status).(
                   carStatus := r.status, stateUnknown := old(car.pedal.status.stateUnknown) || r.flagUnknown))
              && car.statusMillis == r.statusMillis
              && buzzer == PinAfter(old(buzzer), r.buzzer) && frg == PinAfter(old(frg), r.frg)
              && scheduler.table == ApplyTaskChange(old(scheduler.table), scheduler.numTasks as int, r.task)
    {
      if button && brakePressed {
        Stage(Startin, AddBmsTask);
      }
    }

    /** Startin: releasing either control aborts; hv_ready or the override timeout moves on to Bussin. */
    method FromStartin(button: bool)
      requires Valid() && car.pedal.status.carStatus == Startin
      modifies car`pedal, car`statusMillis, this`buzzer, this`frg,
               scheduler`table, scheduler.tasks, scheduler.taskTicks, scheduler.taskCounters, scheduler.taskCnt
      ensures Valid()
      ensures var r := Switch(old(FsmInputs(button)));
              && car.pedal == old(car.pedal).(status := old(car.pedal.status).(
                   carStatus := r.status, stateUnknown := old(car.pedal.status.stateUnknown) || r.flagUnknown))
              && car.statusMillis == r.statusMillis
              && buzzer == PinAfter(old(buzzer), r.buzzer) && frg == PinAfter(old(frg), r.frg)
              && scheduler.table == ApplyTaskChange(old(scheduler.table), scheduler.numTasks as int, r.task)
    {
      if !button || !brakePressed {
        Stage(Init, RemoveBmsTask);
      } else if car.pedal.status.hvReady || Sub32(car.millis, car.statusMillis) >= BMS_OVERRIDE_MILLIS {
        Stage(Bussin, RemoveBmsTask);
        buzzer := true;
      }
    }

    /** Bussin: after the buzzer dwell the buzzer stops, FRG is energised and the car enters Drive. */
    method FromBussin(button: bool)
      requires Valid() && car.pedal.status.carStatus == Bussin
      modifies car`pedal, car`statusMillis, this`buzzer, this`frg,
               scheduler`table, scheduler.tasks, scheduler.taskTicks, scheduler.taskCounters, scheduler.taskCnt
      ensures Valid()
      ensures var r := Switch(old(FsmInputs(button)));
              && car.pedal == old(car.pedal).(status := old(car.pedal.status).(
                   carStatus := r.status, stateUnknown := old(car.pedal.status.stateUnknown) || r.flagUnknown))
              && car.statusMillis == r.statusMillis
              && buzzer == PinAfter(old(buzzer), r.buzzer) && frg == PinAfter(old(frg), r.frg)
              && scheduler.table == ApplyTaskChange(old(scheduler.table), scheduler.numTasks as int, r.task)
    {
      if Sub32(car.millis, car.statusMillis) >= BUSSIN_MILLIS {
        buzzer := false;
        frg := true;
        SetCarStatus(Drive);
      }
    }

    /** An unrecognised status: flag it and go back to Init. */
    method FromUnknown(button: bool)
      requires Valid() && car.pedal.status.carStatus == Unknown
      modifies car`pedal, car`statusMillis, this`buzzer, this`frg,
               scheduler`table, scheduler.tasks, scheduler.taskTicks, scheduler.taskCounters, scheduler.taskCnt
      ensures Valid()
      ensures var r := Switch(old(FsmInputs(button)));
              && car.pedal == old(car.pedal).(status := old(car.pedal.status).(
                   carStatus := r.status, stateUnknown := old(car.pedal.status.stateUnknown) || r.flagUnknown))
              && car.statusMillis == r.statusMillis
              && buzzer == PinAfter(old(buzzer), r.buzzer) && frg == PinAfter(old(frg), r.frg)
              && scheduler.table == ApplyTaskChange(old(scheduler.table), scheduler.numTasks as int, r.task)
    {
      car.pedal := car.pedal.(status := car.pedal.status.(stateUnknown := true));
      SetCarStatus(Init);
      car.statusMillis := car.millis;
    }

    /** A stage change of the switch: the new status, stamped now, and the BMS task added or removed. */
    method Stage(st: CarStatus, c: TaskChange)
      requires Valid() && c != NoChange
      modifies car`pedal, car`statusMillis,
               scheduler`table, scheduler.tasks, scheduler.taskTicks, scheduler.taskCounters, scheduler.taskCnt
      ensures Valid()
      ensures car.pedal == old(car.pedal).(status := old(car.pedal.status).(carStatus := st))
      ensures car.statusMillis == car.millis
      ensures scheduler.table == ApplyTaskChange(old(scheduler.table), scheduler.numTasks as int, c)
    {
      SetCarStatus(st);
      car.statusMillis := car.millis;
      if c == AddBmsTask {
        var _ := scheduler.AddTask(BMS_BUS, SchedulerBms, BMS_TASK_TICKS);
      } else {
        var _ := scheduler.RemoveTask(BMS_BUS, SchedulerBms);
      }
    }

    /** The throttle interlock: a pressed throttle outside Drive sends the car back to Init. */
    method Interlock()
      requires Valid()
      modifies car`pedal, car`statusMillis
      ensures if old(pedal.PedalFinal()) > vcfg.throttleTableStart
              then car.pedal == old(car.pedal).(status := old(car.pedal.status).(carStatus := Init))
                   && car.statusMillis == car.millis
              else car.pedal == old(car.pedal) && car.statusMillis == old(car.statusMillis)
    {
      if pedal.PedalFinal() > vcfg.throttleTableStart {
        SetCarStatus(Init);
        car.statusMillis := car.millis;
      }
    }

    /** The first part of loop(): stamp the clock, sample the pedals and latch brake_pressed. */
    method SampleInputs(x: LoopIn)
      requires Valid()
      modifies car`millis, car`pedal, this`brakePressed, this`brakeLight,
               pedal`pedal1Samples, pedal`pedal2Samples, pedal`brakeSamples, pedal`faultStartMillis
      ensures Valid()
      ensures car.millis == x.millis
      ensures brakePressed == (old(car.pedal.brake) >= vcfg.brakeThreshold) && brakeLight == brakePressed
      ensures var u := UpdateFaults(pedal.cfg, old(pedal.Faults()),
                                    Sample(x.millis, old(car.pedal.apps5v), old(car.pedal.apps3v3), x.apps5v, x.apps3v3, x.brake));
              car.pedal == old(car.pedal).(faults := u.faults, status := old(car.pedal.status).(forceStop := u.forceStop))
    {
      car.millis := x.millis;
      pedal.Update(x.apps5v, x.apps3v3, x.brake);
      brakePressed := car.pedal.brake >= vcfg.brakeThreshold;
      brakeLight := brakePressed;
    }

    /** The scheduler's pass: the tasks due at `x.micros`, run in order. */
    method Dispatch(x: LoopIn) returns (fired: seq<TaskId>)
      requires Valid()
      modifies car`pedal, car`motor, pedal`torqueMsg, pedal`lastMotorReadMillis, pedal.motorCan,
               bms`rxBmsMsg, bms.bmsCan, scheduler`table, scheduler`lastFireUs, scheduler.taskCounters
      ensures Valid()
      ensures fired == if ShouldFire(scheduler.periodUs, scheduler.spinUs, old(scheduler.lastFireUs), x.micros)
                       then Pass(old(scheduler.table), scheduler.numTasks as int) else []
      ensures PassKeeps(old(car.pedal), car.pedal, fired)
      ensures if ShouldFire(scheduler.periodUs, scheduler.spinUs, old(scheduler.lastFireUs), x.micros) then
                && scheduler.table == TickTable(old(scheduler.table))
                && scheduler.lastFireUs == NextFire(scheduler.periodUs, old(scheduler.lastFireUs), x.micros)
              else
                scheduler.table == old(scheduler.table) && scheduler.lastFireUs == old(scheduler.lastFireUs)
    {
      fired := scheduler.Update(x.micros);
      RunFired(fired, x.motorRx, x.bmsRx);
    }

    /**
     * loop(): stamp the clock, sample and check the pedals, latch brake_pressed from the
     * previous filtered brake snapshot, let the scheduler dispatch, read the hall sensor,
     * then run the status machine. `fired` and `seen` are the tasks dispatched and the inputs
     * the status machine read.
     */
    method Loop(x: LoopIn) returns (ghost fired: seq<TaskId>, ghost seen: FsmIn)
      requires Valid()
      modifies this, car, pedal, bms, pedal.motorCan, bms.bmsCan,
               scheduler, scheduler.tasks, scheduler.taskTicks, scheduler.taskCounters, scheduler.taskCnt
      ensures Valid()
      ensures car.millis == x.millis && car.pedal.hallSensor == x.hall
      ensures brakePressed == (old(car.pedal.brake) >= vcfg.brakeThreshold) && brakeLight == brakePressed
      ensures var u := UpdateFaults(pedal.cfg, old(pedal.Faults()),
                                    Sample(x.millis, old(car.pedal.apps5v), old(car.pedal.apps3v3), x.apps5v, x.apps3v3, x.brake));
              car.pedal.faults == u.faults && car.pedal.status.forceStop == u.forceStop && seen.forceStop == u.forceStop
      ensures fired == if ShouldFire(scheduler.periodUs, scheduler.spinUs, old(scheduler.lastFireUs), x.micros)
                       then Pass(old(scheduler.table), scheduler.numTasks as int) else []
      ensures seen.status == old(car.pedal.status.carStatus) && seen.statusMillis == old(car.statusMillis)
      ensures seen.button == x.button && seen.brakePressed == brakePressed && seen.millis == x.millis
      ensures old(car.pedal.status.hvReady) ==> seen.hvReady
      ensures seen.hvReady != old(car.pedal.status.hvReady) ==> SchedulerBms in fired
      ensures SchedulerPedal !in fired ==> seen.pedalFinal == old(car.pedal.apps5v)
      ensures var r := FsmStep(seen, vcfg.throttleTableStart);
              && car.pedal.status.carStatus == r.status && car.statusMillis == r.statusMillis
              && car.pedal.status.stateUnknown == (old(car.pedal.status.stateUnknown) || r.flagUnknown)
              && buzzer == PinAfter(old(buzzer), r.buzzer) && frg == PinAfter(old(frg), r.frg)
              && car.pedal.status.hvReady == seen.hvReady
      // the pass ticks the table, and the status machine then adds or removes the BMS poll
      ensures var fires := ShouldFire(scheduler.periodUs, scheduler.spinUs, old(scheduler.lastFireUs), x.micros);
              && scheduler.lastFireUs ==
                   (if fires then NextFire(scheduler.periodUs, old(scheduler.lastFireUs), x.micros) else old(scheduler.lastFireUs))
              && scheduler.table ==
                   ApplyTaskChange(if fires then TickTable(old(scheduler.table)) else old(scheduler.table),
                                   scheduler.numTasks as int, FsmStep(seen, vcfg.throttleTableStart).task)
    {
      SampleInputs(x);
      var tasks := Dispatch(x);
      fired := tasks;

      car.pedal := car.pedal.(hallSensor := x.hall);

      seen := FsmInputs(x.button);
      Supervise(x.button);
    }
  }
}
