# Vehicle control unit core, modelled in Dafny

This project models the control core of an electric race car's vehicle control unit (VCU).
It has four cooperating pieces. All of them read and write one shared `CarState` record.

- **Pedal subsystem** (`pedal.dfy`, module `Pedal`).
  - Range checks of the two redundant throttle sensors and the brake sensor.
  - The 100 ms debounced cross-check that latches `force_stop`.
  - The torque mapping with its regenerative-braking rules, and the torque and stop frames.
  - Decoding of the motor controller's speed and warning/error telemetry, and the staleness bit `motor_no_read`.
  - The `got_speed`/`got_error` latch of the cyclic-read registration.
- **BMS HV handshake** (`bms.dfy`, module `Bms`). A level-triggered state machine on the high nibble of byte 6 of the BMS status frame.
- **Scheduler** (`scheduler.dfy`, module `Scheduler`).
  - The `Scheduler` template instantiated for one task type, with the declared arrays `tasks`, `task_ticks`, `task_counters` and `task_cnt`, and `last_fire_us`, `PERIOD_US` and `SPIN_US`.
  - Its documented contract for `update`, `addTask`, `removeTask`, `synchronize`, `getPeriodUs` and `cyclesNeeded`.
- **Supervisor** (`supervisor.dfy`, module `Supervisor`).
  - The entry point's wiring and the task registration of `setup()`.
  - `loop()`: sampling, dispatch, the car status machine Init → Startin → Bussin → Drive, the `force_stop` override, the unknown-state fallback and the throttle interlock.

Supporting modules:
- `Words` holds the firmware's fixed-width integers: uint32 wrap-around, int16 conversion, C++ truncating division and byte packing.
- `Can` holds CAN frames, the outcome of a non-blocking read, and a bus reduced to the log of frames it accepted.
- `CarState` holds the shared record.
- `Curves` holds the abstract lookup tables.

Each stateful object of the source is a `class`: `CarState`, `Pedal`, `Bms`, `Scheduler` and the supervisor `Vcu`. Each of its methods states its new state as a pure step function of the old state. These functions are `UpdateFaults`, `SendFrameStep`, `ReadMotorStep`, `InitMotorStep`, `CheckHvStep`, `AddSpec`/`RemoveSpec`, `Pass`/`TickTable`/`NextFire` and `FsmStep`. The properties are proved about those functions, and about traces of them (`UpdateRun`, `CheckHvRun`, `TickN`, `FsmRun`).

Where the model takes a decision that the shown code leaves open:
- **Scheduler implementation.** `Scheduler.tpp` is not part of this model, so the scheduler follows the header's documentation.
- **Firing rule.**
  - A populated slot counts down once per firing.
  - It fires when its counter reaches zero, and its counter is then reset to its interval.
  - `addTask` starts the counter at the interval.
  - `addTask` of a task already on the bus re-arms it: its interval and counter are set to the new interval.
- **Dispatch order.**
  - A firing runs slot 0 of every bus, then slot 1 of every bus, and so on. This follows the header's "round-robin fashion, going from one MCP2515 to another" and its aim of spreading the load across the buses.
  - A bus-by-bus reading (all of bus 0, then bus 1) is the other possible reading of the same sentence. Only the order within `Scheduler.Pass` would change.
- **Missed periods.** After a stall, `last_fire_us` advances by the largest whole number of periods that fits in the elapsed time, modulo 2^32. A firing that is on time, or at most one period late, advances exactly one period.
- **Construction.** The period must be positive at construction, because `cyclesNeeded` divides by it.
- **Task calls.** `main.cpp` constructs the scheduler with two arguments and calls `update(*micros)`, while the header declares three constructor arguments and `update()`. The model passes the clock as the explicit `now` of `Update` and `Synchronize`.
- **Order of task execution.** `Scheduler.Scheduler.Update` returns the fired tasks in order, and `Supervisor.Vcu.RunFired` runs them afterwards. This is the same as running them inside the pass, because no task touches the scheduler.
- **`pedal_final`.** It is bound to `car.pedal.apps_5v` (src/main.cpp:64), so the torque mapping and the interlock read the filtered 5 V snapshot. That snapshot is written only by `sendFrame`, and the cross-check and `brake_pressed` read it too.
- **Failed BMS read.** A failed `readMessage` other than "no message" leaves `rx_bms_msg` as it was, and `checkHv` then switches on the stale frame.
- **BMS task left registered.** When `force_stop` or the throttle interlock ends Startin, `loop()` does not remove the BMS task. The model keeps this: only the switch's own Startin exits remove it (`Supervisor.FsmStep`).

## Model

| member | source | states |
|---|---|---|
| Words.Sub32 | lib/Pedal/Pedal.cpp:125 | uint32 `a - b` is `a - b` when `a >= b`, and `a - b + 2^32` otherwise |
| Words.Add32 | lib/Scheduler/Scheduler.hpp:78 | uint32 `a + d` lies `d mod 2^32` after `a` in wrap-around distance |
| Words.ToInt16 | lib/Pedal/Pedal.cpp:243 | the int16 cast keeps every value in range and is congruent to its input modulo 2^16 |
| Words.CDiv | lib/Pedal/Pedal.cpp:244 | C++ division truncates toward zero for both signs of the dividend |
| Words.LowByte | lib/Pedal/Pedal.cpp:176 | `t & 0xFF` is congruent to `t` modulo 256 |
| Words.HighByte | lib/Pedal/Pedal.cpp:177 | `(t >> 8) & 0xFF`, read back as a signed byte, is the multiple of 256 that `t` holds beyond its low byte: `t == signed(hi) * 256 + lo` |
| Words.U16OfBytes | lib/Pedal/Pedal.cpp:302-303 | `lo \| hi << 8` has `lo` as low byte and `hi` as high byte |
| Words.I16OfBytes | lib/Pedal/Pedal.cpp:297 | the little-endian int16 is non-negative exactly when the high byte is below 0x80 |
| Words.Int16BytesRoundTrip | lib/Pedal/Pedal.cpp:176-177 | splitting an int16 into its two bytes and reading them back gives it back |
| Words.BytesInt16RoundTrip | lib/Pedal/Pedal.cpp:297 | reading two bytes as an int16 and splitting it again gives back the same bytes |
| Can.CanBus.SendMessage | lib/Pedal/Pedal.cpp:178 | an accepted send appends exactly that frame to the bus's log |
| CarState.CarState.constructor | src/main.cpp:55-61 | the global `car` starts zeroed: clocks, snapshots, status bits and faults |
| Pedal.RangeFaults | lib/Pedal/Pedal.cpp:106-117 | each range bit is in the result exactly when its bound is violated, and no other bit is |
| Pedal.CheckPedalFault | lib/Pedal/Pedal.cpp:237-251 | false below the 5 V table's first point; otherwise, when the int16 arithmetic does not wrap, true iff the 5 V and scaled 3.3 V readings differ by more than a tenth of the throttle range |
| Pedal.UpdateFaults | lib/Pedal/Pedal.cpp:99-151 | range bits only accumulate; `fault_active` follows the cross-check; `fault_exceeded` is sticky and set exactly on expiry of the 100 ms window; the timer is stamped only on the first divergent call; `force_stop` is never cleared and rises on expiry or on any bit of the mask |
| Pedal.Debounce | lib/Pedal/Pedal.cpp:119-148 | only `fault_active` and `fault_exceeded` change among the fault bits; `fault_active` follows the cross-check; `fault_exceeded` rises exactly on expiry of the window; the timer is stamped only on a new divergence; `force_stop` is never cleared and rises on expiry or on a masked bit |
| Pedal.MaskCheck | lib/Pedal/Pedal.cpp:145-148 | the faults and timer are untouched; `force_stop` ends set iff it was set or a fault bit covered by `FAULT_CHECK_HEX` is set |
| Pedal.UpdateRunKeepsLatches | lib/Pedal/Pedal.cpp:106-148 | over any number of updates `force_stop`, `fault_exceeded` and the range bits stay set |
| Pedal.DivergenceWindow | lib/Pedal/Pedal.cpp:119-138 | while the divergence persists the timer keeps its first stamp, and a call more than 100 ms after it latches `fault_exceeded` and `force_stop` |
| Pedal.PersistentDivergenceForcesStop | lib/Pedal/Pedal.cpp:119-138 | a divergence starting on a clear `fault_active` and still present more than 100 ms later ends with `fault_exceeded` and `force_stop` set |
| Pedal.PedalTorqueMapping | lib/Pedal/Pedal.cpp:196-226 | `screenshot` is set iff regen is requested with the throttle pressed; without regen, the throttle curve negated exactly when flipped; with regen, zero below the minimum speed in the direction of travel, else the (negated when flipped) brake curve |
| Pedal.FlipMirrorsTorque | lib/Pedal/Pedal.cpp:205-225 | a flipped motor at `rpm` gets the negated torque of an unflipped one at `-rpm`, away from the int16 minimum |
| Pedal.ThrottleTorqueMonotone | lib/Pedal/Pedal.cpp:222-225 | with a monotone throttle curve and no regen, more pedal never gives less torque |
| Pedal.EncodeTorque | lib/Pedal/Pedal.cpp:176-177 | the id, length and bytes 0 and 3-7 of `torque_msg` are kept, and bytes 1-2 read back as exactly the torque |
| Pedal.SendFrameStep | lib/Pedal/Pedal.cpp:156-180 | the snapshots are refreshed from the filters; outside Drive exactly the stop frame is sent and torque, `torque_msg` and status are unchanged; in Drive the torque of the mapping is stored and sent in bytes 1-2, which read back as that int16, with every other byte and field of the frame kept |
| Pedal.ReadMotorStep | lib/Pedal/Pedal.cpp:286-313 | a speed frame sets rpm from bytes 1-2, stamps the read and clears `motor_no_read`; a warning/error frame sets error and warning from bytes 1-2 and 3-4 only; anything else only sets `motor_no_read` when the last speed read is older than the limit |
| Pedal.StaleUntilSpeedFrame | lib/Pedal/Pedal.cpp:286-313 | once `motor_no_read` is set, no sequence of reads without a speed frame clears it |
| Pedal.FreshWithinLimit | lib/Pedal/Pedal.cpp:293-311 | without a speed frame, `motor_no_read` stays clear while every read is within `MAX_MOTOR_READ_MILLIS` of the last speed read, and that stamp is kept |
| Pedal.CyclicRequest | lib/Pedal/Pedal.cpp:258-268 | the request frame has the motor-send id, length 3, and bytes read-opcode, register, period |
| Pedal.InitMotorStep | lib/Pedal/Pedal.cpp:72-87 | each latch becomes set iff it was set or its reply arrived; a request is sent for each latch that was not set, speed first |
| Pedal.InitMotorIdempotent | lib/Pedal/Pedal.cpp:72-87 | once both latches are set, `initMotor` sends nothing and succeeds |
| Pedal.Pedal.constructor | lib/Pedal/Pedal.cpp:34-43 | timers zero, latches clear, filters empty |
| Pedal.Pedal.CheckRanges | lib/Pedal/Pedal.cpp:106-117 | the fault byte gains exactly the range bits of the raw samples; nothing else changes |
| Pedal.Pedal.Update | lib/Pedal/Pedal.cpp:99-151 | the samples are appended to the three filters, and the faults, `force_stop` and `fault_start_millis` become those of `UpdateFaults` on the filtered snapshots and the clock |
| Pedal.Pedal.CrossCheck | lib/Pedal/Pedal.cpp:119-148 | the debounce and mask step leaves the state that `Debounce` describes |
| Pedal.Pedal.SendFrame | lib/Pedal/Pedal.cpp:156-180 | the new snapshots, motor record, `torque_msg` and the one frame appended to the motor bus are those of `SendFrameStep` |
| Pedal.Pedal.ReadMotor | lib/Pedal/Pedal.cpp:286-313 | the motor record, `last_motor_read_millis` and `motor_no_read` become those of `ReadMotorStep` |
| Pedal.Pedal.SendCyclicRead | lib/Pedal/Pedal.cpp:258-268 | exactly the cyclic request frame is appended to the motor bus |
| Pedal.Pedal.CheckCyclicRead | lib/Pedal/Pedal.cpp:270-281 | true iff the read returned a motor reply with length above 3 for the register |
| Pedal.Pedal.InitMotor | lib/Pedal/Pedal.cpp:72-87 | the latches and sent requests are those of `InitMotorStep`, and the result is both latches |
| Bms.HighNibble | lib/BMS/BMS.cpp:85 | `b & 0xF0` is a multiple of 16 with `r <= b < r + 16` |
| Bms.BmsState | lib/BMS/BMS.cpp:85 | the frame reports standby, precharge or run exactly when byte 6 is in 0x30-0x3F, 0x40-0x4F or 0x50-0x5F: the low nibble never matters |
| Bms.CheckHvStep | lib/BMS/BMS.cpp:62-108 | only `hv_ready` and `bms_no_msg` change; when ready nothing is read or sent; `bms_no_msg` ends set iff not ready and no message; a received frame is buffered; `hv_ready` ends set iff it was set or the frame reports run; `start_hv_msg` is sent iff not ready and the frame reports standby or precharge |
| Bms.ReadyIsFinal | lib/BMS/BMS.cpp:64-67 | once `hv_ready` is set, any further polls keep it set, send nothing and leave the buffer alone |
| Bms.ReadyNeedsRunFrame | lib/BMS/BMS.cpp:85-107 | if no poll receives a run-state frame and none fails, `hv_ready` stays false |
| Bms.Bms.constructor | lib/BMS/BMS.cpp:32-36 | construction clears `hv_ready` and nothing else |
| Bms.Bms.CheckHv | lib/BMS/BMS.cpp:62-108 | the status bits, the buffer and the frames appended to the BMS bus are those of `CheckHvStep`, with one `start_hv_msg` per send |
| Scheduler.Tick | lib/Scheduler/Scheduler.hpp:73-74 | the task and interval never change; an in-range counter stays in range; a slot is due exactly when its tick re-arms it to the full interval |
| Scheduler.TickTable | lib/Scheduler/Scheduler.hpp:72-74 | a pass ticks every populated slot in place: rows keep their length, tasks and intervals, and a well-formed table stays well-formed |
| Scheduler.Column | lib/Scheduler/Scheduler.hpp:30 | one slot index, visited bus by bus, runs at most one task per bus |
| Scheduler.Pass | lib/Scheduler/Scheduler.hpp:30-38 | a pass runs at most one task per slot index per bus, so never more than one full round however many periods were missed |
| Scheduler.ColumnMembership | lib/Scheduler/Scheduler.hpp:30 | a task runs at slot index `j` exactly when some bus has it due there |
| Scheduler.PassColumns | lib/Scheduler/Scheduler.hpp:30 | a pass runs a task exactly when one of its slot indices runs it |
| Scheduler.PassMembership | lib/Scheduler/Scheduler.hpp:30 | one pass runs a task exactly when some populated slot holding it is due |
| Scheduler.TickNAdd | lib/Scheduler/Scheduler.hpp:74 | `a` ticks followed by `b` ticks are `a + b` ticks |
| Scheduler.CountsDown | lib/Scheduler/Scheduler.hpp:74 | before it fires, each tick takes one off the counter |
| Scheduler.FiresAfterCounter | lib/Scheduler/Scheduler.hpp:74 | a slot with `c` ticks left fires on tick `c` and on no earlier tick |
| Scheduler.FiresEveryInterval | lib/Scheduler/Scheduler.hpp:73 | a freshly registered slot with interval `t` is due on tick `k` iff `k + 1` is a multiple of `t`: interval 1 fires every tick |
| Scheduler.Find | lib/Scheduler/Scheduler.hpp:55-56 | the first slot holding the task, or -1 exactly when no slot holds it |
| Scheduler.AddSpec | lib/Scheduler/Scheduler.hpp:55 | succeeds iff the interval is non-zero and the task is present or the bus has room; a failure changes nothing; other buses never change; rows never exceed `NUM_TASKS`; on success the task is on the bus, armed with the interval; a new task is appended after the slots already there, and a present one is re-armed in its own slot |
| Scheduler.RemoveSpec | lib/Scheduler/Scheduler.hpp:56 | succeeds iff the task is on the bus; a failure changes nothing; other buses never change; success shortens the row by one, removing the first slot holding the task: the slots before it stay and the slots after it move up one place in order; well-formedness is kept |
| Scheduler.RemoveUndoesAdd | lib/Scheduler/Scheduler.hpp:55-56 | removing a task right after adding it to a bus that did not hold it restores the table |
| Scheduler.ReAddKeepsRow | lib/Scheduler/Scheduler.hpp:55 | adding a task that is already present keeps the row's length and order |
| Scheduler.NextFire | lib/Scheduler/Scheduler.hpp:38 | a firing at most one period late advances `last_fire_us` exactly one period; a later one advances it by no more than the elapsed time and leaves exactly the elapsed time modulo the period, less than one period, before `now` |
| Scheduler.ShouldFire | lib/Scheduler/Scheduler.hpp:27-29 | a due tick always fires, and with no spin threshold a call fires exactly when the tick is due |
| Scheduler.Scheduler.constructor | lib/Scheduler/Scheduler.hpp:50 | every bus starts empty, with the given period, spin threshold and phase |
| Scheduler.Scheduler.GetPeriodUs | lib/Scheduler/Scheduler.hpp:62 | always the period fixed at construction |
| Scheduler.Scheduler.CyclesNeeded | lib/Scheduler/Scheduler.hpp:69 | the number of whole periods in the interval, rounded down |
| Scheduler.Scheduler.FindSlot | lib/Scheduler/Scheduler.hpp:72-75 | the array search returns the index that `Find` gives on the table |
| Scheduler.Scheduler.AddTask | lib/Scheduler/Scheduler.hpp:55 | the arrays and the result change as `AddSpec` says, and the arrays stay coupled to the table |
| Scheduler.Scheduler.RemoveTask | lib/Scheduler/Scheduler.hpp:56 | the arrays and the result change as `RemoveSpec` says: later slots move up and the freed slot is disabled |
| Scheduler.Scheduler.Update | lib/Scheduler/Scheduler.hpp:27-30 | when the tick is due or less than the spin threshold away, fires one pass in round-robin order, ticks every populated slot and advances `last_fire_us` by `NextFire`; otherwise changes nothing and runs nothing |
| Scheduler.Scheduler.RunTasks | lib/Scheduler/Scheduler.hpp:81 | the pass over the arrays fires `Pass` of the table and leaves `TickTable` of it |
| Scheduler.Scheduler.Synchronize | lib/Scheduler/Scheduler.hpp:54 | the phase is re-anchored at `now` |
| Supervisor.FsmStep | src/main.cpp:122-186 | `force_stop` gives Init with buzzer and FRG low and nothing else; Drive returns at once; the BMS task is added iff Init sees button and brake and removed iff the switch leaves Startin; buzzer high iff Startin moves on; FRG high iff Bussin times out; an unknown status is flagged; the interlock forces Init outside Drive; Drive is entered only from Bussin after its dwell with the throttle released; no stage is skipped |
| Supervisor.Switch | src/main.cpp:130-180 | each case stays, moves one stage on, or falls back to Init; staying writes nothing; a stage change is stamped now, except that Drive keeps Bussin's stamp; the BMS poll changes exactly on entering and leaving Startin |
| Supervisor.AtMostOneStagePerIteration | src/main.cpp:130-180 | over any run, the stage advances at most one step per iteration |
| Supervisor.ForceStopHoldsInit | src/main.cpp:122-128 | while `force_stop` stays set the car stays in Init with its stamp unchanged |
| Supervisor.NoStartWithoutButtonAndBrake | src/main.cpp:135-144 | without the button held and the brake pressed together, the car never leaves Init |
| Supervisor.Registration | src/main.cpp:103-106 | for any slot count: three buses and four results; the table is well-formed and the BMS bus is empty; the first registration succeeds iff a bus has a slot; a successful fourth registration leaves the BMS telemetry task on the Datalogger bus |
| Supervisor.RegistrationAsWritten | src/main.cpp:103-106 | with two slots per bus the fourth `addTask` fails, and the BMS telemetry task is absent from the table |
| Supervisor.RegistrationWithRoom | src/main.cpp:103-106 | with three slots per bus all four registrations succeed, with the resulting table |
| Supervisor.Vcu.constructor | src/main.cpp:55-74 | a fresh car, pedal, BMS and scheduler wired to each other, in Init with `hv_ready` false and every scheduler bus empty |
| Supervisor.Vcu.Setup | src/main.cpp:103-106 | the table and the four results are those of `Registration` for the scheduler's slot count |
| Supervisor.Vcu.RunTask | src/main.cpp:68-72 | the pedal task is `sendFrame` followed by `readMotor`; the BMS task is `checkHv`; the telemetry tasks change nothing in this model |
| Supervisor.Vcu.RunOne | src/main.cpp:68-69 | no task touches faults, `force_stop`, status or hall; only the BMS task raises `hv_ready`; only the pedal task refreshes the snapshots |
| Supervisor.Vcu.RunFired | src/main.cpp:118 | the same, for a whole dispatch pass in order |
| Supervisor.Vcu.SampleInputs | src/main.cpp:113-117 | the clock is stamped, the pedal update runs on the raw samples, and `brake_pressed` and the brake light follow the filtered brake snapshot |
| Supervisor.Vcu.Dispatch | src/main.cpp:118 | the tasks run are exactly the scheduler's pass, and the pass keeps what `RunFired` keeps; a firing leaves the table ticked and `last_fire_us` advanced by `NextFire`, a call that does not fire leaves both alone |
| Supervisor.Vcu.Supervise | src/main.cpp:122-186 | status, stamp, `state_unknown`, buzzer, FRG and the BMS task change exactly as `FsmStep` says |
| Supervisor.Vcu.Transition | src/main.cpp:130-180 | the switch changes the state as `Switch` says |
| Supervisor.Vcu.FromInit | src/main.cpp:135-144 | the Init case of the switch |
| Supervisor.Vcu.FromStartin | src/main.cpp:146-164 | the Startin case: abort first, then hv_ready or the override timeout |
| Supervisor.Vcu.FromBussin | src/main.cpp:166-173 | the Bussin case: after the dwell, buzzer low, FRG high, Drive |
| Supervisor.Vcu.FromUnknown | src/main.cpp:175-179 | the default case: flag `state_unknown`, back to Init, restamped |
| Supervisor.Vcu.Stage | src/main.cpp:140-161 | a stage change sets the new status, stamps it with the loop's clock, and adds or removes the BMS task as `ApplyTaskChange` says |
| Supervisor.Vcu.Interlock | src/main.cpp:182-186 | a throttle past the table's first point forces Init and restamps; otherwise nothing changes |
| Supervisor.Vcu.Loop | src/main.cpp:111-187 | one iteration: clock, hall reading, `brake_pressed` and faults as sampled; the fired tasks are the scheduler's pass; the status machine reads the state after dispatch and the car ends as `FsmStep` of it says; `last_fire_us` advances as the pass says, and the table is the ticked (or untouched) table with the BMS poll added or removed as `FsmStep` says |

## Left out

- The lookup tables and the smoothing filters are not part of this model. `THROTTLE_MAP`, `BRAKE_MAP` and `APPS_3V3_SCALE_MAP` are abstract functions with a domain start and a range. The filter output is an abstract function of the samples given so far.
- The calibration constants and frames come from headers that are not part of this model, so they are configuration fields. This covers the sensor bounds, `FAULT_CHECK_HEX` (as the set of fault bits it covers), `MIN_REGEN_RPM_VAL`, the CAN ids, `stop_frame`, `start_hv_msg`, `BRAKE_TABLE[0].in` and `THROTTLE_TABLE[0].in`.
- The MCP2515 transport is reduced to a log of accepted frames and to the outcome of each read. Bit rates, modes and the filters set by `initFilter` in `Pedal` and `BMS` are left out.
- The unbounded `while (sendMessage(...) != ERROR_OK);` retries in `initMotor` are modelled as the one attempt that the controller accepts.
- The `Telemetry` class is not part of this model. `setup()` registers its three tasks, of which two fit on the Datalogger bus (see Findings). Running them changes nothing here.
- `analogRead`, `digitalRead` and `millis`/`micros` are inputs of `Supervisor.Vcu.Loop`. `digitalWrite` is reduced to the last level written to each pin.
- The button is one input per iteration. The source reads it at most once per iteration, in the Init or the Startin case.
- The pin setup and CAN initialisation of `setup()` are hardware configuration, so they are left out.
- The scheduler's spin-wait is real-time behaviour with no effect on state, so it is left out. A call inside the spin threshold fires as if the wait had ended.
- The scheduler never calls the clock itself: the time is an explicit parameter.
- The `#define` aliasing of the three MCP2515 objects (src/main.cpp:43-44) is not modelled. The buses are separate objects passed to each component, and nothing in the model requires them to differ.
- The dead `if (false && force_stop)` branch of `sendFrame` is left out.
- `car.bms` data, FlashStorage and the Debug output do not affect the core's state.
- Supervisor.Vcu.RunFired states what a dispatch pass keeps and how `hv_ready` can change, not the composed effect of every task. That effect follows from `Supervisor.Vcu.RunTask` one task at a time.
- Supervisor.Vcu.Dispatch states the same summary as `RunFired` for the effects of the tasks it runs. The scheduler's own new state is stated in full.
- Supervisor.Vcu.Loop inherits that summary. It does not state the exact frames and motor data produced by the tasks of the pass.

## Findings

| source | as written | input that shows it | evidently intended | confidence | as-written member | corrected member |
|---|---|---|---|---|---|---|
| src/main.cpp:106 | `setup()` registers three Datalogger tasks, but the scheduler has `NUM_TASKS = 2` slots per bus (src/main.cpp:74). The fourth `addTask` fails, its result is ignored, and `schedulerTelemetryBms` never runs. | the registration sequence of src/main.cpp:103-106 on an empty scheduler with two slots per bus | `NUM_TASKS` at least 3, the most tasks any bus is given, so that all four registrations succeed | not executed | Supervisor.RegistrationAsWritten | Supervisor.RegistrationWithRoom |

`Supervisor.Vcu` takes the slot count as a parameter, and `Supervisor.Vcu.Setup` is proved against `Registration` for any slot count. The rest of the model therefore holds for the corrected count as well as for the one as written.
