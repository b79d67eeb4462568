/**
 * The HV handshake with the battery management system (lib/BMS/BMS.cpp): a level-triggered
 * state machine on the high nibble of byte 6 of the BMS status frame.
 */
module Bms {
  import opened Words
  import opened Can
  import opened CarState

  /** BMS states, as the high nibble of byte 6 of the status frame. */
  const STANDBY: int := 0x30
  const PRECHARGE: int := 0x40
  const RUN: int := 0x50

  /** `b & 0xF0`: the byte with its low nibble cleared. */
  function HighNibble(b: Byte): (r: Byte)
    ensures r % 16 == 0 && r <= b < r + 16
  {
    (b / 16) * 16
  }

  /** The BMS state a status frame reports: the low nibble of byte 6 never changes it. */
  function BmsState(f: Frame): (r: Byte)
    ensures r == STANDBY <==> 0x30 <= f.data[6] < 0x40
    ensures r == PRECHARGE <==> 0x40 <= f.data[6] < 0x50
    ensures r == RUN <==> 0x50 <= f.data[6] < 0x60
  {
    HighNibble(f.data[6])
  }

  /** What BMS::checkHv leaves behind: the status bits, the receive buffer, and whether it sent start_hv_msg. */
  datatype HvOut = HvOut(status: Status, rxBuffer: Frame, sentStart: bool)

  /**
   * BMS::checkHv on the outcome of one read. `rxBuffer` is rx_bms_msg as the previous call
   * left it: a failed read other than "no message" leaves it unchanged and the switch then
   * runs on the old frame.
   */
  function CheckHvStep(status: Status, rxBuffer: Frame, rx: RxResult): (r: HvOut)
    // only hv_ready and bms_no_msg can change
    ensures r.status == status.(hvReady := r.status.hvReady, bmsNoMsg := r.status.bmsNoMsg)
    // fast path: already ready, nothing read, nothing sent
    ensures status.hvReady ==> r == HvOut(status.(bmsNoMsg := false), rxBuffer, false)
    // bms_no_msg is cleared first, and set again only when the read found no message
    ensures r.status.bmsNoMsg <==> !status.hvReady && rx.NoMsg?
    // the frame read (if any) is kept in the buffer
    ensures !status.hvReady && rx.Received? ==> r.rxBuffer == rx.frame
    ensures status.hvReady || !rx.Received? ==> r.rxBuffer == rxBuffer
    // hv_ready is never cleared; it is set by a frame in the run state
    ensures r.status.hvReady <==> status.hvReady || (!rx.NoMsg? && BmsState(r.rxBuffer) == RUN)
    // start_hv_msg is sent once for a frame in standby or precharge
    ensures r.sentStart <==> !status.hvReady && !rx.NoMsg? && BmsState(r.rxBuffer) in {STANDBY, PRECHARGE}
  {
    var st := status.(bmsNoMsg := false);
    if st.hvReady then HvOut(st, rxBuffer, false)
    else if rx.NoMsg? then HvOut(st.(bmsNoMsg := true), rxBuffer, false)
    else
      var buf := if rx.Received? then rx.frame else rxBuffer;
      var state := BmsState(buf);
      if state == STANDBY || state == PRECHARGE then HvOut(st, buf, true)
      else if state == RUN then HvOut(st.(hvReady := true), buf, false)
      else HvOut(st, buf, false)
  }

  /** Successive polls of BMS::checkHv; `frames` counts the start_hv_msg frames sent. */
  function CheckHvRun(status: Status, rxBuffer: Frame, rxs: seq<RxResult>): (r: (HvOut, nat))
    decreases |rxs|
  {
    if rxs == [] then (HvOut(status, rxBuffer, false), 0)
    else
      var step := CheckHvStep(status, rxBuffer, rxs[0]);
      var rest := CheckHvRun(step.status, step.rxBuffer, rxs[1..]);
      (rest.0, rest.1 + if step.sentStart then 1 else 0)
  }

  /**
   * Once hv_ready is set, any number of further polls keeps it set, sends nothing and leaves
   * the receive buffer alone.
   */
  lemma {:induction false} ReadyIsFinal(status: Status, rxBuffer: Frame, rxs: seq<RxResult>)
    requires status.hvReady
    ensures CheckHvRun(status, rxBuffer, rxs).0.status.hvReady
    ensures CheckHvRun(status, rxBuffer, rxs).1 == 0
    ensures CheckHvRun(status, rxBuffer, rxs).0.rxBuffer == rxBuffer
    decreases |rxs|
  {
    if rxs != [] {
      var step := CheckHvStep(status, rxBuffer, rxs[0]);
      ReadyIsFinal(step.status, step.rxBuffer, rxs[1..]);
    }
  }

  /**
   * hv_ready only rises on a frame that reports the run state: if no poll received a frame
   * in the run state (and none failed to read), hv_ready is still false at the end.
   */
  lemma {:induction false} ReadyNeedsRunFrame(status: Status, rxBuffer: Frame, rxs: seq<RxResult>)
    requires !status.hvReady
    requires forall i :: 0 <= i < |rxs| ==> !rxs[i].ReadFail?
    requires forall i :: 0 <= i < |rxs| ==> rxs[i].Received? ==> BmsState(rxs[i].frame) != RUN
    ensures !CheckHvRun(status, rxBuffer, rxs).0.status.hvReady
    decreases |rxs|
  {
    if rxs != [] {
      var step := CheckHvStep(status, rxBuffer, rxs[0]);
      ReadyNeedsRunFrame(step.status, step.rxBuffer, rxs[1..]);
    }
  }

  class Bms {
    const car: CarState
    const bmsCan: CanBus
    /** start_hv_msg, defined in a header that is not part of this model. */
    const startHvMsg: Frame
    /** rx_bms_msg: the receive buffer. */
    var rxBmsMsg: Frame

    /** BMS::BMS: hv_ready starts false. */
    constructor (bmsCan: CanBus, car: CarState, startHvMsg: Frame, rxBmsMsg: Frame)
      modifies car`pedal
      ensures this.car == car && this.bmsCan == bmsCan && this.startHvMsg == startHvMsg
      ensures this.rxBmsMsg == rxBmsMsg
      ensures car.pedal == old(car.pedal).(status := old(car.pedal.status).(hvReady := false))
    {
      this.car := car;
      this.bmsCan := bmsCan;
      this.startHvMsg := startHvMsg;
      this.rxBmsMsg := rxBmsMsg;
      new;
      car.pedal := car.pedal.(status := car.pedal.status.(hvReady := false));
    }

    method SetStatus(st: Status)
      modifies car`pedal
      ensures car.pedal == old(car.pedal).(status := st)
    {
      car.pedal := car.pedal.(status := st);
    }

    /** BMS::checkHv; `rx` is what readMessage returns on this poll. */
    method CheckHv(rx: RxResult)
      modifies car`pedal, this`rxBmsMsg, bmsCan
      ensures var r := CheckHvStep(old(car.pedal.status), old(rxBmsMsg), rx);
              && car.pedal == old(car.pedal).(status := r.status)
              && rxBmsMsg == r.rxBuffer
              && bmsCan.sent == old(bmsCan.sent) + if r.sentStart then [startHvMsg] else []
    {
      SetStatus(car.pedal.status.(bmsNoMsg := false));
      if car.pedal.status.hvReady {
        return;
      }
      SetStatus(car.pedal.status.(hvReady := false));
      if rx.NoMsg? {
        SetStatus(car.pedal.status.(bmsNoMsg := true));
        return;
      }
      if rx.Received? {
        rxBmsMsg := rx.frame;
      }

      var state := HighNibble(rxBmsMsg.data[6]);
      if state == STANDBY {
        bmsCan.SendMessage(startHvMsg);
      } else if state == PRECHARGE {
        bmsCan.SendMessage(startHvMsg);
      } else if state == RUN {
        SetStatus(car.pedal.status.(hvReady := true));
      }
    }
  }
}
