/**
 * The CAN transport as the core sees it: frames, the outcome of a non-blocking read, and a
 * bus controller (one MCP2515) reduced to the log of the frames it has accepted for sending.
 */
module Can {
  import opened Words

  /** can_frame.data: always eight bytes, of which the first `dlc` are meaningful. */
  type Payload = s: seq<Byte> | |s| == 8 witness [0, 0, 0, 0, 0, 0, 0, 0]

  /** can_frame: identifier, data length code and payload. */
  datatype Frame = Frame(id: U32, dlc: Byte, data: Payload)

  /**
   * The outcome of MCP2515::readMessage: ERROR_OK with a frame, ERROR_NOMSG, or another
   * error code (ERROR_FAIL), in which case the caller's frame buffer is left as it was.
   */
  datatype RxResult = Received(frame: Frame) | NoMsg | ReadFail

  /** One bus controller; `sent` lists, oldest first, every frame handed to sendMessage. */
  class CanBus {
    var sent: seq<Frame>

    constructor ()
      ensures sent == []
    {
      sent := [];
    }

    /** MCP2515::sendMessage, for a frame that the controller accepts. */
    method SendMessage(f: Frame)
      modifies this
      ensures sent == old(sent) + [f]
    {
      sent := sent + [f];
    }
  }
}
