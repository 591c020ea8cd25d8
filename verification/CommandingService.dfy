/**
 The webcam commanding service: turns a telecommand into a message for the
 device handler, parking its payload in a slot of the IPC store, and turns
 replies that name such a slot into telemetry, releasing the slot.
 */
module CommandingService {
  import opened Fsfw
  import WebcamDevice

  type Slots = map<SlotId, seq<byte>>

  // Subservices
  const COMMAND_TAKE_SNAPSHOT: byte := 1
  const COMMAND_SET_FRAME_RATE: byte := 2
  const COMMAND_GET_FRAME_RATE: byte := 3
  const PARAMETER_DUMP: byte := 4
  const TM_PARAMETER_DUMP: byte := 130
  const TM_COMMAND_DATA_REPLY: byte := 131

  const WEBCAM_PARAMETER_DOMAIN: byte := 0
  const OBJECT_ID_WEBCAM_HANDLER := 0x5700_0001

  // Command numbers within the parameter and action message types; only their being distinct is used.
  const CMD_PARAMETER_DUMP: byte := 2
  const REPLY_PARAMETER_DUMP: byte := 4
  const STEP_SUCCESS: byte := 1
  const STEP_FAILED: byte := 2
  const DATA_REPLY: byte := 3
  const COMPLETION_SUCCESS: byte := 4
  const COMPLETION_FAILED: byte := 5

  function FullParameterId(domainId: byte, parameterId: byte, index: nat): nat {
    0x100_0000 * domainId + 0x1_0000 * parameterId + index
  }

  // ----- commands -----

  /** What a well-formed telecommand asks for: a device command with its payload, or the dump of a parameter. */
  datatype Order =
    | Device(command: WebcamDevice.Command, payload: seq<byte>)
    | Dump(parameter: byte)

  /**
   The service's telecommand format: no payload for a snapshot or a rate query,
   exactly a double for a rate, at most the parameter number for a dump.
   */
  function Decode(subservice: byte, tc: Buffer): Option<Order> {
    if subservice == COMMAND_TAKE_SNAPSHOT && tc.Length() == 0 then Some(Device(WebcamDevice.TakeSnapshot, []))
    else if subservice == COMMAND_GET_FRAME_RATE && tc.Length() == 0 then Some(Device(WebcamDevice.GetFrameRate, []))
    else if subservice == COMMAND_SET_FRAME_RATE && tc.Bytes? && |tc.data| == WebcamDevice.SIZE_OF_DOUBLE then
      Some(Device(WebcamDevice.SetFrameRate, tc.data))
    else if subservice == PARAMETER_DUMP && tc.Length() == 0 then Some(Dump(WebcamDevice.PARAM_FRAME_RATE))
    else if subservice == PARAMETER_DUMP && tc.Bytes? && |tc.data| == 1 then Some(Dump(tc.data[0]))
    else None
  }

  /** The message that carries an order, its payload in slot `id`. */
  function Encode(order: Order, id: SlotId): Message {
    match order
    case Device(command, _) =>
      Message(MakeCommandId(DEVICE_HANDLER_COMMAND, WebcamDevice.CommandToRaw(command)), id)
    case Dump(p) =>
      Message(MakeCommandId(PARAMETER, CMD_PARAMETER_DUMP), FullParameterId(WEBCAM_PARAMETER_DOMAIN, p, 0))
  }

  /** The order a message carries, with its payload read from the store; None for a message no order has. */
  function Carried(m: Message, slots: Slots): Option<Order> {
    if TypeOf(m.command) == DEVICE_HANDLER_COMMAND then
      match WebcamDevice.RawToCommand(LowByte(m.command))
      case Some(c) => if m.parameter in slots then Some(Device(c, slots[m.parameter])) else None
      case None => None
    else if m.command == MakeCommandId(PARAMETER, CMD_PARAMETER_DUMP)
            && m.parameter % 0x1_0000 == 0 && m.parameter / 0x1_0000 < 256 then
      Some(Dump(m.parameter / 0x1_0000))
    else None
  }

  /** An order survives the trip through a message and the store. */
  lemma CarriedEncode(order: Order, id: SlotId, slots: Slots)
    requires order.Device? ==> id in slots && slots[id] == order.payload
    ensures Carried(Encode(order, id), slots) == Some(order)
  {
    match order {
      case Device(command, _) =>
        CommandIdParts(DEVICE_HANDLER_COMMAND, WebcamDevice.CommandToRaw(command));
      case Dump(p) =>
        CommandIdParts(PARAMETER, CMD_PARAMETER_DUMP);
    }
  }

  /** Preparing a command: the return value, the store and the message afterwards. */
  datatype Prepared = Prepared(r: ReturnValue, slots: Slots, message: Message)

  function Prepare(slots: Option<Slots>, subservice: byte, tc: Buffer, offer: Option<SlotId>, m: Message): Prepared {
    var kept := if slots.Some? then slots.value else map[];
    match Decode(subservice, tc)
    case None =>
      var known := COMMAND_TAKE_SNAPSHOT <= subservice <= PARAMETER_DUMP;
      Prepared(if known then INVALID_TC else INVALID_SUBSERVICE, kept, m)
    case Some(Dump(p)) => Prepared(OK, kept, Encode(Dump(p), 0))
    case Some(Device(c, payload)) =>
      if slots.None? then Prepared(FAILED, kept, m)
      else if !Grants(kept, offer) then Prepared(STORE_FULL, kept, m)
      else Prepared(OK, kept[offer.value := payload], Encode(Device(c, payload), offer.value))
  }

  // ----- replies -----

  datatype Reply = Reply(command: nat, storeId: SlotId, id: nat, returnCode: ReturnValue)

  predicate IsData(reply: Reply) {
    reply.command == MakeCommandId(ACTION, DATA_REPLY)
  }

  predicate IsDump(reply: Reply) {
    reply.command == MakeCommandId(PARAMETER, REPLY_PARAMETER_DUMP)
  }

  /** Replies whose slot the service reads and releases. */
  predicate NamesSlot(reply: Reply) {
    IsData(reply) || IsDump(reply)
  }

  /** What the commanding base class is told about a reply that names no slot. */
  function PlainResult(reply: Reply): ReturnValue {
    if reply.command == MakeCommandId(ACTION, COMPLETION_SUCCESS) then EXECUTION_COMPLETE
    else if reply.command == MakeCommandId(ACTION, STEP_SUCCESS) then OK
    else if reply.command == MakeCommandId(ACTION, STEP_FAILED) then reply.returnCode
    else if reply.command == MakeCommandId(ACTION, COMPLETION_FAILED) then reply.returnCode
    else INVALID_REPLY
  }

  /** What a telemetry packet holds; a data reply carries its size in sixteen bits. */
  datatype Content =
    | DataReply(objectId: nat, actionId: nat, data: seq<byte>, size: nat)
    | ParameterDumpReply(objectId: nat, parameterId: nat, data: seq<byte>, size: nat)

  datatype Telemetry = Telemetry(subservice: byte, content: Content)

  function TelemetryFor(reply: Reply, objectId: nat, data: seq<byte>): Telemetry {
    if IsData(reply) then
      Telemetry(TM_COMMAND_DATA_REPLY, DataReply(OBJECT_ID_WEBCAM_HANDLER, reply.id, data, |data| % 0x1_0000))
    else
      Telemetry(TM_PARAMETER_DUMP, ParameterDumpReply(objectId, reply.id, data, |data|))
  }

  class WebcamCommandingService {
    const ipcStore: Store?<seq<byte>>

    constructor (ipcStore: Store?<seq<byte>>)
      ensures this.ipcStore == ipcStore
    {
      this.ipcStore := ipcStore;
    }

    function Slots(): Option<Slots>
      reads ipcStore
    {
      if ipcStore == null then None else Some(ipcStore.slots)
    }

    method PrepareCommand(message: CommandMessage, subservice: byte, tc: Buffer, offer: Option<SlotId>)
      returns (r: ReturnValue)
      modifies message, ipcStore
      ensures var p := Prepare(old(Slots()), subservice, tc, offer, old(message.View()));
              r == p.r && message.View() == p.message && (ipcStore != null ==> ipcStore.slots == p.slots)
      ensures r ==
        if !(1 <= subservice <= 4) then INVALID_SUBSERVICE
        else if subservice == 2 && !(tc.Bytes? && |tc.data| == 8) then INVALID_TC
        else if subservice in {1, 3} && tc != Null(0) && tc != Bytes([]) then INVALID_TC
        else if subservice == 4 && tc != Null(0) && tc != Bytes([]) && !(tc.Bytes? && |tc.data| == 1) then INVALID_TC
        else if subservice == 4 then OK
        else if ipcStore == null then FAILED
        else if offer == None || offer.value in old(ipcStore.slots) then STORE_FULL
        else OK
      ensures r == OK && subservice in {1, 2, 3} ==>
        && TypeOf(message.command) == DEVICE_HANDLER_COMMAND && LowByte(message.command) == subservice
        && offer == Some(message.parameter) && ipcStore != null
        && ipcStore.slots == old(ipcStore.slots)[message.parameter := if subservice == 2 then tc.data else []]
      ensures r == OK && subservice == 4 ==>
        && message.command == MakeCommandId(PARAMETER, CMD_PARAMETER_DUMP)
        && message.parameter == 0x1_0000 * (if tc.Bytes? && |tc.data| == 1 then tc.data[0] as int else 1)
        && (ipcStore != null ==> ipcStore.slots == old(ipcStore.slots))
      ensures r != OK ==>
        message.View() == old(message.View()) && (ipcStore != null ==> ipcStore.slots == old(ipcStore.slots))
    {
      match subservice {
        case 1 =>
          r := PrepareDeviceCommand(message, 1, tc, offer);
        case 2 =>
          r := PrepareDeviceCommand(message, 2, tc, offer);
        case 3 =>
          r := PrepareDeviceCommand(message, 3, tc, offer);
        case 4 =>
          r := PrepareParameterDump(message, tc);
        case _ =>
          r := INVALID_SUBSERVICE;
      }
    }

    /** `command` is the number behind the CommandId, which may be none of the three. */
    method PrepareDeviceCommand(message: CommandMessage, command: byte, tc: Buffer, offer: Option<SlotId>)
      returns (r: ReturnValue)
      modifies message, ipcStore
      ensures command in {1, 2, 3} ==>
        var p := Prepare(old(Slots()), command, tc, offer, old(message.View()));
        r == p.r && message.View() == p.message && (ipcStore != null ==> ipcStore.slots == p.slots)
      ensures r == OK ==>
        && command in {1, 2, 3} && ipcStore != null
        && (if command == 2 then tc.Bytes? && |tc.data| == 8 else tc == Null(0) || tc == Bytes([]))
        && TypeOf(message.command) == DEVICE_HANDLER_COMMAND && LowByte(message.command) == command
        && offer == Some(message.parameter) && message.parameter !in old(ipcStore.slots)
        && ipcStore.slots == old(ipcStore.slots)[message.parameter := if command == 2 then tc.data else []]
      ensures command !in {1, 2, 3} ==>
        && r == INVALID_TC && message.View() == old(message.View())
        && (ipcStore != null ==> ipcStore.slots == old(ipcStore.slots))
    {
      var parameterBuffer: seq<byte>, parameterSize := [0, 0, 0, 0, 0, 0, 0, 0], 0;
      match WebcamDevice.RawToCommand(command) {
        case Some(TakeSnapshot) | Some(GetFrameRate) =>
          if tc.Length() != 0 {
            return INVALID_TC;
          }
          parameterSize := 0;
        case Some(SetFrameRate) =>
          if tc.Length() != WebcamDevice.SIZE_OF_DOUBLE || tc.Null? {
            return INVALID_TC;
          }
          parameterBuffer := tc.data;
          parameterSize := WebcamDevice.SIZE_OF_DOUBLE;
        case None =>
          return INVALID_TC;
      }
      if ipcStore == null {
        return FAILED;
      }
      var result, storeId := ipcStore.GetFreeElement(seq(parameterSize, _ => 0), offer);
      if result != OK {
        return result;
      }
      if parameterSize > 0 {
        ipcStore.Write(storeId, parameterBuffer[..parameterSize]);
      }
      assert ipcStore.slots[storeId] == Decode(command, tc).value.payload;
      assert ipcStore.slots == old(Slots()).value[storeId := Decode(command, tc).value.payload];
      message.SetCommand(MakeCommandId(DEVICE_HANDLER_COMMAND, command));
      message.SetParameter(storeId);
      r := OK;
    }

    method PrepareParameterDump(message: CommandMessage, tc: Buffer) returns (r: ReturnValue)
      modifies message
      ensures var p := Prepare(None, PARAMETER_DUMP, tc, None, old(message.View()));
              r == p.r && message.View() == p.message
      ensures r == if tc == Null(0) || tc == Bytes([]) || (tc.Bytes? && |tc.data| == 1) then OK else INVALID_TC
      ensures message.View() ==
        if r != OK then old(message.View())
        else Message(MakeCommandId(PARAMETER, CMD_PARAMETER_DUMP),
                     0x1_0000 * if tc.Bytes? && |tc.data| == 1 then tc.data[0] as int else 1)
    {
      var parameterRaw := WebcamDevice.PARAM_FRAME_RATE;
      if tc.Length() > 0 {
        if tc.Length() != 1 || tc.Null? {
          return INVALID_TC;
        }
        parameterRaw := tc.data[0];
      }
      var parameterId := FullParameterId(WEBCAM_PARAMETER_DOMAIN, parameterRaw, 0);
      message.SetCommand(MakeCommandId(PARAMETER, CMD_PARAMETER_DUMP));
      message.SetParameter(parameterId);
      r := OK;
    }

    /** `tmResult` is what sendTmPacket answers; `sent` is the packet given to it, if it is called. */
    method HandleReply(reply: Reply, objectId: nat, tmResult: ReturnValue)
      returns (r: ReturnValue, isStep: bool, sent: Option<Telemetry>)
      modifies ipcStore
      ensures ipcStore != null ==>
        ipcStore.slots == if NamesSlot(reply) then old(ipcStore.slots) - {reply.storeId} else old(ipcStore.slots)
      ensures NamesSlot(reply) && ipcStore != null && reply.storeId in old(ipcStore.slots) ==>
        var data := old(ipcStore.slots)[reply.storeId];
        && r == tmResult && sent == Some(TelemetryFor(reply, objectId, data))
        && sent == Some(if IsData(reply)
                        then Telemetry(131, DataReply(OBJECT_ID_WEBCAM_HANDLER, reply.id, data, |data| % 0x1_0000))
                        else Telemetry(130, ParameterDumpReply(objectId, reply.id, data, |data|)))
      ensures NamesSlot(reply) && (ipcStore == null || reply.storeId !in old(ipcStore.slots)) ==>
        r == (if ipcStore == null then FAILED else NO_SUCH_SLOT) && sent == None
      ensures !NamesSlot(reply) ==> sent == None && r == PlainResult(reply)
      ensures NamesSlot(reply) <==>
        reply.command in {MakeCommandId(ACTION, DATA_REPLY), MakeCommandId(PARAMETER, REPLY_PARAMETER_DUMP)}
      ensures !NamesSlot(reply) ==>
        r == if reply.command == MakeCommandId(ACTION, COMPLETION_SUCCESS) then EXECUTION_COMPLETE
             else if reply.command == MakeCommandId(ACTION, STEP_SUCCESS) then OK
             else if reply.command in {MakeCommandId(ACTION, STEP_FAILED), MakeCommandId(ACTION, COMPLETION_FAILED)}
             then reply.returnCode else INVALID_REPLY
      ensures isStep <==>
        IsData(reply) || reply.command in {MakeCommandId(ACTION, STEP_SUCCESS), MakeCommandId(ACTION, STEP_FAILED)}
    {
      var t := TypeOf(reply.command);
      if t == ACTION {
        r, isStep, sent := HandleActionReply(reply, tmResult);
      } else if t == PARAMETER {
        isStep := false;
        r, sent := HandleParameterReply(reply, objectId, tmResult);
      } else {
        r, isStep, sent := INVALID_REPLY, false, None;
      }
    }

    method HandleActionReply(reply: Reply, tmResult: ReturnValue)
      returns (r: ReturnValue, isStep: bool, sent: Option<Telemetry>)
      modifies ipcStore
      ensures ipcStore != null ==>
        ipcStore.slots == if IsData(reply) then old(ipcStore.slots) - {reply.storeId} else old(ipcStore.slots)
      ensures IsData(reply) && ipcStore != null && reply.storeId in old(ipcStore.slots) ==>
        var data := old(ipcStore.slots)[reply.storeId];
        && r == tmResult && sent == Some(TelemetryFor(reply, 0, data))
        && sent == Some(Telemetry(131, DataReply(OBJECT_ID_WEBCAM_HANDLER, reply.id, data, |data| % 0x1_0000)))
      ensures IsData(reply) && (ipcStore == null || reply.storeId !in old(ipcStore.slots)) ==>
        r == (if ipcStore == null then FAILED else NO_SUCH_SLOT) && sent == None
      ensures !IsData(reply) ==> sent == None && r == PlainResult(reply)
      ensures !IsData(reply) ==>
        r == if reply.command == MakeCommandId(ACTION, COMPLETION_SUCCESS) then EXECUTION_COMPLETE
             else if reply.command == MakeCommandId(ACTION, STEP_SUCCESS) then OK
             else if reply.command in {MakeCommandId(ACTION, STEP_FAILED), MakeCommandId(ACTION, COMPLETION_FAILED)}
             then reply.returnCode else INVALID_REPLY
      ensures isStep <==>
        IsData(reply) || reply.command in {MakeCommandId(ACTION, STEP_SUCCESS), MakeCommandId(ACTION, STEP_FAILED)}
    {
      isStep, sent := false, None;
      if reply.command == MakeCommandId(ACTION, COMPLETION_SUCCESS) {
        r := EXECUTION_COMPLETE;
      } else if reply.command == MakeCommandId(ACTION, STEP_SUCCESS) {
        isStep := true;
        r := OK;
      } else if reply.command == MakeCommandId(ACTION, DATA_REPLY) {
        isStep := true;
        if ipcStore == null {
          return FAILED, isStep, None;
        }
        var result, data := ipcStore.GetData(reply.storeId);
        if result != OK {
          return result, isStep, None;
        }
        var dataReply := DataReply(OBJECT_ID_WEBCAM_HANDLER, reply.id, data.value, |data.value| % 0x1_0000);
        sent := Some(Telemetry(TM_COMMAND_DATA_REPLY, dataReply));
        ipcStore.DeleteData(reply.storeId);
        r := tmResult;
      } else if reply.command == MakeCommandId(ACTION, STEP_FAILED) {
        isStep := true;
        r := reply.returnCode;
      } else if reply.command == MakeCommandId(ACTION, COMPLETION_FAILED) {
        r := reply.returnCode;
      } else {
        r := INVALID_REPLY;
      }
    }

    method HandleParameterReply(reply: Reply, objectId: nat, tmResult: ReturnValue)
      returns (r: ReturnValue, sent: Option<Telemetry>)
      modifies ipcStore
      ensures ipcStore != null ==>
        ipcStore.slots == if IsDump(reply) then old(ipcStore.slots) - {reply.storeId} else old(ipcStore.slots)
      ensures IsDump(reply) && ipcStore != null && reply.storeId in old(ipcStore.slots) ==>
        var data := old(ipcStore.slots)[reply.storeId];
        && r == tmResult && sent == Some(TelemetryFor(reply, objectId, data))
        && sent == Some(Telemetry(130, ParameterDumpReply(objectId, reply.id, data, |data|)))
      ensures IsDump(reply) && (ipcStore == null || reply.storeId !in old(ipcStore.slots)) ==>
        r == (if ipcStore == null then FAILED else NO_SUCH_SLOT) && sent == None
      ensures !IsDump(reply) ==> r == INVALID_REPLY && sent == None
    {
      sent := None;
      if reply.command != MakeCommandId(PARAMETER, REPLY_PARAMETER_DUMP) {
        return INVALID_REPLY, None;
      }
      if ipcStore == null {
        return FAILED, None;
      }
      var result, data := ipcStore.GetData(reply.storeId);
      if result != OK {
        return result, None;
      }
      var tmReply := ParameterDumpReply(objectId, reply.id, data.value, |data.value|);
      sent := Some(Telemetry(TM_PARAMETER_DUMP, tmReply));
      ipcStore.DeleteData(reply.storeId);
      r := tmResult;
    }
  }
}
