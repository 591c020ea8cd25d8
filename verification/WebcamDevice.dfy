/**
 The webcam device handler: three pending flags with a fixed priority, one
 slot for a fabricated reply, and a requested and a current frame rate.
 */
module WebcamDevice {
  import opened Fsfw

  type DeviceCommandId = nat

  /** A frame rate as the eight bytes of its double; copying a double copies its bytes. */
  type Rate = s: seq<byte> | |s| == 8 witness [0, 0, 0, 0, 0, 0, 0, 0]
  const ZERO_RATE: Rate := [0, 0, 0, 0, 0, 0, 0, 0]
  const SIZE_OF_DOUBLE := 8

  datatype Command = TakeSnapshot | SetFrameRate | GetFrameRate

  // The framework's "no command" id; only its not being 1, 2 or 3 is used.
  const NO_COMMAND_ID: DeviceCommandId := 0xFFFF_FFFE

  function CommandToRaw(c: Command): byte {
    match c
    case TakeSnapshot => 1
    case SetFrameRate => 2
    case GetFrameRate => 3
  }

  function RawToCommand(raw: DeviceCommandId): Option<Command> {
    match raw
    case 1 => Some(TakeSnapshot)
    case 2 => Some(SetFrameRate)
    case 3 => Some(GetFrameRate)
    case _ => None
  }

  const PARAM_FRAME_RATE: byte := 1

  datatype State = State(
    comIF: bool,  // communicationInterface is not null
    snapshotRequested: bool,
    frameRateCommandPending: bool,
    frameRateQueryPending: bool,
    snapshotInProgress: bool,
    replyReady: bool,
    fabricatedReplyId: DeviceCommandId,
    currentFrameRate: Rate,
    requestedFrameRate: Rate)

  function Initial(comIF: bool): State {
    State(comIF, false, false, false, false, false, NO_COMMAND_ID, ZERO_RATE, ZERO_RATE)
  }

  /** A parameter access. `newValues` is None for a read, else what getElement yields. */
  datatype Access = Access(
    domainId: nat, parameterId: nat, wrapperGiven: bool,
    newValues: Option<Element>, startAtIndex: nat)
  datatype Element = Element(result: ReturnValue, rate: Rate)

  predicate IsFrameRate(a: Access) {
    a.domainId == 0 && a.parameterId == 1
  }

  /** What getParameter prints. */
  datatype Line = ReadLine(rate: Rate) | WriteLine(rate: Rate)

  /** What interpretDeviceReply prints. */
  datatype Report =
    | SnapshotCompleted
    | FrameRateSet(rate: Rate)
    | FrameRateIs(rate: Rate)
    | ReplyFor(id: DeviceCommandId)

  /** The calls the framework makes on the handler; Parse is a scan and, if it finds a reply, its interpretation. */
  datatype Event =
    | Build(outGiven: bool)
    | Request(id: DeviceCommandId, data: Buffer)
    | Parse
    | Parameter(access: Access)

  predicate Pending(s: State, c: Command) {
    match c
    case TakeSnapshot => s.snapshotRequested
    case SetFrameRate => s.frameRateCommandPending
    case GetFrameRate => s.frameRateQueryPending
  }

  /** The command a build hook sends, if any. */
  function Sends(s: State, outGiven: bool): Option<Command> {
    if !outGiven || !s.comIF then None
    else if s.snapshotRequested then Some(TakeSnapshot)
    else if s.frameRateCommandPending then Some(SetFrameRate)
    else if s.frameRateQueryPending then Some(GetFrameRate)
    else None
  }

  function PrepareReplyState(s: State, id: DeviceCommandId): State {
    if s.comIF then s.(fabricatedReplyId := id, replyReady := true)
    else s.(fabricatedReplyId := NO_COMMAND_ID, replyReady := false)
  }

  function BuildState(s: State, outGiven: bool): State {
    match Sends(s, outGiven)
    case None => s
    case Some(TakeSnapshot) =>
      PrepareReplyState(s.(snapshotRequested := false, snapshotInProgress := true), 1)
    case Some(SetFrameRate) =>
      PrepareReplyState(s.(frameRateCommandPending := false, snapshotInProgress := false,
                           currentFrameRate := s.requestedFrameRate), 2)
    case Some(GetFrameRate) =>
      PrepareReplyState(s.(frameRateQueryPending := false, snapshotInProgress := false), 3)
  }

  /** The rate a request or a parameter access writes, if it writes one. */
  function Writes(e: Event): Option<Rate> {
    match e
    case Request(id, Bytes(d)) => if id == 2 && |d| >= SIZE_OF_DOUBLE then Some(d[..SIZE_OF_DOUBLE]) else None
    case Parameter(a) =>
      if IsFrameRate(a) && a.startAtIndex == 0
         && a.newValues.Some? && a.newValues.value.result == OK
      then Some(a.newValues.value.rate) else None
    case _ => None
  }

  function Noted(s: State, w: Option<Rate>): State {
    if w.Some? then s.(requestedFrameRate := w.value) else s
  }

  function RequestState(s: State, id: DeviceCommandId, data: Buffer): State {
    match RawToCommand(id)
    case None => s
    case Some(TakeSnapshot) => s.(snapshotRequested := true)
    case Some(SetFrameRate) => Noted(s, Writes(Request(id, data))).(frameRateCommandPending := true)
    case Some(GetFrameRate) => s.(frameRateQueryPending := true)
  }

  function ScanState(s: State): State {
    if !s.replyReady then s
    else if s.fabricatedReplyId == 1 then s.(replyReady := false, snapshotInProgress := false)
    else s.(replyReady := false)
  }

  function InterpretState(s: State, id: DeviceCommandId): State {
    (if id == 1 then s.(snapshotInProgress := false) else s).(fabricatedReplyId := NO_COMMAND_ID)
  }

  function ReportOf(s: State, id: DeviceCommandId): Report {
    match RawToCommand(id)
    case Some(TakeSnapshot) => SnapshotCompleted
    case Some(SetFrameRate) => FrameRateSet(s.currentFrameRate)
    case Some(GetFrameRate) => FrameRateIs(s.currentFrameRate)
    case None => ReplyFor(id)
  }

  /** The id of the reply a parse finds. */
  function Replies(s: State): Option<DeviceCommandId> {
    if s.replyReady then Some(s.fabricatedReplyId) else None
  }

  /** What a parse prints. */
  function Prints(s: State): Option<Report> {
    if s.replyReady then Some(ReportOf(ScanState(s), s.fabricatedReplyId)) else None
  }

  function ParseState(s: State): State {
    match Replies(s)
    case None => ScanState(s)
    case Some(id) => InterpretState(ScanState(s), id)
  }

  function Step(s: State, e: Event): State {
    match e
    case Build(outGiven) => BuildState(s, outGiven)
    case Request(id, data) => RequestState(s, id, data)
    case Parse => ParseState(s)
    case Parameter(_) => Noted(s, Writes(e))
  }

  /** The state after the first n calls of a run. */
  function At(s: State, run: seq<Event>, n: nat): State
    requires n <= |run|
  {
    if n == 0 then s else Step(At(s, run, n - 1), run[n - 1])
  }

  /** What the message hook does: the new state and pool, and the answer it sends to the commander. */
  datatype Handled = Handled(state: State, slots: map<SlotId, seq<byte>>, answer: Option<ReturnValue>)

  function HandleMessage(s: State, slots: map<SlotId, seq<byte>>, m: Message): Handled {
    var raw := LowByte(m.command);
    if TypeOf(m.command) != DEVICE_HANDLER_COMMAND then Handled(s, slots, None)
    else if RawToCommand(raw).None? then Handled(s, slots, Some(UNKNOWN_COMMAND))
    else if m.parameter !in slots then Handled(s, slots, Some(NO_SUCH_SLOT))
    else Handled(RequestState(s, raw, Bytes(slots[m.parameter])), slots - {m.parameter}, None)
  }

  class WebcamDeviceHandler {
    const communicationInterface: bool
    const ipcStore: Store<seq<byte>>
    var snapshotRequested: bool
    var frameRateCommandPending: bool
    var frameRateQueryPending: bool
    var snapshotInProgress: bool
    var replyReady: bool
    var fabricatedReplyId: DeviceCommandId
    var currentFrameRate: Rate
    var requestedFrameRate: Rate

    function View(): State
      reads this
    {
      State(communicationInterface, snapshotRequested, frameRateCommandPending, frameRateQueryPending,
            snapshotInProgress, replyReady, fabricatedReplyId, currentFrameRate, requestedFrameRate)
    }

    constructor (communicationInterface: bool, ipcStore: Store<seq<byte>>)
      ensures View() == Initial(communicationInterface)
      ensures !snapshotRequested && !frameRateCommandPending && !frameRateQueryPending
      ensures !snapshotInProgress && !replyReady && fabricatedReplyId == NO_COMMAND_ID
      ensures currentFrameRate == requestedFrameRate == [0, 0, 0, 0, 0, 0, 0, 0]
      ensures this.communicationInterface == communicationInterface && this.ipcStore == ipcStore
    {
      this.communicationInterface, this.ipcStore := communicationInterface, ipcStore;
      snapshotRequested, frameRateCommandPending, frameRateQueryPending := false, false, false;
      snapshotInProgress, replyReady, fabricatedReplyId := false, false, NO_COMMAND_ID;
      currentFrameRate, requestedFrameRate := ZERO_RATE, ZERO_RATE;
    }

    method PrepareReply(commandId: DeviceCommandId)
      modifies this`fabricatedReplyId, this`replyReady
      ensures View() == PrepareReplyState(old(View()), commandId)
      ensures replyReady == communicationInterface
      ensures fabricatedReplyId == if communicationInterface then commandId else NO_COMMAND_ID
    {
      if !communicationInterface {
        fabricatedReplyId := NO_COMMAND_ID;
        replyReady := false;
        return;
      }
      fabricatedReplyId := commandId;
      replyReady := true;
    }

    /** `outGiven` says that the caller passed an address for the command id. */
    method BuildNormalDeviceCommand(outGiven: bool) returns (r: ReturnValue, deviceCommand: Option<DeviceCommandId>)
      modifies this
      ensures View() == BuildState(old(View()), outGiven)
      ensures Sends(old(View()), outGiven).None? ==> deviceCommand == None
      ensures forall c :: Sends(old(View()), outGiven) == Some(c) ==> deviceCommand == Some(CommandToRaw(c))
      ensures deviceCommand ==
        if !outGiven || !communicationInterface then None
        else if old(snapshotRequested) then Some(1)
        else if old(frameRateCommandPending) then Some(2)
        else if old(frameRateQueryPending) then Some(3)
        else None
      ensures r ==
        if !outGiven || !communicationInterface then FAILED
        else if deviceCommand == None then NOTHING_TO_SEND else OK
      ensures snapshotRequested == (old(snapshotRequested) && deviceCommand != Some(1))
      ensures frameRateCommandPending == (old(frameRateCommandPending) && deviceCommand != Some(2))
      ensures frameRateQueryPending == (old(frameRateQueryPending) && deviceCommand != Some(3))
      ensures deviceCommand.Some? ==>
        replyReady && fabricatedReplyId == deviceCommand.value && snapshotInProgress == (deviceCommand == Some(1))
      ensures currentFrameRate == if deviceCommand == Some(2) then requestedFrameRate else old(currentFrameRate)
      ensures requestedFrameRate == old(requestedFrameRate)
      ensures deviceCommand == None ==> View() == old(View())
    {
      deviceCommand := None;
      if !outGiven || !communicationInterface {
        r := FAILED;
      } else if snapshotRequested {
        snapshotRequested := false;
        snapshotInProgress := true;
        deviceCommand := Some(1);
        PrepareReply(1);
        r := OK;
      } else if frameRateCommandPending {
        frameRateCommandPending := false;
        snapshotInProgress := false;
        currentFrameRate := requestedFrameRate;
        deviceCommand := Some(2);
        PrepareReply(2);
        r := OK;
      } else if frameRateQueryPending {
        frameRateQueryPending := false;
        snapshotInProgress := false;
        deviceCommand := Some(3);
        PrepareReply(3);
        r := OK;
      } else {
        r := NOTHING_TO_SEND;
      }
    }

    method ScanForReply(idGiven: bool, lenGiven: bool)
      returns (r: ReturnValue, foundId: Option<DeviceCommandId>, foundLen: Option<nat>)
      modifies this`snapshotInProgress, this`replyReady
      ensures View() == ScanState(old(View()))
      ensures !replyReady
      ensures snapshotInProgress == (old(snapshotInProgress) && !(old(replyReady) && fabricatedReplyId == 1))
      ensures r == if old(replyReady) then OK else NO_REPLY_RECEIVED
      ensures foundId ==
        if !idGiven then None else if old(replyReady) then Some(fabricatedReplyId) else Some(NO_COMMAND_ID)
      ensures foundLen == if lenGiven then Some(0) else None
    {
      foundId, foundLen := None, None;
      if replyReady {
        if idGiven {
          foundId := Some(fabricatedReplyId);
        }
        if lenGiven {
          foundLen := Some(0);
        }
        if fabricatedReplyId == 1 {
          snapshotInProgress := false;
        }
        replyReady := false;
        return OK, foundId, foundLen;
      }
      if idGiven {
        foundId := Some(NO_COMMAND_ID);
      }
      if lenGiven {
        foundLen := Some(0);
      }
      r := NO_REPLY_RECEIVED;
    }

    method InterpretDeviceReply(id: DeviceCommandId) returns (r: ReturnValue, printed: Report)
      modifies this`snapshotInProgress, this`fabricatedReplyId
      ensures r == OK && printed == ReportOf(old(View()), id)
      ensures View() == InterpretState(old(View()), id)
      ensures printed ==
        if id == 1 then SnapshotCompleted
        else if id == 2 then FrameRateSet(currentFrameRate)
        else if id == 3 then FrameRateIs(currentFrameRate)
        else ReplyFor(id)
      ensures snapshotInProgress == (old(snapshotInProgress) && id != 1)
      ensures fabricatedReplyId == NO_COMMAND_ID
    {
      match RawToCommand(id) {
        case Some(TakeSnapshot) =>
          snapshotInProgress := false;
          printed := SnapshotCompleted;
        case Some(SetFrameRate) =>
          printed := FrameRateSet(currentFrameRate);
        case Some(GetFrameRate) =>
          printed := FrameRateIs(currentFrameRate);
        case None =>
          printed := ReplyFor(id);
      }
      fabricatedReplyId := NO_COMMAND_ID;
      r := OK;
    }

    /** The framework's parsing step: a scan and, in the same step, the interpretation of what it found. */
    method ParseReply() returns (printed: Option<Report>)
      modifies this
      ensures View() == ParseState(old(View()))
      ensures printed == Prints(old(View()))
      ensures !replyReady && (printed.Some? <==> old(replyReady))
      ensures fabricatedReplyId == if old(replyReady) then NO_COMMAND_ID else old(fabricatedReplyId)
      ensures snapshotInProgress == (old(snapshotInProgress) && !(old(replyReady) && old(fabricatedReplyId) == 1))
      ensures currentFrameRate == old(currentFrameRate) && requestedFrameRate == old(requestedFrameRate)
    {
      printed := None;
      var r, id, len := ScanForReply(true, true);
      if r == OK {
        var ok, p := InterpretDeviceReply(id.value);
        printed := Some(p);
      }
    }

    /** `baseResult` is what the base class answers for parameters it does not know. */
    method GetParameter(a: Access, baseResult: ReturnValue)
      returns (r: ReturnValue, wrapped: Option<Rate>, printed: Option<Line>)
      modifies this
      ensures View() == Noted(old(View()), Writes(Parameter(a)))
      ensures !IsFrameRate(a) ==> r == baseResult && wrapped == None
      ensures IsFrameRate(a) && a.startAtIndex != 0 ==> r == FAILED && wrapped == None
      ensures IsFrameRate(a) && a.startAtIndex == 0 && a.newValues.Some? ==>
        r == a.newValues.value.result && wrapped == None
      ensures IsFrameRate(a) && a.startAtIndex == 0 && a.newValues.None? ==>
        if a.wrapperGiven then r == OK && wrapped == Some(currentFrameRate) else r == FAILED && wrapped == None
      ensures wrapped.Some? ==> printed == Some(ReadLine(wrapped.value)) && View() == old(View())
      ensures IsFrameRate(a) && a.startAtIndex == 0 && a.newValues.Some? && a.newValues.value.result == OK ==>
        && View() == old(View()).(requestedFrameRate := a.newValues.value.rate)
        && printed == Some(WriteLine(a.newValues.value.rate))
      ensures wrapped == None
              && !(IsFrameRate(a) && a.startAtIndex == 0 && a.newValues.Some? && a.newValues.value.result == OK) ==>
        View() == old(View()) && printed == None
    {
      wrapped, printed := None, None;
      if a.domainId != 0 {
        r := baseResult;
      } else if a.parameterId == PARAM_FRAME_RATE {
        if a.newValues.None? {
          if !a.wrapperGiven {
            r := FAILED;
          } else if a.startAtIndex != 0 {
            r := FAILED;
          } else {
            printed := Some(ReadLine(currentFrameRate));
            wrapped := Some(currentFrameRate);
            r := OK;
          }
        } else if a.startAtIndex != 0 {
          r := FAILED;
        } else {
          r := a.newValues.value.result;
          if r == OK {
            requestedFrameRate := a.newValues.value.rate;
            printed := Some(WriteLine(requestedFrameRate));
          }
        }
      } else {
        r := baseResult;
      }
    }

    method BuildCommandFromCommand(deviceCommand: DeviceCommandId, data: Buffer) returns (r: ReturnValue)
      modifies this
      ensures View() == RequestState(old(View()), deviceCommand, data)
      ensures r == if 1 <= deviceCommand <= 3 then OK else COMMAND_NOT_SUPPORTED
      ensures snapshotRequested == (old(snapshotRequested) || deviceCommand == 1)
      ensures frameRateCommandPending == (old(frameRateCommandPending) || deviceCommand == 2)
      ensures frameRateQueryPending == (old(frameRateQueryPending) || deviceCommand == 3)
      ensures requestedFrameRate ==
        if deviceCommand == 2 && data.Bytes? && |data.data| >= 8 then data.data[..8] else old(requestedFrameRate)
      ensures snapshotInProgress == old(snapshotInProgress) && replyReady == old(replyReady)
      ensures fabricatedReplyId == old(fabricatedReplyId) && currentFrameRate == old(currentFrameRate)
    {
      match RawToCommand(deviceCommand) {
        case Some(TakeSnapshot) =>
          snapshotRequested := true;
          r := OK;
        case Some(SetFrameRate) =>
          if data.Bytes? && |data.data| >= SIZE_OF_DOUBLE {
            requestedFrameRate := data.data[..SIZE_OF_DOUBLE];
          }
          frameRateCommandPending := true;
          r := OK;
        case Some(GetFrameRate) =>
          frameRateQueryPending := true;
          r := OK;
        case None =>
          r := COMMAND_NOT_SUPPORTED;
      }
    }

    /** The action helper: reads the slot, passes its bytes on, deletes the slot. */
    method HandleActionMessage(actionId: DeviceCommandId, storeId: SlotId) returns (r: ReturnValue)
      modifies this, ipcStore
      ensures storeId !in old(ipcStore.slots) ==>
        r == NO_SUCH_SLOT && View() == old(View()) && ipcStore.slots == old(ipcStore.slots)
      ensures storeId in old(ipcStore.slots) ==>
        && View() == RequestState(old(View()), actionId, Bytes(old(ipcStore.slots)[storeId]))
        && ipcStore.slots == old(ipcStore.slots) - {storeId}
        && r == if 1 <= actionId <= 3 then OK else COMMAND_NOT_SUPPORTED
    {
      var data;
      r, data := ipcStore.GetData(storeId);
      if r == OK {
        r := BuildCommandFromCommand(actionId, Bytes(data.value));
        ipcStore.DeleteData(storeId);
      }
    }

    /** `answer` is what replyReturnvalueToCommand sends, None when it is not called. */
    method LetChildHandleMessage(message: Option<CommandMessage>, baseResult: ReturnValue)
      returns (r: ReturnValue, answer: Option<ReturnValue>)
      modifies this, ipcStore, if message.Some? then {message.value} else {}
      ensures message.None? ==>
        r == FAILED && answer == None && View() == old(View()) && ipcStore.slots == old(ipcStore.slots)
      ensures message.Some? ==>
        Handled(View(), ipcStore.slots, answer) ==
        HandleMessage(old(View()), old(ipcStore.slots), old(message.value.View()))
      ensures message.Some? && TypeOf(old(message.value.command)) != DEVICE_HANDLER_COMMAND ==>
        r == baseResult && answer == None && View() == old(View()) && ipcStore.slots == old(ipcStore.slots)
      ensures message.Some? && TypeOf(old(message.value.command)) == DEVICE_HANDLER_COMMAND ==>
        var raw, id := LowByte(old(message.value.command)), old(message.value.parameter);
        && r == OK
        && answer == (if !(1 <= raw <= 3) then Some(UNKNOWN_COMMAND)
                      else if id !in old(ipcStore.slots) then Some(NO_SUCH_SLOT)
                      else None)
        && ipcStore.slots == (if answer == None then old(ipcStore.slots) - {id} else old(ipcStore.slots))
        && (answer.Some? ==> View() == old(View()))
        && (answer == None ==>
              && snapshotRequested == (old(snapshotRequested) || raw == 1)
              && frameRateCommandPending == (old(frameRateCommandPending) || raw == 2)
              && frameRateQueryPending == (old(frameRateQueryPending) || raw == 3)
              && (raw == 2 && |old(ipcStore.slots)[id]| == 8 ==> requestedFrameRate == old(ipcStore.slots)[id]))
    {
      answer := None;
      if message.None? {
        return FAILED, None;
      }
      var m := message.value;
      if TypeOf(m.command) != DEVICE_HANDLER_COMMAND {
        return baseResult, None;
      }
      var rawCommand := LowByte(m.command);
      if RawToCommand(rawCommand).None? {
        return OK, Some(UNKNOWN_COMMAND);
      }
      var storeId := m.parameter;
      m.SetCommand(MakeCommandId(ACTION, rawCommand));
      var result := HandleActionMessage(rawCommand, storeId);
      if result != OK {
        answer := Some(result);
      }
      r := OK;
    }
  }
}
