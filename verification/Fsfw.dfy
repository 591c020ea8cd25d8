/**
 The services of the flight software framework that the mission code calls:
 storage pools, message queues, return values and command messages. Their
 implementation is not part of this model; what a pool or a queue decides
 (which slot it hands out, whether it has room) arrives as a parameter.
 */
module Fsfw {
  type byte = x: int | 0 <= x < 256

  datatype Option<+T> = None | Some(value: T)

  datatype ReturnValue =
    | OK
    | FAILED
    | NOTHING_TO_SEND
    | NO_REPLY_RECEIVED
    | COMMAND_NOT_SUPPORTED
    | UNKNOWN_COMMAND
    | INVALID_TC
    | INVALID_SUBSERVICE
    | INVALID_REPLY
    | EXECUTION_COMPLETE
    | STORE_FULL
    | NO_SUCH_SLOT
    | Foreign(code: nat)  // any code handed through from the framework

  /** A (pointer, length) argument pair; Null(n) is a null pointer passed with length n. */
  datatype Buffer = Null(claimed: nat) | Bytes(data: seq<byte>) {
    function Length(): nat {
      match this
      case Null(n) => n
      case Bytes(d) => |d|
    }
  }

  type SlotId = nat

  /** A pool grants the slot it offers exactly when that slot is free. */
  predicate Grants<T>(slots: map<SlotId, T>, offer: Option<SlotId>) {
    offer.Some? && offer.value !in slots
  }

  class Store<T> {
    var slots: map<SlotId, T>

    constructor ()
      ensures slots == map[]
    {
      slots := map[];
    }

    /** Reserves a slot; until it is written it holds `initial`. */
    method GetFreeElement(initial: T, offer: Option<SlotId>) returns (r: ReturnValue, id: SlotId)
      modifies this
      ensures r == if Grants(old(slots), offer) then OK else STORE_FULL
      ensures r == OK ==> offer == Some(id) && slots == old(slots)[id := initial]
      ensures r != OK ==> slots == old(slots)
    {
      if offer.Some? && offer.value !in slots {
        id := offer.value;
        slots := slots[id := initial];
        r := OK;
      } else {
        id := 0;
        r := STORE_FULL;
      }
    }

    method GetData(id: SlotId) returns (r: ReturnValue, data: Option<T>)
      ensures r == if id in slots then OK else NO_SUCH_SLOT
      ensures data == if id in slots then Some(slots[id]) else None
    {
      if id in slots {
        r, data := OK, Some(slots[id]);
      } else {
        r, data := NO_SUCH_SLOT, None;
      }
    }

    /** Copies into a slot the caller holds. */
    method Write(id: SlotId, value: T)
      requires id in slots
      modifies this
      ensures slots == old(slots)[id := value]
    {
      slots := slots[id := value];
    }

    method DeleteData(id: SlotId)
      modifies this
      ensures slots == old(slots) - {id}
    {
      slots := slots - {id};
    }
  }

  class MessageQueue<T> {
    var items: seq<T>

    constructor ()
      ensures items == []
    {
      items := [];
    }

    /** `room` is what the bounded queue answers: OK, or the reason it refuses. */
    method SendMessage(x: T, room: ReturnValue) returns (r: ReturnValue)
      modifies this
      ensures r == room
      ensures items == if room == OK then old(items) + [x] else old(items)
    {
      if room == OK {
        items := items + [x];
      }
      r := room;
    }

    method ReceiveMessage() returns (x: Option<T>)
      modifies this
      ensures old(items) == [] ==> x == None && items == []
      ensures old(items) != [] ==> x == Some(old(items)[0]) && items == old(items)[1..]
    {
      if items == [] {
        x := None;
      } else {
        x := Some(items[0]);
        items := items[1..];
      }
    }
  }

  // Message types. The framework's own numbers are not part of this model;
  // only their being distinct bytes is used.
  const ACTION: byte := 4
  const PARAMETER: byte := 10
  const DEVICE_HANDLER_COMMAND: byte := 7

  /** A message id: the message type in the high byte, the command in the low byte. */
  function MakeCommandId(messageType: byte, number: byte): nat {
    256 * messageType + number
  }

  function TypeOf(command: nat): byte {
    command / 256 % 256
  }

  function LowByte(command: nat): byte {
    command % 256
  }

  lemma CommandIdParts(messageType: byte, number: byte)
    ensures TypeOf(MakeCommandId(messageType, number)) == messageType
    ensures LowByte(MakeCommandId(messageType, number)) == number
  {
  }

  /** The two fields of a command message the mission code reads and writes. */
  datatype Message = Message(command: nat, parameter: nat)

  class CommandMessage {
    var command: nat
    var parameter: nat

    constructor ()
      ensures View() == Message(0, 0)
    {
      command, parameter := 0, 0;
    }

    function View(): Message
      reads this
    {
      Message(command, parameter)
    }

    method SetCommand(c: nat)
      modifies this
      ensures View() == old(View()).(command := c)
    {
      command := c;
    }

    method SetParameter(p: nat)
      modifies this
      ensures View() == old(View()).(parameter := p)
    {
      parameter := p;
    }
  }
}
