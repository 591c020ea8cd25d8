/**
 The objects of the demo wired together as its object factory wires them. Each
 act of the pipeline is carried out by calling their methods, so what is proved
 of pipeline runs is proved of these objects.
 */
module Rig {
  import opened Fsfw
  import opened Pipeline
  import Device = WebcamDevice
  import Commanding = CommandingService
  import Tmtc

  class Rig {
    const tcStore: Store<Tmtc.Packet>
    const ipcStore: Store<seq<byte>>
    const requestQueue: MessageQueue<SlotId>
    const orderQueue: MessageQueue<Message>
    const replyQueue: MessageQueue<Commanding.Reply>
    const distributor: Tmtc.StubPusDistributor
    const service: Commanding.WebcamCommandingService
    const handler: Device.WebcamDeviceHandler
    ghost var tcRefused: set<SlotId>
    ghost var ipcRefused: set<SlotId>

    ghost predicate Wired()
      reads distributor
    {
      && distributor.tcStore == tcStore && service.ipcStore == ipcStore && handler.ipcStore == ipcStore
      && distributor.registeredService == Some(Tmtc.Service(SERVICE_ID, requestQueue))
      && Different([this, tcStore, ipcStore, requestQueue, orderQueue, replyQueue, distributor, service, handler])
    }

    ghost predicate Different(os: seq<object>) {
      forall i, j :: 0 <= i < j < |os| ==> os[i] != os[j]
    }

    ghost function IpcView(): IpcSide
      reads this, ipcStore, orderQueue, replyQueue
    {
      IpcSide(ipcStore.slots, orderQueue.items, replyQueue.items, ipcRefused)
    }

    ghost function View(): System
      reads this, tcStore, ipcStore, requestQueue, orderQueue, replyQueue, distributor, handler
    {
      System(distributor.sequenceCounter, TcSide(tcStore.slots, requestQueue.items, tcRefused),
             IpcView(), handler.View())
    }

    ghost function Objects(): set<object> {
      {tcStore, ipcStore, requestQueue, orderQueue, replyQueue, distributor, service, handler}
    }

    constructor (comIF: bool)
      ensures Wired() && View() == Start(comIF) && fresh(Objects())
    {
      var tc := new Store<Tmtc.Packet>();
      var ipc := new Store<seq<byte>>();
      var requests := new MessageQueue<SlotId>();
      tcStore, ipcStore, requestQueue := tc, ipc, requests;
      orderQueue := new MessageQueue<Message>();
      replyQueue := new MessageQueue<Commanding.Reply>();
      var d := new Tmtc.StubPusDistributor(tc);
      var r := d.RegisterService(Some(Tmtc.Service(SERVICE_ID, requests)));
      distributor := d;
      service := new Commanding.WebcamCommandingService(ipc);
      handler := new Device.WebcamDeviceHandler(comIF, ipc);
      tcRefused, ipcRefused := {}, {};
    }

    method Send(subservice: byte, data: Buffer, offer: Option<SlotId>, serialised: ReturnValue, room: ReturnValue)
      requires Wired()
      modifies this`tcRefused, tcStore, requestQueue, distributor`sequenceCounter
      ensures Wired() && View() == Next(old(View()), Act.Send(subservice, data, offer, serialised, room))
    {
      ghost var granted := Grants(tcStore.slots, offer);
      var r := distributor.SendCommand(subservice, data, offer, serialised, room);
      if granted && serialised == OK && room != OK {
        tcRefused := tcRefused + {offer.value};
      }
    }

    /** The commanding base class at work on the next telecommand. */
    method Translate(offer: Option<SlotId>, room: ReturnValue)
      requires Wired()
      modifies this`ipcRefused, tcStore, requestQueue, ipcStore, orderQueue
      ensures Wired() && View() == Next(old(View()), Act.Translate(offer, room))
    {
      var id := requestQueue.ReceiveMessage();
      if id.None? {
        return;
      }
      var got, packet := tcStore.GetData(id.value);
      tcStore.DeleteData(id.value);
      if got != OK {
        return;
      }
      Forward(packet.value, offer, room);
    }

    method Forward(packet: Tmtc.Packet, offer: Option<SlotId>, room: ReturnValue)
      requires Wired()
      modifies this`ipcRefused, ipcStore, orderQueue
      ensures IpcView() == Pipeline.Forward(old(IpcView()), packet, offer, room)
    {
      var message := new CommandMessage();
      var r := service.PrepareCommand(message, packet.subservice, Bytes(packet.appData), offer);
      if r == OK {
        var sent := orderQueue.SendMessage(message.View(), room);
        if sent != OK && CarriesSlot(message.View()) {
          ipcRefused := ipcRefused + {message.parameter};
        }
      }
    }

    /** The device base class at work on the next message. */
    method Deliver()
      requires Wired()
      modifies ipcStore, orderQueue, handler
      ensures Wired() && View() == Next(old(View()), Act.Deliver)
    {
      var next := orderQueue.ReceiveMessage();
      if next.None? {
        return;
      }
      var message := new CommandMessage();
      message.SetCommand(next.value.command);
      message.SetParameter(next.value.parameter);
      var r, answer := handler.LetChildHandleMessage(Some(message), OK);
    }

    method Hook(e: Device.Event)
      requires Wired() && !e.Request?
      modifies handler
      ensures Wired() && View() == Next(old(View()), Act.Hook(e))
    {
      match e {
        case Build(outGiven) =>
          var r, id := handler.BuildNormalDeviceCommand(outGiven);
        case Parse =>
          var p := handler.ParseReply();
        case Parameter(access) =>
          var r, w, p := handler.GetParameter(access, FAILED);
      }
    }

    /** The device's framework answers, with data if the reply names a slot. */
    method PostReply(reply: Commanding.Reply, bytes: seq<byte>, offer: Option<SlotId>)
      requires Wired()
      modifies ipcStore, replyQueue
      ensures Wired() && View() == Next(old(View()), Act.PostReply(reply, bytes, offer))
    {
      if !Commanding.NamesSlot(reply) {
        var r := replyQueue.SendMessage(reply, OK);
      } else {
        var r, id := ipcStore.GetFreeElement(bytes, offer);
        if r == OK {
          r := replyQueue.SendMessage(reply.(storeId := id), OK);
        }
      }
    }

    method TakeReply(tmResult: ReturnValue)
      requires Wired()
      modifies ipcStore, replyQueue
      ensures Wired() && View() == Next(old(View()), Act.TakeReply)
    {
      var next := replyQueue.ReceiveMessage();
      if next.Some? {
        var r, isStep, sent := service.HandleReply(next.value, Commanding.OBJECT_ID_WEBCAM_HANDLER, tmResult);
      }
    }

    method Perform(a: Act)
      requires Wired() && Scheduled(a)
      modifies this`tcRefused, this`ipcRefused, Objects()
      ensures Wired() && View() == Next(old(View()), a)
    {
      match a {
        case Send(subservice, data, offer, serialised, room) => Send(subservice, data, offer, serialised, room);
        case Translate(offer, room) => Translate(offer, room);
        case Deliver => Deliver();
        case Hook(e) => Hook(e);
        case PostReply(reply, bytes, offer) => PostReply(reply, bytes, offer);
        case TakeReply => TakeReply(OK);
      }
    }
  }

  /** Carries out any run on freshly wired objects: the states they go through are a run of the pipeline. */
  method Execute(comIF: bool, run: seq<Act>) returns (rig: Rig, ghost ss: seq<System>)
    requires forall i :: 0 <= i < |run| ==> Scheduled(run[i])
    ensures IsRun(comIF, ss, run) && rig.View() == ss[|run|]
  {
    rig := new Rig(comIF);
    ss := [rig.View()];
    for i := 0 to |run|
      invariant fresh(rig) && fresh(rig.Objects())
      invariant rig.Wired() && |ss| == i + 1 && ss[0] == Start(comIF) && ss[i] == rig.View()
      invariant forall k :: 0 <= k < i ==> StepAt(ss, run, k)
    {
      ghost var before := ss;
      rig.Perform(run[i]);
      ss := ss + [rig.View()];
      assert StepAt(ss, run, i);
      forall k | 0 <= k < i ensures StepAt(ss, run, k) {
        assert StepAt(before, run, k);
      }
    }
  }
}
