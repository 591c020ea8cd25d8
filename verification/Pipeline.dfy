/**
 Telecommands from the ground to the device: the distributor, the commanding
 service and the device handler around their stores and queues, scheduled in
 any order, with stores and queues free to refuse whenever they like.

 Assumed of the framework: the commanding base class takes queued telecommands
 in order, reads the packet, deletes it from the TC store, and forwards the
 message its hook prepared; the device base class hands messages on in order.
 */
module Pipeline {
  import opened Fsfw
  import opened WebcamDevice
  import Runs = WebcamRuns
  import Service = CommandingService
  import Tmtc

  const SERVICE_ID: byte := 200

  datatype TcSide = TcSide(
    slots: Tmtc.Packets,
    queue: seq<SlotId>,             // posted, not yet taken by the service
    refused: set<SlotId>)           // parked, but the queue refused the posting

  datatype IpcSide = IpcSide(
    slots: Service.Slots,
    orders: seq<Message>,           // sent to the device, not yet delivered
    replies: seq<Service.Reply>,    // sent to the service, not yet handled
    refused: set<SlotId>)           // parked, but the device's queue refused the message

  datatype System = System(sequenceCounter: nat, tc: TcSide, ipc: IpcSide, device: State)

  function Start(comIF: bool): System {
    System(0, TcSide(map[], [], {}), IpcSide(map[], [], [], {}), Initial(comIF))
  }

  datatype Act =
    | Send(subservice: byte, data: Buffer, offer: Option<SlotId>, serialised: ReturnValue, room: ReturnValue)
    | Translate(offer: Option<SlotId>, room: ReturnValue)
    | Deliver
    | Hook(event: Event)
    | PostReply(reply: Service.Reply, bytes: seq<byte>, offer: Option<SlotId>)
    | TakeReply

  /** Requests reach the device through messages only. */
  predicate Scheduled(a: Act) {
    a.Hook? ==> !a.event.Request?
  }

  function SendTc(tc: TcSide, p: Tmtc.Packet, offer: Option<SlotId>, serialised: ReturnValue, room: ReturnValue):
    TcSide
  {
    var t := Tmtc.Post(tc.slots, tc.queue, p, offer, serialised, room);
    TcSide(t.slots, t.queue,
           if Grants(tc.slots, offer) && serialised == OK && room != OK then tc.refused + {offer.value} else tc.refused)
  }

  /** The packet at the head of the queue. */
  function Head(tc: TcSide): Option<Tmtc.Packet> {
    if tc.queue != [] && tc.queue[0] in tc.slots then Some(tc.slots[tc.queue[0]]) else None
  }

  function TakeTc(tc: TcSide): TcSide {
    if tc.queue == [] then tc else tc.(slots := tc.slots - {tc.queue[0]}, queue := tc.queue[1..])
  }

  function Forward(ipc: IpcSide, p: Tmtc.Packet, offer: Option<SlotId>, room: ReturnValue): IpcSide {
    var t := Service.Prepare(Some(ipc.slots), p.subservice, Bytes(p.appData), offer, Message(0, 0));
    if t.r != OK then ipc.(slots := t.slots)
    else if room == OK then ipc.(slots := t.slots, orders := ipc.orders + [t.message])
    else ipc.(slots := t.slots, refused := ipc.refused + if CarriesSlot(t.message) then {t.message.parameter} else {})
  }

  function TakeOrder(ipc: IpcSide, slots: Service.Slots): IpcSide
    requires ipc.orders != []
  {
    ipc.(slots := slots, orders := ipc.orders[1..])
  }

  function PostReplyTo(ipc: IpcSide, reply: Service.Reply, bytes: seq<byte>, offer: Option<SlotId>): IpcSide {
    if !Service.NamesSlot(reply) then ipc.(replies := ipc.replies + [reply])
    else if !Grants(ipc.slots, offer) then ipc
    else ipc.(slots := ipc.slots[offer.value := bytes], replies := ipc.replies + [reply.(storeId := offer.value)])
  }

  function TakeReplyFrom(ipc: IpcSide): IpcSide {
    if ipc.replies == [] then ipc
    else if Service.NamesSlot(ipc.replies[0]) then
      ipc.(slots := ipc.slots - {ipc.replies[0].storeId}, replies := ipc.replies[1..])
    else ipc.(replies := ipc.replies[1..])
  }

  function Next(s: System, a: Act): System {
    match a
    case Send(subservice, data, offer, serialised, room) =>
      var p := Tmtc.Packet(SERVICE_ID, subservice, s.sequenceCounter, Tmtc.AppData(data));
      s.(sequenceCounter := (s.sequenceCounter + 1) % 0x1_0000, tc := SendTc(s.tc, p, offer, serialised, room))
    case Translate(offer, room) =>
      s.(tc := TakeTc(s.tc), ipc := if Head(s.tc).Some? then Forward(s.ipc, Head(s.tc).value, offer, room) else s.ipc)
    case Deliver =>
      if s.ipc.orders == [] then s
      else
        var h := HandleMessage(s.device, s.ipc.slots, s.ipc.orders[0]);
        s.(device := h.state, ipc := TakeOrder(s.ipc, h.slots))
    case Hook(e) => s.(device := Step(s.device, e))
    case PostReply(reply, bytes, offer) => s.(ipc := PostReplyTo(s.ipc, reply, bytes, offer))
    case TakeReply => s.(ipc := TakeReplyFrom(s.ipc))
  }

  /** The states ss of a run of acts, from start to end. */
  ghost predicate IsRun(comIF: bool, ss: seq<System>, run: seq<Act>) {
    && |ss| == |run| + 1
    && ss[0] == Start(comIF)
    && forall i :: 0 <= i < |run| ==> StepAt(ss, run, i)
  }

  ghost predicate StepAt(ss: seq<System>, run: seq<Act>, i: nat)
    requires i < |run| && i + 1 < |ss|
  {
    Scheduled(run[i]) && ss[i + 1] == Next(ss[i], run[i])
  }

  // ----- slot ownership -----

  predicate CarriesSlot(m: Message) {
    TypeOf(m.command) == DEVICE_HANDLER_COMMAND
  }

  function OrderClaim(m: Message): multiset<SlotId> {
    if CarriesSlot(m) then multiset{m.parameter} else multiset{}
  }

  function OrderClaims(ms: seq<Message>): multiset<SlotId> {
    if ms == [] then multiset{} else OrderClaim(ms[0]) + OrderClaims(ms[1..])
  }

  function ReplyClaim(r: Service.Reply): multiset<SlotId> {
    if Service.NamesSlot(r) then multiset{r.storeId} else multiset{}
  }

  function ReplyClaims(rs: seq<Service.Reply>): multiset<SlotId> {
    if rs == [] then multiset{} else ReplyClaim(rs[0]) + ReplyClaims(rs[1..])
  }

  /** Everything that names an IPC slot, with multiplicity. */
  function IpcClaims(ipc: IpcSide): multiset<SlotId> {
    OrderClaims(ipc.orders) + ReplyClaims(ipc.replies) + multiset(ipc.refused)
  }

  function TcClaims(tc: TcSide): multiset<SlotId> {
    multiset(tc.queue) + multiset(tc.refused)
  }

  function Live<T>(slots: map<SlotId, T>): multiset<SlotId> {
    multiset(slots.Keys)
  }

  ghost predicate WellFormed(o: Service.Order) {
    match o
    case Device(SetFrameRate, payload) => |payload| == SIZE_OF_DOUBLE
    case Device(_, payload) => payload == []
    case Dump(_) => true
  }

  ghost predicate Deliverable(m: Message, slots: Service.Slots) {
    Service.Carried(m, slots).Some? && WellFormed(Service.Carried(m, slots).value)
  }

  /** Each live slot is claimed exactly once and nothing else is claimed. */
  ghost predicate TcInv(tc: TcSide) {
    Live(tc.slots) == TcClaims(tc)
  }

  ghost predicate IpcInv(ipc: IpcSide) {
    && Live(ipc.slots) == IpcClaims(ipc)
    && forall m :: m in ipc.orders ==> Deliverable(m, ipc.slots)
  }

  ghost predicate Inv(s: System) {
    TcInv(s.tc) && IpcInv(s.ipc)
  }

  lemma LiveAdd<T>(slots: map<SlotId, T>, id: SlotId, v: T)
    requires id !in slots
    ensures Live(slots[id := v]) == Live(slots) + multiset{id}
  {
    assert slots[id := v].Keys == slots.Keys + {id};
  }

  lemma LiveRemove<T>(slots: map<SlotId, T>, id: SlotId)
    requires id in slots
    ensures Live(slots - {id}) + multiset{id} == Live(slots)
  {
    assert (slots - {id}).Keys == slots.Keys - {id};
  }

  lemma LiveIff<T>(slots: map<SlotId, T>, claims: multiset<SlotId>, id: SlotId)
    requires Live(slots) == claims
    ensures claims[id] == if id in slots then 1 else 0
  {
  }

  /** Adding x to one of three summands adds it to the sum. */
  lemma AddToSum(a: multiset<SlotId>, b: multiset<SlotId>, c: multiset<SlotId>, x: multiset<SlotId>)
    ensures (a + x) + b + c == a + b + c + x
    ensures a + (b + x) + c == a + b + c + x
    ensures a + b + (c + x) == a + b + c + x
    ensures (x + a) + b + c == a + b + c + x
    ensures a + (x + b) + c == a + b + c + x
  {
  }

  lemma Cancel(a: multiset<SlotId>, b: multiset<SlotId>, id: SlotId)
    requires a + multiset{id} == b + multiset{id}
    ensures a == b
  {
    forall k ensures a[k] == b[k] {
      assert (a + multiset{id})[k] == (b + multiset{id})[k];
    }
  }

  lemma Regroup(a: multiset<SlotId>, b: multiset<SlotId>, c: multiset<SlotId>)
    ensures a + (b + c) == a + b + c
  {
  }

  lemma {:induction false} OrderClaimsAppend(ms: seq<Message>, m: Message)
    ensures OrderClaims(ms + [m]) == OrderClaims(ms) + OrderClaim(m)
  {
    if ms == [] {
      assert [m][1..] == [];
      assert ms + [m] == [m];
    } else {
      OrderClaimsAppend(ms[1..], m);
      assert (ms + [m])[1..] == ms[1..] + [m] && (ms + [m])[0] == ms[0];
      Regroup(OrderClaim(ms[0]), OrderClaims(ms[1..]), OrderClaim(m));
    }
  }

  lemma {:induction false} ReplyClaimsAppend(rs: seq<Service.Reply>, r: Service.Reply)
    ensures ReplyClaims(rs + [r]) == ReplyClaims(rs) + ReplyClaim(r)
  {
    if rs == [] {
      assert [r][1..] == [];
      assert rs + [r] == [r];
    } else {
      ReplyClaimsAppend(rs[1..], r);
      assert (rs + [r])[1..] == rs[1..] + [r] && (rs + [r])[0] == rs[0];
      Regroup(ReplyClaim(rs[0]), ReplyClaims(rs[1..]), ReplyClaim(r));
    }
  }

  lemma {:induction false} OrderClaimed(ms: seq<Message>, m: Message)
    requires m in ms && CarriesSlot(m)
    ensures m.parameter in OrderClaims(ms)
  {
    if m != ms[0] {
      OrderClaimed(ms[1..], m);
    }
  }

  // ----- the abstract device: no stores, no slots -----

  datatype Telecommand = Telecommand(subservice: byte, payload: seq<byte>)

  datatype AbstractDevice = AbstractDevice(pending: set<Command>, lastWritten: seq<byte>, current: seq<byte>)

  datatype Abstract = Abstract(
    requests: seq<Telecommand>,       // on their way to the service
    orders: seq<Service.Order>,       // decoded, on their way to the device
    device: AbstractDevice)

  function RequestOf(p: Tmtc.Packet): Telecommand {
    Telecommand(p.subservice, p.appData)
  }

  function Requests(queue: seq<SlotId>, slots: Tmtc.Packets): seq<Telecommand>
    requires forall id :: id in queue ==> id in slots
  {
    seq(|queue|, i requires 0 <= i < |queue| => assert queue[i] in queue; RequestOf(slots[queue[i]]))
  }

  ghost function Orders(ms: seq<Message>, slots: Service.Slots): seq<Service.Order>
    requires forall m :: m in ms ==> Deliverable(m, slots)
  {
    seq(|ms|, i requires 0 <= i < |ms| => assert Deliverable(ms[i], slots); Service.Carried(ms[i], slots).value)
  }

  function PendingSet(d: State): set<Command> {
    set c | c in {TakeSnapshot, SetFrameRate, GetFrameRate} && Pending(d, c)
  }

  function DeviceView(d: State): AbstractDevice {
    AbstractDevice(PendingSet(d), d.requestedFrameRate, d.currentFrameRate)
  }

  lemma QueuedAreLive(tc: TcSide)
    requires TcInv(tc)
    ensures forall id :: id in tc.queue ==> id in tc.slots
  {
    forall id | id in tc.queue ensures id in tc.slots {
      assert id in TcClaims(tc);
      assert id in Live(tc.slots);
    }
  }

  ghost function TcView(tc: TcSide): seq<Telecommand>
    requires TcInv(tc)
  {
    QueuedAreLive(tc);
    Requests(tc.queue, tc.slots)
  }

  ghost function IpcView(ipc: IpcSide): seq<Service.Order>
    requires IpcInv(ipc)
  {
    Orders(ipc.orders, ipc.slots)
  }

  ghost function View(s: System): Abstract
    requires Inv(s)
  {
    Abstract(TcView(s.tc), IpcView(s.ipc), DeviceView(s.device))
  }

  /** The first of the pending commands in the device's order of priority. */
  function Highest(pending: set<Command>): Option<Command> {
    if TakeSnapshot in pending then Some(TakeSnapshot)
    else if SetFrameRate in pending then Some(SetFrameRate)
    else if GetFrameRate in pending then Some(GetFrameRate)
    else None
  }

  /** The order a telecommand stands for: none if it is malformed. */
  function Understood(r: Telecommand): seq<Service.Order> {
    Runs.Listed(Service.Decode(r.subservice, Bytes(r.payload)))
  }

  function Obey(d: AbstractDevice, order: Service.Order): AbstractDevice {
    match order
    case Device(SetFrameRate, payload) => d.(pending := d.pending + {SetFrameRate}, lastWritten := payload)
    case Device(c, _) => d.(pending := d.pending + {c})
    case Dump(_) => d
  }

  function Hooked(d: AbstractDevice, e: Event, able: bool): AbstractDevice {
    match e
    case Build(_) =>
      if !able || Highest(d.pending).None? then d
      else
        var c := Highest(d.pending).value;
        d.(pending := d.pending - {c}, current := if c == SetFrameRate then d.lastWritten else d.current)
    case Parameter(_) => if Writes(e).Some? then d.(lastWritten := Writes(e).value) else d
    case _ => d
  }

  /** `granted` says that no store, queue or interface stood in the way. */
  function AbstractNext(t: Abstract, a: Act, granted: bool): Abstract {
    match a
    case Send(subservice, data, _, _, _) =>
      if granted then t.(requests := t.requests + [Telecommand(subservice, Tmtc.AppData(data))]) else t
    case Translate(_, _) =>
      if t.requests == [] then t
      else t.(requests := t.requests[1..], orders := t.orders + if granted then Understood(t.requests[0]) else [])
    case Deliver =>
      if t.orders == [] then t else t.(orders := t.orders[1..], device := Obey(t.device, t.orders[0]))
    case Hook(e) => t.(device := Hooked(t.device, e, granted))
    case _ => t
  }

  function Granted(s: System, a: Act): bool {
    match a
    case Send(_, _, offer, serialised, room) => Grants(s.tc.slots, offer) && serialised == OK && room == OK
    case Translate(offer, room) => Head(s.tc).Some? && Forwards(s.ipc, Head(s.tc).value, offer, room)
    case Hook(e) => e.Build? && e.outGiven && s.device.comIF
    case _ => true
  }

  /** No resource is refused to this packet. */
  predicate Forwards(ipc: IpcSide, p: Tmtc.Packet, offer: Option<SlotId>, room: ReturnValue) {
    var order := Service.Decode(p.subservice, Bytes(p.appData));
    room == OK && (order.Some? && order.value.Device? ==> Grants(ipc.slots, offer))
  }

  // ----- the TC side -----

  lemma PostTcClaims(tc: TcSide, t: TcSide, id: SlotId)
    requires TcInv(tc) && id !in tc.slots
    requires (t.queue == tc.queue + [id] && t.refused == tc.refused)
             || (t.queue == tc.queue && t.refused == tc.refused + {id})
    ensures TcClaims(t) == TcClaims(tc) + multiset{id}
  {
    LiveIff(tc.slots, TcClaims(tc), id);
    assert id !in tc.refused;
  }

  lemma SendTcRefines(tc: TcSide, p: Tmtc.Packet, offer: Option<SlotId>, serialised: ReturnValue, room: ReturnValue)
    requires TcInv(tc)
    ensures var t := SendTc(tc, p, offer, serialised, room);
            && TcInv(t)
            && TcView(t) == if Grants(tc.slots, offer) && serialised == OK && room == OK
                            then TcView(tc) + [RequestOf(p)] else TcView(tc)
  {
    var t := SendTc(tc, p, offer, serialised, room);
    if Grants(tc.slots, offer) && serialised == OK {
      LiveAdd(tc.slots, offer.value, p);
      PostTcClaims(tc, t, offer.value);
      QueuedAreLive(tc);
      QueuedAreLive(t);
      assert Requests(tc.queue, t.slots) == Requests(tc.queue, tc.slots);
      if room == OK {
        assert Requests(t.queue, t.slots) == Requests(tc.queue, t.slots) + [RequestOf(p)];
      }
    }
  }

  lemma TakeTcRefines(tc: TcSide)
    requires TcInv(tc)
    ensures TcInv(TakeTc(tc))
    ensures tc.queue == [] <==> TcView(tc) == []
    ensures tc.queue != [] ==>
      Head(tc).Some? && TcView(tc)[0] == RequestOf(Head(tc).value) && TcView(TakeTc(tc)) == TcView(tc)[1..]
  {
    QueuedAreLive(tc);
    if tc.queue != [] {
      var t, id := TakeTc(tc), tc.queue[0];
      assert tc.queue == [id] + t.queue;
      LiveRemove(tc.slots, id);
      assert TcClaims(t) + multiset{id} == TcClaims(tc);
      Cancel(Live(t.slots), TcClaims(t), id);
      LiveIff(tc.slots, TcClaims(tc), id);
      assert id !in t.queue;
      QueuedAreLive(t);
      assert Requests(t.queue, t.slots) == Requests(tc.queue, tc.slots)[1..];
    }
  }

  // ----- the IPC side -----

  /** What happens to slots no message claims is invisible to the messages. */
  lemma OrdersUnaffected(ms: seq<Message>, slots: Service.Slots, slots': Service.Slots)
    requires forall m :: m in ms ==> Deliverable(m, slots)
    requires forall id :: id in OrderClaims(ms) ==> id in slots && id in slots' && slots'[id] == slots[id]
    ensures forall m :: m in ms ==> Deliverable(m, slots')
    ensures Orders(ms, slots') == Orders(ms, slots)
  {
    forall m | m in ms ensures Service.Carried(m, slots') == Service.Carried(m, slots) && Deliverable(m, slots') {
      if CarriesSlot(m) {
        OrderClaimed(ms, m);
      }
    }
    forall i | 0 <= i < |ms| ensures Orders(ms, slots')[i] == Orders(ms, slots)[i] {
      assert ms[i] in ms;
    }
  }

  lemma SameClaims(ipc: IpcSide, t: IpcSide)
    requires OrderClaims(t.orders) == OrderClaims(ipc.orders) && ReplyClaims(t.replies) == ReplyClaims(ipc.replies)
    requires t.refused == ipc.refused
    ensures IpcClaims(t) == IpcClaims(ipc)
  {
  }

  /** One claim more than before, wherever it is held. */
  lemma ClaimAdded(ipc: IpcSide, t: IpcSide, x: multiset<SlotId>)
    requires var o, r, f := OrderClaims(ipc.orders), ReplyClaims(ipc.replies), multiset(ipc.refused);
             || (OrderClaims(t.orders) in {o + x, x + o} && ReplyClaims(t.replies) == r && multiset(t.refused) == f)
             || (OrderClaims(t.orders) == o && ReplyClaims(t.replies) in {r + x, x + r} && multiset(t.refused) == f)
             || (OrderClaims(t.orders) == o && ReplyClaims(t.replies) == r && multiset(t.refused) == f + x)
    ensures IpcClaims(t) == IpcClaims(ipc) + x
  {
    AddToSum(OrderClaims(ipc.orders), ReplyClaims(ipc.replies), multiset(ipc.refused), x);
  }

  lemma OrdersAreLive(ipc: IpcSide, id: SlotId)
    requires IpcInv(ipc) && id in OrderClaims(ipc.orders)
    ensures id in ipc.slots
  {
    LiveIff(ipc.slots, IpcClaims(ipc), id);
  }

  /** A new slot, claimed by whatever is new in t. */
  lemma SlotAdded(ipc: IpcSide, t: IpcSide, id: SlotId, v: seq<byte>)
    requires IpcInv(ipc) && id !in ipc.slots && t.slots == ipc.slots[id := v]
    requires IpcClaims(t) == IpcClaims(ipc) + multiset{id}
    ensures Live(t.slots) == IpcClaims(t)
    ensures forall m :: m in ipc.orders ==> Deliverable(m, t.slots)
    ensures Orders(ipc.orders, t.slots) == IpcView(ipc)
  {
    LiveAdd(ipc.slots, id, v);
    forall k | k in OrderClaims(ipc.orders) ensures k in ipc.slots && k in t.slots && t.slots[k] == ipc.slots[k] {
      OrdersAreLive(ipc, k);
    }
    OrdersUnaffected(ipc.orders, ipc.slots, t.slots);
  }

  lemma DecodeWellFormed(p: Tmtc.Packet)
    requires Service.Decode(p.subservice, Bytes(p.appData)).Some?
    ensures WellFormed(Service.Decode(p.subservice, Bytes(p.appData)).value)
  {
  }

  lemma ForwardNothing(ipc: IpcSide, p: Tmtc.Packet, offer: Option<SlotId>, room: ReturnValue)
    requires var order := Service.Decode(p.subservice, Bytes(p.appData));
             order.None? || (order.value.Device? && !Grants(ipc.slots, offer))
    ensures Forward(ipc, p, offer, room) == ipc
  {
  }

  lemma ForwardDump(ipc: IpcSide, p: Tmtc.Packet, offer: Option<SlotId>, room: ReturnValue, order: Service.Order)
    requires Service.Decode(p.subservice, Bytes(p.appData)) == Some(order) && order.Dump?
    ensures Forward(ipc, p, offer, room) ==
            if room == OK then ipc.(orders := ipc.orders + [Service.Encode(order, 0)]) else ipc
  {
    CommandIdParts(PARAMETER, Service.CMD_PARAMETER_DUMP);
    assert ipc.refused + {} == ipc.refused;
  }

  lemma ForwardDevice(ipc: IpcSide, p: Tmtc.Packet, offer: Option<SlotId>, room: ReturnValue, order: Service.Order)
    requires Service.Decode(p.subservice, Bytes(p.appData)) == Some(order) && order.Device? && Grants(ipc.slots, offer)
    ensures Forward(ipc, p, offer, room) ==
            var slots := ipc.slots[offer.value := order.payload];
            if room == OK then ipc.(slots := slots, orders := ipc.orders + [Service.Encode(order, offer.value)])
            else ipc.(slots := slots, refused := ipc.refused + {offer.value})
  {
    CommandIdParts(DEVICE_HANDLER_COMMAND, CommandToRaw(order.command));
  }

  lemma ForwardRefines(ipc: IpcSide, p: Tmtc.Packet, offer: Option<SlotId>, room: ReturnValue)
    requires IpcInv(ipc)
    ensures var t := Forward(ipc, p, offer, room);
            && IpcInv(t)
            && IpcView(t) == IpcView(ipc) + if Forwards(ipc, p, offer, room) then Understood(RequestOf(p)) else []
  {
    var decoded := Service.Decode(p.subservice, Bytes(p.appData));
    assert IpcView(ipc) + [] == IpcView(ipc);
    if decoded.Some? && decoded.value.Dump? {
      ForwardDump(ipc, p, offer, room, decoded.value);
      DumpForwarded(ipc, decoded.value, room, Forward(ipc, p, offer, room));
    } else if decoded.Some? && Grants(ipc.slots, offer) {
      DecodeWellFormed(p);
      ForwardDevice(ipc, p, offer, room, decoded.value);
      DeviceOrderForwarded(ipc, decoded.value, offer.value, room, Forward(ipc, p, offer, room));
    } else {
      ForwardNothing(ipc, p, offer, room);
    }
  }

  lemma DumpForwarded(ipc: IpcSide, order: Service.Order, room: ReturnValue, t: IpcSide)
    requires IpcInv(ipc) && order.Dump?
    requires t == if room == OK then ipc.(orders := ipc.orders + [Service.Encode(order, 0)]) else ipc
    ensures IpcInv(t) && IpcView(t) == IpcView(ipc) + if room == OK then [order] else []
  {
    var m := Service.Encode(order, 0);
    CommandIdParts(PARAMETER, Service.CMD_PARAMETER_DUMP);
    Service.CarriedEncode(order, 0, ipc.slots);
    OrderClaimsAppend(ipc.orders, m);
    assert IpcClaims(t) == IpcClaims(ipc);
    if room == OK {
      assert Orders(t.orders, t.slots) == Orders(ipc.orders, ipc.slots) + [order];
    } else {
      assert IpcView(ipc) + [] == IpcView(ipc);
    }
  }

  lemma OrdersAppend(ms: seq<Message>, m: Message, slots: Service.Slots)
    requires (forall k :: k in ms ==> Deliverable(k, slots)) && Deliverable(m, slots)
    ensures forall k :: k in ms + [m] ==> Deliverable(k, slots)
    ensures Orders(ms + [m], slots) == Orders(ms, slots) + [Service.Carried(m, slots).value]
  {
    assert forall i :: 0 <= i < |ms| ==> (ms + [m])[i] == ms[i];
  }

  lemma DeviceOrderForwarded(ipc: IpcSide, order: Service.Order, id: SlotId, room: ReturnValue, t: IpcSide)
    requires IpcInv(ipc) && order.Device? && WellFormed(order) && id !in ipc.slots
    requires t.slots == ipc.slots[id := order.payload] && t.replies == ipc.replies
    requires t.orders == if room == OK then ipc.orders + [Service.Encode(order, id)] else ipc.orders
    requires t.refused == if room == OK then ipc.refused else ipc.refused + {id}
    ensures IpcInv(t) && IpcView(t) == IpcView(ipc) + if room == OK then [order] else []
  {
    NewClaim(ipc, order, id, room, t);
    SlotAdded(ipc, t, id, order.payload);
    if room == OK {
      var m := Service.Encode(order, id);
      Service.CarriedEncode(order, id, t.slots);
      OrdersAppend(ipc.orders, m, t.slots);
    } else {
      assert IpcView(ipc) + [] == IpcView(ipc);
    }
  }

  lemma NewClaim(ipc: IpcSide, order: Service.Order, id: SlotId, room: ReturnValue, t: IpcSide)
    requires IpcInv(ipc) && order.Device? && id !in ipc.slots && t.replies == ipc.replies
    requires t.orders == if room == OK then ipc.orders + [Service.Encode(order, id)] else ipc.orders
    requires t.refused == if room == OK then ipc.refused else ipc.refused + {id}
    ensures IpcClaims(t) == IpcClaims(ipc) + multiset{id}
  {
    var m := Service.Encode(order, id);
    CommandIdParts(DEVICE_HANDLER_COMMAND, CommandToRaw(order.command));
    assert OrderClaim(m) == multiset{id};
    if room == OK {
      OrderClaimsAppend(ipc.orders, m);
    } else {
      RefusedGrows(ipc, id);
    }
    ClaimAdded(ipc, t, multiset{id});
  }

  lemma RefusedGrows(ipc: IpcSide, id: SlotId)
    requires IpcInv(ipc) && id !in ipc.slots
    ensures multiset(ipc.refused + {id}) == multiset(ipc.refused) + multiset{id}
  {
    LiveIff(ipc.slots, IpcClaims(ipc), id);
    assert id !in multiset(ipc.refused);
  }

  lemma PostReplyRefines(ipc: IpcSide, reply: Service.Reply, bytes: seq<byte>, offer: Option<SlotId>)
    requires IpcInv(ipc)
    ensures var t := PostReplyTo(ipc, reply, bytes, offer); IpcInv(t) && IpcView(t) == IpcView(ipc)
  {
    var t := PostReplyTo(ipc, reply, bytes, offer);
    if !Service.NamesSlot(reply) {
      ReplyClaimsAppend(ipc.replies, reply);
      SameClaims(ipc, t);
    } else if Grants(ipc.slots, offer) {
      ReplyClaimsAppend(ipc.replies, reply.(storeId := offer.value));
      ClaimAdded(ipc, t, multiset{offer.value});
      SlotAdded(ipc, t, offer.value, bytes);
    }
  }

  /** A reply's bytes wait in its slot until the reply is handled, and then all is as before. */
  lemma ReplyRoundTrip(ipc: IpcSide, reply: Service.Reply, bytes: seq<byte>, id: SlotId)
    requires Service.NamesSlot(reply) && id !in ipc.slots && ipc.replies == []
    ensures var t := PostReplyTo(ipc, reply, bytes, Some(id));
            && t.replies == [reply.(storeId := id)] && id in t.slots && t.slots[id] == bytes
            && TakeReplyFrom(t) == ipc
  {
    var t := PostReplyTo(ipc, reply, bytes, Some(id));
    assert t.slots - {id} == ipc.slots && t.replies[1..] == [];
  }

  /** The slot of the one claim that is gone from t is released; the other messages keep theirs. */
  lemma SlotReleased(ipc: IpcSide, t: IpcSide, id: SlotId)
    requires IpcInv(ipc) && IpcClaims(t) + multiset{id} == IpcClaims(ipc) && t.slots == ipc.slots - {id}
    requires OrderClaims(t.orders) <= IpcClaims(t) && forall m :: m in t.orders ==> m in ipc.orders
    ensures IpcInv(t) && id in ipc.slots
    ensures Orders(t.orders, t.slots) == Orders(t.orders, ipc.slots)
  {
    LiveIff(ipc.slots, IpcClaims(ipc), id);
    LiveRemove(ipc.slots, id);
    Cancel(Live(t.slots), IpcClaims(t), id);
    forall k | k in OrderClaims(t.orders) ensures k in ipc.slots && k != id {
      LiveIff(ipc.slots, IpcClaims(ipc), k);
    }
    OrdersUnaffected(t.orders, ipc.slots, t.slots);
  }

  lemma TakeReplyRefines(ipc: IpcSide)
    requires IpcInv(ipc)
    ensures IpcInv(TakeReplyFrom(ipc)) && IpcView(TakeReplyFrom(ipc)) == IpcView(ipc)
    ensures ipc.replies != [] && Service.NamesSlot(ipc.replies[0]) ==> ipc.replies[0].storeId in ipc.slots
  {
    var t := TakeReplyFrom(ipc);
    if ipc.replies != [] {
      if Service.NamesSlot(ipc.replies[0]) {
        ClaimAdded(t, ipc, multiset{ipc.replies[0].storeId});
        SlotReleased(ipc, t, ipc.replies[0].storeId);
      } else {
        SameClaims(ipc, t);
      }
    }
  }

  lemma SlotOrderTaken(ipc: IpcSide, t: IpcSide)
    requires IpcInv(ipc) && ipc.orders != [] && CarriesSlot(ipc.orders[0])
    requires t == TakeOrder(ipc, ipc.slots - {ipc.orders[0].parameter})
    ensures IpcInv(t) && Orders(t.orders, t.slots) == Orders(t.orders, ipc.slots)
  {
    var m := ipc.orders[0];
    ClaimAdded(t, ipc, multiset{m.parameter});
    SlotReleased(ipc, t, m.parameter);
  }

  lemma PlainOrderTaken(ipc: IpcSide, t: IpcSide)
    requires IpcInv(ipc) && ipc.orders != [] && !CarriesSlot(ipc.orders[0])
    requires t == TakeOrder(ipc, ipc.slots)
    ensures IpcInv(t)
  {
    SameClaims(ipc, t);
  }

  /** A message of the service is taken without complaint, and its slot, if it has one, released. */
  lemma MessageHandled(d: State, slots: Service.Slots, m: Message)
    requires Deliverable(m, slots)
    ensures var h := HandleMessage(d, slots, m);
            h.answer == None && h.slots == if CarriesSlot(m) then slots - {m.parameter} else slots
  {
  }

  lemma TakeOrderRefines(ipc: IpcSide, d: State)
    requires IpcInv(ipc) && ipc.orders != []
    ensures var h := HandleMessage(d, ipc.slots, ipc.orders[0]);
            var t := TakeOrder(ipc, h.slots);
            && IpcInv(t) && IpcView(t) == IpcView(ipc)[1..] && h.answer == None
  {
    var m := ipc.orders[0];
    assert m in ipc.orders;
    MessageHandled(d, ipc.slots, m);
    var t := TakeOrder(ipc, HandleMessage(d, ipc.slots, m).slots);
    if CarriesSlot(m) {
      SlotOrderTaken(ipc, t);
    } else {
      PlainOrderTaken(ipc, t);
    }
    assert Orders(ipc.orders, ipc.slots)[1..] == Orders(t.orders, ipc.slots);
  }

  // ----- the device -----

  lemma ObeyRefines(d: State, slots: Service.Slots, m: Message)
    requires Deliverable(m, slots)
    ensures DeviceView(HandleMessage(d, slots, m).state) == Obey(DeviceView(d), Service.Carried(m, slots).value)
  {
    if CarriesSlot(m) {
      var c := RawToCommand(LowByte(m.command)).value;
      var e := Event.Request(LowByte(m.command), Bytes(slots[m.parameter]));
      forall k { Runs.PendingStep(d, e, k); }
      Runs.RateStep(d, e);
      assert PendingSet(Step(d, e)) == PendingSet(d) + {c};
    }
  }

  lemma HookRefines(d: State, e: Event)
    requires !e.Request?
    ensures DeviceView(Step(d, e)) == Hooked(DeviceView(d), e, e.Build? && e.outGiven && d.comIF)
  {
    forall k { Runs.PendingStep(d, e, k); }
    Runs.RateStep(d, e);
    var sent := Runs.SentBy(d, e);
    assert PendingSet(Step(d, e)) == if sent.Some? then PendingSet(d) - {sent.value} else PendingSet(d);
    if e.Build? {
      assert sent == if e.outGiven && d.comIF then Highest(PendingSet(d)) else None;
    }
  }

  // ----- every run refines the abstract one -----

  lemma TranslateRefines(s: System, a: Act)
    requires Inv(s) && a.Translate?
    ensures Inv(Next(s, a)) && View(Next(s, a)) == AbstractNext(View(s), a, Granted(s, a))
  {
    TakeTcRefines(s.tc);
    if s.tc.queue != [] {
      ForwardRefines(s.ipc, Head(s.tc).value, a.offer, a.room);
    }
  }

  lemma DeliverRefines(s: System, a: Act)
    requires Inv(s) && a.Deliver?
    ensures Inv(Next(s, a)) && View(Next(s, a)) == AbstractNext(View(s), a, Granted(s, a))
  {
    if s.ipc.orders != [] {
      TakeOrderRefines(s.ipc, s.device);
      assert s.ipc.orders[0] in s.ipc.orders;
      ObeyRefines(s.device, s.ipc.slots, s.ipc.orders[0]);
    }
  }

  /** Every act keeps the invariant and is one abstract act. */
  lemma NextRefines(s: System, a: Act)
    requires Inv(s) && Scheduled(a)
    ensures Inv(Next(s, a)) && View(Next(s, a)) == AbstractNext(View(s), a, Granted(s, a))
  {
    match a {
      case Send(subservice, data, offer, serialised, room) =>
        var p := Tmtc.Packet(SERVICE_ID, subservice, s.sequenceCounter, Tmtc.AppData(data));
        SendTcRefines(s.tc, p, offer, serialised, room);
      case Translate(offer, room) =>
        TranslateRefines(s, a);
      case Deliver =>
        DeliverRefines(s, a);
      case Hook(e) =>
        HookRefines(s.device, e);
      case PostReply(reply, bytes, offer) =>
        PostReplyRefines(s.ipc, reply, bytes, offer);
      case TakeReply =>
        TakeReplyRefines(s.ipc);
    }
  }
}
