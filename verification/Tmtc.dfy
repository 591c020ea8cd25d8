/**
 The stub distributor, which packs telecommands into the TC store and posts
 their slots to the commanding service, and the stub telemetry sink, which
 drains its queue and empties the slots named there.
 */
module Tmtc {
  import opened Fsfw

  /** A telecommand packet; its byte layout is not part of this model. */
  datatype Packet = Packet(serviceId: byte, subservice: byte, sequenceCount: nat, appData: seq<byte>)

  type Packets = map<SlotId, Packet>

  /** Null or empty data leaves the packet without application data. */
  function AppData(data: Buffer): seq<byte> {
    match data
    case Null(_) => []
    case Bytes(d) => d
  }

  datatype Posted = Posted(r: ReturnValue, slots: Packets, queue: seq<SlotId>)

  /** Parking a packet and posting its slot, with what store, serialiser and queue answer. */
  function Post(slots: Packets, queue: seq<SlotId>, p: Packet,
                offer: Option<SlotId>, serialised: ReturnValue, room: ReturnValue): Posted {
    if !Grants(slots, offer) then Posted(STORE_FULL, slots, queue)
    else if serialised != OK then Posted(serialised, slots, queue)
    else Posted(room, slots[offer.value := p], if room == OK then queue + [offer.value] else queue)
  }

  datatype Service = Service(id: byte, requestQueue: MessageQueue<SlotId>)

  class StubPusDistributor {
    const tcStore: Store?<Packet>
    var registeredService: Option<Service>
    var sequenceCounter: nat

    constructor (tcStore: Store?<Packet>)
      ensures this.tcStore == tcStore && registeredService == None && sequenceCounter == 0
    {
      this.tcStore, registeredService, sequenceCounter := tcStore, None, 0;
    }

    method RegisterService(service: Option<Service>) returns (r: ReturnValue)
      modifies this`registeredService
      ensures r == if service.Some? then OK else FAILED
      ensures registeredService == if service.Some? then service else old(registeredService)
    {
      if service.None? {
        return FAILED;
      }
      registeredService := service;
      r := OK;
    }

    /** `serialised` and `room` are what the packet serialiser and the request queue answer. */
    method SendCommand(subservice: byte, data: Buffer, offer: Option<SlotId>,
                       serialised: ReturnValue, room: ReturnValue)
      returns (r: ReturnValue)
      modifies this`sequenceCounter, tcStore, if registeredService.Some?
               then {registeredService.value.requestQueue} else {}
      ensures registeredService.None? || tcStore == null ==> r == FAILED && sequenceCounter == old(sequenceCounter)
      ensures registeredService.None? && tcStore != null ==> tcStore.slots == old(tcStore.slots)
      ensures registeredService.Some? && tcStore == null ==>
        registeredService.value.requestQueue.items == old(registeredService.value.requestQueue.items)
      ensures registeredService.Some? && tcStore != null ==>
        var p := Packet(registeredService.value.id, subservice, old(sequenceCounter), AppData(data));
        && sequenceCounter == (old(sequenceCounter) + 1) % 0x1_0000
        && Posted(r, tcStore.slots, registeredService.value.requestQueue.items)
           == Post(old(tcStore.slots), old(registeredService.value.requestQueue.items), p, offer, serialised, room)
      ensures registeredService.Some? && tcStore != null ==>
        var free := offer.Some? && offer.value !in old(tcStore.slots);
        var bytes := match data case Bytes(d) => d case Null(_) => [];
        && r == (if !free then STORE_FULL else if serialised != OK then serialised else room)
        && tcStore.slots ==
           (if free && serialised == OK
            then old(tcStore.slots)[offer.value :=
                   Packet(registeredService.value.id, subservice, old(sequenceCounter), bytes)]
            else old(tcStore.slots))
        && registeredService.value.requestQueue.items ==
           old(registeredService.value.requestQueue.items)
           + if free && serialised == OK && room == OK then [offer.value] else []
    {
      if registeredService.None? || tcStore == null {
        return FAILED;
      }
      var count := sequenceCounter;
      sequenceCounter := (sequenceCounter + 1) % 0x1_0000;
      var appData: seq<byte> := [];
      if data.Bytes? && |data.data| > 0 {
        appData := data.data;
      }
      var storeId;
      r, storeId := tcStore.GetFreeElement(Packet(0, 0, 0, []), offer);
      if r != OK {
        return r;
      }
      if serialised != OK {
        tcStore.DeleteData(storeId);
        assert tcStore.slots == old(tcStore.slots);
        return serialised;
      }
      tcStore.Write(storeId, Packet(registeredService.value.id, subservice, count, appData));
      ghost var parked := Packet(registeredService.value.id, subservice, count, appData);
      assert tcStore.slots == old(tcStore.slots)[storeId := parked];
      r := registeredService.value.requestQueue.SendMessage(storeId, room);
    }
  }

  // ----- telemetry -----

  const MAX_TM_PRINT_BYTES := 32

  datatype TmHeader = TmHeader(service: byte, subservice: byte, userDataLen: nat)
  datatype Line = Parsed(header: TmHeader) | Raw(size: nat, head: seq<byte>)

  /** The line printed for a packet; `parse` is the packet reader, None when it rejects the bytes. */
  function LineFor(data: seq<byte>, parse: seq<byte> -> Option<TmHeader>): Line {
    match parse(data)
    case Some(h) => Parsed(h)
    case None => Raw(|data|, data[..if |data| < MAX_TM_PRINT_BYTES then |data| else MAX_TM_PRINT_BYTES])
  }

  function Elements(ids: seq<SlotId>): set<SlotId> {
    set id | id in ids
  }

  /** The slots a drain of the queue deletes, in order: each queued id the first time it is met, if it is live. */
  function Deleted(queue: seq<SlotId>, live: set<SlotId>): seq<SlotId> {
    if queue == [] then []
    else if queue[0] in live then [queue[0]] + Deleted(queue[1..], live - {queue[0]})
    else Deleted(queue[1..], live)
  }

  /** Whatever the queue holds, repeated and stale ids included, exactly the live queued slots go, each once. */
  lemma {:induction false} DeletedOnce(queue: seq<SlotId>, live: set<SlotId>)
    ensures forall id :: id in Deleted(queue, live) <==> id in queue && id in live
    ensures forall i, j :: 0 <= i < j < |Deleted(queue, live)| ==> Deleted(queue, live)[i] != Deleted(queue, live)[j]
  {
    if queue != [] {
      var rest := if queue[0] in live then live - {queue[0]} else live;
      DeletedOnce(queue[1..], rest);
      assert forall id :: id in queue <==> id == queue[0] || id in queue[1..];
    }
  }

  /** In particular no more slots go than there are queued or live. */
  lemma {:induction false} DeletedBound(queue: seq<SlotId>, live: set<SlotId>)
    ensures |Deleted(queue, live)| <= |queue| && |Deleted(queue, live)| <= |live|
  {
    if queue != [] {
      if queue[0] in live {
        DeletedBound(queue[1..], live - {queue[0]});
      } else {
        DeletedBound(queue[1..], live);
      }
    }
  }

  /** They go in the order of the queue: a longer queue only adds deletions behind those of a shorter. */
  lemma {:induction false} DeletedInOrder(queue: seq<SlotId>, live: set<SlotId>, more: seq<SlotId>)
    ensures Deleted(queue, live) <= Deleted(queue + more, live)
  {
    if queue != [] {
      assert (queue + more)[1..] == queue[1..] + more;
      DeletedInOrder(queue[1..], if queue[0] in live then live - {queue[0]} else live, more);
    }
  }

  class StubTelemetrySink {
    const queue: MessageQueue?<SlotId>
    const tmStore: Store?<seq<byte>>

    constructor (queue: MessageQueue?<SlotId>, tmStore: Store?<seq<byte>>)
      ensures this.queue == queue && this.tmStore == tmStore
    {
      this.queue, this.tmStore := queue, tmStore;
    }

    method PerformOperation(parse: seq<byte> -> Option<TmHeader>)
      returns (r: ReturnValue, printed: seq<Line>, deleted: seq<SlotId>)
      modifies queue, tmStore
      ensures r == OK
      ensures queue == null || tmStore == null ==> printed == [] && deleted == []
      ensures queue == null && tmStore != null ==> tmStore.slots == old(tmStore.slots)
      ensures queue != null && tmStore == null ==> queue.items == old(queue.items)
      ensures queue != null && tmStore != null ==>
        && queue.items == []
        && tmStore.slots == old(tmStore.slots) - Elements(old(queue.items))
        && deleted == Deleted(old(queue.items), old(tmStore.slots).Keys)
        && |printed| == |deleted|
        && forall i :: 0 <= i < |deleted| ==>
             deleted[i] in old(tmStore.slots) && printed[i] == LineFor(old(tmStore.slots)[deleted[i]], parse)
    {
      r, printed, deleted := OK, [], [];
      if queue == null || tmStore == null {
        return;
      }
      ghost var q, slots := queue.items, tmStore.slots;
      ghost var k := 0;
      while queue.items != []
        invariant k <= |q| && queue.items == q[k..]
        invariant tmStore.slots == slots - Elements(q[..k])
        invariant deleted + Deleted(q[k..], tmStore.slots.Keys) == Deleted(q, slots.Keys)
        invariant |printed| == |deleted|
        invariant forall i :: 0 <= i < |deleted| ==>
          deleted[i] in slots && printed[i] == LineFor(slots[deleted[i]], parse)
        decreases |queue.items|
      {
        ghost var live := tmStore.slots.Keys;
        var message := queue.ReceiveMessage();
        var storeId := message.value;
        assert q[k..][0] == storeId && q[k..][1..] == q[k + 1..];
        assert Elements(q[..k + 1]) == Elements(q[..k]) + {storeId} by {
          assert q[..k + 1] == q[..k] + [storeId];
        }
        var got, data := tmStore.GetData(storeId);
        if got == OK {
          var line := Print(data.value, parse);
          printed := printed + [line];
          tmStore.DeleteData(storeId);
          assert tmStore.slots.Keys == live - {storeId};
          ghost var later := Deleted(q[k + 1..], live - {storeId});
          assert deleted + ([storeId] + later) == (deleted + [storeId]) + later;
          deleted := deleted + [storeId];
        }
        assert tmStore.slots == slots - Elements(q[..k + 1]);
        k := k + 1;
      }
      assert q[..k] == q && q[k..] == [];
      assert deleted + [] == deleted;
    }

    static method Print(data: seq<byte>, parse: seq<byte> -> Option<TmHeader>) returns (line: Line)
      ensures line == LineFor(data, parse)
      ensures forall h :: parse(data) == Some(h) ==> line == Parsed(h)
      ensures parse(data) == None ==>
        line.Raw? && line.size == |data| && line.head <= data && |line.head| == if |data| < 32 then |data| else 32
    {
      var h := parse(data);
      if h.Some? {
        return Parsed(h.value);
      }
      var bytesToPrint := if |data| < MAX_TM_PRINT_BYTES then |data| else MAX_TM_PRINT_BYTES;
      var head := [];
      for idx := 0 to bytesToPrint
        invariant head == data[..idx]
      {
        head := head + [data[idx]];
      }
      line := Raw(|data|, head);
    }
  }
}
