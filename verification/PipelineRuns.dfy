/**
 What holds of the pipeline over whole runs: under every schedule and whatever
 the stores and queues refuse.
 */
module PipelineRuns {
  import opened Fsfw
  import opened WebcamDevice
  import opened Pipeline
  import Runs = WebcamRuns
  import Service = CommandingService
  import Tmtc

  // ----- refinement -----

  /** The abstract states vs of a run in which act i was granted its resources exactly if gs[i]. */
  ghost predicate IsAbstractRun(vs: seq<Abstract>, run: seq<Act>, gs: seq<bool>) {
    && |vs| == |run| + 1 && |gs| == |run|
    && vs[0] == Abstract([], [], AbstractDevice({}, ZERO_RATE, ZERO_RATE))
    && forall i :: 0 <= i < |run| ==> AbstractStepAt(vs, run, gs, i)
  }

  ghost predicate AbstractStepAt(vs: seq<Abstract>, run: seq<Act>, gs: seq<bool>, i: nat)
    requires i < |run| < |vs| && |gs| == |run|
  {
    vs[i + 1] == AbstractNext(vs[i], run[i], gs[i])
  }

  lemma StepKeepsInv(comIF: bool, ss: seq<System>, run: seq<Act>, i: nat)
    requires i < |run| && IsRun(comIF, ss, run) && Inv(ss[i])
    ensures Inv(ss[i + 1])
  {
    assert StepAt(ss, run, i);
    NextRefines(ss[i], run[i]);
  }

  lemma {:induction false} ReachableInv(comIF: bool, ss: seq<System>, run: seq<Act>, n: nat)
    requires n <= |run| && IsRun(comIF, ss, run)
    ensures Inv(ss[n])
  {
    if n > 0 {
      ReachableInv(comIF, ss, run, n - 1);
      StepKeepsInv(comIF, ss, run, n - 1);
    }
  }

  ghost predicate AllInv(ss: seq<System>) {
    forall i {:trigger ss[i]} :: 0 <= i < |ss| ==> Inv(ss[i])
  }

  lemma ReachableAllInv(comIF: bool, ss: seq<System>, run: seq<Act>)
    requires IsRun(comIF, ss, run)
    ensures AllInv(ss)
  {
    forall i | 0 <= i < |ss| ensures Inv(ss[i]) {
      ReachableInv(comIF, ss, run, i);
    }
  }

  ghost function Views(ss: seq<System>): seq<Abstract>
    requires AllInv(ss)
  {
    seq(|ss|, i requires 0 <= i < |ss| => View(ss[i]))
  }

  function GrantsOf(ss: seq<System>, run: seq<Act>): seq<bool>
    requires |run| < |ss|
  {
    seq(|run|, i requires 0 <= i < |run| => Granted(ss[i], run[i]))
  }

  lemma StepRefines(ss: seq<System>, run: seq<Act>, i: nat)
    requires i < |run| < |ss| && StepAt(ss, run, i) && Inv(ss[i])
    ensures Inv(ss[i + 1]) && View(ss[i + 1]) == AbstractNext(View(ss[i]), run[i], Granted(ss[i], run[i]))
  {
    NextRefines(ss[i], run[i]);
  }

  /** Stores, slots and messages are invisible: every run is a run of the abstract device fed with decoded orders. */
  lemma RunRefines(comIF: bool, ss: seq<System>, run: seq<Act>)
    requires IsRun(comIF, ss, run)
    ensures AllInv(ss)
    ensures IsAbstractRun(Views(ss), run, GrantsOf(ss, run))
  {
    ReachableAllInv(comIF, ss, run);
    assert View(Start(comIF)).device.pending == {};
    forall i | 0 <= i < |run| ensures AbstractStepAt(Views(ss), run, GrantsOf(ss, run), i) {
      assert StepAt(ss, run, i);
      StepRefines(ss, run, i);
    }
  }

  // ----- slots -----

  /** How often messages, replies and refusals together name an IPC slot. */
  function IpcUses(s: System, id: SlotId): nat {
    IpcClaims(s.ipc)[id]
  }

  function TcUses(s: System, id: SlotId): nat {
    TcClaims(s.tc)[id]
  }

  /** On every run a live slot is named exactly once, a dead one never. */
  lemma SlotsConserved(comIF: bool, ss: seq<System>, run: seq<Act>, n: nat, id: SlotId)
    requires n <= |run| && IsRun(comIF, ss, run)
    ensures var s := ss[n];
            && IpcUses(s, id) == (if id in s.ipc.slots then 1 else 0)
            && TcUses(s, id) == (if id in s.tc.slots then 1 else 0)
  {
    ReachableInv(comIF, ss, run, n);
    var s := ss[n];
    LiveIff(s.ipc.slots, IpcClaims(s.ipc), id);
    LiveIff(s.tc.slots, TcClaims(s.tc), id);
  }

  function SlotMessages(ms: seq<Message>): nat {
    if ms == [] then 0 else (if CarriesSlot(ms[0]) then 1 else 0) + SlotMessages(ms[1..])
  }

  function SlotReplies(rs: seq<Service.Reply>): nat {
    if rs == [] then 0 else (if Service.NamesSlot(rs[0]) then 1 else 0) + SlotReplies(rs[1..])
  }

  lemma {:induction false} CountOrders(ms: seq<Message>)
    ensures |OrderClaims(ms)| == SlotMessages(ms)
  {
    if ms != [] {
      CountOrders(ms[1..]);
    }
  }

  lemma {:induction false} CountReplies(rs: seq<Service.Reply>)
    ensures |ReplyClaims(rs)| == SlotReplies(rs)
  {
    if rs != [] {
      CountReplies(rs[1..]);
    }
  }

  /** The pool holds as many slots as there are messages and replies under way that carry one, and refusals. */
  lemma SlotCount(comIF: bool, ss: seq<System>, run: seq<Act>, n: nat)
    requires n <= |run| && IsRun(comIF, ss, run)
    ensures var s := ss[n];
            && |s.ipc.slots| == SlotMessages(s.ipc.orders) + SlotReplies(s.ipc.replies) + |s.ipc.refused|
            && |s.tc.slots| == |s.tc.queue| + |s.tc.refused|
  {
    ReachableInv(comIF, ss, run, n);
    var s := ss[n];
    CountOrders(s.ipc.orders);
    CountReplies(s.ipc.replies);
    assert |Live(s.ipc.slots)| == |s.ipc.slots.Keys| && |Live(s.tc.slots)| == |s.tc.slots.Keys|;
  }

  /** A packet is parked, and then the service's queue is full. */
  predicate LeavesTcSlot(s: System, a: Act) {
    a.Send? && Grants(s.tc.slots, a.offer) && a.serialised == OK && a.room != OK
  }

  /** The next telecommand is a device command, its payload is parked, and then the device's queue is full. */
  predicate LeavesIpcSlot(s: System, a: Act) {
    && a.Translate? && Head(s.tc).Some?
    && (var p := Head(s.tc).value;
        var order := Service.Decode(p.subservice, Bytes(p.appData));
        order.Some? && order.value.Device?)
    && Grants(s.ipc.slots, a.offer) && a.room != OK
  }

  function TcSlotsLeft(ss: seq<System>, run: seq<Act>, n: nat): nat
    requires n <= |run| < |ss|
  {
    if n == 0 then 0
    else TcSlotsLeft(ss, run, n - 1) + if LeavesTcSlot(ss[n - 1], run[n - 1]) then 1 else 0
  }

  function IpcSlotsLeft(ss: seq<System>, run: seq<Act>, n: nat): nat
    requires n <= |run| < |ss|
  {
    if n == 0 then 0
    else IpcSlotsLeft(ss, run, n - 1) + if LeavesIpcSlot(ss[n - 1], run[n - 1]) then 1 else 0
  }

  lemma RefusedAreLive(s: System)
    requires Inv(s)
    ensures s.tc.refused <= s.tc.slots.Keys && s.ipc.refused <= s.ipc.slots.Keys
  {
    forall id | id in s.tc.refused ensures id in s.tc.slots {
      LiveIff(s.tc.slots, TcClaims(s.tc), id);
    }
    forall id | id in s.ipc.refused ensures id in s.ipc.slots {
      LiveIff(s.ipc.slots, IpcClaims(s.ipc), id);
    }
  }

  lemma ForwardRefused(ipc: IpcSide, p: Tmtc.Packet, offer: Option<SlotId>, room: ReturnValue)
    ensures var order := Service.Decode(p.subservice, Bytes(p.appData));
            Forward(ipc, p, offer, room).refused ==
            if order.Some? && order.value.Device? && Grants(ipc.slots, offer) && room != OK
            then ipc.refused + {offer.value} else ipc.refused
  {
    var order := Service.Decode(p.subservice, Bytes(p.appData));
    if order.Some? && order.value.Dump? {
      ForwardDump(ipc, p, offer, room, order.value);
    } else if order.Some? && Grants(ipc.slots, offer) {
      ForwardDevice(ipc, p, offer, room, order.value);
    } else {
      ForwardNothing(ipc, p, offer, room);
    }
  }

  lemma ActLeavesTc(s: System, a: Act)
    ensures Next(s, a).tc.refused == s.tc.refused + if LeavesTcSlot(s, a) then {a.offer.value} else {}
  {
    match a {
      case Send(_, _, _, _, _) =>
      case Translate(_, _) =>
      case _ =>
    }
  }

  lemma ActLeavesIpc(s: System, a: Act)
    ensures Next(s, a).ipc.refused == s.ipc.refused + if LeavesIpcSlot(s, a) then {a.offer.value} else {}
  {
    match a {
      case Translate(offer, room) =>
        if Head(s.tc).Some? {
          ForwardRefused(s.ipc, Head(s.tc).value, offer, room);
        }
      case Deliver =>
      case _ =>
    }
  }

  /** What one act adds to the slots left behind: a new slot, or none. */
  lemma LeavesAt(comIF: bool, ss: seq<System>, run: seq<Act>, i: nat)
    requires i < |run| && IsRun(comIF, ss, run)
    ensures var s, t, a := ss[i], ss[i + 1], run[i];
            && t.tc.refused == s.tc.refused + (if LeavesTcSlot(s, a) then {a.offer.value} else {})
            && t.ipc.refused == s.ipc.refused + (if LeavesIpcSlot(s, a) then {a.offer.value} else {})
            && (LeavesTcSlot(s, a) ==> a.offer.value !in s.tc.refused)
            && (LeavesIpcSlot(s, a) ==> a.offer.value !in s.ipc.refused)
  {
    assert StepAt(ss, run, i);
    ActLeavesTc(ss[i], run[i]);
    ActLeavesIpc(ss[i], run[i]);
    ReachableInv(comIF, ss, run, i);
    RefusedAreLive(ss[i]);
  }

  lemma {:induction false} TcLeftCount(comIF: bool, ss: seq<System>, run: seq<Act>, n: nat)
    requires n <= |run| && IsRun(comIF, ss, run)
    ensures |ss[n].tc.refused| == TcSlotsLeft(ss, run, n)
  {
    if n > 0 {
      TcLeftCount(comIF, ss, run, n - 1);
      LeavesAt(comIF, ss, run, n - 1);
    }
  }

  lemma {:induction false} IpcLeftCount(comIF: bool, ss: seq<System>, run: seq<Act>, n: nat)
    requires n <= |run| && IsRun(comIF, ss, run)
    ensures |ss[n].ipc.refused| == IpcSlotsLeft(ss, run, n)
  {
    if n > 0 {
      IpcLeftCount(comIF, ss, run, n - 1);
      LeavesAt(comIF, ss, run, n - 1);
    }
  }

  /** Every message that a full queue turns away after its slot was filled leaves one slot more behind. */
  lemma LeftBehindCount(comIF: bool, ss: seq<System>, run: seq<Act>, n: nat)
    requires n <= |run| && IsRun(comIF, ss, run)
    ensures |ss[n].tc.refused| == TcSlotsLeft(ss, run, n)
    ensures |ss[n].ipc.refused| == IpcSlotsLeft(ss, run, n)
  {
    TcLeftCount(comIF, ss, run, n);
    IpcLeftCount(comIF, ss, run, n);
  }

  lemma {:induction false} NoneLeft(ss: seq<System>, run: seq<Act>, n: nat)
    requires n <= |run| < |ss|
    ensures TcSlotsLeft(ss, run, n) == 0 <==> forall i :: 0 <= i < n ==> !LeavesTcSlot(ss[i], run[i])
    ensures IpcSlotsLeft(ss, run, n) == 0 <==> forall i :: 0 <= i < n ==> !LeavesIpcSlot(ss[i], run[i])
  {
    if n > 0 {
      NoneLeft(ss, run, n - 1);
    }
  }

  /** How many slots a pool holds beyond those of messages under way: one for each message so turned away. */
  lemma SlotsBeyondMessages(comIF: bool, ss: seq<System>, run: seq<Act>, n: nat)
    requires n <= |run| && IsRun(comIF, ss, run)
    ensures |ss[n].tc.slots| == |ss[n].tc.queue| + TcSlotsLeft(ss, run, n)
    ensures var ipc := ss[n].ipc;
            |ipc.slots| == SlotMessages(ipc.orders) + SlotReplies(ipc.replies) + IpcSlotsLeft(ss, run, n)
  {
    SlotCount(comIF, ss, run, n);
    LeftBehindCount(comIF, ss, run, n);
  }

  /**
   A pool holds no slots but those of messages under way if and only if no full
   queue turned a message away after its slot was filled.
   */
  lemma NothingLeftBehind(comIF: bool, ss: seq<System>, run: seq<Act>, n: nat)
    requires n <= |run| && IsRun(comIF, ss, run)
    ensures |ss[n].tc.slots| == |ss[n].tc.queue| <==> forall i :: 0 <= i < n ==> !LeavesTcSlot(ss[i], run[i])
    ensures var ipc := ss[n].ipc;
            |ipc.slots| == SlotMessages(ipc.orders) + SlotReplies(ipc.replies)
            <==> forall i :: 0 <= i < n ==> !LeavesIpcSlot(ss[i], run[i])
  {
    SlotsBeyondMessages(comIF, ss, run, n);
    NoneLeft(ss, run, n);
  }

  lemma {:induction false} RefusedStay(comIF: bool, ss: seq<System>, run: seq<Act>, i: nat, n: nat)
    requires i <= n <= |run| && IsRun(comIF, ss, run)
    ensures ss[i].tc.refused <= ss[n].tc.refused && ss[i].ipc.refused <= ss[n].ipc.refused
  {
    if i < n {
      RefusedStay(comIF, ss, run, i, n - 1);
      LeavesAt(comIF, ss, run, n - 1);
    }
  }

  /** A slot left behind stays live, whatever happens later. */
  lemma LeftBehindForGood(comIF: bool, ss: seq<System>, run: seq<Act>, i: nat, n: nat)
    requires i <= n <= |run| && IsRun(comIF, ss, run)
    ensures ss[i].tc.refused <= ss[n].tc.refused <= ss[n].tc.slots.Keys
    ensures ss[i].ipc.refused <= ss[n].ipc.refused <= ss[n].ipc.slots.Keys
  {
    RefusedStay(comIF, ss, run, i, n);
    ReachableInv(comIF, ss, run, n);
    RefusedAreLive(ss[n]);
  }

  /** A snapshot telecommand sent while the service's queue is full. */
  const TURNED_AWAY := Act.Send(1, Null(0), Some(7), OK, FAILED)

  /** A snapshot telecommand accepted, then translated while the device's queue is full. */
  const ACCEPTED := Act.Send(1, Null(0), Some(7), OK, OK)
  const NOT_PASSED_ON := Act.Translate(Some(9), FAILED)

  /** After such a run the queue is empty, and yet the TC store holds a slot. */
  lemma TcSlotLeftBehind(comIF: bool)
    ensures exists ss: seq<System> :: IsRun(comIF, ss, [TURNED_AWAY])
                                      && ss[1].tc.queue == [] && ss[1].tc.slots.Keys == {7}
  {
    var ss := [Start(comIF), Next(Start(comIF), TURNED_AWAY)];
    assert StepAt(ss, [TURNED_AWAY], 0);
    assert IsRun(comIF, ss, [TURNED_AWAY]);
  }

  /** After such a run all queues are empty, and yet the IPC store holds a slot. */
  lemma IpcSlotLeftBehind(comIF: bool)
    ensures exists ss: seq<System> :: IsRun(comIF, ss, [ACCEPTED, NOT_PASSED_ON])
                         && ss[2].tc.queue == [] && ss[2].ipc.orders == [] && ss[2].ipc.replies == []
                         && ss[2].ipc.slots.Keys == {9}
  {
    var run, s0 := [ACCEPTED, NOT_PASSED_ON], Start(comIF);
    var s1 := Next(s0, ACCEPTED);
    var ss := [s0, s1, Next(s1, NOT_PASSED_ON)];
    ForwardDevice(s1.ipc, Head(s1.tc).value, Some(9), FAILED, Service.Device(TakeSnapshot, []));
    assert StepAt(ss, run, 0) && StepAt(ss, run, 1);
    assert IsRun(comIF, ss, run);
  }

  /** The handler never answers a message of the service: no unknown command, no missing slot. */
  lemma NoMessageRejected(comIF: bool, ss: seq<System>, run: seq<Act>, n: nat)
    requires n < |run| && IsRun(comIF, ss, run) && run[n].Deliver? && ss[n].ipc.orders != []
    ensures var s := ss[n];
            HandleMessage(s.device, s.ipc.slots, s.ipc.orders[0]).answer == None
  {
    ReachableInv(comIF, ss, run, n);
    TakeOrderRefines(ss[n].ipc, ss[n].device);
  }

  /** A reply that names a slot names a live one, so the service can always read and release it. */
  lemma RepliesAreLive(comIF: bool, ss: seq<System>, run: seq<Act>, n: nat)
    requires n < |run| && IsRun(comIF, ss, run) && ss[n].ipc.replies != []
    ensures var ipc := ss[n].ipc;
            Service.NamesSlot(ipc.replies[0]) ==> ipc.replies[0].storeId in ipc.slots
  {
    ReachableInv(comIF, ss, run, n);
    TakeReplyRefines(ss[n].ipc);
  }

  /** Every send counts, whatever becomes of it. */
  function SendCount(run: seq<Act>, n: nat): nat
    requires n <= |run|
  {
    if n == 0 then 0 else SendCount(run, n - 1) + if run[n - 1].Send? then 1 else 0
  }

  lemma {:induction false} CounterCountsSends(comIF: bool, ss: seq<System>, run: seq<Act>, n: nat)
    requires n <= |run| && IsRun(comIF, ss, run)
    ensures ss[n].sequenceCounter == SendCount(run, n) % 0x1_0000
  {
    if n > 0 {
      CounterCountsSends(comIF, ss, run, n - 1);
      assert StepAt(ss, run, n - 1);
    }
  }

  // ----- what arrives -----

  function AcceptedBy(s: System, a: Act): seq<Telecommand> {
    if a.Send? && Granted(s, a) then [Telecommand(a.subservice, Tmtc.AppData(a.data))] else []
  }

  function TakenBy(s: System, a: Act): seq<Telecommand> {
    if a.Translate? && Head(s.tc).Some? then [RequestOf(Head(s.tc).value)] else []
  }

  function FateBy(s: System, a: Act): seq<bool> {
    if a.Translate? && Head(s.tc).Some? then [Forwards(s.ipc, Head(s.tc).value, a.offer, a.room)] else []
  }

  function ArrivedBy(s: System, a: Act): seq<Service.Order> {
    if a.Deliver? && s.ipc.orders != [] then Runs.Listed(Service.Carried(s.ipc.orders[0], s.ipc.slots)) else []
  }

  /** The first n of xs, joined. */
  function Joined<T>(xs: seq<seq<T>>, n: nat): seq<T>
    requires n <= |xs|
  {
    if n == 0 then [] else Joined(xs, n - 1) + xs[n - 1]
  }

  function PerAct<T>(log: (System, Act) -> seq<T>, ss: seq<System>, run: seq<Act>): seq<seq<T>>
    requires |run| < |ss|
  {
    seq(|run|, i requires 0 <= i < |run| => log(ss[i], run[i]))
  }

  /** Telecommands the distributor accepted in the first n acts. */
  function Accepted(ss: seq<System>, run: seq<Act>, n: nat): seq<Telecommand>
    requires n <= |run| < |ss|
  {
    Joined(PerAct(AcceptedBy, ss, run), n)
  }

  /** Telecommands the service took off its queue. */
  function Taken(ss: seq<System>, run: seq<Act>, n: nat): seq<Telecommand>
    requires n <= |run| < |ss|
  {
    Joined(PerAct(TakenBy, ss, run), n)
  }

  /** For each of those, whether store and queue had room for it. */
  function Fates(ss: seq<System>, run: seq<Act>, n: nat): seq<bool>
    requires n <= |run| < |ss|
  {
    Joined(PerAct(FateBy, ss, run), n)
  }

  /** Orders delivered to the device, with the payload bytes it is handed. */
  function Arrived(ss: seq<System>, run: seq<Act>, n: nat): seq<Service.Order>
    requires n <= |run| < |ss|
  {
    Joined(PerAct(ArrivedBy, ss, run), n)
  }

  /** The orders that the well-formed among the telecommands stand for, where there was room. */
  function Selected(tcs: seq<Telecommand>, fates: seq<bool>): seq<Service.Order>
    requires |tcs| == |fates|
  {
    if tcs == [] then []
    else
      Selected(tcs[..|tcs| - 1], fates[..|fates| - 1]) + if fates[|fates| - 1] then Understood(tcs[|tcs| - 1]) else []
  }

  function AllUnderstood(tcs: seq<Telecommand>): seq<Service.Order> {
    if tcs == [] then [] else AllUnderstood(tcs[..|tcs| - 1]) + Understood(tcs[|tcs| - 1])
  }

  lemma SelectedMore(tcs: seq<Telecommand>, fates: seq<bool>, tc: seq<Telecommand>, fate: seq<bool>)
    requires |tcs| == |fates| && |tc| == |fate| <= 1
    ensures Selected(tcs + tc, fates + fate) == Selected(tcs, fates) + Selected(tc, fate)
  {
    if tc == [] {
      assert tcs + tc == tcs && fates + fate == fates;
    } else {
      assert (tcs + tc)[..|tcs|] == tcs && (fates + fate)[..|fates|] == fates;
      assert tc[..0] == [] && fate[..0] == [];
    }
  }

  /** A queue that starts empty: what has come in is what has gone out and what is still there, in order. */
  lemma {:induction false} QueueConserves<T>(contents: seq<seq<T>>, arriving: seq<seq<T>>, leaving: seq<seq<T>>, n: nat)
    requires |arriving| == |leaving| == |contents| - 1 && n <= |arriving| && contents[0] == []
    requires forall i :: 0 <= i < n ==> contents[i] + arriving[i] == leaving[i] + contents[i + 1]
    ensures Joined(arriving, n) == Joined(leaving, n) + contents[n]
  {
    if n > 0 {
      QueueConserves(contents, arriving, leaving, n - 1);
      var k := n - 1;
      assert contents[k] + arriving[k] == leaving[k] + contents[k + 1];
      assert (Joined(leaving, k) + contents[k]) + arriving[k] == Joined(leaving, k) + (contents[k] + arriving[k]);
      assert Joined(leaving, k) + (leaving[k] + contents[n]) == (Joined(leaving, k) + leaving[k]) + contents[n];
    }
  }

  lemma JoinedMore<T>(xs: seq<seq<T>>, n: nat)
    requires 0 < n <= |xs|
    ensures Joined(xs, n) == Joined(xs, n - 1) + xs[n - 1]
  {
  }

  lemma SelectedStep(tcs: seq<Telecommand>, fates: seq<bool>, orders: seq<Service.Order>,
                     tc: seq<Telecommand>, fate: seq<bool>, order: seq<Service.Order>)
    requires |tcs| == |fates| && orders == Selected(tcs, fates)
    requires |tc| == |fate| <= 1 && order == Selected(tc, fate)
    ensures |tcs + tc| == |fates + fate| && orders + order == Selected(tcs + tc, fates + fate)
  {
    SelectedMore(tcs, fates, tc, fate);
  }

  predicate SelectedSoFar(tcs: seq<seq<Telecommand>>, fates: seq<seq<bool>>, orders: seq<seq<Service.Order>>, n: nat)
    requires n <= |tcs| == |fates| == |orders|
  {
    |Joined(tcs, n)| == |Joined(fates, n)| && Joined(orders, n) == Selected(Joined(tcs, n), Joined(fates, n))
  }

  lemma SelectedSoFarNext(tcs: seq<seq<Telecommand>>, fates: seq<seq<bool>>, orders: seq<seq<Service.Order>>, n: nat)
    requires 0 < n <= |tcs| == |fates| == |orders| && SelectedSoFar(tcs, fates, orders, n - 1)
    requires |tcs[n - 1]| == |fates[n - 1]| <= 1 && orders[n - 1] == Selected(tcs[n - 1], fates[n - 1])
    ensures SelectedSoFar(tcs, fates, orders, n)
  {
    JoinedMore(tcs, n);
    JoinedMore(fates, n);
    JoinedMore(orders, n);
    SelectedStep(Joined(tcs, n - 1), Joined(fates, n - 1), Joined(orders, n - 1),
                 tcs[n - 1], fates[n - 1], orders[n - 1]);
  }

  lemma {:induction false} SelectedJoined(tcs: seq<seq<Telecommand>>, fates: seq<seq<bool>>,
                                          orders: seq<seq<Service.Order>>, n: nat)
    requires n <= |tcs| == |fates| == |orders|
    requires forall i :: 0 <= i < n ==> |tcs[i]| == |fates[i]| <= 1 && orders[i] == Selected(tcs[i], fates[i])
    ensures SelectedSoFar(tcs, fates, orders, n)
  {
    if n > 0 {
      SelectedJoined(tcs, fates, orders, n - 1);
      SelectedSoFarNext(tcs, fates, orders, n);
    }
  }

  ghost predicate MovesTc(s: System, a: Act, t: System)
    requires TcInv(s.tc) && TcInv(t.tc)
  {
    TcView(s.tc) + AcceptedBy(s, a) == TakenBy(s, a) + TcView(t.tc)
  }

  lemma TakeMovesTc(tc: TcSide)
    requires TcInv(tc)
    ensures TcInv(TakeTc(tc))
    ensures TcView(tc) == (if Head(tc).Some? then [RequestOf(Head(tc).value)] else []) + TcView(TakeTc(tc))
  {
    TakeTcRefines(tc);
    if tc.queue != [] {
      assert TcView(tc) == [TcView(tc)[0]] + TcView(tc)[1..];
    }
  }

  lemma SendMovesTc(s: System, a: Act)
    requires TcInv(s.tc) && a.Send?
    ensures TcInv(Next(s, a).tc) && MovesTc(s, a, Next(s, a))
  {
    var p := Tmtc.Packet(SERVICE_ID, a.subservice, s.sequenceCounter, Tmtc.AppData(a.data));
    SendTcRefines(s.tc, p, a.offer, a.serialised, a.room);
    assert TakenBy(s, a) == [];
  }

  lemma OtherMovesTc(s: System, a: Act)
    requires TcInv(s.tc) && !a.Send? && !a.Translate?
    ensures Next(s, a).tc == s.tc && MovesTc(s, a, Next(s, a))
  {
    assert TakenBy(s, a) == [] && AcceptedBy(s, a) == [];
  }

  lemma ActMovesTc(s: System, a: Act, t: System)
    requires TcInv(s.tc) && t == Next(s, a)
    ensures TcInv(t.tc) && MovesTc(s, a, t)
  {
    match a {
      case Send(_, _, _, _, _) =>
        SendMovesTc(s, a);
      case Translate(_, _) =>
        assert AcceptedBy(s, a) == [];
        TakeMovesTc(s.tc);
      case _ =>
        OtherMovesTc(s, a);
    }
  }

  function IssuedBy(s: System, a: Act): seq<Service.Order> {
    Selected(TakenBy(s, a), FateBy(s, a))
  }

  ghost predicate MovesIpc(s: System, a: Act, t: System)
    requires IpcInv(s.ipc) && IpcInv(t.ipc)
  {
    IpcView(s.ipc) + IssuedBy(s, a) == ArrivedBy(s, a) + IpcView(t.ipc)
  }

  lemma ForwardMoves(ipc: IpcSide, p: Tmtc.Packet, offer: Option<SlotId>, room: ReturnValue)
    requires IpcInv(ipc)
    ensures IpcInv(Forward(ipc, p, offer, room))
    ensures IpcView(Forward(ipc, p, offer, room)) ==
            IpcView(ipc) + Selected([RequestOf(p)], [Forwards(ipc, p, offer, room)])
  {
    ForwardRefines(ipc, p, offer, room);
    SelectedOne(RequestOf(p), Forwards(ipc, p, offer, room));
  }

  lemma DeliverMoves(ipc: IpcSide, d: State)
    requires IpcInv(ipc) && ipc.orders != []
    ensures var t := TakeOrder(ipc, HandleMessage(d, ipc.slots, ipc.orders[0]).slots);
            && IpcInv(t)
            && IpcView(ipc) == Runs.Listed(Service.Carried(ipc.orders[0], ipc.slots)) + IpcView(t)
  {
    TakeOrderRefines(ipc, d);
    FirstOrder(ipc);
  }

  lemma TranslateMovesIpc(s: System, a: Act)
    requires IpcInv(s.ipc) && a.Translate?
    ensures IpcInv(Next(s, a).ipc) && IpcView(s.ipc) + IssuedBy(s, a) == IpcView(Next(s, a).ipc)
  {
    if Head(s.tc).Some? {
      var p := Head(s.tc).value;
      ForwardMoves(s.ipc, p, a.offer, a.room);
      assert IssuedBy(s, a) == Selected([RequestOf(p)], [Forwards(s.ipc, p, a.offer, a.room)]);
    } else {
      assert IssuedBy(s, a) == [];
      assert IpcView(s.ipc) + [] == IpcView(s.ipc);
    }
  }

  lemma ActMovesIpc(s: System, a: Act, t: System)
    requires IpcInv(s.ipc) && t == Next(s, a)
    ensures IpcInv(t.ipc) && MovesIpc(s, a, t)
  {
    assert IpcView(s.ipc) + [] == IpcView(s.ipc) == [] + IpcView(s.ipc);
    match a {
      case Translate(offer, room) =>
        assert ArrivedBy(s, a) == [];
        TranslateMovesIpc(s, a);
      case Deliver =>
        assert IssuedBy(s, a) == [];
        if s.ipc.orders != [] {
          DeliverMoves(s.ipc, s.device);
        }
      case PostReply(reply, bytes, offer) =>
        assert IssuedBy(s, a) == [] && ArrivedBy(s, a) == [];
        PostReplyRefines(s.ipc, reply, bytes, offer);
      case TakeReply =>
        assert IssuedBy(s, a) == [] && ArrivedBy(s, a) == [];
        TakeReplyRefines(s.ipc);
      case _ =>
        assert IssuedBy(s, a) == [] && ArrivedBy(s, a) == [];
    }
  }

  lemma SelectedOne(r: Telecommand, fate: bool)
    ensures Selected([r], [fate]) == if fate then Understood(r) else []
  {
    assert [r][..0] == [] && [fate][..0] == [];
    assert Selected([], []) == [];
  }

  lemma FirstOrder(ipc: IpcSide)
    requires IpcInv(ipc) && ipc.orders != []
    ensures Deliverable(ipc.orders[0], ipc.slots)
    ensures IpcView(ipc) == Runs.Listed(Service.Carried(ipc.orders[0], ipc.slots)) + IpcView(ipc)[1..]
  {
    assert ipc.orders[0] in ipc.orders;
  }

  lemma StepMoves(ss: seq<System>, run: seq<Act>, i: nat)
    requires i < |run| < |ss| && StepAt(ss, run, i) && Inv(ss[i]) && Inv(ss[i + 1])
    ensures MovesTc(ss[i], run[i], ss[i + 1]) && MovesIpc(ss[i], run[i], ss[i + 1])
  {
    ActMovesTc(ss[i], run[i], ss[i + 1]);
    ActMovesIpc(ss[i], run[i], ss[i + 1]);
  }

  ghost function RequestQueues(ss: seq<System>): seq<seq<Telecommand>>
    requires AllInv(ss)
  {
    seq(|ss|, i requires 0 <= i < |ss| => TcView(ss[i].tc))
  }

  ghost function OrderQueues(ss: seq<System>): seq<seq<Service.Order>>
    requires AllInv(ss)
  {
    seq(|ss|, i requires 0 <= i < |ss| => IpcView(ss[i].ipc))
  }

  lemma QueuesMove(comIF: bool, ss: seq<System>, run: seq<Act>, i: nat)
    requires i < |run| && IsRun(comIF, ss, run) && AllInv(ss)
    ensures RequestQueues(ss)[i] + PerAct(AcceptedBy, ss, run)[i] ==
            PerAct(TakenBy, ss, run)[i] + RequestQueues(ss)[i + 1]
    ensures OrderQueues(ss)[i] + PerAct(IssuedBy, ss, run)[i] ==
            PerAct(ArrivedBy, ss, run)[i] + OrderQueues(ss)[i + 1]
  {
    assert StepAt(ss, run, i);
    StepMoves(ss, run, i);
  }

  lemma RequestsConserved(comIF: bool, ss: seq<System>, run: seq<Act>, n: nat)
    requires n <= |run| && IsRun(comIF, ss, run) && AllInv(ss)
    ensures Accepted(ss, run, n) == Taken(ss, run, n) + TcView(ss[n].tc)
  {
    forall i | 0 <= i < n
      ensures RequestQueues(ss)[i] + PerAct(AcceptedBy, ss, run)[i] ==
            PerAct(TakenBy, ss, run)[i] + RequestQueues(ss)[i + 1]
    {
      QueuesMove(comIF, ss, run, i);
    }
    QueueConserves(RequestQueues(ss), PerAct(AcceptedBy, ss, run), PerAct(TakenBy, ss, run), n);
  }

  lemma OrdersConserved(comIF: bool, ss: seq<System>, run: seq<Act>, n: nat)
    requires n <= |run| && IsRun(comIF, ss, run) && AllInv(ss)
    ensures Joined(PerAct(IssuedBy, ss, run), n) == Arrived(ss, run, n) + IpcView(ss[n].ipc)
  {
    forall i | 0 <= i < n
      ensures OrderQueues(ss)[i] + PerAct(IssuedBy, ss, run)[i] ==
            PerAct(ArrivedBy, ss, run)[i] + OrderQueues(ss)[i + 1]
    {
      QueuesMove(comIF, ss, run, i);
    }
    QueueConserves(OrderQueues(ss), PerAct(IssuedBy, ss, run), PerAct(ArrivedBy, ss, run), n);
  }

  lemma IssuedAreSelected(ss: seq<System>, run: seq<Act>, n: nat)
    requires n <= |run| < |ss|
    ensures |Taken(ss, run, n)| == |Fates(ss, run, n)|
    ensures Joined(PerAct(IssuedBy, ss, run), n) == Selected(Taken(ss, run, n), Fates(ss, run, n))
  {
    var taken, fates, issued := PerAct(TakenBy, ss, run), PerAct(FateBy, ss, run), PerAct(IssuedBy, ss, run);
    forall i | 0 <= i < n ensures |taken[i]| == |fates[i]| <= 1 && issued[i] == Selected(taken[i], fates[i]) {
      var s, a := ss[i], run[i];
      assert taken[i] == TakenBy(s, a) && fates[i] == FateBy(s, a) && issued[i] == IssuedBy(s, a);
    }
    SelectedJoined(taken, fates, issued, n);
  }

  /**
   On every run, whatever is refused: accepted telecommands are taken in order,
   and what is delivered or under way is exactly the orders of those that found
   room, in order, byte for byte, none twice and none invented.
   */
  lemma TelecommandsConserved(comIF: bool, ss: seq<System>, run: seq<Act>, n: nat)
    requires n <= |run| && IsRun(comIF, ss, run)
    ensures Inv(ss[n]) && |Taken(ss, run, n)| == |Fates(ss, run, n)|
    ensures Accepted(ss, run, n) == Taken(ss, run, n) + TcView(ss[n].tc)
    ensures Arrived(ss, run, n) + IpcView(ss[n].ipc) == Selected(Taken(ss, run, n), Fates(ss, run, n))
  {
    ReachableAllInv(comIF, ss, run);
    RequestsConserved(comIF, ss, run, n);
    OrdersConserved(comIF, ss, run, n);
    IssuedAreSelected(ss, run, n);
  }

  lemma {:induction false} SelectedAll(tcs: seq<Telecommand>, fates: seq<bool>)
    requires |tcs| == |fates|
    ensures |Selected(tcs, fates)| <= |AllUnderstood(tcs)|
    ensures Selected(tcs, fates) == AllUnderstood(tcs) <==>
            forall i :: 0 <= i < |tcs| && Understood(tcs[i]) != [] ==> fates[i]
  {
    if tcs != [] {
      var k := |tcs| - 1;
      SelectedAll(tcs[..k], fates[..k]);
      assert forall i :: 0 <= i < k ==> tcs[..k][i] == tcs[i] && fates[..k][i] == fates[i];
      if fates[k] || Understood(tcs[k]) == [] {
        SameTail(Selected(tcs[..k], fates[..k]), AllUnderstood(tcs[..k]), Understood(tcs[k]));
      }
    }
  }

  lemma SameTail<T>(a: seq<T>, b: seq<T>, tail: seq<T>)
    ensures a + tail == b + tail <==> a == b
  {
    if a + tail == b + tail {
      assert a == (a + tail)[..|a|] && b == (b + tail)[..|b|];
    }
  }

  /** Every well-formed telecommand taken found room. */
  predicate NothingRefused(ss: seq<System>, run: seq<Act>, n: nat)
    requires n <= |run| < |ss|
  {
    var taken, fates := Taken(ss, run, n), Fates(ss, run, n);
    forall i :: 0 <= i < |taken| && i < |fates| && Understood(taken[i]) != [] ==> fates[i]
  }

  /** Everything well-formed that was taken arrives if and only if nothing well-formed was refused room. */
  lemma AllArriveIff(comIF: bool, ss: seq<System>, run: seq<Act>, n: nat)
    requires n <= |run| && IsRun(comIF, ss, run)
    ensures Inv(ss[n])
    ensures Arrived(ss, run, n) + IpcView(ss[n].ipc) == AllUnderstood(Taken(ss, run, n)) <==> NothingRefused(ss, run, n)
  {
    TelecommandsConserved(comIF, ss, run, n);
    SelectedAll(Taken(ss, run, n), Fates(ss, run, n));
  }

  // ----- the device inside the pipeline -----

  /** The hook call an act makes on the device handler. */
  function EventBy(s: System, a: Act): seq<Event> {
    match a
    case Hook(e) => [e]
    case Deliver =>
      if s.ipc.orders == [] then []
      else
        var m := s.ipc.orders[0];
        if CarriesSlot(m) && RawToCommand(LowByte(m.command)).Some? && m.parameter in s.ipc.slots
        then [Event.Request(LowByte(m.command), Bytes(s.ipc.slots[m.parameter]))] else []
    case _ => []
  }

  function Events(ss: seq<System>, run: seq<Act>, n: nat): seq<Event>
    requires n <= |run| < |ss|
  {
    Joined(PerAct(EventBy, ss, run), n)
  }

  lemma {:induction false} AtPrefix(s: State, run: seq<Event>, more: seq<Event>, n: nat)
    requires n <= |run|
    ensures At(s, run + more, n) == At(s, run, n)
  {
    if n > 0 {
      AtPrefix(s, run, more, n - 1);
    }
  }

  /** The device in the pipeline makes a run of its own, to which all results about such runs apply. */
  lemma {:induction false} DeviceRun(comIF: bool, ss: seq<System>, run: seq<Act>, n: nat)
    requires n <= |run| && IsRun(comIF, ss, run)
    ensures var es := Events(ss, run, n);
            ss[n].device == At(Initial(comIF), es, |es|)
  {
    if n > 0 {
      DeviceRun(comIF, ss, run, n - 1);
      assert StepAt(ss, run, n - 1);
      var es, e := Events(ss, run, n - 1), EventBy(ss[n - 1], run[n - 1]);
      AtPrefix(Initial(comIF), es, e, |es|);
      if e == [] {
        assert es + e == es;
      }
    }
  }

  /** The order a request puts to the device. */
  function AsOrder(e: Event): seq<Service.Order> {
    if e.Request? && e.data.Bytes? && RawToCommand(e.id).Some?
    then [Service.Device(RawToCommand(e.id).value, e.data.data)] else []
  }

  lemma ScheduledAt(comIF: bool, ss: seq<System>, run: seq<Act>, i: nat)
    requires i < |run| && IsRun(comIF, ss, run)
    ensures Scheduled(run[i])
  {
    assert StepAt(ss, run, i);
  }

  /** The orders that a run of hook calls puts to the device. */
  function Asked(es: seq<Event>): seq<Service.Order> {
    if es == [] then [] else Asked(es[..|es| - 1]) + AsOrder(es[|es| - 1])
  }

  /** The device commands among the orders. */
  function DeviceOrders(os: seq<Service.Order>): seq<Service.Order> {
    if os == [] then []
    else DeviceOrders(os[..|os| - 1]) + if os[|os| - 1].Device? then [os[|os| - 1]] else []
  }

  lemma AskedMore(es: seq<Event>, more: seq<Event>)
    requires |more| <= 1
    ensures Asked(es + more) == Asked(es) + Asked(more)
  {
    if more == [] {
      assert es + more == es;
    } else {
      assert (es + more)[..|es|] == es && more[..0] == [];
    }
  }

  lemma DeviceOrdersMore(os: seq<Service.Order>, more: seq<Service.Order>)
    requires |more| <= 1
    ensures DeviceOrders(os + more) == DeviceOrders(os) + DeviceOrders(more)
  {
    if more == [] {
      assert os + more == os;
    } else {
      assert (os + more)[..|os|] == os && more[..0] == [];
    }
  }

  lemma DeliveryIsRequest(ipc: IpcSide)
    requires IpcInv(ipc) && ipc.orders != []
    ensures Deliverable(ipc.orders[0], ipc.slots)
    ensures var m, order := ipc.orders[0], Service.Carried(ipc.orders[0], ipc.slots).value;
            && (CarriesSlot(m) <==> order.Device?)
            && (order.Device? ==>
                  m.parameter in ipc.slots && RawToCommand(LowByte(m.command)).Some?
                  && AsOrder(Event.Request(LowByte(m.command), Bytes(ipc.slots[m.parameter]))) == [order])
  {
    FirstOrder(ipc);
  }

  /** In one act, what the device is asked is what arrives. */
  lemma ArrivalIsEvent(s: System, a: Act)
    requires IpcInv(s.ipc) && Scheduled(a)
    ensures |EventBy(s, a)| <= 1 && |ArrivedBy(s, a)| <= 1
    ensures Asked(EventBy(s, a)) == DeviceOrders(ArrivedBy(s, a))
  {
    if a.Deliver? && s.ipc.orders != [] {
      FirstOrder(s.ipc);
      DeliveryIsRequest(s.ipc);
      var order := Service.Carried(s.ipc.orders[0], s.ipc.slots).value;
      assert ArrivedBy(s, a) == [order] && [order][..0] == [];
    } else {
      assert ArrivedBy(s, a) == [];
    }
    var es := EventBy(s, a);
    assert es != [] ==> es[..0] == [] && Asked(es) == [] + AsOrder(es[0]);
  }

  lemma ArrivalAt(comIF: bool, ss: seq<System>, run: seq<Act>, i: nat)
    requires i < |run| && IsRun(comIF, ss, run)
    ensures |EventBy(ss[i], run[i])| <= 1 && |ArrivedBy(ss[i], run[i])| <= 1
    ensures Asked(EventBy(ss[i], run[i])) == DeviceOrders(ArrivedBy(ss[i], run[i]))
  {
    ScheduledAt(comIF, ss, run, i);
    ReachableInv(comIF, ss, run, i);
    ArrivalIsEvent(ss[i], run[i]);
  }

  lemma AskedStep(es: seq<Event>, e: seq<Event>, os: seq<Service.Order>, o: seq<Service.Order>)
    requires |e| <= 1 && |o| <= 1 && Asked(es) == DeviceOrders(os) && Asked(e) == DeviceOrders(o)
    ensures Asked(es + e) == DeviceOrders(os + o)
  {
    AskedMore(es, e);
    DeviceOrdersMore(os, o);
  }

  lemma LogsGrow(ss: seq<System>, run: seq<Act>, n: nat)
    requires n < |run| < |ss|
    ensures Events(ss, run, n + 1) == Events(ss, run, n) + EventBy(ss[n], run[n])
    ensures Arrived(ss, run, n + 1) == Arrived(ss, run, n) + ArrivedBy(ss[n], run[n])
  {
  }

  /** On every run, what the device is asked is the device commands that arrived, in order, byte for byte. */
  lemma {:induction false} DeviceSeesArrivals(comIF: bool, ss: seq<System>, run: seq<Act>, n: nat)
    requires n <= |run| && IsRun(comIF, ss, run)
    ensures Asked(Events(ss, run, n)) == DeviceOrders(Arrived(ss, run, n))
  {
    if n > 0 {
      var k := n - 1;
      DeviceSeesArrivals(comIF, ss, run, k);
      ArrivalAt(comIF, ss, run, k);
      AskedStep(Events(ss, run, k), EventBy(ss[k], run[k]), Arrived(ss, run, k), ArrivedBy(ss[k], run[k]));
      LogsGrow(ss, run, k);
    }
  }

  lemma EverythingArrived(comIF: bool, ss: seq<System>, run: seq<Act>, n: nat)
    requires n <= |run| && IsRun(comIF, ss, run) && NothingRefused(ss, run, n)
    requires ss[n].tc.queue == [] && ss[n].ipc.orders == []
    ensures Arrived(ss, run, n) == AllUnderstood(Accepted(ss, run, n))
  {
    TelecommandsConserved(comIF, ss, run, n);
    AllArriveIff(comIF, ss, run, n);
    assert TcView(ss[n].tc) == [] && IpcView(ss[n].ipc) == [];
    assert Taken(ss, run, n) + [] == Taken(ss, run, n);
    assert Arrived(ss, run, n) + [] == Arrived(ss, run, n);
  }

  /**
   End to end: once the queues are empty, with nothing well-formed refused, the
   device has been asked exactly what the well-formed telecommands accepted stand for.
   */
  lemma DeviceAskedWhatWasSent(comIF: bool, ss: seq<System>, run: seq<Act>, n: nat)
    requires n <= |run| && IsRun(comIF, ss, run) && NothingRefused(ss, run, n)
    requires ss[n].tc.queue == [] && ss[n].ipc.orders == []
    ensures Asked(Events(ss, run, n)) == DeviceOrders(AllUnderstood(Accepted(ss, run, n)))
  {
    DeviceSeesArrivals(comIF, ss, run, n);
    EverythingArrived(comIF, ss, run, n);
  }

  // ----- from the ground to the frame rate -----

  predicate SetsRate(o: Service.Order) {
    o.Device? && o.command == SetFrameRate
  }

  /** The payload of the last Set among the first n orders. */
  function LastPayloadIn(os: seq<Service.Order>, n: nat): seq<byte>
    requires n <= |os|
  {
    if n == 0 then ZERO_RATE else if SetsRate(os[n - 1]) then os[n - 1].payload else LastPayloadIn(os, n - 1)
  }

  function LastPayload(os: seq<Service.Order>): seq<byte> {
    LastPayloadIn(os, |os|)
  }

  lemma {:induction false} LastPayloadPrefix(os: seq<Service.Order>, more: seq<Service.Order>, n: nat)
    requires n <= |os|
    ensures LastPayloadIn(os + more, n) == LastPayloadIn(os, n)
  {
    if n > 0 {
      LastPayloadPrefix(os, more, n - 1);
    }
  }

  predicate WritesParameter(a: Act) {
    a.Hook? && a.event.Parameter? && Writes(a.event).Some?
  }

  lemma LastPayloadMore(os: seq<Service.Order>, more: seq<Service.Order>)
    requires |more| <= 1
    ensures LastPayload(os + more) == if more != [] && SetsRate(more[0]) then more[0].payload else LastPayload(os)
  {
    LastPayloadPrefix(os, more, |os|);
  }

  /** The rate written last is the given one, and current unless a Set is still to go out. */
  predicate Follows(d: AbstractDevice, rate: seq<byte>) {
    d.lastWritten == rate && (SetFrameRate !in d.pending ==> d.current == rate)
  }

  lemma FollowsStep(s: System, a: Act, t: System, os: seq<Service.Order>)
    requires IpcInv(s.ipc) && t == Next(s, a) && Scheduled(a) && !WritesParameter(a)
    requires Follows(DeviceView(s.device), LastPayload(os))
    ensures Follows(DeviceView(t.device), LastPayload(os + ArrivedBy(s, a)))
  {
    LastPayloadMore(os, ArrivedBy(s, a));
    match a {
      case Hook(e) =>
        HookRefines(s.device, e);
      case Deliver =>
        if s.ipc.orders != [] {
          FirstOrder(s.ipc);
          ObeyRefines(s.device, s.ipc.slots, s.ipc.orders[0]);
        }
      case _ =>
    }
  }

  lemma FollowsAt(comIF: bool, ss: seq<System>, run: seq<Act>, i: nat, os: seq<Service.Order>)
    requires i < |run| && IsRun(comIF, ss, run) && !WritesParameter(run[i])
    requires Follows(DeviceView(ss[i].device), LastPayload(os))
    ensures Follows(DeviceView(ss[i + 1].device), LastPayload(os + ArrivedBy(ss[i], run[i])))
  {
    ReachableInv(comIF, ss, run, i);
    assert StepAt(ss, run, i);
    FollowsStep(ss[i], run[i], ss[i + 1], os);
  }

  predicate SetArrives(s: System, a: Act) {
    ArrivedBy(s, a) != [] && SetsRate(ArrivedBy(s, a)[0])
  }

  /** How many acts it took until the last Set arrived; none if none did. */
  function SetArrivedBy(ss: seq<System>, run: seq<Act>, n: nat): (k: nat)
    requires n <= |run| < |ss|
    ensures k <= n
  {
    if n == 0 || SetArrives(ss[n - 1], run[n - 1]) then n else SetArrivedBy(ss, run, n - 1)
  }

  /** No parameter write came after the last Set arrived. */
  predicate SetUndisturbed(ss: seq<System>, run: seq<Act>, n: nat)
    requires n <= |run| < |ss|
  {
    forall i :: SetArrivedBy(ss, run, n) <= i < n ==> !WritesParameter(run[i])
  }

  /** Whatever went before, a Set that arrives decides the rate. */
  lemma SetDecides(s: System, a: Act, t: System, os: seq<Service.Order>)
    requires IpcInv(s.ipc) && t == Next(s, a) && Scheduled(a) && SetArrives(s, a)
    ensures Follows(DeviceView(t.device), LastPayload(os + ArrivedBy(s, a)))
  {
    LastPayloadMore(os, ArrivedBy(s, a));
    FirstOrder(s.ipc);
    ObeyRefines(s.device, s.ipc.slots, s.ipc.orders[0]);
  }

  lemma SetDecidesAt(comIF: bool, ss: seq<System>, run: seq<Act>, i: nat, os: seq<Service.Order>)
    requires i < |run| && IsRun(comIF, ss, run) && SetArrives(ss[i], run[i])
    ensures Follows(DeviceView(ss[i + 1].device), LastPayload(os + ArrivedBy(ss[i], run[i])))
  {
    ReachableInv(comIF, ss, run, i);
    assert StepAt(ss, run, i);
    SetDecides(ss[i], run[i], ss[i + 1], os);
  }

  lemma {:induction false} RateFollowsArrivals(comIF: bool, ss: seq<System>, run: seq<Act>, n: nat)
    requires n <= |run| && IsRun(comIF, ss, run) && SetUndisturbed(ss, run, n)
    ensures Follows(DeviceView(ss[n].device), LastPayload(Arrived(ss, run, n)))
  {
    if n > 0 {
      var os := Arrived(ss, run, n - 1);
      assert Arrived(ss, run, n) == os + ArrivedBy(ss[n - 1], run[n - 1]);
      if SetArrives(ss[n - 1], run[n - 1]) {
        SetDecidesAt(comIF, ss, run, n - 1, os);
      } else {
        RateFollowsArrivals(comIF, ss, run, n - 1);
        FollowsAt(comIF, ss, run, n - 1, os);
      }
    }
  }

  /** A Get that goes out finds the rate of the last Set that arrived, unless a parameter was written since. */
  lemma GetSeesLastArrival(comIF: bool, ss: seq<System>, run: seq<Act>, n: nat)
    requires n < |run| && IsRun(comIF, ss, run) && SetUndisturbed(ss, run, n)
    requires run[n].Hook? && Runs.SentBy(ss[n].device, run[n].event) == Some(GetFrameRate)
    ensures ss[n].device.currentFrameRate == LastPayload(Arrived(ss, run, n))
  {
    RateFollowsArrivals(comIF, ss, run, n);
    Runs.HighestGoesOut(ss[n].device, run[n].event, SetFrameRate);
  }

  /**
   End to end: once the queues are empty, with nothing well-formed refused and no
   parameter written since the last Set arrived, a Get finds the rate of the last
   well-formed Set telecommand the distributor accepted.
   */
  lemma GetSeesLastTelecommand(comIF: bool, ss: seq<System>, run: seq<Act>, n: nat)
    requires n < |run| && IsRun(comIF, ss, run) && SetUndisturbed(ss, run, n) && NothingRefused(ss, run, n)
    requires ss[n].tc.queue == [] && ss[n].ipc.orders == []
    requires run[n].Hook? && Runs.SentBy(ss[n].device, run[n].event) == Some(GetFrameRate)
    ensures ss[n].device.currentFrameRate == LastPayload(AllUnderstood(Accepted(ss, run, n)))
  {
    GetSeesLastArrival(comIF, ss, run, n);
    EverythingArrived(comIF, ss, run, n);
  }
}
