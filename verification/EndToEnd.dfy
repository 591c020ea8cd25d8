/**
 From the ground to the device and out of it: when the command of an accepted
 telecommand has gone out, and which frame rate a query finds.
 */
module EndToEnd {
  import opened Fsfw
  import opened WebcamDevice
  import opened Pipeline
  import opened PipelineRuns
  import Runs = WebcamRuns
  import Service = CommandingService
  import Tmtc

  // ----- queues make progress -----

  function Translations(run: seq<Act>, i: nat, n: nat): nat
    requires n <= |run|
  {
    if n <= i then 0 else Translations(run, i, n - 1) + if run[n - 1].Translate? then 1 else 0
  }

  function Deliveries(run: seq<Act>, i: nat, n: nat): nat
    requires n <= |run|
  {
    if n <= i then 0 else Deliveries(run, i, n - 1) + if run[n - 1].Deliver? then 1 else 0
  }

  /** Orders issued by the service in the first n acts, on their way or arrived. */
  function Issued(ss: seq<System>, run: seq<Act>, n: nat): seq<Service.Order>
    requires n <= |run| < |ss|
  {
    Joined(PerAct(IssuedBy, ss, run), n)
  }

  lemma {:induction false} JoinedPrefix<T>(xs: seq<seq<T>>, i: nat, n: nat)
    requires i <= n <= |xs|
    ensures Joined(xs, i) <= Joined(xs, n)
  {
    if i < n {
      JoinedPrefix(xs, i, n - 1);
    }
  }

  lemma Takes(comIF: bool, ss: seq<System>, run: seq<Act>, n: nat)
    requires n < |run| && IsRun(comIF, ss, run)
    ensures |Taken(ss, run, n + 1)| == |Taken(ss, run, n)| + |TakenBy(ss[n], run[n])|
    ensures |Accepted(ss, run, n)| == |Taken(ss, run, n)| + |ss[n].tc.queue|
    ensures run[n].Translate? && ss[n].tc.queue != [] ==> |TakenBy(ss[n], run[n])| == 1
  {
    TelecommandsConserved(comIF, ss, run, n);
    assert |TcView(ss[n].tc)| == |ss[n].tc.queue|;
    TakeTcRefines(ss[n].tc);
  }

  /** Each translation takes a telecommand until all that had been accepted by act i are taken. */
  lemma {:induction false} TakenGrows(comIF: bool, ss: seq<System>, run: seq<Act>, i: nat, n: nat)
    requires i <= n <= |run| && IsRun(comIF, ss, run)
    ensures |Taken(ss, run, n)| >= |Accepted(ss, run, i)|
            || |Taken(ss, run, n)| >= |Taken(ss, run, i)| + Translations(run, i, n)
  {
    if i < n {
      TakenGrows(comIF, ss, run, i, n - 1);
      Takes(comIF, ss, run, n - 1);
      JoinedPrefix(PerAct(AcceptedBy, ss, run), i, n - 1);
    }
  }

  /** As many translations as telecommands were queued, and all of them are taken. */
  lemma AllTaken(comIF: bool, ss: seq<System>, run: seq<Act>, i: nat, n: nat)
    requires i <= n <= |run| && IsRun(comIF, ss, run) && Translations(run, i, n) >= |ss[i].tc.queue|
    ensures Accepted(ss, run, i) <= Taken(ss, run, n)
  {
    TakenGrows(comIF, ss, run, i, n);
    TelecommandsConserved(comIF, ss, run, i);
    TelecommandsConserved(comIF, ss, run, n);
    assert |TcView(ss[i].tc)| == |ss[i].tc.queue|;
    JoinedPrefix(PerAct(AcceptedBy, ss, run), i, n);
    assert Taken(ss, run, n) <= Accepted(ss, run, n);
  }

  lemma Arrives(comIF: bool, ss: seq<System>, run: seq<Act>, n: nat)
    requires n < |run| && IsRun(comIF, ss, run)
    ensures |Arrived(ss, run, n + 1)| == |Arrived(ss, run, n)| + |ArrivedBy(ss[n], run[n])|
    ensures |Issued(ss, run, n)| == |Arrived(ss, run, n)| + |ss[n].ipc.orders|
    ensures run[n].Deliver? && ss[n].ipc.orders != [] ==> |ArrivedBy(ss[n], run[n])| == 1
  {
    ReachableAllInv(comIF, ss, run);
    OrdersConserved(comIF, ss, run, n);
    assert |IpcView(ss[n].ipc)| == |ss[n].ipc.orders|;
    if ss[n].ipc.orders != [] {
      FirstOrder(ss[n].ipc);
    }
  }

  lemma {:induction false} ArrivedGrows(comIF: bool, ss: seq<System>, run: seq<Act>, i: nat, n: nat)
    requires i <= n <= |run| && IsRun(comIF, ss, run)
    ensures |Arrived(ss, run, n)| >= |Issued(ss, run, i)|
            || |Arrived(ss, run, n)| >= |Arrived(ss, run, i)| + Deliveries(run, i, n)
  {
    if i < n {
      ArrivedGrows(comIF, ss, run, i, n - 1);
      Arrives(comIF, ss, run, n - 1);
      JoinedPrefix(PerAct(IssuedBy, ss, run), i, n - 1);
    }
  }

  /** As many deliveries as messages were queued, and all of them have arrived. */
  lemma AllArrived(comIF: bool, ss: seq<System>, run: seq<Act>, i: nat, n: nat)
    requires i <= n <= |run| && IsRun(comIF, ss, run) && Deliveries(run, i, n) >= |ss[i].ipc.orders|
    ensures Issued(ss, run, i) <= Arrived(ss, run, n)
  {
    ArrivedGrows(comIF, ss, run, i, n);
    ReachableAllInv(comIF, ss, run);
    OrdersConserved(comIF, ss, run, i);
    OrdersConserved(comIF, ss, run, n);
    assert |IpcView(ss[i].ipc)| == |ss[i].ipc.orders|;
    JoinedPrefix(PerAct(IssuedBy, ss, run), i, n);
    assert Arrived(ss, run, n) <= Issued(ss, run, n);
  }

  // ----- an accepted telecommand arrives -----

  lemma {:induction false} SelectedPrefix(tcs: seq<Telecommand>, fates: seq<bool>, n: nat)
    requires n <= |tcs| == |fates|
    ensures Selected(tcs[..n], fates[..n]) <= Selected(tcs, fates)
  {
    if n < |tcs| {
      var k := |tcs| - 1;
      SelectedPrefix(tcs[..k], fates[..k], n);
      assert tcs[..k][..n] == tcs[..n] && fates[..k][..n] == fates[..n];
    } else {
      assert tcs[..n] == tcs && fates[..n] == fates;
    }
  }

  /** Where in the orders issued that of telecommand number x stands. */
  function PlaceOf(tcs: seq<Telecommand>, fates: seq<bool>, x: nat): nat
    requires x <= |tcs| == |fates|
  {
    |Selected(tcs[..x], fates[..x])|
  }

  lemma SelectedAt(tcs: seq<Telecommand>, fates: seq<bool>, x: nat, order: Service.Order)
    requires x < |tcs| == |fates| && fates[x] && Understood(tcs[x]) == [order]
    ensures PlaceOf(tcs, fates, x) < |Selected(tcs, fates)|
    ensures Selected(tcs, fates)[PlaceOf(tcs, fates, x)] == order
  {
    SelectedPrefix(tcs, fates, x + 1);
    assert tcs[..x + 1][..x] == tcs[..x] && fates[..x + 1][..x] == fates[..x];
    assert Selected(tcs[..x + 1], fates[..x + 1]) == Selected(tcs[..x], fates[..x]) + [order];
  }

  /** The element number y of a log came in at some act, not before the log was y elements long. */
  lemma {:induction false} CameIn<T>(xs: seq<seq<T>>, i: nat, n: nat, y: nat)
    requires i <= n <= |xs| && |Joined(xs, i)| <= y < |Joined(xs, n)|
    requires forall k :: 0 <= k < |xs| ==> |xs[k]| <= 1
    ensures exists u :: i <= u < n && xs[u] == [Joined(xs, n)[y]]
  {
    if y < |Joined(xs, n - 1)| {
      CameIn(xs, i, n - 1, y);
    } else {
      assert xs[n - 1] == [Joined(xs, n)[y]];
    }
  }

  lemma AcceptedTaken(comIF: bool, ss: seq<System>, run: seq<Act>, a: nat, j: nat, tc: Telecommand)
    requires a < j <= |run| && IsRun(comIF, ss, run) && AcceptedBy(ss[a], run[a]) == [tc]
    requires Translations(run, a + 1, j) >= |ss[a + 1].tc.queue|
    ensures var x := |Accepted(ss, run, a)|;
            x < |Taken(ss, run, j)| == |Fates(ss, run, j)| && Taken(ss, run, j)[x] == tc
  {
    AllTaken(comIF, ss, run, a + 1, j);
    TelecommandsConserved(comIF, ss, run, j);
    assert Accepted(ss, run, a + 1) == Accepted(ss, run, a) + [tc];
  }

  /** What is issued before a telecommand is accepted stands before its order. */
  lemma IssuedBefore(comIF: bool, ss: seq<System>, run: seq<Act>, a: nat, j: nat)
    requires a <= j <= |run| && IsRun(comIF, ss, run)
    requires |Accepted(ss, run, a)| <= |Taken(ss, run, j)| == |Fates(ss, run, j)|
    ensures |Issued(ss, run, a)| <= PlaceOf(Taken(ss, run, j), Fates(ss, run, j), |Accepted(ss, run, a)|)
  {
    var x, t, taken, fates := |Accepted(ss, run, a)|, |Taken(ss, run, a)|, Taken(ss, run, j), Fates(ss, run, j);
    TelecommandsConserved(comIF, ss, run, a);
    IssuedAreSelected(ss, run, a);
    JoinedPrefix(PerAct(TakenBy, ss, run), a, j);
    JoinedPrefix(PerAct(FateBy, ss, run), a, j);
    assert Taken(ss, run, a) == taken[..x][..t] && Fates(ss, run, a) == fates[..x][..t];
    SelectedPrefix(taken[..x], fates[..x], t);
  }

  /** Telecommand number x, if taken by act j, found room in store and queue. */
  predicate FoundRoom(ss: seq<System>, run: seq<Act>, j: nat, x: nat)
    requires j <= |run| < |ss|
  {
    x < |Fates(ss, run, j)| ==> Fates(ss, run, j)[x]
  }

  /** The order of that telecommand has a place in the log of arrivals, behind all that had arrived before. */
  lemma AcceptedHasPlace(comIF: bool, ss: seq<System>, run: seq<Act>, a: nat, j: nat, k: nat,
                         tc: Telecommand, order: Service.Order) returns (y: nat)
    requires a < j <= k <= |run| && IsRun(comIF, ss, run)
    requires AcceptedBy(ss[a], run[a]) == [tc] && Understood(tc) == [order]
    requires FoundRoom(ss, run, j, |Accepted(ss, run, a)|)
    requires Translations(run, a + 1, j) >= |ss[a + 1].tc.queue|
    requires Deliveries(run, j, k) >= |ss[j].ipc.orders|
    ensures |Arrived(ss, run, a)| <= y < |Arrived(ss, run, k)| && Arrived(ss, run, k)[y] == order
  {
    var x, taken, fates := |Accepted(ss, run, a)|, Taken(ss, run, j), Fates(ss, run, j);
    AcceptedTaken(comIF, ss, run, a, j, tc);
    IssuedAreSelected(ss, run, j);
    SelectedAt(taken, fates, x, order);
    y := PlaceOf(taken, fates, x);
    AllArrived(comIF, ss, run, j, k);
    IssuedBefore(comIF, ss, run, a, j);
    Arrives(comIF, ss, run, a);
  }

  lemma ArrivalsAreSingle(comIF: bool, ss: seq<System>, run: seq<Act>)
    requires IsRun(comIF, ss, run)
    ensures forall i :: 0 <= i < |run| ==> |PerAct(ArrivedBy, ss, run)[i]| <= 1
  {
    forall i | 0 <= i < |run| ensures |PerAct(ArrivedBy, ss, run)[i]| <= 1 {
      ArrivalAt(comIF, ss, run, i);
    }
  }

  /**
   A telecommand accepted at act a that finds room arrives, after as many
   translations and then deliveries as there were messages before it.
   */
  lemma AcceptedArrives(comIF: bool, ss: seq<System>, run: seq<Act>, a: nat, j: nat, k: nat,
                        tc: Telecommand, order: Service.Order)
    requires a < j <= k <= |run| && IsRun(comIF, ss, run)
    requires AcceptedBy(ss[a], run[a]) == [tc] && Understood(tc) == [order]
    requires FoundRoom(ss, run, j, |Accepted(ss, run, a)|)
    requires Translations(run, a + 1, j) >= |ss[a + 1].tc.queue|
    requires Deliveries(run, j, k) >= |ss[j].ipc.orders|
    ensures exists u :: a < u < k && ArrivedBy(ss[u], run[u]) == [order]
  {
    var y := AcceptedHasPlace(comIF, ss, run, a, j, k, tc, order);
    ArrivalsAreSingle(comIF, ss, run);
    CameIn(PerAct(ArrivedBy, ss, run), a, k, y);
    var u :| a <= u < k && PerAct(ArrivedBy, ss, run)[u] == [order];
    assert ArrivedBy(ss[a], run[a]) == [];
  }

  // ----- what has arrived goes out -----

  /** Act t makes the device send the command. */
  predicate SendsAt(ss: seq<System>, run: seq<Act>, t: nat, c: Command)
    requires t < |run| < |ss|
  {
    run[t].Hook? && Runs.SentBy(ss[t].device, run[t].event) == Some(c)
  }

  predicate AsksAheadAt(ss: seq<System>, run: seq<Act>, t: nat, c: Command)
    requires t < |run| < |ss|
  {
    var os := ArrivedBy(ss[t], run[t]);
    os != [] && os[0].Device? && Runs.Rank(os[0].command) < Runs.Rank(c)
  }

  /** How many orders of higher priority arrive in the acts from k up to n. */
  function ArrivedAhead(ss: seq<System>, run: seq<Act>, k: nat, n: nat, c: Command): nat
    requires n <= |run| < |ss|
  {
    if n <= k then 0
    else ArrivedAhead(ss, run, k, n - 1, c) + if AsksAheadAt(ss, run, n - 1, c) then 1 else 0
  }

  function AbleBuilds(run: seq<Act>, k: nat, n: nat): nat
    requires n <= |run|
  {
    if n <= k then 0 else AbleBuilds(run, k, n - 1) + if run[n - 1] == Act.Hook(Build(true)) then 1 else 0
  }

  /** The device takes the one step, if any, that the act asks of it. */
  lemma DeviceStepAt(comIF: bool, ss: seq<System>, run: seq<Act>, i: nat)
    requires i < |run| && IsRun(comIF, ss, run)
    ensures var e := EventBy(ss[i], run[i]);
            && |e| <= 1
            && ss[i + 1].device == if e == [] then ss[i].device else Step(ss[i].device, e[0])
  {
    assert StepAt(ss, run, i);
  }

  lemma DeviceComIF(comIF: bool, ss: seq<System>, run: seq<Act>, n: nat)
    requires n <= |run| && IsRun(comIF, ss, run)
    ensures ss[n].device.comIF == comIF
  {
    DeviceRun(comIF, ss, run, n);
    Runs.StepKeepsComIF(Initial(comIF), Events(ss, run, n), |Events(ss, run, n)|);
  }

  /** The request that carries a device order. */
  predicate Requests(e: Event, order: Service.Order) {
    && order.Device? && e.Request?
    && RawToCommand(e.id) == Some(order.command) && e.data == Bytes(order.payload)
    && (order.command == SetFrameRate ==> |order.payload| == SIZE_OF_DOUBLE)
  }

  lemma DeliveryAsks(s: System, a: Act)
    requires IpcInv(s.ipc) && a.Deliver?
    ensures var e, os := EventBy(s, a), ArrivedBy(s, a);
            if os != [] && os[0].Device? then |os| == 1 && |e| == 1 && Requests(e[0], os[0]) else e == []
  {
    if s.ipc.orders != [] {
      FirstOrder(s.ipc);
      DeliveryIsRequest(s.ipc);
    }
  }

  /** What an act asks of the device is the device order that arrives, if one does; else it is the hook's call. */
  lemma AskedAt(comIF: bool, ss: seq<System>, run: seq<Act>, i: nat)
    requires i < |run| && IsRun(comIF, ss, run)
    ensures var e, os := EventBy(ss[i], run[i]), ArrivedBy(ss[i], run[i]);
            if os != [] && os[0].Device? then |os| == 1 && |e| == 1 && Requests(e[0], os[0])
            else e == if run[i].Hook? then [run[i].event] else []
    ensures run[i].Hook? ==> !run[i].event.Request?
  {
    ScheduledAt(comIF, ss, run, i);
    ReachableInv(comIF, ss, run, i);
    if run[i].Deliver? {
      DeliveryAsks(ss[i], run[i]);
    }
  }

  lemma OrderPends(comIF: bool, ss: seq<System>, run: seq<Act>, u: nat, order: Service.Order)
    requires u < |run| && IsRun(comIF, ss, run)
    requires ArrivedBy(ss[u], run[u]) == [order] && order.Device?
    ensures Pending(ss[u + 1].device, order.command)
  {
    AskedAt(comIF, ss, run, u);
    DeviceStepAt(comIF, ss, run, u);
    Runs.PendingStep(ss[u].device, EventBy(ss[u], run[u])[0], order.command);
  }

  lemma PendingAt(comIF: bool, ss: seq<System>, run: seq<Act>, i: nat, c: Command)
    requires i < |run| && IsRun(comIF, ss, run) && Pending(ss[i].device, c) && !SendsAt(ss, run, i, c)
    ensures Pending(ss[i + 1].device, c)
    ensures comIF ==> Runs.Ahead(ss[i + 1].device, c) + (if run[i] == Act.Hook(Build(true)) then 1 else 0)
                      <= Runs.Ahead(ss[i].device, c) + if AsksAheadAt(ss, run, i, c) then 1 else 0
  {
    AskedAt(comIF, ss, run, i);
    DeviceStepAt(comIF, ss, run, i);
    DeviceComIF(comIF, ss, run, i);
    var e := EventBy(ss[i], run[i]);
    if e != [] {
      Runs.PendingStep(ss[i].device, e[0], c);
      if comIF {
        Runs.OvertakenStep(ss[i].device, e[0], c);
      }
    }
  }

  lemma {:induction false} PendingUnlessSent(comIF: bool, ss: seq<System>, run: seq<Act>, k: nat, n: nat, c: Command)
    requires k <= n <= |run| && IsRun(comIF, ss, run) && Pending(ss[k].device, c)
    requires forall t :: k <= t < n ==> !SendsAt(ss, run, t, c)
    ensures Pending(ss[n].device, c)
    ensures comIF ==> AbleBuilds(run, k, n) + Runs.Ahead(ss[n].device, c)
                      <= Runs.Ahead(ss[k].device, c) + ArrivedAhead(ss, run, k, n, c)
  {
    if k < n {
      PendingUnlessSent(comIF, ss, run, k, n - 1, c);
      PendingAt(comIF, ss, run, n - 1, c);
    }
  }

  /** An order that has arrived by act k goes out, within able builds for its priority and for what overtakes it. */
  lemma ArrivalGoesOut(ss: seq<System>, run: seq<Act>, u: nat, k: nat, n: nat, order: Service.Order)
    requires u < k <= n <= |run| && IsRun(true, ss, run)
    requires ArrivedBy(ss[u], run[u]) == [order] && order.Device?
    requires AbleBuilds(run, k, n) >= Runs.Rank(order.command) + 1 + ArrivedAhead(ss, run, k, n, order.command)
    ensures exists t :: u < t < n && SendsAt(ss, run, t, order.command)
  {
    OrderPends(true, ss, run, u, order);
    if forall t :: u < t < n ==> !SendsAt(ss, run, t, order.command) {
      PendingUnlessSent(true, ss, run, u + 1, k, order.command);
      PendingUnlessSent(true, ss, run, k, n, order.command);
    }
  }

  /**
   Progress from the ground to the camera: the command of an accepted telecommand
   that found room goes out, after it has arrived, once there were as many
   translations as telecommands queued, then as many deliveries as messages queued,
   then enough able builds for its priority and what overtakes it.
   */
  lemma AcceptedGoesOut(ss: seq<System>, run: seq<Act>, a: nat, j: nat, k: nat, n: nat,
                        tc: Telecommand, order: Service.Order)
    requires a < j <= k <= n <= |run| && IsRun(true, ss, run)
    requires AcceptedBy(ss[a], run[a]) == [tc] && Understood(tc) == [order] && order.Device?
    requires FoundRoom(ss, run, j, |Accepted(ss, run, a)|)
    requires Translations(run, a + 1, j) >= |ss[a + 1].tc.queue|
    requires Deliveries(run, j, k) >= |ss[j].ipc.orders|
    requires AbleBuilds(run, k, n) >= Runs.Rank(order.command) + 1 + ArrivedAhead(ss, run, k, n, order.command)
    ensures exists u, t :: a < u < t < n && ArrivedBy(ss[u], run[u]) == [order] && SendsAt(ss, run, t, order.command)
  {
    AcceptedArrives(true, ss, run, a, j, k, tc, order);
    var u :| a < u < k && ArrivedBy(ss[u], run[u]) == [order];
    ArrivalGoesOut(ss, run, u, k, n, order);
  }

  // ----- the rate a Get finds -----

  /** The rate an act writes: the payload of a Set that arrives, or a parameter. */
  function RateBy(s: System, a: Act): Option<seq<byte>> {
    if SetArrives(s, a) then Some(ArrivedBy(s, a)[0].payload)
    else if WritesParameter(a) then Some(Writes(a.event).value)
    else None
  }

  /** The rate written last in the first n acts. */
  function LastRate(ss: seq<System>, run: seq<Act>, n: nat): seq<byte>
    requires n <= |run| < |ss|
  {
    if n == 0 then ZERO_RATE
    else if RateBy(ss[n - 1], run[n - 1]).Some? then RateBy(ss[n - 1], run[n - 1]).value
    else LastRate(ss, run, n - 1)
  }

  lemma RatesAt(comIF: bool, ss: seq<System>, run: seq<Act>, i: nat)
    requires i < |run| && IsRun(comIF, ss, run)
    ensures var d, d', w := ss[i].device, ss[i + 1].device, RateBy(ss[i], run[i]);
            && d'.requestedFrameRate == (if w.Some? then w.value else d.requestedFrameRate)
            && d'.currentFrameRate ==
               (if SendsAt(ss, run, i, SetFrameRate) then d.requestedFrameRate else d.currentFrameRate)
            && (Pending(d', SetFrameRate)
                <==> SetArrives(ss[i], run[i]) || (Pending(d, SetFrameRate) && !SendsAt(ss, run, i, SetFrameRate)))
  {
    AskedAt(comIF, ss, run, i);
    DeviceStepAt(comIF, ss, run, i);
    var e := EventBy(ss[i], run[i]);
    if e != [] {
      Runs.RateStep(ss[i].device, e[0]);
      Runs.PendingStep(ss[i].device, e[0], SetFrameRate);
    }
  }

  lemma {:induction false} RequestedIsLast(comIF: bool, ss: seq<System>, run: seq<Act>, n: nat)
    requires n <= |run| && IsRun(comIF, ss, run)
    ensures ss[n].device.requestedFrameRate == LastRate(ss, run, n)
  {
    if n > 0 {
      RequestedIsLast(comIF, ss, run, n - 1);
      RatesAt(comIF, ss, run, n - 1);
    }
  }

  /** Act j is the latest before n at which a Set goes out. */
  ghost predicate LatestSetOut(ss: seq<System>, run: seq<Act>, j: nat, n: nat)
    requires j < n <= |run| < |ss|
  {
    SendsAt(ss, run, j, SetFrameRate) && forall t :: j < t < n ==> !SendsAt(ss, run, t, SetFrameRate)
  }

  lemma {:induction false} CurrentSince(comIF: bool, ss: seq<System>, run: seq<Act>, j: nat, n: nat)
    requires j < n <= |run| && IsRun(comIF, ss, run) && LatestSetOut(ss, run, j, n)
    ensures ss[n].device.currentFrameRate == LastRate(ss, run, j)
  {
    RatesAt(comIF, ss, run, n - 1);
    if j + 1 < n {
      CurrentSince(comIF, ss, run, j, n - 1);
      assert !SendsAt(ss, run, n - 1, SetFrameRate);
    } else {
      RequestedIsLast(comIF, ss, run, j);
    }
  }

  lemma {:induction false} SetOutSince(comIF: bool, ss: seq<System>, run: seq<Act>, i: nat, n: nat)
    requires i < n <= |run| && IsRun(comIF, ss, run) && SetArrives(ss[i], run[i])
    requires !Pending(ss[n].device, SetFrameRate)
    ensures exists j :: i < j < n && LatestSetOut(ss, run, j, n)
  {
    RatesAt(comIF, ss, run, n - 1);
    if n == i + 1 {
    } else if SendsAt(ss, run, n - 1, SetFrameRate) {
      assert LatestSetOut(ss, run, n - 1, n);
    } else {
      SetOutSince(comIF, ss, run, i, n - 1);
      var j :| i < j < n - 1 && LatestSetOut(ss, run, j, n - 1);
      assert LatestSetOut(ss, run, j, n);
    }
  }

  /**
   Whatever parameters are written: a Get that goes out after a Set has arrived
   finds the rate that was written last, by a Set or a parameter, when the latest
   Set went out, which was after that arrival.
   */
  lemma GetFindsRate(comIF: bool, ss: seq<System>, run: seq<Act>, i: nat, n: nat)
    requires i < n < |run| && IsRun(comIF, ss, run)
    requires SetArrives(ss[i], run[i]) && SendsAt(ss, run, n, GetFrameRate)
    ensures exists j :: i < j < n && LatestSetOut(ss, run, j, n)
                        && ss[n].device.currentFrameRate == LastRate(ss, run, j)
  {
    Runs.HighestGoesOut(ss[n].device, run[n].event, SetFrameRate);
    SetOutSince(comIF, ss, run, i, n);
    var j :| i < j < n && LatestSetOut(ss, run, j, n);
    CurrentSince(comIF, ss, run, j, n);
  }

  /** Before any Set has arrived the rate is the initial one, whatever parameters are written. */
  lemma {:induction false} InitialRateWithoutSet(comIF: bool, ss: seq<System>, run: seq<Act>, n: nat)
    requires n <= |run| && IsRun(comIF, ss, run)
    requires forall i :: 0 <= i < n ==> !SetArrives(ss[i], run[i])
    ensures ss[n].device.currentFrameRate == ZERO_RATE && !Pending(ss[n].device, SetFrameRate)
  {
    if n > 0 {
      InitialRateWithoutSet(comIF, ss, run, n - 1);
      RatesAt(comIF, ss, run, n - 1);
      if run[n - 1].Hook? {
        Runs.HighestGoesOut(ss[n - 1].device, run[n - 1].event, SetFrameRate);
      }
    }
  }

  // ----- in the bytes of the caller -----

  /** The bytes the caller passes are the bytes the service finds in the packet. */
  lemma PacketHoldsBytes(s: System, subservice: byte, bytes: seq<byte>, offer: SlotId)
    requires TcInv(s.tc) && offer !in s.tc.slots
    ensures var t := Next(s, Act.Send(subservice, Bytes(bytes), Some(offer), OK, OK));
            && t.tc.queue == s.tc.queue + [offer] && offer in t.tc.slots
            && t.tc.slots[offer].subservice == subservice && t.tc.slots[offer].appData == bytes
  {
  }

  /** Eight bytes that the ground sends as a Set, translated and delivered, are the device's requested rate. */
  lemma SetReachesDevice(comIF: bool, rate: Rate, tcSlot: SlotId, ipcSlot: SlotId)
    ensures exists ss: seq<System> ::
      && IsRun(comIF, ss, SendTranslateDeliver(2, Bytes(rate), tcSlot, ipcSlot))
      && ss[3].device == Initial(comIF).(requestedFrameRate := rate, frameRateCommandPending := true)
      && ss[3].tc == TcSide(map[], [], {}) && ss[3].ipc == IpcSide(map[], [], [], {})
  {
    var run, s0 := SendTranslateDeliver(2, Bytes(rate), tcSlot, ipcSlot), Start(comIF);
    var s1 := Next(s0, run[0]);
    var s2 := Next(s1, run[1]);
    var s3 := Next(s2, run[2]);
    var order := Service.Device(SetFrameRate, rate);
    assert Head(s1.tc) == Some(Tmtc.Packet(SERVICE_ID, 2, 0, rate));
    DeviceOrderDelivered(s1.ipc, Head(s1.tc).value, ipcSlot, order, s0.device);
    assert s1.tc.queue[1..] == [] && s1.tc.slots - {tcSlot} == map[];
    assert s2.ipc.orders[1..] == [] && s2.ipc.slots - {ipcSlot} == map[];
    var ss := [s0, s1, s2, s3];
    assert StepAt(ss, run, 0) && StepAt(ss, run, 1) && StepAt(ss, run, 2);
    assert IsRun(comIF, ss, run);
  }

  /** A snapshot or a query, sent without data, raises its flag on the device and nothing else. */
  lemma PlainReachesDevice(comIF: bool, subservice: byte, tcSlot: SlotId, ipcSlot: SlotId)
    requires subservice in {1, 3}
    ensures exists ss: seq<System> ::
      && IsRun(comIF, ss, SendTranslateDeliver(subservice, Null(0), tcSlot, ipcSlot))
      && ss[3].device == Initial(comIF).(snapshotRequested := subservice == 1, frameRateQueryPending := subservice == 3)
      && ss[3].tc == TcSide(map[], [], {}) && ss[3].ipc == IpcSide(map[], [], [], {})
  {
    var run, s0 := SendTranslateDeliver(subservice, Null(0), tcSlot, ipcSlot), Start(comIF);
    var s1 := Next(s0, run[0]);
    var s2 := Next(s1, run[1]);
    var s3 := Next(s2, run[2]);
    var order := Service.Device(if subservice == 1 then TakeSnapshot else GetFrameRate, []);
    assert Head(s1.tc) == Some(Tmtc.Packet(SERVICE_ID, subservice, 0, []));
    DeviceOrderDelivered(s1.ipc, Head(s1.tc).value, ipcSlot, order, s0.device);
    assert s1.tc.queue[1..] == [] && s1.tc.slots - {tcSlot} == map[];
    assert s2.ipc.orders[1..] == [] && s2.ipc.slots - {ipcSlot} == map[];
    var ss := [s0, s1, s2, s3];
    assert StepAt(ss, run, 0) && StepAt(ss, run, 1) && StepAt(ss, run, 2);
    assert IsRun(comIF, ss, run);
  }

  function SendTranslateDeliver(subservice: byte, data: Buffer, tcSlot: SlotId, ipcSlot: SlotId): seq<Act> {
    [Act.Send(subservice, data, Some(tcSlot), OK, OK), Act.Translate(Some(ipcSlot), OK), Act.Deliver]
  }

  lemma DeviceOrderDelivered(ipc: IpcSide, p: Tmtc.Packet, id: SlotId, order: Service.Order, d: State)
    requires Service.Decode(p.subservice, Bytes(p.appData)) == Some(order) && order.Device?
    requires id !in ipc.slots && ipc.orders == []
    ensures var t := Forward(ipc, p, Some(id), OK);
            && t == ipc.(slots := ipc.slots[id := order.payload], orders := [Service.Encode(order, id)])
            && HandleMessage(d, t.slots, t.orders[0])
               == Handled(RequestState(d, CommandToRaw(order.command), Bytes(order.payload)), t.slots - {id}, None)
  {
    ForwardDevice(ipc, p, Some(id), OK, order);
    CommandIdParts(DEVICE_HANDLER_COMMAND, CommandToRaw(order.command));
  }

  /**
   On any run: eight bytes sent as a Set and accepted at act a, if they find room,
   become the requested rate at a later delivery, with the Set pending.
   */
  lemma SetBytesArrive(comIF: bool, ss: seq<System>, run: seq<Act>, a: nat, j: nat, k: nat,
                       bytes: seq<byte>, offer: SlotId)
    requires a < j <= k <= |run| && IsRun(comIF, ss, run)
    requires |bytes| == 8 && run[a] == Act.Send(2, Bytes(bytes), Some(offer), OK, OK) && offer !in ss[a].tc.slots
    requires FoundRoom(ss, run, j, |Accepted(ss, run, a)|)
    requires Translations(run, a + 1, j) >= |ss[a + 1].tc.queue|
    requires Deliveries(run, j, k) >= |ss[j].ipc.orders|
    ensures exists u :: a < u < k && run[u] == Act.Deliver
                        && ss[u + 1].device.requestedFrameRate == bytes && ss[u + 1].device.frameRateCommandPending
  {
    var tc, order := Telecommand(2, bytes), Service.Device(SetFrameRate, bytes);
    AcceptedArrives(comIF, ss, run, a, j, k, tc, order);
    var u :| a < u < k && ArrivedBy(ss[u], run[u]) == [order];
    RatesAt(comIF, ss, run, u);
  }
}
