/**
 What holds of the device handler over whole runs: any sequence of hook calls,
 from any state or from the state the constructor leaves.
 */
module WebcamRuns {
  import opened Fsfw
  import opened WebcamDevice

  // ----- what a run does, read off its calls -----

  predicate Asks(e: Event, c: Command) {
    e.Request? && RawToCommand(e.id) == Some(c)
  }

  function SentBy(s: State, e: Event): Option<Command> {
    if e.Build? then Sends(s, e.outGiven) else None
  }

  /** The command call number j of the run sends. */
  function SentAt(s: State, run: seq<Event>, j: nat): Option<Command>
    requires j < |run|
  {
    SentBy(At(s, run, j), run[j])
  }

  function Listed<T>(x: Option<T>): seq<T> {
    match x
    case Some(v) => [v]
    case None => []
  }

  /** The commands sent by the first n calls, in order. */
  function Sent(s: State, run: seq<Event>, n: nat): seq<Command>
    requires n <= |run|
  {
    if n == 0 then []
    else Sent(s, run, n - 1) + Listed(SentAt(s, run, n - 1))
  }

  /** The ids of the replies found in the first n calls, in order. */
  function Replied(s: State, run: seq<Event>, n: nat): seq<DeviceCommandId>
    requires n <= |run|
  {
    if n == 0 then []
    else Replied(s, run, n - 1) + if run[n - 1].Parse? then Listed(Replies(At(s, run, n - 1))) else []
  }

  /** What the first n calls print, in order. */
  function Printed(s: State, run: seq<Event>, n: nat): seq<Report>
    requires n <= |run|
  {
    if n == 0 then []
    else Printed(s, run, n - 1) + if run[n - 1].Parse? then Listed(Prints(At(s, run, n - 1))) else []
  }

  /** Makes the calls of a run on the object: the run model is what the class does. */
  method Drive(handler: WebcamDeviceHandler, run: seq<Event>)
    returns (sent: seq<DeviceCommandId>, printed: seq<Report>)
    modifies handler
    ensures handler.View() == At(old(handler.View()), run, |run|)
    ensures sent == Raws(Sent(old(handler.View()), run, |run|))
    ensures printed == Printed(old(handler.View()), run, |run|)
  {
    ghost var s := handler.View();
    sent, printed := [], [];
    for i := 0 to |run|
      invariant handler.View() == At(s, run, i)
      invariant sent == Raws(Sent(s, run, i))
      invariant printed == Printed(s, run, i)
    {
      match run[i] {
        case Build(outGiven) =>
          var r, id := handler.BuildNormalDeviceCommand(outGiven);
          if id.Some? {
            sent := sent + [id.value];
          }
        case Request(id, data) =>
          var r := handler.BuildCommandFromCommand(id, data);
        case Parse =>
          var p := handler.ParseReply();
          if p.Some? {
            printed := printed + [p.value];
          }
        case Parameter(access) =>
          var r, w, p := handler.GetParameter(access, FAILED);
      }
    }
  }

  function Raws(cs: seq<Command>): (ids: seq<DeviceCommandId>)
    ensures |ids| == |cs|
    ensures forall i :: 0 <= i < |cs| ==> ids[i] == CommandToRaw(cs[i])
  {
    seq(|cs|, i requires 0 <= i < |cs| => CommandToRaw(cs[i]))
  }

  /** The reply that waits in the slot, if any. */
  function Waiting(s: State): seq<DeviceCommandId> {
    Listed(Replies(s))
  }

  // ----- one call -----

  lemma BuildLowers(s: State, outGiven: bool, c: Command)
    ensures var s' := BuildState(s, outGiven);
            s'.comIF == s.comIF && (Pending(s', c) <==> Pending(s, c) && Sends(s, outGiven) != Some(c))
  {
  }

  lemma RequestRaises(s: State, id: DeviceCommandId, data: Buffer, c: Command)
    ensures var s' := RequestState(s, id, data);
            s'.comIF == s.comIF && (Pending(s', c) <==> Pending(s, c) || RawToCommand(id) == Some(c))
  {
    var noted := Noted(s, Writes(Request(id, data)));
    assert Pending(noted, c) == Pending(s, c);
  }

  /** A call raises the flag it asks for, lowers the flag of the command it sends, and touches no other. */
  lemma PendingStep(s: State, e: Event, c: Command)
    ensures Pending(Step(s, e), c) <==> Asks(e, c) || (Pending(s, c) && SentBy(s, e) != Some(c))
    ensures Step(s, e).comIF == s.comIF
  {
    match e {
      case Build(outGiven) => BuildLowers(s, outGiven, c);
      case Request(id, data) => RequestRaises(s, id, data, c);
      case Parse =>
      case Parameter(_) =>
    }
  }

  /** What goes out is pending and of the highest priority; an able build sends if anything is pending. */
  lemma HighestGoesOut(s: State, e: Event, c: Command)
    ensures SentBy(s, e).Some? ==> Pending(s, SentBy(s, e).value) && s.comIF && e == Build(true)
    ensures SentBy(s, e).Some? && Pending(s, c) ==> Rank(SentBy(s, e).value) <= Rank(c)
    ensures e == Build(true) && s.comIF && Pending(s, c) ==> SentBy(s, e).Some?
  {
  }

  /** The current rate moves only when a Set goes out, and then to the requested one. */
  lemma RateStep(s: State, e: Event)
    ensures Step(s, e).currentFrameRate ==
            if SentBy(s, e) == Some(SetFrameRate) then s.requestedFrameRate else s.currentFrameRate
    ensures Step(s, e).requestedFrameRate == if Writes(e).Some? then Writes(e).value else s.requestedFrameRate
  {
    match e {
      case Build(_) =>
      case Request(_, _) =>
      case Parse =>
      case Parameter(_) =>
    }
  }

  /** The reply slot is filled by a send, emptied by a parse, and otherwise left alone. */
  lemma ReplyStep(s: State, e: Event)
    ensures SentBy(s, e).Some? ==> Waiting(Step(s, e)) == [CommandToRaw(SentBy(s, e).value)]
    ensures e.Parse? ==> !Step(s, e).replyReady
    ensures SentBy(s, e).None? && !e.Parse? ==> Waiting(Step(s, e)) == Waiting(s)
  {
    match e {
      case Build(_) =>
      case Request(_, _) =>
      case Parse =>
      case Parameter(_) =>
    }
  }

  // ----- the reply slot -----

  ghost predicate Consistent(s: State) {
    && (s.snapshotInProgress <==> s.replyReady && s.fabricatedReplyId == CommandToRaw(TakeSnapshot))
    && (s.replyReady ==> RawToCommand(s.fabricatedReplyId).Some?)
    && (s.replyReady ==> s.comIF)
  }

  lemma ConsistentStep(s: State, e: Event)
    requires Consistent(s)
    ensures Consistent(Step(s, e))
  {
    match e {
      case Build(_) =>
      case Request(_, _) =>
      case Parse =>
      case Parameter(_) =>
    }
  }

  /** Always, a waiting reply carries a command id, and a snapshot is in progress exactly when its reply waits. */
  lemma {:induction false} ReachableConsistent(comIF: bool, run: seq<Event>, n: nat)
    requires n <= |run|
    ensures Consistent(At(Initial(comIF), run, n))
  {
    if n > 0 {
      ReachableConsistent(comIF, run, n - 1);
      ConsistentStep(At(Initial(comIF), run, n - 1), run[n - 1]);
    }
  }

  /**
   Why scanning and interpreting must be one step: an interpretation that comes
   late, with whatever id, leaves a consistent slot exactly when no build refilled it.
   */
  lemma LateInterpretation(s: State, id: DeviceCommandId)
    requires Consistent(s)
    ensures Consistent(InterpretState(s, id)) <==> !s.replyReady
  {
  }

  /** A build between the scan and the interpretation of a Set reply: the Get reply is found without its id. */
  lemma InterleavedBuildLosesReply()
    ensures var run := [Request(2, Null(0)), Request(3, Null(0)), Build(true)];
            var scanned := ScanState(At(Initial(true), run, 3));
            var built := BuildState(scanned, true);
            && Sends(scanned, true) == Some(GetFrameRate)
            && Replies(InterpretState(built, CommandToRaw(SetFrameRate))) == Some(NO_COMMAND_ID)
  {
    var run := [Request(2, Null(0)), Request(3, Null(0)), Build(true)];
    assert At(Initial(true), run, 1) == Initial(true).(frameRateCommandPending := true);
    assert At(Initial(true), run, 2) == Initial(true).(frameRateCommandPending := true, frameRateQueryPending := true);
  }

  // ----- nothing asked for is lost: the coalescing account -----

  function AskedFor(run: seq<Event>, n: nat, c: Command): nat
    requires n <= |run|
  {
    if n == 0 then 0 else AskedFor(run, n - 1, c) + if Asks(run[n - 1], c) then 1 else 0
  }

  function SendCount(s: State, run: seq<Event>, n: nat, c: Command): nat
    requires n <= |run|
  {
    if n == 0 then 0 else SendCount(s, run, n - 1, c) + if SentAt(s, run, n - 1) == Some(c) then 1 else 0
  }

  /** Requests that found the same command already pending. */
  function Merged(s: State, run: seq<Event>, n: nat, c: Command): nat
    requires n <= |run|
  {
    if n == 0 then 0
    else Merged(s, run, n - 1, c) + if Asks(run[n - 1], c) && Pending(At(s, run, n - 1), c) then 1 else 0
  }

  function Flag(b: bool): nat { if b then 1 else 0 }

  lemma {:induction false} CoalescingAccount(s: State, run: seq<Event>, n: nat, c: Command)
    requires n <= |run|
    ensures Flag(Pending(s, c)) + AskedFor(run, n, c)
         == SendCount(s, run, n, c) + Merged(s, run, n, c) + Flag(Pending(At(s, run, n), c))
  {
    if n > 0 {
      CoalescingAccount(s, run, n - 1, c);
      PendingStep(At(s, run, n - 1), run[n - 1], c);
    }
  }

  // ----- every Get sees all earlier Sets -----

  /** A pending command stays pending until it is sent. */
  lemma {:induction false} PendingUntilSent(s: State, run: seq<Event>, i: nat, j: nat, c: Command)
    requires i <= j <= |run| && Pending(At(s, run, i), c)
    requires forall k :: i <= k < j ==> SentAt(s, run, k) != Some(c)
    ensures Pending(At(s, run, j), c)
  {
    if i < j {
      PendingUntilSent(s, run, i, j - 1, c);
      assert SentAt(s, run, j - 1) != Some(c);
      PendingStep(At(s, run, j - 1), run[j - 1], c);
    }
  }

  /** The rate most recently written by the first n calls, by a Set payload or a parameter write. */
  function LastWrite(initial: Rate, run: seq<Event>, n: nat): Rate
    requires n <= |run|
  {
    if n == 0 then initial
    else if Writes(run[n - 1]).Some? then Writes(run[n - 1]).value
    else LastWrite(initial, run, n - 1)
  }

  lemma {:induction false} RequestedIsLastWrite(s: State, run: seq<Event>, n: nat)
    requires n <= |run|
    ensures At(s, run, n).requestedFrameRate == LastWrite(s.requestedFrameRate, run, n)
  {
    if n > 0 {
      RequestedIsLastWrite(s, run, n - 1);
      RateStep(At(s, run, n - 1), run[n - 1]);
    }
  }

  ghost predicate LatestSet(s: State, run: seq<Event>, n: nat, k: nat)
    requires n <= |run|
  {
    && k < n
    && SentAt(s, run, k) == Some(SetFrameRate)
    && forall j :: k < j < n ==> SentAt(s, run, j) != Some(SetFrameRate)
  }

  lemma {:induction false} CurrentUntilSet(s: State, run: seq<Event>, i: nat, j: nat)
    requires i <= j <= |run|
    requires forall k :: i <= k < j ==> SentAt(s, run, k) != Some(SetFrameRate)
    ensures At(s, run, j).currentFrameRate == At(s, run, i).currentFrameRate
  {
    if i < j {
      CurrentUntilSet(s, run, i, j - 1);
      assert SentAt(s, run, j - 1) != Some(SetFrameRate);
      RateStep(At(s, run, j - 1), run[j - 1]);
    }
  }

  /** The current rate is the last rate written before the latest Set went out. */
  lemma CurrentIsLatched(s: State, run: seq<Event>, n: nat, k: nat)
    requires n <= |run| && LatestSet(s, run, n, k)
    ensures At(s, run, n).currentFrameRate == LastWrite(s.requestedFrameRate, run, k)
  {
    CurrentUntilSet(s, run, k + 1, n);
    RequestedIsLastWrite(s, run, k);
  }

  lemma CurrentIsInitialWithoutSet(s: State, run: seq<Event>, n: nat)
    requires n <= |run|
    requires forall k :: 0 <= k < n ==> SentAt(s, run, k) != Some(SetFrameRate)
    ensures At(s, run, n).currentFrameRate == s.currentFrameRate
  {
    CurrentUntilSet(s, run, 0, n);
  }

  lemma {:induction false} SetSentBefore(s: State, run: seq<Event>, i: nat, j: nat)
    requires i <= j <= |run|
    requires Pending(At(s, run, i), SetFrameRate) && !Pending(At(s, run, j), SetFrameRate)
    ensures exists k :: i <= k < j && LatestSet(s, run, j, k)
  {
    PendingStep(At(s, run, j - 1), run[j - 1], SetFrameRate);
    if SentAt(s, run, j - 1) == Some(SetFrameRate) {
      assert LatestSet(s, run, j, j - 1);
    } else if !Pending(At(s, run, j - 1), SetFrameRate) {
      SetSentBefore(s, run, i, j - 1);
      var k :| i <= k < j - 1 && LatestSet(s, run, j - 1, k);
      assert LatestSet(s, run, j, k);
    } else {
      assert false;
    }
  }

  /**
   When a Get goes out at call j, every Set asked for at an earlier call i has
   gone out in between, and the current rate is the last one written before the
   latest of those.
   */
  lemma GetSeesEarlierSets(s: State, run: seq<Event>, i: nat, j: nat)
    requires i < j < |run| && Asks(run[i], SetFrameRate) && SentAt(s, run, j) == Some(GetFrameRate)
    ensures exists k :: i < k < j && LatestSet(s, run, j, k)
                        && At(s, run, j).currentFrameRate == LastWrite(s.requestedFrameRate, run, k)
  {
    assert Pending(At(s, run, i + 1), SetFrameRate);
    SetSentBefore(s, run, i + 1, j);
    var k :| i + 1 <= k < j && LatestSet(s, run, j, k);
    CurrentIsLatched(s, run, j, k);
  }

  lemma {:induction false} LastWriteKept(initial: Rate, run: seq<Event>, i: nat, k: nat)
    requires i <= k <= |run|
    requires forall m :: i <= m < k ==> Writes(run[m]).None?
    ensures LastWrite(initial, run, k) == LastWrite(initial, run, i)
  {
    if i < k {
      LastWriteKept(initial, run, i, k - 1);
    }
  }

  /** A rate Set at call i and not written again before the Get at call j is the rate that Get finds. */
  lemma SetThenGet(s: State, run: seq<Event>, i: nat, j: nat)
    requires i < j < |run| && SentAt(s, run, j) == Some(GetFrameRate)
    requires Asks(run[i], SetFrameRate) && Writes(run[i]).Some?
    requires forall m :: i < m < j ==> Writes(run[m]).None?
    ensures At(s, run, j).currentFrameRate == Writes(run[i]).value
  {
    GetSeesEarlierSets(s, run, i, j);
    var k :| i < k < j && LatestSet(s, run, j, k)
             && At(s, run, j).currentFrameRate == LastWrite(s.requestedFrameRate, run, k);
    LastWriteKept(s.requestedFrameRate, run, i + 1, k);
  }

  /** The bytes of a Set request, if no other rate is written before the Get, are the rate that Get finds. */
  lemma PayloadThenGet(s: State, run: seq<Event>, i: nat, j: nat, bytes: seq<byte>)
    requires i < j < |run| && SentAt(s, run, j) == Some(GetFrameRate)
    requires run[i] == Request(2, Bytes(bytes)) && |bytes| >= 8
    requires forall m :: i < m < j ==> Writes(run[m]).None?
    ensures At(s, run, j).currentFrameRate == bytes[..8]
  {
    SetThenGet(s, run, i, j);
  }

  /** A Set request without usable bytes takes the rate that a parameter wrote before. */
  lemma ParameterThenGet(s: State, run: seq<Event>, i: nat, k: nat, j: nat,
                         wrapperGiven: bool, rate: Rate, data: Buffer)
    requires i < k < j < |run| && SentAt(s, run, j) == Some(GetFrameRate)
    requires run[i] == Parameter(Access(0, 1, wrapperGiven, Some(Element(OK, rate)), 0))
    requires run[k] == Request(2, data) && (data.Null? || |data.data| < 8)
    requires forall m :: i < m < j ==> Writes(run[m]).None?
    ensures At(s, run, j).currentFrameRate == rate
  {
    GetSeesEarlierSets(s, run, k, j);
    var t :| k < t < j && LatestSet(s, run, j, t)
             && At(s, run, j).currentFrameRate == LastWrite(s.requestedFrameRate, run, t);
    LastWriteKept(s.requestedFrameRate, run, i + 1, t);
  }

  /** A parse that follows a send, with nothing sent or parsed between, reports that command. */
  lemma ReplyReports(s: State, run: seq<Event>, j: nat, k: nat)
    requires j < k < |run| && SentAt(s, run, j).Some? && run[k].Parse?
    requires forall m :: j < m < k ==> SentAt(s, run, m).None? && !run[m].Parse?
    ensures Prints(At(s, run, k)) ==
            Some(match SentAt(s, run, j).value
                 case TakeSnapshot => SnapshotCompleted
                 case SetFrameRate => FrameRateSet(At(s, run, j).requestedFrameRate)
                 case GetFrameRate => FrameRateIs(At(s, run, j).currentFrameRate))
  {
    ReplyWaits(s, run, j, k);
    RateStep(At(s, run, j), run[j]);
    CurrentKept(s, run, j + 1, k);
  }

  lemma {:induction false} CurrentKept(s: State, run: seq<Event>, i: nat, k: nat)
    requires i <= k <= |run| && forall m :: i <= m < k ==> SentAt(s, run, m).None?
    ensures At(s, run, k).currentFrameRate == At(s, run, i).currentFrameRate
  {
    if i < k {
      CurrentKept(s, run, i, k - 1);
      assert SentAt(s, run, k - 1).None?;
      RateStep(At(s, run, k - 1), run[k - 1]);
    }
  }

  /** The rate a Get reply prints is the rate current when its command went out. */
  lemma GetReplyPrintsRate(s: State, run: seq<Event>, j: nat, k: nat)
    requires j < k < |run| && SentAt(s, run, j) == Some(GetFrameRate) && run[k].Parse?
    requires forall m :: j < m < k ==> SentAt(s, run, m).None? && !run[m].Parse?
    ensures Prints(At(s, run, k)) == Some(FrameRateIs(At(s, run, j).currentFrameRate))
  {
    ReplyWaits(s, run, j, k);
    CurrentUntilSet(s, run, j, k);
  }

  // ----- replies answer the commands sent -----

  lemma {:induction false} ReplyWaits(s: State, run: seq<Event>, j: nat, k: nat)
    requires j < k <= |run| && SentAt(s, run, j).Some?
    requires forall m :: j < m < k ==> SentAt(s, run, m).None? && !run[m].Parse?
    ensures Waiting(At(s, run, k)) == [CommandToRaw(SentAt(s, run, j).value)]
  {
    ReplyStep(At(s, run, k - 1), run[k - 1]);
    if j + 1 < k {
      ReplyWaits(s, run, j, k - 1);
      assert SentAt(s, run, k - 1).None?;
    }
  }

  /** a is what is left of b after deleting some elements. */
  predicate Subsequence<T(==)>(a: seq<T>, b: seq<T>)
  {
    if a == [] then true
    else if b == [] then false
    else if a[|a| - 1] == b[|b| - 1] && Subsequence(a[..|a| - 1], b[..|b| - 1]) then true
    else Subsequence(a, b[..|b| - 1])
  }

  lemma SubsequenceSnoc<T>(a: seq<T>, b: seq<T>, x: T)
    requires Subsequence(a, b)
    ensures Subsequence(a, b + [x]) && Subsequence(a + [x], b + [x])
  {
    assert (b + [x])[..|b|] == b;
    assert (a + [x])[..|a|] == a;
  }

  lemma {:induction false} SubsequenceInit<T>(a: seq<T>, b: seq<T>)
    requires a != [] && Subsequence(a, b)
    ensures Subsequence(a[..|a| - 1], b[..|b| - 1])
  {
    var b' := b[..|b| - 1];
    if !(a[|a| - 1] == b[|b| - 1] && Subsequence(a[..|a| - 1], b')) {
      SubsequenceInit(a, b');
      SubsequenceSnoc(a[..|a| - 1], b'[..|b'| - 1], b'[|b'| - 1]);
      assert b'[..|b'| - 1] + [b'[|b'| - 1]] == b';
    }
  }

  lemma {:induction false} SubsequenceLength<T>(a: seq<T>, b: seq<T>)
    requires Subsequence(a, b)
    ensures |a| <= |b| && (|a| == |b| ==> a == b)
  {
    if a != [] {
      if a[|a| - 1] == b[|b| - 1] && Subsequence(a[..|a| - 1], b[..|b| - 1]) {
        SubsequenceLength(a[..|a| - 1], b[..|b| - 1]);
        assert a == a[..|a| - 1] + [a[|a| - 1]] && b == b[..|b| - 1] + [b[|b| - 1]];
      } else {
        SubsequenceLength(a, b[..|b| - 1]);
      }
    }
  }

  /** Builds that send while an earlier reply still waits: they replace it. */
  function Overwrites(s: State, run: seq<Event>, n: nat): nat
    requires n <= |run|
  {
    if n == 0 then 0
    else Overwrites(s, run, n - 1) + Flag(SentAt(s, run, n - 1).Some? && At(s, run, n - 1).replyReady)
  }

  /** A new last element, in place of the element that waits, if any. */
  lemma SubsequenceReplace<T>(a: seq<T>, waiting: Option<T>, b: seq<T>, x: T)
    requires Subsequence(a + Listed(waiting), b)
    ensures Subsequence(a + [x], b + [x])
  {
    if waiting.Some? {
      var w := a + Listed(waiting);
      SubsequenceInit(w, b);
      assert w[..|w| - 1] == a;
      SubsequenceSnoc(a, b[..|b| - 1], b[|b| - 1]);
      assert b[..|b| - 1] + [b[|b| - 1]] == b;
    } else {
      assert a + [] == a;
    }
    SubsequenceSnoc(a, b, x);
  }

  lemma FollowStep(s: State, e: Event, r: seq<DeviceCommandId>, sent: seq<Command>)
    requires Subsequence(r + Waiting(s), Raws(sent))
    ensures var r' := r + (if e.Parse? then Waiting(s) else []) + Waiting(Step(s, e));
            var sent' := sent + Listed(SentBy(s, e));
            && Subsequence(r', Raws(sent'))
            && |sent'| - |r'| == |sent| - |r + Waiting(s)| + Flag(SentBy(s, e).Some? && s.replyReady)
  {
    ReplyStep(s, e);
    if SentBy(s, e).Some? {
      var c := SentBy(s, e).value;
      var raw: DeviceCommandId := CommandToRaw(c);
      assert Raws(sent + [c]) == Raws(sent) + [raw];
      SubsequenceReplace(r, Replies(s), Raws(sent), raw);
      assert r + (if e.Parse? then Waiting(s) else []) == r;
    } else {
      assert sent + [] == sent;
      assert r + (if e.Parse? then Waiting(s) else []) + Waiting(Step(s, e)) == r + Waiting(s);
    }
  }

  /** What is known of the replies after n calls: which commands they answer, and how many were replaced. */
  predicate Followed(s: State, run: seq<Event>, n: nat)
    requires n <= |run|
  {
    var replies := Replied(s, run, n) + Waiting(At(s, run, n));
    && Subsequence(replies, Raws(Sent(s, run, n)))
    && |Sent(s, run, n)| == |replies| + Overwrites(s, run, n)
  }

  lemma FollowAt(s: State, run: seq<Event>, n: nat)
    requires 0 < n <= |run| && Followed(s, run, n - 1)
    ensures Followed(s, run, n)
  {
    var t, e := At(s, run, n - 1), run[n - 1];
    FollowStep(t, e, Replied(s, run, n - 1), Sent(s, run, n - 1));
    assert At(s, run, n) == Step(t, e);
    assert Replied(s, run, n) == Replied(s, run, n - 1) + if e.Parse? then Waiting(t) else [];
    assert Sent(s, run, n) == Sent(s, run, n - 1) + Listed(SentBy(t, e));
    assert Overwrites(s, run, n) == Overwrites(s, run, n - 1) + Flag(SentBy(t, e).Some? && t.replyReady);
  }

  lemma {:induction false} FollowedAlways(comIF: bool, run: seq<Event>, n: nat)
    requires n <= |run|
    ensures Followed(Initial(comIF), run, n)
  {
    if n > 0 {
      FollowedAlways(comIF, run, n - 1);
      FollowAt(Initial(comIF), run, n);
    }
  }

  /**
   Replies, with the one still waiting, are the commands sent less those whose
   reply was replaced, each carrying its own id, in order.
   */
  lemma RepliesFollowCommands(comIF: bool, run: seq<Event>, n: nat)
    requires n <= |run|
    ensures var s := Initial(comIF);
            && Subsequence(Replied(s, run, n) + Waiting(At(s, run, n)), Raws(Sent(s, run, n)))
            && |Sent(s, run, n)| == |Replied(s, run, n) + Waiting(At(s, run, n))| + Overwrites(s, run, n)
  {
    FollowedAlways(comIF, run, n);
  }

  /** Between any two builds that send there is a parse. */
  ghost predicate ParsedBetween(s: State, run: seq<Event>, n: nat)
    requires n <= |run|
  {
    forall i, j :: 0 <= i < j < n && SentAt(s, run, i).Some? && SentAt(s, run, j).Some? ==>
      exists k :: i < k < j && run[k].Parse?
  }

  lemma {:induction false} ReadySince(comIF: bool, run: seq<Event>, n: nat)
    requires n <= |run| && At(Initial(comIF), run, n).replyReady
    ensures exists i :: 0 <= i < n && SentAt(Initial(comIF), run, i).Some? && forall k :: i < k < n ==> !run[k].Parse?
  {
    var s := Initial(comIF);
    ReplyStep(At(s, run, n - 1), run[n - 1]);
    if SentAt(s, run, n - 1).Some? {
    } else {
      ReadySince(comIF, run, n - 1);
    }
  }

  lemma {:induction false} ParsedMeansNotReady(s: State, run: seq<Event>, i: nat, j: nat)
    requires i < j < |run| && run[i].Parse?
    requires forall k :: i < k < j ==> SentAt(s, run, k).None?
    ensures !At(s, run, j).replyReady
  {
    if i + 1 < j {
      ParsedMeansNotReady(s, run, i, j - 1);
      assert SentAt(s, run, j - 1).None?;
      ReplyStep(At(s, run, j - 1), run[j - 1]);
    }
  }

  lemma {:induction false} OverwritesIffUnparsed(comIF: bool, run: seq<Event>, n: nat)
    requires n <= |run|
    ensures Overwrites(Initial(comIF), run, n) == 0 <==> ParsedBetween(Initial(comIF), run, n)
  {
    var s := Initial(comIF);
    if n > 0 {
      OverwritesIffUnparsed(comIF, run, n - 1);
      if SentAt(s, run, n - 1).Some? {
        if At(s, run, n - 1).replyReady {
          ReadySince(comIF, run, n - 1);
          var i :| 0 <= i < n - 1 && SentAt(s, run, i).Some? && forall k :: i < k < n - 1 ==> !run[k].Parse?;
          assert !ParsedBetween(s, run, n);
        } else {
          forall i | 0 <= i < n - 1 && SentAt(s, run, i).Some?
            ensures exists k :: i < k < n - 1 && run[k].Parse?
          {
            if forall k :: i < k < n - 1 ==> !run[k].Parse? {
              ReadyUnlessParsed(s, run, i, n - 1);
            }
          }
        }
      }
    }
  }

  lemma {:induction false} ReadyUnlessParsed(s: State, run: seq<Event>, i: nat, j: nat)
    requires i < j <= |run| && SentAt(s, run, i).Some?
    requires forall k :: i < k < j ==> !run[k].Parse?
    ensures At(s, run, j).replyReady
  {
    ReplyStep(At(s, run, j - 1), run[j - 1]);
    if i + 1 < j {
      ReadyUnlessParsed(s, run, i, j - 1);
    }
  }

  /** Each command sent has exactly one reply, found or waiting, in order, iff a parse separates any two sends. */
  lemma EveryCommandAnswered(comIF: bool, run: seq<Event>, n: nat)
    requires n <= |run|
    ensures var s := Initial(comIF);
            Replied(s, run, n) + Waiting(At(s, run, n)) == Raws(Sent(s, run, n)) <==> ParsedBetween(s, run, n)
  {
    var s := Initial(comIF);
    RepliesFollowCommands(comIF, run, n);
    OverwritesIffUnparsed(comIF, run, n);
    SubsequenceLength(Replied(s, run, n) + Waiting(At(s, run, n)), Raws(Sent(s, run, n)));
  }

  // ----- bounded response under the fixed priority -----

  function Rank(c: Command): nat {
    match c
    case TakeSnapshot => 0
    case SetFrameRate => 1
    case GetFrameRate => 2
  }

  /** How many commands of higher priority are pending. */
  function Ahead(s: State, c: Command): nat {
    Flag(Rank(c) > 0 && s.snapshotRequested) + Flag(Rank(c) > 1 && s.frameRateCommandPending)
  }

  predicate AsksAhead(e: Event, c: Command) {
    e.Request? && RawToCommand(e.id).Some? && Rank(RawToCommand(e.id).value) < Rank(c)
  }

  /** How many of the first n calls ask for a command of higher priority. */
  function AskedAhead(run: seq<Event>, n: nat, c: Command): nat
    requires n <= |run|
  {
    if n == 0 then 0
    else AskedAhead(run, n - 1, c)
         + Flag(AsksAhead(run[n - 1], c))
  }

  function Builds(run: seq<Event>, n: nat): nat
    requires n <= |run|
  {
    if n == 0 then 0 else Builds(run, n - 1) + Flag(run[n - 1] == Build(true))
  }

  lemma {:induction false} StepKeepsComIF(s: State, run: seq<Event>, n: nat)
    requires n <= |run|
    ensures At(s, run, n).comIF == s.comIF
  {
    if n > 0 {
      StepKeepsComIF(s, run, n - 1);
      PendingStep(At(s, run, n - 1), run[n - 1], TakeSnapshot);
    }
  }

  lemma OvertakenStep(s: State, e: Event, c: Command)
    requires s.comIF && Pending(s, c) && SentBy(s, e) != Some(c)
    ensures Pending(Step(s, e), c)
    ensures Ahead(Step(s, e), c) + Flag(e == Build(true)) <= Ahead(s, c) + Flag(AsksAhead(e, c))
  {
    forall d { PendingStep(s, e, d); }
    HighestGoesOut(s, e, c);
    assert forall d :: Asks(e, d) && Rank(d) < Rank(c) ==> AsksAhead(e, c);
    var k := SentBy(s, e);
    if k.Some? {
      assert Rank(k.value) < Rank(c);
    }
  }

  lemma {:induction false} OvertakenAtMost(s: State, run: seq<Event>, n: nat, c: Command)
    requires n <= |run| && s.comIF && Pending(s, c)
    requires forall j :: 0 <= j < n ==> SentAt(s, run, j) != Some(c)
    ensures Pending(At(s, run, n), c)
    ensures Builds(run, n) + Ahead(At(s, run, n), c) <= Ahead(s, c) + AskedAhead(run, n, c)
  {
    if n > 0 {
      OvertakenAtMost(s, run, n - 1, c);
      StepKeepsComIF(s, run, n - 1);
      assert SentAt(s, run, n - 1) != Some(c);
      OvertakenStep(At(s, run, n - 1), run[n - 1], c);
    }
  }

  /**
   A pending command goes out by build number Rank + 1 + m, where m counts the
   requests of higher priority made meanwhile.
   */
  lemma BoundedResponse(s: State, run: seq<Event>, n: nat, c: Command)
    requires n <= |run| && s.comIF && Pending(s, c)
    requires Builds(run, n) >= Rank(c) + 1 + AskedAhead(run, n, c)
    ensures exists j :: 0 <= j < n && SentAt(s, run, j) == Some(c)
  {
    if forall j :: 0 <= j < n ==> SentAt(s, run, j) != Some(c) {
      OvertakenAtMost(s, run, n, c);
    }
  }

  const BUSY :=
    Initial(true).(snapshotRequested := true, frameRateCommandPending := true, frameRateQueryPending := true)

  /** Builds for what is ahead already, then m times a snapshot request and a build. */
  function Overtaking(c: Command, m: nat): seq<Event> {
    seq(Rank(c) + 2 * m, i => if i < Rank(c) || (i - Rank(c)) % 2 == 1 then Build(true) else Request(1, Null(0)))
  }

  /** Everything ahead has gone out, the command itself has not. */
  predicate Overtaken(s: State, c: Command) {
    s.comIF && !s.snapshotRequested && (s.frameRateCommandPending <==> c == SetFrameRate) && s.frameRateQueryPending
  }

  predicate OvertakenFor(run: seq<Event>, n: nat, c: Command, rounds: nat)
    requires n <= |run|
  {
    && AskedAhead(run, n, c) == rounds && Builds(run, n) == Rank(c) + rounds
    && (forall j :: 0 <= j < n ==> SentAt(BUSY, run, j) != Some(c))
    && Overtaken(At(BUSY, run, n), c)
  }

  lemma OvertakingStarts(c: Command, run: seq<Event>)
    requires c != TakeSnapshot && |run| >= Rank(c) && forall i :: 0 <= i < Rank(c) ==> run[i] == Build(true)
    ensures OvertakenFor(run, Rank(c), c, 0)
  {
    var one := BuildState(BUSY, true);
    assert At(BUSY, run, 1) == one;
    assert AskedAhead(run, 0, c) == 0 && Builds(run, 0) == 0;
    assert AskedAhead(run, 1, c) == 0 && Builds(run, 1) == 1;
    if c == GetFrameRate {
      assert At(BUSY, run, 2) == BuildState(one, true);
    }
  }

  lemma OvertakingGoesOn(c: Command, run: seq<Event>, n: nat, rounds: nat)
    requires n + 2 <= |run| && OvertakenFor(run, n, c, rounds) && c != TakeSnapshot
    requires run[n] == Request(1, Null(0)) && run[n + 1] == Build(true)
    ensures OvertakenFor(run, n + 2, c, rounds + 1)
  {
    var s := At(BUSY, run, n).(snapshotRequested := true);
    assert At(BUSY, run, n + 1) == s;
    assert At(BUSY, run, n + 2) == BuildState(s, true);
    assert AskedAhead(run, n + 1, c) == rounds + 1 && Builds(run, n + 1) == Rank(c) + rounds;
  }

  predicate IsOvertaking(run: seq<Event>, c: Command, m: nat) {
    && |run| == Rank(c) + 2 * m
    && (forall i :: 0 <= i < Rank(c) ==> run[i] == Build(true))
    && (forall r :: 0 <= r < m ==> OvertakingRound(run, Rank(c) + 2 * r))
  }

  predicate OvertakingRound(run: seq<Event>, n: nat) {
    n + 1 < |run| && run[n] == Request(1, Null(0)) && run[n + 1] == Build(true)
  }

  lemma OvertakingIsOvertaking(c: Command, m: nat)
    ensures IsOvertaking(Overtaking(c, m), c, m)
  {
  }

  lemma {:induction false} OvertakingRounds(c: Command, run: seq<Event>, m: nat, rounds: nat)
    requires c != TakeSnapshot && rounds <= m && IsOvertaking(run, c, m)
    ensures OvertakenFor(run, Rank(c) + 2 * rounds, c, rounds)
  {
    if rounds == 0 {
      OvertakingStarts(c, run);
    } else {
      OvertakingRounds(c, run, m, rounds - 1);
      var n := Rank(c) + 2 * (rounds - 1);
      assert OvertakingRound(run, n);
      OvertakingGoesOn(c, run, n, rounds - 1);
    }
  }

  /** The bound is exact for every m: after Rank + m builds the command may still be waiting. */
  lemma BoundIsTight(c: Command, m: nat)
    requires c != TakeSnapshot
    ensures exists run ::
      && Pending(BUSY, c) && AskedAhead(run, |run|, c) == m && Builds(run, |run|) == Rank(c) + m
      && forall j :: 0 <= j < |run| ==> SentAt(BUSY, run, j) != Some(c)
  {
    var run := Overtaking(c, m);
    OvertakingIsOvertaking(c, m);
    OvertakingRounds(c, run, m, m);
    assert AskedAhead(run, |run|, c) == m;
  }

  function PendingCount(s: State): nat {
    Flag(s.snapshotRequested) + Flag(s.frameRateCommandPending) + Flag(s.frameRateQueryPending)
  }

  lemma DrainStep(s: State, e: Event)
    requires s.comIF && !(e.Request? && RawToCommand(e.id).Some?)
    ensures PendingCount(Step(s, e)) ==
            if e == Build(true) && PendingCount(s) > 0 then PendingCount(s) - 1 else PendingCount(s)
  {
  }

  lemma {:induction false} BuildsDrain(s: State, run: seq<Event>, n: nat)
    requires n <= |run| && s.comIF
    requires forall i :: 0 <= i < n ==> !(run[i].Request? && RawToCommand(run[i].id).Some?)
    ensures PendingCount(At(s, run, n)) ==
            if PendingCount(s) >= Builds(run, n) then PendingCount(s) - Builds(run, n) else 0
  {
    if n > 0 {
      BuildsDrain(s, run, n - 1);
      StepKeepsComIF(s, run, n - 1);
      DrainStep(At(s, run, n - 1), run[n - 1]);
    }
  }

  /** With no new requests three builds leave nothing pending, whatever else happens. */
  lemma ThreeBuildsEmpty(s: State, run: seq<Event>, n: nat, c: Command)
    requires n <= |run| && s.comIF && Builds(run, n) >= 3
    requires forall i :: 0 <= i < n ==> !(run[i].Request? && RawToCommand(run[i].id).Some?)
    ensures !Pending(At(s, run, n), c)
  {
    BuildsDrain(s, run, n);
  }
}
