/**
 A sender and a receiver that share a queue of integers under one lock, each
 in an endless loop, interleaved step by step in any order. The receiver reads
 the back of the queue and removes its front.
 */
module IntQueue {
  const WRAP := 0x1_0000_0000

  /** The int a 32-bit unsigned count becomes when it is pushed. */
  function AsInt(count: nat): int {
    var c := count % WRAP;
    if c < 0x8000_0000 then c else c - WRAP
  }

  lemma AsIntEqual(a: nat, b: nat)
    ensures AsInt(a) == AsInt(b) <==> a % WRAP == b % WRAP
  {
  }

  datatype Thread = Sender | Receiver

  datatype SenderPc = SSleeping | SLocked | SIncremented | SPushed | SUnlocked
  datatype ReceiverPc = RSleeping | RLocked | RNonEmpty | RRead | RDone | RUnlocked

  /** A read of the back: how many values had been pushed and how many were queued then. */
  datatype Read = Read(pushed: nat, queued: nat)

  datatype State = State(
    queue: seq<int>,
    sentInts: nat,               // the 32-bit counter
    locked: bool,
    sender: SenderPc,
    receiver: ReceiverPc,
    optInt: seq<int>,            // what the receiver holds: nothing or one value
    announced: seq<nat>,         // printed by the sender
    received: seq<int>,          // printed by the receiver
    pushed: nat,                 // history: values pushed
    readLog: seq<Read>)            // history: successful reads

  const START := State([], 0, false, SSleeping, RSleeping, [], [], [], 0, [])

  function SenderStep(s: State): State {
    match s.sender
    case SSleeping => if s.locked then s else s.(locked := true, sender := SLocked)
    case SLocked => s.(sentInts := (s.sentInts + 1) % WRAP, sender := SIncremented)
    case SIncremented => s.(queue := s.queue + [AsInt(s.sentInts)], pushed := s.pushed + 1, sender := SPushed)
    case SPushed => s.(locked := false, sender := SUnlocked)
    case SUnlocked => s.(announced := s.announced + [s.sentInts], sender := SSleeping)
  }

  function ReceiverStep(s: State): State {
    match s.receiver
    case RSleeping => if s.locked then s else s.(locked := true, receiver := RLocked)
    case RLocked => s.(receiver := if s.queue == [] then RDone else RNonEmpty)
    case RNonEmpty =>
      if s.queue == [] then s
      else s.(optInt := [s.queue[|s.queue| - 1]], readLog := s.readLog + [Read(s.pushed, |s.queue|)], receiver := RRead)
    case RRead => if s.queue == [] then s else s.(queue := s.queue[1..], receiver := RDone)
    case RDone => s.(locked := false, receiver := RUnlocked)
    case RUnlocked => s.(received := s.received + s.optInt, optInt := [], receiver := RSleeping)
  }

  function Step(s: State, t: Thread): State {
    match t
    case Sender => SenderStep(s)
    case Receiver => ReceiverStep(s)
  }

  function After(schedule: seq<Thread>, n: nat): State
    requires n <= |schedule|
  {
    if n == 0 then START else Step(After(schedule, n - 1), schedule[n - 1])
  }

  class Program {
    var queue: seq<int>
    var sentInts: nat
    var locked: bool
    var sender: SenderPc
    var receiver: ReceiverPc
    var optInt: seq<int>
    var announced: seq<nat>
    var received: seq<int>
    ghost var pushed: nat
    ghost var readLog: seq<Read>

    constructor ()
      ensures View() == START
    {
      queue, sentInts, locked, sender, receiver := [], 0, false, SSleeping, RSleeping;
      optInt, announced, received, pushed, readLog := [], [], [], 0, [];
    }

    ghost function View(): State
      reads this
    {
      State(queue, sentInts, locked, sender, receiver, optInt, announced, received, pushed, readLog)
    }

    method IntSender()
      modifies this
      ensures View() == SenderStep(old(View()))
    {
      match sender {
        case SSleeping =>
          if !locked {
            locked := true;
            sender := SLocked;
          }
        case SLocked =>
          sentInts := (sentInts + 1) % WRAP;
          sender := SIncremented;
        case SIncremented =>
          queue := queue + [AsInt(sentInts)];
          pushed := pushed + 1;
          sender := SPushed;
        case SPushed =>
          locked := false;
          sender := SUnlocked;
        case SUnlocked =>
          announced := announced + [sentInts];
          sender := SSleeping;
      }
    }

    method IntReceiver()
      requires receiver in {RNonEmpty, RRead} ==> queue != []
      modifies this
      ensures View() == ReceiverStep(old(View()))
    {
      match receiver {
        case RSleeping =>
          if !locked {
            locked := true;
            receiver := RLocked;
          }
        case RLocked =>
          if queue != [] {
            receiver := RNonEmpty;
          } else {
            receiver := RDone;
          }
        case RNonEmpty =>
          readLog := readLog + [Read(pushed, |queue|)];
          optInt := [queue[|queue| - 1]];
          receiver := RRead;
        case RRead =>
          queue := queue[1..];
          receiver := RDone;
        case RDone =>
          locked := false;
          receiver := RUnlocked;
        case RUnlocked =>
          received := received + optInt;
          optInt := [];
          receiver := RSleeping;
      }
    }
  }

  /** Runs the program under a schedule; in particular no step reads or pops an empty queue. */
  method Execute(schedule: seq<Thread>) returns (announced: seq<nat>, received: seq<int>)
    ensures announced == After(schedule, |schedule|).announced
    ensures received == After(schedule, |schedule|).received
  {
    var p := new Program();
    for i := 0 to |schedule|
      invariant p.View() == After(schedule, i)
    {
      match schedule[i] {
        case Sender =>
          p.IntSender();
        case Receiver =>
          ReachableInv(schedule, i);
          p.IntReceiver();
      }
    }
    announced, received := p.announced, p.received;
  }

  // ----- invariants under every interleaving -----

  predicate SenderInside(s: State) {
    s.sender in {SLocked, SIncremented, SPushed}
  }

  predicate ReceiverInside(s: State) {
    s.receiver in {RLocked, RNonEmpty, RRead, RDone}
  }

  /** Values removed from the front so far. */
  function Popped(s: State): int {
    if s.receiver == RRead then |s.readLog| - 1 else |s.readLog|
  }

  ghost predicate LockInv(s: State) {
    && (s.locked <==> SenderInside(s) || ReceiverInside(s))
    && !(SenderInside(s) && ReceiverInside(s))
    && (s.receiver in {RNonEmpty, RRead} ==> s.queue != [])
  }

  /** The queue is the run of consecutive numbers up to the last one pushed. */
  ghost predicate QueueInv(s: State) {
    && s.pushed == Popped(s) + |s.queue|
    && (forall i :: 0 <= i < |s.queue| ==> s.queue[i] == AsInt(Popped(s) + 1 + i))
    && s.sentInts == (if s.sender == SIncremented then s.pushed + 1 else s.pushed) % WRAP
  }

  ghost predicate ReadsInv(s: State) {
    && (forall k :: 0 <= k < |s.readLog| ==>
          && s.readLog[k].pushed == k + s.readLog[k].queued
          && 1 <= s.readLog[k].queued && s.readLog[k].pushed <= s.pushed)
    && (forall j, k :: 0 <= j < k < |s.readLog| ==> s.readLog[j].pushed <= s.readLog[k].pushed)
    && |Held(s)| == |s.readLog|
    && (s.receiver in {RSleeping, RLocked, RNonEmpty} ==> s.optInt == [])
    && (s.receiver == RRead ==> s.optInt != [])
    && forall k :: 0 <= k < |s.readLog| ==> Held(s)[k] == AsInt(s.readLog[k].pushed)
  }

  /** Values the receiver has printed or is about to print. */
  function Held(s: State): seq<int> {
    s.received + s.optInt
  }

  ghost predicate Inv(s: State) {
    LockInv(s) && QueueInv(s) && ReadsInv(s)
  }

  lemma SenderKeepsQueue(s: State)
    requires LockInv(s) && QueueInv(s)
    ensures LockInv(SenderStep(s)) && QueueInv(SenderStep(s))
  {
    match s.sender {
      case SSleeping =>
      case SLocked => assert SenderStep(s).sentInts == (s.pushed + 1) % WRAP;
      case SIncremented => assert AsInt(s.sentInts) == AsInt(s.pushed + 1);
      case SPushed =>
      case SUnlocked =>
    }
  }

  lemma SenderKeepsReads(s: State)
    requires ReadsInv(s)
    ensures ReadsInv(SenderStep(s))
  {
    var r := SenderStep(s);
    assert r.readLog == s.readLog && r.received == s.received && r.optInt == s.optInt && r.receiver == s.receiver;
    assert r.pushed >= s.pushed;
  }

  lemma ReceiverKeepsQueue(s: State)
    requires LockInv(s) && QueueInv(s) && (s.receiver == RRead ==> s.readLog != [])
    ensures LockInv(ReceiverStep(s)) && QueueInv(ReceiverStep(s))
  {
    if s.receiver == RRead {
      assert ReceiverStep(s).queue == s.queue[1..];
    }
  }

  lemma ReceiverKeepsReads(s: State)
    requires Inv(s)
    ensures ReadsInv(ReceiverStep(s))
  {
    if s.receiver == RNonEmpty {
      assert s.queue[|s.queue| - 1] == AsInt(s.pushed);
      assert Held(ReceiverStep(s)) == Held(s) + [AsInt(s.pushed)];
    } else {
      assert Held(ReceiverStep(s)) == Held(s);
    }
  }

  lemma StepKeepsInv(s: State, t: Thread)
    requires Inv(s)
    ensures Inv(Step(s, t))
  {
    match t {
      case Sender =>
        SenderKeepsQueue(s);
        SenderKeepsReads(s);
      case Receiver =>
        ReceiverKeepsQueue(s);
        ReceiverKeepsReads(s);
    }
  }

  lemma {:induction false} ReachableInv(schedule: seq<Thread>, n: nat)
    requires n <= |schedule|
    ensures Inv(After(schedule, n))
  {
    if n > 0 {
      ReachableInv(schedule, n - 1);
      StepKeepsInv(After(schedule, n - 1), schedule[n - 1]);
    }
  }

  /** The two threads are never both inside. */
  lemma MutualExclusion(schedule: seq<Thread>, n: nat)
    requires n <= |schedule|
    ensures !(SenderInside(After(schedule, n)) && ReceiverInside(After(schedule, n)))
  {
    ReachableInv(schedule, n);
  }

  /** With the lock free, the queue is the numbers from the first one not removed to the last one pushed. */
  lemma FreeQueue(schedule: seq<Thread>, n: nat, i: nat)
    requires n <= |schedule| && !After(schedule, n).locked
    ensures var s := After(schedule, n);
            && s.sentInts == s.pushed % WRAP && s.pushed == |s.readLog| + |s.queue|
            && (i < |s.queue| ==> s.queue[i] == AsInt(s.pushed - |s.queue| + 1 + i))
  {
    ReachableInv(schedule, n);
  }

  lemma HeldDelivered(s: State, k: nat)
    requires ReadsInv(s) && k < |s.received|
    ensures k < |s.readLog| && s.received[k] == AsInt(s.readLog[k].pushed)
    ensures k + 1 <= s.readLog[k].pushed <= s.pushed && s.readLog[k].pushed == k + s.readLog[k].queued
  {
    assert Held(s)[k] == s.received[k];
  }

  /** What is delivered: the k-th value received is the number pushed when it was read, which is at least k. */
  lemma DeliversLatest(schedule: seq<Thread>, n: nat, k: nat)
    requires n <= |schedule| && k < |After(schedule, n).received|
    ensures var s := After(schedule, n);
            && k < |s.readLog| && s.received[k] == AsInt(s.readLog[k].pushed)
            && k + 1 <= s.readLog[k].pushed <= s.pushed && s.readLog[k].pushed == k + s.readLog[k].queued
  {
    ReachableInv(schedule, n);
    HeldDelivered(After(schedule, n), k);
  }

  lemma ReceivedNeverDecreases(s: State, j: nat, k: nat)
    requires ReadsInv(s) && j < k < |s.received| && s.pushed < 0x8000_0000
    ensures s.received[j] <= s.received[k]
  {
    HeldDelivered(s, j);
    HeldDelivered(s, k);
  }

  /** The values received never decrease while the count fits an int. */
  lemma NeverDecreases(schedule: seq<Thread>, n: nat, j: nat, k: nat)
    requires n <= |schedule| && j < k < |After(schedule, n).received| && After(schedule, n).pushed < 0x8000_0000
    ensures After(schedule, n).received[j] <= After(schedule, n).received[k]
  {
    ReachableInv(schedule, n);
    ReceivedNeverDecreases(After(schedule, n), j, k);
  }

  /** Values are received as they were sent. */
  ghost predicate InOrder(received: seq<int>) {
    forall k :: 0 <= k < |received| ==> received[k] == AsInt(k + 1)
  }

  lemma ReceivedInOrderIff(s: State)
    requires ReadsInv(s)
    ensures |s.received| <= |s.readLog|
    ensures InOrder(s.received) <==> forall k :: 0 <= k < |s.received| ==> s.readLog[k].queued % WRAP == 1
  {
    forall k | 0 <= k < |s.received|
      ensures s.received[k] == AsInt(k + 1) <==> s.readLog[k].queued % WRAP == 1
    {
      HeldDelivered(s, k);
      AsIntEqual(s.readLog[k].pushed, k + 1);
    }
  }

  /**
   The receiver gets the values in the order sent if and only if each of its
   reads found exactly one value queued, counted modulo the counter's wrap.
   */
  lemma InOrderIff(schedule: seq<Thread>, n: nat)
    requires n <= |schedule|
    ensures var s := After(schedule, n);
            && |s.received| <= |s.readLog|
            && (InOrder(s.received) <==> forall k :: 0 <= k < |s.received| ==> s.readLog[k].queued % WRAP == 1)
  {
    ReachableInv(schedule, n);
    ReceivedInOrderIff(After(schedule, n));
  }

  // ----- an undisturbed round of each loop -----

  function Steps(s: State, t: Thread, n: nat): State {
    if n == 0 then s else Step(Steps(s, t, n - 1), t)
  }

  lemma SenderRound(s: State)
    requires !s.locked && s.sender == SSleeping
    ensures var c := (s.sentInts + 1) % WRAP;
            Steps(s, Sender, 5) == s.(queue := s.queue + [AsInt(c)], sentInts := c, pushed := s.pushed + 1,
                                      announced := s.announced + [c])
  {
    var c := (s.sentInts + 1) % WRAP;
    var s1 := s.(locked := true, sender := SLocked);
    var s2 := s1.(sentInts := c, sender := SIncremented);
    var s3 := s2.(queue := s.queue + [AsInt(c)], pushed := s.pushed + 1, sender := SPushed);
    var s4 := s3.(locked := false, sender := SUnlocked);
    assert SenderStep(s) == s1 && SenderStep(s1) == s2 && SenderStep(s2) == s3 && SenderStep(s3) == s4;
    assert Steps(s, Sender, 1) == s1;
    assert Steps(s, Sender, 2) == s2;
    assert Steps(s, Sender, 3) == s3;
    assert Steps(s, Sender, 4) == s4;
  }

  lemma ReceiverRound(s: State)
    requires !s.locked && s.receiver == RSleeping && s.optInt == [] && s.queue != []
    ensures Steps(s, Receiver, 6) == s.(queue := s.queue[1..], received := s.received + [s.queue[|s.queue| - 1]],
                                        readLog := s.readLog + [Read(s.pushed, |s.queue|)])
  {
    var s2 := s.(locked := true, receiver := RNonEmpty);
    var s3 := s2.(optInt := [s.queue[|s.queue| - 1]], readLog := s.readLog + [Read(s.pushed, |s.queue|)],
                  receiver := RRead);
    assert Steps(s, Receiver, 1) == s.(locked := true, receiver := RLocked);
    assert Steps(s, Receiver, 2) == s2;
    assert Steps(s, Receiver, 3) == s3;
    assert Steps(s, Receiver, 4) == s3.(queue := s.queue[1..], receiver := RDone);
    assert Steps(s, Receiver, 5) == s3.(queue := s.queue[1..], locked := false, receiver := RUnlocked);
  }

  /** With nothing queued, four steps of the receiver alone receive nothing and free the lock. */
  lemma EmptyRound(s: State)
    requires !s.locked && s.receiver == RSleeping && s.optInt == [] && s.queue == []
    ensures Steps(s, Receiver, 4) == s
  {
    assert Steps(s, Receiver, 1) == s.(locked := true, receiver := RLocked);
    assert Steps(s, Receiver, 2) == s.(locked := true, receiver := RDone);
    assert Steps(s, Receiver, 3) == s.(receiver := RUnlocked);
    assert s.received + [] == s.received;
  }

  /** In every reachable state a thread's step changes nothing if and only if it sleeps while the lock is held. */
  lemma WaitsIff(schedule: seq<Thread>, n: nat, t: Thread)
    requires n <= |schedule|
    ensures var s := After(schedule, n);
            Step(s, t) == s <==> s.locked && (if t == Sender then s.sender == SSleeping else s.receiver == RSleeping)
  {
    ReachableInv(schedule, n);
  }

  /** A stretch of a schedule that is one thread's alone. */
  lemma {:induction false} AfterStretch(schedule: seq<Thread>, n: nat, t: Thread, k: nat)
    requires n + k <= |schedule| && forall i :: n <= i < n + k ==> schedule[i] == t
    ensures After(schedule, n + k) == Steps(After(schedule, n), t, k)
  {
    if k > 0 {
      AfterStretch(schedule, n, t, k - 1);
    }
  }

  /** The sender goes round twice, then the receiver does. */
  const EAGER_SENDER: seq<Thread> := seq(22, i => if i < 10 then Sender else Receiver)

  const TWO_SENT := START.(queue := [1, 2], sentInts := 2, pushed := 2, announced := [1, 2])

  lemma EagerSends()
    ensures After(EAGER_SENDER, 10) == TWO_SENT
  {
    var one := START.(queue := [1], sentInts := 1, pushed := 1, announced := [1]);
    AfterStretch(EAGER_SENDER, 0, Sender, 5);
    SenderRound(START);
    assert After(EAGER_SENDER, 5) == one;
    AfterStretch(EAGER_SENDER, 5, Sender, 5);
    SenderRound(one);
  }

  lemma LateReads()
    ensures After(EAGER_SENDER, 22).received == [2, 2]
  {
    var read := TWO_SENT.(queue := [2], received := [2], readLog := [Read(2, 2)]);
    EagerSends();
    AfterStretch(EAGER_SENDER, 10, Receiver, 6);
    ReceiverRound(TWO_SENT);
    assert After(EAGER_SENDER, 16) == read;
    AfterStretch(EAGER_SENDER, 16, Receiver, 6);
    ReceiverRound(read);
  }

  /** On this schedule the first value never reaches the receiver and the second arrives twice. */
  lemma OutOfOrder()
    ensures After(EAGER_SENDER, |EAGER_SENDER|).received == [2, 2]
    ensures !InOrder(After(EAGER_SENDER, |EAGER_SENDER|).received)
  {
    LateReads();
    assert After(EAGER_SENDER, 22).received[0] == 2;
  }

  // ----- what the sender prints -----

  ghost predicate AnnounceInv(s: State) {
    && |s.announced| == s.pushed - (if s.sender in {SPushed, SUnlocked} then 1 else 0)
    && forall i :: 0 <= i < |s.announced| ==> s.announced[i] == (i + 1) % WRAP
  }

  lemma AnnounceStep(s: State, t: Thread)
    requires Inv(s) && AnnounceInv(s)
    ensures AnnounceInv(Step(s, t))
  {
    match t {
      case Sender =>
      case Receiver =>
    }
  }

  lemma {:induction false} AnnounceReachable(schedule: seq<Thread>, n: nat)
    requires n <= |schedule|
    ensures AnnounceInv(After(schedule, n))
  {
    if n > 0 {
      AnnounceReachable(schedule, n - 1);
      ReachableInv(schedule, n - 1);
      AnnounceStep(After(schedule, n - 1), schedule[n - 1]);
    }
  }

  /** What the sender announces, outside the lock, is 1, 2, 3, ... nevertheless. */
  lemma AnnouncesCount(schedule: seq<Thread>, n: nat, i: nat)
    requires n <= |schedule| && i < |After(schedule, n).announced|
    ensures After(schedule, n).announced[i] == (i + 1) % WRAP
  {
    AnnounceReachable(schedule, n);
  }
}
