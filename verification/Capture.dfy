/**
 The V4L2 snapshot program: opening a camera and mapping its buffers, taking
 snapshots, shutting down. The driver's and the kernel's decisions arrive as
 answers; what they hold (mappings, queued buffers, streaming) is state.
 */
module Capture {
  import opened Fsfw
  import Yuyv

  type Address = int
  const NULL: Address := 0
  const MAP_FAILED: Address := -1

  datatype Frame = Frame(start: Address, length: nat)
  const NO_FRAME := Frame(NULL, 0)

  datatype PixelFormat = Mjpeg | Jpeg | YuyvFormat | OtherFormat
  datatype Format = Format(pixelFormat: PixelFormat, width: nat, height: nat)
  const NO_FORMAT := Format(OtherFormat, 0, 0)

  /** The camera (fd, format, bufs) and what driver and kernel hold for it. */
  datatype World = World(
    fd: int, format: Format, bufs: seq<Frame>,
    mapped: map<Address, nat>, queued: set<nat>, streaming: bool)

  /** Per buffer: its length or a failed query, the address mmap would pick, whether the driver queues it. */
  datatype BufferAnswer = BufferAnswer(length: Option<nat>, address: Address, queues: bool)

  datatype StartupAnswers = StartupAnswers(
    fd: Option<nat>, current: Option<Format>, adjusted: Format,
    count: Option<nat>, buffers: nat -> BufferAnswer, streams: bool)

  /** The index the driver would hand out, whether it takes it back, whether the file opens. */
  datatype ShotAnswers = ShotAnswers(index: nat, requeues: bool, opens: bool)

  // ----- the kernel -----

  /** mmap succeeds for a positive length at an address that is free. */
  function MmapResult(mapped: map<Address, nat>, address: Address, length: nat): Address {
    if length > 0 && address > 0 && address !in mapped then address else MAP_FAILED
  }

  function AfterMmap(mapped: map<Address, nat>, address: Address, length: nat): map<Address, nat> {
    if MmapResult(mapped, address, length) == MAP_FAILED then mapped else mapped[address := length]
  }

  // ----- startup -----

  function Resized(bufs: seq<Frame>, n: nat): seq<Frame> {
    if n <= |bufs| then bufs[..n] else bufs + seq(n - |bufs|, _ => NO_FRAME)
  }

  datatype Outcome = Outcome(ok: bool, world: World)

  /** The record of buffer i written: its length and what mmap gives for it. */
  function Mapped(w: World, i: nat, a: BufferAnswer): World
    requires i < |w.bufs| && a.length.Some?
  {
    w.(bufs := w.bufs[i := Frame(MmapResult(w.mapped, a.address, a.length.value), a.length.value)],
       mapped := AfterMmap(w.mapped, a.address, a.length.value))
  }

  /** The buffers from number i on: query, map, queue; the first failure ends it. */
  function MapFrom(w: World, i: nat, answers: nat -> BufferAnswer): Outcome
    decreases |w.bufs| - i
  {
    if i >= |w.bufs| then Outcome(true, w)
    else if answers(i).length.None? then Outcome(false, w)
    else
      var m := Mapped(w, i, answers(i));
      if m.bufs[i].start == MAP_FAILED || !answers(i).queues then Outcome(false, m)
      else MapFrom(m.(queued := m.queued + {i}), i + 1, answers)
  }

  function Startup(w: World, a: StartupAnswers): Outcome {
    if a.fd.None? then Outcome(false, w.(fd := -1))
    else if a.current.None? then Outcome(false, w.(fd := a.fd.value, format := NO_FORMAT))
    else
      var ready := w.(fd := a.fd.value, format := a.adjusted);
      if a.count.None? then Outcome(false, ready)
      else if a.count.value < 2 then Outcome(false, ready.(queued := {}))
      else
        var m := MapFrom(ready.(queued := {}, bufs := Resized(w.bufs, a.count.value)), 0, a.buffers);
        if !m.ok || !a.streams then Outcome(false, m.world)
        else Outcome(true, m.world.(streaming := true))
  }

  // ----- shutdown -----

  /** The addresses shutdown hands to munmap. */
  function Released(bufs: seq<Frame>): set<Address> {
    set b | b in bufs && b.start != NULL && b.length != 0 :: b.start
  }

  function Shutdown(w: World): World {
    if w.fd < 0 then w
    else w.(fd := -1, bufs := [], streaming := false, queued := {}, mapped := w.mapped - Released(w.bufs))
  }

  // ----- snapshot -----

  predicate Dequeues(w: World, s: ShotAnswers) {
    w.fd >= 0 && w.streaming && s.index in w.queued
  }

  function Snapshot(w: World, s: ShotAnswers): World {
    if !Dequeues(w, s) then w else w.(queued := if s.requeues then w.queued else w.queued - {s.index})
  }

  datatype File = Copied(bytes: seq<byte>) | Ppm(width: nat, height: nat, rgb: seq<byte>)

  class Driver {
    var mapped: map<Address, nat>
    var queued: set<nat>
    var streaming: bool
  }

  class Webcam {
    var fd: int
    var format: Format
    var bufs: seq<Frame>

    function View(driver: Driver): World
      reads this, driver
    {
      World(fd, format, bufs, driver.mapped, driver.queued, driver.streaming)
    }

    method StartupWebcam(driver: Driver, a: StartupAnswers) returns (ok: bool)
      modifies this, driver
      ensures Outcome(ok, View(driver)) == Startup(old(View(driver)), a)
      ensures fd == if a.fd.Some? then a.fd.value else -1
      ensures format ==
        if a.fd.None? then old(format) else if a.current.None? then NO_FORMAT else a.adjusted
      ensures bufs == old(bufs) || (a.count.Some? && |bufs| == a.count.value)
      ensures driver.streaming == (ok || old(driver.streaming))
    {
      fd := if a.fd.Some? then a.fd.value else -1;
      if fd < 0 {
        return false;
      }
      format := NO_FORMAT;
      if a.current.None? {
        return false;
      }
      format := a.adjusted;
      if a.count.None? {
        return false;
      }
      driver.queued := {};
      if a.count.value < 2 {
        return false;
      }
      bufs := Resized(bufs, a.count.value);
      var mapped := MapBuffers(driver, a.buffers);
      if !mapped {
        return false;
      }
      if !a.streams {
        return false;
      }
      driver.streaming := true;
      ok := true;
    }

    /** The loop of startupWebcam: query, map and queue each buffer; the first failure ends it. */
    method MapBuffers(driver: Driver, buffers: nat -> BufferAnswer) returns (ok: bool)
      modifies this, driver
      ensures Outcome(ok, View(driver)) == MapFrom(old(View(driver)), 0, buffers)
      ensures fd == old(fd) && format == old(format) && |bufs| == |old(bufs)|
      ensures driver.streaming == old(driver.streaming)
    {
      ghost var start := View(driver);
      var i := 0;
      while i < |bufs|
        invariant i <= |bufs| == |old(bufs)|
        invariant fd == old(fd) && format == old(format) && driver.streaming == old(driver.streaming)
        invariant MapFrom(View(driver), i, buffers) == MapFrom(start, 0, buffers)
      {
        ghost var w := View(driver);
        var b := buffers(i);
        if b.length.None? {
          return false;
        }
        bufs := bufs[i := bufs[i].(length := b.length.value)];
        var address := MmapResult(driver.mapped, b.address, b.length.value);
        driver.mapped := AfterMmap(driver.mapped, b.address, b.length.value);
        bufs := bufs[i := bufs[i].(start := address)];
        assert bufs == w.bufs[i := Frame(address, b.length.value)];
        if address == MAP_FAILED {
          return false;
        }
        if !b.queues {
          return false;
        }
        driver.queued := driver.queued + {i};
        assert View(driver) == w.(bufs := w.bufs[i := Frame(address, b.length.value)],
                                  mapped := AfterMmap(w.mapped, b.address, b.length.value), queued := w.queued + {i});
        i := i + 1;
      }
      ok := true;
    }

    method ShutdownWebcam(driver: Driver) returns (ok: bool)
      modifies this, driver
      ensures ok && View(driver) == Shutdown(old(View(driver)))
      ensures format == old(format)
      ensures old(fd) < 0 ==> View(driver) == old(View(driver))
      ensures old(fd) >= 0 ==>
        && fd == -1 && bufs == [] && !driver.streaming && driver.queued == {}
        && forall b :: b in old(bufs) && b.start != NULL && b.length != 0 ==> b.start !in driver.mapped
    {
      ok := true;
      if fd < 0 {
        return;
      }
      driver.streaming, driver.queued := false, {};
      for i := 0 to |bufs|
        invariant fd == old(fd) && format == old(format) && bufs == old(bufs)
        invariant driver.mapped == old(driver.mapped) - Released(bufs[..i])
        invariant driver.streaming == false && driver.queued == {}
      {
        var b := bufs[i];
        assert bufs[..i + 1] == bufs[..i] + [b];
        assert Released(bufs[..i + 1]) == Released(bufs[..i]) + Released([b]);
        if b.start != NULL && b.length != 0 {
          assert Released([b]) == {b.start} by {
            assert b in [b];
          }
          driver.mapped := driver.mapped - {b.start};
        }
      }
      assert bufs[..|bufs|] == bufs;
      bufs := [];
      fd := -1;
    }

    /**
     `frame` is the memory of the buffer the driver hands out, of which `used`
     bytes are filled. A YUYV frame and its image must have room for the accesses
     of the conversion; BuffersFitIffEven says what that asks of a 2wh byte frame.
     */
    method TakeSnapshot(driver: Driver, s: ShotAnswers, frame: array<byte>, used: nat)
      returns (ok: bool, file: Option<File>)
      requires Dequeues(View(driver), s) ==>
        s.index < |bufs| && frame.Length == bufs[s.index].length && used <= bufs[s.index].length
      requires Dequeues(View(driver), s) && format.pixelFormat == YuyvFormat ==>
        var pixels := format.width * format.height;
        Yuyv.InBounds(pixels, bufs[s.index].length, 3 * pixels)
      modifies driver
      ensures View(driver) == Snapshot(old(View(driver)), s)
      ensures var taken := fd >= 0 && old(driver.streaming) && s.index in old(driver.queued);
              && (ok <==> taken && s.opens && format.pixelFormat != OtherFormat)
              && driver.queued == (if taken && !s.requeues then old(driver.queued) - {s.index} else old(driver.queued))
      ensures driver.mapped == old(driver.mapped) && driver.streaming == old(driver.streaming)
      ensures ok <==> file.Some?
      ensures ok && format.pixelFormat != YuyvFormat ==> file.value == Copied(frame[..used])
      ensures ok && format.pixelFormat == YuyvFormat ==>
        var pixels := format.width * format.height;
        && pixels % 2 == 0 && 2 * pixels <= frame.Length
        && file.value.Ppm? && file.value.width == format.width && file.value.height == format.height
        && |file.value.rgb| == 3 * pixels && Yuyv.Holds(Yuyv.Convert, file.value.rgb, frame[..], pixels)
        && forall p: nat :: p < pixels ==>
             4 * (p / 2) + 3 < frame.Length && Yuyv.FromBytes(frame[..], file.value.rgb, p)
    {
      ok, file := false, None;
      if fd < 0 {
        return;
      }
      if !driver.streaming || s.index !in driver.queued {
        return;
      }
      ghost var queued := driver.queued;
      driver.queued := driver.queued - {s.index};
      match format.pixelFormat {
        case Mjpeg | Jpeg =>
          if s.opens {
            file := Some(Copied(frame[..used]));
            ok := true;
          }
        case YuyvFormat =>
          var w, h := format.width, format.height;
          Yuyv.InBoundsIff(w * h, frame.Length, 3 * (w * h));
          var rgb := new byte[3 * (w * h)];
          Yuyv.YuyvToRgb(frame, rgb, w, h);
          assert 2 * Yuyv.PairsOf(w * h) == w * h;
          if s.opens {
            file := Some(Ppm(w, h, rgb[..]));
            ok := true;
          }
        case OtherFormat =>
      }
      if s.requeues {
        driver.queued := driver.queued + {s.index};
        assert driver.queued == queued;
      }
    }
  }

  // ----- sequences of calls -----

  datatype Call = Open(startup: StartupAnswers) | Shoot(shot: ShotAnswers) | Close

  function Perform(w: World, c: Call): World {
    match c
    case Open(a) => Startup(w, a).world
    case Shoot(s) => Snapshot(w, s)
    case Close => Shutdown(w)
  }

  function After(w: World, calls: seq<Call>, n: nat): World
    requires n <= |calls|
  {
    if n == 0 then w else Perform(After(w, calls, n - 1), calls[n - 1])
  }

  /** The camera is ready only while it is closed. */
  ghost predicate Proper(w: World, calls: seq<Call>) {
    forall i :: 0 <= i < |calls| ==> ProperAt(w, calls, i)
  }

  predicate ProperAt(w: World, calls: seq<Call>, i: nat)
    requires i < |calls|
  {
    calls[i].Open? ==> After(w, calls, i).fd < 0
  }

  /** A closed camera in a process with the given other mappings. */
  function Closed(others: map<Address, nat>, format: Format): World {
    World(-1, format, [], others, {}, false)
  }

  predicate IsMapped(b: Frame) {
    b.start > 0 && b.length > 0
  }

  /** Some buffer is mapped at the address. */
  ghost predicate Recorded(bufs: seq<Frame>, a: Address) {
    exists i :: 0 <= i < |bufs| && IsMapped(bufs[i]) && bufs[i].start == a
  }

  /** Besides the other mappings there are exactly those of the recorded buffers, each its own. */
  ghost predicate Accounted(w: World, others: set<Address>) {
    && (forall a :: a in others ==> a > 0)
    && (forall a :: a in w.mapped <==> a in others || Recorded(w.bufs, a))
    && (forall i :: 0 <= i < |w.bufs| ==> w.bufs[i].start !in others)
    && (forall i :: 0 <= i < |w.bufs| ==>
          IsMapped(w.bufs[i]) || w.bufs[i] == NO_FRAME || w.bufs[i].start == MAP_FAILED)
    && (forall i, j :: 0 <= i < j < |w.bufs| && IsMapped(w.bufs[i]) && IsMapped(w.bufs[j]) ==>
          w.bufs[i].start != w.bufs[j].start)
  }

  /** The given mappings are there, as they were. */
  ghost predicate Keeps(w: World, others: map<Address, nat>) {
    forall a :: a in others ==> a in w.mapped && w.mapped[a] == others[a]
  }

  function Indices(n: nat): (all: set<nat>)
    ensures forall i: nat :: i in all <==> i < n
  {
    if n == 0 then {} else Indices(n - 1) + {n - 1}
  }

  // ----- mappings no buffer records any more -----

  /** The mappings recorded in the entries from i up to k. */
  function Dropped(bufs: seq<Frame>, i: nat, k: nat): set<Address>
    requires k <= |bufs|
  {
    set j | i <= j < k && IsMapped(bufs[j]) :: bufs[j].start
  }

  /** The loop of startup over n buffers, from number i on, writes the entries below this one and no others. */
  function Rewritten(mapped: map<Address, nat>, n: nat, i: nat, answers: nat -> BufferAnswer): (k: nat)
    requires i <= n
    ensures i <= k <= n
    decreases n - i
  {
    if i == n || answers(i).length.None? then i
    else
      var a, length := answers(i), answers(i).length.value;
      if MmapResult(mapped, a.address, length) == MAP_FAILED || !a.queues then i + 1
      else Rewritten(AfterMmap(mapped, a.address, length), n, i + 1, answers)
  }

  /** Mappings whose record a startup loses: in entries that the resize cuts off or the loop writes over. */
  function Forgets(w: World, a: StartupAnswers): set<Address> {
    if a.fd.None? || a.current.None? || a.count.None? || a.count.value < 2 then {}
    else
      var n, resized := a.count.value, Resized(w.bufs, a.count.value);
      Dropped(w.bufs, n, |w.bufs|) + Dropped(resized, 0, Rewritten(w.mapped, n, 0, a.buffers))
  }

  lemma DroppedOne(bufs: seq<Frame>, m: seq<Frame>, i: nat, k: nat)
    requires i < k <= |bufs| == |m| && forall j :: i < j < k ==> m[j] == bufs[j]
    ensures Dropped(bufs, i, k) == Dropped(bufs, i, i + 1) + Dropped(m, i + 1, k)
  {
    forall x | x in Dropped(bufs, i, k) ensures x in Dropped(bufs, i, i + 1) + Dropped(m, i + 1, k) {
      var j :| i <= j < k && IsMapped(bufs[j]) && bufs[j].start == x;
      assert j > i ==> m[j] == bufs[j];
    }
    forall x | x in Dropped(m, i + 1, k) ensures x in Dropped(bufs, i, k) {
      var j :| i + 1 <= j < k && IsMapped(m[j]) && m[j].start == x;
      assert m[j] == bufs[j];
    }
  }

  /** Writing over an entry: the mapping it recorded, if any, is one more of the others. */
  lemma OneMore(w: World, m: World, i: nat, start: Address, length: nat, others: set<Address>)
    requires Accounted(w, others) && i < |w.bufs|
    requires m.bufs == w.bufs[i := Frame(start, length)]
    requires (start == MAP_FAILED && m.mapped == w.mapped)
             || (start > 0 && length > 0 && start !in w.mapped && m.mapped == w.mapped[start := length])
    ensures Accounted(m, others + Dropped(w.bufs, i, i + 1))
  {
    var others' := others + Dropped(w.bufs, i, i + 1);
    forall a ensures a in m.mapped <==> a in others' || Recorded(m.bufs, a) {
      OneMoreAt(w, m, i, start, length, others, a);
    }
    forall j | 0 <= j < |m.bufs| ensures m.bufs[j].start !in others' {
      if j == i {
        assert IsMapped(w.bufs[i]) ==> w.bufs[i].start in w.mapped;
      } else {
        assert m.bufs[j] == w.bufs[j];
      }
    }
  }

  lemma OneMoreAt(w: World, m: World, i: nat, start: Address, length: nat, others: set<Address>, a: Address)
    requires Accounted(w, others) && i < |w.bufs|
    requires m.bufs == w.bufs[i := Frame(start, length)]
    requires (start == MAP_FAILED && m.mapped == w.mapped)
             || (start > 0 && length > 0 && start !in w.mapped && m.mapped == w.mapped[start := length])
    ensures a in m.mapped <==> a in others + Dropped(w.bufs, i, i + 1) || Recorded(m.bufs, a)
  {
    if a in w.mapped && a !in others {
      var j :| 0 <= j < |w.bufs| && IsMapped(w.bufs[j]) && w.bufs[j].start == a;
      assert m.bufs[j] == if j == i then Frame(start, length) else w.bufs[j];
    }
    if a == start && start != MAP_FAILED {
      assert IsMapped(m.bufs[i]);
    }
    if Recorded(m.bufs, a) {
      var j :| 0 <= j < |m.bufs| && IsMapped(m.bufs[j]) && m.bufs[j].start == a;
      assert j != i ==> w.bufs[j] == m.bufs[j];
    }
  }

  function Overwrites(w: World, i: nat, answers: nat -> BufferAnswer): set<Address>
    requires i <= |w.bufs|
  {
    Dropped(w.bufs, i, Rewritten(w.mapped, |w.bufs|, i, answers))
  }

  /** One round of the loop: the rest of the loop overwrites what the whole does, but for this entry. */
  lemma RoundOverwrites(w: World, i: nat, answers: nat -> BufferAnswer)
    requires i < |w.bufs| && answers(i).length.Some?
    ensures var m := Mapped(w, i, answers(i));
            Overwrites(w, i, answers) == Dropped(w.bufs, i, i + 1)
              + if m.bufs[i].start == MAP_FAILED || !answers(i).queues then {}
                else Overwrites(m.(queued := m.queued + {i}), i + 1, answers)
  {
    var k := Rewritten(w.mapped, |w.bufs|, i, answers);
    var m := Mapped(w, i, answers(i));
    DroppedOne(w.bufs, m.bufs, i, k);
    assert Dropped(m.bufs, i + 1, i + 1) == {};
  }

  lemma {:induction false} MapFromAccounts(w: World, i: nat, answers: nat -> BufferAnswer, others: set<Address>)
    requires Accounted(w, others) && i <= |w.bufs|
    ensures Accounted(MapFrom(w, i, answers).world, others + Overwrites(w, i, answers))
    decreases |w.bufs| - i
  {
    if i < |w.bufs| && answers(i).length.Some? {
      var m, one := Mapped(w, i, answers(i)), Dropped(w.bufs, i, i + 1);
      OneMore(w, m, i, m.bufs[i].start, answers(i).length.value, others);
      RoundOverwrites(w, i, answers);
      if m.bufs[i].start == MAP_FAILED || !answers(i).queues {
        assert others + Overwrites(w, i, answers) == others + one;
      } else {
        var rest := m.(queued := m.queued + {i});
        MapFromAccounts(rest, i + 1, answers, others + one);
        assert others + one + Overwrites(rest, i + 1, answers) == others + Overwrites(w, i, answers);
      }
    } else {
      assert Overwrites(w, i, answers) == {};
      assert others + {} == others;
    }
  }

  lemma ResizeAccounts(w: World, n: nat, others: set<Address>)
    requires Accounted(w, others)
    ensures Accounted(w.(bufs := Resized(w.bufs, n)), others + Dropped(w.bufs, n, |w.bufs|))
  {
    var bufs := Resized(w.bufs, n);
    assert forall j :: 0 <= j < |bufs| ==> bufs[j] == if j < |w.bufs| then w.bufs[j] else NO_FRAME;
    forall a ensures a in w.mapped <==> a in others + Dropped(w.bufs, n, |w.bufs|) || Recorded(bufs, a) {
      if a in w.mapped && a !in others {
        var j :| 0 <= j < |w.bufs| && IsMapped(w.bufs[j]) && w.bufs[j].start == a;
        assert j < n ==> bufs[j] == w.bufs[j];
      }
      if Recorded(bufs, a) {
        var j :| 0 <= j < |bufs| && IsMapped(bufs[j]) && bufs[j].start == a;
        assert bufs[j] == w.bufs[j];
      }
    }
  }

  /** A startup, wherever it stops: what it forgets is left beside the other mappings, the rest is recorded. */
  lemma StartupAccounts(w: World, a: StartupAnswers, others: set<Address>)
    requires Accounted(w, others)
    ensures Accounted(Startup(w, a).world, others + Forgets(w, a))
  {
    assert others + {} == others;
    if a.fd.Some? && a.current.Some? && a.count.Some? && a.count.value >= 2 {
      var n := a.count.value;
      var cleared := w.(fd := a.fd.value, format := a.adjusted, queued := {});
      var ready := cleared.(bufs := Resized(w.bufs, n));
      ResizeAccounts(cleared, n, others);
      var cut := Dropped(w.bufs, n, |w.bufs|);
      MapFromAccounts(ready, 0, a.buffers, others + cut);
      assert others + cut + Dropped(ready.bufs, 0, Rewritten(w.mapped, n, 0, a.buffers)) == others + Forgets(w, a);
    }
  }

  /** What a startup forgets was recorded before. */
  lemma ForgetsRecorded(w: World, a: StartupAnswers, x: Address)
    requires x in Forgets(w, a)
    ensures Recorded(w.bufs, x)
  {
    var resized := Resized(w.bufs, a.count.value);
    if x !in Dropped(w.bufs, a.count.value, |w.bufs|) {
      var j :| 0 <= j < |resized| && IsMapped(resized[j]) && resized[j].start == x;
      assert resized[j] == w.bufs[j];
    }
  }

  lemma {:induction false} MapFromQueues(w: World, i: nat, answers: nat -> BufferAnswer)
    requires i <= |w.bufs| && w.queued == Indices(i) && forall j :: 0 <= j < i ==> IsMapped(w.bufs[j])
    ensures var m := MapFrom(w, i, answers);
            && m.world.fd == w.fd && m.world.streaming == w.streaming && |m.world.bufs| == |w.bufs|
            && (m.ok ==> m.world.queued == Indices(|w.bufs|)
                         && forall j :: 0 <= j < |w.bufs| ==> IsMapped(m.world.bufs[j]))
    decreases |w.bufs| - i
  {
    if i < |w.bufs| && answers(i).length.Some? {
      var m := Mapped(w, i, answers(i));
      if m.bufs[i].start != MAP_FAILED && answers(i).queues {
        assert m.queued + {i} == Indices(i + 1);
        MapFromQueues(m.(queued := m.queued + {i}), i + 1, answers);
      }
    }
  }

  lemma StartupQueues(w: World, a: StartupAnswers)
    ensures var o := Startup(w, a);
            && (o.ok ==> o.world.fd >= 0 && o.world.streaming
                         && |o.world.bufs| >= 2 && o.world.queued == Indices(|o.world.bufs|)
                         && forall j :: 0 <= j < |o.world.bufs| ==> IsMapped(o.world.bufs[j]))
            && (!o.ok ==> o.world.streaming == w.streaming)
  {
    if a.fd.Some? && a.current.Some? && a.count.Some? && a.count.value >= 2 {
      var bufs := Resized(w.bufs, a.count.value);
      assert Indices(0) == {};
      MapFromQueues(w.(fd := a.fd.value, format := a.adjusted, queued := {}, bufs := bufs), 0, a.buffers);
    }
  }

  lemma StartupFd(w: World, a: StartupAnswers)
    ensures Startup(w, a).world.fd == if a.fd.Some? then a.fd.value else -1
    ensures a.fd.None? ==> Startup(w, a).world == w.(fd := -1)
  {
    if a.fd.Some? && a.current.Some? && a.count.Some? && a.count.value >= 2 {
      var bufs := Resized(w.bufs, a.count.value);
      assert Indices(0) == {};
      MapFromQueues(w.(fd := a.fd.value, format := a.adjusted, queued := {}, bufs := bufs), 0, a.buffers);
    }
  }

  /** Nothing stands in the way of buffer j, when the loop has come that far from buffer i. */
  ghost predicate Succeeds(mapped: map<Address, nat>, answers: nat -> BufferAnswer, i: nat, j: nat) {
    var b := answers(j);
    && b.length.Some? && b.length.value > 0 && b.queues
    && b.address > 0 && b.address !in mapped
    && forall k :: i <= k < j ==> answers(k).address != b.address
  }

  ghost predicate AllSucceed(mapped: map<Address, nat>, answers: nat -> BufferAnswer, i: nat, n: nat) {
    forall j :: i <= j < n ==> Succeeds(mapped, answers, i, j)
  }

  lemma SucceedsNext(mapped: map<Address, nat>, answers: nat -> BufferAnswer, i: nat, j: nat)
    requires i < j && answers(i).length.Some? && Succeeds(mapped, answers, i, i)
    ensures Succeeds(mapped[answers(i).address := answers(i).length.value], answers, i + 1, j)
            <==> Succeeds(mapped, answers, i, j)
  {
  }

  lemma AllSucceedNext(mapped: map<Address, nat>, answers: nat -> BufferAnswer, i: nat, n: nat)
    requires i < n && answers(i).length.Some? && Succeeds(mapped, answers, i, i)
    ensures AllSucceed(mapped[answers(i).address := answers(i).length.value], answers, i + 1, n)
            <==> AllSucceed(mapped, answers, i, n)
  {
    var mapped' := mapped[answers(i).address := answers(i).length.value];
    forall j | i < j < n ensures Succeeds(mapped', answers, i + 1, j) <==> Succeeds(mapped, answers, i, j) {
      SucceedsNext(mapped, answers, i, j);
    }
    if AllSucceed(mapped', answers, i + 1, n) {
      forall j | i <= j < n ensures Succeeds(mapped, answers, i, j) {
        assert j > i ==> Succeeds(mapped', answers, i + 1, j);
      }
    }
    if AllSucceed(mapped, answers, i, n) {
      var next := i + 1;
      forall j | next <= j < n ensures Succeeds(mapped', answers, next, j) {
        assert Succeeds(mapped, answers, i, j);
      }
    }
  }

  /** The loop gets through if and only if nothing stands in its way. */
  lemma {:induction false} MapFromSucceedsIff(w: World, i: nat, answers: nat -> BufferAnswer)
    requires i <= |w.bufs|
    ensures MapFrom(w, i, answers).ok <==> AllSucceed(w.mapped, answers, i, |w.bufs|)
    decreases |w.bufs| - i
  {
    if i < |w.bufs| {
      if !Succeeds(w.mapped, answers, i, i) {
        assert !MapFrom(w, i, answers).ok;
      } else {
        var m := Mapped(w, i, answers(i));
        MapFromSucceedsIff(m.(queued := m.queued + {i}), i + 1, answers);
        AllSucceedNext(w.mapped, answers, i, |w.bufs|);
      }
    }
  }

  /** It then has recorded every buffer, and left fd, format and the entries before alone. */
  lemma {:induction false} MapFromRecords(w: World, i: nat, answers: nat -> BufferAnswer)
    requires i <= |w.bufs|
    ensures var t := MapFrom(w, i, answers).world;
            && t.fd == w.fd && t.format == w.format && |t.bufs| == |w.bufs|
            && (forall j :: 0 <= j < i ==> t.bufs[j] == w.bufs[j])
            && (MapFrom(w, i, answers).ok ==> forall j :: i <= j < |w.bufs| ==> RecordedAs(t, j, answers(j)))
    decreases |w.bufs| - i
  {
    if i < |w.bufs| && answers(i).length.Some? {
      var m := Mapped(w, i, answers(i));
      if m.bufs[i].start != MAP_FAILED && answers(i).queues {
        MapFromRecords(m.(queued := m.queued + {i}), i + 1, answers);
        assert RecordedAs(m, i, answers(i));
      }
    }
  }

  predicate RecordedAs(w: World, j: nat, b: BufferAnswer)
    requires j < |w.bufs|
  {
    b.length.Some? && w.bufs[j] == Frame(b.address, b.length.value)
  }

  /** A startup succeeds exactly if every call in it does; then its buffers are as mapped, its format as adjusted. */
  lemma StartupSucceedsIff(w: World, a: StartupAnswers)
    ensures var o := Startup(w, a);
            && (o.ok <==>
                  && a.fd.Some? && a.current.Some? && a.count.Some? && a.count.value >= 2 && a.streams
                  && AllSucceed(w.mapped, a.buffers, 0, a.count.value))
            && (o.ok ==>
                  && o.world.fd == a.fd.value && o.world.format == a.adjusted && |o.world.bufs| == a.count.value
                  && forall j :: 0 <= j < a.count.value ==> RecordedAs(o.world, j, a.buffers(j)))
  {
    if a.fd.Some? && a.current.Some? && a.count.Some? && a.count.value >= 2 {
      var bufs := Resized(w.bufs, a.count.value);
      var ready := w.(fd := a.fd.value, format := a.adjusted, queued := {}, bufs := bufs);
      MapFromSucceedsIff(ready, 0, a.buffers);
      MapFromRecords(ready, 0, a.buffers);
    }
  }

  lemma {:induction false} MapFromKeeps(w: World, i: nat, answers: nat -> BufferAnswer, others: map<Address, nat>)
    requires Keeps(w, others) && i <= |w.bufs|
    ensures Keeps(MapFrom(w, i, answers).world, others)
    decreases |w.bufs| - i
  {
    if i < |w.bufs| && answers(i).length.Some? {
      var m := Mapped(w, i, answers(i));
      if m.bufs[i].start != MAP_FAILED && answers(i).queues {
        MapFromKeeps(m.(queued := m.queued + {i}), i + 1, answers, others);
      }
    }
  }

  lemma StartupKeeps(w: World, a: StartupAnswers, others: map<Address, nat>)
    requires Keeps(w, others)
    ensures Keeps(Startup(w, a).world, others)
  {
    if a.fd.Some? && a.current.Some? && a.count.Some? && a.count.value >= 2 {
      var bufs := Resized(w.bufs, a.count.value);
      MapFromKeeps(w.(fd := a.fd.value, format := a.adjusted, queued := {}, bufs := bufs), 0, a.buffers, others);
    }
  }

  /** A startup forgets exactly what was recorded before and is not recorded after. */
  lemma ForgetsIff(w: World, a: StartupAnswers, others: set<Address>, x: Address)
    requires Accounted(w, others)
    ensures x in Forgets(w, a) <==> Recorded(w.bufs, x) && !Recorded(Startup(w, a).world.bufs, x)
  {
    var t := Startup(w, a).world;
    StartupAccounts(w, a, others);
    if x in Forgets(w, a) {
      ForgetsRecorded(w, a, x);
      assert x in others + Forgets(w, a);
    }
    if Recorded(w.bufs, x) {
      StartupKeeps(w, a, w.mapped);
      assert x in w.mapped && x in t.mapped && x !in others;
    }
  }

  /** The mappings that call i forgets. */
  function ForgottenAt(w: World, calls: seq<Call>, i: nat): set<Address>
    requires i < |calls|
  {
    if calls[i].Open? then Forgets(After(w, calls, i), calls[i].startup) else {}
  }

  /** The mappings that the startups among the first n calls have forgotten. */
  function Forgotten(w: World, calls: seq<Call>, n: nat): set<Address>
    requires n <= |calls|
  {
    set i, x | 0 <= i < n && x in ForgottenAt(w, calls, i) :: x
  }

  lemma OthersNotReleased(w: World, others: set<Address>)
    requires Accounted(w, others)
    ensures Released(w.bufs) !! others
  {
    forall a | a in Released(w.bufs) ensures a !in others {
      var b :| b in w.bufs && b.start == a;
      var i :| 0 <= i < |w.bufs| && w.bufs[i] == b;
    }
  }

  /** Shutdown of an open camera unmaps exactly what is recorded, of a closed one nothing. */
  lemma ShutdownAccounts(w: World, others: set<Address>)
    requires Accounted(w, others)
    ensures Accounted(Shutdown(w), others)
    ensures w.fd >= 0 ==> Shutdown(w).mapped.Keys == others
  {
    OthersNotReleased(w, others);
    if w.fd >= 0 {
      forall a ensures a in Shutdown(w).mapped <==> a in others {
        if a in w.mapped && a !in others {
          var i :| 0 <= i < |w.bufs| && IsMapped(w.bufs[i]) && w.bufs[i].start == a;
          assert w.bufs[i] in w.bufs && a in Released(w.bufs);
        }
      }
    }
  }

  /** Whatever is called in whatever order: mapped are the others, what is forgotten, and what is recorded. */
  ghost predicate RunInv(w: World, others: map<Address, nat>, forgotten: set<Address>) {
    && w.fd >= -1
    && Accounted(w, others.Keys + forgotten) && Keeps(w, others)
    && forgotten !! others.Keys
  }

  lemma CallKeepsRunInv(w: World, c: Call, others: map<Address, nat>, forgotten: set<Address>)
    requires RunInv(w, others, forgotten)
    ensures RunInv(Perform(w, c), others, forgotten + if c.Open? then Forgets(w, c.startup) else {})
  {
    var all := others.Keys + forgotten;
    match c {
      case Open(a) =>
        OpenKeepsRunInv(w, a, others, forgotten);
      case Shoot(_) =>
        assert forgotten + {} == forgotten;
      case Close =>
        ShutdownAccounts(w, all);
        OthersNotReleased(w, all);
        assert forgotten + {} == forgotten;
    }
  }

  lemma OpenKeepsRunInv(w: World, a: StartupAnswers, others: map<Address, nat>, forgotten: set<Address>)
    requires RunInv(w, others, forgotten)
    ensures RunInv(Startup(w, a).world, others, forgotten + Forgets(w, a))
  {
    var all := others.Keys + forgotten;
    StartupAccounts(w, a, all);
    StartupKeeps(w, a, others);
    StartupFd(w, a);
    assert all + Forgets(w, a) == others.Keys + (forgotten + Forgets(w, a));
    forall x | x in Forgets(w, a) ensures x !in others {
      ForgetsRecorded(w, a, x);
    }
  }

  lemma ForgottenMore(w: World, calls: seq<Call>, n: nat)
    requires n < |calls|
    ensures Forgotten(w, calls, n + 1) == Forgotten(w, calls, n) + ForgottenAt(w, calls, n)
  {
  }

  lemma CallAtKeepsRunInv(start: World, calls: seq<Call>, k: nat, others: map<Address, nat>)
    requires k < |calls| && RunInv(After(start, calls, k), others, Forgotten(start, calls, k))
    ensures RunInv(After(start, calls, k + 1), others, Forgotten(start, calls, k + 1))
  {
    CallKeepsRunInv(After(start, calls, k), calls[k], others, Forgotten(start, calls, k));
    ForgottenMore(start, calls, k);
  }

  lemma ClosedRunInv(others: map<Address, nat>, format: Format)
    requires forall a :: a in others ==> a > 0
    ensures RunInv(Closed(others, format), others, {})
  {
    assert others.Keys + {} == others.Keys;
  }

  lemma {:induction false} ReachableRunInv(others: map<Address, nat>, format: Format, calls: seq<Call>, n: nat)
    requires n <= |calls| && forall a :: a in others ==> a > 0
    ensures var start := Closed(others, format);
            RunInv(After(start, calls, n), others, Forgotten(start, calls, n))
  {
    var start := Closed(others, format);
    if n > 0 {
      ReachableRunInv(others, format, calls, n - 1);
      CallAtKeepsRunInv(start, calls, n - 1, others);
    } else {
      ClosedRunInv(others, format);
      assert Forgotten(start, calls, 0) == {};
    }
  }

  /** A forgotten mapping is never unmapped, by any later call. */
  lemma ForgottenForGood(others: map<Address, nat>, format: Format, calls: seq<Call>, i: nat, n: nat)
    requires i <= n <= |calls| && forall a :: a in others ==> a > 0
    ensures var start := Closed(others, format);
            Forgotten(start, calls, i) <= Forgotten(start, calls, n) <= After(start, calls, n).mapped.Keys
  {
    var start := Closed(others, format);
    ReachableRunInv(others, format, calls, n);
    forall a | a in Forgotten(start, calls, n) ensures a in After(start, calls, n).mapped {
      assert a in others.Keys + Forgotten(start, calls, n);
    }
  }

  /**
   After any calls at all, a shutdown of an open camera leaves the other mappings
   and those forgotten; on a closed one it changes nothing.
   */
  lemma ShutdownLeaves(others: map<Address, nat>, format: Format, calls: seq<Call>, n: nat)
    requires n < |calls| && calls[n] == Close && forall a :: a in others ==> a > 0
    ensures var start := Closed(others, format);
            var w, t, forgotten := After(start, calls, n), After(start, calls, n + 1), Forgotten(start, calls, n);
            && t.fd == -1 && Keeps(t, others) && forgotten !! others.Keys
            && (w.fd >= 0 ==> t.bufs == [] && t.mapped.Keys == others.Keys + forgotten)
            && (w.fd < 0 ==> t == w)
  {
    var start := Closed(others, format);
    var w, forgotten := After(start, calls, n), Forgotten(start, calls, n);
    ReachableRunInv(others, format, calls, n);
    ReachableRunInv(others, format, calls, n + 1);
    ShutdownAccounts(w, others.Keys + forgotten);
  }

  lemma NothingForgottenIff(w: World, calls: seq<Call>, n: nat)
    requires n <= |calls|
    ensures Forgotten(w, calls, n) == {} <==> forall i :: 0 <= i < n ==> ForgottenAt(w, calls, i) == {}
  {
    forall i, x | 0 <= i < n && x in ForgottenAt(w, calls, i) ensures x in Forgotten(w, calls, n) {
    }
  }

  lemma SameMappings(mapped: map<Address, nat>, others: map<Address, nat>)
    requires forall a :: a in others ==> a in mapped && mapped[a] == others[a]
    ensures mapped == others <==> mapped.Keys == others.Keys
  {
    if mapped.Keys == others.Keys {
      assert forall a :: a in mapped ==> a in mapped.Keys && a in others;
      assert forall a :: a in others ==> mapped[a] == others[a];
      assert mapped == others;
    }
  }

  lemma OnlyOthersIff(others: set<Address>, forgotten: set<Address>)
    requires forgotten !! others
    ensures others + forgotten == others <==> forgotten == {}
  {
    assert forall a :: a in forgotten ==> a in others + forgotten && a !in others;
  }

  lemma RecordedApart(w: World, others: set<Address>, i: nat)
    requires Accounted(w, others) && i < |w.bufs|
    ensures IsMapped(w.bufs[i]) ==> w.bufs[i].start in w.mapped.Keys && w.bufs[i].start !in others
  {
    assert IsMapped(w.bufs[i]) ==> Recorded(w.bufs, w.bufs[i].start);
  }

  lemma ClosedIsCleanIff(w: World, others: set<Address>, forgotten: set<Address>)
    requires Accounted(w, others + forgotten) && forgotten !! others
    ensures w.mapped.Keys == others <==>
            forgotten == {} && forall i :: 0 <= i < |w.bufs| ==> !IsMapped(w.bufs[i])
  {
    if w.mapped.Keys == others {
      forall a ensures a !in forgotten {
        assert a in forgotten ==> a in w.mapped && a in w.mapped.Keys;
      }
      forall i | 0 <= i < |w.bufs| ensures !IsMapped(w.bufs[i]) {
        RecordedApart(w, others + forgotten, i);
      }
    }
    if forgotten == {} && forall i :: 0 <= i < |w.bufs| ==> !IsMapped(w.bufs[i]) {
      forall a ensures a in w.mapped.Keys <==> a in others {
        assert a in others + forgotten <==> a in others;
        assert !Recorded(w.bufs, a);
      }
    }
  }

  /**
   After any calls at all, a shutdown cleans up if and only if no startup lost the
   record of a mapping, and the camera is open or has no mapping recorded.
   */
  lemma CleansUpIff(others: map<Address, nat>, format: Format, calls: seq<Call>, n: nat)
    requires n < |calls| && calls[n] == Close && forall a :: a in others ==> a > 0
    ensures var start := Closed(others, format);
            var w := After(start, calls, n);
            After(start, calls, n + 1).mapped == others
            <==> (forall i :: 0 <= i < n ==> ForgottenAt(start, calls, i) == {})
                 && (w.fd < 0 ==> forall i :: 0 <= i < |w.bufs| ==> !IsMapped(w.bufs[i]))
  {
    var start := Closed(others, format);
    var w, forgotten := After(start, calls, n), Forgotten(start, calls, n);
    ShutdownLeaves(others, format, calls, n);
    SameMappings(After(start, calls, n + 1).mapped, others);
    NothingForgottenIff(start, calls, n);
    if w.fd >= 0 {
      OnlyOthersIff(others.Keys, forgotten);
    } else {
      ReachableRunInv(others, format, calls, n);
      ClosedIsCleanIff(w, others.Keys, forgotten);
    }
  }

  // ----- startups that lose mappings -----

  /** Two buffers, mapped at the base and behind it; the stream may fail to start. */
  function TwoBuffers(base: Address, streams: bool): StartupAnswers {
    StartupAnswers(Some(3), Some(NO_FORMAT), NO_FORMAT, Some(2), i => BufferAnswer(Some(16), base + i, true), streams)
  }

  lemma TwoMapped(w: World, base: Address, streams: bool)
    requires base > 0 && base !in w.mapped && base + 1 !in w.mapped
    ensures Startup(w, TwoBuffers(base, streams)) ==
            Outcome(streams, World(3, NO_FORMAT, [Frame(base, 16), Frame(base + 1, 16)],
                                   w.mapped[base := 16][base + 1 := 16], {0, 1}, w.streaming || streams))
  {
    var a := TwoBuffers(base, streams);
    var w0 := w.(fd := 3, format := NO_FORMAT, queued := {}, bufs := Resized(w.bufs, 2));
    var w1 := Mapped(w0, 0, a.buffers(0)).(queued := {0});
    var w2 := Mapped(w1, 1, a.buffers(1)).(queued := {0, 1});
    assert w2.bufs == [Frame(base, 16), Frame(base + 1, 16)];
    assert {} + {0} == {0} && {0} + {1} == {0, 1};
    assert MapFrom(w2, 2, a.buffers) == Outcome(true, w2);
    assert MapFrom(w1, 1, a.buffers) == Outcome(true, w2);
    assert MapFrom(w0, 0, a.buffers) == Outcome(true, w2);
  }

  /** A startup fails at the last step and is tried again: the shutdown leaves the mappings of the first. */
  lemma RetryForgets(format: Format)
    ensures var calls := [Open(TwoBuffers(1000, false)), Open(TwoBuffers(2000, true)), Close];
            var w := After(Closed(map[], format), calls, 3);
            w.fd == -1 && w.bufs == [] && w.mapped.Keys == {1000, 1001}
  {
    var calls := [Open(TwoBuffers(1000, false)), Open(TwoBuffers(2000, true)), Close];
    var start := Closed(map[], format);
    TwoMapped(start, 1000, false);
    var w1 := After(start, calls, 1);
    assert After(start, calls, 0) == start;
    assert w1 == Perform(start, calls[0]);
    assert w1 == Startup(start, TwoBuffers(1000, false)).world;
    TwoMapped(w1, 2000, true);
    var w2 := After(start, calls, 2);
    assert w2 == Startup(w1, TwoBuffers(2000, true)).world;
    assert w2.mapped.Keys == {1000, 1001, 2000, 2001};
    assert Released(w2.bufs) == {2000, 2001} by {
      assert w2.bufs[0] in w2.bufs && w2.bufs[1] in w2.bufs;
    }
    assert After(start, calls, 3) == Shutdown(w2);
  }

  /** A running camera is opened again and that fails: the shutdown takes it for closed and leaves all mapped. */
  lemma FailedReopenLeaves(format: Format)
    ensures var calls := [Open(TwoBuffers(1000, true)), Open(TwoBuffers(2000, true).(fd := None)), Close];
            var w := After(Closed(map[], format), calls, 3);
            w.fd == -1 && w.mapped.Keys == {1000, 1001}
  {
    var calls := [Open(TwoBuffers(1000, true)), Open(TwoBuffers(2000, true).(fd := None)), Close];
    var start := Closed(map[], format);
    TwoMapped(start, 1000, true);
    var w1 := After(start, calls, 1);
    assert After(start, calls, 0) == start;
    assert w1 == Perform(start, calls[0]);
    assert w1 == Startup(start, TwoBuffers(1000, true)).world;
    assert After(start, calls, 2) == w1.(fd := -1);
    assert After(start, calls, 3) == w1.(fd := -1);
  }

  // ----- a camera opened only while it is closed -----

  ghost predicate Inv(w: World, others: map<Address, nat>) {
    && Accounted(w, others.Keys) && Keeps(w, others)
    && w.fd >= -1
    && (w.fd < 0 ==> w.bufs == [] && !w.streaming)
    && (w.streaming ==> w.queued <= Indices(|w.bufs|) && forall i :: 0 <= i < |w.bufs| ==> IsMapped(w.bufs[i]))
  }

  /** A startup on a camera without buffers forgets nothing, and leaves everything queued if it succeeds. */
  lemma StartupKeepsInv(w: World, a: StartupAnswers, others: map<Address, nat>)
    requires Inv(w, others) && w.fd < 0
    ensures Inv(Startup(w, a).world, others)
    ensures Startup(w, a).ok ==>
      var t := Startup(w, a).world;
      t.fd >= 0 && t.streaming && t.queued == Indices(|t.bufs|) && |t.bufs| >= 2
    ensures !Startup(w, a).ok ==> !Startup(w, a).world.streaming
  {
    FreshForgetsNothing(w, a);
    StartupAccounts(w, a, others.Keys);
    StartupKeeps(w, a, others);
    StartupFd(w, a);
    StartupQueues(w, a);
    assert others.Keys + Forgets(w, a) == others.Keys;
  }

  lemma FreshForgetsNothing(w: World, a: StartupAnswers)
    requires w.bufs == []
    ensures Forgets(w, a) == {}
  {
    forall x ensures x !in Forgets(w, a) {
      if x in Forgets(w, a) {
        ForgetsRecorded(w, a, x);
      }
    }
  }

  lemma ShutdownUnmapsAll(w: World, others: map<Address, nat>)
    requires Inv(w, others)
    ensures Inv(Shutdown(w), others)
    ensures Shutdown(w).mapped == others && Shutdown(w).fd == -1 && Shutdown(w).bufs == []
  {
    ShutdownAccounts(w, others.Keys);
    OthersNotReleased(w, others.Keys);
    SameMappings(Shutdown(w).mapped, others);
    if w.fd < 0 {
      assert forall a :: a in w.mapped <==> a in others.Keys;
    }
  }

  lemma CallKeepsInv(w: World, c: Call, others: map<Address, nat>)
    requires Inv(w, others) && (c.Open? ==> w.fd < 0)
    ensures Inv(Perform(w, c), others)
  {
    match c {
      case Open(a) => StartupKeepsInv(w, a, others);
      case Shoot(_) =>
      case Close => ShutdownUnmapsAll(w, others);
    }
  }

  lemma {:induction false} ReachableInv(others: map<Address, nat>, format: Format, calls: seq<Call>, n: nat)
    requires n <= |calls| && Proper(Closed(others, format), calls) && forall a :: a in others ==> a > 0
    ensures Inv(After(Closed(others, format), calls, n), others)
  {
    if n > 0 {
      ReachableInv(others, format, calls, n - 1);
      assert ProperAt(Closed(others, format), calls, n - 1);
      CallKeepsInv(After(Closed(others, format), calls, n - 1), calls[n - 1], others);
    }
  }

  /** A camera opened only while closed: however many startups fail, and wherever, a shutdown leaves nothing mapped. */
  lemma ShutdownCleansUp(others: map<Address, nat>, format: Format, calls: seq<Call>, n: nat)
    requires n < |calls| && Proper(Closed(others, format), calls) && forall a :: a in others ==> a > 0
    requires calls[n] == Close
    ensures var w := After(Closed(others, format), calls, n + 1);
            w.mapped == others && w.fd == -1 && w.bufs == [] && !w.streaming
  {
    ReachableInv(others, format, calls, n);
    ShutdownUnmapsAll(After(Closed(others, format), calls, n), others);
  }

  /** A second shutdown changes nothing. */
  lemma ShutdownTwice(w: World)
    requires w.fd >= -1
    ensures Shutdown(Shutdown(w)) == Shutdown(w)
  {
  }

  /** Buffers the driver refused to take back since the camera was ready. */
  function Lost(w: World, calls: seq<Call>, n: nat): set<nat>
    requires n <= |calls|
  {
    if n == 0 then {} else LostAfter(After(w, calls, n - 1), calls[n - 1], Lost(w, calls, n - 1))
  }

  function LostAfter(w: World, c: Call, lost: set<nat>): set<nat> {
    match c
    case Open(_) => {}
    case Shoot(s) => if Dequeues(w, s) && !s.requeues then lost + {s.index} else lost
    case Close => {}
  }

  /** While streaming, every buffer is mapped, and queued unless it is lost. */
  ghost predicate Streams(w: World, lost: set<nat>) {
    w.streaming ==>
      && w.fd >= 0
      && (forall i :: 0 <= i < |w.bufs| ==> IsMapped(w.bufs[i]))
      && w.queued == Indices(|w.bufs|) - lost
      && lost <= Indices(|w.bufs|)
  }

  lemma CallKeepsStreaming(w: World, c: Call, others: map<Address, nat>, lost: set<nat>)
    requires Inv(w, others) && (c.Open? ==> w.fd < 0) && Streams(w, lost)
    ensures Streams(Perform(w, c), LostAfter(w, c, lost))
  {
    match c {
      case Open(a) => StartupKeepsInv(w, a, others);
      case Shoot(_) =>
      case Close =>
    }
  }

  lemma CallAtKeepsStreaming(start: World, calls: seq<Call>, k: nat, others: map<Address, nat>)
    requires k < |calls| && Inv(After(start, calls, k), others) && ProperAt(start, calls, k)
    requires Streams(After(start, calls, k), Lost(start, calls, k))
    ensures Streams(After(start, calls, k + 1), Lost(start, calls, k + 1))
  {
    CallKeepsStreaming(After(start, calls, k), calls[k], others, Lost(start, calls, k));
  }

  lemma {:induction false} ReachableStreams(others: map<Address, nat>, format: Format, calls: seq<Call>, n: nat)
    requires n <= |calls| && Proper(Closed(others, format), calls) && forall a :: a in others ==> a > 0
    ensures Streams(After(Closed(others, format), calls, n), Lost(Closed(others, format), calls, n))
  {
    var w := Closed(others, format);
    if n > 0 {
      ReachableStreams(others, format, calls, n - 1);
      ReachableInv(others, format, calls, n - 1);
      assert ProperAt(w, calls, n - 1);
      CallAtKeepsStreaming(w, calls, n - 1, others);
    }
  }

  /** While streaming, all buffers are mapped, and all are queued but those the driver refused. */
  lemma StreamingBuffers(others: map<Address, nat>, format: Format, calls: seq<Call>, n: nat)
    requires n <= |calls| && Proper(Closed(others, format), calls) && forall a :: a in others ==> a > 0
    requires After(Closed(others, format), calls, n).streaming
    ensures var s, lost := After(Closed(others, format), calls, n), Lost(Closed(others, format), calls, n);
            && (forall i :: 0 <= i < |s.bufs| ==> IsMapped(s.bufs[i]))
            && s.queued == Indices(|s.bufs|) - lost
            && (s.queued == Indices(|s.bufs|) <==> lost == {})
  {
    ReachableStreams(others, format, calls, n);
    AllBut(Indices(|After(Closed(others, format), calls, n).bufs|), Lost(Closed(others, format), calls, n));
  }

  lemma AllBut(all: set<nat>, lost: set<nat>)
    requires lost <= all
    ensures all - lost == all <==> lost == {}
  {
    assert forall x :: x in lost ==> x in all && x !in all - lost;
  }

  /**
   During a snapshot the buffers outside the queue are the one it
   works on, which is mapped, and those lost before: just that one if none is lost.
   */
  lemma OneBufferOut(others: map<Address, nat>, format: Format, calls: seq<Call>, n: nat, s: ShotAnswers)
    requires n <= |calls| && Proper(Closed(others, format), calls) && forall a :: a in others ==> a > 0
    requires Dequeues(After(Closed(others, format), calls, n), s)
    ensures var w, lost := After(Closed(others, format), calls, n), Lost(Closed(others, format), calls, n);
            && s.index < |w.bufs| && IsMapped(w.bufs[s.index]) && s.index !in lost
            && Indices(|w.bufs|) - (w.queued - {s.index}) == lost + {s.index}
            && (Indices(|w.bufs|) - (w.queued - {s.index}) == {s.index} <==> lost == {})
  {
    ReachableStreams(others, format, calls, n);
    var w, lost := After(Closed(others, format), calls, n), Lost(Closed(others, format), calls, n);
    assert forall i :: i in lost ==> i in lost + {s.index} && i != s.index;
  }
}
