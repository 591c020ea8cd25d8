/**
 Two tasks that increment and print a counter under one lock, each in an
 endless loop, interleaved step by step in any order.
 */
module SharedCounter {
  datatype Task = Task0 | Task1

  /** Where a task stands in its loop. Sleeping covers the sleep and the wait for the lock. */
  datatype Pc = Sleeping | Holding | Loaded(value: nat) | Stored | Printed

  const WRAP := 0x1_0000_0000

  datatype Line = Line(task: Task, value: nat)

  datatype State = State(counter: nat, lockedBy: set<Task>, pc0: Pc, pc1: Pc, output: seq<Line>)

  const START := State(0, {}, Sleeping, Sleeping, [])

  function PcOf(s: State, t: Task): Pc {
    match t
    case Task0 => s.pc0
    case Task1 => s.pc1
  }

  function Moved(s: State, t: Task, pc: Pc): State {
    match t
    case Task0 => s.(pc0 := pc)
    case Task1 => s.(pc1 := pc)
  }

  /** One step of a task: lock, load, store, print, unlock. A task that finds the lock taken waits. */
  function Step(s: State, t: Task): State {
    match PcOf(s, t)
    case Sleeping => if s.lockedBy == {} then Moved(s, t, Holding).(lockedBy := {t}) else s
    case Holding => Moved(s, t, Loaded(s.counter))
    case Loaded(v) => Moved(s, t, Stored).(counter := (v + 1) % WRAP)
    case Stored => Moved(s, t, Printed).(output := s.output + [Line(t, s.counter)])
    case Printed => Moved(s, t, Sleeping).(lockedBy := s.lockedBy - {t})
  }

  function After(schedule: seq<Task>, n: nat): State
    requires n <= |schedule|
  {
    if n == 0 then START else Step(After(schedule, n - 1), schedule[n - 1])
  }

  /** Rounds of its loop that the task has completed. */
  function Rounds(schedule: seq<Task>, n: nat, t: Task): nat
    requires n <= |schedule|
  {
    if n == 0 then 0
    else Rounds(schedule, n - 1, t)
         + if schedule[n - 1] == t && PcOf(After(schedule, n - 1), t) == Printed then 1 else 0
  }

  class Program {
    var counter: nat
    var lockedBy: set<Task>
    var pc0: Pc
    var pc1: Pc
    var output: seq<Line>

    constructor ()
      ensures View() == START
    {
      counter, lockedBy, pc0, pc1, output := 0, {}, Sleeping, Sleeping, [];
    }

    function View(): State
      reads this
    {
      State(counter, lockedBy, pc0, pc1, output)
    }

    method Move(t: Task, pc: Pc)
      modifies this`pc0, this`pc1
      ensures View() == Moved(old(View()), t, pc)
    {
      match t {
        case Task0 => pc0 := pc;
        case Task1 => pc1 := pc;
      }
    }

    method Advance(t: Task)
      modifies this
      ensures View() == Step(old(View()), t)
    {
      match PcOf(View(), t) {
        case Sleeping =>
          if lockedBy == {} {
            lockedBy := {t};
            Move(t, Holding);
          }
        case Holding =>
          Move(t, Loaded(counter));
        case Loaded(v) =>
          counter := (v + 1) % WRAP;
          Move(t, Stored);
        case Stored =>
          output := output + [Line(t, counter)];
          Move(t, Printed);
        case Printed =>
          lockedBy := lockedBy - {t};
          Move(t, Sleeping);
      }
    }
  }

  /** Runs the program under a schedule. */
  method Execute(schedule: seq<Task>) returns (output: seq<Line>)
    ensures output == After(schedule, |schedule|).output
  {
    var p := new Program();
    for i := 0 to |schedule|
      invariant p.View() == After(schedule, i)
    {
      p.Advance(schedule[i]);
    }
    output := p.output;
  }

  // ----- invariants under every interleaving -----

  function InState(s: State, pc: Pc): nat {
    (if s.pc0 == pc then 1 else 0) + if s.pc1 == pc then 1 else 0
  }

  ghost predicate TaskInv(s: State, t: Task) {
    && (t in s.lockedBy <==> PcOf(s, t) != Sleeping)
    && (PcOf(s, t).Loaded? ==> PcOf(s, t).value == s.counter)
  }

  /** One task inside at most; the counter counts the lines printed and a stored increment not printed yet. */
  ghost predicate Inv(s: State) {
    && TaskInv(s, Task0) && TaskInv(s, Task1)
    && (s.pc0 == Sleeping || s.pc1 == Sleeping)
    && s.counter == (|s.output| + InState(s, Stored)) % WRAP
    && forall i :: 0 <= i < |s.output| ==> s.output[i].value == (i + 1) % WRAP
  }

  lemma StepKeepsInv(s: State, t: Task)
    requires Inv(s)
    ensures Inv(Step(s, t))
  {
    assert s.lockedBy == {} ==> s.pc0 == Sleeping && s.pc1 == Sleeping;
    match PcOf(s, t) {
      case Sleeping =>
      case Holding =>
      case Loaded(_) =>
      case Stored =>
      case Printed =>
    }
  }

  lemma {:induction false} ReachableInv(schedule: seq<Task>, n: nat)
    requires n <= |schedule|
    ensures Inv(After(schedule, n))
  {
    if n > 0 {
      ReachableInv(schedule, n - 1);
      StepKeepsInv(After(schedule, n - 1), schedule[n - 1]);
    }
  }

  /** The two tasks are never both inside. */
  lemma MutualExclusion(schedule: seq<Task>, n: nat)
    requires n <= |schedule|
    ensures var s := After(schedule, n); s.pc0 == Sleeping || s.pc1 == Sleeping
  {
    ReachableInv(schedule, n);
  }

  /** No increment is lost: whatever the interleaving, the values printed are 1, 2, 3, ... */
  lemma PrintsCount(schedule: seq<Task>, n: nat, i: nat)
    requires n <= |schedule| && i < |After(schedule, n).output|
    ensures After(schedule, n).output[i].value == (i + 1) % WRAP
  {
    ReachableInv(schedule, n);
  }

  lemma LinesIncrease(s: State, i: nat, j: nat)
    requires Inv(s) && i < j < |s.output| < WRAP
    ensures s.output[i].value < s.output[j].value
  {
    assert (i + 1) % WRAP == i + 1 && (j + 1) % WRAP == j + 1;
  }

  /** Each task's own lines, like all lines together, increase until the counter wraps. */
  lemma OwnLinesIncrease(schedule: seq<Task>, n: nat, i: nat, j: nat)
    requires n <= |schedule| && i < j < |After(schedule, n).output| < WRAP
    ensures After(schedule, n).output[i].value < After(schedule, n).output[j].value
  {
    ReachableInv(schedule, n);
    LinesIncrease(After(schedule, n), i, j);
  }

  lemma {:induction false} LinesAreRounds(schedule: seq<Task>, n: nat)
    requires n <= |schedule|
    ensures |After(schedule, n).output| ==
            Rounds(schedule, n, Task0) + Rounds(schedule, n, Task1) + InState(After(schedule, n), Printed)
  {
    if n > 0 {
      LinesAreRounds(schedule, n - 1);
      LineStep(After(schedule, n - 1), schedule[n - 1]);
    }
  }

  lemma LineStep(s: State, t: Task)
    ensures var ends := if PcOf(s, t) == Printed then 1 else 0;
            |Step(s, t).output| - InState(Step(s, t), Printed) == |s.output| - InState(s, Printed) + ends
  {
  }

  lemma FreeIsQuiet(s: State)
    requires Inv(s) && s.lockedBy == {}
    ensures s.counter == |s.output| % WRAP && InState(s, Printed) == 0
  {
    assert s.pc0 == Sleeping && s.pc1 == Sleeping;
  }

  /** With the lock free the counter is the number of completed rounds of both tasks. */
  lemma FreeCounter(schedule: seq<Task>, n: nat)
    requires n <= |schedule| && After(schedule, n).lockedBy == {}
    ensures After(schedule, n).counter == (Rounds(schedule, n, Task0) + Rounds(schedule, n, Task1)) % WRAP
  {
    ReachableInv(schedule, n);
    FreeIsQuiet(After(schedule, n));
    LinesAreRounds(schedule, n);
  }

  // ----- progress -----

  /** A task's step changes nothing if and only if the task sleeps while the lock is held. */
  lemma WaitsIff(s: State, t: Task)
    ensures Step(s, t) == s <==> PcOf(s, t) == Sleeping && s.lockedBy != {}
  {
  }

  function Steps(s: State, t: Task, n: nat): State {
    if n == 0 then s else Step(Steps(s, t, n - 1), t)
  }

  /** With the lock free, five steps of a task alone print the next number under its name and free the lock. */
  lemma RoundAlone(s: State, t: Task)
    requires s.lockedBy == {} && PcOf(s, t) == Sleeping
    ensures var c := (s.counter + 1) % WRAP;
            Steps(s, t, 5) == s.(counter := c, output := s.output + [Line(t, c)])
  {
    var c := (s.counter + 1) % WRAP;
    var s1 := Moved(s, t, Holding).(lockedBy := {t});
    var s2 := Moved(s1, t, Loaded(s.counter));
    var s3 := Moved(s2, t, Stored).(counter := c);
    var s4 := Moved(s3, t, Printed).(output := s.output + [Line(t, c)]);
    assert Steps(s, t, 1) == s1;
    assert Steps(s, t, 2) == s2;
    assert Steps(s, t, 3) == s3;
    assert Steps(s, t, 4) == s4;
    assert {t} - {t} == {};
  }

  function LinesOf(output: seq<Line>, t: Task): nat {
    if output == [] then 0
    else LinesOf(output[..|output| - 1], t) + if output[|output| - 1].task == t then 1 else 0
  }

  lemma OwnLineStep(s: State, t: Task, actor: Task)
    ensures var s' := Step(s, actor);
            LinesOf(s'.output, t) == LinesOf(s.output, t) + if actor == t && PcOf(s, t) == Stored then 1 else 0
  {
    if PcOf(s, actor) == Stored {
      assert (s.output + [Line(actor, s.counter)])[..|s.output|] == s.output;
    }
  }

  /** The lines under a task's name are the rounds it has completed, and one more if it has yet to unlock. */
  lemma {:induction false} OwnLinesAreRounds(schedule: seq<Task>, n: nat, t: Task)
    requires n <= |schedule|
    ensures var s := After(schedule, n);
            LinesOf(s.output, t) == Rounds(schedule, n, t) + if PcOf(s, t) == Printed then 1 else 0
  {
    if n > 0 {
      OwnLinesAreRounds(schedule, n - 1, t);
      OwnLineStep(After(schedule, n - 1), t, schedule[n - 1]);
    }
  }
}
