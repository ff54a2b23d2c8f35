/** The to-do record and the pomodoro timer of the first version of the
    program: a `Task` with a two-state status and a pomodoro counter, and a
    `PomodoroTimer` whose sessions credit a task with one pomodoro.

    Each class has a value view (`TaskRecord`, `TimerRecord`), and every
    method states its effect as a function of the old view; module
    `Sessions` proves what any sequence of these calls does. */
module TodoPom {

  /** The C++ `int` of the source. */
  newtype Int32 = x: int | -0x8000_0000 <= x <= 0x7fff_ffff

  const INT_MAX: Int32 := 0x7fff_ffff

  const PENDING: string := "Pending"
  const COMPLETE: string := "Complete"

  /** The only two values the source ever stores in `status`. */
  predicate IsStatus(s: string) {
    s == PENDING || s == COMPLETE
  }

  // ---------------------------------------------------------------------
  // Task

  /** The fields of a `Task`, as a value. */
  datatype TaskRecord = TaskRecord(
    name: string,
    description: string,
    priority: Int32,
    status: string,
    pomCount: Int32)

  /** The object invariant of a task: a known status, a count that never
      went below its initial 0. */
  predicate TaskInvariant(t: TaskRecord) {
    IsStatus(t.status) && t.pomCount >= 0
  }

  /** A task as the constructor leaves it. */
  function NewTask(n: string, d: string, p: Int32): TaskRecord {
    TaskRecord(n, d, p, PENDING, 0)
  }

  /** A task after `markComplete`. */
  function Completed(t: TaskRecord): TaskRecord {
    t.(status := COMPLETE)
  }

  /** A task after `incrementPom`; defined only where the C++ increment
      does not overflow. */
  function Credited(t: TaskRecord): TaskRecord
    requires t.pomCount < INT_MAX
  {
    t.(pomCount := t.pomCount + 1)
  }

  class Task {
    var name: string
    var description: string
    var priority: Int32
    var status: string
    var pomCount: Int32

    function Record(): TaskRecord
      reads this
    {
      TaskRecord(name, description, priority, status, pomCount)
    }

    ghost predicate Valid()
      reads this
    {
      TaskInvariant(Record())
    }

    constructor (n: string, d: string, p: Int32)
      ensures Valid()
      ensures name == n && description == d && priority == p
      ensures status == PENDING && pomCount == 0
      ensures Record() == NewTask(n, d, p)
    {
      name, description, priority := n, d, p;
      status, pomCount := PENDING, 0;
    }

    /** Sets the status to "Complete"; no other field is written. */
    method MarkComplete()
      modifies this`status
      ensures status == COMPLETE
      ensures Record() == Completed(old(Record()))
      ensures old(Valid()) ==> Valid()
    {
      status := COMPLETE;
    }

    /** Adds one pomodoro; no other field is written. */
    method IncrementPom()
      requires pomCount < INT_MAX
      modifies this`pomCount
      ensures pomCount == old(pomCount) + 1
      ensures Record() == Credited(old(Record()))
      ensures old(Valid()) ==> Valid()
    {
      pomCount := pomCount + 1;
    }
  }

  // ---------------------------------------------------------------------
  // PomodoroTimer

  /** How long `sleep_for(minutes(d))` waits, in minutes: a duration that
      is not positive returns at once. */
  function Slept(d: Int32): nat {
    if d > 0 then d as nat else 0
  }

  /** The fields of a `PomodoroTimer` together with the abstract clock:
      the minutes its timers have slept since it was made. */
  datatype TimerRecord = TimerRecord(
    workDuration: Int32,
    breakDuration: Int32,
    elapsed: nat)

  /** A timer after `startBreak`: one break timer has run. */
  function AfterBreak(c: TimerRecord): TimerRecord {
    c.(elapsed := c.elapsed + Slept(c.breakDuration))
  }

  /** A timer after `startSession`: a work timer, then a break timer. */
  function AfterSession(c: TimerRecord): TimerRecord {
    AfterBreak(c.(elapsed := c.elapsed + Slept(c.workDuration)))
  }

  class PomodoroTimer {
    var workDuration: Int32
    var breakDuration: Int32
    /** Minutes spent sleeping in `Timer`; stands for the wall clock. */
    ghost var elapsed: nat

    ghost function Record(): TimerRecord
      reads this
    {
      TimerRecord(workDuration, breakDuration, elapsed)
    }

    /** Durations in minutes, 25 and 5 unless given. */
    constructor (work: Int32 := 25, brk: Int32 := 5)
      ensures workDuration == work && breakDuration == brk
      ensures elapsed == 0
    {
      workDuration, breakDuration := work, brk;
      elapsed := 0;
    }

    /** Runs one work timer, credits `task` with a pomodoro, then runs a
        break timer. */
    method StartSession(task: Task)
      requires task.pomCount < INT_MAX
      modifies this`elapsed, task`pomCount
      ensures task.pomCount == old(task.pomCount) + 1
      ensures task.Record() == Credited(old(task.Record()))
      ensures Record() == AfterSession(old(Record()))
      ensures workDuration > 0 && breakDuration > 0 ==>
                elapsed == old(elapsed) + workDuration as nat + breakDuration as nat
      ensures old(task.Valid()) ==> task.Valid()
    {
      Timer(workDuration);
      task.IncrementPom();
      StartBreak();
    }

    /** Runs one break timer; no task is touched. */
    method StartBreak()
      modifies this`elapsed
      ensures Record() == AfterBreak(old(Record()))
      ensures breakDuration > 0 ==> elapsed == old(elapsed) + breakDuration as nat
    {
      Timer(breakDuration);
    }

    /** The waiting half of the source's private `timer`: it sleeps for
        `duration` minutes. */
    method Timer(duration: Int32)
      modifies this`elapsed
      ensures elapsed == old(elapsed) + Slept(duration)
    {
      elapsed := elapsed + Slept(duration);
    }
  }
}
