/** What any sequence of the public calls does to one task and one timer.

    `Step` applies one call to the value views, using the same functions
    the methods of `TodoPom.Task` and `TodoPom.PomodoroTimer` promise in
    their `ensures`; `Run` applies a whole sequence of calls. The lemmas
    state the life-cycle facts: the status only ever holds "Pending" or
    "Complete", the count rises by one per credited call, the durations
    never change, and the clock advances by the sleeps of the timers run. */
module Sessions {
  import opened TodoPom

  /** The public operations on a task and a timer. */
  datatype Call = MarkComplete | IncrementPom | StartSession | StartBreak

  /** A task together with the timer that runs its sessions. */
  datatype World = World(task: TaskRecord, timer: TimerRecord)

  /** Whether the call adds a pomodoro to the task. */
  predicate AddsPomodoro(c: Call) {
    c == IncrementPom || c == StartSession
  }

  /** The number of occurrences of `c` in `cs`. */
  function Count(cs: seq<Call>, c: Call): nat {
    if cs == [] then 0 else (if cs[0] == c then 1 else 0) + Count(cs[1..], c)
  }

  /** The number of pomodoros the calls add to the task. */
  function Pomodoros(cs: seq<Call>): nat {
    Count(cs, IncrementPom) + Count(cs, StartSession)
  }

  /** One call: the same effect each method states in its `ensures`. */
  function Step(w: World, c: Call): World
    requires AddsPomodoro(c) ==> w.task.pomCount < INT_MAX
  {
    match c
    case MarkComplete => w.(task := Completed(w.task))
    case IncrementPom => w.(task := Credited(w.task))
    case StartSession => World(Credited(w.task), AfterSession(w.timer))
    case StartBreak => w.(timer := AfterBreak(w.timer))
  }

  /** A sequence of calls, defined as long as the count cannot overflow
      along the way. */
  function Run(w: World, cs: seq<Call>): World
    requires w.task.pomCount as int + Pomodoros(cs) <= INT_MAX as int
    decreases |cs|
  {
    if cs == [] then w else Run(Step(w, cs[0]), cs[1..])
  }

  lemma {:induction false} CountAppend(p: seq<Call>, q: seq<Call>, c: Call)
    ensures Count(p + q, c) == Count(p, c) + Count(q, c)
  {
    if p == [] {
      assert p + q == q;
    } else {
      assert (p + q)[1..] == p[1..] + q;
      CountAppend(p[1..], q, c);
    }
  }

  /** Running `p` and then `q` is running `p + q`. */
  lemma {:induction false} RunAppend(w: World, p: seq<Call>, q: seq<Call>)
    requires w.task.pomCount as int + Pomodoros(p) + Pomodoros(q) <= INT_MAX as int
    ensures Pomodoros(p + q) == Pomodoros(p) + Pomodoros(q)
    ensures w.task.pomCount as int + Pomodoros(p) <= INT_MAX as int
    ensures Run(w, p).task.pomCount as int + Pomodoros(q) <= INT_MAX as int
    ensures Run(w, p + q) == Run(Run(w, p), q)
    decreases |p|
  {
    CountAppend(p, q, IncrementPom);
    CountAppend(p, q, StartSession);
    PomCount(w, p);
    if p != [] {
      assert (p + q)[1..] == p[1..] + q;
      RunAppend(Step(w, p[0]), p[1..], q);
    } else {
      assert p + q == q;
    }
  }

  /** The count goes up by exactly one per `incrementPom` and per
      `startSession`, and by nothing else. */
  lemma {:induction false} PomCount(w: World, cs: seq<Call>)
    requires w.task.pomCount as int + Pomodoros(cs) <= INT_MAX as int
    ensures Run(w, cs).task.pomCount as int == w.task.pomCount as int + Pomodoros(cs)
    decreases |cs|
  {
    if cs != [] {
      PomCount(Step(w, cs[0]), cs[1..]);
    }
  }

  /** No call writes the name, the description or the priority. */
  lemma {:induction false} Identity(w: World, cs: seq<Call>)
    requires w.task.pomCount as int + Pomodoros(cs) <= INT_MAX as int
    ensures Run(w, cs).task.name == w.task.name
    ensures Run(w, cs).task.description == w.task.description
    ensures Run(w, cs).task.priority == w.task.priority
    decreases |cs|
  {
    if cs != [] {
      Identity(Step(w, cs[0]), cs[1..]);
    }
  }

  /** The status is "Complete" afterwards exactly when it was before or
      some call was `markComplete`; otherwise it is what it was. */
  lemma {:induction false} Status(w: World, cs: seq<Call>)
    requires w.task.pomCount as int + Pomodoros(cs) <= INT_MAX as int
    ensures Run(w, cs).task.status == COMPLETE <==>
              w.task.status == COMPLETE || MarkComplete in cs
    ensures MarkComplete !in cs ==> Run(w, cs).task.status == w.task.status
    decreases |cs|
  {
    if cs != [] {
      Status(Step(w, cs[0]), cs[1..]);
      assert MarkComplete in cs <==> cs[0] == MarkComplete || MarkComplete in cs[1..];
    }
  }

  /** Every call keeps the task invariant: the status stays "Pending" or
      "Complete" and the count stays non-negative. */
  lemma {:induction false} KeepsInvariant(w: World, cs: seq<Call>)
    requires w.task.pomCount as int + Pomodoros(cs) <= INT_MAX as int
    requires TaskInvariant(w.task)
    ensures TaskInvariant(Run(w, cs).task)
    decreases |cs|
  {
    if cs != [] {
      KeepsInvariant(Step(w, cs[0]), cs[1..]);
    }
  }

  /** The minutes a call makes a timer with these durations sleep. */
  function CallMinutes(work: Int32, brk: Int32, c: Call): nat {
    match c
    case StartSession => Slept(work) + Slept(brk)
    case StartBreak => Slept(brk)
    case _ => 0
  }

  /** The minutes the calls make a timer with these durations sleep, in
      all. */
  function Minutes(work: Int32, brk: Int32, cs: seq<Call>): nat {
    if cs == [] then 0 else CallMinutes(work, brk, cs[0]) + Minutes(work, brk, cs[1..])
  }

  /** The durations never change, and the clock advances by exactly the
      minutes the timers of the calls sleep. */
  lemma {:induction false} Clock(w: World, cs: seq<Call>)
    requires w.task.pomCount as int + Pomodoros(cs) <= INT_MAX as int
    ensures Run(w, cs).timer.workDuration == w.timer.workDuration
    ensures Run(w, cs).timer.breakDuration == w.timer.breakDuration
    ensures Run(w, cs).timer.elapsed == w.timer.elapsed + Minutes(w.timer.workDuration, w.timer.breakDuration, cs)
    decreases |cs|
  {
    if cs != [] {
      Clock(Step(w, cs[0]), cs[1..]);
    }
  }

  /** A session sleeps one work and one break timer, a break one break
      timer, and nothing else sleeps. */
  lemma {:induction false} MinutesByCount(work: Int32, brk: Int32, cs: seq<Call>)
    ensures Minutes(work, brk, cs) ==
              Count(cs, StartSession) * (Slept(work) + Slept(brk))
              + Count(cs, StartBreak) * Slept(brk)
  {
    if cs != [] {
      var rest := cs[1..];
      MinutesByCount(work, brk, rest);
      var s, b := Slept(work) + Slept(brk), Slept(brk);
      var k, j := Count(rest, StartSession), Count(rest, StartBreak);
      var ks, jb := k * s, j * b;
      if cs[0] == StartSession {
        assert (k + 1) * s == ks + s by { Distribute(k, s); }
      } else if cs[0] == StartBreak {
        assert (j + 1) * b == jb + b by { Distribute(j, b); }
      }
    }
  }

  lemma Distribute(k: nat, s: nat)
    ensures (k + 1) * s == k * s + s
  {
  }

  /** With positive durations, the clock advances by `workDuration +
      breakDuration` minutes per session and `breakDuration` per break. */
  lemma PositiveClock(w: World, cs: seq<Call>)
    requires w.task.pomCount as int + Pomodoros(cs) <= INT_MAX as int
    requires w.timer.workDuration > 0 && w.timer.breakDuration > 0
    ensures Run(w, cs).timer.elapsed ==
              w.timer.elapsed
              + Count(cs, StartSession) * (w.timer.workDuration as int + w.timer.breakDuration as int)
              + Count(cs, StartBreak) * w.timer.breakDuration as int
  {
    Clock(w, cs);
    MinutesByCount(w.timer.workDuration, w.timer.breakDuration, cs);
  }

  /** Calling `markComplete` twice in a row leaves the same state as
      calling it once, whatever came before and comes after. */
  lemma MarkCompleteIdempotent(w: World, p: seq<Call>, q: seq<Call>)
    requires w.task.pomCount as int + Pomodoros(p) + Pomodoros(q) <= INT_MAX as int
    ensures Pomodoros(p + [MarkComplete, MarkComplete] + q) == Pomodoros(p) + Pomodoros(q)
    ensures Pomodoros(p + [MarkComplete] + q) == Pomodoros(p) + Pomodoros(q)
    ensures Run(w, p + [MarkComplete, MarkComplete] + q) == Run(w, p + [MarkComplete] + q)
  {
    var twice, once := [MarkComplete, MarkComplete], [MarkComplete];
    RunAppend(w, p, twice);
    RunAppend(w, p + twice, q);
    RunAppend(w, p, once);
    RunAppend(w, p + once, q);
    var m := Run(w, p);
    assert Run(m, twice) == Run(m, once) by {
      assert twice[1..] == once && once[1..] == [];
    }
  }

  /** Every state reachable from a new task by public calls has the
      constructor's name, description and priority, a known status, and
      as many pomodoros as credited calls. */
  lemma Reachable(n: string, d: string, p: Int32, c: TimerRecord, cs: seq<Call>)
    requires Pomodoros(cs) <= INT_MAX as int
    ensures TaskInvariant(Run(World(NewTask(n, d, p), c), cs).task)
    ensures Run(World(NewTask(n, d, p), c), cs).task.pomCount as int == Pomodoros(cs)
    ensures Run(World(NewTask(n, d, p), c), cs).task ==
              TaskRecord(n, d, p,
                         if MarkComplete in cs then COMPLETE else PENDING,
                         Pomodoros(cs) as Int32)
  {
    var w := World(NewTask(n, d, p), c);
    KeepsInvariant(w, cs);
    PomCount(w, cs);
    Identity(w, cs);
    Status(w, cs);
  }
}
