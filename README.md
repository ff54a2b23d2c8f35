# Pomodoro to-do core, modelled in Dafny

The first version of this command-line pomodoro tool keeps two small objects.
A `Task` is a to-do item: a name, a description, a priority, a status and a
count of the pomodoros spent on it. The status starts as "Pending" and
`markComplete` turns it into "Complete". The count starts at 0 and
`incrementPom` adds one. A `PomodoroTimer` holds a work duration and a break
duration, in minutes, with defaults of 25 and 5. `startSession(task)` runs a
work timer, credits the task with one pomodoro and then runs a break timer.
`startBreak` runs only the break timer.

The project has two files:

- `todo_pom.dfy`, module `TodoPom`: the two classes with the source's fields.
  Each method has a `modifies` clause that names only the fields it writes.
  Each method also ties its new state to a function of the old state:
  `Completed` and `Credited` for a task, `AfterSession` and `AfterBreak` for a
  timer. The C++ `int` fields are the newtype `Int32`. The real waiting is
  replaced by a ghost field `elapsed`. It counts the minutes the timer has
  slept since it was made. `sleep_for` returns at once for a duration that is
  not positive, so a timer of `d` minutes advances the clock by `Slept(d)`,
  which is `d` when `d > 0` and `0` otherwise.
- `session.dfy`, module `Sessions`: the life cycle. `Run` applies any
  sequence of public calls (`markComplete`, `incrementPom`, `startSession`,
  `startBreak`) to one task and one timer. Each `Step` uses the same
  functions that the methods' `ensures` clauses use. The lemmas state what
  every reachable state satisfies.

## Model

| member | source | states |
|---|---|---|
| `TodoPom.Task.constructor` | todo_pom.cpp:21-22 | A new task holds the given name, description and priority, with status "Pending" and a count of 0, and it satisfies the task invariant. |
| `TodoPom.Task.MarkComplete` | todo_pom.cpp:24-27 | The status becomes "Complete". Only `status` may change, so name, description, priority and count stay the same. The task invariant is kept. |
| `TodoPom.Task.IncrementPom` | todo_pom.cpp:29-32 | The count rises by exactly 1 and no other field changes. It is callable only below `INT_MAX`, where the C++ increment does not overflow. The task invariant is kept. |
| `TodoPom.PomodoroTimer.constructor` | todo_pom.cpp:50 | The timer stores the given durations unchanged, 25 and 5 when they are omitted, and its clock starts at 0. |
| `TodoPom.PomodoroTimer.StartSession` | todo_pom.cpp:52-58 | The task's count rises by exactly 1 and nothing else in the task changes. The timer's durations stay the same. The clock advances by one work timer and one break timer, so by `workDuration + breakDuration` minutes when both are positive. |
| `TodoPom.PomodoroTimer.StartBreak` | todo_pom.cpp:60-64 | Only the clock changes, by one break timer: `breakDuration` minutes when that is positive. No task is touched. |
| `TodoPom.PomodoroTimer.Timer` | todo_pom.cpp:67-71 | A timer of `duration` minutes moves the clock by `duration` when that is positive and by nothing otherwise. |
| `Sessions.PomCount` | todo_pom.cpp:29-58 | After any sequence of calls, the count equals its old value plus the number of `incrementPom` and `startSession` calls. |
| `Sessions.Identity` | todo_pom.cpp:15-64 | No sequence of calls changes the name, the description or the priority. |
| `Sessions.Status` | todo_pom.cpp:18-27 | After any sequence of calls, the status is "Complete" exactly when it was "Complete" before or one of the calls was `markComplete`. Without a `markComplete` call, the status is unchanged. |
| `Sessions.KeepsInvariant` | todo_pom.cpp:18-32 | Every sequence of calls keeps the task invariant: the status is "Pending" or "Complete" and the count is non-negative. |
| `Sessions.Clock` | todo_pom.cpp:47-71 | No call changes `workDuration` or `breakDuration`. The clock advances by exactly the minutes slept by the timers of the calls. |
| `Sessions.MinutesByCount` | todo_pom.cpp:52-71 | A sequence of calls sleeps one work timer and one break timer per `startSession`, one break timer per `startBreak`, and nothing for the other calls. |
| `Sessions.PositiveClock` | todo_pom.cpp:50-71 | With positive durations, the clock advances by `workDuration + breakDuration` per session and by `breakDuration` per break. |
| `Sessions.RunAppend` | todo_pom.cpp:24-64 | Running one sequence of calls and then another gives the same state as running the two sequences joined. |
| `Sessions.MarkCompleteIdempotent` | todo_pom.cpp:24-27 | Whatever calls come before and after, two `markComplete` calls in a row leave the same state as one. |
| `Sessions.Reachable` | todo_pom.cpp:21-58 | Every state reachable from a new task has the constructor's name, description and priority. Its status is "Complete" if some call was `markComplete` and "Pending" otherwise. Its count equals the number of credited calls. |

## Left out

- `displayTask` and every console message (the task display and the phase messages of `startSession`, `startBreak` and `timer`) are presentation only.
- Real waiting in `timer`: the ghost minute counter `elapsed` stands in for the wall clock.
- `main` only builds a default timer and calls `startBreak`. The constructor and `StartBreak` rows cover what it does.
- `TodoPom.Task.IncrementPom`: requires `pomCount < INT_MAX`, because a C++ increment past `INT_MAX` is undefined behaviour. The model gives that case no meaning.
- `TodoPom.PomodoroTimer.StartSession`: requires `task.pomCount < INT_MAX` for the same reason, since it calls `incrementPom`.
- The task invariant (status "Pending" or "Complete", count non-negative) holds for a task changed only through its methods. The C++ fields are public, so other code could write them directly. The model assumes no code does that.
- `Slept`: a duration of `d` minutes converted to the clock's internal representation is taken exactly, with no overflow in the conversion.
