/** The analytics: read-only projections of a snapshot of the task store, with the
    clock ("now") and the start of the current week passed in. */
module Stats {
  import opened Outcomes
  import opened Seqs
  import opened Tasks

  /** The fixed 24-hour step the analytics move by. */
  const MsPerDay: int := 86400000

  /** The streak walk stops after this many days. */
  const MaxStreak: nat := 365

  /** The calendar day a timestamp falls on (days since the epoch). */
  function Day(instant: int): int
  {
    instant / MsPerDay
  }

  /** `startOfDay`: the first instant of the day `instant` falls on. */
  function StartOfDay(instant: int): (start: int)
    ensures start <= instant < start + MsPerDay
    ensures Day(start) == Day(instant)
  {
    Day(instant) * MsPerDay
  }

  lemma DayOfDayStart(d: int)
    ensures Day(d * MsPerDay) == d
  {
  }

  lemma DayAfterWholeDays(instant: int, n: int)
    ensures Day(instant + n * MsPerDay) == Day(instant) + n
  {
  }

  /** The task has a completion time on that day. */
  predicate CompletedOn(t: Task, day: int)
  {
    t.completedAt.Some? && Day(t.completedAt.value) == day
  }

  /** The filter of the streak walk and of completedToday for one day. */
  function CompletionOnDay(day: int): Task -> bool
  {
    (t: Task) => CompletedOn(t, day)
  }

  /** The filter of completedThisWeek: `isAfter` is strict. */
  function CompletionAfter(instant: int): Task -> bool
  {
    (t: Task) => t.completedAt.Some? && t.completedAt.value > instant
  }

  /** The filter of one day of the weekly series: completed, with a time on that day,
      archived or not. */
  function CompletedTaskOnDay(day: int): Task -> bool
  {
    (t: Task) => t.completed && CompletedOn(t, day)
  }

  predicate IsActive(t: Task)
  {
    !t.archived
  }

  predicate IsCompleted(t: Task)
  {
    t.completed
  }

  /** The tasks the totals are taken over: the non-archived ones. */
  function ActiveTasks(ts: seq<Task>): seq<Task>
  {
    Filter(ts, IsActive)
  }

  /** `completedTasks`: completed and not archived. */
  function CompletedTasks(ts: seq<Task>): seq<Task>
  {
    Filter(ts, IsDoneActive)
  }

  /** Some completed, non-archived task was completed on that day. */
  predicate HasCompletionOn(ts: seq<Task>, day: int)
  {
    exists t :: t in ts && IsDoneActive(t) && CompletedOn(t, day)
  }

  datatype UserStats = UserStats(
    totalTasks: nat,
    completedToday: nat,
    completedThisWeek: nat,
    streak: nat,
    completionRate: nat)

  /** `Math.round(completed / total * 100)`, or 0 when there is no task: the integer
      nearest to the percentage, halves rounded up. */
  function CompletionRate(completed: nat, total: nat): (rate: nat)
    ensures total == 0 ==> rate == 0
    ensures total > 0 ==> 2 * total * rate <= 200 * completed + total < 2 * total * (rate + 1)
    ensures completed <= total ==> rate <= 100
  {
    if total > 0 then
      var rate := (200 * completed + total) / (2 * total);
      RateBound(completed, total, rate);
      rate
    else 0
  }

  lemma RateBound(completed: nat, total: nat, rate: nat)
    requires total > 0 && 2 * total * rate <= 200 * completed + total
    ensures completed <= total ==> rate <= 100
  {
    if completed <= total {
      assert 2 * total * rate < 2 * total * 101;
      MulCancel(2 * total, rate, 101);
    }
  }

  lemma MulCancel(a: int, x: int, y: int)
    requires a > 0 && a * x < a * y
    ensures x < y
  {
    if x >= y {
      MulMonotone(a, y, x);
    }
  }

  lemma MulMonotone(a: int, x: int, y: int)
    requires a >= 0 && x <= y
    ensures a * x <= a * y
  {
  }

  /** No more tasks are completed than are present. */
  lemma CompletedWithinTotal(ts: seq<Task>)
    ensures |CompletedTasks(ts)| <= |ActiveTasks(ts)|
  {
    FilterMonotone(ts, IsDoneActive, IsActive);
  }

  /** completedToday: completed, non-archived tasks completed on the day of `now`. */
  function CompletedToday(ts: seq<Task>, now: int): (n: nat)
    ensures n <= |CompletedTasks(ts)|
  {
    |Filter(CompletedTasks(ts), CompletionOnDay(Day(now)))|
  }

  /** completedThisWeek: completed, non-archived tasks completed after the week start. */
  function CompletedThisWeek(ts: seq<Task>, weekStart: int): (n: nat)
    ensures n <= |CompletedTasks(ts)|
  {
    |Filter(CompletedTasks(ts), CompletionAfter(weekStart))|
  }

  /** On the first day of the week, a task completed at the very start of the day counts
      as completed today but not as completed this week. */
  lemma FirstInstantOfWeekMissed(t: Task, now: int)
    requires t.completed && !t.archived && t.completedAt == Some(StartOfDay(now))
    ensures CompletedToday([t], now) == 1
    ensures CompletedThisWeek([t], StartOfDay(now)) == 0
  {
    FilterCons(t, [], IsDoneActive);
    assert CompletedTasks([t]) == [t];
    FilterCons(t, [], CompletionOnDay(Day(now)));
    FilterCons(t, [], CompletionAfter(StartOfDay(now)));
  }

  /** When today began after the week did, what was completed today was completed
      this week. The first day of the week is left out: there the week start is the start
      of today, and a completion at exactly that instant counts today but not this week,
      because "after the week start" is strict. */
  lemma TodayCountedInWeek(ts: seq<Task>, now: int, weekStart: int)
    requires weekStart < StartOfDay(now)
    ensures CompletedToday(ts, now) <= CompletedThisWeek(ts, weekStart)
  {
    forall t | t in CompletedTasks(ts) && CompletionOnDay(Day(now))(t)
      ensures CompletionAfter(weekStart)(t)
    {
      var c := t.completedAt.value;
      assert StartOfDay(c) == StartOfDay(now);
    }
    FilterMonotone(CompletedTasks(ts), CompletionOnDay(Day(now)), CompletionAfter(weekStart));
  }

  /** `streak` is the length of the run of days, ending `today`, each with a completion,
      capped at 365: every day of the run has one, and unless the cap was reached the
      day before the run has none. */
  predicate IsStreak(ts: seq<Task>, today: int, streak: nat)
  {
    && streak <= MaxStreak
    && (forall d :: today - streak < d <= today ==> HasCompletionOn(ts, d))
    && (streak < MaxStreak ==> !HasCompletionOn(ts, today - streak))
  }

  /** The streak loop: starting at today and walking back one day at a time, count the
      days with a completion until a day has none or 365 days are counted. */
  method Streak(ts: seq<Task>, now: int) returns (streak: nat)
    ensures IsStreak(ts, Day(now), streak)
  {
    var completedTasks := CompletedTasks(ts);
    streak := 0;
    var currentDate := StartOfDay(now);
    while streak < MaxStreak
      invariant streak <= MaxStreak
      invariant currentDate == (Day(now) - streak) * MsPerDay
      invariant forall d :: Day(now) - streak < d <= Day(now) ==> HasCompletionOn(ts, d)
    {
      DayOfDayStart(Day(now) - streak);
      var dayCompletions := Filter(completedTasks, CompletionOnDay(Day(currentDate)));
      if |dayCompletions| > 0 {
        assert dayCompletions[0] in dayCompletions;
        streak := streak + 1;
        currentDate := currentDate - MsPerDay;
      } else {
        assert !HasCompletionOn(ts, Day(now) - streak) by {
          forall t | t in ts && IsDoneActive(t) ensures !CompletedOn(t, Day(now) - streak) {
            assert t in completedTasks;
            assert t !in dayCompletions;
          }
        }
        break;
      }
    }
  }

  /** The streak is determined by the completions: at most one length fits. */
  lemma StreakIsUnique(ts: seq<Task>, today: int, a: nat, b: nat)
    requires IsStreak(ts, today, a) && IsStreak(ts, today, b)
    ensures a == b
  {
    assert a < b ==> HasCompletionOn(ts, today - a);
    assert b < a ==> HasCompletionOn(ts, today - b);
  }

  /** With nothing completed today the streak is 0, whatever happened yesterday. */
  lemma StreakZeroWithoutToday(ts: seq<Task>, today: int, streak: nat)
    requires !HasCompletionOn(ts, today)
    requires IsStreak(ts, today, streak)
    ensures streak == 0
  {
    assert streak > 0 ==> HasCompletionOn(ts, today);
  }

  /** Completions today and yesterday but not the day before make a streak of 2. */
  lemma StreakOfTwo(ts: seq<Task>, today: int, streak: nat)
    requires HasCompletionOn(ts, today) && HasCompletionOn(ts, today - 1)
    requires !HasCompletionOn(ts, today - 2)
    requires IsStreak(ts, today, streak)
    ensures streak == 2
  {
    assert IsStreak(ts, today, 2);
    StreakIsUnique(ts, today, streak, 2);
  }

  /** getUserStats: the totals, today's and this week's completions, the streak and the
      completion percentage, all over the non-archived tasks. */
  method GetUserStats(ts: seq<Task>, now: int, weekStart: int) returns (stats: UserStats)
    ensures stats.totalTasks == |ActiveTasks(ts)|
    ensures stats.completedToday == CompletedToday(ts, now)
    ensures stats.completedThisWeek == CompletedThisWeek(ts, weekStart)
    ensures stats.completionRate == CompletionRate(|CompletedTasks(ts)|, stats.totalTasks)
    ensures stats.completionRate <= 100
    ensures IsStreak(ts, Day(now), stats.streak)
  {
    var totalTasks := |ActiveTasks(ts)|;
    var completedTasks := CompletedTasks(ts);
    var streak := Streak(ts, now);
    CompletedWithinTotal(ts);
    stats := UserStats(
      totalTasks,
      CompletedToday(ts, now),
      CompletedThisWeek(ts, weekStart),
      streak,
      CompletionRate(|completedTasks|, totalTasks));
  }

  /** One entry of the weekly series: the start of the day and its completion count. */
  datatype DailyStat = DailyStat(date: int, completed: nat)

  /** The number of completed tasks, archived ones included, completed on that day. */
  function CompletedCountOn(ts: seq<Task>, day: int): nat
  {
    |Filter(ts, CompletedTaskOnDay(day))|
  }

  /** The completion day of a completed task with a completion time. */
  function CompletionDay(t: Task): Option<int>
  {
    if t.completedAt.Some? then Some(Day(t.completedAt.value)) else None
  }

  /** The keys `Some(first)`, ..., `Some(first + n - 1)`. */
  function DayKeys(first: int, n: nat): (keys: seq<Option<int>>)
    ensures |keys| == n
    ensures forall i :: 0 <= i < n ==> keys[i] == Some(first + i)
  {
    seq(n, i requires 0 <= i < n => Some(first + i))
  }

  /** The sum of the per-day counts of `n` consecutive days starting at `first`. */
  function CountsOverDays(ts: seq<Task>, first: int, n: nat): nat
    decreases n
  {
    if n == 0 then 0 else CompletedCountOn(ts, first) + CountsOverDays(ts, first + 1, n - 1)
  }

  /** A day's count is the count of that completion day among the completed tasks. */
  lemma CompletedCountIsCountBy(ts: seq<Task>, day: int)
    ensures CompletedCountOn(ts, day) == CountBy(Filter(ts, IsCompleted), CompletionDay, Some(day))
  {
    FilterFilter(ts, IsCompleted, KeyIs(CompletionDay, Some(day)));
    FilterExt(ts, Both(IsCompleted, KeyIs(CompletionDay, Some(day))), CompletedTaskOnDay(day));
  }

  lemma {:induction false} CountsOverDaysAsSum(ts: seq<Task>, first: int, n: nat)
    ensures CountsOverDays(ts, first, n) == SumCounts(Filter(ts, IsCompleted), CompletionDay, DayKeys(first, n))
    decreases n
  {
    if n > 0 {
      CompletedCountIsCountBy(ts, first);
      CountsOverDaysAsSum(ts, first + 1, n - 1);
      assert DayKeys(first, n)[1..] == DayKeys(first + 1, n - 1);
    }
  }

  /** Days are disjoint, so the per-day counts of consecutive days add up to at most the
      number of completed tasks. */
  lemma CountsOverDaysBounded(ts: seq<Task>, first: int, n: nat)
    ensures CountsOverDays(ts, first, n) <= |Filter(ts, IsCompleted)|
  {
    CountsOverDaysAsSum(ts, first, n);
    SumCountsBound(Filter(ts, IsCompleted), CompletionDay, DayKeys(first, n));
  }

  /** The completions the series reports, summed. */
  function SeriesTotal(days: seq<DailyStat>): nat
  {
    if days == [] then 0 else days[0].completed + SeriesTotal(days[1..])
  }

  /** getWeeklyStats: seven entries, one per day from the week start, each counting the
      completed tasks (archived ones too) completed that day. */
  method WeeklyStats(ts: seq<Task>, weekStart: int) returns (days: seq<DailyStat>)
    ensures |days| == 7
    ensures forall i :: 0 <= i < 7 ==>
              days[i].date == weekStart + i * MsPerDay &&
              days[i].completed == CompletedCountOn(ts, Day(weekStart) + i)
    ensures SeriesTotal(days) <= |Filter(ts, IsCompleted)|
  {
    days := [];
    for i := 0 to 7
      invariant |days| == i
      invariant forall j :: 0 <= j < i ==>
                  days[j].date == weekStart + j * MsPerDay &&
                  days[j].completed == CompletedCountOn(ts, Day(weekStart) + j)
    {
      var day := weekStart + i * MsPerDay;
      DayAfterWholeDays(weekStart, i);
      var completed := |Filter(ts, CompletedTaskOnDay(Day(day)))|;
      days := days + [DailyStat(day, completed)];
    }
    SeriesTotalIsCounts(ts, weekStart, days, 0);
    CountsOverDaysBounded(ts, Day(weekStart), 7);
  }

  lemma {:induction false} SeriesTotalIsCounts(ts: seq<Task>, weekStart: int, days: seq<DailyStat>, from: nat)
    requires from <= |days|
    requires forall i :: 0 <= i < |days| ==> days[i].completed == CompletedCountOn(ts, Day(weekStart) + i)
    ensures SeriesTotal(days[from..]) == CountsOverDays(ts, Day(weekStart) + from, |days| - from)
    decreases |days| - from
  {
    if from < |days| {
      SeriesTotalIsCounts(ts, weekStart, days, from + 1);
      assert days[from..][1..] == days[from + 1..];
    }
  }

  /** getPriorityBreakdown's result. */
  datatype Breakdown = Breakdown(urgent: nat, high: nat, medium: nat, low: nat)

  function PriorityOf(t: Task): string
  {
    t.priority
  }

  /** The priorities the breakdown reports, in its order. */
  const Priorities: seq<string> := ["urgent", "high", "medium", "low"]

  /** getPriorityBreakdown: for each priority, the open tasks that have it. A task with
      any other priority text is in none of the four counts. */
  function PriorityBreakdown(ts: seq<Task>): (b: Breakdown)
    ensures b.urgent + b.high + b.medium + b.low <= |Filter(ts, IsOpen)|
  {
    var openTasks := Filter(ts, IsOpen);
    assert Distinct(Priorities);
    SumCountsBound(openTasks, PriorityOf, Priorities);
    assert SumCounts(openTasks, PriorityOf, Priorities)
        == CountBy(openTasks, PriorityOf, "urgent") + SumCounts(openTasks, PriorityOf, ["high", "medium", "low"]);
    assert SumCounts(openTasks, PriorityOf, ["high", "medium", "low"])
        == CountBy(openTasks, PriorityOf, "high") + SumCounts(openTasks, PriorityOf, ["medium", "low"]);
    assert SumCounts(openTasks, PriorityOf, ["medium", "low"])
        == CountBy(openTasks, PriorityOf, "medium") + SumCounts(openTasks, PriorityOf, ["low"]);
    assert SumCounts(openTasks, PriorityOf, ["low"]) == CountBy(openTasks, PriorityOf, "low") + SumCounts(openTasks, PriorityOf, []);
    Breakdown(
      CountBy(openTasks, PriorityOf, "urgent"),
      CountBy(openTasks, PriorityOf, "high"),
      CountBy(openTasks, PriorityOf, "medium"),
      CountBy(openTasks, PriorityOf, "low"))
  }
}
