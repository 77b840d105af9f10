/// The learning-progress store (src/contexts/ProgressContext.tsx): lessons
/// and study sessions held by the provider, the local update of
/// `markLessonComplete`, the recording rule of `endSession`, and the
/// statistics the dashboard reads from them.
///
/// The clock is a parameter: `now` strings, millisecond instants and the
/// date strings of "today minus i days" are passed in.
module Progress {
  import opened JsString
  import opened Wrappers
  import opened JsMath
  import opened OrderedMap
  import opened Grouping
  import opened KeySort
  import opened FiniteSets

  /** `duration` is in seconds. */
  datatype Session = Session(date: string, path: string, duration: int, completed: bool)

  datatype Lesson = Lesson(
    path: string,
    title: string,
    category: string,
    completed: bool,
    lastStudied: string,
    totalTime: int)

  // ---------------------------------------------------------------------
  // endSession

  /** Sessions of this many seconds or fewer are not recorded. */
  const MinimumSeconds := 10

  /** `Math.floor((end - start) / 1000)`; Dafny's division by a positive
      number already rounds down. */
  function ElapsedSeconds(startMs: int, endMs: int): (r: int)
    ensures 1000 * r <= endMs - startMs < 1000 * (r + 1)
  {
    (endMs - startMs) / 1000
  }

  /** A session is kept exactly when at least 11 whole seconds passed. */
  lemma RecordedIff(startMs: int, endMs: int)
    ensures ElapsedSeconds(startMs, endMs) > MinimumSeconds <==> endMs - startMs >= 11000
  {
    var r := ElapsedSeconds(startMs, endMs);
    if r > MinimumSeconds {
      assert 1000 * r >= 11000;
    }
  }

  // ---------------------------------------------------------------------
  // markLessonComplete

  /** `lessons.find(l => l.path === path)`. */
  function LessonAt(lessons: seq<Lesson>, path: string): (o: Option<Lesson>)
    ensures o.None? <==> forall i :: 0 <= i < |lessons| ==> lessons[i].path != path
    ensures o.Some? ==> exists i :: 0 <= i < |lessons| && lessons[i] == o.value && o.value.path == path
    decreases |lessons|
  {
    if |lessons| == 0 then None
    else if lessons[0].path == path then Some(lessons[0])
    else
      var o := LessonAt(lessons[1..], path);
      assert forall i :: 0 <= i < |lessons| - 1 ==> lessons[1..][i] == lessons[i + 1];
      o
  }

  /** The `map` branch, one lesson. */
  function Touch(l: Lesson, path: string, now: string): Lesson {
    if l.path == path then l.(completed := true, lastStudied := now) else l
  }

  function Touched(lessons: seq<Lesson>, path: string, now: string): (r: seq<Lesson>)
    ensures |r| == |lessons|
    ensures forall i :: 0 <= i < |lessons| ==> r[i] == Touch(lessons[i], path, now)
    decreases |lessons|
  {
    if |lessons| == 0 then []
    else Touched(lessons[..|lessons| - 1], path, now) + [Touch(lessons[|lessons| - 1], path, now)]
  }

  /** The list `markLessonComplete` stores. */
  function MarkComplete(lessons: seq<Lesson>, path: string, title: string, category: string, now: string): seq<Lesson> {
    if LessonAt(lessons, path).Some? then Touched(lessons, path, now)
    else lessons + [Lesson(path, title, category, true, now, 0)]
  }

  /** An existing path: every lesson with it is completed and stamped, the
      others are untouched, nothing is added. A new path: one completed
      lesson with no study time is appended. In both cases the lesson found
      for the path afterwards is completed. */
  lemma MarkCompleteEffect(lessons: seq<Lesson>, path: string, title: string, category: string, now: string)
    ensures var r := MarkComplete(lessons, path, title, category, now);
            && (LessonAt(lessons, path).Some? ==>
                  && |r| == |lessons|
                  && forall i :: 0 <= i < |lessons| ==>
                       && r[i].path == lessons[i].path && r[i].title == lessons[i].title
                       && r[i].category == lessons[i].category && r[i].totalTime == lessons[i].totalTime
                       && (lessons[i].path == path ==> r[i].completed && r[i].lastStudied == now)
                       && (lessons[i].path != path ==> r[i] == lessons[i]))
            && (LessonAt(lessons, path).None? ==>
                  r == lessons + [Lesson(path, title, category, true, now, 0)])
            && LessonAt(r, path).Some? && LessonAt(r, path).value.completed
  {
    var r := MarkComplete(lessons, path, title, category, now);
    if LessonAt(lessons, path).None? {
      assert r[|lessons|].path == path;
    }
    var o := LessonAt(r, path);
    var j :| 0 <= j < |r| && r[j] == o.value;
  }

  // ---------------------------------------------------------------------
  // getDailyStats, getMonthlyStats, getTotalStudyTime

  function DateOf(s: Session): string {
    s.date
  }

  /** `date.substring(0, 7)`, the `YYYY-MM` part. */
  function MonthOf(s: Session): string {
    Take(s.date, 7)
  }

  /** One step of the `forEach`: `(map.get(key) || 0) + duration`. */
  function AddSeconds(cur: Option<int>, s: Session): int {
    (if cur.Some? then cur.value else 0) + s.duration
  }

  function Seconds(v: int): int {
    v
  }

  /** `getTotalStudyTime`: the `reduce` over all durations. */
  function TotalTime(ss: seq<Session>): (t: int)
    ensures (forall i :: 0 <= i < |ss| ==> ss[i].duration >= 0) ==>
              0 <= t && forall i :: 0 <= i < |ss| ==> ss[i].duration <= t
    decreases |ss|
  {
    if |ss| == 0 then 0 else TotalTime(ss[..|ss| - 1]) + ss[|ss| - 1].duration
  }

  /** Seconds per key, sorted by key; `hours` is this divided by 3600. */
  function StatsBy(ss: seq<Session>, key: Session -> string): seq<(string, int)> {
    SortByKey(GroupFold(ss, key, AddSeconds))
  }

  /** `getDailyStats` in seconds: one entry per study date, ascending,
      adding up to the total study time. */
  function DailyStats(ss: seq<Session>): (r: seq<(string, int)>)
    ensures StrictlySorted(r)
    ensures |r| == |Image(ss, DateOf)|
    ensures SumBy(r, Seconds) == TotalTime(ss)
  {
    StatsBySorted(ss, DateOf);
    StatsByCount(ss, DateOf);
    StatsByTotal(ss, DateOf);
    StatsBy(ss, DateOf)
  }

  /** `getMonthlyStats` in seconds: one entry per month, ascending, adding
      up to the total study time. */
  function MonthlyStats(ss: seq<Session>): (r: seq<(string, int)>)
    ensures StrictlySorted(r)
    ensures |r| == |Image(ss, MonthOf)|
    ensures SumBy(r, Seconds) == TotalTime(ss)
  {
    StatsBySorted(ss, MonthOf);
    StatsByCount(ss, MonthOf);
    StatsByTotal(ss, MonthOf);
    StatsBy(ss, MonthOf)
  }

  lemma {:induction false} SecondsOfGroup(xs: seq<Session>)
    requires |xs| > 0
    ensures FoldAcc(xs, AddSeconds) == Some(TotalTime(xs))
    decreases |xs|
  {
    if |xs| > 1 {
      SecondsOfGroup(xs[..|xs| - 1]);
    }
  }

  /** Keys come back in ascending order, each once. */
  lemma StatsBySorted(ss: seq<Session>, key: Session -> string)
    ensures StrictlySorted(StatsBy(ss, key))
  {
    GroupFoldDistinct(ss, key, AddSeconds);
    SortByKeySorted(GroupFold(ss, key, AddSeconds));
  }

  /** Each entry holds the summed durations of exactly the sessions of its
      key, and there is at least one such session. */
  lemma StatsByMeaning(ss: seq<Session>, key: Session -> string, i: nat)
    requires i < |StatsBy(ss, key)|
    ensures var e := StatsBy(ss, key)[i];
            |Filter(ss, key, e.0)| > 0 && e.1 == TotalTime(Filter(ss, key, e.0))
  {
    var m := GroupFold(ss, key, AddSeconds);
    var e := StatsBy(ss, key)[i];
    assert e in multiset(StatsBy(ss, key));
    assert e in multiset(m);
    var k :| 0 <= k < |m| && m[k] == e;
    GroupFoldDistinct(ss, key, AddSeconds);
    GetAt(m, k);
    GroupFoldGet(ss, key, AddSeconds, e.0);
    SecondsOfGroup(Filter(ss, key, e.0));
  }

  lemma {:induction false} StatsSumGroup(ss: seq<Session>, key: Session -> string)
    ensures SumBy(GroupFold(ss, key, AddSeconds), Seconds) == TotalTime(ss)
    decreases |ss|
  {
    if |ss| > 0 {
      var ys := ss[..|ss| - 1];
      var x := ss[|ss| - 1];
      var m := GroupFold(ys, key, AddSeconds);
      StatsSumGroup(ys, key);
      SumByPut(m, key(x), AddSeconds(Get(m, key(x)), x), Seconds);
    }
  }

  /** The per-key seconds add up to the total study time. */
  lemma StatsByTotal(ss: seq<Session>, key: Session -> string)
    ensures SumBy(StatsBy(ss, key), Seconds) == TotalTime(ss)
  {
    StatsSumGroup(ss, key);
    SumBySort(GroupFold(ss, key, AddSeconds), Seconds);
  }

  /** There is one entry per distinct key: as many as `new Set(keys).size`. */
  lemma StatsByCount(ss: seq<Session>, key: Session -> string)
    ensures |StatsBy(ss, key)| == |Image(ss, key)|
  {
    var m := GroupFold(ss, key, AddSeconds);
    var ks := Keys(m);
    GroupFoldDistinct(ss, key, AddSeconds);
    DistinctElements(ks);
    forall k
      ensures k in ks <==> k in Image(ss, key)
    {
      GroupFoldHasKey(ss, key, AddSeconds, k);
      if k in Image(ss, key) {
        var x :| x in ss && key(x) == k;
        var i :| 0 <= i < |ss| && ss[i] == x;
      }
    }
    assert (set k | k in ks) == Image(ss, key);
  }

  /** The `forEach` over the sessions, then the sort. */
  method StatsOf(ss: seq<Session>, key: Session -> string) returns (r: seq<(string, int)>)
    ensures r == StatsBy(ss, key)
  {
    var m := GroupInto(ss, key, AddSeconds);
    r := SortByKey(m);
  }

  // ---------------------------------------------------------------------
  // getCategoryProgress

  /** The fixed category list: display name and the one path prefix each
      category has. */
  const Categories: seq<(string, string)> := [
    ("JavaScript基礎", "/javascript/basics"),
    ("JavaScript中級", "/javascript/intermediate"),
    ("JavaScript上級", "/javascript/advanced"),
    ("TypeScript基礎", "/typescript/basics"),
    ("TypeScript中級", "/typescript/intermediate"),
    ("TypeScript上級", "/typescript/advanced"),
    ("React", "/frameworks/react"),
    ("Vue.js", "/frameworks/vue"),
    ("Next.js", "/frameworks/next")
  ]

  /** The lessons whose path starts with `prefix`, in order. */
  function InCategory(lessons: seq<Lesson>, prefix: string): (r: seq<Lesson>)
    ensures |r| <= |lessons|
    ensures forall l :: l in r ==> l in lessons && IsPrefix(prefix, l.path)
    ensures forall l :: l in lessons && IsPrefix(prefix, l.path) ==> l in r
    decreases |lessons|
  {
    if |lessons| == 0 then []
    else
      assert lessons == lessons[..|lessons| - 1] + [lessons[|lessons| - 1]];
      var rest := InCategory(lessons[..|lessons| - 1], prefix);
      var l := lessons[|lessons| - 1];
      if IsPrefix(prefix, l.path) then rest + [l] else rest
  }

  function CompletedCount(ls: seq<Lesson>): (n: nat)
    ensures n <= |ls|
    decreases |ls|
  {
    if |ls| == 0 then 0 else CompletedCount(ls[..|ls| - 1]) + (if ls[|ls| - 1].completed then 1 else 0)
  }

  datatype CategoryStat = CategoryStat(category: string, completed: nat, total: nat, percentage: int)

  /** One entry of `getCategoryProgress`: the completed lessons of the
      category over their number, as a rounded percent; the divisor is never
      0, the completed count never exceeds it and the percentage lies in
      0..100; with no lesson in the category it reports 0 of 1. */
  function CategoryStatOf(c: (string, string), lessons: seq<Lesson>): (r: CategoryStat)
    ensures r.category == c.0
    ensures r.total >= 1 && r.completed <= r.total && 0 <= r.percentage <= 100
    ensures |InCategory(lessons, c.1)| == 0 ==> r.completed == 0 && r.total == 1 && r.percentage == 0
    ensures |InCategory(lessons, c.1)| > 0 ==> r.total == |InCategory(lessons, c.1)|
    ensures r.completed == CompletedCount(InCategory(lessons, c.1))
    ensures r.percentage == Percent(r.completed, r.total)
  {
    var inCategory := InCategory(lessons, c.1);
    var completed := CompletedCount(inCategory);
    var total := if |inCategory| == 0 then 1 else |inCategory|;
    PercentBounds(completed, total);
    CategoryStat(c.0, completed, total, Percent(completed, total))
  }

  /** `getCategoryProgress`: the nine categories in their fixed order. */
  function CategoryProgress(lessons: seq<Lesson>): (r: seq<CategoryStat>)
    ensures |r| == |Categories| == 9
    ensures forall i :: 0 <= i < 9 ==> r[i] == CategoryStatOf(Categories[i], lessons)
  {
    seq(9, i requires 0 <= i < 9 => CategoryStatOf(Categories[i], lessons))
  }

  lemma {:induction false} TouchedCategory(lessons: seq<Lesson>, path: string, now: string, prefix: string)
    ensures |InCategory(Touched(lessons, path, now), prefix)| == |InCategory(lessons, prefix)|
    ensures CompletedCount(InCategory(Touched(lessons, path, now), prefix)) >= CompletedCount(InCategory(lessons, prefix))
    decreases |lessons|
  {
    if |lessons| > 0 {
      var n := |lessons|;
      TouchedCategory(lessons[..n - 1], path, now, prefix);
      assert Touched(lessons, path, now)[..n - 1] == Touched(lessons[..n - 1], path, now);
    }
  }

  lemma {:induction false} AppendCategory(lessons: seq<Lesson>, l: Lesson, prefix: string)
    ensures CompletedCount(InCategory(lessons + [l], prefix)) >= CompletedCount(InCategory(lessons, prefix))
  {
    assert (lessons + [l])[..|lessons|] == lessons;
  }

  /** Completing a lesson never lowers any category's completed count. */
  lemma MarkCompleteMonotone(lessons: seq<Lesson>, path: string, title: string, category: string, now: string, i: nat)
    requires i < 9
    ensures CategoryProgress(MarkComplete(lessons, path, title, category, now))[i].completed
            >= CategoryProgress(lessons)[i].completed
  {
    var prefix := Categories[i].1;
    if LessonAt(lessons, path).Some? {
      TouchedCategory(lessons, path, now, prefix);
    } else {
      AppendCategory(lessons, Lesson(path, title, category, true, now, 0), prefix);
    }
  }

  // ---------------------------------------------------------------------
  // getConsecutiveDays, getAverageDailyStudyTime

  function Reverse<T>(s: seq<T>): (r: seq<T>)
    ensures |r| == |s|
    ensures forall i :: 0 <= i < |s| ==> r[i] == s[|s| - 1 - i]
    decreases |s|
  {
    if |s| == 0 then [] else [s[|s| - 1]] + Reverse(s[..|s| - 1])
  }

  /** `[...new Set(dates)].sort().reverse()`: the distinct dates, latest
      first (the same keys `getDailyStats` sorts). */
  function DatesLatestFirst(ss: seq<Session>): seq<string> {
    Reverse(Keys(DailyStats(ss)))
  }

  /** The streak is counted over as many dates as `new Set(dates).size`. */
  lemma DatesCount(ss: seq<Session>)
    ensures |DatesLatestFirst(ss)| == |Image(ss, DateOf)|
    ensures |ss| == 0 ==> |DatesLatestFirst(ss)| == 0
  {
    StatsByCount(ss, DateOf);
  }

  /** `getAverageDailyStudyTime`: the total over the number of distinct
      dates, rounded; 0 without sessions. */
  function AverageDailyStudyTime(ss: seq<Session>): (r: int)
    ensures |ss| == 0 ==> r == 0
    ensures |ss| > 0 ==>
              var days := |Image(ss, DateOf)|;
              1 <= days <= |ss| && 2 * days * r <= 2 * TotalTime(ss) + days < 2 * days * (r + 1)
  {
    if |ss| == 0 then 0
    else
      var days := |Image(ss, DateOf)|;
      assert DateOf(ss[0]) in Image(ss, DateOf);
      MappedAtMost(ss, DateOf);
      if days == 0 then 0 else RoundRatio(TotalTime(ss), days)
  }

  /** The `for` loop of `getConsecutiveDays`: count while the `i`-th date
      is the expected one, and stop at the first that is not. */
  method Streak(sortedDates: seq<string>, expected: nat -> string) returns (consecutive: nat)
    ensures consecutive <= |sortedDates|
    ensures forall j :: 0 <= j < consecutive ==> sortedDates[j] == expected(j)
    ensures consecutive < |sortedDates| ==> sortedDates[consecutive] != expected(consecutive)
  {
    consecutive := 0;
    var i := 0;
    while i < |sortedDates|
      invariant 0 <= i <= |sortedDates|
      invariant consecutive == i
      invariant forall j :: 0 <= j < i ==> sortedDates[j] == expected(j)
    {
      if sortedDates[i] == expected(i) {
        consecutive := consecutive + 1;
      } else {
        break;
      }
      i := i + 1;
    }
  }

  // ---------------------------------------------------------------------
  // The provider state

  class ProgressStore {
    var lessons: seq<Lesson>
    var sessions: seq<Session>
    /** `currentSessionStart`, in milliseconds. */
    var sessionStart: Option<int>

    constructor(loadedLessons: seq<Lesson>, loadedSessions: seq<Session>)
      ensures lessons == loadedLessons && sessions == loadedSessions && sessionStart == None
    {
      lessons := loadedLessons;
      sessions := loadedSessions;
      sessionStart := None;
    }

    method StartSession(nowMs: int)
      modifies this
      ensures sessionStart == Some(nowMs)
      ensures lessons == old(lessons) && sessions == old(sessions)
    {
      sessionStart := Some(nowMs);
    }

    /** `endSession`: with a session open, record it under `today` and the
        current `path` when it lasted more than ten whole seconds, and close
        it either way. */
    method EndSession(endMs: int, today: string, path: string)
      modifies this
      ensures sessionStart == None && lessons == old(lessons)
      ensures old(sessionStart).None? ==> sessions == old(sessions)
      ensures old(sessionStart).Some? && endMs - old(sessionStart).value >= 11000 ==>
                sessions == old(sessions) + [Session(today, path, ElapsedSeconds(old(sessionStart).value, endMs), false)]
      ensures old(sessionStart).Some? && endMs - old(sessionStart).value < 11000 ==>
                sessions == old(sessions)
    {
      if sessionStart.Some? {
        var duration := ElapsedSeconds(sessionStart.value, endMs);
        RecordedIff(sessionStart.value, endMs);
        if duration > MinimumSeconds {
          sessions := sessions + [Session(today, path, duration, false)];
        }
        sessionStart := None;
      }
    }

    method MarkLessonComplete(path: string, title: string, category: string, now: string)
      modifies this
      ensures lessons == MarkComplete(old(lessons), path, title, category, now)
      ensures sessions == old(sessions) && sessionStart == old(sessionStart)
    {
      lessons := MarkComplete(lessons, path, title, category, now);
    }

    method GetDailyStats() returns (r: seq<(string, int)>)
      ensures r == DailyStats(sessions)
    {
      r := StatsOf(sessions, DateOf);
    }

    method GetMonthlyStats() returns (r: seq<(string, int)>)
      ensures r == MonthlyStats(sessions)
    {
      r := StatsOf(sessions, MonthOf);
    }

    /** `getConsecutiveDays`: how many of the latest dates are today,
        yesterday, and so on without a gap. `expected(i)` is the date
        string of today minus `i` days. */
    method GetConsecutiveDays(expected: nat -> string) returns (consecutive: nat)
      ensures |sessions| == 0 ==> consecutive == 0
      ensures consecutive <= |DatesLatestFirst(sessions)| == |Image(sessions, DateOf)|
      ensures forall j :: 0 <= j < consecutive ==> DatesLatestFirst(sessions)[j] == expected(j)
      ensures consecutive < |DatesLatestFirst(sessions)| ==>
                DatesLatestFirst(sessions)[consecutive] != expected(consecutive)
    {
      DatesCount(sessions);
      if |sessions| == 0 {
        return 0;
      }
      consecutive := Streak(DatesLatestFirst(sessions), expected);
    }
  }
}
