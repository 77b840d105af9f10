/// The practice-results store (src/contexts/PracticeContext.tsx): the local
/// upsert of `saveResult`, the per-course statistics of `getPracticeStats`,
/// `getCategoryStats`, `getOverallAccuracy`, `getTotalPracticed`, and the daily and monthly
/// branches of `getAccuracyHistory`.
module Practice {
  import opened JsString
  import opened Wrappers
  import opened JsMath
  import opened OrderedMap
  import opened Grouping
  import opened KeySort
  import opened FiniteSets

  /** `level` and `language` are typed as small string unions in the
      source; the stored data are plain JSON strings, so they stay strings. */
  datatype PracticeResult = PracticeResult(
    questionId: int,
    category: string,
    level: string,
    language: string,
    isCorrect: bool,
    timestamp: string)

  // ---------------------------------------------------------------------
  // saveResult

  /** The four-part key `saveResult` looks for. */
  predicate SameQuestion(a: PracticeResult, b: PracticeResult) {
    a.questionId == b.questionId && a.category == b.category
    && a.level == b.level && a.language == b.language
  }

  predicate UniqueQuestions(rs: seq<PracticeResult>) {
    forall i, j :: 0 <= i < j < |rs| ==> !SameQuestion(rs[i], rs[j])
  }

  /** `findIndex` on the four-part key. */
  function FindIndex(rs: seq<PracticeResult>, r: PracticeResult): (o: Option<nat>)
    ensures o.Some? ==> o.value < |rs| && SameQuestion(rs[o.value], r)
    ensures forall j :: 0 <= j < |rs| && (o.None? || j < o.value) ==> !SameQuestion(rs[j], r)
    decreases |rs|
  {
    if |rs| == 0 then None
    else if SameQuestion(rs[0], r) then Some(0)
    else
      var o := FindIndex(rs[1..], r);
      if o.Some? then Some(o.value + 1) else None
  }

  /** The list `saveResult` leaves behind. */
  function Upsert(rs: seq<PracticeResult>, r: PracticeResult): seq<PracticeResult> {
    match FindIndex(rs, r)
    case Some(i) => rs[i := r]
    case None => rs + [r]
  }

  /** The new result is in the list, in the place of the first entry for the
      same question or at the end; every other entry stays where it was. */
  lemma UpsertPlaces(rs: seq<PracticeResult>, r: PracticeResult)
    ensures (exists j :: 0 <= j < |rs| && SameQuestion(rs[j], r)) ==> |Upsert(rs, r)| == |rs|
    ensures (forall j :: 0 <= j < |rs| ==> !SameQuestion(rs[j], r)) ==> Upsert(rs, r) == rs + [r]
    ensures r in Upsert(rs, r)
    ensures forall j :: 0 <= j < |rs| ==> Upsert(rs, r)[j] == rs[j] || SameQuestion(rs[j], r)
  {
    match FindIndex(rs, r)
    case Some(i) => assert Upsert(rs, r)[i] == r;
    case None => assert Upsert(rs, r)[|rs|] == r;
  }

  /** Keys that start out unique stay unique. */
  lemma UpsertKeepsUnique(rs: seq<PracticeResult>, r: PracticeResult)
    requires UniqueQuestions(rs)
    ensures UniqueQuestions(Upsert(rs, r))
  {
  }

  /** Any sequence of saves, one after another. */
  function SaveAll(rs: seq<PracticeResult>, news: seq<PracticeResult>): seq<PracticeResult>
    decreases |news|
  {
    if |news| == 0 then rs else SaveAll(Upsert(rs, news[0]), news[1..])
  }

  lemma {:induction false} SaveAllKeepsUnique(rs: seq<PracticeResult>, news: seq<PracticeResult>)
    requires UniqueQuestions(rs)
    ensures UniqueQuestions(SaveAll(rs, news))
    ensures |SaveAll(rs, news)| <= |rs| + |news|
    decreases |news|
  {
    if |news| > 0 {
      UpsertKeepsUnique(rs, news[0]);
      UpsertPlaces(rs, news[0]);
      SaveAllKeepsUnique(Upsert(rs, news[0]), news[1..]);
    }
  }

  /** The provider's `results` state. */
  class PracticeStore {
    var results: seq<PracticeResult>

    constructor(loaded: seq<PracticeResult>)
      ensures results == loaded
    {
      results := loaded;
    }

    /** The local update of `saveResult`: copy, then overwrite in place or
        append. */
    method SaveResult(r: PracticeResult)
      modifies this
      ensures results == Upsert(old(results), r)
    {
      var existingIndex := FindIndex(results, r);
      if existingIndex.Some? {
        var updated := results;
        updated := updated[existingIndex.value := r];
        results := updated;
      } else {
        results := results + [r];
      }
    }
  }

  // ---------------------------------------------------------------------
  // Counting

  function CountCorrect(rs: seq<PracticeResult>): (n: nat)
    ensures n <= |rs|
    decreases |rs|
  {
    if |rs| == 0 then 0 else CountCorrect(rs[..|rs| - 1]) + (if rs[|rs| - 1].isCorrect then 1 else 0)
  }

  /** `getOverallAccuracy`. */
  function OverallAccuracy(rs: seq<PracticeResult>): (a: int)
    ensures 0 <= a <= 100
    ensures |rs| == 0 ==> a == 0
    ensures |rs| > 0 && CountCorrect(rs) == |rs| ==> a == 100
    ensures CountCorrect(rs) == 0 ==> a == 0
    ensures |rs| > 0 ==> a == RoundRatio(100 * CountCorrect(rs), |rs|)
  {
    if |rs| == 0 then 0
    else
      PercentBounds(CountCorrect(rs), |rs|);
      Percent(CountCorrect(rs), |rs|)
  }

  /** The question as a (language, level, questionId) triple. */
  function Triple(r: PracticeResult): (string, string, int) {
    (r.language, r.level, r.questionId)
  }

  /** `${language}-${level}-${questionId}`. */
  function TripleText(t: (string, string, int)): string {
    t.0 + "-" + t.1 + "-" + IntToString(t.2)
  }

  /** The string `getTotalPracticed` puts into its `Set`. */
  function QuestionText(r: PracticeResult): string {
    TripleText(Triple(r))
  }

  /** `getTotalPracticed`: the size of the `Set` of question strings. */
  /** No more questions were practised than results exist, and at least
      one once there is a result. */
  function TotalPracticed(rs: seq<PracticeResult>): (n: nat)
    ensures n <= |rs|
    ensures |rs| > 0 ==> n > 0
  {
    MappedAtMost(rs, QuestionText);
    assert |rs| > 0 ==> QuestionText(rs[0]) in Image(rs, QuestionText);
    |Image(rs, QuestionText)|
  }

  /** Languages and levels never contain the separator `-`. */
  predicate PlainNames(rs: seq<PracticeResult>) {
    forall r :: r in rs ==> '-' !in r.language && '-' !in r.level
  }

  lemma TripleTextInjective(a: (string, string, int), b: (string, string, int))
    requires '-' !in a.0 && '-' !in a.1 && '-' !in b.0 && '-' !in b.1
    requires TripleText(a) == TripleText(b)
    ensures a == b
  {
    var ra := a.1 + "-" + IntToString(a.2);
    var rb := b.1 + "-" + IntToString(b.2);
    assert TripleText(a) == a.0 + ['-'] + ra;
    assert TripleText(b) == b.0 + ['-'] + rb;
    SplitUnique(a.0, ra, b.0, rb, '-');
    assert ra == a.1 + ['-'] + IntToString(a.2);
    assert rb == b.1 + ['-'] + IntToString(b.2);
    SplitUnique(a.1, IntToString(a.2), b.1, IntToString(b.2), '-');
    IntToStringInjective(a.2, b.2);
  }

  /** `getTotalPracticed` counts distinct (language, level, questionId)
      triples, as long as no language or level contains `-`. */
  lemma TotalPracticedCountsTriples(rs: seq<PracticeResult>)
    requires PlainNames(rs)
    ensures TotalPracticed(rs) == |Image(rs, Triple)|
  {
    forall x, y | x in rs && y in rs && QuestionText(x) == QuestionText(y)
      ensures Triple(x) == Triple(y)
    {
      TripleTextInjective(Triple(x), Triple(y));
    }
    ComposeImage(rs, Triple, TripleText, QuestionText);
  }

  // ---------------------------------------------------------------------
  // getPracticeStats

  /** `${language}-${level}`. */
  function StatsKey(r: PracticeResult): string {
    r.language + "-" + r.level
  }

  datatype StatsAcc = StatsAcc(total: nat, correct: nat, lastPracticed: Option<string>)

  function OrEmpty(o: Option<string>): string {
    if o.Some? then o.value else ""
  }

  /** One step of the `forEach` in `getPracticeStats`. */
  function BumpStats(cur: Option<StatsAcc>, r: PracticeResult): StatsAcc {
    var c := if cur.Some? then cur.value else StatsAcc(0, 0, None);
    StatsAcc(
      c.total + 1,
      c.correct + (if r.isCorrect then 1 else 0),
      if Less(OrEmpty(c.lastPracticed), r.timestamp) then Some(r.timestamp) else c.lastPracticed)
  }

  /** The fixed `categoryMap`; a key it does not list gives 0. */
  function CategoryQuestions(key: string): (n: nat)
    ensures n == 0 <==> key !in {"javascript-basics", "javascript-intermediate", "javascript-advanced",
                                 "typescript-basics", "typescript-intermediate", "typescript-advanced"}
  {
    if key == "javascript-basics" then 8
    else if key == "javascript-intermediate" then 5
    else if key == "javascript-advanced" then 3
    else if key == "typescript-basics" then 5
    else if key == "typescript-intermediate" then 4
    else if key == "typescript-advanced" then 3
    else 0
  }

  function LevelLabel(level: string): string {
    if level == "basics" then "基礎編" else if level == "intermediate" then "中級編" else "上級編"
  }

  datatype PracticeStats = PracticeStats(
    category: string,
    level: string,
    language: string,
    totalQuestions: nat,
    correctAnswers: nat,
    accuracy: int,
    lastPracticed: Option<string>)

  /** The record built for one Map entry. */
  function StatsEntry(e: (string, StatsAcc)): PracticeStats {
    var (key, data) := e;
    var language := BeforeFirst(key, '-');
    var level := SecondField(key, '-');
    PracticeStats(
      if language == "javascript" then "JavaScript" else "TypeScript",
      LevelLabel(level),
      language,
      CategoryQuestions(key),
      data.correct,
      if data.total > 0 then Percent(data.correct, data.total) else 0,
      data.lastPracticed)
  }

  function StatsMap(rs: seq<PracticeResult>): Assoc<string, StatsAcc> {
    GroupFold(rs, StatsKey, BumpStats)
  }

  function PracticeStatsOf(rs: seq<PracticeResult>): seq<PracticeStats> {
    MapSeq(StatsMap(rs), StatsEntry)
  }

  /** `getPracticeStats`: fill the Map, then build one record per entry. */
  method GetPracticeStats(rs: seq<PracticeResult>) returns (stats: seq<PracticeStats>)
    ensures stats == PracticeStatsOf(rs)
  {
    var statsMap := GroupInto(rs, StatsKey, BumpStats);
    stats := MapInto(statsMap, StatsEntry);
  }

  /** What the fold computes over one group: its size, its correct answers,
      and its greatest timestamp (none when every timestamp is empty). */
  lemma {:induction false} StatsAccOfGroup(xs: seq<PracticeResult>)
    requires |xs| > 0
    ensures FoldAcc(xs, BumpStats).Some?
    ensures FoldAcc(xs, BumpStats).value.total == |xs|
    ensures FoldAcc(xs, BumpStats).value.correct == CountCorrect(xs)
    ensures FoldAcc(xs, BumpStats).value.lastPracticed.None? <==>
            forall i :: 0 <= i < |xs| ==> xs[i].timestamp == ""
    ensures FoldAcc(xs, BumpStats).value.lastPracticed.Some? ==>
            (exists i :: 0 <= i < |xs| && xs[i].timestamp == FoldAcc(xs, BumpStats).value.lastPracticed.value)
            && forall i :: 0 <= i < |xs| ==> !Less(FoldAcc(xs, BumpStats).value.lastPracticed.value, xs[i].timestamp)
    decreases |xs|
  {
    var ys := xs[..|xs| - 1];
    var x := xs[|xs| - 1];
    assert forall i :: 0 <= i < |ys| ==> ys[i] == xs[i];
    if |ys| == 0 {
      EmptyLeast(x.timestamp);
      LessIrreflexive(x.timestamp);
    } else {
      StatsAccOfGroup(ys);
      var c := FoldAcc(ys, BumpStats).value;
      LessIrreflexive(x.timestamp);
      if c.lastPracticed.None? {
        EmptyLeast(x.timestamp);
        forall i | 0 <= i < |ys|
          ensures !Less(x.timestamp, xs[i].timestamp)
        {
          assert xs[i].timestamp == "";
        }
      } else {
        var m := c.lastPracticed.value;
        if Less(m, x.timestamp) {
          forall i | 0 <= i < |ys|
            ensures !Less(x.timestamp, xs[i].timestamp)
          {
            if Less(x.timestamp, xs[i].timestamp) {
              LessTransitive(m, x.timestamp, xs[i].timestamp);
            }
          }
        } else {
          if m != x.timestamp {
            LessTotal(m, x.timestamp);
          }
        }
        EmptyLeast(m);
        LessIrreflexive(m);
      }
    }
  }

  /** `""` is below every other string and below nothing. */
  lemma EmptyLeast(s: string)
    ensures !Less(s, "")
    ensures Less("", s) <==> s != ""
  {
  }

  /** Record `i` of `getPracticeStats` belongs to one `language-level` key
      and reports that group's correct answers, its rounded accuracy, the
      fixed question count of the key and the group's latest timestamp. */
  lemma PracticeStatsMeaning(rs: seq<PracticeResult>, i: nat)
    requires i < |StatsMap(rs)|
    ensures var key := StatsMap(rs)[i].0;
            var group := Filter(rs, StatsKey, key);
            var s := PracticeStatsOf(rs)[i];
            && |group| > 0
            && s.correctAnswers == CountCorrect(group)
            && s.accuracy == Percent(CountCorrect(group), |group|)
            && 0 <= s.accuracy <= 100
            && s.totalQuestions == CategoryQuestions(key)
            && (s.lastPracticed.Some? ==>
                  forall j :: 0 <= j < |group| ==> !Less(s.lastPracticed.value, group[j].timestamp))
  {
    var m := StatsMap(rs);
    var key := m[i].0;
    GroupFoldDistinct(rs, StatsKey, BumpStats);
    GetAt(m, i);
    GroupFoldGet(rs, StatsKey, BumpStats, key);
    var group := Filter(rs, StatsKey, key);
    StatsAccOfGroup(group);
    PercentBounds(CountCorrect(group), |group|);
  }

  /** The Map holds one record per `language-level` key, no key twice. */
  lemma PracticeStatsKeys(rs: seq<PracticeResult>)
    ensures DistinctKeys(StatsMap(rs))
    ensures |PracticeStatsOf(rs)| == |StatsMap(rs)|
    ensures forall j :: 0 <= j < |rs| ==> HasKey(StatsMap(rs), StatsKey(rs[j]))
  {
    GroupFoldDistinct(rs, StatsKey, BumpStats);
    forall j | 0 <= j < |rs|
      ensures HasKey(StatsMap(rs), StatsKey(rs[j]))
    {
      GroupFoldHasKey(rs, StatsKey, BumpStats, StatsKey(rs[j]));
    }
  }

  /** The `language` and level of a record are the parts of its key. */
  lemma StatsKeySplits(r: PracticeResult)
    requires '-' !in r.language && '-' !in r.level
    ensures StatsEntry((StatsKey(r), StatsAcc(1, 0, None))).language == r.language
    ensures StatsEntry((StatsKey(r), StatsAcc(1, 0, None))).level == LevelLabel(r.level)
  {
    SplitJoined(r.language, r.level, '-');
    assert StatsKey(r) == r.language + ['-'] + r.level;
  }

  /** The question count is the fixed one for the course, not the number of
      answers: a single answer to the JavaScript basics course reports 8. */
  lemma TotalQuestionsFromTable(r: PracticeResult)
    requires r.language == "javascript" && r.level == "basics"
    ensures PracticeStatsOf([r]) == [StatsEntry(("javascript-basics", BumpStats(None, r)))]
    ensures PracticeStatsOf([r])[0].totalQuestions == 8
  {
    var key := StatsKey(r);
    assert key == "javascript-basics";
    assert [r][..0] == [];
    assert GroupFold([r][..0], StatsKey, BumpStats) == [];
    assert StatsMap([r]) == Put([], key, BumpStats(Get([], key), r));
    assert StatsMap([r]) == [(key, BumpStats(None, r))];
  }

  // ---------------------------------------------------------------------
  // getCategoryStats

  function StatCategory(s: PracticeStats): string {
    s.category
  }

  /** `getCategoryStats`: the records of `getPracticeStats` whose display
      category is `category`, in their order. */
  function CategoryStats(rs: seq<PracticeResult>, category: string): (r: seq<PracticeStats>)
    ensures |r| <= |PracticeStatsOf(rs)|
    ensures forall i :: 0 <= i < |r| ==> r[i].category == category
  {
    Filter(PracticeStatsOf(rs), StatCategory, category)
  }

  /** A record is returned exactly when `getPracticeStats` has it and its
      category is the one asked for. */
  lemma CategoryStatsMembers(rs: seq<PracticeResult>, category: string, s: PracticeStats)
    ensures s in CategoryStats(rs, category) <==> s in PracticeStatsOf(rs) && s.category == category
  {
    FilterMembers(PracticeStatsOf(rs), StatCategory, category, s);
  }

  // ---------------------------------------------------------------------
  // getAccuracyHistory, daily and monthly

  datatype Period = Daily | Monthly

  /** `timestamp.split('T')[0]`. */
  function DayKey(r: PracticeResult): string {
    BeforeFirst(r.timestamp, 'T')
  }

  /** `timestamp.substring(0, 7)`. */
  function MonthKey(r: PracticeResult): string {
    Take(r.timestamp, 7)
  }

  function KeyFor(p: Period): PracticeResult -> string {
    if p == Daily then DayKey else MonthKey
  }

  datatype Bucket = Bucket(correct: nat, total: nat)

  function BumpBucket(cur: Option<Bucket>, r: PracticeResult): Bucket {
    var c := if cur.Some? then cur.value else Bucket(0, 0);
    Bucket(c.correct + (if r.isCorrect then 1 else 0), c.total + 1)
  }

  function BucketTotal(b: Bucket): int {
    b.total
  }

  /** A filter argument is absent when undefined or empty. */
  predicate Admits(filter: Option<string>, value: string) {
    filter.None? || filter.value == "" || filter.value == value
  }

  /** The two `filter` calls on language and level. */
  function Selected(rs: seq<PracticeResult>, language: Option<string>, level: Option<string>): (r: seq<PracticeResult>)
    ensures |r| <= |rs|
    ensures forall x :: x in r ==> x in rs && Admits(language, x.language) && Admits(level, x.level)
    ensures forall x :: x in rs && Admits(language, x.language) && Admits(level, x.level) ==> x in r
    decreases |rs|
  {
    if |rs| == 0 then []
    else
      assert rs == rs[..|rs| - 1] + [rs[|rs| - 1]];
      var rest := Selected(rs[..|rs| - 1], language, level);
      var x := rs[|rs| - 1];
      if Admits(language, x.language) && Admits(level, x.level) then rest + [x] else rest
  }

  datatype HistoryEntry = HistoryEntry(date: string, accuracy: int, totalQuestions: nat, correctAnswers: nat)

  function ToEntry(e: (string, Bucket)): HistoryEntry {
    HistoryEntry(e.0, if e.1.total > 0 then Percent(e.1.correct, e.1.total) else 0, e.1.total, e.1.correct)
  }

  function Buckets(rs: seq<PracticeResult>, language: Option<string>, level: Option<string>, p: Period): Assoc<string, Bucket> {
    GroupFold(Selected(rs, language, level), KeyFor(p), BumpBucket)
  }

  function History(rs: seq<PracticeResult>, language: Option<string>, level: Option<string>, p: Period): seq<HistoryEntry> {
    MapSeq(SortByKey(Buckets(rs, language, level, p)), ToEntry)
  }

  /** `getAccuracyHistory` for the daily and monthly ranges: filter, fill
      the Map, then sort the entries by date. */
  method GetAccuracyHistory(rs: seq<PracticeResult>, language: Option<string>, level: Option<string>, p: Period)
      returns (h: seq<HistoryEntry>)
    ensures h == History(rs, language, level, p)
  {
    var filtered := Selected(rs, language, level);
    var m := GroupInto(filtered, KeyFor(p), BumpBucket);
    var sorted := SortByKey(m);
    h := MapInto(sorted, ToEntry);
  }

  /** Buckets come back in ascending date order, each date once. */
  lemma HistorySorted(rs: seq<PracticeResult>, language: Option<string>, level: Option<string>, p: Period)
    ensures var h := History(rs, language, level, p);
            forall i, j :: 0 <= i < j < |h| ==> Less(h[i].date, h[j].date)
  {
    var m := Buckets(rs, language, level, p);
    GroupFoldDistinct(Selected(rs, language, level), KeyFor(p), BumpBucket);
    SortByKeySorted(m);
  }

  lemma {:induction false} BucketOfGroup(xs: seq<PracticeResult>)
    requires |xs| > 0
    ensures FoldAcc(xs, BumpBucket) == Some(Bucket(CountCorrect(xs), |xs|))
    decreases |xs|
  {
    if |xs| > 1 {
      BucketOfGroup(xs[..|xs| - 1]);
    }
  }

  /** The bucket totals add up to the number of results that passed the filter. */
  lemma {:induction false} BucketTotalsSum(xs: seq<PracticeResult>, key: PracticeResult -> string)
    ensures SumBy(GroupFold(xs, key, BumpBucket), BucketTotal) == |xs|
    decreases |xs|
  {
    if |xs| > 0 {
      var ys := xs[..|xs| - 1];
      var x := xs[|xs| - 1];
      var m := GroupFold(ys, key, BumpBucket);
      BucketTotalsSum(ys, key);
      SumByPut(m, key(x), BumpBucket(Get(m, key(x)), x), BucketTotal);
    }
  }

  function TotalQuestions(h: seq<HistoryEntry>): int
    decreases |h|
  {
    if |h| == 0 then 0 else h[0].totalQuestions + TotalQuestions(h[1..])
  }

  lemma {:induction false} TotalQuestionsOfEntries(s: seq<(string, Bucket)>)
    ensures TotalQuestions(MapSeq(s, ToEntry)) == SumBy(s, BucketTotal)
    decreases |s|
  {
    if |s| > 0 {
      var h := MapSeq(s, ToEntry);
      TotalQuestionsOfEntries(s[1..]);
      assert h[1..] == MapSeq(s[1..], ToEntry);
    }
  }

  /** Every filtered result lands in exactly one bucket. */
  lemma HistoryTotals(rs: seq<PracticeResult>, language: Option<string>, level: Option<string>, p: Period)
    ensures TotalQuestions(History(rs, language, level, p)) == |Selected(rs, language, level)|
  {
    var m := Buckets(rs, language, level, p);
    BucketTotalsSum(Selected(rs, language, level), KeyFor(p));
    SumBySort(m, BucketTotal);
    TotalQuestionsOfEntries(SortByKey(m));
  }

  /** Each bucket counts the filtered results of its date and their correct
      answers; its accuracy lies in 0..100. */
  lemma HistoryEntryMeaning(rs: seq<PracticeResult>, language: Option<string>, level: Option<string>, p: Period, i: nat)
    requires i < |History(rs, language, level, p)|
    ensures var e := History(rs, language, level, p)[i];
            var group := Filter(Selected(rs, language, level), KeyFor(p), e.date);
            && e.totalQuestions == |group| > 0
            && e.correctAnswers == CountCorrect(group)
            && e.accuracy == Percent(e.correctAnswers, e.totalQuestions)
            && 0 <= e.accuracy <= 100
  {
    var xs := Selected(rs, language, level);
    var m := Buckets(rs, language, level, p);
    var sorted := SortByKey(m);
    var e := sorted[i];
    assert e in multiset(sorted);
    assert e in multiset(m);
    var k :| 0 <= k < |m| && m[k] == e;
    GroupFoldDistinct(xs, KeyFor(p), BumpBucket);
    GetAt(m, k);
    GroupFoldGet(xs, KeyFor(p), BumpBucket, e.0);
    var group := Filter(xs, KeyFor(p), e.0);
    assert |group| > 0;
    BucketOfGroup(group);
    PercentBounds(CountCorrect(group), |group|);
  }
}
