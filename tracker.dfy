/// The progress widget at the foot of a lesson
/// (src/components/ProgressTracker.tsx): the elapsed-time label and the
/// completion flag.
module Tracker {
  import opened JsString
  import opened JsMath
  import opened Wrappers
  import Progress

  /** The three parts `formatTime` computes; `%` is JavaScript's. */
  function Hours(seconds: int): int {
    seconds / 3600
  }

  function Minutes(seconds: int): int {
    JsRem(seconds, 3600) / 60
  }

  function Secs(seconds: int): int {
    JsRem(seconds, 60)
  }

  /** `formatTime`: hours only when there are any, minutes only when there
      are hours or minutes. */
  function FormatTime(seconds: int): (r: string)
    ensures Hours(seconds) > 0 ==>
              r == IntToString(Hours(seconds)) + "時間" + IntToString(Minutes(seconds)) + "分"
                   + IntToString(Secs(seconds)) + "秒"
    ensures Hours(seconds) <= 0 && Minutes(seconds) > 0 ==>
              r == IntToString(Minutes(seconds)) + "分" + IntToString(Secs(seconds)) + "秒"
    ensures Hours(seconds) <= 0 && Minutes(seconds) <= 0 ==> r == IntToString(Secs(seconds)) + "秒"
  {
    var hours := Hours(seconds);
    var minutes := Minutes(seconds);
    var secs := Secs(seconds);
    if hours > 0 then IntToString(hours) + "時間" + IntToString(minutes) + "分" + IntToString(secs) + "秒"
    else if minutes > 0 then IntToString(minutes) + "分" + IntToString(secs) + "秒"
    else IntToString(secs) + "秒"
  }

  /** For a non-negative count the parts are a genuine hours, minutes and
      seconds decomposition. */
  lemma Decomposition(seconds: int)
    requires seconds >= 0
    ensures Hours(seconds) * 3600 + Minutes(seconds) * 60 + Secs(seconds) == seconds
    ensures 0 <= Hours(seconds)
    ensures 0 <= Minutes(seconds) < 60 && 0 <= Secs(seconds) < 60
  {
    var h := seconds / 3600;
    var rest := seconds % 3600;
    assert JsRem(seconds, 3600) == rest;
    var m := rest / 60;
    var sec := rest % 60;
    assert seconds == 3600 * h + rest;
    assert rest == 60 * m + sec;
    assert seconds == 60 * (60 * h + m) + sec;
    assert seconds % 60 == sec;
    assert JsRem(seconds, 60) == sec;
  }

  /** Under a minute only the seconds show; under an hour no hours show. */
  lemma ShortLabels(seconds: int)
    requires 0 <= seconds < 3600
    ensures seconds < 60 ==> FormatTime(seconds) == IntToString(seconds) + "秒"
    ensures 60 <= seconds ==>
              FormatTime(seconds) == IntToString(seconds / 60) + "分" + IntToString(seconds % 60) + "秒"
  {
    Decomposition(seconds);
  }

  /** `lessons.find(l => l.path === path)?.completed || false`. */
  function InitiallyCompleted(lessons: seq<Progress.Lesson>, path: string): (b: bool)
    ensures b <==> Progress.LessonAt(lessons, path).Some? && Progress.LessonAt(lessons, path).value.completed
  {
    var lesson := Progress.LessonAt(lessons, path);
    lesson.Some? && lesson.value.completed
  }

  /** After `markLessonComplete` the flag the widget reads back is set,
      the same value `handleComplete` sets directly. */
  lemma CompletedAfterMark(lessons: seq<Progress.Lesson>, path: string, title: string, category: string, now: string)
    ensures InitiallyCompleted(Progress.MarkComplete(lessons, path, title, category, now), path)
  {
    Progress.MarkCompleteEffect(lessons, path, title, category, now);
  }

  class ProgressTracker {
    var isCompleted: bool

    /** The effect on a path change. */
    constructor(lessons: seq<Progress.Lesson>, path: string)
      ensures isCompleted == InitiallyCompleted(lessons, path)
    {
      isCompleted := InitiallyCompleted(lessons, path);
    }

    /** `handleComplete`: record the completion, then set the flag. */
    method HandleComplete(store: Progress.ProgressStore, path: string, title: string, category: string, now: string)
      modifies this, store
      ensures store.lessons == Progress.MarkComplete(old(store.lessons), path, title, category, now)
      ensures store.sessions == old(store.sessions) && store.sessionStart == old(store.sessionStart)
      ensures isCompleted
      ensures isCompleted == InitiallyCompleted(store.lessons, path)
    {
      store.MarkLessonComplete(path, title, category, now);
      isCompleted := true;
      CompletedAfterMark(old(store.lessons), path, title, category, now);
    }
  }
}
