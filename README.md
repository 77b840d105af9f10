# A verified model of the typescript_site learning platform

The site teaches JavaScript, TypeScript, SQL and front-end frameworks in
Japanese. Readers run code in the browser, take practice quizzes, record
their progress, keep notes and bookmarks, and sign up for a local account.
This project is a Dafny model of the logic under those pages, with proofs
about it:

- **Code sandbox** (`public/code-executor-worker.js`). The worker checks the
  submitted code against a fixed deny-list. A listed word matches when it
  stands between word boundaries, in any letter case, and its first match is
  not judged to lie inside a string by quote counting. A second rule rejects
  `eval(` and `new Function(`. The worker captures console output and posts
  one reply per request, except when the code throws `null` or `undefined`:
  the `catch` itself then fails and the host sees the worker's error event
  instead (module `Sandbox`).
- **Execution controller** (`src/components/InteractiveCodeBlock.tsx`). A
  module-wide id counter, the set of active workers, and one "current
  worker" slot. Every worker event is guarded by the slot's id. Runs are
  cancelled by a new run, by a new initial code, or on unmount (module
  `Execution`).
- **Context providers**: practice results (`Practice`), lesson progress
  and study sessions (`Progress`), local accounts (`Auth`), notes
  (`Notes`) and bookmarks (`Bookmarks`).
- **Components and pages**: the search box (`Search`), the lesson progress
  widget (`Tracker`), the SQL exercise block (`SqlBlock`), the signup page
  (`SignupPage`), and the six practice pages. The pages share one quiz
  model (`Quiz`); their answer checkers live in `JsPracticeBasics`,
  `JsPracticeIntermediate`, `JsPracticeAdvanced`, `TsPracticeBasics`,
  `TsPracticeIntermediate` and `TsPracticeAdvanced`.

Shared helpers:

- `JsString`: substring search, ASCII case folding, JavaScript whitespace
  and `trim`, UTF-16 length, integer printing, code-point order.
- `JsMath`: `Math.round` of a ratio, JavaScript `%`.
- `OrderedMap`: a JavaScript `Map` as an association list in insertion
  order.
- `Grouping`: the "fill a Map in a `forEach`" loop and array filters.
- `KeySort`: the sort by key.
- `FiniteSets`: sizes of images of finite sets.
- `Wrappers`: `Option`.

State that the source mutates is modelled as classes: the code block, the
worker's console shim, every provider's store, the search box, the signup
form, the SQL block, the progress widget and the quiz page. Each method
states its whole new state in terms of specification functions, and the
lemmas about those functions carry the properties. Loops in the source are
`while` loops here:

- the deny-list loop;
- the Map-filling `forEach` loops;
- the row building;
- the search filter;
- the day-streak loop.

Each of these loops is proved against its function.

Inputs from the outside world are parameters:

- the clock (`now`, `today`, millisecond times, the expected date of day
  `i` of a streak);
- the bcrypt hash and compare results;
- whether `new Worker(...)` succeeds;
- what the submitted code does when run (its console calls, what it
  throws, and what it returns);
- what `db.exec` returns.

## Model
| member | source | states |
|---|---|---|
| Sandbox.FirstMatchFrom | public/code-executor-worker.js:56 | the offset found is a match at or after the start, and there is no match between the start and it (none at all when nothing is found) |
| Sandbox.FirstMatch | public/code-executor-worker.js:40 | `regex.exec` finds the leftmost word-bounded, case-insensitive match of the pattern, or reports that there is none |
| Sandbox.SkipSpaces | public/code-executor-worker.js:47 | skips exactly the run of whitespace at the offset and stops at the first non-space character or at the end |
| Sandbox.SpacesThenParen | public/code-executor-worker.js:47 | skipping whitespace greedily and then looking for `(` agrees with the backtracking reading of `\s*\(` |
| Sandbox.FirstBareFrom | public/code-executor-worker.js:38-44 | returns the first deny-list entry, in list order, whose first match lies outside quotes; all earlier entries are not bare |
| Sandbox.Validate | public/code-executor-worker.js:34-52 | the validator's verdict: the first bare deny-list entry rejects with its message, then the eval rule, otherwise the code is accepted |
| Sandbox.InString | public/code-executor-worker.js:55-65 | a match lies inside a string when an odd number of single, double or back quotes precede it |
| Sandbox.ValidateCode | public/code-executor-worker.js:34-52 | the deny-list loop followed by the eval rule computes exactly the validation result `Validate` defines |
| Sandbox.AcceptedIff | public/code-executor-worker.js:34-52 | code is accepted if and only if no deny-list entry is bare and the `eval(` / `new Function(` rule finds nothing |
| Sandbox.BarePatternRejected | public/code-executor-worker.js:38-44 | a bare entry always causes rejection, with the message naming that entry or an earlier one in list order |
| Sandbox.QuoteFreeOccurrenceRejected | public/code-executor-worker.js:55-65 | a word-bounded occurrence with no quote character of any kind before it always causes rejection |
| Sandbox.FunctionKeywordRejected | public/code-executor-worker.js:40 | because matching ignores case, the keyword `function` trips the `Function` entry, so an ordinary function declaration is rejected |
| Sandbox.TopVariableRejected | public/code-executor-worker.js:40-42 | a plain variable named `top` is rejected |
| Sandbox.OnlyFirstOccurrenceExamined | public/code-executor-worker.js:55-65 | only the first match counts: after a quoted `'top'`, a bare `top` later in the code is not reported |
| Sandbox.BackslashIgnored | public/code-executor-worker.js:59-65 | inserting a backslash never changes the in-string verdict, so escaped quotes count like plain ones |
| Sandbox.EvalSuffixRejected | public/code-executor-worker.js:47-49 | the eval rule has no word boundary and ignores quotes: `'retrieval()'` inside a string literal is still caught |
| Sandbox.RenderAll | public/code-executor-worker.js:76-78 | each argument is rendered on its own, objects as JSON and everything else through `String`, in argument order |
| Sandbox.SafeConsole.constructor | public/code-executor-worker.js:70-71 | a fresh shim starts with empty `logs` and `errors` |
| Sandbox.SafeConsole.Log | public/code-executor-worker.js:75-79 | `log` appends the space-joined line to `logs` and leaves `errors` alone |
| Sandbox.SafeConsole.Error | public/code-executor-worker.js:80-84 | `error` appends the line to `errors` and leaves `logs` alone |
| Sandbox.SafeConsole.Warn | public/code-executor-worker.js:85-89 | `warn` appends `警告: ` plus the line to `logs` |
| Sandbox.SafeConsole.Info | public/code-executor-worker.js:90-94 | `info` appends `情報: ` plus the line to `logs` |
| Sandbox.EveryCallCaptured | public/code-executor-worker.js:75-94 | every console call leaves exactly one line, in one of the two arrays |
| Sandbox.Capture | public/code-executor-worker.js:135-146 | running the calls against a fresh shim leaves the `log`/`warn`/`info` lines in `logs` and the `error` lines in `errors`, in call order |
| Sandbox.Compose | public/code-executor-worker.js:149-155 | the composed output is empty exactly when nothing was logged and nothing was reported as an error |
| Sandbox.ResultText | public/code-executor-worker.js:157-161 | an undefined returned value adds nothing, any other is rendered as a console argument is |
| Sandbox.ComposeOutput | public/code-executor-worker.js:149-155 | the two appends build the log block, then the `エラー: ` block, as `Compose` defines |
| Sandbox.OrFallback | public/code-executor-worker.js:173 | the reported error is never empty; a non-empty message is kept as it is |
| Sandbox.Respond | public/code-executor-worker.js:127-176 | nothing is posted exactly when accepted code throws `null` or `undefined`; otherwise the reply carries the request id, it is a failure exactly when validation rejects or the code throws, a rejection reports the validator's message, and accepted code with no console call and no returned value shows `(出力なし)` |
| Sandbox.OnMessage | public/code-executor-worker.js:127-176 | the handler posts exactly the reply `Respond` defines, and posts nothing when it does |
| Sandbox.RejectionMessageNonEmpty | public/code-executor-worker.js:42-48 | the validator's own messages are never empty, so they are posted as they are |
| Sandbox.NoOutputIff | public/code-executor-worker.js:149-166 | a console call always shows; without a returned value a successful run shows `(出力なし)` exactly when the code made no console call, and otherwise the output ends in a newline; with no console call and an empty returned text it shows `(出力なし)` |
| Execution.WorkerErrorMessage | src/components/InteractiveCodeBlock.tsx:380 | a worker error always reaches the promise as `Workerエラー: ` followed by the message, or by `不明なエラー` when there is none |
| Execution.CodeBlock.constructor | src/components/InteractiveCodeBlock.tsx:272-273 | a mounted block starts idle: no worker, empty slot, no promises, the code equal to the initial code |
| Execution.CodeBlock.Cancel | src/components/InteractiveCodeBlock.tsx:93-104 | cancelling empties the slot, the active workers and the timers; no promise is settled and nothing else changes |
| Execution.CodeBlock.Edit | src/components/InteractiveCodeBlock.tsx:250 | editing changes only the code; the slot invariant is kept |
| Execution.CodeBlock.Reset | src/components/InteractiveCodeBlock.tsx:177-181 | reset restores the initial code and clears output and error; a running execution goes on |
| Execution.CodeBlock.Run | src/components/InteractiveCodeBlock.tsx:70-175 | a click while running changes nothing; blank code only sets the blank-code error; otherwise the previous run is cancelled, a fresh id (the old counter, never used before) is taken, and the new worker fills the slot with a pending promise, or is rejected when it cannot be spawned; no other promise is settled |
| Execution.CodeBlock.ExecuteCode | src/components/InteractiveCodeBlock.tsx:276-306 | the counter grows by exactly one and the new id is fresh; on a spawn failure the promise is rejected with the spawn message; otherwise the id holds the slot, one active worker and one timer, and the code is posted under it |
| Execution.CodeBlock.Deliver | src/components/InteractiveCodeBlock.tsx:312-357 | a message for another id, or one arriving with an empty slot, changes nothing; a matching success resolves with the output, shows it and passes the run's code to `onCheck`; a matching failure rejects with the message or the fallback; both empty the slot and never show an error |
| Execution.CodeBlock.Settle | src/components/InteractiveCodeBlock.tsx:325-346 | settling clears the timer, the active worker and the slot, and changes only this run's promise |
| Execution.CodeBlock.WorkerError | src/components/InteractiveCodeBlock.tsx:360-386 | an error event for another id is ignored; a matching one rejects with the `Workerエラー:` message, empties the slot and shows no error |
| Execution.CodeBlock.Timeout | src/components/InteractiveCodeBlock.tsx:297-306 | only the run in the slot can time out; the timeout rejects it with the timeout message and empties the slot |
| Execution.CodeBlock.ChangeInitialCode | src/components/InteractiveCodeBlock.tsx:33-50 | a new initial code abandons the run without settling its promise and starts over with empty output and error |
| Execution.CodeBlock.Unmount | src/components/InteractiveCodeBlock.tsx:53-67 | unmounting abandons the run without settling any promise |
| Practice.Upsert | src/contexts/PracticeContext.tsx:152-168 | the new results list of `saveResult`: the first entry for the same question is overwritten, or the result is appended |
| Practice.FindIndex | src/contexts/PracticeContext.tsx:154-159 | finds the first entry with the same question, category, level and language, or reports that none exists |
| Practice.UpsertPlaces | src/contexts/PracticeContext.tsx:152-168 | a new result takes the place of the first entry for its question, keeping the length, or is appended; every other entry stays where it was |
| Practice.UpsertKeepsUnique | src/contexts/PracticeContext.tsx:154-167 | when the keys start unique, they stay unique after a save |
| Practice.SaveAllKeepsUnique | src/contexts/PracticeContext.tsx:152-168 | over any sequence of saves the keys stay unique, and the list grows by at most one entry per save |
| Practice.PracticeStore.constructor | src/contexts/PracticeContext.tsx:65 | a store starts with the results loaded at start-up |
| Practice.PracticeStore.SaveResult | src/contexts/PracticeContext.tsx:152-168 | the copy-then-overwrite or append leaves exactly the list `Upsert` defines |
| Practice.CountCorrect | src/contexts/PracticeContext.tsx:225 | the number of correct results never exceeds the number of results |
| Practice.OverallAccuracy | src/contexts/PracticeContext.tsx:223-227 | the overall accuracy is the share of correct results as a rounded percent, 0 with no results; it lies in 0..100, is 0 with no correct result and 100 when every result is correct |
| Practice.TotalPracticed | src/contexts/PracticeContext.tsx:229-234 | `getTotalPracticed` counts no more questions than there are results, and at least one once a result exists |
| Practice.TripleTextInjective | src/contexts/PracticeContext.tsx:231 | while language and level contain no `-`, distinct triples give distinct `language-level-id` strings |
| Practice.TotalPracticedCountsTriples | src/contexts/PracticeContext.tsx:229-234 | the size of the string set equals the number of distinct (language, level, questionId) triples |
| Practice.CategoryQuestions | src/contexts/PracticeContext.tsx:191-198 | a key outside the six listed courses gets 0 questions; the listed ones get their fixed positive count |
| Practice.GetPracticeStats | src/contexts/PracticeContext.tsx:171-217 | filling the Map over the results and mapping its entries gives exactly `PracticeStatsOf` |
| Practice.StatsAccOfGroup | src/contexts/PracticeContext.tsx:178-189 | folding one group gives its size, its number of correct answers, and its greatest timestamp (absent only when every timestamp is empty) |
| Practice.EmptyLeast | src/contexts/PracticeContext.tsx:185 | a group starts its latest timestamp from `''`, which every non-empty timestamp beats and which beats none |
| Practice.PracticeStatsMeaning | src/contexts/PracticeContext.tsx:200-215 | record `i` belongs to one `language-level` key and reports that group's correct answers, its rounded accuracy in 0..100, the course's fixed question count and the group's latest timestamp |
| Practice.PracticeStatsKeys | src/contexts/PracticeContext.tsx:178-189 | there is one record per key, no key twice, and every result's key is present |
| Practice.StatsKeySplits | src/contexts/PracticeContext.tsx:201 | splitting the key gives back the result's language and level while neither contains `-` |
| Practice.TotalQuestionsFromTable | src/contexts/PracticeContext.tsx:191-211 | a single answer to the JavaScript basics course reports 8 questions: the count comes from the table, not from the answers |
| Practice.CategoryStatsMembers | src/contexts/PracticeContext.tsx:219-221 | a record is returned exactly when the statistics hold it and its category is the one asked for |
| Practice.CategoryStats | src/contexts/PracticeContext.tsx:219-221 | `getCategoryStats` returns no more records than `getPracticeStats`, each of the category asked for |
| Practice.Selected | src/contexts/PracticeContext.tsx:237-244 | a result is kept exactly when it is a result whose language and level pass the optional filters |
| Practice.GetAccuracyHistory | src/contexts/PracticeContext.tsx:236-313 | for the daily and monthly ranges the filter, the Map-filling loop and the sort compute exactly `History` |
| Practice.HistorySorted | src/contexts/PracticeContext.tsx:259-266 | buckets come back in strictly ascending date order, so each date appears once |
| Practice.BucketOfGroup | src/contexts/PracticeContext.tsx:250-257 | a bucket holds its group's correct count and size |
| Practice.BucketTotalsSum | src/contexts/PracticeContext.tsx:250-257 | the bucket totals add up to the number of results bucketed |
| Practice.TotalQuestionsOfEntries | src/contexts/PracticeContext.tsx:259-265 | the history entries carry the bucket totals unchanged, so their `totalQuestions` add up to the same sum |
| Practice.HistoryTotals | src/contexts/PracticeContext.tsx:246-266 | summing `totalQuestions` over the history gives the number of filtered results: each one lands in exactly one bucket |
| Practice.HistoryEntryMeaning | src/contexts/PracticeContext.tsx:259-265 | each entry counts the filtered results of its date and their correct answers, and its accuracy is the rounded percent of the two, within 0..100 |
| Progress.ElapsedSeconds | src/contexts/ProgressContext.tsx:151 | the duration is the floored number of whole seconds between the two times |
| Progress.RecordedIff | src/contexts/ProgressContext.tsx:151-153 | a session is kept exactly when at least 11000 ms passed, that is more than 10 whole seconds |
| Progress.MarkComplete | src/contexts/ProgressContext.tsx:234-262 | the new lesson list of `markLessonComplete`: every lesson with the path completed and stamped, or one completed lesson appended |
| Progress.LessonAt | src/contexts/ProgressContext.tsx:235 | finds a lesson with the path, or reports that none has it |
| Progress.Touched | src/contexts/ProgressContext.tsx:239-243 | the lesson map keeps the length, and every lesson becomes its touched version |
| Progress.MarkCompleteEffect | src/contexts/ProgressContext.tsx:234-262 | on a known path every lesson with that path is completed and stamped and all other lessons are unchanged; a new path appends one completed lesson with no study time; either way the lesson found afterwards is completed |
| Progress.SecondsOfGroup | src/contexts/ProgressContext.tsx:270-273 | a bucket holds the summed durations of its group |
| Progress.StatsBySorted | src/contexts/ProgressContext.tsx:275-280 | daily and monthly keys come back strictly ascending, each once |
| Progress.StatsByMeaning | src/contexts/ProgressContext.tsx:267-281 | each entry holds the summed durations of exactly the sessions with its key |
| Progress.StatsSumGroup | src/contexts/ProgressContext.tsx:270-273 | the Map's seconds add up to the total study time |
| Progress.StatsByTotal | src/contexts/ProgressContext.tsx:359-361 | after sorting, the per-key seconds still add up to `getTotalStudyTime` |
| Progress.StatsByCount | src/contexts/ProgressContext.tsx:267-281 | there is one entry per distinct key |
| Progress.StatsOf | src/contexts/ProgressContext.tsx:267-281 | the `forEach` and the sort compute exactly `StatsBy` |
| Progress.TotalTime | src/contexts/ProgressContext.tsx:359-361 | `getTotalStudyTime`: with no negative durations, the total is never negative and is at least every single session's duration |
| Progress.DailyStats | src/contexts/ProgressContext.tsx:267-281 | the per-date seconds: dates strictly ascending, one entry per distinct date, adding up to the total study time |
| Progress.MonthlyStats | src/contexts/ProgressContext.tsx:312-327 | the per-month seconds: months strictly ascending, one entry per distinct month, adding up to the total study time |
| Progress.InCategory | src/contexts/ProgressContext.tsx:343-345 | a lesson belongs to the category exactly when it is a lesson whose path starts with the category path |
| Progress.CompletedCount | src/contexts/ProgressContext.tsx:346 | no more lessons are completed than there are lessons |
| Progress.CategoryStatOf | src/contexts/ProgressContext.tsx:342-356 | the entry reports the category's completed lessons and, as divisor, their number (1 when there are none), with the rounded percent of the two, within 0..100 |
| Progress.CategoryProgress | src/contexts/ProgressContext.tsx:329-357 | exactly the nine categories, in their fixed order |
| Progress.TouchedCategory | src/contexts/ProgressContext.tsx:239-243 | completing existing lessons keeps every category's size and never lowers its completed count |
| Progress.AppendCategory | src/contexts/ProgressContext.tsx:245-253 | appending a lesson never lowers a category's completed count |
| Progress.MarkCompleteMonotone | src/contexts/ProgressContext.tsx:234-262 | completing a lesson never lowers any category's completed count |
| Progress.Reverse | src/contexts/ProgressContext.tsx:366 | `reverse` puts element `i` at position `n - 1 - i` |
| Progress.DatesCount | src/contexts/ProgressContext.tsx:366 | the streak runs over as many dates as there are distinct session dates, and over none without sessions |
| Progress.AverageDailyStudyTime | src/contexts/ProgressContext.tsx:411-417 | 0 without sessions; otherwise the total time divided by the number of distinct days, rounded half up |
| Progress.Streak | src/contexts/ProgressContext.tsx:370-380 | the count is the length of the longest run of leading dates that equal today, today−1, and so on |
| Progress.ProgressStore.constructor | src/contexts/ProgressContext.tsx:69-70 | a store starts with the loaded lessons and sessions and no open session |
| Progress.ProgressStore.StartSession | src/contexts/ProgressContext.tsx:144-146 | opens a session at the given time and changes nothing else |
| Progress.ProgressStore.EndSession | src/contexts/ProgressContext.tsx:148-190 | with a session open, appends it to the sessions only when at least 11 s passed; with none open, changes nothing; the session is closed either way |
| Progress.ProgressStore.MarkLessonComplete | src/contexts/ProgressContext.tsx:234-262 | the lessons become `MarkComplete` of the old ones; sessions are unchanged |
| Progress.ProgressStore.GetDailyStats | src/contexts/ProgressContext.tsx:267-281 | returns the per-date seconds, sorted by date |
| Progress.ProgressStore.GetMonthlyStats | src/contexts/ProgressContext.tsx:312-327 | returns the per-month seconds, sorted by month |
| Progress.ProgressStore.GetConsecutiveDays | src/contexts/ProgressContext.tsx:363-383 | 0 without sessions; never more than the number of distinct dates; exactly the leading run of latest dates matching today, today−1, … |
| Auth.ValidateUsername | src/contexts/AuthContext.tsx:24-35 | a username is accepted exactly when it has 5 to 30 UTF-16 units, all ASCII letters or digits; the too-short rule is reported first, then too-long, then bad characters |
| Auth.UsernameValidIff | src/contexts/AuthContext.tsx:24-35 | a username is accepted exactly when it has 5 to 30 characters, all ASCII letters and digits |
| Auth.ValidatePasswordStrength | src/contexts/AuthContext.tsx:38-55 | a password is accepted exactly when it has at least 8 characters and an upper-case letter, a lower-case letter, a digit and a listed symbol; each failing rule is reported only when all earlier ones pass, in that order |
| Auth.ExamplePassword | src/contexts/AuthContext.tsx:38-55 | an illustration: `Abcdef1!` is a strong password |
| Auth.SignupError | src/contexts/AuthContext.tsx:89-154 | the username rule is checked first, then the password rule, then the duplicate check; signup goes through exactly when both rules pass and the name is not taken |
| Auth.SignupErrorAsWritten | src/contexts/AuthContext.tsx:152-154 | the duplicate test as written only adds rejections, and agrees with the corrected rule on every name that `Object.prototype` does not define |
| Auth.ValueOfReportedTaken | src/contexts/AuthContext.tsx:152-154 | on an empty users record, `valueOf` with a strong password is reported as taken by the code as written, and accepted by the corrected rule |
| Auth.ValueOfIsValidUsername | src/contexts/AuthContext.tsx:24-35 | `valueOf` passes the username rules |
| Auth.DuplicateRejected | src/contexts/AuthContext.tsx:152-154 | signing up under an existing username always fails |
| Auth.AuthStore.Signup | src/contexts/AuthContext.tsx:147-167 | a failure reports the first failing rule and leaves the users record and the user unchanged; a success adds exactly the new entry and signs in `{id: username, username}` |
| Auth.AuthStore.Login | src/contexts/AuthContext.tsx:207-230 | succeeds exactly when a users record exists, holds the name and the password matches its hash; only then is the user set; the users record never changes |
| Auth.AuthStore.Logout | src/contexts/AuthContext.tsx:232-249 | the user becomes null, so the store is no longer authenticated; the users record is unchanged |
| Auth.AuthStore.constructor | src/contexts/AuthContext.tsx:58-86 | a store starts with the stored users record and user |
| Notes.DeleteNote | src/contexts/NoteContext.tsx:144-159 | the notes left after `deleteNote`: those of other paths, in order |
| Notes.GetNote | src/contexts/NoteContext.tsx:82-85 | returns the content of the first note with the path, or `''` when none has it |
| Notes.SaveNote | src/contexts/NoteContext.tsx:87-141 | blank content deletes the path's notes; otherwise an existing path is rewritten in place and a new one is appended |
| Notes.DeleteNoteEffect | src/contexts/NoteContext.tsx:144-159 | after deleting, no note has the path and reading it gives `''`; exactly the notes of other paths remain; the filter works piecewise, so the order is kept |
| Notes.GetAfterSave | src/contexts/NoteContext.tsx:130-141 | after saving non-blank content, reading the path gives that content |
| Notes.BlankSaveDeletes | src/contexts/NoteContext.tsx:88-91 | saving blank content leaves no note with the path |
| Notes.GetAppend | src/contexts/NoteContext.tsx:139 | reading a list with one note appended finds the old note first, then the new one |
| Notes.AppendOtherGet | src/contexts/NoteContext.tsx:139 | appending a note for one path never changes what another path reads |
| Notes.DeleteOtherGet | src/contexts/NoteContext.tsx:158 | deleting one path never changes what another path reads |
| Notes.RewriteOtherGet | src/contexts/NoteContext.tsx:132-137 | rewriting one path never changes what another path reads |
| Notes.SaveOtherGet | src/contexts/NoteContext.tsx:87-141 | saving under one path never changes what another path reads |
| Notes.NoteStore.constructor | src/contexts/NoteContext.tsx:43 | a store starts with the notes loaded at start-up |
| Notes.NoteStore.Save | src/contexts/NoteContext.tsx:87-141 | the notes become `SaveNote` of the old ones |
| Notes.NoteStore.Delete | src/contexts/NoteContext.tsx:144-159 | the notes become `DeleteNote` of the old ones |
| Bookmarks.IsBookmarked | src/contexts/BookmarkContext.tsx:132-134 | `isBookmarked` holds exactly when the path is among the bookmarked paths |
| Bookmarks.Add | src/contexts/BookmarkContext.tsx:85-112 | the list after `addBookmark`: unchanged for a bookmarked path, else the new bookmark appended |
| Bookmarks.Remove | src/contexts/BookmarkContext.tsx:115-130 | the list after `removeBookmark`: the bookmarks of other paths |
| Bookmarks.Toggle | src/contexts/BookmarkContext.tsx:136-142 | `toggleBookmark`: remove when bookmarked, add otherwise |
| Bookmarks.AddEffect | src/contexts/BookmarkContext.tsx:85-112 | afterwards the path is bookmarked; adding an already bookmarked path changes nothing, and a new one is appended |
| Bookmarks.RemoveEffect | src/contexts/BookmarkContext.tsx:115-130 | afterwards the path is not bookmarked; exactly the bookmarks of other paths remain, and their order is kept |
| Bookmarks.ToggleFlips | src/contexts/BookmarkContext.tsx:136-142 | toggling flips `isBookmarked` for the path |
| Bookmarks.RemoveThenAddPaths | src/contexts/BookmarkContext.tsx:85-130 | removing a bookmarked path and adding it back gives the same set of paths |
| Bookmarks.AddThenRemove | src/contexts/BookmarkContext.tsx:85-130 | adding an unbookmarked path and removing it again gives back the original list |
| Bookmarks.ToggleTwice | src/contexts/BookmarkContext.tsx:136-142 | toggling twice restores the set of bookmarked paths, and from an unbookmarked path, the list itself |
| Bookmarks.UniqueKept | src/contexts/BookmarkContext.tsx:85-142 | adding, removing and toggling keep paths unique |
| Bookmarks.RemoveSubsequence | src/contexts/BookmarkContext.tsx:129 | the filter keeps paths unique because it never reorders bookmarks |
| Bookmarks.BookmarkStore.constructor | src/contexts/BookmarkContext.tsx:45 | a store starts with the bookmarks loaded at start-up |
| Bookmarks.BookmarkStore.AddBookmark | src/contexts/BookmarkContext.tsx:85-112 | the list becomes `Add` of the old one |
| Bookmarks.BookmarkStore.RemoveBookmark | src/contexts/BookmarkContext.tsx:115-130 | the list becomes `Remove` of the old one |
| Bookmarks.BookmarkStore.ToggleBookmark | src/contexts/BookmarkContext.tsx:136-142 | the list becomes `Toggle` of the old one |
| Search.Results | src/components/SearchBar.tsx:94-121 | the results of a query: none for a blank one, otherwise the first eight index entries whose title, keywords or content contain the lower-cased query |
| Search.SomeKeywordIff | src/components/SearchBar.tsx:105 | the keyword test holds exactly when some lower-cased keyword contains the term |
| Search.MatchPositions | src/components/SearchBar.tsx:103-117 | the positions collected are exactly the matching entries, in strictly increasing index order |
| Search.First | src/components/SearchBar.tsx:119 | `slice(0, n)` keeps the first `min(n, length)` elements |
| Search.FirstPositioned | src/components/SearchBar.tsx:119 | cutting the results to eight is the same as cutting the matching positions to eight first |
| Search.ResultsIn | src/components/SearchBar.tsx:94-121 | never more than eight results |
| Search.IndexPathsDistinct | src/components/SearchBar.tsx:14-87 | the nine index entries have distinct paths |
| Search.PathsDistinct | src/components/SearchBar.tsx:14-87 | the nine page paths of the search index are pairwise different |
| Search.IndexPaths | src/components/SearchBar.tsx:14-87 | the index lists its nine pages with exactly those paths, in order |
| Search.ResultFromIndex | src/components/SearchBar.tsx:100-119 | every shown result is an index entry whose title, some keyword or content contains the lower-cased query |
| Search.ResultsDistinct | src/components/SearchBar.tsx:103-119 | results keep index order, so with distinct index paths no path is shown twice |
| Search.ResultsComplete | src/components/SearchBar.tsx:103-119 | when at most eight entries match, every matching entry is shown |
| Search.LetFindsBasics | src/components/SearchBar.tsx:19 | an illustration: the keyword `let` finds the JavaScript basics page |
| Search.FilterIndex | src/components/SearchBar.tsx:100-117 | the `forEach` pushes exactly the matching entries, in index order |
| Search.ArrowsStayInRange | src/components/SearchBar.tsx:134-139 | ArrowDown and ArrowUp keep the selection within −1..results−1; ArrowUp never goes below −1; ArrowDown moves exactly when not on the last result |
| Search.ResultsMeaningFirst | src/components/SearchBar.tsx:119 | the loop's list cut to eight is the result list `ResultsIn` defines |
| Search.SearchBox.constructor | src/components/SearchBar.tsx:88-90 | the box starts with an empty query, no results, closed, nothing selected |
| Search.SearchBox.QueryChanged | src/components/SearchBar.tsx:94-121 | the results become those of the current query; a non-blank query resets the selection to −1, a blank one leaves it |
| Search.SearchBox.Type | src/components/SearchBar.tsx:186-189 | typing sets the query, opens the list and refreshes the results |
| Search.SearchBox.Press | src/components/SearchBar.tsx:130-149 | Enter navigates exactly when the selection points at a result, and to that result's path; Escape and navigation close the list and empty the query, keeping the selection; while open the arrows move only the selection; Ctrl+K only opens the list; any other key, Enter with no selection and arrows while closed change nothing |
| Search.SearchBox.ClickResult | src/components/SearchBar.tsx:160-164 | a click navigates to the path, closes the list and empties the query |
| Search.SearchBox.Hover | src/components/SearchBar.tsx:214 | hovering selects that result |
| Search.SearchBox.Focus | src/components/SearchBar.tsx:190 | focusing opens the list and changes nothing else |
| Search.SearchBox.ClickOutside | src/components/SearchBar.tsx:124-127 | a click outside closes the list and changes nothing else |
| Search.SearchBox.Clear | src/components/SearchBar.tsx:196-199 | the clear button empties the query and the results |
| Tracker.FormatTime | src/components/ProgressTracker.tsx:50-56 | hours, minutes and seconds are shown when there are hours; minutes and seconds when there are only minutes; otherwise seconds alone |
| Tracker.Decomposition | src/components/ProgressTracker.tsx:45-48 | for a non-negative count, h·3600 + m·60 + s is the count, with minutes and seconds below 60 |
| Tracker.ShortLabels | src/components/ProgressTracker.tsx:45-57 | under a minute only seconds show; under an hour no hours show |
| Tracker.InitiallyCompleted | src/components/ProgressTracker.tsx:18-22 | the flag starts true exactly when a lesson at the path exists and is completed |
| Tracker.CompletedAfterMark | src/components/ProgressTracker.tsx:40-43 | after `markLessonComplete` the stored lesson reads back as completed, the same value `handleComplete` sets |
| Tracker.ProgressTracker.constructor | src/components/ProgressTracker.tsx:18-22 | the widget's flag is the stored completion flag of the lesson |
| Tracker.ProgressTracker.HandleComplete | src/components/ProgressTracker.tsx:40-43 | the store's lessons become `MarkComplete` of the old ones and the flag is set, agreeing with the store |
| SqlBlock.RowObject | src/components/SQLQueryBlock.tsx:147-153 | the object built for one row: each column name set to its value, a later duplicate overwriting an earlier one |
| SqlBlock.LastIndexOf | src/components/SQLQueryBlock.tsx:149-151 | finds the last position of a column name, or −1 exactly when the name is not a column |
| SqlBlock.RowObjectGet | src/components/SQLQueryBlock.tsx:147-153 | each column name holds the value of its last occurrence in the row, so a later duplicate wins; no other property exists |
| SqlBlock.RowObjectDistinct | src/components/SQLQueryBlock.tsx:148-151 | a row object never repeats a property |
| SqlBlock.RowObjectZip | src/components/SQLQueryBlock.tsx:147-153 | with distinct column names the row object is the row zipped with the columns, in column order |
| SqlBlock.BuildRow | src/components/SQLQueryBlock.tsx:148-152 | the inner `forEach` builds exactly `RowObject` |
| SqlBlock.RowsOfAt | src/components/SQLQueryBlock.tsx:147 | there is one row object per row of values, in order |
| SqlBlock.BuildRows | src/components/SQLQueryBlock.tsx:147-153 | the `map` builds exactly `RowsOf` |
| SqlBlock.CheckResult | src/components/SQLQueryBlock.tsx:178-185 | `checkResult`: equal lengths and equal serialisations after the default sort |
| SqlBlock.Verdict | src/components/SQLQueryBlock.tsx:163-169 | the verdict: `checkFunction` when given, else the comparison with `expectedResult` when given, else none |
| SqlBlock.Defined | src/components/SQLQueryBlock.tsx:182-183 | the properties `JSON.stringify` writes are those whose value is not undefined |
| SqlBlock.StableSortSameKey | src/components/SQLQueryBlock.tsx:182 | when every element converts to the same string, sorting keeps the order |
| SqlBlock.DefaultSort | src/components/SQLQueryBlock.tsx:182-183 | `sort()` on rows of plain objects returns them in their original order, since every row converts to the same string |
| SqlBlock.Serialized | src/components/SQLQueryBlock.tsx:182-183 | what `JSON.stringify` writes is one entry per row, in order, each the row's defined properties |
| SqlBlock.CheckResultMeaning | src/components/SQLQueryBlock.tsx:178-185 | the comparison fails on a length mismatch and otherwise compares the rows in their original order by their defined properties |
| SqlBlock.SerializedEqual | src/components/SQLQueryBlock.tsx:182-184 | two serialisations are equal exactly when the rows agree pairwise on their defined properties |
| SqlBlock.ColumnOrderMatters | src/components/SQLQueryBlock.tsx:178-185 | an illustration: the same values with the columns in another order do not match |
| SqlBlock.VerdictPrecedence | src/components/SQLQueryBlock.tsx:163-169 | with `checkFunction` present, `expectedResult` does not matter; without it there is a verdict exactly when `expectedResult` is given; the expected rows themselves pass |
| SqlBlock.QueryBlock.constructor | src/components/SQLQueryBlock.tsx:29-37 | a block starts with its initial code, empty output, no verdict and no engine |
| SqlBlock.QueryBlock.Attach | src/components/SQLQueryBlock.tsx:40-94 | attaching the engine and database marks the block ready and changes nothing else |
| SqlBlock.QueryBlock.Run | src/components/SQLQueryBlock.tsx:121-176 | without an engine only the error is set; a thrown query sets the message or the fallback and a false verdict; an empty result gives empty rows and columns, reported to `onResult`; otherwise the first result set's rows and columns are shown and reported, and the verdict follows the check precedence |
| SqlBlock.QueryBlock.Reset | src/components/SQLQueryBlock.tsx:187-193 | reset restores the initial code and clears output, columns, error and verdict |
| SqlBlock.QueryBlock.InitialCodeChanged | src/components/SQLQueryBlock.tsx:112-119 | a new initial code resets the block and stops the run |
| SignupPage.IsPasswordValid | src/pages/Signup.tsx:18-26 | the page's five password requirements all hold |
| SignupPage.SubmitDisabled | src/pages/Signup.tsx:199 | the button is disabled while loading, for an invalid password, or when the confirmation is empty or differs from the password |
| SignupPage.PageAgreesWithStore | src/pages/Signup.tsx:18-26 | the page accepts exactly the passwords the store's strength rule accepts |
| SignupPage.StripNonAlnum | src/pages/Signup.tsx:79 | the stripped value keeps exactly the ASCII letters and digits of the typed text, and leaves a text of only letters and digits as it is |
| SignupPage.FilterUsername | src/pages/Signup.tsx:77-83 | the username field keeps its value or becomes letters and digits only, takes no character from anywhere but the old value and the typed text, and takes a typed value of letters and digits within 30 as it is |
| SignupPage.FilterPassword | src/pages/Signup.tsx:106-111 | the password field becomes the typed text or keeps its value, and keeps it when the typed text is longer than 128 UTF-16 units |
| SignupPage.UsernameFilterKeeps | src/pages/Signup.tsx:77-83 | the username field stays letters and digits and at most 30 long after any edit, and takes the stripped value whenever it fits |
| SignupPage.PasswordFilterKeeps | src/pages/Signup.tsx:106-110 | a password of at most 128 UTF-16 units stays so after any edit, and any edit that fits is taken |
| SignupPage.SubmitGuard | src/pages/Signup.tsx:33-41 | submission passes the guards exactly when the password is valid and equals the confirmation; an invalid password is reported first, and a valid one that differs from the confirmation gives the mismatch message |
| SignupPage.GuardAgreesWithButton | src/pages/Signup.tsx:199 | when not loading, the button is enabled exactly when the handler's guards pass: the non-empty test is implied by a valid password |
| SignupPage.SignupForm.constructor | src/pages/Signup.tsx:8-14 | the form starts empty, not loading, not navigated |
| SignupPage.SignupForm.TypeUsername | src/pages/Signup.tsx:77-83 | the username becomes the filtered value; nothing else changes |
| SignupPage.SignupForm.TypePassword | src/pages/Signup.tsx:106-110 | the password becomes the filtered value; nothing else changes |
| SignupPage.SignupForm.TypeConfirmation | src/pages/Signup.tsx:159-164 | the confirmation becomes the filtered value; nothing else changes |
| SignupPage.SignupForm.Submit | src/pages/Signup.tsx:29-57 | `signup` is called exactly when the guards pass; a guard failure sets its message and leaves the store untouched; once called, the store's outcome decides: a success stores the user, signs them in and navigates home, a failure shows the store's message and leaves the store as it was; loading is off at the end |
| Quiz.CorrectCount | src/pages/practice/JavaScriptPracticeBasics.tsx:153 | the correct count never exceeds the number of answers |
| Quiz.Accuracy | src/pages/practice/JavaScriptPracticeBasics.tsx:153-155 | the accuracy lies in 0..100; it is 0 with no answers, and otherwise the correct count over all answers (null verdicts included) as a rounded percent |
| Quiz.EditedVerdict | src/pages/practice/JavaScriptPracticeBasics.tsx:215-220 | after an edit a true verdict survives, and false, null or a missing entry all become null; false never survives |
| Quiz.CorrectIdsUpdate | src/pages/practice/JavaScriptPracticeBasics.tsx:221-240 | overwriting one answer changes the set of correct ids only at that question |
| Quiz.SizeUpdate | src/pages/practice/JavaScriptPracticeBasics.tsx:215-240 | storing an answer adds one to the number of answers for a new question and keeps it for an answered one |
| Quiz.EditCounts | src/pages/practice/JavaScriptPracticeBasics.tsx:215-220 | editing never changes the correct count, but typing into a new question adds an answer with a null verdict, which lowers the accuracy |
| Quiz.RecordCounts | src/pages/practice/JavaScriptPracticeBasics.tsx:221-240 | checking replaces the question's share of the correct count by the new verdict's |
| Quiz.WrongThenEdited | src/pages/practice/JavaScriptPracticeBasics.tsx:215-240 | a wrong answer that is then edited shows no verdict at all |
| Quiz.EditorCode | src/pages/practice/JavaScriptPracticeBasics.tsx:212 | the editor opens with the stored code when there is some, else with the question's initial code |
| Quiz.QuizPage.constructor | src/pages/practice/JavaScriptPracticeBasics.tsx:133-137 | a page starts at the first question with no answers and no feedback |
| Quiz.QuizPage.Next | src/pages/practice/JavaScriptPracticeBasics.tsx:141-145 | moves one question on, never past the last; the answers stay and so does the feedback |
| Quiz.QuizPage.Prev | src/pages/practice/JavaScriptPracticeBasics.tsx:147-151 | moves one question back, never before the first; the answers stay and so does the feedback |
| Quiz.QuizPage.CodeChanged | src/pages/practice/JavaScriptPracticeBasics.tsx:215-220 | the answers become `Edit` of the old ones for the current question; the question and the feedback stay |
| Quiz.QuizPage.Check | src/pages/practice/JavaScriptPracticeBasics.tsx:221-240 | the verdict is the current question's checker on the code; the answer is recorded, the feedback shown, and the practice store receives the result under the page's category, level and language |
| Quiz.QuizPage.HideFeedback | src/pages/practice/JavaScriptPracticeBasics.tsx:229 | the feedback timer hides the feedback and changes nothing else |
| JsPracticeBasics.Question1 | src/pages/practice/JavaScriptPracticeBasics.tsx:26-34 | the `checkAnswer` of question 1: the code contains `console.log` and a quoted `Hello World` |
| JsPracticeBasics.Question2 | src/pages/practice/JavaScriptPracticeBasics.tsx:43-47 | the `checkAnswer` of question 2: the code contains `let`, `name` and a quoted `太郎` |
| JsPracticeBasics.Question3 | src/pages/practice/JavaScriptPracticeBasics.tsx:56-58 | the `checkAnswer` of question 3: the code contains `function` and `greet` |
| JsPracticeBasics.Question4 | src/pages/practice/JavaScriptPracticeBasics.tsx:67-72 | the `checkAnswer` of question 4: the code contains both brackets and the three quoted fruit names |
| JsPracticeBasics.Question5 | src/pages/practice/JavaScriptPracticeBasics.tsx:81-86 | the `checkAnswer` of question 5: the code contains `if`, `age`, `>=` and a quoted `成人` |
| JsPracticeBasics.Question6 | src/pages/practice/JavaScriptPracticeBasics.tsx:95-99 | the `checkAnswer` of question 6: the code contains `for`, `let`, and `i++` or `i += 1` |
| JsPracticeBasics.Question7 | src/pages/practice/JavaScriptPracticeBasics.tsx:108-114 | the `checkAnswer` of question 7: the code contains both braces, `name`, `age`, a quoted `花子` and `20` |
| JsPracticeBasics.Question8 | src/pages/practice/JavaScriptPracticeBasics.tsx:123-128 | the `checkAnswer` of question 8: the code contains `function`, `sayHello`, `console.log` and a quoted `Hello` |
| JsPracticeBasics.Question1Answer | src/pages/practice/JavaScriptPracticeBasics.tsx:26-34 | an illustration: `console.log('Hello World');` passes question 1 |
| JsPracticeBasics.Question6Loop | src/pages/practice/JavaScriptPracticeBasics.tsx:95-99 | any code with `for`, then `let`, then `i++` passes question 6 |
| JsPracticeBasics.Question7Accepts2020 | src/pages/practice/JavaScriptPracticeBasics.tsx:108-114 | an illustration: question 7 only looks for `20`, so an age of 2020 passes |
| JsPracticeBasics.Open | src/pages/practice/JavaScriptPracticeBasics.tsx:232-239 | the page has the eight checkers in order and saves under javascript / basics |
| JsPracticeIntermediate.Question1 | src/pages/practice/JavaScriptPracticeIntermediate.tsx:26-30 | the `checkAnswer` of question 1: the code contains `=>`, `double`, and one of `x * 2`, `x*2`, `2 * x`, `2*x` |
| JsPracticeIntermediate.Question2 | src/pages/practice/JavaScriptPracticeIntermediate.tsx:39-43 | the `checkAnswer` of question 2: the code contains both brackets, `const`, `a`, `b` and `c` |
| JsPracticeIntermediate.Question3 | src/pages/practice/JavaScriptPracticeIntermediate.tsx:52-55 | the `checkAnswer` of question 3: the code contains `...`, `arr1` and `arr2` |
| JsPracticeIntermediate.Question4 | src/pages/practice/JavaScriptPracticeIntermediate.tsx:64-68 | the `checkAnswer` of question 4: the code contains `Promise`, `resolve`, and `完了` in single or double quotes |
| JsPracticeIntermediate.Question5 | src/pages/practice/JavaScriptPracticeIntermediate.tsx:77-81 | the `checkAnswer` of question 5: the code contains `class`, `Person`, `name` and `age` |
| JsPracticeIntermediate.Question2NeedsNoC | src/pages/practice/JavaScriptPracticeIntermediate.tsx:39-42 | the test for `c` is redundant: `const` already contains it |
| JsPracticeIntermediate.Question1Arrow | src/pages/practice/JavaScriptPracticeIntermediate.tsx:26-30 | `double`, an arrow and `x * 2` in that order pass question 1 |
| JsPracticeIntermediate.Question4Promise | src/pages/practice/JavaScriptPracticeIntermediate.tsx:64-67 | `Promise`, `resolve` and the quoted `完了` pass question 4 |
| JsPracticeIntermediate.Open | src/pages/practice/JavaScriptPracticeIntermediate.tsx:186-188 | the page has the five checkers in order and saves under javascript / intermediate |
| JsPracticeAdvanced.ArrowCount | src/pages/practice/JavaScriptPracticeAdvanced.tsx:40-43 | the number of non-overlapping `=>` matches `match(/=>/g)` finds, scanning left to right |
| JsPracticeAdvanced.Question1 | src/pages/practice/JavaScriptPracticeAdvanced.tsx:26-31 | the `checkAnswer` of question 1: the code contains `function`, `debounce`, `setTimeout` and `clearTimeout` |
| JsPracticeAdvanced.Question2 | src/pages/practice/JavaScriptPracticeAdvanced.tsx:40-43 | the `checkAnswer` of question 2: the code contains `=>`, and at least two matches of it |
| JsPracticeAdvanced.Question3 | src/pages/practice/JavaScriptPracticeAdvanced.tsx:52-56 | the `checkAnswer` of question 3: the code contains `Proxy`, `get` and `console.log` |
| JsPracticeAdvanced.ArrowCountPositive | src/pages/practice/JavaScriptPracticeAdvanced.tsx:40-43 | `match(/=>/g)` finds a match exactly when the code contains `=>` |
| JsPracticeAdvanced.Question2TwoArrows | src/pages/practice/JavaScriptPracticeAdvanced.tsx:40-43 | question 2 passes exactly when `=>` occurs at least twice; the `includes` test is implied |
| JsPracticeAdvanced.ArrowsAppend | src/pages/practice/JavaScriptPracticeAdvanced.tsx:40-43 | an arrow inserted after some text adds at least one match |
| JsPracticeAdvanced.Question2Curried | src/pages/practice/JavaScriptPracticeAdvanced.tsx:40-43 | any code with two arrows, such as a curried function, passes question 2 |
| JsPracticeAdvanced.Open | src/pages/practice/JavaScriptPracticeAdvanced.tsx:161-163 | the page has the three checkers in order and saves under javascript / advanced |
| TsPracticeBasics.Question1 | src/pages/practice/TypeScriptPracticeBasics.tsx:25-30 | the `checkAnswer` of question 1: the code contains `age`, `:`, `number` or `Number`, and `25` |
| TsPracticeBasics.Question2 | src/pages/practice/TypeScriptPracticeBasics.tsx:39-44 | the `checkAnswer` of question 2: the code contains `interface`, `Person`, `name: string` and `age: number` |
| TsPracticeBasics.Question3 | src/pages/practice/TypeScriptPracticeBasics.tsx:53-59 | the `checkAnswer` of question 3: the code contains `function`, `add`, `a: number`, `b: number` and `: number` |
| TsPracticeBasics.Question4 | src/pages/practice/TypeScriptPracticeBasics.tsx:68-72 | the `checkAnswer` of question 4: the code contains `type`, `UserId` and `string` |
| TsPracticeBasics.Question5 | src/pages/practice/TypeScriptPracticeBasics.tsx:81-85 | the `checkAnswer` of question 5: the code contains `number[]`, both brackets, and the digits 1, 2 and 3 |
| TsPracticeBasics.Question3NeedsNoReturnType | src/pages/practice/TypeScriptPracticeBasics.tsx:53-58 | the `: number` test is implied by `a: number`, so no return-type annotation is required |
| TsPracticeBasics.Question5Brackets | src/pages/practice/TypeScriptPracticeBasics.tsx:81-85 | question 5 passes exactly when the code contains `number[]` and the digits 1, 2 and 3 |
| TsPracticeBasics.Question1Annotated | src/pages/practice/TypeScriptPracticeBasics.tsx:25-30 | `age: number` followed by `25` passes question 1 |
| TsPracticeBasics.Open | src/pages/practice/TypeScriptPracticeBasics.tsx:190-192 | the page has the five checkers in order and saves under typescript / basics |
| TsPracticeIntermediate.Question1 | src/pages/practice/TypeScriptPracticeIntermediate.tsx:25-29 | the `checkAnswer` of question 1: the code contains `function`, `identity`, `<` and `>` |
| TsPracticeIntermediate.Question2 | src/pages/practice/TypeScriptPracticeIntermediate.tsx:38-43 | the `checkAnswer` of question 2: the code contains `id`, `string`, `number` and a bar |
| TsPracticeIntermediate.Question3 | src/pages/practice/TypeScriptPracticeIntermediate.tsx:52-57 | the `checkAnswer` of question 3: the code contains `interface`, `User`, `name: string` and `age?` |
| TsPracticeIntermediate.Question4 | src/pages/practice/TypeScriptPracticeIntermediate.tsx:66-70 | the `checkAnswer` of question 4: the code contains `function`, `isString` and `is string` |
| TsPracticeIntermediate.Question1Generic | src/pages/practice/TypeScriptPracticeIntermediate.tsx:25-29 | a generic `function identity<…>` passes question 1 |
| TsPracticeIntermediate.Question2Union | src/pages/practice/TypeScriptPracticeIntermediate.tsx:38-43 | code declaring `id` with a union of `string` and `number` passes question 2 |
| TsPracticeIntermediate.Question4Guard | src/pages/practice/TypeScriptPracticeIntermediate.tsx:66-70 | `function isString` with an `is string` return type passes question 4 |
| TsPracticeIntermediate.Open | src/pages/practice/TypeScriptPracticeIntermediate.tsx:175-177 | the page has the four checkers in order and saves under typescript / intermediate |
| TsPracticeAdvanced.Question1 | src/pages/practice/TypeScriptPracticeAdvanced.tsx:26-31 | the `checkAnswer` of question 1: the code contains `type`, `IsArray`, `extends` and `?` |
| TsPracticeAdvanced.Question2 | src/pages/practice/TypeScriptPracticeAdvanced.tsx:40-45 | the `checkAnswer` of question 2: the code contains `Pick`, `User`, and `name` and `age` each in single or double quotes |
| TsPracticeAdvanced.Question3 | src/pages/practice/TypeScriptPracticeAdvanced.tsx:54-58 | the `checkAnswer` of question 3: the code contains a backquote, `Hello` and `${string}` |
| TsPracticeAdvanced.Question1Conditional | src/pages/practice/TypeScriptPracticeAdvanced.tsx:26-31 | `type IsArray`, `extends` and `?` pass question 1 |
| TsPracticeAdvanced.Question2Pick | src/pages/practice/TypeScriptPracticeAdvanced.tsx:40-45 | `Pick<User` with quoted `'name'` and `'age'` passes question 2 |
| TsPracticeAdvanced.Question3Template | src/pages/practice/TypeScriptPracticeAdvanced.tsx:54-58 | code holding `` `Hello ${string}` `` passes question 3 |
| TsPracticeAdvanced.Open | src/pages/practice/TypeScriptPracticeAdvanced.tsx:163-165 | the page has the three checkers in order and saves under typescript / advanced |

## Left out

- Running the submitted code (`new Function` and the real globals) is an input: the list of console calls the code makes and whether it throws.
- Console arguments and returned values: numbers are integers only. Fractions, `NaN`, `Infinity` and `-0`, which `String(...)` renders differently, are not modelled. Neither are functions, symbols and bigints as console arguments or returned values. Objects carry their `JSON.stringify` text as given.
- Thrown values: a `message` property that is not a string (say `{message: 5}`) is not modelled. The model's message is always text, and an empty or missing one falls back to the default.
- Sandbox.Respond: for a nullish throw the model says only that nothing is posted. The text of the resulting `TypeError` depends on the engine; on the host side `Execution.CodeBlock.WorkerError` takes it as a parameter.
- Worker creation, `terminate`, `postMessage`, `setTimeout` and `clearTimeout` are events on the `CodeBlock` state. There is no real concurrency: each handler runs to completion.
- The outer `catch` of `executeCode` and the `catch` blocks in the message and error handlers (InteractiveCodeBlock.tsx:352-356, 381-385, 396-405) are not modelled. Nothing in the modelled handlers throws.
- The module-wide `workerIdCounter` is shared by all code blocks. The model has one block, whose counter starts at a given `firstId`.
- Execution.CodeBlock.Deliver: a rejected run never shows its error, because `executionId` is still null in the `catch`. The model follows the code, although the component evidently means to show the error.
- The copy button and its timer (InteractiveCodeBlock.tsx:183-195) are UI only.
- The remote-backend branches of every context are not modelled: queries, inserts and deletes. Neither is the Supabase session restore.
- Reading and writing localStorage is not modelled, and neither is JSON parsing of the stored data. The stores start from given values.
- `bcrypt.hash` is passed in as a value and `bcrypt.compare` as a function parameter.
- Auth.AuthStore.Signup: uses the corrected duplicate test (a name is taken only when the users record holds it), not the inherited-name lookup the code performs; see "## Findings". `SignupPage.SignupForm.Submit` goes through it and so accepts `valueOf` on an empty record too.
- Auth.AuthStore.Login: for a name `Object.prototype` defines, such as `valueOf`, `users[username]` is a function, not a record. The code then calls `bcrypt.compare` with an undefined hash and throws. The model looks names up in a map, so login simply fails.
- The `catch` of the signup page's submit handler is not modelled: the modelled `signup` never throws.
- The weekly statistics and `getWeekNumber` are not modelled. Neither are `getThisWeekStudyTime` and `getThisMonthStudyTime`, which depend on the clock and the time zone. The clock is a parameter everywhere else.
- The lesson timer in ProgressTracker.tsx:25-38 depends on the clock and is not modelled.
- Progress.ProgressStore.EndSession: the model gives the recording rule with the live session start and the live path. The provider's effects do not call it that way. The cleanup of the path effect (ProgressContext.tsx:81-89) runs the `endSession` of the render in which that effect was set up. There the start is still the one the previous page set, and `location.pathname` is the page being left. The `beforeunload` and unmount handlers (ProgressContext.tsx:132-142) keep the `endSession` of the first render, whose start is `null`. So leaving the first page never records anything. Leaving page k (k ≥ 2) records, under page k, the time since page k − 1 was entered. Unloading the window and unmounting never record. The model does not capture this pairing of stale closures.
- Progress.ProgressStore.GetDailyStats: the hours value `Math.round(seconds / 3600 * 100) / 100` is a floating-point number. The model returns integer seconds per key.
- Progress.ProgressStore.GetMonthlyStats: the same floating-point hours value (ProgressContext.tsx:322-324); the model returns integer seconds per month.
- Practice.OverallAccuracy: `Math.round` of a floating-point ratio is modelled as exact rounding half up. The two can differ when the double product lands just below .5. The same holds for Quiz.Accuracy, Progress.CategoryStatOf, Progress.AverageDailyStudyTime and Practice.PracticeStatsMeaning.
- `localeCompare` and the default `sort()` of strings are modelled by code-point order. This agrees for the ASCII date keys `YYYY-MM-DD` and `YYYY-MM` that the statistics sort.
- `toLowerCase` in the search box is modelled for ASCII letters only. The validator's case-insensitive regular expressions do only ASCII folding without the `u` flag, so there the model is exact.
- Strings are sequences of Unicode scalar values. Lengths compared against limits are counted in UTF-16 code units (`JsLength`).
- The SQL engine (sql.js) is an input: `exec` returns result sets or throws a message. Cell values are numbers, text, null or undefined; floating-point numbers and blobs are not modelled.
- SqlBlock.QueryBlock.Run: the `checkFunction` is a total function of the rows. Its database argument is left out, and it is assumed not to throw.
- SqlBlock.RowObject: a JavaScript object lists integer-like property names first, in numeric order. The model keeps every name in insertion order, which agrees for non-numeric column names. A column named `__proto__` sets the object's prototype instead of a property, so `JSON.stringify` leaves it out; the model keeps it as an ordinary property.
- `JSON.stringify` of a row is modelled by the list of its defined properties. Two rows are then equal as text exactly when these lists are equal.
- The SQL block's engine initialisation and unmount effects are modelled only by `Attach` (SQLQueryBlock.tsx:30-108).
- The lesson pages, the `highlightText` rendering, the hint toggles, feedback styling and the rest of the JSX are not modelled.
- Only the first checker of the JavaScript basics page wraps its test in `try`/`catch` (JavaScriptPracticeBasics.tsx:27-33), and no page's `onCheck` handler catches. The modelled checkers are total and never throw, so the model has no exception path.
- Search.SearchBox.QueryChanged: a blank query empties the results but does not reset `selectedIndex`, because the effect returns before line 120. The model follows the code.

## Findings
| source | as written | input that shows it | evidently intended | confidence | as-written member | corrected member |
|---|---|---|---|---|---|---|
| src/contexts/AuthContext.tsx:152-154 | the local duplicate test `if (users[username])` reads the users object, and a plain object inherits members such as `valueOf` and `constructor` from `Object.prototype` | on an empty users record, signing up as `valueOf` with password `Abcdef1!` is refused with "このユーザー名は既に使用されています" | only stored users count as taken (`Object.hasOwn(users, username)`) | high; not executed | Auth.SignupErrorAsWritten, Auth.ValueOfReportedTaken | Auth.SignupError, Auth.AuthStore.Signup |
