/// What the six practice pages under src/pages/practice/ share: the
/// `answers` record keyed by question id, the `currentQuestion` counter,
/// the accuracy shown in the header, the verdict kept when code is edited,
/// and checking an answer, which records it and saves a practice result.
module Quiz {
  import opened Wrappers
  import opened JsMath
  import Practice

  /** An entry of `answers`; `isCorrect` is `null` (`None`) until checked
      and again after a wrong answer is edited. */
  datatype Answer = Answer(code: string, isCorrect: Option<bool>)

  type Answers = map<int, Answer>

  function CorrectIds(answers: Answers): set<int> {
    set id | id in answers && answers[id].isCorrect == Some(true)
  }

  /** `correctCount`. */
  function CorrectCount(answers: Answers): (n: nat)
    ensures n <= |answers|
  {
    assert CorrectIds(answers) <= answers.Keys;
    SubsetAtMost(CorrectIds(answers), answers.Keys);
    |CorrectIds(answers)|
  }

  lemma SubsetAtMost(a: set<int>, b: set<int>)
    requires a <= b
    ensures |a| <= |b|
  {
    assert b == a + (b - a);
  }

  /** `accuracy`: the rounded percentage of correct answers among all
      entries, `null` verdicts included; 0 with no entries. */
  function Accuracy(answers: Answers): (r: int)
    ensures 0 <= r <= 100
    ensures |answers| == 0 ==> r == 0
    ensures |answers| > 0 ==> r == RoundRatio(100 * CorrectCount(answers), |answers|)
    ensures 0 < |answers| == CorrectCount(answers) ==> r == 100
  {
    PercentBounds(CorrectCount(answers), |answers|);
    Percent(CorrectCount(answers), |answers|)
  }

  /** `prev[id]?.isCorrect || null`: a true verdict survives an edit,
      false, `null` and a missing entry all become `null`. */
  function EditedVerdict(prev: Option<Answer>): (r: Option<bool>)
    ensures r != Some(false)
    ensures r == Some(true) <==> prev.Some? && prev.value.isCorrect == Some(true)
  {
    if prev.Some? && prev.value.isCorrect == Some(true) then Some(true) else None
  }

  function Lookup(answers: Answers, id: int): Option<Answer> {
    if id in answers then Some(answers[id]) else None
  }

  /** `onCodeChange`. */
  function Edit(answers: Answers, id: int, code: string): Answers {
    answers[id := Answer(code, EditedVerdict(Lookup(answers, id)))]
  }

  /** The record `onCheck` writes. */
  function Record(answers: Answers, id: int, code: string, verdict: bool): Answers {
    answers[id := Answer(code, Some(verdict))]
  }

  lemma CorrectIdsUpdate(answers: Answers, id: int, a: Answer)
    ensures CorrectIds(answers[id := a]) ==
              (CorrectIds(answers) - {id}) + (if a.isCorrect == Some(true) then {id} else {})
  {
  }

  lemma CardRemove(s: set<int>, x: int)
    ensures |s - {x}| == if x in s then |s| - 1 else |s|
  {
    if x in s {
      assert s == (s - {x}) + {x};
    } else {
      assert s - {x} == s;
    }
  }

  lemma SizeUpdate(answers: Answers, id: int, a: Answer)
    ensures |answers[id := a]| == if id in answers then |answers| else |answers| + 1
  {
    if id !in answers {
      assert answers[id := a].Keys == answers.Keys + {id};
    } else {
      assert answers[id := a].Keys == answers.Keys;
    }
  }

  /** Editing never changes the number of correct answers, but it adds an
      entry (with a `null` verdict) for a question not answered before, so
      merely typing into a new question lowers the accuracy. */
  lemma EditCounts(answers: Answers, id: int, code: string)
    ensures CorrectCount(Edit(answers, id, code)) == CorrectCount(answers)
    ensures |Edit(answers, id, code)| == if id in answers then |answers| else |answers| + 1
  {
    var a := Answer(code, EditedVerdict(Lookup(answers, id)));
    var e := answers[id := a];
    forall x
      ensures x in CorrectIds(e) <==> x in CorrectIds(answers)
    {
    }
    assert CorrectIds(e) == CorrectIds(answers);
    SizeUpdate(answers, id, a);
  }

  /** Checking replaces the question's share of the correct count by the
      new verdict's. */
  lemma RecordCounts(answers: Answers, id: int, code: string, verdict: bool)
    ensures var was := if id in answers && answers[id].isCorrect == Some(true) then 1 else 0;
            CorrectCount(Record(answers, id, code, verdict)) == CorrectCount(answers) - was + (if verdict then 1 else 0)
    ensures |Record(answers, id, code, verdict)| == if id in answers then |answers| else |answers| + 1
  {
    var a := Answer(code, Some(verdict));
    CorrectIdsUpdate(answers, id, a);
    CardRemove(CorrectIds(answers), id);
    SizeUpdate(answers, id, a);
  }

  /** A wrong answer that is then edited shows no verdict at all. */
  lemma WrongThenEdited(answers: Answers, id: int, code: string, code': string)
    ensures var a := Edit(Record(answers, id, code, false), id, code');
            a[id] == Answer(code', None) && CorrectCount(a) == CorrectCount(Record(answers, id, code, false))
  {
    EditCounts(Record(answers, id, code, false), id, code');
  }

  /** The code the editor opens with: `currentAnswer?.code || initialCode`. */
  function EditorCode(answers: Answers, id: int, initialCode: string): (r: string)
    ensures id in answers && answers[id].code != "" ==> r == answers[id].code
    ensures !(id in answers && answers[id].code != "") ==> r == initialCode
  {
    if id in answers && answers[id].code != "" then answers[id].code else initialCode
  }

  /** One practice page: its questions' checkers in order (question `i`
      has id `i + 1`) and what it saves results under. */
  class QuizPage {
    const checks: seq<string -> bool>
    const category: string
    const level: string
    const language: string
    var currentQuestion: nat
    var answers: Answers
    var feedbackCorrect: Option<bool>
    var showFeedback: bool

    predicate Valid()
      reads this
    {
      currentQuestion < |checks|
    }

    constructor(checks: seq<string -> bool>, category: string, level: string, language: string)
      requires |checks| > 0
      ensures Valid()
      ensures this.checks == checks && this.category == category
      ensures this.level == level && this.language == language
      ensures currentQuestion == 0 && answers == map[] && feedbackCorrect == None && !showFeedback
    {
      this.checks := checks;
      this.category := category;
      this.level := level;
      this.language := language;
      currentQuestion := 0;
      answers := map[];
      feedbackCorrect := None;
      showFeedback := false;
    }

    function QuestionId(): int
      reads this
    {
      currentQuestion + 1
    }

    /** `handleNext`: one question further, never past the last. */
    method Next()
      requires Valid()
      modifies this
      ensures Valid()
      ensures currentQuestion == if old(currentQuestion) < |checks| - 1 then old(currentQuestion) + 1 else old(currentQuestion)
      ensures answers == old(answers)
      ensures feedbackCorrect == old(feedbackCorrect) && showFeedback == old(showFeedback)
    {
      if currentQuestion < |checks| - 1 {
        currentQuestion := currentQuestion + 1;
      }
    }

    /** `handlePrev`: one question back, never before the first. */
    method Prev()
      requires Valid()
      modifies this
      ensures Valid()
      ensures currentQuestion == if old(currentQuestion) > 0 then old(currentQuestion) - 1 else old(currentQuestion)
      ensures answers == old(answers)
      ensures feedbackCorrect == old(feedbackCorrect) && showFeedback == old(showFeedback)
    {
      if currentQuestion > 0 {
        currentQuestion := currentQuestion - 1;
      }
    }

    /** `onCodeChange`. */
    method CodeChanged(code: string)
      requires Valid()
      modifies this
      ensures Valid() && currentQuestion == old(currentQuestion)
      ensures answers == Edit(old(answers), QuestionId(), code)
      ensures feedbackCorrect == old(feedbackCorrect) && showFeedback == old(showFeedback)
    {
      var id := currentQuestion + 1;
      var prev := if id in answers then Some(answers[id]) else None;
      answers := answers[id := Answer(code, if prev.Some? && prev.value.isCorrect == Some(true) then Some(true) else None)];
    }

    /** `onCheck`: judge the code, record it, show the feedback and save a
        practice result; `timestamp` stands for the clock. */
    method Check(code: string, store: Practice.PracticeStore, timestamp: string) returns (isCorrect: bool)
      requires Valid()
      modifies this, store
      ensures Valid() && currentQuestion == old(currentQuestion)
      ensures isCorrect == checks[currentQuestion](code)
      ensures answers == Record(old(answers), QuestionId(), code, isCorrect)
      ensures feedbackCorrect == Some(isCorrect) && showFeedback
      ensures store.results == Practice.Upsert(old(store.results),
                Practice.PracticeResult(QuestionId(), category, level, language, isCorrect, timestamp))
    {
      var id := currentQuestion + 1;
      isCorrect := checks[currentQuestion](code);
      answers := answers[id := Answer(code, Some(isCorrect))];
      feedbackCorrect := Some(isCorrect);
      showFeedback := true;
      store.SaveResult(Practice.PracticeResult(id, category, level, language, isCorrect, timestamp));
    }

    /** The feedback timer firing. */
    method HideFeedback()
      modifies this
      ensures !showFeedback
      ensures currentQuestion == old(currentQuestion) && answers == old(answers) && feedbackCorrect == old(feedbackCorrect)
    {
      showFeedback := false;
    }
  }
}
