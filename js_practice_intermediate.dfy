/// The five questions of
/// src/pages/practice/JavaScriptPracticeIntermediate.tsx.
module JsPracticeIntermediate {
  import opened JsString
  import Quiz

  /** An arrow function `double` multiplying by two. */
  predicate Question1(code: string) {
    Contains(code, "=>") && Contains(code, "double")
    && (Contains(code, "x * 2") || Contains(code, "x*2") || Contains(code, "2 * x") || Contains(code, "2*x"))
  }

  /** Destructuring `a`, `b`, `c` out of an array. */
  predicate Question2(code: string) {
    Contains(code, "[") && Contains(code, "]") && Contains(code, "const")
    && Contains(code, "a") && Contains(code, "b") && Contains(code, "c")
  }

  /** Spreading `arr1` and `arr2`. */
  predicate Question3(code: string) {
    Contains(code, "...") && Contains(code, "arr1") && Contains(code, "arr2")
  }

  /** A promise resolving to 完了. */
  predicate Question4(code: string) {
    Contains(code, "Promise") && Contains(code, "resolve")
    && (Contains(code, "'完了'") || Contains(code, "\"完了\""))
  }

  /** A class `Person` with `name` and `age`. */
  predicate Question5(code: string) {
    Contains(code, "class") && Contains(code, "Person") && Contains(code, "name") && Contains(code, "age")
  }

  const Checks: seq<string -> bool> := [Question1, Question2, Question3, Question4, Question5]

  /** The test for `c` is redundant: `const` already contains it, and none
      of the letters has to be a destructured name. */
  lemma Question2NeedsNoC(code: string)
    ensures Question2(code) <==>
              Contains(code, "[") && Contains(code, "]") && Contains(code, "const")
              && Contains(code, "a") && Contains(code, "b")
  {
    if Contains(code, "const") {
      ContainsPiece(code, "const", "c", 0);
    }
  }

  /** `const double = x => x * 2` and the like pass question 1. */
  lemma Question1Arrow(a: string, b: string, c: string, d: string)
    ensures Question1(a + "double" + b + "=>" + c + "x * 2" + d)
  {
    ContainsThree(a, "double", b, "=>", c, "x * 2", d);
  }

  /** `new Promise(resolve => resolve('完了'))` and the like pass
      question 4. */
  lemma Question4Promise(a: string, b: string, c: string, d: string)
    ensures Question4(a + "Promise" + b + "resolve" + c + "'完了'" + d)
  {
    ContainsThree(a, "Promise", b, "resolve", c, "'完了'", d);
  }

  method Open() returns (page: Quiz.QuizPage)
    ensures fresh(page) && page.Valid()
    ensures page.checks == Checks && |page.checks| == 5
    ensures page.category == "javascript" && page.level == "intermediate" && page.language == "javascript"
    ensures page.currentQuestion == 0 && page.answers == map[]
  {
    page := new Quiz.QuizPage(Checks, "javascript", "intermediate", "javascript");
  }
}
