/// The five questions of src/pages/practice/TypeScriptPracticeBasics.tsx.
module TsPracticeBasics {
  import opened JsString
  import Quiz

  /** `age` annotated as a number and set to 25. */
  predicate Question1(code: string) {
    Contains(code, "age") && Contains(code, ":")
    && (Contains(code, "number") || Contains(code, "Number")) && Contains(code, "25")
  }

  /** An interface `Person`. */
  predicate Question2(code: string) {
    Contains(code, "interface") && Contains(code, "Person")
    && Contains(code, "name: string") && Contains(code, "age: number")
  }

  /** A typed function `add`. */
  predicate Question3(code: string) {
    Contains(code, "function") && Contains(code, "add")
    && Contains(code, "a: number") && Contains(code, "b: number") && Contains(code, ": number")
  }

  /** A type alias `UserId`. */
  predicate Question4(code: string) {
    Contains(code, "type") && Contains(code, "UserId") && Contains(code, "string")
  }

  /** A `number[]` holding 1, 2, 3. */
  predicate Question5(code: string) {
    Contains(code, "number[]") && Contains(code, "[") && Contains(code, "]")
    && Contains(code, "1") && Contains(code, "2") && Contains(code, "3")
  }

  const Checks: seq<string -> bool> := [Question1, Question2, Question3, Question4, Question5]

  /** The `: number` test is implied by `a: number`, so question 3 never
      requires a return type annotation. */
  lemma Question3NeedsNoReturnType(code: string)
    ensures Question3(code) <==>
              Contains(code, "function") && Contains(code, "add")
              && Contains(code, "a: number") && Contains(code, "b: number")
  {
    if Contains(code, "a: number") {
      ContainsPiece(code, "a: number", ": number", 1);
    }
  }

  /** The bracket tests are implied by `number[]`. */
  lemma Question5Brackets(code: string)
    ensures Question5(code) <==>
              Contains(code, "number[]") && Contains(code, "1") && Contains(code, "2") && Contains(code, "3")
  {
    if Contains(code, "number[]") {
      ContainsPiece(code, "number[]", "[", 6);
      ContainsPiece(code, "number[]", "]", 7);
    }
  }

  /** `let age: number = 25` and the like pass question 1. */
  lemma Question1Annotated(a: string, b: string, c: string)
    ensures Question1(a + "age: " + "number" + b + "25" + c)
  {
    ContainsThree(a, "age: ", "", "number", b, "25", c);
    assert a + "age: " + "" + "number" + b + "25" + c == a + "age: " + "number" + b + "25" + c;
    var s := a + "age: " + "number" + b + "25" + c;
    ContainsPiece(s, "age: ", "age", 0);
    ContainsPiece(s, "age: ", ":", 3);
  }

  method Open() returns (page: Quiz.QuizPage)
    ensures fresh(page) && page.Valid()
    ensures page.checks == Checks && |page.checks| == 5
    ensures page.category == "typescript" && page.level == "basics" && page.language == "typescript"
    ensures page.currentQuestion == 0 && page.answers == map[]
  {
    page := new Quiz.QuizPage(Checks, "typescript", "basics", "typescript");
  }
}
