/// The four questions of
/// src/pages/practice/TypeScriptPracticeIntermediate.tsx.
module TsPracticeIntermediate {
  import opened JsString
  import Quiz

  /** A generic function `identity`. */
  predicate Question1(code: string) {
    Contains(code, "function") && Contains(code, "identity") && Contains(code, "<") && Contains(code, ">")
  }

  /** A union type for `id`. */
  predicate Question2(code: string) {
    Contains(code, "id") && Contains(code, "string") && Contains(code, "number") && Contains(code, "|")
  }

  /** An interface `User` with an optional `age`. */
  predicate Question3(code: string) {
    Contains(code, "interface") && Contains(code, "User") && Contains(code, "name: string") && Contains(code, "age?")
  }

  /** A type guard `isString`. */
  predicate Question4(code: string) {
    Contains(code, "function") && Contains(code, "isString") && Contains(code, "is string")
  }

  const Checks: seq<string -> bool> := [Question1, Question2, Question3, Question4]

  /** `function identity<T>(arg: T): T` and the like pass question 1. */
  lemma Question1Generic(a: string, b: string, c: string)
    ensures Question1(a + "function identity<" + b + ">" + c)
  {
    var s := a + "function identity<" + b + ">" + c;
    ContainsMiddle(a, "function identity<", b + ">" + c);
    assert s == a + "function identity<" + (b + ">" + c);
    ContainsMiddle(a + "function identity<" + b, ">", c);
    ContainsPiece(s, "function identity<", "function", 0);
    ContainsPiece(s, "function identity<", "identity", 9);
    ContainsPiece(s, "function identity<", "<", 17);
  }

  /** Any code holding `id: string | number` passes question 2. */
  lemma Question2Union(code: string)
    requires Contains(code, "id: string | number")
    ensures Question2(code)
  {
    ContainsPiece(code, "id: string | number", "id", 0);
    ContainsPiece(code, "id: string | number", "string", 4);
    ContainsPiece(code, "id: string | number", "|", 11);
    ContainsPiece(code, "id: string | number", "number", 13);
  }

  /** `function isString(v: unknown): v is string` and the like pass
      question 4. */
  lemma Question4Guard(a: string, b: string, c: string)
    ensures Question4(a + "function isString" + b + "is string" + c)
  {
    var s := a + "function isString" + b + "is string" + c;
    ContainsMiddle(a, "function isString", b + "is string" + c);
    assert s == a + "function isString" + (b + "is string" + c);
    ContainsMiddle(a + "function isString" + b, "is string", c);
    ContainsPiece(s, "function isString", "function", 0);
    ContainsPiece(s, "function isString", "isString", 9);
  }

  method Open() returns (page: Quiz.QuizPage)
    ensures fresh(page) && page.Valid()
    ensures page.checks == Checks && |page.checks| == 4
    ensures page.category == "typescript" && page.level == "intermediate" && page.language == "typescript"
    ensures page.currentQuestion == 0 && page.answers == map[]
  {
    page := new Quiz.QuizPage(Checks, "typescript", "intermediate", "typescript");
  }
}
