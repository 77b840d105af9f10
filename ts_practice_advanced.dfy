/// The three questions of src/pages/practice/TypeScriptPracticeAdvanced.tsx.
module TsPracticeAdvanced {
  import opened JsString
  import Quiz

  /** A conditional type `IsArray`. */
  predicate Question1(code: string) {
    Contains(code, "type") && Contains(code, "IsArray") && Contains(code, "extends") && Contains(code, "?")
  }

  /** `Pick` of `User`'s `name` and `age`. */
  predicate Question2(code: string) {
    Contains(code, "Pick") && Contains(code, "User")
    && (Contains(code, "'name'") || Contains(code, "\"name\""))
    && (Contains(code, "'age'") || Contains(code, "\"age\""))
  }

  /** A template literal type over `Hello`. */
  predicate Question3(code: string) {
    Contains(code, "`") && Contains(code, "Hello") && Contains(code, "${string}")
  }

  const Checks: seq<string -> bool> := [Question1, Question2, Question3]

  /** `type IsArray<T> = T extends any[] ? true : false` and the like pass
      question 1. */
  lemma Question1Conditional(a: string, b: string, c: string, d: string)
    ensures Question1(a + "type IsArray" + b + "extends" + c + "?" + d)
  {
    var s := a + "type IsArray" + b + "extends" + c + "?" + d;
    ContainsThree(a, "type IsArray", b, "extends", c, "?", d);
    ContainsPiece(s, "type IsArray", "type", 0);
    ContainsPiece(s, "type IsArray", "IsArray", 5);
  }

  /** `Pick<User, 'name' | 'age'>` and the like pass question 2. */
  lemma Question2Pick(a: string, b: string, c: string, d: string)
    ensures Question2(a + "Pick<User" + b + "'name'" + c + "'age'" + d)
  {
    var s := a + "Pick<User" + b + "'name'" + c + "'age'" + d;
    ContainsThree(a, "Pick<User", b, "'name'", c, "'age'", d);
    ContainsPiece(s, "Pick<User", "Pick", 0);
    ContainsPiece(s, "Pick<User", "User", 5);
  }

  /** Any code holding the type `` `Hello ${string}` `` passes question 3. */
  lemma Question3Template(code: string)
    requires Contains(code, "`Hello ${string}`")
    ensures Question3(code)
  {
    ContainsPiece(code, "`Hello ${string}`", "`", 0);
    ContainsPiece(code, "`Hello ${string}`", "Hello", 1);
    ContainsPiece(code, "`Hello ${string}`", "${string}", 7);
  }

  method Open() returns (page: Quiz.QuizPage)
    ensures fresh(page) && page.Valid()
    ensures page.checks == Checks && |page.checks| == 3
    ensures page.category == "typescript" && page.level == "advanced" && page.language == "typescript"
    ensures page.currentQuestion == 0 && page.answers == map[]
  {
    page := new Quiz.QuizPage(Checks, "typescript", "advanced", "typescript");
  }
}
