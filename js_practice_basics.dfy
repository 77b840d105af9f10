/// The eight questions of src/pages/practice/JavaScriptPracticeBasics.tsx,
/// each judged by substring tests on the submitted code.
module JsPracticeBasics {
  import opened JsString
  import Quiz

  /** `'s'` or `"s"`: the text quoted either way. */
  predicate Quoted(code: string, s: string) {
    Contains(code, "'" + s + "'") || Contains(code, "\"" + s + "\"")
  }

  /** Hello World. */
  predicate Question1(code: string) {
    Contains(code, "console.log") && Quoted(code, "Hello World")
  }

  /** A `let` named `name` holding 太郎. */
  predicate Question2(code: string) {
    Contains(code, "let") && Contains(code, "name") && Quoted(code, "太郎")
  }

  /** A function `greet`. */
  predicate Question3(code: string) {
    Contains(code, "function") && Contains(code, "greet")
  }

  /** An array of りんご, バナナ, オレンジ. */
  predicate Question4(code: string) {
    Contains(code, "[") && Contains(code, "]")
    && Quoted(code, "りんご") && Quoted(code, "バナナ") && Quoted(code, "オレンジ")
  }

  /** An `if` on `age >= 18` printing 成人. */
  predicate Question5(code: string) {
    Contains(code, "if") && Contains(code, "age") && Contains(code, ">=") && Quoted(code, "成人")
  }

  /** A `for` loop with `let` and an increment. */
  predicate Question6(code: string) {
    Contains(code, "for") && Contains(code, "let") && (Contains(code, "i++") || Contains(code, "i += 1"))
  }

  /** An object with name 花子 and age 20. */
  predicate Question7(code: string) {
    Contains(code, "{") && Contains(code, "}") && Contains(code, "name") && Contains(code, "age")
    && Quoted(code, "花子") && Contains(code, "20")
  }

  /** A function `sayHello` logging Hello. */
  predicate Question8(code: string) {
    Contains(code, "function") && Contains(code, "sayHello") && Contains(code, "console.log")
    && Quoted(code, "Hello")
  }

  /** The questions in order; question `i` has id `i + 1`. */
  const Checks: seq<string -> bool> :=
    [Question1, Question2, Question3, Question4, Question5, Question6, Question7, Question8]

  /** A plain answer passes question 1. */
  lemma Question1Answer()
    ensures Question1("console.log('Hello World');")
  {
    var s := "console.log('Hello World');";
    OccursAtContains(s, "console.log", 0);
    assert "'" + "Hello World" + "'" == "'Hello World'";
    OccursAtContains(s, "'Hello World'", 12);
  }

  /** A loop written `for ... let ... i++ ...` passes question 6, among
      them the hint's own example `for (let i = 0; i < 5; i++) { ... }`. */
  lemma Question6Loop(a: string, b: string, c: string)
    ensures Question6("for" + a + "let" + b + "i++" + c)
  {
    ContainsThree("", "for", a, "let", b, "i++", c);
    assert "" + "for" + a + "let" + b + "i++" + c == "for" + a + "let" + b + "i++" + c;
  }

  /** Question 7 only looks for the digits `20` somewhere, so an age of
      2020 (or any text holding `20`) is accepted. */
  lemma Question7Accepts2020(code: string)
    requires Contains(code, "{") && Contains(code, "}") && Contains(code, "name") && Contains(code, "age")
    requires Quoted(code, "花子") && Contains(code, "2020")
    ensures Question7(code)
  {
    ContainsPiece(code, "2020", "20", 0);
  }

  /** The page, saving under javascript/basics. */
  method Open() returns (page: Quiz.QuizPage)
    ensures fresh(page) && page.Valid()
    ensures page.checks == Checks && |page.checks| == 8
    ensures page.category == "javascript" && page.level == "basics" && page.language == "javascript"
    ensures page.currentQuestion == 0 && page.answers == map[]
  {
    page := new Quiz.QuizPage(Checks, "javascript", "basics", "javascript");
  }
}
