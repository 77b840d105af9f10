/// The three questions of src/pages/practice/JavaScriptPracticeAdvanced.tsx.
module JsPracticeAdvanced {
  import opened JsString
  import Quiz

  /** `(code.match(/=>/g) || []).length`: the matches of `=>` found scanning
      left to right; a match never overlaps the next. */
  function ArrowCount(code: string): nat
    decreases |code|
  {
    if |code| < 2 then 0
    else if code[..2] == "=>" then 1 + ArrowCount(code[2..])
    else ArrowCount(code[1..])
  }

  /** There is a match exactly when the code contains `=>`. */
  lemma {:induction false} ArrowCountPositive(code: string)
    ensures ArrowCount(code) > 0 <==> Contains(code, "=>")
    decreases |code|
  {
    if |code| >= 2 {
      if code[..2] == "=>" {
        assert IsPrefix("=>", code);
      } else {
        ArrowCountPositive(code[1..]);
        assert !IsPrefix("=>", code);
      }
    } else {
      assert !IsPrefix("=>", code);
      if |code| == 1 {
        assert !IsPrefix("=>", code[1..]);
        assert !Contains(code[1..], "=>");
      }
    }
  }

  /** A debounce built on `setTimeout` and `clearTimeout`. */
  predicate Question1(code: string) {
    Contains(code, "function") && Contains(code, "debounce")
    && Contains(code, "setTimeout") && Contains(code, "clearTimeout")
  }

  /** A curried function: `=>` at least twice. */
  predicate Question2(code: string) {
    Contains(code, "=>") && ArrowCount(code) >= 2
  }

  /** A `Proxy` with a `get` trap that logs. */
  predicate Question3(code: string) {
    Contains(code, "Proxy") && Contains(code, "get") && Contains(code, "console.log")
  }

  const Checks: seq<string -> bool> := [Question1, Question2, Question3]

  /** Question 2 is exactly "two arrows"; the `includes` test is implied. */
  lemma Question2TwoArrows(code: string)
    ensures Question2(code) <==> ArrowCount(code) >= 2
  {
    ArrowCountPositive(code);
  }

  /** Two arrows in a row count as two. */
  lemma {:induction false} ArrowsAppend(a: string, b: string)
    ensures ArrowCount(a + "=>" + b) >= ArrowCount(a) + 1
    decreases |a|
  {
    if |a| >= 2 {
      var s := a + "=>" + b;
      assert s[..2] == a[..2];
      if a[..2] == "=>" {
        assert s[2..] == a[2..] + "=>" + b;
        ArrowsAppend(a[2..], b);
      } else {
        assert s[1..] == a[1..] + "=>" + b;
        ArrowsAppend(a[1..], b);
      }
    } else if |a| == 1 {
      var s := a + "=>" + b;
      assert s[..2] != "=>" by {
        assert s[1] == '=';
        assert "=>"[1] == '>';
      }
      assert s[1..] == "=>" + b;
      assert ("=>" + b)[..2] == "=>";
    } else {
      assert a + "=>" + b == "=>" + b;
      assert ("=>" + b)[..2] == "=>";
    }
  }

  /** `a => b => ...`, a curried arrow, passes question 2. */
  lemma Question2Curried(a: string, b: string, c: string)
    ensures Question2(a + "=>" + b + "=>" + c)
  {
    ArrowsAppend(a + "=>" + b, c);
    ArrowsAppend(a, b);
    ArrowCountPositive(a + "=>" + b + "=>" + c);
  }

  method Open() returns (page: Quiz.QuizPage)
    ensures fresh(page) && page.Valid()
    ensures page.checks == Checks && |page.checks| == 3
    ensures page.category == "javascript" && page.level == "advanced" && page.language == "javascript"
    ensures page.currentQuestion == 0 && page.answers == map[]
  {
    page := new Quiz.QuizPage(Checks, "javascript", "advanced", "javascript");
  }
}
