/// The code-execution worker (public/code-executor-worker.js): the deny-list
/// validator, the quote-parity test that exempts string literals, the
/// console shim that captures output lines, and the reply the worker posts
/// for each request.
module Sandbox {
  import opened JsString
  import opened Wrappers

  /** The deny-list, in the order the validator tries it. */
  const Patterns: seq<string> := [
    "fetch", "XMLHttpRequest", "localStorage", "sessionStorage", "document",
    "window", "parent", "top", "frames", "self", "globalThis", "importScripts",
    "eval", "Function", "setTimeout", "setInterval", "WebSocket", "Worker",
    "SharedWorker", "navigator", "location", "history", "open", "close",
    "postMessage"
  ]

  function SecurityMessage(pattern: string): string {
    "セキュリティ上の理由により、" + pattern + "の使用は許可されていません"
  }

  const EvalMessage := "eval()やFunction()の使用は許可されていません"
  const RuntimeFallback := "実行エラーが発生しました"
  const NoOutput := "(出力なし)"

  // ---------------------------------------------------------------------
  // The regular expression `\b<pattern>\b` with the `i` flag

  /** `\w` without the `u` flag. */
  predicate IsWordChar(c: char) {
    'a' <= c <= 'z' || 'A' <= c <= 'Z' || '0' <= c <= '9' || c == '_'
  }

  /** A word character sits at position `q` of `s` (none outside `s`). */
  predicate WordAt(s: string, q: int) {
    0 <= q < |s| && IsWordChar(s[q])
  }

  /** The assertion `\b` holds at position `q`. */
  predicate Boundary(s: string, q: int) {
    WordAt(s, q - 1) != WordAt(s, q)
  }

  /** `\b<p>\b` with the `i` flag matches `s` at offset `i`. Without the
      `u` flag case-insensitive matching folds only ASCII letters. */
  predicate MatchAt(s: string, p: string, i: int) {
    0 <= i && i + |p| <= |s| && Lower(s[i..i + |p|]) == Lower(p)
    && Boundary(s, i) && Boundary(s, i + |p|)
  }

  /** `regex.exec(s).index`, searching from offset `from`. */
  function FirstMatchFrom(s: string, p: string, from: nat): (r: Option<nat>)
    ensures r.Some? ==> from <= r.value && MatchAt(s, p, r.value)
    ensures forall j :: from <= j && (r.None? || j < r.value) ==> !MatchAt(s, p, j)
    decreases |s| - from
  {
    if from + |p| > |s| then None
    else if MatchAt(s, p, from) then Some(from)
    else FirstMatchFrom(s, p, from + 1)
  }

  function FirstMatch(s: string, p: string): (r: Option<nat>)
    ensures r.Some? ==> MatchAt(s, p, r.value)
    ensures forall j :: (r.None? || j < r.value) ==> !MatchAt(s, p, j)
  {
    FirstMatchFrom(s, p, 0)
  }

  // ---------------------------------------------------------------------
  // isInString

  /** How often `c` occurs in `s`, as `s.match(/c/g).length` counts it. */
  function Count(s: string, c: char): nat {
    multiset(s)[c]
  }

  /** `isInString` for a match at offset `i`: an odd number of `'`, `"` or
      backticks before it. */
  predicate InString(code: string, i: nat)
    requires i <= |code|
  {
    var before := code[..i];
    Count(before, '\'') % 2 != 0 || Count(before, '"') % 2 != 0 || Count(before, '`') % 2 != 0
  }

  /** The validator objects to pattern `p`: its first match lies outside
      quotes. Later occurrences are never looked at. */
  predicate Bare(code: string, p: string) {
    var m := FirstMatch(code, p);
    m.Some? && !InString(code, m.value)
  }

  // ---------------------------------------------------------------------
  // /eval\s*\(|new\s+Function\s*\(/i

  /** The first offset at or after `j` that is not whitespace. */
  function SkipSpaces(s: string, j: nat): (k: nat)
    ensures j <= k
    ensures k <= |s| || k == j
    ensures forall q :: j <= q < k ==> IsSpace(s[q])
    ensures k < |s| ==> !IsSpace(s[k])
    decreases |s| - j
  {
    if j < |s| && IsSpace(s[j]) then SkipSpaces(s, j + 1) else j
  }

  predicate ParenAt(s: string, k: nat) {
    k < |s| && s[k] == '('
  }

  /** `eval\s*\(` matches at `i`. */
  predicate EvalCallAt(s: string, i: nat) {
    i + 4 <= |s| && Lower(s[i..i + 4]) == "eval" && ParenAt(s, SkipSpaces(s, i + 4))
  }

  /** `new\s+Function\s*\(` matches at `i`. */
  predicate NewFunctionAt(s: string, i: nat) {
    i + 4 <= |s| && Lower(s[i..i + 3]) == "new" && IsSpace(s[i + 3])
    && var k := SkipSpaces(s, i + 3);
    k + 8 <= |s| && Lower(s[k..k + 8]) == "function" && ParenAt(s, SkipSpaces(s, k + 8))
  }

  predicate HasDirectEval(code: string) {
    exists i :: 0 <= i < |code| && (EvalCallAt(code, i) || NewFunctionAt(code, i))
  }

  /** The greedy skip agrees with the backtracking reading of `\s*\(`:
      some run of whitespace followed by `(` starts at `j`. */
  lemma {:induction false} SpacesThenParen(s: string, j: nat)
    ensures ParenAt(s, SkipSpaces(s, j)) <==>
            exists k :: j <= k < |s| && s[k] == '(' && forall q :: j <= q < k ==> IsSpace(s[q])
  {
    var k0 := SkipSpaces(s, j);
    if exists k :: j <= k < |s| && s[k] == '(' && forall q :: j <= q < k ==> IsSpace(s[q]) {
      var k :| j <= k < |s| && s[k] == '(' && forall q :: j <= q < k ==> IsSpace(s[q]);
      assert !IsSpace(s[k]);
    }
  }

  // ---------------------------------------------------------------------
  // validateCode

  datatype Validation = Accepted | Rejected(message: string)

  /** The index of the first pattern at or after `k` that is bare. */
  function FirstBareFrom(code: string, k: nat): (r: Option<nat>)
    requires k <= |Patterns|
    ensures r.Some? ==> k <= r.value < |Patterns| && Bare(code, Patterns[r.value])
    ensures forall j :: k <= j < |Patterns| && (r.None? || j < r.value) ==> !Bare(code, Patterns[j])
    decreases |Patterns| - k
  {
    if k == |Patterns| then None
    else if Bare(code, Patterns[k]) then Some(k)
    else FirstBareFrom(code, k + 1)
  }

  /** What `validateCode` does to `code`: the message it throws, if any. */
  function Validate(code: string): Validation {
    match FirstBareFrom(code, 0)
    case Some(k) => Rejected(SecurityMessage(Patterns[k]))
    case None => if HasDirectEval(code) then Rejected(EvalMessage) else Accepted
  }

  /** `validateCode`: the deny-list loop, then the eval rule. */
  method ValidateCode(code: string) returns (v: Validation)
    ensures v == Validate(code)
  {
    var k := 0;
    while k < |Patterns|
      invariant 0 <= k <= |Patterns|
      invariant FirstBareFrom(code, 0) == FirstBareFrom(code, k)
    {
      var m := FirstMatch(code, Patterns[k]);
      if m.Some? && !InString(code, m.value) {
        return Rejected(SecurityMessage(Patterns[k]));
      }
      k := k + 1;
    }
    if HasDirectEval(code) {
      return Rejected(EvalMessage);
    }
    return Accepted;
  }

  /** Code passes exactly when no pattern is bare and the eval rule finds nothing. */
  lemma AcceptedIff(code: string)
    ensures Validate(code) == Accepted <==>
            (forall k :: 0 <= k < |Patterns| ==> !Bare(code, Patterns[k])) && !HasDirectEval(code)
  {
  }

  /** A bare pattern is always reported, and the message names the first
      bare pattern in list order, which comes no later than it. */
  lemma {:induction false} BarePatternRejected(code: string, k: nat)
    requires k < |Patterns| && Bare(code, Patterns[k])
    ensures exists j :: 0 <= j <= k && Validate(code) == Rejected(SecurityMessage(Patterns[j]))
                        && Bare(code, Patterns[j])
                        && forall i :: 0 <= i < j ==> !Bare(code, Patterns[i])
  {
    var r := FirstBareFrom(code, 0);
    assert r.Some?;
    assert Validate(code) == Rejected(SecurityMessage(Patterns[r.value]));
  }

  /** A word-bounded occurrence with no quote of any kind before it is
      rejected, whatever follows it. */
  lemma {:induction false} QuoteFreeOccurrenceRejected(code: string, k: nat, i: nat)
    requires k < |Patterns| && MatchAt(code, Patterns[k], i)
    requires forall q :: 0 <= q < i ==> code[q] !in {'\'', '"', '`'}
    ensures Validate(code).Rejected?
  {
    var m := FirstMatch(code, Patterns[k]);
    assert m.Some? && m.value <= i;
    var before := code[..m.value];
    forall c | c in {'\'', '"', '`'}
      ensures Count(before, c) == 0
    {
      assert c !in before;
    }
    assert Bare(code, Patterns[k]);
    BarePatternRejected(code, k);
  }

  /** Example: the keyword `function` trips the `Function` entry, since the
      match ignores case. */
  lemma FunctionKeywordRejected()
    ensures Validate("function f() {}").Rejected?
  {
    var code := "function f() {}";
    assert Lower(code[0..8]) == Lower(Patterns[13]);
    QuoteFreeOccurrenceRejected(code, 13, 0);
  }

  /** Example: an ordinary variable called `top` is rejected. */
  lemma TopVariableRejected()
    ensures Validate("let top = 1").Rejected?
  {
    var code := "let top = 1";
    assert Lower(code[4..7]) == Lower(Patterns[7]);
    QuoteFreeOccurrenceRejected(code, 7, 4);
  }

  /** Only the first occurrence is examined: after a quoted `'top'`, a
      bare `top` later in the code escapes the `top` entry. */
  lemma OnlyFirstOccurrenceExamined()
    ensures MatchAt("'top';top", "top", 6) && !InString("'top';top", 6)
    ensures !Bare("'top';top", "top")
  {
    var code := "'top';top";
    assert Lower(code[1..4]) == Lower("top");
    assert MatchAt(code, "top", 1);
    assert !MatchAt(code, "top", 0);
    assert FirstMatch(code, "top") == Some(1);
    assert code[..1] == "'";
    assert Count(code[..1], '\'') == 1;
    assert code[..6] == "'top';";
    assert Lower(code[6..9]) == Lower("top");
    assert multiset(code[..6]) == multiset{'\'', 't', 'o', 'p', '\'', ';'};
  }

  /** A backslash never changes the verdict: escaped quotes count like
      plain ones, so `"\""` leaves an odd count of `"` behind it. */
  lemma BackslashIgnored(code: string, j: nat, i: nat)
    requires j <= i <= |code|
    ensures InString(code[..j] + "\\" + code[j..], i + 1) <==> InString(code, i)
  {
    var code' := code[..j] + "\\" + code[j..];
    assert code'[..i + 1] == code[..j] + "\\" + code[j..i];
    assert code[..i] == code[..j] + code[j..i];
  }

  /** The eval rule has no word boundary: any identifier ending in `eval`
      followed by `(` is refused, even inside a string literal. */
  lemma EvalSuffixRejected()
    ensures Validate("'retrieval()'") == Rejected(EvalMessage) || FirstBareFrom("'retrieval()'", 0).Some?
    ensures HasDirectEval("'retrieval()'")
  {
    var code := "'retrieval()'";
    assert Lower(code[6..10]) == "eval";
    assert SkipSpaces(code, 10) == 10;
    assert EvalCallAt(code, 6);
  }

  // ---------------------------------------------------------------------
  // The console shim

  /** The arguments a console method receives. `typeof` sorts them: an
      object (including `null`) is shown by its `JSON.stringify(arg, null, 2)`
      text, anything else by `String(arg)`. */
  datatype JsValue =
    | Str(s: string)
    | Num(n: int)
    | Bool(b: bool)
    | Undefined
    | Null
    | Object(json: string)

  function Render(v: JsValue): string {
    match v
    case Str(s) => s
    case Num(n) => IntToString(n)
    case Bool(b) => if b then "true" else "false"
    case Undefined => "undefined"
    case Null => "null"
    case Object(json) => json
  }

  function RenderAll(args: seq<JsValue>): (r: seq<string>)
    ensures |r| == |args|
    ensures forall i :: 0 <= i < |args| ==> r[i] == Render(args[i])
  {
    seq(|args|, i requires 0 <= i < |args| => Render(args[i]))
  }

  /** `args.map(...).join(' ')`. */
  function Line(args: seq<JsValue>): string {
    Join(RenderAll(args), " ")
  }

  const WarnPrefix := "警告: "
  const InfoPrefix := "情報: "

  /** The captured `logs` and `errors` arrays of one run. */
  class SafeConsole {
    var logs: seq<string>
    var errors: seq<string>

    constructor()
      ensures logs == [] && errors == []
    {
      logs := [];
      errors := [];
    }

    method Log(args: seq<JsValue>)
      modifies this
      ensures logs == old(logs) + [Line(args)] && errors == old(errors)
    {
      logs := logs + [Line(args)];
    }

    method Error(args: seq<JsValue>)
      modifies this
      ensures errors == old(errors) + [Line(args)] && logs == old(logs)
    {
      errors := errors + [Line(args)];
    }

    method Warn(args: seq<JsValue>)
      modifies this
      ensures logs == old(logs) + [WarnPrefix + Line(args)] && errors == old(errors)
    {
      logs := logs + [WarnPrefix + Line(args)];
    }

    method Info(args: seq<JsValue>)
      modifies this
      ensures logs == old(logs) + [InfoPrefix + Line(args)] && errors == old(errors)
    {
      logs := logs + [InfoPrefix + Line(args)];
    }
  }

  // ---------------------------------------------------------------------
  // Running a request

  datatype ConsoleCall =
    | LogCall(args: seq<JsValue>)
    | ErrorCall(args: seq<JsValue>)
    | WarnCall(args: seq<JsValue>)
    | InfoCall(args: seq<JsValue>)

  /** What the code throws. JavaScript can throw any value, and the
      `catch` reads `error.message` from it: `""` stands for a message that
      is empty or missing (a thrown string or number has none). Reading
      `.message` of `null` or `undefined` throws again inside the `catch`. */
  datatype Thrown =
    | Thrown(message: string)
    | NullishThrown

  /** What the submitted code does when the worker runs it: the console
      calls it makes, whether it throws, and the value `func` returns. The
      wrapper's own function returns nothing, so `result` is `Undefined`
      unless the code closes the wrapper and returns past it. */
  datatype Behaviour = Behaviour(calls: seq<ConsoleCall>, thrown: Option<Thrown>, result: JsValue)

  datatype Request = Request(code: string, id: int)

  datatype Reply =
    | Succeeded(id: int, output: string)
    | Failed(id: int, error: string)

  /** The lines `log`, `warn` and `info` leave in `logs`, in call order. */
  function LogLines(calls: seq<ConsoleCall>): seq<string>
    decreases |calls|
  {
    if |calls| == 0 then []
    else
      var c := calls[|calls| - 1];
      var rest := LogLines(calls[..|calls| - 1]);
      match c
      case LogCall(a) => rest + [Line(a)]
      case WarnCall(a) => rest + [WarnPrefix + Line(a)]
      case InfoCall(a) => rest + [InfoPrefix + Line(a)]
      case ErrorCall(_) => rest
  }

  /** The lines `error` leaves in `errors`, in call order. */
  function ErrorLines(calls: seq<ConsoleCall>): seq<string>
    decreases |calls|
  {
    if |calls| == 0 then []
    else
      var c := calls[|calls| - 1];
      var rest := ErrorLines(calls[..|calls| - 1]);
      if c.ErrorCall? then rest + [Line(c.args)] else rest
  }

  /** Every console call leaves exactly one line, in one of the two arrays. */
  lemma {:induction false} EveryCallCaptured(calls: seq<ConsoleCall>)
    ensures |LogLines(calls)| + |ErrorLines(calls)| == |calls|
    decreases |calls|
  {
    if |calls| > 0 {
      EveryCallCaptured(calls[..|calls| - 1]);
    }
  }

  /** The output text before the `(出力なし)` fallback. */
  function Compose(logs: seq<string>, errors: seq<string>): (out: string)
    ensures out == "" <==> logs == [] && errors == []
  {
    (if |logs| > 0 then Join(logs, "\n") + "\n" else "")
    + (if |errors| > 0 then "エラー: " + Join(errors, "\n") + "\n" else "")
  }

  function OrFallback(message: string): (r: string)
    ensures r != ""
    ensures message != "" ==> r == message
  {
    if message == "" then RuntimeFallback else message
  }

  /** The text appended for the returned value: nothing for `undefined`,
      otherwise the value rendered as a console argument is. */
  function ResultText(v: JsValue): (r: string)
    ensures v.Undefined? ==> r == ""
    ensures !v.Undefined? ==> r == Render(v)
  {
    if v.Undefined? then "" else Render(v)
  }

  /** The message the worker posts for a request; `None` when it posts
      nothing because reading `.message` of a nullish thrown value throws
      inside the `catch`, so the host sees the worker's error event. */
  function Respond(req: Request, b: Behaviour): (r: Option<Reply>)
    ensures r.None? <==> Validate(req.code).Accepted? && b.thrown == Some(NullishThrown)
    ensures r.Some? ==> r.value.id == req.id
    ensures Validate(req.code).Rejected? ==> r == Some(Failed(req.id, Validate(req.code).message))
    ensures r.Some? ==> (r.value.Failed? <==> Validate(req.code).Rejected? || b.thrown.Some?)
    ensures Validate(req.code).Accepted? && b.thrown.None? && b.calls == [] && b.result.Undefined? ==>
              r == Some(Succeeded(req.id, NoOutput))
  {
    match Validate(req.code)
    case Rejected(msg) => Some(Failed(req.id, OrFallback(msg)))
    case Accepted =>
      match b.thrown
      case Some(NullishThrown) => None
      case Some(Thrown(m)) => Some(Failed(req.id, OrFallback(m)))
      case None =>
        var out := Compose(LogLines(b.calls), ErrorLines(b.calls)) + ResultText(b.result);
        Some(Succeeded(req.id, if out == "" then NoOutput else out))
  }

  /** Runs the code's console calls against a fresh shim and hands back
      the captured arrays. */
  method Capture(calls: seq<ConsoleCall>) returns (logs: seq<string>, errors: seq<string>)
    ensures logs == LogLines(calls) && errors == ErrorLines(calls)
  {
    var console := new SafeConsole();
    var i := 0;
    while i < |calls|
      invariant 0 <= i <= |calls|
      invariant console.logs == LogLines(calls[..i])
      invariant console.errors == ErrorLines(calls[..i])
    {
      assert calls[..i + 1][..i] == calls[..i];
      match calls[i] {
        case LogCall(a) => console.Log(a);
        case ErrorCall(a) => console.Error(a);
        case WarnCall(a) => console.Warn(a);
        case InfoCall(a) => console.Info(a);
      }
      i := i + 1;
    }
    assert calls[..i] == calls;
    return console.logs, console.errors;
  }

  /** `self.onmessage`: validate, run the code, then compose the output
      step by step. `None` is the uncaught error of a nullish throw. */
  method OnMessage(req: Request, b: Behaviour) returns (reply: Option<Reply>)
    ensures reply == Respond(req, b)
  {
    var v := ValidateCode(req.code);
    if v.Rejected? {
      return Some(Failed(req.id, OrFallback(v.message)));
    }
    var logs, errors := Capture(b.calls);
    if b.thrown.Some? {
      if b.thrown.value.NullishThrown? {
        return None;
      }
      return Some(Failed(req.id, OrFallback(b.thrown.value.message)));
    }
    var output := ComposeOutput(logs, errors);
    if !b.result.Undefined? {
      output := output + Render(b.result);
    }
    assert output == Compose(LogLines(b.calls), ErrorLines(b.calls)) + ResultText(b.result);
    return Some(Succeeded(req.id, if output == "" then NoOutput else output));
  }

  /** The two `if` statements that append the captured arrays to `output`. */
  method ComposeOutput(logs: seq<string>, errors: seq<string>) returns (output: string)
    ensures output == Compose(logs, errors)
  {
    output := "";
    if |logs| > 0 {
      output := output + Join(logs, "\n") + "\n";
    }
    if |errors| > 0 {
      output := output + "エラー: " + Join(errors, "\n") + "\n";
    }
    assert output == Compose(logs, errors);
  }

  /** The validator's own messages are never empty, so they reach the
      caller as they are. */
  lemma RejectionMessageNonEmpty(code: string)
    requires Validate(code).Rejected?
    ensures Validate(code).message != ""
  {
  }

  /** Without a returned value, `(出力なし)` appears exactly when the code
      ran to the end without touching the console, and otherwise the output
      ends with a newline. A console call always shows, whatever is
      returned. */
  lemma NoOutputIff(req: Request, b: Behaviour)
    requires Respond(req, b).Some? && Respond(req, b).value.Succeeded?
    ensures b.result.Undefined? ==> (Respond(req, b).value.output == NoOutput <==> b.calls == [])
    ensures b.result.Undefined? && b.calls != [] ==>
              Respond(req, b).value.output[|Respond(req, b).value.output| - 1] == '\n'
    ensures b.calls == [] && ResultText(b.result) == "" ==> Respond(req, b).value.output == NoOutput
    ensures b.calls != [] ==> Respond(req, b).value.output != NoOutput
  {
    EveryCallCaptured(b.calls);
    var c := Compose(LogLines(b.calls), ErrorLines(b.calls));
    var out := c + ResultText(b.result);
    if c != "" {
      assert c[|c| - 1] == '\n';
      assert out[|c| - 1] == '\n';
      assert forall i :: 0 <= i < |NoOutput| ==> NoOutput[i] != '\n';
      assert out != NoOutput;
    }
  }
}
