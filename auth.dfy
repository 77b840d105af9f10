/// Local accounts (src/contexts/AuthContext.tsx): the username and password
/// rules, and the signup, login and logout path that works on the users
/// record kept in the browser. The bcrypt hash of a password and the bcrypt
/// comparison are supplied by the caller.
module Auth {
  import opened JsString
  import opened Wrappers

  const UsernameTooShort := "ユーザー名は5文字以上である必要があります"
  const UsernameTooLong := "ユーザー名は30文字以内である必要があります"
  const UsernameBadChar := "ユーザー名は英数字のみ使用できます"
  const PasswordTooShort := "パスワードは8文字以上である必要があります"
  const PasswordNoUpper := "パスワードには大文字が1文字以上必要です"
  const PasswordNoLower := "パスワードには小文字が1文字以上必要です"
  const PasswordNoDigit := "パスワードには数字が1文字以上必要です"
  const PasswordNoSymbol := "パスワードには記号が1文字以上必要です"
  const UsernameTaken := "このユーザー名は既に使用されています"

  /** `{ valid, error? }`. */
  datatype Validation = Valid | Invalid(error: string)

  predicate IsUpper(c: char) {
    'A' <= c <= 'Z'
  }

  predicate IsLower(c: char) {
    'a' <= c <= 'z'
  }

  predicate IsDigit(c: char) {
    '0' <= c <= '9'
  }

  /** `[a-zA-Z0-9]`. */
  predicate IsAlnum(c: char) {
    IsUpper(c) || IsLower(c) || IsDigit(c)
  }

  /** The class `[!@#$%^&*()_+\-=\[\]{};':"\\|,.<>\/?]`. */
  predicate IsSymbol(c: char) {
    c in {'!', '@', '#', '$', '%', '^', '&', '*', '(', ')', '_', '+', '-', '=', '[', ']', '{', '}', ';', '\'', ':', '\"', '\\', '|', ',', '.', '<', '>', '/', '?'}
  }

  /** Some character of `s` satisfies the test: `/[...]/.test(s)`. */
  predicate HasUpper(s: string) {
    exists i :: 0 <= i < |s| && IsUpper(s[i])
  }

  predicate HasLower(s: string) {
    exists i :: 0 <= i < |s| && IsLower(s[i])
  }

  predicate HasDigit(s: string) {
    exists i :: 0 <= i < |s| && IsDigit(s[i])
  }

  predicate HasSymbol(s: string) {
    exists i :: 0 <= i < |s| && IsSymbol(s[i])
  }

  /** `/^[a-zA-Z0-9]+$/.test(s)`. */
  predicate AllAlnum(s: string) {
    |s| > 0 && forall i :: 0 <= i < |s| ==> IsAlnum(s[i])
  }

  /** `validateUsername`: too short, too long, then a bad character. */
  function ValidateUsername(u: string): (v: Validation)
    ensures JsLength(u) < 5 ==> v == Invalid(UsernameTooShort)
    ensures JsLength(u) > 30 ==> v == Invalid(UsernameTooLong)
    ensures 5 <= JsLength(u) <= 30 && !AllAlnum(u) ==> v == Invalid(UsernameBadChar)
    ensures v.Valid? <==> 5 <= JsLength(u) <= 30 && AllAlnum(u)
  {
    if JsLength(u) < 5 then Invalid(UsernameTooShort)
    else if JsLength(u) > 30 then Invalid(UsernameTooLong)
    else if !AllAlnum(u) then Invalid(UsernameBadChar)
    else Valid
  }

  /** A username is accepted exactly when it has 5 to 30 characters, all
      ASCII letters or digits. */
  lemma UsernameValidIff(u: string)
    ensures ValidateUsername(u).Valid? <==> 5 <= |u| <= 30 && AllAlnum(u)
  {
    if AllAlnum(u) {
      JsLengthBmp(u);
    }
  }

  /** `validatePasswordStrength`: the first failing rule decides the
      message. */
  function ValidatePasswordStrength(p: string): (v: Validation)
    ensures v.Valid? <==> JsLength(p) >= 8 && HasUpper(p) && HasLower(p) && HasDigit(p) && HasSymbol(p)
    ensures JsLength(p) < 8 ==> v == Invalid(PasswordTooShort)
    ensures JsLength(p) >= 8 && !HasUpper(p) ==> v == Invalid(PasswordNoUpper)
    ensures JsLength(p) >= 8 && HasUpper(p) && !HasLower(p) ==> v == Invalid(PasswordNoLower)
    ensures JsLength(p) >= 8 && HasUpper(p) && HasLower(p) && !HasDigit(p) ==> v == Invalid(PasswordNoDigit)
    ensures JsLength(p) >= 8 && HasUpper(p) && HasLower(p) && HasDigit(p) && !HasSymbol(p) ==>
              v == Invalid(PasswordNoSymbol)
  {
    if JsLength(p) < 8 then Invalid(PasswordTooShort)
    else if !HasUpper(p) then Invalid(PasswordNoUpper)
    else if !HasLower(p) then Invalid(PasswordNoLower)
    else if !HasDigit(p) then Invalid(PasswordNoDigit)
    else if !HasSymbol(p) then Invalid(PasswordNoSymbol)
    else Valid
  }

  /** A password of eight ASCII characters covering all four classes is
      strong enough: `Abcdef1!`. */
  lemma ExamplePassword()
    ensures ValidatePasswordStrength("Abcdef1!").Valid?
  {
    var p := "Abcdef1!";
    assert HasUpper(p) by { assert IsUpper(p[0]); }
    assert HasLower(p) by { assert IsLower(p[1]); }
    assert HasDigit(p) by { assert IsDigit(p[6]); }
    assert HasSymbol(p) by {
      assert p[7] == '!';
      assert IsSymbol('!');
    }
    assert IsBmp(p);
    JsLengthBmp(p);
  }

  datatype User = User(id: string, username: string)

  /** What `signup` returns. */
  datatype SignupResult = SignupResult(success: bool, error: Option<string>)

  /** The error `signup` reports for a users record, or none when it goes
      through: the username rule first, then the password rule, then the
      duplicate check. */
  function SignupError(users: map<string, string>, username: string, password: string): (e: Option<string>)
    ensures ValidateUsername(username).Invalid? ==> e == Some(ValidateUsername(username).error)
    ensures ValidateUsername(username).Valid? && ValidatePasswordStrength(password).Invalid? ==>
              e == Some(ValidatePasswordStrength(password).error)
    ensures e.None? <==> ValidateUsername(username).Valid? && ValidatePasswordStrength(password).Valid?
                         && username !in users
  {
    var u := ValidateUsername(username);
    if u.Invalid? then Some(u.error)
    else
      var p := ValidatePasswordStrength(password);
      if p.Invalid? then Some(p.error)
      else if username in users then Some(UsernameTaken)
      else None
  }

  /** The members a plain object inherits from `Object.prototype` whose
      names are also valid usernames (five to thirty ASCII letters and
      digits). Each reads back as a function, which is truthy. */
  const InheritedNames: set<string> := {
    "constructor", "hasOwnProperty", "isPrototypeOf", "propertyIsEnumerable",
    "toLocaleString", "toString", "valueOf"
  }

  /** The duplicate test as written, `if (users[username])` on the object
      `JSON.parse` returns: an own entry or an inherited member. */
  predicate TakenAsWritten(users: map<string, string>, username: string) {
    username in users || username in InheritedNames
  }

  /** `signup`'s error as written: the same rules, with the duplicate test
      above. It refuses every signup the corrected rule refuses, and more. */
  function SignupErrorAsWritten(users: map<string, string>, username: string, password: string): (e: Option<string>)
    ensures e.None? ==> SignupError(users, username, password).None?
    ensures username !in InheritedNames ==> e == SignupError(users, username, password)
  {
    var u := ValidateUsername(username);
    if u.Invalid? then Some(u.error)
    else
      var p := ValidatePasswordStrength(password);
      if p.Invalid? then Some(p.error)
      else if TakenAsWritten(users, username) then Some(UsernameTaken)
      else None
  }

  /** On an empty users record, `valueOf` with a strong password is
      reported as taken by the code as written, and accepted by the
      corrected rule. */
  lemma ValueOfReportedTaken()
    ensures SignupErrorAsWritten(map[], "valueOf", "Abcdef1!") == Some(UsernameTaken)
    ensures SignupError(map[], "valueOf", "Abcdef1!") == None
  {
    ValueOfIsValidUsername();
    ExamplePassword();
    assert "valueOf" in InheritedNames;
  }

  lemma ValueOfIsValidUsername()
    ensures ValidateUsername("valueOf") == Valid
  {
    var u := "valueOf";
    assert |u| == 7;
    forall i | 0 <= i < |u|
      ensures IsAlnum(u[i]) && u[i] as int <= 0xFFFF
    {
      assert i == 0 || i == 1 || i == 2 || i == 3 || i == 4 || i == 5 || i == 6;
    }
    assert IsBmp(u);
    JsLengthBmp(u);
  }

  /** Taking an existing username always fails. */
  lemma DuplicateRejected(users: map<string, string>, username: string, password: string)
    requires username in users
    ensures SignupError(users, username, password).Some?
  {
  }

  /** The users record (`auth_users`; `None` while nothing is stored) and
      the signed-in user. */
  class AuthStore {
    var users: Option<map<string, string>>
    var user: Option<User>

    constructor(stored: Option<map<string, string>>, current: Option<User>)
      ensures users == stored && user == current
    {
      users := stored;
      user := current;
    }

    predicate IsAuthenticated()
      reads this
    {
      user.Some?
    }

    /** The local `signup`; `hash` is `bcrypt.hash(password)`. A failure
        leaves the store as it was; a success adds exactly the new user and
        signs them in. */
    method Signup(username: string, password: string, hash: string) returns (r: SignupResult)
      modifies this
      ensures var known := if old(users).Some? then old(users).value else map[];
              && r.success == SignupError(known, username, password).None?
              && (!r.success ==>
                    r.error == SignupError(known, username, password)
                    && users == old(users) && user == old(user))
              && (r.success ==>
                    r.error.None?
                    && users == Some(known[username := hash])
                    && user == Some(User(username, username)))
    {
      var u := ValidateUsername(username);
      if u.Invalid? {
        return SignupResult(false, Some(u.error));
      }
      var p := ValidatePasswordStrength(password);
      if p.Invalid? {
        return SignupResult(false, Some(p.error));
      }
      var known := if users.Some? then users.value else map[];
      if username in known {
        return SignupResult(false, Some(UsernameTaken));
      }
      users := Some(known[username := hash]);
      user := Some(User(username, username));
      r := SignupResult(true, None);
    }

    /** The local `login`; `matches(password, hash)` is `bcrypt.compare`. */
    method Login(username: string, password: string, matches: (string, string) -> bool) returns (ok: bool)
      modifies this
      ensures users == old(users)
      ensures ok <==> users.Some? && username in users.value && matches(password, users.value[username])
      ensures ok ==> user == Some(User(username, username))
      ensures !ok ==> user == old(user)
    {
      if users.None? {
        return false;
      }
      if username !in users.value {
        return false;
      }
      if !matches(password, users.value[username]) {
        return false;
      }
      user := Some(User(username, username));
      ok := true;
    }

    method Logout()
      modifies this
      ensures user == None && !IsAuthenticated()
      ensures users == old(users)
    {
      user := None;
    }
  }
}
