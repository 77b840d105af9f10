/// The signup page (src/pages/Signup.tsx): the live password requirements,
/// the confirmation check, the input filters and the guards of the submit
/// handler.
module SignupPage {
  import opened JsString
  import opened Wrappers
  import Auth

  const RequirementsMessage := "パスワードの要件を満たしていません"
  const MismatchMessage := "パスワードが一致しません"
  const SignupFallback := "登録中にエラーが発生しました"
  const MaxUsername := 30
  const MaxPassword := 128

  /** `passwordRequirements`. */
  datatype Requirements = Requirements(
    minLength: bool,
    hasUpperCase: bool,
    hasLowerCase: bool,
    hasNumber: bool,
    hasSpecialChar: bool)

  function PasswordRequirements(p: string): Requirements {
    Requirements(JsLength(p) >= 8, Auth.HasUpper(p), Auth.HasLower(p), Auth.HasDigit(p), Auth.HasSymbol(p))
  }

  /** `Object.values(passwordRequirements).every(Boolean)`. */
  predicate IsPasswordValid(p: string) {
    var r := PasswordRequirements(p);
    r.minLength && r.hasUpperCase && r.hasLowerCase && r.hasNumber && r.hasSpecialChar
  }

  /** The page accepts exactly the passwords the store will accept. */
  lemma PageAgreesWithStore(p: string)
    ensures IsPasswordValid(p) <==> Auth.ValidatePasswordStrength(p).Valid?
  {
  }

  predicate PasswordsMatch(p: string, confirm: string) {
    p == confirm && JsLength(confirm) > 0
  }

  /** `value.replace(/[^a-zA-Z0-9]/g, '')`. */
  function StripNonAlnum(v: string): (r: string)
    ensures |r| <= |v|
    ensures forall i :: 0 <= i < |r| ==> Auth.IsAlnum(r[i])
    ensures forall c :: c in r <==> c in v && Auth.IsAlnum(c)
    ensures (forall i :: 0 <= i < |v| ==> Auth.IsAlnum(v[i])) ==> r == v
    decreases |v|
  {
    if |v| == 0 then ""
    else
      var rest := StripNonAlnum(v[1..]);
      assert forall c :: c in v <==> c == v[0] || c in v[1..];
      if Auth.IsAlnum(v[0]) then [v[0]] + rest else rest
  }

  /** The username input: keep the stripped value when it has at most 30
      characters, otherwise ignore the edit. */
  function FilterUsername(current: string, typed: string): (r: string)
    ensures r == current || forall i :: 0 <= i < |r| ==> Auth.IsAlnum(r[i])
    ensures forall c :: c in r ==> c in current || c in typed
    ensures (forall i :: 0 <= i < |typed| ==> Auth.IsAlnum(typed[i])) && JsLength(typed) <= MaxUsername ==> r == typed
  {
    var v := StripNonAlnum(typed);
    if JsLength(v) <= MaxUsername then v else current
  }

  /** The password and confirmation inputs. */
  function FilterPassword(current: string, typed: string): (r: string)
    ensures r == typed || r == current
    ensures JsLength(typed) > MaxPassword ==> r == current
  {
    if JsLength(typed) <= MaxPassword then typed else current
  }

  /** A username that is letters and digits and at most 30 long stays so
      after any edit. */
  lemma UsernameFilterKeeps(current: string, typed: string)
    requires forall i :: 0 <= i < |current| ==> Auth.IsAlnum(current[i])
    requires |current| <= MaxUsername
    ensures var r := FilterUsername(current, typed);
            (forall i :: 0 <= i < |r| ==> Auth.IsAlnum(r[i])) && |r| <= MaxUsername
  {
    var v := StripNonAlnum(typed);
    assert IsBmp(v);
    JsLengthBmp(v);
  }

  /** A password of at most 128 UTF-16 units stays so after any edit. */
  lemma PasswordFilterKeeps(current: string, typed: string)
    requires JsLength(current) <= MaxPassword
    ensures JsLength(FilterPassword(current, typed)) <= MaxPassword
    ensures JsLength(typed) <= MaxPassword ==> FilterPassword(current, typed) == typed
  {
  }

  /** The submit button is enabled only for a valid, confirmed password
      while nothing is loading. */
  predicate SubmitDisabled(isLoading: bool, p: string, confirm: string) {
    isLoading || !IsPasswordValid(p) || !PasswordsMatch(p, confirm)
  }

  /** The guard the handler applies: the requirements first, then the
      equality of the two fields. */
  function SubmitGuard(p: string, confirm: string): (e: Option<string>)
    ensures e.None? <==> IsPasswordValid(p) && p == confirm
    ensures !IsPasswordValid(p) ==> e == Some(RequirementsMessage)
    ensures IsPasswordValid(p) && p != confirm ==> e == Some(MismatchMessage)
  {
    if !IsPasswordValid(p) then Some(RequirementsMessage)
    else if p != confirm then Some(MismatchMessage)
    else None
  }

  /** The handler checks plain equality where the button checks
      `passwordsMatch`; for a valid password the two agree, so an enabled
      button always passes the guard and a passing guard always had the
      button enabled (when not loading). */
  lemma GuardAgreesWithButton(p: string, confirm: string)
    ensures SubmitGuard(p, confirm).None? <==> !SubmitDisabled(false, p, confirm)
  {
  }

  class SignupForm {
    var username: string
    var password: string
    var confirmPassword: string
    var error: string
    var isLoading: bool
    /** Whether `navigate('/')` has run. */
    var navigated: bool

    constructor()
      ensures username == "" && password == "" && confirmPassword == "" && error == ""
      ensures !isLoading && !navigated
    {
      username := "";
      password := "";
      confirmPassword := "";
      error := "";
      isLoading := false;
      navigated := false;
    }

    method TypeUsername(typed: string)
      modifies this
      ensures username == FilterUsername(old(username), typed)
      ensures password == old(password) && confirmPassword == old(confirmPassword)
      ensures error == old(error) && isLoading == old(isLoading) && navigated == old(navigated)
    {
      var value := StripNonAlnum(typed);
      if JsLength(value) <= MaxUsername {
        username := value;
      }
    }

    method TypePassword(typed: string)
      modifies this
      ensures password == FilterPassword(old(password), typed)
      ensures username == old(username) && confirmPassword == old(confirmPassword)
      ensures error == old(error) && isLoading == old(isLoading) && navigated == old(navigated)
    {
      if JsLength(typed) <= MaxPassword {
        password := typed;
      }
    }

    method TypeConfirmation(typed: string)
      modifies this
      ensures confirmPassword == FilterPassword(old(confirmPassword), typed)
      ensures username == old(username) && password == old(password)
      ensures error == old(error) && isLoading == old(isLoading) && navigated == old(navigated)
    {
      if JsLength(typed) <= MaxPassword {
        confirmPassword := typed;
      }
    }

    /** `handleSubmit`; `hash` is what bcrypt returns for the password.
        Neither guard failure reaches the store; once `signup` is called,
        success navigates home and failure shows the store's message. */
    method Submit(auth: Auth.AuthStore, hash: string) returns (called: bool)
      modifies this, auth
      ensures called <==> SubmitGuard(old(password), old(confirmPassword)).None?
      ensures !called ==>
                error == SubmitGuard(old(password), old(confirmPassword)).value
                && auth.users == old(auth.users) && auth.user == old(auth.user)
                && navigated == old(navigated) && isLoading == old(isLoading)
      ensures called ==> !isLoading
      ensures called ==>
                var known := if old(auth.users).Some? then old(auth.users).value else map[];
                var e := Auth.SignupError(known, old(username), old(password));
                && navigated == (old(navigated) || e.None?)
                && (e.None? ==>
                      error == ""
                      && auth.users == Some(known[old(username) := hash])
                      && auth.user == Some(Auth.User(old(username), old(username))))
                && (e.Some? ==>
                      error == (if e.value != "" then e.value else SignupFallback)
                      && auth.users == old(auth.users) && auth.user == old(auth.user))
      ensures username == old(username) && password == old(password)
      ensures confirmPassword == old(confirmPassword)
    {
      error := "";
      if !IsPasswordValid(password) {
        error := RequirementsMessage;
        return false;
      }
      if password != confirmPassword {
        error := MismatchMessage;
        return false;
      }
      isLoading := true;
      var result := auth.Signup(username, password, hash);
      if result.success {
        navigated := true;
      } else {
        error := if result.error.Some? && result.error.value != "" then result.error.value else SignupFallback;
      }
      isLoading := false;
      called := true;
    }
  }
}
