/** The login form's validation schema and submit handler
    (mis-react-web/src/pages/login.tsx). The identifier must be an email
    address or a username, each given by a regular expression that is stated
    here as a string predicate. */
module LoginForm {
  import opened Wrappers
  import opened Text

  datatype LoginInputs = LoginInputs(identifier: string, password: string)

  /** The credentials handed to `loginUser`. */
  datatype UserLogin = UserLogin(username: string, password: string)

  datatype Check = Valid | Invalid(message: string)

  /** `[^\s@]`. */
  predicate Plain(c: char) {
    !IsJsWhitespace(c) && c != '@'
  }

  predicate AllPlain(s: string, lo: int, hi: int)
    requires 0 <= lo <= hi <= |s|
  {
    forall k :: lo <= k < hi ==> Plain(s[k])
  }

  /** `/^[^\s@]+@[^\s@]+\.[^\s@]+$/`: three non-empty runs of plain characters
      separated by an '@' at `i` and a '.' at `j`. */
  predicate MatchesEmailPattern(s: string) {
    exists i, j :: 0 < i && i + 1 < j && j + 1 < |s| && s[i] == '@' && s[j] == '.'
                   && AllPlain(s, 0, i) && AllPlain(s, i + 1, j) && AllPlain(s, j + 1, |s|)
  }

  /** `/^[a-zA-Z0-9_]{3,30}$/`. */
  predicate MatchesUsernamePattern(s: string) {
    3 <= |s| <= 30 && forall k :: 0 <= k < |s| ==> IsWordChar(s[k])
  }

  /** The identifier field: required first, then the email-or-username test. */
  function CheckIdentifier(identifier: string): (r: Check)
    ensures identifier == "" ==> r == Invalid("Email or username is required")
    ensures r.Valid? <==> identifier != "" && (MatchesEmailPattern(identifier) || MatchesUsernamePattern(identifier))
    ensures r.Invalid? && identifier != "" ==> r.message == "Enter a valid email or username"
  {
    if identifier == "" then Invalid("Email or username is required")
    else if MatchesEmailPattern(identifier) || MatchesUsernamePattern(identifier) then Valid
    else Invalid("Enter a valid email or username")
  }

  function CheckPassword(password: string): (r: Check)
    ensures r.Valid? <==> password != ""
    ensures r.Invalid? ==> r.message == "Password is required"
  {
    if password == "" then Invalid("Password is required") else Valid
  }

  /** `handleSubmit(handleLogin)`: the handler runs only on a valid form and
      passes the identifier as the username and the password unchanged. */
  function Submit(form: LoginInputs): (r: Option<UserLogin>)
    ensures r.Some? <==> CheckIdentifier(form.identifier).Valid? && form.password != ""
    ensures r.Some? ==> r.value.username == form.identifier && r.value.password == form.password
  {
    if CheckIdentifier(form.identifier).Valid? && CheckPassword(form.password).Valid? then
      Some(UserLogin(form.identifier, form.password))
    else None
  }

  /** The email pattern in plain words: no whitespace, exactly one '@' with
      something before it, and after it a '.' that is neither the first nor the
      last character. */
  predicate EmailShape(s: string) {
    && (forall k :: 0 <= k < |s| ==> !IsJsWhitespace(s[k]))
    && exists i :: 0 < i < |s| && s[i] == '@'
                   && (forall k :: 0 <= k < |s| && k != i ==> s[k] != '@')
                   && exists j :: i + 1 < j < |s| - 1 && s[j] == '.'
  }

  lemma EmailPatternIsEmailShape(s: string)
    ensures MatchesEmailPattern(s) <==> EmailShape(s)
  {
    if MatchesEmailPattern(s) {
      var i, j :| 0 < i && i + 1 < j && j + 1 < |s| && s[i] == '@' && s[j] == '.'
                  && AllPlain(s, 0, i) && AllPlain(s, i + 1, j) && AllPlain(s, j + 1, |s|);
      assert forall k :: 0 <= k < |s| && k != i && k != j ==> Plain(s[k]);
      assert EmailShape(s);
    }
    if EmailShape(s) {
      var i :| 0 < i < |s| && s[i] == '@'
               && (forall k :: 0 <= k < |s| && k != i ==> s[k] != '@')
               && exists j :: i + 1 < j < |s| - 1 && s[j] == '.';
      var j :| i + 1 < j < |s| - 1 && s[j] == '.';
      assert AllPlain(s, 0, i) && AllPlain(s, i + 1, j) && AllPlain(s, j + 1, |s|);
    }
  }

  /** A word of 3 to 30 username characters is accepted. */
  lemma UsernameAccepted(s: string)
    requires 3 <= |s| <= 30 && forall k :: 0 <= k < |s| ==> IsWordChar(s[k])
    ensures CheckIdentifier(s) == Valid
  {
  }

  /** An identifier of the email shape is accepted. */
  lemma EmailAccepted(s: string)
    requires EmailShape(s)
    ensures CheckIdentifier(s) == Valid
  {
    EmailPatternIsEmailShape(s);
  }

  /** An identifier with whitespace anywhere in it is rejected. */
  lemma WhitespaceRejected(s: string, k: int)
    requires 0 <= k < |s| && IsJsWhitespace(s[k])
    ensures CheckIdentifier(s).Invalid?
  {
    EmailPatternIsEmailShape(s);
    assert !IsWordChar(s[k]);
  }

  /** Without an '@' only the username pattern can match, so a word that is too
      short or too long is rejected. */
  lemma WordOutOfLengthRejected(s: string)
    requires forall k :: 0 <= k < |s| ==> s[k] != '@'
    requires |s| < 3 || |s| > 30
    ensures CheckIdentifier(s).Invalid?
  {
    EmailPatternIsEmailShape(s);
  }
}
