/** The body of a registration request. */
module RegisterDto {
  import opened Wrappers
  import opened ClassValidator

  /** The decorators of `registerDTO`: `name` a string, `email` an email
      (the email check is a parameter), `password` a string of length at
      least 6 whose first line holds a digit. */
  predicate Valid(body: map<string, Json>, isEmail: string -> bool)
  {
    var name := Field(body, "name");
    var email := Field(body, "email");
    var password := Field(body, "password");
    IsString(name) &&
    IsString(email) && isEmail(email.value.s) &&
    IsString(password) && MinLength(password, 6) && DigitBeforeLineBreak(password.value.s)
  }

  /** A valid password has at least 6 characters and an ASCII digit. */
  lemma ValidPassword(body: map<string, Json>, isEmail: string -> bool)
    requires Valid(body, isEmail)
    ensures "password" in body && body["password"].JString?
    ensures |body["password"].s| >= 6
    ensures exists i :: 0 <= i < |body["password"].s| && '0' <= body["password"].s[i] <= '9'
  {
    var p := body["password"].s;
    var i :| 0 <= i < |p| && '0' <= p[i] <= '9' && forall k | 0 <= k < i :: !IsLineTerminator(p[k]);
    assert '0' <= p[i] <= '9';
  }

  /** The name may be empty. */
  lemma EmptyNameAccepted(isEmail: string -> bool, email: string)
    requires isEmail(email)
    ensures Valid(map["name" := JString(""), "email" := JString(email), "password" := JString("secret1")], isEmail)
  {
    var body := map["name" := JString(""), "email" := JString(email), "password" := JString("secret1")];
    assert Field(body, "name") == Some(JString(""));
    assert Field(body, "email") == Some(JString(email));
    assert Field(body, "password") == Some(JString("secret1"));
    StrongPassword();
  }

  lemma StrongPassword()
    ensures ValidatorLength("secret1") >= 6 && DigitBeforeLineBreak("secret1")
  {
    var p := "secret1";
    assert '0' <= p[6] <= '9' && forall k | 0 <= k < 6 :: !IsLineTerminator(p[k]);
    assert forall i :: 0 <= i < |p| ==> !IsPresentationSelector(p[i]);
  }

  /** The digit must come before the first line break: "abcdef\n1" is
      refused though it holds a digit. */
  lemma DigitAfterLineBreakRefused(isEmail: string -> bool, email: string)
    ensures !Valid(map["name" := JString("a"), "email" := JString(email), "password" := JString("abcdef\n1")], isEmail)
  {
    var body := map["name" := JString("a"), "email" := JString(email), "password" := JString("abcdef\n1")];
    assert Field(body, "password") == Some(JString("abcdef\n1"));
    NoDigitOnFirstLine();
  }

  lemma NoDigitOnFirstLine()
    ensures !DigitBeforeLineBreak("abcdef\n1")
  {
    var p := "abcdef\n1";
    forall i | 0 <= i < |p| ensures !('0' <= p[i] <= '9' && forall k | 0 <= k < i :: !IsLineTerminator(p[k])) {
      if i == 7 {
        assert IsLineTerminator(p[6]);
      } else {
        assert i < 7;
        assert p[i] == "abcdef\n"[i];
      }
    }
  }
}
