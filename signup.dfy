/**
 * The sign-up page: the form schema and the first message it shows per
 * field, the password-strength meter and its labels, and the submit guard.
 * Lengths are JavaScript string lengths; the email format check is an oracle.
 */
module Signup {
  import opened Options
  import Strings

  datatype SignupData = SignupData(username: string, email: string, password: string, confirmPassword: string)

  /** What is dispatched: the form without `confirmPassword`. */
  datatype UserData = UserData(username: string, email: string, password: string)

  /** The message shown under each field, if any: the first failed rule of that field. */
  datatype FieldMessages = FieldMessages(
    username: Option<string>, email: Option<string>, password: Option<string>, confirmPassword: Option<string>)

  const UsernameShort := "Username should contain at least 3 characters"
  const UsernameLong := "Username should contain at most 20 characters"
  const UsernameChars := "Username can only contain letters, numbers, and underscores"
  const EmailInvalid := "Invalid Email"
  const PasswordShort := "Password should contain at least 6 characters"
  const PasswordNoUpper := "Password must contain at least one uppercase letter"
  const PasswordNoDigit := "Password must contain at least one number"
  const PasswordsDiffer := "Passwords don't match"

  /** `[a-zA-Z0-9_ ]`. */
  predicate UsernameChar(c: char) {
    Strings.IsAlphanumericAscii(c) || c == '_' || c == ' '
  }

  /** `/^[a-zA-Z0-9_ ]+$/`: non-empty, every character allowed. */
  predicate UsernamePattern(s: string) {
    |s| > 0 && forall i :: 0 <= i < |s| ==> UsernameChar(s[i])
  }

  function UsernameMessage(u: string): (m: Option<string>)
    ensures m.None? <==> 3 <= Strings.Utf16Length(u) <= 20 && UsernamePattern(u)
    ensures Strings.Utf16Length(u) < 3 ==> m == Some(UsernameShort)
  {
    if Strings.Utf16Length(u) < 3 then Some(UsernameShort)
    else if Strings.Utf16Length(u) > 20 then Some(UsernameLong)
    else if !UsernamePattern(u) then Some(UsernameChars)
    else None
  }

  function PasswordMessage(p: string): (m: Option<string>)
    ensures m.None? <==>
      Strings.Utf16Length(p) >= 6 && Strings.HasChar(p, Strings.IsUpperAscii) && Strings.HasChar(p, Strings.IsDigit)
    ensures Strings.Utf16Length(p) < 6 ==> m == Some(PasswordShort)
  {
    if Strings.Utf16Length(p) < 6 then Some(PasswordShort)
    else if !Strings.HasChar(p, Strings.IsUpperAscii) then Some(PasswordNoUpper)
    else if !Strings.HasChar(p, Strings.IsDigit) then Some(PasswordNoDigit)
    else None
  }

  /** The schema's messages; the confirmation rule is reported on `confirmPassword`. */
  function Messages(d: SignupData, isEmail: string -> bool): (r: FieldMessages)
    ensures r.confirmPassword == (if d.password == d.confirmPassword then None else Some(PasswordsDiffer))
    ensures r.email == (if isEmail(d.email) then None else Some(EmailInvalid))
    ensures r.username.None? <==> 3 <= Strings.Utf16Length(d.username) <= 20 && UsernamePattern(d.username)
    ensures r.password.None? <==>
      Strings.Utf16Length(d.password) >= 6 && Strings.HasChar(d.password, Strings.IsUpperAscii)
      && Strings.HasChar(d.password, Strings.IsDigit)
  {
    FieldMessages(
      UsernameMessage(d.username),
      if isEmail(d.email) then None else Some(EmailInvalid),
      PasswordMessage(d.password),
      if d.password == d.confirmPassword then None else Some(PasswordsDiffer))
  }

  predicate Passes(d: SignupData, isEmail: string -> bool) {
    Messages(d, isEmail) == FieldMessages(None, None, None, None)
  }

  /** A username of ASCII characters passes exactly when it is 3 to 20 of `[a-zA-Z0-9_ ]`. */
  lemma UsernameRule(u: string)
    requires forall i :: 0 <= i < |u| ==> u[i] as int < 0x80
    ensures UsernameMessage(u).None? <==> 3 <= |u| <= 20 && forall i :: 0 <= i < |u| ==> UsernameChar(u[i])
  {
    Strings.Utf16LengthBmp(u);
  }

  // The strength meter.

  /** The five criteria that each add 25. */
  function Criteria(p: string): (n: nat)
    ensures n <= 5
  {
    (if Strings.Utf16Length(p) >= 6 then 1 else 0)
    + (if Strings.Utf16Length(p) >= 10 then 1 else 0)
    + (if Strings.HasChar(p, Strings.IsUpperAscii) then 1 else 0)
    + (if Strings.HasChar(p, Strings.IsDigit) then 1 else 0)
    + (if Strings.HasChar(p, (c: char) => !Strings.IsAlphanumericAscii(c)) then 1 else 0)
  }

  /** The score of a password: 25 per criterion met, at most 100, and 0 for the empty one. */
  function Score(p: string): (s: int)
    ensures s in {0, 25, 50, 75, 100}
    ensures p == "" ==> s == 0
    ensures p != "" && Criteria(p) >= 4 ==> s == 100
  {
    if p == "" then 0 else if 25 * Criteria(p) > 100 then 100 else 25 * Criteria(p)
  }

  /** The effect that recomputes the strength as the password changes. */
  method PasswordStrength(password: string) returns (strength: int)
    ensures strength == Score(password)
    ensures 0 <= strength <= 100
  {
    if password == "" {
      return 0;
    }
    var s := 0;
    if Strings.Utf16Length(password) >= 6 { s := s + 25; }
    if Strings.Utf16Length(password) >= 10 { s := s + 25; }
    if Strings.HasChar(password, Strings.IsUpperAscii) { s := s + 25; }
    if Strings.HasChar(password, Strings.IsDigit) { s := s + 25; }
    if Strings.HasChar(password, (c: char) => !Strings.IsAlphanumericAscii(c)) { s := s + 25; }
    strength := if s < 100 then s else 100;
  }

  /** A password short of 6 with no capital, digit or symbol scores 0 although it is not empty. */
  lemma ScoreCanBeZero()
    ensures Score("abc") == 0
  {
    assert !Strings.IsUpperAscii('a') && !Strings.IsUpperAscii('b') && !Strings.IsUpperAscii('c');
    assert !Strings.HasChar("abc", Strings.IsUpperAscii);
    assert !Strings.HasChar("abc", Strings.IsDigit);
    assert !Strings.HasChar("abc", (c: char) => !Strings.IsAlphanumericAscii(c));
  }

  /** The meter's label and colour, by threshold. */
  function StrengthText(s: int): (t: string)
    ensures t in {"Weak", "Fair", "Good", "Strong"}
    ensures t == "Weak" <==> s < 30
    ensures t == "Strong" <==> s >= 80
  {
    if s < 30 then "Weak" else if s < 60 then "Fair" else if s < 80 then "Good" else "Strong"
  }

  function StrengthColor(s: int): (c: string)
    ensures c == "bg-red-500" <==> s < 30
    ensures c == "bg-green-500" <==> s >= 80
  {
    if s < 30 then "bg-red-500" else if s < 60 then "bg-yellow-500" else if s < 80 then "bg-blue-500" else "bg-green-500"
  }

  /** Label and colour follow the same thresholds, and each score step lands on one label. */
  lemma StrengthLabels(s: int)
    ensures StrengthText(s) == "Weak" <==> StrengthColor(s) == "bg-red-500"
    ensures StrengthText(s) == "Fair" <==> StrengthColor(s) == "bg-yellow-500"
    ensures StrengthText(s) == "Good" <==> StrengthColor(s) == "bg-blue-500"
    ensures StrengthText(s) == "Strong" <==> StrengthColor(s) == "bg-green-500"
    ensures s == 0 || s == 25 ==> StrengthText(s) == "Weak"
    ensures s == 50 ==> StrengthText(s) == "Fair"
    ensures s == 75 ==> StrengthText(s) == "Good"
    ensures s == 100 ==> StrengthText(s) == "Strong"
  {
  }

  /** `onSubmit`: nothing is dispatched unless the terms are accepted; the confirmation is dropped. */
  function OnSubmit(d: SignupData, agreeToTerms: bool): (r: Option<UserData>)
    ensures r.None? <==> !agreeToTerms
    ensures r.Some? ==> r.value.username == d.username && r.value.email == d.email && r.value.password == d.password
  {
    if !agreeToTerms then None else Some(UserData(d.username, d.email, d.password))
  }
}
