/** Field validation of the email sign-in/sign-up form: the email regular
    expression, the password length rule, the four user-visible messages and
    the error record that a submit attempt computes. */
module Validation {

  datatype Option<T> = None | Some(value: T)

  // ---------------------------------------------------------------------------
  // Characters
  // ---------------------------------------------------------------------------

  /** The JavaScript `\s` class: the ECMAScript WhiteSpace characters (tab,
      vertical tab, form feed, space, no-break space, byte order mark and the
      Unicode space separators) and the LineTerminator characters (line feed,
      carriage return, line and paragraph separator). */
  predicate IsWs(c: char) {
    var n := c as int;
    (0x09 <= n <= 0x0D) || n == 0x20 || n == 0xA0 || n == 0x1680 ||
    (0x2000 <= n <= 0x200A) || n == 0x2028 || n == 0x2029 || n == 0x202F ||
    n == 0x205F || n == 0x3000 || n == 0xFEFF
  }

  /** The bracket class `[^\s@]`. */
  predicate IsPatternChar(c: char) {
    !IsWs(c) && c != '@'
  }

  /** `[^\s@]+`: a non-empty run of pattern characters. */
  predicate IsPatternRun(x: string) {
    |x| > 0 && forall i :: 0 <= i < |x| ==> IsPatternChar(x[i])
  }

  // ---------------------------------------------------------------------------
  // validateEmail: /^[^\s@]+@[^\s@]+\.[^\s@]+$/
  // ---------------------------------------------------------------------------

  /** `s` splits as local '@' host '.' rest, each part a `[^\s@]+` run. */
  ghost predicate IsPatternSplit(s: string, local: string, host: string, rest: string) {
    IsPatternRun(local) && IsPatternRun(host) && IsPatternRun(rest) &&
    s == local + ['@'] + host + ['.'] + rest
  }

  /** The language of the anchored email regular expression. */
  ghost predicate MatchesEmailPattern(s: string) {
    exists local, host, rest :: IsPatternSplit(s, local, host, rest)
  }

  /** A match found by position: '@' at `i`, the separating '.' at `j`. */
  predicate IsMatchAt(s: string, i: int, j: int) {
    0 < i && i + 1 < j && j + 1 < |s| &&
    s[i] == '@' && s[j] == '.' &&
    IsPatternRun(s[..i]) && IsPatternRun(s[i + 1..j]) && IsPatternRun(s[j + 1..])
  }

  /** `validateEmail`: the regular-expression test, searching the positions of
      the '@' and of the separating '.'. */
  function ValidateEmail(s: string): (ok: bool)
    ensures ok <==> MatchesEmailPattern(s)
  {
    var ok := exists i, j | 0 < i < j < |s| :: IsMatchAt(s, i, j);
    if ok then
      var i, j :| 0 < i < j < |s| && IsMatchAt(s, i, j);
      assert IsPatternSplit(s, s[..i], s[i + 1..j], s[j + 1..]) by {
        assert s == s[..i] + ['@'] + s[i + 1..j] + ['.'] + s[j + 1..];
      }
      true
    else
      assert !MatchesEmailPattern(s) by {
        forall local, host, rest | IsPatternSplit(s, local, host, rest)
          ensures false
        {
          SplitIsMatch(s, local, host, rest);
        }
      }
      false
  }

  lemma SplitIsMatch(s: string, local: string, host: string, rest: string)
    requires IsPatternSplit(s, local, host, rest)
    ensures IsMatchAt(s, |local|, |local| + 1 + |host|)
  {
    var i, j := |local|, |local| + 1 + |host|;
    assert s[..i] == local;
    assert s[i + 1..j] == host;
    assert s[j + 1..] == rest;
  }

  // ---------------------------------------------------------------------------
  // A plain characterisation of the email pattern
  // ---------------------------------------------------------------------------

  predicate NoWhitespace(s: string) {
    forall i :: 0 <= i < |s| ==> !IsWs(s[i])
  }

  /** Position `k` holds the only '@' of `s`. */
  predicate OnlyAtSignAt(s: string, k: int) {
    0 <= k < |s| && s[k] == '@' && forall m :: 0 <= m < |s| && s[m] == '@' ==> m == k
  }

  /** `d` has a '.' with at least one character on each side. */
  predicate HasInteriorDot(d: string) {
    exists j :: 0 < j < |d| - 1 && d[j] == '.'
  }

  /** No whitespace; exactly one '@', not in first position; and the part after
      the '@' has a '.' with text on both sides. */
  ghost predicate HasSimpleEmailShape(s: string) {
    NoWhitespace(s) &&
    exists k :: 0 < k && OnlyAtSignAt(s, k) && HasInteriorDot(s[k + 1..])
  }

  /** The regular expression accepts exactly the strings of the plain shape. */
  lemma {:induction false} EmailPatternIffSimpleShape(s: string)
    ensures MatchesEmailPattern(s) <==> HasSimpleEmailShape(s)
  {
    if MatchesEmailPattern(s) {
      var local, host, rest :| IsPatternSplit(s, local, host, rest);
      SimpleShapeOfSplit(s, local, host, rest);
    }
    if HasSimpleEmailShape(s) {
      var k :| 0 < k && OnlyAtSignAt(s, k) && HasInteriorDot(s[k + 1..]);
      var d := s[k + 1..];
      var j :| 0 < j < |d| - 1 && d[j] == '.';
      SplitOfSimpleShape(s, k, j);
    }
  }

  lemma SimpleShapeOfSplit(s: string, local: string, host: string, rest: string)
    requires IsPatternSplit(s, local, host, rest)
    ensures HasSimpleEmailShape(s)
  {
    var k := |local|;
    var j := |host|;
    forall m | 0 <= m < |s| ensures !IsWs(s[m]) && (s[m] == '@' ==> m == k) {
      if m < k {
        assert s[m] == local[m];
      } else if k < m < k + 1 + j {
        assert s[m] == host[m - k - 1];
      } else if k + 1 + j < m {
        assert s[m] == rest[m - k - 2 - j];
      }
    }
    assert OnlyAtSignAt(s, k);
    assert s[k + 1..][j] == '.';
    assert HasInteriorDot(s[k + 1..]);
  }

  lemma SplitOfSimpleShape(s: string, k: int, j: int)
    requires NoWhitespace(s) && 0 < k && OnlyAtSignAt(s, k)
    requires 0 < j < |s[k + 1..]| - 1 && s[k + 1..][j] == '.'
    ensures MatchesEmailPattern(s)
  {
    var local, host, rest := s[..k], s[k + 1..k + 1 + j], s[k + 2 + j..];
    forall m | 0 <= m < |s| && m != k ensures IsPatternChar(s[m]) {
    }
    assert forall m :: 0 <= m < |local| ==> local[m] == s[m];
    assert forall m :: 0 <= m < |host| ==> host[m] == s[k + 1 + m];
    assert forall m :: 0 <= m < |rest| ==> rest[m] == s[k + 2 + j + m];
    assert s == local + ['@'] + host + ['.'] + rest;
    assert IsPatternSplit(s, local, host, rest);
  }

  // ---------------------------------------------------------------------------
  // What the email test accepts and rejects
  // ---------------------------------------------------------------------------

  lemma AcceptsSampleAddress()
    ensures ValidateEmail("a@b.com")
  {
    var s := "a@b.com";
    assert s == "a" + ['@'] + "b" + ['.'] + "com";
    assert IsPatternSplit(s, "a", "b", "com");
  }

  lemma RejectsFoo()
    ensures !ValidateEmail("foo")
  {
    EmailPatternIffSimpleShape("foo");
  }

  lemma RejectsEmpty()
    ensures !ValidateEmail("")
  {
    EmailPatternIffSimpleShape("");
  }

  lemma RejectsWhitespace(s: string, i: int)
    requires 0 <= i < |s| && IsWs(s[i])
    ensures !ValidateEmail(s)
  {
    EmailPatternIffSimpleShape(s);
  }

  lemma RejectsTwoAtSigns(s: string, a: int, b: int)
    requires 0 <= a < b < |s| && s[a] == '@' && s[b] == '@'
    ensures !ValidateEmail(s)
  {
    EmailPatternIffSimpleShape(s);
  }

  lemma RejectsEmptyLocalPart(s: string)
    requires |s| > 0 && s[0] == '@'
    ensures !ValidateEmail(s)
  {
    EmailPatternIffSimpleShape(s);
  }

  lemma RejectsDomainWithoutInteriorDot(s: string, k: int)
    requires 0 <= k < |s| && s[k] == '@' && !HasInteriorDot(s[k + 1..])
    ensures !ValidateEmail(s)
  {
    EmailPatternIffSimpleShape(s);
  }

  // ---------------------------------------------------------------------------
  // validatePassword: password.length >= 6
  // ---------------------------------------------------------------------------

  /** Number of UTF-16 code units JavaScript uses for `c`. */
  function CodeUnits(c: char): nat {
    if c as int >= 0x10000 then 2 else 1
  }

  /** JavaScript's `length` of a string: its count of UTF-16 code units. */
  function Utf16Length(s: string): (n: nat)
    ensures |s| <= n <= 2 * |s|
    ensures n == 0 <==> s == []
  {
    if s == [] then 0 else CodeUnits(s[0]) + Utf16Length(s[1..])
  }

  predicate IsBmp(s: string) {
    forall i :: 0 <= i < |s| ==> s[i] as int < 0x10000
  }

  /** For text in the Basic Multilingual Plane `length` is the character count. */
  lemma {:induction false} Utf16LengthOfBmp(s: string)
    requires IsBmp(s)
    ensures Utf16Length(s) == |s|
  {
    if s != [] {
      assert IsBmp(s[1..]) by {
        forall i | 0 <= i < |s[1..]| ensures s[1..][i] as int < 0x10000 {
          assert s[1..][i] == s[i + 1];
        }
      }
      Utf16LengthOfBmp(s[1..]);
    }
  }

  const MinPasswordLength: nat := 6

  /** `validatePassword`. For text in the Basic Multilingual Plane the rule is
      "at least six characters". */
  function ValidatePassword(p: string): (ok: bool)
    ensures IsBmp(p) ==> (ok <==> |p| >= MinPasswordLength)
  {
    assert IsBmp(p) ==> Utf16Length(p) == |p| by {
      if IsBmp(p) { Utf16LengthOfBmp(p); }
    }
    Utf16Length(p) >= MinPasswordLength
  }

  lemma PasswordSamples()
    ensures !ValidatePassword("12345")
    ensures ValidatePassword("123456")
  {
    Utf16LengthOfBmp("12345");
    Utf16LengthOfBmp("123456");
  }

  /** Three characters outside the Basic Multilingual Plane are six code units,
      so they pass the length rule. */
  lemma AstralPasswordCountsCodeUnits()
    ensures ValidatePassword("\U{1F600}\U{1F600}\U{1F600}")
  {
  }

  // ---------------------------------------------------------------------------
  // Messages and the error record
  // ---------------------------------------------------------------------------

  const EmailRequiredMessage: string := "Email is required"
  const InvalidEmailMessage: string := "Please enter a valid email"
  const PasswordRequiredMessage: string := "Password is required"
  const PasswordTooShortMessage: string := "Password must be at least 6 characters"

  /** The `errors` record: an optional message per field. */
  datatype FieldErrors = FieldErrors(email: Option<string>, password: Option<string>) {
    /** `Object.keys(errors).length === 0` for a freshly built record. */
    predicate IsEmpty() {
      email.None? && password.None?
    }
  }

  const NoErrors: FieldErrors := FieldErrors(None, None)

  /** The email part of a submit attempt's error record. */
  function EmailError(email: string): (r: Option<string>)
    ensures r == Some(EmailRequiredMessage) <==> email == []
    ensures r == Some(InvalidEmailMessage) <==> email != [] && !MatchesEmailPattern(email)
    ensures r == None <==> MatchesEmailPattern(email)
  {
    if email == [] then
      RejectsEmpty();
      Some(EmailRequiredMessage)
    else if !ValidateEmail(email) then Some(InvalidEmailMessage)
    else None
  }

  /** The password part of a submit attempt's error record. */
  function PasswordError(password: string): (r: Option<string>)
    ensures r == Some(PasswordRequiredMessage) <==> password == []
    ensures r == Some(PasswordTooShortMessage) <==> 0 < Utf16Length(password) < MinPasswordLength
    ensures r == None <==> Utf16Length(password) >= MinPasswordLength
  {
    if password == [] then Some(PasswordRequiredMessage)
    else if !ValidatePassword(password) then Some(PasswordTooShortMessage)
    else None
  }

  /** The record `newErrors` that `handleContinue` builds. */
  function ValidationErrors(email: string, password: string): (r: FieldErrors)
    ensures r.IsEmpty() <==> MatchesEmailPattern(email) && Utf16Length(password) >= MinPasswordLength
  {
    FieldErrors(EmailError(email), PasswordError(password))
  }

  /** Every message a field can hold is one of the four texts, and none is empty. */
  predicate IsEmailMessage(m: Option<string>) {
    m == None || m == Some(EmailRequiredMessage) || m == Some(InvalidEmailMessage)
  }

  predicate IsPasswordMessage(m: Option<string>) {
    m == None || m == Some(PasswordRequiredMessage) || m == Some(PasswordTooShortMessage)
  }

  lemma ValidationErrorsUseFieldMessages(email: string, password: string)
    ensures IsEmailMessage(ValidationErrors(email, password).email)
    ensures IsPasswordMessage(ValidationErrors(email, password).password)
  {
  }

  lemma SampleValidationErrors()
    ensures ValidationErrors("", "") == FieldErrors(Some(EmailRequiredMessage), Some(PasswordRequiredMessage))
    ensures ValidationErrors("foo", "12345") == FieldErrors(Some(InvalidEmailMessage), Some(PasswordTooShortMessage))
    ensures ValidationErrors("a@b.com", "123456") == NoErrors
  {
    RejectsFoo();
    AcceptsSampleAddress();
    PasswordSamples();
  }
}
