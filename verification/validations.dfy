/**
 * The client-side form validators of reactjs-client/src/utils/validations.ts.
 *
 * Each validator runs its checks in a fixed order and reports the message of
 * the first check that fails, or `None` (JavaScript's `undefined`) when the
 * input is accepted. The regular expressions of the source are restated as
 * predicates over `seq<char>`.
 */
module Validations {
  import opened Outcomes
  import Js
  import Seqs

  const EmailRequired := "Email is required"
  const EmailInvalid := "Please enter a valid email address"
  const NameRequired := "Name is required"
  const NameTooShort := "Name must be at least 3 characters long"
  const PasswordRequired := "Password is required"
  const PasswordTooShort := "Password must be at least 8 characters long"
  const PasswordNeedsLetter := "Password must contain at least one letter"
  const PasswordNeedsNumber := "Password must contain at least one number"
  const PasswordNeedsSpecial := "Password must contain at least one special character"

  const NameMinLength := 3
  const PasswordMinLength := 8

  /* ---------------------------------------------------------------------- */
  /* Ordered checks                                                          */
  /* ---------------------------------------------------------------------- */

  /** One check of a validator: whether it passes, and what it reports when it does not. */
  datatype Rule = Rule(holds: bool, message: string)

  /** The message of the first rule that fails, if any. This is the reference
      reading of a chain of `if (!check) return message;` statements. */
  function FirstFailure(rules: seq<Rule>): (r: Option<string>)
    ensures r.None? <==> forall i | 0 <= i < |rules| :: rules[i].holds
    ensures r.Some? ==>
      exists i | 0 <= i < |rules| ::
        && !rules[i].holds
        && rules[i].message == r.value
        && forall j | 0 <= j < i :: rules[j].holds
  {
    if |rules| == 0 then None
    else if !rules[0].holds then Some(rules[0].message)
    else
      var r := FirstFailure(rules[1..]);
      assert forall i | 1 <= i < |rules| :: rules[i] == rules[1..][i - 1];
      r
  }

  /* ---------------------------------------------------------------------- */
  /* Character classes                                                       */
  /* ---------------------------------------------------------------------- */

  /** The JavaScript regular-expression class `\s`: the ECMAScript WhiteSpace
      and LineTerminator code points. */
  predicate IsSpace(c: char) {
    || c == '\t' || c == '\n' || c == '\U{000B}' || c == '\U{000C}' || c == '\r'
    || c == ' ' || c == '\U{00A0}' || c == '\U{1680}'
    || ('\U{2000}' <= c <= '\U{200A}')
    || c == '\U{2028}' || c == '\U{2029}' || c == '\U{202F}' || c == '\U{205F}'
    || c == '\U{3000}' || c == '\U{FEFF}'
  }

  /** The class `[^\s@]`. */
  predicate IsPlain(c: char) {
    !IsSpace(c) && c != '@'
  }

  /** `t` consists only of characters of `[^\s@]`. */
  predicate AllPlain(t: string) {
    forall i | 0 <= i < |t| :: IsPlain(t[i])
  }

  /** The class `[a-zA-Z]`. */
  predicate IsAsciiLetter(c: char) {
    ('a' <= c <= 'z') || ('A' <= c <= 'Z')
  }

  /** The class `\d`, which in JavaScript is exactly `[0-9]`. */
  predicate IsDigit(c: char) {
    '0' <= c <= '9'
  }

  /** The members of `[!@#$%^&*()_+\-=\[\]{};':"\\|,.<>\/?]`, escapes resolved. */
  const SpecialChars: set<char> := {
    '!', '@', '#', '$', '%', '^', '&', '*', '(', ')', '_', '+', '-', '=', '[', ']',
    '{', '}', ';', '\'', ':', '"', '\\', '|', ',', '.', '<', '>', '/', '?'
  }

  predicate IsSpecial(c: char) {
    c in SpecialChars
  }

  /** The 32 printable ASCII characters that are neither letters, digits nor space. */
  predicate IsAsciiPunctuation(c: char) {
    ('!' <= c <= '/') || (':' <= c <= '@') || ('[' <= c <= '`') || ('{' <= c <= '~')
  }

  /* ---------------------------------------------------------------------- */
  /* validateEmail                                                          */
  /* ---------------------------------------------------------------------- */

  /** `/^[^\s@]+@[^\s@]+\.[^\s@]+$/.test(s)`: the string splits as
      plain `@` plain `.` plain, each plain run non-empty. */
  predicate EmailRegexTest(s: string) {
    exists at, dot | 0 < at < |s| && at + 1 < dot < |s| - 1 ::
      && s[at] == '@'
      && s[dot] == '.'
      && AllPlain(s[..at])
      && AllPlain(s[at + 1..dot])
      && AllPlain(s[dot + 1..])
  }

  /** The domain part has a `.` with at least one character on each side. */
  predicate HasInnerDot(d: string) {
    exists k | 0 < k < |d| - 1 :: d[k] == '.'
  }

  predicate IsAtSign(c: char) {
    c == '@'
  }

  /** The position of the first `@`, or `|s|` when there is none. */
  function AtIndex(s: string): nat {
    Seqs.FirstWhere(s, IsAtSign)
  }

  /** The accepted shape of an address, stated without the regular expression:
      no whitespace anywhere, exactly one `@`, a non-empty part before it, and a
      domain after it with an inner `.`. */
  predicate EmailShape(s: string) {
    var at := AtIndex(s);
    && (forall i | 0 <= i < |s| :: !IsSpace(s[i]))
    && multiset(s)['@'] == 1
    && 0 < at < |s|
    && HasInnerDot(s[at + 1..])
  }

  function ValidateEmail(email: string): (r: Option<string>)
    ensures r == Some(EmailRequired) <==> |email| == 0
    ensures r.None? <==> EmailShape(email)
    ensures r.Some? ==> r.value == EmailRequired || r.value == EmailInvalid
  {
    EmailRegexIffShape(email);
    if |email| == 0 then Some(EmailRequired)
    else if !EmailRegexTest(email) then Some(EmailInvalid)
    else None
  }

  /** Every character other than the one at `at` belongs to `[^\s@]`. */
  ghost predicate PlainExceptAt(s: string, at: int) {
    forall i | 0 <= i < |s| && i != at :: IsPlain(s[i])
  }

  /** Two occurrences of `c` at distinct positions count twice in the multiset. */
  lemma {:induction false} TwoOccurrences(s: string, c: char, i: int, j: int)
    requires 0 <= i < j < |s| && s[i] == c && s[j] == c
    ensures multiset(s)[c] >= 2
  {
    assert s == s[..j] + s[j..];
    assert s[..j][i] == c;
    assert s[j..][0] == c;
    assert multiset(s) == multiset(s[..j]) + multiset(s[j..]);
  }

  /** A string whose only `@` is at `at` has one `@`, found first at `at`. */
  lemma {:induction false} SingleAtSign(s: string, at: int)
    requires 0 <= at < |s| && s[at] == '@' && PlainExceptAt(s, at)
    ensures multiset(s)['@'] == 1
    ensures AtIndex(s) == at
  {
    var pre, post := s[..at], s[at + 1..];
    assert s == pre + [s[at]] + post;
    assert '@' !in pre by {
      forall i | 0 <= i < |pre| ensures pre[i] != '@' { assert pre[i] == s[i]; }
    }
    assert '@' !in post by {
      forall i | 0 <= i < |post| ensures post[i] != '@' { assert post[i] == s[at + 1 + i]; }
    }
    assert multiset(s) == multiset(pre) + multiset{'@'} + multiset(post);
  }

  /** The three plain runs of a regex match cover every position but the `@`. */
  lemma {:induction false} RegexRunsArePlain(s: string, at: int, dot: int)
    requires 0 < at < |s| && at + 1 < dot < |s| - 1 && s[dot] == '.'
    requires AllPlain(s[..at]) && AllPlain(s[at + 1..dot]) && AllPlain(s[dot + 1..])
    ensures PlainExceptAt(s, at)
  {
  }

  lemma {:induction false} EmailRegexImpliesShape(s: string)
    requires EmailRegexTest(s)
    ensures EmailShape(s)
  {
    var at, dot :| 0 < at < |s| && at + 1 < dot < |s| - 1
      && s[at] == '@' && s[dot] == '.'
      && AllPlain(s[..at]) && AllPlain(s[at + 1..dot]) && AllPlain(s[dot + 1..]);
    RegexRunsArePlain(s, at, dot);
    SingleAtSign(s, at);
    var post := s[at + 1..];
    assert post[dot - at - 1] == '.';
  }

  /** In an address of the accepted shape no `@` follows the first one. */
  lemma {:induction false} ShapeHasSingleAt(s: string)
    requires EmailShape(s)
    ensures PlainExceptAt(s, AtIndex(s))
  {
    var at := AtIndex(s);
    forall i | 0 <= i < |s| && i != at
      ensures IsPlain(s[i])
    {
      if s[i] == '@' && i > at {
        TwoOccurrences(s, '@', at, i);
      }
    }
  }

  lemma {:induction false} EmailShapeImpliesRegex(s: string)
    requires EmailShape(s)
    ensures EmailRegexTest(s)
  {
    var at := AtIndex(s);
    ShapeHasSingleAt(s);
    var post := s[at + 1..];
    var k :| 0 < k < |post| - 1 && post[k] == '.';
    var dot := at + 1 + k;
    assert s[dot] == '.';
    var pre, mid, rest := s[..at], s[at + 1..dot], s[dot + 1..];
    assert AllPlain(pre) by {
      forall i | 0 <= i < |pre| ensures IsPlain(pre[i]) { assert pre[i] == s[i]; }
    }
    assert AllPlain(mid) by {
      forall i | 0 <= i < |mid| ensures IsPlain(mid[i]) { assert mid[i] == s[at + 1 + i]; }
    }
    assert AllPlain(rest) by {
      forall i | 0 <= i < |rest| ensures IsPlain(rest[i]) { assert rest[i] == s[dot + 1 + i]; }
    }
  }

  /** The regular expression accepts exactly the strings of the described shape. */
  lemma EmailRegexIffShape(s: string)
    ensures EmailRegexTest(s) <==> EmailShape(s)
  {
    if EmailRegexTest(s) { EmailRegexImpliesShape(s); }
    if EmailShape(s) { EmailShapeImpliesRegex(s); }
  }

  /** The ordered checks of validateEmail. */
  function EmailRules(email: string): seq<Rule> {
    [Rule(|email| > 0, EmailRequired), Rule(EmailRegexTest(email), EmailInvalid)]
  }

  lemma {:induction false} ValidateEmailIsFirstFailure(email: string)
    ensures ValidateEmail(email) == FirstFailure(EmailRules(email))
  {
  }

  /** The empty address is reported as missing, not as malformed. */
  lemma EmptyEmailIsRequired()
    ensures ValidateEmail("") == Some(EmailRequired)
  {
  }

  /* ---------------------------------------------------------------------- */
  /* validateName                                                           */
  /* ---------------------------------------------------------------------- */

  function ValidateName(name: string): (r: Option<string>)
    ensures r == Some(NameRequired) <==> |name| == 0
    ensures r == Some(NameTooShort) <==> 0 < |name| < NameMinLength
    ensures r.None? <==> |name| >= NameMinLength
  {
    if |name| == 0 then Some(NameRequired)
    else if |name| < NameMinLength then Some(NameTooShort)
    else None
  }

  /** The ordered checks of validateName. */
  function NameRules(name: string): seq<Rule> {
    [Rule(|name| > 0, NameRequired), Rule(|name| >= NameMinLength, NameTooShort)]
  }

  lemma {:induction false} ValidateNameIsFirstFailure(name: string)
    ensures ValidateName(name) == FirstFailure(NameRules(name))
  {
  }

  /* ---------------------------------------------------------------------- */
  /* validatePassword                                                       */
  /* ---------------------------------------------------------------------- */

  predicate HasLetter(p: string) {
    exists i | 0 <= i < |p| :: IsAsciiLetter(p[i])
  }

  predicate HasDigit(p: string) {
    exists i | 0 <= i < |p| :: IsDigit(p[i])
  }

  predicate HasSpecial(p: string) {
    exists i | 0 <= i < |p| :: IsSpecial(p[i])
  }

  /** What the password validator accepts, as one conjunction. */
  predicate IsStrongPassword(p: string) {
    |p| >= PasswordMinLength && HasLetter(p) && HasDigit(p) && HasSpecial(p)
  }

  function ValidatePassword(password: string): (r: Option<string>)
    ensures r.None? <==> IsStrongPassword(password)
    ensures r == Some(PasswordRequired) <==> |password| == 0
  {
    if |password| == 0 then Some(PasswordRequired)
    else if |password| < PasswordMinLength then Some(PasswordTooShort)
    else if !HasLetter(password) then Some(PasswordNeedsLetter)
    else if !HasDigit(password) then Some(PasswordNeedsNumber)
    else if !HasSpecial(password) then Some(PasswordNeedsSpecial)
    else None
  }

  /** The ordered checks of validatePassword. */
  function PasswordRules(p: string): seq<Rule> {
    [ Rule(|p| > 0, PasswordRequired),
      Rule(|p| >= PasswordMinLength, PasswordTooShort),
      Rule(HasLetter(p), PasswordNeedsLetter),
      Rule(HasDigit(p), PasswordNeedsNumber),
      Rule(HasSpecial(p), PasswordNeedsSpecial) ]
  }

  /** validatePassword reports the first failing check, in the order
      empty, length, letter, digit, special. */
  lemma {:induction false} ValidatePasswordIsFirstFailure(p: string)
    ensures ValidatePassword(p) == FirstFailure(PasswordRules(p))
  {
    var rules := PasswordRules(p);
    assert rules[4..][1..] == [];
    assert FirstFailure(rules[4..])
      == (if HasSpecial(p) then None else Some(PasswordNeedsSpecial));
    assert rules[3..][1..] == rules[4..];
    assert FirstFailure(rules[3..])
      == (if HasDigit(p) then FirstFailure(rules[4..]) else Some(PasswordNeedsNumber));
    assert rules[2..][1..] == rules[3..];
    assert FirstFailure(rules[2..])
      == (if HasLetter(p) then FirstFailure(rules[3..]) else Some(PasswordNeedsLetter));
    assert rules[1..][1..] == rules[2..];
    assert FirstFailure(rules[1..])
      == (if |p| >= PasswordMinLength then FirstFailure(rules[2..]) else Some(PasswordTooShort));
  }

  /** The special-character class is ASCII punctuation without backtick and tilde. */
  lemma SpecialIsPunctuationButBacktickAndTilde(c: char)
    ensures IsSpecial(c) <==> IsAsciiPunctuation(c) && c != '`' && c != '~'
  {
  }

  /** Space, backtick and tilde never satisfy the special-character requirement. */
  lemma SpaceBacktickTildeAreNotSpecial()
    ensures !IsSpecial(' ') && !IsSpecial('`') && !IsSpecial('~')
  {
  }

  /* ---------------------------------------------------------------------- */
  /* validateForm                                                           */
  /* ---------------------------------------------------------------------- */

  /** The `ValidationErrors` record: a key is present when it is `Some`. */
  datatype ValidationErrors = ValidationErrors(
    email: Option<string>,
    password: Option<string>,
    name: Option<string>)

  const NoErrors := ValidationErrors(None, None, None)

  /** `name` is `None` when the argument is `undefined` (the sign-in form). */
  function ValidateForm(email: string, password: string, name: Option<string>): (r: ValidationErrors)
    ensures r.email == ValidateEmail(email)
    ensures r.password == ValidatePassword(password)
    ensures name.None? ==> r.name.None?
    ensures name.Some? ==> r.name == ValidateName(name.value)
    ensures r == NoErrors <==>
      && ValidateEmail(email).None?
      && ValidatePassword(password).None?
      && (name.Some? ==> ValidateName(name.value).None?)
  {
    var emailError := ValidateEmail(email);
    var passwordError := ValidatePassword(password);
    var nameError := if name.Some? then ValidateName(name.value) else None;
    ValidationErrors(
      if Js.Truthy(emailError) then emailError else None,
      if Js.Truthy(passwordError) then passwordError else None,
      if Js.Truthy(nameError) then nameError else None)
  }

  /** A sign-up form with no errors carries an address of the accepted shape,
      a name of at least three characters and a strong password. */
  lemma CleanSignupForm(email: string, password: string, name: string)
    requires ValidateForm(email, password, Some(name)) == NoErrors
    ensures EmailShape(email) && |name| >= NameMinLength && IsStrongPassword(password)
  {
  }
}
