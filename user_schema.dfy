/** Validation of a sign-up request and creation of the user document
    (schemas/user.schema.ts). */
module UserSchema {
  import opened JsValues

  datatype UserInput = UserInput(firstName: string, lastName: string, email: string, phone: string)

  datatype User = User(
    firstName: string,
    lastName: string,
    email: string,
    phone: string,
    createdAt: string,
    updatedAt: string)

  const NamesRequired := "First name and last name are required"
  const InvalidEmail := "Invalid email format"
  const InvalidPhone := "Phone number must be 11 digits"

  // ---------------------------------------------------------------------------
  // Email: the regular expression ^[^\s@]+@[^\s@]+\.[^\s@]+$

  /** A character of the class `[^\s@]`. */
  predicate EmailChar(c: char) {
    !IsWhitespace(c) && c != '@'
  }

  /** A string matched by `[^\s@]+`. */
  predicate EmailRun(s: string) {
    |s| > 0 && forall i :: 0 <= i < |s| ==> EmailChar(s[i])
  }

  /** The language of the email regular expression: a run, `@`, a run, `.`, a run. */
  ghost predicate MatchesEmailPattern(s: string) {
    exists at, dot ::
      && 0 <= at < dot < |s| && s[at] == '@' && s[dot] == '.'
      && EmailRun(s[..at]) && EmailRun(s[at + 1..dot]) && EmailRun(s[dot + 1..])
  }

  /** The index of the first `c` in `s`, or `|s|` when there is none. */
  function IndexOf(s: string, c: char): (i: nat)
    ensures i <= |s|
    ensures i < |s| ==> s[i] == c
    ensures forall j :: 0 <= j < i ==> s[j] != c
  {
    if s == [] then 0
    else if s[0] == c then 0
    else 1 + IndexOf(s[1..], c)
  }

  predicate NoWhitespace(s: string) {
    forall i :: 0 <= i < |s| ==> !IsWhitespace(s[i])
  }

  /** A `.` with at least one character on each side. */
  predicate HasInnerDot(s: string) {
    exists k :: 0 < k < |s| - 1 && s[k] == '.'
  }

  /** The email check read as a scan: no whitespace, exactly one `@` with text
      on both sides, and a `.` inside the part after the `@`. */
  predicate IsValidEmail(s: string) {
    var at := IndexOf(s, '@');
    && NoWhitespace(s)
    && 0 < at < |s| - 1
    && '@' !in s[at + 1..]
    && HasInnerDot(s[at + 1..])
  }

  lemma ScanAcceptsOnlyPatternMatches(s: string)
    requires IsValidEmail(s)
    ensures MatchesEmailPattern(s)
  {
    var at := IndexOf(s, '@');
    var host := s[at + 1..];
    var k :| 0 < k < |host| - 1 && host[k] == '.';
    var dot := at + 1 + k;
    assert s[at + 1..dot] == host[..k];
    assert s[dot + 1..] == host[k + 1..];
    assert forall i :: 0 <= i < |host| ==> host[i] != '@';
    assert EmailRun(s[..at]);
    assert EmailRun(s[at + 1..dot]);
    assert EmailRun(s[dot + 1..]);
  }

  lemma PatternMatchesPassScan(s: string)
    requires MatchesEmailPattern(s)
    ensures IsValidEmail(s)
  {
    var at, dot :| && 0 <= at < dot < |s| && s[at] == '@' && s[dot] == '.'
                   && EmailRun(s[..at]) && EmailRun(s[at + 1..dot]) && EmailRun(s[dot + 1..]);
    forall i | 0 <= i < |s| && i != at && i != dot
      ensures EmailChar(s[i])
    {
      if i < at {
        assert s[i] == s[..at][i];
      } else if i < dot {
        assert s[i] == s[at + 1..dot][i - at - 1];
      } else {
        assert s[i] == s[dot + 1..][i - dot - 1];
      }
    }
    assert IndexOf(s, '@') == at;
    assert NoWhitespace(s);
    var host := s[at + 1..];
    assert forall j :: 0 <= j < |host| ==> host[j] == s[at + 1 + j];
    assert '@' !in host;
    assert host[dot - at - 1] == '.';
  }

  /** The scan accepts exactly the strings the regular expression matches. */
  lemma EmailCheckMatchesPattern(s: string)
    ensures IsValidEmail(s) <==> MatchesEmailPattern(s)
  {
    if IsValidEmail(s) {
      ScanAcceptsOnlyPatternMatches(s);
    }
    if MatchesEmailPattern(s) {
      PatternMatchesPassScan(s);
    }
  }

  // ---------------------------------------------------------------------------
  // Phone: the regular expression ^\d{11}$

  /** Exactly eleven ASCII digits. */
  predicate IsPhone(s: string) {
    |s| == 11 && forall i :: 0 <= i < |s| ==> '0' <= s[i] <= '9'
  }

  // ---------------------------------------------------------------------------
  // Validation and document creation

  /** Both names hold something other than whitespace. */
  predicate NamesPresent(d: UserInput) {
    !AllWhitespace(d.firstName) && !AllWhitespace(d.lastName)
  }

  /** `validateUserData`: names, then email, then phone; the first failure's
      message, or `None` (null) when all pass. */
  function ValidateUserData(d: UserInput): (r: Option<string>)
    ensures r.None? <==> NamesPresent(d) && MatchesEmailPattern(d.email) && IsPhone(d.phone)
    ensures !NamesPresent(d) ==> r == Some(NamesRequired)
    ensures NamesPresent(d) && !MatchesEmailPattern(d.email) ==> r == Some(InvalidEmail)
    ensures NamesPresent(d) && MatchesEmailPattern(d.email) && !IsPhone(d.phone) ==> r == Some(InvalidPhone)
  {
    TrimEmptyIffAllWhitespace(d.firstName);
    TrimEmptyIffAllWhitespace(d.lastName);
    EmailCheckMatchesPattern(d.email);
    if Trim(d.firstName) == "" || Trim(d.lastName) == "" then
      Some(NamesRequired)
    else if !IsValidEmail(d.email) then
      Some(InvalidEmail)
    else if !IsPhone(d.phone) then
      Some(InvalidPhone)
    else
      None
  }

  /** The request fields of a user document. */
  function InputOf(u: User): UserInput {
    UserInput(u.firstName, u.lastName, u.email, u.phone)
  }

  /** `createUserDocument`: the request fields unchanged, both timestamps set
      to the same instant `now` (an ISO-8601 string supplied by the clock). */
  function CreateUserDocument(d: UserInput, now: string): (u: User)
    ensures u.createdAt == now && u.updatedAt == now
    ensures InputOf(u) == d
  {
    User(d.firstName, d.lastName, d.email, d.phone, now, now)
  }
}
