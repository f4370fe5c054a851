/**
  The login form's field checks: an email shape and a password strength
  rule, each reported as a message ("" when the field is acceptable).
  The two regular expressions of the source are given here twice: as the
  language they denote (a split of the string into parts) and as a direct
  scan, with a proof that the two agree.
 */
module LoginValidation {

  /** `\s` of JavaScript regular expressions: ECMAScript white space and line terminators. */
  predicate IsSpace(c: char)
  {
    c == ' ' || c == '\t' || c == '\n' || c == '\U{000B}' || c == '\U{000C}' || c == '\r'
    || c == '\U{00A0}' || c == '\U{1680}' || ('\U{2000}' <= c <= '\U{200A}')
    || c == '\U{2028}' || c == '\U{2029}' || c == '\U{202F}' || c == '\U{205F}'
    || c == '\U{3000}' || c == '\U{FEFF}'
  }

  /** The characters `.` does not match: ECMAScript line terminators. */
  predicate IsLineTerminator(c: char)
  {
    c == '\n' || c == '\r' || c == '\U{2028}' || c == '\U{2029}'
  }

  /** `[^\s@]`. */
  predicate EmailChar(c: char)
  {
    !IsSpace(c) && c != '@'
  }

  predicate AllEmailChars(s: string)
  {
    forall i :: 0 <= i < |s| ==> EmailChar(s[i])
  }

  /**
    The language of `^[^\s@]+@[^\s@]+\.[^\s@]+$`: the string splits into a
    non-empty local part, `@`, a non-empty part, `.`, and a non-empty
    part, none of the three parts holding white space or `@`.
   */
  ghost predicate MatchesEmailPattern(s: string)
  {
    exists at, dot :: 0 < at && at + 1 < dot && dot + 1 < |s| && s[at] == '@' && s[dot] == '.'
      && AllEmailChars(s[..at]) && AllEmailChars(s[at + 1..dot]) && AllEmailChars(s[dot + 1..])
  }

  /** Position of the first `@`, or `|s|` when there is none. */
  function FirstAt(s: string): (p: nat)
    ensures p <= |s|
    ensures p < |s| ==> s[p] == '@'
    ensures forall i :: 0 <= i < p ==> s[i] != '@'
  {
    if |s| == 0 then 0
    else if s[0] == '@' then 0
    else 1 + FirstAt(s[1..])
  }

  /** A `.` with at least one character on each side. */
  predicate HasInnerDot(d: string)
  {
    exists k :: 0 < k < |d| - 1 && d[k] == '.'
  }

  /** The direct check: no white space, exactly one `@` with text before it, and an inner `.` after it. */
  predicate EmailShape(s: string)
  {
    var p := FirstAt(s);
    (forall i :: 0 <= i < |s| ==> !IsSpace(s[i]))
    && 0 < p < |s|
    && (forall i :: p < i < |s| ==> s[i] != '@')
    && HasInnerDot(s[p + 1..])
  }

  /** A slice consists of email characters when every position it covers holds one. */
  lemma AllEmailCharsSlice(s: string, lo: int, hi: int)
    requires 0 <= lo <= hi <= |s|
    ensures AllEmailChars(s[lo..hi]) <==> forall i :: lo <= i < hi ==> EmailChar(s[i])
  {
    assert forall i :: lo <= i < hi ==> s[lo..hi][i - lo] == s[i];
  }

  lemma ShapeGivesPattern(s: string)
    requires EmailShape(s)
    ensures MatchesEmailPattern(s)
  {
    var p := FirstAt(s);
    var d := s[p + 1..];
    var k :| 0 < k < |d| - 1 && d[k] == '.';
    var dot := p + 1 + k;
    assert s[dot] == d[k];
    AllEmailCharsSlice(s, 0, p);
    AllEmailCharsSlice(s, p + 1, dot);
    AllEmailCharsSlice(s, dot + 1, |s|);
    assert s[..p] == s[0..p];
    assert s[dot + 1..] == s[dot + 1..|s|];
  }

  lemma PatternGivesShape(s: string)
    requires MatchesEmailPattern(s)
    ensures EmailShape(s)
  {
    var at, dot :| 0 < at && at + 1 < dot && dot + 1 < |s| && s[at] == '@' && s[dot] == '.'
      && AllEmailChars(s[..at]) && AllEmailChars(s[at + 1..dot]) && AllEmailChars(s[dot + 1..]);
    assert s[..at] == s[0..at];
    assert s[dot + 1..] == s[dot + 1..|s|];
    AllEmailCharsSlice(s, 0, at);
    AllEmailCharsSlice(s, at + 1, dot);
    AllEmailCharsSlice(s, dot + 1, |s|);
    var p := FirstAt(s);
    assert p == at;
    assert forall i :: 0 <= i < |s| && i != at && i != dot ==> EmailChar(s[i]);
    assert s[p + 1..][dot - p - 1] == '.';
  }

  /** The direct check accepts exactly the strings the pattern matches. */
  lemma EmailShapeIsPattern(s: string)
    ensures EmailShape(s) <==> MatchesEmailPattern(s)
  {
    if EmailShape(s) {
      ShapeGivesPattern(s);
    }
    if MatchesEmailPattern(s) {
      PatternGivesShape(s);
    }
  }

  predicate IsDigit(c: char) { '0' <= c <= '9' }
  predicate IsLower(c: char) { 'a' <= c <= 'z' }
  predicate IsUpper(c: char) { 'A' <= c <= 'Z' }

  /** No line terminator occurs, so `.` matches every character. */
  predicate NoTerminator(s: string)
  {
    forall i :: 0 <= i < |s| ==> !IsLineTerminator(s[i])
  }

  /**
    The language of `^(?=.*\d)(?=.*[a-z])(?=.*[A-Z]).{8,}$`, read
    literally: each look-ahead finds its character class after a run of
    non-terminators, and the whole string is at least eight
    non-terminators.
   */
  ghost predicate MatchesPasswordPattern(s: string)
  {
    && (exists i :: 0 <= i < |s| && IsDigit(s[i]) && NoTerminator(s[..i]))
    && (exists i :: 0 <= i < |s| && IsLower(s[i]) && NoTerminator(s[..i]))
    && (exists i :: 0 <= i < |s| && IsUpper(s[i]) && NoTerminator(s[..i]))
    && |s| >= 8 && NoTerminator(s)
  }

  /** What one left-to-right pass over a password has seen. */
  datatype Seen = Seen(digit: bool, lower: bool, upper: bool, terminator: bool)

  function Scan(s: string): (r: Seen)
    ensures r.digit <==> exists i :: 0 <= i < |s| && IsDigit(s[i])
    ensures r.lower <==> exists i :: 0 <= i < |s| && IsLower(s[i])
    ensures r.upper <==> exists i :: 0 <= i < |s| && IsUpper(s[i])
    ensures r.terminator <==> exists i :: 0 <= i < |s| && IsLineTerminator(s[i])
  {
    if |s| == 0 then Seen(false, false, false, false)
    else
      var rest := Scan(s[1..]);
      assert forall i :: 0 < i < |s| ==> s[i] == s[1..][i - 1];
      assert forall i :: 0 <= i < |s| - 1 ==> s[1..][i] == s[i + 1];
      Seen(rest.digit || IsDigit(s[0]), rest.lower || IsLower(s[0]),
           rest.upper || IsUpper(s[0]), rest.terminator || IsLineTerminator(s[0]))
  }

  /** The direct check of the password rule. */
  predicate PasswordShape(s: string)
  {
    var seen := Scan(s);
    |s| >= 8 && seen.digit && seen.lower && seen.upper && !seen.terminator
  }

  /** The look-aheads add nothing once the whole string is free of terminators: one scan decides the rule. */
  lemma PasswordShapeIsPattern(s: string)
    ensures PasswordShape(s) <==> MatchesPasswordPattern(s)
  {
    if PasswordShape(s) {
      assert forall i :: 0 <= i <= |s| ==> NoTerminator(s[..i]) by {
        forall i | 0 <= i <= |s|
          ensures NoTerminator(s[..i])
        {
          assert forall j :: 0 <= j < i ==> s[..i][j] == s[j];
        }
      }
    }
  }

  const EmailEmpty := "Email should not be empty."
  const EmailInvalid := "Email is not valid"
  const PasswordEmpty := "Password should not be empty."
  const PasswordWeak := "Your password must be at least 8 characters long, and include at least one uppercase letter, one lowercase letter, and one digit."

  /** The error object; both keys are always set. */
  datatype Errors = Errors(email: string, password: string)

  /** `validation(values)`: emptiness is reported before shape, field by field. */
  function Validation(email: string, password: string): (r: Errors)
    ensures email == "" ==> r.email == EmailEmpty
    ensures email != "" ==> (r.email == "" <==> MatchesEmailPattern(email))
    ensures email != "" && !MatchesEmailPattern(email) ==> r.email == EmailInvalid
    ensures password == "" ==> r.password == PasswordEmpty
    ensures password != "" ==> (r.password == "" <==> MatchesPasswordPattern(password))
    ensures password != "" && !MatchesPasswordPattern(password) ==> r.password == PasswordWeak
  {
    EmailShapeIsPattern(email);
    PasswordShapeIsPattern(password);
    Errors(
      if email == "" then EmailEmpty else if !EmailShape(email) then EmailInvalid else "",
      if password == "" then PasswordEmpty else if !PasswordShape(password) then PasswordWeak else "")
  }

  /** Each message depends on its own field only. */
  lemma FieldsIndependent(email: string, password: string, email': string, password': string)
    ensures Validation(email, password).email == Validation(email, password').email
    ensures Validation(email, password).password == Validation(email', password).password
  {
  }

  /** The login form posts only when both messages are empty, that is when both fields match their patterns. */
  lemma AcceptedIffBothMatch(email: string, password: string)
    ensures Validation(email, password) == Errors("", "")
        <==> MatchesEmailPattern(email) && MatchesPasswordPattern(password)
  {
    if MatchesEmailPattern(email) {
      assert |email| > 0;
    }
    if MatchesPasswordPattern(password) {
      assert |password| > 0;
    }
  }

  /** Examples: a plain address passes, two `@` or a trailing dot fail. */
  lemma EmailExamples()
    ensures Validation("a@b.co", "").email == ""
    ensures Validation("a@b@c.d", "").email == EmailInvalid
    ensures Validation("a@b.", "").email == EmailInvalid
  {
    assert EmailShape("a@b.co") by {
      assert FirstAt("a@b.co") == 1;
      assert "a@b.co"[2..][1] == '.';
    }
    assert !EmailShape("a@b@c.d") by {
      assert FirstAt("a@b@c.d") == 1;
      assert "a@b@c.d"[3] == '@';
    }
  }
}
