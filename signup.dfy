/**
 * The sign-up form: the client-side checks run before an account is requested, the
 * email format they accept, and the request body built from the form.
 */
module Signup {
  import opened Wrappers
  import Text

  datatype Form = Form(name: string, email: string, password: string, confirmPassword: string)

  datatype Problem = NameRequired | EmailRequired | InvalidEmail | PasswordTooShort | PasswordMismatch

  /** The error toast shown for each failed check. */
  function Message(p: Problem): string {
    match p
    case NameRequired => "Name is required"
    case EmailRequired => "Email is required"
    case InvalidEmail => "Please enter a valid email address"
    case PasswordTooShort => "Password must be at least 6 characters long"
    case PasswordMismatch => "Passwords do not match"
  }

  /** A character the pattern's `[^\s@]` class accepts. */
  predicate Plain(c: char) {
    !Text.IsWhitespace(c) && c != '@'
  }

  predicate AllPlain(s: string) {
    forall i :: 0 <= i < |s| ==> Plain(s[i])
  }

  /** The text after the `@`: `[^\s@]+\.[^\s@]+`, a plain text with a dot that is neither first nor last. */
  predicate DomainMatches(d: string) {
    AllPlain(d) && exists j :: 0 < j < |d| - 1 && d[j] == '.'
  }

  /** `/^[^\s@]+@[^\s@]+\.[^\s@]+$/.test(s)`, decided at the first `@`. */
  predicate EmailMatches(s: string) {
    var k := Text.IndexOf(s, '@');
    0 < k < |s| && AllPlain(s[..k]) && DomainMatches(s[k + 1..])
  }

  /** `s` is `local@a.b` with three non-empty plain parts. */
  ghost predicate Parts(s: string, local: string, a: string, b: string) {
    s == local + "@" + a + "." + b &&
    local != [] && a != [] && b != [] && AllPlain(local) && AllPlain(a) && AllPlain(b)
  }

  /** The language of the pattern: a local part, `@`, a label, `.`, a label, none of them empty. */
  ghost predicate InLanguage(s: string) {
    exists local, a, b :: Parts(s, local, a, b)
  }

  /** Plain text on both sides of index `k` makes everything but `s[k]` plain. */
  lemma PlainAround(s: string, k: nat)
    requires k < |s| && AllPlain(s[..k]) && AllPlain(s[k + 1..])
    ensures forall i :: 0 <= i < |s| && i != k ==> Plain(s[i])
  {
    forall i | 0 <= i < |s| && i != k ensures Plain(s[i]) {
      if i < k {
        assert s[i] == s[..k][i];
      } else {
        assert s[i] == s[k + 1..][i - k - 1];
      }
    }
  }

  /** An accepted email splits into the pattern's three parts. */
  lemma MatchesHasParts(s: string)
    requires EmailMatches(s)
    ensures InLanguage(s)
  {
    var k := Text.IndexOf(s, '@');
    var d := s[k + 1..];
    var j :| 0 < j < |d| - 1 && d[j] == '.';
    var local, a, b := s[..k], d[..j], d[j + 1..];
    assert d == a + "." + b;
    assert s == local + "@" + d;
    PlainAround(d, j);
    assert AllPlain(a) by {
      assert forall i :: 0 <= i < |a| ==> a[i] == d[i];
    }
    assert AllPlain(b) by {
      assert forall i :: 0 <= i < |b| ==> b[i] == d[j + 1 + i];
    }
    assert Parts(s, local, a, b);
  }

  /** Three plain parts joined by `@` and `.` are accepted. */
  lemma PartsMatch(s: string, local: string, a: string, b: string)
    requires Parts(s, local, a, b)
    ensures EmailMatches(s)
  {
    var d := a + "." + b;
    assert s == local + ['@'] + d;
    assert '@' !in local;
    Text.IndexOfAfter(local, '@', d);
    var k := |local|;
    assert s[..k] == local;
    assert s[k + 1..] == d;
    assert d[|a|] == '.';
    assert AllPlain(d) by {
      forall i | 0 <= i < |d| ensures Plain(d[i]) {
        if i < |a| {
          assert d[i] == a[i];
        } else if i > |a| {
          assert d[i] == b[i - |a| - 1];
        }
      }
    }
  }

  /** The check at the first `@` accepts exactly the pattern's language. */
  lemma EmailMatchesLanguage(s: string)
    ensures EmailMatches(s) <==> InLanguage(s)
  {
    if EmailMatches(s) {
      MatchesHasParts(s);
    }
    if InLanguage(s) {
      var local, a, b :| Parts(s, local, a, b);
      PartsMatch(s, local, a, b);
    }
  }

  /** An accepted email holds no white space and exactly one `@`, which is not its first character. */
  lemma EmailShape(s: string)
    ensures EmailMatches(s) ==>
      && (forall i :: 0 <= i < |s| ==> !Text.IsWhitespace(s[i]))
      && (forall i :: 0 <= i < |s| && s[i] == '@' ==> i == Text.IndexOf(s, '@'))
      && 0 < Text.IndexOf(s, '@') < |s|
  {
    if EmailMatches(s) {
      var k := Text.IndexOf(s, '@');
      PlainAround(s, k);
    }
  }

  /** White space at either end fails the pattern, so a padded email is refused as invalid. */
  lemma PaddedEmailRejected(s: string)
    requires s != [] && (Text.IsWhitespace(s[0]) || Text.IsWhitespace(s[|s| - 1]))
    ensures !EmailMatches(s)
  {
    EmailShape(s);
  }

  /** Every failed check, in the order the form runs them. */
  function Failures(f: Form): seq<Problem> {
    (if Text.Trim(f.name) == "" then [NameRequired] else [])
    + (if Text.Trim(f.email) == "" then [EmailRequired] else [])
    + (if !EmailMatches(f.email) then [InvalidEmail] else [])
    + (if |f.password| < 6 then [PasswordTooShort] else [])
    + (if f.password != f.confirmPassword then [PasswordMismatch] else [])
  }

  /**
   * `validateForm`: the first check that fails, or nothing when the form is valid. The
   * form is valid exactly when the trimmed name and email are non-empty, the untrimmed
   * email has the right format, the password has at least six characters and the
   * confirmation repeats it.
   */
  function Validate(f: Form): (r: Option<Problem>)
    ensures r.None? <==>
      Text.Trim(f.name) != "" && Text.Trim(f.email) != "" && EmailMatches(f.email)
      && |f.password| >= 6 && f.password == f.confirmPassword
  {
    if Text.Trim(f.name) == "" then Some(NameRequired)
    else if Text.Trim(f.email) == "" then Some(EmailRequired)
    else if !EmailMatches(f.email) then Some(InvalidEmail)
    else if |f.password| < 6 then Some(PasswordTooShort)
    else if f.password != f.confirmPassword then Some(PasswordMismatch)
    else None
  }

  /** Only the first failure is reported, and there is one exactly when some check fails. */
  lemma ValidateReportsFirst(f: Form)
    ensures Validate(f) == if Failures(f) == [] then None else Some(Failures(f)[0])
  {
  }

  /** An email with white space at an end passes the emptiness check but not the format check. */
  lemma PaddedEmailIsInvalid(f: Form)
    requires Text.Trim(f.name) != "" && Text.Trim(f.email) != ""
    requires Text.IsWhitespace(f.email[0]) || Text.IsWhitespace(f.email[|f.email| - 1])
    ensures Validate(f) == Some(InvalidEmail)
  {
    PaddedEmailRejected(f.email);
  }

  /** The body of the sign-up request. */
  datatype Payload = Payload(name: string, email: string, password: string)

  /**
   * `handleSubmit` up to the request: a failed check shows its toast and sends nothing;
   * otherwise the request carries the trimmed name, the trimmed lower-cased email and the
   * password as typed.
   */
  function Submit(f: Form): (r: Result<Payload, string>)
    ensures r.Failure? <==> Validate(f).Some?
    ensures r.Failure? ==> r.error == Message(Validate(f).value)
    ensures r.Success? ==> r.value == Payload(Text.Trim(f.name), Text.ToLower(Text.Trim(f.email)), f.password)
  {
    match Validate(f)
    case Some(p) => Failure(Message(p))
    case None => Success(Payload(Text.Trim(f.name), Text.ToLower(Text.Trim(f.email)), f.password))
  }

  lemma LowerKeepsPlain(s: string)
    requires AllPlain(s)
    ensures AllPlain(Text.ToLower(s))
  {
    forall i | 0 <= i < |s| ensures Plain(Text.ToLower(s)[i]) {
      Text.LowerCharKeepsWhitespace(s[i]);
    }
  }

  /** Lower-casing each part of `local@a.b` lower-cases the whole, and the parts stay plain. */
  lemma LowerParts(s: string, local: string, a: string, b: string)
    requires Parts(s, local, a, b)
    ensures Parts(Text.ToLower(s), Text.ToLower(local), Text.ToLower(a), Text.ToLower(b))
  {
    var x1 := local + "@";
    var x2 := x1 + a;
    var x3 := x2 + ".";
    assert s == x3 + b;
    Text.ToLowerConcat(x3, b);
    Text.ToLowerConcat(x2, ".");
    Text.ToLowerConcat(x1, a);
    Text.ToLowerConcat(local, "@");
    LowerKeepsPlain(local);
    LowerKeepsPlain(a);
    LowerKeepsPlain(b);
  }

  /** Lower-casing an accepted email keeps it accepted. */
  lemma LowerEmailMatches(s: string)
    requires EmailMatches(s)
    ensures EmailMatches(Text.ToLower(s))
  {
    MatchesHasParts(s);
    var local, a, b :| Parts(s, local, a, b);
    LowerParts(s, local, a, b);
    PartsMatch(Text.ToLower(s), Text.ToLower(local), Text.ToLower(a), Text.ToLower(b));
  }

  /** An accepted email has nothing for `trim` to remove. */
  lemma AcceptedEmailIsTrimmed(e: string)
    requires EmailMatches(e)
    ensures Text.Trim(e) == e
  {
    EmailShape(e);
    assert Text.LeadingSpace(e) == 0;
    assert Text.TrailingSpace(e) == 0;
    Text.TrimParts(e);
    assert e[0..] == e;
  }

  /**
   * The request body is already normalised: its name and email are their own trims, the
   * email is its own lower case and still has the accepted format.
   */
  lemma PayloadNormalised(f: Form)
    requires Submit(f).Success?
    ensures var p := Submit(f).value;
      Text.Trim(p.name) == p.name && Text.Trim(p.email) == p.email
      && Text.ToLower(p.email) == p.email && EmailMatches(p.email) && p.password == f.password
  {
    var e := f.email;
    Text.TrimIdempotent(f.name);
    AcceptedEmailIsTrimmed(e);
    LowerEmailMatches(e);
    Text.ToLowerIdempotent(e);
    Text.TrimLowerCommute(e);
  }
}
