/** The registration form: the sign-up schema's field rules and the per-field error map. */
module Registration {
  import opened Wrappers

  datatype Field = FirstName | LastName | Username | Email | Password

  datatype SignUpForm = SignUpForm(firstName: string, lastName: string, username: string,
                                   email: string, password: string)

  /** One schema issue: the field it is about (`path[0]`) and its message. */
  datatype Issue = Issue(path: Field, message: string)

  predicate IsAsciiUpper(c: char) { 'A' <= c <= 'Z' }
  predicate IsAsciiLower(c: char) { 'a' <= c <= 'z' }
  predicate IsAsciiLetter(c: char) { IsAsciiUpper(c) || IsAsciiLower(c) }
  predicate IsAsciiDigit(c: char) { '0' <= c <= '9' }

  /** `[A-ZČĆŠĐŽ]`, the first-name initial. */
  predicate FirstNameInitial(c: char) {
    IsAsciiUpper(c) || c in "\U{010C}\U{0106}\U{0160}\U{0110}\U{017D}"
  }

  /** `[A-ZŠČĆĐŽ]`, the last-name initial: the same letters listed in another order. */
  predicate LastNameInitial(c: char) {
    IsAsciiUpper(c) || c in "\U{0160}\U{010C}\U{0106}\U{0110}\U{017D}"
  }

  /** `[a-zA-ZČĆŠĐŽčćšđž]`, a later letter of either name. */
  predicate NameLetter(c: char) {
    IsAsciiLetter(c) || c in "\U{010C}\U{0106}\U{0160}\U{0110}\U{017D}\U{010D}\U{0107}\U{0161}\U{0111}\U{017E}"
  }

  /** `[a-zA-Z]`, the username's first character. */
  predicate UsernameInitial(c: char) { IsAsciiLetter(c) }

  /** `[a-zA-Z0-9._]`, a later username character. */
  predicate UsernameChar(c: char) { IsAsciiLetter(c) || IsAsciiDigit(c) || c == '.' || c == '_' }

  /** Matching `C*$` from the start of `s`, one character at a time. */
  function MatchesStar(s: string, cls: char -> bool): bool {
    s == [] || (cls(s[0]) && MatchesStar(s[1..], cls))
  }

  /** Matching `^H T*$`. */
  function MatchesPattern(s: string, initial: char -> bool, rest: char -> bool): bool {
    |s| >= 1 && initial(s[0]) && MatchesStar(s[1..], rest)
  }

  lemma {:induction false} MatchesStarEverywhere(s: string, cls: char -> bool)
    ensures MatchesStar(s, cls) <==> forall i :: 0 <= i < |s| ==> cls(s[i])
  {
    if s != [] {
      MatchesStarEverywhere(s[1..], cls);
      assert forall i :: 1 <= i < |s| ==> s[i] == s[1..][i - 1];
    }
  }

  /** A JavaScript string's `length` on the characters the model uses (all in the Basic Multilingual Plane). */
  function MinIssue(value: string, min: nat, path: Field, message: string): seq<Issue> {
    if |value| < min then [Issue(path, message)] else []
  }

  function PatternIssue(ok: bool, path: Field, message: string): seq<Issue> {
    if ok then [] else [Issue(path, message)]
  }

  /** zod runs every check of a string field and reports each failing one, in declaration order. */
  function FirstNameIssues(v: string): seq<Issue> {
    MinIssue(v, 2, FirstName, "First name must have at least 2 characters!")
    + PatternIssue(MatchesPattern(v, FirstNameInitial, NameLetter), FirstName, "Invalid first name format!")
  }

  function LastNameIssues(v: string): seq<Issue> {
    MinIssue(v, 2, LastName, "Last name must have at least 2 characters!")
    + PatternIssue(MatchesPattern(v, LastNameInitial, NameLetter), LastName, "Invalid last name format!")
  }

  function UsernameIssues(v: string): seq<Issue> {
    MinIssue(v, 4, Username, "Username must have at least 4 characters!")
    + PatternIssue(MatchesPattern(v, UsernameInitial, UsernameChar), Username, "Invalid username format!")
  }

  /** `isEmail` stands for zod's e-mail check. */
  function EmailIssues(v: string, isEmail: string -> bool): seq<Issue> {
    PatternIssue(isEmail(v), Email, "Invalid email format!")
  }

  function PasswordIssues(v: string): seq<Issue> {
    MinIssue(v, 6, Password, "Password must have at least 6 characters!")
  }

  /** The issues `signUpSchema.parse` reports, fields in the schema's order. */
  function SchemaIssues(f: SignUpForm, isEmail: string -> bool): seq<Issue> {
    FirstNameIssues(f.firstName) + LastNameIssues(f.lastName) + UsernameIssues(f.username)
    + EmailIssues(f.email, isEmail) + PasswordIssues(f.password)
  }

  /** A first name passes iff it has at least 2 characters, starts with A–Z or one of ČĆŠĐŽ, and
      every later character is an ASCII letter or one of ČĆŠĐŽčćšđž. */
  lemma FirstNameRule(v: string)
    ensures FirstNameIssues(v) == [] <==>
      |v| >= 2 && FirstNameInitial(v[0]) && forall i :: 1 <= i < |v| ==> NameLetter(v[i])
  {
    if |v| >= 1 {
      MatchesStarEverywhere(v[1..], NameLetter);
      assert forall i :: 1 <= i < |v| ==> v[i] == v[1..][i - 1];
    }
  }

  /** The two name patterns accept exactly the same strings. */
  lemma LastNameMatchesFirstNameRule(v: string)
    ensures LastNameIssues(v) == [] <==> FirstNameIssues(v) == []
  {
    if |v| >= 1 {
      assert FirstNameInitial(v[0]) == LastNameInitial(v[0]);
    }
  }

  /** A username passes iff it has at least 4 characters, starts with an ASCII letter, and continues
      with ASCII letters, digits, '.' or '_'. */
  lemma UsernameRule(v: string)
    ensures UsernameIssues(v) == [] <==>
      |v| >= 4 && IsAsciiLetter(v[0])
      && forall i :: 1 <= i < |v| ==> IsAsciiLetter(v[i]) || IsAsciiDigit(v[i]) || v[i] == '.' || v[i] == '_'
  {
    if |v| >= 1 {
      MatchesStarEverywhere(v[1..], UsernameChar);
      assert forall i :: 1 <= i < |v| ==> v[i] == v[1..][i - 1];
    }
  }

  /** A password passes iff it has at least 6 characters, whatever they are. */
  lemma PasswordRule(v: string)
    ensures PasswordIssues(v) == [] <==> |v| >= 6
  {
  }

  /** `m` is what the `reduce` builds from `issues`: one entry per field that has an issue, holding
      the message of the last issue for that field. */
  ghost predicate IsErrorMap(m: map<Field, string>, issues: seq<Issue>) {
    && (forall k :: k in m <==> exists i :: 0 <= i < |issues| && issues[i].path == k)
    && (forall i :: 0 <= i < |issues| && (forall j :: i < j < |issues| ==> issues[j].path != issues[i].path)
           ==> issues[i].path in m && m[issues[i].path] == issues[i].message)
  }

  /** At most one map fits a list of issues. */
  lemma ErrorMapUnique(m1: map<Field, string>, m2: map<Field, string>, issues: seq<Issue>)
    requires IsErrorMap(m1, issues) && IsErrorMap(m2, issues)
    ensures m1 == m2
  {
    forall k | k in m1
      ensures k in m2 && m1[k] == m2[k]
    {
      var i :| 0 <= i < |issues| && issues[i].path == k;
      var last := LastIndexOf(issues, k, i);
    }
    assert m1.Keys == m2.Keys;
  }

  /** The last position holding field `k`, at or after a known one. */
  lemma LastIndexOf(issues: seq<Issue>, k: Field, i: nat) returns (last: nat)
    requires i < |issues| && issues[i].path == k
    ensures i <= last < |issues| && issues[last].path == k
    ensures forall j :: last < j < |issues| ==> issues[j].path != k
    decreases |issues| - i
  {
    if exists j :: i < j < |issues| && issues[j].path == k {
      var j :| i < j < |issues| && issues[j].path == k;
      last := LastIndexOf(issues, k, j);
    } else {
      last := i;
    }
  }

  /** One step of the `reduce`: writing the next issue into the accumulator. */
  lemma ErrorMapStep(acc: map<Field, string>, done: seq<Issue>, curr: Issue)
    requires IsErrorMap(acc, done)
    ensures IsErrorMap(acc[curr.path := curr.message], done + [curr])
  {
    var next, all := acc[curr.path := curr.message], done + [curr];
    forall k
      ensures k in next <==> exists i :: 0 <= i < |all| && all[i].path == k
    {
      if k in acc {
        var i :| 0 <= i < |done| && done[i].path == k;
        assert all[i].path == k;
      }
      if exists i :: 0 <= i < |all| && all[i].path == k {
        var i :| 0 <= i < |all| && all[i].path == k;
        if i < |done| {
          assert done[i].path == k;
        }
      }
    }
    forall i | 0 <= i < |all| && (forall j :: i < j < |all| ==> all[j].path != all[i].path)
      ensures all[i].path in next && next[all[i].path] == all[i].message
    {
      if i < |done| {
        assert all[|done|] == curr;
        assert forall j :: i < j < |done| ==> done[j].path == all[j].path;
      }
    }
  }

  /** `error.errors.reduce((acc, curr) => { acc[curr.path[0]] = curr.message; return acc; }, {})`. */
  method FormatErrors(issues: seq<Issue>) returns (acc: map<Field, string>)
    ensures IsErrorMap(acc, issues)
  {
    acc := map[];
    var n := 0;
    while n < |issues|
      invariant 0 <= n <= |issues|
      invariant IsErrorMap(acc, issues[..n])
    {
      var curr := issues[n];
      assert issues[..n + 1] == issues[..n] + [curr];
      ErrorMapStep(acc, issues[..n], curr);
      acc := acc[curr.path := curr.message];
      n := n + 1;
    }
    assert issues[..n] == issues;
  }

  /** The issues of one field. */
  function FieldIssues(f: SignUpForm, k: Field, isEmail: string -> bool): (issues: seq<Issue>)
    ensures forall i :: 0 <= i < |issues| ==> issues[i].path == k
  {
    match k
    case FirstName => FirstNameIssues(f.firstName)
    case LastName => LastNameIssues(f.lastName)
    case Username => UsernameIssues(f.username)
    case Email => EmailIssues(f.email, isEmail)
    case Password => PasswordIssues(f.password)
  }

  /** The message of the last issue about field `k`, if any. */
  function LastMessage(issues: seq<Issue>, k: Field): Option<string> {
    if issues == [] then None
    else if issues[|issues| - 1].path == k then Some(issues[|issues| - 1].message)
    else LastMessage(issues[..|issues| - 1], k)
  }

  lemma {:induction false} LastMessageNone(issues: seq<Issue>, k: Field)
    ensures LastMessage(issues, k) == None <==> forall i :: 0 <= i < |issues| ==> issues[i].path != k
  {
    if issues != [] {
      var init := issues[..|issues| - 1];
      LastMessageNone(init, k);
      assert forall i :: 0 <= i < |init| ==> init[i] == issues[i];
    }
  }

  lemma {:induction false} LastMessageIndex(issues: seq<Issue>, k: Field) returns (i: nat)
    requires LastMessage(issues, k).Some?
    ensures i < |issues| && issues[i].path == k && issues[i].message == LastMessage(issues, k).value
    ensures forall j :: i < j < |issues| ==> issues[j].path != k
  {
    if issues[|issues| - 1].path == k {
      i := |issues| - 1;
    } else {
      var init := issues[..|issues| - 1];
      i := LastMessageIndex(init, k);
      assert init[i] == issues[i];
      assert forall j :: i < j < |init| ==> init[j] == issues[j];
    }
  }

  /** The error map holds, for each field, exactly the last message about it. */
  lemma ErrorMapLast(m: map<Field, string>, issues: seq<Issue>, k: Field)
    requires IsErrorMap(m, issues)
    ensures k in m <==> LastMessage(issues, k).Some?
    ensures k in m ==> m[k] == LastMessage(issues, k).value
  {
    LastMessageNone(issues, k);
    if LastMessage(issues, k).Some? {
      var i := LastMessageIndex(issues, k);
    }
  }

  /** A later block of issues overrides an earlier one. */
  lemma {:induction false} LastMessageAppend(xs: seq<Issue>, ys: seq<Issue>, k: Field)
    ensures LastMessage(xs + ys, k) == if LastMessage(ys, k).Some? then LastMessage(ys, k) else LastMessage(xs, k)
  {
    if ys == [] {
      assert xs + ys == xs;
    } else {
      var init := ys[..|ys| - 1];
      assert (xs + ys)[..|xs + ys| - 1] == xs + init;
      if ys[|ys| - 1].path != k {
        LastMessageAppend(xs, init, k);
      }
    }
  }

  /** Issues of another field say nothing about `k`; the field's own issues all do. */
  lemma FieldLastMessage(f: SignUpForm, other: Field, k: Field, isEmail: string -> bool)
    ensures var issues := FieldIssues(f, other, isEmail);
      LastMessage(issues, k) == if other == k && issues != [] then Some(issues[|issues| - 1].message) else None
  {
    var issues := FieldIssues(f, other, isEmail);
    if other != k {
      LastMessageNone(issues, k);
    }
  }

  /** After a failed parse, a field has an error iff it has an issue, and the error shown is the
      message of its last issue (so a short name with a bad initial shows the format message). */
  lemma SchemaErrorMap(f: SignUpForm, isEmail: string -> bool, m: map<Field, string>, k: Field)
    requires IsErrorMap(m, SchemaIssues(f, isEmail))
    ensures k in m <==> FieldIssues(f, k, isEmail) != []
    ensures k in m ==> m[k] == FieldIssues(f, k, isEmail)[|FieldIssues(f, k, isEmail)| - 1].message
  {
    SchemaLastMessage(f, isEmail, k);
    FieldLastMessage(f, k, k, isEmail);
    ErrorMapLast(m, SchemaIssues(f, isEmail), k);
  }

  /** Only the field's own checks can supply its last message. */
  lemma SchemaLastMessage(f: SignUpForm, isEmail: string -> bool, k: Field)
    ensures LastMessage(SchemaIssues(f, isEmail), k) == LastMessage(FieldIssues(f, k, isEmail), k)
  {
    var a, b, c := FieldIssues(f, FirstName, isEmail), FieldIssues(f, LastName, isEmail), FieldIssues(f, Username, isEmail);
    var d, e := FieldIssues(f, Email, isEmail), FieldIssues(f, Password, isEmail);
    assert SchemaIssues(f, isEmail) == a + b + c + d + e;
    FieldLastMessage(f, FirstName, k, isEmail);
    FieldLastMessage(f, LastName, k, isEmail);
    FieldLastMessage(f, Username, k, isEmail);
    FieldLastMessage(f, Email, k, isEmail);
    FieldLastMessage(f, Password, k, isEmail);
    LastMessageAppend(a, b, k);
    LastMessageAppend(a + b, c, k);
    LastMessageAppend(a + b + c, d, k);
    LastMessageAppend(a + b + c + d, e, k);
  }

  /** A one-letter lower-case first name fails both checks; the map keeps the format message. */
  lemma ShortLowercaseFirstName(f: SignUpForm, isEmail: string -> bool, m: map<Field, string>)
    requires f.firstName == "a"
    requires IsErrorMap(m, SchemaIssues(f, isEmail))
    ensures FirstName in m && m[FirstName] == "Invalid first name format!"
  {
    SchemaErrorMap(f, isEmail, m, FirstName);
  }

  /** A five-character password is blocked with the minimum-length message. */
  lemma FiveCharacterPassword(f: SignUpForm, isEmail: string -> bool, m: map<Field, string>)
    requires f.password == "12345"
    requires IsErrorMap(m, SchemaIssues(f, isEmail))
    ensures Password in m && m[Password] == "Password must have at least 6 characters!"
  {
    SchemaErrorMap(f, isEmail, m, Password);
  }

  /** The registration page's state: the form, the shown errors and the routes pushed so far. */
  class RegisterPage {
    var formData: SignUpForm
    var errors: map<Field, string>
    var pushed: seq<string>

    constructor ()
      ensures formData == SignUpForm("", "", "", "", "") && errors == map[] && pushed == []
    {
      formData := SignUpForm("", "", "", "", "");
      errors := map[];
      pushed := [];
    }

    /** The mount effect: a stored (non-empty) token sends the user to /home. */
    method OnMount(storedToken: Option<string>)
      modifies this
      ensures formData == old(formData) && errors == old(errors)
      ensures pushed == old(pushed) + (if storedToken.Some? && storedToken.value != "" then ["/home"] else [])
    {
      if storedToken.Some? && storedToken.value != "" {
        pushed := pushed + ["/home"];
      }
    }

    /** `handleChange`: one field takes the typed value, the others are kept. */
    method HandleChange(name: Field, value: string)
      modifies this
      ensures errors == old(errors) && pushed == old(pushed)
      ensures formData == match name
        case FirstName => old(formData).(firstName := value)
        case LastName => old(formData).(lastName := value)
        case Username => old(formData).(username := value)
        case Email => old(formData).(email := value)
        case Password => old(formData).(password := value)
    {
      formData := match name
        case FirstName => formData.(firstName := value)
        case LastName => formData.(lastName := value)
        case Username => formData.(username := value)
        case Email => formData.(email := value)
        case Password => formData.(password := value);
    }

    /** `handleSubmit`: validation only. A passing form clears the errors; a failing one shows the
        reduced error map. No request is sent, no token stored, no route pushed. */
    method HandleSubmit(isEmail: string -> bool)
      modifies this
      ensures formData == old(formData) && pushed == old(pushed)
      ensures SchemaIssues(formData, isEmail) == [] ==> errors == map[]
      ensures IsErrorMap(errors, SchemaIssues(formData, isEmail))
    {
      var issues := SchemaIssues(formData, isEmail);
      if issues == [] {
        errors := map[];
      } else {
        errors := FormatErrors(issues);
      }
    }
  }
}
