/**
 * The request-body rules of the registration and login routes. A body is a record of
 * optional strings (a field is absent when the client did not send it); the email format
 * check is a parameter standing for the schema library's email pattern.
 *
 * Validation yields the list of issues in the order the schema library reports them:
 * the fields in declaration order, then the registration's cross-field refinement. The
 * contracts state which issues appear, that only failing checks appear and that no field
 * has more than one; the order itself is only built into the definitions. The
 * refinement runs only when every field is present, because a missing field aborts the
 * object parse while a too-short password or a malformed email does not.
 */
module AuthSchema {
  import opened Wrappers

  datatype Body = Body(username: Option<string>, email: Option<string>,
                       password: Option<string>, passwordConfirmation: Option<string>)

  /** One validation failure: where in the request it is, and what it says. */
  datatype Issue = Issue(path: seq<string>, message: string)

  const MinPasswordLength := 6

  const UsernameRequired := "Username is required"
  const EmailRequired := "Email is required"
  const PasswordRequired := "Password is required"
  const ConfirmationRequired := "Password confirmation is required"
  const InvalidEmail := "Not a valid email"
  const PasswordTooShort := "Password too short - should be 6 chars minimum"
  const PasswordsDiffer := "Passwords do not match"

  function BodyPath(field: string): seq<string> {
    ["body", field]
  }

  /** The issues of a required string field with no further checks. */
  function RequiredIssues(value: Option<string>, field: string, required: string): seq<Issue> {
    if value.None? then [Issue(BodyPath(field), required)] else []
  }

  /** The issues of the required `email` field with the email-format check. */
  function EmailIssues(email: Option<string>, isEmail: string -> bool): seq<Issue> {
    match email
    case None => [Issue(BodyPath("email"), EmailRequired)]
    case Some(e) => if isEmail(e) then [] else [Issue(BodyPath("email"), InvalidEmail)]
  }

  /** The issues of the required `password` field with its minimum length. */
  function PasswordIssues(password: Option<string>): seq<Issue> {
    match password
    case None => [Issue(BodyPath("password"), PasswordRequired)]
    case Some(p) => if |p| < MinPasswordLength then [Issue(BodyPath("password"), PasswordTooShort)] else []
  }

  /** The registration rules, stated as a single condition on the body. */
  predicate RegisterAccepts(b: Body, isEmail: string -> bool) {
    && b.username.Some?
    && b.email.Some? && isEmail(b.email.value)
    && b.password.Some? && |b.password.value| >= MinPasswordLength
    && b.passwordConfirmation.Some?
    && b.password.value == b.passwordConfirmation.value
  }

  /** The login rules, stated as a single condition on the body. */
  predicate LoginAccepts(b: Body, isEmail: string -> bool) {
    && b.email.Some? && isEmail(b.email.value)
    && b.password.Some? && |b.password.value| >= MinPasswordLength
  }

  /** Whether `issue` reports a field check that really fails on `b`. */
  predicate FieldCheckFails(b: Body, isEmail: string -> bool, issue: Issue) {
    || (issue == Issue(BodyPath("username"), UsernameRequired) && b.username.None?)
    || (issue == Issue(BodyPath("email"), EmailRequired) && b.email.None?)
    || (issue == Issue(BodyPath("email"), InvalidEmail) && b.email.Some? && !isEmail(b.email.value))
    || (issue == Issue(BodyPath("password"), PasswordRequired) && b.password.None?)
    || (issue == Issue(BodyPath("password"), PasswordTooShort) &&
        b.password.Some? && |b.password.value| < MinPasswordLength)
    || (issue == Issue(BodyPath("passwordConfirmation"), ConfirmationRequired) && b.passwordConfirmation.None?)
  }

  /** Whether `issue` reports a registration check, field or cross-field, that fails on `b`. */
  predicate RegisterCheckFails(b: Body, isEmail: string -> bool, issue: Issue) {
    || FieldCheckFails(b, isEmail, issue)
    || (&& issue == Issue(BodyPath("passwordConfirmation"), PasswordsDiffer)
        && b.password.Some? && b.passwordConfirmation.Some?
        && b.password.value != b.passwordConfirmation.value)
  }

  /** The paths of the four registration fields. */
  const RegisterFields := {BodyPath("username"), BodyPath("email"), BodyPath("password"),
                           BodyPath("passwordConfirmation")}

  /** No two issues concern the same field. */
  predicate OnePerField(issues: seq<Issue>) {
    forall i, j :: 0 <= i < j < |issues| ==> issues[i].path != issues[j].path
  }

  /** Every issue concerns one of the given fields. */
  predicate WithinFields(issues: seq<Issue>, fields: set<seq<string>>) {
    forall i :: 0 <= i < |issues| ==> issues[i].path in fields
  }

  /** Issues about disjoint sets of fields, one per field on each side, stay one per field when joined. */
  lemma JoinKeepsOnePerField(a: seq<Issue>, fa: set<seq<string>>, b: seq<Issue>, fb: set<seq<string>>)
    requires OnePerField(a) && WithinFields(a, fa)
    requires OnePerField(b) && WithinFields(b, fb)
    requires fa !! fb
    ensures OnePerField(a + b) && WithinFields(a + b, fa + fb)
  {
    forall i, j | 0 <= i < j < |a + b|
      ensures (a + b)[i].path != (a + b)[j].path
    {
      if j < |a| {
      } else if i >= |a| {
        assert (a + b)[i] == b[i - |a|] && (a + b)[j] == b[j - |a|];
      } else {
        assert (a + b)[i].path in fa && (a + b)[j] == b[j - |a|];
      }
    }
  }

  /** The issues of the fields both schemas share with the username: all but the confirmation. */
  function LeadingIssues(b: Body, isEmail: string -> bool): (issues: seq<Issue>)
    ensures OnePerField(issues)
    ensures WithinFields(issues, {BodyPath("username"), BodyPath("email"), BodyPath("password")})
    ensures forall i :: 0 <= i < |issues| ==> FieldCheckFails(b, isEmail, issues[i])
    ensures |issues| == 0 <==>
              && b.username.Some? && b.email.Some? && isEmail(b.email.value)
              && b.password.Some? && |b.password.value| >= MinPasswordLength
    ensures b.username.None? ==> Issue(BodyPath("username"), UsernameRequired) in issues
    ensures b.email.None? ==> Issue(BodyPath("email"), EmailRequired) in issues
    ensures b.password.None? ==> Issue(BodyPath("password"), PasswordRequired) in issues
    ensures b.email.Some? && !isEmail(b.email.value) ==> Issue(BodyPath("email"), InvalidEmail) in issues
    ensures b.password.Some? && |b.password.value| < MinPasswordLength ==>
              Issue(BodyPath("password"), PasswordTooShort) in issues
  {
    var u := RequiredIssues(b.username, "username", UsernameRequired);
    var e := EmailIssues(b.email, isEmail);
    var p := PasswordIssues(b.password);
    JoinKeepsOnePerField(u, {BodyPath("username")}, e, {BodyPath("email")});
    JoinKeepsOnePerField(u + e, {BodyPath("username"), BodyPath("email")}, p, {BodyPath("password")});
    u + e + p
  }

  /** The field issues of a registration body, in declaration order. */
  function FieldIssues(b: Body, isEmail: string -> bool): (issues: seq<Issue>)
    ensures OnePerField(issues)
    ensures WithinFields(issues, RegisterFields)
    ensures b.passwordConfirmation.Some? ==>
              WithinFields(issues, {BodyPath("username"), BodyPath("email"), BodyPath("password")})
    ensures forall i :: 0 <= i < |issues| ==> FieldCheckFails(b, isEmail, issues[i])
    ensures |issues| == 0 <==>
              && b.username.Some? && b.email.Some? && isEmail(b.email.value)
              && b.password.Some? && |b.password.value| >= MinPasswordLength
              && b.passwordConfirmation.Some?
    ensures b.username.None? ==> Issue(BodyPath("username"), UsernameRequired) in issues
    ensures b.email.None? ==> Issue(BodyPath("email"), EmailRequired) in issues
    ensures b.password.None? ==> Issue(BodyPath("password"), PasswordRequired) in issues
    ensures b.passwordConfirmation.None? ==>
              Issue(BodyPath("passwordConfirmation"), ConfirmationRequired) in issues
    ensures b.email.Some? && !isEmail(b.email.value) ==> Issue(BodyPath("email"), InvalidEmail) in issues
    ensures b.password.Some? && |b.password.value| < MinPasswordLength ==>
              Issue(BodyPath("password"), PasswordTooShort) in issues
  {
    var leading := LeadingIssues(b, isEmail);
    var c := RequiredIssues(b.passwordConfirmation, "passwordConfirmation", ConfirmationRequired);
    JoinKeepsOnePerField(leading, {BodyPath("username"), BodyPath("email"), BodyPath("password")},
                         c, {BodyPath("passwordConfirmation")});
    leading + c
  }

  /** Validates a registration body. */
  function RegisterIssues(b: Body, isEmail: string -> bool): (issues: seq<Issue>)
    ensures |issues| == 0 <==> RegisterAccepts(b, isEmail)
    ensures WithinFields(issues, RegisterFields)
    // only failing checks are reported
    ensures forall i :: 0 <= i < |issues| ==> RegisterCheckFails(b, isEmail, issues[i])
    // and at most one per field, so none twice
    ensures OnePerField(issues)
    ensures b.username.None? ==> Issue(BodyPath("username"), UsernameRequired) in issues
    ensures b.email.None? ==> Issue(BodyPath("email"), EmailRequired) in issues
    ensures b.password.None? ==> Issue(BodyPath("password"), PasswordRequired) in issues
    ensures b.passwordConfirmation.None? ==>
              Issue(BodyPath("passwordConfirmation"), ConfirmationRequired) in issues
    ensures b.email.Some? && !isEmail(b.email.value) ==> Issue(BodyPath("email"), InvalidEmail) in issues
    ensures b.password.Some? && |b.password.value| < MinPasswordLength ==>
              Issue(BodyPath("password"), PasswordTooShort) in issues
    // the mismatch is reported on the confirmation, and only once every field is present
    ensures Issue(BodyPath("passwordConfirmation"), PasswordsDiffer) in issues <==>
              && b.username.Some? && b.email.Some? && b.password.Some? && b.passwordConfirmation.Some?
              && b.password.value != b.passwordConfirmation.value
  {
    var fields := FieldIssues(b, isEmail);
    var aborted := b.username.None? || b.email.None? || b.password.None? || b.passwordConfirmation.None?;
    if !aborted && b.password.value != b.passwordConfirmation.value then
      var mismatch := [Issue(BodyPath("passwordConfirmation"), PasswordsDiffer)];
      JoinKeepsOnePerField(fields, {BodyPath("username"), BodyPath("email"), BodyPath("password")},
                           mismatch, {BodyPath("passwordConfirmation")});
      fields + mismatch
    else
      fields
  }

  /** Validates a login body: only the email and the password are read. */
  function LoginIssues(b: Body, isEmail: string -> bool): (issues: seq<Issue>)
    ensures |issues| == 0 <==> LoginAccepts(b, isEmail)
    ensures b.email.None? ==> Issue(BodyPath("email"), EmailRequired) in issues
    ensures b.password.None? ==> Issue(BodyPath("password"), PasswordRequired) in issues
    ensures b.email.Some? && !isEmail(b.email.value) ==> Issue(BodyPath("email"), InvalidEmail) in issues
    ensures b.password.Some? && |b.password.value| < MinPasswordLength ==>
              Issue(BodyPath("password"), PasswordTooShort) in issues
    ensures forall i :: 0 <= i < |issues| ==>
              issues[i].path == BodyPath("email") || issues[i].path == BodyPath("password")
    // only failing checks are reported
    ensures forall i :: 0 <= i < |issues| ==> FieldCheckFails(b, isEmail, issues[i])
    // and at most one per field, so none twice
    ensures OnePerField(issues)
  {
    EmailIssues(b.email, isEmail) + PasswordIssues(b.password)
  }

  /** A password shorter than the minimum fails both schemas. */
  lemma ShortPasswordFailsBoth(b: Body, isEmail: string -> bool)
    requires b.password.Some? && |b.password.value| < MinPasswordLength
    ensures |RegisterIssues(b, isEmail)| > 0 && |LoginIssues(b, isEmail)| > 0
  {
  }

  /** A malformed email fails both schemas. */
  lemma MalformedEmailFailsBoth(b: Body, isEmail: string -> bool)
    requires b.email.Some? && !isEmail(b.email.value)
    ensures |RegisterIssues(b, isEmail)| > 0 && |LoginIssues(b, isEmail)| > 0
  {
  }

  /** Login does not read the username or the confirmation; registration needs both. */
  lemma LoginIgnoresRegistrationFields(b: Body, isEmail: string -> bool, username: Option<string>,
                                       confirmation: Option<string>)
    ensures LoginIssues(b, isEmail) == LoginIssues(b.(username := username, passwordConfirmation := confirmation), isEmail)
    ensures |LoginIssues(b, isEmail)| == 0 && b.passwordConfirmation.None? ==> |RegisterIssues(b, isEmail)| > 0
  {
  }

  /** Every accepted registration body also carries a confirmation of the minimum length. */
  lemma AcceptedConfirmationIsLongEnough(b: Body, isEmail: string -> bool)
    requires |RegisterIssues(b, isEmail)| == 0
    ensures b.passwordConfirmation.Some? && |b.passwordConfirmation.value| >= MinPasswordLength
  {
  }

  /** Every body the registration schema accepts is accepted by the login schema too. */
  lemma RegistrationBodyPassesLogin(b: Body, isEmail: string -> bool)
    requires |RegisterIssues(b, isEmail)| == 0
    ensures |LoginIssues(b, isEmail)| == 0
  {
  }
}
