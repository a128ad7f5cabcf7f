/** The login/registration form's validation schema. The schema is kept as data
    (per field, the checks in declaration order with their messages) and
    `Validate` interprets it the way the validator does: a field passes when
    every one of its checks passes. Whether a string is a well-formed email
    address is the validator's own pattern; it is a parameter here. */
module CredentialForm {

  /** The submitted form. A field the form did not render is "". */
  datatype Credentials = Credentials(email: string, username: string, password: string)

  datatype Field = EmailField | UsernameField | PasswordField

  /** The string checks the schema uses. `EmailFormat` accepts "" (the empty
      string is left to `Required`); `MinLength`/`MaxLength` bound the length. */
  datatype Check = Required | EmailFormat | MinLength(n: nat) | MaxLength(n: nat)

  datatype Rule = Rule(check: Check, message: string)

  datatype FieldError = FieldError(field: Field, message: string)

  // The messages the schema attaches to each check.
  const InvalidEmail: string := "Invalid email format"
  const EmailRequired: string := "Email is required"
  const UsernameRequired: string := "Username is required"
  const UsernameTooShort: string := "Username must be atleast 4 characters"
  const UsernameTooLong: string := "Username must not exceed 8 characters"
  const PasswordTooShort: string := "Password must be at least 6 characters"
  const PasswordRequired: string := "Password is required"

  function EmailRules(): seq<Rule> {
    [Rule(EmailFormat, InvalidEmail), Rule(Required, EmailRequired)]
  }

  /** The username is only constrained while registering. */
  function UsernameRules(isRegistering: bool): seq<Rule> {
    if isRegistering then
      [Rule(Required, UsernameRequired),
       Rule(MinLength(4), UsernameTooShort),
       Rule(MaxLength(8), UsernameTooLong)]
    else []
  }

  function PasswordRules(): seq<Rule> {
    [Rule(MinLength(6), PasswordTooShort), Rule(Required, PasswordRequired)]
  }

  /** Whether `value` passes check `c`; `wellFormed` says whether `value`
      matches the email pattern. */
  predicate Passes(c: Check, value: string, wellFormed: bool) {
    match c
    case Required => value != ""
    case EmailFormat => value == "" || wellFormed
    case MinLength(n) => |value| >= n
    case MaxLength(n) => |value| <= n
  }

  /** The messages of the rules `value` fails, in the rules' order. */
  function Failures(rules: seq<Rule>, value: string, wellFormed: bool): (r: seq<string>)
    ensures |r| <= |rules|
  {
    if rules == [] then []
    else
      var rest := Failures(rules[1..], value, wellFormed);
      if Passes(rules[0].check, value, wellFormed) then rest else [rules[0].message] + rest
  }

  /** A value yields no failure exactly when it passes every rule. */
  lemma {:induction false} FailuresEmptyIff(rules: seq<Rule>, value: string, wellFormed: bool)
    ensures Failures(rules, value, wellFormed) == [] <==>
      forall i :: 0 <= i < |rules| ==> Passes(rules[i].check, value, wellFormed)
  {
    if rules != [] {
      FailuresEmptyIff(rules[1..], value, wellFormed);
      if forall i :: 1 <= i < |rules| ==> Passes(rules[i].check, value, wellFormed) {
        assert forall i :: 0 <= i < |rules| - 1 ==> Passes(rules[1..][i].check, value, wellFormed);
      } else {
        var i :| 1 <= i < |rules| && !Passes(rules[i].check, value, wellFormed);
        assert rules[1..][i - 1] == rules[i];
      }
    }
  }

  /** The messages reported are exactly those of the rules `value` fails. */
  lemma {:induction false} FailuresAreFailedRules(rules: seq<Rule>, value: string, wellFormed: bool, m: string)
    ensures m in Failures(rules, value, wellFormed) <==>
      exists i :: 0 <= i < |rules| && rules[i].message == m && !Passes(rules[i].check, value, wellFormed)
  {
    if rules != [] {
      var tail := rules[1..];
      FailuresAreFailedRules(tail, value, wellFormed, m);
      if m in Failures(tail, value, wellFormed) {
        var i :| 0 <= i < |tail| && tail[i].message == m && !Passes(tail[i].check, value, wellFormed);
        assert rules[i + 1] == tail[i];
      }
    }
  }

  function Tag(field: Field, messages: seq<string>): (r: seq<FieldError>)
    ensures |r| == |messages|
    ensures forall k :: 0 <= k < |r| ==> r[k] == FieldError(field, messages[k])
  {
    if messages == [] then [] else [FieldError(field, messages[0])] + Tag(field, messages[1..])
  }

  /** Every failed check of the form, field by field. `isRegistering` is the
      validation context the page passes in. */
  function Validate(form: Credentials, isRegistering: bool, isEmail: string -> bool): seq<FieldError> {
    Tag(EmailField, Failures(EmailRules(), form.email, isEmail(form.email))) +
    Tag(UsernameField, Failures(UsernameRules(isRegistering), form.username, isEmail(form.username))) +
    Tag(PasswordField, Failures(PasswordRules(), form.password, isEmail(form.password)))
  }

  lemma EmailAcceptsIff(email: string, w: bool)
    ensures Failures(EmailRules(), email, w) == [] <==> email != "" && w
  {
    var e := EmailRules();
    FailuresEmptyIff(e, email, w);
    assert (forall i :: 0 <= i < |e| ==> Passes(e[i].check, email, w)) <==>
      Passes(e[0].check, email, w) && Passes(e[1].check, email, w);
  }

  lemma UsernameAcceptsIff(username: string, isRegistering: bool, w: bool)
    ensures Failures(UsernameRules(isRegistering), username, w) == [] <==>
      (isRegistering ==> 4 <= |username| <= 8)
  {
    var u := UsernameRules(isRegistering);
    FailuresEmptyIff(u, username, w);
    if isRegistering {
      assert (forall i :: 0 <= i < |u| ==> Passes(u[i].check, username, w)) <==>
        Passes(u[0].check, username, w) && Passes(u[1].check, username, w) && Passes(u[2].check, username, w);
    }
  }

  lemma PasswordAcceptsIff(password: string, w: bool)
    ensures Failures(PasswordRules(), password, w) == [] <==> |password| >= 6
  {
    var p := PasswordRules();
    FailuresEmptyIff(p, password, w);
    assert (forall i :: 0 <= i < |p| ==> Passes(p[i].check, password, w)) <==>
      Passes(p[0].check, password, w) && Passes(p[1].check, password, w);
  }

  /** The schema accepts exactly: a non-empty well-formed email, a password of
      at least 6 characters and, only while registering, a username of 4 to 8
      characters. */
  lemma SchemaAcceptsIff(form: Credentials, isRegistering: bool, isEmail: string -> bool)
    ensures Validate(form, isRegistering, isEmail) == [] <==>
      && form.email != "" && isEmail(form.email)
      && |form.password| >= 6
      && (isRegistering ==> 4 <= |form.username| <= 8)
  {
    EmailAcceptsIff(form.email, isEmail(form.email));
    UsernameAcceptsIff(form.username, isRegistering, isEmail(form.username));
    PasswordAcceptsIff(form.password, isEmail(form.password));
  }

  /** A form that fails a check is reported with that check's message on its field. */
  lemma FailedCheckIsReported(form: Credentials, isRegistering: bool, isEmail: string -> bool)
    requires |form.password| < 6
    ensures FieldError(PasswordField, PasswordTooShort) in
      Validate(form, isRegistering, isEmail)
  {
    var t := Tag(PasswordField, Failures(PasswordRules(), form.password, isEmail(form.password)));
    assert t[0] == FieldError(PasswordField, PasswordTooShort);
    var v := Validate(form, isRegistering, isEmail);
    assert v[|v| - |t|] == t[0];
  }
}
