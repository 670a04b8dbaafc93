/**
 * The sign-up schema `SignupValidation`: an object of four string fields, each with one
 * acceptance rule and one fixed error message. Parsing checks every field and reports every field
 * that fails, in the schema's field order; it accepts only when no field fails.
 * The e-mail format rule belongs to the schema library and is taken as the parameter `isEmail`.
 */
module Validation {
  import opened Wrappers

  datatype SignupForm = SignupForm(name: string, username: string, email: string, password: string)

  datatype Field = Name | Username | Email | Password

  datatype Issue = Issue(field: Field, message: string)

  const NameMin: nat := 2
  const UsernameMin: nat := 4
  const PasswordMin: nat := 8

  const NameMessage := "Name must be atleast 2 characters!"
  const UsernameMessage := "Username must be atleast 4 characters!"
  const PasswordMessage := "Password must be atleast 8 characters!"
  /** The schema library's own message for its e-mail rule; the schema sets none. */
  const EmailMessage := "Invalid email"

  function MessageFor(f: Field): string
  {
    match f
    case Name => NameMessage
    case Username => UsernameMessage
    case Email => EmailMessage
    case Password => PasswordMessage
  }

  /** The acceptance rule of each field, stated on its own. */
  predicate FieldAccepted(form: SignupForm, f: Field, isEmail: string -> bool)
  {
    match f
    case Name => |form.name| >= NameMin
    case Username => |form.username| >= UsernameMin
    case Email => isEmail(form.email)
    case Password => |form.password| >= PasswordMin
  }

  /** Reference definition: the whole form is accepted when all four rules hold. */
  predicate Accepted(form: SignupForm, isEmail: string -> bool)
  {
    |form.name| >= NameMin && |form.username| >= UsernameMin &&
    isEmail(form.email) && |form.password| >= PasswordMin
  }

  /** A `.min(n, { message })` rule on one string field: no issue, or one issue with that message. */
  function MinLength(s: string, n: nat, f: Field): (issues: seq<Issue>)
    ensures |issues| == 0 <==> |s| >= n
    ensures |issues| != 0 ==> issues == [Issue(f, MessageFor(f))]
  {
    if |s| < n then [Issue(f, MessageFor(f))] else []
  }

  /** The issues of all four fields, name, username, email and password in that order. */
  function Issues(form: SignupForm, isEmail: string -> bool): (issues: seq<Issue>)
    ensures |issues| <= 4
    ensures |issues| == 0 <==> Accepted(form, isEmail)
    ensures forall i :: 0 <= i < |issues| ==>
              issues[i].message == MessageFor(issues[i].field) &&
              !FieldAccepted(form, issues[i].field, isEmail)
  {
    MinLength(form.name, NameMin, Name)
    + MinLength(form.username, UsernameMin, Username)
    + (if isEmail(form.email) then [] else [Issue(Email, MessageFor(Email))])
    + MinLength(form.password, PasswordMin, Password)
  }

  /** `SignupValidation.safeParse(form)`: the form itself when accepted, else every issue found. */
  function ParseSignup(form: SignupForm, isEmail: string -> bool): (r: Result<SignupForm, seq<Issue>>)
    ensures r.Success? <==> Accepted(form, isEmail)
    ensures r.Success? ==> r.value == form
    ensures r.Failure? ==> 1 <= |r.error| <= 4 && r.error == Issues(form, isEmail)
  {
    var issues := Issues(form, isEmail);
    if |issues| == 0 then Success(form) else Failure(issues)
  }

  /**
   * Each rule in both directions, with its own bound and its own message: a field is reported
   * exactly when it fails.
   */
  lemma FieldRules(form: SignupForm, isEmail: string -> bool)
    ensures (Issue(Name, "Name must be atleast 2 characters!") in Issues(form, isEmail))
            <==> |form.name| < 2
    ensures (Issue(Username, "Username must be atleast 4 characters!") in Issues(form, isEmail))
            <==> |form.username| < 4
    ensures Issue(Email, EmailMessage) in Issues(form, isEmail) <==> !isEmail(form.email)
    ensures (Issue(Password, "Password must be atleast 8 characters!") in Issues(form, isEmail))
            <==> |form.password| < 8
  {
    var name := MinLength(form.name, NameMin, Name);
    var username := MinLength(form.username, UsernameMin, Username);
    var email: seq<Issue> := if isEmail(form.email) then [] else [Issue(Email, MessageFor(Email))];
    var password := MinLength(form.password, PasswordMin, Password);
    assert Issues(form, isEmail) == name + username + email + password;
    // each part can only hold its own field's issue
    assert forall x :: x in name ==> x.field == Name;
    assert forall x :: x in username ==> x.field == Username;
    assert forall x :: x in email ==> x.field == Email;
    assert forall x :: x in password ==> x.field == Password;
    assert (Issue(Name, NameMessage) in name) <==> |form.name| < 2;
    assert (Issue(Username, UsernameMessage) in username) <==> |form.username| < 4;
    assert (Issue(Email, EmailMessage) in email) <==> !isEmail(form.email);
    assert (Issue(Password, PasswordMessage) in password) <==> |form.password| < 8;
  }
}
