/** The login and forgot-password schemas of src/schemas/auth.schema.ts as
    zod object shapes, and the typed forms the auth store validates with
    them. */
module AuthSchema {
  import opened Wrappers
  import opened Issues
  import opened Zod
  import Validator

  const UsernameMessage: string := "Username must be at least 3 characters"
  const EmailMessage: string := "Invalid email"
  const PasswordMessage: string := "Password must be at least 8 characters"

  const UsernameRule: Rule := ZString([Min(3, Some(UsernameMessage))])
  const EmailRule: Rule := ZString([Email(Some(EmailMessage))])
  const PasswordRule: Rule := ZString([Min(8, Some(PasswordMessage))])

  /** `LoginSchema`. */
  const LoginShape: seq<Field> :=
    [Field("username", UsernameRule), Field("email", EmailRule), Field("password", PasswordRule)]

  /** `ForgotPasswordSchema`. */
  const ForgotShape: seq<Field> := [Field("email", EmailRule), Field("password", PasswordRule)]

  /** `LoginSchemaType`. */
  datatype LoginForm = LoginForm(username: string, email: string, password: string)

  /** `ForgotPasswordSchemaType`. */
  datatype ForgotForm = ForgotForm(email: string, password: string)

  function LoginValues(f: LoginForm): map<string, JsValue> {
    map["username" := Str(f.username), "email" := Str(f.email), "password" := Str(f.password)]
  }

  function ForgotValues(f: ForgotForm): map<string, JsValue> {
    map["email" := Str(f.email), "password" := Str(f.password)]
  }

  /** `LoginSchema.safeParse(form)` on a typed form: the form itself when it
      passes (zod returns the same three strings). */
  function LoginParse(z: Oracle, f: LoginForm): ParseOutcome<LoginForm> {
    var issues := ObjectIssues(z, LoginShape, LoginValues(f));
    if issues == [] then Parsed(f) else Rejected(issues)
  }

  /** `ForgotPasswordSchema.safeParse(form)` on a typed form. */
  function ForgotParse(z: Oracle, f: ForgotForm): ParseOutcome<ForgotForm> {
    var issues := ObjectIssues(z, ForgotShape, ForgotValues(f));
    if issues == [] then Parsed(f) else Rejected(issues)
  }

  lemma LoginLookups(f: LoginForm)
    ensures Lookup(LoginValues(f), "username") == Some(Str(f.username))
    ensures Lookup(LoginValues(f), "email") == Some(Str(f.email))
    ensures Lookup(LoginValues(f), "password") == Some(Str(f.password))
  {
    assert "username"[0] != "password"[0];
  }

  lemma ForgotLookups(f: ForgotForm)
    ensures Lookup(ForgotValues(f), "email") == Some(Str(f.email))
    ensures Lookup(ForgotValues(f), "password") == Some(Str(f.password))
  {
  }

  /** The issue a failing rule raises on a string, at the field itself. */
  function Fails(bad: bool, field: string, message: string): seq<Issue> {
    if bad then [Issue([Key(field)], message)] else []
  }

  /** A username shorter than 3 (UTF-16 units) fails with the username message. */
  lemma UsernameRuleSpec(z: Oracle, u: string)
    ensures Run(z, UsernameRule, Some(Str(u))) == if Utf16Length(u) < 3 then [Here(UsernameMessage)] else []
  {
    SingleCheck(z, Min(3, Some(UsernameMessage)), u);
  }

  /** A string the email test rejects fails with 'Invalid email'. */
  lemma EmailRuleSpec(z: Oracle, e: string)
    ensures Run(z, EmailRule, Some(Str(e))) == if z.isEmail(e) then [] else [Here(EmailMessage)]
  {
    SingleCheck(z, Email(Some(EmailMessage)), e);
  }

  /** A password shorter than 8 (UTF-16 units) fails with the password message. */
  lemma PasswordRuleSpec(z: Oracle, p: string)
    ensures Run(z, PasswordRule, Some(Str(p))) == if Utf16Length(p) < 8 then [Here(PasswordMessage)] else []
  {
    SingleCheck(z, Min(8, Some(PasswordMessage)), p);
  }

  /** A rule's issues on a field, re-rooted under the field's name. */
  lemma UnderField(name: string, bad: bool, message: string)
    ensures Under(Key(name), if bad then [Here(message)] else []) == Fails(bad, name, message)
  {
    if bad {
      assert Under(Key(name), [Here(message)])[0] == Issue([Key(name)], message);
    }
  }

  /** The issues of a login form, exactly: at most one per field, in field
      order, each carrying that field's custom message. */
  lemma LoginIssues(z: Oracle, f: LoginForm)
    ensures ObjectIssues(z, LoginShape, LoginValues(f)) ==
              Fails(Utf16Length(f.username) < 3, "username", UsernameMessage)
              + Fails(!z.isEmail(f.email), "email", EmailMessage)
              + Fails(Utf16Length(f.password) < 8, "password", PasswordMessage)
  {
    var vs := LoginValues(f);
    LoginLookups(f);
    ObjectIssues3(z, LoginShape[0], LoginShape[1], LoginShape[2], vs);
    UsernameRuleSpec(z, f.username);
    EmailRuleSpec(z, f.email);
    PasswordRuleSpec(z, f.password);
    UnderField("username", Utf16Length(f.username) < 3, UsernameMessage);
    UnderField("email", !z.isEmail(f.email), EmailMessage);
    UnderField("password", Utf16Length(f.password) < 8, PasswordMessage);
  }

  /** The issues of a forgot-password form, exactly. */
  lemma ForgotIssues(z: Oracle, f: ForgotForm)
    ensures ObjectIssues(z, ForgotShape, ForgotValues(f)) ==
              Fails(!z.isEmail(f.email), "email", EmailMessage)
              + Fails(Utf16Length(f.password) < 8, "password", PasswordMessage)
  {
    var vs := ForgotValues(f);
    ForgotLookups(f);
    ObjectIssues2(z, ForgotShape[0], ForgotShape[1], vs);
    EmailRuleSpec(z, f.email);
    PasswordRuleSpec(z, f.password);
    UnderField("email", !z.isEmail(f.email), EmailMessage);
    UnderField("password", Utf16Length(f.password) < 8, PasswordMessage);
  }

  /** The forgot-password schema is the login schema without its username
      field: the same email and password rules, and no other field. */
  lemma ForgotIsLoginWithoutUsername()
    ensures ForgotShape == LoginShape[1..]
    ensures Names(ForgotShape) == {"email", "password"}
  {
    assert ForgotShape[0].name == "email" && ForgotShape[1].name == "password";
  }

  /** A login form passes exactly when username and password are long enough
      and the email test accepts the email. */
  lemma LoginParseSpec(z: Oracle, f: LoginForm)
    ensures LoginParse(z, f).Parsed? <==>
              Utf16Length(f.username) >= 3 && z.isEmail(f.email) && Utf16Length(f.password) >= 8
    ensures LoginParse(z, f).Parsed? ==> LoginParse(z, f).data == f
  {
    LoginIssues(z, f);
  }

  /** A forgot-password form passes exactly when the email test accepts the
      email and the password is long enough. */
  lemma ForgotParseSpec(z: Oracle, f: ForgotForm)
    ensures ForgotParse(z, f).Parsed? <==> z.isEmail(f.email) && Utf16Length(f.password) >= 8
    ensures ForgotParse(z, f).Parsed? ==> ForgotParse(z, f).data == f
  {
    ForgotIssues(z, f);
  }

  /** Folding one field's failure into an error map under `validate`'s
      keying: the field's entry is set to its message exactly when it
      fails. */
  lemma FailsStep(prefix: seq<Issue>, bad: bool, name: string, message: string)
    requires name != ""
    ensures LastWins(prefix + Fails(bad, name, message), Validator.FieldOf) ==
              if bad then LastWins(prefix, Validator.FieldOf)[name := message]
              else LastWins(prefix, Validator.FieldOf)
  {
    var f := Fails(bad, name, message);
    LastWinsAppendOne(prefix, f, Validator.FieldOf);
    if bad {
      assert Validator.FieldOf(f[0]) == name;
    }
  }

  /** The error map the auth store gets back from `validate(LoginSchema, form)`:
      one entry per failing field, under the field's name, with its message. */
  lemma LoginErrors(z: Oracle, f: LoginForm)
    ensures var errors := LastWins(ObjectIssues(z, LoginShape, LoginValues(f)), Validator.FieldOf);
            ("username" in errors <==> Utf16Length(f.username) < 3) &&
            ("username" in errors ==> errors["username"] == UsernameMessage) &&
            ("email" in errors <==> !z.isEmail(f.email)) &&
            ("email" in errors ==> errors["email"] == EmailMessage) &&
            ("password" in errors <==> Utf16Length(f.password) < 8) &&
            ("password" in errors ==> errors["password"] == PasswordMessage) &&
            errors.Keys <= {"username", "email", "password"}
  {
    LoginIssues(z, f);
    var ub, eb, pb := Utf16Length(f.username) < 3, !z.isEmail(f.email), Utf16Length(f.password) < 8;
    var a := Fails(ub, "username", UsernameMessage);
    var b := Fails(eb, "email", EmailMessage);
    var c := Fails(pb, "password", PasswordMessage);
    assert [] + a == a;
    FailsStep([], ub, "username", UsernameMessage);
    FailsStep(a, eb, "email", EmailMessage);
    FailsStep(a + b, pb, "password", PasswordMessage);
    var m0: map<string, string> := if ub then map["username" := UsernameMessage] else map[];
    var m1 := if eb then m0["email" := EmailMessage] else m0;
    var m2 := if pb then m1["password" := PasswordMessage] else m1;
    assert LastWins(a + b + c, Validator.FieldOf) == m2;
    assert |"username"| != |"email"| && |"email"| != |"password"| && "username"[0] != "password"[0];
  }

  /** The error map `validate(ForgotPasswordSchema, form)` gives back. */
  lemma ForgotErrors(z: Oracle, f: ForgotForm)
    ensures var errors := LastWins(ObjectIssues(z, ForgotShape, ForgotValues(f)), Validator.FieldOf);
            ("email" in errors <==> !z.isEmail(f.email)) &&
            ("email" in errors ==> errors["email"] == EmailMessage) &&
            ("password" in errors <==> Utf16Length(f.password) < 8) &&
            ("password" in errors ==> errors["password"] == PasswordMessage) &&
            errors.Keys <= {"email", "password"}
  {
    ForgotIssues(z, f);
    var eb, pb := !z.isEmail(f.email), Utf16Length(f.password) < 8;
    var b := Fails(eb, "email", EmailMessage);
    assert [] + b == b;
    FailsStep([], eb, "email", EmailMessage);
    FailsStep(b, pb, "password", PasswordMessage);
    assert |"email"| != |"password"|;
  }
}
