/**
 * The company registration form (`src/pages/CompanyRegister.tsx`): its
 * five fields, the `validate` rules and the error clearing of `handleChange`.
 * Errors are a map from field name to message, like the form's
 * `Record<string, string>`.
 */
module CompanyRegister {
  import opened Wrappers
  import opened Text

  datatype FormData = FormData(
    companyName: string,
    industry: string,
    email: string,
    password: string,
    confirmPassword: string)

  datatype Field = CompanyName | Industry | Email | Password | ConfirmPassword

  type Errors = map<string, string>

  function FieldName(f: Field): string {
    match f
    case CompanyName => "companyName"
    case Industry => "industry"
    case Email => "email"
    case Password => "password"
    case ConfirmPassword => "confirmPassword"
  }

  const FieldNames: set<string> := {"companyName", "industry", "email", "password", "confirmPassword"}

  const MinPasswordLength := 6

  const CompanyNameRequired := "Le nom de l'entreprise est requis"
  const IndustryRequired := "Le secteur d'activité est requis"
  const EmailRequired := "L'email est requis"
  const EmailInvalid := "Email invalide"
  const PasswordRequired := "Le mot de passe est requis"
  const PasswordTooShort := "Le mot de passe doit contenir au moins 6 caractères"
  const PasswordsDiffer := "Les mots de passe ne correspondent pas"

  function Value(form: FormData, f: Field): string {
    match f
    case CompanyName => form.companyName
    case Industry => form.industry
    case Email => form.email
    case Password => form.password
    case ConfirmPassword => form.confirmPassword
  }

  function SetValue(form: FormData, f: Field, v: string): FormData {
    match f
    case CompanyName => form.(companyName := v)
    case Industry => form.(industry := v)
    case Email => form.(email := v)
    case Password => form.(password := v)
    case ConfirmPassword => form.(confirmPassword := v)
  }

  // ----- The e-mail pattern ---------------------------------------------

  /** `/\S+@\S+\.\S+/.test(s)`, unanchored: somewhere in `s` an '@' at `p`
      with a non-space before it, a '.' at `q` with a non-space after it,
      and at least one character between them, all non-space. */
  predicate EmailPattern(s: string) {
    exists p, q :: 0 < p < q < |s| && EmailAt(s, p, q)
  }

  /** The witness of a match: '@' at `p`, '.' at `q`. */
  predicate EmailAt(s: string, p: int, q: int) {
    0 < p && p + 1 < q && q + 1 < |s| && s[p] == '@' && s[q] == '.'
    && !IsSpace(s[p - 1]) && !IsSpace(s[q + 1])
    && forall k :: p < k < q ==> !IsSpace(s[k])
  }

  /** `\S+`: a non-empty run of non-space characters. */
  predicate NonSpaceRun(t: string) {
    |t| > 0 && forall k :: 0 <= k < |t| ==> !IsSpace(t[k])
  }

  /** The regular expression matches at offset `i` with the three runs `a`, `b`, `c`. */
  predicate MatchAt(s: string, i: int, a: string, b: string, c: string) {
    && NonSpaceRun(a) && NonSpaceRun(b) && NonSpaceRun(c)
    && 0 <= i <= |s| && IsPrefix(a + "@" + b + "." + c, s[i..])
  }

  // ----- validate and handleChange --------------------------------------

  /** The result of `validate`: the error map it stores and the boolean it returns. */
  datatype Validation = Validation(errors: Errors, valid: bool)

  /** `if (<field fails>) newErrors[key] = message` */
  function Put(e: Errors, key: string, error: Option<string>): Errors {
    if error.Some? then e[key := error.value] else e
  }

  /** `validate()`: one check per field, in the order `validate` runs them. */
  function Validate(form: FormData): (v: Validation)
    ensures v.valid <==> v.errors == map[]
    ensures v.errors.Keys <= FieldNames
  {
    var errors :=
      Put(Put(Put(Put(Put(map[],
        "companyName", FieldError(form, CompanyName)),
        "industry", FieldError(form, Industry)),
        "email", FieldError(form, Email)),
        "password", FieldError(form, Password)),
        "confirmPassword", FieldError(form, ConfirmPassword));
    Validation(errors, |errors.Keys| == 0)
  }

  /** The check `validate` makes on one field: its error message, if any. */
  function FieldError(form: FormData, f: Field): Option<string> {
    match f
    case CompanyName => if Trim(form.companyName) == "" then Some(CompanyNameRequired) else None
    case Industry => if Trim(form.industry) == "" then Some(IndustryRequired) else None
    case Email =>
      if Trim(form.email) == "" then Some(EmailRequired)
      else if !EmailPattern(form.email) then Some(EmailInvalid)
      else None
    case Password =>
      if form.password == "" then Some(PasswordRequired)
      else if |form.password| < MinPasswordLength then Some(PasswordTooShort)
      else None
    case ConfirmPassword => if form.password != form.confirmPassword then Some(PasswordsDiffer) else None
  }

  /** `handleChange`: set the field, and delete its error if it has a
      (non-empty) one. */
  function HandleChange(form: FormData, errors: Errors, f: Field, v: string): (r: (FormData, Errors))
    ensures Value(r.0, f) == v
    ensures forall g :: g != f ==> Value(r.0, g) == Value(form, g)
    ensures forall k :: k != FieldName(f) ==> (k in r.1 <==> k in errors)
    ensures forall k :: k in r.1 && k != FieldName(f) ==> r.1[k] == errors[k]
    ensures FieldName(f) in r.1 ==> FieldName(f) in errors && errors[FieldName(f)] == "" && r.1 == errors
    ensures FieldName(f) in errors && errors[FieldName(f)] == "" ==> r.1 == errors
  {
    var name := FieldName(f);
    var errors' := if name in errors && errors[name] != "" then errors - {name} else errors;
    (SetValue(form, f, v), errors')
  }

  // ----- Properties -----------------------------------------------------

  /** The map `validate` builds holds, under each field's name, exactly that
      field's own error. */
  lemma ValidateIsPerField(form: FormData)
    ensures forall f :: FieldName(f) in Validate(form).errors <==> FieldError(form, f).Some?
    ensures forall f :: FieldName(f) in Validate(form).errors ==>
              Validate(form).errors[FieldName(f)] == FieldError(form, f).value
  {
    var m := Validate(form).errors;
    PutChain(FieldError(form, CompanyName), FieldError(form, Industry), FieldError(form, Email),
             FieldError(form, Password), FieldError(form, ConfirmPassword));
    forall f
      ensures FieldName(f) in m <==> FieldError(form, f).Some?
      ensures FieldName(f) in m ==> m[FieldName(f)] == FieldError(form, f).value
    {
      match f
      case CompanyName =>
      case Industry =>
      case Email =>
      case Password =>
      case ConfirmPassword =>
    }
  }

  /** The five `Put`s store each field's error under its own name. */
  lemma PutChain(n: Option<string>, i: Option<string>, e: Option<string>, p: Option<string>, c: Option<string>)
    ensures var m := Put(Put(Put(Put(Put(map[], "companyName", n), "industry", i), "email", e), "password", p),
                         "confirmPassword", c);
            && ("companyName" in m <==> n.Some?) && (n.Some? ==> m["companyName"] == n.value)
            && ("industry" in m <==> i.Some?) && (i.Some? ==> m["industry"] == i.value)
            && ("email" in m <==> e.Some?) && (e.Some? ==> m["email"] == e.value)
            && ("password" in m <==> p.Some?) && (p.Some? ==> m["password"] == p.value)
            && ("confirmPassword" in m <==> c.Some?) && (c.Some? ==> m["confirmPassword"] == c.value)
  {
  }

  lemma FieldNamesDistinct()
    ensures forall f, g :: f != g ==> FieldName(f) != FieldName(g)
  {
  }

  /** A blank (empty or white-space only) company name, and only that, gives
      the company-name error. */
  lemma ValidateCompanyName(form: FormData)
    ensures "companyName" in Validate(form).errors <==> IsBlank(form.companyName)
    ensures "companyName" in Validate(form).errors ==>
              Validate(form).errors["companyName"] == CompanyNameRequired
  {
    ValidateIsPerField(form);
    TrimEmptyIffBlank(form.companyName);
    assert FieldName(CompanyName) in Validate(form).errors <==> FieldError(form, CompanyName).Some?;
  }

  /** A blank industry, and only that, gives the industry error. */
  lemma ValidateIndustry(form: FormData)
    ensures "industry" in Validate(form).errors <==> IsBlank(form.industry)
    ensures "industry" in Validate(form).errors ==>
              Validate(form).errors["industry"] == IndustryRequired
  {
    ValidateIsPerField(form);
    TrimEmptyIffBlank(form.industry);
    assert FieldName(Industry) in Validate(form).errors <==> FieldError(form, Industry).Some?;
  }

  /** A blank e-mail is "required"; a non-blank one is "invalid" iff no part
      of it matches the pattern; the key holds one message at most. */
  lemma ValidateEmail(form: FormData)
    ensures "email" in Validate(form).errors <==> IsBlank(form.email) || !EmailPattern(form.email)
    ensures "email" in Validate(form).errors ==>
              Validate(form).errors["email"] == if IsBlank(form.email) then EmailRequired else EmailInvalid
  {
    ValidateIsPerField(form);
    TrimEmptyIffBlank(form.email);
    assert FieldName(Email) in Validate(form).errors <==> FieldError(form, Email).Some?;
  }

  /** An empty password is "required"; otherwise one shorter than six
      characters is "too short"; white space counts, nothing is trimmed. */
  lemma ValidatePassword(form: FormData)
    ensures "password" in Validate(form).errors <==> |form.password| < MinPasswordLength
    ensures "password" in Validate(form).errors ==>
              Validate(form).errors["password"] == if form.password == "" then PasswordRequired else PasswordTooShort
  {
    ValidateIsPerField(form);
    assert FieldName(Password) in Validate(form).errors <==> FieldError(form, Password).Some?;
  }

  /** The confirmation error appears iff the passwords differ, whatever the
      password's own error. */
  lemma ValidateConfirmPassword(form: FormData)
    ensures "confirmPassword" in Validate(form).errors <==> form.password != form.confirmPassword
    ensures "confirmPassword" in Validate(form).errors ==>
              Validate(form).errors["confirmPassword"] == PasswordsDiffer
  {
    ValidateIsPerField(form);
    assert FieldName(ConfirmPassword) in Validate(form).errors <==> FieldError(form, ConfirmPassword).Some?;
  }

  /** `validate` never stores an empty message. */
  lemma ValidateMessagesNonEmpty(form: FormData)
    ensures forall k :: k in Validate(form).errors ==> Validate(form).errors[k] != ""
  {
    ValidateIsPerField(form);
    var e := Validate(form).errors;
    forall k | k in e ensures e[k] != "" {
      var f := FieldOf(k);
      assert e[FieldName(f)] == FieldError(form, f).value;
      match f
      case CompanyName =>
      case Industry =>
      case Email =>
      case Password =>
      case ConfirmPassword =>
    }
  }

  /** The field a key of the error map names. */
  function FieldOf(key: string): (f: Field)
    requires key in FieldNames
    ensures FieldName(f) == key
  {
    if key == "companyName" then CompanyName
    else if key == "industry" then Industry
    else if key == "email" then Email
    else if key == "password" then Password
    else ConfirmPassword
  }

  /** The explicit predicate is the regular expression: it holds exactly
      when some offset starts a match of `\S+@\S+\.\S+`. */
  lemma EmailPatternIsRegex(s: string)
    ensures EmailPattern(s) <==> exists i, a, b, c :: MatchAt(s, i, a, b, c)
  {
    if EmailPattern(s) {
      var p, q :| 0 < p < q < |s| && EmailAt(s, p, q);
      var a, b, c := [s[p - 1]], s[p + 1..q], [s[q + 1]];
      assert (a + "@" + b + "." + c) == s[p - 1..q + 2];
      assert MatchAt(s, p - 1, a, b, c);
    }
    if exists i, a, b, c :: MatchAt(s, i, a, b, c) {
      var i, a, b, c :| MatchAt(s, i, a, b, c);
      var m := a + "@" + b + "." + c;
      var p := i + |a|;
      var q := p + 1 + |b|;
      assert s[i..][..|m|] == m;
      assert s[p] == m[|a|] == '@';
      assert s[q] == m[|a| + 1 + |b|] == '.';
      assert s[p - 1] == m[|a| - 1] == a[|a| - 1];
      assert s[q + 1] == m[|a| + 2 + |b|] == c[0];
      forall k | p < k < q ensures !IsSpace(s[k]) {
        assert s[k] == m[k - i] == b[k - p - 1];
      }
      assert EmailAt(s, p, q);
    }
  }

  /** The test is unanchored: text around a match does not stop it matching. */
  lemma EmailPatternUnanchored(pre: string, s: string, post: string)
    requires EmailPattern(s)
    ensures EmailPattern(pre + s + post)
  {
    var p, q :| 0 < p < q < |s| && EmailAt(s, p, q);
    var t := pre + s + post;
    var n := |pre|;
    assert forall k :: 0 <= k < |s| ==> t[n + k] == s[k];
    assert forall k :: n + p < k < n + q ==> !IsSpace(t[k]);
    assert EmailAt(t, n + p, n + q);
  }

  /** A string without an '@' never matches. */
  lemma EmailPatternNeedsAt(s: string)
    requires '@' !in s
    ensures !EmailPattern(s)
  {
  }

  /** Sample inputs: a plain address matches, and so does text with an
      address inside it; a space before the '@' or a missing dot does not. */
  lemma EmailPatternExamples()
    ensures EmailPattern("a@b.c")
    ensures EmailPattern("contact: a@b.c !")
    ensures !EmailPattern("a @b.c")
    ensures !EmailPattern("a@bc")
  {
    assert EmailAt("a@b.c", 1, 3);
    EmailPatternUnanchored("contact: ", "a@b.c", " !");
    assert "contact: " + "a@b.c" + " !" == "contact: a@b.c !";
    var s := "a @b.c";
    assert forall p :: 0 <= p < |s| && s[p] == '@' ==> p == 2;
    var t := "a@bc";
    assert forall q :: 0 <= q < |t| ==> t[q] != '.';
  }

  /** Editing a field right after `validate` removes exactly that field's
      error, since `validate` never stores an empty message. */
  lemma EditClearsOnlyThatError(form: FormData, f: Field, v: string)
    ensures HandleChange(form, Validate(form).errors, f, v).1 == Validate(form).errors - {FieldName(f)}
  {
    ValidateMessagesNonEmpty(form);
  }

  /** Editing a field twice is editing it once with the last value. */
  lemma EditTwice(form: FormData, errors: Errors, f: Field, v1: string, v2: string)
    ensures var r1 := HandleChange(form, errors, f, v1);
            HandleChange(r1.0, r1.1, f, v2) == HandleChange(form, errors, f, v2)
  {
  }

  /** Each field's error depends only on that field (the confirmation on
      both passwords): editing one field never changes another's verdict. */
  lemma ErrorsAreLocal(form: FormData, f: Field, v: string, g: Field)
    requires g != f && !(f == Password && g == ConfirmPassword)
    ensures var e := Validate(form).errors;
            var e' := Validate(SetValue(form, f, v)).errors;
            && (FieldName(g) in e <==> FieldName(g) in e')
            && (FieldName(g) in e ==> e[FieldName(g)] == e'[FieldName(g)])
  {
    var form' := SetValue(form, f, v);
    assert FieldError(form', g) == FieldError(form, g) by {
      match g
      case CompanyName => assert form'.companyName == form.companyName;
      case Industry => assert form'.industry == form.industry;
      case Email => assert form'.email == form.email;
      case Password => assert form'.password == form.password;
      case ConfirmPassword => assert form'.password == form.password && form'.confirmPassword == form.confirmPassword;
    }
    ValidateIsPerField(form);
    ValidateIsPerField(form');
  }
}
