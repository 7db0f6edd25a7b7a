/** The request validators (zod schemas): the password rule, sign-in and
    sign-up, the contact form bounds, bulk user rows and the WhatsApp
    business account fields.

    A schema runs every check of every field and reports all failures, in
    field order and, within a field, in check order; a field's `trim` and
    `transform` produce the value the handler receives. E-mail syntax and
    phone-number validity come from foreign libraries and are the parameters
    `isEmail` and `validPhone`. Lengths count characters. */
module Validations {
  import opened Common
  import opened Text

  const RequestForOptions: seq<string> := ["legal", "hr", "finance", "research", "customer-support", "other"]
  const CompanySizeOptions: seq<string> := ["1-10", "11-50", "51-200", "201-1000", "1000+"]

  /** A failed check; `Message` gives the text reported for it. */
  datatype Issue =
    PasswordRequired
    | PasswordBlank
    | PasswordTooShort
    | PasswordWeak
    | InvalidEmail
    | EmailTooLong
    | NameRequired
    | NameTooLong
    | LastNameRequired
    | LastNameTooLong
    | PhoneTooLong
    | MessageTooLong
    | BadRequestFor
    | CompanyTooLong
    | JobTitleTooLong
    | BadCompanySize
    | TokenRequired
    | CompanyNameRequired
    | RowNameRequired
    | RowEmailInvalid
    | RowPhoneRequired
    | RowPhoneNoPlus
    | PhoneInvalid
    | RoleRequired
    | RoleUnknown
    | BusinessPhoneRequired
    | BusinessPhoneNoPlus
    | AccessTokenRequired
    | AppIdRequired
    | AppSecretRequired

  function Message(issue: Issue): string
  {
    match issue
    case PasswordRequired => "Password is required"
    case PasswordBlank => "Password cannot be empty or only whitespace"
    case PasswordTooShort => "Password must be at least 8 characters"
    case PasswordWeak => "Password must contain at least one uppercase letter, one lowercase letter, one number, and one special character"
    case InvalidEmail => "Invalid email format"
    case EmailTooLong => "Email too long"
    case NameRequired => "Name is required"
    case NameTooLong => "Name too long"
    case LastNameRequired => "Last name is required"
    case LastNameTooLong => "Last name too long"
    case PhoneTooLong => "Phone number too long"
    case MessageTooLong => "Message too long"
    case BadRequestFor => "Request type must be one of: legal, hr, finance, research, customer-support, other"
    case CompanyTooLong => "Company name too long"
    case JobTitleTooLong => "Job title too long"
    case BadCompanySize => "Company size must be one of: 1-10, 11-50, 51-200, 201-1000, 1000+"
    case TokenRequired => "reCAPTCHA token is required"
    case CompanyNameRequired => "Company name is required"
    case RowNameRequired => "\"Name\" is required"
    case RowEmailInvalid => "\"Email\" is not valid"
    case RowPhoneRequired => "\"Whatsapp Number\" is required."
    case RowPhoneNoPlus => "The WhatsApp number must start with a '+' followed by the country code (e.g., +1 for USA, +91 for India)."
    case PhoneInvalid => "The WhatsApp number is not valid. Please include a valid country code and number."
    case RoleRequired => "\"Role\" is required"
    case RoleUnknown => "\"Role\" must be either 'User' or 'Admin'"
    case BusinessPhoneRequired => "Business WhatsApp number is required"
    case BusinessPhoneNoPlus => "The WhatsApp number must start with a \"+\" followed by the country code (e.g., +1 for USA, +91 for India)."
    case AccessTokenRequired => "Permanent access token is required"
    case AppIdRequired => "App ID is required"
    case AppSecretRequired => "App secret key is required"
  }

  /** The issue of one check, when it fails. */
  function Check(ok: bool, issue: Issue): (r: seq<Issue>)
    ensures r == [] <==> ok
  {
    if ok then [] else [issue]
  }

  // ---------------------------------------------------------------------------
  // The password expression
  //   ^(?=.*[a-z])(?=.*[A-Z])(?=.*\d)(?=.*[@$!%*?&])[A-Za-z\d@$!%*?&]{8,}$
  // ---------------------------------------------------------------------------

  datatype CharClass = Lower | Upper | DigitChar | Special

  predicate InClass(c: char, cls: CharClass)
  {
    match cls
    case Lower => 'a' <= c <= 'z'
    case Upper => 'A' <= c <= 'Z'
    case DigitChar => '0' <= c <= '9'
    case Special => c in "@$!%*?&"
  }

  /** `[A-Za-z\d@$!%*?&]`. */
  predicate PasswordChar(c: char)
  {
    InClass(c, Lower) || InClass(c, Upper) || InClass(c, DigitChar) || InClass(c, Special)
  }

  /** The characters `.` does not match without the `s` flag. */
  predicate IsLineTerminator(c: char)
  {
    c == '\n' || c == '\r' || c == '\U{2028}' || c == '\U{2029}'
  }

  predicate NoLineTerminatorBefore(s: string, i: nat)
  {
    forall k :: 0 <= k < i && k < |s| ==> !IsLineTerminator(s[k])
  }

  /** `(?=.*[cls])` at the start: a character of the class occurs before any
      line terminator. */
  predicate LookaheadFinds(s: string, cls: CharClass)
  {
    exists i :: 0 <= i < |s| && InClass(s[i], cls) && NoLineTerminatorBefore(s, i)
  }

  /** `getPasswordRegex().test(s)`. */
  predicate PasswordRegex(s: string)
  {
    && LookaheadFinds(s, Lower)
    && LookaheadFinds(s, Upper)
    && LookaheadFinds(s, DigitChar)
    && LookaheadFinds(s, Special)
    && |s| >= 8
    && forall i :: 0 <= i < |s| ==> PasswordChar(s[i])
  }

  predicate HasCharOf(s: string, cls: CharClass)
  {
    exists i :: 0 <= i < |s| && InClass(s[i], cls)
  }

  /** The rule the expression is meant to state: at least 8 characters, all
      letters, digits or `@$!%*?&`, with at least one of each kind. */
  predicate PasswordRule(s: string)
  {
    && |s| >= 8
    && (forall i :: 0 <= i < |s| ==> PasswordChar(s[i]))
    && HasCharOf(s, Lower) && HasCharOf(s, Upper) && HasCharOf(s, DigitChar) && HasCharOf(s, Special)
  }

  /** The lookaheads cannot be cut short by a line terminator, because the
      body of the expression admits none: the expression accepts exactly the
      passwords of the rule. */
  lemma PasswordRegexIsRule(s: string)
    ensures PasswordRegex(s) <==> PasswordRule(s)
  {
    if PasswordRule(s) {
      forall cls ensures LookaheadFinds(s, cls) {
        var i :| 0 <= i < |s| && InClass(s[i], cls);
        assert NoLineTerminatorBefore(s, i);
      }
    }
    if PasswordRegex(s) {
      forall cls ensures HasCharOf(s, cls) {
        var i :| 0 <= i < |s| && InClass(s[i], cls) && NoLineTerminatorBefore(s, i);
      }
    }
  }

  /** A password with one character of each kind is accepted. */
  lemma PasswordAccepted()
    ensures PasswordRegex("Secret1!")
  {
    var s := "Secret1!";
    assert InClass(s[1], Lower) && InClass(s[0], Upper) && InClass(s[6], DigitChar) && InClass(s[7], Special);
    assert HasCharOf(s, Lower) && HasCharOf(s, Upper) && HasCharOf(s, DigitChar) && HasCharOf(s, Special);
    forall i | 0 <= i < |s| ensures PasswordChar(s[i]) {
      assert InClass(s[i], Lower) || InClass(s[i], Upper) || InClass(s[i], DigitChar) || InClass(s[i], Special);
    }
    PasswordRegexIsRule(s);
  }

  /** Without an upper-case letter the same password is refused. */
  lemma PasswordRefused()
    ensures !PasswordRegex("secret1!")
  {
    var t := "secret1!";
    forall i | 0 <= i < |t| ensures !InClass(t[i], Upper) {
    }
  }

  // ---------------------------------------------------------------------------
  // Sign-in and sign-up
  // ---------------------------------------------------------------------------

  /** `password: z.string().min(1).refine(val => val.trim().length > 0)`. */
  function SigninPasswordIssues(password: string): (r: seq<Issue>)
    ensures r == [] <==> !AllWhitespace(password)
  {
    TrimEmpty(password);
    Check(|password| >= 1, PasswordRequired)
    + Check(|Trim(password)| > 0, PasswordBlank)
  }

  datatype Signin = Signin(email: string, password: string)

  function SigninIssues(form: Signin, isEmail: string -> bool): (r: seq<Issue>)
    ensures r == [] <==> isEmail(form.email) && |form.email| <= 255 && !AllWhitespace(form.password)
  {
    Check(isEmail(form.email), InvalidEmail)
    + Check(|form.email| <= 255, EmailTooLong)
    + SigninPasswordIssues(form.password)
  }

  /** `password: z.string().min(8).refine(val => getPasswordRegex().test(val))`. */
  function SignupPasswordIssues(password: string): (r: seq<Issue>)
    ensures r == [] <==> PasswordRule(password)
  {
    PasswordRegexIsRule(password);
    Check(|password| >= 8, PasswordTooShort)
    + Check(PasswordRegex(password),
        PasswordWeak)
  }

  /** The length check of the sign-up password adds nothing to the expression:
      it fails only on passwords the expression rejects as well. */
  lemma SignupLengthSubsumed(password: string)
    ensures SignupPasswordIssues(password) == [] <==> PasswordRegex(password)
    ensures |password| < 8 ==> |SignupPasswordIssues(password)| == 2
  {
    PasswordRegexIsRule(password);
  }

  datatype Signup = Signup(name: string, email: string, password: string, wpNumber: Option<string>, companyName: string)

  function SignupIssues(form: Signup, isEmail: string -> bool): (r: seq<Issue>)
    ensures r == [] <==>
      && 1 <= |form.name| <= 255
      && isEmail(form.email) && |form.email| <= 255
      && PasswordRule(form.password)
      && (form.wpNumber.Some? ==> |form.wpNumber.value| <= 20)
      && 1 <= |form.companyName| <= 255
  {
    Check(|form.name| >= 1, NameRequired)
    + Check(|form.name| <= 255, NameTooLong)
    + Check(isEmail(form.email), InvalidEmail)
    + Check(|form.email| <= 255, EmailTooLong)
    + SignupPasswordIssues(form.password)
    + Check(form.wpNumber.None? || |form.wpNumber.value| <= 20, PhoneTooLong)
    + Check(|form.companyName| >= 1, CompanyNameRequired)
    + Check(|form.companyName| <= 255, CompanyTooLong)
  }

  // ---------------------------------------------------------------------------
  // Contact form
  // ---------------------------------------------------------------------------

  datatype ContactUs = ContactUs(
    name: string, lastname: string, email: string, phone: Option<string>, message: Option<string>,
    requestFor: Option<string>, company: Option<string>, jobTitle: Option<string>,
    companySize: Option<string>, token: string, domain: Option<string>)

  /** An optional field is absent or within `max` characters. */
  predicate AtMost(s: Option<string>, max: nat)
  {
    s.None? || |s.value| <= max
  }

  /** An optional field is absent or one of the fixed options. */
  predicate OneOf(s: Option<string>, options: seq<string>)
  {
    s.None? || s.value in options
  }

  function ContactUsIssues(form: ContactUs, isEmail: string -> bool): (r: seq<Issue>)
    ensures r == [] <==>
      && 1 <= |form.name| <= 255 && 1 <= |form.lastname| <= 255
      && isEmail(form.email) && |form.email| <= 255
      && AtMost(form.phone, 20) && AtMost(form.message, 1000)
      && AtMost(form.company, 255) && AtMost(form.jobTitle, 255)
      && OneOf(form.requestFor, RequestForOptions) && OneOf(form.companySize, CompanySizeOptions)
      && |form.token| >= 1
  {
    Check(|form.name| >= 1, NameRequired)
    + Check(|form.name| <= 255, NameTooLong)
    + Check(|form.lastname| >= 1, LastNameRequired)
    + Check(|form.lastname| <= 255, LastNameTooLong)
    + Check(isEmail(form.email), InvalidEmail)
    + Check(|form.email| <= 255, EmailTooLong)
    + Check(AtMost(form.phone, 20), PhoneTooLong)
    + Check(AtMost(form.message, 1000), MessageTooLong)
    + Check(OneOf(form.requestFor, RequestForOptions),
        BadRequestFor)
    + Check(AtMost(form.company, 255), CompanyTooLong)
    + Check(AtMost(form.jobTitle, 255), JobTitleTooLong)
    + Check(OneOf(form.companySize, CompanySizeOptions),
        BadCompanySize)
    + Check(|form.token| >= 1, TokenRequired)
  }

  // ---------------------------------------------------------------------------
  // Trimmed fields: bulk user rows and the WhatsApp business account
  // ---------------------------------------------------------------------------

  /** `z.string().trim().min(1, required)`: the trimmed value, or the issue. */
  function RequiredTrimmed(raw: string, required: Issue): (r: Result<string, seq<Issue>>)
    ensures r.Ok? <==> !AllWhitespace(raw)
    ensures r.Ok? ==> r.value == Trim(raw) && r.value != []
    ensures r.Err? ==> r.error == [required]
  {
    TrimEmpty(raw);
    var t := Trim(raw);
    if |t| >= 1 then Ok(t) else Err([required])
  }

  /** The two refinements of a WhatsApp number: it starts with `+` and the
      phone library accepts it. */
  function WhatsAppNumber(raw: string, validPhone: string -> bool, required: Issue, noPlus: Issue): (r: Result<string, seq<Issue>>)
    ensures r.Ok? <==> var t := Trim(raw); t != [] && t[0] == '+' && validPhone(t)
    ensures r.Ok? ==> r.value == Trim(raw)
  {
    var t := Trim(raw);
    assert StartsWith(t, "+") <==> t != [] && t[0] == '+' by {
      if t != [] { assert t[..1] == [t[0]]; }
    }
    var issues := Check(|t| >= 1, required) + Check(StartsWith(t, "+"), noPlus) + Check(validPhone(t), PhoneInvalid);
    if issues == [] then Ok(t) else Err(issues)
  }

  /** `Role: z.string().trim().min(1).transform(toLowerCase).refine(in ['user', 'admin'])`. */
  function ParseRole(raw: string): (r: Result<string, seq<Issue>>)
    ensures r.Ok? <==> ToLower(Trim(raw)) == "user" || ToLower(Trim(raw)) == "admin"
    ensures r.Ok? ==> r.value == ToLower(Trim(raw))
    ensures r.Err? && AllWhitespace(raw) ==> |r.error| == 2
  {
    TrimEmpty(raw);
    var t := Trim(raw);
    var role := ToLower(t);
    var issues := Check(|t| >= 1, RoleRequired)
      + Check(role in ["user", "admin"], RoleUnknown);
    if issues == [] then Ok(role) else Err(issues)
  }

  /** The role is case-insensitive: `Admin` is stored as `admin`. */
  lemma RoleExample()
    ensures ParseRole("Admin") == Ok("admin")
  {
    var raw := "Admin";
    assert raw[0] == 'A' && !IsWhitespace('A');
    assert TrimStart(raw) == raw;
    assert raw[4] == 'n' && !IsWhitespace('n');
    assert TrimEnd(raw) == raw;
    assert ToLower(raw) == "admin";
  }

  datatype BulkUser = BulkUser(name: string, email: string, whatsappNumber: string, role: string)

  /** One row of a bulk user upload, with every field trimmed and the role lowered. */
  function ParseBulkUser(name: string, email: string, whatsappNumber: string, role: string,
                         isEmail: string -> bool, validPhone: string -> bool): (r: Result<BulkUser, seq<Issue>>)
    ensures r.Ok? <==>
      && !AllWhitespace(name)
      && isEmail(Trim(email))
      && WhatsAppNumber(whatsappNumber, validPhone, RowPhoneRequired, RowPhoneNoPlus).Ok?
      && ParseRole(role).Ok?
    ensures r.Ok? ==> r.value == BulkUser(Trim(name), Trim(email), Trim(whatsappNumber), ToLower(Trim(role)))
  {
    var n := RequiredTrimmed(name, RowNameRequired);
    var e := Trim(email);
    var w := WhatsAppNumber(whatsappNumber, validPhone, RowPhoneRequired, RowPhoneNoPlus);
    var ro := ParseRole(role);
    var issues := (if n.Err? then n.error else [])
      + Check(isEmail(e), RowEmailInvalid)
      + (if w.Err? then w.error else [])
      + (if ro.Err? then ro.error else []);
    if n.Ok? && isEmail(e) && w.Ok? && ro.Ok? then Ok(BulkUser(n.value, e, w.value, ro.value)) else Err(issues)
  }

  datatype BusinessWhatsApp = BusinessWhatsApp(number: string, accessToken: string, appId: string, appSecretKey: string)

  /** `businessWhatsAppAccount`: the number is trimmed, non-empty, starts with
      `+` and is a valid phone number; the three credentials are non-empty
      after trimming. */
  function ParseBusinessWhatsApp(number: string, accessToken: string, appId: string, appSecretKey: string,
                                 validPhone: string -> bool): (r: Result<BusinessWhatsApp, seq<Issue>>)
    ensures r.Ok? <==>
      && (var t := Trim(number); t != [] && t[0] == '+' && validPhone(t))
      && !AllWhitespace(accessToken) && !AllWhitespace(appId) && !AllWhitespace(appSecretKey)
    ensures r.Ok? ==> r.value == BusinessWhatsApp(Trim(number), Trim(accessToken), Trim(appId), Trim(appSecretKey))
  {
    var w := WhatsAppNumber(number, validPhone, BusinessPhoneRequired, BusinessPhoneNoPlus);
    var t := RequiredTrimmed(accessToken, AccessTokenRequired);
    var a := RequiredTrimmed(appId, AppIdRequired);
    var k := RequiredTrimmed(appSecretKey, AppSecretRequired);
    if w.Ok? && t.Ok? && a.Ok? && k.Ok? then Ok(BusinessWhatsApp(w.value, t.value, a.value, k.value))
    else Err((if w.Err? then w.error else []) + (if t.Err? then t.error else [])
             + (if a.Err? then a.error else []) + (if k.Err? then k.error else []))
  }
}
