/** The lead schema: the field rules a submission must satisfy, the phone
    normalisation, the form's option lists and the rate-limit key helper.

    A rule is modelled the way the schema library applies it: every check of a
    field runs and each failed check adds one message, a transform runs only
    when all checks of its field pass, and every field of the object is
    checked (not fail-fast). */
module Validators {
  import opened Json

  // ---------------------------------------------------------------------------
  // Messages

  /** The messages the schema can report: its own, and the schema library's
      defaults for a missing value, a failed union and a wrong type. */
  datatype Message =
    | NameTooShort | NameTooLong | NameChars | PhoneInvalid | EmailInvalid
    | VehicleTooShort | VehicleTooLong | ChoosePackage | ChooseContact
    | ChooseInterval | NotesTooLong | ConsentMissing | SpamDetected
    | Required | InvalidInput | WrongType(expected: string, received: string)

  /** The text of a message, as the client receives it. */
  function Text(msg: Message): string
  {
    match msg
    case NameTooShort => "Numele trebuie să aibă cel puțin 2 caractere"
    case NameTooLong => "Numele nu poate avea mai mult de 50 de caractere"
    case NameChars => "Numele poate conține doar litere, spații și cratima"
    case PhoneInvalid => "Numărul de telefon nu este valid (ex: 0721123456 sau +40721123456)"
    case EmailInvalid => "Adresa de email nu este validă"
    case VehicleTooShort => "Te rugăm să completezi marca și modelul"
    case VehicleTooLong => "Marca și modelul nu pot avea mai mult de 100 de caractere"
    case ChoosePackage => "Te rugăm să alegi un pachet"
    case ChooseContact => "Te rugăm să alegi modalitatea de contact preferată"
    case ChooseInterval => "Te rugăm să alegi intervalul preferat"
    case NotesTooLong => "Observațiile nu pot avea mai mult de 500 de caractere"
    case ConsentMissing => "Trebuie să accepți termenii și condițiile pentru a continua"
    case SpamDetected => "Spam detected"
    case Required => "Required"
    case InvalidInput => "Invalid input"
    case WrongType(expected, received) => "Expected " + expected + ", received " + received
  }

  /** The schema library's message for a value of the wrong type. */
  function TypeMismatch(expected: string, v: Value): Message
  {
    WrongType(expected, TypeName(v))
  }

  // ---------------------------------------------------------------------------
  // Enumerations and the schema's field names

  const PackageValues: seq<string> := ["pastrez-noua", "reimprospatare"]
  const ContactValues: seq<string> := ["telefon", "whatsapp", "email"]
  const IntervalValues: seq<string> := ["dimineata", "pranz", "seara"]

  /** The fields of the schema. */
  datatype Field =
    | Nume | Telefon | Email | MarcaModel | Pachet | ContactPreferat | Interval
    | Observatii | GdprConsent | UtmSource | UtmMedium | UtmCampaign | UtmTerm
    | UtmContent | PageReferrer | Website

  /** The key a field has in the submitted object and in issue paths. */
  function Key(f: Field): string
  {
    match f
    case Nume => "nume"
    case Telefon => "telefon"
    case Email => "email"
    case MarcaModel => "marca_model"
    case Pachet => "pachet"
    case ContactPreferat => "contact_preferat"
    case Interval => "interval"
    case Observatii => "observatii"
    case GdprConsent => "gdpr_consent"
    case UtmSource => "utm_source"
    case UtmMedium => "utm_medium"
    case UtmCampaign => "utm_campaign"
    case UtmTerm => "utm_term"
    case UtmContent => "utm_content"
    case PageReferrer => "page_referrer"
    case Website => "website"
  }

  /** The fields of the schema, in the order they are checked. */
  const SchemaFields: seq<Field> := [
    Nume, Telefon, Email, MarcaModel, Pachet, ContactPreferat, Interval,
    Observatii, GdprConsent, UtmSource, UtmMedium, UtmCampaign, UtmTerm,
    UtmContent, PageReferrer, Website]

  /** The fields that must be present for a submission to validate. */
  const RequiredFields: seq<Field> := [
    Nume, Telefon, MarcaModel, Pachet, ContactPreferat, Interval, GdprConsent]

  // ---------------------------------------------------------------------------
  // Results

  /** Outcome of one field's rule: its (possibly transformed) value, or the
      messages of the checks it failed, in the order the checks ran. */
  datatype Checked<+T> = Valid(value: T) | Invalid(messages: seq<Message>)

  /** One problem found by the schema: where (a path of keys) and what. */
  datatype Issue = Issue(path: seq<string>, message: Message)

  datatype Result<+T, +E> = Success(value: T) | Failure(error: E)

  /** A submission that passed every rule, with the phone normalised and the
      keys the schema does not know dropped. */
  datatype Lead = Lead(
    nume: string,
    telefon: string,
    email: Option<string>,
    marcaModel: string,
    pachet: string,
    contactPreferat: string,
    interval: string,
    observatii: Option<string>,
    gdprConsent: bool,
    utmSource: Option<string>,
    utmMedium: Option<string>,
    utmCampaign: Option<string>,
    utmTerm: Option<string>,
    utmContent: Option<string>,
    pageReferrer: Option<string>,
    website: Option<string>)

  // ---------------------------------------------------------------------------
  // Characters and strings

  predicate StartsWith(s: string, p: string)
  {
    |p| <= |s| && s[..|p|] == p
  }

  predicate IsDigit(c: char) { '0' <= c <= '9' }

  predicate AllDigits(s: string)
  {
    forall i | 0 <= i < |s| :: IsDigit(s[i])
  }

  predicate AsciiLetter(c: char) { 'a' <= c <= 'z' || 'A' <= c <= 'Z' }

  predicate AsciiAlnum(c: char) { AsciiLetter(c) || IsDigit(c) }

  /** The characters of the regular-expression class `\s`: white space and
      line terminators. */
  predicate Whitespace(c: char)
  {
    || c == '\t' || c == '\n' || c == '\U{000B}' || c == '\U{000C}' || c == '\r'
    || c == ' ' || c == '\U{00A0}' || c == '\U{1680}'
    || ('\U{2000}' <= c <= '\U{200A}')
    || c == '\U{2028}' || c == '\U{2029}' || c == '\U{202F}' || c == '\U{205F}'
    || c == '\U{3000}' || c == '\U{FEFF}'
  }

  /** A character of the class `[a-zA-ZăâîșțĂÂÎȘȚ\s-]`. */
  predicate NameChar(c: char)
  {
    AsciiLetter(c) || c in "ăâîșțĂÂÎȘȚ" || Whitespace(c) || c == '-'
  }

  /** The name pattern `^[...]+$`: one or more characters of the class. */
  predicate NameMatches(s: string)
  {
    |s| > 0 && forall i | 0 <= i < |s| :: NameChar(s[i])
  }

  /** The position of the first occurrence of `c` in `s`. */
  function IndexOf(s: string, c: char): (i: nat)
    requires c in s
    ensures i < |s| && s[i] == c && c !in s[..i]
  {
    if s[0] == c then 0 else IndexOf(s[1..], c) + 1
  }

  /** The position of the last occurrence of `c` in `s`. */
  function LastIndexOf(s: string, c: char): (i: nat)
    requires c in s
    ensures i < |s| && s[i] == c && c !in s[i + 1..]
  {
    if s[|s| - 1] == c then |s| - 1 else LastIndexOf(s[..|s| - 1], c)
  }

  // ---------------------------------------------------------------------------
  // E-mail syntax, after the schema library's pattern
  //   ^(?!\.)(?!.*\.\.)([A-Z0-9_'+\-\.]*)[A-Z0-9_+-]@([A-Z0-9][A-Z0-9\-]*\.)+[A-Z]{2,}$  (case-insensitive)

  predicate LocalChar(c: char) { AsciiAlnum(c) || c in "_'+-." }

  predicate LocalLastChar(c: char) { AsciiAlnum(c) || c in "_+-" }

  predicate LabelChar(c: char) { AsciiAlnum(c) || c == '-' }

  predicate LocalPart(l: string)
  {
    && |l| > 0
    && l[0] != '.'
    && (forall i | 0 <= i < |l| :: LocalChar(l[i]))
    && (forall i | 0 < i < |l| :: !(l[i - 1] == '.' && l[i] == '.'))
    && LocalLastChar(l[|l| - 1])
  }

  /** Dot-separated labels, each starting with a letter or digit. */
  predicate Labels(p: string)
  {
    && |p| > 0
    && p[|p| - 1] != '.'
    && (forall i | 0 <= i < |p| :: p[i] == '.' || LabelChar(p[i]))
    && AsciiAlnum(p[0])
    && (forall i | 0 < i < |p| :: p[i - 1] == '.' ==> AsciiAlnum(p[i]))
  }

  predicate DomainPart(d: string)
  {
    '.' in d &&
    var j := LastIndexOf(d, '.');
    Labels(d[..j]) && |d| - (j + 1) >= 2 && forall i | j < i < |d| :: AsciiLetter(d[i])
  }

  predicate EmailSyntax(s: string)
  {
    '@' in s &&
    var at := IndexOf(s, '@');
    LocalPart(s[..at]) && DomainPart(s[at + 1..])
  }

  // ---------------------------------------------------------------------------
  // Phone numbers

  /** `prefix` followed by exactly nine digits and nothing else. */
  predicate PrefixThenNineDigits(s: string, prefix: string)
  {
    |s| == |prefix| + 9 && StartsWith(s, prefix) && AllDigits(s[|prefix|..])
  }

  /** The phone pattern `^(\+40|0040|0)[0-9]{9}$`. */
  predicate PhoneMatches(s: string)
  {
    PrefixThenNineDigits(s, "+40") || PrefixThenNineDigits(s, "0040") || PrefixThenNineDigits(s, "0")
  }

  /** The phone transform, with its tests in the order the schema has them:
      the leading-'0' test comes first, so it also catches "0040...". */
  function NormalizePhone(phone: string): string
  {
    if StartsWith(phone, "0") then "+40" + phone[1..]
    else if StartsWith(phone, "0040") then "+40" + phone[4..]
    else phone
  }

  // ---------------------------------------------------------------------------
  // Field rules

  /** The string a member holds, if it holds one. */
  function SubmittedText(v: Option<Value>): Option<string>
  {
    if v.Some? && v.value.Str? then Some(v.value.s) else None
  }

  /** `z.string()`: present and a string. */
  function StringValue(v: Option<Value>): (r: Checked<string>)
    ensures r.Valid? <==> v.Some? && v.value.Str?
    ensures r.Valid? ==> r.value == v.value.s
    ensures r.Invalid? ==> |r.messages| == 1
  {
    match v
    case None => Invalid([Required])
    case Some(Str(s)) => Valid(s)
    case Some(other) => Invalid([TypeMismatch("string", other)])
  }

  /** `z.string().optional()`: absent, or a string. */
  function OptionalString(v: Option<Value>): (r: Checked<Option<string>>)
    ensures r.Valid? <==> v.None? || v.value.Str?
    ensures r.Valid? ==> r.value == SubmittedText(v)
    ensures r.Invalid? ==> |r.messages| == 1
  {
    match v
    case None => Valid(None)
    case Some(Str(s)) => Valid(Some(s))
    case Some(other) => Invalid([TypeMismatch("string", other)])
  }

  /** `z.string().optional()` with a `.max(max, message)` check. */
  function OptionalBounded(v: Option<Value>, max: nat, message: Message): (r: Checked<Option<string>>)
    ensures r.Valid? <==> v.None? || (v.value.Str? && |v.value.s| <= max)
    ensures r.Valid? ==> r.value == SubmittedText(v)
    ensures r.Invalid? ==> |r.messages| == 1
  {
    match OptionalString(v)
    case Valid(Some(s)) => if |s| > max then Invalid([message]) else Valid(Some(s))
    case r => r
  }

  /** The `.min(min, ...)` and `.max(max, ...)` checks, in that order. */
  function LengthMessages(s: string, min: nat, tooShort: Message, max: nat, tooLong: Message): seq<Message>
  {
    (if |s| < min then [tooShort] else []) + (if |s| > max then [tooLong] else [])
  }

  /** `nume`: a string of 2 to 50 characters drawn from the name class. */
  function CheckName(v: Option<Value>): (r: Checked<string>)
    ensures r.Invalid? ==> r.messages != []
    ensures r.Valid? ==> v.Some? && v.value.Str? && r.value == v.value.s
  {
    match StringValue(v)
    case Invalid(ms) => Invalid(ms)
    case Valid(s) =>
      var ms := LengthMessages(s, 2, NameTooShort, 50, NameTooLong)
                + (if NameMatches(s) then [] else [NameChars]);
      if ms == [] then Valid(s) else Invalid(ms)
  }

  /** `telefon`: the phone pattern, then the normalisation. */
  function CheckPhone(v: Option<Value>): (r: Checked<string>)
    ensures r.Invalid? ==> r.messages != []
    ensures r.Valid? ==> v.Some? && v.value.Str? && r.value == NormalizePhone(v.value.s)
  {
    match StringValue(v)
    case Invalid(ms) => Invalid(ms)
    case Valid(s) => if PhoneMatches(s) then Valid(NormalizePhone(s)) else Invalid([PhoneInvalid])
  }

  /** `email`: the union of an optional e-mail string and the literal "". */
  function CheckEmail(v: Option<Value>): (r: Checked<Option<string>>)
    ensures r.Invalid? ==> r.messages != []
    ensures r.Valid? ==> r.value == SubmittedText(v)
  {
    match v
    case None => Valid(None)
    case Some(Str(s)) => if EmailSyntax(s) || s == "" then Valid(Some(s)) else Invalid([EmailInvalid])
    case Some(_) => Invalid([InvalidInput])
  }

  /** `marca_model`: a string of 2 to 100 characters. */
  function CheckVehicle(v: Option<Value>): (r: Checked<string>)
    ensures r.Invalid? ==> r.messages != []
    ensures r.Valid? ==> v.Some? && v.value.Str? && r.value == v.value.s
  {
    match StringValue(v)
    case Invalid(ms) => Invalid(ms)
    case Valid(s) =>
      var ms := LengthMessages(s, 2, VehicleTooShort, 100, VehicleTooLong);
      if ms == [] then Valid(s) else Invalid(ms)
  }

  /** A closed enumeration whose error map replaces every message, including
      the one for a missing value, by `message`. */
  function CheckEnum(v: Option<Value>, values: seq<string>, message: Message): (r: Checked<string>)
    ensures r.Valid? <==> v.Some? && v.value.Str? && v.value.s in values
    ensures r.Valid? ==> r.value == v.value.s && r.value in values
    ensures r.Invalid? ==> r.messages == [message]
  {
    if v.Some? && v.value.Str? && v.value.s in values then Valid(v.value.s) else Invalid([message])
  }

  /** `gdpr_consent`: a boolean, refined to be `true`. */
  function CheckConsent(v: Option<Value>): (r: Checked<bool>)
    ensures r.Invalid? ==> r.messages != []
    ensures r.Valid? ==> v == Some(Bool(true)) && r.value
  {
    match v
    case None => Invalid([Required])
    case Some(Bool(b)) => if b then Valid(true) else Invalid([ConsentMissing])
    case Some(other) => Invalid([TypeMismatch("boolean", other)])
  }

  /** The messages of a rule's outcome; none when the field passed. */
  function MessagesOf<T>(c: Checked<T>): seq<Message>
  {
    match c
    case Valid(_) => []
    case Invalid(ms) => ms
  }

  /** The outcome of every field's rule for one submitted object. */
  datatype Outcomes = Outcomes(
    nume: Checked<string>,
    telefon: Checked<string>,
    email: Checked<Option<string>>,
    marcaModel: Checked<string>,
    pachet: Checked<string>,
    contactPreferat: Checked<string>,
    interval: Checked<string>,
    observatii: Checked<Option<string>>,
    gdprConsent: Checked<bool>,
    utmSource: Checked<Option<string>>,
    utmMedium: Checked<Option<string>>,
    utmCampaign: Checked<Option<string>>,
    utmTerm: Checked<Option<string>>,
    utmContent: Checked<Option<string>>,
    pageReferrer: Checked<Option<string>>,
    website: Checked<Option<string>>)

  /** Runs every field's rule on the submitted object. */
  function CheckFields(m: map<string, Value>): Outcomes
  {
    Outcomes(
      CheckName(Get(m, "nume")),
      CheckPhone(Get(m, "telefon")),
      CheckEmail(Get(m, "email")),
      CheckVehicle(Get(m, "marca_model")),
      CheckEnum(Get(m, "pachet"), PackageValues, ChoosePackage),
      CheckEnum(Get(m, "contact_preferat"), ContactValues, ChooseContact),
      CheckEnum(Get(m, "interval"), IntervalValues, ChooseInterval),
      OptionalBounded(Get(m, "observatii"), 500, NotesTooLong),
      CheckConsent(Get(m, "gdpr_consent")),
      OptionalString(Get(m, "utm_source")),
      OptionalString(Get(m, "utm_medium")),
      OptionalString(Get(m, "utm_campaign")),
      OptionalString(Get(m, "utm_term")),
      OptionalString(Get(m, "utm_content")),
      OptionalString(Get(m, "page_referrer")),
      OptionalBounded(Get(m, "website"), 0, SpamDetected))
  }

  /** Whether one field passed its rule. */
  predicate Passes(o: Outcomes, f: Field)
  {
    match f
    case Nume => o.nume.Valid?
    case Telefon => o.telefon.Valid?
    case Email => o.email.Valid?
    case MarcaModel => o.marcaModel.Valid?
    case Pachet => o.pachet.Valid?
    case ContactPreferat => o.contactPreferat.Valid?
    case Interval => o.interval.Valid?
    case Observatii => o.observatii.Valid?
    case GdprConsent => o.gdprConsent.Valid?
    case UtmSource => o.utmSource.Valid?
    case UtmMedium => o.utmMedium.Valid?
    case UtmCampaign => o.utmCampaign.Valid?
    case UtmTerm => o.utmTerm.Valid?
    case UtmContent => o.utmContent.Valid?
    case PageReferrer => o.pageReferrer.Valid?
    case Website => o.website.Valid?
  }

  /** The messages one field reported. */
  function MessagesAt(o: Outcomes, f: Field): seq<Message>
  {
    match f
    case Nume => MessagesOf(o.nume)
    case Telefon => MessagesOf(o.telefon)
    case Email => MessagesOf(o.email)
    case MarcaModel => MessagesOf(o.marcaModel)
    case Pachet => MessagesOf(o.pachet)
    case ContactPreferat => MessagesOf(o.contactPreferat)
    case Interval => MessagesOf(o.interval)
    case Observatii => MessagesOf(o.observatii)
    case GdprConsent => MessagesOf(o.gdprConsent)
    case UtmSource => MessagesOf(o.utmSource)
    case UtmMedium => MessagesOf(o.utmMedium)
    case UtmCampaign => MessagesOf(o.utmCampaign)
    case UtmTerm => MessagesOf(o.utmTerm)
    case UtmContent => MessagesOf(o.utmContent)
    case PageReferrer => MessagesOf(o.pageReferrer)
    case Website => MessagesOf(o.website)
  }

  predicate AllPass(o: Outcomes)
  {
    && o.nume.Valid? && o.telefon.Valid? && o.email.Valid? && o.marcaModel.Valid?
    && o.pachet.Valid? && o.contactPreferat.Valid? && o.interval.Valid?
    && o.observatii.Valid? && o.gdprConsent.Valid? && o.utmSource.Valid?
    && o.utmMedium.Valid? && o.utmCampaign.Valid? && o.utmTerm.Valid?
    && o.utmContent.Valid? && o.pageReferrer.Valid? && o.website.Valid?
  }

  /** The issues of one field, each located at the path `[field]`. */
  function At(field: string, ms: seq<Message>): seq<Issue>
  {
    seq(|ms|, i requires 0 <= i < |ms| => Issue([field], ms[i]))
  }

  /** The issues of the listed fields, field after field. */
  function FieldIssues(o: Outcomes, fields: seq<Field>): seq<Issue>
  {
    if fields == [] then [] else At(Key(fields[0]), MessagesAt(o, fields[0])) + FieldIssues(o, fields[1..])
  }

  // ---------------------------------------------------------------------------
  // The schema

  /** `leadSchema.parse`: the validated lead, or every issue found. */
  function Validate(body: Value): Result<Lead, seq<Issue>>
  {
    match body
    case Obj(m) => ValidateObject(m)
    case _ => Failure([Issue([], TypeMismatch("object", body))])
  }

  /** An object passes when every field passes, giving each field's checked
      (for the phone, transformed) value and dropping keys outside the
      schema; otherwise every field's issues are reported, in schema order. */
  function ValidateObject(m: map<string, Value>): Result<Lead, seq<Issue>>
  {
    Assemble(CheckFields(m))
  }

  /** The lead built from the fields' outcomes when all passed, else the issues. */
  function Assemble(o: Outcomes): Result<Lead, seq<Issue>>
  {
    if AllPass(o) then
      Success(Lead(o.nume.value, o.telefon.value, o.email.value, o.marcaModel.value,
                   o.pachet.value, o.contactPreferat.value, o.interval.value,
                   o.observatii.value, o.gdprConsent.value, o.utmSource.value,
                   o.utmMedium.value, o.utmCampaign.value, o.utmTerm.value,
                   o.utmContent.value, o.pageReferrer.value, o.website.value))
    else
      Failure(FieldIssues(o, SchemaFields))
  }

  // ---------------------------------------------------------------------------
  // Form options and the rate-limit key

  datatype Choice = Choice(value: string, caption: string)

  const FormPackages: seq<Choice> := [
    Choice("pastrez-noua", "Păstrează-o ca nouă (Ceramic Coating, PPF, Colantare)"),
    Choice("reimprospatare", "Reîmprospătează-o (Detailing, Polish profesional)")]

  const FormContactMethods: seq<Choice> := [
    Choice("telefon", "Telefon"),
    Choice("whatsapp", "WhatsApp"),
    Choice("email", "Email")]

  const FormIntervals: seq<Choice> := [
    Choice("dimineata", "Dimineața (09:00 - 12:00)"),
    Choice("pranz", "Prânz (12:00 - 17:00)"),
    Choice("seara", "Seara (17:00 - 20:00)")]

  /** The values of a list of choices, in order. */
  function ChoiceValues(cs: seq<Choice>): (vs: seq<string>)
    ensures |vs| == |cs|
    ensures forall i | 0 <= i < |cs| :: vs[i] == cs[i].value
  {
    if cs == [] then [] else [cs[0].value] + ChoiceValues(cs[1..])
  }

  function RateLimitKey(ip: string): string
  {
    "lead_form_" + ip
  }

  // ---------------------------------------------------------------------------
  // Properties of the phone rule

  /** The phone pattern accepts exactly "0", "0040" or "+40" followed by nine
      digits, with nothing before or after. */
  lemma {:induction false} PhoneAcceptedIff(s: string)
    ensures PhoneMatches(s) <==>
      exists d: string :: AllDigits(d) && |d| == 9 && (s == "0" + d || s == "0040" + d || s == "+40" + d)
  {
    if PhoneMatches(s) {
      var d := s[|s| - 9..];
      assert AllDigits(d);
      if PrefixThenNineDigits(s, "0") {
        assert s == "0" + d;
      } else if PrefixThenNineDigits(s, "0040") {
        assert s == "0040" + d;
      } else {
        assert s == "+40" + d;
      }
    }
    if exists d: string :: AllDigits(d) && |d| == 9 && (s == "0" + d || s == "0040" + d || s == "+40" + d) {
      var d: string :| AllDigits(d) && |d| == 9 && (s == "0" + d || s == "0040" + d || s == "+40" + d);
      if s == "0" + d {
        assert s[1..] == d;
        assert PrefixThenNineDigits(s, "0");
      } else if s == "0040" + d {
        assert s[4..] == d;
        assert PrefixThenNineDigits(s, "0040");
      } else {
        assert s[3..] == d;
        assert PrefixThenNineDigits(s, "+40");
      }
    }
  }

  /** What the transform makes of each accepted form. Because the leading-'0'
      test runs first, a "0040" number keeps "040" after the new prefix. */
  lemma NormalizeLocal(d: string)
    ensures NormalizePhone("0" + d) == "+40" + d
  {
    var local := "0" + d;
    assert local[..1] == "0" && local[1..] == d;
  }

  lemma NormalizeCanonical(d: string)
    ensures NormalizePhone("+40" + d) == "+40" + d
  {
    var canonical := "+40" + d;
    assert canonical[..1][0] == '+';
    assert |canonical| >= 4 ==> canonical[..4][0] == '+';
  }

  lemma NormalizeInternational(d: string)
    ensures NormalizePhone("0040" + d) == "+40040" + d
  {
    var international := "0040" + d;
    assert international[..1] == "0" && international[1..] == "040" + d;
  }

  /** Every normalised phone starts with "+40" and is otherwise all digits;
      it has 15 characters exactly when the input used the 13-character
      "0040" form. */
  lemma {:induction false} NormalizedPhoneShape(s: string)
    requires PhoneMatches(s)
    ensures StartsWith(NormalizePhone(s), "+40")
    ensures AllDigits(NormalizePhone(s)[1..])
    ensures |NormalizePhone(s)| == 12 || |NormalizePhone(s)| == 15
    ensures |NormalizePhone(s)| == 15 <==> |s| == 13
  {
    var d := s[|s| - 9..];
    NormalizeLocal(d);
    NormalizeCanonical(d);
    NormalizeInternational(d);
    if PrefixThenNineDigits(s, "0") {
      assert s == "0" + d;
    } else if PrefixThenNineDigits(s, "0040") {
      assert s == "0040" + d;
      assert NormalizePhone(s)[1..] == "40040" + d;
    } else {
      assert s == "+40" + d;
    }
  }

  /** Normalising an accepted phone twice gives the same as normalising it once. */
  lemma {:induction false} NormalizeIdempotent(s: string)
    requires PhoneMatches(s)
    ensures NormalizePhone(NormalizePhone(s)) == NormalizePhone(s)
  {
    NormalizedPhoneShape(s);
    assert NormalizePhone(s)[0] == '+';
  }

  /** A 12-character normalised phone is canonical: the pattern accepts it
      again and the transform leaves it as it is. */
  lemma {:induction false} CanonicalPhoneIsFixedPoint(s: string)
    requires PhoneMatches(s) && |NormalizePhone(s)| == 12
    ensures PhoneMatches(NormalizePhone(s))
    ensures NormalizePhone(NormalizePhone(s)) == NormalizePhone(s)
  {
    NormalizedPhoneShape(s);
    NormalizeIdempotent(s);
    var n := NormalizePhone(s);
    assert n[3..] == n[1..][2..];
    assert PrefixThenNineDigits(n, "+40");
  }

  /** The "0040" branch of the transform is never taken: such a number
      already starts with '0'. For a 13-character "0040" number the result
      has 15 characters and the phone pattern itself rejects it. */
  lemma {:induction false} InternationalBranchUnreachable(s: string)
    requires StartsWith(s, "0040")
    ensures NormalizePhone(s) == "+40" + s[1..]
    ensures PrefixThenNineDigits(s, "0040") ==>
      |NormalizePhone(s)| == 15 && !PhoneMatches(NormalizePhone(s))
  {
    assert s[..1] == s[..4][..1];
  }

  // ---------------------------------------------------------------------------
  // Properties of the other field rules

  /** `telefon` passes exactly when it is a string the phone pattern accepts,
      and then its value is the normalised number; a string the pattern
      rejects reports the phone message alone. */
  lemma PhoneRule(v: Option<Value>)
    ensures CheckPhone(v).Valid? <==> v.Some? && v.value.Str? && PhoneMatches(v.value.s)
    ensures CheckPhone(v).Valid? ==> CheckPhone(v).value == NormalizePhone(v.value.s)
    ensures v.Some? && v.value.Str? && !PhoneMatches(v.value.s) ==> CheckPhone(v) == Invalid([PhoneInvalid])
    ensures v.None? ==> CheckPhone(v) == Invalid([Required])
  {
  }

  /** `nume` passes exactly when it is a string of 2 to 50 name characters.
      When the character class fails, its message is the last one reported. */
  lemma NameRule(v: Option<Value>)
    ensures CheckName(v).Valid? <==>
      v.Some? && v.value.Str? && 2 <= |v.value.s| <= 50 && NameMatches(v.value.s)
    ensures v.Some? && v.value.Str? && !NameMatches(v.value.s) ==>
      CheckName(v).Invalid? && CheckName(v).messages[|CheckName(v).messages| - 1] == NameChars
    ensures CheckName(Some(Str(""))) == Invalid([NameTooShort, NameChars])
  {
  }

  /** The three enumerations accept their listed values and nothing else. */
  lemma EnumRules(v: Option<Value>)
    ensures CheckEnum(v, PackageValues, ChoosePackage).Valid? <==>
      v == Some(Str("pastrez-noua")) || v == Some(Str("reimprospatare"))
    ensures CheckEnum(v, ContactValues, ChooseContact).Valid? <==>
      v == Some(Str("telefon")) || v == Some(Str("whatsapp")) || v == Some(Str("email"))
    ensures CheckEnum(v, IntervalValues, ChooseInterval).Valid? <==>
      v == Some(Str("dimineata")) || v == Some(Str("pranz")) || v == Some(Str("seara"))
  {
  }

  /** Consent passes only for the boolean `true`; `false` gets the consent
      message and a missing value the library's "Required". */
  lemma ConsentRule(v: Option<Value>)
    ensures CheckConsent(v).Valid? <==> v == Some(Bool(true))
    ensures v == Some(Bool(false)) ==> CheckConsent(v) == Invalid([ConsentMissing])
    ensures v == None ==> CheckConsent(v) == Invalid([Required])
  {
  }

  /** The length and optionality rules of `marca_model`, `observatii`,
      `email` and `website`. */
  lemma OptionalFieldRules(v: Option<Value>)
    ensures CheckVehicle(v).Valid? <==> v.Some? && v.value.Str? && 2 <= |v.value.s| <= 100
    ensures OptionalBounded(v, 500, NotesTooLong).Valid? <==>
      v.None? || (v.value.Str? && |v.value.s| <= 500)
    ensures CheckEmail(v).Valid? <==>
      v.None? || (v.value.Str? && (v.value.s == "" || EmailSyntax(v.value.s)))
    ensures v.Some? && v.value.Str? && v.value.s != "" && !EmailSyntax(v.value.s) ==>
      CheckEmail(v) == Invalid([EmailInvalid])
    ensures OptionalBounded(v, 0, SpamDetected).Valid? <==> v.None? || v == Some(Str(""))
  {
  }

  /** No rule other than the honeypot's reports the spam message. */
  lemma RulesNeverReportSpam(v: Option<Value>)
    ensures SpamDetected !in MessagesOf(CheckName(v))
    ensures SpamDetected !in MessagesOf(CheckPhone(v))
    ensures SpamDetected !in MessagesOf(CheckEmail(v))
    ensures SpamDetected !in MessagesOf(CheckVehicle(v))
    ensures SpamDetected !in MessagesOf(CheckConsent(v))
    ensures SpamDetected !in MessagesOf(OptionalBounded(v, 500, NotesTooLong))
  {
  }

  // ---------------------------------------------------------------------------
  // Properties of the whole schema

  /** The schema's rules, stated field by field over the submitted object. */
  predicate Acceptable(m: map<string, Value>)
  {
    && "nume" in m && m["nume"].Str? && 2 <= |m["nume"].s| <= 50 && NameMatches(m["nume"].s)
    && "telefon" in m && m["telefon"].Str? && PhoneMatches(m["telefon"].s)
    && ("email" in m ==> m["email"].Str? && (m["email"].s == "" || EmailSyntax(m["email"].s)))
    && "marca_model" in m && m["marca_model"].Str? && 2 <= |m["marca_model"].s| <= 100
    && "pachet" in m && m["pachet"].Str? && m["pachet"].s in PackageValues
    && "contact_preferat" in m && m["contact_preferat"].Str? && m["contact_preferat"].s in ContactValues
    && "interval" in m && m["interval"].Str? && m["interval"].s in IntervalValues
    && ("observatii" in m ==> m["observatii"].Str? && |m["observatii"].s| <= 500)
    && "gdpr_consent" in m && m["gdpr_consent"] == Bool(true)
    && ("utm_source" in m ==> m["utm_source"].Str?)
    && ("utm_medium" in m ==> m["utm_medium"].Str?)
    && ("utm_campaign" in m ==> m["utm_campaign"].Str?)
    && ("utm_term" in m ==> m["utm_term"].Str?)
    && ("utm_content" in m ==> m["utm_content"].Str?)
    && ("page_referrer" in m ==> m["page_referrer"].Str?)
    && ("website" in m ==> m["website"] == Str(""))
  }

  /** What a validated lead guarantees to everything downstream. */
  predicate ValidLead(l: Lead)
  {
    && 2 <= |l.nume| <= 50 && NameMatches(l.nume)
    && StartsWith(l.telefon, "+40") && AllDigits(l.telefon[1..])
    && (|l.telefon| == 12 || |l.telefon| == 15)
    && (l.email.Some? ==> l.email.value == "" || EmailSyntax(l.email.value))
    && 2 <= |l.marcaModel| <= 100
    && l.pachet in PackageValues && l.contactPreferat in ContactValues && l.interval in IntervalValues
    && (l.observatii.Some? ==> |l.observatii.value| <= 500)
    && l.gdprConsent
    && (l.website.Some? ==> l.website.value == "")
  }

  /** The rules of the identity and vehicle fields, over the outcomes. */
  lemma PersonalRulesIff(m: map<string, Value>)
    ensures var o := CheckFields(m);
      (o.nume.Valid? && o.telefon.Valid? && o.email.Valid? && o.marcaModel.Valid?) <==>
      (&& "nume" in m && m["nume"].Str? && 2 <= |m["nume"].s| <= 50 && NameMatches(m["nume"].s)
       && "telefon" in m && m["telefon"].Str? && PhoneMatches(m["telefon"].s)
       && ("email" in m ==> m["email"].Str? && (m["email"].s == "" || EmailSyntax(m["email"].s)))
       && "marca_model" in m && m["marca_model"].Str? && 2 <= |m["marca_model"].s| <= 100)
  {
    NameRule(Get(m, "nume"));
    OptionalFieldRules(Get(m, "marca_model"));
    OptionalFieldRules(Get(m, "email"));
  }

  /** The rules of the remaining fields, over the outcomes. */
  lemma OtherRulesIff(m: map<string, Value>)
    ensures var o := CheckFields(m);
      (&& o.pachet.Valid? && o.contactPreferat.Valid? && o.interval.Valid?
       && o.observatii.Valid? && o.gdprConsent.Valid? && o.utmSource.Valid?
       && o.utmMedium.Valid? && o.utmCampaign.Valid? && o.utmTerm.Valid?
       && o.utmContent.Valid? && o.pageReferrer.Valid? && o.website.Valid?) <==>
      (&& "pachet" in m && m["pachet"].Str? && m["pachet"].s in PackageValues
       && "contact_preferat" in m && m["contact_preferat"].Str? && m["contact_preferat"].s in ContactValues
       && "interval" in m && m["interval"].Str? && m["interval"].s in IntervalValues
       && ("observatii" in m ==> m["observatii"].Str? && |m["observatii"].s| <= 500)
       && "gdpr_consent" in m && m["gdpr_consent"] == Bool(true)
       && ("utm_source" in m ==> m["utm_source"].Str?)
       && ("utm_medium" in m ==> m["utm_medium"].Str?)
       && ("utm_campaign" in m ==> m["utm_campaign"].Str?)
       && ("utm_term" in m ==> m["utm_term"].Str?)
       && ("utm_content" in m ==> m["utm_content"].Str?)
       && ("page_referrer" in m ==> m["page_referrer"].Str?)
       && ("website" in m ==> m["website"] == Str("")))
  {
    ConsentRule(Get(m, "gdpr_consent"));
    OptionalFieldRules(Get(m, "observatii"));
    OptionalFieldRules(Get(m, "website"));
  }

  /** The schema accepts an object exactly when it satisfies every rule. */
  lemma ValidateAcceptsIff(m: map<string, Value>)
    ensures Validate(Obj(m)).Success? <==> Acceptable(m)
  {
    PersonalRulesIff(m);
    OtherRulesIff(m);
  }

  /** A lead exists only when every rule held; it carries the submitted name
      and vehicle and the normalised phone. */
  lemma ValidateSound(m: map<string, Value>)
    requires Validate(Obj(m)).Success?
    ensures ValidLead(Validate(Obj(m)).value)
    ensures "nume" in m && m["nume"].Str? && "telefon" in m && m["telefon"].Str?
    ensures "marca_model" in m && m["marca_model"].Str?
    ensures Validate(Obj(m)).value.telefon == NormalizePhone(m["telefon"].s)
    ensures Validate(Obj(m)).value.nume == m["nume"].s
    ensures Validate(Obj(m)).value.marcaModel == m["marca_model"].s
  {
    ValidateAcceptsIff(m);
    NormalizedPhoneShape(m["telefon"].s);
  }

  /** The parsed lead holds what was submitted: each string field is the
      submitted string (the phone normalised), each optional field is the
      submitted string or absent, and consent is `true`. */
  lemma ValidateKeepsSubmitted(m: map<string, Value>)
    requires Validate(Obj(m)).Success?
    ensures var l := Validate(Obj(m)).value;
      && Some(l.nume) == SubmittedText(Get(m, "nume"))
      && l.email == SubmittedText(Get(m, "email"))
      && Some(l.marcaModel) == SubmittedText(Get(m, "marca_model"))
      && Some(l.pachet) == SubmittedText(Get(m, "pachet"))
      && Some(l.contactPreferat) == SubmittedText(Get(m, "contact_preferat"))
      && Some(l.interval) == SubmittedText(Get(m, "interval"))
      && l.observatii == SubmittedText(Get(m, "observatii"))
      && l.gdprConsent
    ensures var l := Validate(Obj(m)).value;
      && l.utmSource == SubmittedText(Get(m, "utm_source"))
      && l.utmMedium == SubmittedText(Get(m, "utm_medium"))
      && l.utmCampaign == SubmittedText(Get(m, "utm_campaign"))
      && l.utmTerm == SubmittedText(Get(m, "utm_term"))
      && l.utmContent == SubmittedText(Get(m, "utm_content"))
      && l.pageReferrer == SubmittedText(Get(m, "page_referrer"))
      && l.website == SubmittedText(Get(m, "website"))
  {
    var o := CheckFields(m);
    assert ValidateObject(m).Success?;
    assert AllPass(o);
    assert o.nume == CheckName(Get(m, "nume"));
    assert o.email == CheckEmail(Get(m, "email"));
    assert o.marcaModel == CheckVehicle(Get(m, "marca_model"));
    assert o.pachet == CheckEnum(Get(m, "pachet"), PackageValues, ChoosePackage);
    assert o.contactPreferat == CheckEnum(Get(m, "contact_preferat"), ContactValues, ChooseContact);
    assert o.interval == CheckEnum(Get(m, "interval"), IntervalValues, ChooseInterval);
    assert o.observatii == OptionalBounded(Get(m, "observatii"), 500, NotesTooLong);
    assert o.gdprConsent == CheckConsent(Get(m, "gdpr_consent"));
    assert o.utmSource == OptionalString(Get(m, "utm_source"));
    assert o.utmMedium == OptionalString(Get(m, "utm_medium"));
    assert o.utmCampaign == OptionalString(Get(m, "utm_campaign"));
    assert o.utmTerm == OptionalString(Get(m, "utm_term"));
    assert o.utmContent == OptionalString(Get(m, "utm_content"));
    assert o.pageReferrer == OptionalString(Get(m, "page_referrer"));
    assert o.website == OptionalBounded(Get(m, "website"), 0, SpamDetected);
  }

  /** The keys of the schema's fields, one per `Field`. */
  const SchemaKeys: set<string> := {
    "nume", "telefon", "email", "marca_model",
    "pachet", "contact_preferat", "interval", "observatii",
    "gdpr_consent", "utm_source", "utm_medium", "utm_campaign",
    "utm_term", "utm_content", "page_referrer", "website"}

  /** Keys the schema does not know are ignored: adding or changing one never
      changes what the schema answers, so they never reach the lead. */
  lemma UnknownKeysIgnored(m: map<string, Value>, k: string, v: Value)
    requires k !in SchemaKeys
    ensures Validate(Obj(m[k := v])) == Validate(Obj(m))
  {
    var m' := m[k := v];
    forall key | key in SchemaKeys
      ensures Get(m', key) == Get(m, key)
    {
      assert key != k;
    }
    OutcomesReadSchemaKeys(m', m);
    ValidateReadsOutcomes(m', m);
  }

  /** The parse result is decided by the fields' outcomes alone. */
  lemma ValidateReadsOutcomes(m: map<string, Value>, n: map<string, Value>)
    requires CheckFields(m) == CheckFields(n)
    ensures Validate(Obj(m)) == Validate(Obj(n))
  {
  }

  /** Only the schema's keys matter: two objects that agree on them get the
      same outcome for every field. */
  lemma OutcomesReadSchemaKeys(m: map<string, Value>, n: map<string, Value>)
    requires forall key | key in SchemaKeys :: Get(m, key) == Get(n, key)
    ensures CheckFields(m) == CheckFields(n)
  {
  }

  /** Each field's outcome is a pass exactly when it reported no message. */
  predicate Reported(o: Outcomes)
  {
    forall f: Field :: Passes(o, f) <==> MessagesAt(o, f) == []
  }

  /** Every rule that fails reports at least one message. */
  lemma FailingRulesReport(m: map<string, Value>)
    ensures Reported(CheckFields(m))
  {
    var o := CheckFields(m);
    forall f: Field
      ensures Passes(o, f) <==> MessagesAt(o, f) == []
    {
      match f
      case Nume => assert o.nume == CheckName(Get(m, "nume"));
      case Telefon => assert o.telefon == CheckPhone(Get(m, "telefon"));
      case Email => assert o.email == CheckEmail(Get(m, "email"));
      case MarcaModel => assert o.marcaModel == CheckVehicle(Get(m, "marca_model"));
      case GdprConsent => assert o.gdprConsent == CheckConsent(Get(m, "gdpr_consent"));
      case _ =>
    }
  }

  /** Some field fails whenever not all of them pass. */
  lemma SomeFieldFails(o: Outcomes)
    requires !AllPass(o)
    ensures exists f: Field :: !Passes(o, f)
  {
    if !o.nume.Valid? { assert !Passes(o, Nume); }
    else if !o.telefon.Valid? { assert !Passes(o, Telefon); }
    else if !o.email.Valid? { assert !Passes(o, Email); }
    else if !o.marcaModel.Valid? { assert !Passes(o, MarcaModel); }
    else if !o.pachet.Valid? { assert !Passes(o, Pachet); }
    else if !o.contactPreferat.Valid? { assert !Passes(o, ContactPreferat); }
    else if !o.interval.Valid? { assert !Passes(o, Interval); }
    else if !o.observatii.Valid? { assert !Passes(o, Observatii); }
    else if !o.gdprConsent.Valid? { assert !Passes(o, GdprConsent); }
    else if !o.utmSource.Valid? { assert !Passes(o, UtmSource); }
    else if !o.utmMedium.Valid? { assert !Passes(o, UtmMedium); }
    else if !o.utmCampaign.Valid? { assert !Passes(o, UtmCampaign); }
    else if !o.utmTerm.Valid? { assert !Passes(o, UtmTerm); }
    else if !o.utmContent.Valid? { assert !Passes(o, UtmContent); }
    else if !o.pageReferrer.Valid? { assert !Passes(o, PageReferrer); }
    else { assert !Passes(o, Website); }
  }

  /** Distinct fields have distinct keys. */
  lemma KeyInjective(a: Field, b: Field)
    requires Key(a) == Key(b)
    ensures a == b
  {
    assert |Key(a)| == |Key(b)| && Key(a)[0] == Key(b)[0];
    if |Key(a)| == 10 {
      assert Key(a)[4] == Key(b)[4];
    } else if |Key(a)| == 5 {
      assert Key(a)[1] == Key(b)[1];
    }
  }

  /** Every issue of a field list sits at the path of one listed field. */
  lemma {:induction false} FieldIssuesPaths(o: Outcomes, fields: seq<Field>)
    ensures forall i | 0 <= i < |FieldIssues(o, fields)| ::
      exists g | g in fields :: FieldIssues(o, fields)[i].path == [Key(g)]
  {
    if fields == [] {
      assert FieldIssues(o, fields) == [];
    } else {
      FieldIssuesPaths(o, fields[1..]);
      var head := At(Key(fields[0]), MessagesAt(o, fields[0]));
      var rest := FieldIssues(o, fields[1..]);
      var all := FieldIssues(o, fields);
      assert all == head + rest;
      forall i | 0 <= i < |all|
        ensures exists g | g in fields :: all[i].path == [Key(g)]
      {
        if i < |head| {
          assert all[i] == head[i];
          assert fields[0] in fields;
        } else {
          assert all[i] == rest[i - |head|];
          var g :| g in fields[1..] && rest[i - |head|].path == [Key(g)];
          assert g in fields;
        }
      }
    }
  }

  /** Some issue of `issues` sits at the path `[key]`. */
  predicate HasIssueAt(issues: seq<Issue>, key: string)
  {
    exists i | 0 <= i < |issues| :: issues[i].path == [key]
  }

  lemma HasIssueAtAppend(a: seq<Issue>, b: seq<Issue>, key: string)
    ensures HasIssueAt(a + b, key) <==> HasIssueAt(a, key) || HasIssueAt(b, key)
  {
    if HasIssueAt(a + b, key) {
      var i :| 0 <= i < |a + b| && (a + b)[i].path == [key];
      if i >= |a| {
        assert b[i - |a|].path == [key];
      } else {
        assert a[i].path == [key];
      }
    }
    if HasIssueAt(a, key) {
      var i :| 0 <= i < |a| && a[i].path == [key];
      assert (a + b)[i].path == [key];
    }
    if HasIssueAt(b, key) {
      var i :| 0 <= i < |b| && b[i].path == [key];
      assert (a + b)[|a| + i].path == [key];
    }
  }

  /** A field has an issue at its path exactly when it is listed and its rule
      reported something. */
  lemma {:induction false} FieldIssuesOf(o: Outcomes, fields: seq<Field>, f: Field)
    ensures HasIssueAt(FieldIssues(o, fields), Key(f)) <==> f in fields && MessagesAt(o, f) != []
  {
    if fields != [] {
      var ms := MessagesAt(o, fields[0]);
      var head := At(Key(fields[0]), ms);
      FieldIssuesOf(o, fields[1..], f);
      HasIssueAtAppend(head, FieldIssues(o, fields[1..]), Key(f));
      if ms != [] {
        assert head[0].path == [Key(fields[0])];
      }
      if HasIssueAt(head, Key(f)) {
        var i :| 0 <= i < |head| && head[i].path == [Key(f)];
        KeyInjective(f, fields[0]);
      }
    }
  }

  /** Every field of the schema is listed in it. */
  lemma InSchema(f: Field)
    ensures f in SchemaFields
  {
  }

  /** Over outcomes that report their failures, the schema-ordered issues
      name exactly the failing fields, and there are some when a field failed. */
  lemma SchemaIssues(o: Outcomes)
    requires Reported(o)
    ensures forall f: Field :: HasIssueAt(FieldIssues(o, SchemaFields), Key(f)) <==> !Passes(o, f)
    ensures !AllPass(o) ==> FieldIssues(o, SchemaFields) != []
  {
    forall f: Field
      ensures HasIssueAt(FieldIssues(o, SchemaFields), Key(f)) <==> !Passes(o, f)
    {
      InSchema(f);
      FieldIssuesOf(o, SchemaFields, f);
    }
    if !AllPass(o) {
      SomeFieldFails(o);
    }
  }

  /** An object is rejected exactly when some field fails, with the issues
      of every field in schema order. */
  lemma RejectionIsFieldIssues(m: map<string, Value>)
    ensures Validate(Obj(m)).Failure? <==> !AllPass(CheckFields(m))
    ensures Validate(Obj(m)).Failure? ==> Validate(Obj(m)).error == FieldIssues(CheckFields(m), SchemaFields)
  {
  }

  /** A rejected object is reported with at least one issue, and every issue
      names one field of the schema. */
  lemma ValidateFailureIssues(m: map<string, Value>)
    requires Validate(Obj(m)).Failure?
    ensures Validate(Obj(m)).error != []
    ensures forall i | 0 <= i < |Validate(Obj(m)).error| ::
      exists g | g in SchemaFields :: Validate(Obj(m)).error[i].path == [Key(g)]
  {
    var o := CheckFields(m);
    RejectionIsFieldIssues(m);
    FailingRulesReport(m);
    SchemaIssues(o);
    FieldIssuesPaths(o, SchemaFields);
  }

  /** A field is named among the issues of an object exactly when it failed
      its rule. */
  lemma ValidateNamesFailingFields(m: map<string, Value>, f: Field)
    ensures !Passes(CheckFields(m), f) ==> Validate(Obj(m)).Failure?
    ensures Validate(Obj(m)).Failure? ==>
      (HasIssueAt(Validate(Obj(m)).error, Key(f)) <==> !Passes(CheckFields(m), f))
  {
    var o := CheckFields(m);
    RejectionIsFieldIssues(m);
    FailingRulesReport(m);
    SchemaIssues(o);
    if !Passes(o, f) {
      assert !AllPass(o);
    }
  }

  /** Every required field that is missing is reported at its own path. */
  lemma MissingRequiredReported(m: map<string, Value>, f: Field)
    requires f in RequiredFields && Key(f) !in m
    ensures Validate(Obj(m)).Failure?
    ensures HasIssueAt(Validate(Obj(m)).error, Key(f))
  {
    assert !Passes(CheckFields(m), f);
    ValidateNamesFailingFields(m, f);
  }

  /** Without the boolean `true` for consent, no submission validates, and the
      consent field is among the issues. */
  lemma ConsentRequired(m: map<string, Value>)
    requires Get(m, "gdpr_consent") != Some(Bool(true))
    ensures Validate(Obj(m)).Failure?
    ensures HasIssueAt(Validate(Obj(m)).error, "gdpr_consent")
  {
    assert Key(GdprConsent) == "gdpr_consent";
    assert !Passes(CheckFields(m), GdprConsent) by {
      assert CheckFields(m).gdprConsent == CheckConsent(Get(m, "gdpr_consent"));
    }
    ValidateNamesFailingFields(m, GdprConsent);
  }

  // ---------------------------------------------------------------------------
  // Properties of the form options and the rate-limit key

  /** The form offers exactly the enumerations' values, in the same order. */
  lemma FormOptionsMatchSchema()
    ensures ChoiceValues(FormPackages) == PackageValues
    ensures ChoiceValues(FormContactMethods) == ContactValues
    ensures ChoiceValues(FormIntervals) == IntervalValues
  {
  }

  /** Distinct addresses get distinct keys. */
  lemma RateLimitKeyInjective(a: string, b: string)
    requires RateLimitKey(a) == RateLimitKey(b)
    ensures a == b
  {
    assert a == RateLimitKey(a)[10..];
    assert b == RateLimitKey(b)[10..];
  }
}
