/**
 * The current contact-form schema (`contactSchema`, src/lib/schemas/contact.ts)
 * as a total validator over a record of possibly-missing fields, and the
 * older five-field schema of the first contact form
 * (src/components/contact/helpers/schema.ts) over the same record.
 * Email syntax is the parameter `isEmail`.
 */
module ContactSchema {
  import opened Text

  /** `CONTACT_SERVICES`. */
  const ContactServices: seq<string> :=
    ["Kitchen Remodeling", "Bathroom Remodeling", "Windows & Doors", "Roofing", "Siding", "Exterior Painting"]

  /** A submitted object before validation: each key may be missing. */
  datatype RawContact = RawContact(
    fullName: Option<string>,
    email: Option<string>,
    phone: Option<string>,
    zip: Option<string>,
    workType: Option<string>,
    message: Option<string>,
    consent: Option<bool>,
    company: Option<string>)

  /** The keys a validation issue can point at. */
  datatype Field = FullName | Email | Phone | Zip | WorkType | Message | Consent | Company

  /** `ContactPayload`: what a successful parse returns (the phone trimmed, the honeypot kept). */
  datatype ContactPayload = ContactPayload(
    fullName: string,
    email: string,
    phone: Option<string>,
    zip: string,
    workType: string,
    message: string,
    consent: bool,
    company: Option<string>)

  datatype Parsed = Valid(payload: ContactPayload) | Invalid(issues: set<Field>)

  // ---------------------------------------------------------------------------
  // contactSchema, one key at a time
  // ---------------------------------------------------------------------------

  /** `z.string().min(2)`. */
  predicate FullNameOk(v: Option<string>) {
    v.Some? && |v.value| >= 2
  }

  /** `z.string().email()`. */
  predicate EmailOk(v: Option<string>, isEmail: string -> bool) {
    v.Some? && isEmail(v.value)
  }

  /** `z.string().trim().optional().refine(v => !v || v === '' || v.length >= 7)`: the test is on the trimmed value. */
  predicate PhoneOk(v: Option<string>) {
    v.None? || Trim(v.value) == "" || |Trim(v.value)| >= 7
  }

  /** `/^\d{5}$/`: exactly five ASCII digits. */
  predicate IsZip(s: string) {
    |s| == 5 && forall i :: 0 <= i < 5 ==> IsDigit(s[i])
  }

  predicate ZipOk(v: Option<string>) {
    v.Some? && IsZip(v.value)
  }

  /** `z.enum(CONTACT_SERVICES)`. */
  predicate WorkTypeOk(v: Option<string>) {
    v.Some? && v.value in ContactServices
  }

  /** `z.string().min(10).max(3000)`. */
  predicate MessageOk(v: Option<string>) {
    v.Some? && 10 <= |v.value| <= 3000
  }

  /** `z.boolean().refine(v => v === true)`. */
  predicate ConsentOk(v: Option<bool>) {
    v == Some(true)
  }

  /** The honeypot: `z.string().optional().refine(v => !v || v === '')`. */
  predicate CompanyOk(v: Option<string>) {
    !Truthy(v)
  }

  predicate FieldOk(raw: RawContact, f: Field, isEmail: string -> bool) {
    match f
    case FullName => FullNameOk(raw.fullName)
    case Email => EmailOk(raw.email, isEmail)
    case Phone => PhoneOk(raw.phone)
    case Zip => ZipOk(raw.zip)
    case WorkType => WorkTypeOk(raw.workType)
    case Message => MessageOk(raw.message)
    case Consent => ConsentOk(raw.consent)
    case Company => CompanyOk(raw.company)
  }

  const AllFields: set<Field> := {FullName, Email, Phone, Zip, WorkType, Message, Consent, Company}

  /** The keys whose rule fails: zod checks every key and reports all failures together. */
  function Issues(raw: RawContact, isEmail: string -> bool): (r: set<Field>)
    ensures forall f :: f in r <==> !FieldOk(raw, f, isEmail)
  {
    set f | f in AllFields && !FieldOk(raw, f, isEmail)
  }

  /** The parsed value of the phone key: trimmed when present. */
  function ParsedPhone(v: Option<string>): (r: Option<string>)
    ensures r.Some? <==> v.Some?
    ensures v.Some? ==> r.value == Trim(v.value)
  {
    if v.Some? then Some(Trim(v.value)) else None
  }

  /** `contactSchema.safeParse(raw)`: the payload when every rule holds, the failing keys otherwise. */
  function ParseContact(raw: RawContact, isEmail: string -> bool): (r: Parsed)
    ensures r.Valid? <==> forall f :: FieldOk(raw, f, isEmail)
    ensures r.Invalid? ==> r.issues != {} && forall f :: f in r.issues <==> !FieldOk(raw, f, isEmail)
    ensures r.Valid? ==> (
      && Some(r.payload.fullName) == raw.fullName && Some(r.payload.email) == raw.email
      && Some(r.payload.zip) == raw.zip && Some(r.payload.workType) == raw.workType
      && Some(r.payload.message) == raw.message && r.payload.consent && r.payload.company == raw.company
      && r.payload.phone == ParsedPhone(raw.phone))
  {
    var issues := Issues(raw, isEmail);
    if issues != {} then Invalid(issues)
    else
      assert FieldOk(raw, FullName, isEmail) && FieldOk(raw, Email, isEmail) && FieldOk(raw, Zip, isEmail);
      assert FieldOk(raw, WorkType, isEmail) && FieldOk(raw, Message, isEmail) && FieldOk(raw, Consent, isEmail);
      Valid(ContactPayload(raw.fullName.value, raw.email.value, ParsedPhone(raw.phone), raw.zip.value,
                           raw.workType.value, raw.message.value, raw.consent.value, raw.company))
  }

  // ---------------------------------------------------------------------------
  // Properties of contactSchema
  // ---------------------------------------------------------------------------

  /** A valid payload: every rule holds, and there is no partial acceptance. */
  predicate IsValidContact(raw: RawContact, isEmail: string -> bool) {
    ParseContact(raw, isEmail).Valid?
  }

  lemma ValidIffEveryRule(raw: RawContact, isEmail: string -> bool)
    ensures IsValidContact(raw, isEmail) <==>
      FullNameOk(raw.fullName) && EmailOk(raw.email, isEmail) && PhoneOk(raw.phone) && ZipOk(raw.zip)
      && WorkTypeOk(raw.workType) && MessageOk(raw.message) && ConsentOk(raw.consent) && CompanyOk(raw.company)
  {
    if IsValidContact(raw, isEmail) {
      assert FieldOk(raw, FullName, isEmail) && FieldOk(raw, Email, isEmail) && FieldOk(raw, Phone, isEmail);
      assert FieldOk(raw, Zip, isEmail) && FieldOk(raw, WorkType, isEmail) && FieldOk(raw, Message, isEmail);
      assert FieldOk(raw, Consent, isEmail) && FieldOk(raw, Company, isEmail);
    } else {
      var f :| !FieldOk(raw, f, isEmail);
    }
  }

  /** The ZIP rule accepts five ASCII digits and rejects shorter, longer and non-digit strings. */
  lemma ZipExamples()
    ensures ZipOk(Some("12345")) && ZipOk(Some("07030"))
    ensures !ZipOk(Some("1234")) && !ZipOk(Some("123456")) && !ZipOk(Some("abcde")) && !ZipOk(None)
  {
    forall i | 0 <= i < 5 ensures IsDigit("12345"[i]) && IsDigit("07030"[i]) {
    }
    assert !IsDigit("abcde"[0]);
  }

  /**
   * The phone rule judges the trimmed number: trimming first never changes
   * the verdict, a blank or whitespace-only phone passes, and a non-blank one
   * needs seven characters once trimmed.
   */
  lemma PhoneRule(v: string)
    ensures PhoneOk(Some(v)) <==> PhoneOk(Some(Trim(v)))
    ensures AllSpace(v) ==> PhoneOk(Some(v))
    ensures PhoneOk(Some(v)) <==> Trim(v) == "" || |Trim(v)| >= 7
    ensures PhoneOk(None) && PhoneOk(Some(""))
  {
    var t := Trim(v);
    if t != [] {
      TrimAround([], t, []);
      assert [] + t + [] == t;
    }
  }

  /** Surrounding whitespace does not count towards the seven characters. */
  lemma PhoneLengthIgnoresPadding(w1: string, x: string, w2: string)
    requires AllSpace(w1) && AllSpace(w2)
    requires x != [] && !IsSpace(x[0]) && !IsSpace(x[|x| - 1])
    ensures PhoneOk(Some(w1 + x + w2)) <==> |x| >= 7
  {
    TrimAround(w1, x, w2);
  }

  /** Any non-empty honeypot value makes the whole payload invalid. */
  lemma HoneypotRejects(raw: RawContact, isEmail: string -> bool)
    requires Truthy(raw.company)
    ensures ParseContact(raw, isEmail) == Invalid(Issues(raw, isEmail)) && Company in Issues(raw, isEmail)
  {
    assert !FieldOk(raw, Company, isEmail);
  }

  /** Only `true` gives consent: a missing or `false` consent is reported. */
  lemma ConsentRequired(raw: RawContact, isEmail: string -> bool)
    requires raw.consent != Some(true)
    ensures !IsValidContact(raw, isEmail) && Consent in Issues(raw, isEmail)
  {
    assert !FieldOk(raw, Consent, isEmail);
  }

  /** A service outside `CONTACT_SERVICES` is rejected, whatever else the payload holds. */
  lemma UnknownServiceRejected(raw: RawContact, isEmail: string -> bool)
    requires raw.workType.Some? && raw.workType.value !in ContactServices
    ensures WorkType in Issues(raw, isEmail) && !IsValidContact(raw, isEmail)
  {
    assert !FieldOk(raw, WorkType, isEmail);
  }

  // ---------------------------------------------------------------------------
  // The older five-field schema
  // ---------------------------------------------------------------------------

  /** `z.string().nonempty().min(5).max(30)`. */
  predicate LegacyFullNameOk(v: Option<string>) {
    v.Some? && v.value != "" && 5 <= |v.value| <= 30
  }

  /** `z.string().nonempty().max(50).email()`. */
  predicate LegacyEmailOk(v: Option<string>, isEmail: string -> bool) {
    v.Some? && v.value != "" && |v.value| <= 50 && isEmail(v.value)
  }

  /** `z.string().max(15).optional()`. */
  predicate LegacyPhoneOk(v: Option<string>) {
    v.None? || |v.value| <= 15
  }

  /** `z.string().nonempty().max(50)`: any service name, with no list to belong to. */
  predicate LegacyWorkTypeOk(v: Option<string>) {
    v.Some? && v.value != "" && |v.value| <= 50
  }

  /** `z.string().max(500).optional()`. */
  predicate LegacyMessageOk(v: Option<string>) {
    v.None? || |v.value| <= 500
  }

  /** The keys the older schema constrains. */
  const LegacyFields: set<Field> := {FullName, Email, Phone, WorkType, Message}

  predicate LegacyFieldOk(raw: RawContact, f: Field, isEmail: string -> bool) {
    match f
    case FullName => LegacyFullNameOk(raw.fullName)
    case Email => LegacyEmailOk(raw.email, isEmail)
    case Phone => LegacyPhoneOk(raw.phone)
    case WorkType => LegacyWorkTypeOk(raw.workType)
    case Message => LegacyMessageOk(raw.message)
    case _ => true
  }

  /** The keys whose rule in the older schema fails. */
  function LegacyIssues(raw: RawContact, isEmail: string -> bool): (r: set<Field>)
    ensures r <= LegacyFields
    ensures forall f :: f in r <==> !LegacyFieldOk(raw, f, isEmail)
  {
    set f | f in LegacyFields && !LegacyFieldOk(raw, f, isEmail)
  }

  predicate IsValidLegacy(raw: RawContact, isEmail: string -> bool) {
    LegacyIssues(raw, isEmail) == {}
  }

  lemma LegacyValidIffEveryRule(raw: RawContact, isEmail: string -> bool)
    ensures IsValidLegacy(raw, isEmail) <==>
      LegacyFullNameOk(raw.fullName) && LegacyEmailOk(raw.email, isEmail) && LegacyPhoneOk(raw.phone)
      && LegacyWorkTypeOk(raw.workType) && LegacyMessageOk(raw.message)
  {
    if IsValidLegacy(raw, isEmail) {
      assert LegacyFieldOk(raw, FullName, isEmail) && LegacyFieldOk(raw, Email, isEmail);
      assert LegacyFieldOk(raw, Phone, isEmail) && LegacyFieldOk(raw, WorkType, isEmail);
      assert LegacyFieldOk(raw, Message, isEmail);
    } else {
      var f :| f in LegacyIssues(raw, isEmail);
    }
  }

  /** The older schema reads only its five keys: ZIP, consent and honeypot never change its verdict. */
  lemma LegacyIgnoresOtherKeys(raw: RawContact, zip: Option<string>, consent: Option<bool>, company: Option<string>, isEmail: string -> bool)
    ensures LegacyIssues(raw.(zip := zip, consent := consent, company := company), isEmail) == LegacyIssues(raw, isEmail)
  {
    var raw' := raw.(zip := zip, consent := consent, company := company);
    forall f ensures LegacyFieldOk(raw', f, isEmail) == LegacyFieldOk(raw, f, isEmail) {
    }
  }

  /**
   * The two schemas disagree: a request for "Landscaping" with no ZIP, no
   * consent and a filled honeypot passes the older schema and fails the
   * current one on four keys.
   */
  lemma SchemasDiffer(isEmail: string -> bool)
    requires isEmail("ana@example.com")
    ensures var raw := RawContact(Some("Ana Lopez"), Some("ana@example.com"), None, None, Some("Landscaping"),
                                  Some("Please call me back"), None, Some("ACME"));
      IsValidLegacy(raw, isEmail) && Issues(raw, isEmail) == {Zip, WorkType, Consent, Company}
  {
    var raw := RawContact(Some("Ana Lopez"), Some("ana@example.com"), None, None, Some("Landscaping"),
                          Some("Please call me back"), None, Some("ACME"));
    assert !LegacyFieldOk(raw, FullName, isEmail) ==> false;
    assert "Landscaping" != ContactServices[0] && "Landscaping" != ContactServices[1];
    UnknownServiceRejected(raw, isEmail);
    forall f ensures f in Issues(raw, isEmail) <==> f in {Zip, WorkType, Consent, Company} {
    }
  }
}
