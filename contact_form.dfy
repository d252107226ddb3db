/**
 * The quote-request form: its list of services, its default values, and
 * the `status` its submit handler moves through.
 */
module ContactForm {
  import opened Text
  import opened Http
  import opened ContactSchema

  /** The translated `form.services` list: `None` when the translation is not an array. */
  function ServiceOptions(translated: Option<seq<string>>): (r: seq<string>)
    ensures translated.Some? && translated.value != [] ==> r == translated.value
    ensures translated.None? || translated.value == [] ==> r == ContactServices
    ensures r != []
  {
    if translated.Some? && |translated.value| > 0 then translated.value else ContactServices
  }

  /** The form's `defaultValues`. */
  const Defaults: RawContact :=
    RawContact(Some(""), Some(""), Some(""), Some(""), None, Some(""), Some(false), Some(""))

  /** The defaults do not pass the schema. */
  lemma DefaultsRejected(isEmail: string -> bool)
    ensures forall f :: f in Issues(Defaults, isEmail) <==> DefaultFails(f, isEmail)
    ensures !IsValidContact(Defaults, isEmail)
  {
    var d := Defaults;
    forall f
      ensures f in Issues(d, isEmail) <==> DefaultFails(f, isEmail)
    {
      if f == Phone {
        assert Trim("") == "";
      }
    }
    assert !FieldOk(d, FullName, isEmail);
  }

  /**
   * The rules the defaults fail: the name, ZIP, service, message and
   * consent rules, and the email rule unless the empty string were an
   * email address; the empty phone and honeypot are accepted.
   */
  predicate DefaultFails(f: Field, isEmail: string -> bool) {
    f in {FullName, Zip, WorkType, Message, Consent} || (f == Email && !isEmail(""))
  }

  datatype Status = Idle | Ok | Error

  /** Whether a fetch ended in a response with `res.ok`. */
  predicate Succeeded(outcome: FetchOutcome) {
    outcome.Responded? && IsOk(outcome.status)
  }

  /** The form component's state: every `status` it has shown, and how many times the fields were reset. */
  class QuoteForm {
    var statuses: seq<Status>
    var resets: nat

    function Current(): Status
      reads this
    {
      if statuses == [] then Idle else statuses[|statuses| - 1]
    }

    constructor ()
      ensures statuses == [Idle] && resets == 0
    {
      statuses := [Idle];
      resets := 0;
    }

    /**
     * `onSubmit`: back to idle, then ok (and the fields reset) when the
     * response is ok, error when it is not or when the fetch throws.
     */
    method OnSubmit(outcome: FetchOutcome)
      modifies this
      ensures statuses == old(statuses) + [Idle, if Succeeded(outcome) then Ok else Error]
      ensures resets == old(resets) + (if Succeeded(outcome) then 1 else 0)
      ensures Current() == Ok <==> Succeeded(outcome)
    {
      statuses := statuses + [Idle];
      if Succeeded(outcome) {
        statuses := statuses + [Ok];
        resets := resets + 1;
      } else {
        statuses := statuses + [Error];
      }
    }

    /** `handleSubmit(onSubmit)`: the handler runs only for values the schema accepts. */
    method HandleSubmit(values: RawContact, isEmail: string -> bool, outcome: FetchOutcome)
      modifies this
      ensures !IsValidContact(values, isEmail) ==> statuses == old(statuses) && resets == old(resets)
      ensures IsValidContact(values, isEmail) ==>
        statuses == old(statuses) + [Idle, if Succeeded(outcome) then Ok else Error]
        && resets == old(resets) + (if Succeeded(outcome) then 1 else 0)
    {
      if IsValidContact(values, isEmail) {
        OnSubmit(outcome);
      }
    }
  }

  /** Submitting the untouched form never reaches the server. */
  method SubmitDefaults(f: QuoteForm, isEmail: string -> bool, outcome: FetchOutcome)
    modifies f
    ensures f.statuses == old(f.statuses) && f.resets == old(f.resets)
  {
    DefaultsRejected(isEmail);
    f.HandleSubmit(Defaults, isEmail, outcome);
  }
}
