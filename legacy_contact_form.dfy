/**
 * The older contact form: two state cells, `isLoading` and the three-valued
 * `isSuccess` (`null` until a submission settles it).
 */
module LegacyContactForm {
  import opened Text
  import opened Http
  import ContactForm
  import SendMailRoute

  /** Whether the response status is exactly 200. */
  predicate IsTwoHundred(outcome: FetchOutcome) {
    outcome.Responded? && outcome.status == 200
  }

  /** The `isSuccess` value after a submission that started from `before`. */
  function SuccessAfter(before: Option<bool>, outcome: FetchOutcome): (r: Option<bool>)
    ensures IsTwoHundred(outcome) ==> r == Some(true)
    ensures outcome.Threw? ==> r == Some(false)
    ensures outcome.Responded? && outcome.status != 200 ==> r == before
    ensures r == Some(false) ==> outcome.Threw? || before == Some(false)
  {
    match outcome
    case Threw => Some(false)
    case Responded(status) => if status == 200 then Some(true) else before
  }

  /** Another success status such as 201, or an error status, leaves a fresh form's `isSuccess` at `null`. */
  lemma NonTwoHundredKeepsNull(status: int)
    requires status != 200
    ensures SuccessAfter(None, Responded(status)) == None
    ensures SuccessAfter(Some(false), Responded(status)) == Some(false)
  {
  }

  /**
   * The two forms read a reply differently: the newer one accepts any 2xx
   * (`res.ok`), the older one only 200. Every 200 is a success for both, a
   * 204 only for the newer form.
   */
  lemma FormsReadSuccess(outcome: FetchOutcome)
    ensures IsTwoHundred(outcome) ==> ContactForm.Succeeded(outcome)
    ensures ContactForm.Succeeded(outcome) && !IsTwoHundred(outcome) ==> 201 <= outcome.status <= 299
    ensures ContactForm.Succeeded(Responded(204)) && !IsTwoHundred(Responded(204))
  {
  }

  /**
   * The send-mail route only ever answers 200, 400 or 500, so on its replies
   * the two forms agree: both report success exactly when the fields were
   * there and the mail went out.
   */
  lemma FormsAgreeOnRoute(b: SendMailRoute.ContactBody, delivered: bool)
    ensures var o := Responded(SendMailRoute.Outcome(b, delivered).status);
      && (IsTwoHundred(o) <==> ContactForm.Succeeded(o))
      && (IsTwoHundred(o) <==> !SendMailRoute.MissingFields(b) && delivered)
  {
  }

  class LegacyForm {
    var isSuccess: Option<bool>
    var isLoading: bool
    /** Every value `isLoading` was set to, in order. */
    var loading: seq<bool>
    var resets: nat

    constructor ()
      ensures isSuccess == None && !isLoading && loading == [] && resets == 0
    {
      isSuccess := None;
      isLoading := false;
      loading := [];
      resets := 0;
    }

    /**
     * `onSubmit`: loading while the request is out, success (and a reset)
     * only on status 200, failure only when the fetch throws, and not
     * loading afterwards on every path.
     */
    method OnSubmit(outcome: FetchOutcome)
      modifies this
      ensures loading == old(loading) + [true, false] && !isLoading
      ensures isSuccess == SuccessAfter(old(isSuccess), outcome)
      ensures resets == old(resets) + (if IsTwoHundred(outcome) then 1 else 0)
    {
      isLoading := true;
      loading := loading + [true];
      match outcome {
        case Responded(status) =>
          if status == 200 {
            isSuccess := Some(true);
            resets := resets + 1;
          }
        case Threw =>
          isSuccess := Some(false);
      }
      isLoading := false;
      loading := loading + [false];
    }
  }
}
