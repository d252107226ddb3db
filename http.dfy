/**
 * What a browser `fetch` of the send-mail endpoint can end in, as seen by
 * the two contact forms: a response with a status code, or a thrown error
 * (network failure, aborted request).
 */
module Http {

  datatype FetchOutcome = Responded(status: int) | Threw

  /** `Response.ok`: the status is in the range 200–299. */
  predicate IsOk(status: int) {
    200 <= status <= 299
  }

  lemma OkExamples()
    ensures IsOk(200) && IsOk(204) && IsOk(299)
    ensures !IsOk(199) && !IsOk(300) && !IsOk(400) && !IsOk(500)
  {
  }
}
