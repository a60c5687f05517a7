/** The outcomes an Express handler answers with when it does not succeed.
    Every handler in index.js ends a failed request with
    `res.status(code).json({ error: message })`; the three shapes below say
    which path of the handler produced the answer. */
module Http {

  datatype Failure =
      /** An explicit early `return res.status(status).json(...)` after a guard failed. */
    | Refused(status: int, message: string)
      /** A schema validation error thrown by `save()` and caught by the handler's
          `catch`; `paths` lists the offending fields in schema order. */
    | Invalid(status: int, paths: seq<string>)
      /** Any other exception caught by the handler's `catch` (for instance a
          `TypeError` from reading a property of `null`). */
    | Crashed(status: int)

  const RequestNotFound := "Interview request not found"
  const NotAvailable := "Interview request is not available for acceptance"
  const OwnRequest := "You cannot accept your own interview request"
  const UserNotFound := "User not found"
  const NotAccepted := "Interview request is not in accepted state"
  const OnlyInterviewer := "Only interviewer can complete the interview"
  const OnlyRequester := "Only requester can cancel the interview"
  const NotCancellable := "Interview request cannot be cancelled"
}
