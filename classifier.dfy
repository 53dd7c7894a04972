/** `tryToBook`: one claim post and the decision whether the booking loop may stop. */
module Classifier {
  import opened Wrappers

  const WAITING_LIST := "ALREADY_ON_WAITING_LIST"
  const ALREADY_BOOKED := "ALREADY_BOOKED"
  const TOO_LATE := "TOO_LATE_TO_BOOK_WAITING_LIST"

  /** The `errorMessage` values of a status-500 reply that settle the booking. */
  const DECISIVE_MESSAGES: set<string> := {WAITING_LIST, ALREADY_BOOKED, TOO_LATE}

  /** What the claim post did. */
  datatype Reply =
    | Accepted                                            // the post resolved (a 2xx status)
    | Rejected(status: int, errorMessage: Option<string>) // the post failed with a server response
    | NoResponse                                          // the post failed before any response arrived

  /** What `tryToBook` hands back to `main`. */
  datatype Verdict =
    | Terminal    // returns `true`
    | KeepTrying  // returns `undefined`
    | Thrown      // the handler itself throws: `err.response` is undefined

  /** The decision of `tryToBook` for one reply. */
  function TryToBook(reply: Reply): (v: Verdict)
    ensures v == Terminal <==>
      reply.Rejected? &&
      (reply.status == 401 ||
       (reply.status == 500 && reply.errorMessage.Some? && reply.errorMessage.value in DECISIVE_MESSAGES))
    ensures v == Thrown <==> reply.NoResponse?
    ensures reply.Accepted? ==> v == KeepTrying
  {
    match reply
    case Accepted => KeepTrying
    case NoResponse => Thrown
    case Rejected(status, message) =>
      if status == 401 then Terminal
      else if status == 500 then
        if message == Some(WAITING_LIST) then Terminal
        else if message == Some(ALREADY_BOOKED) then Terminal
        else if message == Some(TOO_LATE) then Terminal
        else KeepTrying
      else KeepTrying
  }

  /** True when `main` does not go on to another post after this reply. */
  predicate Stops(reply: Reply) {
    TryToBook(reply) != KeepTrying
  }
}
