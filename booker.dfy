/** `main`: argument check, listing, class choice, cookie phase, then the booking loops. */
module Booker {
  import opened Wrappers
  import opened Classifier
  import opened Timeline
  import opened Retry
  import opened Cookie
  import opened Classes
  import opened Cli

  /** How a run of `main` ends. */
  datatype RunEnd =
    | Usage                 // the usage line is printed and `main` returns
    | ListingFailed         // `getClasses` threw
    | NoClass               // no class matched, so reading `starts` of `null` threw
    | Attempted(authorization: Option<string>, booking: BookingEnd)

  /** The records `getClasses` returns for a listing. */
  function Records(listed: seq<RawClass>): seq<ClassRecord> {
    seq(|listed|, i requires 0 <= i < |listed| => ToRecord(listed[i]))
  }

  /** One run of `main`. The environment is given as values: the listing's status and classes,
      the parsed id typed at the prompt, the outcomes of successive scraper calls, the replies to
      successive claim posts, the clock when the first sleep is computed and the time the cookie
      phase takes. */
  method Run(argv: seq<string>, status: int, listed: seq<RawClass>, wanted: Option<int>,
             scrapes: seq<Option<string>>, replies: seq<Reply>, startedAt: int, scrapingMs: nat)
    returns (end: RunEnd, ghost scraperCalls: nat, ghost posts: nat, ghost firstPostAt: int)
    requires |scrapes| >= COOKIE_ATTEMPTS && |replies| >= MAX_ATTEMPTS
    ensures !ArgsAccepted(argv) ==> end == Usage
    ensures ArgsAccepted(argv) && status != 200 ==> end == ListingFailed
    ensures ArgsAccepted(argv) && status == 200 && Selected(Records(listed), wanted).None? ==> end == NoClass
    ensures !end.Attempted? ==> scraperCalls == 0 && posts == 0
    ensures end.Attempted? <==>
      ArgsAccepted(argv) && status == 200 && Selected(Records(listed), wanted).Some?
    ensures end.Attempted? ==>
      var starts := Selected(Records(listed), wanted).value.starts;
      && end.authorization == AuthorizationAfter(None, scrapes)
      && end.booking == Ending(replies)
      && scraperCalls == Calls(scrapes)
      && posts == PostCount(replies)
      && firstPostAt == FirstPostAt(startedAt, starts, scrapingMs)
  {
    scraperCalls, posts, firstPostAt := 0, 0, startedAt;
    if !ArgsAccepted(argv) {
      return Usage, scraperCalls, posts, firstPostAt;
    }
    var listing := GetClasses(status, listed);
    if listing.Failure? {
      return ListingFailed, scraperCalls, posts, firstPostAt;
    }
    assert listing.value == Records(listed);
    // The id is never taken from argv[2]: the arguments were accepted, so argv has more than 3 entries.
    assert |argv| > 3;
    var classToBook := FindClass(listing.value, wanted);
    if classToBook.None? {
      return NoClass, scraperCalls, posts, firstPostAt;
    }
    var starts := classToBook.value.starts;
    ghost var now := WokenAt(CookieWake(starts), startedAt);
    var headers := new Headers();
    scraperCalls := headers.FetchCookie(scrapes);
    now := WokenAt(BookingWake(starts), now + scrapingMs);
    firstPostAt := now;
    var booking;
    ghost var pausedMs;
    booking, posts, pausedMs := Book(replies);
    end := Attempted(headers.authorization, booking);
  }
}
