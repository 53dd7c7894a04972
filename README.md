# 247-class-booker: the scheduling and retry core, in Dafny

`247-class-booker.js` is a Node script that books a class at a 24/7 gym. It lists the gym's
classes, lets the user pick one by id, and sleeps until five minutes before booking opens. It
then tries to fetch a session cookie through a headless browser and sleeps until booking opens. After
that it posts claim requests in two tiers: 20 posts 500 ms apart, then 20 posts 20 s apart. Each
reply is classified to decide whether to stop.

This project models that decision core. Network, browser, console and clock are replaced by
values:
- the replies the server gives to successive claim posts,
- the outcomes of successive scraper calls,
- the listing's status and classes,
- the id typed at the prompt, already parsed,
- the clock reading when the first sleep is computed,
- the time the cookie phase takes.

Modules, one per part of the script:
- `Classifier` (`tryToBook`): a reply is `Accepted` (the post resolved), `Rejected(status,
  errorMessage)` or `NoResponse`. The verdict is `Terminal` (returns `true`), `KeepTrying`
  (returns `undefined`) or `Thrown` (the catch handler itself throws).
- `Timeline`: the wake instants, each with the fixed two-day shift, and the sleeps towards them.
- `Retry`: the two booking loops as a method. It is proved against the specification functions
  `Ending`, `PostCount` and `PauseTotal`, which are built on the first decisive reply among the
  first 40. The ghost counters `posts` and `pausedMs` record the posts made and the time slept.
- `Cookie`: the shared `headers` object as a class, and the five-try cookie loop as a method on it.
- `Classes`: the record mapping of `getClasses`, with its two in-place reversals of an array, and
  the id lookup of `askForClassToBook`.
- `Cli`: the argument check.
- `Booker`: `main` put together.
- `Search` and `Wrappers`: helpers (first/last matching index; Option and Result).

The model keeps the script's behaviour where a cleaner design would differ:
- A claim post that succeeds (2xx) is not terminal. `tryToBook` returns `undefined` and the loop
  posts again (`Retry.AcceptedPostIsFollowedByAnother`).
- Both wake instants subtract the fixed two-day shift, as the script does.
- A post that fails with no server response is not retried. Reading `err.response.status` throws,
  and `main` rejects (`Crashed`).
- `ALREADY_BOOKED`, `ALREADY_ON_WAITING_LIST`, `TOO_LATE_TO_BOOK_WAITING_LIST` and 401 all yield
  the same `true`. The script tells them apart only in its log lines.

## Model

| member | source | states |
|---|---|---|
| `Classifier.TryToBook` | 247-class-booker.js:125-148 | terminal exactly for a 401, or a 500 whose errorMessage is one of the three waiting-list/booked/too-late codes; throws exactly when there is no response; a resolved post is not terminal |
| `Timeline.WokenAt` | 247-class-booker.js:41 | sleeping `wake - now` ends at the later of `wake` and `now`; a wake instant already past means no wait |
| `Timeline.FirstPostAt` | 247-class-booker.js:38-61 | the first claim post is never before `starts - 2 days`; it is exactly then when the run starts before the cookie instant and the cookie phase takes at most 5 minutes |
| `Timeline.WakeInstants` | 247-class-booker.js:38-59 | cookie wake is `starts - 2*86 400 000 - 300 000`, booking wake `starts - 2*86 400 000`, 300 000 ms apart |
| `Retry.Book` | 247-class-booker.js:67-81 | the loops end as `Ending`, make `PostCount` posts and sleep `PauseTotal` ms |
| `Retry.PausesBeforeClosedForm` | 247-class-booker.js:70-81 | after k non-terminal posts the pauses total 500·k for k ≤ 20, else 10 000 + 20 000·(k − 20) |
| `Retry.StopsAtFirstDecisiveReply` | 247-class-booker.js:70-81 | the loop ends at the first reply that is not "keep trying", with no post after it; it runs out exactly when all 40 replies are non-terminal |
| `Retry.PostBudget` | 247-class-booker.js:70-81 | 1 to 40 posts; a slow-tier post happens only after 20 non-terminal fast posts; an ending in the fast tier makes at most 20 posts |
| `Retry.PauseBudget` | 247-class-booker.js:73-80 | total sleep is at most 410 000 ms, equal to it exactly when both tiers run out; 500·round in the fast tier, 10 000 + 20 000·round in the slow one |
| `Retry.AcceptedPostIsFollowedByAnother` | 247-class-booker.js:126-128 | a post that resolves (2xx) is followed by another post |
| `Retry.AlreadyBookedOnSecondPost` | 247-class-booker.js:138-141 | one indeterminate reply then 500 "ALREADY_BOOKED": stopped at the second fast post after one 500 ms pause |
| `Retry.UnauthorizedFirstPost` | 247-class-booker.js:130-132 | a 401 on the first post ends the loop after exactly one post and no pause |
| `Cookie.Calls` | 247-class-booker.js:47-52 | 1 to 5 scraper calls; the last one succeeded unless all 5 were used; every earlier one failed |
| `Cookie.AuthorizationAfter` | 247-class-booker.js:47-54 | the slot holds the value of the first successful scrape; if all five fail it keeps its prior value |
| `Cookie.Headers.constructor` | 247-class-booker.js:18 | the Authorization slot starts as null |
| `Cookie.Headers.FetchCookie` | 247-class-booker.js:47-52 | makes `Calls` scraper calls and leaves the slot as `AuthorizationAfter` of its old value |
| `Cli.ArgsAccepted` | 247-class-booker.js:21-28 | accepted exactly when argv has an email containing '@' and a non-empty password without '@' |
| `Classes.ToRecord` | 247-class-booker.js:93-100 | the record takes id, starts and typeId over; location is the first location, or undefined for an empty list |
| `Classes.ReversedTwice` | 247-class-booker.js:102-112 | reversing twice restores the sequence |
| `Classes.ReverseInPlace` | 247-class-booker.js:102 | the array afterwards is the reverse of the array before |
| `Classes.GetClasses` | 247-class-booker.js:84-113 | fails exactly when the status is not 200; otherwise one record per listed class, in listing order |
| `Classes.Selected` | 247-class-booker.js:161-164 | null when the parse gave NaN or no record has the id; otherwise the last record with that id |
| `Classes.FindClass` | 247-class-booker.js:152-166 | the loop's final `classToBook` is `Selected` |
| `Booker.Run` | 247-class-booker.js:20-82 | rejected arguments, a failed listing or no matching class end the run with no scraper call and no post; otherwise the Authorization slot, the booking ending, the numbers of scraper calls and posts, and the instant of the first post are as the functions above give them |

## Left out

- HTTP calls (the listing fetch, the claim post, `testCookie`) are not modelled. Each appears only
  as the value it yields: a status and classes, or a `Reply`.
- `scrapeCookie` (browser automation) is not modelled. Each call is an `Option`: `Some(token)` when
  it resolves, `None` when it throws. As written, `scrapeCookie` reads `email` and `password`
  (lines 183 and 186), which are `const` locals of `main` (lines 22-23) and not in its scope. Every
  call therefore throws a ReferenceError, so the script as written always makes 5 scraper calls and
  leaves `Authorization` null: the `scrapes` input that is all `None`.
- Reading from the terminal is not modelled. This covers `input`, the re-prompt loop at lines
  156-160, and `parseInt` of the typed text. The parsed id is an input, with `None` standing for
  NaN. The branch at line 154 that takes the id from argv[2] is never taken once the arguments
  are accepted, because argv then has at least four entries (asserted in `Booker.Run`).
- Console output is not modelled. This includes the display-only filter at line 103 inside the
  loop over the reversed array.
- The random `bookingId` of the claim payload is not modelled; the payload is opaque.
- Wall-clock reads, `process.env.TZ` and real timers are replaced by integers. The model takes a
  sleep of a non-positive delay as no wait. Node actually clamps a delay below 1 ms, or above
  2 147 483 647 ms, to 1 ms; that clamp is not modelled.
- Timeline.FirstPostAt: its "never before `starts - 2 days`" holds only without Node's timer clamp.
  When a wait exceeds 2 147 483 647 ms (a class more than about 26.9 days out), both sleeps last
  1 ms and the script posts at once.
- The date string `starts` is not parsed; it is taken as milliseconds since the epoch.
- A listing entry whose `location` is null or missing would throw. A non-array `location` (a
  string, whose first character would be taken) is not modelled; the model takes `location` to be a
  list.
- A 500 reply whose body is null would throw inside `tryToBook`; the model takes the body to be
  present.
- A non-string `errorMessage` compared with `==` is not modelled; the message is an optional string.
- Booker.Run: the time spent on the listing and the prompt is folded into `startedAt`, and the
  cookie phase's duration is one opaque number, not a sum of per-call times.
- Retry.Book, Cookie.Headers.FetchCookie, Booker.Run: the server replies and scraper outcomes are
  sequences given in advance, so a reply cannot depend on the time at which the post is made.
