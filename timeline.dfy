/** The wake instants of `main` and the sleeps towards them, in integer milliseconds since the epoch. */
module Timeline {

  const ONE_HOUR_MS := 60 * 60 * 1000
  const ONE_DAY_MS := 24 * ONE_HOUR_MS
  /** The fixed two-day shift that both wake computations subtract. */
  const DAY_SHIFT_MS := 2 * ONE_DAY_MS
  /** How long before the booking instant the session cookie is fetched. */
  const COOKIE_LEAD_MS := 5 * 60 * 1000

  /** The instant `main` sleeps until before fetching the cookie. */
  function CookieWake(starts: int): int {
    starts - DAY_SHIFT_MS - COOKIE_LEAD_MS
  }

  /** The instant `main` sleeps until before the first claim post. */
  function BookingWake(starts: int): int {
    starts - DAY_SHIFT_MS
  }

  /** The argument handed to `sleep`: the wake instant minus the current instant. */
  function SleepArgument(wake: int, now: int): int {
    wake - now
  }

  /** How long a sleep of `ms` milliseconds actually suspends: a non-positive delay does not wait. */
  function Suspended(ms: int): nat {
    if ms > 0 then ms else 0
  }

  function Max(a: int, b: int): int {
    if a < b then b else a
  }

  /** The clock after `sleep(wake - now)` started at `now`: the wake instant, or `now` if it has passed. */
  function WokenAt(wake: int, now: int): (t: int)
    ensures t >= wake && t >= now
    ensures t == wake || t == now
    ensures now >= wake ==> t == now
  {
    now + Suspended(SleepArgument(wake, now))
  }

  /** The instant of the first claim post: sleep until the cookie wake instant from `startedAt`,
      spend `scrapingMs` on the cookie phase, then sleep until the booking wake instant. No post is
      made before the booking wake instant, and it is made exactly then unless the cookie phase
      overran it. */
  function FirstPostAt(startedAt: int, starts: int, scrapingMs: nat): (t: int)
    ensures t >= BookingWake(starts)
    ensures t == Max(Max(startedAt, CookieWake(starts)) + scrapingMs, BookingWake(starts))
    ensures startedAt <= CookieWake(starts) && scrapingMs <= COOKIE_LEAD_MS ==> t == BookingWake(starts)
  {
    var cookieAt := WokenAt(CookieWake(starts), startedAt);
    WokenAt(BookingWake(starts), cookieAt + scrapingMs)
  }

  /** The two wake instants lie 300 000 ms apart, and the booking one 172 800 000 ms before the class starts. */
  lemma WakeInstants(starts: int)
    ensures BookingWake(starts) - CookieWake(starts) == 300_000
    ensures starts - BookingWake(starts) == 172_800_000
    ensures CookieWake(starts) == starts - 2 * 86_400_000 - 300_000
  {
  }
}
