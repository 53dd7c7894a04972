/** The two-tier booking loop at the end of `main`. */
module Retry {
  import opened Wrappers
  import opened Search
  import opened Classifier

  /** Posts per tier. */
  const TIER_ATTEMPTS := 20
  const MAX_ATTEMPTS := 2 * TIER_ATTEMPTS
  /** Pause after a non-terminal post in the first tier. */
  const FAST_PAUSE_MS := 500
  /** Pause after a non-terminal post in the second tier. */
  const SLOW_PAUSE_MS := 20 * 1000

  datatype Tier = Fast | Slow

  /** How the booking loop ends; `round` is the loop counter `i` of the tier in which it ended. */
  datatype BookingEnd =
    | Stopped(tier: Tier, round: nat)   // `tryToBook` returned true and `main` returned
    | Crashed(tier: Tier, round: nat)   // `tryToBook` threw and `main` rejected
    | Exhausted                         // both tiers ran out

  /** The tier and loop counter of the post with global index `k`. */
  function EndAt(k: nat, v: Verdict): (e: BookingEnd)
    requires k < MAX_ATTEMPTS && v != KeepTrying
    ensures !e.Exhausted? && Attempt(e) == k
    ensures e.Stopped? <==> v == Terminal
  {
    var tier := if k < TIER_ATTEMPTS then Fast else Slow;
    var round := if k < TIER_ATTEMPTS then k else k - TIER_ATTEMPTS;
    if v == Terminal then Stopped(tier, round) else Crashed(tier, round)
  }

  /** The global index (0-based, over both tiers) of the post an ending happened at. */
  function Attempt(e: BookingEnd): nat
    requires !e.Exhausted?
  {
    if e.tier == Fast then e.round else TIER_ATTEMPTS + e.round
  }

  /** The pause taken after the non-terminal post with global index `j`. */
  function PauseAfter(j: nat): nat {
    if j < TIER_ATTEMPTS then FAST_PAUSE_MS else SLOW_PAUSE_MS
  }

  /** Total pause after `k` consecutive non-terminal posts. */
  function PausesBefore(k: nat): nat {
    if k == 0 then 0 else PausesBefore(k - 1) + PauseAfter(k - 1)
  }

  /** The index of the post at which the loop stops, given the server's replies to successive posts. */
  function FirstStop(replies: seq<Reply>): Option<nat>
    requires |replies| >= MAX_ATTEMPTS
  {
    FirstWhere(replies[..MAX_ATTEMPTS], Stops)
  }

  /** How the loop ends. */
  function Ending(replies: seq<Reply>): BookingEnd
    requires |replies| >= MAX_ATTEMPTS
  {
    match FirstStop(replies)
    case None => Exhausted
    case Some(k) => EndAt(k, TryToBook(replies[k]))
  }

  /** How many posts the loop makes. */
  function PostCount(replies: seq<Reply>): nat
    requires |replies| >= MAX_ATTEMPTS
  {
    match FirstStop(replies)
    case None => MAX_ATTEMPTS
    case Some(k) => k + 1
  }

  /** The total time the loop spends in `sleep`. */
  function PauseTotal(replies: seq<Reply>): nat
    requires |replies| >= MAX_ATTEMPTS
  {
    match FirstStop(replies)
    case None => PausesBefore(MAX_ATTEMPTS)
    case Some(k) => PausesBefore(k)
  }

  /** Without a decisive reply among the first 40 there is no stopping post. */
  lemma NoFirstStop(replies: seq<Reply>)
    requires |replies| >= MAX_ATTEMPTS
    requires forall j :: 0 <= j < MAX_ATTEMPTS ==> !Stops(replies[j])
    ensures FirstStop(replies) == None
  {
  }

  /** The loop's results when it stops at post `k`. */
  lemma EndingAt(replies: seq<Reply>, k: nat)
    requires |replies| >= MAX_ATTEMPTS && k < MAX_ATTEMPTS
    requires Stops(replies[k]) && forall j :: 0 <= j < k ==> !Stops(replies[j])
    ensures Ending(replies) == EndAt(k, TryToBook(replies[k]))
    ensures PostCount(replies) == k + 1
    ensures PauseTotal(replies) == PausesBefore(k)
  {
  }

  /** The booking loops of `main`: the k-th post receives `replies[k]`. */
  method Book(replies: seq<Reply>) returns (end: BookingEnd, ghost posts: nat, ghost pausedMs: nat)
    requires |replies| >= MAX_ATTEMPTS
    ensures end == Ending(replies)
    ensures posts == PostCount(replies) && pausedMs == PauseTotal(replies)
  {
    posts, pausedMs := 0, 0;
    var i := 0;
    while i < TIER_ATTEMPTS
      invariant 0 <= i <= TIER_ATTEMPTS
      invariant posts == i && pausedMs == 500 * i
      invariant forall j :: 0 <= j < i ==> !Stops(replies[j])
    {
      var booked := TryToBook(replies[i]);
      posts := posts + 1;
      if booked != KeepTrying {
        EndingAt(replies, i);
        PausesBeforeClosedForm(i);
        end := EndAt(i, booked);
        return;
      }
      pausedMs := pausedMs + FAST_PAUSE_MS;
      i := i + 1;
    }
    i := 0;
    while i < TIER_ATTEMPTS
      invariant 0 <= i <= TIER_ATTEMPTS
      invariant posts == TIER_ATTEMPTS + i
      invariant pausedMs == 10_000 + 20_000 * i
      invariant forall j :: 0 <= j < posts ==> !Stops(replies[j])
    {
      var booked := TryToBook(replies[TIER_ATTEMPTS + i]);
      if booked != KeepTrying {
        EndingAt(replies, posts);
        PausesBeforeClosedForm(posts);
        end := EndAt(TIER_ATTEMPTS + i, booked);
        posts := posts + 1;
        return;
      }
      posts := posts + 1;
      pausedMs := pausedMs + SLOW_PAUSE_MS;
      i := i + 1;
    }
    NoFirstStop(replies);
    PausesBeforeClosedForm(MAX_ATTEMPTS);
    end := Exhausted;
  }

  /** The pauses in closed form: 500 ms after each fast post, then 20 000 ms after each slow one. */
  lemma {:induction false} PausesBeforeClosedForm(k: nat)
    ensures k <= TIER_ATTEMPTS ==> PausesBefore(k) == 500 * k
    ensures k > TIER_ATTEMPTS ==> PausesBefore(k) == 10_000 + 20_000 * (k - TIER_ATTEMPTS)
  {
    if k > 0 {
      PausesBeforeClosedForm(k - 1);
      assert PausesBefore(k) == PausesBefore(k - 1) + PauseAfter(k - 1);
    }
  }

  /** The loop stops at the first decisive reply and posts nothing after it; it only runs out
      when none of the 40 replies is decisive. */
  lemma StopsAtFirstDecisiveReply(replies: seq<Reply>)
    requires |replies| >= MAX_ATTEMPTS
    ensures Ending(replies).Exhausted? <==> forall j :: 0 <= j < MAX_ATTEMPTS ==> TryToBook(replies[j]) == KeepTrying
    ensures Ending(replies).Exhausted? ==> PostCount(replies) == MAX_ATTEMPTS
    ensures !Ending(replies).Exhausted? ==>
      var k := Attempt(Ending(replies));
      && k < MAX_ATTEMPTS
      && PostCount(replies) == k + 1
      && (forall j :: 0 <= j < k ==> TryToBook(replies[j]) == KeepTrying)
      && (Ending(replies).Stopped? <==> TryToBook(replies[k]) == Terminal)
      && (Ending(replies).Crashed? <==> TryToBook(replies[k]) == Thrown)
  {
  }

  /** At most 20 posts per tier, 40 in all; the slow tier starts only after 20 consecutive
      non-terminal fast posts. */
  lemma PostBudget(replies: seq<Reply>)
    requires |replies| >= MAX_ATTEMPTS
    ensures 1 <= PostCount(replies) <= MAX_ATTEMPTS
    ensures PostCount(replies) > TIER_ATTEMPTS ==>
      forall j :: 0 <= j < TIER_ATTEMPTS ==> TryToBook(replies[j]) == KeepTrying
    ensures (Ending(replies).Exhausted? || Ending(replies).tier == Slow) ==>
      PostCount(replies) > TIER_ATTEMPTS
    ensures !Ending(replies).Exhausted? && Ending(replies).tier == Fast ==>
      PostCount(replies) == Ending(replies).round + 1 <= TIER_ATTEMPTS
  {
  }

  /** The pauses add up to at most 410 000 ms, reached exactly when both tiers run out. */
  lemma PauseBudget(replies: seq<Reply>)
    requires |replies| >= MAX_ATTEMPTS
    ensures PauseTotal(replies) <= 410_000
    ensures PauseTotal(replies) == 410_000 <==> Ending(replies).Exhausted?
    ensures !Ending(replies).Exhausted? && Ending(replies).tier == Fast ==>
      PauseTotal(replies) == 500 * Ending(replies).round
    ensures !Ending(replies).Exhausted? && Ending(replies).tier == Slow ==>
      PauseTotal(replies) == 10_000 + 20_000 * Ending(replies).round
  {
    PausesBeforeClosedForm(MAX_ATTEMPTS);
    match FirstStop(replies)
    case None =>
    case Some(k) =>
      PausesBeforeClosedForm(k);
  }

  /** A post that goes through (2xx) does not end the loop: another post follows. */
  lemma AcceptedPostIsFollowedByAnother(replies: seq<Reply>, k: nat)
    requires |replies| >= MAX_ATTEMPTS && k + 1 < MAX_ATTEMPTS
    requires replies[k] == Accepted
    requires forall j :: 0 <= j < k ==> TryToBook(replies[j]) == KeepTrying
    ensures PostCount(replies) >= k + 2
  {
  }

  /** A first reply of 500 "ALREADY_BOOKED" after one indeterminate reply ends the loop at the
      second fast post, after a single 500 ms pause; the slow tier never runs. */
  lemma AlreadyBookedOnSecondPost(replies: seq<Reply>)
    requires |replies| >= MAX_ATTEMPTS
    requires TryToBook(replies[0]) == KeepTrying
    requires replies[1] == Rejected(500, Some(ALREADY_BOOKED))
    ensures Ending(replies) == Stopped(Fast, 1)
    ensures PostCount(replies) == 2 && PauseTotal(replies) == FAST_PAUSE_MS
  {
  }

  /** A 401 reply to the first post ends the loop after exactly that post, without a pause. */
  lemma UnauthorizedFirstPost(replies: seq<Reply>, message: Option<string>)
    requires |replies| >= MAX_ATTEMPTS
    requires replies[0] == Rejected(401, message)
    ensures Ending(replies) == Stopped(Fast, 0)
    ensures PostCount(replies) == 1 && PauseTotal(replies) == 0
  {
  }
}
