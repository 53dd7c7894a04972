/** The session-cookie phase of `main`: up to five calls to the browser scraper. */
module Cookie {
  import opened Wrappers
  import opened Search

  const COOKIE_ATTEMPTS := 5

  /** A scraper call that resolved with a bearer value; `None` is a call that threw. */
  predicate Succeeded(scrape: Option<string>) {
    scrape.Some?
  }

  /** How many scraper calls the phase makes, given the outcomes of successive calls. */
  function Calls(scrapes: seq<Option<string>>): (n: nat)
    requires |scrapes| >= COOKIE_ATTEMPTS
    ensures 1 <= n <= COOKIE_ATTEMPTS
    ensures n < COOKIE_ATTEMPTS ==> scrapes[n - 1].Some?
    ensures forall j :: 0 <= j < n - 1 ==> scrapes[j].None?
  {
    match FirstWhere(scrapes[..COOKIE_ATTEMPTS], Succeeded)
    case None => COOKIE_ATTEMPTS
    case Some(k) => k + 1
  }

  /** The `Authorization` slot after the phase, starting from `prior`. */
  function AuthorizationAfter(prior: Option<string>, scrapes: seq<Option<string>>): (a: Option<string>)
    requires |scrapes| >= COOKIE_ATTEMPTS
    ensures (forall j :: 0 <= j < COOKIE_ATTEMPTS ==> scrapes[j].None?) ==> a == prior
    ensures (exists j :: 0 <= j < COOKIE_ATTEMPTS && scrapes[j].Some?) ==>
      a.Some? && a == scrapes[Calls(scrapes) - 1]
  {
    match FirstWhere(scrapes[..COOKIE_ATTEMPTS], Succeeded)
    case None => prior
    case Some(k) => scrapes[k]
  }

  /** The shared request headers; only `Authorization` is ever written. */
  class Headers {
    var authorization: Option<string>

    /** The headers start as `{ "Authorization": null }`. */
    constructor ()
      ensures authorization == None
    {
      authorization := None;
    }

    /** The cookie loop: the first successful scrape is stored and ends the loop; if all five fail,
        the slot keeps its value and the run goes on. */
    method FetchCookie(scrapes: seq<Option<string>>) returns (calls: nat)
      requires |scrapes| >= COOKIE_ATTEMPTS
      modifies this
      ensures calls == Calls(scrapes)
      ensures authorization == AuthorizationAfter(old(authorization), scrapes)
    {
      calls := 0;
      var i := 0;
      while i < COOKIE_ATTEMPTS
        invariant 0 <= i <= COOKIE_ATTEMPTS
        invariant calls == i
        invariant authorization == old(authorization)
        invariant forall j :: 0 <= j < i ==> scrapes[j].None?
      {
        var scraped := scrapes[i];
        calls := calls + 1;
        if scraped.Some? {
          authorization := scraped;
          FirstWhereIs(scrapes[..COOKIE_ATTEMPTS], Succeeded, i);
          return;
        }
        i := i + 1;
      }
      assert forall j :: 0 <= j < COOKIE_ATTEMPTS ==> !Succeeded(scrapes[..COOKIE_ATTEMPTS][j]);
    }
  }
}
