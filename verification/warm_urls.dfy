/**
  A cache warming url: a routed url plus the id of the account whose view of
  the page should be warmed. Route resolution belongs to the web framework;
  here a route is kept as its name and parameters.
  */
module WarmUrls {

  datatype Route = Route(name: string, parameters: map<string, string>)

  /** The account id of a fresh url is 0 (anonymous). */
  const DefaultAccountId: int := 0

  datatype CacheWarmerUrl = CacheWarmerUrl(route: Route, accountId: int) {

    function GetAccountId(): int {
      accountId
    }

    /** Replaces the account to emulate; the routed url is untouched. */
    function SetAccountId(id: int): (u: CacheWarmerUrl)
      ensures u.GetAccountId() == id
      ensures u.route == route
    {
      this.(accountId := id)
    }
  }

  /** The url built by the framework for a route, before any account is set. */
  function FromRoute(name: string, parameters: map<string, string>): (u: CacheWarmerUrl)
    ensures u.route == Route(name, parameters)
    ensures u.GetAccountId() == DefaultAccountId
  {
    CacheWarmerUrl(Route(name, parameters), DefaultAccountId)
  }

  /** Builds the url for a route and sets the account to emulate. */
  function Create(name: string, parameters: map<string, string>, accountId: int): (u: CacheWarmerUrl)
    ensures u.route == Route(name, parameters)
    ensures u.GetAccountId() == accountId
  {
    FromRoute(name, parameters).SetAccountId(accountId)
  }

  /** The getter returns the value most recently passed to the setter. */
  lemma GetReturnsLastSet(u: CacheWarmerUrl, first: int, second: int)
    ensures u.SetAccountId(first).SetAccountId(second).GetAccountId() == second
    ensures u.SetAccountId(first).SetAccountId(second) == u.SetAccountId(second)
  {
  }
}
