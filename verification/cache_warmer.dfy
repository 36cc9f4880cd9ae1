/**
  The cache warming service: a queue of urls, a FIFO cursor into it, the
  requests in flight, the append-only `resolved` and `failed` buckets, the
  session token of the current run and the state service holding it.

  Every operation is a pure step from one service state to the next. The HTTP
  client is not modelled: a dispatched request joins `inFlight`, and its
  completion is a separate step whose success or failure is supplied by the
  caller.
  */
module CacheWarmer {
  import opened Wrappers
  import opened WarmUrls
  import TokenStore
  import Decimal

  /** At most this many requests are started by the first wave of `warm`. */
  const Budget: nat := 10

  /** Prefix of every session token; the rest comes from a unique-id generator. */
  const TokenPrefix: string := "authenticated_cache_warmer"

  const UidCookie: string := "auth_cache_warmer_uid"
  const IdCookie: string := "auth_cache_warmer_id"

  /**
    The two cookies of a warming request: the id of the account to emulate and
    the session token. The cookie jar writes the id out as a decimal string.
    */
  datatype Cookies = Cookies(uid: int, warmerId: string) {

    /** The cookies by name, as strings on the wire. */
    function Jar(): map<string, string> {
      map[UidCookie := Decimal.IntToString(uid), IdCookie := warmerId]
    }
  }

  /** One outbound GET: the url to warm and the cookies that identify the warming run. */
  datatype Request = Request(url: CacheWarmerUrl, cookies: Cookies)

  datatype Warmer = Warmer(
    urls: seq<CacheWarmerUrl>,
    cursor: nat,
    inFlight: seq<Request>,
    resolved: seq<CacheWarmerUrl>,
    failed: seq<CacheWarmerUrl>,
    sessionId: string,
    state: TokenStore.Store)

  /** The result of a step that may start one request. */
  datatype Dispatch = Dispatch(warmer: Warmer, sent: Option<Request>)

  /** The result of the first wave of `warm`: the state and the requests started, in order. */
  datatype Wave = Wave(warmer: Warmer, sent: seq<Request>)

  /** A new service: nothing queued, no session. */
  function Init(state: TokenStore.Store): (w: Warmer)
    ensures w.urls == [] && w.inFlight == [] && w.resolved == [] && w.failed == []
    ensures w.sessionId == "" && w.state == state
  {
    Warmer([], 0, [], [], [], "", state)
  }

  /**
    The value of cookie `name` as the request's cookie bag hands it out: the
    string when the cookie is present, `None` (PHP's null) when it is not.
    */
  function CookieGet(cookies: map<string, string>, name: string): (v: Option<string>)
    ensures v.Some? <==> name in cookies
    ensures v.Some? ==> v.value == cookies[name]
  {
    if name in cookies then Some(cookies[name]) else None
  }

  /**
    A state lookup with default `FALSE` on a nullable key. PHP uses a null
    array key as the empty string, so a null key reads whatever is stored
    under `""`.
    */
  function GetNullable(state: TokenStore.Store, key: Option<string>): (r: TokenStore.Lookup)
    ensures key.Some? ==> r == TokenStore.Get(state, key.value)
    ensures key.None? ==> (r.Found? <==> "" in state)
  {
    match key
    case Some(k) => TokenStore.Get(state, k)
    case None => TokenStore.Get(state, "")
  }

  /**
    PHP's strict identity `===` between a lookup result (a string or `FALSE`)
    and a cookie value (a string or null): only two equal strings are
    identical, and `FALSE` is never identical to null.
    */
  predicate Identical(l: TokenStore.Lookup, v: Option<string>) {
    match (l, v)
    case (Found(s), Some(t)) => s == t
    case (Found(_), None) => false
    case (Absent, Some(_)) => false
    case (Absent, None) => false
  }

  /**
    Whether an incoming request belongs to an active warming run: the value
    stored under its id cookie must be identical to that cookie.
    */
  predicate IsCacheWarmRequest(state: TokenStore.Store, cookies: map<string, string>) {
    var id := CookieGet(cookies, IdCookie);
    Identical(GetNullable(state, id), id)
  }

  /**
    A request without the id cookie is never a warming request, whatever the
    state service holds under the empty key; with the cookie `c` it is one
    exactly when `c` is stored under itself.
    */
  lemma IsCacheWarmRequestIff(state: TokenStore.Store, cookies: map<string, string>)
    ensures IdCookie !in cookies ==> !IsCacheWarmRequest(state, cookies)
    ensures IdCookie in cookies ==>
      (IsCacheWarmRequest(state, cookies) <==>
        var c := cookies[IdCookie]; c in state && state[c] == c)
    ensures IsCacheWarmRequest(state, cookies) <==>
      (IdCookie in cookies && TokenStore.IsActive(state, cookies[IdCookie]))
  {
  }

  /** The cookies sent with a warming request for `url` in session `sessionId`. */
  function CookiesFor(url: CacheWarmerUrl, sessionId: string): Cookies {
    Cookies(url.GetAccountId(), sessionId)
  }

  /**
    On the wire, the uid cookie reads back as the url's account id and the id
    cookie is the session token.
    */
  lemma CookieJarCarries(url: CacheWarmerUrl, sessionId: string)
    ensures var jar := CookiesFor(url, sessionId).Jar();
      && jar.Keys == {UidCookie, IdCookie}
      && Decimal.Parse(jar[UidCookie]) == Some(url.GetAccountId())
      && jar[IdCookie] == sessionId
  {
    Decimal.ParseOfIntToString(url.GetAccountId());
  }

  function BuildRequest(url: CacheWarmerUrl, sessionId: string): Request {
    Request(url, CookiesFor(url, sessionId))
  }

  /** Replaces the queue; buckets, session, state and in-flight work are kept. */
  function SetUrls(w: Warmer, urls: seq<CacheWarmerUrl>): (w': Warmer)
    ensures w'.urls == urls && w'.cursor == 0
    ensures w'.inFlight == w.inFlight
    ensures w'.resolved == w.resolved && w'.failed == w.failed
    ensures w'.sessionId == w.sessionId && w'.state == w.state
  {
    w.(urls := urls, cursor := 0)
  }

  /** Empties queue and buckets, drops the session and deletes its token key. */
  function Reset(w: Warmer): (w': Warmer)
    ensures w'.urls == [] && w'.resolved == [] && w'.failed == [] && w'.sessionId == ""
    ensures TokenStore.Get(w'.state, w.sessionId) == TokenStore.Absent
    ensures forall k :: k != w.sessionId ==> TokenStore.Get(w'.state, k) == TokenStore.Get(w.state, k)
    ensures w'.inFlight == w.inFlight
  {
    Warmer([], 0, w.inFlight, [], [], "", TokenStore.Delete(w.state, w.sessionId))
  }

  /**
    Starts the request at the cursor, if there is one, and moves the cursor one
    step forward; past the end of the queue nothing is started and nothing moves.
    */
  function WarmCurrent(w: Warmer): (d: Dispatch)
    ensures d.sent.Some? <==> w.cursor < |w.urls|
    ensures d.sent.Some? ==>
      && d.sent.value == BuildRequest(w.urls[w.cursor], w.sessionId)
      && d.warmer.cursor == w.cursor + 1
      && d.warmer.inFlight == w.inFlight + [d.sent.value]
    ensures d.sent.None? ==> d.warmer == w
    ensures d.warmer.urls == w.urls && d.warmer.resolved == w.resolved && d.warmer.failed == w.failed
    ensures d.warmer.sessionId == w.sessionId && d.warmer.state == w.state
  {
    if w.cursor < |w.urls| then
      var r := BuildRequest(w.urls[w.cursor], w.sessionId);
      Dispatch(w.(cursor := w.cursor + 1, inFlight := w.inFlight + [r]), Some(r))
    else
      Dispatch(w, None)
  }

  /** Records a success (when a url is given) and starts the next queued request. */
  function Resolve(w: Warmer, previous: Option<CacheWarmerUrl>): (d: Dispatch)
    ensures d.warmer.resolved == w.resolved + (if previous.Some? then [previous.value] else [])
    ensures d.warmer.failed == w.failed
    ensures d.sent.Some? <==> w.cursor < |w.urls|
    ensures d.sent.Some? ==>
      && d.sent.value == BuildRequest(w.urls[w.cursor], w.sessionId)
      && d.warmer.cursor == w.cursor + 1
      && d.warmer.inFlight == w.inFlight + [d.sent.value]
    ensures d.sent.None? ==> d.warmer.cursor == w.cursor && d.warmer.inFlight == w.inFlight
    ensures d.warmer.urls == w.urls && d.warmer.sessionId == w.sessionId && d.warmer.state == w.state
  {
    var w1 := if previous.Some? then w.(resolved := w.resolved + [previous.value]) else w;
    WarmCurrent(w1)
  }

  /** Records a failure (when a url is given) and starts the next queued request. */
  function Fail(w: Warmer, previous: Option<CacheWarmerUrl>): (d: Dispatch)
    ensures d.warmer.failed == w.failed + (if previous.Some? then [previous.value] else [])
    ensures d.warmer.resolved == w.resolved
    ensures d.sent.Some? <==> w.cursor < |w.urls|
    ensures d.sent.Some? ==>
      && d.sent.value == BuildRequest(w.urls[w.cursor], w.sessionId)
      && d.warmer.cursor == w.cursor + 1
      && d.warmer.inFlight == w.inFlight + [d.sent.value]
    ensures d.sent.None? ==> d.warmer.cursor == w.cursor && d.warmer.inFlight == w.inFlight
    ensures d.warmer.urls == w.urls && d.warmer.sessionId == w.sessionId && d.warmer.state == w.state
  {
    var w1 := if previous.Some? then w.(failed := w.failed + [previous.value]) else w;
    WarmCurrent(w1)
  }

  function Without<T>(s: seq<T>, k: nat): (r: seq<T>)
    requires k < |s|
    ensures |r| == |s| - 1
    ensures multiset(r) + multiset{s[k]} == multiset(s)
  {
    assert s == s[..k] + [s[k]] + s[k + 1..];
    s[..k] + s[k + 1..]
  }

  /**
    The in-flight request at index `k` completes with outcome `ok`: its url is
    appended to exactly one bucket, and one replacement request is started if
    the queue has any left.
    */
  function Complete(w: Warmer, k: nat, ok: bool): (d: Dispatch)
    requires k < |w.inFlight|
    ensures ok ==> d.warmer.resolved == w.resolved + [w.inFlight[k].url] && d.warmer.failed == w.failed
    ensures !ok ==> d.warmer.failed == w.failed + [w.inFlight[k].url] && d.warmer.resolved == w.resolved
    ensures d.sent.Some? <==> w.cursor < |w.urls|
    ensures d.sent.Some? ==>
      d.sent.value == BuildRequest(w.urls[w.cursor], w.sessionId) && d.warmer.cursor == w.cursor + 1
    ensures d.sent.None? ==> d.warmer.cursor == w.cursor
    ensures multiset(d.warmer.inFlight) + multiset{w.inFlight[k]} ==
      multiset(w.inFlight) + (if d.sent.Some? then multiset{d.sent.value} else multiset{})
    ensures d.warmer.urls == w.urls && d.warmer.sessionId == w.sessionId && d.warmer.state == w.state
    ensures d.warmer.inFlight == Without(w.inFlight, k) + (if d.sent.Some? then [d.sent.value] else [])
    ensures Pending(d.warmer) + 1 == Pending(w)
  {
    var rest := w.(inFlight := Without(w.inFlight, k));
    var url := w.inFlight[k].url;
    if ok then Resolve(rest, Some(url)) else Fail(rest, Some(url))
  }

  /** Number of queued requests not started yet. */
  function Remaining(w: Warmer): nat {
    if w.cursor < |w.urls| then |w.urls| - w.cursor else 0
  }

  function Min(a: nat, b: nat): nat {
    if a <= b then a else b
  }

  /** The requests for `urls`, in queue order, all carrying session `sessionId`. */
  function Requests(urls: seq<CacheWarmerUrl>, sessionId: string): (rs: seq<Request>)
    ensures |rs| == |urls|
    ensures forall j :: 0 <= j < |urls| ==> rs[j] == BuildRequest(urls[j], sessionId)
  {
    seq(|urls|, j requires 0 <= j < |urls| => BuildRequest(urls[j], sessionId))
  }

  /** Starts up to `n` requests, stopping at the first step past the end of the queue. */
  function StartRequests(w: Warmer, n: nat): Wave
    decreases n
  {
    if n == 0 then Wave(w, [])
    else
      var d := WarmCurrent(w);
      if d.sent.None? then Wave(d.warmer, [])
      else
        var rest := StartRequests(d.warmer, n - 1);
        Wave(rest.warmer, [d.sent.value] + rest.sent)
  }

  /** Starting requests moves the cursor past them and adds them to the in-flight ones; nothing else changes. */
  lemma {:induction false} StartRequestsFrame(w: Warmer, n: nat)
    ensures var v := StartRequests(w, n);
      && v.warmer.cursor == w.cursor + |v.sent|
      && v.warmer.inFlight == w.inFlight + v.sent
      && v.warmer.urls == w.urls && v.warmer.resolved == w.resolved && v.warmer.failed == w.failed
      && v.warmer.sessionId == w.sessionId && v.warmer.state == w.state
    decreases n
  {
    if n > 0 && w.cursor < |w.urls| {
      var r := BuildRequest(w.urls[w.cursor], w.sessionId);
      var w1 := w.(cursor := w.cursor + 1, inFlight := w.inFlight + [r]);
      assert WarmCurrent(w) == Dispatch(w1, Some(r));
      StartRequestsFrame(w1, n - 1);
      var rest := StartRequests(w1, n - 1);
      assert StartRequests(w, n) == Wave(rest.warmer, [r] + rest.sent);
      assert (w.inFlight + [r]) + rest.sent == w.inFlight + ([r] + rest.sent);
    } else {
      assert StartRequests(w, n) == Wave(w, []);
    }
  }

  /**
    Starting up to `n` requests starts exactly min(n, remaining) of them, the
    next ones in queue order, each carrying the current session.
    */
  lemma {:induction false} StartRequestsSpec(w: Warmer, n: nat)
    ensures var v := StartRequests(w, n);
      && |v.sent| == Min(n, Remaining(w))
      && (forall j :: 0 <= j < |v.sent| ==> v.sent[j] == BuildRequest(w.urls[w.cursor + j], w.sessionId))
    decreases n
  {
    if n > 0 && w.cursor < |w.urls| {
      var r := BuildRequest(w.urls[w.cursor], w.sessionId);
      var w1 := w.(cursor := w.cursor + 1, inFlight := w.inFlight + [r]);
      assert WarmCurrent(w) == Dispatch(w1, Some(r));
      StartRequestsSpec(w1, n - 1);
      var rest := StartRequests(w1, n - 1);
      var v := StartRequests(w, n);
      assert v.sent == [r] + rest.sent;
      forall j | 1 <= j < |v.sent|
        ensures v.sent[j] == BuildRequest(w.urls[w.cursor + j], w.sessionId)
      {
        assert v.sent[j] == rest.sent[j - 1];
      }
    }
  }

  /** The session token made from a unique suffix. */
  function Token(unique: string): (t: string)
    ensures |t| > 0
  {
    TokenPrefix + unique
  }

  /**
    The start of `warm`: the fresh token is stored under itself, the cursor goes
    back to the front of the queue and the first wave of at most `Budget`
    requests is started from the front of the queue, each carrying the token.
    */
  function StartWarm(w: Warmer, unique: string): (v: Wave)
    ensures v.warmer.sessionId == Token(unique)
    ensures v.warmer.state == TokenStore.Set(w.state, Token(unique), Token(unique))
    ensures TokenStore.IsActive(v.warmer.state, Token(unique))
    ensures |v.sent| == Min(Budget, |w.urls|)
    ensures v.sent == Requests(w.urls[..|v.sent|], Token(unique))
    ensures v.warmer.cursor == |v.sent| && v.warmer.inFlight == v.sent
    ensures v.warmer.urls == w.urls && v.warmer.resolved == w.resolved && v.warmer.failed == w.failed
  {
    var token := Token(unique);
    var w1 := w.(sessionId := token, state := TokenStore.Set(w.state, token, token),
                 cursor := 0, inFlight := []);
    StartRequestsSpec(w1, Budget);
    StartRequestsFrame(w1, Budget);
    var v := StartRequests(w1, Budget);
    assert v.sent == Requests(w.urls[..|v.sent|], token);
    v
  }

  /** Once the batch has drained, the token's key is deleted from the state service. */
  function Retire(w: Warmer): (w': Warmer)
    ensures TokenStore.Get(w'.state, w.sessionId) == TokenStore.Absent
    ensures !TokenStore.IsActive(w'.state, w.sessionId)
    ensures forall k :: k != w.sessionId ==> TokenStore.Get(w'.state, k) == TokenStore.Get(w.state, k)
    ensures w' == w.(state := w'.state)
  {
    w.(state := TokenStore.Delete(w.state, w.sessionId))
  }

  /** No request in flight and nothing left in the queue. */
  predicate Drained(w: Warmer) {
    w.inFlight == [] && w.cursor >= |w.urls|
  }

  /** Work left in a batch: requests in flight plus requests not yet started. */
  function Pending(w: Warmer): nat {
    |w.inFlight| + Remaining(w)
  }
}
