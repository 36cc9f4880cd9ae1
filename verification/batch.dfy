/**
  A whole warming batch: the invariant that holds from the first wave until
  the last completion, its preservation by every completion, the partition of
  the queue into the two buckets once the batch drains, and `Warm`, which runs
  a batch to its end under an arbitrary completion order and outcome oracle.
  */
module Batch {
  import opened Wrappers
  import opened WarmUrls
  import TokenStore
  import opened CacheWarmer

  function Urls(rs: seq<Request>): (us: seq<CacheWarmerUrl>)
    ensures |us| == |rs|
    ensures forall i :: 0 <= i < |rs| ==> us[i] == rs[i].url
  {
    seq(|rs|, i requires 0 <= i < |rs| => rs[i].url)
  }

  /**
    The shape of a running batch, relative to `w`, the service state when
    `warm` was called with token `token`: the queue, session and state service
    are those set up by `warm`; the cursor never passes the end; at most
    `Budget` requests are in flight, and exactly `Budget` while the queue still
    has requests to start; every in-flight request carries an active token.
    */
  ghost predicate Running(t: Warmer, w: Warmer, token: string)
  {
    && t.urls == w.urls
    && t.sessionId == token
    && t.state == TokenStore.Set(w.state, token, token)
    && t.cursor <= |t.urls|
    && |t.inFlight| <= Budget
    && (t.cursor < |t.urls| ==> |t.inFlight| == Budget)
    && TokenStore.IsActive(t.state, token)
    && (forall r | r in t.inFlight :: r.cookies.warmerId == token)
  }

  /**
    The buckets only grew since `w`, and what they gained plus the urls in
    flight is exactly the started prefix of the queue.
    */
  ghost predicate Accounted(t: Warmer, w: Warmer)
  {
    && w.resolved <= t.resolved
    && w.failed <= t.failed
    && t.cursor <= |t.urls|
    && multiset(t.resolved[|w.resolved|..]) + multiset(t.failed[|w.failed|..]) + multiset(Urls(t.inFlight))
       == multiset(t.urls[..t.cursor])
  }

  ghost predicate BatchInv(t: Warmer, w: Warmer, token: string)
  {
    Running(t, w, token) && Accounted(t, w)
  }

  lemma StartWarmEstablishesInv(w: Warmer, unique: string)
    ensures BatchInv(StartWarm(w, unique).warmer, w, Token(unique))
  {
    var v := StartWarm(w, unique);
    var t := v.warmer;
    assert t.resolved[|w.resolved|..] == [];
    assert t.failed[|w.failed|..] == [];
    assert Urls(t.inFlight) == t.urls[..t.cursor];
  }

  lemma UrlsWithout(rs: seq<Request>, k: nat)
    requires k < |rs|
    ensures multiset(Urls(Without(rs, k))) + multiset{rs[k].url} == multiset(Urls(rs))
  {
    assert Urls(Without(rs, k)) == Without(Urls(rs), k);
  }

  lemma CompleteKeepsRunning(t: Warmer, w: Warmer, token: string, k: nat, ok: bool)
    requires Running(t, w, token)
    requires k < |t.inFlight|
    ensures Running(Complete(t, k, ok).warmer, w, token)
  {
    var d := Complete(t, k, ok);
    forall r | r in d.warmer.inFlight
      ensures r.cookies.warmerId == token
    {
      if r !in t.inFlight {
        assert r == d.sent.value;
      }
    }
  }

  lemma SuffixAppend<T>(prefix: seq<T>, s: seq<T>, x: T)
    requires prefix <= s
    ensures (s + [x])[|prefix|..] == s[|prefix|..] + [x]
  {
  }

  /** Multiset bookkeeping of one completion: `u` leaves flight for a bucket, `started` joins. */
  lemma MoveToBucket<T>(bucket: multiset<T>, other: multiset<T>, flying: multiset<T>, flying': multiset<T>,
                        started: multiset<T>, u: T)
    requires flying' + multiset{u} == flying + started
    ensures (bucket + multiset{u}) + other + flying' == bucket + other + flying + started
    ensures other + (bucket + multiset{u}) + flying' == other + bucket + flying + started
  {
    calc {
      other + (bucket + multiset{u}) + flying';
      other + bucket + (flying' + multiset{u});
      other + bucket + (flying + started);
    }
    calc {
      (bucket + multiset{u}) + other + flying';
      bucket + other + (flying' + multiset{u});
      bucket + other + (flying + started);
    }
  }

  lemma UrlsAppend(rs: seq<Request>, r: Request)
    ensures Urls(rs + [r]) == Urls(rs) + [r.url]
  {
  }

  /** The urls in flight and the started prefix of the queue across one completion. */
  lemma FlightStep(t: Warmer, t': Warmer, k: nat, sent: Option<Request>)
    requires k < |t.inFlight|
    requires t.cursor <= |t.urls| && t'.urls == t.urls
    requires t'.inFlight == Without(t.inFlight, k) + (if sent.Some? then [sent.value] else [])
    requires sent.Some? ==> t.cursor < |t.urls| && sent.value.url == t.urls[t.cursor] && t'.cursor == t.cursor + 1
    requires sent.None? ==> t'.cursor == t.cursor
    ensures var started := if sent.Some? then multiset{t.urls[t.cursor]} else multiset{};
      && multiset(Urls(t'.inFlight)) + multiset{t.inFlight[k].url} == multiset(Urls(t.inFlight)) + started
      && t'.cursor <= |t'.urls|
      && multiset(t'.urls[..t'.cursor]) == multiset(t.urls[..t.cursor]) + started
  {
    var rest := Without(t.inFlight, k);
    UrlsWithout(t.inFlight, k);
    if sent.Some? {
      UrlsAppend(rest, sent.value);
      var x := multiset{t.urls[t.cursor]};
      calc {
        multiset(Urls(t'.inFlight)) + multiset{t.inFlight[k].url};
        { assert Urls(t'.inFlight) == Urls(rest) + [t.urls[t.cursor]]; }
        multiset(Urls(rest)) + x + multiset{t.inFlight[k].url};
        (multiset(Urls(rest)) + multiset{t.inFlight[k].url}) + x;
        multiset(Urls(t.inFlight)) + x;
      }
      assert t'.urls[..t'.cursor] == t.urls[..t.cursor] + [t.urls[t.cursor]];
    } else {
      assert t'.inFlight == rest;
    }
  }

  /** What one completion does to the urls in flight and to the started prefix of the queue. */
  lemma CompleteFlight(t: Warmer, k: nat, ok: bool)
    requires k < |t.inFlight|
    requires t.cursor <= |t.urls|
    ensures var d := Complete(t, k, ok);
      var started := if d.sent.Some? then multiset{t.urls[t.cursor]} else multiset{};
      && multiset(Urls(d.warmer.inFlight)) + multiset{t.inFlight[k].url} == multiset(Urls(t.inFlight)) + started
      && d.warmer.cursor <= |d.warmer.urls|
      && multiset(d.warmer.urls[..d.warmer.cursor]) == multiset(t.urls[..t.cursor]) + started
  {
    var d := Complete(t, k, ok);
    FlightStep(t, d.warmer, k, d.sent);
  }

  lemma CompleteKeepsAccounted(t: Warmer, w: Warmer, k: nat, ok: bool)
    requires Accounted(t, w)
    requires k < |t.inFlight|
    ensures Accounted(Complete(t, k, ok).warmer, w)
  {
    var d := Complete(t, k, ok);
    var t' := d.warmer;
    var u := t.inFlight[k].url;
    CompleteFlight(t, k, ok);
    var started := if d.sent.Some? then multiset{t.urls[t.cursor]} else multiset{};
    var R := multiset(t.resolved[|w.resolved|..]);
    var F := multiset(t.failed[|w.failed|..]);
    if ok {
      SuffixAppend(w.resolved, t.resolved, u);
      MoveToBucket(R, F, multiset(Urls(t.inFlight)), multiset(Urls(t'.inFlight)), started, u);
    } else {
      SuffixAppend(w.failed, t.failed, u);
      MoveToBucket(F, R, multiset(Urls(t.inFlight)), multiset(Urls(t'.inFlight)), started, u);
    }
  }

  /** A completion, successful or not, keeps the batch invariant. */
  lemma CompletePreservesInv(t: Warmer, w: Warmer, token: string, k: nat, ok: bool)
    requires BatchInv(t, w, token)
    requires k < |t.inFlight|
    ensures BatchInv(Complete(t, k, ok).warmer, w, token)
  {
    CompleteKeepsRunning(t, w, token, k, ok);
    CompleteKeepsAccounted(t, w, k, ok);
  }

  /**
    Once nothing is in flight the queue is exhausted, and the urls the buckets
    gained during the batch are the queued urls, each exactly once.
    */
  lemma DrainedPartition(t: Warmer, w: Warmer, token: string)
    requires BatchInv(t, w, token)
    requires t.inFlight == []
    ensures t.cursor == |w.urls|
    ensures multiset(t.resolved[|w.resolved|..]) + multiset(t.failed[|w.failed|..]) == multiset(w.urls)
  {
    assert Urls(t.inFlight) == [];
    assert t.urls[..t.cursor] == t.urls;
  }

  lemma RequestsSnoc(urls: seq<CacheWarmerUrl>, c: nat, token: string)
    requires c < |urls|
    ensures Requests(urls[..c + 1], token) == Requests(urls[..c], token) + [BuildRequest(urls[c], token)]
  {
    assert urls[..c + 1] == urls[..c] + [urls[c]];
  }

  /**
    A batch after `completions` completions: the invariant holds, the requests
    sent so far are the started prefix of the queue in order, and every
    completion has used up exactly one unit of pending work.
    */
  ghost predicate Progress(t: Warmer, w: Warmer, token: string, sent: seq<Request>, completions: nat)
  {
    && BatchInv(t, w, token)
    && sent == Requests(w.urls[..t.cursor], token)
    && completions + Pending(t) == |w.urls|
  }

  lemma StartWarmProgress(w: Warmer, unique: string)
    ensures var v := StartWarm(w, unique); Progress(v.warmer, w, Token(unique), v.sent, 0)
  {
    StartWarmEstablishesInv(w, unique);
  }

  lemma CompleteProgress(t: Warmer, w: Warmer, token: string, sent: seq<Request>, completions: nat, k: nat, ok: bool)
    requires Progress(t, w, token, sent, completions)
    requires k < |t.inFlight|
    ensures var d := Complete(t, k, ok);
      Progress(d.warmer, w, token, sent + (if d.sent.Some? then [d.sent.value] else []), completions + 1)
  {
    CompletePreservesInv(t, w, token, k, ok);
    var d := Complete(t, k, ok);
    if d.sent.Some? {
      RequestsSnoc(w.urls, t.cursor, token);
    } else {
      assert sent + [] == sent;
    }
  }

  lemma DrainedProgress(t: Warmer, w: Warmer, token: string, sent: seq<Request>, completions: nat)
    requires Progress(t, w, token, sent, completions)
    requires t.inFlight == []
    ensures t.sessionId == token && t.urls == w.urls && t.cursor == |w.urls|
    ensures sent == Requests(w.urls, token)
    ensures completions == |w.urls|
    ensures w.resolved <= t.resolved && w.failed <= t.failed
    ensures multiset(t.resolved[|w.resolved|..]) + multiset(t.failed[|w.failed|..]) == multiset(w.urls)
    ensures t.state == TokenStore.Set(w.state, token, token)
  {
    DrainedPartition(t, w, token);
    assert w.urls[..t.cursor] == w.urls;
  }

  /**
    The whole of `warm`: store the token, start the first wave, then complete
    in-flight requests one at a time until none is left, and finally delete the
    token. The `n`-th completion picks in-flight request `pick(n) % |inFlight|`
    and succeeds when `outcome(n)` holds, so every completion order and every
    pattern of failures is covered.
    */
  method Warm(w: Warmer, unique: string, pick: nat -> nat, outcome: nat -> bool)
    returns (t: Warmer, sent: seq<Request>, completions: nat)
    ensures t.sessionId == Token(unique)
    ensures t.urls == w.urls && t.inFlight == [] && t.cursor == |w.urls|
    ensures sent == Requests(w.urls, Token(unique))
    ensures completions == |w.urls|
    ensures w.resolved <= t.resolved && w.failed <= t.failed
    ensures multiset(t.resolved[|w.resolved|..]) + multiset(t.failed[|w.failed|..]) == multiset(w.urls)
    ensures TokenStore.Get(t.state, Token(unique)) == TokenStore.Absent
    ensures !TokenStore.IsActive(t.state, Token(unique))
    ensures forall k :: k != Token(unique) ==> TokenStore.Get(t.state, k) == TokenStore.Get(w.state, k)
  {
    var token := Token(unique);
    var v := StartWarm(w, unique);
    StartWarmProgress(w, unique);
    t := v.warmer;
    sent := v.sent;
    completions := 0;
    while t.inFlight != []
      invariant Progress(t, w, token, sent, completions)
      decreases Pending(t)
    {
      var k := pick(completions) % |t.inFlight|;
      var ok := outcome(completions);
      CompleteProgress(t, w, token, sent, completions, k, ok);
      var d := Complete(t, k, ok);
      if d.sent.Some? {
        sent := sent + [d.sent.value];
      }
      t := d.warmer;
      completions := completions + 1;
    }
    DrainedProgress(t, w, token, sent, completions);
    t := Retire(t);
  }

  /**
    `reset` applied twice equals `reset` applied once exactly when the second
    call's delete of the empty key is harmless: the session was already empty,
    or the state service holds no empty key.
    */
  lemma ResetTwice(w: Warmer)
    ensures Reset(Reset(w)) == Reset(w) <==> (w.sessionId == "" || "" !in w.state)
  {
    if w.sessionId == "" || "" !in w.state {
      assert Reset(Reset(w)).state == Reset(w).state;
    } else {
      assert "" in Reset(w).state;
      assert "" !in Reset(Reset(w)).state;
    }
  }

  /** From the second `reset` on, further calls change nothing. */
  lemma ResetSettles(w: Warmer)
    ensures Reset(Reset(Reset(w))) == Reset(Reset(w))
  {
    ResetTwice(Reset(w));
  }

  /**
    `reset` after a batch leaves nothing queued, nothing in either bucket, no
    session, and the batch's token inactive, so no request of that batch
    passes the activity check any more.
    */
  lemma ResetAfterBatch(t: Warmer, token: string, url: CacheWarmerUrl)
    requires t.sessionId == token
    ensures var r := Reset(t);
      && r.urls == [] && r.resolved == [] && r.failed == [] && r.sessionId == ""
      && !TokenStore.IsActive(r.state, token)
      && !IsCacheWarmRequest(r.state, BuildRequest(url, token).cookies.Jar())
  {
  }

  /** A request carrying the token passes the activity check exactly while the token is stored under itself. */
  lemma SentRequestsPassCheck(url: CacheWarmerUrl, state: TokenStore.Store, token: string)
    ensures IsCacheWarmRequest(state, BuildRequest(url, token).cookies.Jar()) <==> TokenStore.IsActive(state, token)
  {
  }

  /** While a batch runs, every request in flight passes the receiving side's activity check. */
  lemma InFlightPassCheck(t: Warmer, w: Warmer, token: string)
    requires BatchInv(t, w, token)
    ensures forall r | r in t.inFlight :: IsCacheWarmRequest(t.state, r.cookies.Jar())
  {
    forall r | r in t.inFlight
      ensures IsCacheWarmRequest(t.state, r.cookies.Jar())
    {
      assert r.cookies.Jar()[IdCookie] == token;
    }
  }

  /**
    Completes the oldest request in flight once per outcome, in order; None if
    an outcome arrives while nothing is in flight.
    */
  function CompleteOldestFirst(t: Warmer, outcomes: seq<bool>): Option<Warmer>
    decreases |outcomes|
  {
    if outcomes == [] then Some(t)
    else if t.inFlight == [] then None
    else CompleteOldestFirst(Complete(t, 0, outcomes[0]).warmer, outcomes[1..])
  }

  /** The urls of the requests whose outcome is `ok`, in order. */
  function WithOutcome(rs: seq<Request>, outcomes: seq<bool>, ok: bool): seq<CacheWarmerUrl>
    requires |rs| == |outcomes|
  {
    if rs == [] then []
    else (if outcomes[0] == ok then [rs[0].url] else []) + WithOutcome(rs[1..], outcomes[1..], ok)
  }

  /** Once the queue is exhausted, a completion starts nothing and only retires the request. */
  lemma CompleteOldestAtQueueEnd(t: Warmer, ok: bool)
    requires t.cursor >= |t.urls| && t.inFlight != []
    ensures var d := Complete(t, 0, ok);
      && d.sent == None
      && d.warmer.inFlight == t.inFlight[1..]
      && d.warmer.cursor == t.cursor && d.warmer.urls == t.urls
      && d.warmer.resolved == t.resolved + (if ok then [t.inFlight[0].url] else [])
      && d.warmer.failed == t.failed + (if ok then [] else [t.inFlight[0].url])
  {
  }

  /**
    Once the queue is exhausted, completing every request in flight oldest
    first drains the batch, and each bucket gains exactly the urls with its
    outcome, in completion order.
    */
  lemma {:induction false} DrainOldestFirst(t: Warmer, outcomes: seq<bool>)
    requires t.cursor >= |t.urls|
    requires |outcomes| == |t.inFlight|
    ensures var r := CompleteOldestFirst(t, outcomes);
      && r.Some? && Drained(r.value)
      && r.value.resolved == t.resolved + WithOutcome(t.inFlight, outcomes, true)
      && r.value.failed == t.failed + WithOutcome(t.inFlight, outcomes, false)
    decreases |outcomes|
  {
    if outcomes != [] {
      CompleteOldestAtQueueEnd(t, outcomes[0]);
      var t1 := Complete(t, 0, outcomes[0]).warmer;
      DrainOldestFirst(t1, outcomes[1..]);
      BucketGain(t.resolved, t.inFlight, outcomes, true);
      BucketGain(t.failed, t.inFlight, outcomes, false);
    }
  }

  lemma BucketGain(bucket: seq<CacheWarmerUrl>, rs: seq<Request>, outcomes: seq<bool>, ok: bool)
    requires |rs| == |outcomes| > 0
    ensures bucket + (if outcomes[0] == ok then [rs[0].url] else []) + WithOutcome(rs[1..], outcomes[1..], ok)
         == bucket + WithOutcome(rs, outcomes, ok)
  {
  }

  /**
    A queue of three where the second request fails: all three start in the
    first wave, and completing them in order adds the first and third to the
    resolved bucket and the second to the failed one.
    */
  lemma ThreeRequestScenario(w: Warmer, unique: string)
    requires |w.urls| == 3
    ensures |StartWarm(w, unique).sent| == 3
    ensures var r := CompleteOldestFirst(StartWarm(w, unique).warmer, [true, false, true]);
      && r.Some? && Drained(r.value)
      && r.value.resolved == w.resolved + [w.urls[0], w.urls[2]]
      && r.value.failed == w.failed + [w.urls[1]]
  {
    var v := StartWarm(w, unique);
    DrainOldestFirst(v.warmer, [true, false, true]);
    var rs := v.warmer.inFlight;
    SecondOfThreeFails(rs);
    assert rs[0].url == w.urls[0] && rs[1].url == w.urls[1] && rs[2].url == w.urls[2];
  }

  lemma SecondOfThreeFails(rs: seq<Request>)
    requires |rs| == 3
    ensures WithOutcome(rs, [true, false, true], true) == [rs[0].url, rs[2].url]
    ensures WithOutcome(rs, [true, false, true], false) == [rs[1].url]
  {
    var oks := [true, false, true];
    assert rs[1..][1..] == rs[2..];
    assert oks[1..] == [false, true] && oks[1..][1..] == [true];
    assert WithOutcome(rs[2..], oks[1..][1..], true) == [rs[2].url];
    assert WithOutcome(rs[2..], oks[1..][1..], false) == [];
  }

  /** With an empty queue `warm` sends nothing and the batch has already drained. */
  lemma EmptyQueueWarm(w: Warmer, unique: string)
    requires w.urls == []
    ensures StartWarm(w, unique).sent == []
    ensures Drained(StartWarm(w, unique).warmer)
    ensures TokenStore.Get(Retire(StartWarm(w, unique).warmer).state, Token(unique)) == TokenStore.Absent
    ensures !TokenStore.IsActive(Retire(StartWarm(w, unique).warmer).state, Token(unique))
  {
  }
}
