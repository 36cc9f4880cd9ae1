# Authenticated cache warmer — a Dafny model of the warming orchestrator

The `authenticated_cache_warmer` module warms page caches "as" given user
accounts. Its `CacheWarmer` service takes a list of `CacheWarmerUrl`s (a routed
url plus the id of the account to emulate). `warm()` mints a session token,
stores it in the state service under itself, and sends an initial wave of at
most 10 GET requests. Each request carries two cookies: `auth_cache_warmer_uid`
holds the account id and `auth_cache_warmer_id` holds the token. Each completed
request lands in the `resolved` or the `failed` list, and its completion
immediately starts the next queued url. Once all requests have settled, a
deferred callback deletes the token (on the path described under "## Left
out"). On the receiving side, `isCacheWarmRequest` accepts a request only
while its token is stored under itself.

The model is a functional state machine:

- `wrappers.dfy`: `Option`, used for PHP's nullable values.
- `warm_urls.dfy` (`WarmUrls`): the `CacheWarmerUrl` record with its account id.
- `token_store.dfy` (`TokenStore`): the state service as a `map<string, string>`
  with `get`/`set`/`delete`. A lookup of a missing key yields the caller's
  default `FALSE`.
- `decimal.dfy` (`Decimal`): the decimal string the cookie jar writes for the
  integer account id, and a parser that reads it back.
- `cache_warmer.dfy` (`CacheWarmer`): the service state and its steps.
  - The state holds the queue, a FIFO cursor (PHP's internal array pointer),
    the requests in flight, the two buckets, the session id and the state
    service.
  - The steps are `SetUrls`, `Reset`, `WarmCurrent`, `Resolve`, `Fail`,
    `Complete` (one in-flight request finishes with an outcome the caller
    supplies), `StartWarm` (the start of `warm`) and `Retire` (the deferred
    deletion of the token).
- `batch.dfy` (`Batch`): the batch invariant and its preservation. It also
  holds `Warm`, which runs a whole batch under an arbitrary completion order and
  outcome oracle, the lemmas about `reset`, and two example batches (three urls
  with the second failing; an empty queue).

## Model

| member | source | states |
|---|---|---|
| WarmUrls.FromRoute | src/CacheWarmerUrl.php:10-17 | a url built for a route has account id 0 and keeps the route |
| WarmUrls.Create | src/CacheWarmerUrl.php:32-36 | `create(route, params, id)` yields the url of that route whose account id is `id` |
| WarmUrls.CacheWarmerUrl.SetAccountId | src/CacheWarmerUrl.php:44-46 | the setter changes the account id to the given value and leaves the routed url untouched |
| WarmUrls.GetReturnsLastSet | src/CacheWarmerUrl.php:44-53 | the getter returns the value most recently passed to the setter; a later set overrides an earlier one |
| TokenStore.Get | src/Service/CacheWarmer.php:257 | a lookup finds a value exactly when the key is present; otherwise it yields the default (`FALSE`) |
| TokenStore.Set | src/Service/CacheWarmer.php:138 | after a set, the key reads back the value; every other key reads as before |
| TokenStore.Delete | src/Service/CacheWarmer.php:119 | after a delete, the key is absent; every other key reads as before |
| CacheWarmer.Init | src/Service/CacheWarmer.php:30-58 | a new service has an empty queue, empty buckets, nothing in flight and an empty session id |
| CacheWarmer.IsCacheWarmRequestIff | src/Service/CacheWarmer.php:255-258 | from the nullable cookie read, the lookup with default `FALSE` (a null key reads `""`) and strict `===`: with no id cookie a request is never a warming request, whatever is stored; with cookie `c` it is one iff `c` is stored under itself |
| CacheWarmer.CookieJarCarries | src/Service/CacheWarmer.php:191-194 | a dispatched request's jar has exactly the two cookies; the uid cookie reads back as the url's account id and the id cookie is the session id |
| Decimal.ParseOfIntToString | src/Service/CacheWarmer.php:192 | the decimal string written for any integer account id, negative ones included, parses back to that integer |
| CacheWarmer.SetUrls | src/Service/CacheWarmer.php:108-110 | replaces the queue; the buckets, session id, state service and in-flight requests are unchanged |
| CacheWarmer.Reset | src/Service/CacheWarmer.php:115-121 | queue, both buckets and session id end empty; the old session's key is absent from the store and every other key is unchanged |
| Batch.ResetTwice | src/Service/CacheWarmer.php:115-121 | two resets equal one reset iff the session id was already empty or the store has no empty key; the second reset deletes the key `""` |
| Batch.ResetSettles | src/Service/CacheWarmer.php:115-121 | from the second reset on, further resets change nothing |
| Batch.ResetAfterBatch | src/Service/CacheWarmer.php:115-121 | a reset after a batch leaves empty queue and buckets, no session, and that batch's token inactive, so its requests fail the activity check |
| CacheWarmer.WarmCurrent | src/Service/CacheWarmer.php:157-177 | a request starts iff the cursor is inside the queue; it is for the url at the cursor and carries the session id, and the cursor moves one step; past the end nothing changes |
| CacheWarmer.Resolve | src/Service/CacheWarmer.php:220-228 | a given url is appended to `resolved` only; the next request starts iff the queue has one left, and it is the url at the cursor with the session's cookies; the cursor moves one step; queue, session and state are unchanged |
| CacheWarmer.Fail | src/Service/CacheWarmer.php:236-244 | a given url is appended to `failed` only; the next request starts iff the queue has one left, and it is the url at the cursor with the session's cookies; the cursor moves one step; queue, session and state are unchanged |
| CacheWarmer.Complete | src/Service/CacheWarmer.php:167-174 | a completion appends its url to exactly one bucket and retires exactly that request; it starts exactly one replacement (the url at the cursor) iff one remains; pending work drops by one |
| CacheWarmer.StartRequestsSpec | src/Service/CacheWarmer.php:141-147 | the wave loop starts exactly min(n, remaining) requests, for the next queued urls in order, and stops at the end of the queue |
| CacheWarmer.StartRequestsFrame | src/Service/CacheWarmer.php:158-160 | starting requests only moves the cursor past them and adds them to the in-flight requests |
| CacheWarmer.StartWarm | src/Service/CacheWarmer.php:136-147 | the fresh token is stored under itself and is active; exactly min(10, queue length) requests are in flight, one for each url at the front of the queue, in order, each carrying the token; buckets unchanged |
| CacheWarmer.Retire | src/Service/CacheWarmer.php:148-151 | the token's key is deleted from the store (so the token is no longer active) and every other key is unchanged |
| Batch.StartWarmEstablishesInv | src/Service/CacheWarmer.php:136-147 | after the first wave the batch invariant holds: at most 10 in flight, exactly 10 while urls remain, all carrying the active token, buckets plus in-flight urls equal the started prefix |
| Batch.CompletePreservesInv | src/Service/CacheWarmer.php:220-244 | every completion, with either outcome, keeps the batch invariant |
| Batch.InFlightPassCheck | src/Service/CacheWarmer.php:136-151 | while the batch runs, every in-flight request passes the receiving side's activity check |
| Batch.SentRequestsPassCheck | src/Service/CacheWarmer.php:192-193 | a dispatched request passes the activity check iff its session token is stored under itself |
| Batch.DrainedPartition | src/Service/CacheWarmer.php:148-151 | once nothing is in flight, the whole queue has been started, and the urls the buckets gained are the queued urls, each exactly once (as multisets) |
| Batch.Warm | src/Service/CacheWarmer.php:136-151 | for any completion order and outcomes: every url is sent once, in queue order, with the token; the buckets gain exactly the queue; there are exactly `\|queue\|` completions; once the deferred deletion has run, the token's key is deleted and no other key has changed (for the path the model covers, see "## Left out") |
| Batch.CompleteOldestAtQueueEnd | src/Service/CacheWarmer.php:224-227 | once the queue is exhausted, a completion starts nothing and only moves its url into its bucket |
| Batch.DrainOldestFirst | src/Service/CacheWarmer.php:167-174 | completing the remaining requests oldest first drains the batch, and each bucket gains exactly the urls with its outcome, in order |
| Batch.ThreeRequestScenario | src/Service/CacheWarmer.php:139-147 | with three queued urls all three start at once; if the second fails, resolved gains the first and third and failed gains the second |
| Batch.EmptyQueueWarm | src/Service/CacheWarmer.php:139-151 | with an empty queue nothing is sent, the batch has already drained, and the deferred deletion removes the token's key |

Notes on the model:

- The completion order is not fixed. `Complete(w, k, ok)` retires in-flight
  request `k`, and `ok` is the HTTP outcome, supplied from outside. `Warm`
  draws both from oracles, so its contract covers every interleaving.
- `warm()` does not clear `resolved` and `failed`. The partition properties
  are therefore stated about what the buckets gained during the batch. After a
  `reset`, that is all of each bucket.
- The receiving side's check is modelled step by step. The cookie is read as a
  nullable string (`CookieGet`). The state is looked up on that nullable key,
  where PHP treats a null key as `""` (`GetNullable`). The result is compared
  with strict identity `===` (`Identical`). `CacheWarmer.IsCacheWarmRequestIff`
  derives from these that a request with no id cookie never matches, even when
  something is stored under `""`.
- `reset()` is not plainly idempotent. It deletes the key of the current
  session id even when that id is already `""`, so a second reset also removes
  a key `""` from the store, if one is present. See `Batch.ResetTwice`.
- The progress line printed for each dispatch shows the url's array key plus
  one. That is its 1-based position when the queue is a list. The model keeps
  the queue as a sequence and drops PHP array keys. The line is output only and
  is not modelled.

## Left out

- The Guzzle client, its promises, `Utils::all(...)->wait()` and the timing of
  the deferred `then` callback. They are replaced by the `Complete` step with
  an outcome oracle, and by `Retire`, which is applied once the batch has
  drained.
- Batch.Warm: covers only the path where `Utils::all($promises)->wait()`
  returns and the deleting callback runs before any later `warm()`.
  - If a first-wave request fails, the combined promise rejects and `wait()`
    throws out of `warm()`. The callback is then never registered and the
    token stays stored.
  - The callback reads `$this->sessionId` only when it runs. If a second
    `warm()` starts first, the callback would delete the new batch's token.
  - The model does not represent either case.
- CacheWarmer.StartWarm: starts the batch with nothing in flight. The model assumes
  `warm()` is entered only after earlier requests have settled. Requests
  still outstanding from an earlier batch are not carried into the new one.
- The exception branch of `warmUrl`. The catch calls `fail($url)`, which puts
  the url in `failed`, dispatches the next url and waits for it. `return
  $promise` then yields null, because the variable was never set. Back in
  `warmCurrent`, `->then(...)` on that null throws an `Error`. During the first
  wave of `warm()`, that `Error` escapes before `Utils::all(...)`, so the token
  is never deleted. The model has no exceptions and leaves this path out.
- Token generation with `uniqid`. The unique suffix is a parameter; the
  `authenticated_cache_warmer` prefix is kept.
- Transport configuration: TLS `verify`, the 120-second timeout, the hard-coded
  `CURLOPT_CONNECT_TO` host remap, and the cookie domain taken from the url's
  host with `parse_url`.
- `setVerbosity` and the `echo` progress output, which are output only.
- Framework routing: `Url::fromRoute`, `setAbsolute` and `toString`. A route is
  kept as its name and parameters.
- `src/EventSubscriber/CacheWarmerSetup.php` and
  `src/Controller/CacheWarmerNodeController.php`, which are framework glue. The
  controller's check uses loose `==` with default `''`, which differs from the
  strict check modelled here.
- The dependency-injection `create` factory, the constructor's service wiring
  and the empty `__destruct`.
- The internal pointer a caller's array may carry into `setUrls`. The model
  puts the cursor at the front. This does not matter, because `warm()` resets
  the pointer before the first dispatch.
- PHP's 64-bit integer width for account ids. Ids are only copied and rendered,
  never computed with, so unbounded integers change nothing.
