/**
 * The offline cache manager: a service worker that pre-caches a fixed
 * manifest when it is installed, deletes the caches of earlier versions when
 * it is activated, and answers every fetch cache-first, writing selected
 * successful network responses through to the current cache.
 *
 * The browser's cache storage is `CacheStorage`, a class whose methods change
 * it in place; each method is proved against a pure step function over the
 * value `Store`, and the lemmas at the end state the manager's properties of
 * those step functions. The network is an oracle passed to each step.
 */
module ServiceWorker {

  datatype Option<+T> = None | Some(value: T)

  /** The `type` of a Fetch API response. */
  datatype ResponseType = Basic | Cors | Default | Error | Opaque | OpaqueRedirect

  /** A response snapshot. Bodies are immutable values here, so the clones the
      worker makes before consuming a response are not needed. */
  datatype Response = Response(status: int, kind: ResponseType, body: string)

  type Url = string

  /** One named cache: request URL to stored response. */
  type Bucket = map<Url, Response>

  /** The network as an oracle: `None` means the fetch rejects. */
  type Network = Url -> Option<Response>

  /** Version tag naming the current cache. */
  const CACHE_NAME: string := "room-maker-cache-v1"

  /** The manifest cached eagerly on install. */
  const STATIC_ASSETS: seq<Url> := ["/", "/level1", "/level2", "/gallery", "/fonts/王漢宗中明體注音.ttf"]

  /** All cache storage: bucket names in creation order (the order in which
      `caches.keys()` lists them and `caches.match` searches them), and the
      buckets by name. */
  datatype Store = Store(names: seq<string>, buckets: map<string, Bucket>)

  /** Each bucket is listed exactly once in `names`. */
  ghost predicate WellFormed(s: Store)
  {
    && Distinct(s.names)
    && (forall n :: n in s.buckets <==> n in s.names)
  }

  /** No name is listed twice. */
  predicate Distinct(names: seq<string>)
  {
    forall i, j :: 0 <= i < j < |names| ==> names[i] != names[j]
  }

  /** The response bucket `name` holds for `url`, if any. */
  function Lookup(s: Store, name: string, url: Url): Option<Response>
  {
    if name in s.buckets && url in s.buckets[name] then Some(s.buckets[name][url]) else None
  }

  /** The key set of every bucket. */
  function Shape(s: Store): map<string, set<Url>>
  {
    map n | n in s.buckets :: s.buckets[n].Keys
  }

  // ---------------------------------------------------------------------
  // String tests used by the should-cache predicate
  // ---------------------------------------------------------------------

  ghost predicate OccursAt(s: string, sub: string, i: int)
  {
    0 <= i <= |s| - |sub| && s[i..i + |sub|] == sub
  }

  /** `s.includes(sub)`. */
  function Includes(s: string, sub: string): (r: bool)
    ensures r <==> exists i :: OccursAt(s, sub, i)
    decreases |s|
  {
    if |s| < |sub| then false
    else if s[..|sub|] == sub then (assert OccursAt(s, sub, 0); true)
    else
      var r := Includes(s[1..], sub);
      assert forall i :: OccursAt(s[1..], sub, i) ==> OccursAt(s, sub, i + 1);
      assert forall i :: OccursAt(s, sub, i) && i > 0 ==> OccursAt(s[1..], sub, i - 1);
      r
  }

  /** `s.endsWith(suffix)`. */
  function EndsWith(s: string, suffix: string): (r: bool)
    ensures r <==> exists prefix :: s == prefix + suffix
  {
    if |s| < |suffix| then false
    else
      var prefix := s[..|s| - |suffix|];
      assert s == prefix + s[|s| - |suffix|..];
      s[|s| - |suffix|..] == suffix
  }

  /** The should-cache test, applied to the whole request URL (query string
      included): one of the three directories occurs somewhere in it, or it
      ends in one of the two extensions. */
  predicate ShouldCache(url: Url): (r: bool)
    ensures r <==>
      || (exists i :: OccursAt(url, "/images/", i))
      || (exists i :: OccursAt(url, "/items/", i))
      || (exists i :: OccursAt(url, "/fonts/", i))
      || (exists prefix :: url == prefix + ".css")
      || (exists prefix :: url == prefix + ".js")
  {
    || Includes(url, "/images/")
    || Includes(url, "/items/")
    || Includes(url, "/fonts/")
    || EndsWith(url, ".css")
    || EndsWith(url, ".js")
  }

  /** The validity check: present, status 200, same-origin (`basic`). Only
      the body is free, and every valid response is one `cache.addAll` would
      also accept. */
  predicate IsValid(response: Option<Response>): (r: bool)
    ensures r <==> exists body :: response == Some(Response(200, Basic, body))
    ensures r ==> AddAllAccepts(response)
  {
    match response
    case None => false
    case Some(resp) => resp == Response(200, Basic, resp.body)
  }

  // ---------------------------------------------------------------------
  // Cache API operations, as functions on Store
  // ---------------------------------------------------------------------

  /** `caches.open(name)`: creates the bucket, last in order, when absent. */
  function OpenBucket(s: Store, name: string): (r: Store)
    requires WellFormed(s)
    ensures WellFormed(r) && name in r.buckets
    ensures r.names == if name in s.buckets then s.names else s.names + [name]
    ensures r.buckets == if name in s.buckets then s.buckets else s.buckets[name := map[]]
  {
    if name in s.buckets then s else Store(s.names + [name], s.buckets[name := map[]])
  }

  /** `caches.open(name)` followed by `cache.put(url, response)`. */
  function PutEntry(s: Store, name: string, url: Url, response: Response): (r: Store)
    requires WellFormed(s)
    ensures WellFormed(r) && Lookup(r, name, url) == Some(response)
    ensures forall n, u :: (n != name || u != url) ==> Lookup(r, n, u) == Lookup(s, n, u)
  {
    var withBucket := OpenBucket(s, name);
    Store(withBucket.names, withBucket.buckets[name := withBucket.buckets[name][url := response]])
  }

  /** `caches.delete(name)`: the bucket and its listing are gone, every other
      bucket is untouched, and the storage stays well formed. */
  function DeleteBucket(s: Store, name: string): (r: Store)
    ensures name !in r.buckets && name !in r.names
    ensures forall n :: n in r.names <==> n in s.names && n != name
    ensures forall n, u :: n != name ==> Lookup(r, n, u) == Lookup(s, n, u)
    ensures WellFormed(s) ==> WellFormed(r)
  {
    DistinctWithout(s.names, name);
    Store(Without(s.names, name), s.buckets - {name})
  }

  /** `names` with `name` removed. */
  function Without(names: seq<string>, name: string): (r: seq<string>)
    ensures forall n :: n in r <==> n in names && n != name
  {
    if names == [] then []
    else (if names[0] == name then [] else [names[0]]) + Without(names[1..], name)
  }

  /** Whether `cache.addAll` accepts a fetched response: the fetch succeeded,
      the status is in the 200-299 range, and it is not a partial (206)
      response. */
  predicate AddAllAccepts(response: Option<Response>)
  {
    response.Some? && 200 <= response.value.status <= 299 && response.value.status != 206
  }

  /** `cache.addAll(urls)`: fetches every URL and stores all responses, or
      stores none when the list names a URL twice or any fetch fails or is not
      accepted. */
  function AddAll(bucket: Bucket, urls: seq<Url>, network: Network): (r: Option<Bucket>)
    ensures r.Some? <==> Distinct(urls) && forall u :: u in urls ==> AddAllAccepts(network(u))
    ensures r.Some? ==> r.value.Keys == bucket.Keys + set u | u in urls
    ensures r.Some? ==> forall u :: u in urls ==> Some(r.value[u]) == network(u)
    ensures r.Some? ==> forall u :: u in bucket && u !in urls ==> r.value[u] == bucket[u]
  {
    if Distinct(urls) then PutAll(bucket, urls, network) else None
  }

  /** The fetch-and-store part of `AddAll`, all or nothing. */
  function PutAll(bucket: Bucket, urls: seq<Url>, network: Network): (r: Option<Bucket>)
    ensures r.Some? <==> forall u :: u in urls ==> AddAllAccepts(network(u))
    ensures r.Some? ==> r.value.Keys == bucket.Keys + set u | u in urls
    ensures r.Some? ==> forall u :: u in urls ==> Some(r.value[u]) == network(u)
    ensures r.Some? ==> forall u :: u in bucket && u !in urls ==> r.value[u] == bucket[u]
    decreases |urls|
  {
    if urls == [] then Some(bucket)
    else if !AddAllAccepts(network(urls[0])) then None
    else
      var rest := PutAll(bucket[urls[0] := network(urls[0]).value], urls[1..], network);
      assert forall u :: u in urls <==> u == urls[0] || u in urls[1..];
      rest
  }

  /** The first bucket, in creation order, that holds `url` (`caches.match`). */
  function Match(s: Store, url: Url): (r: Option<Response>)
    ensures r.Some? <==> exists n :: n in s.names && Lookup(s, n, url).Some?
    ensures r.Some? ==> exists k :: FirstHolder(s, url, k) && r == Lookup(s, s.names[k], url)
    decreases |s.names|
  {
    if s.names == [] then None
    else if Lookup(s, s.names[0], url).Some? then
      assert FirstHolder(s, url, 0);
      Lookup(s, s.names[0], url)
    else
      var tail := Store(s.names[1..], s.buckets);
      var r := Match(tail, url);
      assert forall n :: n in s.names <==> n == s.names[0] || n in tail.names;
      assert forall k :: FirstHolder(tail, url, k) ==> FirstHolder(s, url, k + 1);
      r
  }

  /** Bucket `k` is the first in order that holds `url`. */
  ghost predicate FirstHolder(s: Store, url: Url, k: int)
  {
    && 0 <= k < |s.names|
    && Lookup(s, s.names[k], url).Some?
    && forall j :: 0 <= j < k ==> Lookup(s, s.names[j], url).None?
  }

  // ---------------------------------------------------------------------
  // The three event handlers, as step functions
  // ---------------------------------------------------------------------

  datatype InstallResult = InstallResult(store: Store, ok: bool)

  /** install: open the current bucket and add the whole manifest to it (the
      handler passes `STATIC_ASSETS`). */
  function InstallStep(s: Store, manifest: seq<Url>, network: Network): (r: InstallResult)
    requires WellFormed(s)
    ensures WellFormed(r.store)
  {
    var withBucket := OpenBucket(s, CACHE_NAME);
    match AddAll(withBucket.buckets[CACHE_NAME], manifest, network)
    case None => InstallResult(withBucket, false)
    case Some(b) => InstallResult(Store(withBucket.names, withBucket.buckets[CACHE_NAME := b]), true)
  }

  /** The names that activate keeps: only the current one. */
  function KeepCurrent(names: seq<string>): (r: seq<string>)
    ensures forall n :: n in r <==> n in names && n == CACHE_NAME
    ensures |r| <= |names|
  {
    if names == [] then []
    else (if names[0] == CACHE_NAME then [names[0]] else []) + KeepCurrent(names[1..])
  }

  /** activate: every bucket not named `CACHE_NAME` is deleted, and the
      current bucket, if present, keeps its entries. */
  function ActivateStep(s: Store): (r: Store)
    ensures r.buckets.Keys == s.buckets.Keys * {CACHE_NAME}
    ensures forall n :: n in r.names <==> n in s.names && n == CACHE_NAME
    ensures forall u :: Lookup(r, CACHE_NAME, u) == Lookup(s, CACHE_NAME, u)
  {
    Store(KeepCurrent(s.names), map n | n in s.buckets && n == CACHE_NAME :: s.buckets[n])
  }

  datatype FetchResult = FetchResult(store: Store, response: Option<Response>)

  /** fetch: answer from any bucket on a hit; otherwise ask the network, and
      write a valid response for a should-cache URL into `CACHE_NAME`. */
  function FetchStep(s: Store, url: Url, network: Network): (r: FetchResult)
    requires WellFormed(s)
    ensures WellFormed(r.store)
  {
    var hit := Match(s, url);
    if hit.Some? then FetchResult(s, hit)
    else
      var response := network(url);
      if !IsValid(response) then FetchResult(s, response)
      else if ShouldCache(url) then FetchResult(PutEntry(s, CACHE_NAME, url, response.value), response)
      else FetchResult(s, response)
  }

  // ---------------------------------------------------------------------
  // The browser's cache storage, changed in place
  // ---------------------------------------------------------------------

  class CacheStorage {
    var names: seq<string>
    var buckets: map<string, Bucket>

    /** The storage lists each bucket exactly once. */
    ghost predicate Valid()
      reads this
    {
      WellFormed(State())
    }

    /** The storage as a value. */
    function State(): Store
      reads this
    {
      Store(names, buckets)
    }

    constructor ()
      ensures Valid() && State() == Store([], map[])
    {
      names := [];
      buckets := map[];
    }

    /** `caches.open(name)`. */
    method Open(name: string)
      requires Valid()
      modifies this
      ensures Valid() && State() == OpenBucket(old(State()), name)
    {
      if name !in buckets {
        names := names + [name];
        buckets := buckets[name := map[]];
      }
    }

    /** `caches.open(name)`, then `cache.put(url, response)`. */
    method Put(name: string, url: Url, response: Response)
      requires Valid()
      modifies this
      ensures Valid() && State() == PutEntry(old(State()), name, url, response)
    {
      Open(name);
      buckets := buckets[name := buckets[name][url := response]];
    }

    /** `caches.delete(name)`. */
    method Delete(name: string)
      requires Valid()
      modifies this
      ensures Valid() && State() == DeleteBucket(old(State()), name)
    {
      DistinctWithout(names, name);
      names := Without(names, name);
      buckets := buckets - {name};
    }

    /** The install handler. */
    method Install(network: Network) returns (ok: bool)
      requires Valid()
      modifies this
      ensures Valid() && InstallResult(State(), ok) == InstallStep(old(State()), STATIC_ASSETS, network)
    {
      Open(CACHE_NAME);
      var added := AddAll(buckets[CACHE_NAME], STATIC_ASSETS, network);
      ok := added.Some?;
      if ok {
        buckets := buckets[CACHE_NAME := added.value];
      }
    }

    /** The activate handler: walks the bucket names and deletes each stale one. */
    method Activate()
      requires Valid()
      modifies this
      ensures Valid() && State() == ActivateStep(old(State()))
    {
      ghost var s0 := State();
      var cacheNames := names;
      var i := 0;
      EvictingStart(s0);
      while i < |cacheNames|
        invariant 0 <= i <= |cacheNames|
        invariant Valid() && State() == Evicting(s0, i)
      {
        var name := cacheNames[i];
        EvictingStep(s0, i);
        if name != CACHE_NAME {
          Delete(name);
        }
        i := i + 1;
      }
      EvictingDone(s0);
    }

    /** The fetch handler. */
    method Fetch(url: Url, network: Network) returns (response: Option<Response>)
      requires Valid()
      modifies this
      ensures Valid() && FetchResult(State(), response) == FetchStep(old(State()), url, network)
    {
      var hit := Match(State(), url);
      if hit.Some? {
        return hit;
      }
      response := network(url);
      if !IsValid(response) {
        return;
      }
      if ShouldCache(url) {
        Put(CACHE_NAME, url, response.value);
      }
    }
  }

  // ---------------------------------------------------------------------
  // Properties of the handlers
  // ---------------------------------------------------------------------

  /** Install succeeds exactly when the manifest names no URL twice and
      `cache.addAll` accepts the response to every manifest URL. */
  lemma InstallSucceedsIffAllAccepted(s: Store, manifest: seq<Url>, network: Network)
    requires WellFormed(s)
    ensures InstallStep(s, manifest, network).ok <==> Distinct(manifest) && forall u :: u in manifest ==> AddAllAccepts(network(u))
  {
  }

  /** Install leaves the current bucket in place and, on success, every
      manifest URL cached in it with the network's response. */
  lemma InstallCachesManifest(s: Store, manifest: seq<Url>, network: Network)
    requires WellFormed(s)
    ensures CACHE_NAME in InstallStep(s, manifest, network).store.buckets
    ensures InstallStep(s, manifest, network).ok ==>
      forall u :: u in manifest ==> Lookup(InstallStep(s, manifest, network).store, CACHE_NAME, u) == network(u)
  {
  }

  /** Install changes nothing but manifest entries of the current bucket, and
      on failure not even those (the bucket is only created if missing). */
  lemma InstallTouchesOnlyManifest(s: Store, manifest: seq<Url>, network: Network)
    requires WellFormed(s)
    ensures forall u :: u !in manifest || !InstallStep(s, manifest, network).ok ==>
      Lookup(InstallStep(s, manifest, network).store, CACHE_NAME, u) == Lookup(s, CACHE_NAME, u)
    ensures forall n, u :: n != CACHE_NAME ==> Lookup(InstallStep(s, manifest, network).store, n, u) == Lookup(s, n, u)
  {
  }

  /** Installing twice with the same network gives the same storage as
      installing once. */
  lemma InstallIdempotent(s: Store, manifest: seq<Url>, network: Network)
    requires WellFormed(s)
    ensures InstallStep(InstallStep(s, manifest, network).store, manifest, network) == InstallStep(s, manifest, network)
  {
    var once := InstallStep(s, manifest, network);
    var w := OpenBucket(s, CACHE_NAME);
    assert OpenBucket(once.store, CACHE_NAME) == once.store;
    AddAllIdempotent(w.buckets[CACHE_NAME], manifest, network);
  }

  /** Even when the responses differ between the two installs, an install
      followed by a successful one leaves the same bucket names and key sets
      as the successful one alone. */
  lemma InstallTwiceSameKeys(s: Store, manifest: seq<Url>, first: Network, second: Network)
    requires WellFormed(s)
    requires InstallStep(s, manifest, second).ok
    ensures InstallStep(InstallStep(s, manifest, first).store, manifest, second).store.names == InstallStep(s, manifest, second).store.names
    ensures Shape(InstallStep(InstallStep(s, manifest, first).store, manifest, second).store) == Shape(InstallStep(s, manifest, second).store)
  {
    var mid := InstallStep(s, manifest, first).store;
    var w := OpenBucket(s, CACHE_NAME);
    if !InstallStep(s, manifest, first).ok {
      InstallAfterFailedInstall(s, manifest, first, second);
      return;
    }
    assert OpenBucket(mid, CACHE_NAME) == mid;
    AddAllTwiceSameKeys(w.buckets[CACHE_NAME], manifest, first, second);
    var twice := InstallStep(mid, manifest, second).store;
    var once := InstallStep(s, manifest, second).store;
    assert twice.buckets.Keys == once.buckets.Keys;
    assert forall n :: n in twice.buckets ==> twice.buckets[n].Keys == once.buckets[n].Keys;
  }

  /** A failed install leaves only the opened bucket behind, so a following
      install behaves as if it were the first. */
  lemma InstallAfterFailedInstall(s: Store, manifest: seq<Url>, first: Network, second: Network)
    requires WellFormed(s) && !InstallStep(s, manifest, first).ok
    ensures InstallStep(InstallStep(s, manifest, first).store, manifest, second) == InstallStep(s, manifest, second)
  {
    var w := OpenBucket(s, CACHE_NAME);
    assert InstallStep(s, manifest, first).store == w;
    assert OpenBucket(w, CACHE_NAME) == w;
  }

  /** Adding the same URLs again with the same network changes nothing. */
  lemma AddAllIdempotent(bucket: Bucket, urls: seq<Url>, network: Network)
    ensures AddAll(bucket, urls, network).Some? ==>
      AddAll(AddAll(bucket, urls, network).value, urls, network) == AddAll(bucket, urls, network)
  {
    if AddAll(bucket, urls, network).Some? {
      var b := AddAll(bucket, urls, network).value;
      var b2 := AddAll(b, urls, network).value;
      assert b2.Keys == b.Keys;
      assert b2 == b;
    }
  }

  /** Adding the same URLs twice gives the key set of adding them once. */
  lemma AddAllTwiceSameKeys(bucket: Bucket, urls: seq<Url>, first: Network, second: Network)
    requires AddAll(bucket, urls, first).Some? && AddAll(bucket, urls, second).Some?
    ensures AddAll(AddAll(bucket, urls, first).value, urls, second).Some?
    ensures AddAll(AddAll(bucket, urls, first).value, urls, second).value.Keys == AddAll(bucket, urls, second).value.Keys
  {
  }

  /** After activate only the current bucket can remain, listed once, with its
      entries unchanged. */
  lemma ActivateKeepsOnlyCurrent(s: Store)
    requires WellFormed(s)
    ensures WellFormed(ActivateStep(s))
    ensures ActivateStep(s).buckets.Keys == s.buckets.Keys * {CACHE_NAME}
    ensures ActivateStep(s).names == if CACHE_NAME in s.buckets then [CACHE_NAME] else []
    ensures forall u :: Lookup(ActivateStep(s), CACHE_NAME, u) == Lookup(s, CACHE_NAME, u)
  {
    KeepCurrentOfDistinct(s.names);
  }

  /** `caches.match` finds a URL held by any bucket, not only the current one. */
  lemma MatchSearchesAllBuckets(s: Store, url: Url)
    requires WellFormed(s)
    ensures Match(s, url).Some? <==> exists n :: Lookup(s, n, url).Some?
    ensures Match(s, url).Some? ==> exists n :: Match(s, url) == Lookup(s, n, url)
  {
  }

  /** Cache-first: on a hit the cached response is returned, the storage is
      unchanged, and the network is not consulted (any network gives the same
      outcome). */
  lemma FetchHitIsCacheFirst(s: Store, url: Url, network: Network, other: Network)
    requires WellFormed(s) && Match(s, url).Some?
    ensures FetchStep(s, url, network) == FetchResult(s, Match(s, url))
    ensures FetchStep(s, url, network) == FetchStep(s, url, other)
  {
  }

  /** On a miss the caller receives exactly the network's answer, whether or
      not it is cached. */
  lemma FetchMissReturnsNetwork(s: Store, url: Url, network: Network)
    requires WellFormed(s) && Match(s, url).None?
    ensures FetchStep(s, url, network).response == network(url)
  {
  }

  /** A failed fetch, a status other than 200 or a type other than `basic` is
      never written anywhere. */
  lemma FetchNeverCachesInvalid(s: Store, url: Url, network: Network)
    requires WellFormed(s) && !IsValid(network(url))
    ensures FetchStep(s, url, network).store == s
  {
  }

  /** A URL the should-cache test rejects is never written. */
  lemma FetchSkipsUnselectedUrl(s: Store, url: Url, network: Network)
    requires WellFormed(s) && !ShouldCache(url)
    ensures FetchStep(s, url, network).store == s
  {
  }

  /** A miss with a valid response for a selected URL stores that response
      under the URL in the current bucket, and from then on the URL is served
      from the cache whatever the network does. */
  lemma FetchCachesSelectedUrl(s: Store, url: Url, network: Network, later: Network)
    requires WellFormed(s) && Match(s, url).None? && IsValid(network(url)) && ShouldCache(url)
    ensures Lookup(FetchStep(s, url, network).store, CACHE_NAME, url) == network(url)
    ensures var s' := FetchStep(s, url, network).store;
      FetchStep(s', url, later) == FetchResult(s', network(url))
  {
  }

  /** A fetch writes at most one entry, the requested URL in the current
      bucket; it may create that bucket, and nothing else changes. */
  lemma FetchWriteIsLocal(s: Store, url: Url, network: Network)
    requires WellFormed(s)
    ensures forall n, u :: (n != CACHE_NAME || u != url) ==>
      Lookup(FetchStep(s, url, network).store, n, u) == Lookup(s, n, u)
    ensures FetchStep(s, url, network).store.names in {s.names, s.names + [CACHE_NAME]}
    ensures forall n, u :: Lookup(s, n, u).Some? ==> Lookup(FetchStep(s, url, network).store, n, u) == Lookup(s, n, u)
  {
  }

  /** Fetches handled one after another, each with its own network. */
  function FetchAll(s: Store, requests: seq<(Url, Network)>): (r: Store)
    requires WellFormed(s)
    ensures WellFormed(r)
    decreases |requests|
  {
    if requests == [] then s
    else FetchAll(FetchStep(s, requests[0].0, requests[0].1).store, requests[1..])
  }

  /** The current bucket is the only one that holds `url`, with `response`. */
  ghost predicate SoleHolder(s: Store, url: Url, response: Response)
  {
    && Lookup(s, CACHE_NAME, url) == Some(response)
    && forall n :: n != CACHE_NAME ==> Lookup(s, n, url).None?
  }

  /** A URL that only the current bucket holds is a hit answered from there. */
  lemma SoleHolderMatches(s: Store, url: Url, response: Response)
    requires WellFormed(s) && SoleHolder(s, url, response)
    ensures Match(s, url) == Some(response)
  {
    assert CACHE_NAME in s.names;
    assert forall n :: Lookup(s, n, url).Some? ==> Lookup(s, n, url) == Some(response);
  }

  /** No fetch, of any URL, disturbs a URL that only the current bucket holds. */
  lemma FetchKeepsSoleHolder(s: Store, url: Url, response: Response, other: Url, network: Network)
    requires WellFormed(s) && SoleHolder(s, url, response)
    ensures SoleHolder(FetchStep(s, other, network).store, url, response)
  {
    if other == url {
      SoleHolderMatches(s, url, response);
    } else {
      FetchWriteIsLocal(s, other, network);
    }
  }

  /** The same holds across any number of fetches. */
  lemma {:induction false} FetchAllKeepsSoleHolder(s: Store, url: Url, response: Response, requests: seq<(Url, Network)>)
    requires WellFormed(s) && SoleHolder(s, url, response)
    ensures SoleHolder(FetchAll(s, requests), url, response)
    decreases |requests|
  {
    if requests != [] {
      FetchKeepsSoleHolder(s, url, response, requests[0].0, requests[0].1);
      FetchAllKeepsSoleHolder(FetchStep(s, requests[0].0, requests[0].1).store, url, response, requests[1..]);
    }
  }

  /** Once a selected URL has been cached by a fetch, every later fetch of it,
      after any fetches of any URLs in between and whatever the network then
      answers, returns the cached response and changes nothing. */
  lemma LaterFetchesServedFromCache(s: Store, url: Url, network: Network, between: seq<(Url, Network)>, later: Network)
    requires WellFormed(s) && Match(s, url).None? && IsValid(network(url)) && ShouldCache(url)
    ensures var s' := FetchAll(FetchStep(s, url, network).store, between);
      FetchStep(s', url, later) == FetchResult(s', network(url))
  {
    var s1 := FetchStep(s, url, network).store;
    assert forall n :: Lookup(s, n, url).None?;
    assert SoleHolder(s1, url, network(url).value);
    FetchAllKeepsSoleHolder(s1, url, network(url).value, between);
    SoleHolderMatches(FetchAll(s1, between), url, network(url).value);
  }

  /** With the manifest the worker ships, which names no URL twice, install
      succeeds exactly when every one of its five paths is accepted, and then
      the page and the font are cached under the current name. */
  lemma InstallStaticAssets(s: Store, network: Network)
    requires WellFormed(s)
    ensures Distinct(STATIC_ASSETS)
    ensures InstallStep(s, STATIC_ASSETS, network).ok <==> forall u :: u in STATIC_ASSETS ==> AddAllAccepts(network(u))
    ensures InstallStep(s, STATIC_ASSETS, network).ok ==>
      && Lookup(InstallStep(s, STATIC_ASSETS, network).store, "room-maker-cache-v1", "/") == network("/")
      && Lookup(InstallStep(s, STATIC_ASSETS, network).store, "room-maker-cache-v1", "/fonts/王漢宗中明體注音.ttf") == network("/fonts/王漢宗中明體注音.ttf")
  {
    InstallSucceedsIffAllAccepted(s, STATIC_ASSETS, network);
    InstallCachesManifest(s, STATIC_ASSETS, network);
  }

  /** After a successful install and an activate, each manifest URL is served
      from the cache with the response fetched at install time. */
  lemma ManifestServedAfterActivate(s: Store, manifest: seq<Url>, network: Network, later: Network, u: Url)
    requires WellFormed(s) && InstallStep(s, manifest, network).ok && u in manifest
    ensures var s' := ActivateStep(InstallStep(s, manifest, network).store);
      WellFormed(s') && FetchStep(s', u, later) == FetchResult(s', network(u))
  {
    var installed := InstallStep(s, manifest, network).store;
    InstallCachesManifest(s, manifest, network);
    ActivateKeepsOnlyCurrent(installed);
    var s' := ActivateStep(installed);
    assert s'.names == [CACHE_NAME];
    assert Lookup(s', CACHE_NAME, u) == network(u);
  }

  /** The should-cache test reads the whole URL: a `.js` or `.css` URL is
      selected, but the same URL with a query string is selected only if one
      of the three directories occurs somewhere in it. */
  lemma ShouldCacheWholeUrl(url: Url, query: string)
    requires |query| > 0 && query[0] == '?' && query[|query| - 1] != 's'
    ensures ShouldCache(url + ".js") && ShouldCache(url + ".css")
    ensures ShouldCache(url + query) <==>
      Includes(url + query, "/images/") || Includes(url + query, "/items/") || Includes(url + query, "/fonts/")
  {
    var full := url + query;
    assert full[|full| - 1] == query[|query| - 1];
  }

  /** A selecting directory anywhere in the URL selects it, in the path or
      not. */
  lemma ShouldCacheDirectoryAnywhere(before: string, after: string)
    ensures ShouldCache(before + "/images/" + after)
    ensures ShouldCache(before + "/items/" + after)
    ensures ShouldCache(before + "/fonts/" + after)
  {
    assert OccursAt(before + "/images/" + after, "/images/", |before|);
    assert OccursAt(before + "/items/" + after, "/items/", |before|);
    assert OccursAt(before + "/fonts/" + after, "/fonts/", |before|);
  }

  // ---------------------------------------------------------------------
  // Helper lemmas for activate's loop
  // ---------------------------------------------------------------------

  /** The store after activate has visited the first `i` bucket names of
      `s0`: the stale ones among them are gone, the rest are untouched. */
  ghost function Evicting(s0: Store, i: nat): Store
    requires i <= |s0.names|
  {
    Store(KeepCurrent(s0.names[..i]) + s0.names[i..],
          map n | n in s0.buckets && (n == CACHE_NAME || n in s0.names[i..]) :: s0.buckets[n])
  }

  /** Before the loop nothing has been evicted. */
  lemma EvictingStart(s0: Store)
    requires WellFormed(s0)
    ensures Evicting(s0, 0) == s0
  {
  }

  /** One turn of the loop deletes the visited name unless it is current. */
  lemma EvictingStep(s0: Store, i: nat)
    requires WellFormed(s0) && i < |s0.names|
    ensures Evicting(s0, i + 1) ==
      if s0.names[i] == CACHE_NAME then Evicting(s0, i) else DeleteBucket(Evicting(s0, i), s0.names[i])
  {
    var cur, next := Evicting(s0, i), Evicting(s0, i + 1);
    EvictingNamesStep(s0.names, i);
    EvictingBucketsStep(s0.buckets, s0.names, i);
    if s0.names[i] == CACHE_NAME {
      assert next.names == cur.names && next.buckets == cur.buckets;
    } else {
      assert next.names == Without(cur.names, s0.names[i]);
      assert next.buckets == cur.buckets - {s0.names[i]};
    }
  }

  /** The bucket-map half of `EvictingStep`. */
  lemma EvictingBucketsStep(buckets: map<string, Bucket>, names: seq<string>, i: nat)
    requires Distinct(names) && i < |names|
    ensures var before := map n | n in buckets && (n == CACHE_NAME || n in names[i..]) :: buckets[n];
            (map n | n in buckets && (n == CACHE_NAME || n in names[i + 1..]) :: buckets[n]) ==
            if names[i] == CACHE_NAME then before else before - {names[i]}
  {
  }

  /** The name-list half of `EvictingStep`. */
  lemma EvictingNamesStep(names: seq<string>, i: nat)
    requires Distinct(names) && i < |names|
    ensures KeepCurrent(names[..i + 1]) + names[i + 1..] ==
      if names[i] == CACHE_NAME then KeepCurrent(names[..i]) + names[i..]
      else Without(KeepCurrent(names[..i]) + names[i..], names[i])
  {
    var name := names[i];
    KeepCurrentAppend(names[..i], name);
    assert names[..i + 1] == names[..i] + [name];
    assert names[i..] == [name] + names[i + 1..];
    if name != CACHE_NAME {
      assert name !in names[i + 1..];
      WithoutSplit(KeepCurrent(names[..i]), name, names[i + 1..]);
      assert KeepCurrent(names[..i]) + [name] + names[i + 1..] == KeepCurrent(names[..i]) + names[i..];
    }
  }

  /** After the loop the store is the one `ActivateStep` describes. */
  lemma EvictingDone(s0: Store)
    requires WellFormed(s0)
    ensures Evicting(s0, |s0.names|) == ActivateStep(s0)
  {
    assert s0.names[..|s0.names|] == s0.names;
    assert s0.names[|s0.names|..] == [];
  }

  // ---------------------------------------------------------------------
  // Helper lemmas for the name lists
  // ---------------------------------------------------------------------
  /** Removing a name keeps the list free of repeats. */
  lemma {:induction false} DistinctWithout(names: seq<string>, name: string)
    ensures Distinct(names) ==> Distinct(Without(names, name))
  {
    if names != [] && Distinct(names) {
      DistinctWithout(names[1..], name);
      var r := Without(names, name);
      var t := Without(names[1..], name);
      if names[0] != name {
        assert r == [names[0]] + t;
        assert names[0] !in t;
      }
    }
  }

  /** A list without repeats keeps at most the single current name. */
  lemma {:induction false} KeepCurrentOfDistinct(names: seq<string>)
    requires Distinct(names)
    ensures KeepCurrent(names) == if CACHE_NAME in names then [CACHE_NAME] else []
  {
    if names != [] {
      KeepCurrentOfDistinct(names[1..]);
      if names[0] == CACHE_NAME {
        assert CACHE_NAME !in names[1..];
      }
    }
  }

  /** `KeepCurrent` distributes over appending one name. */
  lemma {:induction false} KeepCurrentAppend(names: seq<string>, name: string)
    ensures KeepCurrent(names + [name]) == KeepCurrent(names) + (if name == CACHE_NAME then [name] else [])
  {
    if names == [] {
      assert names + [name] == [name];
    } else {
      assert (names + [name])[1..] == names[1..] + [name];
      KeepCurrentAppend(names[1..], name);
    }
  }

  /** Removing a name that occurs once, between two parts, joins the parts. */
  lemma {:induction false} WithoutSplit(front: seq<string>, name: string, back: seq<string>)
    requires name !in front && name !in back
    ensures Without(front + [name] + back, name) == front + back
  {
    if front == [] {
      assert [name] + back == front + [name] + back;
      WithoutAbsent(back, name);
    } else {
      assert (front + [name] + back)[1..] == front[1..] + [name] + back;
      WithoutSplit(front[1..], name, back);
    }
  }

  /** Removing an absent name changes nothing. */
  lemma {:induction false} WithoutAbsent(names: seq<string>, name: string)
    requires name !in names
    ensures Without(names, name) == names
  {
    if names != [] {
      WithoutAbsent(names[1..], name);
    }
  }
}
