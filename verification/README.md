# Bilingual typing room game: offline cache and word bank, in Dafny

This project models the two pieces of the bilingual (Chinese/English)
vocabulary game that have behaviour worth stating:

- **The offline cache manager** (`static/service-worker.js`), in
  `service_worker.dfy`, module `ServiceWorker`. The browser's cache storage
  is the class `CacheStorage`. Its fields are the bucket names, in creation
  order, and a map from bucket name to bucket, where a bucket maps a request
  URL to a stored response. The three event handlers are methods of that
  class:
  - `Install` opens the `room-maker-cache-v1` bucket and `addAll`s the
    manifest.
  - `Activate` walks `caches.keys()` and deletes every bucket with another
    name.
  - `Fetch` is cache-first. A hit in any bucket is returned as is. On a miss
    it asks the network. A response that is missing, not status 200 or not
    of type `basic` is returned uncached. A valid response is written into
    the current bucket only when the whole URL passes the should-cache test:
    it contains `/images/`, `/items/` or `/fonts/`, or ends in `.css` or
    `.js`.

  Each method is proved equal to a pure step function over the value
  `Store`: `InstallStep`, `ActivateStep` and `FetchStep`. The properties
  are lemmas about those step functions. The network is an oracle
  `Url -> Option<Response>`, where `None` means the fetch rejects.
- **The word bank** (`src/lib/WordBankData.js`), in `word_bank.dfy`, module
  `WordBankData`. The data literal is the constant `WordBank`: rooms in
  listing order, each with its entries. `getAllItems` is the method
  `GetAllItems`, whose loop is proved against the reference function
  `Flatten`. Lemmas state the length, membership, order and multiplicity of
  the result, and facts about the concrete data: 17 entries, the sink entry
  listed twice, and `baseName` unique within each room.

## Behaviour of the code worth noting

- The should-cache test reads `event.request.url`, the whole request URL
  including any query string. So `app.js?v=2` fails the extension tests.
- The word bank module defines only `wordBank` and `getAllItems`.
- `getAllItems` visits the rooms in the order the object literal lists them,
  which is the order `for...in` visits string keys.

## Model

| member | source | states |
|---|---|---|
| `ServiceWorker.Includes` | static/service-worker.js:64-66 | `url.includes(sub)` holds exactly when `sub` occurs at some position of the URL |
| `ServiceWorker.EndsWith` | static/service-worker.js:67-68 | `url.endsWith(suffix)` holds exactly when the URL is some prefix followed by `suffix` |
| `ServiceWorker.ShouldCache` | static/service-worker.js:64-68 | a URL is selected exactly when `/images/`, `/items/` or `/fonts/` occurs at some position of it, or it is some prefix followed by `.css` or `.js` |
| `ServiceWorker.IsValid` | static/service-worker.js:56 | a response is valid exactly when it is present with status 200 and type `basic`, whatever its body; every valid response is also one `addAll` accepts |
| `ServiceWorker.ShouldCacheWholeUrl` | static/service-worker.js:64-68 | a URL ending in `.js` or `.css` is selected. Append a query string that starts with `?` and does not end in `s`, and the URL is selected only if `/images/`, `/items/` or `/fonts/` occurs in it |
| `ServiceWorker.ShouldCacheDirectoryAnywhere` | static/service-worker.js:64-66 | `/images/`, `/items/` or `/fonts/` anywhere in the URL selects it |
| `ServiceWorker.OpenBucket` | static/service-worker.js:15 | `caches.open` keeps the storage well formed, leaves an existing bucket alone, and otherwise appends a new empty bucket last |
| `ServiceWorker.PutEntry` | static/service-worker.js:69-72 | after `cache.put` the bucket holds the response under the URL, and every other (bucket, URL) entry is unchanged |
| `ServiceWorker.DeleteBucket` | static/service-worker.js:32 | `caches.delete` removes the bucket and its listing, leaves every other bucket's entries unchanged, and keeps the storage well formed |
| `ServiceWorker.AddAll` | static/service-worker.js:18 | `cache.addAll` succeeds exactly when the list names no URL twice and every response is accepted (status 200-299, not 206). It then adds exactly the listed keys, each with the network's response, and keeps the other entries |
| `ServiceWorker.PutAll` | static/service-worker.js:18 | fetching and storing the list is all or nothing: it succeeds exactly when every response is accepted, and then adds exactly those keys with the network's responses |
| `ServiceWorker.Match` | static/service-worker.js:43 | `caches.match` hits exactly when some listed bucket holds the URL, and it answers from the first such bucket in creation order |
| `ServiceWorker.InstallStep` | static/service-worker.js:13-22 | install keeps the storage well formed (each bucket listed once) |
| `ServiceWorker.KeepCurrent` | static/service-worker.js:29-30 | the names activate keeps are exactly the listed names equal to `CACHE_NAME`, and there are no more of them than before |
| `ServiceWorker.ActivateStep` | static/service-worker.js:25-38 | after activate the bucket set is the old one cut down to `CACHE_NAME`, only that name stays listed, and its entries are unchanged |
| `ServiceWorker.FetchStep` | static/service-worker.js:41-79 | fetch keeps the storage well formed |
| `ServiceWorker.CacheStorage.Open` | static/service-worker.js:15 | the new storage is `OpenBucket` of the old |
| `ServiceWorker.CacheStorage.Put` | static/service-worker.js:69-72 | the new storage is `PutEntry` of the old |
| `ServiceWorker.CacheStorage.Delete` | static/service-worker.js:32 | the new storage is the old one without the named bucket |
| `ServiceWorker.CacheStorage.Install` | static/service-worker.js:13-22 | the new storage and the success flag are `InstallStep` of the old storage with `STATIC_ASSETS` |
| `ServiceWorker.CacheStorage.Activate` | static/service-worker.js:25-38 | the loop over the bucket names deletes each stale bucket, so the new storage is `ActivateStep` of the old |
| `ServiceWorker.CacheStorage.Fetch` | static/service-worker.js:41-79 | the returned response and the new storage are `FetchStep` of the old storage |
| `ServiceWorker.InstallSucceedsIffAllAccepted` | static/service-worker.js:15-18 | install succeeds exactly when the manifest names no URL twice and every manifest response is accepted by `addAll` |
| `ServiceWorker.InstallStaticAssets` | static/service-worker.js:3-18 | the shipped manifest (`/`, `/level1`, `/level2`, `/gallery` and the font) names no URL twice, so install succeeds exactly when all five responses are accepted; the page and the font are then cached under `room-maker-cache-v1` |
| `ServiceWorker.InstallCachesManifest` | static/service-worker.js:4-18 | after install the current bucket exists. On success, every manifest URL is a key of it, holding the network's response |
| `ServiceWorker.InstallTouchesOnlyManifest` | static/service-worker.js:15-18 | install leaves every other bucket unchanged and every non-manifest key unchanged. A failed install changes no entry |
| `ServiceWorker.InstallIdempotent` | static/service-worker.js:15-18 | installing twice with the same network gives the same storage as installing once |
| `ServiceWorker.InstallTwiceSameKeys` | static/service-worker.js:15-18 | any install followed by a successful one, even with different responses, gives the same bucket names and key sets as the successful one alone |
| `ServiceWorker.InstallAfterFailedInstall` | static/service-worker.js:15-18 | after a failed install, installing again gives exactly what a first install would |
| `ServiceWorker.AddAllIdempotent` | static/service-worker.js:18 | adding the same URLs again with the same network changes nothing |
| `ServiceWorker.AddAllTwiceSameKeys` | static/service-worker.js:18 | adding the same URLs twice gives the key set of adding them once |
| `ServiceWorker.ActivateKeepsOnlyCurrent` | static/service-worker.js:27-35 | after activate the only bucket that can remain is `CACHE_NAME`, listed once, with its entries unchanged |
| `ServiceWorker.MatchSearchesAllBuckets` | static/service-worker.js:43 | a fetch hits when any bucket holds the URL, not only the current one, and the hit is that bucket's entry |
| `ServiceWorker.FetchHitIsCacheFirst` | static/service-worker.js:43-48 | on a hit, fetch returns the cached response, leaves the storage unchanged, and its outcome does not depend on the network |
| `ServiceWorker.FetchMissReturnsNetwork` | static/service-worker.js:53-58 | on a miss, the caller receives exactly the network's answer, cached or not |
| `ServiceWorker.FetchNeverCachesInvalid` | static/service-worker.js:56-58 | a failed fetch, a status other than 200 or a type other than `basic` leaves the storage unchanged |
| `ServiceWorker.FetchSkipsUnselectedUrl` | static/service-worker.js:64-68 | a URL the should-cache test rejects leaves the storage unchanged |
| `ServiceWorker.FetchCachesSelectedUrl` | static/service-worker.js:60-75 | a miss with a valid response for a selected URL stores that response under the URL in `CACHE_NAME`, and the next fetch of the URL is answered from the cache whatever the network does |
| `ServiceWorker.FetchWriteIsLocal` | static/service-worker.js:69-72 | a fetch changes no entry except the requested URL in `CACHE_NAME`, at most adds that bucket, and never changes an existing entry |
| `ServiceWorker.SoleHolderMatches` | static/service-worker.js:43-47 | a URL that only the current bucket holds is a hit answered with that bucket's entry |
| `ServiceWorker.FetchKeepsSoleHolder` | static/service-worker.js:41-79 | a fetch of any URL leaves a URL that only the current bucket holds with the same entry, and still held by no other bucket |
| `ServiceWorker.FetchAllKeepsSoleHolder` | static/service-worker.js:41-79 | the same across any sequence of fetches, each with its own network |
| `ServiceWorker.LaterFetchesServedFromCache` | static/service-worker.js:43-75 | once a fetch has cached a selected URL, every later fetch of it, after any fetches of any URLs in between, returns the cached response and changes nothing, whatever the network answers |
| `ServiceWorker.ManifestServedAfterActivate` | static/service-worker.js:13-48 | after a successful install and an activate, each manifest URL is served from the cache with its install-time response |
| `WordBankData.GetAllItems` | src/lib/WordBankData.js:37-43 | the result is the rooms' lists concatenated in room order, and its length is the sum of their lengths. The bank is a value and is not changed |
| `WordBankData.Flatten` | src/lib/WordBankData.js:38-41 | the reference result is the rooms' lists concatenated in room order, and its length is the sum of their lengths |
| `WordBankData.FlattenAppend` | src/lib/WordBankData.js:38-41 | concatenating room by room equals concatenating the two halves' results |
| `WordBankData.FlattenMembership` | src/lib/WordBankData.js:39-41 | an entry is in the result exactly when some room lists it |
| `WordBankData.FlattenOccurrences` | src/lib/WordBankData.js:39-41 | no deduplication: each entry occurs as often as all rooms together list it |
| `WordBankData.FlattenOrder` | src/lib/WordBankData.js:38-41 | entry `j` of room `k` is at index (entries of rooms before `k`) + `j`, so room order and within-room order are kept |
| `WordBankData.WordBankCount` | src/lib/WordBankData.js:2-34 | the word bank has 4 rooms and 17 entries |
| `WordBankData.SinkListedTwice` | src/lib/WordBankData.js:19-31 | the sink entry is in the kitchen and in the bathroom, and occurs twice in the flattened list |
| `WordBankData.SinkNotInFirstRooms` | src/lib/WordBankData.js:3-18 | the living room and the bedroom do not list the sink |
| `WordBankData.SinkOnceInKitchenAndBathroom` | src/lib/WordBankData.js:19-31 | the kitchen and the bathroom each list the sink once |
| `WordBankData.BaseNamesDistinctPerRoom` | src/lib/WordBankData.js:3-33 | `baseName` is unique within every room but repeats in the flattened list |

## Left out

- The promise plumbing is not modelled: `event.waitUntil`, `event.respondWith` and the `.then` chains. Each handler is one sequential step.
- The fire-and-forget `cache.put` is a synchronous update that always succeeds, so a swallowed write failure is not modelled.
- Concurrent fetch events and their races are not modelled. Events are handled one at a time.
- `self.skipWaiting()`, `self.clients.claim()` and `console.log` are not modelled. They do not change cache contents.
- Request and response `.clone()` calls are left out. Responses are immutable values, so single-read bodies do not arise.
- The network and the Cache API's internals are outside the model. The network is an oracle parameter. For `cache.addAll`, the model assumes a library behaviour that the code does not show. It is all-or-nothing. It rejects a list that names a URL twice. It accepts a response only when the fetch succeeds and the status is 200-299 but not 206. `caches.open` runs first, so a failed install can still leave a new, empty current bucket.
- AddAllAccepts: does not model the other reasons `cache.addAll` rejects a response, such as a `Vary: *` header. Headers are not part of `Response`.
- CacheStorage.Install: a failed install makes the browser discard the worker, so it is never activated and never handles fetches. The class does not track the worker's lifecycle, and its `Activate` and `Fetch` stay callable after a failed `Install`.
- The model assumes `caches.match` searches buckets in creation order. That is the order `caches.keys()` lists them in.
- URL resolution is not modelled. Manifest paths are cache keys as written, with no resolution against the worker's origin and no percent-encoding of the font file's Chinese name.
- Request methods are not modelled. Every request is a GET, so the rules of `caches.match` and `cache.put` for other methods are not covered.
- The `!response` test cannot tell "no response" apart from a rejected fetch. `None` stands for both, and both reach the caller unchanged and uncached.
- The game UI that reads the word bank is not part of this model.
