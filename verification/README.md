# Positive affirmations: pool selection, personal list and offline cache

A Dafny model of the decision logic of a small offline-capable web
application that shows short affirmation texts.

- `app.js` builds the candidate pool. It takes the built-in entries of the data
  file and the user's personal texts, then filters them by the selected
  category. An empty result falls back to the built-in entries.
- It then picks a random entry that is not the object shown before. It names
  the entry's category for the badge.
- It keeps a bounded personal list in local storage: at most 50 texts, each at
  most 200 UTF-16 code units after trimming.
- `sw.js` is the service worker. Install stores every asset in the versioned
  cache, all or nothing. Activate deletes every other cache.
- Fetch is cache first. A 200 response to a GET request whose URL begins with
  the text of the worker's origin is copied into the cache. An offline page navigation falls back to the cached shell.
- A notification click focuses the first open window, or opens the start page.

Everything is pure functions over immutable values.

- `wrappers.dfy` (`Wrappers`): `Option`, standing for `undefined`.
- `js_text.dfy` (`JsText`): ECMAScript `trim`, `length` in UTF-16 code units,
  and `startsWith`.
- `pool.dfy` (`Pool`): loading the data set, building the pool, the
  avoid-the-previous pick, and the category badge.
- `personal_list.dfy` (`PersonalList`): reading, adding to and removing from
  the stored personal list.
- `cache_storage.dfy` (`CacheStorage`): named caches in creation order. This
  follows the Cache and CacheStorage interfaces of section 5.4 and 5.5 of the
  W3C Service Workers specification.
- `service_worker.dfy` (`ServiceWorker`): the install, activate, fetch and
  notification-click handlers. Each handler is one atomic transition of the
  cache storage.

Modelling choices:

- **Object identity.** The source compares with `===`, which is object identity
  (app.js:61). A pool `Item` records its `Origin` to stand for that identity.
  Built-in entries are the same objects on every call. Personal entries are
  rebuilt on every call (app.js:45), so they are never `===` to the entry shown
  before. As a result, a personal text can be shown twice in a row
  (`PersonalTextCanRepeat`).
- **Randomness.** `Math.random()` is injected as a sequence of reals in
  `[0, 1)`. The index is `Floor(r * n)`, as at app.js:60. When the injected
  values run out before the loop would stop, the pick is `OutOfDraws`.
- **Stored list.** The stored personal record is `Missing`, `Unparsable`, or a
  parsed JSON value. That value is an array of strings or something else.
  Writing the list back (`JSON.stringify`) yields a record that reads back as
  the same list.
- **Network.** A network answer is `Delivered(response)` or `NetworkError`.
  The install handler receives the network as a function from URL to answer.
- **URLs.** The worker is served from a directory URL `base`. The relative
  URLs in sw.js (`./index.html` and the rest) are resolved against it, so the
  install handler stores each asset under the same absolute URL that a
  request for it carries.
- **Cache version.** The handlers take the cache name as a parameter, so an
  upgrade from one version to another can be stated. The shipped worker uses
  `CacheName`, `"affirmations-v1.0.4"`.

Behaviour of app.js and sw.js that the model keeps as written:

- **Install failure.** In sw.js, `caches.open` runs before `addAll`, so a
  failed install can still leave a new, empty cache of the current version.
  No existing cache's contents change.
- **Cache lookup.** The fetch handler of sw.js looks a request up in every
  cache, oldest first, not only in the current one. The same holds for the
  offline shell.
- **Origin test.** The "same origin" test of sw.js:35 is a string-prefix test
  on the request URL. A host whose name merely begins with the worker's host
  name passes it (`PrefixIsNotOriginEquality`).
- **Categories.** app.js filters the pool by the selected category only. It
  has no notion of enabled or disabled categories.
- **Repeats.** In app.js, "differs from the previous selection" is object
  identity, so it holds for built-in entries only.

## Model

| member | source | states |
|---|---|---|
| `JsText.Trim` | app.js:310 | the trimmed text is the infix left after dropping only white space on both sides, and neither starts nor ends with white space |
| `JsText.TrimEmptyIff` | app.js:310-311 | the trimmed text is empty (the `!text` rejection) exactly when the input is all white space |
| `JsText.TrimIdempotent` | app.js:310 | trimming an already trimmed text changes nothing |
| `JsText.Utf16Length` | app.js:311 | `length` counts UTF-16 code units: between one and two per character, and equal to the character count exactly when no character lies beyond the Basic Multilingual Plane |
| `JsText.Utf16LengthOne` | app.js:311 | one character counts as one code unit, or two when it lies beyond the Basic Multilingual Plane |
| `JsText.Utf16LengthAppend` | app.js:311 | the count of joined texts is the sum of their counts, so `length` is the sum of every character's code units |
| `Pool.LoadAffirmations` | app.js:19-33 | a fetched data set is used as is; a failed load gives the two-entry fallback whose one category is registered |
| `Pool.PersonalItems` | app.js:45 | personal texts become items of category "personal", in stored order |
| `Pool.FilterCategory` | app.js:49-51 | the filter keeps exactly the items of the selected category, and is empty exactly when none has it |
| `Pool.FilterAppend` | app.js:50 | filtering a concatenation is concatenating the filtered parts, so the filter keeps order and multiplicity |
| `Pool.FilterSingle` | app.js:50 | a single item is kept exactly when its category is the selected one |
| `Pool.BuildPool` | app.js:40-55 | with "all", the pool is the built-in list followed by every personal text tagged "personal", in stored order; with another category that some candidate has, it is exactly the built-in items of that category followed by the personal ones, in order; when no candidate has it, it is exactly the built-in list, with no personal entry |
| `Pool.PoolEmptyIff` | app.js:40-55 | the pool is empty exactly when there are no built-in entries and the selection admits no personal entry; so a non-empty built-in list gives a non-empty pool |
| `Pool.PoolDistinct` | app.js:40-55 | no two pool items are the same object |
| `Pool.IsPrevious` | app.js:61 | a personal item is never the previous object; a built-in item is exactly when the previous selection is that same built-in entry |
| `Pool.PersonalChosenOnFirstDraw` | app.js:58-61 | when the first draw lands on a personal item, that item is chosen at once |
| `Pool.AlternativeExists` | app.js:57-61 | a pool of two or more distinct objects always has an item other than the previous one |
| `Pool.DrawIndex` | app.js:60 | `Math.floor(Math.random() * n)` is a valid index of a non-empty pool |
| `Pool.Pick` | app.js:57-61 | a chosen item is in the pool; when the pool has two or more items, it is not the object shown before; the result is `undefined` exactly for an empty pool |
| `Pool.PickIsFirstAccepted` | app.js:58-61 | the pick is the item drawn by the first random value that ends the loop |
| `Pool.PickRunsOut` | app.js:58-61 | when no random value ends the loop, no item is chosen |
| `Pool.DisplayName` | app.js:70-72 | "personal" shows the personal label; another key shows its registered non-empty name, else the key itself; the badge is empty only for an empty key |
| `Pool.ShowRandomAffirmation` | app.js:40-72 | something is shown exactly when the pick chooses an item, and it is that item; it comes from the pool, is not the previous object when the pool has two or more items, and carries its category's display name |
| `Pool.BadgeIsRegisteredName` | app.js:70-72 | when every built-in entry's category is registered with a non-empty name, the badge is a registered name or the personal label, never a raw key |
| `Pool.PersonalTextCanRepeat` | app.js:43-61 | the same personal text can be shown on two consecutive presses, because personal entries are rebuilt each time |
| `PersonalList.ReadPersonal` | app.js:298-306 | the stored array is returned unchanged; a missing, unparsable or non-array record reads as the empty list |
| `PersonalList.WritePersonal` | app.js:318-319 | a written list reads back as itself |
| `PersonalList.AddPersonal` | app.js:308-319 | an empty or over-200-unit trimmed text is ignored; with 50 or more entries nothing is added; otherwise the trimmed text is appended; a refused addition leaves the record untouched |
| `PersonalList.SpliceStart` | app.js:327 | `splice` starts at an in-range index itself and counts a negative index from the end; an index past the end starts at the end, one before the start starts at 0 |
| `PersonalList.SpliceOne` | app.js:327 | `splice(index, 1)` at a start inside the list removes exactly that entry, keeping earlier ones and shifting later ones down; a start at the end changes nothing |
| `PersonalList.RemovePersonal` | app.js:325-328 | the list is always written back; an in-range removal shortens it by one; an index at or past the end changes nothing |
| `PersonalList.RemoveInRange` | app.js:325-328 | removing an in-range index deletes exactly that entry: earlier entries stay, later ones shift down by one, the multiset loses only that entry |
| `PersonalList.RemoveFromEnd` | app.js:327 | a negative index removes the entry that many places from the end |
| `PersonalList.RemoveUndoesAdd` | app.js:308-328 | removing the entry just added restores the previous list |
| `PersonalList.AddKeepsWellFormed` | app.js:310-319 | adding keeps the list at most 50 long with every entry non-empty and at most 200 units |
| `PersonalList.RemoveKeepsWellFormed` | app.js:325-328 | removing keeps those bounds |
| `PersonalList.FullListRefuses` | app.js:313-317 | with 50 entries, an addition leaves 50 entries |
| `CacheStorage.Open` | sw.js:14 | opening reuses an existing cache, or creates an empty one placed last in creation order; no other cache changes |
| `CacheStorage.SetCache` | sw.js:14 | the batch store of `addAll` replaces one cache's contents and no other cache |
| `CacheStorage.Put` | sw.js:37 | after a put, the URL maps to the response, other entries and caches are unchanged, and nothing else is added |
| `CacheStorage.MatchIn` | sw.js:32 | a match is found exactly when some cache holds the URL, and it is that cache's response |
| `CacheStorage.MatchInFirst` | sw.js:32 | of several caches holding the URL, the oldest one answers |
| `CacheStorage.Match` | sw.js:32 | `caches.match` succeeds exactly when some cache holds the URL, and returns a stored response for it |
| `CacheStorage.RemoveNameAppend` | sw.js:23 | dropping a name from a concatenation drops it from each part, so the other names keep their order |
| `CacheStorage.Delete` | sw.js:23 | deleting removes exactly that cache, leaves the others' contents unchanged, and keeps the others in creation order |
| `CacheStorage.DeleteAll` | sw.js:22-24 | after deleting a list of names, exactly the other caches remain, with unchanged contents |
| `ServiceWorker.Resolve` | sw.js:2-14 | a relative URL of the worker resolves to a URL under the worker's directory; `./path` becomes that directory followed by `path` |
| `ServiceWorker.AssetsWithinOrigin` | sw.js:2-14 | when the worker's directory lies within its origin, so does every asset URL |
| `ServiceWorker.StoreAll` | sw.js:14 | `addAll`'s store maps every asset to its fetched response and keeps the other entries |
| `ServiceWorker.Install` | sw.js:1-17 | storage quota aside, install succeeds exactly when every asset fetch gives an acceptable response; then every asset is in the versioned cache under its resolved URL, and the versioned cache holds nothing but the assets and its earlier entries; otherwise no cache's contents change; other caches are untouched either way |
| `ServiceWorker.StaleNames` | sw.js:23 | the stale names are exactly the cache names other than the current one |
| `ServiceWorker.Activate` | sw.js:19-27 | after activation only the current cache can remain, and its contents are unchanged |
| `ServiceWorker.ActivateIdempotent` | sw.js:22-24 | activating twice is activating once |
| `ServiceWorker.MatchRequest` | sw.js:32 | a request other than GET matches nothing; a GET matches by URL across all caches |
| `ServiceWorker.Puttable` | sw.js:37 | `cache.put` stores only GET requests with an http(s) URL; every GET within an http(s) origin qualifies |
| `ServiceWorker.ShouldStore` | sw.js:35 | a response is copied only when its status is 200 and the request URL is the origin text followed by more text, and always then |
| `ServiceWorker.PrefixIsNotOriginEquality` | sw.js:35 | a URL on another host whose name extends the worker's host name passes the origin test |
| `ServiceWorker.StoreResponse` | sw.js:35-38 | the versioned cache is opened and gets the response under the request URL when the put is allowed; no other cache or entry changes |
| `ServiceWorker.HandleFetch` | sw.js:30-47 | a hit is returned with no network use and no change; a miss uses the network and returns its response; only a 200 response whose URL starts with the origin is stored; offline, a page gets the cached shell at its resolved URL and other requests get nothing, with caches unchanged |
| `ServiceWorker.UpgradeLeavesOneCache` | sw.js:1-27 | a successful install of a new version followed by activation leaves exactly one cache, the new one |
| `ServiceWorker.UpgradeKeepsAssets` | sw.js:1-27 | after a successful install and activation, every asset is in the remaining cache with its fetched response |
| `ServiceWorker.AssetsServedAfterUpgrade` | sw.js:1-33 | after a successful install and activation, a GET of any asset URL is answered from the cache with the response fetched at install, without the network |
| `ServiceWorker.FetchKeepsEntries` | sw.js:30-47 | a fetch never loses a cache or any entry other than the one at the request's URL |
| `ServiceWorker.StoredResponseIsServed` | sw.js:32-39 | a response stored on a miss is what the next fetch of that request gets, from the cache and without the network |
| `ServiceWorker.OfflineNavigationAnswered` | sw.js:41-45 | with only the current cache holding the shell, an offline page navigation always gets a response |
| `ServiceWorker.ShellIsAsset` | sw.js:2-9 | the offline shell is one of the installed assets |
| `ServiceWorker.OfflineNavigationGetsShell` | sw.js:1-45 | after a successful install and activation, an offline navigation not cached itself gets the shell fetched at install |
| `ServiceWorker.NotificationClick` | sw.js:86-96 | the first open window is focused, leaving the windows as they were, exactly when there is one; otherwise the start page `./` is opened and becomes the one open window |
| `ServiceWorker.RepeatedClickOpensAtMostOnce` | sw.js:86-96 | two clicks in a row open at most one window: the second always focuses one |

## Left out

- DOM rendering, the fade transitions and `setTimeout` (app.js:66-87), and
  event wiring (app.js:91-154). These are user-interface glue with no decision
  logic.
- The camera, share, clipboard, `prompt`, toast and donate link
  (app.js:157-219). These are platform capabilities.
- Settings save and load (app.js:232-279) and the `UPDATE_REMINDERS` message.
  They copy form values to and from storage, and the worker ignores the
  message.
- The notification permission request (app.js:282-295). It is a platform
  dialog.
- Service-worker registration (app.js:362-370), `skipWaiting` and
  `clients.claim`. They are lifecycle calls with no effect on cache contents.
- Reminders. app.js saves reminder times, but nothing in app.js or sw.js
  fires a reminder.
- The `message` handler and `showNotification` (sw.js:50-83), and the
  closing of the clicked notification (`event.notification.close()`,
  sw.js:87). They depend on the Notification API and on parsing a cached
  response body; the click model covers only the window it focuses or opens.
- Promise timing is not modelled. Each handler is one atomic step, and the
  fire-and-forget `cache.put` (sw.js:37) is a synchronous store.
- URL handling is simplified. Only a leading `./` or a bare path is resolved
  against the worker's directory; `..` segments, absolute paths and
  normalisation are not modelled. There is no fragment stripping, no `Vary`
  handling and no `ignoreSearch` option.
- Only the status of a response is inspected. The type of a response (opaque,
  error) is not modelled.
- The window list is given in `matchAll` order. Which clients `matchAll`
  includes is not modelled.
- A category lookup that hits an inherited property of the registry object
  (such as `toString`) is not modelled. The registry is a plain map.
- Elements of the stored personal array that are not strings are not modelled.
  The array is taken to hold strings.
- A thrown `next.text` after a pick from an empty pool is not modelled. That
  case is the `Undefined` pick, and nothing is shown.
- Pool.Pick: does not promise that the retry loop ends. The source's loop ends with
  probability one. The model only says what happens within a finite sequence
  of random values: the first value that ends the loop decides the pick, and
  otherwise the values run out.
- A throwing `localStorage.setItem` (a quota or security error, app.js:319
  and app.js:328) is not modelled. In the source the list then stays as it
  was and the input is not cleared; the model always stores.
- Unpaired surrogates are not modelled. A JavaScript string may hold a lone
  surrogate code unit, a Dafny string cannot, so `trim` and `length` on such
  text are out of reach.
- ServiceWorker.Install: does not model `addAll` (sw.js:14) failing for a
  storage quota error; the model's install succeeds whenever every fetch is
  acceptable. Likewise `StoreResponse` always stores, while the unawaited
  `cache.put` at sw.js:37 can fail for quota and then stores nothing. Storage
  quotas are a property of the browser, not of the worker.
