/**
 * The offline worker's event handlers, each taken as one atomic transition of
 * the origin's Cache Storage: install stores every asset in the versioned
 * cache or nothing, activate deletes every other cache, fetch answers from
 * the caches first and falls back to the network and then to the cached
 * shell, and a notification click picks the window to bring forward.
 */
module ServiceWorker {
  import opened Wrappers
  import opened JsText
  import opened CacheStorage

  /** Name of the cache of the shipped version of the worker. */
  const CacheName := "affirmations-v1.0.4"

  /** The application shell and its data file, stored on install, as
      written relative to the worker's own location. */
  const Assets: seq<string> :=
    ["./", "./index.html", "./style.css", "./app.js", "./manifest.json", "./data/affirmations.json"]

  /** The cached page served to an offline navigation, relative to the
      worker's location. */
  const ShellUrl := "./index.html"

  /** The page opened by a notification click when no window exists. */
  const StartUrl := "./"

  /** What the network gives for a request: a response, or a network error. */
  datatype NetResult = Delivered(response: Response) | NetworkError

  /** The parts of an intercepted request the worker looks at. */
  datatype Request = Request(url: string, verb: string, destination: string)

  /** An open window of the application. */
  datatype WindowClient = WindowClient(id: nat, url: string)

  /** What a notification click does. */
  datatype ClickAction = Focus(client: WindowClient) | OpenWindow(url: string)

  /** A notification click: what it does, and the open windows afterwards. */
  datatype ClickOutcome = ClickOutcome(action: ClickAction, windows: seq<WindowClient>)

  /** Result of the install handler: the storage afterwards, and whether the
      install promise was fulfilled. */
  datatype InstallResult = InstallResult(storage: Storage, installed: bool)

  /** Result of the fetch handler: the storage afterwards, the response given
      to the page (None is a network error for the page), and whether the
      network was asked. */
  datatype FetchResult = FetchResult(storage: Storage, response: Option<Response>, networkUsed: bool)

  /** A fetched response `cache.addAll` accepts: an ok status (200 to 299)
      other than 206 Partial Content. */
  predicate AddAllAccepts(n: NetResult)
  {
    n.Delivered? && 200 <= n.response.status <= 299 && n.response.status != 206
  }

  /** Resolving a relative URL of the worker's script against `base`, the
      URL of the directory the script is served from (ending in `/`): a
      leading `./` stands for that directory. */
  function Resolve(base: string, path: string): (url: string)
    ensures StartsWith(url, base)
    ensures |path| >= 2 && path[..2] == "./" ==> url == base + path[2..]
  {
    if |path| >= 2 && path[..2] == "./" then base + path[2..] else base + path
  }

  /** The absolute URLs of the assets, in the order of the asset list. */
  function AssetUrls(base: string): (urls: seq<string>)
    ensures |urls| == |Assets|
    ensures forall i :: 0 <= i < |urls| ==> urls[i] == Resolve(base, Assets[i])
  {
    seq(|Assets|, i requires 0 <= i < |Assets| => Resolve(base, Assets[i]))
  }

  /** Every asset fetch gives a response `cache.addAll` accepts. */
  predicate AllAssetsFetched(base: string, net: string -> NetResult)
  {
    forall u :: u in AssetUrls(base) ==> AddAllAccepts(net(u))
  }

  /** When the worker is served from within its origin, every asset URL
      lies within the origin too, so the dynamic caching rule of the fetch
      handler and the install handler use one URL space. */
  lemma AssetsWithinOrigin(base: string, origin: string)
    requires StartsWith(base, origin)
    ensures forall u :: u in AssetUrls(base) ==> StartsWith(u, origin)
  {
    forall u | u in AssetUrls(base)
      ensures StartsWith(u, origin)
    {
      assert StartsWith(u, base);
      assert u[..|base|][..|origin|] == u[..|origin|];
    }
  }

  /** The batch put of `cache.addAll`: every key is stored with its response. */
  function StoreAll(cache: Cache, urls: seq<string>, net: string -> NetResult): (r: Cache)
    requires forall u :: u in urls ==> net(u).Delivered?
    ensures forall u :: u in urls ==> u in r && r[u] == net(u).response
    ensures forall u :: u in cache && u !in urls ==> u in r && r[u] == cache[u]
    ensures forall u :: u in r ==> u in cache || u in urls
    decreases |urls|
  {
    if urls == [] then cache
    else StoreAll(cache[urls[0] := net(urls[0]).response], urls[1..], net)
  }

  /** The install handler: open the versioned cache, then `addAll` the
      assets, which either stores every one of them or, when any fetch fails
      or is refused, stores none. */
  function Install(s: Storage, version: string, base: string, net: string -> NetResult): (r: InstallResult)
    requires Valid(s)
    ensures Valid(r.storage)
    ensures r.installed <==> AllAssetsFetched(base, net)
    ensures r.storage.caches.Keys == s.caches.Keys + {version}
    ensures r.installed ==> forall u :: u in AssetUrls(base) ==>
      u in r.storage.caches[version] && r.storage.caches[version][u] == net(u).response
    ensures r.installed && version in s.caches ==> forall u :: u in s.caches[version] && u !in AssetUrls(base) ==>
      u in r.storage.caches[version] && r.storage.caches[version][u] == s.caches[version][u]
    ensures forall n :: n in s.caches && n != version ==> r.storage.caches[n] == s.caches[n]
    ensures !r.installed ==> forall n :: n in s.caches ==> r.storage.caches[n] == s.caches[n]
    ensures !r.installed && version !in s.caches ==> r.storage.caches[version] == map[]
    ensures forall u :: u in r.storage.caches[version] ==>
      u in AssetUrls(base) || (version in s.caches && u in s.caches[version])
  {
    var ready := Open(s, version);
    if AllAssetsFetched(base, net) then
      InstallResult(SetCache(ready, version, StoreAll(ready.caches[version], AssetUrls(base), net)), true)
    else
      InstallResult(ready, false)
  }

  /** The names of caches other than the current one, in creation order. */
  function StaleNames(names: seq<string>, current: string): (r: seq<string>)
    ensures forall n :: n in r <==> n in names && n != current
    ensures r == [] <==> forall i :: 0 <= i < |names| ==> names[i] == current
  {
    RemoveName(names, current)
  }

  /** The activate handler: delete every cache not named `version`. */
  function Activate(s: Storage, version: string): (r: Storage)
    requires Valid(s)
    ensures Valid(r)
    ensures forall n :: n in r.caches ==> n == version
    ensures version in r.caches <==> version in s.caches
    ensures version in s.caches ==> r.caches[version] == s.caches[version]
  {
    DeleteAll(s, StaleNames(s.names, version))
  }

  /** Activating a second time changes nothing. */
  lemma ActivateIdempotent(s: Storage, version: string)
    requires Valid(s)
    ensures Activate(Activate(s, version), version) == Activate(s, version)
  {
  }

  /** `caches.match(request)`: a request other than GET matches nothing. */
  function MatchRequest(s: Storage, req: Request): (r: Option<Response>)
    requires Valid(s)
    ensures req.verb != "GET" ==> r == None
    ensures req.verb == "GET" ==> r == Match(s, req.url)
  {
    if req.verb != "GET" then None else Match(s, req.url)
  }

  /** The request may be stored by `cache.put`: a GET with an http(s) URL;
      anything else makes the put fail without storing. */
  function Puttable(req: Request): (ok: bool)
    ensures ok ==> req.verb == "GET" && (StartsWith(req.url, "http:") || StartsWith(req.url, "https:"))
    ensures forall origin ::
      (req.verb == "GET" && StartsWith(req.url, origin) && (StartsWith(origin, "http:") || StartsWith(origin, "https:"))) ==> ok
  {
    PrefixesChain(req.url, "http:");
    PrefixesChain(req.url, "https:");
    req.verb == "GET" && (StartsWith(req.url, "http:") || StartsWith(req.url, "https:"))
  }

  /** The dynamic caching rule: a 200 response to a request whose URL begins
      with the worker's origin is copied into the versioned cache. */
  function ShouldStore(req: Request, response: Response, origin: string): (ok: bool)
    ensures ok ==> response.status == 200 && |origin| <= |req.url| && req.url == origin + req.url[|origin|..]
    ensures response.status == 200 && (exists path :: req.url == origin + path) ==> ok
  {
    response.status == 200 && StartsWith(req.url, origin)
  }

  /** A prefix of a prefix is a prefix. */
  lemma PrefixesChain(url: string, scheme: string)
    ensures forall origin :: StartsWith(url, origin) && StartsWith(origin, scheme) ==> StartsWith(url, scheme)
  {
    forall origin | StartsWith(url, origin) && StartsWith(origin, scheme)
      ensures StartsWith(url, scheme)
    {
      assert url[..|origin|][..|scheme|] == url[..|scheme|];
    }
  }

  /** The origin test is a prefix test on the URL text, not a comparison of
      origins: a host whose name merely begins with the worker's host name
      passes it. */
  lemma PrefixIsNotOriginEquality()
    ensures ShouldStore(Request("https://example.org.example.net/x", "GET", ""), Response(200, ""), "https://example.org")
  {
    assert "https://example.org.example.net/x" == "https://example.org" + ".example.net/x";
  }

  /** Storing a network response: the versioned cache is opened (created if
      missing) and the response put under the request's URL when allowed. */
  function StoreResponse(s: Storage, version: string, req: Request, response: Response): (r: Storage)
    requires Valid(s)
    ensures Valid(r)
    ensures r.caches.Keys == s.caches.Keys + {version}
    ensures forall n :: n in s.caches && n != version ==> r.caches[n] == s.caches[n]
    ensures Puttable(req) ==> req.url in r.caches[version] && r.caches[version][req.url] == response
    ensures forall u :: u in r.caches[version] && u != req.url ==>
      version in s.caches && u in s.caches[version] && r.caches[version][u] == s.caches[version][u]
    ensures !Puttable(req) ==> forall u :: u in r.caches[version] ==> version in s.caches && u in s.caches[version]
    ensures version in s.caches ==> forall u :: u in s.caches[version] && u != req.url ==>
      u in r.caches[version] && r.caches[version][u] == s.caches[version][u]
  {
    var ready := Open(s, version);
    if Puttable(req) then Put(ready, version, req.url, response) else ready
  }

  /** The fetch handler: cache first, then the network, then for a page
      navigation the cached shell, resolved against `base`. */
  function HandleFetch(s: Storage, version: string, origin: string, base: string,
                       req: Request, net: NetResult): (r: FetchResult)
    requires Valid(s)
    ensures Valid(r.storage)
    ensures MatchRequest(s, req).Some? ==> r == FetchResult(s, MatchRequest(s, req), false)
    ensures MatchRequest(s, req).None? ==> r.networkUsed
    ensures MatchRequest(s, req).None? && net.Delivered? ==> r.response == Some(net.response)
    ensures MatchRequest(s, req).None? && net.Delivered? && ShouldStore(req, net.response, origin) ==>
      r.storage == StoreResponse(s, version, req, net.response)
    ensures !(net.Delivered? && ShouldStore(req, net.response, origin)) ==> r.storage == s
    ensures MatchRequest(s, req).None? && net.NetworkError? ==>
      r.response == (if req.destination == "document" then Match(s, Resolve(base, ShellUrl)) else None)
    ensures forall n :: n in s.caches && n != version ==> n in r.storage.caches && r.storage.caches[n] == s.caches[n]
  {
    var cached := MatchRequest(s, req);
    if cached.Some? then FetchResult(s, cached, false)
    else match net
      case Delivered(response) =>
        var stored := if ShouldStore(req, response, origin) then StoreResponse(s, version, req, response) else s;
        FetchResult(stored, Some(response), true)
      case NetworkError =>
        FetchResult(s, if req.destination == "document" then Match(s, Resolve(base, ShellUrl)) else None, true)
  }

  /** The notification click: focus the first open window, or open the start
      page, which adds a window with the fresh identifier `newId`. */
  function NotificationClick(clients: seq<WindowClient>, base: string, newId: nat): (r: ClickOutcome)
    ensures r.action.Focus? <==> |clients| > 0
    ensures r.action.Focus? ==> r.action.client == clients[0] && r.windows == clients
    ensures r.action.OpenWindow? ==>
      && r.action.url == Resolve(base, StartUrl)
      && r.windows == clients + [WindowClient(newId, r.action.url)]
    ensures |r.windows| > 0
  {
    if |clients| > 0 then ClickOutcome(Focus(clients[0]), clients)
    else
      var url := Resolve(base, StartUrl);
      ClickOutcome(OpenWindow(url), [WindowClient(newId, url)])
  }

  /** A successful install followed by activation leaves exactly one cache,
      the new version's: an upgrade from any earlier version deletes the old
      cache. */
  lemma UpgradeLeavesOneCache(s: Storage, version: string, base: string, net: string -> NetResult)
    requires Valid(s)
    requires AllAssetsFetched(base, net)
    ensures Activate(Install(s, version, base, net).storage, version).caches.Keys == {version}
  {
  }

  /** After a successful install and activation every asset is held in the
      remaining cache with the response fetched at install. */
  lemma UpgradeKeepsAssets(s: Storage, version: string, base: string, net: string -> NetResult)
    requires Valid(s)
    requires AllAssetsFetched(base, net)
    ensures var a := Activate(Install(s, version, base, net).storage, version);
      forall u :: u in AssetUrls(base) ==> u in a.caches[version] && a.caches[version][u] == net(u).response
  {
  }

  /** After a successful install and activation a GET of any asset URL is
      answered from the cache, with the response fetched at install, and
      the network is not consulted. */
  lemma AssetsServedAfterUpgrade(s: Storage, version: string, base: string, net: string -> NetResult,
                                 origin: string, req: Request, later: NetResult)
    requires Valid(s)
    requires AllAssetsFetched(base, net)
    requires req.verb == "GET" && req.url in AssetUrls(base)
    ensures var a := Activate(Install(s, version, base, net).storage, version);
      HandleFetch(a, version, origin, base, req, later) == FetchResult(a, Some(net(req.url).response), false)
  {
    UpgradeKeepsAssets(s, version, base, net);
  }

  /** The fetch handler never loses a cache entry: every entry of every
      cache other than the one at the request's URL is still there with the
      same response, and no cache disappears. */
  lemma FetchKeepsEntries(s: Storage, version: string, origin: string, base: string,
                          req: Request, net: NetResult)
    requires Valid(s)
    ensures var t := HandleFetch(s, version, origin, base, req, net).storage;
      forall n, u :: n in s.caches && u in s.caches[n] && u != req.url ==>
        n in t.caches && u in t.caches[n] && t.caches[n][u] == s.caches[n][u]
  {
  }

  /** A response the fetch handler stored on a miss is what the next fetch
      of the same request gets, from the cache and without the network. */
  lemma StoredResponseIsServed(s: Storage, version: string, origin: string, base: string,
                               req: Request, response: Response, later: NetResult)
    requires Valid(s)
    requires MatchRequest(s, req).None?
    requires ShouldStore(req, response, origin) && Puttable(req)
    ensures var t := HandleFetch(s, version, origin, base, req, Delivered(response)).storage;
      HandleFetch(t, version, origin, base, req, later) == FetchResult(t, Some(response), false)
  {
  }

  /** With only the current cache left and the shell in it, a page
      navigation is always answered with the network down: from its own
      cache entry if it has one, otherwise with the cached shell. */
  lemma OfflineNavigationAnswered(a: Storage, version: string, origin: string, base: string, req: Request)
    requires Valid(a) && a.caches.Keys == {version} && Resolve(base, ShellUrl) in a.caches[version]
    requires req.destination == "document"
    ensures var r := HandleFetch(a, version, origin, base, req, NetworkError);
      && r.storage == a
      && r.response.Some?
      && (MatchRequest(a, req).None? ==> r.response == Some(a.caches[version][Resolve(base, ShellUrl)]))
  {
  }

  /** The shell page is one of the assets. */
  lemma ShellIsAsset(base: string)
    ensures Resolve(base, ShellUrl) in AssetUrls(base)
  {
    assert AssetUrls(base)[1] == Resolve(base, ShellUrl);
  }

  /** After a successful install and activation the shell rendered offline
      is the page fetched at install. */
  lemma OfflineNavigationGetsShell(s: Storage, version: string, base: string, net: string -> NetResult,
                                   origin: string, req: Request)
    requires Valid(s)
    requires AllAssetsFetched(base, net)
    requires req.destination == "document"
    ensures var a := Activate(Install(s, version, base, net).storage, version);
      var r := HandleFetch(a, version, origin, base, req, NetworkError);
      && r.response.Some?
      && (MatchRequest(a, req).None? ==> net(Resolve(base, ShellUrl)) == Delivered(r.response.value))
  {
    var a := Activate(Install(s, version, base, net).storage, version);
    ShellIsAsset(base);
    UpgradeKeepsAssets(s, version, base, net);
    UpgradeLeavesOneCache(s, version, base, net);
    OfflineNavigationAnswered(a, version, origin, base, req);
  }

  /** Two notification clicks in a row open at most one window: the first
      leaves a window open, so the second focuses it. */
  lemma RepeatedClickOpensAtMostOnce(clients: seq<WindowClient>, base: string, first: nat, second: nat)
    ensures var one := NotificationClick(clients, base, first);
      var two := NotificationClick(one.windows, base, second);
      && two.action.Focus?
      && two.windows == one.windows
      && !(one.action.OpenWindow? && two.action.OpenWindow?)
  {
  }
}
