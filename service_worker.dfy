/** The offline cache agent of sw.js: a request router, three fetch
    strategies, install/activate lifecycle steps and a control-message
    handler, over a store of named caches.

    The network is an oracle: every `fetch` is replaced by a `Fetched`
    parameter (a response, or a rejected promise). The Cache API is a map
    from cache name to a map from request URL to stored response. */
module ServiceWorker {
  import opened Wrappers
  import opened JsText

  // ---------------------------------------------------------------- data

  const AppVersion: string := "1.0.0"
  const CacheName: string := "dm-tool-cache-v" + AppVersion

  /** Stored on install, all or nothing. */
  const StaticAssets: seq<string> := [
    "./", "./index.html", "./css/style.css", "./js/app.js",
    "./core/state.js", "./manifest.json", "./favicon.ico"
  ]

  /** The path of a database file, `/data/<file>.json`. */
  function DatabasePath(file: string): string {
    "/data/" + file + ".json"
  }

  /** A database file, relative to the agent's scope. */
  function DatabaseAsset(file: string): string {
    "." + DatabasePath(file)
  }

  /** Preloaded on activation, one by one. */
  const DatabaseAssets: seq<string> := [
    DatabaseAsset("monsters/v35_low_cr"), DatabaseAsset("monsters/v35_high_cr"),
    DatabaseAsset("monsters/v5_low_cr"), DatabaseAsset("monsters/v5_high_cr"),
    DatabaseAsset("spells/v35_lvl0"), DatabaseAsset("spells/v35_lvl1"),
    DatabaseAsset("spells/v35_lvl2"), DatabaseAsset("spells/v35_lvl3plus"),
    DatabaseAsset("spells/v5_lvl0"), DatabaseAsset("spells/v5_lvl1"),
    DatabaseAsset("spells/v5_lvl2"), DatabaseAsset("spells/v5_lvl3plus")
  ]

  const StaticExtensions: seq<string> := [".css", ".js", ".html", ".json", ".ico", ".png", ".jpg", ".svg"]

  /** A response: status, the `ETag` header if any, `Content-Type` and body text. */
  datatype Response = Response(status: int, etag: Option<string>, contentType: string, body: string) {
    /** `response.ok`. */
    predicate Ok() {
      200 <= status <= 299
    }

    /** What `cache.put` and `cache.addAll` accept: an ok answer other than
        206 Partial Content, which the Cache API rejects with a TypeError. */
    predicate Storable() {
      Ok() && status != 206
    }
  }

  /** What `fetch` settles to: a response (of any status) or a rejection. */
  datatype Fetched = Got(response: Response) | NetworkError

  predicate FetchedStorable(f: Fetched) {
    f.Got? && f.response.Storable()
  }

  /** An ok answer that `cache.put` throws on: the strategy's catch takes over. */
  predicate PutRejected(f: Fetched) {
    f.Got? && f.response.status == 206
  }

  /** One cache: request URL to stored response. */
  type Cache = map<string, Response>

  /** `caches`: cache name to cache. */
  type Store = map<string, Cache>

  /** An intercepted request: its method (`verb`), its URL (the cache key) and the
      URL's path name. */
  datatype Request = Request(verb: string, url: string, path: string)

  datatype Strategy = Database | StaticAsset | NetworkFirst

  /** The 503 JSON answer of the database strategy when offline. */
  const DatabaseUnavailable: Response :=
    Response(503, None, "application/json", "{\"error\":\"Database non disponibile offline\"}")

  /** The 503 plain-text answer of the other two strategies when offline. */
  const OfflineText: Response :=
    Response(503, None, "text/plain", "Risorsa non disponibile offline")

  // ------------------------------------------------------------- routing

  /** `isStaticAsset`: the path ends with one of the static extensions. */
  predicate IsStaticAsset(path: string) {
    exists ext :: ext in StaticExtensions && EndsWith(path, ext)
  }

  /** The fetch listener's choice of strategy; `None` leaves the request to
      the browser (only `GET` is intercepted). */
  function Route(req: Request): Option<Strategy> {
    if req.verb != "GET" then None
    else if Contains(req.path, "/data/") && EndsWith(req.path, ".json") then Some(Database)
    else if IsStaticAsset(req.path) then Some(StaticAsset)
    else Some(NetworkFirst)
  }

  /** Only `GET` requests are intercepted, and every one of them is. */
  lemma RouteOnlyGet(req: Request)
    ensures Route(req).Some? <==> req.verb == "GET"
  {
  }

  /** A `.json` path under `/data/` goes to the database strategy, whatever
      else it looks like. */
  lemma RouteDataJson(req: Request)
    requires req.verb == "GET"
    requires Contains(req.path, "/data/") && EndsWith(req.path, ".json")
    ensures Route(req) == Some(Database)
  {
  }

  /** A `.json` path outside `/data/` is a static asset, not a database. */
  lemma RouteJsonOutsideData(req: Request)
    requires req.verb == "GET"
    requires EndsWith(req.path, ".json") && !Contains(req.path, "/data/")
    ensures Route(req) == Some(StaticAsset)
  {
    assert StaticExtensions[3] == ".json";
  }

  /** A path ending in `/` (such as the app shell `./`) matches no extension
      and goes network-first. */
  lemma RouteDirectoryIsNetworkFirst(req: Request)
    requires req.verb == "GET"
    requires |req.path| > 0 && req.path[|req.path| - 1] == '/'
    ensures Route(req) == Some(NetworkFirst)
  {
    var p := req.path;
    forall ext | ext in StaticExtensions
      ensures !EndsWith(p, ext)
    {
      assert ext[|ext| - 1] != '/';
    }
    assert !EndsWith(p, ".json") by {
      assert ".json" in StaticExtensions;
    }
  }

  /** Every database file, wherever the application is deployed (`scope` is
      the path of the agent's scope), is served by the database strategy;
      each of `DatabaseAssets` is `DatabaseAsset(file)` for such a file. */
  lemma RouteDatabaseFile(scope: string, file: string, url: string)
    ensures Route(Request("GET", url, scope + DatabasePath(file))) == Some(Database)
  {
    var p := DatabasePath(file);
    assert OccursAt(p, "/data/", 0);
    ContainsInAppend(scope, p, "/data/");
    EndsWithAppend(scope + "/data/" + file, ".json");
    assert scope + p == (scope + "/data/" + file) + ".json";
  }

  /** A path whose only slash is its first character is outside `/data/`. */
  lemma OutsideDataDirectory(name: string)
    requires forall k :: 0 <= k < |name| ==> name[k] != '/'
    ensures !Contains("/" + name, "/data/")
  {
    var p := "/" + name;
    forall i ensures !OccursAt(p, "/data/", i) {
      if OccursAt(p, "/data/", i) {
        SlashEndsDataDirectory(p, i);
        assert false;
      }
    }
  }

  lemma SlashEndsDataDirectory(p: string, i: int)
    requires OccursAt(p, "/data/", i)
    ensures 0 <= i && i + 5 < |p| && p[i + 5] == '/'
  {
    assert p[i + 5] == p[i..i + 6][5];
  }

  /** `/manifest.json` is served as a static asset. */
  lemma RouteManifest(url: string)
    ensures Route(Request("GET", url, "/manifest.json")) == Some(StaticAsset)
  {
    ManifestIsJson();
    ManifestOutsideData();
    RouteJsonOutsideData(Request("GET", url, "/manifest.json"));
  }

  lemma ManifestIsJson()
    ensures EndsWith("/manifest.json", ".json")
  {
    assert "/manifest.json"[9..] == ".json";
  }

  lemma ManifestOutsideData()
    ensures !Contains("/manifest.json", "/data/")
  {
    assert "/manifest.json" == "/" + "manifest.json";
    OutsideDataDirectory("manifest.json");
  }

  // ------------------------------------------------------ store functions

  /** Every stored response is an ok one. */
  ghost predicate CacheOk(c: Cache) {
    forall k :: k in c ==> c[k].Ok()
  }

  ghost predicate AllOk(s: Store) {
    forall n :: n in s ==> CacheOk(s[n])
  }

  /** `t` holds every cache and every key that `s` holds. */
  ghost predicate Extends(s: Store, t: Store) {
    forall n :: n in s ==> n in t && s[n].Keys <= t[n].Keys
  }

  /** `caches.open(name)`: an existing cache is reused, a missing one created
      empty. */
  function Opened(s: Store, name: string): (r: Store)
    ensures name in r && r - {name} == s - {name}
    ensures name in s ==> r == s
    ensures name !in s ==> r[name] == map[]
  {
    if name in s then s else s[name := map[]]
  }

  /** The entries of the current generation (none when it does not exist). */
  function Current(s: Store): Cache {
    if CacheName in s then s[CacheName] else map[]
  }

  /** `cache.put(url, resp)` on the current cache, after opening it. */
  function PutCurrent(s: Store, url: string, resp: Response): (r: Store)
    ensures CacheName in r && r[CacheName] == Current(s)[url := resp]
    ensures r - {CacheName} == s - {CacheName}
  {
    var o := Opened(s, CacheName);
    o[CacheName := o[CacheName][url := resp]]
  }

  lemma PutCurrentKeeps(s: Store, url: string, resp: Response)
    ensures Extends(s, PutCurrent(s, url, resp))
    ensures AllOk(s) && resp.Ok() ==> AllOk(PutCurrent(s, url, resp))
  {
    var r := PutCurrent(s, url, resp);
    forall n | n in s ensures n in r && s[n].Keys <= r[n].Keys {
      if n != CacheName { assert r[n] == (r - {CacheName})[n]; }
    }
    if AllOk(s) && resp.Ok() {
      forall n | n in r ensures CacheOk(r[n]) {
        if n != CacheName { assert r[n] == (s - {CacheName})[n]; }
      }
    }
  }

  lemma OpenedKeeps(s: Store, name: string)
    ensures Extends(s, Opened(s, name))
    ensures AllOk(s) ==> AllOk(Opened(s, name))
  {
    var r := Opened(s, name);
    forall n | n in s ensures n in r && s[n].Keys <= r[n].Keys {
      if n != name { assert r[n] == (r - {name})[n]; }
    }
    if AllOk(s) {
      forall n | n in r ensures CacheOk(r[n]) {
        if n != name { assert r[n] == (s - {name})[n]; }
      }
    }
  }

  /** Opening a cache adds no entry, so what `caches.match` can answer
      after it could be answered before. */
  lemma OpenedFallback(s: Store, name: string, url: string, resp: Response)
    requires IsFallback(Opened(s, name), url, resp)
    ensures IsFallback(s, url, resp)
  {
    var o := Opened(s, name);
    if exists n :: HeldBy(o, n, url, resp) {
      var n :| HeldBy(o, n, url, resp);
      if n != name || name in s {
        assert o[n] == s[n];
        assert HeldBy(s, n, url, resp);
      }
    } else {
      forall n | n in s ensures url !in s[n] {
        assert n in o && o[n] == s[n];
      }
    }
  }

  // ---------------------------------------------------------- activation

  /** The store after the activate handler's clean-up: every cache whose
      name is not `CacheName` is gone; the current one is untouched. */
  function Cleaned(s: Store): (r: Store)
    ensures r.Keys == s.Keys * {CacheName}
    ensures CacheName in s ==> r[CacheName] == s[CacheName]
  {
    map n | n in s && n == CacheName :: s[n]
  }

  /** Cleaning up twice is cleaning up once. */
  lemma CleanedIdempotent(s: Store)
    ensures Cleaned(Cleaned(s)) == Cleaned(s)
  {
  }

  /** The store after `preloadDatabases` on cache `c`: every listed asset
      that is missing and fetches a storable answer is added; nothing present is replaced. */
  function Preloaded(c: Cache, assets: seq<string>, net: string -> Fetched): Cache {
    c + map a | a in assets && a !in c && FetchedStorable(net(a)) :: net(a).response
  }

  /** What preloading promises: nothing present is replaced, an added entry
      is a listed asset that fetched a storable answer, and every listed asset
      that fetches one ends up present; a rejected put stores nothing. */
  lemma PreloadedSpec(c: Cache, assets: seq<string>, net: string -> Fetched)
    ensures var r := Preloaded(c, assets, net);
      && (forall k :: k in c ==> k in r && r[k] == c[k])
      && (forall k :: k in r && k !in c ==> k in assets && FetchedStorable(net(k)) && r[k] == net(k).response)
      && (forall k :: k in assets && FetchedStorable(net(k)) ==> k in r)
  {
  }

  /** One more asset handled by the preload loop. */
  lemma PreloadedSnoc(c: Cache, assets: seq<string>, a: string, net: string -> Fetched)
    ensures var m := Preloaded(c, assets, net);
      Preloaded(c, assets + [a], net) == if a !in m && FetchedStorable(net(a)) then m[a := net(a).response] else m
  {
    var m := Preloaded(c, assets, net);
    var m' := Preloaded(c, assets + [a], net);
    var expected := if a !in m && FetchedStorable(net(a)) then m[a := net(a).response] else m;
    forall k ensures k in m' <==> k in expected {
      assert k in assets + [a] <==> k in assets || k == a;
    }
    assert m'.Keys == expected.Keys;
  }

  /** One turn of the preload loop on the whole store, from `s` to `t`:
      storing the asset when it is missing and fetches a storable answer gives the store
      with one more asset preloaded, and keeps every stored response ok. */
  lemma PreloadStep(o: Store, start: Cache, done: seq<string>, url: string, next: seq<string>,
                    net: string -> Fetched, s: Store, t: Store)
    requires next == done + [url]
    requires s == o[CacheName := Preloaded(start, done, net)] && AllOk(s)
    requires t == if url !in s[CacheName] && FetchedStorable(net(url)) then PutCurrent(s, url, net(url).response) else s
    ensures t == o[CacheName := Preloaded(start, next, net)] && AllOk(t)
  {
    PreloadedSnoc(start, done, url, net);
    if url !in s[CacheName] && FetchedStorable(net(url)) {
      PutCurrentKeeps(s, url, net(url).response);
    }
  }

  /** Preloading a second time, with the same network answers, adds nothing. */
  lemma PreloadedIdempotent(c: Cache, assets: seq<string>, net: string -> Fetched)
    ensures Preloaded(Preloaded(c, assets, net), assets, net) == Preloaded(c, assets, net)
  {
  }

  /** The whole activation: clean-up, then preload into the (possibly new)
      current cache. */
  function Activated(s: Store, net: string -> Fetched): Store {
    var t := Opened(Cleaned(s), CacheName);
    t[CacheName := Preloaded(t[CacheName], DatabaseAssets, net)]
  }

  /** After activation exactly one generation exists, and it still holds
      every entry the current generation held before. */
  lemma ActivatedSingleGeneration(s: Store, net: string -> Fetched)
    ensures Activated(s, net).Keys == {CacheName}
    ensures forall k :: k in Current(s) ==>
              k in Activated(s, net)[CacheName] && Activated(s, net)[CacheName][k] == Current(s)[k]
  {
  }

  /** Activating twice with the same network answers is activating once. */
  lemma ActivatedIdempotent(s: Store, net: string -> Fetched)
    ensures Activated(Activated(s, net), net) == Activated(s, net)
  {
    var a := Activated(s, net);
    ActivatedSingleGeneration(s, net);
    assert Cleaned(a) == a;
    assert Opened(a, CacheName) == a;
    PreloadedIdempotent(Opened(Cleaned(s), CacheName)[CacheName], DatabaseAssets, net);
  }

  // -------------------------------------------------------------- install

  predicate AllStaticStorable(net: string -> Fetched) {
    forall a :: a in StaticAssets ==> FetchedStorable(net(a))
  }

  /** The store after the install handler: `cache.addAll` stores every static
      asset if each of them fetches a storable answer, and none of them
      otherwise (the rejection is swallowed). */
  function Installed(s: Store, net: string -> Fetched): (r: Store)
    ensures CacheName in r && r - {CacheName} == s - {CacheName}
    ensures AllStaticStorable(net) ==> forall a :: a in StaticAssets ==> a in r[CacheName] && r[CacheName][a] == net(a).response
    ensures AllStaticStorable(net) ==> r[CacheName] == Current(s) + map a | a in StaticAssets :: net(a).response
    ensures !AllStaticStorable(net) ==> r[CacheName] == Current(s)
  {
    var o := Opened(s, CacheName);
    if AllStaticStorable(net) then o[CacheName := o[CacheName] + map a | a in StaticAssets :: net(a).response]
    else o
  }

  /** Installing the same manifest twice gives the same store as once. */
  lemma InstalledIdempotent(s: Store, net: string -> Fetched)
    ensures Installed(Installed(s, net), net) == Installed(s, net)
  {
    if AllStaticStorable(net) {
      var added := map a | a in StaticAssets :: net(a).response;
      var c := Current(s);
      assert Installed(s, net)[CacheName] == c + added;
      assert (c + added) + added == c + added;
    }
  }

  /** One failing asset keeps every other one out too: install is not
      isolated per asset. */
  lemma InstallOneFailureStoresNothing(s: Store, net: string -> Fetched, broken: string)
    requires CacheName !in s
    requires broken in StaticAssets && !FetchedStorable(net(broken))
    ensures Installed(s, net)[CacheName] == map[]
  {
  }

  // ----------------------------------------------------------- strategies

  /** What a strategy answers, the store it leaves, and whether it spawned a
      background revalidation. */
  datatype Served = Served(response: Response, store: Store, revalidate: bool)

  /** `serveDatabase`: cache first; on a hit, answer from the cache and ask
      for a revalidation; on a miss, go to the network, store a storable answer,
      answer 503 JSON when the network fails or the put is rejected. */
  function DatabaseStep(s: Store, url: string, net: Fetched): Served {
    var o := Opened(s, CacheName);
    if url in o[CacheName] then Served(o[CacheName][url], o, true)
    else match net
      case NetworkError => Served(DatabaseUnavailable, o, false)
      case Got(r) =>
        if !r.Ok() then Served(r, o, false)
        else if r.Storable() then Served(r, PutCurrent(s, url, r), false)
        else Served(DatabaseUnavailable, o, false)
  }

  /** `serveStaticAsset`: cache first, no revalidation; on a miss the network
      answer that is not ok is returned unstored, a storable one is stored and
      returned, and a failed fetch or a rejected put gives the 503 text. */
  function StaticStep(s: Store, url: string, net: Fetched): Served {
    var o := Opened(s, CacheName);
    if url in o[CacheName] then Served(o[CacheName][url], o, false)
    else match net
      case NetworkError => Served(OfflineText, o, false)
      case Got(r) =>
        if !r.Ok() then Served(r, o, false)
        else if r.Storable() then Served(r, PutCurrent(s, url, r), false)
        else Served(OfflineText, o, false)
  }

  /** The store that `networkFirstWithFallback` leaves: the current cache is
      opened only for an ok network answer, which is then written unless the
      put rejects it. */
  function NetworkFirstStore(s: Store, url: string, net: Fetched): Store {
    if FetchedStorable(net) then PutCurrent(s, url, net.response)
    else if PutRejected(net) then Opened(s, CacheName)
    else s
  }

  /** Cache `n` of `s` holds `resp` for `url`. */
  ghost predicate HeldBy(s: Store, n: string, url: string, resp: Response) {
    n in s && url in s[n] && s[n][url] == resp
  }

  /** `resp` is what `caches.match(url)` can answer: an entry of any cache
      holding `url`, or the 503 text when none does. */
  ghost predicate IsFallback(s: Store, url: string, resp: Response) {
    (exists n :: HeldBy(s, n, url, resp))
    || (resp == OfflineText && forall n :: n in s ==> url !in s[n])
  }

  lemma {:induction false} StrategiesKeep(s: Store, url: string, net: Fetched)
    ensures Extends(s, DatabaseStep(s, url, net).store) && Extends(s, StaticStep(s, url, net).store)
    ensures Extends(s, NetworkFirstStore(s, url, net))
    ensures AllOk(s) ==> AllOk(DatabaseStep(s, url, net).store) && AllOk(StaticStep(s, url, net).store)
    ensures AllOk(s) ==> AllOk(NetworkFirstStore(s, url, net))
  {
    OpenedKeeps(s, CacheName);
    if net.Got? {
      PutCurrentKeeps(s, url, net.response);
    }
  }

  /** A database or static hit answers the stored entry, whatever the network
      would have said, and changes no entry. */
  lemma HitIgnoresNetwork(s: Store, url: string, n1: Fetched, n2: Fetched)
    requires url in Current(s)
    ensures DatabaseStep(s, url, n1) == DatabaseStep(s, url, n2)
    ensures DatabaseStep(s, url, n1).response == Current(s)[url] && DatabaseStep(s, url, n1).revalidate
    ensures StaticStep(s, url, n1) == StaticStep(s, url, n2)
    ensures StaticStep(s, url, n1).response == Current(s)[url] && !StaticStep(s, url, n1).revalidate
    ensures DatabaseStep(s, url, n1).store == s && StaticStep(s, url, n1).store == s
  {
  }

  /** On a database miss: a storable answer is stored and returned, a non-ok
      one returned unstored, a network failure or a rejected put answered
      with the 503 JSON body and nothing stored. */
  lemma DatabaseMiss(s: Store, url: string, net: Fetched)
    requires url !in Current(s)
    ensures var d := DatabaseStep(s, url, net);
      && !d.revalidate
      && (FetchedStorable(net) ==> d.response == net.response && d.store == PutCurrent(s, url, net.response))
      && (net.Got? && !net.response.Ok() ==> d.response == net.response && d.store == Opened(s, CacheName))
      && (PutRejected(net) ==> d.response == DatabaseUnavailable && d.store == Opened(s, CacheName))
      && (net.NetworkError? ==> d.response == DatabaseUnavailable && d.store == Opened(s, CacheName))
      && d.store - {CacheName} == s - {CacheName}
  {
  }

  /** On a static miss: a storable answer is stored and returned, a non-ok
      one returned unstored, a network failure or a rejected put answered
      with the 503 text and nothing stored; no revalidation is ever asked
      for. */
  lemma StaticMiss(s: Store, url: string, net: Fetched)
    requires url !in Current(s)
    ensures var d := StaticStep(s, url, net);
      && !d.revalidate
      && (FetchedStorable(net) ==> d.response == net.response && d.store == PutCurrent(s, url, net.response))
      && (net.Got? && !net.response.Ok() ==> d.response == net.response && d.store == Opened(s, CacheName))
      && (PutRejected(net) ==> d.response == OfflineText && d.store == Opened(s, CacheName))
      && (net.NetworkError? ==> d.response == OfflineText && d.store == Opened(s, CacheName))
      && d.store - {CacheName} == s - {CacheName}
  {
  }

  /** The synthetic answers are not ok, so they could never be stored. */
  lemma SyntheticAnswersNotOk()
    ensures !DatabaseUnavailable.Ok() && DatabaseUnavailable.status == 503
    ensures !OfflineText.Ok() && OfflineText.status == 503
    ensures DatabaseUnavailable.contentType == "application/json" && OfflineText.contentType == "text/plain"
  {
  }

  // --------------------------------------------------------- revalidation

  /** `!cachedETag`: no header, or an empty one. */
  predicate EtagMissing(etag: Option<string>) {
    etag.None? || etag.value == ""
  }

  /** `fetchAndUpdateCache` on cache `c`: a storable network answer replaces the
      entry when the cached ETag is missing or differs from the network's,
      and is added when the entry is gone; otherwise nothing changes. */
  function Revalidated(c: Cache, url: string, net: Fetched): (r: Cache)
    ensures r - {url} == c - {url}
    ensures r == c || (FetchedStorable(net) && r == c[url := net.response])
    ensures FetchedStorable(net) && (url !in c || EtagMissing(c[url].etag) || c[url].etag != net.response.etag)
            ==> r == c[url := net.response]
    ensures !FetchedStorable(net) ==> r == c
    ensures FetchedStorable(net) && url in c && !EtagMissing(c[url].etag) && c[url].etag == net.response.etag ==> r == c
  {
    match net
    case NetworkError => c
    case Got(latest) =>
      if !latest.Storable() then c
      else if url !in c then c[url := latest]
      else if EtagMissing(c[url].etag) || c[url].etag != latest.etag then c[url := latest]
      else c
  }

  /** A second revalidation with the same answer changes nothing more. */
  lemma RevalidatedIdempotent(c: Cache, url: string, net: Fetched)
    ensures Revalidated(Revalidated(c, url, net), url, net) == Revalidated(c, url, net)
  {
  }

  /** The ETag test is plain string equality: a changed body under an
      unchanged, non-empty ETag is not picked up. */
  lemma RevalidationKeepsStaleBody(c: Cache, url: string, latest: Response)
    requires url in c && c[url].etag == Some("v1") && latest.etag == Some("v1")
    requires latest.Ok() && latest.body != c[url].body
    ensures Revalidated(c, url, Got(latest))[url].body == c[url].body
  {
  }

  /** The detached revalidation writes into the current cache object; when
      that cache has been deleted meanwhile, the write is invisible. */
  function AfterRevalidation(s: Store, url: string, net: Fetched): Store {
    if CacheName in s then s[CacheName := Revalidated(s[CacheName], url, net)] else s
  }

  lemma AfterRevalidationKeeps(s: Store, url: string, net: Fetched)
    ensures Extends(s, AfterRevalidation(s, url, net))
    ensures AllOk(s) ==> AllOk(AfterRevalidation(s, url, net))
  {
    var r := AfterRevalidation(s, url, net);
    if CacheName in s {
      forall n | n in s ensures n in r && s[n].Keys <= r[n].Keys {
      }
      if AllOk(s) {
        forall n | n in r ensures CacheOk(r[n]) {
          if n == CacheName {
            var c := s[CacheName];
            assert CacheOk(c);
            forall k | k in r[n] ensures r[n][k].Ok() {
              if k != url { assert r[n][k] == (r[n] - {url})[k] == (c - {url})[k]; }
            }
          }
        }
      }
    }
  }

  // ------------------------------------------------------------ messages

  datatype Reply = ClearCacheReply(success: bool) | CheckUpdateReply(hasUpdate: bool)

  /** `checkForUpdates`: true exactly when the network answered and the
      current cache holds `./` with a different body text. */
  predicate HasUpdate(s: Store, net: Fetched) {
    net.Got? && "./" in Current(s) && Current(s)["./"].body != net.response.body
  }

  // ------------------------------------------------------------ the agent

  /** The service worker's view of `caches`, updated in place. */
  class CacheAgent {
    var caches: Store

    /** Only ok responses are ever stored. */
    ghost predicate Valid()
      reads this
    {
      AllOk(caches)
    }

    constructor (initial: Store)
      requires AllOk(initial)
      ensures Valid() && caches == initial
    {
      caches := initial;
    }

    /** `caches.open(name)`. */
    method Open(name: string)
      requires Valid()
      modifies this
      ensures Valid() && caches == Opened(old(caches), name)
    {
      OpenedKeeps(caches, name);
      if name !in caches {
        caches := caches[name := map[]];
      }
    }

    /** The install handler: open the current cache and `addAll` the static
        assets. */
    method Install(net: string -> Fetched)
      requires Valid()
      modifies this
      ensures Valid() && caches == Installed(old(caches), net)
      ensures Extends(old(caches), caches)
    {
      OpenedKeeps(caches, CacheName);
      Open(CacheName);
      if forall a :: a in StaticAssets ==> FetchedStorable(net(a)) {
        var added := map a | a in StaticAssets :: net(a).response;
        caches := caches[CacheName := caches[CacheName] + added];
        assert CacheOk(caches[CacheName]);
      }
    }

    /** The first half of the activate handler: delete every cache whose name
        is not `CacheName`, one name at a time. */
    method DeleteOldCaches()
      requires Valid()
      modifies this
      ensures Valid() && caches == Cleaned(old(caches))
    {
      var names := caches.Keys;
      while names != {}
        invariant names <= old(caches).Keys
        invariant forall n :: n in caches <==> n in old(caches) && (n in names || n == CacheName)
        invariant forall n :: n in caches ==> caches[n] == old(caches)[n]
        decreases names
      {
        var n :| n in names;
        if n != CacheName {
          caches := caches - {n};
        }
        names := names - {n};
      }
      assert caches.Keys == Cleaned(old(caches)).Keys;
    }

    /** `preloadDatabases`: fetch each database asset missing from the
        current cache and store it when the answer is storable; failures are
        skipped. */
    method PreloadDatabases(net: string -> Fetched)
      requires Valid()
      modifies this
      ensures Valid()
      ensures var o := Opened(old(caches), CacheName);
        caches == o[CacheName := Preloaded(o[CacheName], DatabaseAssets, net)]
    {
      Open(CacheName);
      PreloadEach(DatabaseAssets, net);
    }

    /** The loop of `preloadDatabases`, over any list of assets, on an open
        current cache. */
    method PreloadEach(assets: seq<string>, net: string -> Fetched)
      requires Valid() && CacheName in caches
      modifies this
      ensures Valid()
      ensures caches == old(caches)[CacheName := Preloaded(old(caches)[CacheName], assets, net)]
    {
      ghost var o := caches;
      ghost var start := caches[CacheName];
      assert Preloaded(start, assets[..0], net) == start;
      assert o[CacheName := start] == o;
      var i := 0;
      while i < |assets|
        invariant 0 <= i <= |assets|
        invariant caches == o[CacheName := Preloaded(start, assets[..i], net)]
        invariant Valid()
      {
        var url := assets[i];
        ghost var before := caches;
        if url !in caches[CacheName] && FetchedStorable(net(url)) {
          caches := PutCurrent(caches, url, net(url).response);
        }
        assert assets[..i + 1] == assets[..i] + [url];
        PreloadStep(o, start, assets[..i], url, assets[..i + 1], net, before, caches);
        i := i + 1;
      }
      assert assets[..i] == assets;
    }

    /** The activate handler: clean-up, then preload. */
    method Activate(net: string -> Fetched)
      requires Valid()
      modifies this
      ensures Valid() && caches == Activated(old(caches), net)
      ensures caches.Keys == {CacheName}
    {
      DeleteOldCaches();
      PreloadDatabases(net);
      ActivatedSingleGeneration(old(caches), net);
    }

    /** `serveDatabase`. */
    method ServeDatabase(req: Request, net: Fetched) returns (resp: Response, revalidate: bool)
      requires Valid()
      modifies this
      ensures Valid() && Extends(old(caches), caches)
      ensures Served(resp, caches, revalidate) == DatabaseStep(old(caches), req.url, net)
    {
      StrategiesKeep(caches, req.url, net);
      ghost var s := caches;
      Open(CacheName);
      var cache := caches[CacheName];
      if req.url in cache {
        return cache[req.url], true;
      }
      revalidate := false;
      match net {
        case NetworkError =>
          resp := DatabaseUnavailable;
        case Got(r) =>
          resp := r;
          if r.Ok() {
            if r.Storable() {
              caches := caches[CacheName := caches[CacheName][req.url := r]];
            } else {
              resp := DatabaseUnavailable;
            }
          }
      }
    }

    /** `serveStaticAsset`. */
    method ServeStaticAsset(req: Request, net: Fetched) returns (resp: Response)
      requires Valid()
      modifies this
      ensures Valid() && Extends(old(caches), caches)
      ensures Served(resp, caches, false) == StaticStep(old(caches), req.url, net)
    {
      StrategiesKeep(caches, req.url, net);
      Open(CacheName);
      var cache := caches[CacheName];
      if req.url in cache {
        return cache[req.url];
      }
      match net {
        case NetworkError =>
          resp := OfflineText;
        case Got(r) =>
          resp := r;
          if r.Ok() {
            if r.Storable() {
              caches := caches[CacheName := caches[CacheName][req.url := r]];
            } else {
              resp := OfflineText;
            }
          }
      }
    }

    /** `caches.match(url)`: an entry for `url` from any cache. Which cache
        answers when several hold the URL is left open. */
    method MatchAny(url: string) returns (found: Option<Response>)
      ensures found.Some? ==> exists n :: HeldBy(caches, n, url, found.value)
      ensures found.None? ==> forall n :: n in caches ==> url !in caches[n]
    {
      if n :| n in caches && url in caches[n] {
        found := Some(caches[n][url]);
        assert HeldBy(caches, n, url, found.value);
      } else {
        found := None;
      }
    }

    /** `networkFirstWithFallback`. */
    method NetworkFirstWithFallback(req: Request, net: Fetched) returns (resp: Response)
      requires Valid()
      modifies this
      ensures Valid() && Extends(old(caches), caches)
      ensures caches == NetworkFirstStore(old(caches), req.url, net)
      ensures net.Got? && !PutRejected(net) ==> resp == net.response
      ensures net.NetworkError? || PutRejected(net) ==> IsFallback(old(caches), req.url, resp)
    {
      StrategiesKeep(caches, req.url, net);
      match net {
        case Got(r) =>
          resp := r;
          if r.Ok() {
            Open(CacheName);
            if r.Storable() {
              caches := caches[CacheName := caches[CacheName][req.url := r]];
            } else {
              resp := Fallback(req.url);
              OpenedFallback(old(caches), CacheName, req.url, resp);
            }
          }
        case NetworkError =>
          resp := Fallback(req.url);
      }
    }

    /** The catch of `networkFirstWithFallback`: `caches.match`, or the 503
        text when no cache holds the URL. */
    method Fallback(url: string) returns (resp: Response)
      ensures IsFallback(caches, url, resp)
    {
      var found := MatchAny(url);
      resp := if found.Some? then found.value else OfflineText;
    }

    /** `fetchAndUpdateCache`, run as its own step after the response it was
        detached from. */
    method FetchAndUpdateCache(url: string, net: Fetched)
      requires Valid()
      modifies this
      ensures Valid() && Extends(old(caches), caches)
      ensures caches == AfterRevalidation(old(caches), url, net)
    {
      AfterRevalidationKeeps(caches, url, net);
      if CacheName !in caches {
        return;
      }
      if net.Got? && net.response.Storable() {
        var latest := net.response;
        var cache := caches[CacheName];
        if url in cache {
          var cachedEtag := cache[url].etag;
          if EtagMissing(cachedEtag) || cachedEtag != latest.etag {
            caches := caches[CacheName := cache[url := latest]];
          }
        } else {
          caches := caches[CacheName := cache[url := latest]];
        }
      }
    }

    /** The fetch listener: route the request, run its strategy, and then
        the background revalidation a database hit asked for. `net` is the
        strategy's own fetch, `background` the revalidation's. */
    method HandleFetch(req: Request, net: Fetched, background: Fetched) returns (resp: Option<Response>)
      requires Valid()
      modifies this
      ensures Valid() && Extends(old(caches), caches)
      ensures resp.None? <==> Route(req).None?
      ensures Route(req).None? ==> caches == old(caches)
      ensures Route(req) == Some(Database) ==>
        var d := DatabaseStep(old(caches), req.url, net);
        resp == Some(d.response)
        && caches == if d.revalidate then AfterRevalidation(d.store, req.url, background) else d.store
      ensures Route(req) == Some(StaticAsset) ==>
        var d := StaticStep(old(caches), req.url, net);
        resp == Some(d.response) && caches == d.store
      ensures Route(req) == Some(NetworkFirst) ==>
        && caches == NetworkFirstStore(old(caches), req.url, net)
        && resp.Some?
        && (net.Got? && !PutRejected(net) ==> resp.value == net.response)
        && (net.NetworkError? || PutRejected(net) ==> IsFallback(old(caches), req.url, resp.value))
    {
      match Route(req) {
        case None =>
          resp := None;
        case Some(Database) =>
          var r, revalidate := ServeDatabase(req, net);
          resp := Some(r);
          if revalidate {
            FetchAndUpdateCache(req.url, background);
          }
        case Some(StaticAsset) =>
          var r := ServeStaticAsset(req, net);
          resp := Some(r);
        case Some(NetworkFirst) =>
          var r := NetworkFirstWithFallback(req, net);
          resp := Some(r);
      }
    }

    /** `checkForUpdates`: fetch `./` bypassing the cache and compare its text
        with the cached copy; a network failure answers false. */
    method CheckForUpdates(net: Fetched) returns (hasUpdate: bool)
      requires Valid()
      modifies this
      ensures Valid()
      ensures hasUpdate == HasUpdate(old(caches), net)
      ensures caches == if net.Got? then Opened(old(caches), CacheName) else old(caches)
    {
      if net.NetworkError? {
        return false;
      }
      Open(CacheName);
      var cache := caches[CacheName];
      if "./" !in cache {
        return false;
      }
      hasUpdate := cache["./"].body != net.response.body;
    }

    /** The message listener. `messageType` is `event.data.type` (`None`
        when there is no data); the reply is what is posted on the first
        port. `net` is the fetch of `checkForUpdates`. */
    method HandleMessage(messageType: Option<string>, net: Fetched) returns (reply: Option<Reply>)
      requires Valid()
      modifies this
      ensures Valid()
      ensures messageType == Some("CLEAR_CACHE") ==>
        caches == old(caches) - {CacheName} && reply == Some(ClearCacheReply(true))
      ensures messageType == Some("CHECK_UPDATE") ==>
        reply == Some(CheckUpdateReply(HasUpdate(old(caches), net)))
        && caches == if net.Got? then Opened(old(caches), CacheName) else old(caches)
      ensures messageType != Some("CLEAR_CACHE") && messageType != Some("CHECK_UPDATE") ==>
        reply == None && caches == old(caches)
    {
      reply := None;
      if messageType == Some("CLEAR_CACHE") {
        caches := caches - {CacheName};
        reply := Some(ClearCacheReply(true));
      } else if messageType == Some("CHECK_UPDATE") {
        var hasUpdate := CheckForUpdates(net);
        reply := Some(CheckUpdateReply(hasUpdate));
      }
    }
  }

  /** After `CLEAR_CACHE` nothing of the current generation is left, so the
      next database or static request is a miss: its answer is the
      network's, or the strategy's 503 answer when the network fails or the
      put rejects the answer, and no
      revalidation is started. */
  lemma ClearCacheForcesMiss(s: Store, url: string, net: Fetched)
    ensures var t := s - {CacheName};
      && DatabaseStep(t, url, net).response == (if net.Got? && !PutRejected(net) then net.response else DatabaseUnavailable)
      && StaticStep(t, url, net).response == (if net.Got? && !PutRejected(net) then net.response else OfflineText)
      && !DatabaseStep(t, url, net).revalidate
  {
    var t := s - {CacheName};
    assert Current(t) == map[];
    DatabaseMiss(t, url, net);
    StaticMiss(t, url, net);
  }
}
