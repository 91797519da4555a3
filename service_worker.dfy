/**
 * The service worker of the "Lakši Rad" app: how it routes each request
 * (network-first for API calls, cache-first for everything else), how it
 * seeds and garbage-collects its cache generations, and how it turns push,
 * notification-click and background-sync events into effects.
 * Each event handler is one atomic step over the shared cache storage.
 */
module ServiceWorker {
  import opened Wrappers
  import opened CacheStorage

  /** The current cache generation. */
  const CACHE_NAME: string := "laksi-rad-v1.0.0"

  /** The seed manifest stored at install time. */
  const URLS_TO_CACHE: seq<Url> := ["/", "/static/js/bundle.js", "/static/css/main.css", "/manifest.json"]

  /** A URL containing this anywhere is an API call. */
  const API_MARKER: string := "/api/"

  /** The document served when a page navigation can reach neither cache nor network. */
  const OFFLINE_PAGE: Url := "/"

  const SYNC_TAG: string := "background-sync-tasks"

  const DEFAULT_TITLE: string := "Lakši Rad"
  const NOTIFICATION_ICON: string := "/icon-192x192.png"
  const VIBRATE_PATTERN: seq<nat> := [100, 50, 100]

  // ---------------------------------------------------------------------------
  // Strategy choice

  /** `sub` occurs in `s` starting at index `i`. */
  predicate OccursAt(s: string, sub: string, i: int)
  {
    0 <= i && i + |sub| <= |s| && s[i..i + |sub|] == sub
  }

  /** `s.includes(sub)`: a substring test anywhere in `s`, not a prefix test. */
  function Includes(s: string, sub: string): (b: bool)
    ensures b <==> exists i :: OccursAt(s, sub, i)
    decreases |s|
  {
    if sub <= s then
      assert OccursAt(s, sub, 0);
      true
    else if s == [] then false
    else
      IncludesShift(s, sub);
      Includes(s[1..], sub)
  }

  /** Past a first character that does not start `sub`, occurrences of `sub` are those in the rest. */
  lemma IncludesShift(s: string, sub: string)
    requires s != [] && !(sub <= s)
    ensures (exists i :: OccursAt(s, sub, i)) <==> (exists i :: OccursAt(s[1..], sub, i))
  {
    forall i | OccursAt(s, sub, i) ensures OccursAt(s[1..], sub, i - 1) {
      assert i != 0;
      assert s[1..][i - 1..i - 1 + |sub|] == s[i..i + |sub|];
    }
    forall i | OccursAt(s[1..], sub, i) ensures OccursAt(s, sub, i + 1) {
      assert s[1..][i..i + |sub|] == s[i + 1..i + 1 + |sub|];
    }
  }

  datatype Strategy = NetworkFirst | CacheFirst

  /** A request is network-first exactly when "/api/" occurs somewhere in its URL. */
  function StrategyFor(url: Url): (st: Strategy)
    ensures st == NetworkFirst <==> exists i :: OccursAt(url, API_MARKER, i)
    ensures st == CacheFirst <==> forall i :: !OccursAt(url, API_MARKER, i)
  {
    if Includes(url, API_MARKER) then NetworkFirst else CacheFirst
  }

  /** The marker may sit anywhere: after an origin, or deep inside a static path. */
  lemma SubstringNotPrefix()
    ensures StrategyFor("https://example.com/api/tasks") == NetworkFirst
    ensures StrategyFor("/static/api/logo.png") == NetworkFirst
    ensures StrategyFor("/api") == CacheFirst
  {
    assert OccursAt("https://example.com/api/tasks", API_MARKER, 19);
    assert OccursAt("/static/api/logo.png", API_MARKER, 7);
  }

  /** A URL lacking one of the marker's characters is not an API call. */
  lemma MissingCharNotApi(url: Url, c: char)
    requires c in API_MARKER && c !in url
    ensures StrategyFor(url) == CacheFirst
  {
    forall i ensures !OccursAt(url, API_MARKER, i) {
      if OccursAt(url, API_MARKER, i) {
        OccurrenceInside(url, API_MARKER, i);
      }
    }
  }

  /** Every character of an occurrence of `sub` is a character of `s`. */
  lemma OccurrenceInside(s: string, sub: string, i: int)
    requires OccursAt(s, sub, i)
    ensures forall c :: c in sub ==> c in s
  {
    forall c | c in sub ensures c in s {
      var k :| 0 <= k < |sub| && sub[k] == c;
      assert s[i..i + |sub|][k] == s[i + k];
    }
  }

  // ---------------------------------------------------------------------------
  // Fetch

  /**
   * The fetch handler. `response` is what `event.respondWith` settles to
   * (`None`: it resolves to `undefined`, which the browser turns into a
   * network error); `fetched` says whether a network request was issued.
   * Only a GET request is ever matched or stored; a copy `cache.put`
   * refuses leaves the just-opened CACHE_NAME as it was.
   */
  method OnFetch(caches: Caches, request: Request, net: Network) returns (response: Option<Response>, fetched: bool)
    requires caches.Valid()
    modifies caches
    ensures caches.Valid()
    ensures fetched <==> StrategyFor(request.url) == NetworkFirst
                         || Matched(old(caches.order), old(caches.gens), request).None?
    // network-first, network answers: the caller gets that response and a copy is offered to CACHE_NAME
    ensures StrategyFor(request.url) == NetworkFirst && request.url in net ==>
      && response == Some(net[request.url])
      && caches.order == OpenedOrder(old(caches.order), old(caches.gens), CACHE_NAME)
      && caches.gens == if PutAccepts(request, net[request.url])
                        then Stored(old(caches.gens), CACHE_NAME, request.url, net[request.url])
                        else OpenedGens(old(caches.gens), CACHE_NAME)
    // network-first, network fails: whatever any generation holds, or nothing
    ensures StrategyFor(request.url) == NetworkFirst && request.url !in net ==>
      && response == Matched(old(caches.order), old(caches.gens), request)
      && caches.order == old(caches.order) && caches.gens == old(caches.gens)
    // cache-first never writes
    ensures StrategyFor(request.url) == CacheFirst ==>
      caches.order == old(caches.order) && caches.gens == old(caches.gens)
    ensures StrategyFor(request.url) == CacheFirst ==>
      response == match Matched(old(caches.order), old(caches.gens), request)
        case Some(hit) => Some(hit)
        case None =>
          if request.url in net then Some(net[request.url])
          else if request.destination == "document" then Lookup(old(caches.order), old(caches.gens), OFFLINE_PAGE)
          else None
  {
    var url := request.url;
    if StrategyFor(url) == NetworkFirst {
      fetched := true;
      if url in net {
        var original := net[url];
        var copy := original;
        caches.Open(CACHE_NAME);
        var stored := caches.Put(CACHE_NAME, request, copy);
        response := Some(original);
      } else {
        response := caches.Match(request);
      }
    } else {
      var hit := caches.Match(request);
      if hit.Some? {
        response, fetched := hit, false;
      } else {
        fetched := true;
        if url in net {
          response := Some(net[url]);
        } else if request.destination == "document" {
          response := caches.Match(GetRequest(OFFLINE_PAGE));
        } else {
          response := None;
        }
      }
    }
  }

  // ---------------------------------------------------------------------------
  // Lifecycle

  /** Every seed URL resolves with an ok, non-partial response, so `addAll` succeeds. */
  predicate SeedsAvailable(net: Network)
  {
    forall i :: 0 <= i < |URLS_TO_CACHE| ==> URLS_TO_CACHE[i] in net && AddAllAccepts(net[URLS_TO_CACHE[i]])
  }

  /** The seed manifest names no URL twice, so `addAll` never rejects it as a repeated batch. */
  lemma SeedsDistinct()
    ensures Distinct(URLS_TO_CACHE)
  {
    assert URLS_TO_CACHE[1][8] != URLS_TO_CACHE[2][8];
  }

  /**
   * The install handler: opens CACHE_NAME (creating it empty if needed) and
   * adds the whole seed manifest, all or nothing. `installed` is whether the
   * `waitUntil` promise fulfils.
   */
  method OnInstall(caches: Caches, net: Network) returns (installed: bool)
    requires caches.Valid()
    modifies caches
    ensures caches.Valid()
    ensures installed <==> SeedsAvailable(net)
    ensures caches.order == OpenedOrder(old(caches.order), old(caches.gens), CACHE_NAME)
    ensures installed ==> caches.gens == old(caches.gens)[CACHE_NAME := PutAll(EntriesOf(old(caches.gens), CACHE_NAME), URLS_TO_CACHE, net)]
    ensures !installed ==> caches.gens == OpenedGens(old(caches.gens), CACHE_NAME)
  {
    caches.Open(CACHE_NAME);
    SeedsDistinct();
    installed := caches.AddAll(CACHE_NAME, URLS_TO_CACHE, net);
    if installed {
      OpenedThenReplaced(old(caches.gens), CACHE_NAME, PutAll(EntriesOf(old(caches.gens), CACHE_NAME), URLS_TO_CACHE, net));
    }
  }

  /** The generations that survive activation: CACHE_NAME, untouched, if it exists. */
  function Retained(gens: map<string, Entries>): (r: map<string, Entries>)
    ensures r.Keys <= {CACHE_NAME}
    ensures CACHE_NAME in gens <==> CACHE_NAME in r
    ensures CACHE_NAME in gens ==> r[CACHE_NAME] == gens[CACHE_NAME]
  {
    if CACHE_NAME in gens then map[CACHE_NAME := gens[CACHE_NAME]] else map[]
  }

  /** The names `caches.keys()` lists after activation. */
  function RetainedOrder(gens: map<string, Entries>): (r: seq<string>)
    ensures forall n :: n in r <==> n in Retained(gens)
    ensures |r| <= 1
  {
    if CACHE_NAME in gens then [CACHE_NAME] else []
  }

  /** The names that `caches.keys()` listed in `names` and that activation deletes. */
  ghost function StaleIn(names: seq<string>): set<string>
  {
    set n | n in names && n != CACHE_NAME
  }

  /** What is left of the visited names `names` in the creation order: CACHE_NAME, if it was listed. */
  function Kept(names: seq<string>): (r: seq<string>)
    ensures forall n :: n in r <==> n in names && n == CACHE_NAME
  {
    if CACHE_NAME in names then [CACHE_NAME] else []
  }

  /**
   * The activate handler: lists the generations and deletes every one whose
   * name differs from CACHE_NAME, so only the current generation survives.
   */
  method OnActivate(caches: Caches)
    requires caches.Valid()
    modifies caches
    ensures caches.Valid()
    ensures caches.gens == Retained(old(caches.gens))
    ensures caches.order == RetainedOrder(old(caches.gens))
  {
    var cacheNames := caches.Keys();
    DeleteStale(caches, cacheNames);
    RetainedIsMinusStale(old(caches.gens), cacheNames);
  }

  /** The loop of the activate handler over the listed names. */
  method DeleteStale(caches: Caches, cacheNames: seq<string>)
    requires caches.Valid() && cacheNames == caches.order
    modifies caches
    ensures caches.Valid()
    ensures caches.gens == old(caches.gens) - StaleIn(cacheNames)
    ensures caches.order == Kept(cacheNames)
  {
    ghost var gens0 := caches.gens;
    var i := 0;
    assert StaleIn(cacheNames[..0]) == {};
    while i < |cacheNames|
      invariant 0 <= i <= |cacheNames|
      invariant caches.Valid()
      invariant caches.gens == gens0 - StaleIn(cacheNames[..i])
      invariant caches.order == Kept(cacheNames[..i]) + cacheNames[i..]
    {
      DeleteIfStale(caches, gens0, cacheNames, i);
      i := i + 1;
    }
    assert cacheNames[..i] == cacheNames;
  }

  /** One pass of the activate loop: `cacheNames[i]` is deleted unless it is CACHE_NAME. */
  method DeleteIfStale(caches: Caches, ghost gens0: map<string, Entries>, cacheNames: seq<string>, i: nat)
    requires i < |cacheNames| && Distinct(cacheNames) && caches.Valid()
    requires caches.gens == gens0 - StaleIn(cacheNames[..i])
    requires caches.order == Kept(cacheNames[..i]) + cacheNames[i..]
    modifies caches
    ensures caches.Valid()
    ensures caches.gens == gens0 - StaleIn(cacheNames[..i + 1])
    ensures caches.order == Kept(cacheNames[..i + 1]) + cacheNames[i + 1..]
  {
    var name := cacheNames[i];
    ActivateStep(gens0, cacheNames, i);
    if name != CACHE_NAME {
      var _ := caches.Delete(name);
    }
  }

  /** One pass of the activation loop over the distinct names `names`. */
  lemma ActivateStep(gens: map<string, Entries>, names: seq<string>, i: int)
    requires 0 <= i < |names| && Distinct(names)
    ensures names[i] == CACHE_NAME ==>
      && StaleIn(names[..i + 1]) == StaleIn(names[..i])
      && Kept(names[..i]) + names[i..] == Kept(names[..i + 1]) + names[i + 1..]
    ensures names[i] != CACHE_NAME ==>
      && (gens - StaleIn(names[..i])) - {names[i]} == gens - StaleIn(names[..i + 1])
      && Without(Kept(names[..i]) + names[i..], names[i]) == Kept(names[..i + 1]) + names[i + 1..]
  {
    var name := names[i];
    assert names[..i + 1] == names[..i] + [name];
    assert names[i..] == [name] + names[i + 1..];
    assert name !in names[..i] by {
      forall k | 0 <= k < i ensures names[k] != name { }
    }
    if name == CACHE_NAME {
      assert Kept(names[..i]) == [];
    } else {
      assert StaleIn(names[..i + 1]) == StaleIn(names[..i]) + {name};
      assert Kept(names[..i]) + names[i..] == Kept(names[..i]) + [name] + names[i + 1..];
      WithoutMiddle(Kept(names[..i]), name, names[i + 1..]);
    }
  }

  lemma RetainedIsMinusStale(gens: map<string, Entries>, names: seq<string>)
    requires forall n :: n in names <==> n in gens
    ensures gens - StaleIn(names) == Retained(gens)
    ensures Kept(names) == RetainedOrder(gens)
  {
    var r := gens - StaleIn(names);
    assert r.Keys == Retained(gens).Keys;
  }

  /** A second activation deletes nothing more. */
  lemma ActivateIdempotent(gens: map<string, Entries>)
    ensures Retained(Retained(gens)) == Retained(gens)
    ensures RetainedOrder(Retained(gens)) == RetainedOrder(gens)
  {
  }

  /**
   * After activation `caches.match` can only answer from the current
   * generation: entries written only under an older generation are gone.
   */
  lemma {:induction false} ActivatedLookup(gens: map<string, Entries>, key: Url)
    ensures Lookup(RetainedOrder(gens), Retained(gens), key)
         == if key in EntriesOf(gens, CACHE_NAME) then Some(EntriesOf(gens, CACHE_NAME)[key]) else None
  {
    var order := RetainedOrder(gens);
    if order != [] {
      assert order[1..] == [];
    }
  }

  /**
   * Once only the current generation is left, an API response fetched while
   * online is what the same request gets back once the network is gone.
   */
  lemma {:induction false} OnlineThenOffline(gens: map<string, Entries>, key: Url, resp: Response)
    ensures var after := Stored(Retained(gens), CACHE_NAME, key, resp);
            Lookup(RetainedOrder(after), after, key) == Some(resp)
  {
    var after := Stored(Retained(gens), CACHE_NAME, key, resp);
    assert Retained(after) == after;
    ActivatedLookup(after, key);
  }

  /**
   * The upgrade path: the (older) generation `stale` is dropped by
   * activation, so a key held only there is no longer served.
   */
  lemma {:induction false} StaleEntriesUnreachable(gens: map<string, Entries>, stale: string, key: Url)
    requires stale != CACHE_NAME && stale in gens && key in gens[stale]
    requires key !in EntriesOf(gens, CACHE_NAME)
    ensures Lookup(RetainedOrder(gens), Retained(gens), key) == None
  {
    ActivatedLookup(gens, key);
  }

  lemma ApiTasksIsNetworkFirst()
    ensures StrategyFor("/api/tasks") == NetworkFirst
  {
    assert OccursAt("/api/tasks", API_MARKER, 0);
  }

  /** The cache storage after a fresh install with every seed reachable, then activation. */
  method InstallAndActivate(net: Network) returns (caches: Caches)
    requires SeedsAvailable(net)
    ensures fresh(caches) && caches.Valid()
    ensures caches.order == [CACHE_NAME]
    ensures caches.gens == map[CACHE_NAME := PutAll(map[], URLS_TO_CACHE, net)]
  {
    caches := new Caches();
    var installed := OnInstall(caches, net);
    OnActivate(caches);
  }

  /**
   * Offline after install and activation, a style-sheet request is served
   * from the seeded cache without a network call.
   */
  method OfflineStyleSheet(seed: Response) returns (response: Option<Response>, fetched: bool)
    requires AddAllAccepts(seed)
    ensures response == Some(seed) && !fetched
  {
    var net: Network := map u | u in URLS_TO_CACHE :: seed;
    var caches := InstallAndActivate(net);
    ghost var seeded := PutAll(map[], URLS_TO_CACHE, net);

    var css := Request("GET", "/static/css/main.css", "style");
    assert css.url == URLS_TO_CACHE[2];
    MissingCharNotApi(css.url, 'p');
    assert Lookup(caches.order, caches.gens, css.url) == Some(seed) by {
      assert Holds(caches.order, caches.gens, 0, css.url);
    }
    response, fetched := OnFetch(caches, css, map[]);
  }

  /**
   * Offline after install and activation, an API request that was never
   * cached gets no response: no empty success is made up.
   */
  method OfflineUncachedApiCall(seed: Response) returns (response: Option<Response>, fetched: bool)
    requires AddAllAccepts(seed)
    ensures response == None && fetched
  {
    var net: Network := map u | u in URLS_TO_CACHE :: seed;
    var caches := InstallAndActivate(net);
    ghost var seeded := PutAll(map[], URLS_TO_CACHE, net);
    var api := Request("GET", "/api/tasks", "");
    ApiTasksIsNetworkFirst();
    assert api.url !in seeded by {
      assert api.url !in URLS_TO_CACHE;
    }
    LookupOne(caches.gens, CACHE_NAME, api.url);
    response, fetched := OnFetch(caches, api, map[]);
  }

  /**
   * Online, then offline, through the fetch handler: once activation has
   * left only CACHE_NAME, a network-first GET that the network answered is
   * answered with the same response when it is repeated without a network.
   */
  method OnlineThenOfflineFetch(caches: Caches, request: Request, resp: Response)
    returns (online: Option<Response>, offline: Option<Response>)
    requires caches.Valid() && caches.order == [CACHE_NAME]
    requires StrategyFor(request.url) == NetworkFirst && PutAccepts(request, resp)
    modifies caches
    ensures online == Some(resp) && offline == Some(resp)
  {
    var fetched;
    assert CACHE_NAME in caches.gens;
    online, fetched := OnFetch(caches, request, map[request.url := resp]);
    LookupOne(caches.gens, CACHE_NAME, request.url);
    offline, fetched := OnFetch(caches, request, map[]);
  }

  // ---------------------------------------------------------------------------
  // Push notifications

  /** A JSON value, as `event.data.json()` returns it (numbers as integers). */
  datatype Json = JNull | JBool(b: bool) | JNum(n: int) | JStr(s: string) | JArr(items: seq<Json>) | JObj(fields: map<string, Json>)

  /** JavaScript truthiness of a property value (`None` is `undefined`). */
  predicate Truthy(v: Option<Json>)
  {
    match v
    case None => false
    case Some(JNull) => false
    case Some(JBool(b)) => b
    case Some(JNum(n)) => n != 0
    case Some(JStr(s)) => s != ""
    case Some(JArr(_)) => true
    case Some(JObj(_)) => true
  }

  /** Property access `v.key` on a non-null value: only an object has properties. */
  function Property(v: Json, key: string): (r: Option<Json>)
    requires !v.JNull?
    ensures r.Some? <==> v.JObj? && key in v.fields
    ensures r.Some? ==> r.value == v.fields[key]
  {
    if v.JObj? && key in v.fields then Some(v.fields[key]) else None
  }

  /** `event.data`: no payload, or a payload whose text parses as JSON (`Some`) or not (`None`). */
  datatype PushData = NoPayload | Payload(parsed: Option<Json>)

  datatype NotificationAction = NotificationAction(action: string, title: string)

  datatype NotificationOptions = NotificationOptions(
    body: Option<Json>, icon: string, badge: string, vibrate: seq<nat>, data: Json,
    actions: seq<NotificationAction>)

  /** What the push handler does: nothing, throw out of the listener, or show one notification. */
  datatype PushOutcome = NoNotification | Threw | Shown(title: Json, options: NotificationOptions)

  const NOTIFICATION_ACTIONS: seq<NotificationAction> :=
    [NotificationAction("view", "Otvori aplikaciju"), NotificationAction("close", "Zatvori")]

  /** `data.title || 'Lakši Rad'`: the notification title is never falsy. */
  function TitleOf(title: Option<Json>): (t: Json)
    ensures Truthy(Some(t))
    ensures Truthy(title) ==> t == title.value
    ensures !Truthy(title) ==> t == JStr(DEFAULT_TITLE)
  {
    if Truthy(title) then title.value else JStr(DEFAULT_TITLE)
  }

  /** `data.data || {}`: the notification data is never falsy. */
  function DataOf(data: Option<Json>): (d: Json)
    ensures Truthy(Some(d))
    ensures Truthy(data) ==> d == data.value
    ensures !Truthy(data) ==> d == JObj(map[])
  {
    if Truthy(data) then data.value else JObj(map[])
  }

  /** The push handler. */
  function OnPush(data: PushData): (r: PushOutcome)
    ensures r.NoNotification? <==> data.NoPayload?
    ensures r.Threw? <==> data.Payload? && (data.parsed.None? || data.parsed.value.JNull?)
    ensures r.Shown? ==>
      && Truthy(Some(r.title))
      && r.options.actions == NOTIFICATION_ACTIONS
      && r.options.icon == NOTIFICATION_ICON && r.options.badge == NOTIFICATION_ICON
      && r.options.vibrate == VIBRATE_PATTERN
      && r.options.body == Property(data.parsed.value, "body")
      && r.title == TitleOf(Property(data.parsed.value, "title"))
      && r.options.data == DataOf(Property(data.parsed.value, "data"))
  {
    match data
    case NoPayload => NoNotification
    case Payload(None) => Threw
    case Payload(Some(JNull)) => Threw
    case Payload(Some(v)) =>
      var options := NotificationOptions(
        Property(v, "body"), NOTIFICATION_ICON, NOTIFICATION_ICON, VIBRATE_PATTERN,
        DataOf(Property(v, "data")), NOTIFICATION_ACTIONS);
      Shown(TitleOf(Property(v, "title")), options)
  }

  // ---------------------------------------------------------------------------
  // Notification clicks

  datatype ClickEffect = CloseNotification | OpenWindow(url: Url)

  /** The notificationclick handler: the effects it performs, in order. */
  function OnNotificationClick(action: string): (effects: seq<ClickEffect>)
    ensures |effects| >= 1 && effects[0] == CloseNotification
    ensures OpenWindow(OFFLINE_PAGE) in effects <==> action == "view"
    ensures forall e :: e in effects ==> e == CloseNotification || e == OpenWindow(OFFLINE_PAGE)
  {
    [CloseNotification] + if action == "view" then [OpenWindow(OFFLINE_PAGE)] else []
  }

  /** Of the two actions a shown notification offers, the first opens the app and the second only closes. */
  lemma ShownActionsRouting(data: PushData)
    requires OnPush(data).Shown?
    ensures var actions := OnPush(data).options.actions;
            && OnNotificationClick(actions[0].action) == [CloseNotification, OpenWindow(OFFLINE_PAGE)]
            && OnNotificationClick(actions[1].action) == [CloseNotification]
  {
  }

  // ---------------------------------------------------------------------------
  // Background sync

  /** How a promise settles. */
  datatype Settled = Fulfilled | Rejected

  /**
   * `syncTasks`: whatever the reconciliation work in its `try` block does,
   * the `catch` swallows a failure, so the returned promise fulfils.
   */
  function SyncTasks(work: Settled): (r: Settled)
    ensures r == Fulfilled
  {
    match work
    case Fulfilled => Fulfilled
    case Rejected => Fulfilled
  }

  datatype SyncOutcome = NotHandled | WaitedUntil(settled: Settled)

  /** The sync handler: only SYNC_TAG runs `syncTasks`, and the promise it waits on never rejects. */
  function OnSync(tag: string, work: Settled): (r: SyncOutcome)
    ensures r.WaitedUntil? <==> tag == SYNC_TAG
    ensures r.WaitedUntil? ==> r.settled == Fulfilled
  {
    if tag == SYNC_TAG then WaitedUntil(SyncTasks(work)) else NotHandled
  }
}
