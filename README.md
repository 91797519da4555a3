# Lakši Rad: offline service worker, task store and client list updates

This project models three pieces of the Lakši Rad to-do application:

- **The service worker** (`frontend/public/sw.js`).
  - It picks a strategy per request: network-first for every URL that contains `/api/`, cache-first for the rest.
  - Install seeds the versioned cache `laksi-rad-v1.0.0` with four URLs.
  - Activate deletes every other cache generation.
  - It also handles push, notification-click and background-sync events.
- **The task store behind the REST API** (`backend/server.py`): create with defaults, partial update, delete, the statistics endpoint and the newest-first listing.
- **The browser client's local list updates and form guard** (`frontend/src/App.js`).

Files:

| file | what it holds |
|---|---|
| `wrappers.dfy` | `Option` and `Result` |
| `cache_storage.dfy` | the browser's Cache Storage as the class `Caches`, plus pure functions that describe its states |
| `service_worker.dfy` | the worker's constants, the strategy test and the event handlers, plus lemmas about install, activate and offline serving |
| `task_server.dfy` | the task collection as the class `TaskCollection`, plus the pure update, statistics and listing functions |
| `task_client.dfy` | the client reducers, the status toggle and `String.prototype.trim` |

### How the platform is represented

**The cache store** is a class with two fields:

- `order` lists the generation names in creation order, which is the order `caches.keys()` reports.
- `gens` maps each name to its entries, keyed by URL.

Platform behaviour built into the model:

- `caches.match` returns the entry from the first generation, in creation order, that holds the key. So before activation an older generation can answer.
- `cache.put` stores only GET requests and never a 206 response. A request with any other method is also never matched.
- `cache.addAll` stores all of its URLs or none. It fails unless every fetch resolves ok (200–299) and not 206, and it also fails, storing nothing, when the batch names the same URL twice (the platform's InvalidStateError for a repeated request). The seed manifest names four different URLs (`ServiceWorker.SeedsDistinct`).
- `caches.open` creates its generation whether or not a later `addAll` succeeds. So a failed install leaves every entry as it was, but `laksi-rad-v1.0.0` may now exist, empty.

**The network** is a map from URL to response. A URL missing from the map stands for a fetch that rejects. A fetch handler also reports whether it issued a network request.

**On the server side:**

- The collection is a sequence of tasks in insertion order with pairwise-distinct ids.
- `uuid4` is an id passed in by the caller. `CreateTask` requires that this id is not already in the collection.
- `datetime.utcnow` readings are timestamp parameters.

### Where the code's behaviour is followed over the design intent

Each point below says what the code does, which the model follows.

- The strategy test is a substring test anywhere in the full URL, not a prefix test on the path. `SubstringNotPrefix` shows both kinds of example: one URL with an origin in front of `/api/`, and one static path with `/api/` deep inside.
- The offline fallback searches every generation, not only the current one.
- A network-first response to a POST, PUT or DELETE call is returned, but `cache.put` refuses to store it.
- After activation at most one generation remains. It is CACHE_NAME if that generation existed.
- A push payload is decoded with `event.data.json()` and read as `data.body` without a guard. A payload that is not JSON makes `json()` throw, and a payload of `null` makes the `data.body` read throw. The listener then throws and shows nothing; `OnPush` returns `Threw` for both.

## Model

| member | source | states |
|---|---|---|
| CacheStorage.Lookup | frontend/public/sw.js:40 | `caches.match` on a URL: no response exactly when no generation holds the key; otherwise the entry of the first generation, in creation order, that holds it |
| CacheStorage.Matched | frontend/public/sw.js:46 | a request other than GET matches nothing; a GET request gets what `Lookup` finds for its URL |
| CacheStorage.GetRequest | frontend/public/sw.js:54 | `caches.match('/')` matches a GET request for that URL |
| CacheStorage.OpenedOrder | frontend/public/sw.js:13 | opening a generation appends its name to the creation order once, and only when it is new |
| CacheStorage.OpenedGens | frontend/public/sw.js:13 | opening a generation adds it empty when missing and leaves every existing generation unchanged |
| CacheStorage.Stored | frontend/public/sw.js:33 | a put writes exactly that key into that generation (last write wins); every other key and every other generation keeps its entries |
| CacheStorage.PutAll | frontend/public/sw.js:16 | the entries after a successful `addAll`: every listed URL maps to its fetched response, and every other key keeps its entry |
| CacheStorage.IndexOf | frontend/public/sw.js:69 | the position of the first occurrence of a name in the creation order |
| CacheStorage.Without | frontend/public/sw.js:69 | the creation order after a delete: one name shorter when the name was listed, unchanged when it was not |
| CacheStorage.WithoutIndex | frontend/public/sw.js:69 | the names before the deleted one keep their positions; those after it move up by one |
| CacheStorage.WithoutDistinct | frontend/public/sw.js:69 | deleting from a repetition-free creation order keeps it repetition-free |
| CacheStorage.WithoutMembers | frontend/public/sw.js:69 | deleting from a repetition-free creation order removes exactly that name |
| CacheStorage.WithoutMiddle | frontend/public/sw.js:69 | deleting a name that sits between `a` and `b`, and not in `a`, leaves `a + b` |
| CacheStorage.PutAllStep | frontend/public/sw.js:16 | storing one more URL of the batch is one more put on the entries so far |
| CacheStorage.OpenedThenReplaced | frontend/public/sw.js:13-16 | replacing the entries of an opened generation is the same as replacing them in the store before it was opened |
| CacheStorage.Caches.Open | frontend/public/sw.js:13 | `caches.open`: the new store state is `OpenedOrder` / `OpenedGens` of the old one |
| CacheStorage.Caches.Put | frontend/public/sw.js:31-34 | `cache.put`: stores exactly when the request is GET and the response is not 206; otherwise the store is unchanged |
| CacheStorage.Caches.Match | frontend/public/sw.js:46 | the loop over the generations returns `Matched` of the current state |
| CacheStorage.Caches.Keys | frontend/public/sw.js:64 | `caches.keys()` lists the generation names in creation order |
| CacheStorage.Caches.Delete | frontend/public/sw.js:69 | `caches.delete`: reports whether the name existed, and removes that generation from both the map and the order |
| CacheStorage.FetchAll | frontend/public/sw.js:16 | the fetch phase of `addAll`: true exactly when every URL resolves ok and not 206 |
| CacheStorage.Caches.AddAll | frontend/public/sw.js:16 | `cache.addAll`: succeeds exactly when no URL is repeated and every URL resolves ok and not 206; then the generation becomes `PutAll` of its old entries, otherwise nothing changes |
| CacheStorage.Caches.StoreAll | frontend/public/sw.js:16 | the batch phase of `addAll`: the generation becomes `PutAll` of its old entries, the order and every other generation are kept |
| ServiceWorker.Includes | frontend/public/sw.js:23 | `String.prototype.includes`: true exactly when the marker occurs at some index |
| ServiceWorker.StrategyFor | frontend/public/sw.js:23 | network-first exactly when `/api/` occurs somewhere in the URL; cache-first exactly when it occurs nowhere |
| ServiceWorker.SubstringNotPrefix | frontend/public/sw.js:23 | an absolute URL and a static path that contain `/api/` are network-first; `/api` without a trailing slash is cache-first |
| ServiceWorker.MissingCharNotApi | frontend/public/sw.js:23 | a URL that lacks any character of `/api/` is cache-first |
| ServiceWorker.OnFetch | frontend/public/sw.js:22-59 | for each branch, the response and the new cache state. Network-first online: the network response is returned, CACHE_NAME is opened and the copy is stored if `cache.put` accepts it. Network-first offline: whatever `caches.match` finds, or nothing, with the store unchanged. Cache-first: the store is never written; a hit is returned with no fetch; a miss returns the network response; when both fail, a document request gets the cached `/` and any other request gets nothing |
| ServiceWorker.SeedsDistinct | frontend/public/sw.js:3-8 | the seed manifest names no URL twice |
| ServiceWorker.OnInstall | frontend/public/sw.js:11-19 | install succeeds exactly when every seed URL resolves ok. On success CACHE_NAME holds all four seeds over its old entries; on failure only the (possibly new, empty) CACHE_NAME generation differs |
| ServiceWorker.Retained | frontend/public/sw.js:67 | the generations that survive activation: at most CACHE_NAME, with its entries untouched |
| ServiceWorker.RetainedOrder | frontend/public/sw.js:64-72 | after activation `caches.keys()` lists at most one name, CACHE_NAME |
| ServiceWorker.OnActivate | frontend/public/sw.js:62-75 | the loop deletes every listed generation whose name differs from CACHE_NAME; the final state is `Retained` / `RetainedOrder` of the old one |
| ServiceWorker.Kept | frontend/public/sw.js:67 | of the visited names, exactly CACHE_NAME survives, if it was listed |
| ServiceWorker.DeleteStale | frontend/public/sw.js:64-72 | after the loop over the listed names, every stale generation is gone from the map, and the order is just CACHE_NAME if it was listed |
| ServiceWorker.DeleteIfStale | frontend/public/sw.js:66-70 | one loop pass: the name is deleted exactly when it differs from CACHE_NAME |
| ServiceWorker.ActivateStep | frontend/public/sw.js:66-70 | each pass of the loop extends the set of deleted names by the visited name exactly when it is stale |
| ServiceWorker.RetainedIsMinusStale | frontend/public/sw.js:62-75 | deleting every stale listed name leaves exactly `Retained` and `RetainedOrder` |
| ServiceWorker.ActivateIdempotent | frontend/public/sw.js:62-75 | a second activation changes nothing |
| ServiceWorker.ActivatedLookup | frontend/public/sw.js:40 | after activation `caches.match` answers only from the current generation |
| ServiceWorker.OnlineThenOffline | frontend/public/sw.js:26-41 | once activated, an API response stored while online is what the same key gets back offline |
| ServiceWorker.StaleEntriesUnreachable | frontend/public/sw.js:66-70 | a key held only by an older generation is no longer served after activation |
| ServiceWorker.ApiTasksIsNetworkFirst | frontend/public/sw.js:23 | `/api/tasks` is routed network-first |
| ServiceWorker.InstallAndActivate | frontend/public/sw.js:11-75 | a fresh store, installed with every seed reachable and then activated, holds exactly the one generation CACHE_NAME with the four seeds |
| ServiceWorker.OfflineStyleSheet | frontend/public/sw.js:11-75 | after install and activation, the style sheet requested with no network is served from the cache, with no network request |
| ServiceWorker.OfflineUncachedApiCall | frontend/public/sw.js:11-75 | after install and activation, an API call never cached gets no response with no network: nothing is made up |
| ServiceWorker.OnlineThenOfflineFetch | frontend/public/sw.js:26-41 | through the fetch handler, with only CACHE_NAME left: a network-first GET answered online is answered with the same response when repeated offline |
| ServiceWorker.TitleOf | frontend/public/sw.js:101 | the title falls back to 'Lakši Rad': the payload title passed through when truthy, the default title otherwise; never falsy |
| ServiceWorker.DataOf | frontend/public/sw.js:87 | the data falls back to `{}`: the payload data passed through when truthy, an empty object otherwise |
| ServiceWorker.Property | frontend/public/sw.js:83 | property access on a parsed payload: defined only on an object that has that key |
| ServiceWorker.OnPush | frontend/public/sw.js:78-104 | no payload: no notification. A payload that does not parse, or parses to `null`: the listener throws. Otherwise one notification with the payload's body, the defaulted title and data, the fixed icon, badge and vibration pattern, and exactly the actions `view` and `close` |
| ServiceWorker.OnNotificationClick | frontend/public/sw.js:107-115 | the notification is always closed first; `/` is opened exactly when the action is `view`; nothing else happens |
| ServiceWorker.ShownActionsRouting | frontend/public/sw.js:88-114 | of a shown notification's actions, the first opens the app and the second only closes |
| ServiceWorker.SyncTasks | frontend/public/sw.js:126-134 | whatever the work does, the returned promise fulfils |
| ServiceWorker.OnSync | frontend/public/sw.js:118-123 | the handler waits exactly for the tag `background-sync-tasks`, on a promise that fulfils |
| TaskServer.NewTask | backend/server.py:34-50 | the created task has the given id, title and timestamps; an omitted description becomes `""` and an omitted status becomes todo; given values are kept |
| TaskServer.FindFrom | backend/server.py:83 | the first index at or after `k` whose task has that id, or none exactly when no such task exists |
| TaskServer.Find | backend/server.py:83 | `find_one({"id": id})`: none exactly when the id is not in the collection; otherwise the first task with that id |
| TaskServer.CreatedIsFound | backend/server.py:71-72 | a task inserted under a fresh id is found afterwards, at the end of the collection |
| TaskServer.UpdateData | backend/server.py:88-89 | the update document holds a field exactly when the request supplied it non-null, with that value, and always `updated_at = now` |
| TaskServer.SetFields | backend/server.py:92 | `$set`: the listed fields take the new values; `id`, `created_at` and every unlisted field keep theirs |
| TaskServer.UpdateMerges | backend/server.py:87-96 | an update overwrites exactly the supplied fields and `updated_at`, and keeps `id` and `created_at` |
| TaskServer.CountCompleted | backend/server.py:122 | the number of completed tasks is at most the total; it is 0 exactly when none is completed, and total exactly when all are |
| TaskServer.TaskStats | backend/server.py:117-132 | total is the collection size; completed counts the completed tasks; total = completed + pending with pending ≥ 0; the rate is zero for an empty collection and completed/total otherwise |
| TaskServer.PendingAreTodo | backend/server.py:123 | pending equals the number of todo tasks |
| TaskServer.CountCompletedConcat | backend/server.py:122 | the completed count of two collections together is the sum of their counts |
| TaskServer.StatsAfterCreate | backend/server.py:67-73 | a create adds one to the total, and one to completed exactly when the new task is completed |
| TaskServer.StatsAfterUpdate | backend/server.py:92 | replacing one task keeps the total and moves completed by that task's change of status |
| TaskServer.StatsAfterDelete | backend/server.py:107 | a delete takes one from the total, and one from completed exactly when the removed task was completed |
| TaskServer.Insert | backend/server.py:61 | inserting into a newest-first list keeps it newest-first and adds exactly that task |
| TaskServer.InsertInFront | backend/server.py:61 | a task no older than the head goes in front, keeping the list newest-first |
| TaskServer.InsertBehind | backend/server.py:61 | an older task inserted into the tail leaves the head in front, keeping the list newest-first |
| TaskServer.SortNewestFirst | backend/server.py:61 | `sort("created_at", -1)`: a permutation ordered by creation time, newest first |
| TaskServer.ListTasks | backend/server.py:57-62 | the result has min(n, 1000) tasks, newest first, drawn from the collection (all of them when n ≤ 1000); no task left out is newer than a task returned |
| TaskServer.NewestPrefix | backend/server.py:61 | the first n of a newest-first listing are drawn from the collection, and nothing left out is newer than anything kept |
| TaskServer.RemoveAt | backend/server.py:107 | removing one task from a collection with unique ids keeps the ids unique, drops that id, keeps every other task, and adds none |
| TaskServer.PrependNewest | backend/server.py:61 | a task no older than every task of a newest-first list may go in front of it |
| TaskServer.TaskCollection.CreateTask | backend/server.py:67-73 | the stored copy is that new task, its id was unused, and the collection grows by exactly that task at the end |
| TaskServer.TaskCollection.UpdateTask | backend/server.py:78-96 | an unknown id gives 404 "Task not found" and leaves the collection unchanged; otherwise only that task is replaced by its merge, and the stored result is returned |
| TaskServer.TaskCollection.DeleteTask | backend/server.py:103-110 | an unknown id gives 404 and changes nothing; otherwise exactly that task is removed, the others keep their order, and the success message is returned |
| TaskClient.ToggledStatus | frontend/src/App.js:148 | the new status is todo or completed, and it is completed exactly when the old one is todo |
| TaskClient.ToggleTwice | frontend/src/App.js:148 | toggling twice restores todo or completed; any other status ends up completed |
| TaskClient.WithToggledStatus | frontend/src/App.js:151 | `{ ...task, status }`: only the status changes |
| TaskClient.Added | frontend/src/App.js:297 | the new task is prepended to the unchanged previous list |
| TaskClient.Updated | frontend/src/App.js:302 | length is kept; each element with that id becomes the updated task; every other element stays in place |
| TaskClient.Deleted | frontend/src/App.js:307 | no element with that id remains; every other element is kept as often as before; the result is an in-order subsequence of the old list |
| TaskClient.ToggleInList | frontend/src/App.js:147-151 | toggling a listed task with a unique id changes that task's status and nothing else in the list |
| TaskClient.TrimStart | frontend/src/App.js:16 | removes exactly the leading JavaScript white space |
| TaskClient.TrimEnd | frontend/src/App.js:16 | removes exactly the trailing JavaScript white space |
| TaskClient.Trim | frontend/src/App.js:16 | `trim()`: a contiguous piece of the input with only white space before and after it; it starts and ends with non-white-space, and is empty exactly when the input is all white space |
| TaskClient.TrimmedPiece | frontend/src/App.js:16 | cutting a white-space prefix and then a white-space suffix leaves a contiguous piece of the input with non-white-space ends |
| TaskClient.TrimBlank | frontend/src/App.js:16 | trimming both ends leaves nothing exactly when every character is white space |
| TaskClient.Submit | frontend/src/App.js:14-23 | nothing is sent exactly when the title is blank; otherwise the trimmed title (non-empty) and the trimmed description are sent |

## Left out

- Concurrency in the API. Each handler of `backend/server.py` is one atomic step on the collection. Interleavings of concurrent requests are not modelled: for example, a delete that lands between the `update_one` and the re-reading `find_one` of an update (backend/server.py:92-95) would make that update fail with 500.
- Asynchrony in the worker. Each handler is one atomic step. Concurrent fetch events and the un-awaited `cache.put` (frontend/public/sw.js:31-34) are not modelled as racing with later events. A rejected put is modelled only as "nothing stored".
- URL handling. URLs are compared verbatim: there is no resolution of `/` against the worker's origin and no query- or Vary-based matching. `cache.put`'s refusal of non-HTTP schemes is not modelled.
- Response bodies. They are opaque values, so `response.clone()` is a copy.
- Platform effects. `showNotification` and `clients.openWindow` are recorded as returned values. The `syncTasks` body is empty apart from logging, so it is modelled only as its try/catch outcome.
- `console.log`, `console.error` and Python `logging` output have no observable effect in the model.
- Backend plumbing. MongoDB/Motor, FastAPI routing, the root endpoint, CORS, the shutdown hook and Pydantic validation are not modelled. The `except Exception` paths that become HTTP 500 are not modelled either, because the in-memory collection does not fail.
- TaskServer.TaskStats: does not compute the floating-point `round(completed / total * 100, 1)`; it returns the exact ratio `Ratio(completed, total)`, or `ZeroRate` for an empty collection, because floats are out of scope.
- TaskServer.TaskCollection.CreateTask: assumes the id oracle never repeats an id already stored (uuid collisions are assumed away).
- TaskServer.SortNewestFirst: fixes one order for tasks with equal `created_at`, where MongoDB may return ties in any order. The contract itself allows any newest-first permutation.
- Timestamps are integers; time-zone-less `datetime` details are not modelled.
- JSON numbers in push payloads are integers. A number property is truthy exactly when it is non-zero, so `NaN` is not modelled.
- The client. React rendering, `useState`/`useEffect`, axios calls, `alert`/`confirm`, the `isSubmitting` flag and date formatting are not modelled. Client tasks keep the server's status and timestamps as strings.
- `backend_test.py` and `frontend/public/create-icons.py` are not part of this model. The first is a live-network test script; the second writes constant icon files.
