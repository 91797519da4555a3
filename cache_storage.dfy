/**
 * The browser's cache storage (the global `caches` object) as the service
 * worker uses it: named cache generations kept in creation order, each one a
 * map from request URL to a stored response.
 */
module CacheStorage {
  import opened Wrappers

  type Url = string

  /** An immutable snapshot of a response; `response.clone()` is copying this value. */
  datatype Response = Response(status: int, body: string)

  /**
   * The network at the moment of a fetch: a URL it answers (with any HTTP
   * status) maps to that response; a URL it cannot reach (offline, DNS,
   * timeout) is absent, and `fetch` rejects for it.
   */
  type Network = map<Url, Response>

  /** What the cache API looks at in a request: its HTTP method, its URL and its destination. */
  datatype Request = Request(httpMethod: string, url: Url, destination: string)

  /** The request `caches.match(url)` builds from a bare URL. */
  function GetRequest(url: Url): (r: Request)
    ensures r.httpMethod == "GET" && r.url == url
  {
    Request("GET", url, "")
  }

  /** `cache.put` stores only a GET request and never a partial (206) response. */
  predicate PutAccepts(request: Request, resp: Response)
  {
    request.httpMethod == "GET" && resp.status != 206
  }

  /** `cache.addAll` stores a fetched response only when it is ok and not partial. */
  predicate AddAllAccepts(resp: Response)
  {
    IsOk(resp) && resp.status != 206
  }

  /** The entries of one cache generation. */
  type Entries = map<Url, Response>

  /** `Response.ok`: a status in 200..299. */
  predicate IsOk(r: Response)
  {
    200 <= r.status <= 299
  }

  /** No name occurs twice. */
  predicate Distinct(names: seq<string>)
  {
    forall i, j :: 0 <= i < j < |names| ==> names[i] != names[j]
  }

  /** Generation number `i` in creation order exists and holds an entry for `key`. */
  predicate Holds(order: seq<string>, gens: map<string, Entries>, i: int, key: Url)
    requires 0 <= i < |order|
  {
    order[i] in gens && key in gens[order[i]]
  }

  /**
   * `caches.match(key)`: the entry of the first generation, in creation
   * order, that holds `key`; `None` (the promise resolves to `undefined`)
   * exactly when no generation holds it.
   */
  function Lookup(order: seq<string>, gens: map<string, Entries>, key: Url): (r: Option<Response>)
    ensures r.None? <==> forall i :: 0 <= i < |order| ==> !Holds(order, gens, i, key)
    ensures r.Some? ==>
      exists i :: 0 <= i < |order| && Holds(order, gens, i, key) && gens[order[i]][key] == r.value
        && forall j :: 0 <= j < i ==> !Holds(order, gens, j, key)
    decreases |order|
  {
    if order == [] then None
    else if order[0] in gens && key in gens[order[0]] then
      assert Holds(order, gens, 0, key);
      Some(gens[order[0]][key])
    else
      var r := Lookup(order[1..], gens, key);
      assert forall i :: 1 <= i < |order| ==> (Holds(order, gens, i, key) <==> Holds(order[1..], gens, i - 1, key));
      assert r.Some? ==> exists i :: (1 <= i < |order| && Holds(order, gens, i, key) && gens[order[i]][key] == r.value
        && forall j :: 0 <= j < i ==> !Holds(order, gens, j, key));
      r
  }

  /** With a single generation, `caches.match` answers from that generation alone. */
  lemma LookupOne(gens: map<string, Entries>, name: string, key: Url)
    ensures Lookup([name], gens, key) == if name in gens && key in gens[name] then Some(gens[name][key]) else None
  {
    assert [name][1..] == [];
  }

  /**
   * `caches.match(request)`: a request other than GET matches nothing;
   * a GET request finds what `Lookup` finds for its URL.
   */
  function Matched(order: seq<string>, gens: map<string, Entries>, request: Request): (r: Option<Response>)
    ensures request.httpMethod != "GET" ==> r == None
    ensures request.httpMethod == "GET" ==> r == Lookup(order, gens, request.url)
  {
    if request.httpMethod == "GET" then Lookup(order, gens, request.url) else None
  }

  /** The entries of generation `name`; a generation that does not exist reads as empty. */
  function EntriesOf(gens: map<string, Entries>, name: string): (e: Entries)
    ensures name !in gens ==> e == map[]
    ensures name in gens ==> e == gens[name]
  {
    if name in gens then gens[name] else map[]
  }

  /** The creation order after `caches.open(name)`: a new generation is listed last. */
  function OpenedOrder(order: seq<string>, gens: map<string, Entries>, name: string): (r: seq<string>)
    requires forall n :: n in order <==> n in gens
    ensures name in r
    ensures name in gens ==> r == order
    ensures name !in gens ==> r == order + [name]
  {
    if name in gens then order else order + [name]
  }

  /** The generations after `caches.open(name)`: an absent generation is created empty. */
  function OpenedGens(gens: map<string, Entries>, name: string): (r: map<string, Entries>)
    ensures r.Keys == gens.Keys + {name}
    ensures forall n :: n in gens ==> r[n] == gens[n]
    ensures name !in gens ==> r[name] == map[]
  {
    if name in gens then gens else gens[name := map[]]
  }

  /** Replacing an opened generation's entries is replacing them in the unopened store. */
  lemma OpenedThenReplaced(gens: map<string, Entries>, name: string, e: Entries)
    ensures OpenedGens(gens, name)[name] == EntriesOf(gens, name)
    ensures OpenedGens(gens, name)[name := e] == gens[name := e]
  {
  }

  /**
   * The generations after opening `name` and putting `resp` under `key`:
   * that one entry is written (last write wins) and nothing else changes.
   */
  function Stored(gens: map<string, Entries>, name: string, key: Url, resp: Response): (r: map<string, Entries>)
    ensures r.Keys == gens.Keys + {name}
    ensures key in r[name] && r[name][key] == resp
    ensures forall k :: k in EntriesOf(gens, name) && k != key ==> k in r[name] && r[name][k] == EntriesOf(gens, name)[k]
    ensures forall k :: k in r[name] ==> k == key || k in EntriesOf(gens, name)
    ensures forall n :: n in gens && n != name ==> r[n] == gens[n]
  {
    gens[name := EntriesOf(gens, name)[key := resp]]
  }

  /**
   * The entries after `cache.put` of every URL of `urls`, in order, each
   * with the network's response for it: every URL of the batch is stored
   * and every other entry is kept.
   */
  function PutAll(e: Entries, urls: seq<Url>, net: Network): (r: Entries)
    requires forall i :: 0 <= i < |urls| ==> urls[i] in net
    ensures forall i :: 0 <= i < |urls| ==> urls[i] in r && r[urls[i]] == net[urls[i]]
    ensures forall k :: k in e && k !in urls ==> k in r && r[k] == e[k]
    ensures forall k :: k in r ==> k in e || k in urls
    decreases |urls|
  {
    if urls == [] then e
    else
      var last := urls[|urls| - 1];
      var front := urls[..|urls| - 1];
      assert forall k :: k in urls ==> k in front || k == last;
      PutAll(e, front, net)[last := net[last]]
  }

  /** Storing one more URL of the batch is one more `put` on the previous entries. */
  lemma PutAllStep(e: Entries, urls: seq<Url>, i: nat, net: Network)
    requires i < |urls| && forall j :: 0 <= j < |urls| ==> urls[j] in net
    ensures PutAll(e, urls[..i + 1], net) == PutAll(e, urls[..i], net)[urls[i] := net[urls[i]]]
  {
    assert urls[..i + 1][..i] == urls[..i];
  }

  /** The position of the first occurrence of `name` in `s`. */
  function IndexOf(s: seq<string>, name: string): (k: nat)
    requires name in s
    ensures k < |s| && s[k] == name
    ensures forall j :: 0 <= j < k ==> s[j] != name
    decreases |s|
  {
    if s[0] == name then 0 else 1 + IndexOf(s[1..], name)
  }

  /** `s` with the first occurrence of `name` taken out, the other names kept in order. */
  function Without(s: seq<string>, name: string): (r: seq<string>)
    ensures name !in s ==> r == s
    ensures name in s ==> |r| == |s| - 1
  {
    if name in s then s[..IndexOf(s, name)] + s[IndexOf(s, name) + 1..] else s
  }

  /** Where the names of `Without(s, name)` sit in `s`: before the removed position, and after it shifted by one. */
  lemma WithoutIndex(s: seq<string>, name: string)
    requires name in s
    ensures var k := IndexOf(s, name);
            && (forall j :: 0 <= j < k ==> Without(s, name)[j] == s[j])
            && (forall j :: k <= j < |s| - 1 ==> Without(s, name)[j] == s[j + 1])
  {
    var k := IndexOf(s, name);
    var front, back := s[..k], s[k + 1..];
    assert Without(s, name) == front + back;
    forall j | 0 <= j < k ensures (front + back)[j] == s[j] {
      assert (front + back)[j] == front[j];
    }
    forall j | k <= j < |s| - 1 ensures (front + back)[j] == s[j + 1] {
      assert (front + back)[j] == back[j - k];
    }
  }

  /** In a list without repetitions, `Without` keeps the list repetition-free. */
  lemma WithoutDistinct(s: seq<string>, name: string)
    requires Distinct(s)
    ensures Distinct(Without(s, name))
  {
    if name in s {
      var k := IndexOf(s, name);
      var r := Without(s, name);
      WithoutIndex(s, name);
      forall a, b | 0 <= a < b < |r| ensures r[a] != r[b] {
        if b < k {
          assert r[a] == s[a] && r[b] == s[b];
        } else if a < k {
          assert r[a] == s[a] && r[b] == s[b + 1];
        } else {
          assert r[a] == s[a + 1] && r[b] == s[b + 1];
        }
      }
    }
  }

  /** In a list without repetitions, `Without` removes exactly `name`. */
  lemma WithoutMembers(s: seq<string>, name: string)
    requires Distinct(s)
    ensures forall n :: n in Without(s, name) <==> n in s && n != name
  {
    if name in s {
      var k := IndexOf(s, name);
      var r := Without(s, name);
      WithoutIndex(s, name);
      forall n | n in r ensures n in s && n != name {
        var j :| 0 <= j < |r| && r[j] == n;
        if j < k {
          assert s[j] == n;
        } else {
          assert s[j + 1] == n;
        }
      }
      forall n | n in s && n != name ensures n in r {
        var j :| 0 <= j < |s| && s[j] == n;
        if j < k {
          assert r[j] == n;
        } else {
          assert r[j - 1] == n;
        }
      }
    }
  }

  /** Taking out a name that does not occur in `a` from `a + [name] + b` leaves `a + b`. */
  lemma WithoutMiddle(a: seq<string>, name: string, b: seq<string>)
    requires name !in a
    ensures Without(a + [name] + b, name) == a + b
  {
    var s := a + [name] + b;
    assert s[|a|] == name;
    var k := IndexOf(s, name);
    assert forall j :: 0 <= j < |a| ==> s[j] == a[j];
    assert k == |a|;
    assert s[..k] == a && s[k + 1..] == b;
  }

  /**
   * The fetch phase of `cache.addAll`: true exactly when every URL resolves
   * with an ok, non-partial response.
   */
  method FetchAll(urls: seq<Url>, net: Network) returns (ok: bool)
    ensures ok <==> forall i :: 0 <= i < |urls| ==> urls[i] in net && AddAllAccepts(net[urls[i]])
  {
    var i := 0;
    while i < |urls|
      invariant 0 <= i <= |urls|
      invariant forall j :: 0 <= j < i ==> urls[j] in net && AddAllAccepts(net[urls[j]])
    {
      if urls[i] !in net || !AddAllAccepts(net[urls[i]]) {
        return false;
      }
      i := i + 1;
    }
    return true;
  }

  /**
   * The platform's cache storage. `order` is what `caches.keys()` lists
   * (creation order); `gens` holds each generation's entries.
   */
  class Caches {
    var order: seq<string>
    var gens: map<string, Entries>

    ghost predicate Valid()
      reads this
    {
      Distinct(order) && forall n :: n in order <==> n in gens
    }

    constructor ()
      ensures Valid() && order == [] && gens == map[]
    {
      order := [];
      gens := map[];
    }

    /** `caches.open(name)`: the generation is created empty when absent; the handle is its name. */
    method Open(name: string)
      requires Valid()
      modifies this
      ensures Valid()
      ensures order == OpenedOrder(old(order), old(gens), name)
      ensures gens == OpenedGens(old(gens), name)
    {
      if name !in gens {
        order := order + [name];
        gens := gens[name := map[]];
      }
    }

    /**
     * `cache.put(request, resp)` on an open generation: replaces any entry
     * for the request's URL, or rejects (`stored` false) and changes nothing.
     */
    method Put(name: string, request: Request, resp: Response) returns (stored: bool)
      requires Valid() && name in gens
      modifies this
      ensures Valid() && order == old(order)
      ensures stored == PutAccepts(request, resp)
      ensures stored ==> gens == Stored(old(gens), name, request.url, resp)
      ensures !stored ==> gens == old(gens)
    {
      stored := PutAccepts(request, resp);
      if stored {
        gens := gens[name := gens[name][request.url := resp]];
      }
    }

    /** `caches.match(request)`: walks the generations in creation order. */
    method Match(request: Request) returns (r: Option<Response>)
      ensures r == Matched(order, gens, request)
    {
      if request.httpMethod != "GET" {
        return None;
      }
      var key := request.url;
      var i := 0;
      while i < |order|
        invariant 0 <= i <= |order|
        invariant Lookup(order[i..], gens, key) == Lookup(order, gens, key)
      {
        var name := order[i];
        if name in gens && key in gens[name] {
          return Some(gens[name][key]);
        }
        assert order[i..][1..] == order[i + 1..];
        i := i + 1;
      }
      return None;
    }

    /** `caches.keys()`: the generation names in creation order. */
    method Keys() returns (names: seq<string>)
      requires Valid()
      ensures names == order
      ensures forall n :: n in names <==> n in gens
    {
      names := order;
    }

    /** `caches.delete(name)`: drops the whole generation; reports whether it existed. */
    method Delete(name: string) returns (found: bool)
      requires Valid()
      modifies this
      ensures Valid()
      ensures found == (name in old(gens))
      ensures gens == old(gens) - {name}
      ensures order == Without(old(order), name)
    {
      found := name in gens;
      WithoutDistinct(order, name);
      WithoutMembers(order, name);
      order := Without(order, name);
      gens := gens - {name};
    }

    /**
     * `cache.addAll(urls)` on an open generation: every URL is fetched
     * first, and only when every fetch resolves with an ok, non-partial
     * response and no two requests of the batch are for the same URL is the
     * whole batch stored; otherwise nothing is stored and the promise
     * rejects (a repeated request is the platform's InvalidStateError).
     */
    method AddAll(name: string, urls: seq<Url>, net: Network) returns (ok: bool)
      requires Valid() && name in gens
      modifies this
      ensures Valid() && order == old(order)
      ensures ok <==> Distinct(urls) && forall i :: 0 <= i < |urls| ==> urls[i] in net && AddAllAccepts(net[urls[i]])
      ensures ok ==> gens == old(gens)[name := PutAll(old(gens)[name], urls, net)]
      ensures !ok ==> gens == old(gens)
    {
      ok := FetchAll(urls, net);
      if !ok || !Distinct(urls) {
        return false;
      }
      StoreAll(name, urls, net);
      return true;
    }

    /** The batch phase of `addAll`: every fetched response is stored under its URL. */
    method StoreAll(name: string, urls: seq<Url>, net: Network)
      requires Valid() && name in gens
      requires forall i :: 0 <= i < |urls| ==> urls[i] in net
      modifies this
      ensures Valid() && order == old(order)
      ensures gens == old(gens)[name := PutAll(old(gens)[name], urls, net)]
    {
      var i := 0;
      while i < |urls|
        invariant 0 <= i <= |urls|
        invariant order == old(order) && gens.Keys == old(gens).Keys
        invariant gens == old(gens)[name := PutAll(old(gens)[name], urls[..i], net)]
      {
        PutAllStep(old(gens)[name], urls, i, net);
        gens := gens[name := gens[name][urls[i] := net[urls[i]]]];
        i := i + 1;
      }
      assert urls[..|urls|] == urls;
    }
  }
}
