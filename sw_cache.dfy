/**
  The cache side of public/sw.js: the named caches of the origin, the install
  and activate handlers, and the three response strategies of the fetch
  handler. The network and the navigation preload are given as outcomes;
  each cache write is applied at once.
 */
module SwCache {
  import opened Wrappers
  import opened Text
  import opened SwRoutes

  /** A cache: responses by request URL. */
  type Store = map<string, Response>

  /**
    A response `cache.addAll` takes: an ok status (200 to 299) other than 206 Partial Content,
    which the Cache API of the Service Workers specification refuses to store.
   */
  predicate Precacheable(r: Response) {
    200 <= r.status <= 299 && r.status != 206
  }

  /** The worker's own cache as `caches.open` gives it: its entries, or empty when it does not exist yet. */
  function OwnStore(caches: map<string, Store>): Store {
    if Cache in caches then caches[Cache] else map[]
  }

  /** The cache names after `caches.open` of the worker's cache: unchanged, or with it added as the newest. */
  function OpenNames(names: seq<string>): seq<string> {
    if Cache in names then names else names + [Cache]
  }

  /** Every path of `ps` fetched with a response `addAll` takes. */
  predicate AllOk(fetchShell: string -> FetchOutcome, ps: seq<string>)
    decreases |ps|
  {
    ps == [] || (AllOk(fetchShell, ps[..|ps| - 1]) && fetchShell(ps[|ps| - 1]).Fetched? && Precacheable(fetchShell(ps[|ps| - 1]).response))
  }

  /** Every shell path fetched with a response `addAll` takes: the condition for `cache.addAll` to succeed. */
  predicate ShellFetched(fetchShell: string -> FetchOutcome) {
    AllOk(fetchShell, Shell)
  }

  /** `AllOk` says of every path what it says of the last one. */
  lemma {:induction false} AllOkEvery(fetchShell: string -> FetchOutcome, ps: seq<string>)
    ensures AllOk(fetchShell, ps) <==> forall i :: 0 <= i < |ps| ==> fetchShell(ps[i]).Fetched? && Precacheable(fetchShell(ps[i]).response)
    decreases |ps|
  {
    if ps != [] {
      var init := ps[..|ps| - 1];
      AllOkEvery(fetchShell, init);
      assert forall i :: 0 <= i < |init| ==> init[i] == ps[i];
    }
  }

  /** A 206 Partial Content answer for any shell path makes the whole `addAll`, and so the install, fail. */
  lemma PartialShellFails(fetchShell: string -> FetchOutcome, p: string)
    requires p in Shell && fetchShell(p).Fetched? && fetchShell(p).response.status == 206
    ensures !ShellFetched(fetchShell)
  {
    AllOkEvery(fetchShell, Shell);
    var i :| 0 <= i < |Shell| && Shell[i] == p;
  }

  /** The entries `cache.addAll` writes for `ps`: each path with its response. */
  function Batch(fetchShell: string -> FetchOutcome, ps: seq<string>): (m: Store)
    requires AllOk(fetchShell, ps)
    decreases |ps|
  {
    if ps == [] then map[]
    else Batch(fetchShell, ps[..|ps| - 1])[ps[|ps| - 1] := fetchShell(ps[|ps| - 1]).response]
  }

  /** The batch holds exactly the paths of `ps`, each with the response its fetch gave. */
  lemma {:induction false} BatchContents(fetchShell: string -> FetchOutcome, ps: seq<string>)
    requires AllOk(fetchShell, ps)
    ensures forall p :: p in Batch(fetchShell, ps) <==> p in ps
    ensures forall p :: p in Batch(fetchShell, ps) ==> fetchShell(p).Fetched? && Batch(fetchShell, ps)[p] == fetchShell(p).response
    decreases |ps|
  {
    if ps != [] {
      var init := ps[..|ps| - 1];
      BatchContents(fetchShell, init);
      assert ps == init + [ps[|ps| - 1]];
    }
  }

  /** `caches.match`: the response for `url` in the first cache, in creation order, that has one. */
  function MatchAll(names: seq<string>, caches: map<string, Store>, url: string): (r: Option<Response>)
    ensures r.None? <==> forall i :: 0 <= i < |names| ==> names[i] !in caches || url !in caches[names[i]]
    ensures r.Some? ==> exists i :: (0 <= i < |names| && names[i] in caches && url in caches[names[i]]
              && r.value == caches[names[i]][url]
              && forall j :: 0 <= j < i ==> names[j] !in caches || url !in caches[names[j]])
  {
    if names == [] then None
    else if names[0] in caches && url in caches[names[0]] then Some(caches[names[0]][url])
    else
      var rest := names[1..];
      var r := MatchAll(rest, caches, url);
      assert forall i :: 1 <= i < |names| ==> names[i] == rest[i - 1];
      if r.Some? then
        var i :| 0 <= i < |rest| && rest[i] in caches && url in caches[rest[i]]
                 && r.value == caches[rest[i]][url]
                 && forall j :: 0 <= j < i ==> rest[j] !in caches || url !in caches[rest[j]];
        assert names[i + 1] in caches && url in caches[names[i + 1]] && r.value == caches[names[i + 1]][url];
        r
      else r
  }

  /** Opening a cache that did not exist adds an empty one last, which changes no lookup across the caches. */
  lemma {:induction false} MatchAllOpenEmpty(names: seq<string>, caches: map<string, Store>, name: string, url: string)
    requires name !in names && name !in caches
    ensures MatchAll(names + [name], caches[name := map[]], url) == MatchAll(names, caches, url)
  {
    if names == [] {
      assert names + [name] == [name];
    } else {
      assert (names + [name])[1..] == names[1..] + [name];
      MatchAllOpenEmpty(names[1..], caches, name, url);
    }
  }

  /** `names` without `n`. */
  function Without(names: seq<string>, n: string): (r: seq<string>)
    ensures forall x :: x in r <==> x in names && x != n
    ensures Distinct(names) ==> Distinct(r)
  {
    if names == [] then []
    else
      var rest := Without(names[1..], n);
      assert names == [names[0]] + names[1..];
      if names[0] == n then rest
      else
        assert Distinct(names) ==> names[0] !in names[1..];
        [names[0]] + rest
  }

  /** The names that the purge of `activate` keeps among `names`: only the worker's own cache. */
  function Kept(names: seq<string>): (r: seq<string>)
    ensures forall x :: x in r ==> x == Cache
  {
    if names == [] then [] else Kept(names[..|names| - 1]) + (if names[|names| - 1] == Cache then [Cache] else [])
  }

  /** Without repetition, the purge keeps the worker's cache if it was there and nothing else. */
  lemma {:induction false} KeptDistinct(names: seq<string>)
    requires Distinct(names)
    ensures Kept(names) == if Cache in names then [Cache] else []
  {
    if names != [] {
      var init := names[..|names| - 1];
      InitLast(names);
      KeptDistinct(init);
    }
  }

  lemma WithoutAppend(a: seq<string>, b: seq<string>, n: string)
    ensures Without(a + b, n) == Without(a, n) + Without(b, n)
  {
    if a != [] {
      assert (a + b)[1..] == a[1..] + b;
      WithoutAppend(a[1..], b, n);
    } else {
      assert a + b == b;
    }
  }

  lemma WithoutAbsent(a: seq<string>, n: string)
    requires n !in a
    ensures Without(a, n) == a
  {
    if a != [] {
      WithoutAbsent(a[1..], n);
    }
  }

  /** One step of the purge: deleting the next name, unless it is the worker's cache, moves it past the kept prefix. */
  lemma PurgeStep(keys: seq<string>, i: int)
    requires Distinct(keys) && 0 <= i < |keys|
    ensures keys[i] != Cache ==> Without(Kept(keys[..i]) + keys[i..], keys[i]) == Kept(keys[..i + 1]) + keys[i + 1..]
    ensures keys[i] == Cache ==> Kept(keys[..i]) + keys[i..] == Kept(keys[..i + 1]) + keys[i + 1..]
  {
    var k, front, back := keys[i], keys[..i], keys[i + 1..];
    assert keys[..i + 1][..i] == front;
    assert keys[i..] == [k] + back;
    if k != Cache {
      assert Kept(keys[..i + 1]) == Kept(front);
      assert k !in back by {
        assert forall j :: 0 <= j < |back| ==> back[j] == keys[i + 1 + j];
      }
      PurgeDrop(Kept(front), k, back);
    } else {
      assert Kept(keys[..i + 1]) == Kept(front) + [Cache];
    }
  }

  /** Before the purge every name is still there; when it has gone through every name, the kept names are left. */
  lemma PurgeEnds(keys: seq<string>)
    ensures Kept(keys[..0]) + keys[0..] == keys
    ensures Kept(keys[..|keys|]) + keys[|keys|..] == Kept(keys)
  {
    assert keys[..0] == [] && keys[0..] == keys;
    assert keys[..|keys|] == keys;
  }

  /** Removing `k` from a text of names where it occurs once, right after a part without it. */
  lemma PurgeDrop(front: seq<string>, k: string, back: seq<string>)
    requires k !in front && k !in back
    ensures Without(front + ([k] + back), k) == front + back
  {
    WithoutAppend(front, [k] + back, k);
    WithoutAbsent(front, k);
    assert ([k] + back)[1..] == back;
    WithoutAbsent(back, k);
  }

  /** A navigation falls back to the cache when the preload fails, or when there is none and the network fails. */
  predicate NavigationFallback(preload: Preload, network: FetchOutcome) {
    preload.PreloadFailed? || (preload.NoPreload? && network.NetFail?)
  }

  /** What a navigation is answered with, given the caches before it: the preload, else the network, else the cached "/index.html", else an error. */
  function NavigationReply(caches: map<string, Store>, preload: Preload, network: FetchOutcome): Reply {
    if preload.Preloaded? then Respond(preload.response)
    else if preload.NoPreload? && network.Fetched? then Respond(network.response)
    else if "/index.html" in OwnStore(caches) then Respond(OwnStore(caches)["/index.html"])
    else ErrorResponse
  }

  /** The network answered 200: the one status the two runtime strategies store. */
  predicate Answered200(network: FetchOutcome) {
    network.Fetched? && network.response.status == 200
  }

  /** What stale-while-revalidate answers from the worker's cache `own`: the cached copy, else the network, else `null`. */
  function StaleReply(own: Store, url: string, network: FetchOutcome): Reply {
    if url in own then Respond(own[url])
    else if network.Fetched? then Respond(network.response)
    else NullResponse
  }

  /** The worker's cache after revalidation: the copy replaced by a 200 answer, and kept otherwise. */
  function Revalidated(own: Store, url: string, network: FetchOutcome): Store {
    if Answered200(network) then own[url := network.response] else own
  }

  /** What network-first answers: the network's response, else the first cached copy in any cache, else an error. */
  function NetworkReply(names: seq<string>, caches: map<string, Store>, url: string, network: FetchOutcome): Reply {
    if network.Fetched? then Respond(network.response)
    else match MatchAll(names, caches, url)
      case Some(r) => Respond(r)
      case None => ErrorResponse
  }

  /** The origin's caches as the worker sees them. */
  /** After `caches.open(CACHE)` the worker's cache is its old store, or an empty one; adding a batch adds it to that store. */
  lemma OpenedStore(caches: map<string, Store>, after: map<string, Store>, batch: Store)
    requires after == if Cache in caches then caches else caches[Cache := map[]]
    ensures after == caches[Cache := OwnStore(caches)]
    ensures after[Cache := after[Cache] + batch] == caches[Cache := OwnStore(caches) + batch]
  {
  }

  /** The fetches of `cache.addAll(SHELL)`, in order: it succeeds only when every answer may be cached. */
  method FetchShellBatch(fetchShell: string -> FetchOutcome) returns (ok: bool, batch: Store)
    ensures ok <==> ShellFetched(fetchShell)
    ensures ok ==> batch == Batch(fetchShell, Shell)
  {
    batch := map[];
    ok := true;
    var i := 0;
    while i < |Shell|
      invariant 0 <= i <= |Shell|
      invariant ok == AllOk(fetchShell, Shell[..i])
      invariant ok ==> batch == Batch(fetchShell, Shell[..i])
    {
      var outcome := fetchShell(Shell[i]);
      assert Shell[..i + 1][..i] == Shell[..i];
      if ok && outcome.Fetched? && Precacheable(outcome.response) {
        batch := batch[Shell[i] := outcome.response];
      } else {
        ok := false;
      }
      i := i + 1;
    }
    assert Shell[..|Shell|] == Shell;
  }

  class Worker {
    /** `caches.keys()`: the cache names in creation order. */
    var names: seq<string>
    var caches: map<string, Store>
    var skipWaitingCalled: bool
    var preloadEnabled: bool

    /** The name list has no repetition and names exactly the existing caches. */
    ghost predicate Valid()
      reads this
    {
      Distinct(names) && forall n :: n in caches <==> n in names
    }

    /** A worker over the given caches, not yet installed. */
    constructor (names0: seq<string>, caches0: map<string, Store>)
      requires Distinct(names0) && forall n :: n in caches0 <==> n in names0
      ensures names == names0 && caches == caches0 && !skipWaitingCalled && !preloadEnabled
      ensures Valid()
    {
      names := names0;
      caches := caches0;
      skipWaitingCalled := false;
      preloadEnabled := false;
    }

    /** `caches.open(name)`: the cache is created empty, as the newest, if it does not exist. */
    method Open(name: string)
      requires Valid()
      modifies this
      ensures Valid()
      ensures name in caches
      ensures caches == if name in old(caches) then old(caches) else old(caches)[name := map[]]
      ensures names == if name in old(names) then old(names) else old(names) + [name]
      ensures skipWaitingCalled == old(skipWaitingCalled) && preloadEnabled == old(preloadEnabled)
    {
      if name !in caches {
        names := names + [name];
        caches := caches[name := map[]];
      }
    }

    /** `cache.put(url, response)` on an open cache. */
    method Put(name: string, url: string, r: Response)
      requires Valid() && name in caches
      modifies this
      ensures Valid()
      ensures caches == old(caches)[name := old(caches)[name][url := r]]
      ensures names == old(names)
      ensures skipWaitingCalled == old(skipWaitingCalled) && preloadEnabled == old(preloadEnabled)
    {
      caches := caches[name := caches[name][url := r]];
    }

    /** `caches.delete(name)`. */
    method Delete(name: string)
      requires Valid()
      modifies this
      ensures Valid()
      ensures names == Without(old(names), name) && caches == old(caches) - {name}
      ensures skipWaitingCalled == old(skipWaitingCalled) && preloadEnabled == old(preloadEnabled)
    {
      names := Without(names, name);
      caches := caches - {name};
    }

    /** One step of the purge of `activate`: the `i`-th of the old names is deleted unless it is the worker's cache. */
    method PurgeOne(keys: seq<string>, i: int)
      requires Valid() && Distinct(keys) && 0 <= i < |keys|
      requires names == Kept(keys[..i]) + keys[i..]
      modifies this
      ensures Valid()
      ensures names == Kept(keys[..i + 1]) + keys[i + 1..]
      ensures caches == if keys[i] == Cache then old(caches) else old(caches) - {keys[i]}
      ensures caches.Keys <= old(caches).Keys
      ensures Cache in old(caches) ==> Cache in caches && caches[Cache] == old(caches)[Cache]
      ensures skipWaitingCalled == old(skipWaitingCalled) && preloadEnabled == old(preloadEnabled)
    {
      PurgeStep(keys, i);
      if keys[i] != Cache {
        Delete(keys[i]);
      }
    }

    /**
      `install`: the worker's cache is opened, and it gets every shell path if all five fetches come back ok,
      and nothing otherwise (`addAll` is all or nothing); `skipWaiting` is called in any case.
     */
    method Install(fetchShell: string -> FetchOutcome) returns (installed: bool)
      requires Valid()
      modifies this
      ensures Valid()
      ensures installed <==> ShellFetched(fetchShell)
      ensures names == OpenNames(old(names))
      ensures installed ==> caches == old(caches)[Cache := OwnStore(old(caches)) + Batch(fetchShell, Shell)]
      ensures !installed ==> caches == old(caches)[Cache := OwnStore(old(caches))]
      ensures skipWaitingCalled && preloadEnabled == old(preloadEnabled)
    {
      ghost var before := caches;
      Open(Cache);
      var ok, batch := FetchShellBatch(fetchShell);
      OpenedStore(before, caches, batch);
      if ok {
        caches := caches[Cache := caches[Cache] + batch];
      }
      installed := ok;
      skipWaitingCalled := true;
    }

    /** The purge of `activate`: each name but the worker's own is deleted in turn. */
    method PurgeOthers()
      requires Valid()
      modifies this
      ensures Valid()
      ensures names == Kept(old(names))
      ensures caches.Keys <= old(caches).Keys
      ensures Cache in old(caches) ==> Cache in caches && caches[Cache] == old(caches)[Cache]
      ensures skipWaitingCalled == old(skipWaitingCalled) && preloadEnabled == old(preloadEnabled)
    {
      var keys := names;
      ghost var before := caches;
      PurgeEnds(keys);
      var i := 0;
      while i < |keys|
        invariant 0 <= i <= |keys|
        invariant Distinct(keys) && Valid()
        invariant names == Kept(keys[..i]) + keys[i..]
        invariant caches.Keys <= before.Keys
        invariant Cache in before ==> Cache in caches && caches[Cache] == before[Cache]
        invariant skipWaitingCalled == old(skipWaitingCalled) && preloadEnabled == old(preloadEnabled)
      {
        PurgeOne(keys, i);
        i := i + 1;
      }
    }

    /**
      `activate`: every cache but the worker's own is deleted, the worker's cache keeps its contents, and
      navigation preload is turned on where the browser has it.
     */
    method Activate(preloadSupported: bool)
      requires Valid()
      modifies this
      ensures Valid()
      ensures names == if Cache in old(names) then [Cache] else []
      ensures forall n :: n in caches <==> n == Cache && n in old(caches)
      ensures Cache in caches ==> caches[Cache] == old(caches)[Cache]
      ensures preloadEnabled == (old(preloadEnabled) || preloadSupported)
      ensures skipWaitingCalled == old(skipWaitingCalled)
    {
      KeptDistinct(names);
      PurgeOthers();
      preloadEnabled := preloadEnabled || preloadSupported;
    }

    /**
      Navigations: the preload response if there is one, else the network's response; when the preload or
      the network fails, the cached "/index.html" of the worker's cache, or an error. No response is stored.
     */
    method Navigation(preload: Preload, network: FetchOutcome) returns (reply: Reply)
      requires Valid()
      modifies this
      ensures Valid()
      ensures reply == NavigationReply(old(caches), preload, network)
      ensures NavigationFallback(preload, network) ==> caches == old(caches)[Cache := OwnStore(old(caches))] && names == OpenNames(old(names))
      ensures !NavigationFallback(preload, network) ==> caches == old(caches) && names == old(names)
      ensures skipWaitingCalled == old(skipWaitingCalled) && preloadEnabled == old(preloadEnabled)
    {
      if preload.Preloaded? {
        return Respond(preload.response);
      }
      if preload.NoPreload? && network.Fetched? {
        return Respond(network.response);
      }
      Open(Cache);
      if "/index.html" in caches[Cache] {
        reply := Respond(caches[Cache]["/index.html"]);
      } else {
        reply := ErrorResponse;
      }
    }

    /**
      `staleWhileRevalidate`: the cached copy if there is one, whatever the network does; otherwise the
      network's response, or `null` when the network fails. The copy is replaced exactly when the network
      answers 200.
     */
    method StaleWhileRevalidate(req: Request, network: FetchOutcome) returns (reply: Reply)
      requires Valid()
      modifies this
      ensures Valid()
      ensures reply == StaleReply(OwnStore(old(caches)), Url(req), network)
      ensures caches == old(caches)[Cache := Revalidated(OwnStore(old(caches)), Url(req), network)]
      ensures names == OpenNames(old(names))
      ensures skipWaitingCalled == old(skipWaitingCalled) && preloadEnabled == old(preloadEnabled)
    {
      Open(Cache);
      var url := Url(req);
      var cached := if url in caches[Cache] then Some(caches[Cache][url]) else None;
      if network.Fetched? && network.response.status == 200 {
        Put(Cache, url, network.response);
      }
      if cached.Some? {
        reply := Respond(cached.value);
      } else if network.Fetched? {
        reply := Respond(network.response);
      } else {
        reply := NullResponse;
      }
    }

    /**
      Other GET requests: the network's response whatever its status, stored in the worker's cache only when
      it is 200; on network failure the first cached copy in any cache, or an error, with nothing stored.
     */
    method NetworkFirst(req: Request, network: FetchOutcome) returns (reply: Reply)
      requires Valid()
      modifies this
      ensures Valid()
      ensures reply == NetworkReply(old(names), old(caches), Url(req), network)
      ensures Answered200(network) ==>
                caches == old(caches)[Cache := OwnStore(old(caches))[Url(req) := network.response]] && names == OpenNames(old(names))
      ensures !Answered200(network) ==> caches == old(caches) && names == old(names)
      ensures skipWaitingCalled == old(skipWaitingCalled) && preloadEnabled == old(preloadEnabled)
    {
      if network.Fetched? {
        if network.response.status == 200 {
          Open(Cache);
          Put(Cache, Url(req), network.response);
        }
        reply := Respond(network.response);
      } else {
        var m := MatchAll(names, caches, Url(req));
        reply := if m.Some? then Respond(m.value) else ErrorResponse;
      }
    }

    /** The fetch handler: requests other than GET are left alone; the rest go to the strategy `Route` picks. */
    method HandleFetch(req: Request, preload: Preload, network: FetchOutcome) returns (reply: Reply)
      requires Valid()
      modifies this
      ensures Valid()
      ensures reply == NotHandled <==> req.verb != "GET"
      ensures Route(req).Pass? ==> caches == old(caches) && names == old(names)
      ensures Route(req).NavigationFirst? ==>
                reply == NavigationReply(old(caches), preload, network)
                && caches == (if NavigationFallback(preload, network) then old(caches)[Cache := OwnStore(old(caches))] else old(caches))
                && names == (if NavigationFallback(preload, network) then OpenNames(old(names)) else old(names))
      ensures Route(req).StaleWhileRevalidate? ==>
                reply == StaleReply(OwnStore(old(caches)), Url(req), network)
                && caches == old(caches)[Cache := Revalidated(OwnStore(old(caches)), Url(req), network)]
                && names == OpenNames(old(names))
      ensures Route(req).NetworkFirst? ==>
                reply == NetworkReply(old(names), old(caches), Url(req), network)
                && caches == (if Answered200(network) then old(caches)[Cache := OwnStore(old(caches))[Url(req) := network.response]] else old(caches))
                && names == (if Answered200(network) then OpenNames(old(names)) else old(names))
      ensures forall n :: n != Cache ==> (n in names <==> n in old(names)) && (n in caches <==> n in old(caches))
      ensures forall n :: n != Cache && n in caches ==> caches[n] == old(caches)[n]
      ensures skipWaitingCalled == old(skipWaitingCalled) && preloadEnabled == old(preloadEnabled)
    {
      match Route(req)
      case Pass =>
        reply := NotHandled;
      case NavigationFirst =>
        reply := Navigation(preload, network);
      case StaleWhileRevalidate =>
        reply := StaleWhileRevalidate(req, network);
      case NetworkFirst =>
        reply := NetworkFirst(req, network);
    }
  }

  /**
    A worker's life up to taking control: install, and activate only when install succeeded (the browser
    discards a worker whose install failed). After a successful install and activation the worker's cache
    is the only one and holds the whole shell; after a failed install the caches are as install left them.
   */
  method InstallThenActivate(w: Worker, fetchShell: string -> FetchOutcome, preloadSupported: bool) returns (installed: bool)
    requires w.Valid()
    modifies w
    ensures w.Valid()
    ensures installed <==> ShellFetched(fetchShell)
    ensures installed ==> w.names == [Cache] && w.caches.Keys == {Cache}
    ensures installed ==> forall p :: p in Shell ==> p in w.caches[Cache] && fetchShell(p).Fetched? && w.caches[Cache][p] == fetchShell(p).response
    ensures installed ==> w.preloadEnabled == (old(w.preloadEnabled) || preloadSupported)
    ensures !installed ==> w.names == OpenNames(old(w.names)) && w.caches == old(w.caches)[Cache := OwnStore(old(w.caches))]
    ensures !installed ==> w.preloadEnabled == old(w.preloadEnabled)
    ensures w.skipWaitingCalled
  {
    installed := w.Install(fetchShell);
    if installed {
      BatchContents(fetchShell, Shell);
      w.Activate(preloadSupported);
    }
  }
}
