/**
 * The part of the Cache Storage API (section 5.4 and 5.5 of the W3C Service
 * Workers specification) the worker uses: named caches kept in creation
 * order, each a map from request URL to stored response; opening, putting,
 * matching across all caches, and deleting.
 */
module CacheStorage {
  import opened Wrappers

  /** A stored response; only the status is inspected by the worker. */
  datatype Response = Response(status: int, body: string)

  /** One named cache: request URL to response. */
  type Cache = map<string, Response>

  /** The origin's caches: their names in creation order, and their contents. */
  datatype Storage = Storage(names: seq<string>, caches: map<string, Cache>)

  predicate NoDuplicates(names: seq<string>)
  {
    forall i, j :: 0 <= i < j < |names| ==> names[i] != names[j]
  }

  /** Every name is listed once, and exactly the listed names have a cache. */
  predicate Valid(s: Storage)
  {
    && NoDuplicates(s.names)
    && (forall n :: n in s.names ==> n in s.caches)
    && (forall n :: n in s.caches ==> n in s.names)
  }

  /** `caches.open(name)`: an existing cache is reused, a missing one is
      created empty and becomes the newest. */
  function Open(s: Storage, name: string): (r: Storage)
    requires Valid(s)
    ensures Valid(r)
    ensures r.caches.Keys == s.caches.Keys + {name}
    ensures name in s.caches ==> r == s
    ensures name !in s.caches ==> r.caches[name] == map[] && r.names == s.names + [name]
    ensures forall n :: n in s.caches ==> r.caches[n] == s.caches[n]
  {
    if name in s.caches then s
    else Storage(s.names + [name], s.caches[name := map[]])
  }

  /** Replacing the contents of an existing cache. */
  function SetCache(s: Storage, name: string, contents: Cache): (r: Storage)
    requires Valid(s) && name in s.caches
    ensures Valid(r) && r.names == s.names
    ensures r.caches.Keys == s.caches.Keys
    ensures r.caches[name] == contents
    ensures forall n :: n in s.caches && n != name ==> r.caches[n] == s.caches[n]
  {
    Storage(s.names, s.caches[name := contents])
  }

  /** `cache.put(url, response)` on an existing cache. */
  function Put(s: Storage, name: string, url: string, response: Response): (r: Storage)
    requires Valid(s) && name in s.caches
    ensures Valid(r) && r.caches.Keys == s.caches.Keys
    ensures url in r.caches[name] && r.caches[name][url] == response
    ensures forall k :: k in s.caches[name] && k != url ==> k in r.caches[name] && r.caches[name][k] == s.caches[name][k]
    ensures forall k :: k in r.caches[name] ==> k == url || k in s.caches[name]
    ensures forall n :: n in s.caches && n != name ==> r.caches[n] == s.caches[n]
  {
    SetCache(s, name, s.caches[name][url := response])
  }

  /** The response for `url` in the first of the named caches that holds it. */
  function MatchIn(names: seq<string>, caches: map<string, Cache>, url: string): (r: Option<Response>)
    requires forall n :: n in names ==> n in caches
    ensures r.Some? <==> exists n :: n in names && url in caches[n]
    ensures r.Some? ==> exists n :: n in names && url in caches[n] && r.value == caches[n][url]
  {
    if names == [] then None
    else if url in caches[names[0]] then Some(caches[names[0]][url])
    else MatchIn(names[1..], caches, url)
  }

  /** Of several caches holding `url`, the oldest one answers. */
  lemma {:induction false} MatchInFirst(names: seq<string>, caches: map<string, Cache>, url: string, i: nat)
    requires forall n :: n in names ==> n in caches
    requires i < |names| && url in caches[names[i]]
    requires forall j :: 0 <= j < i ==> url !in caches[names[j]]
    ensures MatchIn(names, caches, url) == Some(caches[names[i]][url])
  {
    if i > 0 {
      assert url !in caches[names[0]];
      var rest := names[1..];
      assert rest[i - 1] == names[i];
      forall j | 0 <= j < i - 1
        ensures url !in caches[rest[j]]
      {
        assert rest[j] == names[j + 1];
      }
      MatchInFirst(rest, caches, url, i - 1);
    }
  }

  /** `caches.match(url)`: searches every cache, oldest first. */
  function Match(s: Storage, url: string): (r: Option<Response>)
    requires Valid(s)
    ensures r.Some? <==> exists n :: n in s.caches && url in s.caches[n]
    ensures r.Some? ==> exists n :: n in s.caches && url in s.caches[n] && r.value == s.caches[n][url]
  {
    MatchIn(s.names, s.caches, url)
  }

  /** The names of the list other than `name`, in order. */
  function RemoveName(names: seq<string>, name: string): (r: seq<string>)
    ensures forall n :: n in r <==> n in names && n != name
    ensures r == [] <==> forall i :: 0 <= i < |names| ==> names[i] == name
  {
    if names == [] then []
    else if names[0] == name then RemoveName(names[1..], name)
    else [names[0]] + RemoveName(names[1..], name)
  }

  /** Removing a name from a concatenation removes it from each part: with
      the one-name case this says the remaining names keep their order. */
  lemma {:induction false} RemoveNameAppend(a: seq<string>, b: seq<string>, name: string)
    ensures RemoveName(a + b, name) == RemoveName(a, name) + RemoveName(b, name)
  {
    if a == [] {
      assert a + b == b;
    } else {
      assert (a + b)[0] == a[0];
      assert (a + b)[1..] == a[1..] + b;
      RemoveNameAppend(a[1..], b, name);
    }
  }

  /** Removing a name from a list without repetitions leaves none. */
  lemma {:induction false} RemoveNameKeepsDistinct(names: seq<string>, name: string)
    requires NoDuplicates(names)
    ensures NoDuplicates(RemoveName(names, name))
  {
    if names != [] {
      var tail := names[1..];
      assert NoDuplicates(tail) by {
        forall i, j | 0 <= i < j < |tail|
          ensures tail[i] != tail[j]
        {
          assert tail[i] == names[i + 1] && tail[j] == names[j + 1];
        }
      }
      RemoveNameKeepsDistinct(tail, name);
      if names[0] != name {
        var rest := RemoveName(tail, name);
        assert names[0] !in tail;
        var r := [names[0]] + rest;
        forall i, j | 0 <= i < j < |r|
          ensures r[i] != r[j]
        {
          assert r[j] == rest[j - 1];
          if i > 0 {
            assert r[i] == rest[i - 1];
          }
        }
      }
    }
  }

  /** `caches.delete(name)`: the cache is gone, every other one untouched. */
  function Delete(s: Storage, name: string): (r: Storage)
    requires Valid(s)
    ensures Valid(r)
    ensures r.caches.Keys == s.caches.Keys - {name}
    ensures r.names == RemoveName(s.names, name)
    ensures forall n :: n in r.caches ==> r.caches[n] == s.caches[n]
  {
    RemoveNameKeepsDistinct(s.names, name);
    Storage(RemoveName(s.names, name), s.caches - {name})
  }

  /** Deleting each of the given names in turn. */
  function DeleteAll(s: Storage, doomed: seq<string>): (r: Storage)
    requires Valid(s)
    ensures Valid(r)
    ensures forall n :: n in r.caches <==> n in s.caches && n !in doomed
    ensures forall n :: n in r.caches ==> r.caches[n] == s.caches[n]
    decreases |doomed|
  {
    if doomed == [] then s
    else DeleteAll(Delete(s, doomed[0]), doomed[1..])
  }
}
