/** The two least-recently-used caches (ai-server/utils/cache.py and the phrase cache of
    ai-server/services/tts.py), each proved against one account of what a history of
    operations must leave cached. */
module LruCache {
  import opened Audio

  /** What was done to a cache. `hit` tells whether a lookup found its key. */
  datatype Event<V> =
    | Put(key: string, value: V, now: real)
    | Got(key: string, now: real, hit: bool)
    | Invalidated(key: string)
    | Cleared

  datatype Stamped<V> = Stamped(value: V, at: real)

  // ---- What a history must leave cached ----

  predicate Touches<V>(e: Event<V>, k: string) {
    match e
    case Put(key, _, _) => key == k
    case Got(key, _, hit) => key == k && hit
    case _ => false
  }

  function LastPut<V>(h: seq<Event<V>>, k: string): Option<Stamped<V>> {
    if h == [] then None
    else
      var e := h[|h| - 1];
      if e.Put? && e.key == k then Some(Stamped(e.value, e.now)) else LastPut(h[..|h| - 1], k)
  }

  /** Young enough; without a time to live everything is. */
  predicate Fresh<V>(put: Option<Stamped<V>>, now: real, ttl: Option<real>) {
    ttl.None? || (put.Some? && now - put.value.at < ttl.value)
  }

  /** `k` was put, and since then neither removed nor looked up when it had expired. */
  predicate Live<V>(h: seq<Event<V>>, k: string, ttl: Option<real>) {
    h != [] &&
    var before := h[..|h| - 1];
    match h[|h| - 1]
    case Put(key, _, _) => key == k || Live(before, k, ttl)
    case Got(key, now, _) => Live(before, k, ttl) && (key == k ==> Fresh(LastPut(before, k), now, ttl))
    case Invalidated(key) => key != k && Live(before, k, ttl)
    case Cleared => false
  }

  /** The other keys put or hit since `k` last was and not gone since. */
  function Newer<V>(h: seq<Event<V>>, k: string): set<string> {
    if h == [] then {}
    else
      var newer := Newer(h[..|h| - 1], k);
      match h[|h| - 1]
      case Put(key, _, _) => if key == k then {} else newer + {key}
      case Got(key, _, hit) => if !hit then newer - {key} else if key == k then {} else newer + {key}
      case Invalidated(key) => newer - {key}
      case Cleared => {}
  }

  /** At some time since `k` was last put or hit there were `max` newer keys. */
  predicate Crowded<V>(h: seq<Event<V>>, k: string, max: int) {
    h != [] && !Touches(h[|h| - 1], k) && (|Newer(h, k)| >= max || Crowded(h[..|h| - 1], k, max))
  }

  /** What must be cached: live keys never crowded out. */
  predicate Cached<V>(h: seq<Event<V>>, k: string, max: int, ttl: Option<real>) {
    Live(h, k, ttl) && !Crowded(h, k, max)
  }

  function Elems(s: seq<string>): set<string> {
    set x | x in s
  }

  /** No key twice, and after each key exactly its newer keys. */
  predicate Ranked<V>(order: seq<string>, h: seq<Event<V>>) {
    order == [] ||
    (order[0] !in order[1..] && Newer(h, order[0]) == Elems(order[1..]) && Ranked(order[1..], h))
  }

  /** `order` holds exactly the keys that must be cached, least recently used first. */
  ghost predicate Ordered<V>(order: seq<string>, h: seq<Event<V>>, max: int, ttl: Option<real>) {
    && Ranked(order, h)
    && (|order| <= max || order == [])
    && (forall k :: k in order <==> Cached(h, k, max, ttl))
  }

  function Without(order: seq<string>, k: string): (rest: seq<string>)
    ensures forall x :: x in rest <==> x in order && (x != k || k in rest)
    ensures |rest| == |order| - (if k in order then 1 else 0)
  {
    if order == [] then []
    else if order[0] == k then order[1..]
    else [order[0]] + Without(order[1..], k)
  }

  // ---- Steps of the order ----

  /** The history grows by one event. */
  lemma Snoc<V>(h: seq<Event<V>>, e: Event<V>)
    ensures (h + [e])[|h|] == e && (h + [e])[..|h|] == h
  {
  }

  lemma NewerSnoc<V>(h: seq<Event<V>>, e: Event<V>, x: string)
    requires !e.Cleared?
    ensures Newer(h + [e], x) ==
            if !Touches(e, e.key) then Newer(h, x) - {e.key}
            else if e.key == x then {} else Newer(h, x) + {e.key}
  {
    Snoc(h, e);
  }

  lemma RankedCons<V>(x: string, s: seq<string>, h: seq<Event<V>>)
    requires x !in s && Newer(h, x) == Elems(s) && Ranked(s, h)
    ensures Ranked([x] + s, h)
  {
    hide Newer;
    assert ([x] + s)[1..] == s;
  }

  lemma {:induction false} RankedTouch<V>(s: seq<string>, h: seq<Event<V>>, e: Event<V>)
    requires Ranked(s, h) && !e.Cleared? && Touches(e, e.key)
    ensures Ranked(Without(s, e.key) + [e.key], h + [e])
    decreases |s|
  {
    hide Newer;
    var k := e.key;
    if s == [] {
      hide Touches;
      NewerSnoc(h, e, k);
      RankedCons(k, [], h + [e]);
    } else {
      var x, rest := s[0], s[1..];
      var t, u := Without(s, k) + [k], Without(rest, k) + [k];
      assert x !in rest && Newer(h, x) == Elems(rest);
      RankedTouch(rest, h, e);
      if x == k {
        Absent(rest, k);
      } else {
        assert t == [x] + u;
        hide Touches, Ranked;
        NewerSnoc(h, e, x);
        assert Elems(u) == Elems(rest) + {k};
        RankedCons(x, u, h + [e]);
      }
    }
  }

  lemma {:induction false} Absent(s: seq<string>, k: string)
    requires k !in s
    ensures Without(s, k) == s
  {
    if s != [] {
      Absent(s[1..], k);
    }
  }

  lemma {:induction false} RankedRemove<V>(s: seq<string>, h: seq<Event<V>>, e: Event<V>)
    requires Ranked(s, h) && !e.Cleared? && !Touches(e, e.key)
    ensures Ranked(Without(s, e.key), h + [e]) && e.key !in Without(s, e.key)
    decreases |s|
  {
    var k, h' := e.key, h + [e];
    hide Newer;
    if s != [] {
      RankedRemove(s[1..], h, e);
      NewerSnoc(h, e, s[0]);
      if s[0] == k {
        Absent(s[1..], k);
      } else {
        var t, u := Without(s, k), Without(s[1..], k);
        assert t[1..] == u;
        assert Elems(u) == Elems(s[1..]) - {k};
      }
    }
  }

  lemma {:induction false} NewerIsBounded<V>(s: seq<string>, h: seq<Event<V>>, k: string)
    requires Ranked(s, h) && k in s
    ensures |Newer(h, k)| < |s|
  {
    hide Newer;
    if s[0] == k {
      AtMost(s[1..]);
    } else {
      NewerIsBounded(s[1..], h, k);
    }
  }

  lemma {:induction false} AtMost(s: seq<string>)
    ensures |Elems(s)| <= |s|
  {
    if s != [] {
      AtMost(s[1..]);
      assert Elems(s) == Elems(s[1..]) + {s[0]};
    }
  }

  lemma {:induction false} RankedSize<V>(s: seq<string>, h: seq<Event<V>>)
    requires Ranked(s, h)
    ensures |Elems(s)| == |s|
  {
    hide Newer;
    if s != [] {
      RankedSize(s[1..], h);
      assert Elems(s) == Elems(s[1..]) + {s[0]};
    }
  }

  /** The order after key `k` was put or hit: last, with the first dropped if there are too many. */
  function Touched(order: seq<string>, k: string, max: int): seq<string> {
    var t := Without(order, k) + [k];
    if |t| > max then t[1..] else t
  }

  lemma TouchedIsOrdered<V>(order: seq<string>, h: seq<Event<V>>, e: Event<V>, max: int, ttl: Option<real>)
    requires Ordered(order, h, max, ttl) && max >= 1
    requires e.Put? || (e.Got? && e.hit && e.key in order && Fresh(LastPut(h, e.key), e.now, ttl))
    ensures Ordered(Touched(order, e.key, max), h + [e], max, ttl)
  {
    hide LastPut, Fresh, Newer;
    var k, h' := e.key, h + [e];
    var t := Without(order, k) + [k];
    var o := Touched(order, k, max);
    Snoc(h, e);
    RankedTouch(order, h, e);
    forall x ensures x in o <==> Cached(h', x, max, ttl) {
      if x == k {
        assert t[|t| - 1] == k;
        assert o[|o| - 1] == k;
      } else if x in o {
        NewerIsBounded(o, h', x);
        assert x in t && x in order;
        assert Cached(h', x, max, ttl);
      } else if x in t {
        assert x == t[0];
        RankedSize(t[1..], h');
        assert !Cached(h', x, max, ttl);
      } else {
        assert x !in order;
      }
    }
  }

  lemma RemovedIsOrdered<V>(order: seq<string>, h: seq<Event<V>>, e: Event<V>, max: int, ttl: Option<real>)
    requires Ordered(order, h, max, ttl)
    requires e.Invalidated? || (e.Got? && !e.hit)
    requires e.Got? ==> e.key !in order || !Fresh(LastPut(h, e.key), e.now, ttl)
    ensures Ordered(Without(order, e.key), h + [e], max, ttl)
  {
    hide LastPut, Fresh, Newer;
    var k, h' := e.key, h + [e];
    var o := Without(order, k);
    Snoc(h, e);
    RankedRemove(order, h, e);
    forall x ensures x in o <==> Cached(h', x, max, ttl) {
      if x in o {
        NewerIsBounded(o, h', x);
      } else {
        assert x == k || x !in order;
      }
    }
  }

  lemma ClearedIsOrdered<V>(h: seq<Event<V>>, max: int, ttl: Option<real>)
    ensures Ordered([], h + [Cleared], max, ttl)
  {
    Snoc(h, Cleared);
  }

  // ---- The history fixes the order, and what a lookup finds ----

  /** Whether a lookup finds its key. */
  predicate Hit<V>(h: seq<Event<V>>, k: string, now: real, max: int, ttl: Option<real>) {
    Cached(h, k, max, ttl) && Fresh(LastPut(h, k), now, ttl)
  }

  function Lookups<V>(h: seq<Event<V>>, hit: bool): nat {
    if h == [] then 0
    else
      var e := h[|h| - 1];
      Lookups(h[..|h| - 1], hit) + (if e.Got? && e.hit == hit then 1 else 0)
  }

  lemma {:induction false} RankedOnce<V>(a: seq<string>, b: seq<string>, h: seq<Event<V>>)
    requires Ranked(a, h) && Ranked(b, h) && Elems(a) == Elems(b)
    ensures a == b
  {
    hide Newer;
    RankedSize(a, h);
    RankedSize(b, h);
    if a != [] {
      assert a[0] in Elems(a);
      RankedSize(a[1..], h);
      if a[0] != b[0] {
        NewerIsBounded(b[1..], h, a[0]);
      }
      assert Elems(a[1..]) == Elems(a) - {a[0]} && Elems(b[1..]) == Elems(b) - {b[0]};
      RankedOnce(a[1..], b[1..], h);
    }
  }

  /** A history leaves one possible content in one possible order. */
  lemma OneOrder<V>(a: seq<string>, b: seq<string>, h: seq<Event<V>>, max: int, ttl: Option<real>)
    requires Ordered(a, h, max, ttl) && Ordered(b, h, max, ttl)
    ensures a == b
  {
    hide Ranked, Cached;
    assert forall k :: k in a <==> k in b;
    assert Elems(a) == Elems(b);
    RankedOnce(a, b, h);
  }

  /** A value just put is found for as long as its time to live, and no longer, if there is room
      for it at all. */
  lemma LivesOut<V>(h: seq<Event<V>>, k: string, v: V, at: real, now: real, max: int, ttl: Option<real>)
    ensures
      var h' := h + [Put(k, v, at)];
      && LastPut(h', k) == Some(Stamped(v, at))
      && (Hit(h', k, now, max, ttl) <==> ttl.None? || now < at + ttl.value)
  {
    Snoc(h, Put(k, v, at));
  }

  /** A removed key is not found, whatever its age, and the removal of another key changes nothing
      for it. */
  lemma RemovalIsExact<V>(h: seq<Event<V>>, j: string, k: string, now: real, max: int, ttl: Option<real>)
    ensures max >= 1 ==> (Hit(h + [Invalidated(j)], k, now, max, ttl) <==> j != k && Hit(h, k, now, max, ttl))
    ensures !Hit(h + [Invalidated(k)], k, now, max, ttl) && !Hit(h + [Cleared], k, now, max, ttl)
  {
    var e: Event<V> := Invalidated(j);
    Snoc(h, e);
    Snoc(h, Invalidated(k));
    Snoc(h, Cleared);
    NewerSnoc(h, e, k);
    Subset(Newer(h, k) - {j}, Newer(h, k));
    if h == [] || Touches(h[|h| - 1], k) {
      TouchedHasNoNewer(h, k);
    }
    hide Newer;
  }

  lemma TouchedHasNoNewer<V>(h: seq<Event<V>>, k: string)
    requires h == [] || Touches(h[|h| - 1], k)
    ensures Newer(h, k) == {}
  {
  }

  /** The other keys put or hit since `k` last was, whether or not they are gone by now. */
  function TouchedSince<V>(h: seq<Event<V>>, k: string): set<string> {
    if h == [] then {}
    else
      var e, since := h[|h| - 1], TouchedSince(h[..|h| - 1], k);
      if e.Put? || (e.Got? && e.hit) then if e.key == k then {} else since + {e.key} else since
  }

  /** A key neither removed nor expired is still there while fewer than `max` others were
      put or hit since it last was, whatever else happened. */
  lemma {:induction false} Survival<V>(h: seq<Event<V>>, k: string, now: real, max: int, ttl: Option<real>)
    requires Live(h, k, ttl) && Fresh(LastPut(h, k), now, ttl)
    requires |TouchedSince(h, k)| < max
    ensures Hit(h, k, now, max, ttl)
  {
    NeverCrowded(h, k, max);
  }

  lemma {:induction false} NeverCrowded<V>(h: seq<Event<V>>, k: string, max: int)
    requires |TouchedSince(h, k)| < max
    ensures !Crowded(h, k, max)
  {
    if h != [] && !Touches(h[|h| - 1], k) {
      Subset(TouchedSince(h[..|h| - 1], k), TouchedSince(h, k));
      NeverCrowded(h[..|h| - 1], k, max);
      NewerWasTouched(h, k);
      Subset(Newer(h, k), TouchedSince(h, k));
    }
  }

  lemma {:induction false} NewerWasTouched<V>(h: seq<Event<V>>, k: string)
    ensures Newer(h, k) <= TouchedSince(h, k)
  {
    if h != [] {
      NewerWasTouched(h[..|h| - 1], k);
    }
  }

  lemma Subset(a: set<string>, b: set<string>)
    requires a <= b
    ensures |a| <= |b|
  {
    assert b == a + (b - a);
  }

  /** The entries belong to the keys in order and stem from the latest puts. */
  ghost predicate Holds<V>(order: seq<string>, store: map<string, Stamped<V>>, h: seq<Event<V>>) {
    && (forall k :: k in store <==> k in order)
    && forall k :: k in store ==> LastPut(h, k) == Some(store[k])
  }

  lemma LookupStep<V>(order: seq<string>, store: map<string, Stamped<V>>, h: seq<Event<V>>, e: Event<V>,
                      max: int, ttl: Option<real>)
    requires Ordered(order, h, max, ttl) && Holds(order, store, h)
    requires e.Got? && (e.hit <==> e.key in order && Fresh(LastPut(h, e.key), e.now, ttl))
    ensures e.hit <==> Hit(h, e.key, e.now, max, ttl)
    ensures
      var o := if e.hit then Without(order, e.key) + [e.key] else Without(order, e.key);
      Ordered(o, h + [e], max, ttl) && Holds(o, if e.hit then store else store - {e.key}, h + [e])
    ensures forall b :: Lookups(h + [e], b) == Lookups(h, b) + (if e.hit == b then 1 else 0)
  {
    hide Ranked, Cached;
    Snoc(h, e);
    if e.hit {
      TouchedIsOrdered(order, h, e, max, ttl);
    } else {
      RemovedIsOrdered(order, h, e, max, ttl);
      assert e.key !in Without(order, e.key) by {
        RankedRemove(order, h, e);
      }
    }
  }

  lemma LastPutSnoc<V>(h: seq<Event<V>>, e: Event<V>, k: string)
    requires e.Put?
    ensures LastPut(h + [e], k) == if e.key == k then Some(Stamped(e.value, e.now)) else LastPut(h, k)
  {
    Snoc(h, e);
  }

  lemma HoldsPut<V>(order: seq<string>, store: map<string, Stamped<V>>, h: seq<Event<V>>, e: Event<V>,
                    o: seq<string>, store': map<string, Stamped<V>>)
    requires Holds(order, store, h) && e.Put?
    requires forall k :: k in store' <==> k in o
    requires forall k :: k in store' && k != e.key ==> k in store && store'[k] == store[k]
    requires e.key in store' ==> store'[e.key] == Stamped(e.value, e.now)
    ensures Holds(o, store', h + [e])
  {
    hide LastPut;
    forall k | k in store' ensures LastPut(h + [e], k) == Some(store'[k]) {
      LastPutSnoc(h, e, k);
    }
  }

  lemma LookupsPut<V>(h: seq<Event<V>>, e: Event<V>, b: bool)
    requires e.Put?
    ensures Lookups(h + [e], b) == Lookups(h, b)
  {
    Snoc(h, e);
  }

  lemma PutOrder<V>(order: seq<string>, h: seq<Event<V>>, e: Event<V>, max: int, ttl: Option<real>)
    requires Ordered(order, h, max, ttl) && e.Put? && max >= 1
    ensures
      var full := e.key !in order && |order| == max;
      && Ordered((if full then order[1..] else Without(order, e.key)) + [e.key], h + [e], max, ttl)
      && (full ==> order[0] !in order[1..])
  {
    hide Cached, Newer, Fresh, Without;
    TouchedIsOrdered(order, h, e, max, ttl);
    if e.key !in order {
      Absent(order, e.key);
      if |order| == max {
        assert order[0] !in order[1..];
        hide Ranked;
        assert (order + [e.key])[1..] == order[1..] + [e.key];
      }
    }
  }

  lemma PutStep<V>(order: seq<string>, store: map<string, Stamped<V>>, h: seq<Event<V>>, e: Event<V>,
                   max: int, ttl: Option<real>)
    requires Ordered(order, h, max, ttl) && Holds(order, store, h) && e.Put? && max >= 1
    ensures
      var full := e.key !in order && |order| == max;
      var o := (if full then order[1..] else Without(order, e.key)) + [e.key];
      var kept := if full then store - {order[0]} else store;
      && Ordered(o, h + [e], max, ttl)
      && Holds(o, kept[e.key := Stamped(e.value, e.now)], h + [e])
  {
    hide Ordered, Without, LastPut;
    PutOrder(order, h, e, max, ttl);
    var k, x := e.key, Stamped(e.value, e.now);
    var full := k !in order && |order| == max;
    var o := (if full then order[1..] else Without(order, k)) + [k];
    var store' := (if full then store - {order[0]} else store)[k := x];
    HoldsPut(order, store, h, e, o, store');
  }

  lemma InvalidateStep<V>(order: seq<string>, store: map<string, Stamped<V>>, h: seq<Event<V>>, key: string,
                          max: int, ttl: Option<real>)
    requires Ordered(order, h, max, ttl) && Holds(order, store, h)
    ensures
      var e := Invalidated(key);
      Ordered(Without(order, key), h + [e], max, ttl) && Holds(Without(order, key), store - {key}, h + [e])
    ensures forall b :: Lookups(h + [Invalidated(key)], b) == Lookups(h, b)
  {
    hide Ranked, Cached;
    var e: Event<V> := Invalidated(key);
    Snoc(h, e);
    RemovedIsOrdered(order, h, e, max, ttl);
    assert key !in Without(order, key) by {
      RankedRemove(order, h, e);
    }
  }

  class LRUCache<V> {
    const maxSize: int
    const ttl: real
    /** The ordered dictionary: its keys, least recently used first, and their entries. */
    var order: seq<string>
    var store: map<string, Stamped<V>>
    var hits: nat
    var misses: nat
    ghost var history: seq<Event<V>>

    ghost predicate Valid()
      reads this
    {
      && Ordered(order, history, maxSize, Some(ttl))
      && Holds(order, store, history)
      && hits == Lookups(history, true) && misses == Lookups(history, false)
    }

    constructor (maxSize: int := 64, ttl: real := 60.0)
      ensures Valid() && history == [] && this.maxSize == maxSize && this.ttl == ttl
    {
      this.maxSize, this.ttl := maxSize, ttl;
      order, store, hits, misses, history := [], map[], 0, 0, [];
    }

    method Get(key: string, now: real) returns (r: Option<V>)
      requires Valid()
      modifies this
      ensures Valid() && history == old(history) + [Got(key, now, r.Some?)]
      ensures r.Some? <==> Hit(old(history), key, now, maxSize, Some(ttl))
      ensures r.Some? ==> LastPut(old(history), key).Some? && r.value == LastPut(old(history), key).value.value
    {
      hide Ranked, Cached, LastPut, Lookups, Touched;
      r := None;
      if key in store {
        var entry := store[key];
        if now - entry.at < ttl {
          LookupStep(order, store, history, Got(key, now, true), maxSize, Some(ttl));
          order := Without(order, key) + [key];
          hits := hits + 1;
          r := Some(entry.value);
        } else {
          LookupStep(order, store, history, Got(key, now, false), maxSize, Some(ttl));
          order := Without(order, key);
          store := store - {key};
        }
      } else {
        LookupStep(order, store, history, Got(key, now, false), maxSize, Some(ttl));
        Absent(order, key);
      }
      if r.None? {
        misses := misses + 1;
      }
      history := history + [Got(key, now, r.Some?)];
    }

    /** With no room for any entry the source raises on the empty dictionary. */
    method Put(key: string, value: V, now: real) returns (ok: bool)
      requires Valid()
      modifies this
      ensures Valid() && (ok <==> maxSize >= 1)
      ensures history == old(history) + (if ok then [Event.Put(key, value, now)] else [])
    {
      hide Ranked, Cached, LastPut, Lookups;
      ghost var e: Event<V> := Event.Put(key, value, now);
      LookupsPut(history, e, true);
      LookupsPut(history, e, false);
      if maxSize >= 1 {
        PutStep(order, store, history, e, maxSize, Some(ttl));
      }
      if key in store {
        store := store[key := Stamped(value, now)];
        order := Without(order, key) + [key];
      } else {
        Absent(order, key);
        while |order| >= maxSize
          invariant key !in store && unchanged(`hits) && unchanged(`misses) && unchanged(`history)
          invariant
            || (order == old(order) && store == old(store))
            || (|old(order)| == maxSize >= 1 && order == old(order)[1..] && store == old(store) - {old(order)[0]})
          decreases |order|
        {
          if order == [] {
            assert history + [] == history;
            return false;
          }
          store := store - {order[0]};
          order := order[1..];
        }
        store := store[key := Stamped(value, now)];
        order := order + [key];
      }
      ok := true;
      history := history + [e];
    }

    method Invalidate(key: string) returns (existed: bool)
      requires Valid()
      modifies this
      ensures Valid() && history == old(history) + [Invalidated(key)]
      ensures existed <==> Cached(old(history), key, maxSize, Some(ttl))
      ensures key !in store && store == old(store) - {key} && hits == old(hits) && misses == old(misses)
    {
      hide Ranked, Cached, LastPut, Lookups;
      InvalidateStep(order, store, history, key, maxSize, Some(ttl));
      existed := key in store;
      if existed {
        store, order := store - {key}, Without(order, key);
      } else {
        Absent(order, key);
      }
      history := history + [Invalidated(key)];
    }

    method Clear()
      requires Valid()
      modifies this
      ensures Valid() && history == old(history) + [Cleared]
      ensures order == [] && store == map[] && hits == old(hits) && misses == old(misses)
    {
      ClearedIsOrdered(history, maxSize, Some(ttl));
      Snoc(history, Cleared);
      store, order := map[], [];
      history := history + [Cleared];
    }
  }

  // ---- The phrase cache, and its agreement with the other ----

  /** As `Holds`, for entries without time stamps. */
  ghost predicate HoldsValues<V>(order: seq<string>, store: map<string, V>, h: seq<Event<V>>) {
    && (forall k :: k in store <==> k in order)
    && forall k :: k in store ==> LastPut(h, k).Some? && LastPut(h, k).value.value == store[k]
  }

  lemma HoldsSet<V>(order: seq<string>, store: map<string, V>, h: seq<Event<V>>, e: Event<V>,
                    o: seq<string>, store': map<string, V>)
    requires HoldsValues(order, store, h) && e.Put?
    requires forall k :: k in store' <==> k in o
    requires forall k :: k in store' && k != e.key ==> k in store && store'[k] == store[k]
    requires e.key in store' ==> store'[e.key] == e.value
    ensures HoldsValues(o, store', h + [e])
  {
    hide LastPut;
    forall k | k in store' ensures LastPut(h + [e], k).Some? && LastPut(h + [e], k).value.value == store'[k] {
      LastPutSnoc(h, e, k);
    }
  }

  lemma StoreStep<V>(order: seq<string>, h: seq<Event<V>>, e: Event<V>, max: int)
    requires Ordered(order, h, max, None) && max >= 1 && e.Put?
    ensures
      var moved := Without(order, e.key) + [e.key];
      && Ordered(if |moved| > max then moved[1..] else moved, h + [e], max, None)
      && moved[0] !in moved[1..]
  {
    RankedTouch(order, h, e);
    hide Cached, Newer, Without;
    TouchedIsOrdered(order, h, e, max, None);
  }

  lemma FoundStep<V>(order: seq<string>, store: map<string, V>, h: seq<Event<V>>, e: Event<V>, max: int)
    requires Ordered(order, h, max, None) && HoldsValues(order, store, h) && max >= 1
    requires e.Got? && (e.hit <==> e.key in order)
    ensures
      var o := if e.hit then Without(order, e.key) + [e.key] else order;
      Ordered(o, h + [e], max, None) && HoldsValues(o, store, h + [e])
  {
    hide Cached, Newer, Ranked;
    Snoc(h, e);
    if e.hit {
      TouchedIsOrdered(order, h, e, max, None);
    } else {
      RemovedIsOrdered(order, h, e, max, None);
      Absent(order, e.key);
    }
  }

  class TTSPhraseLRUCache<V> {
    const maxsize: int
    var order: seq<string>
    var store: map<string, V>
    ghost var history: seq<Event<V>>

    ghost predicate Valid()
      reads this
    {
      && HoldsValues(order, store, history)
      && if maxsize >= 1 then Ordered(order, history, maxsize, None) else order == []
    }

    constructor (maxsize: int := 256)
      ensures Valid() && history == [] && this.maxsize == maxsize
    {
      this.maxsize, order, store, history := maxsize, [], map[], [];
    }

    /** Insert first, then drop the oldest key if there is one too many. */
    method SetItem(key: string, value: V, ghost now: real)
      requires Valid()
      modifies this
      ensures Valid() && history == old(history) + [Put(key, value, now)]
    {
      hide Ranked, Cached, LastPut;
      ghost var e := Put(key, value, now);
      if maxsize >= 1 {
        StoreStep(order, history, e, maxsize);
      }
      if key !in order {
        Absent(order, key);
      }
      if key in store {
        order := Without(order, key) + [key];
        store := store[key := value];
      } else {
        order := order + [key];
        store := store[key := value];
      }
      assert forall k :: k in store <==> k in order;
      if |order| > maxsize {
        var oldest := order[0];
        assert order == [oldest] + order[1..];
        store, order := store - {oldest}, order[1..];
      }
      HoldsSet(old(order), old(store), history, e, order, store);
      history := history + [e];
    }

    /** The lookup half of `synthesize`: membership does not move the key, subscription does. */
    method Lookup(key: string, ghost now: real) returns (r: Option<V>)
      requires Valid()
      modifies this
      ensures Valid() && history == old(history) + [Got(key, now, r.Some?)]
      ensures maxsize >= 1 ==> (r.Some? <==> Hit(old(history), key, now, maxsize, None))
      ensures maxsize < 1 ==> r.None?
      ensures r.Some? ==> LastPut(old(history), key).Some? && r.value == LastPut(old(history), key).value.value
    {
      hide Ranked, Cached, LastPut;
      ghost var e: Event<V> := Got(key, now, key in store);
      Snoc(history, e);
      if maxsize >= 1 {
        FoundStep(order, store, history, e, maxsize);
      }
      r := None;
      if key in store {
        order := Without(order, key) + [key];
        r := Some(store[key]);
      }
      history := history + [e];
    }
  }

  /** Calls from outside, with the times at which the clock is read. */
  datatype Op<V> = Lookup(key: string, now: real) | Store(key: string, value: V, now: real)

  /** The history that a sequence of calls makes. */
  function Recorded<V>(ops: seq<Op<V>>, max: int, ttl: Option<real>): seq<Event<V>> {
    if ops == [] then []
    else
      var h := Recorded(ops[..|ops| - 1], max, ttl);
      match ops[|ops| - 1]
      case Lookup(key, now) => h + [Got(key, now, Hit(h, key, now, max, ttl))]
      case Store(key, value, now) => h + [Put(key, value, now)]
  }

  /** No lookup came too late for its key. */
  predicate NoneExpired<V>(ops: seq<Op<V>>, max: int, ttl: real) {
    ops == [] ||
    var before, op := ops[..|ops| - 1], ops[|ops| - 1];
    && NoneExpired(before, max, ttl)
    && (op.Lookup? ==> Fresh(LastPut(Recorded(before, max, None), op.key), op.now, Some(ttl))
                       || !Live(Recorded(before, max, None), op.key, None))
  }

  lemma {:induction false} ExpiryUnseen<V>(ops: seq<Op<V>>, max: int, ttl: real)
    requires NoneExpired(ops, max, ttl)
    ensures Recorded(ops, max, Some(ttl)) == Recorded(ops, max, None)
    ensures forall k :: Live(Recorded(ops, max, None), k, Some(ttl)) <==> Live(Recorded(ops, max, None), k, None)
  {
    if ops != [] {
      var before, op := ops[..|ops| - 1], ops[|ops| - 1];
      ExpiryUnseen(before, max, ttl);
      var h := Recorded(before, max, None);
      hide LastPut, Crowded;
      Snoc(h, Recorded(ops, max, None)[|h|]);
    }
  }

  /** Evicting after the insertion or before it makes no difference: after the same lookups
      and stores, none of them too late, both caches hold the same keys in the same order of
      recency, with the same values. */
  lemma TwoCachesAgree<V>(ops: seq<Op<V>>, c: LRUCache<V>, p: TTSPhraseLRUCache<V>)
    requires c.Valid() && p.Valid() && c.maxSize == p.maxsize >= 1
    requires c.history == Recorded(ops, c.maxSize, Some(c.ttl)) && NoneExpired(ops, c.maxSize, c.ttl)
    requires p.history == Recorded(ops, p.maxsize, None)
    ensures c.order == p.order && c.store.Keys == p.store.Keys
    ensures forall k :: k in c.store ==> c.store[k].value == p.store[k]
  {
    hide Ranked, LastPut, Crowded, Live, Recorded, NoneExpired;
    ExpiryUnseen(ops, c.maxSize, c.ttl);
    OneOrder(c.order, p.order, c.history, c.maxSize, None);
  }
}
