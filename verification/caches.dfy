/**
 * The per-conference cache and the registry that holds one cache per
 * conference id. The cache's own internals (subscriptions, persistence,
 * event emitters) are not part of this model: `Cache` keeps only the index of
 * materialised record objects and gives `Get`, `GetAll` and `AddItemToCache`
 * the contracts the data layer relies on.
 */
module Caching {
  import opened Records

  /** Every object of `index` sits under its own key and belongs to conference `conferenceId`. */
  ghost predicate WellIndexed(index: map<(Table, Id), Item>, conferenceId: string) {
    forall k :: k in index ==>
      index[k].table == k.0 && index[k].id == k.1 && index[k].owner == InCache(conferenceId)
  }

  /**
   * What a cache answers for (t, id) when its index is `view`: the indexed
   * object, else one materialised (for conference `key`) from the remote
   * record, else nothing.
   */
  function CacheAnswer(view: map<(Table, Id), Item>, store: Store, t: Table, id: Id, key: string): Option<Item> {
    if (t, id) in view then Some(view[(t, id)])
    else if store.online && (t, id) in store.records then Some(Item(t, id, InCache(key), store.records[(t, id)]))
    else None
  }

  /** The index after a cache answered `r` for (t, id): an answer not yet indexed is added. */
  function Indexed(view: map<(Table, Id), Item>, t: Table, id: Id, r: Option<Item>): map<(Table, Id), Item> {
    if r.Some? then view[(t, id) := r.value] else view
  }

  /** Indexes by conference id: what the registry's caches hold. */
  type Indexes = map<string, map<(Table, Id), Item>>

  /** Every conference of `before` is still in `after`, and its index has lost no key. */
  ghost predicate Extends(before: Indexes, after: Indexes) {
    forall k :: k in before ==> k in after && before[k].Keys <= after[k].Keys
  }

  /** Every conference of `before` outside `touched` has the same index in `after`. */
  ghost predicate Unchanged(before: Indexes, after: Indexes, touched: set<string>) {
    forall k :: k in before && k !in touched ==> k in after && after[k] == before[k]
  }

  /**
   * Going from `before` to `after` adds or replaces entries only under
   * `entries`: every other entry of `after` was in `before`, in the same
   * conference's index, holding the same object.
   */
  ghost predicate OnlyTouched(before: Indexes, after: Indexes, entries: set<(Table, Id)>) {
    forall k, e :: k in after && e in after[k] && e !in entries ==>
      k in before && e in before[k] && after[k][e] == before[k][e]
  }

  /** Two steps that each keep every index outside `touched` and lose no key keep them together. */
  lemma KeptChain(a: Indexes, b: Indexes, c: Indexes, touched: set<string>)
    requires Extends(a, b) && Unchanged(a, b, touched)
    requires Extends(b, c) && Unchanged(b, c, touched)
    ensures Extends(a, c) && Unchanged(a, c, touched)
  {
  }

  /** Replacing the index of conference `key` by `v`, which keeps the old keys and agrees with the old index outside `entries`. */
  lemma UpdateFrames(idx: Indexes, key: string, v: map<(Table, Id), Item>, entries: set<(Table, Id)>)
    requires key in idx ==> idx[key].Keys <= v.Keys
    requires forall e :: e in v && e !in entries ==> key in idx && e in idx[key] && v[e] == idx[key][e]
    ensures Extends(idx, idx[key := v]) && Unchanged(idx, idx[key := v], {key})
    ensures OnlyTouched(idx, idx[key := v], entries)
  {
  }

  /**
   * The frame facts of two consecutive steps combine, under any touched
   * conferences and entries covering both steps'.
   */
  lemma ChainFrames(a: Indexes, b: Indexes, c: Indexes, t1: set<string>, t2: set<string>, t: set<string>,
                    e1: set<(Table, Id)>, e2: set<(Table, Id)>, e: set<(Table, Id)>)
    requires t1 <= t && t2 <= t && e1 <= e && e2 <= e
    requires Extends(a, b) && Unchanged(a, b, t1) && OnlyTouched(a, b, e1)
    requires Extends(b, c) && Unchanged(b, c, t2) && OnlyTouched(b, c, e2)
    ensures Extends(a, c) && Unchanged(a, c, t) && OnlyTouched(a, c, e)
  {
  }

  /** Frame facts still hold for more touched conferences and entries. */
  lemma WidenFrames(a: Indexes, b: Indexes, t1: set<string>, t: set<string>, e1: set<(Table, Id)>, e: set<(Table, Id)>)
    requires t1 <= t && e1 <= e
    requires Unchanged(a, b, t1) && OnlyTouched(a, b, e1)
    ensures Unchanged(a, b, t) && OnlyTouched(a, b, e)
  {
  }

  class Cache {
    const conferenceId: string
    /** Materialised record objects by (table, id). */
    var index: map<(Table, Id), Item>
    /** Set once `Initialise` has run. */
    var ready: bool

    ghost predicate Valid()
      reads this
    {
      WellIndexed(index, conferenceId)
    }

    constructor (conferenceId: string)
      ensures this.conferenceId == conferenceId
      ensures Valid() && index == map[] && !ready
    {
      this.conferenceId := conferenceId;
      index := map[];
      ready := false;
    }

    /** Subscriptions and initial population are outside the model. */
    method Initialise()
      requires Valid()
      modifies this
      ensures Valid() && ready && index == old(index)
    {
      ready := true;
    }

    /**
     * The indexed object for (t, id); else one materialised from the remote
     * record, which is then indexed; else `None` (absent or unreachable).
     */
    method Get(store: Store, t: Table, id: Id) returns (r: Option<Item>)
      requires Valid()
      modifies this
      ensures Valid() && ready == old(ready)
      ensures r.Some? <==> (t, id) in old(index) || (store.online && (t, id) in store.records)
      ensures r.Some? ==> r.value.table == t && r.value.id == id && r.value.owner == InCache(conferenceId)
      ensures (t, id) in old(index) ==> r == Some(old(index)[(t, id)]) && index == old(index)
      ensures (t, id) !in old(index) && r.Some? ==>
        r.value.attrs == store.records[(t, id)] && index == old(index)[(t, id) := r.value]
      ensures r.None? ==> index == old(index)
      ensures r.Some? ==> (t, id) in index && index[(t, id)] == r.value
      ensures forall k :: k in old(index) ==> k in index && index[k] == old(index)[k]
      ensures forall k :: k in index && k !in old(index) ==> k == (t, id) && r.Some? && index[k].attrs == store.records[k]
    {
      if (t, id) in index {
        r := Some(index[(t, id)]);
      } else if store.online && (t, id) in store.records {
        var item := Item(t, id, InCache(conferenceId), store.records[(t, id)]);
        index := index[(t, id) := item];
        r := Some(item);
      } else {
        r := None;
      }
    }

    /** Every indexed object of table `t`. */
    method GetAll(t: Table) returns (items: set<Item>)
      requires Valid()
      ensures forall x :: x in items <==> (x.table, x.id) in index && index[(x.table, x.id)] == x && x.table == t
    {
      items := set k | k in index && k.0 == t :: index[k];
    }

    /**
     * Materialises a remote record as an object of this cache, replacing any
     * object previously indexed under the same key.
     */
    method AddItemToCache(p: ParseObject, t: Table) returns (item: Item)
      requires Valid()
      modifies this
      ensures Valid() && ready == old(ready)
      ensures item == Item(t, p.id, InCache(conferenceId), p.attrs)
      ensures index == old(index)[(t, p.id) := item]
    {
      item := Item(t, p.id, InCache(conferenceId), p.attrs);
      index := index[(t, p.id) := item];
    }
  }

  /** The registry from conference id to that conference's cache. */
  class Caches {
    var caches: map<string, Cache>
    /** Every cache this registry has handed out. */
    ghost var Repr: set<Cache>
    /** The index of every registered cache, by conference id. */
    ghost var indexes: map<string, map<(Table, Id), Item>>

    /**
     * Each registered cache is filed under its own conference id, is valid,
     * and its index is the one `indexes` records; so two conference ids never
     * share a cache.
     */
    ghost predicate Valid()
      reads this, Repr
    {
      && indexes.Keys == caches.Keys
      && forall k :: k in caches ==>
           && caches[k] in Repr && caches[k].conferenceId == k
           && caches[k].index == indexes[k] && WellIndexed(indexes[k], k)
    }

    /** The index registered for `key`, empty when no cache is registered there. */
    ghost function ViewOf(key: string): (m: map<(Table, Id), Item>)
      reads this
      ensures key in indexes ==> m == indexes[key]
      ensures key !in indexes ==> m == map[]
    {
      if key in indexes then indexes[key] else map[]
    }

    /**
     * Every cache registered before is still registered, as the same
     * instance, and its index has lost no key.
     */
    twostate predicate Grows()
      reads this
    {
      && (forall k :: k in old(caches) ==> k in caches && caches[k] == old(caches[k]))
      && Extends(old(indexes), indexes)
    }

    /** Every cache registered before, except those of `touched`, has the same index. */
    twostate predicate Kept(new touched: set<string>)
      reads this
    {
      Unchanged(old(indexes), indexes, touched)
    }

    /** No cache is newly registered except under the conference ids in `keys`. */
    twostate predicate Registers(new keys: set<string>)
      reads this
    {
      caches.Keys <= old(caches.Keys) + keys
    }

    /**
     * Every index entry outside `entries` was already there, in a cache
     * registered before, holding the same object: a new or replaced entry
     * sits under one of `entries`.
     */
    twostate predicate Touches(new entries: set<(Table, Id)>)
      reads this
    {
      OnlyTouched(old(indexes), indexes, entries)
    }

    constructor ()
      ensures Valid() && caches == map[] && Repr == {}
    {
      caches := map[];
      Repr := {};
      indexes := map[];
    }

    /** Number of live caches (a diagnostic). */
    function Count(): (n: nat)
      reads this
      ensures n == 0 <==> caches == map[]
      ensures n == |caches.Keys|
    {
      |caches|
    }

    /** Drops every cache. */
    method Clear()
      requires Valid()
      modifies this
      ensures Valid() && caches == map[] && Count() == 0 && Repr == old(Repr)
    {
      caches := map[];
      indexes := map[];
    }

    /**
     * The cache registered for `conferenceId`; when there is none, a new one
     * is registered first and initialised afterwards.
     */
    method Get(conferenceId: string) returns (cache: Cache)
      requires Valid()
      modifies this
      ensures Valid() && fresh(Repr - old(Repr)) && old(Repr) <= Repr
      ensures Grows() && Kept({}) && Registers({conferenceId}) && Touches({})
      ensures conferenceId in caches && caches[conferenceId] == cache
      ensures cache.conferenceId == conferenceId && cache.Valid()
      ensures forall k :: k in caches && k != conferenceId ==> caches[k] != cache
      ensures conferenceId in old(caches) ==>
        cache == old(caches[conferenceId]) && caches == old(caches) && indexes == old(indexes) && Count() == old(Count())
      ensures conferenceId !in old(caches) ==>
        && fresh(cache) && cache.ready && cache.index == map[]
        && caches == old(caches)[conferenceId := cache]
        && indexes == old(indexes)[conferenceId := map[]]
        && Count() == old(Count()) + 1
    {
      if conferenceId in caches {
        cache := caches[conferenceId];
      } else {
        cache := Register(conferenceId);
      }
    }

    /** Registers a new, initialised cache for `conferenceId`. */
    method Register(conferenceId: string) returns (cache: Cache)
      requires Valid() && conferenceId !in caches
      modifies this
      ensures Valid() && fresh(Repr - old(Repr)) && old(Repr) <= Repr
      ensures Grows() && Kept({}) && Registers({conferenceId}) && Touches({})
      ensures fresh(cache) && cache.ready && cache.index == map[] && cache.conferenceId == conferenceId && cache.Valid()
      ensures caches == old(caches)[conferenceId := cache]
      ensures indexes == old(indexes)[conferenceId := map[]]
      ensures Count() == old(Count()) + 1
    {
      cache := new Cache(conferenceId);
      caches := caches[conferenceId := cache];
      indexes := indexes[conferenceId := map[]];
      Repr := Repr + {cache};
      cache.Initialise();
      forall k | k in caches
        ensures caches[k] in Repr && caches[k].conferenceId == k && caches[k].Valid() && caches[k].index == indexes[k]
      {
        if k != conferenceId {
          assert k in old(caches);
        }
      }
      UpdateFrames(old(indexes), conferenceId, map[], {});
    }

    /**
     * `addItemToCache` on the cache registered for `key`: only that cache's
     * entry for (t, p.id) is new or replaced.
     */
    method AddItem(key: string, p: ParseObject, t: Table) returns (item: Item)
      requires Valid() && key in caches
      modifies this, caches[key]
      ensures Valid() && caches == old(caches) && Repr == old(Repr)
      ensures Grows() && Kept({key}) && Registers({}) && Touches({(t, p.id)})
      ensures item == Item(t, p.id, InCache(key), p.attrs)
      ensures indexes == old(indexes)[key := old(indexes[key])[(t, p.id) := item]]
    {
      var cache := caches[key];
      item := cache.AddItemToCache(p, t);
      Resync(key);
      UpdateFrames(old(indexes), key, indexes[key], {(t, p.id)});
    }

    /**
     * `get` of (t, id) on the cache registered for `key`: the indexed
     * object, else one materialised from the remote record and indexed, else
     * nothing.
     */
    method Read(key: string, store: Store, t: Table, id: Id) returns (r: Option<Item>)
      requires Valid() && key in caches
      modifies this, caches[key]
      ensures Valid() && caches == old(caches) && Repr == old(Repr)
      ensures Grows() && Kept({key}) && Registers({}) && Touches({(t, id)})
      ensures r.Some? <==> (t, id) in old(indexes[key]) || (store.online && (t, id) in store.records)
      ensures r.Some? ==> r.value.table == t && r.value.id == id && r.value.owner == InCache(key)
      ensures r == CacheAnswer(old(indexes[key]), store, t, id, key)
      ensures indexes == old(indexes)[key := Indexed(old(indexes[key]), t, id, r)]
    {
      var cache := caches[key];
      r := cache.Get(store, t, id);
      Resync(key);
      UpdateFrames(old(indexes), key, indexes[key], {(t, id)});
      if r.Some? && (t, id) in old(indexes[key]) {
        assert old(indexes[key])[(t, id) := r.value] == old(indexes[key]);
      }
    }

    /**
     * Records that the cache registered for `key` changed its own index (a
     * caller worked on that cache directly): every other cache is as it was.
     */
    ghost method Resync(key: string)
      requires key in caches && caches[key].Valid() && caches[key].conferenceId == key
      requires indexes.Keys == caches.Keys
      requires forall k :: k in caches ==> caches[k] in Repr && caches[k].conferenceId == k
      requires forall k :: k in caches && k != key ==> caches[k].Valid() && caches[k].index == indexes[k]
      modifies this
      ensures Valid() && indexes == old(indexes)[key := caches[key].index]
      ensures caches == old(caches) && Repr == old(Repr)
    {
      indexes := indexes[key := caches[key].index];
    }
  }
}
