/**
 * Record objects: the conference-scoped (cached) variant, which holds local
 * data and writes it back to the remote store on `Save`, and the global
 * (uncached) variant, which wraps a remote record directly. Both resolve
 * relation fields into record objects.
 */
module RecordBase {
  import opened Records
  import opened Caching
  import opened StaticBase

  /** The reserved field that `Save` never writes. */
  const IdField: Field := "id"

  /**
   * Local relation data has the shape the schema gives it: a unique
   * relation holds one id, a non-unique one an id array (either may be
   * undefined).
   */
  predicate RelationsTyped(s: SchemaInfo, t: Table, fields: map<Field, Datum>) {
    && (forall f :: f in s.Relations(t) && f in s.UniqueRelations(t) && f in fields ==> fields[f].DString?)
    && (forall f :: f in s.Relations(t) && f !in s.UniqueRelations(t) && f in fields ==> fields[f].DStrings?)
  }

  /**
   * Every unique relation of `t` that `Save` writes (a schema field of `t`
   * other than `id`) holds an id. An undefined one is written as a pointer
   * without an id, and the model's `Save` then rejects.
   */
  predicate PointersDefined(s: SchemaInfo, t: Table, fields: map<Field, Datum>) {
    forall f :: f in s.Fields(t) && f != IdField && f in s.Relations(t) && f in s.UniqueRelations(t) ==> f in fields
  }

  /** The id a unique relation's pointer carries; the empty id stands for `undefined`. */
  function PointerId(fields: map<Field, Datum>, f: Field): Id
    requires f in fields ==> fields[f].DString?
  {
    if f in fields then fields[f].s else ""
  }

  /** What `Save` leaves in remote attribute `f` of a record of table `t` holding local `fields`. */
  predicate SavedField(s: SchemaInfo, t: Table, fields: map<Field, Datum>, attrs: Attrs, f: Field)
    requires s.Relations(t) <= s.Targets(t).Keys
    requires RelationsTyped(s, t, fields)
  {
    if f in s.Relations(t) then
      if f in s.UniqueRelations(t) then
        f in attrs && attrs[f] == Pointer(s.Targets(t)[f], PointerId(fields, f))
      else
        f in attrs && attrs[f] == Relation(if f in fields then Elements(fields[f].ss) else {})
    else
      (f in fields ==> f in attrs && attrs[f] == Scalar(fields[f])) && (f !in fields ==> f !in attrs)
  }

  /** Attribute `f` is the same in both maps (present with the same value, or absent from both). */
  predicate SameAttr(a: Attrs, b: Attrs, f: Field) {
    (f in a <==> f in b) && (f in a ==> a[f] == b[f])
  }

  /** The members the remote store currently holds in relation `f` of record (t, id). */
  function RemoteMembers(store: Store, t: Table, id: Id, f: Field): set<Id> {
    if store.online && (t, id) in store.records && f in store.records[(t, id)]
       && store.records[(t, id)][f].Relation?
    then store.records[(t, id)][f].ids
    else {}
  }

  /** The record (if any) that a remote store holds under `k` and can deliver. */
  function Fetch(store: Store, k: (Table, Id)): (r: Option<Attrs>)
    ensures r.Some? <==> store.online && k in store.records
    ensures r.Some? ==> r.value == store.records[k]
  {
    if store.online && k in store.records then Some(store.records[k]) else None
  }

  /**
   * The new membership of a non-unique relation: every current member is
   * removed, then each local id (if the field is defined) is added.
   */
  method ReplaceMembers(current: set<Id>, ids: Option<seq<Id>>) returns (members: set<Id>)
    ensures members == if ids.Some? then Elements(ids.value) else {}
  {
    members := current;
    while members != {}
      decreases members
    {
      var x :| x in members;
      members := members - {x};
    }
    if ids.Some? {
      var j := 0;
      while j < |ids.value|
        invariant 0 <= j <= |ids.value|
        invariant members == Elements(ids.value[..j])
      {
        assert ids.value[..j + 1] == ids.value[..j] + [ids.value[j]];
        members := members + {ids.value[j]};
        j := j + 1;
      }
      assert ids.value[..j] == ids.value;
    }
  }

  /**
   * Writes field `key` of the local data into the remote attributes, as one
   * step of `Save`; `current` is the relation's remote membership.
   */
  method WriteField(s: SchemaInfo, t: Table, fields: map<Field, Datum>, attrs: Attrs, current: set<Id>, key: Field)
    returns (written: Attrs)
    requires s.Relations(t) <= s.Targets(t).Keys
    requires RelationsTyped(s, t, fields)
    ensures SavedField(s, t, fields, written, key)
    ensures forall f :: f != key ==> SameAttr(attrs, written, f)
  {
    if key in s.Relations(t) {
      if key in s.UniqueRelations(t) {
        written := attrs[key := Pointer(s.Targets(t)[key], PointerId(fields, key))];
      } else {
        var members := ReplaceMembers(current, if key in fields then Some(fields[key].ss) else None);
        written := attrs[key := Relation(members)];
      }
    } else if key in fields {
      written := attrs[key := Scalar(fields[key])];
    } else {
      written := attrs - {key};
    }
  }

  /** `SavedField` depends on attribute `f` alone. */
  lemma SavedFieldFrame(s: SchemaInfo, t: Table, fields: map<Field, Datum>, a: Attrs, b: Attrs, f: Field)
    requires s.Relations(t) <= s.Targets(t).Keys
    requires RelationsTyped(s, t, fields)
    requires SavedField(s, t, fields, a, f) && SameAttr(a, b, f)
    ensures SavedField(s, t, fields, b, f)
  {
  }

  /**
   * One object per id, in order, from `cache` (materialising from the remote
   * store where needed); rejected if any id is found in neither. Every id is
   * read, whether or not an earlier one was missing, so every listed record
   * that is indexed or fetchable ends up indexed. Objects already indexed are
   * returned as they are and stay indexed; the only new index entries are
   * the listed records materialised on the way.
   */
  method CachedTargets(cache: Cache, store: Store, target: Table, ids: seq<Id>) returns (r: Result<seq<Item>>)
    requires cache.Valid()
    modifies cache
    ensures cache.Valid()
    ensures forall k :: k in old(cache.index) ==> k in cache.index && cache.index[k] == old(cache.index)[k]
    ensures forall k :: k in cache.index && k !in old(cache.index) ==>
      k.0 == target && k.1 in ids && Fetch(store, k).Some? && cache.index[k].attrs == store.records[k]
    ensures forall id :: id in ids && ((target, id) in old(cache.index) || Fetch(store, (target, id)).Some?) ==>
      (target, id) in cache.index
    ensures r.Ok? <==> forall id :: id in ids ==> (target, id) in old(cache.index) || Fetch(store, (target, id)).Some?
    ensures r.Ok? ==> |r.value| == |ids|
    ensures r.Ok? ==> forall i :: 0 <= i < |ids| ==>
      r.value[i].table == target && r.value[i].id == ids[i] && r.value[i].owner == InCache(cache.conferenceId)
    ensures r.Ok? ==> forall i :: 0 <= i < |ids| ==>
      (target, ids[i]) in cache.index && cache.index[(target, ids[i])] == r.value[i]
  {
    var items, missing := ReadTargets(cache, store, target, ids);
    if missing {
      r := Rejected("Target of non-uniquely related field not found!");
    } else {
      r := Ok(items);
    }
    forall id | id in ids
      ensures (target, id) in old(cache.index) || Fetch(store, (target, id)).Some? ==> (target, id) in cache.index
      ensures !missing ==> (target, id) in old(cache.index) || Fetch(store, (target, id)).Some?
    {
      var j :| 0 <= j < |ids| && ids[j] == id;
    }
  }

  /**
   * The loop of `CachedTargets`: reads every id through `cache`, in order.
   * `missing` is set exactly when some id is found in neither the index nor
   * the store; otherwise `items` holds what the cache now indexes, per id.
   */
  method ReadTargets(cache: Cache, store: Store, target: Table, ids: seq<Id>) returns (items: seq<Item>, missing: bool)
    requires cache.Valid()
    modifies cache
    ensures cache.Valid()
    ensures forall k :: k in old(cache.index) ==> k in cache.index && cache.index[k] == old(cache.index)[k]
    ensures forall k :: k in cache.index && k !in old(cache.index) ==>
      k.0 == target && k.1 in ids && Fetch(store, k).Some? && cache.index[k].attrs == store.records[k]
    ensures !missing <==> forall j :: 0 <= j < |ids| ==>
      (target, ids[j]) in old(cache.index) || Fetch(store, (target, ids[j])).Some?
    ensures forall j :: 0 <= j < |ids| && ((target, ids[j]) in old(cache.index) || Fetch(store, (target, ids[j])).Some?) ==>
      (target, ids[j]) in cache.index
    ensures !missing ==> |items| == |ids|
    ensures !missing ==> forall j :: 0 <= j < |ids| ==>
      (target, ids[j]) in cache.index && cache.index[(target, ids[j])] == items[j]
  {
    items := [];
    missing := false;
    var i := 0;
    while i < |ids|
      invariant 0 <= i <= |ids|
      invariant cache.Valid()
      invariant forall k :: k in old(cache.index) ==> k in cache.index && cache.index[k] == old(cache.index)[k]
      invariant forall k :: k in cache.index && k !in old(cache.index) ==>
        k.0 == target && k.1 in ids && Fetch(store, k).Some? && cache.index[k].attrs == store.records[k]
      invariant !missing <==> forall j :: 0 <= j < i ==>
        (target, ids[j]) in old(cache.index) || Fetch(store, (target, ids[j])).Some?
      invariant forall j :: 0 <= j < i && ((target, ids[j]) in old(cache.index) || Fetch(store, (target, ids[j])).Some?) ==>
        (target, ids[j]) in cache.index
      invariant !missing ==> |items| == i
      invariant !missing ==> forall j :: 0 <= j < i ==>
        (target, ids[j]) in cache.index && cache.index[(target, ids[j])] == items[j]
    {
      var result := cache.Get(store, target, ids[i]);
      if result.None? {
        missing := true;
      } else if !missing {
        items := items + [result.value];
        assert items[i] == result.value;
      }
      i := i + 1;
    }
  }

  /** The remote records of table `target` whose ids are listed, each wrapped directly (in some order). */
  method DirectTargets(store: Store, target: Table, ids: seq<Id>) returns (items: seq<Item>)
    ensures forall k :: k in ListedKeys(store, target, ids) <==> exists x :: x in items && (x.table, x.id) == k
    ensures forall x :: x in items <==>
      && x.table == target && x.id in ids && x.owner == Direct
      && (target, x.id) in store.records && x.attrs == store.records[(target, x.id)]
  {
    var found := set id | id in ids && (target, id) in store.records;
    items := [];
    while found != {}
      invariant found <= set id | id in ids && (target, id) in store.records
      invariant forall x :: x in items <==>
        && x.table == target && x.id in ids && x.owner == Direct
        && (target, x.id) in store.records && x.attrs == store.records[(target, x.id)]
        && x.id !in found
      decreases found
    {
      var id :| id in found;
      items := items + [Item(target, id, Direct, store.records[(target, id)])];
      found := found - {id};
    }
    forall k | k in ListedKeys(store, target, ids)
      ensures exists x :: x in items && (x.table, x.id) == k
    {
      assert Item(target, k.1, Direct, store.records[k]) in items;
    }
  }

  /** Raw string operands, one per id, in order. */
  function RawIds(ids: seq<Id>): (r: seq<Operand>)
    ensures |r| == |ids|
    ensures forall i :: 0 <= i < |ids| ==> r[i] == Raw(DString(ids[i]))
  {
    seq(|ids|, i requires 0 <= i < |ids| => Raw(DString(ids[i])))
  }

  /**
   * The records the uncached branch of `nonUniqueRelated` selects as it is
   * written: those whose attribute named `id` holds one of the listed ids.
   */
  function IdQueryKeys(store: Store, target: Table, ids: seq<Id>): (r: set<(Table, Id)>)
    ensures forall k :: k in r <==>
      && k in store.records && k.0 == target && IdField in store.records[k]
      && store.records[k][IdField].Scalar? && store.records[k][IdField].d.DString?
      && store.records[k][IdField].d.s in ids
  {
    IdQueryMatches(store, target, ids);
    Matching(store, target, [ContainedIn(IdField, RawIds(ids))])
  }

  /** A stored record meets the query on attribute `id` exactly when that attribute is one of the listed ids. */
  lemma IdQueryMatches(store: Store, target: Table, ids: seq<Id>)
    ensures forall k :: k in store.records ==>
      (SatisfiesAll(store.records[k], [ContainedIn(IdField, RawIds(ids))]) <==>
         && IdField in store.records[k] && store.records[k][IdField].Scalar?
         && store.records[k][IdField].d.DString? && store.records[k][IdField].d.s in ids)
  {
    forall k | k in store.records
      ensures SatisfiesAll(store.records[k], [ContainedIn(IdField, RawIds(ids))]) <==>
         && IdField in store.records[k] && store.records[k][IdField].Scalar?
         && store.records[k][IdField].d.DString? && store.records[k][IdField].d.s in ids
    {
      var attrs := store.records[k];
      var os := RawIds(ids);
      assert [ContainedIn(IdField, os)][1..] == [];
      if IdField in attrs && attrs[IdField].Scalar? && attrs[IdField].d.DString? && attrs[IdField].d.s in ids {
        var i :| 0 <= i < |ids| && ids[i] == attrs[IdField].d.s;
        assert Refers(attrs[IdField], os[i]);
      }
    }
  }

  /** The records of `target` whose ids are listed, as the relation means them. */
  function ListedKeys(store: Store, target: Table, ids: seq<Id>): (r: set<(Table, Id)>)
    ensures forall k :: k in r <==> k in store.records && k.0 == target && k.1 in ids
  {
    set k | k in store.records && k.0 == target && k.1 in ids
  }

  /**
   * The query on attribute `id` selects no record that lacks such an
   * attribute, and `Save` never writes one: over such a store it finds
   * nothing, however many listed records exist.
   */
  lemma {:induction false} IdQueryFindsNothing(store: Store, target: Table, ids: seq<Id>)
    requires forall k :: k in store.records ==> IdField !in store.records[k]
    ensures IdQueryKeys(store, target, ids) == {}
  {
    forall k | k in store.records && k.0 == target
      ensures !SatisfiesAll(store.records[k], [ContainedIn(IdField, RawIds(ids))])
    {
      assert !Satisfies(store.records[k], ContainedIn(IdField, RawIds(ids)));
    }
  }

  /** A listed record that the query on attribute `id` misses. */
  lemma IdQueryCounterexample()
    ensures var store := Store(map[("ProgramItem", "a") := map[]], true);
      && ("ProgramItem", "a") in ListedKeys(store, "ProgramItem", ["a"])
      && IdQueryKeys(store, "ProgramItem", ["a"]) == {}
  {
    var store := Store(map[("ProgramItem", "a") := map[]], true);
    IdQueryFindsNothing(store, "ProgramItem", ["a"]);
  }

  /**
   * What `uniqueRelated` of a cached record answers for local value `id` and
   * target table `target`: the conference cache's answer (over index `view`,
   * for conference `conferenceId`) for a cached target, the fetched remote
   * record wrapped directly otherwise; nothing when the id is undefined or
   * the target is not found.
   */
  function UniqueAnswer(s: SchemaInfo, view: map<(Table, Id), Item>, store: Store, target: Table,
                        id: Option<Datum>, conferenceId: string): Option<Item>
  {
    if !(id.Some? && id.value.DString?) then None
    else if target in s.cachedStoreNames then CacheAnswer(view, store, target, id.value.s, conferenceId)
    else match Fetch(store, (target, id.value.s))
      case Some(attrs) => Some(Item(target, id.value.s, Direct, attrs))
      case None => None
  }

  /**
   * The unique-relation answer is found exactly when the id is defined and
   * the target is indexed or fetchable; it is the target's object under that
   * id, owned by the conference's cache exactly for cached targets, and an
   * object fetched afresh carries the remote record's attributes.
   */
  lemma UniqueAnswerMeaning(s: SchemaInfo, view: map<(Table, Id), Item>, store: Store, target: Table,
                            id: Option<Datum>, conferenceId: string)
    requires WellIndexed(view, conferenceId)
    ensures var r := UniqueAnswer(s, view, store, target, id, conferenceId);
      && (r.Some? <==>
           && id.Some? && id.value.DString?
           && ((target in s.cachedStoreNames && (target, id.value.s) in view) || Fetch(store, (target, id.value.s)).Some?))
      && (r.Some? ==> r.value.table == target && r.value.id == id.value.s)
      && (r.Some? ==> (r.value.owner == InCache(conferenceId) <==> target in s.cachedStoreNames))
      && (r.Some? ==> (r.value.owner.Direct? <==> target !in s.cachedStoreNames))
      && (r.Some? && !(target in s.cachedStoreNames && (target, id.value.s) in view) ==>
            r.value.attrs == store.records[(target, id.value.s)])
      && (r.Some? && target in s.cachedStoreNames && (target, id.value.s) in view ==>
            r.value == view[(target, id.value.s)])
  {
  }

  /**
   * The outcome of resolving a unique relation whose local value is `id` and
   * whose target table is `target`, for a record of conference
   * `conferenceId`, through a cache whose index was `view` and is now
   * `after`: found exactly when the id is defined and the target is indexed
   * (cached targets) or fetchable, and then the `UniqueAnswer` over `view`,
   * which `after` indexes.
   */
  ghost predicate UniqueOutcome(s: SchemaInfo, view: map<(Table, Id), Item>, after: map<(Table, Id), Item>,
                                store: Store, target: Table, id: Option<Datum>, conferenceId: string, r: Result<Item>)
  {
    var answer := UniqueAnswer(s, view, store, target, id, conferenceId);
    && (r.Ok? <==>
         && id.Some? && id.value.DString?
         && (if target in s.cachedStoreNames
             then (target, id.value.s) in view || Fetch(store, (target, id.value.s)).Some?
             else Fetch(store, (target, id.value.s)).Some?))
    && (r.Ok? ==> r.value.table == target && r.value.id == id.value.s)
    && (r.Ok? ==> (r.value.owner == InCache(conferenceId) <==> target in s.cachedStoreNames))
    && (r.Ok? <==> answer.Some?)
    && (r.Ok? ==> r.value == answer.value)
    && after == (if r.Ok? && r.value.owner.InCache? then view[(r.value.table, r.value.id) := r.value] else view)
  }

  /**
   * `UniqueOutcome` over the conference cache's index before and after the
   * call. The registry only grows and gains no cache but that conference's,
   * and every other cache keeps its index.
   */
  twostate predicate UniqueResolved(reg: Caches, s: SchemaInfo, store: Store, target: Table, id: Option<Datum>,
                                    conferenceId: string, new r: Result<Item>)
    reads reg
  {
    && conferenceId in reg.indexes
    && UniqueOutcome(s, old(reg.ViewOf(conferenceId)), reg.indexes[conferenceId], store, target, id, conferenceId, r)
    && reg.Grows() && reg.Kept({conferenceId}) && reg.Registers({conferenceId})
  }

  /**
   * Resolving `ids` in a cached target table through a cache whose index
   * was `view` and is now `after`: one object per id, in order, found exactly
   * when every id is indexed or fetchable; an indexed object is returned as
   * it is, others carry the remote record's attributes; they are all indexed
   * now, and the only new entries are listed records. Even when one is
   * missing, every listed id that is indexed or fetchable ends up indexed.
   */
  ghost predicate CachedResolved(view: map<(Table, Id), Item>, after: map<(Table, Id), Item>, store: Store,
                                 target: Table, ids: Option<Datum>, conferenceId: string, r: Result<seq<Item>>)
  {
    && (r.Ok? <==>
         && ids.Some? && ids.value.DStrings?
         && forall id :: id in ids.value.ss ==> (target, id) in view || Fetch(store, (target, id)).Some?)
    && (r.Ok? ==> |r.value| == |ids.value.ss|)
    && (r.Ok? ==> forall i :: 0 <= i < |r.value| ==>
          r.value[i].table == target && r.value[i].id == ids.value.ss[i]
          && r.value[i].owner == InCache(conferenceId))
    && (r.Ok? ==> forall i :: 0 <= i < |r.value| ==>
          && ((target, ids.value.ss[i]) in view ==> r.value[i] == view[(target, ids.value.ss[i])])
          && ((target, ids.value.ss[i]) !in view ==> r.value[i].attrs == store.records[(target, ids.value.ss[i])]))
    && (r.Ok? ==> forall i :: 0 <= i < |r.value| ==>
          (target, ids.value.ss[i]) in after && after[(target, ids.value.ss[i])] == r.value[i])
    && (forall k :: k in after && k !in view ==>
          && ids.Some? && ids.value.DStrings? && k.0 == target && k.1 in ids.value.ss
          && Fetch(store, k).Some? && after[k].attrs == store.records[k])
    && (ids.Some? && ids.value.DStrings? ==>
          forall id :: id in ids.value.ss && ((target, id) in view || Fetch(store, (target, id)).Some?) ==>
            (target, id) in after)
  }

  /**
   * Resolving `ids` in an uncached target table: the listed remote records,
   * wrapped directly, whenever the ids are defined and the store answers.
   */
  ghost predicate DirectResolved(store: Store, target: Table, ids: Option<Datum>, r: Result<seq<Item>>) {
    && (r.Ok? <==> ids.Some? && ids.value.DStrings? && store.online)
    && (r.Ok? ==> forall x :: x in r.value <==>
          x.table == target && x.id in ids.value.ss && x.owner == Direct
          && (target, x.id) in store.records && x.attrs == store.records[(target, x.id)])
  }

  /**
   * The outcome of resolving a non-unique relation whose local value is
   * `ids` and whose target table is `target`, for a record of conference
   * `conferenceId`: `CachedResolved` over that conference cache's index for
   * a cached target, `DirectResolved` with the index unchanged otherwise.
   * Every entry indexed before stays as it was; the registry only grows,
   * gains no cache but that conference's, and every other cache keeps its
   * index.
   */
  twostate predicate NonUniqueResolved(reg: Caches, s: SchemaInfo, store: Store, target: Table, ids: Option<Datum>,
                                       conferenceId: string, new r: Result<seq<Item>>)
    reads reg
  {
    var view := old(reg.ViewOf(conferenceId));
    && conferenceId in reg.indexes
    && (target in s.cachedStoreNames ==> CachedResolved(view, reg.indexes[conferenceId], store, target, ids, conferenceId, r))
    && (target !in s.cachedStoreNames ==> DirectResolved(store, target, ids, r) && reg.indexes[conferenceId] == view)
    && (forall k :: k in view ==> k in reg.indexes[conferenceId] && reg.indexes[conferenceId][k] == view[k])
    && reg.Grows() && reg.Kept({conferenceId}) && reg.Registers({conferenceId})
  }

  /** `uniqueRelated` for a defined id of a cached target: a read through the conference's cache. */
  method CachedUnique(reg: Caches, s: SchemaInfo, store: Store, target: Table, id: Option<Datum>, conferenceId: string)
    returns (r: Result<Item>)
    requires reg.Valid()
    requires id.Some? && id.value.DString? && target in s.cachedStoreNames
    modifies reg, reg.Repr
    ensures reg.Valid() && fresh(reg.Repr - old(reg.Repr))
    ensures UniqueResolved(reg, s, store, target, id, conferenceId, r)
  {
    var result := CacheRead(reg, conferenceId, store, target, id.value.s);
    if result.None? {
      r := Rejected("Target of uniquely related field not found!");
    } else {
      r := Ok(result.value);
    }
  }

  /**
   * `uniqueRelated` otherwise: rejected for an undefined id, else the fetched
   * remote record wrapped directly; the conference's cache is registered
   * and left as it is.
   */
  method FetchedUnique(reg: Caches, s: SchemaInfo, store: Store, target: Table, id: Option<Datum>, conferenceId: string)
    returns (r: Result<Item>)
    requires reg.Valid()
    requires !(id.Some? && id.value.DString? && target in s.cachedStoreNames)
    modifies reg, reg.Repr
    ensures reg.Valid() && fresh(reg.Repr - old(reg.Repr))
    ensures conferenceId in reg.indexes && reg.indexes[conferenceId] == old(reg.ViewOf(conferenceId))
    ensures r.Ok? <==> id.Some? && id.value.DString? && Fetch(store, (target, id.value.s)).Some?
    ensures r.Ok? ==> r.value == Item(target, id.value.s, Direct, Fetch(store, (target, id.value.s)).value)
    ensures reg.Grows() && reg.Kept({conferenceId}) && reg.Registers({conferenceId})
  {
    var cache := reg.Get(conferenceId);
    assert reg.indexes[conferenceId] == old(reg.ViewOf(conferenceId));
    if !(id.Some? && id.value.DString?) {
      r := Rejected("related id is undefined");
      return;
    }
    var fetched := Fetch(store, (target, id.value.s));
    if fetched.None? {
      r := Rejected("fetch of related object failed");
    } else {
      r := Ok(Item(target, id.value.s, Direct, fetched.value));
    }
  }

  /**
   * `nonUniqueRelated` for defined ids of a cached target: one object per id
   * from the conference's cache.
   */
  method CachedNonUnique(reg: Caches, s: SchemaInfo, store: Store, target: Table, ids: Option<Datum>, conferenceId: string)
    returns (r: Result<seq<Item>>)
    requires reg.Valid()
    requires ids.Some? && ids.value.DStrings? && target in s.cachedStoreNames
    modifies reg, reg.Repr
    ensures reg.Valid() && fresh(reg.Repr - old(reg.Repr))
    ensures conferenceId in reg.indexes
    ensures CachedResolved(old(reg.ViewOf(conferenceId)), reg.indexes[conferenceId], store, target, ids, conferenceId, r)
    ensures forall k :: k in old(reg.ViewOf(conferenceId)) ==>
      k in reg.indexes[conferenceId] && reg.indexes[conferenceId][k] == old(reg.ViewOf(conferenceId))[k]
    ensures reg.Grows() && reg.Kept({conferenceId}) && reg.Registers({conferenceId})
  {
    var cache := reg.Get(conferenceId);
    ghost var mid := reg.indexes;
    assert mid[conferenceId] == old(reg.ViewOf(conferenceId));
    r := CachedTargets(cache, store, target, ids.value.ss);
    reg.Resync(conferenceId);
    ghost var added := reg.indexes[conferenceId].Keys - mid[conferenceId].Keys;
    UpdateFrames(mid, conferenceId, reg.indexes[conferenceId], added);
    ChainFrames(old(reg.indexes), mid, reg.indexes, {}, {conferenceId}, {conferenceId}, {}, added, added);
  }

  /**
   * `nonUniqueRelated` otherwise: rejected for undefined ids or a failed
   * query, else the listed remote records wrapped directly; the
   * conference's cache is registered and left as it is.
   */
  method DirectNonUnique(reg: Caches, s: SchemaInfo, store: Store, target: Table, ids: Option<Datum>, conferenceId: string)
    returns (r: Result<seq<Item>>)
    requires reg.Valid()
    requires !(ids.Some? && ids.value.DStrings? && target in s.cachedStoreNames)
    modifies reg, reg.Repr
    ensures reg.Valid() && fresh(reg.Repr - old(reg.Repr))
    ensures conferenceId in reg.indexes && reg.indexes[conferenceId] == old(reg.ViewOf(conferenceId))
    ensures target in s.cachedStoreNames ==>
      CachedResolved(old(reg.ViewOf(conferenceId)), reg.indexes[conferenceId], store, target, ids, conferenceId, r)
    ensures target !in s.cachedStoreNames ==> DirectResolved(store, target, ids, r)
    ensures reg.Grows() && reg.Kept({conferenceId}) && reg.Registers({conferenceId})
  {
    var cache := reg.Get(conferenceId);
    assert reg.indexes[conferenceId] == old(reg.ViewOf(conferenceId));
    if !(ids.Some? && ids.value.DStrings?) {
      r := Rejected("related ids are undefined");
    } else if !store.online {
      r := Rejected("query of related objects failed");
    } else {
      var items := DirectTargets(store, target, ids.value.ss);
      r := Ok(items);
    }
  }

  class CachedBase {
    const conferenceId: string
    const tableName: Table
    var data: LocalRecord
    /** The remote counterpart, once there is one. */
    var parse: Option<ParseObject>

    ghost predicate Valid()
      reads this
    {
      parse.Some? ==> parse.value.table == tableName
    }

    constructor (conferenceId: string, tableName: Table, data: LocalRecord, parse: Option<ParseObject>)
      requires parse.Some? ==> parse.value.table == tableName
      ensures Valid()
      ensures this.conferenceId == conferenceId && this.tableName == tableName
      ensures this.data == data && this.parse == parse
    {
      this.conferenceId := conferenceId;
      this.tableName := tableName;
      this.data := data;
      this.parse := parse;
    }

    /** The id of the local data, which `Save` gives a new remote counterpart. */
    function Id(): (r: Id)
      reads this
      ensures r == data.id
    {
      data.id
    }

    /** The creation time the local data carries. */
    function CreatedAt(): (r: nat)
      reads this
      ensures r == data.createdAt
    {
      data.createdAt
    }

    /** The last update time the local data carries. */
    function UpdatedAt(): (r: nat)
      reads this
      ensures r == data.updatedAt
    {
      data.updatedAt
    }

    /**
     * Field `f` of the local data now holds `v`; every other field, the id,
     * the timestamps and the remote counterpart are as they were.
     */
    twostate predicate AssignedOnly(f: Field, v: Option<Datum>)
      reads this
    {
      && Lookup(data.fields, f) == v
      && (forall g :: g != f ==> Lookup(data.fields, g) == Lookup(old(data.fields), g))
      && data == old(data).(fields := data.fields)
      && parse == old(parse)
    }

    /** Assigns field `f` of the local data (`None` is `undefined`). */
    method SetField(f: Field, v: Option<Datum>)
      requires Valid()
      modifies this
      ensures Valid() && AssignedOnly(f, v)
    {
      data := data.(fields := Assign(data.fields, f, v));
    }

    /**
     * Writes the local data to the remote record, creating the remote
     * counterpart first (carrying this object's id) when there is none. Every
     * schema field except `id` is written: scalars verbatim, unique relations
     * as a pointer, non-unique relations as exactly the local id set.
     */
    method Save(s: SchemaInfo, store: Store) returns (r: Result<()>, saved: Store)
      requires Valid()
      requires s.Relations(tableName) <= s.Targets(tableName).Keys
      requires RelationsTyped(s, tableName, data.fields)
      modifies this
      ensures Valid() && data == old(data) && parse.Some?
      ensures old(parse).None? ==> parse.value.id == data.id
      ensures old(parse).Some? ==> parse.value.id == old(parse).value.id
      ensures forall f :: f in s.Fields(tableName) && f != IdField ==>
        SavedField(s, tableName, data.fields, parse.value.attrs, f)
      ensures forall f :: f !in s.Fields(tableName) || f == IdField ==>
        SameAttr(if old(parse).Some? then old(parse).value.attrs else map[], parse.value.attrs, f)
      ensures r.Ok? <==> store.online && PointersDefined(s, tableName, data.fields)
      ensures saved == if r.Ok?
                       then store.(records := store.records[(tableName, parse.value.id) := parse.value.attrs])
                       else store
    {
      if parse.None? {
        parse := Some(ParseObject(tableName, data.id, map[]));
      }
      ghost var start := parse.value.attrs;
      var fl := s.Fields(tableName);
      var i := 0;
      while i < |fl|
        invariant 0 <= i <= |fl|
        invariant Valid() && data == old(data) && parse.Some?
        invariant old(parse).None? ==> parse.value.id == data.id
        invariant old(parse).Some? ==> parse.value.id == old(parse).value.id
        invariant forall j :: 0 <= j < i && fl[j] != IdField ==>
          SavedField(s, tableName, data.fields, parse.value.attrs, fl[j])
        invariant forall f :: f !in fl[..i] || f == IdField ==> SameAttr(start, parse.value.attrs, f)
      {
        var key := fl[i];
        assert fl[..i + 1] == fl[..i] + [key];
        if key != IdField {
          var obj := parse.value;
          var written := WriteField(s, tableName, data.fields, obj.attrs, RemoteMembers(store, tableName, obj.id, key), key);
          forall j | 0 <= j < i && fl[j] != IdField
            ensures SavedField(s, tableName, data.fields, written, fl[j])
          {
            if fl[j] != key {
              SavedFieldFrame(s, tableName, data.fields, obj.attrs, written, fl[j]);
            }
          }
          forall f | f !in fl[..i + 1] || f == IdField
            ensures SameAttr(start, written, f)
          {
            assert f !in fl[..i] || f == IdField;
            assert SameAttr(start, obj.attrs, f);
            assert f != key;
            assert SameAttr(obj.attrs, written, f);
          }
          parse := Some(obj.(attrs := written));
        }
        i := i + 1;
      }
      assert fl[..i] == fl;
      if !PointersDefined(s, tableName, data.fields) {
        saved := store;
        r := Rejected("Cannot create a pointer to an unsaved ParseObject");
      } else if store.online {
        saved := store.(records := store.records[(tableName, parse.value.id) := parse.value.attrs]);
        r := Ok(());
      } else {
        saved := store;
        r := Rejected("save failed");
      }
    }

    /**
     * Resolves unique relation `field` through this object's conference
     * cache for a cached target table, or by a direct fetch otherwise; fails
     * when the target is not found.
     */
    method UniqueRelated(reg: Caches, s: SchemaInfo, store: Store, field: Field) returns (r: Result<Item>)
      requires reg.Valid()
      requires field in s.Targets(tableName)
      modifies reg, reg.Repr
      ensures reg.Valid() && fresh(reg.Repr - old(reg.Repr))
      ensures UniqueResolved(reg, s, store, s.Targets(tableName)[field], Lookup(data.fields, field), conferenceId, r)
      ensures reg.Grows() && reg.Kept({conferenceId}) && reg.Registers({conferenceId})
    {
      var target := s.Targets(tableName)[field];
      var id := Lookup(data.fields, field);
      if id.Some? && id.value.DString? && target in s.cachedStoreNames {
        r := CachedUnique(reg, s, store, target, id, conferenceId);
      } else {
        r := FetchedUnique(reg, s, store, target, id, conferenceId);
      }
    }

    /**
     * Resolves non-unique relation `field`: for a cached target, one object
     * per id in order from this object's conference cache, failing if any is
     * missing; for an uncached target, the remote records whose ids are listed.
     */
    method NonUniqueRelated(reg: Caches, s: SchemaInfo, store: Store, field: Field) returns (r: Result<seq<Item>>)
      requires reg.Valid()
      requires field in s.Targets(tableName)
      modifies reg, reg.Repr
      ensures reg.Valid() && fresh(reg.Repr - old(reg.Repr))
      ensures NonUniqueResolved(reg, s, store, s.Targets(tableName)[field], Lookup(data.fields, field), conferenceId, r)
    {
      var target := s.Targets(tableName)[field];
      var ids := Lookup(data.fields, field);
      if ids.Some? && ids.value.DStrings? && target in s.cachedStoreNames {
        r := CachedNonUnique(reg, s, store, target, ids, conferenceId);
      } else {
        r := DirectNonUnique(reg, s, store, target, ids, conferenceId);
      }
    }
  }

  /**
   * The conference a fetched record of a cached table belongs to, as the
   * uncached record's relation getters read it: its `conference` pointer,
   * when that names a non-empty id.
   */
  function ConferenceOf(attrs: Attrs): (r: Option<string>)
    ensures r.Some? <==>
      ConferenceField in attrs && attrs[ConferenceField].Pointer? && attrs[ConferenceField].id != ""
    ensures r.Some? ==> r.value == attrs[ConferenceField].id
  {
    if ConferenceField in attrs && attrs[ConferenceField].Pointer? && attrs[ConferenceField].id != ""
    then Some(attrs[ConferenceField].id)
    else None
  }

  /**
   * The conference a fetched record of cached table `target` belongs to: a
   * conference is its own, any other record names it in its `conference`
   * pointer; an empty id names none.
   */
  function OwningConference(target: Table, id: Id, attrs: Attrs): (r: Option<string>)
    ensures target == ConferenceTable ==> (r.Some? <==> id != "") && (r.Some? ==> r.value == id)
    ensures target != ConferenceTable ==>
      && (r.Some? <==> ConferenceField in attrs && attrs[ConferenceField].Pointer? && attrs[ConferenceField].id != "")
      && (r.Some? ==> r.value == attrs[ConferenceField].id)
  {
    if target == ConferenceTable then (if id != "" then Some(id) else None) else ConferenceOf(attrs)
  }

  /**
   * The owning conference is the one the static facade wraps a record of a
   * cached table into, whenever that one is non-empty.
   */
  lemma OwningConferenceAgrees(s: SchemaInfo, target: Table, p: ParseObject)
    requires target in s.cachedStoreNames
    ensures var w := WrapOwner(s, target, p);
      OwningConference(target, p.id, p.attrs) ==
        if w.Ok? && w.value.InCache? && w.value.conferenceId != "" then Some(w.value.conferenceId) else None
  {
  }

  /**
   * A conference record names no `conference` (the Conference schema has no
   * such field), so reading its conference through `ConferenceOf` always
   * fails, while it owns itself.
   */
  lemma {:induction false} ConferenceOfMissesConferences(id: Id, attrs: Attrs)
    requires ConferenceField !in attrs && id != ""
    ensures ConferenceOf(attrs) == None
    ensures OwningConference(ConferenceTable, id, attrs) == Some(id)
  {
  }

  /** The keys of the remote records of table `target` listed in relation field `field` of `parse`. */
  ghost function MemberKeys(store: Store, target: Table, parse: ParseObject, field: Field): set<(Table, Id)> {
    set id | field in parse.attrs && parse.attrs[field].Relation? && id in parse.attrs[field].ids
      && (target, id) in store.records :: (target, id)
  }

  /** The conferences owning the members of relation field `field` of `parse` in cached table `target`. */
  ghost function MemberConferences(store: Store, target: Table, parse: ParseObject, field: Field): set<string> {
    set id | field in parse.attrs && parse.attrs[field].Relation? && id in parse.attrs[field].ids
      && (target, id) in store.records && OwningConference(target, id, store.records[(target, id)]).Some?
      :: OwningConference(target, id, store.records[(target, id)]).value
  }

  /**
   * The object for member `id` (remote attributes `attrs`) of a relation in
   * table `target`: indexed in its owning conference's cache for a cached
   * table, rejected when it has no owning conference; a direct object
   * otherwise.
   */
  method MemberItem(reg: Caches, s: SchemaInfo, target: Table, id: Id, attrs: Attrs, ghost owners: set<string>)
    returns (r: Result<Item>)
    requires reg.Valid()
    requires target in s.cachedStoreNames && OwningConference(target, id, attrs).Some? ==>
      OwningConference(target, id, attrs).value in owners
    modifies reg, reg.Repr
    ensures reg.Valid() && fresh(reg.Repr - old(reg.Repr))
    ensures reg.Grows() && reg.Kept(owners) && reg.Registers(owners) && reg.Touches({(target, id)})
    ensures r.Ok? <==> target !in s.cachedStoreNames || OwningConference(target, id, attrs).Some?
    ensures r.Ok? ==> r.value == Item(target, id, if target in s.cachedStoreNames
                                                  then InCache(OwningConference(target, id, attrs).value)
                                                  else Direct, attrs)
    ensures r.Ok? ==> IsIndexed(reg, r.value)
    ensures forall x :: old(IsIndexed(reg, x)) && (x.table, x.id) != (target, id) ==> IsIndexed(reg, x)
  {
    if target in s.cachedStoreNames {
      var conf := OwningConference(target, id, attrs);
      if conf.None? {
        r := Rejected("Can't handle cachable item that lacks a conference id...");
        WidenFrames(old(reg.indexes), reg.indexes, {}, owners, {}, {(target, id)});
        return;
      }
      var item := CacheAdd(reg, conf.value, ParseObject(target, id, attrs), target);
      WidenFrames(old(reg.indexes), reg.indexes, {conf.value}, owners, {(target, id)}, {(target, id)});
      r := Ok(item);
    } else {
      r := Ok(Item(target, id, Direct, attrs));
      WidenFrames(old(reg.indexes), reg.indexes, {}, owners, {}, {(target, id)});
    }
  }

  /**
   * The objects for the members `members` of a relation in table `target`
   * that the remote store holds, one `MemberItem` after the other; rejected
   * at the first cached member without an owning conference. Only the
   * caches of `owners` are registered or changed, and only under `keys`.
   */
  method MemberItems(reg: Caches, s: SchemaInfo, store: Store, target: Table, members: set<Id>,
                     ghost owners: set<string>, ghost keys: set<(Table, Id)>)
    returns (r: Result<set<Item>>)
    requires reg.Valid()
    requires forall id :: id in members && (target, id) in store.records ==>
      && (target, id) in keys
      && (target in s.cachedStoreNames && OwningConference(target, id, store.records[(target, id)]).Some? ==>
            OwningConference(target, id, store.records[(target, id)]).value in owners)
    modifies reg, reg.Repr
    ensures reg.Valid() && fresh(reg.Repr - old(reg.Repr))
    ensures reg.Grows() && reg.Kept(owners) && reg.Registers(owners) && reg.Touches(keys)
    ensures r.Ok? <==>
      (target in s.cachedStoreNames ==>
         forall id :: id in members && (target, id) in store.records ==>
           OwningConference(target, id, store.records[(target, id)]).Some?)
    ensures r.Ok? ==> forall x :: x in r.value <==>
      && x.table == target && x.id in members
      && (target, x.id) in store.records && x.attrs == store.records[(target, x.id)]
      && x.owner == if target in s.cachedStoreNames
                    then InCache(OwningConference(target, x.id, store.records[(target, x.id)]).value) else Direct
    ensures r.Ok? ==> forall x :: x in r.value ==> IsIndexed(reg, x)
  {
    var todo := set id | id in members && (target, id) in store.records;
    var acc: set<Item> := {};
    ghost var done: set<(Table, Id)> := {};
    while todo != {}
      invariant reg.Valid() && fresh(reg.Repr - old(reg.Repr))
      invariant reg.Grows() && reg.Kept(owners) && reg.Registers(owners) && reg.Touches(done)
      invariant todo <= set id | id in members && (target, id) in store.records
      invariant done <= keys
      invariant target in s.cachedStoreNames ==>
        forall id :: id in members && (target, id) in store.records && id !in todo ==>
          OwningConference(target, id, store.records[(target, id)]).Some?
      invariant forall x :: x in acc <==>
        && x.table == target && x.id in members && x.id !in todo
        && (target, x.id) in store.records && x.attrs == store.records[(target, x.id)]
        && x.owner == if target in s.cachedStoreNames
                      then InCache(OwningConference(target, x.id, store.records[(target, x.id)]).value) else Direct
      invariant forall x :: x in acc ==> IsIndexed(reg, x)
      decreases todo
    {
      var id :| id in todo;
      var attrs := store.records[(target, id)];
      ghost var before := reg.indexes;
      var item := MemberItem(reg, s, target, id, attrs, owners);
      ChainFrames(old(reg.indexes), before, reg.indexes, owners, owners, owners, done, {(target, id)}, done + {(target, id)});
      if item.Rejected? {
        WidenFrames(old(reg.indexes), reg.indexes, owners, owners, done + {(target, id)}, keys);
        r := Rejected(item.reason);
        return;
      }
      acc := acc + {item.value};
      todo := todo - {id};
      done := done + {(target, id)};
    }
    WidenFrames(old(reg.indexes), reg.indexes, owners, owners, done, keys);
    r := Ok(acc);
  }

  class UncachedBase {
    const tableName: Table
    var parse: ParseObject

    ghost predicate Valid()
      reads this
    {
      parse.table == tableName
    }

    constructor (tableName: Table, parse: ParseObject)
      requires parse.table == tableName
      ensures Valid() && this.tableName == tableName && this.parse == parse
    {
      this.tableName := tableName;
      this.parse := parse;
    }

    /** The id of the wrapped remote record. */
    function Id(): (r: Id)
      reads this
      ensures r == parse.id
    {
      parse.id
    }

    /** Writes the remote record back; a store failure rejects. */
    method Save(store: Store) returns (r: Result<()>, saved: Store)
      requires Valid()
      ensures r.Ok? <==> store.online
      ensures saved == if r.Ok?
                       then store.(records := store.records[(tableName, parse.id) := parse.attrs])
                       else store
      ensures r.Ok? ==> Fetch(saved, (tableName, parse.id)) == Some(parse.attrs)
      ensures forall k :: k != (tableName, parse.id) ==> Fetch(saved, k) == Fetch(store, k)
    {
      if store.online {
        saved := store.(records := store.records[(tableName, parse.id) := parse.attrs]);
        r := Ok(());
      } else {
        saved := store;
        r := Rejected("save failed");
      }
    }

    /**
     * Fetches the target of the pointer in unique relation `field`; a cached
     * target goes into the cache of the conference that owns it, and is
     * rejected when none does.
     */
    method UniqueRelated(reg: Caches, s: SchemaInfo, store: Store, field: Field) returns (r: Result<Item>)
      requires reg.Valid()
      requires field in s.Targets(tableName)
      modifies reg, reg.Repr
      ensures reg.Valid() && fresh(reg.Repr - old(reg.Repr))
      ensures
        var target := s.Targets(tableName)[field];
        && (r.Ok? <==>
             && field in parse.attrs && parse.attrs[field].Pointer?
             && var k := (parse.attrs[field].table, parse.attrs[field].id);
                Fetch(store, k).Some?
                && (target in s.cachedStoreNames ==> OwningConference(target, k.1, store.records[k]).Some?))
        && (r.Ok? ==>
             var k := (parse.attrs[field].table, parse.attrs[field].id);
             && r.value.table == target && r.value.id == k.1 && r.value.attrs == store.records[k]
             && r.value.owner == if target in s.cachedStoreNames
                                 then InCache(OwningConference(target, k.1, store.records[k]).value) else Direct)
      ensures r.Ok? ==> IsIndexed(reg, r.value)
      ensures r.Ok? && r.value.owner.InCache? ==>
        var c := r.value.owner.conferenceId;
        c in reg.indexes && reg.indexes[c] == old(reg.ViewOf(c))[(r.value.table, r.value.id) := r.value]
      ensures reg.Grows() && reg.Kept(if r.Ok? then OwnerOf(r.value) else {})
      ensures reg.Registers(if r.Ok? then OwnerOf(r.value) else {})
      ensures reg.Touches(if r.Ok? then {(r.value.table, r.value.id)} else {})
    {
      var target := s.Targets(tableName)[field];
      if !(field in parse.attrs && parse.attrs[field].Pointer?) {
        r := Rejected("relation field is undefined");
        return;
      }
      var k := (parse.attrs[field].table, parse.attrs[field].id);
      var fetched := Fetch(store, k);
      if fetched.None? {
        r := Rejected("fetch of related object failed");
        return;
      }
      if target in s.cachedStoreNames {
        var conf := OwningConference(target, k.1, fetched.value);
        if conf.None? {
          r := Rejected("Can't handle cachable item that lacks a conference id...");
          return;
        }
        var item := CacheAdd(reg, conf.value, ParseObject(k.0, k.1, fetched.value), target);
        r := Ok(item);
      } else {
        r := Ok(Item(target, k.1, Direct, fetched.value));
      }
    }

    /**
     * Fetches the members of relation `field`; for a cached target every
     * member must have an owning conference and goes into that conference's
     * cache.
     */
    method NonUniqueRelated(reg: Caches, s: SchemaInfo, store: Store, field: Field) returns (r: Result<set<Item>>)
      requires reg.Valid()
      requires field in s.Targets(tableName)
      modifies reg, reg.Repr
      ensures reg.Valid() && fresh(reg.Repr - old(reg.Repr))
      ensures
        var target := s.Targets(tableName)[field];
        && (r.Ok? <==>
             && field in parse.attrs && parse.attrs[field].Relation? && store.online
             && (target in s.cachedStoreNames ==>
                   forall id :: id in parse.attrs[field].ids && (target, id) in store.records ==>
                     OwningConference(target, id, store.records[(target, id)]).Some?))
        && (r.Ok? ==> forall x :: x in r.value <==>
              && x.table == target && x.id in parse.attrs[field].ids
              && (target, x.id) in store.records && x.attrs == store.records[(target, x.id)]
              && x.owner == if target in s.cachedStoreNames
                            then InCache(OwningConference(target, x.id, store.records[(target, x.id)]).value) else Direct)
      ensures r.Ok? ==> forall x :: x in r.value ==> IsIndexed(reg, x)
      ensures reg.Grows() && reg.Kept(MemberConferences(store, s.Targets(tableName)[field], parse, field))
      ensures reg.Registers(MemberConferences(store, s.Targets(tableName)[field], parse, field))
      ensures reg.Touches(MemberKeys(store, s.Targets(tableName)[field], parse, field))
    {
      var target := s.Targets(tableName)[field];
      if !(field in parse.attrs && parse.attrs[field].Relation? && store.online) {
        r := Rejected("query of related objects failed");
        return;
      }
      ghost var owners := MemberConferences(store, target, parse, field);
      ghost var keys := MemberKeys(store, target, parse, field);
      var members := parse.attrs[field].ids;
      forall id | id in members && (target, id) in store.records
        ensures (target, id) in keys
        ensures target in s.cachedStoreNames && OwningConference(target, id, store.records[(target, id)]).Some? ==>
          OwningConference(target, id, store.records[(target, id)]).value in owners
      {
      }
      r := MemberItems(reg, s, store, target, members, owners, keys);
    }
  }
}
