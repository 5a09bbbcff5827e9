/**
 * The static access facade shared by every record class: whether a table is
 * served by a conference cache, which cache a read goes to, how a field
 * query becomes a remote predicate, how a remote record is wrapped into a
 * record object, and which failures become `null`, `[]` or a rejection.
 */
module StaticBase {
  import opened Records
  import opened Caching

  /** JavaScript truthiness of an optional string: defined and non-empty. */
  predicate Truthy(c: Option<string>) {
    c.Some? && c.value != ""
  }

  /** A table is served by a cache when it is conference-scoped and a conference id is given. */
  function IsCachable(s: SchemaInfo, t: Table, c: Option<string>): (r: bool)
    ensures r <==> t in s.cachedStoreNames && c.Some? && c.value != ""
    ensures r ==> c.Some?
  {
    t in s.cachedStoreNames && Truthy(c)
  }

  // ---------------------------------------------------------------------------
  // Routing of `get`
  // ---------------------------------------------------------------------------

  /** Where `get` looks: the cache registered under `key`, or the remote store. */
  datatype Route = ThroughCache(key: string) | Remote

  function GetRoute(s: SchemaInfo, t: Table, id: Id, c: Option<string>): (r: Route)
    ensures r.ThroughCache? <==> IsCachable(s, t, c) || t == ConferenceTable
    ensures r.ThroughCache? && Truthy(c) ==> r.key == c.value
    ensures r.ThroughCache? && !Truthy(c) ==> t == ConferenceTable && r.key == id
  {
    if IsCachable(s, t, c) || t == ConferenceTable then
      ThroughCache(if Truthy(c) then c.value else id)
    else
      Remote
  }

  // ---------------------------------------------------------------------------
  // Wrapping a remote record into a record object
  // ---------------------------------------------------------------------------

  /**
   * The owner of the object that wraps remote record `p` of table `t`: the
   * record's own conference (itself for a conference, its `conference`
   * pointer otherwise) for cached tables, none for uncached ones. A cached
   * record without a conference pointer cannot be wrapped.
   */
  function WrapOwner(s: SchemaInfo, t: Table, p: ParseObject): (r: Result<Owner>)
    ensures t !in s.cachedStoreNames <==> r == Ok(Direct)
    ensures t in s.cachedStoreNames && t == ConferenceTable ==> r == Ok(InCache(p.id))
    ensures t in s.cachedStoreNames && t != ConferenceTable ==>
      (r.Ok? <==> ConferenceField in p.attrs && p.attrs[ConferenceField].Pointer?)
    ensures t in s.cachedStoreNames && t != ConferenceTable && r.Ok? ==>
      r.value == InCache(p.attrs[ConferenceField].id)
  {
    if t in s.cachedStoreNames then
      if t == ConferenceTable then
        Ok(InCache(p.id))
      else if ConferenceField in p.attrs && p.attrs[ConferenceField].Pointer? then
        Ok(InCache(p.attrs[ConferenceField].id))
      else
        Rejected("record of a cached table has no conference")
    else
      Ok(Direct)
  }

  /** The record object that wraps `p`, or the reason it cannot be wrapped. */
  function Wrapped(s: SchemaInfo, t: Table, p: ParseObject): (r: Result<Item>)
    ensures r.Ok? <==> WrapOwner(s, t, p).Ok?
    ensures r.Ok? ==> r.value.table == t && r.value.id == p.id && r.value.attrs == p.attrs
    ensures r.Ok? ==> (r.value.owner.InCache? <==> t in s.cachedStoreNames)
  {
    match WrapOwner(s, t, p)
    case Ok(owner) => Ok(Item(t, p.id, owner, p.attrs))
    case Rejected(e) => Rejected(e)
  }

  /** The remote record stored under `k`. */
  function RemoteObject(store: Store, k: (Table, Id)): ParseObject
    requires k in store.records
  {
    ParseObject(k.0, k.1, store.records[k])
  }

  /** An object that belongs to a conference is the one indexed under its key in that conference's index. */
  ghost predicate IndexedIn(idx: Indexes, x: Item) {
    x.owner.InCache? ==>
      var c := x.owner.conferenceId;
      c in idx && (x.table, x.id) in idx[c] && idx[c][(x.table, x.id)] == x
  }

  /** An object that belongs to a conference is the one indexed under its key in that conference's cache. */
  ghost predicate IsIndexed(reg: Caches, x: Item)
    reads reg
  {
    IndexedIn(reg.indexes, x)
  }

  /** An indexed object stays indexed when the indexes only grow and its own entry is not touched. */
  lemma IndexedKept(before: Indexes, after: Indexes, entries: set<(Table, Id)>, x: Item)
    requires Extends(before, after) && OnlyTouched(before, after, entries)
    requires IndexedIn(before, x) && (x.table, x.id) !in entries
    ensures IndexedIn(after, x)
  {
    if x.owner.InCache? {
      var c := x.owner.conferenceId;
      assert (x.table, x.id) in after[c];
    }
  }

  /** The conference whose cache holds `x`, if any. */
  function OwnerOf(x: Item): (r: set<string>)
    ensures x.owner.InCache? ==> r == {x.owner.conferenceId}
    ensures x.owner.Direct? ==> r == {}
  {
    if x.owner.InCache? then {x.owner.conferenceId} else {}
  }

  /** The conferences whose caches hold some of `items`. */
  function OwnerKeys(items: set<Item>): (r: set<string>)
    ensures forall x :: x in items ==> OwnerOf(x) <= r
    ensures forall c :: c in r ==> exists x :: x in items && x.owner == InCache(c)
  {
    set x | x in items && x.owner.InCache? :: x.owner.conferenceId
  }

  /**
   * `addItemToCache` on the cache registered under `key` (registered first
   * if missing): the object materialised from `p` replaces whatever that
   * cache indexed under its key. No cache but that one is registered, and
   * every other index entry of every cache stays as it was.
   */
  method CacheAdd(reg: Caches, key: string, p: ParseObject, t: Table) returns (item: Item)
    requires reg.Valid()
    modifies reg, reg.Repr
    ensures reg.Valid() && fresh(reg.Repr - old(reg.Repr)) && reg.Grows() && reg.Kept({key})
    ensures reg.Registers({key}) && reg.Touches({(t, p.id)})
    ensures item == Item(t, p.id, InCache(key), p.attrs)
    ensures key in reg.indexes && reg.indexes[key] == old(reg.ViewOf(key))[(t, p.id) := item]
    ensures IsIndexed(reg, item)
    ensures forall x :: old(IsIndexed(reg, x)) && (x.table, x.id) != (t, p.id) ==> IsIndexed(reg, x)
  {
    var cache := reg.Get(key);
    ghost var mid := reg.indexes;
    item := reg.AddItem(key, p, t);
    ChainFrames(old(reg.indexes), mid, reg.indexes, {}, {key}, {key}, {}, {(t, p.id)}, {(t, p.id)});
    forall x | old(IsIndexed(reg, x)) && (x.table, x.id) != (t, p.id)
      ensures IsIndexed(reg, x)
    {
      IndexedKept(old(reg.indexes), reg.indexes, {(t, p.id)}, x);
    }
  }

  /**
   * Wraps one remote record: through `addItemToCache` of the owning
   * conference's cache for cached tables, by direct construction otherwise.
   */
  method WrapItem(reg: Caches, s: SchemaInfo, t: Table, p: ParseObject) returns (r: Result<Item>)
    requires reg.Valid()
    modifies reg, reg.Repr
    ensures reg.Valid() && fresh(reg.Repr - old(reg.Repr))
    ensures r == Wrapped(s, t, p)
    ensures reg.Grows() && reg.Kept(if r.Ok? then OwnerOf(r.value) else {})
    ensures reg.Registers(if r.Ok? then OwnerOf(r.value) else {}) && reg.Touches({(t, p.id)})
    ensures r.Ok? && r.value.owner.InCache? ==>
      var c := r.value.owner.conferenceId;
      c in reg.indexes && reg.indexes[c] == old(reg.ViewOf(c))[(t, p.id) := r.value]
    ensures !(r.Ok? && r.value.owner.InCache?) ==> unchanged(reg) && unchanged(reg.Repr)
    ensures forall x :: old(IsIndexed(reg, x)) && (x.table, x.id) != (t, p.id) ==> IsIndexed(reg, x)
  {
    var owner := WrapOwner(s, t, p);
    match owner {
      case Rejected(e) =>
        r := Rejected(e);
      case Ok(Direct) =>
        r := Ok(Item(t, p.id, Direct, p.attrs));
      case Ok(InCache(c)) =>
        var item := CacheAdd(reg, c, p, t);
        r := Ok(item);
    }
  }

  /** Every remote record under `keys` can be wrapped. */
  ghost predicate AllWrappable(s: SchemaInfo, store: Store, t: Table, keys: set<(Table, Id)>) {
    forall k :: k in keys && k in store.records ==> Wrapped(s, t, RemoteObject(store, k)).Ok?
  }

  /** The objects wrapping the remote records under `keys`. */
  ghost function WrappedAll(s: SchemaInfo, store: Store, t: Table, keys: set<(Table, Id)>): set<Item> {
    set k | k in keys && k in store.records && Wrapped(s, t, RemoteObject(store, k)).Ok?
      :: Wrapped(s, t, RemoteObject(store, k)).value
  }

  lemma {:induction false} WrappedAllAdd(s: SchemaInfo, store: Store, t: Table, done: set<(Table, Id)>, k: (Table, Id))
    requires k in store.records && Wrapped(s, t, RemoteObject(store, k)).Ok?
    ensures WrappedAll(s, store, t, done + {k}) == WrappedAll(s, store, t, done) + {Wrapped(s, t, RemoteObject(store, k)).value}
  {
  }

  /**
   * One step of wrapping the records under `keys`: wraps the record under
   * `k` and adds its object to `acc`, the objects of the records under
   * `done`; rejected when that record cannot be wrapped.
   */
  method WrapNext(reg: Caches, s: SchemaInfo, t: Table, store: Store, ghost owners: set<string>,
                  ghost done: set<(Table, Id)>, acc: set<Item>, k: (Table, Id))
    returns (r: Result<set<Item>>)
    requires reg.Valid()
    requires k in store.records && k.0 == t && k !in done
    requires Wrapped(s, t, RemoteObject(store, k)).Ok? ==> OwnerOf(Wrapped(s, t, RemoteObject(store, k)).value) <= owners
    requires acc == WrappedAll(s, store, t, done)
    requires forall x :: x in acc ==> (x.table, x.id) in done && IsIndexed(reg, x)
    modifies reg, reg.Repr
    ensures reg.Valid() && fresh(reg.Repr - old(reg.Repr))
    ensures reg.Grows() && reg.Kept(owners) && reg.Registers(owners) && reg.Touches({k})
    ensures r.Ok? <==> Wrapped(s, t, RemoteObject(store, k)).Ok?
    ensures r.Ok? ==> r.value == WrappedAll(s, store, t, done + {k})
    ensures r.Ok? ==> forall x :: x in r.value ==> (x.table, x.id) in done + {k} && IsIndexed(reg, x)
  {
    var w := WrapItem(reg, s, t, RemoteObject(store, k));
    assert (t, k.1) == k;
    if w.Rejected? {
      WidenFrames(old(reg.indexes), reg.indexes, {}, owners, {k}, {k});
      r := Rejected(w.reason);
      return;
    }
    WidenFrames(old(reg.indexes), reg.indexes, OwnerOf(w.value), owners, {k}, {k});
    assert IsIndexed(reg, w.value);
    WrappedAllAdd(s, store, t, done, k);
    r := Ok(acc + {w.value});
  }

  /**
   * Wraps the remote records under `keys` (all of table `t`) one after the
   * other, as a remote query's `map` does, stopping at the first record that
   * cannot be wrapped. Each cached object ends up indexed in its conference's
   * cache; only the owners' caches are registered or changed, and only under
   * `keys`.
   */
  method WrapAll(reg: Caches, s: SchemaInfo, t: Table, store: Store, keys: set<(Table, Id)>)
    returns (r: Result<set<Item>>)
    requires reg.Valid()
    requires forall k :: k in keys ==> k in store.records && k.0 == t
    modifies reg, reg.Repr
    ensures reg.Valid() && fresh(reg.Repr - old(reg.Repr))
    ensures reg.Grows() && reg.Kept(OwnerKeys(WrappedAll(s, store, t, keys)))
    ensures reg.Registers(OwnerKeys(WrappedAll(s, store, t, keys))) && reg.Touches(keys)
    ensures r.Ok? <==> AllWrappable(s, store, t, keys)
    ensures r.Ok? ==> r.value == WrappedAll(s, store, t, keys)
    ensures r.Ok? ==> forall x :: x in r.value ==> IsIndexed(reg, x)
  {
    var todo := keys;
    ghost var done: set<(Table, Id)> := {};
    var acc: set<Item> := {};
    ghost var owners := OwnerKeys(WrappedAll(s, store, t, keys));
    while todo != {}
      invariant reg.Valid() && fresh(reg.Repr - old(reg.Repr))
      invariant reg.Grows() && reg.Kept(owners) && reg.Registers(owners) && reg.Touches(done)
      invariant todo <= keys && done <= keys && todo !! done
      invariant forall k :: k in keys ==> k in done || k in todo
      invariant AllWrappable(s, store, t, done)
      invariant acc == WrappedAll(s, store, t, done)
      invariant forall x :: x in acc ==> (x.table, x.id) in done && IsIndexed(reg, x)
      decreases todo
    {
      var k :| k in todo;
      ghost var before := reg.indexes;
      if Wrapped(s, t, RemoteObject(store, k)).Ok? {
        assert Wrapped(s, t, RemoteObject(store, k)).value in WrappedAll(s, store, t, keys);
      }
      var step := WrapNext(reg, s, t, store, owners, done, acc, k);
      ChainFrames(old(reg.indexes), before, reg.indexes, owners, owners, owners, done, {k}, done + {k});
      if step.Rejected? {
        WidenFrames(old(reg.indexes), reg.indexes, owners, owners, done + {k}, keys);
        r := Rejected(step.reason);
        return;
      }
      acc := step.value;
      done := done + {k};
      todo := todo - {k};
    }
    assert done == keys;
    r := Ok(acc);
  }

  // ---------------------------------------------------------------------------
  // Remote predicates
  // ---------------------------------------------------------------------------

  /** The right-hand side of a query constraint: a pointer or a raw value. */
  datatype Operand = Ref(table: Table, id: Id) | Raw(d: Datum)

  datatype Constraint =
    | EqualTo(field: Field, operand: Operand)
    | ContainedIn(field: Field, operands: seq<Operand>)

  /** A remote value meets an operand: the same pointer, a relation holding it, or the same raw value. */
  predicate Refers(v: Value, o: Operand) {
    match o
    case Ref(table, id) => v == Pointer(table, id) || (v.Relation? && id in v.ids)
    case Raw(d) => v == Scalar(d)
  }

  predicate Satisfies(attrs: Attrs, c: Constraint) {
    match c
    case EqualTo(f, o) => f in attrs && Refers(attrs[f], o)
    case ContainedIn(f, os) => f in attrs && exists i :: 0 <= i < |os| && Refers(attrs[f], os[i])
  }

  /** A query is the conjunction of its constraints. */
  predicate SatisfiesAll(attrs: Attrs, q: seq<Constraint>) {
    q == [] || (Satisfies(attrs, q[0]) && SatisfiesAll(attrs, q[1..]))
  }

  lemma {:induction false} SatisfiesAllAppend(attrs: Attrs, p: seq<Constraint>, q: seq<Constraint>)
    ensures SatisfiesAll(attrs, p + q) <==> SatisfiesAll(attrs, p) && SatisfiesAll(attrs, q)
  {
    if p != [] {
      assert (p + q)[0] == p[0];
      assert (p + q)[1..] == p[1..] + q;
      SatisfiesAllAppend(attrs, p[1..], q);
    } else {
      assert p + q == q;
    }
  }

  /** The operands a constraint compares against. */
  function Operands(c: Constraint): seq<Operand> {
    match c
    case EqualTo(_, o) => [o]
    case ContainedIn(_, os) => os
  }

  /** Pointers to `target` for each id, in order. */
  function Refs(target: Table, ids: seq<Id>): (r: seq<Operand>)
    ensures |r| == |ids|
    ensures forall i :: 0 <= i < |ids| ==> r[i] == Ref(target, ids[i])
  {
    seq(|ids|, i requires 0 <= i < |ids| => Ref(target, ids[i]))
  }

  /** Search values a field query accepts: ids (or id arrays) for relation fields. */
  predicate SearchableBy(s: SchemaInfo, t: Table, f: Field, v: Datum) {
    f in s.Targets(t) ==> v.DString? || v.DStrings?
  }

  /** The constraint for `f == v`, rewritten to pointers when `f` is a relation field. */
  function FieldConstraint(s: SchemaInfo, t: Table, f: Field, v: Datum): (r: Constraint)
    requires SearchableBy(s, t, f, v)
    ensures r.field == f
    ensures r.ContainedIn? <==> f in s.Targets(t) && v.DStrings?
    ensures r.ContainedIn? ==> |r.operands| == |v.ss|
    ensures f in s.Targets(t) ==> forall o :: o in Operands(r) ==> o.Ref? && o.table == s.Targets(t)[f]
    ensures f !in s.Targets(t) ==> r == EqualTo(f, Raw(v))
  {
    if f in s.Targets(t) then
      var target := s.Targets(t)[f];
      if v.DStrings? then ContainedIn(f, Refs(target, v.ss)) else EqualTo(f, Ref(target, v.s))
    else
      EqualTo(f, Raw(v))
  }

  /** The constraint restricting a query to conference `c`. */
  function ConferenceConstraint(c: string): (r: Constraint)
    ensures forall attrs :: Satisfies(attrs, r) <==>
      ConferenceField in attrs && Refers(attrs[ConferenceField], Ref(ConferenceTable, c))
  {
    EqualTo(ConferenceField, Ref(ConferenceTable, c))
  }

  /** The predicate of `getByField` and `getAllByField`. */
  function BuildQuery(s: SchemaInfo, t: Table, f: Field, v: Datum, c: Option<string>): (q: seq<Constraint>)
    requires SearchableBy(s, t, f, v)
    ensures |q| == if Truthy(c) then 2 else 1
    ensures q[0] == FieldConstraint(s, t, f, v)
    ensures Truthy(c) ==> q[1] == ConferenceConstraint(c.value)
  {
    [FieldConstraint(s, t, f, v)] + if Truthy(c) then [ConferenceConstraint(c.value)] else []
  }

  /** What a relation or plain field constraint selects. */
  lemma FieldConstraintMeaning(s: SchemaInfo, t: Table, f: Field, v: Datum, attrs: Attrs)
    requires SearchableBy(s, t, f, v)
    ensures f in s.Targets(t) && v.DStrings? ==>
      (Satisfies(attrs, FieldConstraint(s, t, f, v)) <==>
        f in attrs && exists id :: id in v.ss && Refers(attrs[f], Ref(s.Targets(t)[f], id)))
    ensures f in s.Targets(t) && v.DString? ==>
      (Satisfies(attrs, FieldConstraint(s, t, f, v)) <==>
        f in attrs && Refers(attrs[f], Ref(s.Targets(t)[f], v.s)))
    ensures f !in s.Targets(t) ==>
      (Satisfies(attrs, FieldConstraint(s, t, f, v)) <==> f in attrs && attrs[f] == Scalar(v))
  {
    if f in s.Targets(t) && v.DStrings? && f in attrs {
      var target := s.Targets(t)[f];
      var os := Refs(target, v.ss);
      if exists id :: id in v.ss && Refers(attrs[f], Ref(target, id)) {
        var id :| id in v.ss && Refers(attrs[f], Ref(target, id));
        var i :| 0 <= i < |v.ss| && v.ss[i] == id;
        assert Refers(attrs[f], os[i]);
      }
    }
  }

  /**
   * A record satisfies the built query exactly when it satisfies the field
   * constraint and, when a conference id is given, points at that conference.
   */
  lemma {:induction false} QueryMeaning(s: SchemaInfo, t: Table, f: Field, v: Datum, c: Option<string>, attrs: Attrs)
    requires SearchableBy(s, t, f, v)
    ensures SatisfiesAll(attrs, BuildQuery(s, t, f, v, c)) <==>
      && Satisfies(attrs, FieldConstraint(s, t, f, v))
      && (Truthy(c) ==> Satisfies(attrs, ConferenceConstraint(c.value)))
  {
    var first := [FieldConstraint(s, t, f, v)];
    var rest := if Truthy(c) then [ConferenceConstraint(c.value)] else [];
    SatisfiesAllAppend(attrs, first, rest);
    assert first[1..] == [];
    if Truthy(c) {
      assert rest[1..] == [];
    }
  }

  /** The remote records of table `t` that satisfy `q`. */
  function Matching(store: Store, t: Table, q: seq<Constraint>): (r: set<(Table, Id)>)
    ensures forall k :: k in r <==> k in store.records && k.0 == t && SatisfiesAll(store.records[k], q)
  {
    set k | k in store.records && k.0 == t && SatisfiesAll(store.records[k], q)
  }

  // ---------------------------------------------------------------------------
  // The facade's read operations
  // ---------------------------------------------------------------------------

  /**
   * A direct remote fetch by id, wrapped: `None` when the store fails, the
   * record is absent, or the record cannot be wrapped.
   */
  function DirectGet(s: SchemaInfo, store: Store, t: Table, id: Id): (r: Option<Item>)
    ensures r.Some? <==>
      store.online && (t, id) in store.records && WrapOwner(s, t, RemoteObject(store, (t, id))).Ok?
    ensures r.Some? ==> r.value.table == t && r.value.id == id && r.value.attrs == store.records[(t, id)]
  {
    if store.online && (t, id) in store.records then
      match Wrapped(s, t, RemoteObject(store, (t, id)))
      case Ok(item) => Some(item)
      case Rejected(_) => None
    else
      None
  }

  /**
   * A cache answers with the object it indexes: once a read has answered,
   * every later read of the same key answers the same object, whatever the
   * remote store then holds.
   */
  lemma CacheAnswerStable(view: map<(Table, Id), Item>, store: Store, later: Store, t: Table, id: Id, key: string)
    requires WellIndexed(view, key)
    requires CacheAnswer(view, store, t, id, key).Some?
    ensures var r := CacheAnswer(view, store, t, id, key);
      && CacheAnswer(Indexed(view, t, id, r), later, t, id, key) == r
      && Indexed(Indexed(view, t, id, r), t, id, r) == Indexed(view, t, id, r)
      && r.value.table == t && r.value.id == id && r.value.owner == InCache(key)
  {
  }

  /**
   * A read of (t, id) through the cache registered under `key` (registered
   * first if missing): the cache's answer, which is then indexed there. No
   * cache but that one is registered, every other cache keeps its index, and
   * only the entry under (t, id) is added or replaced.
   */
  method CacheRead(reg: Caches, key: string, store: Store, t: Table, id: Id) returns (r: Option<Item>)
    requires reg.Valid()
    modifies reg, reg.Repr
    ensures reg.Valid() && fresh(reg.Repr - old(reg.Repr)) && reg.Grows() && reg.Kept({key})
    ensures reg.Registers({key}) && reg.Touches({(t, id)})
    ensures key in reg.indexes
    ensures r == CacheAnswer(old(reg.ViewOf(key)), store, t, id, key)
    ensures reg.indexes[key] == Indexed(old(reg.ViewOf(key)), t, id, r)
    ensures r.Some? <==> (t, id) in old(reg.ViewOf(key)) || (store.online && (t, id) in store.records)
    ensures r.Some? ==> r.value.table == t && r.value.id == id && r.value.owner == InCache(key)
  {
    var cache := reg.Get(key);
    ghost var mid := reg.indexes;
    r := reg.Read(key, store, t, id);
    ChainFrames(old(reg.indexes), mid, reg.indexes, {}, {key}, {key}, {}, {(t, id)}, {(t, id)});
  }

  /**
   * The outcome of `get` of (t, id) for conference `c`. Through a cache: the
   * cache's answer over its index before the call (present exactly when
   * indexed or remotely available), which that cache now indexes. Remote: the
   * direct fetch, indexed in its owner's cache when it has one (only its
   * own entry of that index changes). Either way the registry only grows,
   * it registers only the cache read from, and only the entry for (t, id)
   * is added or replaced.
   */
  twostate predicate GetOutcome(reg: Caches, s: SchemaInfo, store: Store, t: Table, id: Id, c: Option<string>, new r: Option<Item>)
    reads reg
  {
    && reg.Grows()
    && (GetRoute(s, t, id, c).ThroughCache? ==>
          var key := GetRoute(s, t, id, c).key;
          && key in reg.indexes
          && (r.Some? <==> (t, id) in old(reg.ViewOf(key)) || (store.online && (t, id) in store.records))
          && (r.Some? ==> r.value.table == t && r.value.id == id && r.value.owner == InCache(key))
          && r == CacheAnswer(old(reg.ViewOf(key)), store, t, id, key)
          && reg.indexes[key] == Indexed(old(reg.ViewOf(key)), t, id, r)
          && reg.Kept({key}) && reg.Registers({key}) && reg.Touches({(t, id)}))
    && (GetRoute(s, t, id, c).Remote? ==>
          && r == DirectGet(s, store, t, id)
          && reg.Kept(if r.Some? then OwnerOf(r.value) else {})
          && reg.Registers(if r.Some? then OwnerOf(r.value) else {}) && reg.Touches({(t, id)})
          && (r.Some? ==> IsIndexed(reg, r.value))
          && (r.Some? && r.value.owner.InCache? ==>
                var key := r.value.owner.conferenceId;
                key in reg.indexes && reg.indexes[key] == old(reg.ViewOf(key))[(t, id) := r.value]))
  }

  /** `get`: through the routed cache, or a direct remote fetch whose failures become `null`. */
  method Get(reg: Caches, s: SchemaInfo, store: Store, t: Table, id: Id, c: Option<string>)
    returns (r: Option<Item>)
    requires reg.Valid()
    modifies reg, reg.Repr
    ensures reg.Valid() && fresh(reg.Repr - old(reg.Repr))
    ensures GetOutcome(reg, s, store, t, id, c, r)
  {
    var route := GetRoute(s, t, id, c);
    if route.ThroughCache? {
      r := CacheRead(reg, route.key, store, t, id);
    } else if store.online && (t, id) in store.records {
      var w := WrapItem(reg, s, t, RemoteObject(store, (t, id)));
      r := if w.Ok? then Some(w.value) else None;
    } else {
      r := None;
    }
  }

  /**
   * The outcome of `getByField`: a wrapped record that matches the built
   * query (one exists exactly when some record matches, when all of them can
   * be wrapped), indexed in its owner's cache under its key; the registry
   * only grows, registers only that owner's cache, and no other index entry
   * is added or replaced.
   */
  twostate predicate GetByFieldOutcome(reg: Caches, s: SchemaInfo, store: Store, t: Table, f: Field, v: Datum,
                                       c: Option<string>, new r: Option<Item>)
    requires SearchableBy(s, t, f, v)
    reads reg
  {
    && (r.Some? ==>
          && store.online
          && (t, r.value.id) in Matching(store, t, BuildQuery(s, t, f, v, c))
          && Wrapped(s, t, RemoteObject(store, (t, r.value.id))) == Ok(r.value))
    && (store.online && AllWrappable(s, store, t, Matching(store, t, BuildQuery(s, t, f, v, c))) ==>
          (r.Some? <==> Matching(store, t, BuildQuery(s, t, f, v, c)) != {}))
    && reg.Grows() && reg.Kept(if r.Some? then OwnerOf(r.value) else {})
    && reg.Registers(if r.Some? then OwnerOf(r.value) else {})
    && reg.Touches(if r.Some? then {(t, r.value.id)} else {})
    && (r.Some? ==> IsIndexed(reg, r.value))
    && (r.Some? && r.value.owner.InCache? ==>
          var key := r.value.owner.conferenceId;
          key in reg.indexes && reg.indexes[key] == old(reg.ViewOf(key))[(t, r.value.id) := r.value])
  }

  /**
   * `getByField`: the first remote record matching the built predicate,
   * wrapped; `null` when nothing matches, the store fails or wrapping fails.
   */
  method GetByField(reg: Caches, s: SchemaInfo, store: Store, t: Table, f: Field, v: Datum, c: Option<string>)
    returns (r: Option<Item>)
    requires reg.Valid()
    requires SearchableBy(s, t, f, v)
    modifies reg, reg.Repr
    ensures reg.Valid() && fresh(reg.Repr - old(reg.Repr))
    ensures GetByFieldOutcome(reg, s, store, t, f, v, c, r)
  {
    var q := BuildQuery(s, t, f, v, c);
    if !store.online {
      r := None;
      return;
    }
    var matches := Matching(store, t, q);
    if matches == {} {
      r := None;
      return;
    }
    var k :| k in matches;
    var w := WrapItem(reg, s, t, RemoteObject(store, k));
    r := if w.Ok? then Some(w.value) else None;
  }

  /** The keys of every remote record of table `t`. */
  function TableKeys(store: Store, t: Table): (r: set<(Table, Id)>)
    ensures forall k :: k in r <==> k in store.records && k.0 == t
  {
    set k | k in store.records && k.0 == t
  }

  /**
   * The outcome of `getAll`. Cachable: every object of table `t` the
   * conference's cache indexed; that cache is registered if missing and no
   * index changes. Otherwise: every remote record of the table wrapped
   * (rejected when the store fails or any cannot be wrapped), each indexed in
   * its owner's cache; only the owners' caches are registered or changed,
   * and only under the table's keys. The registry only grows.
   */
  twostate predicate GetAllOutcome(reg: Caches, s: SchemaInfo, store: Store, t: Table, c: Option<string>,
                                   new r: Result<set<Item>>)
    reads reg
  {
    && reg.Grows()
    && (IsCachable(s, t, c) ==>
          && c.value in reg.indexes && r.Ok?
          && (forall x :: x in r.value <==> x.table == t && x in old(reg.ViewOf(c.value)).Values)
          && reg.indexes[c.value] == old(reg.ViewOf(c.value))
          && reg.Kept({}) && reg.Registers({c.value}) && reg.Touches({}))
    && (!IsCachable(s, t, c) ==>
          && (r.Ok? <==> store.online && AllWrappable(s, store, t, TableKeys(store, t)))
          && (r.Ok? ==> r.value == WrappedAll(s, store, t, TableKeys(store, t)))
          && (r.Ok? ==> forall x :: x in r.value ==> IsIndexed(reg, x))
          && reg.Kept(OwnerKeys(WrappedAll(s, store, t, TableKeys(store, t))))
          && reg.Registers(OwnerKeys(WrappedAll(s, store, t, TableKeys(store, t))))
          && reg.Touches(TableKeys(store, t)))
  }

  /**
   * `getAll`: every cached object of the table when it is cachable; otherwise
   * every remote record wrapped, the operation being rejected on any failure.
   */
  method GetAll(reg: Caches, s: SchemaInfo, store: Store, t: Table, c: Option<string>)
    returns (r: Result<set<Item>>)
    requires reg.Valid()
    modifies reg, reg.Repr
    ensures reg.Valid() && fresh(reg.Repr - old(reg.Repr))
    ensures GetAllOutcome(reg, s, store, t, c, r)
  {
    if IsCachable(s, t, c) {
      var cache := reg.Get(c.value);
      var items := cache.GetAll(t);
      r := Ok(items);
      forall x: Item | x.table == t && x in old(reg.ViewOf(c.value)).Values
        ensures x in items
      {
        var k :| k in cache.index && cache.index[k] == x;
      }
    } else if !store.online {
      r := Rejected("Fetch all from database of uncached table failed");
    } else {
      r := WrapAll(reg, s, t, store, TableKeys(store, t));
      if r.Rejected? {
        r := Rejected("Fetch all from database of uncached table failed");
      }
    }
  }

  /**
   * The outcome of `getAllByField`: every matching remote record wrapped,
   * or nothing when the store fails or any of them cannot be wrapped; each
   * object returned is indexed in its owner's cache, the registry only grows,
   * only the owners' caches are registered or changed, and only entries under
   * the matching keys are added or replaced.
   */
  twostate predicate GetAllByFieldOutcome(reg: Caches, s: SchemaInfo, store: Store, t: Table, f: Field, v: Datum,
                                          c: Option<string>, r: set<Item>)
    requires SearchableBy(s, t, f, v)
    reads reg
  {
    && r == (if store.online && AllWrappable(s, store, t, Matching(store, t, BuildQuery(s, t, f, v, c)))
             then WrappedAll(s, store, t, Matching(store, t, BuildQuery(s, t, f, v, c)))
             else {})
    && (forall x :: x in r ==> IsIndexed(reg, x))
    && reg.Grows() && reg.Kept(OwnerKeys(WrappedAll(s, store, t, Matching(store, t, BuildQuery(s, t, f, v, c)))))
    && reg.Registers(OwnerKeys(WrappedAll(s, store, t, Matching(store, t, BuildQuery(s, t, f, v, c)))))
    && reg.Touches(Matching(store, t, BuildQuery(s, t, f, v, c)))
  }

  /**
   * `getAllByField`: every remote record matching the built predicate,
   * wrapped; any failure yields the empty result.
   */
  method GetAllByField(reg: Caches, s: SchemaInfo, store: Store, t: Table, f: Field, v: Datum, c: Option<string>)
    returns (r: set<Item>)
    requires reg.Valid()
    requires SearchableBy(s, t, f, v)
    modifies reg, reg.Repr
    ensures reg.Valid() && fresh(reg.Repr - old(reg.Repr))
    ensures GetAllByFieldOutcome(reg, s, store, t, f, v, c, r)
  {
    var q := BuildQuery(s, t, f, v, c);
    if !store.online {
      r := {};
      return;
    }
    var w := WrapAll(reg, s, t, store, Matching(store, t, q));
    r := if w.Ok? then w.value else {};
  }
}
