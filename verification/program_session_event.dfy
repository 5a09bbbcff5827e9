/**
 * The `ProgramSessionEvent` record class: its plain getters, its unique
 * relations, the track reached through its session, and the static reads
 * with the table name "ProgramSessionEvent" fixed.
 */
module ProgramSessionEvents {
  import opened Records
  import opened Caching
  import opened StaticBase
  import opened RecordBase

  const EventTable: Table := "ProgramSessionEvent"
  const SessionTable: Table := "ProgramSession"
  const TrackTable: Table := "ProgramTrack"
  const ItemTable: Table := "ProgramItem"

  /**
   * The local data a cache materialises from a remote record's attributes:
   * scalars verbatim and pointers as the id they point at. Relations are not
   * carried over.
   */
  function LocalFields(attrs: Attrs): (r: map<Field, Datum>)
    ensures forall f :: f in r <==> f in attrs && !attrs[f].Relation?
    ensures forall f :: f in attrs && attrs[f].Scalar? ==> r[f] == attrs[f].d
    ensures forall f :: f in attrs && attrs[f].Pointer? ==> r[f] == DString(attrs[f].id)
  {
    map f | f in attrs && !attrs[f].Relation? ::
      if attrs[f].Pointer? then DString(attrs[f].id) else attrs[f].d
  }

  /** The record object for a materialised item, as its table's class would wrap it. */
  method Materialise(item: Item, fallbackConference: string) returns (obj: CachedBase)
    ensures fresh(obj) && obj.Valid()
    ensures obj.tableName == item.table
    ensures obj.conferenceId == if item.owner.InCache? then item.owner.conferenceId else fallbackConference
    ensures obj.data == LocalRecord(item.id, 0, 0, LocalFields(item.attrs))
    ensures obj.parse == Some(ParseObject(item.table, item.id, item.attrs))
  {
    var c := if item.owner.InCache? then item.owner.conferenceId else fallbackConference;
    obj := new CachedBase(c, item.table, LocalRecord(item.id, 0, 0, LocalFields(item.attrs)),
                          Some(ParseObject(item.table, item.id, item.attrs)));
  }

  class ProgramSessionEvent {
    const base: CachedBase

    ghost predicate Valid()
      reads base
    {
      base.tableName == EventTable && base.Valid()
    }

    constructor (conferenceId: string, data: LocalRecord, parse: Option<ParseObject>)
      requires parse.Some? ==> parse.value.table == EventTable
      ensures Valid() && fresh(base)
      ensures base.conferenceId == conferenceId && base.data == data && base.parse == parse
    {
      base := new CachedBase(conferenceId, EventTable, data, parse);
    }

    function DirectLink(): (r: Option<Datum>)
      reads base
      ensures Holds(base.data.fields, "directLink", r)
    {
      Lookup(base.data.fields, "directLink")
    }

    function EndTime(): (r: Option<Datum>)
      reads base
      ensures Holds(base.data.fields, "endTime", r)
    {
      Lookup(base.data.fields, "endTime")
    }

    function StartTime(): (r: Option<Datum>)
      reads base
      ensures Holds(base.data.fields, "startTime", r)
    {
      Lookup(base.data.fields, "startTime")
    }

    /** The raw id in `session`, without resolving the relation. */
    function SessionId(): (r: Option<Datum>)
      reads base
      ensures Holds(base.data.fields, "session", r)
    {
      Lookup(base.data.fields, "session")
    }

    /** The conference this event belongs to. */
    method Conference(reg: Caches, s: SchemaInfo, store: Store) returns (r: Result<Item>)
      requires Valid() && reg.Valid()
      requires "conference" in s.Targets(EventTable) && s.Targets(EventTable)["conference"] == ConferenceTable
      modifies reg, reg.Repr
      ensures reg.Valid() && fresh(reg.Repr - old(reg.Repr))
      ensures UniqueResolved(reg, s, store, ConferenceTable, Lookup(base.data.fields, "conference"), base.conferenceId, r)
    {
      r := base.UniqueRelated(reg, s, store, "conference");
    }

    /** The program item shown in this event. */
    method ProgramItem(reg: Caches, s: SchemaInfo, store: Store) returns (r: Result<Item>)
      requires Valid() && reg.Valid()
      requires "item" in s.Targets(EventTable) && s.Targets(EventTable)["item"] == ItemTable
      modifies reg, reg.Repr
      ensures reg.Valid() && fresh(reg.Repr - old(reg.Repr))
      ensures UniqueResolved(reg, s, store, ItemTable, Lookup(base.data.fields, "item"), base.conferenceId, r)
    {
      r := base.UniqueRelated(reg, s, store, "item");
    }

    /** The session this event belongs to (`SessionId` is its raw id). */
    method Session(reg: Caches, s: SchemaInfo, store: Store) returns (r: Result<Item>)
      requires Valid() && reg.Valid()
      requires "session" in s.Targets(EventTable) && s.Targets(EventTable)["session"] == SessionTable
      modifies reg, reg.Repr
      ensures reg.Valid() && fresh(reg.Repr - old(reg.Repr))
      ensures UniqueResolved(reg, s, store, SessionTable, Lookup(base.data.fields, "session"), base.conferenceId, r)
    {
      r := base.UniqueRelated(reg, s, store, "session");
    }

    /**
     * The track of this event's session: the session is resolved first (as
     * `Session` does), then the session object's own `track` relation, over
     * the cache as the first step left it; a failure of either rejects.
     */
    method Track(reg: Caches, s: SchemaInfo, store: Store) returns (r: Result<Item>, ghost session: Option<Item>)
      requires Valid() && reg.Valid()
      requires "session" in s.Targets(EventTable) && s.Targets(EventTable)["session"] == SessionTable
      requires "track" in s.Targets(SessionTable) && s.Targets(SessionTable)["track"] == TrackTable
      modifies reg, reg.Repr
      ensures reg.Valid() && fresh(reg.Repr - old(reg.Repr))
      ensures session == UniqueAnswer(s, old(reg.ViewOf(base.conferenceId)), store, SessionTable, SessionId(), base.conferenceId)
      ensures session.None? ==> r.Rejected?
      ensures session.Some? ==>
        var mid := if session.value.owner.InCache?
                   then old(reg.ViewOf(base.conferenceId))[(SessionTable, session.value.id) := session.value]
                   else old(reg.ViewOf(base.conferenceId));
        && base.conferenceId in reg.indexes
        && UniqueOutcome(s, mid, reg.indexes[base.conferenceId], store, TrackTable,
                         Lookup(LocalFields(session.value.attrs), "track"), base.conferenceId, r)
      ensures r.Ok? ==>
        && session.Some? && session.value.table == SessionTable && SessionId() == Some(DString(session.value.id))
        && r.value.table == TrackTable
        && Lookup(LocalFields(session.value.attrs), "track") == Some(DString(r.value.id))
      ensures reg.Grows() && reg.Kept({base.conferenceId}) && reg.Registers({base.conferenceId})
    {
      var sr := Session(reg, s, store);
      ghost var view := old(reg.ViewOf(base.conferenceId));
      ghost var registered := reg.caches.Keys;
      assert registered <= old(reg.caches.Keys) + {base.conferenceId};
      assert UniqueOutcome(s, view, reg.indexes[base.conferenceId], store, SessionTable, SessionId(), base.conferenceId, sr);
      if sr.Rejected? {
        session := None;
        r := Rejected(sr.reason);
        assert session == UniqueAnswer(s, view, store, SessionTable, SessionId(), base.conferenceId);
        return;
      }
      session := Some(sr.value);
      assert session == UniqueAnswer(s, view, store, SessionTable, SessionId(), base.conferenceId);
      ghost var mid := reg.indexes;
      ghost var after := if sr.value.owner.InCache? then view[(SessionTable, sr.value.id) := sr.value] else view;
      assert mid[base.conferenceId] == after;
      ghost var midCaches := reg.caches;
      ghost var midRepr := reg.Repr;
      r := TrackOf(reg, s, store, sr.value);
      assert UniqueOutcome(s, after, reg.indexes[base.conferenceId], store, TrackTable,
                           Lookup(LocalFields(sr.value.attrs), "track"), base.conferenceId, r);
      assert reg.caches.Keys <= registered + {base.conferenceId};
      assert reg.caches.Keys <= old(reg.caches.Keys) + {base.conferenceId};
      assert forall k :: k in midCaches ==> k in reg.caches && reg.caches[k] == midCaches[k];
      assert fresh(reg.Repr - midRepr);
      KeptChain(old(reg.indexes), mid, reg.indexes, {base.conferenceId});
    }

    /** The `track` relation of a resolved session of this event's conference, read as a record object. */
    method TrackOf(reg: Caches, s: SchemaInfo, store: Store, session: Item) returns (r: Result<Item>)
      requires reg.Valid()
      requires "track" in s.Targets(SessionTable) && s.Targets(SessionTable)["track"] == TrackTable
      requires session.table == SessionTable
      requires session.owner.InCache? ==> session.owner.conferenceId == base.conferenceId
      modifies reg, reg.Repr
      ensures reg.Valid() && fresh(reg.Repr - old(reg.Repr))
      ensures base.conferenceId in reg.indexes
      ensures UniqueOutcome(s, old(reg.ViewOf(base.conferenceId)), reg.indexes[base.conferenceId], store, TrackTable,
                            Lookup(LocalFields(session.attrs), "track"), base.conferenceId, r)
      ensures reg.Grows() && reg.Kept({base.conferenceId}) && reg.Registers({base.conferenceId})
    {
      var obj := Materialise(session, base.conferenceId);
      r := obj.UniqueRelated(reg, s, store, "track");
    }

    static method Get(reg: Caches, s: SchemaInfo, store: Store, id: Id, conferenceId: string) returns (r: Option<Item>)
      requires reg.Valid()
      modifies reg, reg.Repr
      ensures reg.Valid() && fresh(reg.Repr - old(reg.Repr))
      ensures GetOutcome(reg, s, store, EventTable, id, Some(conferenceId), r)
      ensures EventTable in s.cachedStoreNames && conferenceId != "" ==>
        && conferenceId in reg.indexes
        && r == CacheAnswer(old(reg.ViewOf(conferenceId)), store, EventTable, id, conferenceId)
      ensures !(EventTable in s.cachedStoreNames && conferenceId != "") ==>
        r == DirectGet(s, store, EventTable, id)
    {
      r := StaticBase.Get(reg, s, store, EventTable, id, Some(conferenceId));
    }

    static method GetAll(reg: Caches, s: SchemaInfo, store: Store, conferenceId: string) returns (r: Result<set<Item>>)
      requires reg.Valid()
      modifies reg, reg.Repr
      ensures reg.Valid() && fresh(reg.Repr - old(reg.Repr))
      ensures GetAllOutcome(reg, s, store, EventTable, Some(conferenceId), r)
    {
      r := StaticBase.GetAll(reg, s, store, EventTable, Some(conferenceId));
    }
  }
}
