/**
 * Values shared by the whole data layer: the failure-compatible wrappers,
 * the plain data held by record objects, the remote store's record form,
 * the schema registry and the remote store itself.
 */
module Records {

  datatype Option<+T> = None | Some(value: T)

  /** A settled promise: fulfilled with a value or rejected with a reason. */
  datatype Result<+T> = Ok(value: T) | Rejected(reason: string)

  type Table = string
  type Id = string
  type Field = string

  /** The table name that is its own conference scope. */
  const ConferenceTable: Table := "Conference"

  /** The field every conference-scoped record uses to point at its conference. */
  const ConferenceField: Field := "conference"

  /**
   * One field value of a local data record (the TypeScript `LocalDataT` type):
   * strings, booleans, arrays of ids or strings, nested lists, and values the
   * model treats as opaque tokens (dates, files).
   */
  datatype Datum =
    | DString(s: string)
    | DBool(b: bool)
    | DStrings(ss: seq<string>)
    | DList(items: seq<Datum>)
    | DOpaque(token: nat)

  /** The local data of a record object: id, timestamps and its other fields. */
  datatype LocalRecord = LocalRecord(id: Id, createdAt: nat, updatedAt: nat, fields: map<Field, Datum>)

  /** One attribute of a record as the remote store holds it. */
  datatype Value =
    | Scalar(d: Datum)
    | Pointer(table: Table, id: Id)
    | Relation(ids: set<Id>)

  type Attrs = map<Field, Value>

  /** A record of the remote store, addressed by its table and id. */
  datatype ParseObject = ParseObject(table: Table, id: Id, attrs: Attrs)

  /**
   * The remote store: records keyed by (table, id). `online == false` stands
   * for every transport, permission or query failure: every remote call fails.
   */
  datatype Store = Store(records: map<(Table, Id), Attrs>, online: bool)

  /** Where a materialised record object lives. */
  datatype Owner = InCache(conferenceId: string) | Direct

  /** A materialised record object, as returned by reads. */
  datatype Item = Item(table: Table, id: Id, owner: Owner, attrs: Attrs)

  /**
   * The schema registry: per table, its ordered field list, its relation
   * fields, the unique ones among them and the target table of each; plus
   * the names of the conference-scoped (cached) tables.
   */
  datatype SchemaInfo = SchemaInfo(
    fields: map<Table, seq<Field>>,
    relations: map<Table, set<Field>>,
    uniqueRelations: map<Table, set<Field>>,
    relationTargets: map<Table, map<Field, Table>>,
    cachedStoreNames: set<Table>)
  {
    function Fields(t: Table): seq<Field> {
      if t in fields then fields[t] else []
    }

    function Relations(t: Table): set<Field> {
      if t in relations then relations[t] else {}
    }

    function UniqueRelations(t: Table): set<Field> {
      if t in uniqueRelations then uniqueRelations[t] else {}
    }

    function Targets(t: Table): map<Field, Table> {
      if t in relationTargets then relationTargets[t] else map[]
    }

    /** Every relation field has a target table and unique relations are relations. */
    predicate Valid() {
      forall t :: t in relations ==>
        relations[t] <= Targets(t).Keys && UniqueRelations(t) <= relations[t]
    }

    /** `f` is a relation of `t` whose target is `target`, unique or not as asked. */
    predicate HasRelation(t: Table, f: Field, target: Table, unique: bool) {
      && f in Relations(t)
      && f in Targets(t) && Targets(t)[f] == target
      && (f in UniqueRelations(t) <==> unique)
    }
  }

  /** The value of field `f` of `data`, `None` standing for `undefined`. */
  function Lookup(data: map<Field, Datum>, f: Field): (r: Option<Datum>)
    ensures r.Some? <==> f in data
    ensures r.Some? ==> data[f] == r.value
  {
    if f in data then Some(data[f]) else None
  }

  /** `v` is what `data` holds in field `f`: `None` exactly when `f` is undefined. */
  predicate Holds(data: map<Field, Datum>, f: Field, v: Option<Datum>) {
    (v.Some? <==> f in data) && (v.Some? ==> v.value == data[f])
  }

  /** Sets `f` to `v`, or deletes it when `v` is `undefined`. */
  function Assign(data: map<Field, Datum>, f: Field, v: Option<Datum>): (r: map<Field, Datum>)
    ensures Lookup(r, f) == v
    ensures forall g :: g != f ==> Lookup(r, g) == Lookup(data, g)
  {
    if v.Some? then data[f := v.value] else data - {f}
  }

  /** The set of elements of a sequence. */
  function Elements(s: seq<Id>): (r: set<Id>)
    ensures forall x :: x in r <==> x in s
  {
    set x | x in s
  }
}
