/**
 * The `UserProfile` record class: typed getters and setters over the local
 * data, relation getters and setters, and the static reads, all with the
 * table name "UserProfile" fixed.
 */
module UserProfiles {
  import opened Records
  import opened Caching
  import opened StaticBase
  import opened RecordBase

  const UserProfileTable: Table := "UserProfile"
  const ProgramPersonTable: Table := "ProgramPerson"
  const FlairTable: Table := "Flair"

  /** A string field value, `None` standing for `undefined`. */
  function OptString(v: Option<string>): (r: Option<Datum>)
    ensures r.Some? <==> v.Some?
    ensures v.Some? ==> r.value == DString(v.value)
  {
    if v.Some? then Some(DString(v.value)) else None
  }

  /** The ids of `items`, in order. */
  function IdsOf(items: seq<Item>): (r: seq<Id>)
    ensures |r| == |items|
    ensures forall i :: 0 <= i < |items| ==> r[i] == items[i].id
  {
    if items == [] then [] else [items[0].id] + IdsOf(items[1..])
  }

  class UserProfile {
    const base: CachedBase

    ghost predicate Valid()
      reads base
    {
      base.tableName == UserProfileTable && base.Valid()
    }

    constructor (conferenceId: string, data: LocalRecord, parse: Option<ParseObject>)
      requires parse.Some? ==> parse.value.table == UserProfileTable
      ensures Valid() && fresh(base)
      ensures base.conferenceId == conferenceId && base.data == data && base.parse == parse
    {
      base := new CachedBase(conferenceId, UserProfileTable, data, parse);
    }

    function Affiliation(): (r: Option<Datum>)
      reads base
      ensures Holds(base.data.fields, "affiliation", r)
    {
      Lookup(base.data.fields, "affiliation")
    }

    function Bio(): (r: Option<Datum>)
      reads base
      ensures Holds(base.data.fields, "bio", r)
    {
      Lookup(base.data.fields, "bio")
    }

    function Country(): (r: Option<Datum>)
      reads base
      ensures Holds(base.data.fields, "country", r)
    {
      Lookup(base.data.fields, "country")
    }

    function DisplayName(): (r: Option<Datum>)
      reads base
      ensures Holds(base.data.fields, "displayName", r)
    {
      Lookup(base.data.fields, "displayName")
    }

    function Position(): (r: Option<Datum>)
      reads base
      ensures Holds(base.data.fields, "position", r)
    {
      Lookup(base.data.fields, "position")
    }

    function ProfilePhoto(): (r: Option<Datum>)
      reads base
      ensures Holds(base.data.fields, "profilePhoto", r)
    {
      Lookup(base.data.fields, "profilePhoto")
    }

    function Pronouns(): (r: Option<Datum>)
      reads base
      ensures Holds(base.data.fields, "pronouns", r)
    {
      Lookup(base.data.fields, "pronouns")
    }

    function RealName(): (r: Option<Datum>)
      reads base
      ensures Holds(base.data.fields, "realName", r)
    {
      Lookup(base.data.fields, "realName")
    }

    function DataConsentGiven(): (r: Option<Datum>)
      reads base
      ensures Holds(base.data.fields, "dataConsentGiven", r)
    {
      Lookup(base.data.fields, "dataConsentGiven")
    }

    function Tags(): (r: Option<Datum>)
      reads base
      ensures Holds(base.data.fields, "tags", r)
    {
      Lookup(base.data.fields, "tags")
    }

    function Webpage(): (r: Option<Datum>)
      reads base
      ensures Holds(base.data.fields, "webpage", r)
    {
      Lookup(base.data.fields, "webpage")
    }

    function WelcomeModalShown(): (r: Option<Datum>)
      reads base
      ensures Holds(base.data.fields, "welcomeModalShown", r)
    {
      Lookup(base.data.fields, "welcomeModalShown")
    }

    /** The raw id in `user`, without resolving the relation. */
    function UserId(): (r: Option<Datum>)
      reads base
      ensures Holds(base.data.fields, "user", r)
    {
      Lookup(base.data.fields, "user")
    }

    method SetAffiliation(v: Option<string>)
      requires Valid()
      modifies base
      ensures Valid() && Affiliation() == OptString(v) && base.AssignedOnly("affiliation", OptString(v))
    {
      base.SetField("affiliation", OptString(v));
    }

    method SetBio(v: Option<string>)
      requires Valid()
      modifies base
      ensures Valid() && Bio() == OptString(v) && base.AssignedOnly("bio", OptString(v))
    {
      base.SetField("bio", OptString(v));
    }

    method SetCountry(v: Option<string>)
      requires Valid()
      modifies base
      ensures Valid() && Country() == OptString(v) && base.AssignedOnly("country", OptString(v))
    {
      base.SetField("country", OptString(v));
    }

    method SetDisplayName(v: string)
      requires Valid()
      modifies base
      ensures Valid() && DisplayName() == Some(DString(v)) && base.AssignedOnly("displayName", Some(DString(v)))
    {
      base.SetField("displayName", Some(DString(v)));
    }

    method SetPosition(v: Option<string>)
      requires Valid()
      modifies base
      ensures Valid() && Position() == OptString(v) && base.AssignedOnly("position", OptString(v))
    {
      base.SetField("position", OptString(v));
    }

    /** A profile photo is a file handle, modelled as an opaque token. */
    method SetProfilePhoto(v: Option<nat>)
      requires Valid()
      modifies base
      ensures Valid()
      ensures ProfilePhoto() == (if v.Some? then Some(DOpaque(v.value)) else None)
      ensures base.AssignedOnly("profilePhoto", if v.Some? then Some(DOpaque(v.value)) else None)
    {
      base.SetField("profilePhoto", if v.Some? then Some(DOpaque(v.value)) else None);
    }

    method SetPronouns(v: seq<string>)
      requires Valid()
      modifies base
      ensures Valid() && Pronouns() == Some(DStrings(v)) && base.AssignedOnly("pronouns", Some(DStrings(v)))
    {
      base.SetField("pronouns", Some(DStrings(v)));
    }

    method SetRealName(v: string)
      requires Valid()
      modifies base
      ensures Valid() && RealName() == Some(DString(v)) && base.AssignedOnly("realName", Some(DString(v)))
    {
      base.SetField("realName", Some(DString(v)));
    }

    method SetDataConsentGiven(v: bool)
      requires Valid()
      modifies base
      ensures Valid() && DataConsentGiven() == Some(DBool(v)) && base.AssignedOnly("dataConsentGiven", Some(DBool(v)))
    {
      base.SetField("dataConsentGiven", Some(DBool(v)));
    }

    method SetTags(v: seq<Datum>)
      requires Valid()
      modifies base
      ensures Valid() && Tags() == Some(DList(v)) && base.AssignedOnly("tags", Some(DList(v)))
    {
      base.SetField("tags", Some(DList(v)));
    }

    method SetWebpage(v: Option<string>)
      requires Valid()
      modifies base
      ensures Valid() && Webpage() == OptString(v) && base.AssignedOnly("webpage", OptString(v))
    {
      base.SetField("webpage", OptString(v));
    }

    method SetWelcomeModalShown(v: bool)
      requires Valid()
      modifies base
      ensures Valid() && WelcomeModalShown() == Some(DBool(v)) && base.AssignedOnly("welcomeModalShown", Some(DBool(v)))
    {
      base.SetField("welcomeModalShown", Some(DBool(v)));
    }

    /** Stages the given flair (already resolved) as the primary flair. */
    method SetPrimaryFlair(flair: Item)
      requires Valid()
      modifies base
      ensures Valid() && Lookup(base.data.fields, "primaryFlair") == Some(DString(flair.id))
      ensures base.AssignedOnly("primaryFlair", Some(DString(flair.id)))
    {
      base.SetField("primaryFlair", Some(DString(flair.id)));
    }

    /** Stages the ids of the given flairs (already resolved), in order. */
    method SetFlairs(flairs: seq<Item>)
      requires Valid()
      modifies base
      ensures Valid() && Lookup(base.data.fields, "flairs") == Some(DStrings(IdsOf(flairs)))
      ensures base.AssignedOnly("flairs", Some(DStrings(IdsOf(flairs))))
    {
      base.SetField("flairs", Some(DStrings(IdsOf(flairs))));
    }

    /** The conference this profile belongs to. */
    method Conference(reg: Caches, s: SchemaInfo, store: Store) returns (r: Result<Item>)
      requires Valid() && reg.Valid()
      requires "conference" in s.Targets(UserProfileTable) && s.Targets(UserProfileTable)["conference"] == ConferenceTable
      modifies reg, reg.Repr
      ensures reg.Valid() && fresh(reg.Repr - old(reg.Repr))
      ensures UniqueResolved(reg, s, store, ConferenceTable, Lookup(base.data.fields, "conference"), base.conferenceId, r)
    {
      r := base.UniqueRelated(reg, s, store, "conference");
    }

    /** The flair staged as primary. */
    method PrimaryFlair(reg: Caches, s: SchemaInfo, store: Store) returns (r: Result<Item>)
      requires Valid() && reg.Valid()
      requires "primaryFlair" in s.Targets(UserProfileTable) && s.Targets(UserProfileTable)["primaryFlair"] == FlairTable
      modifies reg, reg.Repr
      ensures reg.Valid() && fresh(reg.Repr - old(reg.Repr))
      ensures UniqueResolved(reg, s, store, FlairTable, Lookup(base.data.fields, "primaryFlair"), base.conferenceId, r)
    {
      r := base.UniqueRelated(reg, s, store, "primaryFlair");
    }

    /** The presence record of this profile. */
    method Presence(reg: Caches, s: SchemaInfo, store: Store) returns (r: Result<Item>)
      requires Valid() && reg.Valid()
      requires "presence" in s.Targets(UserProfileTable) && s.Targets(UserProfileTable)["presence"] == "UserPresence"
      modifies reg, reg.Repr
      ensures reg.Valid() && fresh(reg.Repr - old(reg.Repr))
      ensures UniqueResolved(reg, s, store, "UserPresence", Lookup(base.data.fields, "presence"), base.conferenceId, r)
    {
      r := base.UniqueRelated(reg, s, store, "presence");
    }

    /** The user this profile belongs to (`UserId` is its raw id). */
    method User(reg: Caches, s: SchemaInfo, store: Store) returns (r: Result<Item>)
      requires Valid() && reg.Valid()
      requires "user" in s.Targets(UserProfileTable) && s.Targets(UserProfileTable)["user"] == "_User"
      modifies reg, reg.Repr
      ensures reg.Valid() && fresh(reg.Repr - old(reg.Repr))
      ensures UniqueResolved(reg, s, store, "_User", Lookup(base.data.fields, "user"), base.conferenceId, r)
    {
      r := base.UniqueRelated(reg, s, store, "user");
    }

    /** The flairs, one per staged id and in the same order when the flair table is cached. */
    method Flairs(reg: Caches, s: SchemaInfo, store: Store) returns (r: Result<seq<Item>>)
      requires Valid() && reg.Valid()
      requires "flairs" in s.Targets(UserProfileTable) && s.Targets(UserProfileTable)["flairs"] == FlairTable
      modifies reg, reg.Repr
      ensures reg.Valid() && fresh(reg.Repr - old(reg.Repr))
      ensures NonUniqueResolved(reg, s, store, FlairTable, Lookup(base.data.fields, "flairs"), base.conferenceId, r)
      ensures r.Ok? && FlairTable in s.cachedStoreNames ==>
        && Lookup(base.data.fields, "flairs").Some? && Lookup(base.data.fields, "flairs").value.DStrings?
        && IdsOf(r.value) == Lookup(base.data.fields, "flairs").value.ss
    {
      r := base.NonUniqueRelated(reg, s, store, "flairs");
      if r.Ok? && FlairTable in s.cachedStoreNames {
        var ids := IdsOf(r.value);
        assert ids == Lookup(base.data.fields, "flairs").value.ss;
      }
    }

    /** The program persons whose `profile` is this profile, in this profile's conference. */
    method ProgramPersons(reg: Caches, s: SchemaInfo, store: Store) returns (r: set<Item>)
      requires Valid() && reg.Valid()
      modifies reg, reg.Repr
      ensures reg.Valid() && fresh(reg.Repr - old(reg.Repr))
      ensures GetAllByFieldOutcome(reg, s, store, ProgramPersonTable, "profile", DString(old(base.Id())), Some(base.conferenceId), r)
      ensures forall x :: x in r ==>
        && x.table == ProgramPersonTable
        && (ProgramPersonTable, x.id) in store.records
        && Satisfies(store.records[(ProgramPersonTable, x.id)],
                     FieldConstraint(s, ProgramPersonTable, "profile", DString(old(base.Id()))))
        && (base.conferenceId != "" ==>
              Satisfies(store.records[(ProgramPersonTable, x.id)], ConferenceConstraint(base.conferenceId)))
    {
      r := GetAllByField(reg, s, store, ProgramPersonTable, "profile", DString(base.Id()), Some(base.conferenceId));
      forall x | x in r
        ensures (ProgramPersonTable, x.id) in store.records
        ensures Satisfies(store.records[(ProgramPersonTable, x.id)],
                          FieldConstraint(s, ProgramPersonTable, "profile", DString(old(base.Id()))))
        ensures base.conferenceId != "" ==>
          Satisfies(store.records[(ProgramPersonTable, x.id)], ConferenceConstraint(base.conferenceId))
      {
        var k :| k in Matching(store, ProgramPersonTable,
                   BuildQuery(s, ProgramPersonTable, "profile", DString(base.Id()), Some(base.conferenceId)))
          && Wrapped(s, ProgramPersonTable, RemoteObject(store, k)).Ok?
          && x == Wrapped(s, ProgramPersonTable, RemoteObject(store, k)).value;
        QueryMeaning(s, ProgramPersonTable, "profile", DString(base.Id()), Some(base.conferenceId), store.records[k]);
      }
    }

    /** The profile of user `userId` in conference `conferenceId`. */
    static method GetByUserId(reg: Caches, s: SchemaInfo, store: Store, userId: Id, conferenceId: string)
      returns (r: Option<Item>)
      requires reg.Valid()
      modifies reg, reg.Repr
      ensures reg.Valid() && fresh(reg.Repr - old(reg.Repr))
      ensures GetByFieldOutcome(reg, s, store, UserProfileTable, "user", DString(userId), Some(conferenceId), r)
    {
      r := GetByField(reg, s, store, UserProfileTable, "user", DString(userId), Some(conferenceId));
    }

    /** `UserProfile.get`: the facade's `get` for table "UserProfile". */
    static method Get(reg: Caches, s: SchemaInfo, store: Store, id: Id, conferenceId: string) returns (r: Option<Item>)
      requires reg.Valid()
      modifies reg, reg.Repr
      ensures reg.Valid() && fresh(reg.Repr - old(reg.Repr))
      ensures GetOutcome(reg, s, store, UserProfileTable, id, Some(conferenceId), r)
      ensures UserProfileTable in s.cachedStoreNames && conferenceId != "" ==>
        && conferenceId in reg.indexes
        && r == CacheAnswer(old(reg.ViewOf(conferenceId)), store, UserProfileTable, id, conferenceId)
      ensures !(UserProfileTable in s.cachedStoreNames && conferenceId != "") ==>
        r == DirectGet(s, store, UserProfileTable, id)
    {
      r := StaticBase.Get(reg, s, store, UserProfileTable, id, Some(conferenceId));
    }

    /** `UserProfile.getAll`: the facade's `getAll` for table "UserProfile". */
    static method GetAll(reg: Caches, s: SchemaInfo, store: Store, conferenceId: string) returns (r: Result<set<Item>>)
      requires reg.Valid()
      modifies reg, reg.Repr
      ensures reg.Valid() && fresh(reg.Repr - old(reg.Repr))
      ensures GetAllOutcome(reg, s, store, UserProfileTable, Some(conferenceId), r)
    {
      r := StaticBase.GetAll(reg, s, store, UserProfileTable, Some(conferenceId));
    }
  }
}
