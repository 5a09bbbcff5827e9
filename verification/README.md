# Clowdr client data layer: routing, caching and record objects

This project models the core of the Clowdr web client's data layer. That core
decides how a record of a conference database is read, where it is kept and
how it is written back:

- **The cache registry** (`Caches`) maps each conference id to that
  conference's cache. It creates and initialises a cache on first use.
- **The static access facade** (`StaticBaseImpl`) serves `get`, `getByField`,
  `getAll` and `getAllByField` for every table. `get` and `getAll` on a
  conference-scoped ("cached") table with a conference id are served from
  that conference's cache, and `get` on "Conference" always is. `getByField`
  and `getAllByField` always query the remote store, and so do `get` and
  `getAll` in every other case. Every record the store returns is wrapped
  into a record object, and a cached one is added to its conference's cache.
  The facade also turns field queries into remote predicates and decides
  which failures become `null`, `[]` or a rejected promise.
- **Record objects.** `CachedBase` holds a local data record. It writes that
  record back to the remote store with `save` and resolves relation fields
  into record objects. `UncachedBase` wraps a remote record directly.
- **Two typed record classes**, `UserProfile` and `ProgramSessionEvent`. They
  provide field getters and setters over the local data and fix the table
  name for the facade's reads.

## Modelling choices

- **The remote store** is a value, `Store(records, online)`. It maps
  (table, id) to attributes, and each attribute is a `Value`: a scalar, a
  pointer to (table, id), or a relation holding a set of ids. When `online` is
  false, every remote call fails. This one flag stands for every transport,
  permission and query failure.
- **The schema registry** is a parameter, `SchemaInfo`. It gives each table's
  field list, its relations, its unique relations, each relation's target
  table, and the set of cached table names. These are static tables in the
  source.
- **The per-conference cache** (`Caching.Cache`) is abstract, because
  `Cache.ts` is not part of this model. It keeps an index of materialised
  objects by (table, id) and gives `get`, `getAll` and `addItemToCache` the
  contracts the data layer relies on.
- **Records and the registry.** A materialised record object is an `Item`,
  holding its table, id, owner and attributes. The owner is the cache of its
  conference, or `Direct` for an uncached object. The registry is an explicit
  `Caches` object, not a static singleton.
- **Promises.** A promise settles to `Result.Ok` or `Result.Rejected`.
  `null` is `Option.None`, and an `undefined` field is a missing map key.
- **Class structure.** The typed record classes hold a `CachedBase` rather
  than inheriting from it. The static methods of each class take the table
  name as a constant.
- **Plain getters.** `DirectLink`, `EndTime`, `StartTime`, `SessionId`,
  `UserId`, the `UserProfile` field getters and the `Id`, `CreatedAt` and
  `UpdatedAt` accessors are functions. Each reads one field of the local data
  record or the remote record, unchanged. The setters' contracts state what
  they read back after an assignment.

## Model

| member | source | states |
|---|---|---|
| Records.Lookup | src/classes/DataLayer/Interface/UserProfile.ts:18-20 | A field read yields `undefined` exactly when the field is absent, and the stored value otherwise. |
| Records.Assign | src/classes/DataLayer/Interface/UserProfile.ts:22-24 | After an assignment, the field reads back the assigned value (`undefined` removes it). Every other field reads as before. |
| Caching.Cache.constructor | src/classes/DataLayer/Cache/Caches.ts:26 | A new cache belongs to the given conference, is valid, has an empty index and is not yet initialised. |
| Caching.Cache.Initialise | src/classes/DataLayer/Cache/Caches.ts:28 | Initialisation marks the cache ready and leaves its index as it was. |
| Caching.Cache.Get | src/classes/DataLayer/Interface/Base.ts:389-394 | Returns an object exactly when the key is indexed or the store holds that record. An indexed object is returned unchanged. Otherwise the record is materialised with this conference as owner and added to the index. A miss changes nothing. |
| Caching.Cache.GetAll | src/classes/DataLayer/Interface/Base.ts:213-215 | Returns exactly the indexed objects of the table, each filed under its own key. |
| Caching.Cache.AddItemToCache | src/classes/DataLayer/Interface/Base.ts:120-121 | The returned object wraps the remote record with this conference as owner. The index gains or replaces exactly that key. |
| Caching.Caches.constructor | src/classes/DataLayer/Cache/Caches.ts:4 | The registry starts empty. |
| Caching.Caches.Count | src/classes/DataLayer/Cache/Caches.ts:6-8 | The count is the number of registered conference ids, and is 0 exactly when none is registered. |
| Caching.Caches.Clear | src/classes/DataLayer/Cache/Caches.ts:10-12 | The map is empty afterwards and `Count` is 0. |
| Caching.Caches.Get | src/classes/DataLayer/Cache/Caches.ts:14-32 | Afterwards the key is registered, mapped to the returned cache, which belongs to that conference and is distinct from every other entry. A present key returns the stored instance with the map and `Count` unchanged. An absent key gets a fresh, initialised, empty cache, added without touching other entries, and `Count` grows by one. |
| Caching.Caches.Register | src/classes/DataLayer/Cache/Caches.ts:25-29 | A missing conference id gets a fresh cache, registered under it with an empty index and then initialised; every other entry and every other index is kept, nothing else is registered, and `Count` grows by one. |
| Caching.Caches.Read | src/classes/DataLayer/Interface/Base.ts:389-394 | `cache.get` on a registered cache, seen from the registry: the answer is `CacheAnswer` over that cache's index before the call, and afterwards that index (and only it) is the old one with the answer put under its key; no cache is registered. |
| Caching.Caches.AddItem | src/classes/DataLayer/Interface/Base.ts:120-121 | `addItemToCache` on a registered cache, seen from the registry: the object is the record materialised with that conference as owner, that index (and only it) is the old one with the object put under its key, and no cache is registered. |
| StaticBase.IsCachable | src/classes/DataLayer/Interface/Base.ts:99-104 | Holds exactly when the table is a cached table and a non-empty conference id is given. |
| StaticBase.GetRoute | src/classes/DataLayer/Interface/Base.ts:136-138 | `get` goes through a cache exactly when the table is cachable or is "Conference". The cache key is the conference id when one is given, and otherwise the requested id (only for "Conference"). |
| StaticBase.WrapOwner | src/classes/DataLayer/Interface/Base.ts:110-127 | Uncached tables get no cache. A "Conference" record is owned by its own id. Any other cached record is owned by the conference its `conference` pointer names, and cannot be wrapped without that pointer. |
| StaticBase.Wrapped | src/classes/DataLayer/Interface/Base.ts:106-128 | Wrapping succeeds exactly when the owner can be determined. The object keeps the record's table, id and attributes, and lives in a cache exactly when its table is cached. |
| StaticBase.CacheAdd | src/classes/DataLayer/Interface/Base.ts:120-127 | `addItemToCache` on the registry's cache for a conference: that cache's index is its old index with the materialised object put under its key. The registry only grows and gains no cache except that conference's; every other cache keeps its index; the only entries added or replaced are under that key. Every other indexed object stays indexed. |
| StaticBase.WrapItem | src/classes/DataLayer/Interface/Base.ts:106-128 | The result equals `Wrapped`. A cached object is added to its owner's cache, obtained from the registry, under its key. The registry only grows and gains no cache except the owner's; every other cache keeps its index; the only entries added or replaced are under the record's key. An uncached or failed wrap changes nothing. |
| StaticBase.WrapAll | src/classes/DataLayer/Interface/Base.ts:264-266 | Wrapping every matching record succeeds exactly when each can be wrapped, and then yields exactly their wrapped objects, each indexed in its owner's cache. The registry only grows and gains no cache except the owners' caches; every other cache keeps its index; the only entries added or replaced are under the matching records' keys. |
| StaticBase.WrapNext | src/classes/DataLayer/Interface/Base.ts:264-266 | One record of the `map`: it wraps exactly when `Wrapped` succeeds for it, and the accumulated objects are then exactly the wrapped records seen so far plus this one, each indexed in its owner's cache; only the given owners' caches change, and only under this record's key. |
| StaticBase.SatisfiesAllAppend | src/classes/DataLayer/Interface/Base.ts:169-190 | A query made of two constraint lists is met exactly when both lists are met. |
| StaticBase.Refs | src/classes/DataLayer/Interface/Base.ts:172-177 | An id array becomes pointers to the related table, one per id and in order. |
| StaticBase.FieldConstraint | src/classes/DataLayer/Interface/Base.ts:170-187 | The constraint is on the queried field. A relation field with an id array becomes a containment test with one operand per id; any relation field compares against pointers into its target table; a plain field compares with the raw value. |
| StaticBase.ConferenceConstraint | src/classes/DataLayer/Interface/Base.ts:188-190 | A record meets the conference constraint exactly when its `conference` attribute points at (or relates to) that conference. |
| StaticBase.BuildQuery | src/classes/DataLayer/Interface/Base.ts:169-190 | The query is the field constraint, followed by the conference constraint if and only if a conference id is given. |
| StaticBase.FieldConstraintMeaning | src/classes/DataLayer/Interface/Base.ts:170-187 | A relation field with an id array matches records pointing at (or relating to) any listed id. A relation field with one id matches records pointing at that id. A plain field matches records holding exactly that value. |
| StaticBase.QueryMeaning | src/classes/DataLayer/Interface/Base.ts:240-262 | A record meets the built query exactly when it meets the field constraint and, if a conference id is given, points at that conference. |
| StaticBase.Matching | src/classes/DataLayer/Interface/Base.ts:240-262 | The matches are exactly the stored records of the table that meet every constraint of the query. |
| StaticBase.DirectGet | src/classes/DataLayer/Interface/Base.ts:141-153 | A direct fetch yields an object exactly when the store is reachable, holds the record, and the record can be wrapped. Every failure becomes `null`. |
| StaticBase.CacheRead | src/classes/DataLayer/Interface/Base.ts:130-139 | A read through a conference's cache (registered first if missing) answers `CacheAnswer` over its index before the call: the indexed object, else a new object from the remote record, else nothing. That cache's index afterwards is the old one with the answer put under its key. The registry only grows and gains no cache except that conference's; every other cache keeps its index; the only entries added or replaced are under the requested key. |
| StaticBase.CacheAnswerStable | src/classes/DataLayer/Interface/Base.ts:130-139 | Once a cache has answered for a key, a later read of that key answers the same object whatever the store then holds, and indexing it again changes nothing. |
| StaticBase.Get | src/classes/DataLayer/Interface/Base.ts:130-155 | `GetOutcome`: through a cache, the result is the routed cache's `CacheAnswer` over its index before the call, and that index afterwards is the old one with the answer put under its key. Otherwise (an uncached table, or a table other than "Conference" with no conference id) the store is queried: the result is `DirectGet`, and a cached result is put under its key in its owner's cache, exactly. The registry only grows and gains no cache except the routed or owning one; every other cache keeps its index; the only entry added or replaced is under the requested key. |
| StaticBase.GetByField | src/classes/DataLayer/Interface/Base.ts:157-208 | `GetByFieldOutcome`: the store is always queried. A result is a wrapped record that matches the query; it is put under its key in its owner's cache, exactly. When the store is reachable and every match can be wrapped, there is a result exactly when something matches. Failures give `null`. The registry gains no cache except the result's owner's; every other cache keeps its index; the only entry added or replaced is the result's. |
| StaticBase.GetAll | src/classes/DataLayer/Interface/Base.ts:210-225 | `GetAllOutcome`: a cachable read never fails, returns exactly the table's objects in the cache, and leaves every index as it was. An uncached read succeeds exactly when the store is reachable and every record can be wrapped, and then returns every record of the table wrapped, each indexed in its owner's cache; otherwise it is rejected. The registry gains no cache except the owners' caches; every other cache keeps its index; the only entries added or replaced are under the table's stored keys. |
| StaticBase.GetAllByField | src/classes/DataLayer/Interface/Base.ts:227-276 | `GetAllByFieldOutcome`: the store is always queried. Returns exactly the wrapped matching records, each indexed in its owner's cache, or `[]` when the store fails or a record cannot be wrapped. The registry gains no cache except the owners' caches; every other cache keeps its index; the only entries added or replaced are under the matching records' keys. |
| RecordBase.Fetch | src/classes/DataLayer/Interface/Base.ts:397-398 | A fetch by key succeeds exactly when the store is reachable and holds the record, and yields its attributes. |
| RecordBase.ReplaceMembers | src/classes/DataLayer/Interface/Base.ts:361-371 | After every current member is removed and each local id is added, the relation holds exactly the local ids. It is empty when the field is undefined. |
| RecordBase.WriteField | src/classes/DataLayer/Interface/Base.ts:350-376 | One field written by `save` ends as `SavedField` says (pointer, exact id set, or verbatim scalar). Every other attribute is unchanged. |
| RecordBase.SavedFieldFrame | src/classes/DataLayer/Interface/Base.ts:348-378 | What `save` wrote into one field survives writes to every other field. |
| RecordBase.CachedTargets | src/classes/DataLayer/Interface/Base.ts:411-417 | Succeeds exactly when every id is in the cache or in the store. Every id is read even after a miss, so every listed id in the cache or the store ends up indexed. On success it yields one object per id, in order, each being what the cache now indexes under that key. Entries indexed before are kept unchanged; the only new entries are listed records of the target table, with the store's attributes. |
| RecordBase.ReadTargets | src/classes/DataLayer/Interface/Base.ts:412-417 | Every id is read through the cache, in order, whatever an earlier read found. The miss flag is set exactly when some id is neither indexed nor fetchable; every id that is either ends up indexed; without a miss, the objects are what the cache now indexes, one per id. Old entries are kept, and new entries are listed stored records. |
| RecordBase.DirectTargets | src/classes/DataLayer/Interface/Base.ts:419-425 | Yields exactly the records of the target table whose ids are listed (`ListedKeys`), each wrapped directly. |
| RecordBase.RawIds | src/classes/DataLayer/Interface/Base.ts:421 | The listed ids as raw string operands, one per id and in order. |
| RecordBase.IdQueryKeys | src/classes/DataLayer/Interface/Base.ts:421 | As written, the query selects exactly the stored records of the target table whose attribute named `id` is a string among the listed ids. |
| RecordBase.IdQueryMatches | src/classes/DataLayer/Interface/Base.ts:421 | A stored record meets the query on attribute `id` exactly when that attribute holds one of the listed ids as a string. |
| RecordBase.ListedKeys | src/classes/DataLayer/Interface/Base.ts:410-421 | The keys of the stored records of the target table whose ids are listed. |
| RecordBase.IdQueryFindsNothing | src/classes/DataLayer/Interface/Base.ts:421 | The query on an attribute named `id` selects nothing from a store whose records carry no such attribute. |
| RecordBase.IdQueryCounterexample | src/classes/DataLayer/Interface/Base.ts:421 | A store holding one listed record for which the query on `id` finds nothing. |
| RecordBase.UniqueAnswerMeaning | src/classes/DataLayer/Interface/Base.ts:383-404 | The unique-relation answer exists exactly when the id is defined and the target is indexed (cached target) or fetchable. It has the target table and that id, lives in the cache exactly for a cached target, is the indexed object when there is one, and otherwise carries the remote attributes. |
| RecordBase.CachedBase.constructor | src/classes/DataLayer/Interface/Base.ts:300-305 | The object holds the given conference, table, local data and remote counterpart. |
| RecordBase.CachedBase.Id | src/classes/DataLayer/Interface/Base.ts:327-329 | The id of the local data. |
| RecordBase.CachedBase.CreatedAt | src/classes/DataLayer/Interface/Base.ts:331-333 | The creation time of the local data. |
| RecordBase.CachedBase.UpdatedAt | src/classes/DataLayer/Interface/Base.ts:335-337 | The update time of the local data. |
| RecordBase.CachedBase.SetField | src/classes/DataLayer/Interface/UserProfile.ts:22-24 | The field reads back the assigned value. Every other field, the id, the timestamps and the remote counterpart are unchanged. |
| RecordBase.CachedBase.Save | src/classes/DataLayer/Interface/Base.ts:339-381 | A missing remote counterpart is first created with this object's id. Afterwards every schema field except `id` is as `SavedField` says, and every other attribute is as before. Success requires a reachable store and every unique relation among the schema fields defined, and stores exactly these attributes. |
| RecordBase.CachedBase.UniqueRelated | src/classes/DataLayer/Interface/Base.ts:383-404 | `UniqueResolved` over `UniqueOutcome`: succeeds exactly when the field holds an id whose target is in the conference cache or the store (cached target), or in the store (uncached target). The result is `UniqueAnswer` over the cache's index before the call. That index afterwards is the old one with a cached result put under its key, and is unchanged otherwise. The registry only grows and gains no cache except this conference's; every other cache keeps its index. |
| RecordBase.CachedBase.NonUniqueRelated | src/classes/DataLayer/Interface/Base.ts:406-427 | `NonUniqueResolved`: for a cached target (`CachedResolved`), succeeds exactly when every listed id is found, and yields one object per id, in order: the indexed object, or one with the store's attributes, all indexed afterwards, old entries kept, the only new entries listed records; even on a rejection, every listed id that was indexed or fetchable is indexed afterwards. For an uncached target (`DirectResolved`), succeeds exactly when the ids are defined and the store is reachable, yields exactly the listed records that exist, and leaves the index as it was. The registry gains no cache except this conference's; every other cache keeps its index. |
| RecordBase.CachedUnique | src/classes/DataLayer/Interface/Base.ts:388-394 | A defined id of a cached target is read through the conference's cache: `UniqueResolved`, with the result found exactly when the id is indexed or fetchable. |
| RecordBase.FetchedUnique | src/classes/DataLayer/Interface/Base.ts:396-402 | An uncached target (or an undefined id): succeeds exactly when the id is defined and the record is fetchable, and then yields the fetched record wrapped directly. The conference's cache is registered and its index is unchanged. |
| RecordBase.CachedNonUnique | src/classes/DataLayer/Interface/Base.ts:411-418 | Defined ids of a cached target are read through the conference's cache: `CachedResolved` over that index before and after, with every old entry kept, and no other cache registered or changed. |
| RecordBase.DirectNonUnique | src/classes/DataLayer/Interface/Base.ts:419-426 | An uncached target (or undefined ids): `DirectResolved`, the listed stored records wrapped directly whenever the ids are defined and the store answers. The conference's cache is registered and its index is unchanged. |
| RecordBase.ConferenceOf | src/classes/DataLayer/Interface/Base.ts:462-465 | A fetched record names a conference exactly when its `conference` pointer has a non-empty id (the as-written reading, see Findings). |
| RecordBase.OwningConferenceAgrees | src/classes/DataLayer/Interface/Base.ts:462-468 | The owning conference of a cached-table record (a conference's own id, else its `conference` pointer) is the non-empty conference the static facade wraps it into, and there is none exactly when the facade would wrap it into none. |
| RecordBase.OwningConference | src/classes/DataLayer/Interface/Base.ts:110-118 | The corrected owning conference: a "Conference" record owns itself when its id is non-empty; any other record is owned by the non-empty id its `conference` pointer names, and by none otherwise. |
| RecordBase.ConferenceOfMissesConferences | src/classes/DataLayer/Interface/Base.ts:462-465 | A conference record has no `conference` attribute, so `ConferenceOf` finds no conference for it, while it owns itself. |
| RecordBase.UncachedBase.constructor | src/classes/DataLayer/Interface/Base.ts:431-434 | The object wraps the given remote record of its table. |
| RecordBase.UncachedBase.Id | src/classes/DataLayer/Interface/Base.ts:440-442 | The id of the wrapped remote record. |
| RecordBase.UncachedBase.Save | src/classes/DataLayer/Interface/Base.ts:452-454 | Saving succeeds exactly when the store is reachable, and then stores the record's attributes under its key: a fetch of that key afterwards yields exactly them, and a fetch of any other key yields what it did before. A failed save leaves the store as it was. |
| RecordBase.UncachedBase.UniqueRelated | src/classes/DataLayer/Interface/Base.ts:456-477 | Succeeds exactly when the field is a pointer, the target exists, and (for a cached target) the target has an owning conference. A cached target is then put under its key in that conference's cache, exactly. The registry gains no cache except that conference's; every other cache keeps its index; the only entry added or replaced is the target's. |
| RecordBase.UncachedBase.NonUniqueRelated | src/classes/DataLayer/Interface/Base.ts:479-502 | Succeeds exactly when the relation is defined, the store is reachable, and (for a cached target) every member has an owning conference. It yields exactly the existing members, each owned by its conference or directly, each indexed in its owner's cache. The registry gains no cache except the members' conferences' (`MemberConferences`); every other cache keeps its index; the only entries added or replaced are the members' (`MemberKeys`). |
| RecordBase.MemberItems | src/classes/DataLayer/Interface/Base.ts:483-500 | The loop over a relation's existing members: succeeds exactly when (for a cached target) each has an owning conference, and then yields exactly those members, each wrapped with its owner and indexed in its owner's cache. Only the given owners' caches and keys change. |
| RecordBase.MemberItem | src/classes/DataLayer/Interface/Base.ts:485-492 | One member of the `map`: a cached member succeeds exactly when it has an owning conference, and is then put under its key in that conference's cache; an uncached member is wrapped directly. Only the given owners' caches change, only under this key, and every other indexed object stays indexed. |
| UserProfiles.IdsOf | src/classes/DataLayer/Interface/UserProfile.ts:150 | The ids of a list of objects, one per object and in order. |
| UserProfiles.UserProfile.constructor | src/classes/DataLayer/Interface/UserProfile.ts:11-16 | A profile is a record object of table "UserProfile" with the given conference, data and remote counterpart. |
| UserProfiles.UserProfile.Affiliation | src/classes/DataLayer/Interface/UserProfile.ts:18-20 | Reads local field `affiliation`: `undefined` exactly when it is absent, its value otherwise. |
| UserProfiles.UserProfile.Bio | src/classes/DataLayer/Interface/UserProfile.ts:26-28 | Reads local field `bio`: `undefined` exactly when it is absent, its value otherwise. |
| UserProfiles.UserProfile.Country | src/classes/DataLayer/Interface/UserProfile.ts:34-36 | Reads local field `country`: `undefined` exactly when it is absent, its value otherwise. |
| UserProfiles.UserProfile.DisplayName | src/classes/DataLayer/Interface/UserProfile.ts:42-44 | Reads local field `displayName`: `undefined` exactly when it is absent, its value otherwise. |
| UserProfiles.UserProfile.Position | src/classes/DataLayer/Interface/UserProfile.ts:50-52 | Reads local field `position`: `undefined` exactly when it is absent, its value otherwise. |
| UserProfiles.UserProfile.ProfilePhoto | src/classes/DataLayer/Interface/UserProfile.ts:58-60 | Reads local field `profilePhoto`: `undefined` exactly when it is absent, its value otherwise. |
| UserProfiles.UserProfile.Pronouns | src/classes/DataLayer/Interface/UserProfile.ts:66-68 | Reads local field `pronouns`: `undefined` exactly when it is absent, its value otherwise. |
| UserProfiles.UserProfile.RealName | src/classes/DataLayer/Interface/UserProfile.ts:74-76 | Reads local field `realName`: `undefined` exactly when it is absent, its value otherwise. |
| UserProfiles.UserProfile.DataConsentGiven | src/classes/DataLayer/Interface/UserProfile.ts:82-84 | Reads local field `dataConsentGiven`: `undefined` exactly when it is absent, its value otherwise. |
| UserProfiles.UserProfile.Tags | src/classes/DataLayer/Interface/UserProfile.ts:90-92 | Reads local field `tags`: `undefined` exactly when it is absent, its value otherwise. |
| UserProfiles.UserProfile.Webpage | src/classes/DataLayer/Interface/UserProfile.ts:98-100 | Reads local field `webpage`: `undefined` exactly when it is absent, its value otherwise. |
| UserProfiles.UserProfile.WelcomeModalShown | src/classes/DataLayer/Interface/UserProfile.ts:106-108 | Reads local field `welcomeModalShown`: `undefined` exactly when it is absent, its value otherwise. |
| UserProfiles.UserProfile.UserId | src/classes/DataLayer/Interface/UserProfile.ts:140-142 | Reads local field `user`: `undefined` exactly when it is absent, its value otherwise. |
| UserProfiles.UserProfile.SetAffiliation | src/classes/DataLayer/Interface/UserProfile.ts:22-24 | `affiliation` reads back the value. Nothing else changes. |
| UserProfiles.UserProfile.SetBio | src/classes/DataLayer/Interface/UserProfile.ts:30-32 | `bio` reads back the value. Nothing else changes. |
| UserProfiles.UserProfile.SetCountry | src/classes/DataLayer/Interface/UserProfile.ts:38-40 | `country` reads back the value. Nothing else changes. |
| UserProfiles.UserProfile.SetDisplayName | src/classes/DataLayer/Interface/UserProfile.ts:46-48 | `displayName` reads back the value. Nothing else changes. |
| UserProfiles.UserProfile.SetPosition | src/classes/DataLayer/Interface/UserProfile.ts:54-56 | `position` reads back the value. Nothing else changes. |
| UserProfiles.UserProfile.SetProfilePhoto | src/classes/DataLayer/Interface/UserProfile.ts:62-64 | `profilePhoto` reads back the value. Nothing else changes. |
| UserProfiles.UserProfile.SetPronouns | src/classes/DataLayer/Interface/UserProfile.ts:70-72 | `pronouns` reads back the value. Nothing else changes. |
| UserProfiles.UserProfile.SetRealName | src/classes/DataLayer/Interface/UserProfile.ts:78-80 | `realName` reads back the value. Nothing else changes. |
| UserProfiles.UserProfile.SetDataConsentGiven | src/classes/DataLayer/Interface/UserProfile.ts:86-88 | `dataConsentGiven` reads back the value. Nothing else changes. |
| UserProfiles.UserProfile.SetTags | src/classes/DataLayer/Interface/UserProfile.ts:94-96 | `tags` reads back the value. Nothing else changes. |
| UserProfiles.UserProfile.SetWebpage | src/classes/DataLayer/Interface/UserProfile.ts:102-104 | `webpage` reads back the value. Nothing else changes. |
| UserProfiles.UserProfile.SetWelcomeModalShown | src/classes/DataLayer/Interface/UserProfile.ts:110-112 | `welcomeModalShown` reads back the value. Nothing else changes. |
| UserProfiles.UserProfile.SetPrimaryFlair | src/classes/DataLayer/Interface/UserProfile.ts:122-126 | `primaryFlair` holds the given flair's id. Nothing else changes. |
| UserProfiles.UserProfile.SetFlairs | src/classes/DataLayer/Interface/UserProfile.ts:148-152 | `flairs` holds the given flairs' ids, in order. Nothing else changes. |
| UserProfiles.UserProfile.Conference | src/classes/DataLayer/Interface/UserProfile.ts:114-116 | `UniqueResolved` for `conference` and "Conference": succeeds exactly when the field holds an id whose target is cached or fetchable, and then yields the cache's answer or the fetched record under that id. The conference's index afterwards is the old one with a cached result put under its key. The registry gains no cache except this conference's, and every other cache keeps its index. |
| UserProfiles.UserProfile.PrimaryFlair | src/classes/DataLayer/Interface/UserProfile.ts:118-120 | `UniqueResolved` for `primaryFlair` and "Flair": succeeds exactly when the field holds an id whose target is cached or fetchable, and then yields the cache's answer or the fetched record under that id. The conference's index afterwards is the old one with a cached result put under its key. The registry gains no cache except this conference's, and every other cache keeps its index. |
| UserProfiles.UserProfile.Presence | src/classes/DataLayer/Interface/UserProfile.ts:128-130 | `UniqueResolved` for `presence` and "UserPresence": succeeds exactly when the field holds an id whose target is cached or fetchable, and then yields the cache's answer or the fetched record under that id. The conference's index afterwards is the old one with a cached result put under its key. The registry gains no cache except this conference's, and every other cache keeps its index. |
| UserProfiles.UserProfile.User | src/classes/DataLayer/Interface/UserProfile.ts:136-138 | `UniqueResolved` for `user` and "_User": succeeds exactly when the field holds an id whose target is cached or fetchable, and then yields the cache's answer or the fetched record under that id. The conference's index afterwards is the old one with a cached result put under its key. The registry gains no cache except this conference's, and every other cache keeps its index. |
| UserProfiles.UserProfile.Flairs | src/classes/DataLayer/Interface/UserProfile.ts:144-146 | `NonUniqueResolved` for `flairs` and "Flair", cached or not; when "Flair" is cached, the result's ids are exactly the stored ids, in order, and every flair that was indexed or fetchable is indexed afterwards, even on a rejection. The registry gains no cache except this conference's, and every other cache keeps its index. |
| UserProfiles.UserProfile.ProgramPersons | src/classes/DataLayer/Interface/UserProfile.ts:132-134 | `GetAllByFieldOutcome` for "ProgramPerson", `profile` = this profile's id and this conference; every object returned is a stored "ProgramPerson" record whose `profile` points at this profile and, with a conference id, whose `conference` points at this conference. Only the owners' caches gain entries, and only under matching keys. |
| UserProfiles.UserProfile.GetByUserId | src/classes/DataLayer/Interface/UserProfile.ts:154-156 | `GetByFieldOutcome` for "UserProfile", `user` = the given user id and the given conference: a remote query whose result, if any, matches and is put under its key in its owner's cache; no other cache or entry changes. |
| UserProfiles.UserProfile.Get | src/classes/DataLayer/Interface/UserProfile.ts:158-160 | `GetOutcome` for "UserProfile" and the given conference: for a cached table and a non-empty conference id, the answer is that conference cache's `CacheAnswer`, put under its key; otherwise `DirectGet` from the store, put under its key in its owner's cache. Only that cache and that entry change. |
| UserProfiles.UserProfile.GetAll | src/classes/DataLayer/Interface/UserProfile.ts:162-164 | `GetAllOutcome` for "UserProfile" and the given conference: the cache's objects of the table when cachable, else every stored record of the table wrapped and indexed in its owner's cache (only those entries change), or a rejection. |
| ProgramSessionEvents.LocalFields | src/classes/DataLayer/Interface/ProgramSessionEvent.ts:46-48 | A materialised object's local data holds each scalar verbatim and each pointer as its id. |
| ProgramSessionEvents.Materialise | src/classes/DataLayer/Interface/ProgramSessionEvent.ts:46-48 | A resolved session becomes a record object of its table and conference, with that local data and remote counterpart. |
| ProgramSessionEvents.ProgramSessionEvent.constructor | src/classes/DataLayer/Interface/ProgramSessionEvent.ts:11-16 | An event is a record object of table "ProgramSessionEvent" with the given conference, data and remote counterpart. |
| ProgramSessionEvents.ProgramSessionEvent.DirectLink | src/classes/DataLayer/Interface/ProgramSessionEvent.ts:18-20 | Reads local field `directLink`: `undefined` exactly when it is absent, its value otherwise. |
| ProgramSessionEvents.ProgramSessionEvent.EndTime | src/classes/DataLayer/Interface/ProgramSessionEvent.ts:22-24 | Reads local field `endTime`: `undefined` exactly when it is absent, its value otherwise. |
| ProgramSessionEvents.ProgramSessionEvent.StartTime | src/classes/DataLayer/Interface/ProgramSessionEvent.ts:26-28 | Reads local field `startTime`: `undefined` exactly when it is absent, its value otherwise. |
| ProgramSessionEvents.ProgramSessionEvent.SessionId | src/classes/DataLayer/Interface/ProgramSessionEvent.ts:38-40 | Reads local field `session`: `undefined` exactly when it is absent, its value otherwise. |
| ProgramSessionEvents.ProgramSessionEvent.Conference | src/classes/DataLayer/Interface/ProgramSessionEvent.ts:30-32 | `UniqueResolved` for `conference` and "Conference": succeeds exactly when the field holds an id whose target is cached or fetchable, and then yields the cache's answer or the fetched record under that id. The conference's index afterwards is the old one with a cached result put under its key. The registry gains no cache except this conference's, and every other cache keeps its index. |
| ProgramSessionEvents.ProgramSessionEvent.ProgramItem | src/classes/DataLayer/Interface/ProgramSessionEvent.ts:34-36 | `UniqueResolved` for `item` and "ProgramItem": succeeds exactly when the field holds an id whose target is cached or fetchable, and then yields the cache's answer or the fetched record under that id. The conference's index afterwards is the old one with a cached result put under its key. The registry gains no cache except this conference's, and every other cache keeps its index. |
| ProgramSessionEvents.ProgramSessionEvent.Session | src/classes/DataLayer/Interface/ProgramSessionEvent.ts:42-44 | `UniqueResolved` for `session` and "ProgramSession": succeeds exactly when the field holds an id whose target is cached or fetchable, and then yields the cache's answer or the fetched record under that id. The conference's index afterwards is the old one with a cached result put under its key. The registry gains no cache except this conference's, and every other cache keeps its index. |
| ProgramSessionEvents.ProgramSessionEvent.Track | src/classes/DataLayer/Interface/ProgramSessionEvent.ts:46-48 | The session is `UniqueAnswer` for `session` over the index before the call; without it the track rejects. With it, `UniqueOutcome` holds for the session's own `track` over the index as the session read left it (the old index with a cached session put under its key): the track is `UniqueAnswer` there and is then put under its key. The registry gains no cache except this conference's, and every other cache keeps its index. |
| ProgramSessionEvents.ProgramSessionEvent.TrackOf | src/classes/DataLayer/Interface/ProgramSessionEvent.ts:46-48 | The resolved session's `track`: `UniqueOutcome` for the session's own `track` field over this conference's index before the call. The registry gains no cache except this conference's, and every other cache keeps its index. |
| ProgramSessionEvents.ProgramSessionEvent.Get | src/classes/DataLayer/Interface/ProgramSessionEvent.ts:50-52 | `GetOutcome` for "ProgramSessionEvent" and the given conference: for a cached table and a non-empty conference id, the answer is that conference cache's `CacheAnswer`, put under its key; otherwise `DirectGet` from the store, put under its key in its owner's cache. Only that cache and that entry change. |
| ProgramSessionEvents.ProgramSessionEvent.GetAll | src/classes/DataLayer/Interface/ProgramSessionEvent.ts:54-56 | `GetAllOutcome` for "ProgramSessionEvent" and the given conference: the cache's objects of the table when cachable, else every stored record of the table wrapped and indexed in its owner's cache (only those entries change), or a rejection. |

## Left out

- The Parse SDK transport (queries, `save`, relation queries) is not modelled. It becomes the `Store` value, with one reachability flag for every failure.
- `Cache.ts` is not part of this model: its initial population, live subscriptions, IndexedDB persistence and event emitters. `Cache.Initialise` only marks the cache ready.
- `onDataUpdated` and `onDataDeleted` are left out. They only forward to those event emitters.
- The `window.clowdr` global assignment in `Caches.get` is left out (browser plumbing).
- Asynchrony is not modelled. In particular, a concurrent `Caches.get` can see a cache that is registered but not yet initialised.
- The `primaryFlair` and `flairs` setters receive an already-resolved object rather than a promise. The source assigns in a detached `.then`; the model makes that a synchronous staged assignment.
- Dates and `Parse.File` values are opaque tokens (`DOpaque`). `console.warn` logging is dropped.
- The deprecated `getUncachedParseObject` escape hatch is left out.
- Timestamps are plain naturals. The remote `createdAt` and `updatedAt` of an `UncachedBase` are not modelled, so it has no `CreatedAt` or `UpdatedAt`.
- Remote query results are sets, so the order of `getAll`, `getAllByField` and relation queries is not captured. `getByField` picks any match, as `first()` does with no sort order.
- The identity of record objects is not modelled. Objects are values, and the cache index holds the latest object per key.
- RecordBase.CachedBase.Save: a failing relation membership query inside the field loop is folded into the final save failure. The model therefore also writes the remaining fields of the local counterpart before rejecting.
- RecordBase.CachedBase.Save: an undefined unique relation is written as a pointer with the empty id. The model chooses to make such a save reject and leave the store unchanged; what the Parse SDK does with a pointer to an unsaved object is not modelled.
- RecordBase.CachedBase.Save: an undefined scalar field removes the attribute from the remote counterpart. The source calls `set(key, undefined)` (Base.ts line 375), whose SDK effect is not modelled.
- RecordBase.CachedBase.Save: a successful save replaces the stored record with the counterpart's attributes. Parse sends only the changed attributes and merges them on the server, so attributes changed remotely since the counterpart was fetched are not kept by the model.
- RecordBase.UncachedBase.Save: a successful save likewise replaces the stored record with the wrapped record's attributes. Parse sends only the attributes changed on that object, so attributes changed remotely since it was fetched are not kept by the model.
- RecordBase.CachedBase.Save: the schema's relation fields are required to hold values of their declared shape (one id, or an id array). The TypeScript types guarantee this.
- RecordBase.UncachedBase.NonUniqueRelated: membership is read from the relation value of the wrapped record, not re-queried from the store.
- ProgramSessionEvents.ProgramSessionEvent.Track: the resolved session is always materialised as a conference-scoped record object (`CachedBase`) of this event's conference, whatever the schema says about the session table. In the source, `uniqueRelated` yields an `UncachedBase` when "ProgramSession" is not a cached table, and its `track` getter then follows the remote pointer; that case is not modelled. The list of cached tables comes from a schema file that is not part of this model.
- ProgramSessionEvents.ProgramSessionEvent.Track: the session object is rebuilt from the resolved record's attributes with zero timestamps and without its relation fields. Only its `track` pointer matters to the result.
- RecordBase.UncachedBase.UniqueRelated and RecordBase.UncachedBase.NonUniqueRelated: these use the corrected owning conference (see Findings), so a "Conference" target is accepted where the source rejects it.
- RecordBase.CachedBase.NonUniqueRelated: the uncached branch returns the listed records, as intended; the query as written is modelled separately (see Findings).
- The field getters return the raw local datum. Each field's TypeScript type (string, boolean, array) is not enforced on reads.

## Findings

| source | as written | input that shows it | evidently intended | confidence | as-written member | corrected member |
|---|---|---|---|---|---|---|
| src/classes/DataLayer/Interface/Base.ts:421 | The uncached branch of `nonUniqueRelated` queries `containedIn("id", targetIds)`, a test on an attribute named `id`. Stored records carry their id as the object id, and `save` never writes an `id` attribute. | Target "ProgramItem", ids `["a"]`, a reachable store holding record ("ProgramItem", "a") with no attributes: the query selects nothing. | Return the records of the target table whose ids are listed. | medium; not executed | RecordBase.IdQueryCounterexample | RecordBase.DirectTargets |
| src/classes/DataLayer/Interface/Base.ts:462-465 | The uncached record's `uniqueRelated` (and `nonUniqueRelated`, lines 486-489) reads the target's conference as `result.get("conference").id` for every cached target table. The Conference schema has no `conference` field. | An uncached record whose unique relation targets "Conference", and a stored record ("Conference", "c1") with attributes `{name}`: `undefined.id` throws, so the getter rejects. | A conference is its own conference, as `wrapItem` already treats it (Base.ts lines 113-114). | high; not executed | RecordBase.ConferenceOfMissesConferences | RecordBase.OwningConferenceAgrees |
