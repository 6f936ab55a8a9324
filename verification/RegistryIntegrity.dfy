// The invariant of the user and provider stores, kept by every operation run on
// what the store holds.
module RegistryIntegrity {
  import opened Options
  import opened Domain
  import opened EtagStore
  import opened Registry

  type Data = map<Key, Value>

  predicate WellTyped(key: Key, value: Value) {
    match key
    case EntityKey(collection, id) => value.EntityValue? && value.entity.Collection() == collection && value.entity.id == id
    case CollectionIndex(_) => value.IndexValue?
    case LookupKey(_, _) => value.LookupValue?
    case ByProvider(_) => value.IndexValue?
  }

  ghost predicate Typed(data: Data) {
    forall key <- data :: WellTyped(key, data[key])
  }

  ghost predicate Stores(data: Data, collection: Collection, id: ID) {
    EntityKey(collection, id) in data && data[EntityKey(collection, id)].EntityValue?
  }

  ghost function Stored(data: Data, collection: Collection, id: ID): Entity
    requires Stores(data, collection, id)
  {
    data[EntityKey(collection, id)].entity
  }

  ghost function IDs(data: Data, key: Key): seq<ID> {
    if key in data && data[key].IndexValue? then data[key].ids else []
  }

  // Each collection's index lists its entities once each.
  ghost predicate Indexed(data: Data) {
    && (forall collection :: NoDuplicates(IDs(data, CollectionIndex(collection))))
    && (forall collection, id :: id in IDs(data, CollectionIndex(collection)) <==> Stores(data, collection, id))
  }

  ghost predicate Routes(data: Data, id: ID, provider: ID) {
    Stores(data, Models, id) && Stored(data, Models, id).Model? && Stored(data, Models, id).providerID == provider
  }

  // Every model's provider is stored, and each provider's index lists its models once each.
  ghost predicate Routed(data: Data) {
    && (forall id, provider :: Routes(data, id, provider) ==> Stores(data, Providers, provider))
    && (forall provider :: NoDuplicates(IDs(data, ByProvider(provider))))
    && (forall id, provider :: id in IDs(data, ByProvider(provider)) <==> Routes(data, id, provider))
  }

  ghost predicate Resolves(data: Data, key: Key) {
    && key.LookupKey? && key in data && data[key].LookupValue? && Stores(data, key.kind.Collection(), data[key].id)
    && key in Stored(data, key.kind.Collection(), data[key].id).Lookups()
  }

  ghost predicate Findable(data: Data, collection: Collection, id: ID) {
    Stores(data, collection, id) ==>
      forall key <- Stored(data, collection, id).Lookups() :: key in data && data[key] == LookupValue(id)
  }

  // A unique value resolves to an entity exactly when the stored entity has it.
  ghost predicate LooksUp(data: Data) {
    && (forall collection, id :: Findable(data, collection, id))
    && (forall key :: key in data && key.LookupKey? ==> Resolves(data, key))
  }

  ghost predicate Integrity(data: Data) {
    Typed(data) && Indexed(data) && Routed(data) && LooksUp(data)
  }

  ghost predicate ShowsAt(snap: Snapshot, data: Data, key: Key)
    requires key in snap
  {
    (snap[key].Present? <==> key in data) && (key in data ==> snap[key].value == data[key])
  }

  ghost predicate Shows(snap: Snapshot, data: Data) {
    forall key <- snap :: ShowsAt(snap, data, key)
  }

  // ---- What an accepted operation is known to have read ----

  ghost predicate Ready(op: Op, snap: Snapshot, data: Data) {
    && op.WellFormed() && Typed(data) && Shows(snap, data)
    && (forall key :: Writes(op, snap, key) ==> key.LookupKey? || key in snap)
    && (op.Old().Some? ==> Stores(data, op.Collection(), op.ID()) && Stored(data, op.Collection(), op.ID()) == op.Old().value)
    && (op.Create? ==> op.Target() !in data)
    && (forall key <- LookupsOf(op.New()) :: key in data ==> op.Replace? && data[key] == LookupValue(op.ID()))
    && (forall provider :: RoutesTo(op.New(), provider) ==> Stores(data, Providers, provider))
    && (op.Delete? && op.previous.Provider? ==> IDs(data, ByProvider(op.ID())) == [])
    && (forall key :: Touches(op, snap, key) ==> Found(snap, key))
  }

  // Whatever an operation writes, lookups aside, it has read.
  lemma ReadsWhatItWrites(op: Op, snap: Snapshot, key: Key)
    requires Covers(op, snap) && Writes(op, snap, key) && !key.LookupKey?
    ensures key in snap
  {
    ReadsCover(op, snap);
    ProvidersOfMembers(op);
  }

  lemma {:induction false} CheckedLookups(op: Op, lookups: seq<Key>, snap: Snapshot, key: Key)
    requires forall key <- lookups :: key in snap
    requires CheckLookups(op, lookups, snap).Pass? && key in lookups
    ensures snap[key].Present? ==> op.Replace? && snap[key].value == LookupValue(op.ID())
  {
    if key != lookups[0] {
      CheckedLookups(op, lookups[1..], snap, key);
    }
  }

  lemma AcceptedReady(op: Op, snap: Snapshot, data: Data)
    requires Covers(op, snap) && CheckAll(op, snap).Ok? && Typed(data) && Shows(snap, data)
    ensures Ready(op, snap, data)
  {
    ReadsCover(op, snap);
    ProvidersOfMembers(op);
    forall key | Writes(op, snap, key) && !key.LookupKey?
      ensures key in snap
    {
      ReadsWhatItWrites(op, snap, key);
    }
    assert ShowsAt(snap, data, op.Target());
    forall key <- LookupsOf(op.New())
      ensures key in data ==> op.Replace? && data[key] == LookupValue(op.ID())
    {
      CheckedLookups(op, LookupsOf(op.New()), snap, key);
      assert ShowsAt(snap, data, key);
    }
    forall provider | Involves(op, provider)
      ensures RoutesTo(op.New(), provider) ==> Stores(data, Providers, provider)
      ensures Touches(op, snap, ProviderKey(provider)) ==> Found(snap, ProviderKey(provider))
    {
      assert ShowsAt(snap, data, ProviderKey(provider));
    }
    if op.Delete? && op.previous.Provider? {
      assert ShowsAt(snap, data, ByProvider(op.ID()));
    }
  }

  // ---- The invariant is kept ----

  ghost predicate After(op: Op, snap: Snapshot, data: Data, after: Data) {
    forall key ::
      if Writes(op, snap, key)
      then (key in after <==> WriteFor(op, snap, key).Put?) && (key in after ==> after[key] == WriteFor(op, snap, key).value)
      else (key in after <==> key in data) && (key in after ==> after[key] == data[key])
  }

  lemma WriteAfter(op: Op, snap: Snapshot, data: Data)
    ensures After(op, snap, data, Overlay(data, WriteBatch(op, snap)))
  {
  }

  lemma EntitiesAfter(op: Op, snap: Snapshot, data: Data, after: Data, collection: Collection, id: ID)
    requires Ready(op, snap, data) && After(op, snap, data, after)
    ensures EntityKey(collection, id) != op.Target() ==>
              && (Stores(after, collection, id) <==> Stores(data, collection, id))
              && (Stores(data, collection, id) ==> Stored(after, collection, id) == Stored(data, collection, id))
    ensures EntityKey(collection, id) == op.Target() ==>
              && (Stores(after, collection, id) <==> op.New().Some?)
              && (op.New().Some? ==> Stored(after, collection, id) == op.New().value)
  {
    var key := EntityKey(collection, id);
    if Writes(op, snap, key) && key != op.Target() {
      assert Touches(op, snap, key) && ShowsAt(snap, data, key);
    }
  }

  lemma KeepsTyped(op: Op, snap: Snapshot, data: Data, after: Data)
    requires Ready(op, snap, data) && After(op, snap, data, after)
    ensures Typed(after)
  {
    forall key <- after
      ensures WellTyped(key, after[key])
    {
      if key.EntityKey? && key != op.Target() && Writes(op, snap, key) {
        assert Touches(op, snap, key) && ShowsAt(snap, data, key);
      }
    }
  }

  lemma IndexAfter(op: Op, snap: Snapshot, data: Data, after: Data, collection: Collection)
    requires Ready(op, snap, data) && After(op, snap, data, after) && Indexed(data)
    ensures NoDuplicates(IDs(after, CollectionIndex(collection)))
    ensures forall id :: id in IDs(after, CollectionIndex(collection)) <==> Stores(after, collection, id)
  {
    var key := CollectionIndex(collection);
    assert NoDuplicates(IDs(data, key));
    if Writes(op, snap, key) {
      assert ShowsAt(snap, data, key);
      WithMemberMembers(IDs(data, key), op.ID(), op.New().Some?);
    }
    forall id
      ensures id in IDs(after, key) <==> Stores(after, collection, id)
    {
      EntitiesAfter(op, snap, data, after, collection, id);
      assert id in IDs(data, key) <==> Stores(data, collection, id);
    }
  }

  lemma ProviderIndexAfter(op: Op, snap: Snapshot, data: Data, after: Data, provider: ID)
    requires Ready(op, snap, data) && After(op, snap, data, after) && Routed(data)
    ensures NoDuplicates(IDs(after, ByProvider(provider)))
    ensures forall id :: id in IDs(after, ByProvider(provider)) <==> Routes(after, id, provider)
  {
    var key := ByProvider(provider);
    assert NoDuplicates(IDs(data, key));
    if Writes(op, snap, key) && op.Collection() == Models {
      assert ShowsAt(snap, data, key);
      WithMemberMembers(IDs(data, key), op.ID(), RoutesTo(op.New(), provider));
    }
    forall id
      ensures id in IDs(after, key) <==> Routes(after, id, provider)
    {
      EntitiesAfter(op, snap, data, after, Models, id);
      assert id in IDs(data, key) <==> Routes(data, id, provider);
    }
  }

  lemma KeepsRouted(op: Op, snap: Snapshot, data: Data, after: Data)
    requires Ready(op, snap, data) && After(op, snap, data, after) && Routed(data)
    ensures Routed(after)
  {
    forall provider
      ensures NoDuplicates(IDs(after, ByProvider(provider)))
      ensures forall id :: id in IDs(after, ByProvider(provider)) <==> Routes(after, id, provider)
    {
      ProviderIndexAfter(op, snap, data, after, provider);
    }
    forall id, provider | Routes(after, id, provider)
      ensures Stores(after, Providers, provider)
    {
      EntitiesAfter(op, snap, data, after, Models, id);
      EntitiesAfter(op, snap, data, after, Providers, provider);
      assert EntityKey(Models, id) != op.Target() ==> Routes(data, id, provider) && id in IDs(data, ByProvider(provider));
    }
  }

  lemma LookupKinds(entity: Entity, key: Key)
    requires key in entity.Lookups()
    ensures key.LookupKey? && key.kind.Collection() == entity.Collection()
  {
  }

  lemma OneOwner(data: Data, collection: Collection, id: ID, other: Collection, otherID: ID, key: Key)
    requires Typed(data) && LooksUp(data) && Stores(data, collection, id) && Stores(data, other, otherID)
    requires key in Stored(data, collection, id).Lookups()
    ensures key in Stored(data, other, otherID).Lookups() ==> collection == other && id == otherID
  {
    assert WellTyped(EntityKey(collection, id), data[EntityKey(collection, id)]);
    assert WellTyped(EntityKey(other, otherID), data[EntityKey(other, otherID)]);
    assert Findable(data, collection, id) && Findable(data, other, otherID);
    LookupKinds(Stored(data, collection, id), key);
    if key in Stored(data, other, otherID).Lookups() {
      LookupKinds(Stored(data, other, otherID), key);
    }
  }

  lemma KeepsLookups(op: Op, snap: Snapshot, data: Data, after: Data)
    requires Ready(op, snap, data) && After(op, snap, data, after) && LooksUp(data)
    ensures LooksUp(after)
  {
    forall collection, id
      ensures Findable(after, collection, id)
    {
      if Stores(after, collection, id) {
        forall key <- Stored(after, collection, id).Lookups()
          ensures key in after && after[key] == LookupValue(id)
        {
          LookupStays(op, snap, data, after, collection, id, key);
        }
      }
    }
    forall key | key in after && key.LookupKey?
      ensures Resolves(after, key)
    {
      LookupResolves(op, snap, data, after, key);
    }
  }

  lemma LookupResolves(op: Op, snap: Snapshot, data: Data, after: Data, key: Key)
    requires Ready(op, snap, data) && After(op, snap, data, after) && LooksUp(data)
    requires key in after && key.LookupKey?
    ensures Resolves(after, key)
  {
    if key in LookupsOf(op.New()) {
      LookupKinds(op.New().value, key);
      EntitiesAfter(op, snap, data, after, op.Collection(), op.ID());
    } else {
      assert key !in LookupsOf(op.Old()) && Resolves(data, key);
      EntitiesAfter(op, snap, data, after, key.kind.Collection(), data[key].id);
    }
  }

  lemma LookupStays(op: Op, snap: Snapshot, data: Data, after: Data, collection: Collection, id: ID, key: Key)
    requires Ready(op, snap, data) && After(op, snap, data, after) && LooksUp(data)
    requires Stores(after, collection, id) && key in Stored(after, collection, id).Lookups()
    ensures key in after && after[key] == LookupValue(id)
  {
    EntitiesAfter(op, snap, data, after, collection, id);
    LookupKinds(Stored(after, collection, id), key);
    if EntityKey(collection, id) != op.Target() {
      assert Findable(data, collection, id);
      assert Stored(after, collection, id).Collection() == collection by {
        KeepsTyped(op, snap, data, after);
        assert WellTyped(EntityKey(collection, id), after[EntityKey(collection, id)]);
      }
      if op.Old().Some? {
        OneOwner(data, collection, id, op.Collection(), op.ID(), key);
      }
      if key in LookupsOf(op.New()) {
        LookupKinds(op.New().value, key);
      }
    }
  }

  // Every accepted create, replace and delete keeps the whole invariant.
  lemma WriteKeepsIntegrity(op: Op, snap: Snapshot, data: Data)
    requires Covers(op, snap) && CheckAll(op, snap).Ok? && Integrity(data) && Shows(snap, data)
    ensures Integrity(Overlay(data, WriteBatch(op, snap)))
  {
    var after := Overlay(data, WriteBatch(op, snap));
    AcceptedReady(op, snap, data);
    WriteAfter(op, snap, data);
    KeepsTyped(op, snap, data, after);
    KeepsRouted(op, snap, data, after);
    KeepsLookups(op, snap, data, after);
    forall collection
      ensures NoDuplicates(IDs(after, CollectionIndex(collection)))
      ensures forall id :: id in IDs(after, CollectionIndex(collection)) <==> Stores(after, collection, id)
    {
      IndexAfter(op, snap, data, after, collection);
    }
  }

  // ---- A method that nothing interrupts ----

  ghost function ReadNow(table: Table<Key, Value>, op: Op): (snap: Snapshot)
    requires op.WellFormed()
    ensures Covers(op, snap)
  {
    map key | key in ReadOrder(op) :: Lookup(table, key)
  }

  // Its transaction cannot conflict.
  lemma ReadNowMatches(table: Table<Key, Value>, op: Op)
    requires op.WellFormed()
    ensures BatchMatches(table, WriteBatch(op, ReadNow(table, op)))
  {
    var snap := ReadNow(table, op);
    forall key <- WriteBatch(op, snap)
      ensures Matches(table, key, WriteBatch(op, snap)[key].expected)
    {
      if !key.LookupKey? {
        ReadsWhatItWrites(op, snap, key);
      }
    }
  }
}
