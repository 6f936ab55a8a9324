// What the reads of the user, provider and model repositories return, and that in a
// store that keeps the invariant they agree with a search over the stored entities.
module RegistryQueries {
  import opened Options
  import opened Domain
  import opened EtagStore
  import opened Registry
  import opened RegistryIntegrity

  type RegistryTable = Table<Key, Value>

  function EntityAt(table: RegistryTable, collection: Collection, id: ID): Result<Entity, Error> {
    match AsEntity(Lookup(table, EntityKey(collection, id)))
    case Err(error) => Err(error)
    case Ok(None) => Err(NotFound)
    case Ok(Some(entity)) => Ok(entity)
  }

  function AsLookup(entry: Entry<Value>): Result<ID, Error> {
    match entry
    case Absent => Err(NotFound)
    case Present(LookupValue(id), _) => Ok(id)
    case Present(_, _) => Err(Corrupt)
  }

  // By e-mail, slug, adapter app ID or alias.
  function Find(table: RegistryTable, kind: LookupKind, text: string): Result<Entity, Error> {
    var id :- AsLookup(Lookup(table, LookupKey(kind, text)));
    EntityAt(table, kind.Collection(), id)
  }

  // The entities of an index, without the IDs nothing is stored under.
  function EntitiesOn(table: RegistryTable, collection: Collection, ids: seq<ID>): Result<seq<Entity>, Error> {
    if ids == [] then Ok([])
    else match EntityAt(table, collection, ids[0])
      case Err(NotFound) => EntitiesOn(table, collection, ids[1..])
      case Err(error) => Err(error)
      case Ok(entity) => Prepended([entity], EntitiesOn(table, collection, ids[1..]))
  }

  function List(table: RegistryTable, collection: Collection, index: Key): Result<seq<Entity>, Error> {
    var ids :- AsIndex(Lookup(table, index));
    EntitiesOn(table, collection, ids)
  }

  ghost predicate IsStored(data: Data, collection: Collection, entity: Entity) {
    Stores(data, collection, entity.id) && Stored(data, collection, entity.id) == entity
  }

  ghost predicate OncePerID(entities: seq<Entity>) {
    forall i, j :: 0 <= i < j < |entities| ==> entities[i].id != entities[j].id
  }

  lemma EntityAtStored(table: RegistryTable, collection: Collection, id: ID)
    requires Typed(Values(table))
    ensures EntityAt(table, collection, id) ==
            if Stores(Values(table), collection, id) then Ok(Stored(Values(table), collection, id)) else Err(NotFound)
    ensures Stores(Values(table), collection, id) ==>
              Stored(Values(table), collection, id).id == id && Stored(Values(table), collection, id).Collection() == collection
  {
    if EntityKey(collection, id) in table {
      assert WellTyped(EntityKey(collection, id), Values(table)[EntityKey(collection, id)]);
    }
  }

  // A unique value finds an entity exactly when that entity is stored with that value.
  lemma FindsStored(table: RegistryTable, kind: LookupKind, text: string, entity: Entity)
    requires Integrity(Values(table))
    ensures Find(table, kind, text) == Ok(entity)
       <==> IsStored(Values(table), kind.Collection(), entity) && HasValue(entity, kind, text)
    ensures Find(table, kind, text).Err? ==> Find(table, kind, text) == Err(NotFound)
  {
    var data, key := Values(table), LookupKey(kind, text);
    EntityAtStored(table, kind.Collection(), entity.id);
    if key in table {
      assert Resolves(data, key);
      EntityAtStored(table, kind.Collection(), data[key].id);
    }
    assert Findable(data, kind.Collection(), entity.id);
    LookupsExactly(entity, key);
  }

  lemma {:induction false} EntitiesOnStored(table: RegistryTable, collection: Collection, ids: seq<ID>)
    requires Typed(Values(table)) && forall id <- ids :: Stores(Values(table), collection, id)
    ensures EntitiesOn(table, collection, ids).Ok? && |EntitiesOn(table, collection, ids).value| == |ids|
    ensures forall i :: 0 <= i < |ids| ==>
                          && EntitiesOn(table, collection, ids).value[i] == Stored(Values(table), collection, ids[i])
                          && EntitiesOn(table, collection, ids).value[i].id == ids[i]
  {
    if ids != [] {
      EntityAtStored(table, collection, ids[0]);
      EntitiesOnStored(table, collection, ids[1..]);
    }
  }

  // A list of an index that names exactly the entities `chosen` holds returns each of them once.
  lemma ListIsExact(table: RegistryTable, collection: Collection, index: Key, chosen: set<ID>)
    requires Typed(Values(table)) && (index.CollectionIndex? || index.ByProvider?)
    requires NoDuplicates(IDs(Values(table), index))
    requires forall id :: id in IDs(Values(table), index) <==> id in chosen
    requires forall id <- chosen :: Stores(Values(table), collection, id)
    ensures List(table, collection, index).Ok? && OncePerID(List(table, collection, index).value)
    ensures forall entity :: entity in List(table, collection, index).value <==> IsStored(Values(table), collection, entity) && entity.id in chosen
  {
    var data, ids := Values(table), IDs(Values(table), index);
    if index in table {
      assert WellTyped(index, data[index]);
    }
    assert AsIndex(Lookup(table, index)) == Ok(ids);
    EntitiesOnStored(table, collection, ids);
    var entities := List(table, collection, index).value;
    forall entity
      ensures entity in entities <==> IsStored(data, collection, entity) && entity.id in chosen
    {
      if IsStored(data, collection, entity) && entity.id in chosen {
        var i :| 0 <= i < |ids| && ids[i] == entity.id;
        assert entities[i] == entity;
      }
      if entity in entities {
        var i :| 0 <= i < |entities| && entities[i] == entity;
        assert ids[i] in ids;
      }
    }
  }

  ghost function StoredIDs(data: Data, collection: Collection): (ids: set<ID>)
    ensures forall id :: id in ids <==> Stores(data, collection, id)
  {
    set key <- data | key.EntityKey? && key.collection == collection && data[key].EntityValue? :: key.id
  }

  // List returns every stored entity of the collection exactly once.
  lemma ListsEveryEntity(table: RegistryTable, collection: Collection)
    requires Integrity(Values(table))
    ensures var list := List(table, collection, CollectionIndex(collection));
            list.Ok? && OncePerID(list.value) && forall entity :: entity in list.value <==> IsStored(Values(table), collection, entity)
  {
    var data := Values(table);
    assert NoDuplicates(IDs(data, CollectionIndex(collection)));
    assert forall id :: id in IDs(data, CollectionIndex(collection)) <==> Stores(data, collection, id);
    ListIsExact(table, collection, CollectionIndex(collection), StoredIDs(data, collection));
  }

  // The list of a provider returns exactly the stored models that route to it.
  lemma ListsModelsOf(table: RegistryTable, provider: ID)
    requires Integrity(Values(table))
    ensures var list := List(table, Models, ByProvider(provider));
            && list.Ok? && OncePerID(list.value)
            && forall entity :: entity in list.value <==> IsStored(Values(table), Models, entity) && entity.Model? && entity.providerID == provider
  {
    var data := Values(table);
    var chosen := set id <- StoredIDs(data, Models) | Routes(data, id, provider);
    assert NoDuplicates(IDs(data, ByProvider(provider)));
    assert forall id :: id in IDs(data, ByProvider(provider)) <==> Routes(data, id, provider);
    ListIsExact(table, Models, ByProvider(provider), chosen);
  }
}
