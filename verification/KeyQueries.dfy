// What the virtual-key repository's reads return, and that in a store that keeps the
// invariant they agree with a search over the stored keys.
module KeyQueries {
  import opened Options
  import opened Domain
  import opened EtagStore
  import opened KeyStore
  import opened KeyIntegrity

  type KeyTable = Table<Key, Value>

  function KeyAt(table: KeyTable, id: ID): Result<VirtualKey, Error> {
    match AsKey(Lookup(table, EntityKey(id)))
    case Err(error) => Err(error)
    case Ok(None) => Err(NotFound)
    case Ok(Some(key)) => Ok(key)
  }

  function AsLookup(entry: Entry<Value>): Result<ID, Error> {
    match entry
    case Absent => Err(NotFound)
    case Present(LookupValue(id), _) => Ok(id)
    case Present(_, _) => Err(Corrupt)
  }

  function KeyByHash(table: KeyTable, hash: string): Result<VirtualKey, Error> {
    var id :- AsLookup(Lookup(table, HashLookup(hash)));
    KeyAt(table, id)
  }

  function SubjectAt(table: KeyTable, ref: Ref): Result<Subject, Error> {
    match AsSubject(Lookup(table, SubjectKey(ref)), ref)
    case Err(error) => Err(error)
    case Ok(None) => Err(NotFound)
    case Ok(Some(subject)) => Ok(subject)
  }

  // The keys of an index, without the IDs nothing is stored under.
  function KeysOn(table: KeyTable, ids: seq<ID>): Result<seq<VirtualKey>, Error> {
    if ids == [] then Ok([])
    else match KeyAt(table, ids[0])
      case Err(NotFound) => KeysOn(table, ids[1..])
      case Err(error) => Err(error)
      case Ok(key) => Prepended([key], KeysOn(table, ids[1..]))
  }

  function ListKeys(table: KeyTable, index: Key): Result<seq<VirtualKey>, Error> {
    var ids :- AsIndex(Lookup(table, index));
    KeysOn(table, ids)
  }

  ghost predicate IsStored(data: Data, key: VirtualKey) {
    Stores(data, key.id) && Stored(data, key.id) == key
  }

  ghost predicate OncePerID(keys: seq<VirtualKey>) {
    forall i, j :: 0 <= i < j < |keys| ==> keys[i].id != keys[j].id
  }

  lemma KeyAtStored(table: KeyTable, id: ID)
    requires Typed(Values(table))
    ensures KeyAt(table, id) == if Stores(Values(table), id) then Ok(Stored(Values(table), id)) else Err(NotFound)
    ensures Stores(Values(table), id) ==> Stored(Values(table), id).id == id
  {
    if EntityKey(id) in table {
      assert WellTyped(EntityKey(id), Values(table)[EntityKey(id)]);
    }
  }

  // A hash finds a key exactly when that key is stored with that hash; it never finds two,
  // and a store that keeps the invariant never answers that a record is corrupt.
  lemma HashFindsStored(table: KeyTable, hash: string, key: VirtualKey)
    requires Typed(Values(table)) && LooksUp(Values(table))
    ensures KeyByHash(table, hash) == Ok(key) <==> IsStored(Values(table), key) && key.keyHash == hash
    ensures KeyByHash(table, hash).Err? ==> KeyByHash(table, hash) == Err(NotFound)
  {
    var data := Values(table);
    KeyAtStored(table, key.id);
    if HashLookup(hash) in table {
      assert data[HashLookup(hash)].LookupValue?;
      KeyAtStored(table, data[HashLookup(hash)].id);
    }
  }

  lemma {:induction false} KeysOnStored(table: KeyTable, ids: seq<ID>)
    requires Typed(Values(table)) && forall id <- ids :: Stores(Values(table), id)
    ensures KeysOn(table, ids).Ok? && |KeysOn(table, ids).value| == |ids|
    ensures forall i :: 0 <= i < |ids| ==> KeysOn(table, ids).value[i] == Stored(Values(table), ids[i]) && KeysOn(table, ids).value[i].id == ids[i]
  {
    if ids != [] {
      KeyAtStored(table, ids[0]);
      KeysOnStored(table, ids[1..]);
    }
  }

  // A list of an index that names exactly the keys `chosen` holds returns each of them once.
  lemma ListIsExact(table: KeyTable, index: Key, chosen: set<ID>)
    requires Typed(Values(table)) && (index.GlobalIndex? || index.IndexKey?)
    requires NoDuplicates(IDs(Values(table), index))
    requires forall id :: id in IDs(Values(table), index) <==> id in chosen
    requires forall id <- chosen :: Stores(Values(table), id)
    ensures ListKeys(table, index).Ok? && OncePerID(ListKeys(table, index).value)
    ensures forall key :: key in ListKeys(table, index).value <==> IsStored(Values(table), key) && key.id in chosen
  {
    var data, ids := Values(table), IDs(Values(table), index);
    if index in table {
      assert WellTyped(index, data[index]);
    }
    assert AsIndex(Lookup(table, index)) == Ok(ids);
    KeysOnStored(table, ids);
    var keys := ListKeys(table, index).value;
    forall key
      ensures key in keys <==> IsStored(data, key) && key.id in chosen
    {
      if IsStored(data, key) && key.id in chosen {
        var i :| 0 <= i < |ids| && ids[i] == key.id;
        assert keys[i] == key;
      }
      if key in keys {
        var i :| 0 <= i < |keys| && keys[i] == key;
        assert ids[i] in ids;
      }
    }
  }

  ghost function StoredIDs(data: Data): (ids: set<ID>)
    ensures forall id :: id in ids <==> Stores(data, id)
  {
    set key <- data | key.EntityKey? && data[key].KeyValue? :: key.id
  }

  // List returns every stored key exactly once.
  lemma ListsEveryKey(table: KeyTable)
    requires Integrity(Values(table)) && Listed(Values(table))
    ensures ListKeys(table, GlobalIndex).Ok? && OncePerID(ListKeys(table, GlobalIndex).value)
    ensures forall key :: key in ListKeys(table, GlobalIndex).value <==> IsStored(Values(table), key)
  {
    ListIsExact(table, GlobalIndex, StoredIDs(Values(table)));
  }

  // The list of a user, or of a model, returns exactly the stored keys that name it.
  lemma ListsKeysNaming(table: KeyTable, ref: Ref)
    requires Integrity(Values(table))
    ensures ListKeys(table, IndexKey(ref)).Ok? && OncePerID(ListKeys(table, IndexKey(ref)).value)
    ensures forall key :: key in ListKeys(table, IndexKey(ref)).value <==> IsStored(Values(table), key) && (match ref
                                                                                                                    case UserRef(id) => key.userID == id
                                                                                                                    case ModelRef(id) => id in key.modelIDs)
  {
    var data := Values(table);
    var chosen := set id <- StoredIDs(data) | References(data, id, ref);
    assert forall id :: id in IDs(data, IndexKey(ref)) <==> References(data, id, ref);
    assert NoDuplicates(IDs(data, IndexKey(ref)));
    ListIsExact(table, IndexKey(ref), chosen);
  }
}
