// The invariant of the virtual-key store and the proof that every operation,
// run on what the store holds, keeps it.
module KeyIntegrity {
  import opened Options
  import opened Domain
  import opened EtagStore
  import opened KeyStore

  type Data = map<Key, Value>

  predicate WellTyped(key: Key, value: Value) {
    match key
    case EntityKey(id) => value.KeyValue? && value.key.id == id && value.key.modelIDs != [] && ValidModelIDs(value.key.modelIDs)
    case GlobalIndex => value.IndexValue?
    case IndexKey(_) => value.IndexValue?
    case HashLookup(_) => value.LookupValue?
    case SubjectKey(ref) => value.SubjectValue? && value.subject.Ref() == ref
  }

  ghost predicate Typed(data: Data) {
    forall key <- data :: WellTyped(key, data[key])
  }

  ghost predicate Stores(data: Data, id: ID) {
    EntityKey(id) in data && data[EntityKey(id)].KeyValue?
  }

  ghost function Stored(data: Data, id: ID): VirtualKey
    requires Stores(data, id)
  {
    data[EntityKey(id)].key
  }

  ghost predicate LiveSubject(data: Data, ref: Ref) {
    SubjectKey(ref) in data && data[SubjectKey(ref)].SubjectValue? && data[SubjectKey(ref)].subject.Live()
  }

  // Every owner and model of a stored key has a subject that is not a tombstone.
  ghost predicate Backed(data: Data) {
    forall id, ref :: References(data, id, ref) ==> LiveSubject(data, ref)
  }

  ghost function IDs(data: Data, key: Key): seq<ID> {
    if key in data && data[key].IndexValue? then data[key].ids else []
  }

  ghost predicate References(data: Data, id: ID, ref: Ref) {
    Stores(data, id) && Names(Stored(data, id), ref)
  }

  // A subject's index lists, once each, exactly the keys that reference it.
  ghost predicate Indexed(data: Data) {
    && (forall ref :: NoDuplicates(IDs(data, IndexKey(ref))))
    && (forall ref, id :: id in IDs(data, IndexKey(ref)) <==> References(data, id, ref))
  }

  // A hash resolves to a key exactly when the stored key has that hash.
  ghost predicate LooksUp(data: Data) {
    && (forall id :: Stores(data, id) ==> HashLookup(Stored(data, id).keyHash) in data
                                          && data[HashLookup(Stored(data, id).keyHash)] == LookupValue(id))
    && (forall hash :: HashLookup(hash) in data ==>
                         data[HashLookup(hash)].LookupValue? && Stores(data, data[HashLookup(hash)].id)
                         && Stored(data, data[HashLookup(hash)].id).keyHash == hash)
  }

  ghost predicate Integrity(data: Data) {
    Typed(data) && Backed(data) && Indexed(data) && LooksUp(data)
  }

  // The collection index lists every stored key once.
  ghost predicate Listed(data: Data) {
    && NoDuplicates(IDs(data, GlobalIndex))
    && (forall id :: id in IDs(data, GlobalIndex) <==> Stores(data, id))
  }

  ghost predicate ShowsAt(snap: Snapshot, data: Data, key: Key)
    requires key in snap
  {
    (snap[key].Present? <==> key in data) && (key in data ==> snap[key].value == data[key])
  }

  // The snapshot shows what the store holds at the keys it covers, the collection
  // index aside: nothing but the collection index itself depends on that one.
  ghost predicate Shows(snap: Snapshot, data: Data) {
    forall key <- snap :: key != GlobalIndex ==> ShowsAt(snap, data, key)
  }

  ghost predicate ShowsGlobal(snap: Snapshot, data: Data) {
    GlobalIndex in snap ==> ShowsAt(snap, data, GlobalIndex)
  }

  lemma ReindexedMembers(entry: Entry<Value>, data: Data, key: Key, id: ID, member: bool)
    requires (entry.Present? <==> key in data) && (key in data ==> entry.value == data[key])
    requires key in data ==> data[key].IndexValue?
    ensures forall other :: other in Reindexed(entry, id, member)
                            <==> if other == id then member else other in IDs(data, key)
    ensures NoDuplicates(IDs(data, key)) ==> NoDuplicates(Reindexed(entry, id, member))
  {
    WithMemberMembers(IDs(data, key), id, member);
  }

  // ---- What an accepted mutation is known to have read ----

  ghost predicate Ready(op: Op, snap: Snapshot, data: Data) {
    && op.Mutation() && Typed(data) && Shows(snap, data)
    && (forall key :: Writes(op, key) ==> key.HashLookup? || key in snap)
    && (forall ref :: Involves(op, ref) ==> SubjectKey(ref) in data)
    && (forall ref :: Named(op.New(), ref) ==> LiveSubject(data, ref))
    && (op.Old().Some? ==> Stores(data, op.KeyID()) && Stored(data, op.KeyID()) == op.Old().value)
    && (op.CreateKey? ==> EntityKey(op.KeyID()) !in data)
    && (op.New().Some? ==> NewKeyFits(op, data))
  }

  ghost predicate NewKeyFits(op: Op, data: Data)
    requires op.Mutation() && op.New().Some?
  {
    var key := op.New().value;
    && key.id == op.KeyID() && key.modelIDs != [] && ValidModelIDs(key.modelIDs)
    && (HashLookup(key.keyHash) in data ==> op.ReplaceKey? && data[HashLookup(key.keyHash)] == LookupValue(key.id))
  }

  ghost predicate Accepted(op: Op, models: seq<ID>, snap: Snapshot) {
    && op.Mutation() && ModelOrder(op, models) && Covers(op, models, snap)
    && CheckMutation(op, models, snap).Ok?
  }

  lemma {:induction false} CheckedModel(models: seq<ID>, kept: seq<ID>, status: Status, snap: Snapshot, id: ID)
    requires forall id <- models :: SubjectKey(ModelRef(id)) in snap && IndexKey(ModelRef(id)) in snap
    requires CheckModels(models, kept, status, snap).Ok? && id in models
    ensures AsSubject(snap[SubjectKey(ModelRef(id))], ModelRef(id)).Ok?
    ensures AsSubject(snap[SubjectKey(ModelRef(id))], ModelRef(id)).value.Some?
    ensures !AsSubject(snap[SubjectKey(ModelRef(id))], ModelRef(id)).value.value.deleted
  {
    if models[0] != id {
      CheckedModel(models[1..], kept, status, snap, id);
    }
  }

  // Whatever a mutation writes, lookups aside, it has read.
  lemma ReadsWhatItWrites(op: Op, models: seq<ID>, snap: Snapshot, key: Key)
    requires op.Mutation() && ModelOrder(op, models) && Covers(op, models, snap)
    requires Writes(op, key) && !key.HashLookup?
    ensures key in snap
  {
    if key.EntityKey? {
      assert key in ReadOrder(op, models);
    } else if key.GlobalIndex? {
      assert GlobalIndex in [GlobalIndex];
      assert key in ReadOrder(op, models);
    } else if key.ref.UserRef? {
      OwnersCover(op, models, snap, key.ref);
    } else {
      ModelReadsCover(op, models, snap);
      assert key.ref.id in models;
    }
  }

  lemma AcceptedSubject(op: Op, models: seq<ID>, snap: Snapshot, data: Data, ref: Ref)
    requires Accepted(op, models, snap) && Shows(snap, data) && Involves(op, ref)
    ensures SubjectKey(ref) in data
    ensures Named(op.New(), ref) ==> LiveSubject(data, ref)
  {
    ReadsWhatItWrites(op, models, snap, SubjectKey(ref));
    if ref.ModelRef? {
      ModelReadsCover(op, models, snap);
      CheckedModel(models, ModelIDs(op.New()), op.KeyStatus(), snap, ref.id);
    }
  }

  lemma AcceptedReady(op: Op, models: seq<ID>, snap: Snapshot, data: Data)
    requires Accepted(op, models, snap) && Typed(data) && Shows(snap, data)
    ensures Ready(op, snap, data)
  {
    forall key | Writes(op, key) && !key.HashLookup?
      ensures key in snap
    {
      ReadsWhatItWrites(op, models, snap, key);
    }
    forall ref | Involves(op, ref)
      ensures SubjectKey(ref) in data && (Named(op.New(), ref) ==> LiveSubject(data, ref))
    {
      AcceptedSubject(op, models, snap, data, ref);
    }
    assert EntityKey(op.KeyID()) in ReadOrder(op, models) && ShowsAt(snap, data, EntityKey(op.KeyID()));
    if op.New().Some? {
      var hash := HashLookup(op.New().value.keyHash);
      assert hash in ReadOrder(op, models) && ShowsAt(snap, data, hash);
    }
  }

  // ---- The invariant is kept ----

  // The contents after a mutation, key by key.
  ghost predicate After(op: Op, snap: Snapshot, data: Data, after: Data)
    requires op.Mutation()
  {
    forall key ::
      if Writes(op, key)
      then (key in after <==> WriteFor(op, snap, key).Put?) && (key in after ==> after[key] == WriteFor(op, snap, key).value)
      else (key in after <==> key in data) && (key in after ==> after[key] == data[key])
  }

  lemma MutationAfter(op: Op, snap: Snapshot, data: Data)
    requires op.Mutation()
    ensures After(op, snap, data, Overlay(data, MutationBatch(op, snap)))
  {
  }

  // The stored keys after a mutation: the one it names is set or removed, the rest stay.
  lemma EntitiesAfter(op: Op, snap: Snapshot, data: Data, after: Data, id: ID)
    requires Ready(op, snap, data) && After(op, snap, data, after)
    ensures id != op.KeyID() ==> (Stores(after, id) <==> Stores(data, id)) && (Stores(data, id) ==> Stored(after, id) == Stored(data, id))
    ensures id == op.KeyID() ==> (Stores(after, id) <==> op.New().Some?) && (op.New().Some? ==> Stored(after, id) == op.New().value)
  {
    assert Writes(op, EntityKey(id)) <==> id == op.KeyID();
  }

  // Touching a subject rewrites the value it had.
  lemma SubjectsAfter(op: Op, snap: Snapshot, data: Data, after: Data, ref: Ref)
    requires Ready(op, snap, data) && After(op, snap, data, after)
    ensures SubjectKey(ref) in after <==> SubjectKey(ref) in data
    ensures SubjectKey(ref) in data ==> after[SubjectKey(ref)] == data[SubjectKey(ref)]
  {
    assert Writes(op, SubjectKey(ref)) <==> Involves(op, ref);
  }

  lemma MutationKeepsTyped(op: Op, snap: Snapshot, data: Data, after: Data)
    requires Ready(op, snap, data) && After(op, snap, data, after)
    ensures Typed(after)
  {
    forall key <- after
      ensures WellTyped(key, after[key])
    {
      if key.SubjectKey? {
        SubjectsAfter(op, snap, data, after, key.ref);
      }
    }
  }

  lemma MutationKeepsBacked(op: Op, snap: Snapshot, data: Data, after: Data)
    requires Ready(op, snap, data) && After(op, snap, data, after) && Backed(data)
    ensures Backed(after)
  {
    forall id, ref | References(after, id, ref)
      ensures LiveSubject(after, ref)
    {
      EntitiesAfter(op, snap, data, after, id);
      SubjectsAfter(op, snap, data, after, ref);
      if id == op.KeyID() {
        assert Named(op.New(), ref) && LiveSubject(data, ref);
      } else {
        assert References(data, id, ref) && LiveSubject(data, ref);
      }
    }
  }

  lemma IndexAfter(op: Op, snap: Snapshot, data: Data, after: Data, ref: Ref)
    requires Ready(op, snap, data) && After(op, snap, data, after) && Indexed(data)
    ensures NoDuplicates(IDs(after, IndexKey(ref)))
    ensures forall id :: id in IDs(after, IndexKey(ref)) <==> References(after, id, ref)
  {
    var key := IndexKey(ref);
    assert NoDuplicates(IDs(data, key));
    assert Writes(op, key) <==> Involves(op, ref);
    if Involves(op, ref) {
      ReindexedMembers(snap[key], data, key, op.KeyID(), Named(op.New(), ref));
    }
    forall id
      ensures id in IDs(after, key) <==> References(after, id, ref)
    {
      EntitiesAfter(op, snap, data, after, id);
      assert id in IDs(data, key) <==> References(data, id, ref);
    }
  }

  lemma MutationKeepsLookups(op: Op, snap: Snapshot, data: Data, after: Data)
    requires Ready(op, snap, data) && After(op, snap, data, after) && LooksUp(data)
    ensures LooksUp(after)
  {
    forall id | Stores(after, id)
      ensures HashLookup(Stored(after, id).keyHash) in after
      ensures after[HashLookup(Stored(after, id).keyHash)] == LookupValue(id)
    {
      EntitiesAfter(op, snap, data, after, id);
    }
    forall hash | HashLookup(hash) in after
      ensures after[HashLookup(hash)].LookupValue? && Stores(after, after[HashLookup(hash)].id)
      ensures Stored(after, after[HashLookup(hash)].id).keyHash == hash
    {
      EntitiesAfter(op, snap, data, after, after[HashLookup(hash)].id);
    }
  }

  // Every accepted create, replace or delete keeps the whole invariant.
  lemma MutationKeepsIntegrity(op: Op, models: seq<ID>, snap: Snapshot, data: Data)
    requires Accepted(op, models, snap) && Integrity(data) && Shows(snap, data)
    ensures Integrity(Overlay(data, MutationBatch(op, snap)))
  {
    var after := Overlay(data, MutationBatch(op, snap));
    MutationAfter(op, snap, data);
    AcceptedReady(op, models, snap, data);
    MutationKeepsTyped(op, snap, data, after);
    MutationKeepsBacked(op, snap, data, after);
    MutationKeepsLookups(op, snap, data, after);
    forall ref
      ensures NoDuplicates(IDs(after, IndexKey(ref)))
      ensures forall id :: id in IDs(after, IndexKey(ref)) <==> References(after, id, ref)
    {
      IndexAfter(op, snap, data, after, ref);
    }
  }

  // ... and keeps the collection index exact.
  lemma MutationKeepsListed(op: Op, models: seq<ID>, snap: Snapshot, data: Data)
    requires Accepted(op, models, snap) && Typed(data) && Shows(snap, data) && ShowsGlobal(snap, data) && Listed(data)
    ensures Listed(Overlay(data, MutationBatch(op, snap)))
  {
    var after := Overlay(data, MutationBatch(op, snap));
    MutationAfter(op, snap, data);
    AcceptedReady(op, models, snap, data);
    assert Writes(op, GlobalIndex) <==> !op.ReplaceKey?;
    if !op.ReplaceKey? {
      ReindexedMembers(snap[GlobalIndex], data, GlobalIndex, op.KeyID(), op.New().Some?);
    }
    forall id
      ensures id in IDs(after, GlobalIndex) <==> Stores(after, id)
    {
      EntitiesAfter(op, snap, data, after, id);
    }
  }

  // A synchronised or fenced subject keeps it too: a fence has seen the index empty.
  lemma SubjectWriteKeepsIntegrity(op: Op, models: seq<ID>, snap: Snapshot, data: Data)
    requires !op.Mutation() && Covers(op, models, snap) && Integrity(data) && Shows(snap, data)
    requires Decide(op, models, snap).Commit?
    ensures Integrity(Overlay(data, Decide(op, models, snap).batch))
    ensures Listed(data) ==> Listed(Overlay(data, Decide(op, models, snap).batch))
  {
    var ref := op.subject.Ref();
    var batch := Decide(op, models, snap).batch;
    assert op.FenceSubject? ==> IDs(data, IndexKey(ref)) == [] && op.subject.deleted;
    assert op.SyncSubject? ==> !op.subject.deleted;
    SubjectPutKeepsIntegrity(data, ref, batch, op.subject);
  }

  lemma SubjectPutKeepsIntegrity(data: Data, ref: Ref, batch: Batch<Key, Value>, subject: Subject)
    requires Integrity(data) && subject.Ref() == ref
    requires batch.Keys == {SubjectKey(ref)} && batch[SubjectKey(ref)].Put? && batch[SubjectKey(ref)].value == SubjectValue(subject)
    requires subject.deleted ==> IDs(data, IndexKey(ref)) == []
    ensures Integrity(Overlay(data, batch))
    ensures Listed(data) ==> Listed(Overlay(data, batch))
  {
    var after := Overlay(data, batch);
    assert after == data[SubjectKey(ref) := SubjectValue(subject)];
    forall id, other
      ensures References(after, id, other) == References(data, id, other)
      ensures References(after, id, other) ==> LiveSubject(after, other)
    {
      assert References(data, id, other) ==> id in IDs(data, IndexKey(other));
      assert References(data, id, other) ==> LiveSubject(data, other);
    }
    assert forall key :: IDs(after, key) == IDs(data, key);
    assert forall id :: Stores(after, id) == Stores(data, id);
  }

  // ---- A method that nothing interrupts ----

  ghost function ReadNow(table: Table<Key, Value>, op: Op, models: seq<ID>): (snap: Snapshot)
    ensures Covers(op, models, snap)
  {
    map key | key in ReadOrder(op, models) :: Lookup(table, key)
  }

  // Its transaction cannot conflict.
  lemma ReadNowMatches(table: Table<Key, Value>, op: Op, models: seq<ID>)
    requires op.Mutation() ==> ModelOrder(op, models)
    requires Decide(op, models, ReadNow(table, op, models)).Commit?
    ensures BatchMatches(table, Decide(op, models, ReadNow(table, op, models)).batch)
  {
    var snap := ReadNow(table, op, models);
    if op.Mutation() {
      forall key <- Decide(op, models, snap).batch
        ensures Matches(table, key, Decide(op, models, snap).batch[key].expected)
      {
        assert Writes(op, key);
        if !key.HashLookup? {
          ReadsWhatItWrites(op, models, snap, key);
        }
      }
    } else {
      SubjectDecision(op, models, snap);
    }
  }
}
