// The virtual-key repository under its mutex: which calls are accepted, what they do to
// the stored keys, and what holds after any sequence of calls.
module KeySequences {
  import opened Options
  import opened Domain
  import opened EtagStore
  import opened KeyStore
  import opened KeyIntegrity
  import opened KeyQueries
  import opened KeyRepository
  import opened KeyRefinement

  // ---- When a call is accepted, in terms of what is stored ----

  // The stored subject is no tombstone and is active, or disabled like the key.
  ghost predicate CanName(data: Data, key: VirtualKey, ref: Ref) {
    && SubjectKey(ref) in data && data[SubjectKey(ref)].SubjectValue?
    && var subject := data[SubjectKey(ref)].subject;
       !subject.deleted && (subject.status == Active || (subject.status == Disabled && key.status != Active))
  }

  // No other stored key has the hash.
  ghost predicate HashFree(data: Data, key: VirtualKey) {
    forall id :: Stores(data, id) && Stored(data, id).keyHash == key.keyHash ==> id == key.id
  }

  // A key the store can take: valid model IDs, an unused hash, and an owner and models
  // that are there, not deleted, and active if the key is.
  ghost predicate Fits(data: Data, key: VirtualKey) {
    && key.modelIDs != [] && "" !in key.modelIDs && (forall i, j :: 0 <= i < j < |key.modelIDs| ==> key.modelIDs[i] != key.modelIDs[j])
    && HashFree(data, key) && CanName(data, key, UserRef(key.userID)) && forall id <- key.modelIDs :: CanName(data, key, ModelRef(id))
  }

  // The stored entity is the one the call expects.
  ghost predicate Expected(data: Data, op: Op)
    requires op.Mutation()
  {
    && (op.Old().Some? ==> Stores(data, op.KeyID()) && Stored(data, op.KeyID()) == op.Old().value)
    && (op.CreateKey? ==> !Stores(data, op.KeyID()))
    && (op.ReplaceKey? ==> op.previous.id == op.key.id)
  }

  ghost predicate Admissible(data: Data, op: Op)
    requires op.Mutation()
  {
    Expected(data, op) && (op.New().Some? ==> Fits(data, op.New().value))
  }

  lemma {:induction false} ModelsPass(models: seq<ID>, kept: seq<ID>, status: Status, snap: Snapshot)
    requires forall id <- models :: SubjectKey(ModelRef(id)) in snap && IndexKey(ModelRef(id)) in snap
    requires forall id <- models :: AsSubject(snap[SubjectKey(ModelRef(id))], ModelRef(id)).Ok? && AsIndex(snap[IndexKey(ModelRef(id))]).Ok?
    ensures CheckModels(models, kept, status, snap).Ok? <==>
            forall id <- models :: ModelPasses(AsSubject(snap[SubjectKey(ModelRef(id))], ModelRef(id)).value, id in kept, status)
  {
    if models != [] {
      ModelsPass(models[1..], kept, status, snap);
      assert forall id :: id in models <==> id == models[0] || id in models[1..];
    }
  }

  predicate ModelPasses(subject: Option<Subject>, kept: bool, status: Status) {
    && subject.Some? && !subject.value.deleted
    && (kept ==> subject.value.status == Active || (subject.value.status == Disabled && status != Active))
  }

  lemma SubjectNow(table: KeyTable, op: Op, snap: Snapshot, ref: Ref)
    requires Integrity(Values(table)) && op.Mutation() && snap == ReadNow(table, op, ModelsOf(op)) && Involves(op, ref)
    ensures SubjectKey(ref) in snap && IndexKey(ref) in snap
    ensures AsIndex(snap[IndexKey(ref)]).Ok? && AsSubject(snap[SubjectKey(ref)], ref).Ok?
    ensures var subject := AsSubject(snap[SubjectKey(ref)], ref).value; var data := Values(table);
            (subject.Some? <==> SubjectKey(ref) in data) && (subject.Some? ==> data[SubjectKey(ref)] == SubjectValue(subject.value))
    ensures Named(op.Old(), ref) && Stores(Values(table), op.KeyID()) && Stored(Values(table), op.KeyID()) == op.Old().value ==>
              LiveSubject(Values(table), ref)
  {
    var data := Values(table);
    ModelsOfOrder(op);
    ReadsWhatItWrites(op, ModelsOf(op), snap, SubjectKey(ref));
    ReadsWhatItWrites(op, ModelsOf(op), snap, IndexKey(ref));
    if SubjectKey(ref) in table {
      assert WellTyped(SubjectKey(ref), data[SubjectKey(ref)]);
    }
    if IndexKey(ref) in table {
      assert WellTyped(IndexKey(ref), data[IndexKey(ref)]);
    }
    assert References(data, op.KeyID(), ref) ==> LiveSubject(data, ref);
  }

  lemma OwnersPass(table: KeyTable, op: Op, snap: Snapshot)
    requires Integrity(Values(table)) && op.Mutation() && snap == ReadNow(table, op, ModelsOf(op))
    requires op.Old().Some? ==> SubjectKey(UserRef(op.Old().value.userID)) in snap
    requires op.New().Some? ==> SubjectKey(UserRef(op.New().value.userID)) in snap
    requires op.Old().Some? ==> Stores(Values(table), op.KeyID()) && Stored(Values(table), op.KeyID()) == op.Old().value
    ensures CheckOwners(op, snap).Ok? <==>
            op.New().Some? ==> CanName(Values(table), op.New().value, UserRef(op.New().value.userID))
  {
    if op.Old().Some? {
      SubjectNow(table, op, snap, UserRef(op.Old().value.userID));
    }
    if op.New().Some? {
      SubjectNow(table, op, snap, UserRef(op.New().value.userID));
    }
  }

  lemma ModelsAccepted(table: KeyTable, op: Op, snap: Snapshot)
    requires Integrity(Values(table)) && op.Mutation() && snap == ReadNow(table, op, ModelsOf(op))
    requires forall id <- ModelsOf(op) :: SubjectKey(ModelRef(id)) in snap && IndexKey(ModelRef(id)) in snap
    requires op.Old().Some? ==> Stores(Values(table), op.KeyID()) && Stored(Values(table), op.KeyID()) == op.Old().value
    ensures CheckModels(ModelsOf(op), ModelIDs(op.New()), op.KeyStatus(), snap).Ok? <==>
            op.New().Some? ==> forall id <- op.New().value.modelIDs :: CanName(Values(table), op.New().value, ModelRef(id))
  {
    var models := ModelsOf(op);
    ModelsOfOrder(op);
    forall id <- models
      ensures AsIndex(snap[IndexKey(ModelRef(id))]).Ok? && AsSubject(snap[SubjectKey(ModelRef(id))], ModelRef(id)).Ok?
      ensures ModelPasses(AsSubject(snap[SubjectKey(ModelRef(id))], ModelRef(id)).value, id in ModelIDs(op.New()), op.KeyStatus())
         <==> (id in ModelIDs(op.New()) ==> CanName(Values(table), op.New().value, ModelRef(id)))
    {
      assert Involves(op, ModelRef(id));
      SubjectNow(table, op, snap, ModelRef(id));
    }
    ModelsPass(models, ModelIDs(op.New()), op.KeyStatus(), snap);
  }

  lemma HashPasses(table: KeyTable, op: Op, snap: Snapshot)
    requires Integrity(Values(table)) && op.Mutation() && snap == ReadNow(table, op, ModelsOf(op)) && op.New().Some?
    requires op.CreateKey? ==> !Stores(Values(table), op.KeyID())
    ensures HashLookup(op.New().value.keyHash) in snap
    ensures CheckLookup(op, snap).Pass? <==> HashFree(Values(table), op.New().value)
  {
    var data, key, lookup := Values(table), op.New().value, HashLookup(op.New().value.keyHash);
    assert lookup in ReadOrder(op, ModelsOf(op));
    if lookup in data {
      assert Stores(data, data[lookup].id) && Stored(data, data[lookup].id).keyHash == key.keyHash;
    }
  }

  lemma IndexesPass(table: KeyTable, op: Op, snap: Snapshot)
    requires Integrity(Values(table)) && op.Mutation() && snap == ReadNow(table, op, ModelsOf(op))
    requires op.ReplaceKey? || GlobalIndex in snap
    requires op.Old().Some? ==> IndexKey(UserRef(op.Old().value.userID)) in snap
    requires op.New().Some? ==> IndexKey(UserRef(op.New().value.userID)) in snap
    ensures CheckIndexes(op, snap).Ok?
  {
    if GlobalIndex in table {
      assert WellTyped(GlobalIndex, Values(table)[GlobalIndex]);
    }
    if op.Old().Some? {
      SubjectNow(table, op, snap, UserRef(op.Old().value.userID));
    }
    if op.New().Some? {
      SubjectNow(table, op, snap, UserRef(op.New().value.userID));
    }
  }

  lemma EntityPasses(table: KeyTable, op: Op, snap: Snapshot)
    requires Integrity(Values(table)) && op.Mutation() && snap == ReadNow(table, op, ModelsOf(op))
    ensures EntityKey(op.KeyID()) in snap
    ensures CheckEntity(op, snap).Pass? <==>
            if op.CreateKey? then !Stores(Values(table), op.KeyID())
            else Stores(Values(table), op.KeyID()) && Stored(Values(table), op.KeyID()) == op.previous
  {
    assert EntityKey(op.KeyID()) in ReadOrder(op, ModelsOf(op));
    KeyAtStored(table, op.KeyID());
  }

  lemma MutationChecks(op: Op, models: seq<ID>, snap: Snapshot)
    requires op.Mutation() && Covers(op, models, snap)
    ensures op.Old().Some? ==> SubjectKey(UserRef(op.Old().value.userID)) in snap && IndexKey(UserRef(op.Old().value.userID)) in snap
    ensures op.New().Some? ==> SubjectKey(UserRef(op.New().value.userID)) in snap && IndexKey(UserRef(op.New().value.userID)) in snap
    ensures op.New().Some? ==> HashLookup(op.New().value.keyHash) in snap
    ensures forall id <- models :: SubjectKey(ModelRef(id)) in snap && IndexKey(ModelRef(id)) in snap
    ensures EntityKey(op.KeyID()) in snap && (op.ReplaceKey? || GlobalIndex in snap)
    ensures CheckMutation(op, models, snap).Ok? <==>
            && CheckArguments(op).Pass? && CheckEntity(op, snap).Pass? && CheckLookup(op, snap).Pass? && CheckOwners(op, snap).Ok?
            && ValidModelIDs(ModelIDs(op.Old())) && ValidModelIDs(ModelIDs(op.New()))
            && CheckModels(models, ModelIDs(op.New()), op.KeyStatus(), snap).Ok? && CheckIndexes(op, snap).Ok?
  {
    assert EntityKey(op.KeyID()) in ReadOrder(op, models);
    OwnersCovered(op, models, snap);
    ModelReadsCover(op, models, snap);
    if op.New().Some? {
      assert Named(op.New(), UserRef(op.New().value.userID));
      assert HashLookup(op.New().value.keyHash) in ReadOrder(op, models);
    }
    if op.Old().Some? {
      assert Named(op.Old(), UserRef(op.Old().value.userID));
    }
    if !op.ReplaceKey? {
      assert GlobalIndex in [GlobalIndex];
      assert GlobalIndex in ReadOrder(op, models);
    }
  }

  // Once the entity is as expected, only the new key's own demands are left to check.
  lemma ExpectedAccepted(table: KeyTable, op: Op, snap: Snapshot)
    requires Integrity(Values(table)) && op.Mutation() && snap == ReadNow(table, op, ModelsOf(op)) && Expected(Values(table), op)
    ensures CheckMutation(op, ModelsOf(op), snap).Ok? <==> op.New().Some? ==> Fits(Values(table), op.New().value)
  {
    var data, models := Values(table), ModelsOf(op);
    MutationChecks(op, models, snap);
    EntityPasses(table, op, snap);
    if op.Old().Some? {
      assert WellTyped(EntityKey(op.KeyID()), data[EntityKey(op.KeyID())]);
    }
    OwnersPass(table, op, snap);
    ModelsAccepted(table, op, snap);
    IndexesPass(table, op, snap);
    if op.New().Some? {
      HashPasses(table, op, snap);
    }
  }

  // A mutation is accepted exactly when the stored keys and subjects admit it: its
  // indexes and lookups decide nothing that the stored records do not.
  lemma AcceptedExactly(table: KeyTable, op: Op)
    requires Integrity(Values(table)) && op.Mutation()
    ensures ReplyOn(table, op).Ok? <==> Admissible(Values(table), op)
  {
    var snap := ReadNow(table, op, ModelsOf(op));
    if Expected(Values(table), op) {
      ExpectedAccepted(table, op, snap);
    } else {
      MutationChecks(op, ModelsOf(op), snap);
      EntityPasses(table, op, snap);
    }
  }

  // A refused mutation says so: not found when the key to replace or delete is not stored,
  // a conflict in every other case.
  lemma RefusedExactly(table: KeyTable, op: Op)
    requires Integrity(Values(table)) && op.Mutation() && !Admissible(Values(table), op)
    ensures var missing := !op.CreateKey? && (op.ReplaceKey? ==> op.previous.id == op.key.id && op.key.modelIDs != [])
                           && !Stores(Values(table), op.KeyID());
            ReplyOn(table, op) == Err(if missing then NotFound else Conflict)
  {
    var snap, data := ReadNow(table, op, ModelsOf(op)), Values(table);
    AcceptedExactly(table, op);
    MutationChecks(op, ModelsOf(op), snap);
    EntityRefused(table, op, snap);
    if CheckArguments(op).Pass? && CheckEntity(op, snap).Pass? && CheckLookup(op, snap).Pass? {
      EntityPasses(table, op, snap);
      OwnersRefused(table, op, snap);
      IndexesPass(table, op, snap);
      forall id <- ModelsOf(op)
        ensures AsIndex(snap[IndexKey(ModelRef(id))]).Ok? && AsSubject(snap[SubjectKey(ModelRef(id))], ModelRef(id)).Ok?
      {
        ModelsOfOrder(op);
        assert Involves(op, ModelRef(id));
        SubjectNow(table, op, snap, ModelRef(id));
      }
      ModelsRefused(ModelsOf(op), ModelIDs(op.New()), op.KeyStatus(), snap);
    }
    hide Integrity;
    hide ReadNow;
  }

  lemma EntityRefused(table: KeyTable, op: Op, snap: Snapshot)
    requires Integrity(Values(table)) && op.Mutation() && snap == ReadNow(table, op, ModelsOf(op))
    ensures EntityKey(op.KeyID()) in snap
    ensures CheckEntity(op, snap).Fail? ==>
              CheckEntity(op, snap).error == if !op.CreateKey? && !Stores(Values(table), op.KeyID()) then NotFound else Conflict
  {
    assert EntityKey(op.KeyID()) in ReadOrder(op, ModelsOf(op));
    KeyAtStored(table, op.KeyID());
  }

  lemma OwnersRefused(table: KeyTable, op: Op, snap: Snapshot)
    requires Integrity(Values(table)) && op.Mutation() && snap == ReadNow(table, op, ModelsOf(op))
    requires op.Old().Some? ==> SubjectKey(UserRef(op.Old().value.userID)) in snap
    requires op.New().Some? ==> SubjectKey(UserRef(op.New().value.userID)) in snap
    ensures CheckOwners(op, snap).Err? ==> CheckOwners(op, snap).error == Conflict
  {
    if op.Old().Some? {
      SubjectNow(table, op, snap, UserRef(op.Old().value.userID));
    }
    if op.New().Some? {
      SubjectNow(table, op, snap, UserRef(op.New().value.userID));
    }
  }

  lemma {:induction false} ModelsRefused(models: seq<ID>, kept: seq<ID>, status: Status, snap: Snapshot)
    requires forall id <- models :: SubjectKey(ModelRef(id)) in snap && IndexKey(ModelRef(id)) in snap
    requires forall id <- models :: AsSubject(snap[SubjectKey(ModelRef(id))], ModelRef(id)).Ok? && AsIndex(snap[IndexKey(ModelRef(id))]).Ok?
    ensures CheckModels(models, kept, status, snap).Err? ==> CheckModels(models, kept, status, snap).error == Conflict
  {
    if models != [] {
      ModelsRefused(models[1..], kept, status, snap);
    }
  }

  // ---- When a synchronisation or a fence is accepted ----

  // What every payload carries.
  predicate Identified(subject: Subject) {
    subject.id != "" && (subject.ModelSubject? ==> subject.alias != "") && subject.revision > 0 && subject.updatedAt != 0
  }

  // A later revision that does not revive a tombstone, or the same revision saying the
  // same; a model keeps its alias.
  predicate MayFollow(stored: Option<Subject>, next: Subject)
    requires stored.Some? ==> stored.value.Ref() == next.Ref()
  {
    stored.Some? ==>
      && (next.ModelSubject? ==> next.alias == stored.value.alias)
      && (if next.revision == stored.value.revision then next.status == stored.value.status && next.deleted == stored.value.deleted
          else next.revision > stored.value.revision && (next.deleted || !stored.value.deleted))
  }

  ghost function SubjectIn(data: Data, ref: Ref): (stored: Option<Subject>)
    requires Typed(data)
    ensures stored.Some? ==> stored.value.Ref() == ref
  {
    if SubjectKey(ref) in data then
      assert WellTyped(SubjectKey(ref), data[SubjectKey(ref)]);
      Some(data[SubjectKey(ref)].subject)
    else None
  }

  lemma UpdateExactly(stored: Option<Subject>, next: Subject)
    requires stored.Some? ==> stored.value.Ref() == next.Ref()
    ensures CompareUpdate(stored, next).Ok? <==> MayFollow(stored, next)
    ensures MayFollow(stored, next) ==>
              (CompareUpdate(stored, next) == Ok(true) <==> stored.Some? && stored.value.revision == next.revision)
    ensures CompareUpdate(stored, next).Err? ==> CompareUpdate(stored, next).error == Conflict
  {
  }

  lemma SubjectReads(table: KeyTable, op: Op, snap: Snapshot)
    requires Integrity(Values(table)) && !op.Mutation() && snap == ReadNow(table, op, ModelsOf(op))
    ensures var data, ref := Values(table), op.subject.Ref();
            && SubjectKey(ref) in snap && AsSubject(snap[SubjectKey(ref)], ref) == Ok(SubjectIn(data, ref))
            && (op.FenceSubject? ==> IndexKey(ref) in snap && AsIndex(snap[IndexKey(ref)]) == Ok(IDs(data, IndexKey(ref))))
            && (IDs(data, IndexKey(ref)) == [] <==> forall id :: !References(data, id, ref))
  {
    var data, ref := Values(table), op.subject.Ref();
    if SubjectKey(ref) in table {
      assert WellTyped(SubjectKey(ref), data[SubjectKey(ref)]);
    }
    if IndexKey(ref) in table {
      assert WellTyped(IndexKey(ref), data[IndexKey(ref)]);
    }
    assert forall id :: id in IDs(data, IndexKey(ref)) <==> References(data, id, ref);
    if IDs(data, IndexKey(ref)) != [] {
      assert References(data, IDs(data, IndexKey(ref))[0], ref);
    }
  }

  // A synchronisation is accepted exactly when it is a live payload with all it must carry
  // whose revision may follow the stored one; it is refused as a conflict.
  lemma SyncedExactly(table: KeyTable, subject: Subject)
    requires Integrity(Values(table))
    ensures ReplyOn(table, SyncSubject(subject)) ==
            if Identified(subject) && !subject.deleted && (subject.status == Active || subject.status == Disabled)
               && MayFollow(SubjectIn(Values(table), subject.Ref()), subject)
            then Ok(()) else Err(Conflict)
  {
    SubjectReads(table, SyncSubject(subject), ReadNow(table, SyncSubject(subject), ModelsOf(SyncSubject(subject))));
    UpdateExactly(SubjectIn(Values(table), subject.Ref()), subject);
  }

  // A fence is accepted exactly when it is a disabled tombstone, no stored key references
  // its subject and its revision may follow the stored one.
  lemma FencedExactly(table: KeyTable, subject: Subject)
    requires Integrity(Values(table))
    ensures ReplyOn(table, FenceSubject(subject)) ==
            if Identified(subject) && subject.deleted && subject.status == Disabled
               && (forall id :: !References(Values(table), id, subject.Ref())) && MayFollow(SubjectIn(Values(table), subject.Ref()), subject)
            then Ok(()) else Err(Conflict)
  {
    SubjectReads(table, FenceSubject(subject), ReadNow(table, FenceSubject(subject), ModelsOf(FenceSubject(subject))));
    UpdateExactly(SubjectIn(Values(table), subject.Ref()), subject);
  }

  // An accepted one stores the payload, unless the stored revision is the same already:
  // then nothing changes, the update time included.
  lemma SubjectStored(table: KeyTable, op: Op)
    requires Integrity(Values(table)) && !op.Mutation() && ReplyOn(table, op).Ok?
    ensures var data, stored := Values(table), SubjectIn(Values(table), op.subject.Ref());
            Values(TableAfter(table, op)) ==
            if stored.Some? && stored.value.revision == op.subject.revision then data
            else data[SubjectKey(op.subject.Ref()) := SubjectValue(op.subject)]
  {
    var snap := ReadNow(table, op, ModelsOf(op));
    SubjectReads(table, op, snap);
    UpdateExactly(SubjectIn(Values(table), op.subject.Ref()), op.subject);
    hide Integrity;
    hide CompareUpdate;
    hide MayFollow;
    var outcome := OutcomeOn(table, op);
    if outcome.Commit? {
      SubjectDecision(op, ModelsOf(op), snap);
      ValuesCommitted(table, outcome.batch);
    }
  }

  // ---- What a call does ----

  lemma ReadsShow(table: KeyTable, op: Op)
    ensures Shows(ReadNow(table, op, ModelsOf(op)), Values(table)) && ShowsGlobal(ReadNow(table, op, ModelsOf(op)), Values(table))
  {
  }

  lemma CallKeepsIntegrity(table: KeyTable, op: Op)
    requires Integrity(Values(table)) && Listed(Values(table))
    ensures Integrity(Values(TableAfter(table, op))) && Listed(Values(TableAfter(table, op)))
  {
    var snap, models := ReadNow(table, op, ModelsOf(op)), ModelsOf(op);
    ReadsShow(table, op);
    ModelsOfOrder(op);
    var outcome := OutcomeOn(table, op);
    if outcome.Commit? {
      ValuesCommitted(table, outcome.batch);
      if op.Mutation() {
        MutationKeepsIntegrity(op, models, snap, Values(table));
        MutationKeepsListed(op, models, snap, Values(table));
      } else {
        SubjectWriteKeepsIntegrity(op, models, snap, Values(table));
      }
    }
  }

  // An accepted mutation sets, or removes, the one key it names ...
  lemma CallChangesOneKey(table: KeyTable, op: Op, id: ID)
    requires Integrity(Values(table)) && op.Mutation() && ReplyOn(table, op).Ok?
    ensures KeyAt(TableAfter(table, op), id) ==
            if id != op.KeyID() then KeyAt(table, id) else if op.New().Some? then Ok(op.New().value) else Err(NotFound)
  {
    var snap, data, after := ReadNow(table, op, ModelsOf(op)), Values(table), Values(TableAfter(table, op));
    CallEffect(table, op);
    MutationKeepsTyped(op, snap, data, after);
    EntitiesAfter(op, snap, data, after, id);
    KeyAtStored(table, id);
    KeyAtStored(TableAfter(table, op), id);
  }

  // ... and changes no subject.
  lemma CallKeepsSubjects(table: KeyTable, op: Op, ref: Ref)
    requires Integrity(Values(table)) && op.Mutation() && ReplyOn(table, op).Ok?
    ensures SubjectAt(TableAfter(table, op), ref) == SubjectAt(table, ref)
  {
    CallEffect(table, op);
    SubjectsAfter(op, ReadNow(table, op, ModelsOf(op)), Values(table), Values(TableAfter(table, op)), ref);
    SubjectAtValue(table, ref);
    SubjectAtValue(TableAfter(table, op), ref);
  }

  lemma SubjectAtValue(table: KeyTable, ref: Ref)
    ensures SubjectKey(ref) !in Values(table) ==> SubjectAt(table, ref) == Err(NotFound)
    ensures SubjectKey(ref) in Values(table) ==>
              var value := Values(table)[SubjectKey(ref)];
              SubjectAt(table, ref) == if value.SubjectValue? && value.subject.Ref() == ref then Ok(value.subject) else Err(Corrupt)
  {
  }

  lemma CallEffect(table: KeyTable, op: Op)
    requires Integrity(Values(table)) && op.Mutation() && ReplyOn(table, op).Ok?
    ensures var snap := ReadNow(table, op, ModelsOf(op));
            Ready(op, snap, Values(table)) && After(op, snap, Values(table), Values(TableAfter(table, op)))
  {
    var snap := ReadNow(table, op, ModelsOf(op));
    ReadsShow(table, op);
    ModelsOfOrder(op);
    ValuesCommitted(table, OutcomeOn(table, op).batch);
    AcceptedReady(op, ModelsOf(op), snap, Values(table));
    MutationAfter(op, snap, Values(table));
  }

  // The atomic step that interleaved commits refine is the method itself.
  lemma AloneIsTheMethod(store: History<Key, Value>, op: Op)
    ensures Visible(RunAlone(store, op, ModelsOf(op))) == TableAfter(Visible(store), op)
  {
    var outcome := OutcomeOn(Visible(store), op);
    if outcome.Commit? {
      ModelsOfOrder(op);
      ReadNowMatches(Visible(store), op, ModelsOf(op));
      VisibleAdvanced(store, outcome.batch);
    }
  }

  // ---- After any sequence of calls ----

  ghost function AfterAll(ops: seq<Op>): KeyTable {
    if ops == [] then map[] else TableAfter(AfterAll(ops[..|ops| - 1]), ops[|ops| - 1])
  }

  lemma {:induction false} CallsKeepIntegrity(ops: seq<Op>)
    ensures Integrity(Values(AfterAll(ops))) && Listed(Values(AfterAll(ops)))
  {
    if ops != [] {
      CallsKeepIntegrity(ops[..|ops| - 1]);
      CallKeepsIntegrity(AfterAll(ops[..|ops| - 1]), ops[|ops| - 1]);
    }
  }

  // After any sequence of accepted and rejected calls every list is exact and a hash
  // finds a key exactly when that key is stored with it.
  lemma CallsKeepQueriesExact(ops: seq<Op>, ref: Ref, hash: string, key: VirtualKey)
    ensures var table := AfterAll(ops);
            && ListKeys(table, GlobalIndex).Ok? && OncePerID(ListKeys(table, GlobalIndex).value)
            && (key in ListKeys(table, GlobalIndex).value <==> KeyAt(table, key.id) == Ok(key))
            && ListKeys(table, IndexKey(ref)).Ok? && OncePerID(ListKeys(table, IndexKey(ref)).value)
            && (key in ListKeys(table, IndexKey(ref)).value <==> KeyAt(table, key.id) == Ok(key) && (match ref
                                                                                                           case UserRef(id) => key.userID == id
                                                                                                           case ModelRef(id) => id in key.modelIDs))
            && (KeyByHash(table, hash) == Ok(key) <==> KeyAt(table, key.id) == Ok(key) && key.keyHash == hash)
  {
    var table := AfterAll(ops);
    CallsKeepIntegrity(ops);
    ListsEveryKey(table);
    ListsKeysNaming(table, ref);
    HashFindsStored(table, hash, key);
    KeyAtStored(table, key.id);
  }
}
