// Every committed operation has the effect of the whole method run alone at that moment.
module KeyRefinement {
  import opened Options
  import opened Domain
  import opened EtagStore
  import opened KeyStore
  import opened KeyIntegrity
  import opened KeyReads
  import opened KeyProtocol
  import opened KeyCommit

  // What the method would read if nothing else ran.
  ghost function ReadAlone(store: History<Key, Value>, op: Op, models: seq<ID>): (snap: Snapshot)
    ensures Covers(op, models, snap)
  {
    ReadNow(Visible(store), op, models)
  }

  // The store after all of the method's reads and its transaction happen at once.
  ghost function RunAlone(store: History<Key, Value>, op: Op, models: seq<ID>): History<Key, Value> {
    var outcome := Decide(op, models, ReadAlone(store, op, models));
    if outcome.Commit? && BatchMatches(Visible(store), outcome.batch) then Advanced(store, outcome.batch) else store
  }

  ghost predicate AgreeAt(left: History<Key, Value>, right: History<Key, Value>, key: Key) {
    (key in left <==> key in right) && (key in left ==> left[key] == right[key])
  }

  // Two snapshots with the same records, whatever their ETags.
  ghost predicate SameRecord(left: Snapshot, right: Snapshot, key: Key)
    requires key in left && key in right
  {
    (left[key].Present? <==> right[key].Present?) && (left[key].Present? ==> left[key].value == right[key].value)
  }

  ghost predicate SameRecords(op: Op, models: seq<ID>, left: Snapshot, right: Snapshot) {
    && Covers(op, models, left) && Covers(op, models, right)
    && (forall key <- ReadOrder(op, models) :: key == GlobalIndex || SameRecord(left, right, key))
    && (GlobalIndex in right ==> AsIndex(right[GlobalIndex]).Ok?)
  }

  lemma {:induction false} SameModels(models: seq<ID>, kept: seq<ID>, status: Status, left: Snapshot, right: Snapshot)
    requires forall id <- models :: SubjectKey(ModelRef(id)) in left && IndexKey(ModelRef(id)) in left
    requires forall id <- models :: SubjectKey(ModelRef(id)) in right && IndexKey(ModelRef(id)) in right
    requires forall id <- models :: SameRecord(left, right, SubjectKey(ModelRef(id))) && SameRecord(left, right, IndexKey(ModelRef(id)))
    ensures CheckModels(models, kept, status, left) == CheckModels(models, kept, status, right)
  {
    if models != [] {
      assert SameRecord(left, right, SubjectKey(ModelRef(models[0]))) && SameRecord(left, right, IndexKey(ModelRef(models[0])));
      SameModels(models[1..], kept, status, left, right);
    }
  }

  ghost predicate SameOwner(left: Snapshot, right: Snapshot, owner: Ref) {
    && SubjectKey(owner) in left && SubjectKey(owner) in right && SameRecord(left, right, SubjectKey(owner))
    && IndexKey(owner) in left && IndexKey(owner) in right && SameRecord(left, right, IndexKey(owner))
  }

  lemma SameOwners(op: Op, models: seq<ID>, left: Snapshot, right: Snapshot, owner: Ref)
    requires op.Mutation() && SameRecords(op, models, left, right) && owner.UserRef? && Involves(op, owner)
    ensures SameOwner(left, right, owner)
  {
    OwnersCover(op, models, left, owner);
    OwnersCover(op, models, right, owner);
    OwnerReadMembers(op);
    var owners := Owners(op);
    assert owner == owners[0] || owner == owners[1..][0];
    assert SubjectKey(owner) in ReadOrder(op, models);
    assert IndexKey(owner) in ReadOrder(op, models);
  }

  // A mutation accepted on one snapshot is accepted on any other with the same records.
  lemma SameCheck(op: Op, models: seq<ID>, left: Snapshot, right: Snapshot)
    requires op.Mutation() && SameRecords(op, models, left, right) && CheckMutation(op, models, left).Ok?
    ensures CheckMutation(op, models, right).Ok?
  {
    assert EntityKey(op.KeyID()) in ReadOrder(op, models) && SameRecord(left, right, EntityKey(op.KeyID()));
    if op.New().Some? {
      var hash := HashLookup(op.New().value.keyHash);
      assert hash in ReadOrder(op, models) && SameRecord(left, right, hash);
    }
    if op.Old().Some? {
      SameOwners(op, models, left, right, UserRef(op.Old().value.userID));
    }
    if op.New().Some? {
      SameOwners(op, models, left, right, UserRef(op.New().value.userID));
    }
    SameOwnerChecks(op, left, right);
    ModelReadsCover(op, models, left);
    ModelReadsCover(op, models, right);
    forall id <- models
      ensures SameRecord(left, right, SubjectKey(ModelRef(id))) && SameRecord(left, right, IndexKey(ModelRef(id)))
    {
      ModelReadsMembers(models);
      assert SubjectKey(ModelRef(id)) in ReadOrder(op, models) && IndexKey(ModelRef(id)) in ReadOrder(op, models);
    }
    SameModels(models, ModelIDs(op.New()), op.KeyStatus(), left, right);
    if !op.ReplaceKey? {
      assert GlobalIndex in [GlobalIndex];
      assert GlobalIndex in ReadOrder(op, models);
    }
  }

  lemma SameOwnerChecks(op: Op, left: Snapshot, right: Snapshot)
    requires op.Mutation()
    requires op.Old().Some? ==> SameOwner(left, right, UserRef(op.Old().value.userID))
    requires op.New().Some? ==> SameOwner(left, right, UserRef(op.New().value.userID))
    ensures CheckOwners(op, left) == CheckOwners(op, right)
  {
  }

  // The collection index aside, the same records give the same writes.
  lemma SameWrites(op: Op, models: seq<ID>, left: Snapshot, right: Snapshot, key: Key)
    requires op.Mutation() && ModelOrder(op, models) && SameRecords(op, models, left, right)
    requires Writes(op, key) && (key == GlobalIndex && key in left && key in right ==> SameRecord(left, right, key))
    ensures WriteFor(op, left, key).Put? == WriteFor(op, right, key).Put?
    ensures WriteFor(op, left, key).Put? ==> WriteFor(op, left, key).value == WriteFor(op, right, key).value
  {
    if !key.HashLookup? {
      ReadsWhatItWrites(op, models, left, key);
      ReadsWhatItWrites(op, models, right, key);
      WritesAreRead(op, models, key);
      assert SameRecord(left, right, key);
    }
  }

  lemma WritesAreRead(op: Op, models: seq<ID>, key: Key)
    requires op.Mutation() && ModelOrder(op, models) && Writes(op, key) && !key.HashLookup?
    ensures key in ReadOrder(op, models)
  {
    ReadsWhatItWrites(op, models, map k | k in ReadOrder(op, models) :: Absent, key);
  }

  lemma ShownIsSame(s: System, p: Process)
    requires Inv(s) && ProcessOk(s, p) && p.op.Mutation() && Complete(p) && Shows(p.snap, Held(s))
    ensures SameRecords(p.op, p.models, p.snap, ReadAlone(s.store, p.op, p.models))
    ensures GlobalIndex in p.snap && ShowsGlobal(p.snap, Held(s)) ==>
              GlobalIndex in ReadAlone(s.store, p.op, p.models) && SameRecord(p.snap, ReadAlone(s.store, p.op, p.models), GlobalIndex)
  {
    assert Typed(Held(s));
    hide Inv;
    hide Integrity;
    hide ReadOrder;
    var alone := ReadAlone(s.store, p.op, p.models);
    assert Reads(p)[..p.next] == Reads(p);
    assert GlobalIndex in Held(s) ==> WellTyped(GlobalIndex, Held(s)[GlobalIndex]);
    forall key <- Reads(p) | key != GlobalIndex
      ensures SameRecord(p.snap, alone, key)
    {
      assert ShowsAt(p.snap, Held(s), key);
    }
  }

  // The refinement: a mutation's commit, however its reads were interleaved with other
  // replicas, agrees with running the whole method alone at that step on every record but
  // the collection index, and on that too if the index read was current.
  lemma CommitRefinesAlone(s: System, s': System, pid: nat)
    requires Inv(s) && Finish(s, s', pid) && s.processes[pid].op.Mutation() && Commits(s, s.processes[pid])
    ensures Decide(s.processes[pid].op, s.processes[pid].models, ReadAlone(s.store, s.processes[pid].op, s.processes[pid].models)).Commit?
    ensures forall key :: key != GlobalIndex || ShowsGlobal(s.processes[pid].snap, Held(s)) ==>
                            AgreeAt(s'.store, RunAlone(s.store, s.processes[pid].op, s.processes[pid].models), key)
  {
    var p := s.processes[pid];
    var alone := ReadAlone(s.store, p.op, p.models);
    CommitShows(s, p);
    ShownIsSame(s, p);
    SameCheck(p.op, p.models, p.snap, alone);
    ReadNowMatches(Visible(s.store), p.op, p.models);
    forall key | key != GlobalIndex || ShowsGlobal(p.snap, Held(s))
      ensures AgreeAt(s'.store, RunAlone(s.store, p.op, p.models), key)
    {
      if Writes(p.op, key) {
        if key == GlobalIndex {
          ReadsWhatItWrites(p.op, p.models, p.snap, key);
        }
        SameWrites(p.op, p.models, p.snap, alone, key);
      }
    }
  }
}
