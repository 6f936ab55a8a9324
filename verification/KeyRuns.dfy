// Safety over whole runs of the virtual-key store's replicas.
module KeyRuns {
  import opened Options
  import opened Domain
  import opened EtagStore
  import opened KeyStore
  import opened KeyIntegrity
  import opened KeyReads
  import opened KeyProtocol
  import opened KeyCommit

  ghost predicate Moves(s: System, s': System) {
    exists pid, action :: Step(s, s', pid, action)
  }

  ghost predicate MovesAt(trace: seq<System>, i: nat)
    requires i + 1 < |trace|
  {
    Moves(trace[i], trace[i + 1])
  }

  ghost predicate Run(trace: seq<System>) {
    |trace| > 0 && Init(trace[0]) && forall i: nat :: i + 1 < |trace| ==> MovesAt(trace, i)
  }

  lemma {:induction false} RunKeepsInv(trace: seq<System>, i: nat)
    requires Run(trace) && i < |trace|
    ensures Inv(trace[i])
  {
    if i > 0 {
      RunKeepsInv(trace, i - 1);
      assert MovesAt(trace, i - 1);
      var pid, action :| Step(trace[i - 1], trace[i], pid, action);
      StepKeepsInv(trace[i - 1], trace[i], pid, action);
    }
  }

  ghost predicate Tombstone(data: Data, ref: Ref) {
    SubjectKey(ref) in data && data[SubjectKey(ref)].SubjectValue? && data[SubjectKey(ref)].subject.deleted
  }

  // In every state of every run no stored key references a missing or deleted subject,
  // every index lists exactly the keys that reference its subject, every hash resolves
  // to the key that has it, and nothing is left under a tombstone.
  lemma RunsKeepReferences(trace: seq<System>, i: nat)
    requires Run(trace) && i < |trace|
    ensures var data := Held(trace[i]);
            && (forall id, ref :: References(data, id, ref) ==> LiveSubject(data, ref))
            && (forall ref, id :: id in IDs(data, IndexKey(ref)) <==> References(data, id, ref))
            && (forall id :: Stores(data, id) ==> HashLookup(Stored(data, id).keyHash) in data
                                                  && data[HashLookup(Stored(data, id).keyHash)] == LookupValue(id))
            && (forall ref :: Tombstone(data, ref) ==> IDs(data, IndexKey(ref)) == [])
  {
    RunKeepsInv(trace, i);
    TombstonesAreBare(Held(trace[i]));
  }

  lemma TombstonesAreBare(data: Data)
    requires Integrity(data)
    ensures forall ref :: Tombstone(data, ref) ==> IDs(data, IndexKey(ref)) == []
  {
    forall ref | IDs(data, IndexKey(ref)) != []
      ensures !Tombstone(data, ref)
    {
      var id := IDs(data, IndexKey(ref))[0];
      assert References(data, id, ref) && LiveSubject(data, ref);
    }
  }

  // ---- The guarded write: a fence that found no subject ----

  // Without the mutex such a fence keeps the references sound exactly when no key
  // references the subject at the moment it commits.
  lemma FirstFenceExact(s: System, p: Process)
    requires Inv(s) && ProcessOk(s, p) && Commits(s, p) && p.op.FenceSubject? && FirstWrite(p)
    ensures Integrity(Overlay(Held(s), BatchBy(p))) <==> IDs(Held(s), IndexKey(p.op.subject.Ref())) == []
  {
    var ref, data := p.op.subject.Ref(), Held(s);
    var after := Overlay(data, BatchBy(p));
    SubjectDecision(p.op, p.models, p.snap);
    if IDs(data, IndexKey(ref)) == [] {
      SubjectPutKeepsIntegrity(data, ref, BatchBy(p), p.op.subject);
    } else {
      var id := IDs(data, IndexKey(ref))[0];
      assert References(data, id, ref) && References(after, id, ref);
      assert !LiveSubject(after, ref);
    }
  }

  // ---- Subjects only advance ----

  ghost predicate Advances(before: Data, after: Data, ref: Ref) {
    SubjectKey(ref) in before && before[SubjectKey(ref)].SubjectValue? ==>
      && SubjectKey(ref) in after && after[SubjectKey(ref)].SubjectValue?
      && var old_, new_ := before[SubjectKey(ref)].subject, after[SubjectKey(ref)].subject;
         && old_.revision <= new_.revision
         && (old_.deleted ==> new_.deleted)
         && (old_.revision == new_.revision ==> old_ == new_)
         && old_.Ref() == new_.Ref() && (old_.ModelSubject? ==> old_.alias == new_.alias)
  }

  // Under the mutex a subject's first write finds the store as it read it.
  ghost predicate FirstWritesAlone(s: System, pid: nat, action: Action) {
    action.DoFinish? && pid in s.processes && FirstWrite(s.processes[pid]) ==> Undisturbed(s, s.processes[pid])
  }

  lemma StepAdvancesSubjects(s: System, s': System, pid: nat, action: Action, ref: Ref)
    requires Inv(s) && Step(s, s', pid, action) && FirstWritesAlone(s, pid, action)
    ensures Advances(Held(s), Held(s'), ref)
  {
    if action.DoFinish? && Commits(s, s.processes[pid]) {
      var p := s.processes[pid];
      VisibleAdvanced(s.store, BatchBy(p));
      if p.op.Mutation() {
        CommitShows(s, p);
        AcceptedReady(p.op, p.models, p.snap, Held(s));
        MutationAfter(p.op, p.snap, Held(s));
        SubjectsAfter(p.op, p.snap, Held(s), Held(s'), ref);
      } else {
        SubjectCommitAdvances(s, p, ref);
      }
    }
  }

  lemma SubjectCommitAdvances(s: System, p: Process, ref: Ref)
    requires Inv(s) && ProcessOk(s, p) && Commits(s, p) && Guarded(s, p) && !p.op.Mutation()
    requires FirstWrite(p) ==> Undisturbed(s, p)
    ensures Advances(Held(s), Overlay(Held(s), BatchBy(p)), ref)
  {
    var key := SubjectKey(p.op.subject.Ref());
    SubjectDecision(p.op, p.models, p.snap);
    assert key in Reads(p);
    if p.snap[key].Present? {
      assert Matches(Visible(s.store), key, BatchBy(p)[key].expected);
      CurrentVersion(s, p, key, BatchBy(p)[key].expected);
    }
    assert ShowsAt(p.snap, Held(s), key);
  }

  ghost predicate MovesSerialised(s: System, s': System) {
    exists pid, action :: Step(s, s', pid, action) && FirstWritesAlone(s, pid, action)
  }

  ghost predicate SerialisedAt(trace: seq<System>, i: nat)
    requires i + 1 < |trace|
  {
    MovesSerialised(trace[i], trace[i + 1])
  }

  ghost predicate SerialisedRun(trace: seq<System>) {
    Run(trace) && forall i: nat :: i + 1 < |trace| ==> SerialisedAt(trace, i)
  }

  lemma AdvancesTransitive(first: Data, second: Data, third: Data, ref: Ref)
    requires Advances(first, second, ref) && Advances(second, third, ref)
    ensures Advances(first, third, ref)
    ensures Tombstone(first, ref) ==> Tombstone(third, ref)
  {
  }

  // Over any stretch of a run whose first subject writes are serialised, revisions never
  // fall, a tombstone is never undone, and its index stays empty from then on.
  lemma {:induction false} RunsAdvanceSubjects(trace: seq<System>, i: nat, j: nat, ref: Ref)
    requires SerialisedRun(trace) && i <= j < |trace|
    ensures Advances(Held(trace[i]), Held(trace[j]), ref)
    ensures Tombstone(Held(trace[i]), ref) ==> Tombstone(Held(trace[j]), ref) && IDs(Held(trace[j]), IndexKey(ref)) == []
    decreases j - i
  {
    RunKeepsInv(trace, j);
    TombstonesAreBare(Held(trace[j]));
    if i < j {
      RunsAdvanceSubjects(trace, i, j - 1, ref);
      RunKeepsInv(trace, j - 1);
      SerialisedMove(trace, j - 1, ref);
      AdvancesTransitive(Held(trace[i]), Held(trace[j - 1]), Held(trace[j]), ref);
    }
  }

  lemma SerialisedMove(trace: seq<System>, i: nat, ref: Ref)
    requires SerialisedRun(trace) && i + 1 < |trace| && Inv(trace[i])
    ensures Advances(Held(trace[i]), Held(trace[i + 1]), ref)
  {
    assert SerialisedAt(trace, i);
    var pid, action :| Step(trace[i], trace[i + 1], pid, action) && FirstWritesAlone(trace[i], pid, action);
    StepAdvancesSubjects(trace[i], trace[i + 1], pid, action, ref);
  }

  // ---- The collection index ----

  // A delete has read its entity first, so it finds the collection index present.
  ghost predicate GlobalInv(s: System) {
    && Listed(Held(s))
    && (forall pid <- s.processes, id :: SawKey(s.processes[pid], id) ==> GlobalIndex in s.store)
    && (forall pid <- s.processes, id :: SawKey(s.processes[pid], id) && GlobalIndex in s.processes[pid].snap ==>
                                           s.processes[pid].snap[GlobalIndex].Present?)
  }

  // A create that found no collection index while keys are now stored.
  ghost predicate LosesIndex(s: System, pid: nat, action: Action) {
    && action.DoFinish? && pid in s.processes && Commits(s, s.processes[pid])
    && s.processes[pid].op.CreateKey?
    && GlobalIndex in s.processes[pid].snap && s.processes[pid].snap[GlobalIndex].Absent?
    && IDs(Held(s), GlobalIndex) != []
  }

  lemma GlobalRead(s: System, s': System, pid: nat)
    requires Inv(s) && GlobalInv(s) && Read(s, s', pid)
    ensures GlobalInv(s')
  {
    var p, p' := s.processes[pid], s'.processes[pid];
    ReadKeepsProgress(s, p);
    forall id | SawKey(p', id)
      ensures GlobalIndex in s.store
      ensures GlobalIndex in p'.snap ==> p'.snap[GlobalIndex].Present?
    {
      if Reads(p)[p.next] == EntityKey(id) {
        assert Stores(Held(s), id) && id in IDs(Held(s), GlobalIndex);
        EntityReadFirst(p, id);
        assert Reads(p)[..0] == [];
      } else {
        assert SawKey(p, id);
      }
    }
  }

  // A mutation reads one entity, before anything else.
  lemma EntityReadFirst(p: Process, id: ID)
    requires Progress(p) && p.next < |Reads(p)| && Reads(p)[p.next] == EntityKey(id)
    ensures p.next == 0
  {
    if p.op.Mutation() {
      MutationReads(p.op, p.models);
      assert Reads(p)[p.next] in Reads(p);
      assert Writes(p.op, EntityKey(id));
      assert Reads(p)[0] == EntityKey(id);
    }
  }

  lemma GlobalCommit(s: System, p: Process)
    requires Inv(s) && ProcessOk(s, p) && Commits(s, p) && Guarded(s, p) && p.op.Mutation() && Listed(Held(s))
    requires !p.op.CreateKey? && GlobalIndex in p.snap ==> p.snap[GlobalIndex].Present?
    ensures Listed(Overlay(Held(s), BatchBy(p))) <==>
            !(p.op.CreateKey? && p.snap[GlobalIndex].Absent? && IDs(Held(s), GlobalIndex) != [])
  {
    CommitShows(s, p);
    AcceptedReady(p.op, p.models, p.snap, Held(s));
    assert Writes(p.op, GlobalIndex) <==> !p.op.ReplaceKey?;
    assert Reads(p)[..p.next] == Reads(p);
    MutationReads(p.op, p.models);
    if p.op.ReplaceKey? {
      assert GlobalIndex !in p.snap;
      MutationKeepsListed(p.op, p.models, p.snap, Held(s));
    } else if p.snap[GlobalIndex].Present? {
      assert GlobalIndex in BatchBy(p) && Matches(Visible(s.store), GlobalIndex, BatchBy(p)[GlobalIndex].expected);
      CurrentVersion(s, p, GlobalIndex, BatchBy(p)[GlobalIndex].expected);
      MutationKeepsListed(p.op, p.models, p.snap, Held(s));
    } else {
      FirstIndex(s, p);
    }
  }

  lemma FirstIndex(s: System, p: Process)
    requires p.op.CreateKey? && Complete(p) && Ready(p.op, p.snap, Held(s)) && Listed(Held(s))
    requires Decide(p.op, p.models, p.snap).Commit? && GlobalIndex in p.snap && p.snap[GlobalIndex].Absent?
    ensures Listed(Overlay(Held(s), BatchBy(p))) <==> IDs(Held(s), GlobalIndex) == []
  {
    var data, after := Held(s), Overlay(Held(s), BatchBy(p));
    MutationAfter(p.op, p.snap, data);
    assert Writes(p.op, GlobalIndex);
    assert IDs(after, GlobalIndex) == [p.op.key.id];
    forall id
      ensures Stores(after, id) <==> id in IDs(data, GlobalIndex) || id == p.op.key.id
    {
      EntitiesAfter(p.op, p.snap, data, after, id);
    }
    if IDs(data, GlobalIndex) != [] {
      var lost := IDs(data, GlobalIndex)[0];
      assert Stores(data, lost) && lost != p.op.key.id;
      assert Stores(after, lost);
    }
  }

  lemma DeleteSawKey(p: Process)
    requires Complete(p) && p.op.Mutation() && !p.op.CreateKey? && Decide(p.op, p.models, p.snap).Commit?
    ensures SawKey(p, p.op.KeyID())
  {
    assert EntityKey(p.op.KeyID()) in Reads(p);
  }

  lemma FinishKeepsGlobal(s: System, s': System, pid: nat)
    requires Inv(s) && GlobalInv(s) && Finish(s, s', pid) && Commits(s, s.processes[pid])
    ensures Listed(Held(s')) <==> !LosesIndex(s, pid, DoFinish)
  {
    var p := s.processes[pid];
    VisibleAdvanced(s.store, BatchBy(p));
    if p.op.Mutation() {
      if !p.op.CreateKey? {
        DeleteSawKey(p);
      } else {
        assert GlobalIndex in [GlobalIndex] && GlobalIndex in Reads(p);
      }
      GlobalCommit(s, p);
    } else {
      SubjectDecision(p.op, p.models, p.snap);
      SubjectKeepsListed(Held(s), BatchBy(p), p.op.subject.Ref());
    }
  }

  lemma SubjectKeepsListed(data: Data, batch: Batch<Key, Value>, ref: Ref)
    requires batch.Keys == {SubjectKey(ref)} && Listed(data)
    ensures Listed(Overlay(data, batch))
  {
    var after := Overlay(data, batch);
    assert forall id :: Stores(after, id) == Stores(data, id);
    assert IDs(after, GlobalIndex) == IDs(data, GlobalIndex);
  }

  lemma GlobalStays(s: System, s': System, p: Process)
    requires Inv(s) && ProcessOk(s, p) && Commits(s, p) && Guarded(s, p)
    requires s'.store == Advanced(s.store, BatchBy(p))
    ensures GlobalIndex in s.store ==> GlobalIndex in s'.store
  {
    CommitEffect(s, p);
  }

  // Every step keeps the collection index exact, except exactly one kind: the commit of a
  // create that read the index as absent when keys are stored by now.
  lemma StepKeepsGlobal(s: System, s': System, pid: nat, action: Action)
    requires Inv(s) && GlobalInv(s) && Step(s, s', pid, action)
    ensures Listed(Held(s')) <==> !LosesIndex(s, pid, action)
    ensures !LosesIndex(s, pid, action) ==> GlobalInv(s')
  {
    match action
    case DoStart(_, _) =>
    case DoCrash =>
    case DoRead => GlobalRead(s, s', pid);
    case DoFinish =>
      if Commits(s, s.processes[pid]) {
        FinishKeepsGlobal(s, s', pid);
        GlobalStays(s, s', s.processes[pid]);
      }
  }

  ghost predicate MovesKeeping(s: System, s': System) {
    exists pid, action :: Step(s, s', pid, action) && !LosesIndex(s, pid, action)
  }

  ghost predicate KeepingAt(trace: seq<System>, i: nat)
    requires i + 1 < |trace|
  {
    MovesKeeping(trace[i], trace[i + 1])
  }

  // A run in which no create commits over an index it read as absent lists every key,
  // once, in every state.
  lemma {:induction false} RunsKeepList(trace: seq<System>, i: nat)
    requires Run(trace) && Listed(Held(trace[0])) && (forall k: nat :: k + 1 < |trace| ==> KeepingAt(trace, k)) && i < |trace|
    ensures GlobalInv(trace[i])
  {
    if i > 0 {
      RunsKeepList(trace, i - 1);
      RunKeepsInv(trace, i - 1);
      assert KeepingAt(trace, i - 1);
      var pid, action :| Step(trace[i - 1], trace[i], pid, action) && !LosesIndex(trace[i - 1], pid, action);
      StepKeepsGlobal(trace[i - 1], trace[i], pid, action);
    }
  }
}
