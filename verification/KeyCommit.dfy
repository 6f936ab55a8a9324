// What a committed transaction does to the processes still running.
module KeyCommit {
  import opened Options
  import opened Domain
  import opened EtagStore
  import opened KeyStore
  import opened KeyIntegrity
  import opened KeyReads
  import opened KeyProtocol

  ghost function BatchBy(p: Process): Batch<Key, Value>
    requires Complete(p) && Decide(p.op, p.models, p.snap).Commit?
  {
    Decide(p.op, p.models, p.snap).batch
  }

  // A batch removes only entities and lookups, rewrites no index without its subject,
  // and brings no entity into being but a created key.
  ghost predicate Shaped(s: System, p: Process, batch: Batch<Key, Value>) {
    && (forall key <- batch :: batch[key].Put? || key.EntityKey? || key.HashLookup?)
    && (forall ref :: IndexKey(ref) in batch ==> SubjectKey(ref) in batch)
    && (forall id :: EntityKey(id) in batch && batch[EntityKey(id)].Put? ==>
                       EntityKey(id) in s.store || (p.op.CreateKey? && id == p.op.key.id))
  }

  // The entities after the commit, seen from the operation that made it.
  ghost predicate EntitiesBy(s: System, p: Process, after: Data) {
    forall id :: Stores(after, id) ==>
      || (Stores(Held(s), id) && Stored(after, id) == Stored(Held(s), id))
      || (p.op.CreateKey? && id == p.op.key.id && Stored(after, id) == p.op.key)
      || (p.op.ReplaceKey? && Stores(Held(s), id) && Stored(Held(s), id) == p.op.previous && Stored(after, id) == p.op.key)
  }

  lemma CommitEffect(s: System, p: Process)
    requires Inv(s) && ProcessOk(s, p) && Commits(s, p) && Guarded(s, p)
    ensures Integrity(Overlay(Held(s), BatchBy(p)))
    ensures Shaped(s, p, BatchBy(p)) && EntitiesBy(s, p, Overlay(Held(s), BatchBy(p)))
  {
    if p.op.Mutation() {
      CommitShows(s, p);
      MutationKeepsIntegrity(p.op, p.models, p.snap, Held(s));
      AcceptedReady(p.op, p.models, p.snap, Held(s));
      MutationShape(s, p, BatchBy(p), Overlay(Held(s), BatchBy(p)));
    } else {
      SubjectCommit(s, p);
    }
  }

  lemma MutationShape(s: System, p: Process, batch: Batch<Key, Value>, after: Data)
    requires Ready(p.op, p.snap, Held(s))
    requires batch == MutationBatch(p.op, p.snap) && after == Overlay(Held(s), batch)
    ensures Shaped(s, p, batch) && EntitiesBy(s, p, after)
  {
    MutationAfter(p.op, p.snap, Held(s));
    forall ref | IndexKey(ref) in batch
      ensures SubjectKey(ref) in batch
    {
      assert Writes(p.op, IndexKey(ref)) && Writes(p.op, SubjectKey(ref));
    }
    forall id | Stores(after, id)
      ensures || (Stores(Held(s), id) && Stored(after, id) == Stored(Held(s), id))
              || (p.op.CreateKey? && id == p.op.key.id && Stored(after, id) == p.op.key)
              || (p.op.ReplaceKey? && Stores(Held(s), id) && Stored(Held(s), id) == p.op.previous && Stored(after, id) == p.op.key)
    {
      EntitiesAfter(p.op, p.snap, Held(s), after, id);
    }
  }

  // A fence that commits finds the index of its subject empty at that moment.
  lemma FenceFindsNoKeys(s: System, p: Process)
    requires Inv(s) && ProcessOk(s, p) && Commits(s, p) && Guarded(s, p) && p.op.FenceSubject?
    ensures IDs(Held(s), IndexKey(p.op.subject.Ref())) == []
  {
    var ref := p.op.subject.Ref();
    var key, index := SubjectKey(ref), IndexKey(ref);
    SubjectDecision(p.op, p.models, p.snap);
    assert key in Reads(p) && index in Reads(p);
    if p.snap[key].Present? {
      assert Matches(Visible(s.store), key, BatchBy(p)[key].expected);
      CurrentVersion(s, p, key, BatchBy(p)[key].expected);
      assert SubjectGuardsIndex(s.store, p, ref);
    }
    assert ShowsAt(p.snap, Held(s), index);
  }

  lemma SubjectCommit(s: System, p: Process)
    requires Inv(s) && ProcessOk(s, p) && Commits(s, p) && Guarded(s, p) && !p.op.Mutation()
    ensures Integrity(Overlay(Held(s), BatchBy(p)))
    ensures Shaped(s, p, BatchBy(p)) && EntitiesBy(s, p, Overlay(Held(s), BatchBy(p)))
  {
    SubjectDecision(p.op, p.models, p.snap);
    if p.op.FenceSubject? {
      FenceFindsNoKeys(s, p);
    }
    SubjectPutKeepsIntegrity(Held(s), p.op.subject.Ref(), BatchBy(p), p.op.subject);
    SubjectShape(s, p, BatchBy(p), Overlay(Held(s), BatchBy(p)), p.op.subject.Ref());
  }

  lemma SubjectShape(s: System, p: Process, batch: Batch<Key, Value>, after: Data, ref: Ref)
    requires batch.Keys == {SubjectKey(ref)} && batch[SubjectKey(ref)].Put? && after == Overlay(Held(s), batch)
    ensures Shaped(s, p, batch) && EntitiesBy(s, p, after)
  {
  }

  lemma TracksAfter(s: System, p: Process, q: Process, key: Key)
    requires ProcessOk(s, q) && Complete(p) && Decide(p.op, p.models, p.snap).Commit?
    requires Shaped(s, p, BatchBy(p)) && Apart(p, q) && key in q.snap && !key.HashLookup?
    ensures Tracks(Advanced(s.store, BatchBy(p)), q, key)
  {
    assert Tracks(s.store, q, key);
    if key.EntityKey? && q.snap[key].Present? {
      assert WellTyped(key, q.snap[key].value);
      assert SawKey(q, key.id);
    }
  }

  lemma GuardsAfter(s: System, p: Process, q: Process, ref: Ref)
    requires ProcessOk(s, q) && Complete(p) && Decide(p.op, p.models, p.snap).Commit? && Shaped(s, p, BatchBy(p))
    ensures SubjectGuardsIndex(Advanced(s.store, BatchBy(p)), q, ref)
  {
    assert SubjectGuardsIndex(s.store, q, ref);
    if IndexKey(ref) in q.snap {
      assert Tracks(s.store, q, SubjectKey(ref));
    }
  }

  lemma LookupAfter(s: System, p: Process, q: Process)
    requires ProcessOk(s, q) && Complete(p) && Decide(p.op, p.models, p.snap).Commit? && Shaped(s, p, BatchBy(p)) && Apart(p, q)
    ensures EntityGuardsLookup(Advanced(s.store, BatchBy(p)), q)
  {
    if q.op.ReplaceKey? && !SetsHash(q.op) && HashLookup(q.op.key.keyHash) in q.snap {
      var entity := EntityKey(q.op.key.id);
      assert Tracks(s.store, q, entity);
      if q.snap[entity].Present? && q.snap[entity].value == KeyValue(q.op.previous) {
        assert SawKey(q, q.op.key.id);
      }
    }
  }

  lemma NamesAfter(s: System, s': System, p: Process, q: Process)
    requires ProcessOk(s, q) && Complete(p) && Decide(p.op, p.models, p.snap).Commit?
    requires Shaped(s, p, BatchBy(p)) && EntitiesBy(s, p, Overlay(Held(s), BatchBy(p))) && Apart(p, q)
    requires s'.store == Advanced(s.store, BatchBy(p)) && s'.usedIDs == s.usedIDs && s'.usedHashes == s.usedHashes
    ensures OwnNames(s', q)
  {
    VisibleAdvanced(s.store, BatchBy(p));
    if SetsHash(q.op) {
      forall id | Stores(Held(s'), id)
        ensures Stored(Held(s'), id).keyHash != q.op.key.keyHash
      {
        assert Stores(Held(s), id) ==> Stored(Held(s), id).keyHash != q.op.key.keyHash;
      }
    }
  }

  lemma CommitKeepsOther(s: System, s': System, p: Process, q: Process)
    requires ProcessOk(s, q) && Complete(p) && Decide(p.op, p.models, p.snap).Commit?
    requires Shaped(s, p, BatchBy(p)) && EntitiesBy(s, p, Overlay(Held(s), BatchBy(p))) && Apart(p, q)
    requires s'.store == Advanced(s.store, BatchBy(p)) && s'.usedIDs == s.usedIDs && s'.usedHashes == s.usedHashes
    ensures ProcessOk(s', q)
  {
    NamesAfter(s, s', p, q);
    LookupAfter(s, p, q);
    forall key <- q.snap | !key.HashLookup?
      ensures Tracks(s'.store, q, key)
    {
      TracksAfter(s, p, q, key);
    }
    forall ref
      ensures SubjectGuardsIndex(s'.store, q, ref)
    {
      GuardsAfter(s, p, q, ref);
    }
  }

  lemma FinishKeepsInv(s: System, s': System, pid: nat)
    requires Inv(s) && Finish(s, s', pid)
    ensures Inv(s')
  {
    var p := s.processes[pid];
    assert ProcessOk(s, p);
    if Commits(s, p) {
      CommitEffect(s, p);
      VisibleAdvanced(s.store, BatchBy(p));
      forall other <- s'.processes
        ensures ProcessOk(s', s'.processes[other])
      {
        assert Apart(p, s.processes[other]);
        CommitKeepsOther(s, s', p, s.processes[other]);
      }
      forall id | Stores(Held(s'), id)
        ensures id in s'.usedIDs && Stored(Held(s'), id).keyHash in s'.usedHashes
      {
        assert Stores(Held(s), id) ==> id in s.usedIDs && Stored(Held(s), id).keyHash in s.usedHashes;
      }
    } else {
      forall other <- s'.processes
        ensures ProcessOk(s', s'.processes[other])
      {
        assert ProcessOk(s, s.processes[other]);
      }
    }
    forall first <- s'.processes, second <- s'.processes | first != second
      ensures Apart(s'.processes[first], s'.processes[second])
    {
      assert Apart(s.processes[first], s.processes[second]);
    }
  }

  lemma CrashKeepsInv(s: System, s': System, pid: nat)
    requires Inv(s) && Crash(s, s', pid)
    ensures Inv(s')
  {
    forall other <- s'.processes
      ensures ProcessOk(s', s'.processes[other])
    {
      assert ProcessOk(s, s.processes[other]);
    }
    forall first <- s'.processes, second <- s'.processes | first != second
      ensures Apart(s'.processes[first], s'.processes[second])
    {
      assert Apart(s.processes[first], s.processes[second]);
    }
  }

  lemma StepKeepsInv(s: System, s': System, pid: nat, action: Action)
    requires Inv(s) && Step(s, s', pid, action)
    ensures Inv(s')
  {
    match action
    case DoStart(op, models) => StartKeepsInv(s, s', pid, op, models);
    case DoRead => ReadKeepsInv(s, s', pid);
    case DoFinish => FinishKeepsInv(s, s', pid);
    case DoCrash => CrashKeepsInv(s, s', pid);
  }
}
