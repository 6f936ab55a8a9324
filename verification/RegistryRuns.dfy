// Safety over whole runs of the provider store, and what a commit amounts to.
module RegistryRuns {
  import opened Options
  import opened Domain
  import opened EtagStore
  import opened Registry
  import opened RegistryIntegrity
  import opened RegistryProtocol

  ghost function BatchBy(p: Process): Batch<Key, Value>
    requires Complete(p) && Decide(p.op, p.snap).Commit?
  {
    Decide(p.op, p.snap).batch
  }

  // The commit's effect on the store, from what the process saw.
  ghost predicate Effect(s: System, p: Process, after: History<Key, Value>) {
    && Ready(p.op, p.snap, Held(s)) && Integrity(Contents(after))
    && after == Advanced(s.store, WriteBatch(p.op, p.snap))
    && RegistryIntegrity.After(p.op, p.snap, Held(s), Contents(after))
  }

  lemma CommitEffect(s: System, p: Process)
    requires Inv(s) && (ProviderSide(s, p) || ModelSide(s, p)) && Commits(s, p) && WithinWindow(s, p)
    ensures Effect(s, p, Advanced(s.store, BatchBy(p))) && Shows(p.snap, Held(s))
  {
    if ProviderSide(s, p) {
      ProviderCommitShows(s, p);
    } else {
      ModelCommitShows(s, p);
    }
    VisibleAdvanced(s.store, BatchBy(p));
    AcceptedReady(p.op, p.snap, Held(s));
    WriteKeepsIntegrity(p.op, p.snap, Held(s));
    WriteAfter(p.op, p.snap, Held(s));
  }

  // ---- What a provider commit leaves a running model operation ----

  lemma ModelLookups(p: Process, key: Key)
    requires ModelLock.Covers(p.op) && ReadSoFar(p) && key in p.snap && key.LookupKey?
    ensures key.kind == ModelAlias
  {
    assert key in ReadOrder(p.op)[..p.next];
    ReadsKnown(p.op, key);
  }

  lemma ProviderWrites(op: Op, snap: Snapshot, key: Key)
    requires ProviderLock.Covers(op) && Writes(op, snap, key)
    ensures Shared(key) || (key.LookupKey? && key.kind != ModelAlias)
    ensures WriteFor(op, snap, key).Put? || key.LookupKey?
  {
  }

  lemma ProviderCommitKeepsModel(s: System, p: Process, q: Process, after: History<Key, Value>, key: Key)
    requires ProviderLock.Covers(p.op) && Effect(s, p, after) && ModelSide(s, q) && key in q.snap
    requires p.op.Create? ==> !Found(q.snap, p.op.Target())
    ensures !Shared(key) ==> ShowsAt(q.snap, Contents(after), key)
    ensures Shared(key) ==> Tracks(after, q, key) && (q.snap[key].Present? ==> key in after)
  {
    if Writes(p.op, p.snap, key) {
      ProviderWrites(p.op, p.snap, key);
      if key.LookupKey? {
        ModelLookups(q, key);
      }
      assert Tracks(s.store, q, key);
    } else if Shared(key) {
      assert Tracks(s.store, q, key);
    } else {
      assert ShowsAt(q.snap, Held(s), key);
    }
  }

  // ---- What a model commit leaves a running provider operation ----

  lemma ModelWrites(op: Op, snap: Snapshot, key: Key)
    requires ModelLock.Covers(op) && Writes(op, snap, key)
    ensures key.EntityKey? && key.collection == Providers ==>
              Touches(op, snap, key) || (key == op.Target() && op.Delete? && WriteFor(op, snap, key).Remove?)
    ensures key.LookupKey? && key.kind != ModelAlias ==> op.Delete? && op.previous.Provider? && WriteFor(op, snap, key).Remove?
    ensures key == CollectionIndex(Providers) ==> op.Delete? && op.previous.Provider? && WriteFor(op, snap, key).Put?
  {
  }

  lemma ModelCommitKeepsTracks(s: System, p: Process, q: Process, after: History<Key, Value>, key: Key)
    requires ModelLock.Covers(p.op) && Ready(p.op, p.snap, Held(s)) && Integrity(Held(s)) && Shared(key)
    requires after == Advanced(s.store, WriteBatch(p.op, p.snap)) && key in q.snap && Tracks(s.store, q, key)
    ensures Tracks(after, q, key)
  {
    if Writes(p.op, p.snap, key) {
      ProviderStored(s, p, key);
    }
    TracksAfter(s.store, WriteBatch(p.op, p.snap), q, key);
  }

  // What a process tracks stays tracked when a batch writes no key that was missing.
  lemma TracksAfter(store: History<Key, Value>, batch: Batch<Key, Value>, q: Process, key: Key)
    requires key in q.snap && Tracks(store, q, key) && (key in batch ==> key in store)
    ensures Tracks(Advanced(store, batch), q, key)
  {
  }

  // A model operation writes a provider's record, or the providers' index, only where one is.
  lemma ProviderStored(s: System, p: Process, key: Key)
    requires ModelLock.Covers(p.op) && Ready(p.op, p.snap, Held(s)) && Integrity(Held(s))
    requires Shared(key) && Writes(p.op, p.snap, key)
    ensures key in s.store
  {
    ModelWrites(p.op, p.snap, key);
    if key.EntityKey? && Touches(p.op, p.snap, key) {
      assert ShowsAt(p.snap, Held(s), key);
    }
    if key == CollectionIndex(Providers) {
      assert p.op.ID() in IDs(Held(s), CollectionIndex(Providers));
    }
  }

  lemma ModelCommitKeepsLookup(s: System, p: Process, q: Process, after: History<Key, Value>, key: Key)
    requires ModelLock.Covers(p.op) && Effect(s, p, after) && Integrity(Held(s)) && ProviderSide(s, q) && key in q.snap && key.LookupKey?
    ensures LookupStands(after, q, key)
  {
    assert LookupStands(s.store, q, key);
    assert key in ReadOrder(q.op)[..q.next];
    ReadsKnown(q.op, key);
    LookupKinds(q.op.New().value, key);
    if Writes(p.op, p.snap, key) {
      ModelWrites(p.op, p.snap, key);
      LookupKinds(p.op.previous, key);
      assert Findable(Held(s), Providers, p.op.ID());
      assert Writes(p.op, p.snap, p.op.Target());
    }
    if q.op.Target() in after && q.op.Target() !in s.store {
      ProviderStored(s, p, q.op.Target());
    }
  }

  lemma ModelCommitKeepsProvider(s: System, s': System, p: Process, q: Process)
    requires ModelLock.Covers(p.op) && Effect(s, p, s'.store) && Integrity(Held(s)) && ProviderSide(s, q) && s'.used == s.used
    ensures ProviderSide(s', q)
  {
    forall key <- q.snap
      ensures Shared(key) ==> Tracks(s'.store, q, key)
      ensures key.LookupKey? ==> LookupStands(s'.store, q, key)
    {
      if Shared(key) {
        ModelCommitKeepsTracks(s, p, q, s'.store, key);
      }
      if key.LookupKey? {
        ModelCommitKeepsLookup(s, p, q, s'.store, key);
      }
    }
    var index := CollectionIndex(Providers);
    assert index in s'.store <==> index in s.store by {
      if Writes(p.op, p.snap, index) {
        ModelWrites(p.op, p.snap, index);
        ProviderStored(s, p, index);
      }
    }
    if q.op.Create? && q.op.Target() in s'.store {
      ProviderStored(s, p, q.op.Target());
    }
  }

  // ---- Steps keep the invariant ----

  lemma EntitiesUsed(s: System, p: Process, after: History<Key, Value>, key: Key)
    requires Effect(s, p, after) && (p.op.Create? ==> p.op.Target() in s.used)
    requires forall k :: k in s.store && k.EntityKey? ==> k in s.used
    requires key in after && key.EntityKey?
    ensures key in s.used
  {
    if Touches(p.op, p.snap, key) {
      assert ShowsAt(p.snap, Held(s), key);
    }
  }

  lemma FinishKeepsInv(s: System, s': System, lock: Lock)
    requires Inv(s) && Finish(s, s', lock)
    ensures Inv(s')
  {
    var p := Slot(s, lock).value;
    if Commits(s, p) {
      CommitEffect(s, p);
      forall key | key in s'.store && key.EntityKey?
        ensures key in s'.used
      {
        EntitiesUsed(s, p, s'.store, key);
      }
      if lock.ProviderLock? && s.model.Some? {
        ProviderFinish(s, s', p, s.model.value);
      }
      if lock.ModelLock? && s.provider.Some? {
        ModelCommitKeepsProvider(s, s', p, s.provider.value);
      }
    }
  }

  lemma ProviderFinish(s: System, s': System, p: Process, q: Process)
    requires ProviderLock.Covers(p.op) && Effect(s, p, s'.store) && ModelSide(s, q) && s'.used == s.used
    requires p.op.Create? ==> !Found(q.snap, p.op.Target())
    ensures ModelSide(s', q)
  {
    forall key <- q.snap
      ensures !Shared(key) ==> ShowsAt(q.snap, Held(s'), key)
      ensures Shared(key) ==> Tracks(s'.store, q, key) && (q.snap[key].Present? ==> key in s'.store)
    {
      ProviderCommitKeepsModel(s, p, q, s'.store, key);
    }
  }

  lemma ReadKeepsInv(s: System, s': System, lock: Lock)
    requires Inv(s) && Read(s, s', lock)
    ensures Inv(s')
  {
    var p := Slot(s, lock).value;
    if lock.ProviderLock? {
      ProviderRead(s, p);
    } else {
      ModelRead(s, p);
    }
  }

  lemma StartKeepsInv(s: System, s': System, lock: Lock, op: Op)
    requires Inv(s) && Start(s, s', lock, op)
    ensures Inv(s')
  {
    var p := Process(op, 0, map[], map[]);
    assert ReadOrder(op)[..0] == [];
    assert ReadSoFar(p);
    if lock.ProviderLock? {
      assert s.model.Some? ==> ModelSide(s', s.model.value) by {
        assert s.model.Some? ==> ModelSide(s, s.model.value);
      }
      if op.Create? && s.model.Some? && op.Target() in s.model.value.snap {
        assert Tracks(s.store, s.model.value, op.Target());
      }
    } else {
      assert s.provider.Some? ==> ProviderSide(s', s.provider.value) by {
        assert s.provider.Some? ==> ProviderSide(s, s.provider.value);
      }
    }
  }

  lemma StepKeepsInv(s: System, s': System, lock: Lock, action: Action)
    requires Inv(s) && Step(s, s', lock, action)
    ensures Inv(s')
  {
    match action
    case DoStart(op) => StartKeepsInv(s, s', lock, op);
    case DoRead => ReadKeepsInv(s, s', lock);
    case DoFinish => FinishKeepsInv(s, s', lock);
    case DoCrash =>
  }

  // ---- Runs ----

  ghost predicate Moves(s: System, s': System) {
    exists lock, action :: Step(s, s', lock, action)
  }

  ghost predicate MovesAt(trace: seq<System>, i: nat)
    requires i + 1 < |trace|
  {
    Moves(trace[i], trace[i + 1])
  }

  ghost predicate Run(trace: seq<System>) {
    |trace| > 0 && Init(trace[0]) && forall i: nat :: i + 1 < |trace| ==> MovesAt(trace, i)
  }

  lemma {:induction false} RunKeepsInv(trace: seq<System>, i: nat)
    requires Run(trace) && i < |trace|
    ensures Inv(trace[i])
  {
    if i > 0 {
      RunKeepsInv(trace, i - 1);
      assert MovesAt(trace, i - 1);
      var lock, action :| Step(trace[i - 1], trace[i], lock, action);
      StepKeepsInv(trace[i - 1], trace[i], lock, action);
    }
  }

  // In every state of every run each model's provider is stored, each provider's index
  // lists exactly its models, every collection index lists exactly its entities, and each
  // slug, app ID and alias resolves to the entity that has it.
  lemma RunsKeepCatalog(trace: seq<System>, i: nat)
    requires Run(trace) && i < |trace|
    ensures var data := Held(trace[i]);
            && (forall id, provider :: Routes(data, id, provider) ==> Stores(data, Providers, provider))
            && (forall id, provider :: id in IDs(data, ByProvider(provider)) <==> Routes(data, id, provider))
            && (forall collection, id :: id in IDs(data, CollectionIndex(collection)) <==> Stores(data, collection, id))
            && LooksUp(data)
  {
    RunKeepsInv(trace, i);
  }

  // A model commit rewrites no provider: whatever a concurrent replace stored is still
  // there, record for record.
  lemma TouchKeepsProviders(s: System, s': System, id: ID)
    requires Inv(s) && Finish(s, s', ModelLock) && s.model.value.op.Collection() == Models
    ensures Stores(Held(s'), Providers, id) <==> Stores(Held(s), Providers, id)
    ensures Stores(Held(s), Providers, id) ==> Stored(Held(s'), Providers, id) == Stored(Held(s), Providers, id)
  {
    var p := s.model.value;
    if Commits(s, p) {
      CommitEffect(s, p);
      EntitiesAfter(p.op, p.snap, Held(s), Held(s'), Providers, id);
    }
  }

  // ---- Every commit is the whole method run alone at that moment ----

  ghost predicate SameRecord(left: Snapshot, right: Snapshot, key: Key)
    requires key in left && key in right
  {
    (left[key].Present? <==> right[key].Present?) && (left[key].Present? ==> left[key].value == right[key].value)
  }

  lemma {:induction false} SameLookups(op: Op, lookups: seq<Key>, left: Snapshot, right: Snapshot)
    requires forall key <- lookups :: key in left && key in right && SameRecord(left, right, key)
    ensures CheckLookups(op, lookups, left) == CheckLookups(op, lookups, right)
  {
    if lookups != [] {
      assert SameRecord(left, right, lookups[0]);
      SameLookups(op, lookups[1..], left, right);
    }
  }

  lemma {:induction false} SameModelIndexes(ids: seq<ID>, left: Snapshot, right: Snapshot)
    requires forall id <- ids :: ByProvider(id) in left && ByProvider(id) in right && SameRecord(left, right, ByProvider(id))
    ensures CheckModelIndexes(ids, left) == CheckModelIndexes(ids, right)
  {
    if ids != [] {
      assert SameRecord(left, right, ByProvider(ids[0]));
      SameModelIndexes(ids[1..], left, right);
    }
  }

  lemma SameCheck(op: Op, left: Snapshot, right: Snapshot)
    requires Registry.Covers(op, left) && Registry.Covers(op, right)
    requires forall key <- ReadOrder(op) :: SameRecord(left, right, key)
    ensures CheckAll(op, left) == CheckAll(op, right)
  {
    ReadsCover(op, left);
    ReadsCover(op, right);
    ReadsAllKnown(op, left, right);
    SameLookups(op, LookupsOf(op.New()), left, right);
    SameModelIndexes(ProvidersOf(op), left, right);
    ProvidersOfMembers(op);
    assert SameRecord(left, right, op.Target());
    SameRest(op, left, right);
  }

  lemma ReadsAllKnown(op: Op, left: Snapshot, right: Snapshot)
    requires Registry.Covers(op, left) && Registry.Covers(op, right)
    requires forall key <- ReadOrder(op) :: SameRecord(left, right, key)
    ensures forall key <- LookupsOf(op.New()) :: key in left && key in right && SameRecord(left, right, key)
    ensures forall id <- ProvidersOf(op) :: ByProvider(id) in left && ByProvider(id) in right && SameRecord(left, right, ByProvider(id))
    ensures forall id <- ProvidersOf(op) :: ProviderKey(id) in left && ProviderKey(id) in right && SameRecord(left, right, ProviderKey(id))
    ensures op.Target() in left && op.Target() in right && SameRecord(left, right, op.Target())
    ensures !op.Replace? ==> CollectionIndex(op.Collection()) in left && CollectionIndex(op.Collection()) in right
                             && SameRecord(left, right, CollectionIndex(op.Collection()))
    ensures op.Delete? && op.previous.Provider? ==> ByProvider(op.ID()) in left && ByProvider(op.ID()) in right
                                                    && SameRecord(left, right, ByProvider(op.ID()))
  {
    // A snapshot with exactly the keys read: what covers it is in the read order.
    var known: Snapshot := map key | key in ReadOrder(op) :: Absent;
    ReadsCover(op, known);
    ReadsCover(op, left);
    ReadsCover(op, right);
  }

  lemma SameRest(op: Op, left: Snapshot, right: Snapshot)
    requires Registry.Covers(op, left) && Registry.Covers(op, right)
    requires forall id <- ProvidersOf(op) :: ByProvider(id) in left && ByProvider(id) in right && SameRecord(left, right, ByProvider(id))
    requires forall id <- ProvidersOf(op) :: ProviderKey(id) in left && ProviderKey(id) in right && SameRecord(left, right, ProviderKey(id))
    requires !op.Replace? ==> CollectionIndex(op.Collection()) in left && CollectionIndex(op.Collection()) in right
                              && SameRecord(left, right, CollectionIndex(op.Collection()))
    requires op.Delete? && op.previous.Provider? ==> ByProvider(op.ID()) in left && ByProvider(op.ID()) in right
                                                     && SameRecord(left, right, ByProvider(op.ID()))
    ensures CheckProviders(op, left) == CheckProviders(op, right) && CheckRest(op, left) == CheckRest(op, right)
  {
    SameModelIndexes(ProvidersOf(op), left, right);
    ProvidersOfMembers(op);
    forall id | Involves(op, id)
      ensures SameRecord(left, right, ProviderKey(id))
    {
    }
  }

  lemma SlotReads(s: System, lock: Lock)
    requires Inv(s) && Slot(s, lock).Some? && Complete(Slot(s, lock).value)
    ensures Slot(s, lock).value.snap.Keys == set key <- ReadOrder(Slot(s, lock).value.op)
  {
    var p := Slot(s, lock).value;
    assert ReadOrder(p.op)[..p.next] == ReadOrder(p.op);
  }

  // The refinement: however the two sides' reads interleaved, a commit is accepted when
  // the whole method runs alone at that step, and leaves the same records.
  lemma CommitRefinesAlone(s: System, s': System, lock: Lock)
    requires Inv(s) && Finish(s, s', lock) && Commits(s, Slot(s, lock).value)
    ensures Registry.Covers(Slot(s, lock).value.op, ReadNow(Visible(s.store), Slot(s, lock).value.op))
    ensures Decide(Slot(s, lock).value.op, ReadNow(Visible(s.store), Slot(s, lock).value.op)).Commit?
    ensures Held(s') == Overlay(Held(s), Decide(Slot(s, lock).value.op, ReadNow(Visible(s.store), Slot(s, lock).value.op)).batch)
  {
    var p := Slot(s, lock).value;
    var alone := ReadNow(Visible(s.store), p.op);
    CommitEffect(s, p);
    forall key <- ReadOrder(p.op)
      ensures SameRecord(p.snap, alone, key)
    {
      assert ShowsAt(p.snap, Held(s), key);
    }
    SameCheck(p.op, p.snap, alone);
    assert p.snap.Keys == alone.Keys by {
      SlotReads(s, lock);
    }
    SameAfter(p.op, p.snap, alone, Held(s));
    VisibleAdvanced(s.store, BatchBy(p));
  }

  lemma SameWrite(op: Op, left: Snapshot, right: Snapshot, key: Key)
    requires left.Keys == right.Keys && (key in left ==> SameRecord(left, right, key))
    ensures Writes(op, left, key) <==> Writes(op, right, key)
    ensures WriteFor(op, left, key).Put? == WriteFor(op, right, key).Put?
    ensures WriteFor(op, left, key).Put? ==> WriteFor(op, left, key).value == WriteFor(op, right, key).value
  {
  }

  lemma SameAfter(op: Op, left: Snapshot, right: Snapshot, data: Data)
    requires left.Keys == right.Keys && forall key <- left :: SameRecord(left, right, key)
    ensures Overlay(data, WriteBatch(op, left)) == Overlay(data, WriteBatch(op, right))
  {
    forall key
      ensures Writes(op, left, key) <==> Writes(op, right, key)
      ensures WriteFor(op, left, key).Put? == WriteFor(op, right, key).Put?
      ensures WriteFor(op, left, key).Put? ==> WriteFor(op, left, key).value == WriteFor(op, right, key).value
    {
      SameWrite(op, left, right, key);
    }
  }
}
