// The provider store under its two mutexes: one provider create or replace and one
// model operation or provider delete may interleave their reads and transactions.
module RegistryProtocol {
  import opened Options
  import opened Domain
  import opened EtagStore
  import opened Registry
  import opened RegistryIntegrity

  // ProviderRepository and ModelRepository each hold their own mutex.
  datatype Lock = ProviderLock | ModelLock {
    predicate Covers(op: Op) {
      if ProviderLock? then op.WellFormed() && op.Collection() == Providers && !op.Delete?
      else op.WellFormed() && (op.Collection() == Models || (op.Collection() == Providers && op.Delete?))
    }
  }

  // `seen` records the version behind each entry found, which the code cannot see.
  datatype Process = Process(op: Op, next: nat, snap: Snapshot, seen: map<Key, Version>)

  datatype System = System(store: History<Key, Value>, provider: Option<Process>, model: Option<Process>, used: set<Key>)

  ghost function Held(s: System): Data {
    Contents(s.store)
  }

  function Slot(s: System, lock: Lock): Option<Process> {
    if lock.ProviderLock? then s.provider else s.model
  }

  function WithSlot(s: System, lock: Lock, p: Option<Process>): System {
    if lock.ProviderLock? then s.(provider := p) else s.(model := p)
  }

  // ---- Steps ----

  // A method starts when its mutex is free; created IDs never repeat.
  ghost predicate Start(s: System, s': System, lock: Lock, op: Op) {
    && Slot(s, lock).None? && lock.Covers(op) && (op.Create? ==> op.Target() !in s.used)
    && s' == WithSlot(s, lock, Some(Process(op, 0, map[], map[]))).(used := s.used + (if op.Create? then {op.Target()} else {}))
  }

  ghost function AfterRead(s: System, p: Process): Process
    requires p.op.WellFormed() && p.next < |ReadOrder(p.op)|
  {
    var key := ReadOrder(p.op)[p.next];
    p.(next := p.next + 1,
       snap := p.snap[key := Lookup(Visible(s.store), key)],
       seen := if key in s.store then p.seen[key := s.store[key].version] else p.seen)
  }

  ghost predicate Read(s: System, s': System, lock: Lock) {
    && Slot(s, lock).Some? && Slot(s, lock).value.op.WellFormed()
    && Slot(s, lock).value.next < |ReadOrder(Slot(s, lock).value.op)|
    && s' == WithSlot(s, lock, Some(AfterRead(s, Slot(s, lock).value)))
  }

  ghost predicate WithinWindow(s: System, p: Process) {
    forall key <- p.seen :: key in s.store ==> s.store[key].version < p.seen[key] + ETAG_COUNT
  }

  ghost predicate Complete(p: Process) {
    Registry.Covers(p.op, p.snap) && p.next == |ReadOrder(p.op)|
  }

  ghost predicate Commits(s: System, p: Process) {
    && Complete(p) && Decide(p.op, p.snap).Commit?
    && BatchMatches(Visible(s.store), Decide(p.op, p.snap).batch)
  }

  ghost predicate Finish(s: System, s': System, lock: Lock) {
    && Slot(s, lock).Some? && Complete(Slot(s, lock).value)
    && var p := Slot(s, lock).value;
    if Commits(s, p)
    then WithinWindow(s, p) && s' == WithSlot(s.(store := Advanced(s.store, Decide(p.op, p.snap).batch)), lock, None)
    else s' == WithSlot(s, lock, None)
  }

  datatype Action = DoStart(op: Op) | DoRead | DoFinish | DoCrash

  ghost predicate Step(s: System, s': System, lock: Lock, action: Action) {
    match action
    case DoStart(op) => Start(s, s', lock, op)
    case DoRead => Read(s, s', lock)
    case DoFinish => Finish(s, s', lock)
    case DoCrash => s' == WithSlot(s, lock, None)
  }

  ghost predicate Init(s: System) {
    && s.provider.None? && s.model.None? && Integrity(Held(s))
    && forall key :: key in s.store && key.EntityKey? ==> key in s.used
  }

  // ---- Invariant ----

  ghost predicate Tracks(store: History<Key, Value>, p: Process, key: Key)
    requires key in p.snap
  {
    p.snap[key].Present? ==>
      && key in p.seen && p.snap[key].etag == ETagOf(p.seen[key])
      && (key in store ==>
            && p.seen[key] <= store[key].version
            && (store[key].version == p.seen[key] ==> store[key].value == p.snap[key].value))
  }

  // Both sides write these; the rest of what a model operation reads only its own side writes.
  predicate Shared(key: Key) {
    key == CollectionIndex(Providers) || (key.EntityKey? && key.collection == Providers)
  }

  ghost predicate ReadSoFar(p: Process) {
    && p.op.WellFormed() && p.next <= |ReadOrder(p.op)|
    && p.snap.Keys == (set key <- ReadOrder(p.op)[..p.next])
    && (forall key <- p.snap :: p.snap[key].Present? ==> WellTyped(key, p.snap[key].value))
  }

  ghost predicate CreatesUnseen(s: System, p: Process) {
    p.op.Create? ==> p.op.Target() in s.used && p.op.Target() !in s.store && !Found(p.snap, p.op.Target())
  }

  // A lookup a provider operation found free stays free; one found to be its own stays
  // while the provider is stored.
  ghost predicate LookupStands(store: History<Key, Value>, p: Process, key: Key)
    requires key in p.snap
  {
    if p.snap[key].Absent? then key !in store
    else p.snap[key].value == LookupValue(p.op.ID()) && p.op.Target() in store ==>
           key in store && store[key].value == p.snap[key].value
  }

  ghost predicate ProviderSide(s: System, p: Process) {
    && ProviderLock.Covers(p.op) && ReadSoFar(p) && CreatesUnseen(s, p)
    && (forall key <- p.snap :: Shared(key) ==> Tracks(s.store, p, key))
    && (forall key <- p.snap :: key.LookupKey? ==> LookupStands(s.store, p, key))
    && (CollectionIndex(Providers) in p.snap ==>
          (Found(p.snap, CollectionIndex(Providers)) <==> CollectionIndex(Providers) in s.store))
  }

  // It found the entity it is to replace or delete.
  ghost predicate SawTarget(p: Process) {
    !p.op.Create? && Found(p.snap, p.op.Target()) && p.snap[p.op.Target()].value == EntityValue(p.op.previous)
  }

  ghost predicate ModelSide(s: System, p: Process) {
    && ModelLock.Covers(p.op) && ReadSoFar(p) && CreatesUnseen(s, p)
    && (forall key <- p.snap :: !Shared(key) ==> ShowsAt(p.snap, Held(s), key))
    && (forall key <- p.snap :: Shared(key) ==> Tracks(s.store, p, key) && (p.snap[key].Present? ==> key in s.store))
    && (SawTarget(p) && p.op.Delete? ==> forall key <- p.snap :: Shared(key) ==> p.snap[key].Present?)
  }

  ghost predicate Inv(s: System) {
    && Integrity(Held(s))
    && (forall key :: key in s.store && key.EntityKey? ==> key in s.used)
    && (s.provider.Some? ==> ProviderSide(s, s.provider.value))
    && (s.model.Some? ==> ModelSide(s, s.model.value))
    && (s.provider.Some? && s.model.Some? && s.provider.value.op.Create? ==>
          !Found(s.model.value.snap, s.provider.value.op.Target()))
  }

  // ---- Read orders ----

  lemma DistinctReads(op: Op)
    requires op.WellFormed() && op.Collection() != Users
    ensures NoDuplicates(ReadOrder(op)) && |ReadOrder(op)| > 0 && ReadOrder(op)[0] == op.Target()
  {
    var ids, index := ProvidersOf(op), [CollectionIndex(op.Collection())];
    ProvidersOfMembers(op);
    ReadMembers(ids);
    ProviderReadsDistinct(ids);
    if !op.Delete? {
      var head := [op.Target()] + op.entity.Lookups();
      ConcatDistinct(head, ProviderReads(ids));
      ConcatDistinct(head + ProviderReads(ids), index);
      ConcatDistinct(head + ProviderReads(ids) + index, IndexReads(ids));
      ConcatDistinct(head + ProviderReads(ids), IndexReads(ids));
    }
  }

  lemma {:induction false} ProviderReadsDistinct(ids: seq<ID>)
    requires NoDuplicates(ids)
    ensures NoDuplicates(ProviderReads(ids)) && NoDuplicates(IndexReads(ids))
  {
    if ids != [] {
      ReadMembers(ids[1..]);
      ProviderReadsDistinct(ids[1..]);
      ConcatDistinct([ProviderKey(ids[0])], ProviderReads(ids[1..]));
      ConcatDistinct([ByProvider(ids[0])], IndexReads(ids[1..]));
    }
  }

  lemma ReadsKnown(op: Op, key: Key)
    requires op.WellFormed() && key in ReadOrder(op)
    ensures || key == op.Target() || key in LookupsOf(op.New()) || key == CollectionIndex(op.Collection())
            || (key.ByProvider? && (Involves(op, key.id) || (op.Delete? && op.Collection() == Providers)))
            || (key.EntityKey? && key.collection == Providers && Involves(op, key.id))
  {
    ReadMembers(ProvidersOf(op));
    ProvidersOfMembers(op);
  }

  // ---- Reading ----

  lemma ReadKeepsSoFar(s: System, p: Process)
    requires ReadSoFar(p) && p.next < |ReadOrder(p.op)| && p.op.Collection() != Users && Integrity(Held(s))
    ensures ReadSoFar(AfterRead(s, p)) && ReadOrder(p.op)[p.next] !in p.snap
    ensures p.next > 0 ==> p.op.Target() in p.snap
  {
    hide ReadOrder;
    var order := ReadOrder(p.op);
    DistinctReads(p.op);
    assert order[..p.next + 1] == order[..p.next] + [order[p.next]];
    assert p.next > 0 ==> order[0] in order[..p.next];
    var key := order[p.next];
    assert key in Held(s) ==> WellTyped(key, Held(s)[key]);
  }

  lemma ProviderRead(s: System, p: Process)
    requires Inv(s) && ProviderSide(s, p) && p.next < |ReadOrder(p.op)|
    ensures ProviderSide(s, AfterRead(s, p))
  {
    var key, p' := ReadOrder(p.op)[p.next], AfterRead(s, p);
    ReadKeepsSoFar(s, p);
    forall other <- p'.snap | Shared(other)
      ensures Tracks(s.store, p', other)
    {
      if other != key {
        assert Tracks(s.store, p, other);
      }
    }
    forall other <- p'.snap | other.LookupKey?
      ensures LookupStands(s.store, p', other)
    {
      if other != key {
        assert LookupStands(s.store, p, other);
      }
    }
  }

  lemma ModelRead(s: System, p: Process)
    requires Inv(s) && ModelSide(s, p) && p.next < |ReadOrder(p.op)|
    ensures ModelSide(s, AfterRead(s, p))
  {
    var key, p' := ReadOrder(p.op)[p.next], AfterRead(s, p);
    ReadKeepsSoFar(s, p);
    forall other <- p'.snap
      ensures !Shared(other) ==> ShowsAt(p'.snap, Held(s), other)
      ensures Shared(other) ==> Tracks(s.store, p', other) && (p'.snap[other].Present? ==> other in s.store)
    {
      if other != key && Shared(other) {
        assert Tracks(s.store, p, other);
      }
      if other != key && !Shared(other) {
        assert ShowsAt(p.snap, Held(s), other);
      }
    }
    if SawTarget(p') && p'.op.Delete? {
      ModelReadFinds(s, p, p');
    }
  }

  // While the entity to delete is stored, so are its provider and the collection index.
  lemma DeleteFinds(data: Data, op: Op, key: Key)
    requires Integrity(data) && ModelLock.Covers(op) && op.Delete? && key in ReadOrder(op) && Shared(key)
    requires op.Target() in data && (op.Collection() == Models ==> data[op.Target()] == EntityValue(op.previous))
    ensures key in data
  {
    var target := op.Target();
    assert WellTyped(target, data[target]);
    assert Stores(data, op.Collection(), op.ID());
    assert op.ID() in IDs(data, CollectionIndex(op.Collection()));
    ReadsKnown(op, key);
    if op.Collection() == Models {
      assert Routes(data, op.ID(), op.previous.providerID);
    }
  }

  lemma ModelReadFinds(s: System, p: Process, p': Process)
    requires Inv(s) && ModelSide(s, p) && p.next < |ReadOrder(p.op)| && p' == AfterRead(s, p)
    requires SawTarget(p') && p'.op.Delete?
    ensures forall key <- p'.snap :: Shared(key) ==> p'.snap[key].Present?
  {
    var key := ReadOrder(p.op)[p.next];
    ReadKeepsSoFar(s, p);
    if p.next > 0 {
      var target := p.op.Target();
      assert p.op.Collection() == Models ==> ShowsAt(p.snap, Held(s), target);
      assert p.op.Collection() == Providers ==> target in s.store;
      if Shared(key) {
        DeleteFinds(Held(s), p.op, key);
      }
    } else {
      DistinctReads(p.op);
      assert ReadOrder(p.op)[..0] == [];
    }
  }

  // ---- Committing: what was read is what is there ----

  lemma CurrentVersion(s: System, p: Process, key: Key, expected: Option<ETag>)
    requires key in p.snap && Tracks(s.store, p, key) && WithinWindow(s, p) && p.snap[key].Present?
    requires expected == p.snap[key].Expected() && Matches(Visible(s.store), key, expected)
    ensures ShowsAt(p.snap, Held(s), key)
  {
    SameETag(p.seen[key], s.store[key].version);
  }

  lemma WrittenShows(s: System, p: Process, key: Key)
    requires Commits(s, p) && WithinWindow(s, p) && key in p.snap && Writes(p.op, p.snap, key) && !key.LookupKey?
    requires Tracks(s.store, p, key) && p.snap[key].Present?
    ensures ShowsAt(p.snap, Held(s), key)
  {
    var batch := Decide(p.op, p.snap).batch;
    assert batch == WriteBatch(p.op, p.snap) && key in batch;
    CurrentVersion(s, p, key, batch[key].expected);
  }

  lemma TargetShows(s: System, p: Process)
    requires Inv(s) && ProviderSide(s, p) && Commits(s, p) && WithinWindow(s, p)
    ensures p.op.Target() in p.snap && ShowsAt(p.snap, Held(s), p.op.Target())
    ensures !p.op.Create? ==> p.op.Target() in s.store
  {
    ReadsCover(p.op, p.snap);
    assert CheckTarget(p.op, p.snap).Pass?;
    if !p.op.Create? {
      WrittenShows(s, p, p.op.Target());
    }
  }

  lemma LookupShows(s: System, p: Process, key: Key)
    requires Inv(s) && ProviderSide(s, p) && Commits(s, p) && WithinWindow(s, p) && key in p.snap && key.LookupKey?
    ensures ShowsAt(p.snap, Held(s), key)
  {
    TargetShows(s, p);
    assert key in ReadOrder(p.op)[..p.next];
    ReadsKnown(p.op, key);
    ReadsCover(p.op, p.snap);
    assert CheckLookups(p.op, LookupsOf(p.op.New()), p.snap).Pass?;
    CheckedLookups(p.op, LookupsOf(p.op.New()), p.snap, key);
    assert LookupStands(s.store, p, key);
  }

  // A provider operation that commits saw the store as it is.
  lemma ProviderCommitShows(s: System, p: Process)
    requires Inv(s) && ProviderSide(s, p) && Commits(s, p) && WithinWindow(s, p)
    ensures Shows(p.snap, Held(s))
  {
    TargetShows(s, p);
    forall key <- p.snap
      ensures ShowsAt(p.snap, Held(s), key)
    {
      if key.LookupKey? {
        LookupShows(s, p, key);
      } else if key != p.op.Target() {
        assert key in ReadOrder(p.op)[..p.next];
        ReadsKnown(p.op, key);
        assert key == CollectionIndex(Providers) && !p.op.Replace? by {
          ReplaceReads(p.op, key);
        }
        if p.snap[key].Present? {
          WrittenShows(s, p, key);
        }
      }
    }
  }

  // A provider operation reads its entity, its lookups and, on create, the index.
  lemma ReplaceReads(op: Op, key: Key)
    requires ProviderLock.Covers(op) && key in ReadOrder(op) && !key.LookupKey? && key != op.Target()
    ensures key == CollectionIndex(Providers) && !op.Replace?
  {
    ProvidersOfMembers(op);
    assert ProvidersOf(op) == [];
  }

  lemma SharedFound(s: System, p: Process, key: Key)
    requires ModelSide(s, p) && Commits(s, p) && key in p.snap && Shared(key)
    ensures p.snap[key].Present? && Writes(p.op, p.snap, key)
  {
    hide ReadOrder;
    hide CheckLookups;
    hide CheckRest;
    assert key in ReadOrder(p.op)[..p.next];
    ReadsKnown(p.op, key);
    ReadsCover(p.op, p.snap);
    ProvidersOfMembers(p.op);
    assert CheckTarget(p.op, p.snap).Pass?;
    if !p.op.Delete? {
      assert CheckProviders(p.op, p.snap).Ok?;
    } else {
      assert SawTarget(p);
    }
  }

  // So did a model operation or a provider delete.
  lemma ModelCommitShows(s: System, p: Process)
    requires Inv(s) && ModelSide(s, p) && Commits(s, p) && WithinWindow(s, p)
    ensures Shows(p.snap, Held(s))
  {
    forall key <- p.snap
      ensures ShowsAt(p.snap, Held(s), key)
    {
      if Shared(key) {
        SharedFound(s, p, key);
        WrittenShows(s, p, key);
      }
    }
  }
}
