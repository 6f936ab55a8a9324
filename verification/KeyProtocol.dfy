// Any number of replicas running the virtual-key repository's methods, each read
// and each transaction a separate step.
module KeyProtocol {
  import opened Options
  import opened Domain
  import opened EtagStore
  import opened KeyStore
  import opened KeyIntegrity
  import opened KeyReads

  // A method in progress: it has done the first `next` reads of its read order.
  // `seen` records the version behind each entry it found, which the code cannot see.
  datatype Process = Process(op: Op, models: seq<ID>, next: nat, snap: Snapshot, seen: map<Key, Version>)

  datatype System = System(
    store: History<Key, Value>, processes: map<nat, Process>, usedIDs: set<ID>, usedHashes: set<string>)

  ghost function Held(s: System): Data {
    Contents(s.store)
  }

  ghost function Reads(p: Process): seq<Key> {
    ReadOrder(p.op, p.models)
  }

  // ---- Steps ----

  // The operation puts a hash on its key that the key did not have before.
  predicate SetsHash(op: Op) {
    op.CreateKey? || (op.ReplaceKey? && op.key.keyHash != op.previous.keyHash)
  }

  // IDs and hashes come from random secrets: a create, or a changed hash, never repeats one.
  ghost predicate FreshNames(s: System, op: Op) {
    && (op.CreateKey? ==> op.key.id !in s.usedIDs)
    && (SetsHash(op) ==> op.key.keyHash !in s.usedHashes)
  }

  ghost predicate Start(s: System, s': System, pid: nat, op: Op, models: seq<ID>) {
    && pid !in s.processes && FreshNames(s, op) && (op.Mutation() ==> ModelOrder(op, models))
    && s' == s.(processes := s.processes[pid := Process(op, models, 0, map[], map[])],
                usedIDs := s.usedIDs + (if op.CreateKey? then {op.key.id} else {}),
                usedHashes := s.usedHashes + (if SetsHash(op) then {op.key.keyHash} else {}))
  }

  ghost function AfterRead(s: System, p: Process): Process
    requires p.next < |Reads(p)|
  {
    var key := Reads(p)[p.next];
    p.(next := p.next + 1,
       snap := p.snap[key := Lookup(Visible(s.store), key)],
       seen := if key in s.store then p.seen[key := s.store[key].version] else p.seen)
  }

  ghost predicate Read(s: System, s': System, pid: nat) {
    && pid in s.processes && s.processes[pid].next < |Reads(s.processes[pid])|
    && s' == s.(processes := s.processes[pid := AfterRead(s, s.processes[pid])])
  }

  // No key is written 2^64 - 1 times between a read and the transaction using it.
  ghost predicate WithinWindow(s: System, p: Process) {
    forall key <- p.seen :: key in s.store ==> s.store[key].version < p.seen[key] + ETAG_COUNT
  }

  // A subject write that found no subject expects no ETag.
  ghost predicate FirstWrite(p: Process) {
    !p.op.Mutation() && SubjectKey(p.op.subject.Ref()) in p.snap && p.snap[SubjectKey(p.op.subject.Ref())].Absent?
  }

  // The store is still as the process read it, as when it held the only writer's mutex.
  ghost predicate Undisturbed(s: System, p: Process) {
    Shows(p.snap, Held(s)) && ShowsGlobal(p.snap, Held(s))
  }

  ghost predicate Complete(p: Process) {
    p.next == |Reads(p)| && Covers(p.op, p.models, p.snap)
  }

  ghost predicate Commits(s: System, p: Process) {
    && Complete(p) && Decide(p.op, p.models, p.snap).Commit?
    && BatchMatches(Visible(s.store), Decide(p.op, p.models, p.snap).batch)
  }

  // The one write that needs the mutex: a fence that found no subject.
  ghost predicate Guarded(s: System, p: Process) {
    WithinWindow(s, p) && (p.op.FenceSubject? && FirstWrite(p) ==> Undisturbed(s, p))
  }

  // The transaction, or a rejection that writes nothing, ends the method.
  ghost predicate Finish(s: System, s': System, pid: nat) {
    && pid in s.processes && Complete(s.processes[pid])
    && var p := s.processes[pid];
    if Commits(s, p)
    then Guarded(s, p) && s' == s.(store := Advanced(s.store, Decide(p.op, p.models, p.snap).batch), processes := s.processes - {pid})
    else s' == s.(processes := s.processes - {pid})
  }

  // A replica may stop at any point.
  ghost predicate Crash(s: System, s': System, pid: nat) {
    s' == s.(processes := s.processes - {pid})
  }

  datatype Action = DoStart(op: Op, models: seq<ID>) | DoRead | DoFinish | DoCrash

  ghost predicate Step(s: System, s': System, pid: nat, action: Action) {
    match action
    case DoStart(op, models) => Start(s, s', pid, op, models)
    case DoRead => Read(s, s', pid)
    case DoFinish => Finish(s, s', pid)
    case DoCrash => Crash(s, s', pid)
  }

  ghost predicate Init(s: System) {
    && s.processes == map[] && Integrity(Held(s))
    && forall id :: Stores(Held(s), id) ==> id in s.usedIDs && Stored(Held(s), id).keyHash in s.usedHashes
  }

  // ---- Invariant ----

  // What a process read under an ETag: while the version stands, so does the value.
  ghost predicate Tracks(store: History<Key, Value>, p: Process, key: Key)
    requires key in p.snap
  {
    p.snap[key].Present? ==>
      && key in p.seen && p.snap[key].etag == ETagOf(p.seen[key])
      && (!key.EntityKey? ==> key in store)
      && (key in store ==>
            && p.seen[key] <= store[key].version
            && (store[key].version == p.seen[key] ==> store[key].value == p.snap[key].value))
  }

  // An index read after its subject is current for as long as the subject is untouched.
  ghost predicate SubjectGuardsIndex(store: History<Key, Value>, p: Process, ref: Ref) {
    IndexKey(ref) in p.snap ==>
      && SubjectKey(ref) in p.snap
      && (p.snap[SubjectKey(ref)].Present? && SubjectKey(ref) in store && SubjectKey(ref) in p.seen
          && store[SubjectKey(ref)].version == p.seen[SubjectKey(ref)]
          ==> ShowsAt(p.snap, Contents(store), IndexKey(ref)))
  }

  // A lookup read after the entity is the entity's own for as long as the entity is untouched.
  ghost predicate EntityGuardsLookup(store: History<Key, Value>, p: Process) {
    p.op.ReplaceKey? && !SetsHash(p.op) && HashLookup(p.op.key.keyHash) in p.snap ==>
      var entity := EntityKey(p.op.key.id);
      && entity in p.snap
      && (p.snap[entity].Present? && p.snap[entity].value == KeyValue(p.op.previous) && entity in store && entity in p.seen
          && store[entity].version == p.seen[entity]
          ==> p.snap[HashLookup(p.op.key.keyHash)].Present? && p.snap[HashLookup(p.op.key.keyHash)].value == LookupValue(p.op.key.id))
  }

  ghost predicate OwnNames(s: System, p: Process) {
    && (p.op.CreateKey? ==>
          && p.op.key.id in s.usedIDs && EntityKey(p.op.key.id) !in s.store
          && (EntityKey(p.op.key.id) in p.snap ==> p.snap[EntityKey(p.op.key.id)].Absent?))
    && (SetsHash(p.op) ==>
          && p.op.key.keyHash in s.usedHashes
          && (forall id :: Stores(Held(s), id) ==> Stored(Held(s), id).keyHash != p.op.key.keyHash)
          && (HashLookup(p.op.key.keyHash) in p.snap ==> p.snap[HashLookup(p.op.key.keyHash)].Absent?))
    && (forall id :: SawKey(p, id) ==> id in s.usedIDs && SeenKey(p, id).keyHash in s.usedHashes && SeenKey(p, id).id == id)
  }

  ghost predicate SawKey(p: Process, id: ID) {
    EntityKey(id) in p.snap && p.snap[EntityKey(id)].Present? && p.snap[EntityKey(id)].value.KeyValue?
  }

  ghost function SeenKey(p: Process, id: ID): VirtualKey
    requires SawKey(p, id)
  {
    p.snap[EntityKey(id)].value.key
  }

  ghost predicate Progress(p: Process) {
    && (p.op.Mutation() ==> ModelOrder(p.op, p.models))
    && p.next <= |Reads(p)|
    && p.snap.Keys == set key <- Reads(p)[..p.next]
  }

  ghost predicate ProcessOk(s: System, p: Process) {
    && Progress(p) && OwnNames(s, p) && EntityGuardsLookup(s.store, p)
    && (forall key <- p.snap :: !key.HashLookup? ==> Tracks(s.store, p, key))
    && (forall key <- p.snap :: p.snap[key].Present? ==> WellTyped(key, p.snap[key].value))
    && (forall ref :: SubjectGuardsIndex(s.store, p, ref))
  }

  // No other process has seen, or brings, the names this one introduces.
  ghost predicate Apart(p: Process, q: Process) {
    && (p.op.CreateKey? ==> !SawKey(q, p.op.key.id) && (q.op.CreateKey? ==> q.op.key.id != p.op.key.id))
    && (SetsHash(p.op) ==>
          && (forall id :: SawKey(q, id) ==> SeenKey(q, id).keyHash != p.op.key.keyHash)
          && (SetsHash(q.op) ==> q.op.key.keyHash != p.op.key.keyHash))
  }

  ghost predicate Inv(s: System) {
    && Integrity(Held(s))
    && (forall id :: Stores(Held(s), id) ==> id in s.usedIDs && Stored(Held(s), id).keyHash in s.usedHashes)
    && (forall pid <- s.processes :: ProcessOk(s, s.processes[pid]))
    && (forall pid <- s.processes, other <- s.processes :: pid != other ==> Apart(s.processes[pid], s.processes[other]))
  }

  // ---- Starting, reading, crashing ----

  lemma StartKeepsInv(s: System, s': System, pid: nat, op: Op, models: seq<ID>)
    requires Inv(s) && Start(s, s', pid, op, models)
    ensures Inv(s')
  {
    var p := s'.processes[pid];
    assert ReadOrder(op, models)[..0] == [];
    assert ProcessOk(s', p);
    forall other <- s.processes
      ensures ProcessOk(s', s.processes[other])
      ensures Apart(p, s.processes[other]) && Apart(s.processes[other], p)
    {
      assert ProcessOk(s, s.processes[other]);
    }
  }

  lemma ReadKeepsProgress(s: System, p: Process)
    requires Progress(p) && p.next < |Reads(p)|
    ensures Progress(AfterRead(s, p)) && Reads(p)[p.next] !in p.snap
  {
    var order := Reads(p);
    DistinctReads(p.op, p.models);
    assert order[..p.next + 1] == order[..p.next] + [order[p.next]];
  }

  lemma ReadKeepsGuards(s: System, p: Process, ref: Ref)
    requires ProcessOk(s, p) && p.next < |Reads(p)|
    ensures SubjectGuardsIndex(s.store, AfterRead(s, p), ref)
  {
    var order, key := Reads(p), Reads(p)[p.next];
    ReadKeepsProgress(s, p);
    assert SubjectGuardsIndex(s.store, p, ref);
    if key == IndexKey(ref) {
      SubjectBeforeIndex(p.op, p.models, p.next);
      assert SubjectKey(ref) in order[..p.next];
    }
  }

  lemma ReadKeepsLookup(s: System, p: Process)
    requires ProcessOk(s, p) && Integrity(Held(s)) && p.next < |Reads(p)|
    ensures EntityGuardsLookup(s.store, AfterRead(s, p))
  {
    var order, key := Reads(p), Reads(p)[p.next];
    ReadKeepsProgress(s, p);
    if p.op.ReplaceKey? && key == HashLookup(p.op.key.keyHash) {
      LookupAfterEntity(p.op, p.models, p.next);
      var entity := EntityKey(p.op.key.id);
      assert order[0] in order[..p.next];
      assert Tracks(s.store, p, entity);
      if entity in s.store && s.store[entity].value == KeyValue(p.op.previous) {
        assert Stores(Held(s), p.op.key.id) && Stored(Held(s), p.op.key.id) == p.op.previous;
      }
    }
  }

  lemma ReadKeepsProcess(s: System, p: Process)
    requires Inv(s) && ProcessOk(s, p) && p.next < |Reads(p)|
    ensures ProcessOk(s, AfterRead(s, p))
  {
    var key, p' := Reads(p)[p.next], AfterRead(s, p);
    ReadKeepsProgress(s, p);
    ReadKeepsLookup(s, p);
    forall ref
      ensures SubjectGuardsIndex(s.store, p', ref)
    {
      ReadKeepsGuards(s, p, ref);
    }
    forall other <- p'.snap | !other.HashLookup?
      ensures Tracks(s.store, p', other)
    {
      if other != key {
        assert Tracks(s.store, p, other);
      }
    }
    assert key in Held(s) ==> WellTyped(key, Held(s)[key]);
    forall id | SawKey(p', id)
      ensures id in s.usedIDs && SeenKey(p', id).keyHash in s.usedHashes && SeenKey(p', id).id == id
    {
      if EntityKey(id) == key {
        assert Stores(Held(s), id) && Stored(Held(s), id) == SeenKey(p', id);
      } else {
        assert SawKey(p, id);
      }
    }
    if SetsHash(p.op) {
      HashOwned(Held(s), p.op.key.keyHash);
    }
  }

  lemma HashOwned(data: Data, hash: string)
    requires Integrity(data)
    ensures HashLookup(hash) in data ==> exists id :: Stores(data, id) && Stored(data, id).keyHash == hash
  {
    if HashLookup(hash) in data {
      assert Stores(data, data[HashLookup(hash)].id);
    }
  }

  lemma ReadKeepsApart(s: System, p: Process, q: Process)
    requires ProcessOk(s, p) && Apart(p, q) && q.next < |Reads(q)|
    ensures Apart(p, AfterRead(s, q))
  {
    forall id | SawKey(AfterRead(s, q), id)
      ensures p.op.CreateKey? ==> p.op.key.id != id
      ensures SetsHash(p.op) ==> SeenKey(AfterRead(s, q), id).keyHash != p.op.key.keyHash
    {
      if EntityKey(id) == Reads(q)[q.next] {
        assert EntityKey(id) in s.store;
        assert Stores(Held(s), id);
      } else {
        assert SawKey(q, id);
      }
    }
  }

  lemma ReadKeepsInv(s: System, s': System, pid: nat)
    requires Inv(s) && Read(s, s', pid)
    ensures Inv(s')
  {
    var p := s.processes[pid];
    ReadKeepsProcess(s, p);
    forall other <- s'.processes
      ensures ProcessOk(s', s'.processes[other])
    {
      assert ProcessOk(s, s.processes[other]);
    }
    forall first <- s'.processes, second <- s'.processes | first != second
      ensures Apart(s'.processes[first], s'.processes[second])
    {
      assert Apart(s.processes[first], s.processes[second]);
      if second == pid {
        ReadKeepsApart(s, s.processes[first], p);
      }
    }
  }

  // ---- Committing: what was read is what is there ----

  lemma CurrentVersion(s: System, p: Process, key: Key, expected: Option<ETag>)
    requires ProcessOk(s, p) && WithinWindow(s, p) && key in p.snap && !key.HashLookup? && p.snap[key].Present?
    requires expected == p.snap[key].Expected() && Matches(Visible(s.store), key, expected)
    ensures key in s.store && key in p.seen && s.store[key].version == p.seen[key]
    ensures ShowsAt(p.snap, Held(s), key)
  {
    assert Tracks(s.store, p, key);
    SameETag(p.seen[key], s.store[key].version);
  }

  // The heart of the protocol: when a mutation's transaction succeeds, every record it
  // read, the collection index aside, is still the store's.
  lemma CommitShows(s: System, p: Process)
    requires Inv(s) && ProcessOk(s, p) && p.op.Mutation() && Commits(s, p) && WithinWindow(s, p)
    ensures Shows(p.snap, Held(s))
  {
    var batch, data := Decide(p.op, p.models, p.snap).batch, Held(s);
    MutationReads(p.op, p.models);
    assert Accepted(p.op, p.models, p.snap);
    assert batch == MutationBatch(p.op, p.snap);
    assert Reads(p)[..p.next] == Reads(p);
    EntityShows(s, p);
    forall key <- p.snap | key != GlobalIndex
      ensures ShowsAt(p.snap, data, key)
    {
      assert Writes(p.op, key) && key in batch;
      match key
      case EntityKey(_) =>
      case HashLookup(hash) => LookupShows(s, p, key);
      case IndexKey(ref) => IndexShows(s, p, ref);
      case SubjectKey(ref) => SubjectShows(s, p, ref);
    }
  }

  lemma EntityShows(s: System, p: Process)
    requires Inv(s) && ProcessOk(s, p) && p.op.Mutation() && Commits(s, p) && WithinWindow(s, p)
    ensures EntityKey(p.op.KeyID()) in p.snap && ShowsAt(p.snap, Held(s), EntityKey(p.op.KeyID()))
    ensures !p.op.CreateKey? ==> Stores(Held(s), p.op.KeyID()) && Stored(Held(s), p.op.KeyID()) == p.op.previous
    ensures !p.op.CreateKey? ==> SawKey(p, p.op.KeyID()) && SeenKey(p, p.op.KeyID()) == p.op.previous
    ensures !p.op.CreateKey? ==> EntityKey(p.op.KeyID()) in p.seen && p.seen[EntityKey(p.op.KeyID())] == s.store[EntityKey(p.op.KeyID())].version
  {
    var key, batch := EntityKey(p.op.KeyID()), Decide(p.op, p.models, p.snap).batch;
    assert key in Reads(p);
    assert Writes(p.op, key) && key in batch && Matches(Visible(s.store), key, batch[key].expected);
    if !p.op.CreateKey? {
      CurrentVersion(s, p, key, batch[key].expected);
    }
  }

  lemma SubjectShows(s: System, p: Process, ref: Ref)
    requires Inv(s) && ProcessOk(s, p) && p.op.Mutation() && Commits(s, p) && WithinWindow(s, p) && Involves(p.op, ref)
    ensures SubjectKey(ref) in p.snap && p.snap[SubjectKey(ref)].Present? && ShowsAt(p.snap, Held(s), SubjectKey(ref))
    ensures SubjectKey(ref) in p.seen && SubjectKey(ref) in s.store && s.store[SubjectKey(ref)].version == p.seen[SubjectKey(ref)]
  {
    var key, batch := SubjectKey(ref), Decide(p.op, p.models, p.snap).batch;
    assert Accepted(p.op, p.models, p.snap);
    SubjectFound(p.op, p.models, p.snap, ref);
    assert Writes(p.op, key) && key in batch && Matches(Visible(s.store), key, batch[key].expected);
    CurrentVersion(s, p, key, batch[key].expected);
  }

  // An accepted mutation found every subject it involves.
  lemma SubjectFound(op: Op, models: seq<ID>, snap: Snapshot, ref: Ref)
    requires Accepted(op, models, snap) && Involves(op, ref)
    ensures SubjectKey(ref) in snap && snap[SubjectKey(ref)].Present?
  {
    ReadsWhatItWrites(op, models, snap, SubjectKey(ref));
    if ref.ModelRef? {
      ModelReadsCover(op, models, snap);
      CheckedModel(models, ModelIDs(op.New()), op.KeyStatus(), snap, ref.id);
    }
  }

  lemma IndexShows(s: System, p: Process, ref: Ref)
    requires Inv(s) && ProcessOk(s, p) && p.op.Mutation() && Commits(s, p) && WithinWindow(s, p)
    requires Involves(p.op, ref) && IndexKey(ref) in p.snap
    ensures ShowsAt(p.snap, Held(s), IndexKey(ref))
  {
    SubjectShows(s, p, ref);
    assert SubjectGuardsIndex(s.store, p, ref);
  }

  lemma LookupShows(s: System, p: Process, key: Key)
    requires Inv(s) && ProcessOk(s, p) && p.op.Mutation() && Commits(s, p) && WithinWindow(s, p)
    requires key in p.snap && key.HashLookup?
    ensures ShowsAt(p.snap, Held(s), key)
  {
    var data, order := Held(s), Reads(p);
    var i :| 0 <= i < |order| && order[i] == key;
    LookupAfterEntity(p.op, p.models, i);
    EntityShows(s, p);
    if key in data {
      assert Stores(data, data[key].id) && Stored(data, data[key].id).keyHash == key.hash;
    }
  }
}
