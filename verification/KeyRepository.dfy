// The virtual-key repository's methods as code over a store, proved to make the
// decision and the write that the protocol model makes from what they read.
module KeyRepository {
  import opened Options
  import opened Domain
  import opened EtagStore
  import opened KeyStore
  import opened KeyIntegrity
  import opened KeyQueries
  import opened KeyReads

  // ---- The sorted union of two ID lists ----

  // Byte order on strings.
  predicate Precedes(left: string, right: string) {
    left == "" || (right != "" && (left[0] < right[0] || (left[0] == right[0] && Precedes(left[1..], right[1..]))))
  }

  function Insert(id: ID, sorted: seq<ID>): seq<ID> {
    if sorted == [] || Precedes(id, sorted[0]) then [id] + sorted
    else [sorted[0]] + Insert(id, sorted[1..])
  }

  function SortIDs(ids: seq<ID>): seq<ID> {
    if ids == [] then [] else Insert(ids[0], SortIDs(ids[1..]))
  }

  function Union(ids: seq<ID>, more: seq<ID>): seq<ID>
    decreases |more|
  {
    if more == [] then ids else Union(AddID(ids, more[0]), more[1..])
  }

  // The order in which the code visits the models of the old and of the new key.
  function ModelsOf(op: Op): seq<ID> {
    SortIDs(Union(Union([], ModelIDs(op.Old())), ModelIDs(op.New())))
  }

  lemma {:induction false} InsertMembers(id: ID, sorted: seq<ID>)
    ensures forall other :: other in Insert(id, sorted) <==> other == id || other in sorted
    ensures NoDuplicates(sorted) && id !in sorted ==> NoDuplicates(Insert(id, sorted))
  {
    if sorted != [] && !Precedes(id, sorted[0]) {
      InsertMembers(id, sorted[1..]);
      assert forall other :: other in sorted <==> other == sorted[0] || other in sorted[1..];
      if NoDuplicates(sorted) && id !in sorted {
        assert NoDuplicates(sorted[1..]);
        ConcatDistinct([sorted[0]], Insert(id, sorted[1..]));
      }
    } else if id !in sorted && NoDuplicates(sorted) {
      ConcatDistinct([id], sorted);
    }
  }

  lemma {:induction false} SortMembers(ids: seq<ID>)
    ensures forall id :: id in SortIDs(ids) <==> id in ids
    ensures NoDuplicates(ids) ==> NoDuplicates(SortIDs(ids))
  {
    if ids != [] {
      SortMembers(ids[1..]);
      InsertMembers(ids[0], SortIDs(ids[1..]));
      assert forall id :: id in ids <==> id == ids[0] || id in ids[1..];
      assert NoDuplicates(ids) ==> NoDuplicates(ids[1..]) && ids[0] !in ids[1..];
    }
  }

  // They agree up to `k`, where the left ends or has the smaller byte.
  predicate AtMostAt(left: string, right: string, k: nat) {
    && k <= |left| && k <= |right| && left[..k] == right[..k]
    && (k == |left| || (k < |right| && left[k] < right[k]))
  }

  ghost predicate AtMost(left: string, right: string) {
    exists k: nat :: AtMostAt(left, right, k)
  }

  ghost predicate Sorted(ids: seq<ID>) {
    forall i, j :: 0 <= i < j < |ids| ==> AtMost(ids[i], ids[j])
  }

  lemma {:induction false} PrecedesAtMost(left: string, right: string)
    requires Precedes(left, right)
    ensures AtMost(left, right)
  {
    if left == "" || left[0] < right[0] {
      assert AtMostAt(left, right, 0);
    } else {
      PrecedesAtMost(left[1..], right[1..]);
      var k: nat :| AtMostAt(left[1..], right[1..], k);
      assert left[..k + 1] == [left[0]] + left[1..][..k] && right[..k + 1] == [right[0]] + right[1..][..k];
      assert AtMostAt(left, right, k + 1);
    }
  }

  lemma {:induction false} PrecedesTotal(left: string, right: string)
    ensures Precedes(left, right) || Precedes(right, left)
  {
    if left != "" && right != "" && left[0] == right[0] {
      PrecedesTotal(left[1..], right[1..]);
    }
  }

  lemma {:induction false} PrecedesTransitive(a: string, b: string, c: string)
    requires Precedes(a, b) && Precedes(b, c)
    ensures Precedes(a, c)
  {
    if a != "" && a[0] == b[0] && b[0] == c[0] {
      PrecedesTransitive(a[1..], b[1..], c[1..]);
    }
  }

  ghost predicate Ordered(ids: seq<ID>) {
    forall i, j :: 0 <= i < j < |ids| ==> Precedes(ids[i], ids[j])
  }

  lemma {:induction false} InsertOrdered(id: ID, sorted: seq<ID>)
    requires Ordered(sorted)
    ensures Ordered(Insert(id, sorted))
  {
    hide Precedes;
    if sorted != [] {
      PrecedesTotal(id, sorted[0]);
      if Precedes(id, sorted[0]) {
        forall other <- sorted
          ensures Precedes(id, other)
        {
          if other != sorted[0] {
            PrecedesTransitive(id, sorted[0], other);
          }
        }
      } else {
        InsertOrdered(id, sorted[1..]);
        InsertMembers(id, sorted[1..]);
        forall other <- Insert(id, sorted[1..])
          ensures Precedes(sorted[0], other)
        {
        }
      }
    }
  }

  lemma {:induction false} SortOrdered(ids: seq<ID>)
    ensures Ordered(SortIDs(ids)) && Sorted(SortIDs(ids))
  {
    hide Precedes;
    hide AtMost;
    if ids != [] {
      SortOrdered(ids[1..]);
      InsertOrdered(ids[0], SortIDs(ids[1..]));
    }
    var sorted := SortIDs(ids);
    forall i, j | 0 <= i < j < |sorted|
      ensures AtMost(sorted[i], sorted[j])
    {
      PrecedesAtMost(sorted[i], sorted[j]);
    }
  }

  lemma {:induction false} UnionMembers(ids: seq<ID>, more: seq<ID>)
    ensures forall id :: id in Union(ids, more) <==> id in ids || id in more
    ensures NoDuplicates(ids) ==> NoDuplicates(Union(ids, more))
    decreases |more|
  {
    if more != [] {
      UnionMembers(AddID(ids, more[0]), more[1..]);
      assert forall id :: id in more <==> id == more[0] || id in more[1..];
    }
  }

  lemma {:induction false} UnionAppend(ids: seq<ID>, more: seq<ID>, id: ID)
    ensures Union(ids, more + [id]) == AddID(Union(ids, more), id)
    decreases |more|
  {
    var all := more + [id];
    if more == [] {
      assert all[1..] == [];
    } else {
      assert all[0] == more[0] && all[1..] == more[1..] + [id];
      UnionAppend(AddID(ids, more[0]), more[1..], id);
    }
  }

  lemma UnionIsSorted(oldIDs: seq<ID>, newIDs: seq<ID>)
    ensures var all := SortIDs(Union(Union([], oldIDs), newIDs));
            Sorted(all) && NoDuplicates(all) && forall id :: id in all <==> id in oldIDs || id in newIDs
  {
    UnionMembers([], oldIDs);
    UnionMembers(Union([], oldIDs), newIDs);
    SortMembers(Union(Union([], oldIDs), newIDs));
    SortOrdered(Union(Union([], oldIDs), newIDs));
  }

  // The visiting order is one the protocol allows.
  lemma ModelsOfOrder(op: Op)
    ensures ModelOrder(op, ModelsOf(op))
  {
    UnionMembers([], ModelIDs(op.Old()));
    UnionMembers(Union([], ModelIDs(op.Old())), ModelIDs(op.New()));
    SortMembers(Union(Union([], ModelIDs(op.Old())), ModelIDs(op.New())));
  }

  // ---- What the whole method does to a store ----

  ghost function OutcomeOn(table: KeyTable, op: Op): Outcome {
    Decide(op, ModelsOf(op), ReadNow(table, op, ModelsOf(op)))
  }

  ghost function TableAfter(table: KeyTable, op: Op): KeyTable {
    var outcome := OutcomeOn(table, op);
    if outcome.Commit? then Committed(table, outcome.batch) else table
  }

  ghost function ReplyOn(table: KeyTable, op: Op): Result<(), Error> {
    var outcome := OutcomeOn(table, op);
    if outcome.Reject? then Err(outcome.error) else Ok(())
  }

  // ---- The repository ----

  datatype Found = Found(subject: Subject, etag: ETag)

  datatype IndexMutation = IndexMutation(subject: Found, ids: seq<ID>, expected: Option<ETag>)

  function FoundIn(table: KeyTable, ref: Ref): Result<Option<Found>, Error> {
    var entry := Lookup(table, SubjectKey(ref));
    var subject :- AsSubject(entry, ref);
    Ok(if subject.None? then None else Some(Found(subject.value, entry.etag)))
  }

  class VirtualKeyRepository {
    const store: MemoryStore<Key, Value>

    constructor (store: MemoryStore<Key, Value>)
      ensures this.store == store
    {
      this.store := store;
    }

    method ReadSubject(ref: Ref) returns (found: Result<Option<Found>, Error>)
      ensures found == FoundIn(store.values, ref)
    {
      var entry := store.Get(SubjectKey(ref));
      match entry {
        case Absent => found := Ok(None);
        case Present(SubjectValue(subject), etag) =>
          if subject.Ref() == ref {
            found := Ok(Some(Found(subject, etag)));
          } else {
            found := Err(Corrupt);
          }
        case Present(_, _) => found := Err(Corrupt);
      }
    }

    method ReadIndex(key: Key) returns (index: Result<(seq<ID>, Option<ETag>), Error>)
      ensures match AsIndex(Lookup(store.values, key))
              case Err(error) => index == Err(error)
              case Ok(ids) => index == Ok((ids, Lookup(store.values, key).Expected()))
    {
      var entry := store.Get(key);
      match entry {
        case Absent => index := Ok(([], None));
        case Present(IndexValue(ids), etag) => index := Ok((ids, Some(etag)));
        case Present(_, _) => index := Err(Corrupt);
      }
    }

    method GetVirtualKey(id: ID) returns (key: Result<VirtualKey, Error>)
      ensures key == KeyAt(store.values, id)
    {
      var entry := store.Get(EntityKey(id));
      match entry {
        case Absent => key := Err(NotFound);
        case Present(KeyValue(stored), _) => key := Ok(stored);
        case Present(_, _) => key := Err(Corrupt);
      }
    }

    method GetVirtualKeyByHash(hash: string) returns (key: Result<VirtualKey, Error>)
      ensures key == KeyByHash(store.values, hash)
    {
      var entry := store.Get(HashLookup(hash));
      match entry {
        case Absent => key := Err(NotFound);
        case Present(LookupValue(id), _) => key := GetVirtualKey(id);
        case Present(_, _) => key := Err(Corrupt);
      }
    }

    // A user's or a model's subject.
    method GetSubject(ref: Ref) returns (subject: Result<Subject, Error>)
      ensures subject == SubjectAt(store.values, ref)
    {
      var found := ReadSubject(ref);
      match found {
        case Err(error) => subject := Err(error);
        case Ok(None) => subject := Err(NotFound);
        case Ok(Some(stored)) => subject := Ok(stored.subject);
      }
    }

    // The keys of the collection index, or of a user's.
    method ListVirtualKeys(index: Key) returns (keys: Result<seq<VirtualKey>, Error>)
      ensures keys == ListKeys(store.values, index)
    {
      var read := ReadIndex(index);
      if read.Err? {
        return Err(read.error);
      }
      var ids, found: seq<VirtualKey> := read.value.0, [];
      PrependedNone(KeysOn(store.values, ids));
      assert ids[0..] == ids;
      for i := 0 to |ids|
        invariant KeysOn(store.values, ids) == Prepended(found, KeysOn(store.values, ids[i..]))
      {
        assert ids[i..][0] == ids[i] && ids[i..][1..] == ids[i + 1..];
        var key := GetVirtualKey(ids[i]);
        if key.Ok? {
          PrependedTwice(found, [key.value], KeysOn(store.values, ids[i + 1..]));
          found := found + [key.value];
        } else if key.error != NotFound {
          return Err(key.error);
        }
      }
      assert found + [] == found;
      return Ok(found);
    }

    // The transaction of a method that nothing interrupted.
    method Transact(operations: seq<Operation<Key, Value>>) returns (reply: Result<(), Error>)
      requires Supported(operations) && DistinctKeys(operations)
      modifies store
      ensures BatchMatches(old(store.values), BatchOf(operations)) ==>
                reply == Ok(()) && store.values == Committed(old(store.values), BatchOf(operations))
      ensures !BatchMatches(old(store.values), BatchOf(operations)) ==> reply == Err(Conflict) && store.values == old(store.values)
    {
      AppliedIsCommitted(store.values, operations);
      var result := store.Transact(operations);
      reply := if result.Ok? then Ok(()) else Err(Conflict);
    }

    method CheckModelIDs(ids: seq<ID>) returns (valid: bool)
      ensures valid <==> "" !in ids && NoDuplicates(ids)
      ensures valid <==> ValidModelIDs(ids)
    {
      var seen: set<ID> := {};
      for i := 0 to |ids|
        invariant seen == set id <- ids[..i]
        invariant ValidModelIDs(ids[..i])
      {
        if ids[i] == "" || ids[i] in seen {
          assert ids[i] in ids[..i] ==> exists j :: 0 <= j < i && ids[j] == ids[i];
          return false;
        }
        seen := seen + {ids[i]};
        assert ids[..i + 1] == ids[..i] + [ids[i]];
      }
      assert ids[..|ids|] == ids;
      return true;
    }

    method SortedUnion(oldIDs: seq<ID>, newIDs: seq<ID>) returns (all: seq<ID>)
      ensures all == SortIDs(Union(Union([], oldIDs), newIDs))
    {
      all := [];
      for i := 0 to |oldIDs|
        invariant all == Union([], oldIDs[..i])
      {
        UnionAppend([], oldIDs[..i], oldIDs[i]);
        assert oldIDs[..i + 1] == oldIDs[..i] + [oldIDs[i]];
        if oldIDs[i] !in all {
          all := all + [oldIDs[i]];
        }
      }
      assert oldIDs[..|oldIDs|] == oldIDs;
      for i := 0 to |newIDs|
        invariant all == Union(Union([], oldIDs), newIDs[..i])
      {
        UnionAppend(Union([], oldIDs), newIDs[..i], newIDs[i]);
        assert newIDs[..i + 1] == newIDs[..i] + [newIDs[i]];
        if newIDs[i] !in all {
          all := all + [newIDs[i]];
        }
      }
      assert newIDs[..|newIDs|] == newIDs;
      all := SortIDs(all);
    }

    ghost predicate Prepared(models: seq<ID>, mutations: map<ID, IndexMutation>)
      reads store
    {
      forall id <- models :: id in mutations && FoundIn(store.values, ModelRef(id)) == Ok(Some(mutations[id].subject))
                             && AsIndex(Lookup(store.values, IndexKey(ModelRef(id)))) == Ok(mutations[id].ids)
                             && mutations[id].expected == Lookup(store.values, IndexKey(ModelRef(id))).Expected()
    }

    // Reads each model's subject and then its index, in order.
    method PrepareModels(models: seq<ID>, kept: seq<ID>, status: Status, ghost snap: Snapshot)
      returns (prepared: Result<map<ID, IndexMutation>, Error>)
      requires forall id <- models :: SubjectKey(ModelRef(id)) in snap && IndexKey(ModelRef(id)) in snap
      requires forall key <- snap :: snap[key] == Lookup(store.values, key)
      ensures match CheckModels(models, kept, status, snap)
              case Err(error) => prepared == Err(error)
              case Ok(_) => prepared.Ok? && Prepared(models, prepared.value)
    {
      var mutations: map<ID, IndexMutation> := map[];
      for i := 0 to |models|
        invariant CheckModels(models, kept, status, snap) == CheckModels(models[i..], kept, status, snap)
        invariant Prepared(models[..i], mutations)
      {
        var id, ref := models[i], ModelRef(models[i]);
        assert models[i..][0] == id && models[i..][1..] == models[i + 1..];
        assert snap[SubjectKey(ref)] == Lookup(store.values, SubjectKey(ref));
        assert snap[IndexKey(ref)] == Lookup(store.values, IndexKey(ref));
        var found := ReadSubject(ref);
        if found.Err? {
          return Err(found.error);
        }
        if id in kept {
          if found.value.None? || found.value.value.subject.deleted || !found.value.value.subject.status.Valid()
             || (status == Active && found.value.value.subject.status != Active)
          {
            return Err(Conflict);
          }
        } else if found.value.None? || found.value.value.subject.deleted {
          return Err(Conflict);
        }
        var index := ReadIndex(IndexKey(ref));
        if index.Err? {
          return Err(index.error);
        }
        mutations := mutations[id := IndexMutation(found.value.value, index.value.0, index.value.1)];
        assert models[..i + 1] == models[..i] + [id];
      }
      assert models[..|models|] == models;
      return Ok(mutations);
    }

    // One index write and one touch for each model.
    method ModelOperations(models: seq<ID>, mutations: map<ID, IndexMutation>, keyID: ID, oldIDs: seq<ID>, newIDs: seq<ID>,
                           ghost op: Op, ghost snap: Snapshot)
      returns (operations: seq<Operation<Key, Value>>)
      requires op.Mutation() && ModelOrder(op, models) && Prepared(models, mutations)
      requires keyID == op.KeyID() && oldIDs == ModelIDs(op.Old()) && newIDs == ModelIDs(op.New())
      requires forall key <- snap :: snap[key] == Lookup(store.values, key)
      requires forall id <- models :: SubjectKey(ModelRef(id)) in snap && IndexKey(ModelRef(id)) in snap
      ensures Lists(operations, MutationBatch(op, snap), ModelReads(models))
    {
      operations := [];
      for i := 0 to |models|
        invariant Lists(operations, MutationBatch(op, snap), ModelReads(models[..i]))
      {
        var id, ref := models[i], ModelRef(models[i]);
        var ids := mutations[id].ids;
        if id in oldIDs && id !in newIDs {
          ids := RemoveID(ids, keyID);
        }
        if id in newIDs {
          ids := AddID(ids, keyID);
        }
        var write := Upsert(IndexKey(ref), IndexValue(ids), mutations[id].expected);
        var touch := Upsert(SubjectKey(ref), SubjectValue(mutations[id].subject.subject), Some(mutations[id].subject.etag));
        ModelWrites(store.values, op, snap, id, mutations[id], write, touch);
        ModelStep(operations, MutationBatch(op, snap), models, i, write, touch);
        operations := operations + [write, touch];
      }
      assert models[..|models|] == models;
    }

    // Commits the writes of an accepted mutation.
    method CommitMutation(operations: seq<Operation<Key, Value>>, ghost op: Op, ghost keys: seq<Key>)
      returns (reply: Result<(), Error>)
      requires op.Mutation() && OutcomeOn(store.values, op).Commit?
      requires Lists(operations, MutationBatch(op, ReadNow(store.values, op, ModelsOf(op))), keys)
      requires forall key :: Writes(op, key) ==> key in keys
      modifies store
      ensures reply == ReplyOn(old(store.values), op) && store.values == TableAfter(old(store.values), op)
    {
      ghost var snap := ReadNow(store.values, op, ModelsOf(op));
      ModelsOfOrder(op);
      ListsAll(operations, MutationBatch(op, snap), keys);
      ReadNowMatches(store.values, op, ModelsOf(op));
      reply := Transact(operations);
    }

    // ---- The checks of a mutation, in the order of its reads ----

    ghost predicate Reading(op: Op, snap: Snapshot)
      reads store
    {
      op.Mutation() && snap == ReadNow(store.values, op, ModelsOf(op))
    }

    method ReadEntity(op: Op, ghost snap: Snapshot) returns (etag: Result<Option<ETag>, Error>)
      requires Reading(op, snap)
      ensures EntityKey(op.KeyID()) in snap
      ensures match CheckEntity(op, snap)
              case Fail(error) => etag == Err(error)
              case Pass => etag == Ok(snap[EntityKey(op.KeyID())].Expected())
    {
      ReadsCover(store.values, op);
      assert Writes(op, EntityKey(op.KeyID()));
      var entity := store.Get(EntityKey(op.KeyID()));
      if op.CreateKey? {
        etag := if entity.Present? then Err(Conflict) else Ok(None);
      } else if entity.Absent? {
        etag := Err(NotFound);
      } else if !entity.value.KeyValue? {
        etag := Err(Corrupt);
      } else {
        etag := if entity.value.key == op.previous then Ok(Some(entity.etag)) else Err(Conflict);
      }
    }

    method ReadLookup(op: Op, ghost snap: Snapshot) returns (check: Check<Error>)
      requires Reading(op, snap)
      ensures op.New().Some? ==> HashLookup(op.New().value.keyHash) in snap
      ensures check == CheckLookup(op, snap)
    {
      ReadsCover(store.values, op);
      check := Pass;
      if op.New().Some? {
        var entry := store.Get(HashLookup(op.New().value.keyHash));
        if entry.Present? && (op.CreateKey? || entry.value != LookupValue(op.key.id)) {
          check := Fail(Conflict);
        }
      }
    }

    method ReadOwners(op: Op, ghost snap: Snapshot) returns (owners: Result<Owned, Error>)
      requires Reading(op, snap)
      ensures op.Old().Some? ==> SubjectKey(UserRef(op.Old().value.userID)) in snap
      ensures op.New().Some? ==> SubjectKey(UserRef(op.New().value.userID)) in snap
      ensures match CheckOwners(op, snap)
              case Err(error) => owners == Err(error)
              case Ok(_) => owners.Ok? && OwnersFound(op, owners.value, store.values)
    {
      ReadsCover(store.values, op);
      assert forall owner: Ref :: Involves(op, owner) ==> Writes(op, SubjectKey(owner));
      var before, after: Option<Found> := None, None;
      if op.Old().Some? {
        var found := ReadSubject(UserRef(op.Old().value.userID));
        if found.Err? {
          return Err(found.error);
        }
        if found.value.None? {
          return Err(Conflict);
        }
        before := found.value;
      }
      if op.New().Some? {
        var found := ReadSubject(UserRef(op.New().value.userID));
        if found.Err? {
          return Err(found.error);
        }
        if !CanBack(SubjectOf(found.value), op.New().value.status) {
          return Err(Conflict);
        }
        after := found.value;
      }
      return Ok(Owned(before, after));
    }

    method ReadIndexes(op: Op, ghost snap: Snapshot) returns (indexes: Result<Indexes, Error>)
      requires Reading(op, snap)
      ensures op.ReplaceKey? || GlobalIndex in snap
      ensures op.Old().Some? ==> IndexKey(UserRef(op.Old().value.userID)) in snap
      ensures op.New().Some? ==> IndexKey(UserRef(op.New().value.userID)) in snap
      ensures match CheckIndexes(op, snap)
              case Err(error) => indexes == Err(error)
              case Ok(_) => indexes.Ok? && IndexesFound(op, indexes.value, store.values)
    {
      ReadsCover(store.values, op);
      assert forall owner: Ref :: Involves(op, owner) ==> Writes(op, IndexKey(owner));
      assert Writes(op, GlobalIndex) <==> !op.ReplaceKey?;
      var global, before, after: (seq<ID>, Option<ETag>) := ([], None), ([], None), ([], None);
      if !op.ReplaceKey? {
        var index := ReadIndex(GlobalIndex);
        if index.Err? {
          return Err(index.error);
        }
        global := index.value;
      }
      if op.Old().Some? {
        var index := ReadIndex(IndexKey(UserRef(op.Old().value.userID)));
        if index.Err? {
          return Err(index.error);
        }
        before := index.value;
      }
      if op.New().Some? {
        var index := ReadIndex(IndexKey(UserRef(op.New().value.userID)));
        if index.Err? {
          return Err(index.error);
        }
        after := index.value;
      }
      return Ok(Indexes(global, before, after));
    }

    // All reads and checks of a mutation.
    method ReadMutation(op: Op, ghost snap: Snapshot) returns (found: Result<Reads, Error>)
      requires Reading(op, snap)
      ensures match CheckMutation(op, ModelsOf(op), snap)
              case Err(error) => found == Err(error)
              case Ok(_) => found.Ok? && Gathered(op, found.value)
    {
      hide ValidModelIDs;
      hide NoDuplicates;
      hide SortIDs;
      hide Union;
      ReadsCover(store.values, op);
      if (op.ReplaceKey? && op.previous.id != op.key.id) || (op.New().Some? && op.New().value.modelIDs == []) {
        return Err(Conflict);
      }
      var etag := ReadEntity(op, snap);
      if etag.Err? {
        return Err(etag.error);
      }
      var check := ReadLookup(op, snap);
      if check.Fail? {
        return Err(check.error);
      }
      var owners := ReadOwners(op, snap);
      if owners.Err? {
        return Err(owners.error);
      }
      var validOld := CheckModelIDs(ModelIDs(op.Old()));
      if !validOld {
        return Err(Conflict);
      }
      var validNew := CheckModelIDs(ModelIDs(op.New()));
      if !validNew {
        return Err(Conflict);
      }
      var models := SortedUnion(ModelIDs(op.Old()), ModelIDs(op.New()));
      var mutations := PrepareModels(models, ModelIDs(op.New()), op.KeyStatus(), snap);
      if mutations.Err? {
        return Err(mutations.error);
      }
      var indexes := ReadIndexes(op, snap);
      if indexes.Err? {
        return Err(indexes.error);
      }
      return Ok(Reads(etag.value, owners.value, models, mutations.value, indexes.value));
    }

    ghost predicate Gathered(op: Op, found: Reads)
      requires op.Mutation()
      reads store
    {
      && found.entity == Lookup(store.values, EntityKey(op.KeyID())).Expected()
      && OwnersFound(op, found.owners, store.values)
      && found.models == ModelsOf(op) && Prepared(found.models, found.mutations)
      && IndexesFound(op, found.indexes, store.values)
    }

    // ---- The methods ----

    method CreateVirtualKey(key: VirtualKey) returns (reply: Result<(), Error>)
      modifies store
      ensures reply == ReplyOn(old(store.values), CreateKey(key))
      ensures store.values == TableAfter(old(store.values), CreateKey(key))
    {
      var op := CreateKey(key);
      ghost var snap := ReadNow(store.values, op, ModelsOf(op));
      var found := ReadMutation(op, snap);
      if found.Err? {
        return Err(found.error);
      }
      var owner, indexes, subject := UserRef(key.userID), found.value.indexes, found.value.owners.after.value;
      var operations := [
        Upsert(EntityKey(key.id), KeyValue(key), None),
        Upsert(GlobalIndex, IndexValue(AddID(indexes.global.0, key.id)), indexes.global.1),
        Upsert(HashLookup(key.keyHash), LookupValue(key.id), None),
        Upsert(IndexKey(owner), IndexValue(AddID(indexes.after.0, key.id)), indexes.after.1),
        Upsert(SubjectKey(owner), SubjectValue(subject.subject), Some(subject.etag))];
      CreateList(store.values, op, snap, found.value, operations);
      reply := Finish(operations, found.value, op, snap);
    }

    method ReplaceVirtualKey(oldKey: VirtualKey, key: VirtualKey) returns (reply: Result<(), Error>)
      modifies store
      ensures reply == ReplyOn(old(store.values), ReplaceKey(oldKey, key))
      ensures store.values == TableAfter(old(store.values), ReplaceKey(oldKey, key))
    {
      var op := ReplaceKey(oldKey, key);
      ghost var snap := ReadNow(store.values, op, ModelsOf(op));
      var found := ReadMutation(op, snap);
      if found.Err? {
        return Err(found.error);
      }
      var operations := [Upsert(EntityKey(key.id), KeyValue(key), found.value.entity)]
        + ReplacedLookups(oldKey, key) + ReplacedOwners(oldKey, key, found.value);
      ReadsCover(store.values, op);
      ReplaceList(store.values, op, snap, found.value);
      reply := Finish(operations, found.value, op, snap);
    }

    method DeleteVirtualKey(key: VirtualKey) returns (reply: Result<(), Error>)
      modifies store
      ensures reply == ReplyOn(old(store.values), DeleteKey(key))
      ensures store.values == TableAfter(old(store.values), DeleteKey(key))
    {
      var op := DeleteKey(key);
      ghost var snap := ReadNow(store.values, op, ModelsOf(op));
      var found := ReadMutation(op, snap);
      if found.Err? {
        return Err(found.error);
      }
      var owner, indexes, subject := UserRef(key.userID), found.value.indexes, found.value.owners.before.value;
      var operations := [
        Delete(EntityKey(key.id), found.value.entity),
        Upsert(GlobalIndex, IndexValue(RemoveID(indexes.global.0, key.id)), indexes.global.1),
        Delete(HashLookup(key.keyHash), None),
        Upsert(IndexKey(owner), IndexValue(RemoveID(indexes.before.0, key.id)), indexes.before.1),
        Upsert(SubjectKey(owner), SubjectValue(subject.subject), Some(subject.etag))];
      DeleteList(store.values, op, snap, found.value, operations);
      reply := Finish(operations, found.value, op, snap);
    }

    method Sync(subject: Subject) returns (reply: Result<(), Error>)
      modifies store
      ensures reply == ReplyOn(old(store.values), SyncSubject(subject))
      ensures store.values == TableAfter(old(store.values), SyncSubject(subject))
    {
      if !ValidPayload(subject) || subject.deleted {
        return Err(Conflict);
      }
      reply := Project(SyncSubject(subject));
    }

    method Fence(subject: Subject) returns (reply: Result<(), Error>)
      modifies store
      ensures reply == ReplyOn(old(store.values), FenceSubject(subject))
      ensures store.values == TableAfter(old(store.values), FenceSubject(subject))
    {
      if !ValidPayload(subject) || !subject.deleted {
        return Err(Conflict);
      }
      reply := Project(FenceSubject(subject));
    }

    // The shared part of a synchronisation and a fence, after their payload checks.
    method Project(op: Op) returns (reply: Result<(), Error>)
      requires !op.Mutation() && ValidPayload(op.subject) && op.subject.deleted == op.FenceSubject?
      modifies store
      ensures reply == ReplyOn(old(store.values), op) && store.values == TableAfter(old(store.values), op)
    {
      var key, ref := SubjectKey(op.subject.Ref()), op.subject.Ref();
      ghost var snap := ReadNow(store.values, op, ModelsOf(op));
      assert key in ReadOrder(op, ModelsOf(op)) && snap[key] == Lookup(store.values, key);
      var current := ReadSubject(ref);
      if current.Err? {
        return Err(current.error);
      }
      if op.FenceSubject? {
        assert IndexKey(ref) in ReadOrder(op, ModelsOf(op)) && snap[IndexKey(ref)] == Lookup(store.values, IndexKey(ref));
        var index := ReadIndex(IndexKey(ref));
        if index.Err? {
          return Err(index.error);
        }
        if index.value.0 != [] {
          return Err(Conflict);
        }
      }
      var idempotent := CompareUpdate(SubjectOf(current.value), op.subject);
      if idempotent.Err? {
        return Err(idempotent.error);
      }
      if idempotent.value {
        return Ok(());
      }
      var operations := [Upsert(key, SubjectValue(op.subject), if current.value.None? then None else Some(current.value.value.etag))];
      ReadNowMatches(store.values, op, ModelsOf(op));
      OneWrite(operations[0]);
      reply := Transact(operations);
    }

    // Adds the model writes and commits.
    method Finish(operations: seq<Operation<Key, Value>>, found: Reads, op: Op, ghost snap: Snapshot)
      returns (reply: Result<(), Error>)
      requires Reading(op, snap) && Gathered(op, found) && OutcomeOn(store.values, op).Commit?
      requires Lists(operations, MutationBatch(op, snap), OwnKeys(op))
      modifies store
      ensures reply == ReplyOn(old(store.values), op) && store.values == TableAfter(old(store.values), op)
    {
      ReadsCover(store.values, op);
      ModelsOfOrder(op);
      var modelOperations := ModelOperations(found.models, found.mutations, op.KeyID(), ModelIDs(op.Old()), ModelIDs(op.New()), op, snap);
      AllWrites(operations, modelOperations, op, snap, found.models);
      reply := CommitMutation(operations + modelOperations, op, OwnKeys(op) + ModelReads(found.models));
    }
  }

  lemma ModelWrites(table: KeyTable, op: Op, snap: Snapshot, id: ID, mutation: IndexMutation,
                    write: Operation<Key, Value>, touch: Operation<Key, Value>)
    requires op.Mutation() && Involves(op, ModelRef(id))
    requires SubjectKey(ModelRef(id)) in snap && snap[SubjectKey(ModelRef(id))] == Lookup(table, SubjectKey(ModelRef(id)))
    requires IndexKey(ModelRef(id)) in snap && snap[IndexKey(ModelRef(id))] == Lookup(table, IndexKey(ModelRef(id)))
    requires FoundIn(table, ModelRef(id)) == Ok(Some(mutation.subject))
    requires AsIndex(Lookup(table, IndexKey(ModelRef(id)))) == Ok(mutation.ids)
    requires mutation.expected == Lookup(table, IndexKey(ModelRef(id))).Expected()
    requires touch == Upsert(SubjectKey(ModelRef(id)), SubjectValue(mutation.subject.subject), Some(mutation.subject.etag))
    requires write.Upsert? && write.key == IndexKey(ModelRef(id)) && write.expected == mutation.expected
    requires write.value == IndexValue(if id in ModelIDs(op.New()) then AddID(mutation.ids, op.KeyID()) else RemoveID(mutation.ids, op.KeyID()))
    ensures Agrees(write, MutationBatch(op, snap)) && Agrees(touch, MutationBatch(op, snap))
  {
    ModelTouches(table, op, snap, id, mutation, touch);
    ModelIndexes(table, op, snap, id, mutation, write);
    hide MutationBatch;
    hide Agrees;
  }

  lemma ModelTouches(table: KeyTable, op: Op, snap: Snapshot, id: ID, mutation: IndexMutation, touch: Operation<Key, Value>)
    requires op.Mutation() && Involves(op, ModelRef(id))
    requires SubjectKey(ModelRef(id)) in snap && snap[SubjectKey(ModelRef(id))] == Lookup(table, SubjectKey(ModelRef(id)))
    requires FoundIn(table, ModelRef(id)) == Ok(Some(mutation.subject))
    requires touch == Upsert(SubjectKey(ModelRef(id)), SubjectValue(mutation.subject.subject), Some(mutation.subject.etag))
    ensures Agrees(touch, MutationBatch(op, snap))
  {
  }

  lemma ModelIndexes(table: KeyTable, op: Op, snap: Snapshot, id: ID, mutation: IndexMutation, write: Operation<Key, Value>)
    requires op.Mutation() && Involves(op, ModelRef(id))
    requires IndexKey(ModelRef(id)) in snap && snap[IndexKey(ModelRef(id))] == Lookup(table, IndexKey(ModelRef(id)))
    requires AsIndex(Lookup(table, IndexKey(ModelRef(id)))) == Ok(mutation.ids)
    requires mutation.expected == Lookup(table, IndexKey(ModelRef(id))).Expected()
    requires write.Upsert? && write.key == IndexKey(ModelRef(id)) && write.expected == mutation.expected
    requires write.value == IndexValue(if id in ModelIDs(op.New()) then AddID(mutation.ids, op.KeyID()) else RemoveID(mutation.ids, op.KeyID()))
    ensures Agrees(write, MutationBatch(op, snap))
  {
  }

  lemma ModelStep(operations: seq<Operation<Key, Value>>, batch: Batch<Key, Value>, models: seq<ID>, i: nat,
                  write: Operation<Key, Value>, touch: Operation<Key, Value>)
    requires NoDuplicates(models) && i < |models| && Lists(operations, batch, ModelReads(models[..i]))
    requires Agrees(write, batch) && Agrees(touch, batch)
    requires write.key == IndexKey(ModelRef(models[i])) && touch.key == SubjectKey(ModelRef(models[i]))
    ensures Lists(operations + [write, touch], batch, ModelReads(models[..i + 1]))
  {
    ModelReadsMembers(models[..i]);
    ModelReadsMembers(models[..i + 1]);
    assert models[..i + 1] == models[..i] + [models[i]];
    assert models[i] !in models[..i];
    ListsEach([write, touch], batch, [write.key, touch.key]);
    ListsJoin(operations, [write, touch], batch, ModelReads(models[..i]), [write.key, touch.key]);
    ElementsConcat(ModelReads(models[..i]), [write.key, touch.key]);
    assert forall id :: id in models[..i + 1] <==> id in models[..i] || id == models[i];
    assert Elements(ModelReads(models[..i + 1])) == Elements(ModelReads(models[..i])) + {write.key, touch.key};
    assert Elements([write.key, touch.key]) == {write.key, touch.key};
  }

  lemma OneWrite<K, V>(operation: Operation<K, V>)
    requires !operation.Unsupported?
    ensures BatchOf([operation]) == map[operation.key := WriteOf(operation)]
  {
    assert [operation][..0] == [];
  }

  // The keys a mutation writes, its models' aside.
  ghost function OwnKeys(op: Op): seq<Key>
    requires op.Mutation()
  {
    match op
    case CreateKey(key) => [EntityKey(key.id), GlobalIndex, HashLookup(key.keyHash), IndexKey(UserRef(key.userID)), SubjectKey(UserRef(key.userID))]
    case DeleteKey(key) => [EntityKey(key.id), GlobalIndex, HashLookup(key.keyHash), IndexKey(UserRef(key.userID)), SubjectKey(UserRef(key.userID))]
    case ReplaceKey(oldKey, key) => [EntityKey(key.id)] + ReplacedHashes(oldKey, key) + ReplacedOwnerKeys(oldKey, key)
  }

  ghost function ReplacedHashes(oldKey: VirtualKey, key: VirtualKey): seq<Key> {
    if oldKey.keyHash == key.keyHash then [HashLookup(key.keyHash)] else [HashLookup(oldKey.keyHash), HashLookup(key.keyHash)]
  }

  ghost function ReplacedOwnerKeys(oldKey: VirtualKey, key: VirtualKey): seq<Key> {
    var from, to := UserRef(oldKey.userID), UserRef(key.userID);
    if from == to then [IndexKey(to), SubjectKey(from)] else [IndexKey(from), IndexKey(to), SubjectKey(from), SubjectKey(to)]
  }

  lemma OwnKeysCover(op: Op)
    requires op.Mutation() && (op.ReplaceKey? ==> op.previous.id == op.key.id)
    ensures forall key :: Writes(op, key) <==>
                          key in OwnKeys(op) || ((key.SubjectKey? || key.IndexKey?) && key.ref.ModelRef? && Involves(op, key.ref))
    ensures forall key <- OwnKeys(op) :: (key.SubjectKey? || key.IndexKey?) ==> key.ref.UserRef?
  {
    forall key
      ensures key in OwnKeys(op) <==> Writes(op, key) && ((key.SubjectKey? || key.IndexKey?) ==> key.ref.UserRef?)
    {
      OwnKey(op, key);
    }
  }

  lemma OwnKey(op: Op, key: Key)
    requires op.Mutation() && (op.ReplaceKey? ==> op.previous.id == op.key.id)
    ensures key in OwnKeys(op) <==> Writes(op, key) && ((key.SubjectKey? || key.IndexKey?) ==> key.ref.UserRef?)
  {
    if op.ReplaceKey? {
      ReplacedKeys(op.previous, op.key, key);
    }
  }

  lemma ReplacedKeys(oldKey: VirtualKey, key: VirtualKey, other: Key)
    ensures other in ReplacedHashes(oldKey, key) <==> other == HashLookup(oldKey.keyHash) || other == HashLookup(key.keyHash)
    ensures other in ReplacedOwnerKeys(oldKey, key) <==>
            (other.IndexKey? || other.SubjectKey?) && (other.ref == UserRef(oldKey.userID) || other.ref == UserRef(key.userID))
  {
  }

  lemma AllWrites(operations: seq<Operation<Key, Value>>, modelOperations: seq<Operation<Key, Value>>, op: Op, snap: Snapshot, models: seq<ID>)
    requires op.Mutation() && ModelOrder(op, models) && (op.ReplaceKey? ==> op.previous.id == op.key.id)
    requires Lists(operations, MutationBatch(op, snap), OwnKeys(op)) && Lists(modelOperations, MutationBatch(op, snap), ModelReads(models))
    ensures Lists(operations + modelOperations, MutationBatch(op, snap), OwnKeys(op) + ModelReads(models))
    ensures forall key :: Writes(op, key) ==> key in OwnKeys(op) + ModelReads(models)
  {
    OwnKeysCover(op);
    ModelReadsMembers(models);
    ListsJoin(operations, modelOperations, MutationBatch(op, snap), OwnKeys(op), ModelReads(models));
  }

  // The old lookup goes if the hash changes; the new one is written either way.
  function ReplacedLookups(oldKey: VirtualKey, key: VirtualKey): seq<Operation<Key, Value>> {
    var put := Upsert(HashLookup(key.keyHash), LookupValue(key.id), None);
    if oldKey.keyHash == key.keyHash then [put] else [Delete(HashLookup(oldKey.keyHash), None), put]
  }

  // The owner's index and subject, or both owners' when the key moves.
  function ReplacedOwners(oldKey: VirtualKey, key: VirtualKey, found: Reads): seq<Operation<Key, Value>>
    requires found.owners.before.Some? && found.owners.after.Some?
  {
    var from, to, before, after := UserRef(oldKey.userID), UserRef(key.userID), found.owners.before.value, found.owners.after.value;
    var joined := Upsert(IndexKey(to), IndexValue(AddID(found.indexes.after.0, key.id)), found.indexes.after.1);
    var touched := Upsert(SubjectKey(from), SubjectValue(before.subject), Some(before.etag));
    if from == to then [joined, touched]
    else [Upsert(IndexKey(from), IndexValue(RemoveID(found.indexes.before.0, key.id)), found.indexes.before.1), joined,
          touched, Upsert(SubjectKey(to), SubjectValue(after.subject), Some(after.etag))]
  }

  lemma ReplaceList(table: KeyTable, op: Op, snap: Snapshot, found: Reads)
    requires op.ReplaceKey? && op.previous.id == op.key.id && FoundAll(table, op, snap, found)
    ensures Lists([Upsert(EntityKey(op.key.id), KeyValue(op.key), found.entity)] + ReplacedLookups(op.previous, op.key)
                    + ReplacedOwners(op.previous, op.key, found), MutationBatch(op, snap), OwnKeys(op))
  {
    var entity := [Upsert(EntityKey(op.key.id), KeyValue(op.key), found.entity)];
    var lookups, owners := ReplacedLookups(op.previous, op.key), ReplacedOwners(op.previous, op.key, found);
    var hashes, ownerKeys := ReplacedHashes(op.previous, op.key), ReplacedOwnerKeys(op.previous, op.key);
    EntityWrite(table, op, snap, entity[0]);
    hide MutationBatch;
    ListsEach(entity, MutationBatch(op, snap), [EntityKey(op.key.id)]);
    ListsEach(lookups, MutationBatch(op, snap), hashes);
    ListsJoin(entity, lookups, MutationBatch(op, snap), [EntityKey(op.key.id)], hashes);
    ReplacedOwnerWrites(table, op, snap, found);
    ListsJoin(entity + lookups, owners, MutationBatch(op, snap), [EntityKey(op.key.id)] + hashes, ownerKeys);
  }

  lemma ReplacedOwnerWrites(table: KeyTable, op: Op, snap: Snapshot, found: Reads)
    requires op.ReplaceKey? && op.previous.id == op.key.id && FoundAll(table, op, snap, found)
    ensures Lists(ReplacedOwners(op.previous, op.key, found), MutationBatch(op, snap), ReplacedOwnerKeys(op.previous, op.key))
  {
    var from, to := UserRef(op.previous.userID), UserRef(op.key.userID);
    var owners := ReplacedOwners(op.previous, op.key, found);
    if from == to {
      IndexWrite(table, op, snap, IndexKey(to), found.indexes.after, op.key.id, true, owners[0]);
      TouchWrite(table, op, snap, from, found.owners.before.value, owners[1]);
    } else {
      IndexWrite(table, op, snap, IndexKey(from), found.indexes.before, op.key.id, false, owners[0]);
      IndexWrite(table, op, snap, IndexKey(to), found.indexes.after, op.key.id, true, owners[1]);
      TouchWrite(table, op, snap, from, found.owners.before.value, owners[2]);
      TouchWrite(table, op, snap, to, found.owners.after.value, owners[3]);
    }
    ListsEach(owners, MutationBatch(op, snap), ReplacedOwnerKeys(op.previous, op.key));
  }

  // What the methods have read when they build their operation list.
  ghost predicate FoundAll(table: KeyTable, op: Op, snap: Snapshot, found: Reads) {
    && Sees(op, snap, table)
    && found.entity == Lookup(table, EntityKey(op.KeyID())).Expected()
    && OwnersFound(op, found.owners, table) && IndexesFound(op, found.indexes, table)
  }

  lemma CreateList(table: KeyTable, op: Op, snap: Snapshot, found: Reads, operations: seq<Operation<Key, Value>>)
    requires op.CreateKey? && snap == ReadNow(table, op, ModelsOf(op)) && Lookup(table, EntityKey(op.key.id)).Absent?
    requires OwnersFound(op, found.owners, table) && IndexesFound(op, found.indexes, table)
    requires var owner, subject := UserRef(op.key.userID), found.owners.after.value;
             operations == [
               Upsert(EntityKey(op.key.id), KeyValue(op.key), None),
               Upsert(GlobalIndex, IndexValue(AddID(found.indexes.global.0, op.key.id)), found.indexes.global.1),
               Upsert(HashLookup(op.key.keyHash), LookupValue(op.key.id), None),
               Upsert(IndexKey(owner), IndexValue(AddID(found.indexes.after.0, op.key.id)), found.indexes.after.1),
               Upsert(SubjectKey(owner), SubjectValue(subject.subject), Some(subject.etag))]
    ensures Lists(operations, MutationBatch(op, snap), OwnKeys(op))
  {
    ReadsCover(table, op);
    EntityWrite(table, op, snap, operations[0]);
    assert Agrees(operations[2], MutationBatch(op, snap)) by {
      assert Writes(op, HashLookup(op.key.keyHash));
    }
    OwnerWritesCorrect(table, op, snap, op.key, operations, found.indexes.global, found.indexes.after, found.owners.after.value);
  }

  lemma DeleteList(table: KeyTable, op: Op, snap: Snapshot, found: Reads, operations: seq<Operation<Key, Value>>)
    requires op.DeleteKey? && snap == ReadNow(table, op, ModelsOf(op)) && found.entity == Lookup(table, EntityKey(op.previous.id)).Expected()
    requires OwnersFound(op, found.owners, table) && IndexesFound(op, found.indexes, table)
    requires var owner, subject := UserRef(op.previous.userID), found.owners.before.value;
             operations == [
               Delete(EntityKey(op.previous.id), found.entity),
               Upsert(GlobalIndex, IndexValue(RemoveID(found.indexes.global.0, op.previous.id)), found.indexes.global.1),
               Delete(HashLookup(op.previous.keyHash), None),
               Upsert(IndexKey(owner), IndexValue(RemoveID(found.indexes.before.0, op.previous.id)), found.indexes.before.1),
               Upsert(SubjectKey(owner), SubjectValue(subject.subject), Some(subject.etag))]
    ensures Lists(operations, MutationBatch(op, snap), OwnKeys(op))
  {
    ReadsCover(table, op);
    EntityWrite(table, op, snap, operations[0]);
    assert Agrees(operations[2], MutationBatch(op, snap)) by {
      assert Writes(op, HashLookup(op.previous.keyHash));
    }
    OwnerWritesCorrect(table, op, snap, op.previous, operations, found.indexes.global, found.indexes.before, found.owners.before.value);
  }

  // The five writes a create or a delete makes beside its models'.
  lemma OwnerWritesCorrect(table: KeyTable, op: Op, snap: Snapshot, key: VirtualKey, operations: seq<Operation<Key, Value>>,
                           global: (seq<ID>, Option<ETag>), index: (seq<ID>, Option<ETag>), subject: Found)
    requires op.CreateKey? || op.DeleteKey?
    requires key == (if op.CreateKey? then op.key else op.previous) && Sees(op, snap, table)
    requires IndexFound(global, table, GlobalIndex) && IndexFound(index, table, IndexKey(UserRef(key.userID)))
    requires FoundIn(table, UserRef(key.userID)) == Ok(Some(subject)) && |operations| == 5
    requires Agrees(operations[0], MutationBatch(op, snap)) && operations[0].key == EntityKey(key.id)
    requires operations[1] == Upsert(GlobalIndex, IndexValue(if op.CreateKey? then AddID(global.0, key.id) else RemoveID(global.0, key.id)), global.1)
    requires Agrees(operations[2], MutationBatch(op, snap)) && operations[2].key == HashLookup(key.keyHash)
    requires operations[3] == Upsert(IndexKey(UserRef(key.userID)), IndexValue(if op.CreateKey? then AddID(index.0, key.id) else RemoveID(index.0, key.id)), index.1)
    requires operations[4] == Upsert(SubjectKey(UserRef(key.userID)), SubjectValue(subject.subject), Some(subject.etag))
    ensures Lists(operations, MutationBatch(op, snap), OwnKeys(op))
  {
    hide Lists;
    hide MutationBatch;
    hide Agrees;
    var owner := UserRef(key.userID);
    assert Agrees(operations[1], MutationBatch(op, snap)) by {
      IndexWrite(table, op, snap, GlobalIndex, global, key.id, op.CreateKey?, operations[1]);
    }
    assert Agrees(operations[3], MutationBatch(op, snap)) by {
      IndexWrite(table, op, snap, IndexKey(owner), index, key.id, op.CreateKey?, operations[3]);
    }
    assert Agrees(operations[4], MutationBatch(op, snap)) by {
      TouchWrite(table, op, snap, owner, subject, operations[4]);
    }
    var keys := OwnKeys(op);
    assert keys == [EntityKey(key.id), GlobalIndex, HashLookup(key.keyHash), IndexKey(owner), SubjectKey(owner)];
    assert forall i :: 0 <= i < 5 ==> operations[i].key == keys[i];
    ListsEach(operations, MutationBatch(op, snap), keys);
  }

  lemma EntityWrite(table: KeyTable, op: Op, snap: Snapshot, write: Operation<Key, Value>)
    requires Sees(op, snap, table) && !write.Unsupported?
    requires write.key == EntityKey(op.KeyID()) && write.expected == Lookup(table, write.key).Expected()
    requires if op.New().Some? then write.Upsert? && write.value == KeyValue(op.New().value) else write.Delete?
    ensures Agrees(write, MutationBatch(op, snap))
  {
    assert Writes(op, write.key);
  }

  lemma IndexWrite(table: KeyTable, op: Op, snap: Snapshot, key: Key, index: (seq<ID>, Option<ETag>), id: ID,
                   member: bool, write: Operation<Key, Value>)
    requires Sees(op, snap, table) && Writes(op, key) && (key.GlobalIndex? || key.IndexKey?)
    requires id == op.KeyID() && member == if key.GlobalIndex? then op.New().Some? else Named(op.New(), key.ref)
    requires IndexFound(index, table, key)
    requires write == Upsert(key, IndexValue(if member then AddID(index.0, id) else RemoveID(index.0, id)), index.1)
    ensures Agrees(write, MutationBatch(op, snap))
  {
  }

  lemma TouchWrite(table: KeyTable, op: Op, snap: Snapshot, ref: Ref, found: Found, touch: Operation<Key, Value>)
    requires Sees(op, snap, table) && Involves(op, ref)
    requires FoundIn(table, ref) == Ok(Some(found))
    requires touch == Upsert(SubjectKey(ref), SubjectValue(found.subject), Some(found.etag))
    ensures Agrees(touch, MutationBatch(op, snap))
  {
    assert Writes(op, SubjectKey(ref));
  }

  datatype Owned = Owned(before: Option<Found>, after: Option<Found>)

  datatype Indexes = Indexes(global: (seq<ID>, Option<ETag>), before: (seq<ID>, Option<ETag>), after: (seq<ID>, Option<ETag>))

  datatype Reads = Reads(entity: Option<ETag>, owners: Owned, models: seq<ID>, mutations: map<ID, IndexMutation>, indexes: Indexes)

  ghost predicate OwnersFound(op: Op, owners: Owned, table: KeyTable) {
    && (op.Old().Some? ==> owners.before.Some? && FoundIn(table, UserRef(op.Old().value.userID)) == Ok(owners.before))
    && (op.New().Some? ==> owners.after.Some? && FoundIn(table, UserRef(op.New().value.userID)) == Ok(owners.after))
  }

  ghost predicate IndexFound(index: (seq<ID>, Option<ETag>), table: KeyTable, key: Key) {
    AsIndex(Lookup(table, key)) == Ok(index.0) && index.1 == Lookup(table, key).Expected()
  }

  ghost predicate IndexesFound(op: Op, indexes: Indexes, table: KeyTable) {
    && (!op.ReplaceKey? ==> IndexFound(indexes.global, table, GlobalIndex))
    && (op.Old().Some? ==> IndexFound(indexes.before, table, IndexKey(UserRef(op.Old().value.userID))))
    && (op.New().Some? ==> IndexFound(indexes.after, table, IndexKey(UserRef(op.New().value.userID))))
  }

  function SubjectOf(found: Option<Found>): Option<Subject> {
    if found.None? then None else Some(found.value.subject)
  }

  // The snapshot has the table's record for every key the operation writes, lookups aside.
  ghost predicate Sees(op: Op, snap: Snapshot, table: KeyTable) {
    op.Mutation() && forall key :: Writes(op, key) && !key.HashLookup? ==> key in snap && snap[key] == Lookup(table, key)
  }

  lemma ReadsCover(table: KeyTable, op: Op)
    requires op.Mutation()
    ensures var snap := ReadNow(table, op, ModelsOf(op));
            && (forall key <- snap :: snap[key] == Lookup(table, key))
            && Sees(op, snap, table)
            && (op.New().Some? ==> HashLookup(op.New().value.keyHash) in snap)
            && (forall id <- ModelsOf(op) :: SubjectKey(ModelRef(id)) in snap && IndexKey(ModelRef(id)) in snap)
  {
    var snap := ReadNow(table, op, ModelsOf(op));
    ModelsOfOrder(op);
    forall key | Writes(op, key) && !key.HashLookup?
      ensures key in snap
    {
      ReadsWhatItWrites(op, ModelsOf(op), snap, key);
    }
    if op.New().Some? {
      assert HashLookup(op.New().value.keyHash) in ReadOrder(op, ModelsOf(op));
    }
    ModelReadsCover(op, ModelsOf(op), snap);
  }
}
