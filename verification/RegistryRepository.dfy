// The user, provider and model repositories' methods as code over a store, proved to
// make the decision and the write that the protocol model makes from what they read.
module RegistryRepository {
  import opened Options
  import opened Domain
  import opened EtagStore
  import opened Registry
  import opened RegistryIntegrity
  import opened RegistryQueries

  ghost function OutcomeOn(table: RegistryTable, op: Op): Outcome
    requires op.WellFormed()
  {
    Decide(op, ReadNow(table, op))
  }

  ghost function TableAfter(table: RegistryTable, op: Op): RegistryTable
    requires op.WellFormed()
  {
    var outcome := OutcomeOn(table, op);
    if outcome.Commit? then Committed(table, outcome.batch) else table
  }

  ghost function ReplyOn(table: RegistryTable, op: Op): Result<(), Error>
    requires op.WellFormed()
  {
    var outcome := OutcomeOn(table, op);
    if outcome.Reject? then Err(outcome.error) else Ok(())
  }

  // The snapshot has the table's record for every key the operation reads or, lookups
  // aside, writes.
  ghost predicate Sees(op: Op, snap: Snapshot, table: RegistryTable) {
    && op.WellFormed() && Covers(op, snap)
    && (forall key <- snap :: snap[key] == Lookup(table, key))
    && (forall key :: Writes(op, snap, key) && !key.LookupKey? ==> key in snap)
  }

  lemma SeesNow(table: RegistryTable, op: Op)
    requires op.WellFormed()
    ensures Sees(op, ReadNow(table, op), table)
  {
    var snap := ReadNow(table, op);
    forall key | Writes(op, snap, key) && !key.LookupKey?
      ensures key in snap
    {
      ReadsWhatItWrites(op, snap, key);
    }
  }

  // ---- Single writes ----

  predicate IndexFound(index: (seq<ID>, Option<ETag>), table: RegistryTable, key: Key) {
    AsIndex(Lookup(table, key)) == Ok(index.0) && index.1 == Lookup(table, key).Expected()
  }

  lemma TargetWrite(table: RegistryTable, op: Op, snap: Snapshot, write: Operation<Key, Value>)
    requires Sees(op, snap, table) && !write.Unsupported? && write.key == op.Target()
    requires write.expected == Lookup(table, op.Target()).Expected()
    requires if op.New().Some? then write.Upsert? && write.value == EntityValue(op.New().value) else write.Delete?
    ensures Agrees(write, WriteBatch(op, snap))
  {
    assert Writes(op, snap, op.Target());
  }

  lemma IndexWrite(table: RegistryTable, op: Op, snap: Snapshot, key: Key, index: (seq<ID>, Option<ETag>), member: bool)
    requires Sees(op, snap, table) && Writes(op, snap, key) && IndexFound(index, table, key)
    requires if key.CollectionIndex? then member == op.New().Some?
             else key.ByProvider? && op.Collection() == Models && member == RoutesTo(op.New(), key.id)
    ensures Agrees(Upsert(key, IndexValue(WithMember(index.0, op.ID(), member)), index.1), WriteBatch(op, snap))
  {
  }

  lemma LookupWrite(op: Op, snap: Snapshot, key: Key)
    requires key.LookupKey? && Writes(op, snap, key)
    ensures key in LookupsOf(op.New()) ==> Agrees(Upsert(key, LookupValue(op.ID()), None), WriteBatch(op, snap))
    ensures key !in LookupsOf(op.New()) ==> Agrees(Operation.Delete(key, None), WriteBatch(op, snap))
  {
  }

  lemma TouchWrite(table: RegistryTable, op: Op, snap: Snapshot, id: ID, provider: Entity, etag: ETag)
    requires Sees(op, snap, table) && op.Collection() == Models && Involves(op, id)
    requires Lookup(table, ProviderKey(id)) == Present(EntityValue(provider), etag)
    ensures Touches(op, snap, ProviderKey(id))
    ensures Agrees(Upsert(ProviderKey(id), EntityValue(provider), Some(etag)), WriteBatch(op, snap))
  {
    ReadsCover(op, snap);
    ProvidersOfMembers(op);
    assert ProviderKey(id) in snap;
    assert Touches(op, snap, ProviderKey(id));
    assert Writes(op, snap, ProviderKey(id));
  }

  // The keys an operation writes, as a list.
  ghost predicate WritesExactly(op: Op, snap: Snapshot, keys: seq<Key>) {
    forall key :: Writes(op, snap, key) ==> key in keys
  }

  // ---- The mechanics every repository shares ----

  class ResourceRepository {
    const store: MemoryStore<Key, Value>

    constructor (store: MemoryStore<Key, Value>)
      ensures this.store == store
    {
      this.store := store;
    }

    ghost predicate Reading(op: Op, snap: Snapshot)
      reads store
    {
      op.WellFormed() && snap == ReadNow(store.values, op)
    }

    // Commits the writes of an accepted operation.
    method Commit(operations: seq<Operation<Key, Value>>, ghost op: Op, ghost snap: Snapshot, ghost keys: seq<Key>)
      returns (reply: Result<(), Error>)
      requires Reading(op, snap) && OutcomeOn(store.values, op).Commit?
      requires Lists(operations, WriteBatch(op, snap), keys) && WritesExactly(op, snap, keys)
      modifies store
      ensures reply == ReplyOn(old(store.values), op) && store.values == TableAfter(old(store.values), op)
    {
      ListsAll(operations, WriteBatch(op, snap), keys);
      AppliedIsCommitted(store.values, operations);
      ReadNowMatches(store.values, op);
      var result := store.Transact(operations);
      reply := if result.Ok? then Ok(()) else Err(Conflict);
    }

    method ReadIndex(key: Key) returns (index: Result<(seq<ID>, Option<ETag>), Error>)
      ensures match AsIndex(Lookup(store.values, key))
              case Err(error) => index == Err(error)
              case Ok(_) => index.Ok? && IndexFound(index.value, store.values, key)
    {
      var entry := store.Get(key);
      match entry {
        case Absent => index := Ok(([], None));
        case Present(IndexValue(ids), etag) => index := Ok((ids, Some(etag)));
        case Present(_, _) => index := Err(Corrupt);
      }
    }

    method Get(collection: Collection, id: ID) returns (entity: Result<Entity, Error>)
      ensures entity == EntityAt(store.values, collection, id)
    {
      var entry := store.Get(EntityKey(collection, id));
      match entry {
        case Absent => entity := Err(NotFound);
        case Present(EntityValue(stored), _) => entity := Ok(stored);
        case Present(_, _) => entity := Err(Corrupt);
      }
    }

    // By e-mail, slug, adapter app ID or alias.
    method GetBy(kind: LookupKind, text: string) returns (entity: Result<Entity, Error>)
      ensures entity == Find(store.values, kind, text)
    {
      var entry := store.Get(LookupKey(kind, text));
      match entry {
        case Absent => entity := Err(NotFound);
        case Present(LookupValue(id), _) => entity := Get(kind.Collection(), id);
        case Present(_, _) => entity := Err(Corrupt);
      }
    }

    // The entities of the collection's index, or the models of a provider's.
    method ListAt(collection: Collection, index: Key) returns (entities: Result<seq<Entity>, Error>)
      ensures entities == List(store.values, collection, index)
    {
      var read := ReadIndex(index);
      if read.Err? {
        return Err(read.error);
      }
      var ids, found: seq<Entity> := read.value.0, [];
      PrependedNone(EntitiesOn(store.values, collection, ids));
      assert ids[0..] == ids;
      for i := 0 to |ids|
        invariant EntitiesOn(store.values, collection, ids) == Prepended(found, EntitiesOn(store.values, collection, ids[i..]))
      {
        assert ids[i..][0] == ids[i] && ids[i..][1..] == ids[i + 1..];
        var entity := Get(collection, ids[i]);
        if entity.Ok? {
          PrependedTwice(found, [entity.value], EntitiesOn(store.values, collection, ids[i + 1..]));
          found := found + [entity.value];
        } else if entity.error != NotFound {
          return Err(entity.error);
        }
      }
      assert found + [] == found;
      return Ok(found);
    }

    method ReadTarget(op: Op, ghost snap: Snapshot) returns (etag: Result<Option<ETag>, Error>)
      requires Reading(op, snap)
      ensures op.Target() in snap
      ensures match CheckTarget(op, snap)
              case Fail(error) => etag == Err(error)
              case Pass => etag == Ok(Lookup(store.values, op.Target()).Expected())
    {
      ReadsCover(op, snap);
      var entry := store.Get(op.Target());
      if op.Create? {
        etag := if entry.Present? then Err(Conflict) else Ok(None);
      } else if entry.Absent? {
        etag := Err(NotFound);
      } else if !entry.value.EntityValue? {
        etag := Err(Corrupt);
      } else {
        etag := if entry.value.entity == op.previous then Ok(Some(entry.etag)) else Err(Conflict);
      }
    }

    method ReadLookups(op: Op, ghost snap: Snapshot) returns (check: Check<Error>)
      requires Reading(op, snap)
      ensures forall key <- LookupsOf(op.New()) :: key in snap
      ensures check == CheckLookups(op, LookupsOf(op.New()), snap)
    {
      ReadsCover(op, snap);
      var lookups := LookupsOf(op.New());
      for i := 0 to |lookups|
        invariant CheckLookups(op, lookups, snap) == CheckLookups(op, lookups[i..], snap)
      {
        assert lookups[i..][0] == lookups[i] && lookups[i..][1..] == lookups[i + 1..];
        assert lookups[i] in snap && snap[lookups[i]] == Lookup(store.values, lookups[i]);
        var entry := store.Get(lookups[i]);
        if entry.Present? && (!op.Replace? || entry.value != LookupValue(op.ID())) {
          return Fail(Conflict);
        }
      }
      return Pass;
    }

    // Deletes the lookups the entity no longer has, then writes those it has.
    method LookupOperations(op: Op, ghost snap: Snapshot) returns (operations: seq<Operation<Key, Value>>)
      requires op.WellFormed()
      ensures Lists(operations, WriteBatch(op, snap), Dropped(op) + LookupsOf(op.New()))
    {
      hide WriteBatch;
      hide Agrees;
      operations := [];
      var olds, news := LookupsOf(op.Old()), LookupsOf(op.New());
      assert Lists(operations, WriteBatch(op, snap), Retired(olds[..0], news)) by {
        ListsEach(operations, WriteBatch(op, snap), []);
      }
      hide Lists;
      LookupsDistinct(op);
      for i := 0 to |olds|
        invariant Lists(operations, WriteBatch(op, snap), Retired(olds[..i], news))
      {
        RetiredNext(olds, news, i);
        if olds[i] !in news {
          LookupWrite(op, snap, olds[i]);
          ListsEach([Operation.Delete(olds[i], None)], WriteBatch(op, snap), [olds[i]]);
          ListsJoin(operations, [Operation.Delete(olds[i], None)], WriteBatch(op, snap), Retired(olds[..i], news), [olds[i]]);
          operations := operations + [Operation.Delete(olds[i], None)];
        }
      }
      assert olds[..|olds|] == olds && Dropped(op) + news[..0] == Dropped(op);
      for i := 0 to |news|
        invariant Lists(operations, WriteBatch(op, snap), Dropped(op) + news[..i])
      {
        LookupWrite(op, snap, news[i]);
        assert news[..i + 1] == news[..i] + [news[i]];
        assert Dropped(op) + news[..i + 1] == Dropped(op) + news[..i] + [news[i]];
        ListsEach([Upsert(news[i], LookupValue(op.ID()), None)], WriteBatch(op, snap), [news[i]]);
        DroppedGone(op, news[i]);
        ListsJoin(operations, [Upsert(news[i], LookupValue(op.ID()), None)], WriteBatch(op, snap), Dropped(op) + news[..i], [news[i]]);
        operations := operations + [Upsert(news[i], LookupValue(op.ID()), None)];
      }
      assert news[..|news|] == news;
    }

    // ---- Users and providers ----

    method CreateResource(entity: Entity) returns (reply: Result<(), Error>)
      requires !entity.Model?
      modifies store
      ensures reply == ReplyOn(old(store.values), Create(entity)) && store.values == TableAfter(old(store.values), Create(entity))
    {
      var op := Create(entity);
      ghost var snap := ReadNow(store.values, op);
      ReadsCover(op, snap);
      SeesNow(store.values, op);
      var target := ReadTarget(op, snap);
      if target.Err? {
        return Err(target.error);
      }
      var check := ReadLookups(op, snap);
      if check.Fail? {
        return Err(check.error);
      }
      var index := ReadIndex(CollectionIndex(op.Collection()));
      if index.Err? {
        return Err(index.error);
      }
      var lookups := LookupOperations(op, snap);
      var head := [
        Upsert(op.Target(), EntityValue(entity), None),
        Upsert(CollectionIndex(op.Collection()), IndexValue(AddID(index.value.0, entity.id)), index.value.1)];
      HeadWrites(store.values, op, snap, head, index.value);
      SharedKeys(op, snap, head, lookups);
      reply := Commit(head + lookups, op, snap, HeadKeys(op) + (Dropped(op) + LookupsOf(op.New())));
    }

    method ReplaceResource(previous: Entity, entity: Entity) returns (reply: Result<(), Error>)
      requires !entity.Model? && previous.Collection() == entity.Collection()
      modifies store
      ensures reply == ReplyOn(old(store.values), Replace(previous, entity))
      ensures store.values == TableAfter(old(store.values), Replace(previous, entity))
    {
      var op := Replace(previous, entity);
      ghost var snap := ReadNow(store.values, op);
      ReadsCover(op, snap);
      SeesNow(store.values, op);
      var target := ReadTarget(op, snap);
      if target.Err? {
        return Err(target.error);
      }
      var check := ReadLookups(op, snap);
      if check.Fail? {
        return Err(check.error);
      }
      var lookups := LookupOperations(op, snap);
      var head := [Upsert(op.Target(), EntityValue(entity), target.value)];
      TargetWrite(store.values, op, snap, head[0]);
      ListsEach(head, WriteBatch(op, snap), HeadKeys(op));
      SharedKeys(op, snap, head, lookups);
      reply := Commit(head + lookups, op, snap, HeadKeys(op) + (Dropped(op) + LookupsOf(op.New())));
    }

    method DeleteResource(previous: Entity) returns (reply: Result<(), Error>)
      requires previous.User?
      modifies store
      ensures reply == ReplyOn(old(store.values), Op.Delete(previous)) && store.values == TableAfter(old(store.values), Op.Delete(previous))
    {
      var op := Op.Delete(previous);
      ghost var snap := ReadNow(store.values, op);
      ReadsCover(op, snap);
      SeesNow(store.values, op);
      var target := ReadTarget(op, snap);
      if target.Err? {
        return Err(target.error);
      }
      var index := ReadIndex(CollectionIndex(op.Collection()));
      if index.Err? {
        return Err(index.error);
      }
      var lookups := LookupOperations(op, snap);
      var head := [
        Operation.Delete(op.Target(), target.value),
        Upsert(CollectionIndex(op.Collection()), IndexValue(RemoveID(index.value.0, previous.id)), index.value.1)];
      HeadWrites(store.values, op, snap, head, index.value);
      SharedKeys(op, snap, head, lookups);
      reply := Commit(head + lookups, op, snap, HeadKeys(op) + (Dropped(op) + LookupsOf(op.New())));
    }

    // ---- Models and the providers they route to ----

    method ReadProvider(id: ID) returns (found: Result<(Entity, ETag), Error>)
      ensures match AsProvider(Lookup(store.values, ProviderKey(id)))
              case Err(error) => found == Err(error)
              case Ok(provider) => found.Ok? && found.value.0 == provider
                                   && Lookup(store.values, ProviderKey(id)) == Present(EntityValue(provider), found.value.1)
    {
      var entry := store.Get(ProviderKey(id));
      match entry {
        case Absent => found := Err(NotFound);
        case Present(EntityValue(provider), etag) => found := if provider.Provider? then Ok((provider, etag)) else Err(Corrupt);
        case Present(_, _) => found := Err(Corrupt);
      }
    }

    // The old and the new provider of a model that is created or replaced.
    method ReadProviders(op: Op, ghost snap: Snapshot) returns (found: Result<Routing, Error>)
      requires Reading(op, snap) && op.Collection() == Models && !op.Delete?
      ensures forall id <- ProvidersOf(op) :: ProviderKey(id) in snap
      ensures match CheckProviders(op, snap)
              case Err(error) => found == Err(error)
              case Ok(_) => found.Ok? && Providing(op, found.value, store.values)
    {
      SeesNow(store.values, op);
      ReadsCover(op, snap);
      ProvidersOfMembers(op);
      var before: Option<(Entity, ETag)> := None;
      if op.Replace? {
        var old_ := ReadProvider(op.previous.providerID);
        if old_.Err? {
          return Err(old_.error);
        }
        before := Some(old_.value);
      }
      var after := ReadProvider(op.entity.providerID);
      if after.Err? {
        return Err(after.error);
      }
      if !Backs(after.value.0, op.entity) {
        return Err(Conflict);
      }
      return Ok(Routing(before, after.value));
    }

    method CreateModel(model: Entity) returns (reply: Result<(), Error>)
      requires model.Model?
      modifies store
      ensures reply == ReplyOn(old(store.values), Create(model)) && store.values == TableAfter(old(store.values), Create(model))
    {
      var op := Create(model);
      ghost var snap := ReadNow(store.values, op);
      ReadsCover(op, snap);
      SeesNow(store.values, op);
      ProvidersOfMembers(op);
      RestOfCreation(store.values, op, snap);
      var target := ReadTarget(op, snap);
      if target.Err? {
        return Err(target.error);
      }
      var check := ReadLookups(op, snap);
      if check.Fail? {
        return Err(check.error);
      }
      var routing := ReadProviders(op, snap);
      if routing.Err? {
        return Err(routing.error);
      }
      var index := ReadIndex(CollectionIndex(Models));
      if index.Err? {
        return Err(index.error);
      }
      var models := ReadIndex(ByProvider(model.providerID));
      if models.Err? {
        return Err(models.error);
      }
      var lookups := LookupOperations(op, snap);
      var head := [
        Upsert(op.Target(), EntityValue(model), None),
        Upsert(CollectionIndex(Models), IndexValue(AddID(index.value.0, model.id)), index.value.1)];
      var tail := [
        Upsert(ByProvider(model.providerID), IndexValue(AddID(models.value.0, model.id)), models.value.1),
        Upsert(ProviderKey(model.providerID), EntityValue(routing.value.after.0), Some(routing.value.after.1))];
      HeadWrites(store.values, op, snap, head, index.value);
      PairWrites(store.values, op, snap, model.providerID, models.value, true, routing.value.after, tail);
      reply := CommitModel(op, snap, head, lookups, tail, [ByProvider(model.providerID), ProviderKey(model.providerID)]);
    }

    // What a model replacement reads, or why it is refused.
    method ReadReplacement(op: Op, ghost snap: Snapshot) returns (found: Result<Replacement, Error>)
      requires Reading(op, snap) && op.Replace? && op.Collection() == Models
      ensures match CheckAll(op, snap)
              case Err(error) => found == Err(error)
              case Ok(_) => found.Ok? && Replacing(op, found.value, store.values)
    {
      ReadsCover(op, snap);
      ProvidersOfMembers(op);
      if op.previous.id != op.entity.id || op.previous.alias != op.entity.alias {
        return Err(Conflict);
      }
      var target := ReadTarget(op, snap);
      if target.Err? {
        return Err(target.error);
      }
      var check := ReadLookups(op, snap);
      if check.Fail? {
        return Err(check.error);
      }
      var routing := ReadProviders(op, snap);
      if routing.Err? {
        return Err(routing.error);
      }
      var from, to := op.previous.providerID, op.entity.providerID;
      var before := ReadIndex(ByProvider(from));
      if before.Err? {
        RestOfReplacement(store.values, op, snap);
        return Err(before.error);
      }
      var after := before;
      if from != to {
        after := ReadIndex(ByProvider(to));
        if after.Err? {
          RestOfReplacement(store.values, op, snap);
          return Err(after.error);
        }
      }
      RestOfReplacement(store.values, op, snap);
      return Ok(Replacement(target.value, routing.value, before.value, after.value));
    }

    method ReplaceModel(previous: Entity, model: Entity) returns (reply: Result<(), Error>)
      requires previous.Model? && model.Model?
      modifies store
      ensures reply == ReplyOn(old(store.values), Replace(previous, model))
      ensures store.values == TableAfter(old(store.values), Replace(previous, model))
    {
      var op := Replace(previous, model);
      ghost var snap := ReadNow(store.values, op);
      var found := ReadReplacement(op, snap);
      if found.Err? {
        return Err(found.error);
      }
      SeesNow(store.values, op);
      var read, from, to := found.value, previous.providerID, model.providerID;
      var lookups := LookupOperations(op, snap);
      var head := [Upsert(op.Target(), EntityValue(model), read.target)];
      TargetWrite(store.values, op, snap, head[0]);
      ListsEach(head, WriteBatch(op, snap), HeadKeys(op));
      var tail := [
        Upsert(ByProvider(to), IndexValue(AddID(read.after.0, model.id)), read.after.1),
        Upsert(ProviderKey(to), EntityValue(read.routing.after.0), Some(read.routing.after.1))];
      ghost var keys := [ByProvider(to), ProviderKey(to)];
      if from != to {
        var leave := [
          Upsert(ByProvider(from), IndexValue(RemoveID(read.before.0, model.id)), read.before.1),
          Upsert(ProviderKey(from), EntityValue(read.routing.before.value.0), Some(read.routing.before.value.1))];
        LeavingWrites(store.values, op, snap, read, leave);
        EnteringWrites(store.values, op, snap, read, tail);
        ListsJoin(leave, tail, WriteBatch(op, snap), [ByProvider(from), ProviderKey(from)], keys);
        tail, keys := leave + tail, [ByProvider(from), ProviderKey(from)] + keys;
      } else {
        EnteringWrites(store.values, op, snap, read, tail);
      }
      ReplacementKeys(op, snap);
      reply := CommitModel(op, snap, head, lookups, tail, keys);
    }

    // What a model delete reads, or why it is refused.
    method ReadDeletion(op: Op, ghost snap: Snapshot) returns (found: Result<Deletion, Error>)
      requires Reading(op, snap) && op.Delete? && op.Collection() == Models
      ensures match CheckAll(op, snap)
              case Err(error) => found == Err(error)
              case Ok(_) => found.Ok? && Deleting(op, found.value, store.values)
    {
      ReadsCover(op, snap);
      ProvidersOfMembers(op);
      RestOfDeletion(store.values, op, snap);
      var target := ReadTarget(op, snap);
      if target.Err? {
        return Err(target.error);
      }
      var index := ReadIndex(CollectionIndex(Models));
      if index.Err? {
        return Err(index.error);
      }
      var models := ReadIndex(ByProvider(op.previous.providerID));
      if models.Err? {
        return Err(models.error);
      }
      var provider := ReadProvider(op.previous.providerID);
      if provider == Err(Corrupt) {
        return Err(Corrupt);
      }
      return Ok(Deletion(target.value, index.value, models.value, if provider.Ok? then Some(provider.value) else None));
    }

    method DeleteModel(model: Entity) returns (reply: Result<(), Error>)
      requires model.Model?
      modifies store
      ensures reply == ReplyOn(old(store.values), Op.Delete(model)) && store.values == TableAfter(old(store.values), Op.Delete(model))
    {
      var op := Op.Delete(model);
      ghost var snap := ReadNow(store.values, op);
      var found := ReadDeletion(op, snap);
      if found.Err? {
        return Err(found.error);
      }
      SeesNow(store.values, op);
      var read, from := found.value, model.providerID;
      var lookups := LookupOperations(op, snap);
      var head := [
        Operation.Delete(op.Target(), read.target),
        Upsert(CollectionIndex(Models), IndexValue(RemoveID(read.index.0, model.id)), read.index.1)];
      HeadWrites(store.values, op, snap, head, read.index);
      var tail := [Upsert(ByProvider(from), IndexValue(RemoveID(read.models.0, model.id)), read.models.1)];
      ghost var keys := [ByProvider(from)];
      if read.provider.Some? {
        tail := tail + [Upsert(ProviderKey(from), EntityValue(read.provider.value.0), Some(read.provider.value.1))];
        keys := [ByProvider(from), ProviderKey(from)];
      }
      DepartureWrites(store.values, op, snap, read, tail, keys);
      reply := CommitModel(op, snap, head, lookups, tail, keys);
    }

    // The three parts of a model operation's write, committed together.
    method CommitModel(op: Op, ghost snap: Snapshot, head: seq<Operation<Key, Value>>, lookups: seq<Operation<Key, Value>>,
                       tail: seq<Operation<Key, Value>>, ghost keys: seq<Key>) returns (reply: Result<(), Error>)
      requires Reading(op, snap) && op.Collection() == Models && OutcomeOn(store.values, op).Commit?
      requires Lists(head, WriteBatch(op, snap), HeadKeys(op))
      requires Lists(lookups, WriteBatch(op, snap), Dropped(op) + LookupsOf(op.New()))
      requires Lists(tail, WriteBatch(op, snap), keys) && RoutingKeys(op, snap, keys)
      modifies store
      ensures reply == ReplyOn(old(store.values), op) && store.values == TableAfter(old(store.values), op)
    {
      ModelKeys(op, snap, head, lookups, tail, keys);
      reply := Commit(head + lookups + tail, op, snap, HeadKeys(op) + (Dropped(op) + LookupsOf(op.New())) + keys);
    }

    method DeleteProviderIfNoModels(provider: Entity) returns (reply: Result<(), Error>)
      requires provider.Provider?
      modifies store
      ensures reply == ReplyOn(old(store.values), Op.Delete(provider))
      ensures store.values == TableAfter(old(store.values), Op.Delete(provider))
    {
      var op := Op.Delete(provider);
      ghost var snap := ReadNow(store.values, op);
      ReadsCover(op, snap);
      SeesNow(store.values, op);
      var target := ReadTarget(op, snap);
      if target.Err? {
        return Err(target.error);
      }
      var models := ReadIndex(ByProvider(provider.id));
      if models.Err? {
        return Err(models.error);
      }
      if models.value.0 != [] {
        return Err(Conflict);
      }
      var index := ReadIndex(CollectionIndex(Providers));
      if index.Err? {
        return Err(index.error);
      }
      var lookups := LookupOperations(op, snap);
      var head := [
        Operation.Delete(op.Target(), target.value),
        Upsert(CollectionIndex(Providers), IndexValue(RemoveID(index.value.0, provider.id)), index.value.1)];
      HeadWrites(store.values, op, snap, head, index.value);
      var tail: seq<Operation<Key, Value>> := [];
      ghost var keys: seq<Key> := [];
      if models.value.1.Some? {
        tail, keys := [Operation.Delete(ByProvider(provider.id), models.value.1)], [ByProvider(provider.id)];
        assert Writes(op, snap, ByProvider(provider.id));
      }
      ListsEach(tail, WriteBatch(op, snap), keys);
      ProviderDeleteKeys(op, snap, head, lookups, tail, keys);
      reply := Commit(head + lookups + tail, op, snap, HeadKeys(op) + (Dropped(op) + LookupsOf(op.New())) + keys);
    }
  }

  datatype Routing = Routing(before: Option<(Entity, ETag)>, after: (Entity, ETag))

  ghost predicate ProviderFound(found: (Entity, ETag), table: RegistryTable, id: ID) {
    found.0.Provider? && Lookup(table, ProviderKey(id)) == Present(EntityValue(found.0), found.1)
  }

  ghost predicate Providing(op: Op, routing: Routing, table: RegistryTable)
    requires op.Collection() == Models && !op.Delete? && op.WellFormed()
  {
    && ProviderFound(routing.after, table, op.entity.providerID)
    && (op.Replace? ==> routing.before.Some? && ProviderFound(routing.before.value, table, op.previous.providerID))
  }

  datatype Replacement = Replacement(
    target: Option<ETag>, routing: Routing, before: (seq<ID>, Option<ETag>), after: (seq<ID>, Option<ETag>))

  ghost predicate Replacing(op: Op, read: Replacement, table: RegistryTable)
    requires op.WellFormed() && op.Replace? && op.Collection() == Models
  {
    && read.target == Lookup(table, op.Target()).Expected() && Providing(op, read.routing, table)
    && IndexFound(read.before, table, ByProvider(op.previous.providerID))
    && IndexFound(read.after, table, ByProvider(op.entity.providerID))
  }

  datatype Deletion = Deletion(
    target: Option<ETag>, index: (seq<ID>, Option<ETag>), models: (seq<ID>, Option<ETag>), provider: Option<(Entity, ETag)>)

  ghost predicate Deleting(op: Op, read: Deletion, table: RegistryTable)
    requires op.Delete? && op.Collection() == Models
  {
    && read.target == Lookup(table, op.Target()).Expected()
    && IndexFound(read.index, table, CollectionIndex(Models)) && IndexFound(read.models, table, ByProvider(op.previous.providerID))
    && (if read.provider.Some? then ProviderFound(read.provider.value, table, op.previous.providerID)
        else Lookup(table, ProviderKey(op.previous.providerID)).Absent?)
  }

  // The last reads of a replacement are its providers' indexes, the old one first.
  lemma RestOfReplacement(table: RegistryTable, op: Op, snap: Snapshot)
    requires op.WellFormed() && op.Replace? && op.Collection() == Models && snap == ReadNow(table, op)
    ensures forall id <- ProvidersOf(op) :: ByProvider(id) in snap && ProviderKey(id) in snap
    ensures CheckRest(op, snap) ==
            match AsIndex(Lookup(table, ByProvider(op.previous.providerID)))
            case Err(error) => Err(error)
            case Ok(_) => match AsIndex(Lookup(table, ByProvider(op.entity.providerID)))
              case Err(error) => Err(error)
              case Ok(_) => Ok(())
  {
    ReadsCover(op, snap);
    ProvidersOfMembers(op);
    var ids := ProvidersOf(op);
    OneIndex(op.entity.providerID, snap);
    if op.previous.providerID != op.entity.providerID {
      assert ids[1..] == [op.entity.providerID];
    }
  }

  lemma RestOfDeletion(table: RegistryTable, op: Op, snap: Snapshot)
    requires op.Delete? && op.Collection() == Models && snap == ReadNow(table, op)
    ensures forall id <- ProvidersOf(op) :: ByProvider(id) in snap && ProviderKey(id) in snap
    ensures CollectionIndex(Models) in snap
    ensures CheckRest(op, snap) ==
            match AsIndex(Lookup(table, CollectionIndex(Models)))
            case Err(error) => Err(error)
            case Ok(_) => match AsIndex(Lookup(table, ByProvider(op.previous.providerID)))
              case Err(error) => Err(error)
              case Ok(_) => if Lookup(table, ProviderKey(op.previous.providerID)).Present?
                            && AsProvider(Lookup(table, ProviderKey(op.previous.providerID))).Err? then Err(Corrupt)
                            else Ok(())
  {
    ReadsCover(op, snap);
    ProvidersOfMembers(op);
    OneIndex(op.previous.providerID, snap);
  }

  lemma OneIndex(id: ID, snap: Snapshot)
    requires ByProvider(id) in snap
    ensures CheckModelIndexes([id], snap) == match AsIndex(snap[ByProvider(id)]) case Err(error) => Err(error) case Ok(_) => Ok(())
  {
    assert [id][1..] == [];
  }

  lemma RestOfCreation(table: RegistryTable, op: Op, snap: Snapshot)
    requires op.Create? && op.Collection() == Models && snap == ReadNow(table, op)
    ensures CollectionIndex(Models) in snap && ByProvider(op.entity.providerID) in snap
    ensures CheckRest(op, snap) ==
            match AsIndex(Lookup(table, CollectionIndex(Models)))
            case Err(error) => Err(error)
            case Ok(_) => match AsIndex(Lookup(table, ByProvider(op.entity.providerID)))
              case Err(error) => Err(error)
              case Ok(_) => Ok(())
  {
    ReadsCover(op, snap);
    ProvidersOfMembers(op);
    OneIndex(op.entity.providerID, snap);
  }

  lemma LeavingWrites(table: RegistryTable, op: Op, snap: Snapshot, read: Replacement, leave: seq<Operation<Key, Value>>)
    requires Sees(op, snap, table) && op.Replace? && op.Collection() == Models && Replacing(op, read, table)
    requires op.previous.id == op.entity.id && op.previous.providerID != op.entity.providerID
    requires leave == [Upsert(ByProvider(op.previous.providerID), IndexValue(RemoveID(read.before.0, op.ID())), read.before.1),
                       Upsert(ProviderKey(op.previous.providerID), EntityValue(read.routing.before.value.0), Some(read.routing.before.value.1))]
    ensures Lists(leave, WriteBatch(op, snap), [ByProvider(op.previous.providerID), ProviderKey(op.previous.providerID)])
    ensures Touches(op, snap, ProviderKey(op.previous.providerID))
  {
    PairWrites(table, op, snap, op.previous.providerID, read.before, false, read.routing.before.value, leave);
  }

  lemma EnteringWrites(table: RegistryTable, op: Op, snap: Snapshot, read: Replacement, enter: seq<Operation<Key, Value>>)
    requires Sees(op, snap, table) && op.Replace? && op.Collection() == Models && Replacing(op, read, table)
    requires enter == [Upsert(ByProvider(op.entity.providerID), IndexValue(AddID(read.after.0, op.ID())), read.after.1),
                       Upsert(ProviderKey(op.entity.providerID), EntityValue(read.routing.after.0), Some(read.routing.after.1))]
    ensures Lists(enter, WriteBatch(op, snap), [ByProvider(op.entity.providerID), ProviderKey(op.entity.providerID)])
    ensures Touches(op, snap, ProviderKey(op.entity.providerID))
  {
    PairWrites(table, op, snap, op.entity.providerID, read.after, true, read.routing.after, enter);
  }

  lemma ReplacementKeys(op: Op, snap: Snapshot)
    requires op.WellFormed() && op.Replace? && op.Collection() == Models
    ensures var from, to := op.previous.providerID, op.entity.providerID;
            RoutingKeys(op, snap, (if from != to then [ByProvider(from), ProviderKey(from)] else []) + [ByProvider(to), ProviderKey(to)])
  {
    var from, to := op.previous.providerID, op.entity.providerID;
    var keys := (if from != to then [ByProvider(from), ProviderKey(from)] else []) + [ByProvider(to), ProviderKey(to)];
    var tail := [ByProvider(to), ProviderKey(to)];
    assert ByProvider(to) in tail && ProviderKey(to) in tail;
    assert forall key <- tail :: key in keys;
    if from != to {
      var lead := [ByProvider(from), ProviderKey(from)];
      assert ByProvider(from) in lead && ProviderKey(from) in lead;
      assert forall key <- lead :: key in keys;
    }
  }

  lemma DepartureWrites(table: RegistryTable, op: Op, snap: Snapshot, read: Deletion, tail: seq<Operation<Key, Value>>, keys: seq<Key>)
    requires Sees(op, snap, table) && op.Delete? && op.Collection() == Models && Deleting(op, read, table)
    requires var from := op.previous.providerID;
             && keys == [ByProvider(from)] + (if read.provider.Some? then [ProviderKey(from)] else [])
             && tail == [Upsert(ByProvider(from), IndexValue(RemoveID(read.models.0, op.ID())), read.models.1)] +
                        (if read.provider.Some? then [Upsert(ProviderKey(from), EntityValue(read.provider.value.0), Some(read.provider.value.1))]
                         else [])
    ensures Lists(tail, WriteBatch(op, snap), keys) && RoutingKeys(op, snap, keys)
  {
    var from := op.previous.providerID;
    assert Involves(op, from) && forall id :: Involves(op, id) ==> id == from;
    if read.provider.Some? {
      assert keys == [ByProvider(from), ProviderKey(from)];
      PairWrites(table, op, snap, from, read.models, false, read.provider.value, tail);
    } else {
      ReadsCover(op, snap);
      ProvidersOfMembers(op);
      assert !Found(snap, ProviderKey(from));
      IndexWrite(table, op, snap, ByProvider(from), read.models, false);
      ListsEach(tail, WriteBatch(op, snap), keys);
    }
  }

  // The provider side of a model write: indexes, and the providers that are there to touch.
  ghost predicate RoutingKeys(op: Op, snap: Snapshot, keys: seq<Key>) {
    && (forall key <- keys :: (key.ByProvider? && Involves(op, key.id)) || Touches(op, snap, key))
    && (forall key: Key :: (key.ByProvider? && Involves(op, key.id)) || Touches(op, snap, key) ==> key in keys)
  }

  lemma PairWrites(table: RegistryTable, op: Op, snap: Snapshot, provider: ID, index: (seq<ID>, Option<ETag>), member: bool,
                   found: (Entity, ETag), operations: seq<Operation<Key, Value>>)
    requires Sees(op, snap, table) && op.Collection() == Models && Involves(op, provider) && member == RoutesTo(op.New(), provider)
    requires IndexFound(index, table, ByProvider(provider)) && ProviderFound(found, table, provider)
    requires operations == [Upsert(ByProvider(provider), IndexValue(WithMember(index.0, op.ID(), member)), index.1),
                            Upsert(ProviderKey(provider), EntityValue(found.0), Some(found.1))]
    ensures Lists(operations, WriteBatch(op, snap), [ByProvider(provider), ProviderKey(provider)])
    ensures Touches(op, snap, ProviderKey(provider))
  {
    IndexWrite(table, op, snap, ByProvider(provider), index, member);
    TouchWrite(table, op, snap, provider, found.0, found.1);
    ListsEach(operations, WriteBatch(op, snap), [ByProvider(provider), ProviderKey(provider)]);
  }

  lemma ModelKeys(op: Op, snap: Snapshot, head: seq<Operation<Key, Value>>, lookups: seq<Operation<Key, Value>>,
                  tail: seq<Operation<Key, Value>>, keys: seq<Key>)
    requires op.WellFormed() && op.Collection() == Models
    requires Lists(head, WriteBatch(op, snap), HeadKeys(op))
    requires Lists(lookups, WriteBatch(op, snap), Dropped(op) + LookupsOf(op.New()))
    requires Lists(tail, WriteBatch(op, snap), keys) && RoutingKeys(op, snap, keys)
    ensures Lists(head + lookups + tail, WriteBatch(op, snap), HeadKeys(op) + (Dropped(op) + LookupsOf(op.New())) + keys)
    ensures WritesExactly(op, snap, HeadKeys(op) + (Dropped(op) + LookupsOf(op.New())) + keys)
  {
    LookupsDistinct(op);
    RetiredMembers(LookupsOf(op.Old()), LookupsOf(op.New()));
    ListsJoin(head, lookups, WriteBatch(op, snap), HeadKeys(op), Dropped(op) + LookupsOf(op.New()));
    ListsJoin(head + lookups, tail, WriteBatch(op, snap), HeadKeys(op) + (Dropped(op) + LookupsOf(op.New())), keys);
  }

  lemma ProviderDeleteKeys(op: Op, snap: Snapshot, head: seq<Operation<Key, Value>>, lookups: seq<Operation<Key, Value>>,
                           tail: seq<Operation<Key, Value>>, keys: seq<Key>)
    requires op.Delete? && op.previous.Provider?
    requires Lists(head, WriteBatch(op, snap), HeadKeys(op))
    requires Lists(lookups, WriteBatch(op, snap), Dropped(op) + LookupsOf(op.New()))
    requires Lists(tail, WriteBatch(op, snap), keys)
    requires keys == if Found(snap, ByProvider(op.ID())) then [ByProvider(op.ID())] else []
    ensures Lists(head + lookups + tail, WriteBatch(op, snap), HeadKeys(op) + (Dropped(op) + LookupsOf(op.New())) + keys)
    ensures WritesExactly(op, snap, HeadKeys(op) + (Dropped(op) + LookupsOf(op.New())) + keys)
  {
    LookupsDistinct(op);
    RetiredMembers(LookupsOf(op.Old()), LookupsOf(op.New()));
    ListsJoin(head, lookups, WriteBatch(op, snap), HeadKeys(op), Dropped(op) + LookupsOf(op.New()));
    ListsJoin(head + lookups, tail, WriteBatch(op, snap), HeadKeys(op) + (Dropped(op) + LookupsOf(op.New())), keys);
  }

  // The entity and, unless it is replaced in place, its collection's index.
  ghost function HeadKeys(op: Op): seq<Key> {
    if op.Replace? then [op.Target()] else [op.Target(), CollectionIndex(op.Collection())]
  }

  lemma HeadWrites(table: RegistryTable, op: Op, snap: Snapshot, head: seq<Operation<Key, Value>>, index: (seq<ID>, Option<ETag>))
    requires Sees(op, snap, table) && !op.Replace? && IndexFound(index, table, CollectionIndex(op.Collection())) && |head| == 2
    requires head[0].key == op.Target() && head[0].expected == Lookup(table, op.Target()).Expected()
    requires if op.New().Some? then head[0].Upsert? && head[0].value == EntityValue(op.New().value) else head[0].Delete?
    requires head[1] == Upsert(CollectionIndex(op.Collection()), IndexValue(WithMember(index.0, op.ID(), op.New().Some?)), index.1)
    ensures Lists(head, WriteBatch(op, snap), HeadKeys(op))
  {
    TargetWrite(table, op, snap, head[0]);
    assert Writes(op, snap, CollectionIndex(op.Collection()));
    IndexWrite(table, op, snap, CollectionIndex(op.Collection()), index, op.New().Some?);
    ListsEach(head, WriteBatch(op, snap), HeadKeys(op));
  }

  // Users and providers write nothing else but lookups, a guarded provider delete aside.
  lemma SharedKeys(op: Op, snap: Snapshot, head: seq<Operation<Key, Value>>, lookups: seq<Operation<Key, Value>>)
    requires op.WellFormed() && op.Collection() != Models && !(op.Delete? && op.Collection() == Providers)
    requires Lists(head, WriteBatch(op, snap), HeadKeys(op)) && Lists(lookups, WriteBatch(op, snap), Dropped(op) + LookupsOf(op.New()))
    ensures Lists(head + lookups, WriteBatch(op, snap), HeadKeys(op) + (Dropped(op) + LookupsOf(op.New())))
    ensures WritesExactly(op, snap, HeadKeys(op) + (Dropped(op) + LookupsOf(op.New())))
  {
    LookupsDistinct(op);
    RetiredMembers(LookupsOf(op.Old()), LookupsOf(op.New()));
    ListsJoin(head, lookups, WriteBatch(op, snap), HeadKeys(op), Dropped(op) + LookupsOf(op.New()));
  }

  function Retired(olds: seq<Key>, news: seq<Key>): seq<Key> {
    if olds == [] then []
    else
      var last := olds[|olds| - 1];
      Retired(olds[..|olds| - 1], news) + if last in news then [] else [last]
  }

  // The lookups an operation deletes.
  function Dropped(op: Op): seq<Key> {
    Retired(LookupsOf(op.Old()), LookupsOf(op.New()))
  }

  lemma {:induction false} RetiredMembers(olds: seq<Key>, news: seq<Key>)
    ensures forall key :: key in Retired(olds, news) <==> key in olds && key !in news
  {
    if olds != [] {
      RetiredMembers(olds[..|olds| - 1], news);
      assert olds == olds[..|olds| - 1] + [olds[|olds| - 1]];
    }
  }

  lemma RetiredNext(olds: seq<Key>, news: seq<Key>, i: nat)
    requires i < |olds| && NoDuplicates(olds)
    ensures Retired(olds[..i + 1], news) == if olds[i] in news then Retired(olds[..i], news) else Retired(olds[..i], news) + [olds[i]]
    ensures olds[i] !in Retired(olds[..i], news)
  {
    assert olds[..i + 1][..i] == olds[..i];
    RetiredMembers(olds[..i], news);
  }

  lemma DroppedGone(op: Op, key: Key)
    requires key in LookupsOf(op.New())
    ensures key !in Dropped(op)
  {
    RetiredMembers(LookupsOf(op.Old()), LookupsOf(op.New()));
  }

  lemma LookupsDistinct(op: Op)
    ensures NoDuplicates(LookupsOf(op.Old())) && NoDuplicates(LookupsOf(op.New()))
    ensures forall key <- LookupsOf(op.Old()) + LookupsOf(op.New()) :: key.LookupKey?
  {
  }
}
