// The user, provider and model repositories under their mutexes: which calls are
// accepted, what they do to the stored entities, and what holds after any sequence of calls.
module RegistrySequences {
  import opened Options
  import opened Domain
  import opened EtagStore
  import opened Registry
  import opened RegistryIntegrity
  import opened RegistryQueries
  import opened RegistryRepository

  // ---- When a call is accepted, in terms of what is stored ----

  // The stored entity is the one the call expects.
  ghost predicate Expected(data: Data, op: Op) {
    match op
    case Create(entity) => !Stores(data, entity.Collection(), entity.id)
    case Replace(previous, entity) =>
      && previous.Collection() == entity.Collection() && Stores(data, entity.Collection(), entity.id)
      && Stored(data, entity.Collection(), entity.id) == previous
      && (entity.Model? ==> previous.id == entity.id && previous.alias == entity.alias)
    case Delete(previous) => IsStored(data, previous.Collection(), previous)
  }

  // No other stored entity has the unique value.
  ghost predicate ValueFree(data: Data, kind: LookupKind, text: string, id: ID) {
    forall collection, other :: Stores(data, collection, other) && HasValue(Stored(data, collection, other), kind, text) ==> other == id
  }

  ghost predicate ValuesFree(data: Data, entity: Entity) {
    forall kind, text :: HasValue(entity, kind, text) ==> ValueFree(data, kind, text, entity.id)
  }

  // A model's provider is stored, and active if the model is.
  ghost predicate Routable(data: Data, entity: Entity) {
    entity.Model? ==>
      && Stores(data, Providers, entity.providerID)
      && (entity.status == Active ==> Stored(data, Providers, entity.providerID).status == Active)
  }

  ghost predicate Admissible(data: Data, op: Op) {
    && Expected(data, op)
    && match op
       case Create(entity) => ValuesFree(data, entity) && Routable(data, entity)
       case Replace(_, entity) => ValuesFree(data, entity) && Routable(data, entity)
       case Delete(previous) => previous.Provider? ==> forall model :: !Routes(data, model, previous.id)
  }

  // What the call names is missing: its entity, or the provider of an otherwise admissible
  // model.
  ghost predicate Missing(data: Data, op: Op) {
    match op
    case Create(entity) =>
      Expected(data, op) && ValuesFree(data, entity) && entity.Model? && !Stores(data, Providers, entity.providerID)
    case Replace(previous, entity) =>
      if Stores(data, entity.Collection(), entity.id) then
        Expected(data, op) && ValuesFree(data, entity) && entity.Model? && !Stores(data, Providers, entity.providerID)
      else entity.Model? ==> previous.Model? && previous.id == entity.id && previous.alias == entity.alias
    case Delete(previous) => !Stores(data, previous.Collection(), previous.id)
  }

  ghost predicate Now(table: RegistryTable, op: Op, snap: Snapshot) {
    op.WellFormed() && Integrity(Values(table)) && snap == ReadNow(table, op)
  }

  lemma TargetPasses(table: RegistryTable, op: Op, snap: Snapshot)
    requires Now(table, op, snap)
    ensures op.Target() in snap
    ensures Expected(Values(table), op) <==> CheckArguments(op).Pass? && CheckTarget(op, snap).Pass?
    ensures CheckArguments(op).Fail? ==> CheckArguments(op) == Fail(Conflict)
    ensures CheckArguments(op).Pass? <==>
            (op.Replace? && op.entity.Model? ==> op.previous.Model? && op.previous.id == op.entity.id && op.previous.alias == op.entity.alias)
    ensures CheckTarget(op, snap).Fail? ==>
              CheckTarget(op, snap) == Fail(if op.Create? || Stores(Values(table), op.Collection(), op.ID()) then Conflict else NotFound)
  {
    ReadsCover(op, snap);
    EntityAtStored(table, op.Collection(), op.ID());
  }

  lemma {:induction false} LookupsPass(op: Op, lookups: seq<Key>, snap: Snapshot)
    requires forall key <- lookups :: key in snap
    ensures CheckLookups(op, lookups, snap).Pass? <==> forall key <- lookups :: LookupPasses(op, snap, key)
    ensures CheckLookups(op, lookups, snap).Fail? ==> CheckLookups(op, lookups, snap) == Fail(Conflict)
  {
    if lookups != [] {
      LookupsPass(op, lookups[1..], snap);
      assert LookupPasses(op, snap, lookups[0]) <==> !(snap[lookups[0]].Present? && (!op.Replace? || snap[lookups[0]].value != LookupValue(op.ID())));
      assert forall key :: key in lookups <==> key == lookups[0] || key in lookups[1..];
    }
  }

  ghost predicate LookupPasses(op: Op, snap: Snapshot, key: Key) {
    key in snap && (snap[key].Present? ==> op.Replace? && snap[key].value == LookupValue(op.ID()))
  }

  lemma ValuePasses(table: RegistryTable, op: Op, snap: Snapshot, key: Key)
    requires Now(table, op, snap) && key in LookupsOf(op.New()) && Expected(Values(table), op)
    ensures key.LookupKey? && (LookupPasses(op, snap, key) <==> ValueFree(Values(table), key.kind, key.text, op.ID()))
  {
    var data := Values(table);
    ReadsCover(op, snap);
    LookupKinds(op.New().value, key);
    assert key in snap && snap[key] == Lookup(table, key);
    assert Lookup(table, key).Present? <==> key in data;
    forall collection, other | Stores(data, collection, other) && HasValue(Stored(data, collection, other), key.kind, key.text)
      ensures key in data && data[key] == LookupValue(other)
    {
      LookupsExactly(Stored(data, collection, other), key);
      assert Findable(data, collection, other);
    }
    if key in data {
      assert Resolves(data, key) && snap[key].value == data[key];
      LookupsExactly(Stored(data, key.kind.Collection(), data[key].id), key);
    }
  }

  lemma ValuesPass(table: RegistryTable, op: Op, snap: Snapshot)
    requires Now(table, op, snap) && Expected(Values(table), op)
    ensures forall key <- LookupsOf(op.New()) :: key in snap
    ensures CheckLookups(op, LookupsOf(op.New()), snap).Pass? <==> (op.New().Some? ==> ValuesFree(Values(table), op.New().value))
    ensures CheckLookups(op, LookupsOf(op.New()), snap).Fail? ==> CheckLookups(op, LookupsOf(op.New()), snap) == Fail(Conflict)
  {
    ReadsCover(op, snap);
    LookupsPass(op, LookupsOf(op.New()), snap);
    forall key <- LookupsOf(op.New())
      ensures key.LookupKey? && (LookupPasses(op, snap, key) <==> ValueFree(Values(table), key.kind, key.text, op.ID()))
    {
      ValuePasses(table, op, snap, key);
    }
    if op.New().Some? {
      forall kind, text
        ensures HasValue(op.New().value, kind, text) <==> LookupKey(kind, text) in LookupsOf(op.New())
      {
        LookupsExactly(op.New().value, LookupKey(kind, text));
      }
    }
  }

  lemma ProviderNow(table: RegistryTable, id: ID)
    requires Integrity(Values(table))
    ensures AsProvider(Lookup(table, ProviderKey(id))) ==
            if Stores(Values(table), Providers, id) then Ok(Stored(Values(table), Providers, id)) else Err(NotFound)
  {
    if ProviderKey(id) in table {
      assert WellTyped(ProviderKey(id), Values(table)[ProviderKey(id)]);
    }
  }

  lemma IndexNow(table: RegistryTable, key: Key)
    requires Integrity(Values(table)) && (key.CollectionIndex? || key.ByProvider?)
    ensures AsIndex(Lookup(table, key)) == Ok(IDs(Values(table), key))
  {
    if key in table {
      assert WellTyped(key, Values(table)[key]);
    }
  }

  lemma ProvidersPass(table: RegistryTable, op: Op, snap: Snapshot)
    requires Now(table, op, snap) && Expected(Values(table), op)
    ensures forall id <- ProvidersOf(op) :: ProviderKey(id) in snap
    ensures CheckProviders(op, snap).Ok? <==> (op.New().Some? ==> Routable(Values(table), op.New().value))
  {
    var data := Values(table);
    ReadsCover(op, snap);
    ProvidersOfMembers(op);
    if op.Replace? && op.entity.Model? {
      assert Routes(data, op.ID(), op.previous.providerID);
      ProviderNow(table, op.previous.providerID);
    }
    if op.New().Some? && op.New().value.Model? {
      ProviderNow(table, op.New().value.providerID);
    }
  }

  lemma ProvidersRefuse(table: RegistryTable, op: Op, snap: Snapshot)
    requires Now(table, op, snap) && Expected(Values(table), op)
    requires forall id <- ProvidersOf(op) :: ProviderKey(id) in snap
    ensures CheckProviders(op, snap).Err? ==>
              && op.New().Some? && op.New().value.Model?
              && CheckProviders(op, snap) == Err(if Stores(Values(table), Providers, op.New().value.providerID) then Conflict else NotFound)
  {
    var data := Values(table);
    hide Integrity;
    ProvidersOfMembers(op);
    if !op.Delete? && op.entity.Model? {
      assert ProviderKey(op.entity.providerID) in snap;
      ProviderNow(table, op.entity.providerID);
      if op.Replace? {
        assert Routes(data, op.ID(), op.previous.providerID);
        IsRouted(table, op.ID(), op.previous.providerID);
        ProviderNow(table, op.previous.providerID);
      }
    }
  }

  lemma IsRouted(table: RegistryTable, id: ID, provider: ID)
    requires Integrity(Values(table)) && Routes(Values(table), id, provider)
    ensures Stores(Values(table), Providers, provider)
  {
  }

  lemma {:induction false} IndexesPass(table: RegistryTable, ids: seq<ID>, snap: Snapshot)
    requires Integrity(Values(table)) && forall id <- ids :: ByProvider(id) in snap && snap[ByProvider(id)] == Lookup(table, ByProvider(id))
    ensures CheckModelIndexes(ids, snap).Ok?
  {
    if ids != [] {
      IndexNow(table, ByProvider(ids[0]));
      IndexesPass(table, ids[1..], snap);
    }
  }

  lemma RestPasses(table: RegistryTable, op: Op, snap: Snapshot)
    requires Now(table, op, snap)
    ensures forall id <- ProvidersOf(op) :: ByProvider(id) in snap && ProviderKey(id) in snap
    ensures op.Replace? || CollectionIndex(op.Collection()) in snap
    ensures op.Delete? && op.previous.Provider? ==> ByProvider(op.ID()) in snap
    ensures CheckRest(op, snap).Ok? <==> (op.Delete? && op.previous.Provider? ==> forall model :: !Routes(Values(table), model, op.previous.id))
    ensures CheckRest(op, snap).Err? ==> CheckRest(op, snap) == Err(Conflict)
  {
    var data := Values(table);
    ReadsCover(op, snap);
    IndexNow(table, CollectionIndex(op.Collection()));
    IndexesPass(table, ProvidersOf(op), snap);
    if op.Delete? && op.previous.Provider? {
      NoModelsListed(table, op.ID());
      IndexNow(table, ByProvider(op.ID()));
    } else if op.Delete? && op.previous.Model? {
      ProvidersOfMembers(op);
      ProviderNow(table, op.previous.providerID);
    }
  }

  lemma NoModelsListed(table: RegistryTable, provider: ID)
    requires Integrity(Values(table))
    ensures IDs(Values(table), ByProvider(provider)) == [] <==> forall model :: !Routes(Values(table), model, provider)
  {
    var data := Values(table);
    assert forall id :: id in IDs(data, ByProvider(provider)) <==> Routes(data, id, provider);
    if IDs(data, ByProvider(provider)) != [] {
      assert Routes(data, IDs(data, ByProvider(provider))[0], provider);
    }
  }

  lemma RepliesInOrder(table: RegistryTable, op: Op, snap: Snapshot)
    requires Now(table, op, snap)
    ensures ReplyOn(table, op).Ok? <==> CheckAll(op, snap).Ok?
    ensures CheckAll(op, snap).Err? ==> ReplyOn(table, op) == Err(CheckAll(op, snap).error)
  {
    hide CheckAll;
    hide ReadNow;
    hide WriteBatch;
  }

  // A create, replace or delete is accepted exactly when the stored entities admit it: a
  // taken unique value, a missing or inactive provider, or a model still routed refuse it,
  // and nothing in the indexes or lookups decides otherwise.
  lemma AcceptedExactly(table: RegistryTable, op: Op)
    requires op.WellFormed() && Integrity(Values(table))
    ensures ReplyOn(table, op).Ok? <==> Admissible(Values(table), op)
    ensures ReplyOn(table, op).Err? ==> ReplyOn(table, op) == Err(if Missing(Values(table), op) then NotFound else Conflict)
  {
    hide Integrity;
    hide ReadNow;
    hide CheckArguments;
    hide CheckTarget;
    hide CheckLookups;
    hide CheckProviders;
    hide CheckRest;
    hide ValuesFree;
    hide Routes;
    var snap := ReadNow(table, op);
    RepliesInOrder(table, op, snap);
    TargetPasses(table, op, snap);
    ReadsCover(op, snap);
    if Expected(Values(table), op) {
      ValuesPass(table, op, snap);
      ProvidersPass(table, op, snap);
      ProvidersRefuse(table, op, snap);
      RestPasses(table, op, snap);
    }
  }

  // ---- What a call does ----

  lemma ReadsShow(table: RegistryTable, op: Op)
    requires op.WellFormed()
    ensures Shows(ReadNow(table, op), Values(table))
  {
  }

  lemma CallKeepsIntegrity(table: RegistryTable, op: Op)
    requires op.WellFormed() && Integrity(Values(table))
    ensures Integrity(Values(TableAfter(table, op)))
  {
    ReadsShow(table, op);
    var outcome := OutcomeOn(table, op);
    if outcome.Commit? {
      ValuesCommitted(table, outcome.batch);
      WriteKeepsIntegrity(op, ReadNow(table, op), Values(table));
    }
  }

  // An accepted call sets, or removes, the one entity it names; the provider a model
  // moves to or from is rewritten with the value it had.
  lemma CallChangesOneEntity(table: RegistryTable, op: Op, collection: Collection, id: ID)
    requires op.WellFormed() && Integrity(Values(table)) && ReplyOn(table, op).Ok?
    ensures EntityAt(TableAfter(table, op), collection, id) ==
            if EntityKey(collection, id) != op.Target() then EntityAt(table, collection, id)
            else if op.New().Some? then Ok(op.New().value) else Err(NotFound)
  {
    var snap, data, after := ReadNow(table, op), Values(table), Values(TableAfter(table, op));
    ReadsShow(table, op);
    ValuesCommitted(table, OutcomeOn(table, op).batch);
    AcceptedReady(op, snap, data);
    WriteAfter(op, snap, data);
    KeepsTyped(op, snap, data, after);
    EntitiesAfter(op, snap, data, after, collection, id);
    EntityAtStored(table, collection, id);
    EntityAtStored(TableAfter(table, op), collection, id);
  }

  // ---- After any sequence of calls ----

  ghost predicate Calls(ops: seq<Op>) {
    forall op <- ops :: op.WellFormed()
  }

  ghost function AfterAll(ops: seq<Op>): RegistryTable
    requires Calls(ops)
  {
    if ops == [] then map[] else TableAfter(AfterAll(ops[..|ops| - 1]), ops[|ops| - 1])
  }

  lemma {:induction false} CallsKeepIntegrity(ops: seq<Op>)
    requires Calls(ops)
    ensures Integrity(Values(AfterAll(ops)))
  {
    if ops != [] {
      CallsKeepIntegrity(ops[..|ops| - 1]);
      CallKeepsIntegrity(AfterAll(ops[..|ops| - 1]), ops[|ops| - 1]);
    }
  }

  // After any sequence of accepted and rejected calls every list is exact and a unique
  // value finds an entity exactly when that entity is stored with it.
  lemma CallsKeepQueriesExact(ops: seq<Op>, collection: Collection, provider: ID, kind: LookupKind, text: string, entity: Entity)
    requires Calls(ops)
    ensures var table := AfterAll(ops);
            && List(table, collection, CollectionIndex(collection)).Ok? && OncePerID(List(table, collection, CollectionIndex(collection)).value)
            && (entity in List(table, collection, CollectionIndex(collection)).value <==> EntityAt(table, collection, entity.id) == Ok(entity))
    ensures var table := AfterAll(ops);
            && List(table, Models, ByProvider(provider)).Ok? && OncePerID(List(table, Models, ByProvider(provider)).value)
            && (entity in List(table, Models, ByProvider(provider)).value
                <==> EntityAt(table, Models, entity.id) == Ok(entity) && entity.Model? && entity.providerID == provider)
    ensures Find(AfterAll(ops), kind, text) == Ok(entity)
       <==> EntityAt(AfterAll(ops), kind.Collection(), entity.id) == Ok(entity) && HasValue(entity, kind, text)
  {
    var table := AfterAll(ops);
    CallsKeepIntegrity(ops);
    ListsEveryEntity(table, collection);
    ListsModelsOf(table, provider);
    FindsStored(table, kind, text, entity);
    EntityAtStored(table, collection, entity.id);
    EntityAtStored(table, Models, entity.id);
    EntityAtStored(table, kind.Collection(), entity.id);
  }
}
