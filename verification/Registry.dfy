// Users, providers and models: the collections that share one set of create,
// replace and delete mechanics, and the provider references of models.
module Registry {
  import opened Options
  import opened Domain
  import opened EtagStore

  datatype Collection = Users | Providers | Models

  datatype Entity =
    | User(id: ID, name: string, email: string, status: Status, revision: nat, createdAt: int, updatedAt: int)
    | Provider(id: ID, slug: string, name: string, kind: string, adapterAppID: string, status: Status, createdAt: int, updatedAt: int)
    | Model(id: ID, alias: string, providerID: ID, upstreamModel: string, status: Status, revision: nat, createdAt: int, updatedAt: int)
  {
    function Collection(): Collection {
      if User? then Users else if Provider? then Providers else Models
    }

    // The unique values that resolve to this entity.
    function Lookups(): seq<Key> {
      match this
      case User(_, _, email, _, _, _, _) => [LookupKey(UserEmail, email)]
      case Provider(_, slug, _, _, appID, _, _, _) => [LookupKey(ProviderSlug, slug), LookupKey(ProviderAppID, appID)]
      case Model(_, alias, _, _, _, _, _, _) => [LookupKey(ModelAlias, alias)]
    }
  }

  datatype LookupKind = UserEmail | ProviderSlug | ProviderAppID | ModelAlias {
    function Collection(): Collection {
      if UserEmail? then Users else if ModelAlias? then Models else Providers
    }
  }

  datatype Key =
    | EntityKey(collection: Collection, id: ID)
    | CollectionIndex(collection: Collection)
    | LookupKey(kind: LookupKind, text: string)
    | ByProvider(id: ID)

  datatype Value = EntityValue(entity: Entity) | IndexValue(ids: seq<ID>) | LookupValue(id: ID)

  // The entity has the unique value.
  predicate HasValue(entity: Entity, kind: LookupKind, text: string) {
    match kind
    case UserEmail => entity.User? && entity.email == text
    case ProviderSlug => entity.Provider? && entity.slug == text
    case ProviderAppID => entity.Provider? && entity.adapterAppID == text
    case ModelAlias => entity.Model? && entity.alias == text
  }

  lemma LookupsExactly(entity: Entity, key: Key)
    ensures key in entity.Lookups() <==> key.LookupKey? && HasValue(entity, key.kind, key.text)
  {
  }

  type Snapshot = map<Key, Entry<Value>>

  function ProviderKey(id: ID): Key {
    EntityKey(Providers, id)
  }

  // ---- Operations ----

  // Create and Replace of users and providers are the shared mechanics; the models' own
  // methods and the guarded provider delete add the provider references.
  datatype Op = Create(entity: Entity) | Replace(previous: Entity, entity: Entity) | Delete(previous: Entity) {
    function Old(): Option<Entity> {
      if Create? then None else Some(previous)
    }

    function New(): Option<Entity> {
      if Delete? then None else Some(entity)
    }

    function Collection(): Collection {
      if Delete? then previous.Collection() else entity.Collection()
    }

    function ID(): ID {
      if Delete? then previous.id else entity.id
    }

    predicate WellFormed() {
      Replace? ==> previous.Collection() == entity.Collection()
    }

    function Target(): Key {
      EntityKey(Collection(), ID())
    }
  }

  function LookupsOf(entity: Option<Entity>): seq<Key> {
    if entity.Some? then entity.value.Lookups() else []
  }

  predicate RoutesTo(entity: Option<Entity>, provider: ID) {
    entity.Some? && entity.value.Model? && entity.value.providerID == provider
  }

  predicate Involves(op: Op, provider: ID) {
    RoutesTo(op.Old(), provider) || RoutesTo(op.New(), provider)
  }

  // The providers of the old and of the new model, once each.
  function ProvidersOf(op: Op): seq<ID>
    requires op.WellFormed()
  {
    if op.Collection() != Models then []
    else if op.Replace? && op.previous.providerID != op.entity.providerID then [op.previous.providerID, op.entity.providerID]
    else if op.Delete? then [op.previous.providerID]
    else [op.entity.providerID]
  }

  function ProviderReads(ids: seq<ID>): seq<Key> {
    if ids == [] then [] else [ProviderKey(ids[0])] + ProviderReads(ids[1..])
  }

  function IndexReads(ids: seq<ID>): seq<Key> {
    if ids == [] then [] else [ByProvider(ids[0])] + IndexReads(ids[1..])
  }

  function ReadOrder(op: Op): seq<Key>
    requires op.WellFormed()
  {
    var index := CollectionIndex(op.Collection());
    match op
    case Create(entity) => [op.Target()] + entity.Lookups() + ProviderReads(ProvidersOf(op)) + [index] + IndexReads(ProvidersOf(op))
    case Replace(_, entity) => [op.Target()] + entity.Lookups() + ProviderReads(ProvidersOf(op)) + IndexReads(ProvidersOf(op))
    case Delete(previous) =>
      match previous
      case User(_, _, _, _, _, _, _) => [op.Target(), index]
      case Provider(id, _, _, _, _, _, _, _) => [op.Target(), ByProvider(id), index]
      case Model(_, _, provider, _, _, _, _, _) => [op.Target(), index, ByProvider(provider), ProviderKey(provider)]
  }

  // ---- Decisions ----

  function AsEntity(entry: Entry<Value>): Result<Option<Entity>, Error> {
    match entry
    case Absent => Ok(None)
    case Present(EntityValue(entity), _) => Ok(Some(entity))
    case Present(_, _) => Err(Corrupt)
  }

  function AsIndex(entry: Entry<Value>): Result<seq<ID>, Error> {
    match entry
    case Absent => Ok([])
    case Present(IndexValue(ids), _) => Ok(ids)
    case Present(_, _) => Err(Corrupt)
  }

  // A required provider: absence is NotFound.
  function AsProvider(entry: Entry<Value>): Result<Entity, Error> {
    match entry
    case Absent => Err(NotFound)
    case Present(EntityValue(entity), _) => if entity.Provider? then Ok(entity) else Err(Corrupt)
    case Present(_, _) => Err(Corrupt)
  }

  datatype Outcome = Reject(error: Error) | Commit(batch: Batch<Key, Value>)

  ghost predicate Covers(op: Op, snap: Snapshot) {
    op.WellFormed() && forall key <- ReadOrder(op) :: key in snap
  }

  ghost function Decide(op: Op, snap: Snapshot): Outcome
    requires Covers(op, snap)
  {
    match CheckAll(op, snap)
    case Err(error) => Reject(error)
    case Ok(_) => Commit(WriteBatch(op, snap))
  }

  function CheckTarget(op: Op, snap: Snapshot): Check<Error>
    requires op.Target() in snap
  {
    if op.Create? then Need(snap[op.Target()].Absent?, Conflict)
    else match AsEntity(snap[op.Target()])
      case Err(error) => Fail(error)
      case Ok(None) => Fail(NotFound)
      case Ok(Some(stored)) => Need(stored == op.previous, Conflict)
  }

  // A create needs each lookup unused; a replacement may find its own.
  function CheckLookups(op: Op, lookups: seq<Key>, snap: Snapshot): Check<Error>
    requires forall key <- lookups :: key in snap
  {
    if lookups == [] then Pass
    else if snap[lookups[0]].Present? && (!op.Replace? || snap[lookups[0]].value != LookupValue(op.ID())) then Fail(Conflict)
    else CheckLookups(op, lookups[1..], snap)
  }

  predicate Backs(provider: Entity, model: Entity) {
    model.status == Active ==> provider.status == Active
  }

  function CheckProviders(op: Op, snap: Snapshot): Result<(), Error>
    requires op.WellFormed() && forall id <- ProvidersOf(op) :: ProviderKey(id) in snap
  {
    if op.Collection() != Models || op.Delete? then Ok(())
    else
      ProvidersOfMembers(op);
      var _ :- if op.Replace? then AsProvider(snap[ProviderKey(op.previous.providerID)]) else Ok(op.entity);
      var provider :- AsProvider(snap[ProviderKey(op.entity.providerID)]);
      :- Need(Backs(provider, op.entity), Conflict);
      Ok(())
  }

  lemma ProvidersOfMembers(op: Op)
    requires op.WellFormed()
    ensures forall id :: id in ProvidersOf(op) <==> Involves(op, id)
    ensures NoDuplicates(ProvidersOf(op))
  {
  }

  function CheckModelIndexes(ids: seq<ID>, snap: Snapshot): Result<(), Error>
    requires forall id <- ids :: ByProvider(id) in snap
  {
    if ids == [] then Ok(())
    else
      var _ :- AsIndex(snap[ByProvider(ids[0])]);
      CheckModelIndexes(ids[1..], snap)
  }

  // A provider goes only when no model routes to it; a deleted model's provider may be gone.
  function CheckRest(op: Op, snap: Snapshot): Result<(), Error>
    requires op.WellFormed() && forall id <- ProvidersOf(op) :: ByProvider(id) in snap && ProviderKey(id) in snap
    requires op.Replace? || CollectionIndex(op.Collection()) in snap
    requires op.Delete? && op.previous.Provider? ==> ByProvider(op.ID()) in snap
  {
    if op.Delete? && op.previous.Provider? then
      var models :- AsIndex(snap[ByProvider(op.ID())]);
      :- Need(models == [], Conflict);
      var _ :- AsIndex(snap[CollectionIndex(Providers)]);
      Ok(())
    else
      var _ :- if op.Replace? then Ok([]) else AsIndex(snap[CollectionIndex(op.Collection())]);
      var _ :- CheckModelIndexes(ProvidersOf(op), snap);
      if op.Delete? && op.previous.Model? && snap[ProviderKey(op.previous.providerID)].Present?
      then match AsProvider(snap[ProviderKey(op.previous.providerID)])
        case Err(error) => Err(error)
        case Ok(_) => Ok(())
      else Ok(())
  }

  function CheckArguments(op: Op): Check<Error>
    requires op.WellFormed()
  {
    Need(op.Replace? && op.entity.Model? ==> op.previous.id == op.entity.id && op.previous.alias == op.entity.alias, Conflict)
  }

  ghost function CheckAll(op: Op, snap: Snapshot): Result<(), Error>
    requires Covers(op, snap)
  {
    ReadsCover(op, snap);
    :- CheckArguments(op);
    :- CheckTarget(op, snap);
    :- CheckLookups(op, LookupsOf(op.New()), snap);
    var _ :- CheckProviders(op, snap);
    CheckRest(op, snap)
  }

  lemma {:induction false} ReadMembers(ids: seq<ID>)
    ensures forall key :: key in ProviderReads(ids) <==> key.EntityKey? && key.collection == Providers && key.id in ids
    ensures forall key :: key in IndexReads(ids) <==> key.ByProvider? && key.id in ids
  {
    if ids != [] {
      ReadMembers(ids[1..]);
    }
  }

  lemma ReadsCover(op: Op, snap: Snapshot)
    requires Covers(op, snap)
    ensures op.Target() in snap && forall key <- LookupsOf(op.New()) :: key in snap
    ensures forall id <- ProvidersOf(op) :: ByProvider(id) in snap && ProviderKey(id) in snap
    ensures op.Replace? || CollectionIndex(op.Collection()) in snap
    ensures op.Delete? && op.previous.Provider? ==> ByProvider(op.ID()) in snap
  {
    var ids, order := ProvidersOf(op), ReadOrder(op);
    ReadMembers(ids);
    assert op.Target() in order;
    forall key <- LookupsOf(op.New())
      ensures key in snap
    {
      assert key in order;
    }
    if !op.Replace? {
      assert CollectionIndex(op.Collection()) in [CollectionIndex(op.Collection())];
      assert CollectionIndex(op.Collection()) in order;
    }
    if op.Delete? && op.previous.Provider? {
      assert ByProvider(op.ID()) in order;
    }
    forall id <- ids
      ensures ByProvider(id) in snap && ProviderKey(id) in snap
    {
      assert ByProvider(id) in order && ProviderKey(id) in order;
    }
  }

  // ---- What an operation writes ----

  predicate Writes(op: Op, snap: Snapshot, key: Key) {
    match key
    case EntityKey(collection, id) => key == op.Target() || Touches(op, snap, key)
    case CollectionIndex(collection) => collection == op.Collection() && !op.Replace?
    case LookupKey(_, _) => key in LookupsOf(op.Old()) || key in LookupsOf(op.New())
    case ByProvider(id) => Involves(op, id) || (key == ByProvider(op.ID()) && op.Collection() == Providers && op.Delete? && Found(snap, key))
  }

  predicate Found(snap: Snapshot, key: Key) {
    key in snap && snap[key].Present?
  }

  // A model's providers are rewritten unchanged; a delete skips a provider it did not find.
  predicate Touches(op: Op, snap: Snapshot, key: Key) {
    key.EntityKey? && key.collection == Providers && Involves(op, key.id) && (op.Delete? ==> Found(snap, key))
  }

  function Reindexed(entry: Entry<Value>, id: ID, member: bool): seq<ID> {
    WithMember(if entry.Present? && entry.value.IndexValue? then entry.value.ids else [], id, member)
  }

  function WriteFor(op: Op, snap: Snapshot, key: Key): Write<Value> {
    var entry := if key in snap then snap[key] else Absent;
    match key
    case EntityKey(_, id) =>
      if key != op.Target() then Put(if entry.Present? then entry.value else LookupValue(id), entry.Expected())
      else if op.New().Some? then Put(EntityValue(op.New().value), entry.Expected())
      else Remove(entry.Expected())
    case CollectionIndex(_) => Put(IndexValue(Reindexed(entry, op.ID(), op.New().Some?)), entry.Expected())
    case LookupKey(_, _) => if key in LookupsOf(op.New()) then Put(LookupValue(op.ID()), None) else Remove(None)
    case ByProvider(id) =>
      if op.Collection() == Providers then Remove(entry.Expected())
      else Put(IndexValue(Reindexed(entry, op.ID(), RoutesTo(op.New(), id))), entry.Expected())
  }

  ghost function KeysNaming(entity: Option<Entity>): (keys: set<Key>)
    ensures forall key :: key in keys <==> (match key
                                            case EntityKey(collection, id) => collection == Providers && RoutesTo(entity, id)
                                            case CollectionIndex(_) => false
                                            case LookupKey(_, _) => key in LookupsOf(entity)
                                            case ByProvider(id) => RoutesTo(entity, id))
  {
    (set key <- LookupsOf(entity) :: key) +
    (if entity.Some? && entity.value.Model? then {ProviderKey(entity.value.providerID), ByProvider(entity.value.providerID)} else {})
  }

  ghost function WrittenKeys(op: Op, snap: Snapshot): (keys: set<Key>)
    ensures forall key :: key in keys <==> Writes(op, snap, key)
  {
    var all := {op.Target(), CollectionIndex(op.Collection()), ByProvider(op.ID())} + KeysNaming(op.Old()) + KeysNaming(op.New());
    set key <- all | Writes(op, snap, key)
  }

  ghost function WriteBatch(op: Op, snap: Snapshot): Batch<Key, Value> {
    map key | key in WrittenKeys(op, snap) :: WriteFor(op, snap, key)
  }
}
