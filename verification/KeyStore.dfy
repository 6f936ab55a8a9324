// Records, keys and decisions of the virtual-key store: virtual keys, the user
// and model subjects that may back them, and the reverse index of each subject.
module KeyStore {
  import opened Options
  import opened Domain
  import opened EtagStore

  // A subject is named by the user or the model it projects.
  datatype Ref = UserRef(id: ID) | ModelRef(id: ID)

  // The zero time, which no valid payload carries, is 0.
  datatype Subject =
    | UserSubject(id: ID, status: Status, revision: nat, deleted: bool, updatedAt: int)
    | ModelSubject(id: ID, alias: string, status: Status, revision: nat, deleted: bool, updatedAt: int)
  {
    function Ref(): Ref {
      if UserSubject? then UserRef(id) else ModelRef(id)
    }

    predicate Live() {
      !deleted
    }
  }

  datatype VirtualKey = VirtualKey(
    id: ID, name: string, userID: ID, prefix: string, keyHash: string, modelIDs: seq<ID>,
    status: Status, expiresAt: Option<int>, createdAt: int, updatedAt: int)

  // Store keys; hashing the looked-up value with SHA-256 is taken as injective.
  datatype Key =
    | EntityKey(id: ID)
    | GlobalIndex
    | HashLookup(hash: string)
    | IndexKey(ref: Ref)
    | SubjectKey(ref: Ref)

  datatype Value =
    | KeyValue(key: VirtualKey)
    | IndexValue(ids: seq<ID>)
    | LookupValue(id: ID)
    | SubjectValue(subject: Subject)

  type Snapshot = map<Key, Entry<Value>>

  // ---- Reading records ----

  function AsKey(entry: Entry<Value>): Result<Option<VirtualKey>, Error> {
    match entry
    case Absent => Ok(None)
    case Present(KeyValue(key), _) => Ok(Some(key))
    case Present(_, _) => Err(Corrupt)
  }

  function AsIndex(entry: Entry<Value>): Result<seq<ID>, Error> {
    match entry
    case Absent => Ok([])
    case Present(IndexValue(ids), _) => Ok(ids)
    case Present(_, _) => Err(Corrupt)
  }

  function AsSubject(entry: Entry<Value>, ref: Ref): Result<Option<Subject>, Error> {
    match entry
    case Absent => Ok(None)
    case Present(SubjectValue(subject), _) => if subject.Ref() == ref then Ok(Some(subject)) else Err(Corrupt)
    case Present(_, _) => Err(Corrupt)
  }

  // ---- Subject payloads ----

  predicate ValidPayload(subject: Subject) {
    && subject.id != ""
    && (subject.ModelSubject? ==> subject.alias != "")
    && subject.revision > 0
    && subject.updatedAt != 0
    && subject.status.Valid()
    && (subject.deleted ==> subject.status == Disabled)
  }

  // Everything but the observational update time.
  predicate SamePayload(left: Subject, right: Subject) {
    && left.Ref() == right.Ref()
    && (left.ModelSubject? ==> left.alias == right.alias)
    && left.status == right.status
    && left.revision == right.revision
    && left.deleted == right.deleted
  }

  // Ok(true) is an idempotent replay, Ok(false) a write to perform.
  function CompareUpdate(current: Option<Subject>, next: Subject): Result<bool, Error>
    requires current.Some? ==> current.value.Ref() == next.Ref()
  {
    if current.None? then Ok(false)
    else
      var stored := current.value;
      if next.ModelSubject? && next.alias != stored.alias then Err(Conflict)
      else if next.revision < stored.revision then Err(Conflict)
      else if next.revision == stored.revision then
        if SamePayload(stored, next) then Ok(true) else Err(Conflict)
      else if stored.deleted && !next.deleted then Err(Conflict)
      else Ok(false)
  }

  // Whether a subject may back the key: the same rule for owners and for models.
  predicate CanBack(subject: Option<Subject>, status: Status) {
    && subject.Some?
    && !subject.value.deleted
    && subject.value.status.Valid()
    && (status == Active ==> subject.value.status == Active)
  }

  // ---- Operations and what they read ----

  datatype Op =
    | CreateKey(key: VirtualKey)
    | ReplaceKey(previous: VirtualKey, key: VirtualKey)
    | DeleteKey(previous: VirtualKey)
    | SyncSubject(subject: Subject)
    | FenceSubject(subject: Subject)
  {
    predicate Mutation() {
      CreateKey? || ReplaceKey? || DeleteKey?
    }

    function Old(): Option<VirtualKey> {
      if ReplaceKey? || DeleteKey? then Some(previous) else None
    }

    function New(): Option<VirtualKey> {
      if CreateKey? || ReplaceKey? then Some(key) else None
    }

    function KeyStatus(): Status
      requires Mutation()
    {
      if DeleteKey? then previous.status else key.status
    }

    // The key ID whose entity is read; a replacement reads the new key's ID.
    function KeyID(): ID
      requires Mutation()
    {
      if DeleteKey? then previous.id else key.id
    }
  }

  function ModelIDs(key: Option<VirtualKey>): seq<ID> {
    if key.Some? then key.value.modelIDs else []
  }

  // The key names the subject as its owner or as one of its models.
  predicate Names(key: VirtualKey, ref: Ref) {
    match ref
    case UserRef(id) => key.userID == id
    case ModelRef(id) => id in key.modelIDs
  }

  predicate Named(key: Option<VirtualKey>, ref: Ref) {
    key.Some? && Names(key.value, ref)
  }

  predicate Involves(op: Op, ref: Ref) {
    Named(op.Old(), ref) || Named(op.New(), ref)
  }

  // `models` lists, once each, the models of the old and of the new key.
  ghost predicate ModelOrder(op: Op, models: seq<ID>) {
    && NoDuplicates(models)
    && forall id :: id in models <==> id in ModelIDs(op.Old()) || id in ModelIDs(op.New())
  }

  function ModelReads(models: seq<ID>): seq<Key> {
    if models == [] then []
    else [SubjectKey(ModelRef(models[0])), IndexKey(ModelRef(models[0]))] + ModelReads(models[1..])
  }

  // The owners of the old and of the new key, once each.
  function Owners(op: Op): seq<Ref> {
    (if op.Old().Some? then [UserRef(op.Old().value.userID)] else []) +
    (if op.New().Some? && (op.Old().None? || op.New().value.userID != op.Old().value.userID)
     then [UserRef(op.New().value.userID)] else [])
  }

  function SubjectReads(refs: seq<Ref>): seq<Key> {
    if refs == [] then [] else [SubjectKey(refs[0])] + SubjectReads(refs[1..])
  }

  function IndexReads(refs: seq<Ref>): seq<Key> {
    if refs == [] then [] else [IndexKey(refs[0])] + IndexReads(refs[1..])
  }

  // The keys in the order the method reads them: every subject before its index.
  function ReadOrder(op: Op, models: seq<ID>): seq<Key> {
    match op
    case SyncSubject(subject) => [SubjectKey(subject.Ref())]
    case FenceSubject(subject) => [SubjectKey(subject.Ref()), IndexKey(subject.Ref())]
    case _ =>
      [EntityKey(op.KeyID())] +
      (if op.New().Some? then [HashLookup(op.New().value.keyHash)] else []) +
      SubjectReads(Owners(op)) +
      ModelReads(models) +
      (if op.ReplaceKey? then [] else [GlobalIndex]) +
      IndexReads(Owners(op))
  }

  // ---- Decisions ----

  datatype Outcome = Reject(error: Error) | Skip | Commit(batch: Batch<Key, Value>)

  ghost predicate Covers(op: Op, models: seq<ID>, snap: Snapshot) {
    forall key <- ReadOrder(op, models) :: key in snap
  }

  ghost function Decide(op: Op, models: seq<ID>, snap: Snapshot): Outcome
    requires Covers(op, models, snap)
  {
    if op.Mutation() then
      match CheckMutation(op, models, snap)
      case Err(error) => Reject(error)
      case Ok(_) => Commit(MutationBatch(op, snap))
    else DecideSubject(op, snap)
  }

  ghost function DecideSubject(op: Op, snap: Snapshot): Outcome
    requires !op.Mutation() && SubjectKey(op.subject.Ref()) in snap
    requires op.FenceSubject? ==> IndexKey(op.subject.Ref()) in snap
  {
    var ref := op.subject.Ref();
    if !ValidPayload(op.subject) || op.subject.deleted != op.FenceSubject? then Reject(Conflict)
    else match AsSubject(snap[SubjectKey(ref)], ref)
      case Err(error) => Reject(error)
      case Ok(current) =>
        match if op.FenceSubject? then AsIndex(snap[IndexKey(ref)]) else Ok([])
        case Err(error) => Reject(error)
        case Ok(ids) =>
          if ids != [] then Reject(Conflict)
          else match CompareUpdate(current, op.subject)
            case Err(error) => Reject(error)
            case Ok(true) => Skip
            case Ok(false) =>
              Commit(map[SubjectKey(ref) := Put(SubjectValue(op.subject), snap[SubjectKey(ref)].Expected())])
  }

  // A committed subject write puts that one record, and a fence has read no key.
  lemma SubjectDecision(op: Op, models: seq<ID>, snap: Snapshot)
    requires !op.Mutation() && Covers(op, models, snap) && Decide(op, models, snap).Commit?
    ensures Decide(op, models, snap).batch ==
            map[SubjectKey(op.subject.Ref()) := Put(SubjectValue(op.subject), snap[SubjectKey(op.subject.Ref())].Expected())]
    ensures ValidPayload(op.subject) && op.subject.deleted == op.FenceSubject?
    ensures AsSubject(snap[SubjectKey(op.subject.Ref())], op.subject.Ref()).Ok?
    ensures CompareUpdate(AsSubject(snap[SubjectKey(op.subject.Ref())], op.subject.Ref()).value, op.subject) == Ok(false)
    ensures op.FenceSubject? ==> IndexKey(op.subject.Ref()) in snap && AsIndex(snap[IndexKey(op.subject.Ref())]) == Ok([])
  {
  }

  ghost function CheckMutation(op: Op, models: seq<ID>, snap: Snapshot): Result<(), Error>
    requires op.Mutation() && Covers(op, models, snap)
  {
    OwnersCovered(op, models, snap);
    :- CheckArguments(op);
    :- CheckEntity(op, snap);
    :- CheckLookup(op, snap);
    var _ :- CheckOwners(op, snap);
    :- Need(ValidModelIDs(ModelIDs(op.Old())) && ValidModelIDs(ModelIDs(op.New())), Conflict);
    ModelReadsCover(op, models, snap);
    var _ :- CheckModels(models, ModelIDs(op.New()), op.KeyStatus(), snap);
    CheckIndexes(op, snap)
  }

  predicate ValidModelIDs(ids: seq<ID>) {
    "" !in ids && NoDuplicates(ids)
  }

  function CheckArguments(op: Op): Check<Error> {
    Need((op.ReplaceKey? ==> op.previous.id == op.key.id) && (op.New().Some? ==> op.New().value.modelIDs != []), Conflict)
  }

  function CheckEntity(op: Op, snap: Snapshot): Check<Error>
    requires op.Mutation() && EntityKey(op.KeyID()) in snap
  {
    var entity := snap[EntityKey(op.KeyID())];
    if op.CreateKey? then Need(entity.Absent?, Conflict)
    else match AsKey(entity)
      case Err(error) => Fail(error)
      case Ok(None) => Fail(NotFound)
      case Ok(Some(stored)) => Need(stored == op.previous, Conflict)
  }

  // A created key needs its hash unused; a replacement may find its own lookup.
  function CheckLookup(op: Op, snap: Snapshot): Check<Error>
    requires op.Mutation() && (op.New().Some? ==> HashLookup(op.New().value.keyHash) in snap)
  {
    if op.New().None? then Pass
    else
      var entry := snap[HashLookup(op.New().value.keyHash)];
      Need(entry.Absent? || (op.ReplaceKey? && entry.value == LookupValue(op.key.id)), Conflict)
  }

  function CheckOwners(op: Op, snap: Snapshot): Result<(), Error>
    requires op.Mutation()
    requires op.Old().Some? ==> SubjectKey(UserRef(op.Old().value.userID)) in snap
    requires op.New().Some? ==> SubjectKey(UserRef(op.New().value.userID)) in snap
  {
    if op.Old().Some? then
      var ref := UserRef(op.Old().value.userID);
      var subject :- AsSubject(snap[SubjectKey(ref)], ref);
      :- Need(subject.Some?, Conflict);
      CheckNewOwner(op, snap)
    else CheckNewOwner(op, snap)
  }

  function CheckNewOwner(op: Op, snap: Snapshot): Result<(), Error>
    requires op.Mutation()
    requires op.New().Some? ==> SubjectKey(UserRef(op.New().value.userID)) in snap
  {
    if op.New().None? then Ok(())
    else
      var ref := UserRef(op.New().value.userID);
      var subject :- AsSubject(snap[SubjectKey(ref)], ref);
      :- Need(CanBack(subject, op.New().value.status), Conflict);
      Ok(())
  }

  // Models in order: a kept model must be able to back the new key, a dropped one must be live.
  function CheckModels(models: seq<ID>, kept: seq<ID>, status: Status, snap: Snapshot): Result<(), Error>
    requires forall id <- models :: SubjectKey(ModelRef(id)) in snap && IndexKey(ModelRef(id)) in snap
  {
    if models == [] then Ok(())
    else
      var ref := ModelRef(models[0]);
      var subject :- AsSubject(snap[SubjectKey(ref)], ref);
      :- Need(if models[0] in kept then CanBack(subject, status) else subject.Some? && !subject.value.deleted, Conflict);
      var _ :- AsIndex(snap[IndexKey(ref)]);
      CheckModels(models[1..], kept, status, snap)
  }

  ghost function CheckIndexes(op: Op, snap: Snapshot): Result<(), Error>
    requires op.Mutation() && (op.ReplaceKey? || GlobalIndex in snap)
    requires op.Old().Some? ==> IndexKey(UserRef(op.Old().value.userID)) in snap
    requires op.New().Some? ==> IndexKey(UserRef(op.New().value.userID)) in snap
  {
    var _ :- if op.ReplaceKey? then Ok([]) else AsIndex(snap[GlobalIndex]);
    var _ :- if op.Old().None? then Ok([]) else AsIndex(snap[IndexKey(UserRef(op.Old().value.userID))]);
    var _ :- if op.New().None? then Ok([]) else AsIndex(snap[IndexKey(UserRef(op.New().value.userID))]);
    Ok(())
  }

  lemma {:induction false} ModelReadsMembers(models: seq<ID>)
    ensures forall key :: key in ModelReads(models) <==>
                          (key.SubjectKey? || key.IndexKey?) && key.ref.ModelRef? && key.ref.id in models
  {
    if models != [] {
      ModelReadsMembers(models[1..]);
    }
  }

  lemma ModelReadsCover(op: Op, models: seq<ID>, snap: Snapshot)
    requires op.Mutation() && Covers(op, models, snap)
    ensures forall id <- models :: SubjectKey(ModelRef(id)) in snap && IndexKey(ModelRef(id)) in snap
  {
    ModelReadsMembers(models);
    forall id <- models
      ensures SubjectKey(ModelRef(id)) in snap && IndexKey(ModelRef(id)) in snap
    {
      assert SubjectKey(ModelRef(id)) in ReadOrder(op, models);
      assert IndexKey(ModelRef(id)) in ReadOrder(op, models);
    }
  }

  lemma OwnersCover(op: Op, models: seq<ID>, snap: Snapshot, owner: Ref)
    requires op.Mutation() && Covers(op, models, snap) && Involves(op, owner) && owner.UserRef?
    ensures SubjectKey(owner) in snap && IndexKey(owner) in snap
  {
    var owners := Owners(op);
    assert owner == owners[0] || owner == owners[1..][0];
    assert SubjectKey(owner) in SubjectReads(owners) && IndexKey(owner) in IndexReads(owners);
    assert SubjectKey(owner) in ReadOrder(op, models) && IndexKey(owner) in ReadOrder(op, models);
  }

  lemma OwnersCovered(op: Op, models: seq<ID>, snap: Snapshot)
    requires op.Mutation() && Covers(op, models, snap)
    ensures forall owner: Ref :: owner.UserRef? && Involves(op, owner) ==> SubjectKey(owner) in snap && IndexKey(owner) in snap
  {
    forall owner: Ref | owner.UserRef? && Involves(op, owner)
      ensures SubjectKey(owner) in snap && IndexKey(owner) in snap
    {
      OwnersCover(op, models, snap, owner);
    }
  }

  // ---- What a mutation writes ----

  predicate Writes(op: Op, key: Key)
    requires op.Mutation()
  {
    match key
    case EntityKey(id) => id == op.KeyID()
    case GlobalIndex => !op.ReplaceKey?
    case HashLookup(hash) =>
      (op.Old().Some? && op.Old().value.keyHash == hash) || (op.New().Some? && op.New().value.keyHash == hash)
    case IndexKey(ref) => Involves(op, ref)
    case SubjectKey(ref) => Involves(op, ref)
  }

  ghost function KeysNaming(key: Option<VirtualKey>): (keys: set<Key>)
    ensures forall written :: written in keys <==> (
                                match written
                                case EntityKey(_) => false
                                case GlobalIndex => false
                                case HashLookup(hash) => key.Some? && key.value.keyHash == hash
                                case IndexKey(ref) => Named(key, ref)
                                case SubjectKey(ref) => Named(key, ref))
  {
    if key.None? then {}
    else
      {HashLookup(key.value.keyHash), IndexKey(UserRef(key.value.userID)), SubjectKey(UserRef(key.value.userID))} +
      (set id <- key.value.modelIDs :: IndexKey(ModelRef(id))) +
      (set id <- key.value.modelIDs :: SubjectKey(ModelRef(id)))
  }

  ghost function WrittenKeys(op: Op): (keys: set<Key>)
    requires op.Mutation()
    ensures forall key :: key in keys <==> Writes(op, key)
  {
    {EntityKey(op.KeyID())} + (if op.ReplaceKey? then {} else {GlobalIndex}) + KeysNaming(op.Old()) + KeysNaming(op.New())
  }

  // Lookups are written unconditionally; everything else expects the ETag it was read with.
  ghost function WriteFor(op: Op, snap: Snapshot, key: Key): Write<Value>
    requires op.Mutation()
  {
    var id, entry := op.KeyID(), if key in snap then snap[key] else Absent;
    match key
    case EntityKey(_) =>
      if op.New().Some? then Put(KeyValue(op.New().value), entry.Expected()) else Remove(entry.Expected())
    case GlobalIndex => Put(IndexValue(Reindexed(entry, id, op.New().Some?)), entry.Expected())
    case HashLookup(hash) =>
      if op.New().Some? && op.New().value.keyHash == hash then Put(LookupValue(id), None) else Remove(None)
    case IndexKey(ref) => Put(IndexValue(Reindexed(entry, id, Named(op.New(), ref))), entry.Expected())
    case SubjectKey(_) => Put(if entry.Present? then entry.value else LookupValue(id), entry.Expected())
  }

  function Reindexed(entry: Entry<Value>, id: ID, member: bool): seq<ID> {
    var ids := if entry.Present? && entry.value.IndexValue? then entry.value.ids else [];
    WithMember(ids, id, member)
  }

  ghost function MutationBatch(op: Op, snap: Snapshot): Batch<Key, Value>
    requires op.Mutation()
  {
    map key | key in WrittenKeys(op) :: WriteFor(op, snap, key)
  }
}
