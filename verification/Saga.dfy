// The life of one user or model across two services: the canonical record in the
// private store and its authorization subject behind remote calls that may arrive late,
// more than once, or never, and whose answers may be lost.
module Saga {
  import opened Options
  import opened Domain
  import opened KeyStore

  datatype Resource = UserResource(id: ID) | ModelResource(id: ID, alias: string) {
    predicate Named() {
      id != "" && (ModelResource? ==> alias != "")
    }

    function Ref(): Ref {
      if UserResource? then UserRef(id) else ModelRef(id)
    }
  }

  // A canonical record, as far as its projection depends on it; an alias never changes.
  datatype Record = Record(status: Status, revision: nat, updatedAt: int) {
    predicate Valid() {
      status.Valid() && revision > 0 && updatedAt != 0
    }
  }

  function SubjectFor(resource: Resource, record: Record, deleted: bool): Subject {
    var status := if deleted then Disabled else record.status;
    match resource
    case UserResource(id) => UserSubject(id, status, record.revision, deleted, record.updatedAt)
    case ModelResource(id, alias) => ModelSubject(id, alias, status, record.revision, deleted, record.updatedAt)
  }

  // A write to the canonical store; replacing and deleting expect the record they read.
  datatype Write = Create(record: Record) | Replace(previous: Record, record: Record) | Delete(previous: Record)

  // `history` has the status of every revision the canonical record has had; `calls` every
  // call ever sent; `writes` the canonical writes not yet performed; `referenced` whether
  // a virtual key names the subject.
  datatype World = World(
    resource: Resource, named: bool, canonical: Option<Record>, history: map<nat, Status>,
    subject: Option<Subject>, referenced: bool, calls: set<Subject>, writes: set<Write>)

  predicate Tombstone(w: World) {
    w.subject.Some? && w.subject.value.deleted
  }

  // ---- What a call and a write do when they get through ----

  predicate Addressed(w: World, call: Subject) {
    call.Ref() == w.resource.Ref() && (w.subject.Some? ==> w.subject.value.Ref() == w.resource.Ref())
  }

  predicate Accepts(w: World, call: Subject)
    requires Addressed(w, call)
  {
    ValidPayload(call) && (call.deleted ==> !w.referenced) && CompareUpdate(w.subject, call).Ok?
  }

  function Arrived(w: World, call: Subject): World
    requires Addressed(w, call)
  {
    if Accepts(w, call) && CompareUpdate(w.subject, call) == Ok(false) then w.(subject := Some(call)) else w
  }

  // A create is unconditional; the others are guarded by the record they expect.
  predicate Lands(w: World, write: Write) {
    write.Create? || w.canonical == Some(write.previous)
  }

  function Landed(w: World, write: Write): World {
    var rest := w.(writes := w.writes - {write});
    if !Lands(w, write) then rest
    else if write.Delete? then rest.(canonical := None)
    else rest.(canonical := Some(write.record), history := w.history[write.record.revision := write.record.status])
  }

  // ---- The services' methods, one remote step at a time ----

  datatype Task =
    | Creating(record: Record)
    | Revoking(previous: Record, record: Record)
    | Replacing(previous: Record, record: Record)
    | Fencing(previous: Record, record: Record)
    | Deleting(previous: Record)
    | Announcing(record: Record)
  {
    predicate Calls() {
      Revoking? || Fencing? || Announcing?
    }

    function Call(resource: Resource): Subject
      requires Calls()
    {
      SubjectFor(resource, record, Fencing?)
    }

    function Issued(): Write
      requires !Calls()
    {
      if Creating? then Create(record) else if Replacing? then Replace(previous, record) else Delete(previous)
    }

    // What the method does once this step has been answered with success: a disabled
    // status is projected before the canonical write, an active one after it.
    function Next(): Option<Task> {
      match this
      case Creating(record) => Some(Announcing(record))
      case Revoking(previous, record) => Some(Replacing(previous, record))
      case Replacing(_, record) => if record.status == Active then Some(Announcing(record)) else None
      case Fencing(previous, _) => Some(Deleting(previous))
      case Deleting(_) => None
      case Announcing(_) => None
    }

    function Rank(): nat {
      match this
      case Announcing(_) => 0
      case Deleting(_) => 0
      case Replacing(_, _) => 1
      case _ => 2
    }
  }

  function Entered(w: World, task: Task): World {
    if task.Calls() then w.(calls := w.calls + {task.Call(w.resource)}) else w.(writes := w.writes + {task.Issued()})
  }

  datatype Request = Post(status: Status) | Put(status: Status) | Remove

  function Bumped(record: Record, status: Status, now: int): Record {
    Record(status, record.revision + 1, now)
  }

  // The first step of a request, or None when it is refused before any remote step.
  function First(w: World, request: Request, now: int): Option<Task> {
    match request
    case Post(status) => if w.named || !status.Valid() then None else Some(Creating(Record(status, 1, now)))
    case Put(status) =>
      if w.canonical.None? || !status.Valid() then None
      else if status == Disabled then Some(Revoking(w.canonical.value, Bumped(w.canonical.value, status, now)))
      else Some(Replacing(w.canonical.value, Bumped(w.canonical.value, status, now)))
    case Remove =>
      if w.canonical.None? then None
      else Some(Fencing(w.canonical.value, Bumped(w.canonical.value, w.canonical.value.status, now)))
  }

  function Begun(w: World, request: Request): World {
    if request.Post? then w.(named := true) else w
  }

  // ---- The machine: any number of requests at once, and an unreliable network ----

  datatype System = System(world: World, tasks: map<nat, Task>)

  datatype Action =
    | DoBegin(pid: nat, request: Request, now: int)
    | DoArrive(call: Subject, answered: Option<nat>)
    | DoLand(write: Write, answered: Option<nat>)
    | DoFail(pid: nat)
    | DoRefer(referenced: bool)

  // The task goes on to its next step, or is over.
  function Continued(s: System, pid: nat, world: World): System
    requires pid in s.tasks
  {
    var next := s.tasks[pid].Next();
    if next.None? then System(world, s.tasks - {pid}) else System(Entered(world, next.value), s.tasks[pid := next.value])
  }

  function Answered(s: System, answered: Option<nat>, world: World, success: bool): System
    requires answered.Some? ==> answered.value in s.tasks
  {
    if answered.None? then System(world, s.tasks)
    else if success then Continued(s, answered.value, world)
    else System(world, s.tasks - {answered.value})
  }

  predicate WaitsForCall(s: System, pid: nat, call: Subject) {
    pid in s.tasks && s.tasks[pid].Calls() && s.tasks[pid].Call(s.world.resource) == call
  }

  predicate WaitsForWrite(s: System, pid: nat, write: Write) {
    pid in s.tasks && !s.tasks[pid].Calls() && s.tasks[pid].Issued() == write
  }

  predicate Begins(s: System, s': System, pid: nat, request: Request, now: int) {
    && pid !in s.tasks && now != 0 && First(s.world, request, now).Some?
    && var task := First(s.world, request, now).value;
       s' == System(Entered(Begun(s.world, request), task), s.tasks[pid := task])
  }

  predicate Arrives(s: System, s': System, call: Subject, answered: Option<nat>) {
    && call in s.world.calls && Addressed(s.world, call)
    && (answered.Some? ==> WaitsForCall(s, answered.value, call))
    && s' == Answered(s, answered, Arrived(s.world, call), Accepts(s.world, call))
  }

  predicate LandsAt(s: System, s': System, write: Write, answered: Option<nat>) {
    && write in s.world.writes
    && (answered.Some? ==> WaitsForWrite(s, answered.value, write))
    && s' == Answered(s, answered, Landed(s.world, write), Lands(s.world, write))
  }

  // A key can start to name the subject only while the subject lives.
  predicate Refers(s: System, s': System, referenced: bool) {
    && (referenced ==> s.world.subject.Some? && !Tombstone(s.world))
    && s' == s.(world := s.world.(referenced := referenced))
  }

  predicate Step(s: System, s': System, action: Action) {
    match action
    case DoBegin(pid, request, now) => Begins(s, s', pid, request, now)
    case DoArrive(call, answered) => Arrives(s, s', call, answered)
    case DoLand(write, answered) => LandsAt(s, s', write, answered)
    case DoFail(pid) => pid in s.tasks && s' == s.(tasks := s.tasks - {pid})
    case DoRefer(referenced) => Refers(s, s', referenced)
  }

  predicate Init(s: System) {
    && s.world.resource.Named() && !s.world.named && s.world.canonical.None? && s.world.history == map[]
    && s.world.subject.None? && !s.world.referenced && s.world.calls == {} && s.world.writes == {} && s.tasks == map[]
  }

  // ---- Invariant ----

  // The subject has reached the revision, whatever it says there.
  predicate Reached(w: World, revision: nat) {
    w.subject.Some? && w.subject.value.revision >= revision
  }

  ghost predicate CallOk(w: World, call: Subject) {
    && ValidPayload(call) && call.Ref() == w.resource.Ref()
    && (call.ModelSubject? ==> w.resource.ModelResource? && call.alias == w.resource.alias)
    && (call.status == Active ==> call.revision in w.history && w.history[call.revision] == Active)
    && (w.canonical.Some? ==> call.revision <= w.canonical.value.revision + 1)
  }

  // A disabled status is written only after the subject has heard of it, a delete only
  // under a tombstone.
  ghost predicate WriteOk(w: World, write: Write) {
    match write
    case Create(record) => w.named && w.history == map[] && record.Valid() && record.revision == 1
    case Replace(previous, record) =>
      && record.Valid() && record.revision == previous.revision + 1
      && (w.canonical.Some? ==> previous.revision <= w.canonical.value.revision)
      && (record.status == Disabled ==> Reached(w, record.revision))
    case Delete(previous) => Tombstone(w)
  }

  ghost predicate CanonicalOk(w: World) {
    match w.canonical
    case None => w.history != map[] ==> Tombstone(w)
    case Some(record) =>
      && w.named && record.Valid()
      && record.revision in w.history && w.history[record.revision] == record.status
      && (forall revision <- w.history :: revision <= record.revision)
      && (record.status == Disabled && record.revision > 1 ==> Reached(w, record.revision))
  }

  ghost predicate WorldInv(w: World) {
    && w.resource.Named() && CanonicalOk(w)
    && (forall call <- w.calls :: CallOk(w, call))
    && (forall write <- w.writes :: WriteOk(w, write))
    && (w.subject.Some? ==> w.subject.value in w.calls)
    && (w.referenced ==> w.subject.Some? && !Tombstone(w))
    && (w.history == map[] ==> w.calls == {} && forall write <- w.writes :: write.Create?)
    && (!w.named ==> w.writes == {} && w.history == map[])
    && (forall one <- w.writes, other <- w.writes :: one.Create? && other.Create? ==> one == other)
  }

  ghost predicate TaskOk(w: World, task: Task) {
    match task
    case Creating(record) => w.named && record.Valid() && record.revision == 1
    case Revoking(previous, record) => Follows(w, previous, record) && record.status == Disabled
    case Replacing(previous, record) => Follows(w, previous, record) && (record.status == Disabled ==> Reached(w, record.revision))
    case Fencing(previous, record) => Follows(w, previous, record)
    case Deleting(_) => Tombstone(w)
    case Announcing(_) => true
  }

  ghost predicate Follows(w: World, previous: Record, record: Record) {
    && record.Valid() && record.revision == previous.revision + 1 && w.history != map[]
    && (w.canonical.Some? ==> previous.revision <= w.canonical.value.revision)
  }

  ghost predicate Inv(s: System) {
    WorldInv(s.world) && forall pid <- s.tasks :: TaskOk(s.world, s.tasks[pid])
  }

  // ---- Every step keeps it ----

  lemma ArrivedKeeps(w: World, call: Subject)
    requires WorldInv(w) && call in w.calls
    ensures Addressed(w, call) && WorldInv(Arrived(w, call))
    ensures forall task :: TaskOk(w, task) ==> TaskOk(Arrived(w, call), task)
    ensures forall revision :: Reached(w, revision) ==> Reached(Arrived(w, call), revision)
    ensures Accepts(w, call) ==> Reached(Arrived(w, call), call.revision) && (call.deleted ==> Tombstone(Arrived(w, call)))
  {
    assert CallOk(w, call);
    assert w.subject.Some? ==> CallOk(w, w.subject.value);
    var after := Arrived(w, call);
    assert Tombstone(w) ==> Tombstone(after);
    assert forall revision :: Reached(w, revision) ==> Reached(after, revision);
    assert forall other <- w.calls :: CallOk(w, other) ==> CallOk(after, other);
    assert forall write <- w.writes :: WriteOk(w, write) ==> WriteOk(after, write);
  }

  lemma LandedKeeps(w: World, write: Write)
    requires WorldInv(w) && write in w.writes
    ensures WorldInv(Landed(w, write))
    ensures forall task :: TaskOk(w, task) ==> TaskOk(Landed(w, write), task)
    ensures Lands(w, write) && !write.Delete? ==> Landed(w, write).canonical == Some(write.record)
  {
    assert WriteOk(w, write);
    var after := Landed(w, write);
    if Lands(w, write) {
      forall call <- w.calls
        ensures CallOk(after, call)
      {
        assert CallOk(w, call);
      }
      forall other <- after.writes
        ensures WriteOk(after, other)
      {
        assert WriteOk(w, other);
      }
      assert !write.Delete? ==> after.history[write.record.revision] == write.record.status && after.history != map[];
      assert write.Delete? ==> w.history != map[];
    }
  }

  // What a task may assume when it sends its call or issues its write.
  ghost predicate MayEnter(w: World, task: Task) {
    match task
    case Creating(record) => w.named && w.history == map[] && w.writes == {} && record.Valid() && record.revision == 1
    case Revoking(previous, record) => Follows(w, previous, record) && record.status == Disabled
    case Replacing(previous, record) => Follows(w, previous, record) && (record.status == Disabled ==> Reached(w, record.revision))
    case Fencing(previous, record) => Follows(w, previous, record)
    case Deleting(_) => Tombstone(w) && w.history != map[]
    case Announcing(record) => w.canonical == Some(record)
  }

  lemma EnteredKeeps(w: World, task: Task)
    requires WorldInv(w) && MayEnter(w, task)
    ensures WorldInv(Entered(w, task)) && TaskOk(Entered(w, task), task)
    ensures forall other :: TaskOk(w, other) ==> TaskOk(Entered(w, task), other)
  {
    var after := Entered(w, task);
    if task.Calls() {
      assert CallOk(after, task.Call(w.resource));
      assert forall call <- w.calls :: CallOk(w, call) ==> CallOk(after, call);
      assert forall write <- w.writes :: WriteOk(w, write) ==> WriteOk(after, write);
      assert w.history != map[];
    } else {
      assert WriteOk(after, task.Issued());
      assert forall call <- w.calls :: CallOk(w, call) ==> CallOk(after, call);
      assert forall write <- w.writes :: WriteOk(w, write) ==> WriteOk(after, write);
    }
  }

  lemma BeginKeeps(s: System, s': System, pid: nat, request: Request, now: int)
    requires Inv(s) && Begins(s, s', pid, request, now)
    ensures Inv(s')
  {
    var w, task := Begun(s.world, request), First(s.world, request, now).value;
    assert forall call <- w.calls :: CallOk(s.world, call) ==> CallOk(w, call);
    assert forall write <- w.writes :: WriteOk(s.world, write) ==> WriteOk(w, write);
    assert WorldInv(w);
    assert request.Post? ==> w.history == map[];
    EnteredKeeps(w, task);
    forall other <- s.tasks
      ensures TaskOk(s'.world, s.tasks[other])
    {
      assert TaskOk(s.world, s.tasks[other]) && TaskOk(w, s.tasks[other]);
    }
  }

  lemma ContinueKeeps(s: System, pid: nat, world: World)
    requires WorldInv(world) && (forall other <- s.tasks :: TaskOk(world, s.tasks[other])) && pid in s.tasks
    requires s.tasks[pid].Next().Some? ==> MayEnter(world, s.tasks[pid].Next().value)
    ensures Inv(Continued(s, pid, world))
  {
    if s.tasks[pid].Next().Some? {
      EnteredKeeps(world, s.tasks[pid].Next().value);
    }
  }

  lemma ArriveKeeps(s: System, s': System, call: Subject, answered: Option<nat>)
    requires Inv(s) && Arrives(s, s', call, answered)
    ensures Inv(s')
  {
    ArrivedKeeps(s.world, call);
    if answered.Some? && Accepts(s.world, call) {
      assert TaskOk(s.world, s.tasks[answered.value]);
      ContinueKeeps(s, answered.value, Arrived(s.world, call));
    }
  }

  lemma LandKeeps(s: System, s': System, write: Write, answered: Option<nat>)
    requires Inv(s) && LandsAt(s, s', write, answered)
    ensures Inv(s')
  {
    LandedKeeps(s.world, write);
    if answered.Some? && Lands(s.world, write) {
      ContinueKeeps(s, answered.value, Landed(s.world, write));
    }
  }

  lemma ReferKeeps(s: System, s': System, referenced: bool)
    requires Inv(s) && Refers(s, s', referenced)
    ensures Inv(s')
  {
    assert forall call <- s.world.calls :: CallOk(s.world, call) ==> CallOk(s'.world, call);
    assert forall write <- s.world.writes :: WriteOk(s.world, write) ==> WriteOk(s'.world, write);
    assert forall pid <- s.tasks :: TaskOk(s.world, s.tasks[pid]) ==> TaskOk(s'.world, s.tasks[pid]);
  }

  lemma StepKeepsInv(s: System, s': System, action: Action)
    requires Inv(s) && Step(s, s', action)
    ensures Inv(s')
  {
    match action
    case DoBegin(pid, request, now) => BeginKeeps(s, s', pid, request, now);
    case DoArrive(call, answered) => ArriveKeeps(s, s', call, answered);
    case DoLand(write, answered) => LandKeeps(s, s', write, answered);
    case DoFail(pid) =>
    case DoRefer(referenced) => ReferKeeps(s, s', referenced);
  }
}
