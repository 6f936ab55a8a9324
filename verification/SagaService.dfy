// The resource service's methods as code over one resource's world, with a fate for each
// remote step, and how failed methods are repaired.
module SagaService {
  import opened Options
  import opened Domain
  import opened KeyStore
  import opened Saga
  import opened SagaSafety

  // A remote step does not get through in time, gets through without its answer being
  // seen, or is answered. A step that did not get through may still do so later.
  datatype Fate = Lost | Unseen | Heard

  function FateAt(fates: seq<Fate>, i: nat): Fate {
    if i < |fates| then fates[i] else Lost
  }

  predicate Sound(w: World) {
    w.subject.Some? ==> w.subject.value.Ref() == w.resource.Ref()
  }

  // The world after one remote step, and whether the method saw it succeed.
  function Attempt(w: World, task: Task, fate: Fate): (attempt: (World, bool))
    requires Sound(w)
    ensures Sound(attempt.0)
  {
    var entered := Entered(w, task);
    if fate.Lost? then (entered, false)
    else if task.Calls() then
      var call := task.Call(w.resource);
      (Arrived(entered, call), fate.Heard? && Accepts(entered, call))
    else (Landed(entered, task.Issued()), fate.Heard? && Lands(entered, task.Issued()))
  }

  function Performed(w: World, task: Task, fates: seq<Fate>): (World, bool)
    requires Sound(w)
    decreases task.Rank()
  {
    var attempt := Attempt(w, task, FateAt(fates, 0));
    if !attempt.1 || task.Next().None? then attempt
    else Performed(attempt.0, task.Next().value, if fates == [] then [] else fates[1..])
  }

  function Served(w: World, request: Request, now: int, fates: seq<Fate>): (World, bool)
    requires Sound(w)
  {
    var first := First(w, request, now);
    if first.None? then (w, false) else Performed(Begun(w, request), first.value, fates)
  }

  // Every method is two remote steps.
  lemma TwoSteps(w: World, task: Task, fates: seq<Fate>)
    requires Sound(w) && task.Next().Some? && task.Next().value.Next().None?
    ensures var once := Attempt(w, task, FateAt(fates, 0));
            Performed(w, task, fates) == if once.1 then Attempt(once.0, task.Next().value, FateAt(fates, 1)) else once
  {
    var rest := if fates == [] then [] else fates[1..];
    assert FateAt(rest, 0) == FateAt(fates, 1);
    var once := Attempt(w, task, FateAt(fates, 0));
    if once.1 {
      assert Performed(once.0, task.Next().value, rest) == Attempt(once.0, task.Next().value, FateAt(rest, 0));
    }
  }

  lemma AttemptIs(w: World, task: Task, fate: Fate)
    requires Sound(w)
    ensures task.Calls() ==>
              var call := task.Call(w.resource); var sent := w.(calls := w.calls + {call});
              Attempt(w, task, fate) == (if fate.Lost? then sent else Arrived(sent, call), fate.Heard? && Accepts(sent, call))
    ensures !task.Calls() ==>
              var issued := w.(writes := w.writes + {task.Issued()});
              Attempt(w, task, fate) == (if fate.Lost? then issued else Landed(issued, task.Issued()), fate.Heard? && Lands(issued, task.Issued()))
  {
    hide Arrived;
    hide Accepts;
    hide Landed;
    hide Lands;
  }

  // A PUT of either status, step by step.
  lemma PutSteps(w: World, status: Status, now: int, fates: seq<Fate>)
    requires Sound(w) && w.canonical.Some? && (status == Active || status == Disabled)
    ensures var previous := w.canonical.value; var current := Record(status, previous.revision + 1, now);
            var first, second := if status == Disabled then Revoking(previous, current) else Replacing(previous, current),
                                 if status == Disabled then Replacing(previous, current) else Announcing(current);
            var once := Attempt(w, first, FateAt(fates, 0));
            Served(w, Put(status), now, fates) == if once.1 then Attempt(once.0, second, FateAt(fates, 1)) else once
  {
    hide Attempt;
    TwoSteps(w, First(w, Put(status), now).value, fates);
  }

  class ResourceService {
    var world: World

    constructor (resource: Resource)
      requires resource.Named()
      ensures world == World(resource, false, None, map[], None, false, {}, {}) && WorldInv(world)
    {
      world := World(resource, false, None, map[], None, false, {}, {});
    }

    method Send(call: Subject, fate: Fate) returns (ok: bool)
      requires Sound(world) && call.Ref() == world.resource.Ref()
      modifies this
      ensures var sent := old(world).(calls := old(world).calls + {call});
              && world == (if fate.Lost? then sent else Arrived(sent, call))
              && (ok <==> fate.Heard? && Accepts(sent, call))
    {
      world := world.(calls := world.calls + {call});
      ok := fate.Heard? && Accepts(world, call);
      if !fate.Lost? {
        world := Arrived(world, call);
      }
    }

    method Issue(write: Write, fate: Fate) returns (ok: bool)
      modifies this
      ensures var issued := old(world).(writes := old(world).writes + {write});
              && world == (if fate.Lost? then issued else Landed(issued, write))
              && (ok <==> fate.Heard? && Lands(issued, write))
    {
      world := world.(writes := world.writes + {write});
      ok := fate.Heard? && Lands(world, write);
      if !fate.Lost? {
        world := Landed(world, write);
      }
    }

    // Users and models: the canonical record first, then its projection.
    method Create(status: Status, now: int, fates: seq<Fate>) returns (ok: bool)
      requires WorldInv(world) && now != 0
      modifies this
      ensures WorldInv(world) && (world, ok) == Served(old(world), Post(status), now, fates)
    {
      SoundOf(world);
      ServedKeeps(world, Post(status), now, fates);
      hide WorldInv;
      hide Arrived;
      hide Accepts;
      hide Landed;
      if !status.Valid() || world.named {
        return false;
      }
      TwoSteps(Begun(world, Post(status)), First(world, Post(status), now).value, fates);
      world := world.(named := true);
      var record := Record(status, 1, now);
      ok := Issue(Write.Create(record), FateAt(fates, 0));
      if !ok {
        return false;
      }
      ok := Send(SubjectFor(world.resource, record, false), FateAt(fates, 1));
    }

    // Disablement is projected before the canonical write, activation after it.
    method Update(status: Status, now: int, fates: seq<Fate>) returns (ok: bool)
      requires WorldInv(world) && now != 0
      modifies this
      ensures WorldInv(world) && (world, ok) == Served(old(world), Put(status), now, fates)
    {
      SoundOf(world);
      ServedKeeps(world, Put(status), now, fates);
      hide WorldInv;
      hide Arrived;
      hide Accepts;
      hide Landed;
      hide Lands;
      if world.canonical.None? || !status.Valid() {
        return false;
      }
      var previous := world.canonical.value;
      var current := Record(status, previous.revision + 1, now);
      PutSteps(world, status, now, fates);
      hide SubjectFor;
      hide Served;
      hide First;
      hide Attempt;
      if status == Disabled {
        AttemptIs(world, Revoking(previous, current), FateAt(fates, 0));
        ok := Send(SubjectFor(world.resource, current, false), FateAt(fates, 0));
        if !ok {
          return false;
        }
      }
      AttemptIs(world, Replacing(previous, current), FateAt(fates, if status == Disabled then 1 else 0));
      ok := Issue(Replace(previous, current), FateAt(fates, if status == Disabled then 1 else 0));
      if !ok {
        return false;
      }
      if status == Active {
        AttemptIs(world, Announcing(current), FateAt(fates, 1));
        ok := Send(SubjectFor(world.resource, current, false), FateAt(fates, 1));
      }
    }

    method Delete(now: int, fates: seq<Fate>) returns (ok: bool)
      requires WorldInv(world) && now != 0
      modifies this
      ensures WorldInv(world) && (world, ok) == Served(old(world), Remove, now, fates)
    {
      SoundOf(world);
      ServedKeeps(world, Remove, now, fates);
      hide WorldInv;
      hide Arrived;
      hide Accepts;
      hide Landed;
      if world.canonical.None? {
        return false;
      }
      var previous := world.canonical.value;
      TwoSteps(world, First(world, Remove, now).value, fates);
      var fence := previous.(revision := previous.revision + 1, updatedAt := now);
      ok := Send(SubjectFor(world.resource, fence, true), FateAt(fates, 0));
      if !ok {
        return false;
      }
      ok := Issue(Write.Delete(previous), FateAt(fates, 1));
    }
  }

  lemma SoundOf(w: World)
    requires WorldInv(w)
    ensures Sound(w)
  {
    if w.subject.Some? {
      assert CallOk(w, w.subject.value);
    }
  }

  // ---- A method is a run of the machine ----

  lemma AttemptKeeps(w: World, task: Task, fate: Fate)
    requires WorldInv(w) && MayEnter(w, task)
    ensures Sound(w) && WorldInv(Attempt(w, task, fate).0)
    ensures Attempt(w, task, fate).1 && task.Next().Some? ==> MayEnter(Attempt(w, task, fate).0, task.Next().value)
  {
    SoundOf(w);
    EnteredKeeps(w, task);
    var entered := Entered(w, task);
    if fate != Lost {
      if task.Calls() {
        ArrivedKeeps(entered, task.Call(w.resource));
      } else {
        LandedKeeps(entered, task.Issued());
      }
    }
  }

  lemma {:induction false} PerformedKeeps(w: World, task: Task, fates: seq<Fate>)
    requires WorldInv(w) && MayEnter(w, task)
    ensures Sound(w) && WorldInv(Performed(w, task, fates).0)
    decreases task.Rank()
  {
    AttemptKeeps(w, task, FateAt(fates, 0));
    var attempt := Attempt(w, task, FateAt(fates, 0));
    if attempt.1 && task.Next().Some? {
      PerformedKeeps(attempt.0, task.Next().value, if fates == [] then [] else fates[1..]);
    }
  }

  lemma FirstMayEnter(w: World, request: Request, now: int)
    requires WorldInv(w) && now != 0 && First(w, request, now).Some?
    ensures WorldInv(Begun(w, request)) && MayEnter(Begun(w, request), First(w, request, now).value)
  {
    assert forall call <- w.calls :: CallOk(w, call) ==> CallOk(Begun(w, request), call);
    assert forall write <- w.writes :: WriteOk(w, write) ==> WriteOk(Begun(w, request), write);
  }

  lemma ServedKeeps(w: World, request: Request, now: int, fates: seq<Fate>)
    requires WorldInv(w) && now != 0
    ensures Sound(w) && WorldInv(Served(w, request, now, fates).0)
  {
    SoundOf(w);
    if First(w, request, now).Some? {
      FirstMayEnter(w, request, now);
      PerformedKeeps(Begun(w, request), First(w, request, now).value, fates);
    }
  }

  ghost predicate Joins(trace: seq<System>, from: System, to: System) {
    Trace(trace) && trace[0] == from && trace[|trace| - 1] == to
  }

  lemma Extend(trace: seq<System>, from: System, middle: System, to: System, action: Action)
    requires Joins(trace, from, middle) && Step(middle, to, action)
    ensures Joins(trace + [to], from, to)
  {
    var all := trace + [to];
    forall i: nat | i + 1 < |all|
      ensures MovesAt(all, i)
    {
      if i + 1 < |trace| {
        assert MovesAt(trace, i);
      }
    }
  }

  // One remote step of a task, from the state it waits in.
  lemma AttemptRuns(trace: seq<System>, from: System, s: System, w: World, pid: nat, task: Task, fate: Fate) returns (longer: seq<System>)
    requires Joins(trace, from, s) && Sound(w) && s.world == Entered(w, task) && pid in s.tasks && s.tasks[pid] == task
    ensures var attempt := Attempt(w, task, fate);
            Joins(longer, from, if attempt.1 then Continued(s, pid, attempt.0) else System(attempt.0, s.tasks - {pid}))
  {
    var attempt := Attempt(w, task, fate);
    var action := if task.Calls() then DoArrive(task.Call(w.resource), if fate == Heard then Some(pid) else None)
                  else DoLand(task.Issued(), if fate == Heard then Some(pid) else None);
    var failed := System(attempt.0, s.tasks - {pid});
    if fate == Lost {
      Extend(trace, from, s, failed, DoFail(pid));
      longer := trace + [failed];
    } else if fate == Unseen {
      var seen := System(attempt.0, s.tasks);
      Extend(trace, from, s, seen, action);
      Extend(trace + [seen], from, seen, failed, DoFail(pid));
      longer := trace + [seen] + [failed];
    } else {
      var next := if attempt.1 then Continued(s, pid, attempt.0) else failed;
      Extend(trace, from, s, next, action);
      longer := trace + [next];
    }
  }

  lemma {:induction false} PerformedRuns(trace: seq<System>, from: System, s: System, w: World, pid: nat, task: Task, fates: seq<Fate>)
    returns (longer: seq<System>)
    requires Joins(trace, from, s) && Sound(w) && s.world == Entered(w, task) && pid in s.tasks && s.tasks[pid] == task
    ensures Joins(longer, from, System(Performed(w, task, fates).0, s.tasks - {pid}))
    decreases task.Rank()
  {
    var fate := FateAt(fates, 0);
    var attempt := Attempt(w, task, fate);
    longer := AttemptRuns(trace, from, s, w, pid, task, fate);
    if attempt.1 && task.Next().Some? {
      var next := Continued(s, pid, attempt.0);
      longer := PerformedRuns(longer, from, next, attempt.0, pid, task.Next().value, if fates == [] then [] else fates[1..]);
      assert next.tasks - {pid} == s.tasks - {pid};
    }
  }

  // Whatever befalls its remote steps, a method does no more than the machine can: every
  // call of Create, Update or Delete is a run of steps that ends in the method's result.
  lemma ServedIsARun(s: System, pid: nat, request: Request, now: int, fates: seq<Fate>) returns (trace: seq<System>)
    requires Sound(s.world) && pid !in s.tasks && now != 0
    ensures Joins(trace, s, System(Served(s.world, request, now, fates).0, s.tasks))
  {
    trace := [s];
    var first := First(s.world, request, now);
    if first.Some? {
      var begun := System(Entered(Begun(s.world, request), first.value), s.tasks[pid := first.value]);
      Extend(trace, s, s, begun, DoBegin(pid, request, now));
      trace := PerformedRuns([s] + [begun], s, begun, Begun(s.world, request), pid, first.value, fates);
      assert begun.tasks - {pid} == s.tasks;
    }
  }

  // ---- Repair ----

  const SMOOTH: seq<Fate> := [Heard, Heard]

  // The subject says what the canonical record says, at its revision.
  predicate Projected(w: World) {
    && w.canonical.Some? && w.subject.Some?
    && var record, subject := w.canonical.value, w.subject.value;
       && subject.Ref() == w.resource.Ref() && (subject.ModelSubject? ==> w.resource.ModelResource? && subject.alias == w.resource.alias)
       && subject.status == record.status && subject.revision == record.revision && !subject.deleted
  }

  // A disable that reached the subject but not the canonical record.
  predicate HalfDisabled(w: World) {
    w.canonical.Some? && w.subject.Some? && w.subject.value.revision == w.canonical.value.revision + 1
  }

  ghost predicate Repairable(w: World) {
    WorldInv(w) && w.canonical.Some? && !Tombstone(w)
  }

  lemma SubjectBounds(w: World)
    requires Repairable(w) && w.subject.Some?
    ensures w.subject.value.Ref() == w.resource.Ref() && ValidPayload(w.subject.value)
    ensures w.subject.value.ModelSubject? ==> w.resource.ModelResource? && w.subject.value.alias == w.resource.alias
    ensures w.subject.value.revision <= w.canonical.value.revision + 1
    ensures HalfDisabled(w) ==> w.subject.value.status == Disabled && !w.subject.value.deleted
  {
    assert CallOk(w, w.subject.value);
  }

  // One undisturbed disabling PUT makes the projection say what the record says.
  lemma DisablingRepairs(w: World, now: int)
    requires Repairable(w) && now != 0
    ensures Sound(w) && var served := Served(w, Put(Disabled), now, SMOOTH);
            && served.1 && Projected(served.0) && (served.0.subject.value.updatedAt == now || served.0.subject == w.subject)
            && served.0.canonical == Some(Record(Disabled, w.canonical.value.revision + 1, now))
  {
    SoundOf(w);
    if w.subject.Some? {
      SubjectBounds(w);
    }
    var record := Bumped(w.canonical.value, Disabled, now);
    TwoSteps(w, Revoking(w.canonical.value, record), SMOOTH);
    assert Accepts(Entered(w, Revoking(w.canonical.value, record)), SubjectFor(w.resource, record, false));
  }

  // One undisturbed activating PUT does too, exactly when no half-failed disable is ahead
  // of the record; it answers with success exactly then.
  lemma ActivatingRepairs(w: World, now: int)
    requires Repairable(w) && now != 0
    ensures Sound(w) && var served := Served(w, Put(Active), now, SMOOTH);
            && (served.1 <==> !HalfDisabled(w)) && (Projected(served.0) <==> !HalfDisabled(w))
            && (served.1 ==> served.0.subject.value.updatedAt == now)
            && served.0.canonical == Some(Record(Active, w.canonical.value.revision + 1, now))
            && Repairable(served.0) && !HalfDisabled(served.0)
  {
    ServedKeeps(w, Put(Active), now, SMOOTH);
    if w.subject.Some? {
      SubjectBounds(w);
    }
    TwoSteps(w, Replacing(w.canonical.value, Bumped(w.canonical.value, Active, now)), SMOOTH);
  }

  // So two undisturbed activating PUTs always do, and the second is needed exactly after a
  // half-failed disable.
  lemma TwoActivationsRepair(w: World, now: int, later: int)
    requires Repairable(w) && now != 0 && later != 0
    ensures Sound(w) && var once := Served(w, Put(Active), now, SMOOTH).0;
            && Sound(once) && Projected(Served(once, Put(Active), later, SMOOTH).0) && (Projected(once) <==> !HalfDisabled(w))
  {
    ActivatingRepairs(w, now);
    ActivatingRepairs(Served(w, Put(Active), now, SMOOTH).0, later);
  }

  // ---- Success and refusal ----

  // One undisturbed POST creates the record at revision 1 and projects it.
  lemma PostProjects(w: World, status: Status, now: int)
    requires WorldInv(w) && !w.named && (status == Active || status == Disabled) && now != 0
    ensures Sound(w) && var served := Served(w, Post(status), now, SMOOTH);
            && served.1 && Projected(served.0) && served.0.subject.value.updatedAt == now
            && served.0.canonical == Some(Record(status, 1, now))
  {
    SoundOf(w);
    TwoSteps(Begun(w, Post(status)), Creating(Record(status, 1, now)), SMOOTH);
  }

  // The revision a request gives the record it writes.
  function NextRevision(w: World): nat {
    if w.canonical.Some? then w.canonical.value.revision + 1 else 1
  }

  lemma CreateMeans(w: World, status: Status, now: int, fates: seq<Fate>)
    requires WorldInv(w) && now != 0
    ensures Sound(w) && var served := Served(w, Post(status), now, fates);
            served.1 ==> Projected(served.0) && served.0.canonical == Some(Record(status, 1, now)) && w.canonical == None
  {
    SoundOf(w);
    if First(w, Post(status), now).Some? {
      FirstMayEnter(w, Post(status), now);
      TwoSteps(Begun(w, Post(status)), First(w, Post(status), now).value, fates);
      assert w.canonical.None?;
    }
  }

  lemma UpdateMeans(w: World, status: Status, now: int, fates: seq<Fate>)
    requires WorldInv(w) && now != 0
    ensures Sound(w) && var served := Served(w, Put(status), now, fates);
            served.1 ==> w.canonical.Some? && Projected(served.0) && served.0.canonical == Some(Record(status, w.canonical.value.revision + 1, now))
  {
    SoundOf(w);
    if First(w, Put(status), now).Some? {
      FirstMayEnter(w, Put(status), now);
      TwoSteps(w, First(w, Put(status), now).value, fates);
      if w.subject.Some? {
        assert CallOk(w, w.subject.value);
      }
    }
  }

  lemma DeleteMeans(w: World, now: int, fates: seq<Fate>)
    requires WorldInv(w) && now != 0
    ensures Sound(w) && var served := Served(w, Remove, now, fates); served.1 ==> served.0.canonical == None && Tombstone(served.0)
  {
    SoundOf(w);
    if First(w, Remove, now).Some? {
      FirstMayEnter(w, Remove, now);
      TwoSteps(w, First(w, Remove, now).value, fates);
    }
  }

  // Whatever befalls its remote steps, a request that answers with success has done all of
  // it: a record that is written is projected, and one that is deleted is fenced.
  lemma SuccessMeans(w: World, request: Request, now: int, fates: seq<Fate>)
    requires WorldInv(w) && now != 0
    ensures Sound(w) && var served := Served(w, request, now, fates);
            served.1 ==>
              if request.Remove? then served.0.canonical == None && Tombstone(served.0)
              else Projected(served.0) && served.0.canonical == Some(Record(request.status, NextRevision(w), now))
  {
    hide Served;
    hide Projected;
    match request
    case Post(status) => CreateMeans(w, status, now, fates);
    case Put(status) => UpdateMeans(w, status, now, fates);
    case Remove => DeleteMeans(w, now, fates);
  }

  // A request for a record that is not there, for a name already taken or for an unknown
  // status is refused before any remote step.
  lemma RefusedAtOnce(w: World, request: Request, now: int, fates: seq<Fate>)
    requires WorldInv(w)
    requires (request.Post? && w.named) || (!request.Post? && w.canonical == None)
             || (!request.Remove? && request.status != Active && request.status != Disabled)
    ensures Sound(w) && Served(w, request, now, fates) == (w, false)
  {
    SoundOf(w);
  }

  // ---- A repair lasts ----

  // Nothing that is still under way can change the record or its subject.
  ghost predicate Settled(w: World) {
    && Sound(w) && (forall call <- w.calls :: call.Ref() == w.resource.Ref())
    && (forall call <- w.calls :: Arrived(w, call) == w)
    && (forall write <- w.writes :: !Lands(w, write))
  }

  // An answered PUT has sent its own call and performed its own write.
  lemma PutShape(w: World, status: Status, now: int)
    requires Repairable(w) && now != 0 && status.Valid()
    ensures Sound(w) && var served := Served(w, Put(status), now, SMOOTH);
            var record := Bumped(w.canonical.value, status, now);
            served.1 ==>
              && served.0.calls == w.calls + {SubjectFor(w.resource, record, false)} && served.0.writes <= w.writes
              && served.0.canonical == Some(record) && Projected(served.0) && served.0.resource == w.resource
  {
    SoundOf(w);
    TwoSteps(w, First(w, Put(status), now).value, SMOOTH);
    if status == Active {
      ActivatingRepairs(w, now);
    } else {
      DisablingRepairs(w, now);
    }
  }

  lemma RepairLasts(w: World, status: Status, now: int)
    requires Repairable(w) && now != 0 && status.Valid()
    ensures Sound(w) && var served := Served(w, Put(status), now, SMOOTH); served.1 ==> Settled(served.0)
  {
    ServedKeeps(w, Put(status), now, SMOOTH);
    PutShape(w, status, now);
    hide Served;
    var served, record := Served(w, Put(status), now, SMOOTH), Bumped(w.canonical.value, status, now);
    if served.1 {
      var after := served.0;
      SoundOf(after);
      forall call <- after.calls
        ensures call.Ref() == after.resource.Ref() && Arrived(after, call) == after
      {
        assert call in w.calls ==> CallOk(w, call);
        LateCall(after, call);
      }
      forall write <- after.writes
        ensures !Lands(after, write)
      {
        assert write in w.writes && WriteOk(w, write);
      }
    }
  }

  // A call no newer than the projected revision changes nothing.
  lemma LateCall(w: World, call: Subject)
    requires Projected(w) && Addressed(w, call) && call.revision <= w.canonical.value.revision
    ensures Arrived(w, call) == w
  {
  }

  // Until the next request, every late call and late write leaves them alone.
  lemma SettledStays(s: System, s': System, action: Action)
    requires Settled(s.world) && s.tasks == map[] && Step(s, s', action) && !action.DoBegin?
    ensures s'.world.canonical == s.world.canonical && s'.world.subject == s.world.subject
    ensures action.DoArrive? || action.DoLand? ==> Settled(s'.world) && s'.tasks == map[]
  {
    if action.DoLand? {
      assert !Lands(s.world, action.write);
      forall call <- s'.world.calls
        ensures Arrived(s'.world, call) == s'.world
      {
        assert Arrived(s.world, call) == s.world;
      }
    }
  }

  // ---- Deletion ----

  // Once a fence has been committed, one undisturbed delete removes the record, whatever
  // was attempted since.
  lemma DeleteFinishes(w: World, now: int)
    requires WorldInv(w) && w.canonical.Some? && Tombstone(w) && now != 0
    ensures Sound(w) && var served := Served(w, Remove, now, SMOOTH); served.1 && Gone(served.0) && Tombstone(served.0)
  {
    ServedKeeps(w, Remove, now, SMOOTH);
    assert CallOk(w, w.subject.value);
    var fence := Bumped(w.canonical.value, w.canonical.value.status, now);
    assert Accepts(Entered(w, Fencing(w.canonical.value, fence)), SubjectFor(w.resource, fence, true));
    TwoSteps(w, Fencing(w.canonical.value, fence), SMOOTH);
  }

  // A first delete goes through exactly when no key names the subject and no disablement
  // has half failed; otherwise it leaves the record and the subject as they were.
  lemma DeletesExactly(w: World, now: int)
    requires Repairable(w) && now != 0
    ensures Sound(w) && var served := Served(w, Remove, now, SMOOTH);
            && (served.1 <==> !w.referenced && !HalfDisabled(w))
            && (served.1 ==> Gone(served.0) && Tombstone(served.0))
            && (!served.1 ==> served.0.canonical == w.canonical && served.0.subject == w.subject)
  {
    ServedKeeps(w, Remove, now, SMOOTH);
    if w.subject.Some? {
      SubjectBounds(w);
    }
    var fence := Bumped(w.canonical.value, w.canonical.value.status, now);
    TwoSteps(w, Fencing(w.canonical.value, fence), SMOOTH);
  }

  lemma FencedDeletesFinish(trace: seq<System>, i: nat, j: nat, now: int)
    requires Trace(trace) && Init(trace[0]) && i <= j < |trace| && Tombstone(trace[i].world) && now != 0
    ensures Sound(trace[j].world)
    ensures trace[j].world.canonical.Some? ==> Served(trace[j].world, Remove, now, SMOOTH).1 && Gone(Served(trace[j].world, Remove, now, SMOOTH).0)
    ensures trace[j].world.canonical.None? ==> Gone(trace[j].world)
  {
    TraceKeepsInv(trace, j);
    SoundOf(trace[j].world);
    RunsAdvance(trace, i, j);
    if trace[j].world.canonical.Some? {
      DeleteFinishes(trace[j].world, now);
    }
  }
}
