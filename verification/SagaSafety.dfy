// Authorization stays closed over every run of the saga, whatever is lost or late.
module SagaSafety {
  import opened Options
  import opened Domain
  import opened KeyStore
  import opened Saga

  // ---- In one state ----

  // An active subject has an active canonical record behind it, at its revision or later.
  lemma ActiveIsBacked(w: World)
    requires WorldInv(w) && w.subject.Some? && w.subject.value.status == Active
    ensures w.canonical.Some? && w.canonical.value.status == Active && w.subject.value.revision <= w.canonical.value.revision
    ensures !w.subject.value.deleted
    ensures w.subject.value.ModelSubject? ==> w.resource.ModelResource? && w.subject.value.alias == w.resource.alias
  {
    assert CallOk(w, w.subject.value);
  }

  // A record that is gone left a tombstone; a record disabled by a PUT has told its subject.
  lemma RevocationIsKnown(w: World)
    requires WorldInv(w)
    ensures w.canonical.None? && w.history != map[] ==> Tombstone(w) && w.subject.value.status == Disabled
    ensures w.canonical.Some? && w.canonical.value.status == Disabled && w.canonical.value.revision > 1 ==>
              Reached(w, w.canonical.value.revision) && w.subject.value.status == Disabled
    ensures w.canonical.Some? && w.subject.Some? ==> w.subject.value.revision <= w.canonical.value.revision + 1
  {
    if w.subject.Some? {
      assert CallOk(w, w.subject.value);
    }
  }

  // ---- Over runs ----

  ghost predicate Moves(s: System, s': System) {
    exists action :: Step(s, s', action)
  }

  ghost predicate MovesAt(trace: seq<System>, i: nat)
    requires i + 1 < |trace|
  {
    Moves(trace[i], trace[i + 1])
  }

  ghost predicate Trace(trace: seq<System>) {
    |trace| > 0 && forall i: nat :: i + 1 < |trace| ==> MovesAt(trace, i)
  }

  lemma {:induction false} TraceKeepsInv(trace: seq<System>, i: nat)
    requires Trace(trace) && Inv(trace[0]) && i < |trace|
    ensures Inv(trace[i]) && trace[i].world.resource == trace[0].world.resource
  {
    if i > 0 {
      TraceKeepsInv(trace, i - 1);
      assert MovesAt(trace, i - 1);
      var action :| Step(trace[i - 1], trace[i], action);
      StepKeepsInv(trace[i - 1], trace[i], action);
      StepKeepsResource(trace[i - 1], trace[i], action);
      hide Step;
      hide Inv;
    }
  }

  lemma StepKeepsResource(s: System, s': System, action: Action)
    requires Step(s, s', action)
    ensures s'.world.resource == s.world.resource
  {
  }

  ghost predicate ActiveProjection(w: World) {
    w.subject.Some? && w.subject.value.status == Active && !w.subject.value.deleted
  }

  // In every state of every run: an active subject means an active canonical record with
  // the same alias, and a canonical record that is gone, or that a PUT has disabled, means
  // a subject that says so.
  lemma RunsFailClosed(trace: seq<System>, i: nat)
    requires Trace(trace) && Init(trace[0]) && i < |trace|
    ensures var w := trace[i].world;
            && (ActiveProjection(w) ==> w.canonical.Some? && w.canonical.value.status == Active)
            && w.resource == trace[0].world.resource
            && (ActiveProjection(w) && w.subject.value.ModelSubject? ==>
                  w.resource.ModelResource? && w.subject.value.alias == w.resource.alias)
            && (w.canonical.None? && w.history != map[] ==> Tombstone(w))
            && (w.canonical.Some? && w.canonical.value.status == Disabled && w.canonical.value.revision > 1 ==>
                  Reached(w, w.canonical.value.revision))
  {
    TraceKeepsInv(trace, i);
    RevocationIsKnown(trace[i].world);
    if ActiveProjection(trace[i].world) {
      ActiveIsBacked(trace[i].world);
    }
  }

  // ---- What never goes back ----

  ghost predicate Gone(w: World) {
    w.canonical.None? && w.history != map[]
  }

  // The subject only advances, and a replay leaves it as it was, update time included.
  ghost predicate Advances(w: World, w': World) {
    && (w.subject.Some? ==>
          && w'.subject.Some? && w.subject.value.revision <= w'.subject.value.revision
          && (w.subject.value.revision == w'.subject.value.revision ==> w'.subject == w.subject))
    && (Tombstone(w) ==> Tombstone(w') && !w'.referenced)
    && (Gone(w) ==> Gone(w'))
  }

  lemma ArrivedAdvances(w: World, call: Subject)
    requires WorldInv(w) && call in w.calls && Addressed(w, call)
    ensures Advances(w, Arrived(w, call))
  {
    ArrivedKeeps(w, call);
  }

  lemma LandedAdvances(w: World, write: Write)
    requires WorldInv(w) && write in w.writes
    ensures Advances(w, Landed(w, write))
  {
    assert WriteOk(w, write);
  }

  // Sending a call, issuing a write or ending a task changes no record.
  lemma TasksAdvance(s: System, answered: Option<nat>, w: World, world: World, success: bool)
    requires answered.Some? ==> answered.value in s.tasks
    requires Advances(w, world)
    ensures Advances(w, Answered(s, answered, world, success).world)
  {
  }

  lemma StepAdvances(s: System, s': System, action: Action)
    requires Inv(s) && Step(s, s', action)
    ensures Advances(s.world, s'.world)
  {
    match action
    case DoBegin(_, _, _) =>
    case DoArrive(call, answered) =>
      ArrivedAdvances(s.world, call);
      TasksAdvance(s, answered, s.world, Arrived(s.world, call), Accepts(s.world, call));
    case DoLand(write, answered) =>
      LandedAdvances(s.world, write);
      TasksAdvance(s, answered, s.world, Landed(s.world, write), Lands(s.world, write));
    case DoFail(_) =>
    case DoRefer(_) =>
  }

  lemma {:induction false} RunsAdvance(trace: seq<System>, i: nat, j: nat)
    requires Trace(trace) && Inv(trace[0]) && i <= j < |trace|
    ensures Advances(trace[i].world, trace[j].world)
    decreases j - i
  {
    if i == j {
      TraceKeepsInv(trace, i);
    } else {
      RunsAdvance(trace, i, j - 1);
      TraceKeepsInv(trace, j - 1);
      assert MovesAt(trace, j - 1);
      var action :| Step(trace[j - 1], trace[j], action);
      StepAdvances(trace[j - 1], trace[j], action);
    }
  }
}
