// A call of the saga arriving at the registry is the virtual-key repository's method.
module SagaRegistry {
  import opened Options
  import opened Domain
  import opened EtagStore
  import opened KeyStore
  import opened KeyIntegrity
  import opened KeyQueries
  import KeyRepository
  import KeySequences
  import opened Saga

  function CallOp(call: Subject): Op {
    if call.deleted then FenceSubject(call) else SyncSubject(call)
  }

  function StoredSubject(table: KeyTable, ref: Ref): Option<Subject> {
    match SubjectAt(table, ref)
    case Ok(subject) => Some(subject)
    case Err(_) => None
  }

  // The world shows what the virtual-key store holds about its resource.
  ghost predicate Mirrors(w: World, table: KeyTable) {
    && w.subject == StoredSubject(table, w.resource.Ref())
    && (w.referenced <==> exists id :: References(Values(table), id, w.resource.Ref()))
  }

  lemma SubjectStored(table: KeyTable, ref: Ref)
    requires Integrity(Values(table))
    ensures StoredSubject(table, ref) ==
            if SubjectKey(ref) in Values(table) then Some(Values(table)[SubjectKey(ref)].subject) else None
    ensures AsSubject(Lookup(table, SubjectKey(ref)), ref) == Ok(StoredSubject(table, ref))
  {
    if SubjectKey(ref) in table {
      assert WellTyped(SubjectKey(ref), Values(table)[SubjectKey(ref)]);
    }
  }

  lemma CallDecided(table: KeyTable, call: Subject)
    requires Integrity(Values(table))
    ensures KeyRepository.ReplyOn(table, CallOp(call)).Ok? <==>
            && ValidPayload(call) && CompareUpdate(StoredSubject(table, call.Ref()), call).Ok?
            && (call.deleted ==> !exists id :: References(Values(table), id, call.Ref()))
  {
    SubjectStored(table, call.Ref());
    KeySequences.UpdateExactly(StoredSubject(table, call.Ref()), call);
    if call.deleted {
      KeySequences.FencedExactly(table, call);
    } else {
      KeySequences.SyncedExactly(table, call);
    }
  }

  // An accepted call is written unless the subject already says the same.
  lemma CallWritten(table: KeyTable, call: Subject)
    requires Integrity(Values(table)) && KeyRepository.ReplyOn(table, CallOp(call)).Ok?
    ensures CompareUpdate(StoredSubject(table, call.Ref()), call).Ok?
    ensures Values(KeyRepository.TableAfter(table, CallOp(call))) ==
            if CompareUpdate(StoredSubject(table, call.Ref()), call) == Ok(true) then Values(table)
            else Values(table)[SubjectKey(call.Ref()) := SubjectValue(call)]
  {
    SubjectStored(table, call.Ref());
    CallDecided(table, call);
    KeySequences.UpdateExactly(StoredSubject(table, call.Ref()), call);
    KeySequences.SubjectStored(table, CallOp(call));
  }

  // The registry accepts a call exactly when the saga does, and stores what the saga says.
  lemma ArrivalIsTheRepository(w: World, table: KeyTable, call: Subject)
    requires Integrity(Values(table)) && Mirrors(w, table) && Addressed(w, call)
    ensures KeyRepository.ReplyOn(table, CallOp(call)).Ok? <==> Accepts(w, call)
    ensures Mirrors(Arrived(w, call), KeyRepository.TableAfter(table, CallOp(call)))
  {
    var ref, after := call.Ref(), KeyRepository.TableAfter(table, CallOp(call));
    CallDecided(table, call);
    if Accepts(w, call) {
      CallWritten(table, call);
      SameReferences(Values(table), Values(after), ref);
      KeySequences.SubjectAtValue(after, ref);
      KeySequences.SubjectAtValue(table, ref);
    }
  }

  lemma SameReferences(data: Data, after: Data, ref: Ref)
    requires forall key: Key :: key.EntityKey? ==> (key in data <==> key in after) && (key in data ==> data[key] == after[key])
    ensures (exists id :: References(data, id, ref)) <==> (exists id :: References(after, id, ref))
  {
    assert forall id :: References(data, id, ref) == References(after, id, ref);
  }
}
