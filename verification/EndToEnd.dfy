// What a gateway grants, in terms of the canonical records the saga keeps elsewhere.
module EndToEnd {
  import opened Options
  import opened Domain
  import opened Text
  import opened EtagStore
  import opened Saga
  import opened SagaSafety
  import opened SagaService
  import opened SagaRegistry
  import opened Runtime
  import K = KeyStore
  import KQ = KeyQueries
  import R = Registry
  import RQ = RegistryQueries

  // The saga's canonical record is the stored model.
  ghost predicate RecordOf(w: World, model: R.Entity) {
    && model.Model? && w.resource == ModelResource(model.id, model.alias)
    && w.canonical.Some? && w.canonical.value.status == model.status && w.canonical.value.revision == model.revision
  }

  // A stored model is offered exactly when it is active and its projection says so at its
  // very revision: after a lost, late or half-failed call it is refused until repaired.
  lemma OfferedWhenProjected(keys: KQ.KeyTable, catalog: RQ.RegistryTable, w: World, model: R.Entity)
    requires Runtime.Sound(keys, catalog) && WorldInv(w) && RecordOf(w, model) && Mirrors(w, keys)
    requires RQ.IsStored(Values(catalog), R.Models, model)
    ensures Offered(keys, catalog, model, model.alias) <==> model.status == Active && Projected(w)
  {
    SubjectFound(keys, w.resource.Ref());
    assert w.subject.Some? ==> SubjectIs(keys, w.resource.Ref(), w.subject.value);
    if w.subject.Some? {
      assert CallOk(w, w.subject.value);
    }
  }

  // An authorized token's owner is canonically active, and so is the model it asked for.
  lemma GrantedIsBacked(keys: KQ.KeyTable, catalog: RQ.RegistryTable, hash: string -> string, token: string, requested: string, now: int,
                        granted: Authorization, owner: World, w: World, model: R.Entity)
    requires Runtime.Sound(keys, catalog) && Authorize(keys, catalog, hash, token, requested, now) == Ok(granted)
    requires WorldInv(owner) && owner.resource == UserResource(granted.userID) && Mirrors(owner, keys)
    requires ResolveActiveModel(keys, catalog, requested) == Ok(model) && WorldInv(w) && RecordOf(w, model) && Mirrors(w, keys)
    ensures owner.canonical.Some? && owner.canonical.value.status == Active
    ensures w.canonical.value.status == Active && Projected(w) && model.alias == requested
  {
    AuthorizesExactly(keys, catalog, hash, token, requested, now, granted);
    ResolvesExactly(keys, catalog, requested, model);
    OfferedWhenProjected(keys, catalog, w, model);
    SubjectFound(keys, K.UserRef(granted.userID));
    ActiveIsBacked(owner);
  }

  // No late call of a disabled or deleted user reopens access: with no active
  // canonical record, no token of the user is authorized.
  lemma InactiveOwnerRefused(keys: KQ.KeyTable, catalog: RQ.RegistryTable, hash: string -> string, token: string, requested: string, now: int,
                             owner: World)
    requires Runtime.Sound(keys, catalog) && WorldInv(owner) && owner.resource.UserResource? && Mirrors(owner, keys)
    requires owner.canonical.None? || owner.canonical.value.status != Active
    ensures forall granted :: Authorize(keys, catalog, hash, token, requested, now) == Ok(granted) ==> granted.userID != owner.resource.id
  {
    forall granted | Authorize(keys, catalog, hash, token, requested, now) == Ok(granted) && granted.userID == owner.resource.id
      ensures false
    {
      AuthorizesExactly(keys, catalog, hash, token, requested, now, granted);
      SubjectFound(keys, K.UserRef(granted.userID));
      ActiveIsBacked(owner);
    }
  }
}
