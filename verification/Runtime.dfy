// The gateways' authorization and routing, and that they are a search over the stored
// keys, subjects, models and providers.
module Runtime {
  import opened Options
  import opened Domain
  import opened Text
  import opened EtagStore
  import K = KeyStore
  import KI = KeyIntegrity
  import KQ = KeyQueries
  import R = Registry
  import RI = RegistryIntegrity
  import RQ = RegistryQueries

  datatype Refusal = Unauthorized | Forbidden | Unknown | InvalidModel | Failure

  datatype Authorization = Authorization(keyID: ID, userID: ID)

  datatype Route = Route(modelID: ID, alias: string, providerID: ID, upstreamModel: string, adapterAppID: string)

  // A missing record is refused as the caller says; any other failure is passed on.
  function Mapped<T>(result: Result<T, Error>, missing: Refusal): Result<T, Refusal> {
    match result
    case Ok(value) => Ok(value)
    case Err(error) => Err(if error == NotFound then missing else Failure)
  }

  predicate Unexpired(key: K.VirtualKey, now: int) {
    key.expiresAt.None? || key.expiresAt.value > now
  }

  function ResolveActiveModel(keys: KQ.KeyTable, catalog: RQ.RegistryTable, requested: string): Result<R.Entity, Refusal> {
    var alias := TrimSpace(requested);
    :- Need(alias != "" && alias == requested, InvalidModel);
    var model :- Mapped(RQ.Find(catalog, R.ModelAlias, alias), Unknown);
    :- Need(model.Model?, Failure);
    :- Need(model.status == Active, Forbidden);
    var subject :- Mapped(KQ.SubjectAt(keys, K.ModelRef(model.id)), Forbidden);
    :- Need(subject.ModelSubject? && subject.id == model.id && subject.alias == model.alias && subject.status == Active
            && !subject.deleted && subject.revision == model.revision, Forbidden);
    Ok(model)
  }

  function Authorize(keys: KQ.KeyTable, catalog: RQ.RegistryTable, hash: string -> string, token: string, requested: string, now: int):
    Result<Authorization, Refusal>
  {
    if token == "" then Err(Unauthorized) else
    var key :- Mapped(KQ.KeyByHash(keys, hash(token)), Unauthorized);
    :- Need(key.status == Active && Unexpired(key, now), Unauthorized);
    var subject :- Mapped(KQ.SubjectAt(keys, K.UserRef(key.userID)), Unauthorized);
    :- Need(subject.id == key.userID && subject.status == Active && !subject.deleted, Unauthorized);
    var model :- ResolveActiveModel(keys, catalog, requested);
    :- Need(model.id in key.modelIDs, Forbidden);
    Ok(Authorization(key.id, key.userID))
  }

  function ResolveActiveProvider(catalog: RQ.RegistryTable, id: ID): Result<R.Entity, Refusal> {
    var provider :- Mapped(RQ.EntityAt(catalog, R.Providers, id), Unknown);
    :- Need(provider.Provider?, Failure);
    :- Need(provider.status == Active, Forbidden);
    Ok(provider)
  }

  function ResolveRoute(keys: KQ.KeyTable, catalog: RQ.RegistryTable, requested: string): Result<Route, Refusal> {
    var model :- ResolveActiveModel(keys, catalog, requested);
    :- Need(model.Model?, Failure);
    var provider :- ResolveActiveProvider(catalog, model.providerID);
    :- Need(provider.Provider?, Failure);
    Ok(Route(model.id, model.alias, provider.id, if model.upstreamModel == "" then model.alias else model.upstreamModel, provider.adapterAppID))
  }

  // ---- The search they stand for ----

  ghost predicate Sound(keys: KQ.KeyTable, catalog: RQ.RegistryTable) {
    KI.Integrity(Values(keys)) && RI.Integrity(Values(catalog))
  }

  ghost predicate SubjectIs(keys: KQ.KeyTable, ref: K.Ref, subject: K.Subject) {
    K.SubjectKey(ref) in keys && keys[K.SubjectKey(ref)].value == K.SubjectValue(subject)
  }

  ghost predicate ActiveOwner(keys: KQ.KeyTable, user: ID) {
    exists subject :: SubjectIs(keys, K.UserRef(user), subject) && subject.status == Active && !subject.deleted
  }

  // A stored key that may be used at all: a key that expires at this very time no longer may.
  ghost predicate Usable(keys: KQ.KeyTable, key: K.VirtualKey, hash: string, now: int) {
    && KQ.IsStored(Values(keys), key) && key.keyHash == hash && key.status == Active && ActiveOwner(keys, key.userID)
    && (key.expiresAt == None || now < key.expiresAt.value)
  }

  ghost predicate ProjectedAs(keys: KQ.KeyTable, model: R.Entity)
    requires model.Model?
  {
    exists subject :: SubjectIs(keys, K.ModelRef(model.id), subject) && subject.ModelSubject? && subject.alias == model.alias
                      && subject.status == Active && !subject.deleted && subject.revision == model.revision
  }

  ghost predicate NamesModel(catalog: RQ.RegistryTable, model: R.Entity, alias: string) {
    model.Model? && RQ.IsStored(Values(catalog), R.Models, model) && model.alias == alias
  }

  // A stored model that may be used under the alias.
  ghost predicate Offered(keys: KQ.KeyTable, catalog: RQ.RegistryTable, model: R.Entity, alias: string) {
    NamesModel(catalog, model, alias) && model.status == Active && ProjectedAs(keys, model)
  }

  lemma SubjectFound(keys: KQ.KeyTable, ref: K.Ref)
    requires KI.Integrity(Values(keys))
    ensures KQ.SubjectAt(keys, ref) == Err(NotFound) || KQ.SubjectAt(keys, ref).Ok?
    ensures forall subject :: KQ.SubjectAt(keys, ref) == Ok(subject) <==> SubjectIs(keys, ref, subject)
    ensures KQ.SubjectAt(keys, ref).Ok? ==> KQ.SubjectAt(keys, ref).value.Ref() == ref
  {
    if K.SubjectKey(ref) in keys {
      assert KI.WellTyped(K.SubjectKey(ref), Values(keys)[K.SubjectKey(ref)]);
    }
  }

  lemma ModelFound(catalog: RQ.RegistryTable, alias: string)
    requires RI.Integrity(Values(catalog))
    ensures RQ.Find(catalog, R.ModelAlias, alias) == Err(NotFound) || RQ.Find(catalog, R.ModelAlias, alias).Ok?
    ensures forall model :: RQ.Find(catalog, R.ModelAlias, alias) == Ok(model) <==> NamesModel(catalog, model, alias)
  {
    RQ.FindsStored(catalog, R.ModelAlias, alias, ANYONE);
    forall model
      ensures RQ.Find(catalog, R.ModelAlias, alias) == Ok(model) <==> NamesModel(catalog, model, alias)
    {
      RQ.FindsStored(catalog, R.ModelAlias, alias, model);
      RQ.EntityAtStored(catalog, R.Models, model.id);
    }
  }

  const ANYONE := R.User("", "", "", Active, 0, 0, 0)

  // An alias resolves to a model exactly when that model is offered under it; otherwise
  // the refusal says whether the alias is malformed, unknown, or not offered now.
  lemma ResolvesExactly(keys: KQ.KeyTable, catalog: RQ.RegistryTable, requested: string, model: R.Entity)
    requires Sound(keys, catalog)
    ensures ResolveActiveModel(keys, catalog, requested) == Ok(model)
       <==> requested != "" && Trimmed(requested) && Offered(keys, catalog, model, requested)
    ensures ResolveActiveModel(keys, catalog, requested) == Err(InvalidModel) <==> requested == "" || !Trimmed(requested)
    ensures requested != "" && Trimmed(requested) ==>
              && (ResolveActiveModel(keys, catalog, requested) == Err(Unknown) <==> forall other :: !NamesModel(catalog, other, requested))
              && (ResolveActiveModel(keys, catalog, requested) == Err(Forbidden)
                  <==> exists other :: NamesModel(catalog, other, requested) && !Offered(keys, catalog, other, requested))
  {
    TrimSpaceFixes(requested);
    if requested != "" && Trimmed(requested) {
      ModelFound(catalog, requested);
      var found := RQ.Find(catalog, R.ModelAlias, requested);
      if found.Ok? {
        assert NamesModel(catalog, found.value, requested);
        SubjectFound(keys, K.ModelRef(found.value.id));
      }
    }
  }

  lemma KeyFound(keys: KQ.KeyTable, hash: string)
    requires KI.Integrity(Values(keys))
    ensures KQ.KeyByHash(keys, hash) == Err(NotFound) || KQ.KeyByHash(keys, hash).Ok?
    ensures forall key :: KQ.KeyByHash(keys, hash) == Ok(key) <==> KQ.IsStored(Values(keys), key) && key.keyHash == hash
  {
    forall key
      ensures KQ.KeyByHash(keys, hash) == Ok(key) <==> KQ.IsStored(Values(keys), key) && key.keyHash == hash
      ensures KQ.KeyByHash(keys, hash) == Err(NotFound) || KQ.KeyByHash(keys, hash).Ok?
    {
      KQ.HashFindsStored(keys, hash, key);
    }
  }

  lemma UsableFound(keys: KQ.KeyTable, key: K.VirtualKey, hash: string, now: int)
    requires KI.Integrity(Values(keys)) && KQ.KeyByHash(keys, hash) == Ok(key)
    ensures Usable(keys, key, hash, now) <==>
            && key.status == Active && Unexpired(key, now) && KQ.SubjectAt(keys, K.UserRef(key.userID)).Ok?
            && var subject := KQ.SubjectAt(keys, K.UserRef(key.userID)).value;
               subject.id == key.userID && subject.status == Active && !subject.deleted
  {
    KeyFound(keys, hash);
    SubjectFound(keys, K.UserRef(key.userID));
  }

  lemma GrantedHas(keys: KQ.KeyTable, catalog: RQ.RegistryTable, hash: string -> string, token: string, requested: string, now: int)
    requires Sound(keys, catalog) && Authorize(keys, catalog, hash, token, requested, now).Ok?
    ensures var granted := Authorize(keys, catalog, hash, token, requested, now).value;
            && token != "" && requested != "" && Trimmed(requested)
            && exists key, model :: Usable(keys, key, hash(token), now) && Offered(keys, catalog, model, requested)
                                    && model.id in key.modelIDs && granted == Authorization(key.id, key.userID)
  {
    var key, model := KQ.KeyByHash(keys, hash(token)).value, ResolveActiveModel(keys, catalog, requested).value;
    UsableFound(keys, key, hash(token), now);
    ResolvesExactly(keys, catalog, requested, model);
    hide ResolveActiveModel;
    hide KQ.KeyByHash;
    hide KQ.SubjectAt;
    hide Offered;
    hide Usable;
    assert Usable(keys, key, hash(token), now) && Offered(keys, catalog, model, requested) && model.id in key.modelIDs;
  }

  lemma HasGranted(keys: KQ.KeyTable, catalog: RQ.RegistryTable, hash: string -> string, token: string, requested: string, now: int,
                   key: K.VirtualKey, model: R.Entity)
    requires Sound(keys, catalog) && token != "" && requested != "" && Trimmed(requested)
    requires Usable(keys, key, hash(token), now) && Offered(keys, catalog, model, requested) && model.id in key.modelIDs
    ensures Authorize(keys, catalog, hash, token, requested, now) == Ok(Authorization(key.id, key.userID))
  {
    UsableStored(keys, key, hash(token), now);
    KeyFound(keys, hash(token));
    UsableFound(keys, key, hash(token), now);
    ResolvesExactly(keys, catalog, requested, model);
    hide ResolveActiveModel;
    hide KQ.KeyByHash;
    hide KQ.SubjectAt;
    hide Offered;
    hide Usable;
  }

  // A token is authorized for a model exactly when some usable stored key has its hash and
  // names an offered model of that alias.
  lemma AuthorizesExactly(keys: KQ.KeyTable, catalog: RQ.RegistryTable, hash: string -> string, token: string, requested: string, now: int,
                          granted: Authorization)
    requires Sound(keys, catalog)
    ensures Authorize(keys, catalog, hash, token, requested, now) == Ok(granted)
       <==> && token != "" && requested != "" && Trimmed(requested)
            && exists key, model :: Usable(keys, key, hash(token), now) && Offered(keys, catalog, model, requested)
                                    && model.id in key.modelIDs && granted == Authorization(key.id, key.userID)
  {
    hide Authorize;
    hide Usable;
    hide Offered;
    hide Sound;
    if Authorize(keys, catalog, hash, token, requested, now).Ok? {
      GrantedHas(keys, catalog, hash, token, requested, now);
    }
    if token != "" && requested != "" && Trimmed(requested) {
      forall key, model | Usable(keys, key, hash(token), now) && Offered(keys, catalog, model, requested) && model.id in key.modelIDs
        ensures Authorize(keys, catalog, hash, token, requested, now) == Ok(Authorization(key.id, key.userID))
      {
        HasGranted(keys, catalog, hash, token, requested, now, key, model);
      }
    }
  }

  lemma UsableStored(keys: KQ.KeyTable, key: K.VirtualKey, hash: string, now: int)
    requires Usable(keys, key, hash, now)
    ensures KQ.IsStored(Values(keys), key) && key.keyHash == hash
  {
  }

  // Without a usable key the answer is unauthorized whatever the model is.
  lemma UnauthorizedExactly(keys: KQ.KeyTable, catalog: RQ.RegistryTable, hash: string -> string, token: string, requested: string, now: int)
    requires Sound(keys, catalog)
    ensures Authorize(keys, catalog, hash, token, requested, now) == Err(Unauthorized)
       <==> token == "" || forall key :: !Usable(keys, key, hash(token), now)
    ensures Authorize(keys, catalog, hash, token, requested, now) != Err(Failure)
  {
    KeyFound(keys, hash(token));
    var found := KQ.KeyByHash(keys, hash(token));
    if found.Ok? {
      UsableFound(keys, found.value, hash(token), now);
      SubjectFound(keys, K.UserRef(found.value.userID));
      NoFailure(keys, catalog, requested);
    }
  }

  // With a usable key the answer is about the model: malformed, unknown, or, offered or
  // not, not to be had with this key.
  lemma RefusesExactly(keys: KQ.KeyTable, catalog: RQ.RegistryTable, hash: string -> string, token: string, requested: string, now: int,
                       key: K.VirtualKey)
    requires Sound(keys, catalog) && token != "" && Usable(keys, key, hash(token), now)
    ensures Authorize(keys, catalog, hash, token, requested, now) == Err(InvalidModel) <==> requested == "" || !Trimmed(requested)
    ensures Authorize(keys, catalog, hash, token, requested, now) == Err(Unknown)
       <==> requested != "" && Trimmed(requested) && forall other :: !NamesModel(catalog, other, requested)
    ensures Authorize(keys, catalog, hash, token, requested, now) == Err(Forbidden)
       <==> && requested != "" && Trimmed(requested) && (exists other :: NamesModel(catalog, other, requested))
            && forall model :: Offered(keys, catalog, model, requested) ==> model.id !in key.modelIDs
  {
    UsableStored(keys, key, hash(token), now);
    KeyFound(keys, hash(token));
    UsableFound(keys, key, hash(token), now);
    NoFailure(keys, catalog, requested);
    var resolved := ResolveActiveModel(keys, catalog, requested);
    forall model
      ensures resolved == Ok(model) <==> requested != "" && Trimmed(requested) && Offered(keys, catalog, model, requested)
    {
      ResolvesExactly(keys, catalog, requested, model);
    }
    ResolvesExactly(keys, catalog, requested, ANYONE);
    if resolved.Ok? {
      assert NamesModel(catalog, resolved.value, requested);
    }
    hide ResolveActiveModel;
    hide KQ.KeyByHash;
    hide KQ.SubjectAt;
    hide NamesModel;
    hide Offered;
    hide Usable;
  }

  lemma NoFailure(keys: KQ.KeyTable, catalog: RQ.RegistryTable, requested: string)
    requires Sound(keys, catalog)
    ensures ResolveActiveModel(keys, catalog, requested) != Err(Failure) && ResolveActiveModel(keys, catalog, requested) != Err(Unauthorized)
  {
    TrimSpaceFixes(requested);
    ModelFound(catalog, requested);
    var found := RQ.Find(catalog, R.ModelAlias, requested);
    if found.Ok? {
      SubjectFound(keys, K.ModelRef(found.value.id));
    }
  }

  // A route is found exactly for an offered model whose provider is active; the provider
  // is always stored, so a missing one is never the reason.
  lemma RoutesExactly(keys: KQ.KeyTable, catalog: RQ.RegistryTable, requested: string, route: Route)
    requires Sound(keys, catalog)
    ensures ResolveRoute(keys, catalog, requested) == Ok(route)
       <==> && requested != "" && Trimmed(requested)
            && exists model, provider :: Offered(keys, catalog, model, requested) && Serves(catalog, provider, model)
                                         && route == RouteFor(model, provider)
    ensures ResolveRoute(keys, catalog, requested) == Err(Unknown)
       <==> requested != "" && Trimmed(requested) && forall other :: !NamesModel(catalog, other, requested)
    ensures ResolveRoute(keys, catalog, requested) == Err(InvalidModel) <==> requested == "" || !Trimmed(requested)
    ensures ResolveRoute(keys, catalog, requested).Err? ==> ResolveRoute(keys, catalog, requested).error in {Unknown, InvalidModel, Forbidden}
  {
    NoFailure(keys, catalog, requested);
    ResolvesExactly(keys, catalog, requested, ANYONE);
    var resolved := ResolveActiveModel(keys, catalog, requested);
    forall model, provider | Offered(keys, catalog, model, requested) && Serves(catalog, provider, model) && requested != "" && Trimmed(requested)
      ensures ResolveRoute(keys, catalog, requested) == Ok(RouteFor(model, provider))
    {
      ResolvesExactly(keys, catalog, requested, model);
      ServedRoute(keys, catalog, requested, model);
    }
    if resolved.Ok? {
      ResolvesExactly(keys, catalog, requested, resolved.value);
      ServedRoute(keys, catalog, requested, resolved.value);
    }
  }

  // Once the model is resolved only its provider's status is left to decide.
  lemma ServedRoute(keys: KQ.KeyTable, catalog: RQ.RegistryTable, requested: string, model: R.Entity)
    requires Sound(keys, catalog) && ResolveActiveModel(keys, catalog, requested) == Ok(model) && model.Model?
    requires RQ.IsStored(Values(catalog), R.Models, model)
    ensures RI.Stores(Values(catalog), R.Providers, model.providerID)
    ensures var provider := RI.Stored(Values(catalog), R.Providers, model.providerID);
            && RQ.IsStored(Values(catalog), R.Providers, provider) && provider.Provider? && provider.id == model.providerID
            && ResolveRoute(keys, catalog, requested) == if provider.status == Active then Ok(RouteFor(model, provider)) else Err(Forbidden)
  {
    assert RI.Routes(Values(catalog), model.id, model.providerID);
    RQ.EntityAtStored(catalog, R.Providers, model.providerID);
  }

  ghost predicate Serves(catalog: RQ.RegistryTable, provider: R.Entity, model: R.Entity)
    requires model.Model?
  {
    provider.Provider? && RQ.IsStored(Values(catalog), R.Providers, provider) && provider.id == model.providerID && provider.status == Active
  }

  function RouteFor(model: R.Entity, provider: R.Entity): Route
    requires model.Model? && provider.Provider?
  {
    Route(model.id, model.alias, provider.id, if model.upstreamModel == "" then model.alias else model.upstreamModel, provider.adapterAppID)
  }
}
