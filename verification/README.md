# gwai: the control plane, the gateways' authorization and the protocol translations

A model, in Dafny 4.11, of the parts of gwai whose correctness spans several functions, several
replicas or several services, with proofs of what those parts are for. `dafny verify dfyconfig.toml`
checks the whole project.

## What is modelled

**The key/value store** (`EtagStore`). `MemoryStore` keeps records under ETags; a transaction checks
every expected ETag against the state it starts from and then applies its writes in order. An absent
record has no ETag, so a write to it is unconditional; a deleted key starts counting again; the counter
wraps past zero. A transaction over distinct keys is shown to be one simultaneous write, which is what the
protocol models below commit.

**Virtual keys** (`KeyStore`, `KeyIntegrity`, `KeyReads`, `KeyProtocol`, `KeyCommit`, `KeyRefinement`,
`KeyRuns`, `KeyRepository`, `KeyQueries`, `KeySequences`). A virtual key names one user and some models.
Each of those has a *subject* in the store, an authorization projection that a *fence* turns into a
tombstone, and a reverse index. User and model subjects follow the same rules and share one datatype.
`KeyRepository.VirtualKeyRepository` is the repository's code over the store; `KeyProtocol` is any number of
replicas running those methods with every read and every transaction a step of its own, crashes included.
Both use the same decision function, so the machine's atomic step is exactly the method.

**Users, providers and models** (`Registry`, `RegistryIntegrity`, `RegistryProtocol`, `RegistryRuns`,
`RegistryRepository`, `RegistryQueries`, `RegistrySequences`). One set of create, replace and delete
mechanics with unique lookups, plus the provider references of models. `RegistryProtocol` has the two mutexes
of the shared provider store: provider creates and replacements interleave with model operations and provider
deletes step by step.

**The sagas** (`Saga`, `SagaSafety`, `SagaService`, `SagaRegistry`). The life of one user or model across
the private store and the remote registry. Calls may arrive late, repeatedly or never; canonical writes may
land late or never; answers may be lost; any number of requests run at once. The status of a disabled record
is projected before the canonical write, that of an active record after it, and a delete fences first.

**The gateway's decisions** (`Runtime`, `EndToEnd`) and **the If-Match header** (`IfMatch`, sections 8.8.3
and 13.1.1 of RFC 9110, on bytes).

**The protocol translations** (`IR`, `Gemini`, `GeminiMatching`, `GeminiRequest`, `GeminiFidelity`,
`GeminiProvider`, `Anthropic`, `AnthropicRequest`, `AnthropicGateway`, `AnthropicFidelity`, `AnthropicResponse`,
`AnthropicResponseFidelity`, `Responses`, `ResponsesFidelity`). The provider-neutral request and its validator,
Gemini contents in both directions, the Anthropic request and response in both directions, and the OpenAI
Responses response in both directions. The `Fidelity` modules say what a translation is as a relation between
the two messages, field by field, and prove that the functions compute exactly that relation.

## How to read a theorem

- *Integrity* of a store means: records have the type of their key, nothing references a missing or deleted
  record, every reverse index lists exactly the records that reference its owner, once each, and a unique
  value resolves to a record exactly when that record has it.
- A *run* is a sequence of states, each reached from the one before by one step of the machine.
- *Alone* means that all reads of a method and its transaction happen at once.
- A method's `ensures` ties it to a function of the old state; the lemmas in the table are about that function.

## What the proofs found

- `docs/architecture.md` says that compound uniqueness relies on one writer. For the virtual-key store the
  proofs locate the three places where that is so: a fence that found no subject (`KeyRuns.FirstFenceExact`),
  a create that read the collection index as absent (`KeyRuns.StepKeepsGlobal`), and two first writes of one
  subject, of which the older may come last (`KeyRuns.RunsAdvanceSubjects` serialises them). The rest of what
  is proved there holds for any number of replicas.
- The Anthropic input total is computed in 64-bit arithmetic. `AnthropicResponse.TotalIsTrue` gives the exact
  condition under which the total passed on is the true one, with an input for which it is not; the four
  counts returned to the client are right regardless.
- A Gemini client may repeat a call ID or put an image into a model turn; `GeminiMatching.ValidExactly` shows that
  these are the only reasons for which the validator refuses contents the Gemini translation has produced.
- A disablement whose call was accepted and whose canonical write failed blocks both the next activation and the next
  delete: each sends the revision the subject already has, with another payload. `SagaService.ActivatingRepairs` and
  `SagaService.DeletesExactly` give the exact conditions; `SagaService.DisablingRepairs` and
  `SagaService.TwoActivationsRepair` are the ways out.

## Model

| member | source | states |
|---|---|---|
| EtagStore.MemoryStore.Transact | internal/state/memory.go:39-70 | a conflict on any expected ETag writes nothing; otherwise all operations apply in order up to an unsupported one |
| EtagStore.MemoryStore.Get | internal/state/memory.go:25-37 | returns the record and its ETag, or absence |
| EtagStore.AppliedIsCommitted | internal/state/memory.go:43-68 | over distinct keys the two loops are one simultaneous, all-or-nothing write of each key |
| EtagStore.VisibleAdvanced | internal/state/memory.go:53-64 | counting a key's writes without wrapping shows clients the same ETags as the wrapping counter, and the same values |
| EtagStore.SameETag | internal/state/memory.go:53-60 | within fewer than 2^64 - 1 writes an unchanged ETag means an unwritten record |
| KeyCommit.StepKeepsInv | internal/controlplane/repository.go:533-874 | every read, commit, rejection and crash of every replica keeps integrity and what each method in progress may rely on |
| KeyRuns.RunsKeepReferences | internal/controlplane/repository.go:563-874 | in every state of every run, owners and models of stored keys are there and not deleted, reverse indexes are exact, hashes resolve, tombstones have no keys |
| KeyRuns.FirstFenceExact | internal/controlplane/repository.go:567-602 | a fence that found no subject keeps integrity without the mutex exactly when no key references the subject as it commits |
| KeyRuns.StepAdvancesSubjects | internal/controlplane/repository.go:487-504 | a step never lowers a subject's revision, revives a tombstone, or rewrites an equal-payload replay |
| KeyRuns.RunsAdvanceSubjects | internal/controlplane/model_subject_repository.go:166-186 | over any stretch of a run whose first subject writes are serialised, the same, and a tombstone's index stays empty from then on |
| KeyRuns.StepKeepsGlobal | internal/controlplane/repository.go:637-672 | every step keeps the collection index exact, except exactly a create that read it as absent while keys are stored by now |
| KeyRuns.RunsKeepList | internal/controlplane/repository.go:637-672 | without such a create the collection index lists every stored key once in every state of the run |
| KeyProtocol.CommitShows | internal/controlplane/repository.go:604-874 | when a mutation's transaction succeeds, everything it read is still current, absent indexes with their empty ETags included, because the subject is read first and touched |
| KeyRefinement.CommitRefinesAlone | internal/controlplane/repository.go:604-874 | however reads interleave, a committed create, replace or delete is accepted alone at its commit step and leaves the same records |
| KeySequences.AloneIsTheMethod | internal/controlplane/repository.go:604-874 | that atomic step is the repository method run on the store as clients see it |
| KeyRepository.VirtualKeyRepository.CreateVirtualKey | internal/controlplane/repository.go:604-681 | the code's reply and the store after it are those of the decision made from the store before it |
| KeyRepository.VirtualKeyRepository.ReplaceVirtualKey | internal/controlplane/repository.go:683-808 | the same for replacing a key, moves between users and models included |
| KeyRepository.VirtualKeyRepository.DeleteVirtualKey | internal/controlplane/repository.go:810-874 | the same for deleting a key |
| KeyRepository.VirtualKeyRepository.Sync | internal/controlplane/repository.go:533-561 | the same for synchronising a user's or a model's subject |
| KeyRepository.VirtualKeyRepository.Fence | internal/controlplane/model_subject_repository.go:245-283 | the same for fencing a user's or a model's subject |
| KeyRepository.VirtualKeyRepository.PrepareModels | internal/controlplane/model_subject_repository.go:38-79 | reads each model's subject and index once, and refuses exactly when the ordered check of those reads does |
| KeyRepository.VirtualKeyRepository.ModelOperations | internal/controlplane/model_subject_repository.go:81-105 | one index write and one guarded touch for every model of the old or the new key, with the right membership |
| KeyRepository.VirtualKeyRepository.SortedUnion | internal/controlplane/model_subject_repository.go:48-58 | collects the two ID lists into their sorted union |
| KeyRepository.ModelsOfOrder | internal/controlplane/model_subject_repository.go:24-58 | the sorted union lists each model of either key exactly once |
| KeyRepository.UnionIsSorted | internal/controlplane/model_subject_repository.go:47-58 | that union holds the IDs of both lists and no others, once each, in byte order |
| KeyRepository.VirtualKeyRepository.CheckModelIDs | internal/controlplane/model_subject_repository.go:24-36 | accepts exactly the lists without an empty or repeated ID |
| KeyRepository.VirtualKeyRepository.ListVirtualKeys | internal/controlplane/repository.go:112-129 | the loop returns the keys of the index in order, skips missing ones, and stops at the first other failure |
| KeyIntegrity.MutationKeepsIntegrity | internal/controlplane/repository.go:604-874 | an accepted mutation of what the store holds keeps references, indexes and lookups exact |
| KeyIntegrity.SubjectWriteKeepsIntegrity | internal/controlplane/repository.go:533-602 | so does a synchronisation or a fence |
| KeySequences.AcceptedExactly | internal/controlplane/repository.go:604-874 | a mutation is accepted exactly when the stored entity is the expected one, the hash is unused, and the owner and the models the key keeps are there, not deleted, and active if the key is active |
| KeySequences.RefusedExactly | internal/controlplane/repository.go:604-874 | a refused mutation is answered with not-found exactly when the key to replace or delete is not stored, after the checks of a replacement's own arguments, and with a conflict otherwise |
| KeySequences.SyncedExactly | internal/controlplane/repository.go:533-561 | a synchronisation is accepted exactly when its subject is well formed, not deleted, and newer than, or a replay of, a subject that is no tombstone; otherwise it conflicts |
| KeySequences.FencedExactly | internal/controlplane/repository.go:563-602 | a fence is accepted exactly when its tombstone is well formed, no stored key references the subject, and it is newer than, or a replay of, the stored subject; otherwise it conflicts |
| KeySequences.SubjectStored | internal/controlplane/model_subject_repository.go:213-283 | an accepted synchronisation or fence stores exactly the subject it was given and touches no key and no other subject; a replay keeps the stored one |
| KeySequences.CallChangesOneKey | internal/controlplane/repository.go:604-874 | an accepted mutation sets or removes the one key it names and no other |
| KeySequences.CallKeepsSubjects | internal/controlplane/repository.go:506-515 | touching leaves every subject as it was |
| KeySequences.CallsKeepQueriesExact | internal/controlplane/repository.go:406-424 | after any sequence of calls each list returns exactly its keys once, and a hash finds a key iff that key is stored with it |
| KeyQueries.ListsKeysNaming | internal/controlplane/repository.go:422-424 | a subject's list returns exactly the stored keys that name it, once each |
| KeyQueries.HashFindsStored | internal/controlplane/repository.go:410-416 | a hash finds a key iff that key is stored with that hash, and otherwise reports absence |
| RegistryRuns.RunsKeepCatalog | internal/controlplane/model_repository.go:64-360 | with the two mutexes interleaving, every model's provider is stored, by-provider and collection indexes are exact, and slugs, app IDs and aliases resolve exactly |
| RegistryRuns.TouchKeepsProviders | internal/controlplane/model_repository.go:47-55 | a model commit never overwrites a concurrently replaced provider |
| RegistryRuns.CommitRefinesAlone | internal/controlplane/model_repository.go:64-360 | a commit under either mutex is accepted alone at its step and leaves the same records |
| RegistryRuns.StepKeepsInv | internal/controlplane/model_repository.go:64-360 | every step of either side keeps integrity and what both methods in progress rely on |
| RegistryRepository.ResourceRepository.CreateResource | internal/controlplane/repository.go:168-213 | the code's reply and the store after it are those of the decision made from the store before it |
| RegistryRepository.ResourceRepository.ReplaceResource | internal/controlplane/repository.go:215-263 | the same for replacing a user or a provider and moving its unique values |
| RegistryRepository.ResourceRepository.DeleteResource | internal/controlplane/repository.go:265-300 | the same for deleting a user |
| RegistryRepository.ResourceRepository.CreateModel | internal/controlplane/model_repository.go:64-128 | the same for creating a model and touching its provider |
| RegistryRepository.ResourceRepository.ReplaceModel | internal/controlplane/model_repository.go:150-259 | the same for replacing a model, moves between providers included |
| RegistryRepository.ResourceRepository.DeleteModel | internal/controlplane/model_repository.go:261-313 | the same for deleting a model, whose provider may be gone |
| RegistryRepository.ResourceRepository.DeleteProviderIfNoModels | internal/controlplane/model_repository.go:319-360 | the same for deleting a provider that has no models |
| RegistryRepository.ResourceRepository.LookupOperations | internal/controlplane/repository.go:249-261 | deletes the unique values an entity gives up and writes those it keeps or gains, once each |
| RegistryRepository.ResourceRepository.ListAt | internal/controlplane/repository.go:112-129 | the loop returns the entities of the index in order, skips missing ones, and stops at the first other failure |
| RegistryIntegrity.WriteKeepsIntegrity | internal/controlplane/repository.go:168-300 | an accepted create, replace or delete of what the store holds keeps the whole invariant |
| RegistrySequences.AcceptedExactly | internal/controlplane/model_repository.go:57-360 | a call is accepted exactly when the stored entity is the expected one, no other entity has its unique values, its provider is stored and active if the model is, and a deleted provider has no models; not-found means exactly that what it names is missing, anything else conflicts |
| RegistrySequences.CallChangesOneEntity | internal/controlplane/repository.go:168-300 | an accepted call sets or removes the one entity it names and no other, touched providers included |
| RegistrySequences.CallsKeepQueriesExact | internal/controlplane/repository.go:108-144 | after any sequence of calls each list returns exactly its entities once, and a unique value finds an entity iff that entity is stored with it |
| RegistryQueries.FindsStored | internal/controlplane/repository.go:131-144 | an e-mail, slug, app ID or alias finds an entity iff that entity is stored with it |
| Saga.StepKeepsInv | internal/controlplane/service.go:139-262 | every step, lost, late, repeated or answered, of any number of requests keeps the saga's invariant |
| SagaSafety.RunsFailClosed | internal/controlplane/service.go:188-262 | in every state of every run an active subject has an active canonical record with the same alias, a vanished record left a tombstone, and a record a PUT disabled has told its subject |
| SagaSafety.RunsAdvance | internal/controlplane/model_service.go:121-199 | over every run revisions never fall, a tombstone stays and stays unreferenced, a replay rewrites nothing, and a deleted record stays deleted |
| SagaService.ResourceService.Create | internal/controlplane/model_service.go:74-103 | with any fate of its remote steps, creating ends in the state the task chain says, with the invariant kept |
| SagaService.ResourceService.Update | internal/controlplane/service.go:188-229 | the same for a PUT: disablement projected before, activation after the canonical write |
| SagaService.ResourceService.Delete | internal/controlplane/service.go:242-262 | the same for a delete: fence, then canonical delete |
| SagaService.ServedIsARun | internal/controlplane/model_service.go:121-199 | every such call, whatever befalls its steps, is a run of the machine |
| SagaService.PostProjects | internal/controlplane/service.go:139-166 | one undisturbed create of an unnamed record answers with success, stores it at revision 1, and makes its projection say what it says |
| SagaService.SuccessMeans | internal/controlplane/model_service.go:74-199 | whatever befalls the remote steps, a success means all was done: the record is stored at the next revision and projected, or it is deleted and fenced |
| SagaService.RefusedAtOnce | internal/controlplane/service.go:139-262 | a taken name, a missing record or an unknown status is refused before any remote step |
| SagaService.DisablingRepairs | internal/controlplane/service.go:205-222 | from every reachable state with a record and no tombstone, one undisturbed disabling PUT makes the projection say what the record says |
| SagaService.ActivatingRepairs | internal/controlplane/service.go:212-229 | one undisturbed activating PUT does so, and answers with success, exactly when no half-failed disable is ahead of the record |
| SagaService.TwoActivationsRepair | internal/controlplane/model_service.go:149-168 | two always do |
| SagaService.RepairLasts | internal/controlplane/repository.go:487-504 | after a successful PUT no late call or late write can change the record or its subject |
| SagaService.DeletesExactly | internal/controlplane/service.go:242-262 | one undisturbed first delete removes the record under a tombstone exactly when no key names the subject and no half-failed disable is ahead; otherwise it changes neither |
| SagaService.FencedDeletesFinish | internal/controlplane/service.go:242-262 | once a fence has committed, one undisturbed delete at any later point of the run removes the record, whatever was attempted between |
| SagaRegistry.ArrivalIsTheRepository | internal/controlplane/repository.go:487-602 | a call reaching the registry is accepted, and stored, exactly as the saga's machine says |
| Runtime.AuthorizesExactly | internal/controlplane/runtime.go:30-62 | a token is authorized iff some stored key with its hash is active, expires later than now or never, is actively owned, and lists an offered model of that alias |
| Runtime.UnauthorizedExactly | internal/controlplane/runtime.go:30-55 | it is refused as unauthorized iff no usable key has its hash, whatever the model; integrity rules out internal failure |
| Runtime.RefusesExactly | internal/controlplane/runtime.go:55-62 | with a usable key, malformed, unknown and forbidden models are told apart exactly |
| Runtime.ResolvesExactly | internal/controlplane/runtime.go:83-107 | an alias resolves iff a stored active model has it and its projection is active, live and at the same revision, and each refusal has its exact cause |
| Runtime.RoutesExactly | internal/controlplane/runtime.go:64-81 | a route is found iff an offered model's stored provider is active, and names the upstream model or the alias; unknown and malformed aliases are told apart, all else is forbidden |
| EndToEnd.OfferedWhenProjected | internal/controlplane/runtime.go:83-107 | a stored model is offered iff it is active and its projection agrees at its very revision |
| EndToEnd.GrantedIsBacked | internal/controlplane/runtime.go:30-62 | an authorized token's owner and model are canonically active |
| EndToEnd.InactiveOwnerRefused | internal/controlplane/service.go:188-262 | no token of a user without an active canonical record is authorized |
| IfMatch.ParsePrint | internal/controlplane/etag.go:41-98 | every list of entity tags, however its commas are spaced, is read back |
| IfMatch.PrintParse | internal/controlplane/etag.go:41-98 | whatever is read consists of valid tags and prints as exactly the text read |
| IfMatch.ListsAreRead | internal/controlplane/etag.go:41-98 | the same for a whole header, white space at its ends included |
| IfMatch.HeadersExactly | internal/controlplane/etag.go:41-98 | a header is a list iff, trimmed, it is one of the RFC's, and a wildcard iff it is a star |
| IfMatch.TrimSpaceStrips | internal/controlplane/etag.go:42 | trimming takes white space off both ends of the bytes, nothing else, and leaves none there |
| IfMatch.SpaceExactly | internal/controlplane/etag.go:42 | that white space is the UTF-8 form of exactly Unicode's |
| IfMatch.ParseIfMatch | internal/controlplane/etag.go:41-98 | the scanning loop ends on every byte string and computes that reading |
| IfMatch.EnforceIfMatch | internal/controlplane/etag.go:102-123 | accepts iff the header is absent, a star, or lists the current tag as a strong one; malformed iff it is no list |
| IR.ValidateMessages | internal/ir/validate.go:46-107 | the stateful loop accepts iff system messages form a prefix, some message is not system's, contents are valid and allowed, call IDs are unique, and each result names a strictly earlier call once, with its name if given |
| IR.Validate | internal/ir/validate.go:16-139 | the whole validator accepts exactly the valid requests |
| IR.ValidateContent | internal/ir/validate.go:141-213 | the branching check accepts exactly valid contents, nested results included |
| IR.ValidateResponse | internal/ir/validate.go:215-239 | so does that of whole responses |
| IR.LinkedAppend | internal/ir/validate.go:83-102 | appending one content keeps the links iff it links to what is before it |
| Gemini.TranslateTurns | internal/gemini/translate.go:160-277 | the loop over queues of pending calls computes the translation defined by the contents so far |
| Gemini.TakeCall | internal/gemini/translate.go:239-268 | a response takes the call that the contents so far say it answers out of its queue, and the queues stay exact |
| GeminiFidelity.TranslatedExactly | internal/gemini/translate.go:160-277 | contents translate into messages iff every turn has a possible role, every part is acceptable where it stands, and the item in its place says what it says: text, image, call, or the result of the oldest waiting call or of the one whose ID is given |
| GeminiFidelity.OldestIsAnswered | internal/gemini/translate.go:248-254 | with distinct call IDs a response without an ID answers the first call of its function that no earlier response answered |
| GeminiMatching.CallsAreConserved | internal/gemini/translate.go:160-277 | at every point and for every name, calls seen are calls answered plus calls waiting, as multisets |
| GeminiMatching.WaitingIsUnanswered | internal/gemini/translate.go:239-268 | with distinct IDs the calls waiting are the calls in order without those answered, so the head is the oldest unanswered |
| GeminiMatching.MatchedLinks | internal/ir/validate.go:83-102 | on matched contents the validator's tool checks hold iff call IDs are distinct |
| GeminiMatching.ValidExactly | internal/gemini/translate.go:346-349 | translated contents pass the message check iff call IDs are distinct and no model turn carries an image |
| GeminiRequest.ToIRMessages | internal/gemini/translate.go:112-277 | a request's contents are accepted exactly under those conditions |
| GeminiRequest.GeneratedIDsAreUnique | internal/gemini/translate.go:231-234 | call IDs generated for a request are distinct, so without client IDs the tool checks always pass |
| GeminiProvider.ToContents | internal/gemini/translate.go:448-475 | no two neighbouring contents share a role; read part by part they are the messages' parts in order with tool folded into user, and system parts keep their order |
| GeminiProvider.AppendContent | internal/gemini/translate.go:352-358 | joining into the last content keeps roles alternating and the parts in order |
| GeminiProvider.ValidTranslates | internal/gemini/translate.go:360-421 | a valid request is refused iff some content has no Gemini form: a missing function name is never the reason |
| GeminiProvider.ResponsesCarryNames | internal/gemini/translate.go:389-419 | every function response carries the ID it answers and the name of that earlier call |
| GeminiProvider.ContentsConveyed | internal/gemini/translate.go:360-421 | each content has its part in its place, with its own text, image, call ID, name, arguments and signature or skip marker, and result object or joined text |
| Anthropic.ContentKept | internal/anthropic/gateway_translate.go:82-168 | client content that parses comes out of the provider translation as its normal form, nested results included |
| Anthropic.MessagesKept | internal/anthropic/translate.go:101-131 | accepted messages come out with their roles and the normal form of their content |
| AnthropicFidelity.ReadExactly | internal/anthropic/gateway_translate.go:47-168 | content is accepted iff every block has the fields of its kind and no others where its role allows it, and each item says what its block says, nested results included |
| AnthropicFidelity.MessagesReadExactly | internal/anthropic/gateway_translate.go:236-272 | messages are accepted iff each is well formed, call IDs are new and results answer an earlier call, and each result takes the name of the last such call |
| AnthropicRequest.RequestKept | internal/anthropic/translate.go:77-156 | an accepted client request is sent iff its token limit fits the cap, and what is sent is its normal form for the route's model |
| AnthropicFidelity.RequestReadExactly | internal/anthropic/gateway_translate.go:192-337 | a client request is accepted iff it is well formed and its reading is valid; every field of the reading comes from a field of the request |
| AnthropicFidelity.RequestSentExactly | internal/anthropic/translate.go:77-156 | a valid request from any client is sent iff it has no metadata, its limit fits and every content has a block; each field sent comes from the request, system apart, in order |
| AnthropicGateway.ParseClientBlocks | internal/anthropic/gateway_translate.go:82-168 | the recursive loop computes the parse and reports whether it holds tool results |
| AnthropicGateway.NameResults | internal/anthropic/gateway_translate.go:254-272 | the in-place loop refuses repeated calls and unknown results, and writes each call's name into its result |
| AnthropicGateway.ToIRRequest | internal/anthropic/gateway_translate.go:192-337 | the code computes the translation that RequestKept is about |
| AnthropicGateway.ToMessageRequest | internal/anthropic/translate.go:77-156 | so does the provider side |
| AnthropicResponse.ResponseReturns | internal/anthropic/gateway_translate.go:341-397 | an accepted wire response is returned with the same content, stop sequence and four token counts and the normal form of its stop reason |
| AnthropicResponseFidelity.ResponseReadExactly | internal/anthropic/translate.go:158-224 | a provider response is accepted iff it is well formed and its reading is valid, which is determined field by field, the total in 64-bit arithmetic |
| AnthropicResponseFidelity.ResponseSentExactly | internal/anthropic/gateway_translate.go:341-397 | a valid response from any provider is sent iff it has no image and its total covers its cached counts; what is sent is determined field by field |
| AnthropicResponse.UncachedRecovered | internal/anthropic/gateway_translate.go:356-360 | subtracting recovers the uncached count even when the total wrapped |
| AnthropicResponse.TotalIsTrue | internal/anthropic/translate.go:171-180 | the total passed on is the true sum iff that fits in 64 bits; a sum that wraps back to zero is an input where it is not |
| AnthropicResponse.ToIRResponse | internal/anthropic/translate.go:158-224 | the code computes the translation that ResponseReturns is about |
| AnthropicResponse.FromIRResponse | internal/anthropic/gateway_translate.go:341-397 | so does the client side |
| Responses.ReturnsNormal | internal/openairesponses/translate.go:566-698 | a valid response is sent iff it has no image, and comes back as texts then calls in order, same usage, with the finish its calls imply, iff the request has an ID and a model is named |
| Responses.TranslationIdempotent | internal/openairesponses/translate.go:566-698 | sending and reading twice yields what once does |
| ResponsesFidelity.ResponseReadExactly | internal/openairesponses/translate.go:566-646 | a wire response is accepted iff it is done and well formed and its reading is valid: texts, refusals and calls in order, reasoning dropped, a refusal filtering a completed response |
| ResponsesFidelity.ResponseSentExactly | internal/openairesponses/translate.go:648-698 | a valid response is sent iff it has no image, as one message of its texts and then its calls, each in order, with its status, usage and names |
| Responses.FromIRResponse | internal/openairesponses/translate.go:648-698 | the code computes the sending side |
| Responses.ToIRResponse | internal/openairesponses/translate.go:566-646 | the code computes the reading side |

## Left out

- HTTP handlers, the remote registry's client, secrets, session store, command packages and the administration pages: input and output only; a remote call is a step with any outcome.
- The Dapr state store: taken to behave like `MemoryStore`.
- JSON decoding, base64, URL, regular-expression and e-mail syntax: values carry whether they are well formed; a tool result's JSON text is passed on as it is, escapes aside; SHA-256 is taken as injective, so a lookup key is its value.
- Fresh names: created IDs and key hashes are taken never to repeat, as random values.
- KeyProtocol.CommitShows: takes it that no key is written 2^64 - 1 times between a read and the transaction that uses it; the ETag counter wraps at that number.
- KeyCommit.StepKeepsInv: a fence that found no subject is taken to commit on the store as it read it, which the single writer's mutex guarantees; what happens without it is `KeyRuns.FirstFenceExact`.
- RegistryRuns.RunsKeepCatalog: one holder per mutex, as in one writer process; the deployment rules out several.
- Revisions are unbounded numbers, not 64-bit ones.
- Saga.StepKeepsInv: a canonical write refused for another reason than its expected record (a taken e-mail, an inactive provider) appears as a write that has not landed, so more runs are covered than can happen.
- `ProviderRepository.DeleteProvider` without the model guard: no service calls it.
- The order in which the lookups of one entity are read and written: the code ranges over a map; the model uses one order, and the result does not depend on it.
- `virtual_key_service.go`, the normalisation of inputs, and times beyond expiry: wrappers around what is modelled.
- Request parameters the gateways recognize only to refuse, one by one: each is settled by one branch; tools and generation settings of the Gemini request.
- Provider updates in the resource service: they have no projection, so no saga.
- OpenAI Chat, the Responses request direction and Gemini responses: the same shape as the pairs that are modelled.
- Created times, generated item IDs and error texts of responses.
