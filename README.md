# Configuration hierarchy resolver

A Dafny model of the resolver in `src/fetcher.py`. The resolver takes a configuration element, named by application, element name and element type. It returns the chain of layered documents that configure the element.

- The resolver queries the store for the element. If that query returns nothing, it tries the caller's fallback names in order.
- At each layer it picks one document from the candidates, using a selection policy.
- It follows the picked document's `defaults` link to the parent layer, until a document's link is empty.
- The collected layers are returned most general first.

The three policies are:

- current-only: the one `current` document;
- stage-aware: the one `stage` document on the layer being staged, and the one `current` document on every other layer;
- rollout-aware: the one `rollout` document for the consumers whose hash bucket (1 to 10000) is at or below the document's threshold, and the `current` document for everyone else.

Files:

- `config.dfy` (module `Config`): documents, states, error kinds, the `Result` type, the state filter used by every policy, and the predicates "exactly one document in this state".
- `selectors.dfy` (module `Selectors`): the three policies as pure functions, the percentile bucket, and lemmas about them.
- `fetcher.dfy` (module `Fetcher`): the resolver.
  - The caller's fallback list is a class `NameList`. The resolver removes names from it in place.
  - `Fallback`, `Candidates`, `Lineage` and `Resolve` are the functions that specify it.
  - `FindCandidates`, `ClimbDefaults` and `FetchHierarchy` are the imperative methods, proved equal to those functions.
  - Lemmas state the fallback order, the chain shape and the error shape.
- `scenarios.dfy` (module `Scenarios`): concrete resolutions over a three-layer store in which C inherits from B and B from A. They cover a direct request, a request through fallback names, an unconfigured element, and a staged element without a stage document.

Notes on the code's behaviour, which the model follows:

- The whole walk runs inside one `try`/`except Exception` (src/fetcher.py:75, 107-116). So every failure reaches the caller wrapped as `ResolutionFailure`, carrying the originally requested name, type and application. This includes the selectors' `NotFound`, which is not propagated unwrapped.
- Off the staged layer, the stage policy reports a malformed layer as `NotFound` (src/fetcher.py:23-24). The current-only policy reports it as a generic error, `InvariantViolation` (src/fetcher.py:66-68). `Selectors.StageOffLayerIsCurrent` states both halves.
- On its own layer, the stage policy fails with `NotFound` when the layer has no stage document, even when it has a current one. So "every policy returns the single current document" holds for every policy except that one case. `Selectors.PlainLayer` states the exception.
- The rollout threshold is `int(population * 100)`, which truncates. It is not a rounding.

## Model

| member | source | states |
|---|---|---|
| Config.Filter | src/fetcher.py:39-40 | the comprehension keeps exactly the documents in the given state, and no more of them than the input has |
| Config.FilterSole | src/fetcher.py:65-69 | the filtered list has length one exactly when one position holds a document in that state, and its element is then that document |
| Selectors.SelectCurrent | src/fetcher.py:61-69 | empty input gives `NotFound`; a non-empty layer without exactly one current document gives the generic error; otherwise the result is the single current element of the input |
| Selectors.SelectStage | src/fetcher.py:12-26 | empty input gives `NotFound`; on the staged layer the result is the single stage element, and otherwise `NotFound`, whatever current documents exist; on any other layer the result is the single current element, and otherwise `NotFound`; the only error is `NotFound` |
| Selectors.SelectRollout | src/fetcher.py:38-54 | success exactly when one current document exists, and `NotFound` otherwise (empty input included); with zero or several rollout documents the result is the current document; with exactly one rollout document the result is that document exactly when the percentile is at or below its threshold, and the current document otherwise |
| Selectors.Percentile | src/fetcher.py:47 | the bucket always lies in 1..10000, and a digest below 10000 lands in bucket digest + 1 |
| Selectors.Select | src/fetcher.py:93 | whatever policy is applied, a selected document is one of the candidates |
| Selectors.PlainLayer | src/fetcher.py:12-69 | a layer with one current document and no stage or rollout document resolves to that document under every policy, except the stage policy on its own layer, which gives `NotFound` |
| Selectors.StageOffLayerIsCurrent | src/fetcher.py:21-26 | off the staged layer, the stage policy succeeds exactly when the current-only policy does and with the same document; when they fail, one gives `NotFound` and the other the generic error |
| Selectors.RolloutByBucket | src/fetcher.py:47-52 | the rollout choice depends on the consumer key only through its bucket, so the same key and documents always give the same document |
| Selectors.RolloutMonotone | src/fetcher.py:49-50 | a consumer served the rollout document keeps it when the threshold is raised |
| Selectors.RolloutShare | src/fetcher.py:47-49 | of the 10000 digest residues, exactly min(max(t, 0), 10000) are routed to a rollout document with threshold t |
| Fetcher.Fallback | src/fetcher.py:83-90 | fallback names are taken front to back, only while the current result is empty; the outcome is the last query made; every earlier fallback query found nothing; an empty outcome means every name was taken |
| Fetcher.Candidates | src/fetcher.py:76-92 | the outcome is the query of the first name, in the order primary then fallbacks, that fails or finds something; every name before it found nothing; an empty outcome means all names were tried |
| Fetcher.Lineage | src/fetcher.py:93-104 | a successful walk from a document is non-empty and ends with that document |
| Fetcher.LineageShape | src/fetcher.py:93-106 | a successful walk starts with a document whose `defaults` is empty; every later document's `defaults` is non-empty; each document is the selection among the documents stored under the `defaults` name of the next one |
| Fetcher.Resolve | src/fetcher.py:72-117 | every failure is a `ResolutionFailure` carrying the requested name, type and application, never a partial chain; the result is the empty chain exactly when no queried name had documents |
| Fetcher.ResolveFailure | src/fetcher.py:107-116 | a store failure, or a selector failure (`NotFound` included) at the requested layer, surfaces as the wrapped error carrying that cause |
| Fetcher.ResolveChain | src/fetcher.py:93-106 | a non-empty chain ends with the selection for the requested layer; it starts with a document whose `defaults` is empty; later documents have non-empty `defaults`; each document is the selection under the next one's `defaults`. With a store that only returns matching documents, `chain[i+1].defaults == chain[i].name`, the last document is named after the name whose query was used, and every document has the requested type and application |
| Fetcher.Reverse | src/fetcher.py:106 | the reversed list has the same length and holds element `len - 1 - i` at position `i` |
| Fetcher.FindCandidates | src/fetcher.py:76-92 | the documents found are `Candidates` of the names the caller's list held, and the names tried are removed from the front of that list |
| Fetcher.ClimbDefaults | src/fetcher.py:93-106 | the loop that follows `defaults` and appends, and then reverses in place, returns exactly `Lineage` of the starting document |
| Fetcher.FetchHierarchy | src/fetcher.py:72-117 | the result is `Resolve` of the inputs, and the caller's fallback list afterwards lacks exactly the names that were tried |
| Scenarios.ChainOrder | src/fetcher.py:93-106 | resolving C, where C inherits from B and B from A, gives the chain [A, B, C] |
| Scenarios.FallbackChain | src/fetcher.py:83-92 | X and the first fallback Q have no documents, so the second fallback C is used; two names are consumed and the chain is [A, B, C] |
| Scenarios.NothingConfigured | src/fetcher.py:91-92 | when neither the element nor any fallback name has documents, the result is the empty chain and not an error |
| Scenarios.StagedWithoutStageDocument | src/fetcher.py:17-20 | staging C when C has only a current document gives `NotFound`, wrapped with the requested identity |
| Scenarios.FallbackCaller | src/fetcher.py:83-90 | a caller passing the list [Q, C, B] gets the chain [A, B, C], and its own list holds only [B] afterwards |

## Left out

- MD5 in `consistent_hash` (src/fetcher.py:29-31) is not modelled. The digest of the consumer key is a parameter `digest: string -> nat`, so only its determinism is modelled. The statistical spread of real keys over buckets is not stated. `Selectors.RolloutShare` counts the digest residues instead.
- The float `population` and the product `population * 100` are not modelled. Each document has an integer `rolloutThreshold`, which is the result of the truncating `int(...)` conversion.
- Exception message texts and their `str.format` formatting are not modelled. Only the error kinds are.
- The payload fields of a document that the resolver never reads are not modelled.
- Missing or ill-typed document fields are not modelled. Every document is assumed to carry `name`, `state` and `defaults` as strings, and a rollout document a usable `population`. In the code a document without one of these fields raises `KeyError` (src/fetcher.py:16, 18, 22, 39-40, 48, 65, 95, 98), and a `None` population raises `TypeError` (src/fetcher.py:48); `fetch_hierarchy` wraps either as the generic exception (src/fetcher.py:107-116). A `None` name or state is never equal to a label or to the staged name, so that document is simply not selected, or its layer is not taken as the staged one (src/fetcher.py:16-22, 39-40, 65). A `None` defaults is not the empty string, so the walk goes on and queries for documents whose name is null (src/fetcher.py:95-98). The model covers none of these inputs.
- Termination of the `defaults` walk: the code has no cycle guard, and a walk that reaches a cycle loops forever. The model requires `Acyclic`: a rank on names that every non-empty `defaults` link of every stored document of the requested type and application lowers. This also excludes stores whose only cycle the walk never reaches, such as an unselected stage document whose `defaults` is its own name, or the links of an unrelated element; the code terminates on those stores, and the model does not cover them.
- `src/flexity_common/config_management_store_singleton.py` is not part of this model. It builds the database client, loads a schema file and manages indexes. The store is the function `Store`. A failing query is an `Err` result of any kind; `StoreFailure` is the ordinary one.
- A query's lazy cursor is modelled as one query result. Failures while iterating the cursor count as the query's failure.
- Read skew between the per-layer queries, and concurrency, are not modelled. The store is one fixed function for the whole resolution.
- `FetchHierarchy`: the two loops of `fetch_hierarchy` are the two methods `FindCandidates` and `ClimbDefaults`, which `FetchHierarchy` calls in the source's order. The list the code reverses in place is a sequence that is reassigned.
