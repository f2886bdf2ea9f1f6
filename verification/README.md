# RoleModel Helper V2: a verified model

RoleModel Helper V2 answers questions about roles and access rights. A session keeps its state in
PostgreSQL; a turn runs deterministic rules over an immutable catalog bundle and asks a language
model for a plan at most once. Catalog releases are translated from a V1 snapshot, validated,
published in one transaction and loaded by a single-flight cache. Installer scripts rewrite
environment files and swap certificates with rollback.

This project models those parts in Dafny and proves what holds of them over all inputs, all
interleavings and all runs. `dafny verify dfyconfig.toml` checks everything.

## How it is laid out

| file | models |
|---|---|
| `Prelude.dfy`, `PlainText.dfy` | options, insertion-ordered dictionaries, words and stripping, decimal numerals |
| `Catalog.dfy`, `Bundle.dfy` | catalog documents, the validator, the in-memory bundle |
| `Ranking.dfy`, `SearchTools.dfy`, `TextScores.dfy` | ranking, hard filters, search tools; what a text score means and which entries pass |
| `Dialogue.dfy`, `DialogueProofs.dfy`, `DialogueOutcomes.dfy` | one turn of the agent and what every turn keeps |
| `TurnOutcomes.dfy`, `QuestionOutcomes.dfy` | what a message leads to, rule by rule, told from the catalog |
| `AccessCompleteness.dfy`, `AccessListing.dfy` | which systems and roles an access answer can show, and in which order |
| `Payload.dfy`, `ResponseReading.dfy`, `StateStore.dfy` | JSON payloads and reading them by key, the two runtime tables, the service |
| `TurnProtocol.dfy`, `TurnTheorems.dfy` | any number of clients that interleave, retry and crash |
| `DuplicateRequests.dfy` | what becomes of duplicate requests |
| `CatalogCache.dfy` | the cache, its critical sections and its threads |
| `Publication.dfy`, `PublicationProofs.dfy`, `PublishedRows.dfy`, `StoredAliases.dfy` | tables, constraints, the publication transaction, the rows it leaves |
| `CatalogRefresh.dfy` | publisher and cache together |
| `FullSystem.dfy`, `SessionOrder.dfy` | publisher, cache and clients together; the order of catalogs in a conversation |
| `V1Snapshot.dfy`, `V1SnapshotProofs.dfy`, `TranslatedDocument.dfy`, `StableIds.dfy` | the translation of a V1 snapshot, entry by entry, and which rows become one entity |
| `EndToEnd.dfy` | from the V1 tables to the access answer |
| `Normalization.dfy`, `NormalizationProofs.dfy`, `CatalogLanguage.dfy` | canonical text and department numbers |
| `ShellWords.dfy`, `EnvFile.dfy`, `EnvFileProofs.dfy`, `EnvLines.dfy` | environment files |
| `CertificateSwap.dfy` | the staged certificate swap |

Code that updates state is a class or a method with loops, proved equal to a specification function;
the theorems are lemmas about those functions. Runs are sequences of actions executed by a total
step function: an action that is not enabled changes nothing, so a theorem about all sequences is a
theorem about all interleavings.

The main results:

- No update is lost (`TurnTheorems.NoLostUpdate`). The store compares only revision numbers and
  accepts an unchanged revision; the theorem therefore needs that the engine never changes the state
  without raising the revision (`DialogueProofs.TurnAccounting`) and that states survive their JSON
  form (`Payload.StateRoundTrip`).
- Publication succeeds exactly under a condition on the document (`PublicationProofs.PublishOutcome`),
  every translated snapshot meets it (`V1SnapshotProofs.TranslationPublishes`), and what is published
  stays loadable while it is being read (`CatalogRefresh.PointedVersionStaysLoadable`).
- The translation keeps the source access relation (`V1SnapshotProofs.AccessPreserved`), the dialogue
  reports exactly what the bundle grants (`DialogueProofs.AccessAnswerExact`), and so from end to end an
  access answer says what the V1 tables grant (`EndToEnd.AnswerMatchesSource`).
- With publisher, cache and clients interleaved in any way, the ids read by key from every response ever
  stored belong to the published document whose version stands beside it
  (`FullSystem.AnswersComeFromReleases`), and with one refresher no conversation goes back to an older
  catalog (`SessionOrder.ConversationMovesForward`). A stored response tells what the engine answered,
  key by key (`TurnTheorems.StoredResponsesTell`), and every report of the cache is true when it is made
  (`CatalogCache.ReturnsTellTruth`).
- What a message leads to is told from the catalog: which positions, departments and profiles pass, who
  is offered, what is asked and what is answered (`TurnOutcomes.OrganizationAnswered`,
  `QuestionOutcomes.SystemNamed` and their neighbours), down to which texts pass a search
  (`TextScores.PositionsThatPass`).

## What is taken as given

- `Language` and `Lexicon` hold functions for normalization, department numbers, white space,
  `SequenceMatcher.ratio` and the marker-phrase tests of the agent. Theorems hold for all of them;
  `NormalizationProofs` and `CatalogLanguage` then supply the real normalization over abstract Unicode
  tables (`NormalizationProofs.Tables`), which `CatalogLanguage.TablesExist` shows to exist.
- The planner is an arbitrary reply, a timeout or an exception. The V1 city pattern and SHA-256 are
  function parameters.
- Turn theorems that speak of validated catalogs assume that every pinned bundle is one;
  `FullSystem` composes clients, cache and publisher and has no such assumption.
- One `commit_turn` and one `publish` are atomic: the first locks the session row, the second holds an
  advisory lock and a transaction. Inside a publication the statements are modelled one by one.
- JSONB storage gives back what was written.
- Scores are exact rationals; `round(…, 4)` is the function `rounded` of `Language`. Where searches are
  described by their texts, the ratio is assumed to lie between 0 and 1 and to be 1 only for equal texts (`SearchTools.GoodRatio`), and rounding to
  lift exactly the scores from 0.29995 on to the threshold 0.30 (`TextScores.RoundsToFour`).
- `StableIds.SameIdentifier` assumes that normalized text holds no hyphen and no colon, which
  `StableIds.CanonicalCodesPlain` proves of the real normalization.

## Where the code does something a reader may not expect

- `normalize_query` is not idempotent on texts such as `2й_`; `NormalizeIdempotent` gives the exact
  condition and `ExposedOrdinalExample` a case in which even the department number changes. A second
  pass cuts exactly the ordinal endings (`SecondPass`); `NumbersAgree` says exactly when that changes the
  department number.
- Two concurrent refreshers can put an older catalog version back
  (`CatalogRefresh.TwoRefreshersMayGoBack`); with one refresher the versions only move forward.
- `_updated_env` writes certificate paths without quotes; `CertificateEnvReadsBack` says exactly when
  the file gives them back.
- A setting with an unusual Unicode line end can make rewriting an environment file leave fragments
  behind (`SettingLeavesFragment`); `RewriteIdempotent` says exactly when. The same line ends inside other settings cut their
  values (`ForeignSettingCut`); `ForeignSettingsKept` says exactly when the other settings survive.
- An access answer lists ten systems at most; `AccessAnswerComplete` says from the catalog alone when
  nothing is missing, and `ElevenSystemsCut` that with roles in eleven systems something always is.
- A phase of empty text would not survive storing and reloading; no turn produces one.
- A missing alias mark counts as SAFE in the search tools and the agent, and as AMBIGUOUS in the
  validator and the alias table.
- The validator compares stripped ids, the rest of the code unstripped ones; `ValidBundleOf` shows that
  this is harmless.
- A duplicate request that races with its original may get a revision conflict instead of the replay:
  `DuplicateMayConflict` is such a run. It happens at the state read, never at the commit
  (`StoredTurnReplayed`), and exactly when the session has left the revision that the call names
  (`LateDuplicate`).
- A pending candidate selection can go with phase AWAITING_SLOT, since a weak system match keeps the
  phase; the dialogue invariant allows it.

## Model

| member | source | states |
|---|---|---|
| `Catalog.ValidateUniqueRequired` | app/catalog/postgres.py:761-783 | Accepts a collection exactly when every entry has a non-blank id and display name and the stripped ids are distinct. |
| `Catalog.CollectRoles` | app/catalog/postgres.py:690-704 | Succeeds exactly when role ids are distinct inside each system and across systems; the table then holds exactly the ownership pairs. |
| `Catalog.ValidateCatalog` | app/catalog/postgres.py:664-758 | The validator accepts exactly the valid documents (unique named entities, global role ids, references inside the document, allowed aliases) and changes nothing but the blanks around the version. |
| `CatalogBundle.FromMapping` | app/catalog/cache.py:55-129 | The loops build the bundle of the document: systems and profiles keyed by id, derived numbers and cities, all role ids. |
| `CatalogBundle.BundleFaithful` | app/catalog/cache.py:55-129 | The bundle is the document: departments in order with the normalized city and the number read from the name, positions and instructions unchanged, systems and profiles found by id with the last entry of an id, role ids exactly those listed. |
| `CatalogBundle.ValidBundleOf` | app/catalog/postgres.py:664-758 | A bundle of a document that the validator accepts has no dangling or ambiguous reference. |
| `DialogueProofs.BundleKeyed` | app/catalog/cache.py:55-129 | Every bundle, validated or not, is keyed by the ids of its systems and profiles. |
| `Ranking.TextTotal` | app/tools/catalog.py:381-384 | The text order behind the ranking key is total and antisymmetric. |
| `Ranking.SortedIsUnique` | app/tools/catalog.py:381-384 | Two sorted lists of the same candidates are equal, so the ranking key leaves no freedom. |
| `Ranking.TopKIsBest` | app/tools/catalog.py:374-399 | A result holds the best candidates up to the limit in order of score, label and id; nothing left out precedes anything shown; the status is NOT_FOUND exactly without candidates. |
| `Ranking.ShownByRank` | app/tools/catalog.py:374-399 | A candidate is shown exactly when fewer candidates than the limit precede it by score, label and id. |
| `Ranking.TopKIgnoresOrder` | app/tools/catalog.py:374-399 | A result does not depend on the order in which the catalog lists its entries. |
| `SearchTools.SoftTokenCoverage` | app/tools/catalog.py:40-56 | The loop computes the share of query tokens that some candidate token matches. |
| `SearchTools.Coverage` | app/tools/catalog.py:40-56 | Coverage lies between zero and one. |
| `SearchTools.RankText` | app/tools/catalog.py:59-106 | The loop over name and aliases computes the best score of all entries, rounded at the end. |
| `SearchTools.ExactMatchScoresOne` | app/tools/catalog.py:79-105 | Before rounding a rank of one is reached exactly when some SAFE entry normalizes to the query. |
| `SearchTools.UnsafeStaysHidden` | app/tools/catalog.py:101-105 | In any list of names and aliases the UNSAFE ones lift the best score to 0.29 at most; above that the other entries decide alone. |
| `TextScores.MatchedTokens` | app/tools/catalog.py:47-55 | Two tokens match exactly when one begins with the other or both begin alike for three, length − 2 or six characters, by the length of the query token. |
| `TextScores.ShareMeaning` | app/tools/catalog.py:40-56 | The share times the number of query words is the number of query words that some candidate word matches. |
| `TextScores.ContainsMeaning` | app/tools/catalog.py:85-87 | One text contains another exactly when it holds it at some place. |
| `TextScores.ScoreMeaning` | app/tools/catalog.py:79-105 | For a text that is not an exact match the score is, below the cap of its mark, the greatest of the ratio, 0.35 + 0.6 of a positive share of matched words, and 0.9 when one text contains the other; it reaches each of them and no more. |
| `TextScores.RankMeaning` | app/tools/catalog.py:59-106 | The rank is, up to rounding, the score of some entry that no entry exceeds. |
| `TextScores.RankReaches` | app/tools/catalog.py:59-106 | A rank reaches a threshold of the searches exactly when some entry that is not UNSAFE equals, contains, is contained in, resembles, or shares enough words with the query. |
| `TextScores.PositionsThatPass` | app/tools/catalog.py:158-190 | A position passes exactly when it is in scope and its name or an alias fits the query in this sense; the candidate carries its id, name and rank. |
| `TextScores.DepartmentsThatPass` | app/tools/catalog.py:113-156 | A department passes exactly when its number and city are those asked for and its number was asked for or its name or an alias fits; the candidate carries its id, name, city and score. |
| `TextScores.SystemsThatPass` | app/tools/catalog.py:229-256 | A system passes exactly when it is granted and there is no query or its name or an alias fits. |
| `TextScores.RolesThatPass` | app/tools/catalog.py:258-293 | A role passes exactly when it is granted, has the level asked for, and there is no query or its name fits. |
| `SearchTools.SearchDepartments` | app/tools/catalog.py:113-156 | The loop with its filters and threshold computes the specified department search. |
| `SearchTools.DepartmentSearchFilters` | app/tools/catalog.py:113-156 | Every department returned has the queried number and city; for a limit of at least two the status is NOT_FOUND, FOUND or AMBIGUOUS exactly when none, one or several departments pass. |
| `SearchTools.DepartmentSearchIgnoresOrder` | app/tools/catalog.py:113-156 | Department search does not depend on catalog order when ids are unique. |
| `SearchTools.PositionIdsForContext` | app/tools/catalog.py:320-339 | The loop collects exactly the positions of profiles in the city and department; no context means no restriction. |
| `SearchTools.SearchPositions` | app/tools/catalog.py:158-190 | The loop computes the specified position search. |
| `SearchTools.PositionSearchFilters` | app/tools/catalog.py:158-190 | With a city or a department every position returned is held there by some profile; the status counts the positions that pass. |
| `SearchTools.ResolveProfiles` | app/tools/catalog.py:192-227 | The loop computes the specified profile resolution. |
| `SearchTools.ProfileHitsInside` | app/tools/catalog.py:203-226 | Resolution finds distinct profiles that really hold the department and the position. |
| `SearchTools.SystemIdsForProfiles` | app/tools/catalog.py:341-355 | The loop collects exactly the systems granted to the profiles. |
| `SearchTools.RoleIdsForProfiles` | app/tools/catalog.py:357-372 | The loop collects exactly the roles of the system granted to the profiles. |
| `SearchTools.SearchSystems` | app/tools/catalog.py:229-256 | The loop computes the specified system search within the granted systems. |
| `SearchTools.SearchRoles` | app/tools/catalog.py:258-293 | The loop computes the specified role search within the granted roles; an unknown system is INVALID. |
| `Dialogue.FindSystems` | app/agent/service.py:799-827 | The nested loops with their early return and breaks compute the specified match: the first system with a safe mention that no weak or fuzzy hit among its own earlier aliases hides, else the weak matches by descending score, once per system. |
| `DialogueProofs.SystemMatchesMeaning` | app/agent/service.py:799-827 | A system is taken at once exactly when it is the first with a SAFE name or alias in the message and no earlier name or alias of it is mentioned or resembles the message; otherwise exactly the weak matches are offered, once per id, with the best score between 0.5 and 0.65, best first. |
| `Dialogue.FinishAccess` | app/agent/service.py:629-756 | The loop over systems collects the role ids and ends in the turn that the dialogue specification prescribes. |
| `DialogueProofs.TurnAccounting` | app/agent/service.py:58-227 | A turn either fails, keeps the state and comes from the planner route, or answers and raises the revision by exactly one within the session; the planner is called at most once and never on the deterministic route; the result names the pinned catalog. |
| `DialogueProofs.HandleCoherent` | app/agent/service.py:237-417 | The dialogue invariant is kept by every turn: a question is pending iff the phase is not READY or ANSWERED; AWAITING_INTENT iff the intent question is pending, with the system in the slots; a candidate selection holds one to five options with distinct ids. |
| `DialogueProofs.HandleGrounded` | app/agent/service.py:84-227 | For any planner reply and any stale slots every id in an answer exists in the pinned catalog; role answers list exactly the roles of the system. |
| `DialogueProofs.ShownRolesExact` | app/tools/catalog.py:258-293 | The roles shown for a system are granted ones, each once, and all of them exactly when there are at most ten. |
| `DialogueProofs.ShownSystemsExact` | app/tools/catalog.py:229-256 | The systems shown for a profile are granted ones, each once, and all of them exactly when there are at most ten. |
| `DialogueProofs.AccessAnswerExact` | app/agent/service.py:709-755 | An access answer names each role once and only granted roles; it names all of them exactly when each system with a granted role is listed and holds at most ten. |
| `DialogueProofs.SmallProfileComplete` | app/agent/service.py:709-755 | With at most ten systems and at most ten granted roles in each the answer is the full granted set. |
| `AccessCompleteness.SystemListed` | app/tools/catalog.py:229-256 | Without a query a granted system is listed exactly when fewer than ten granted systems precede it by name and id. |
| `AccessCompleteness.AccessAnswerComplete` | app/agent/service.py:709-755 | Told from the catalog alone: an access answer is complete exactly when each system with a granted role has fewer than ten granted systems before it and at most ten granted roles. |
| `AccessCompleteness.ElevenSystemsCut` | app/agent/service.py:709-755 | With granted roles in more than ten systems an access answer always leaves some out. |
| `AccessListing.AccessListed` | app/agent/service.py:709-755 | An access answer element by element: the first ten granted systems by name and id, in this order, and for each of them in turn its first ten granted roles by name and id. |
| `DialogueOutcomes.ProfilesResolved` | app/tools/catalog.py:192-227 | The status counts the profiles that hold the department, the position and the city; only they are candidates, up to five. |
| `DialogueOutcomes.AccessIffOneHolder` | app/agent/service.py:629-756 | Access is answered exactly when one profile holds the chosen department and position in the city, and for that profile; several are offered for selection, none asks for the position again. |
| `DialogueOutcomes.AnswerRemembered` | app/agent/service.py:179-227 | Whatever is answered is what the session remembers: system, or department, position and profile, with the intent, and no question stays open; only a reset forgets a slot. |
| `DialogueOutcomes.PlanFollowed` | app/agent/service.py:84-178 | When no rule applies the turn succeeds exactly for a plan with a permitted action, known slots, confidence of at least 0.55, the pinned catalog and known facts; only a timeout or an exception is retryable. |
| `DialogueOutcomes.SelectionHonoured` | app/agent/service.py:292-316 | A number picks the option at that place without the planner: its id is in the slot of the topic, other slots stay, and an immediate access answer is for it. |
| `TurnOutcomes.OrganizationAnswered` | app/agent/service.py:536-627 | What a message about departments or positions leads to, told by the catalog entries that pass: several positions are offered as the best five, one is taken over; then the same with departments; then access is answered, or the missing part asked for or offered. |
| `TurnOutcomes.OrganizationGranted` | app/agent/service.py:536-756 | In particular one passing position, one passing department and one profile that holds both give the access answer for them at once, and the session remembers city, department, position and profile. |
| `TurnOutcomes.AccessFinished` | app/agent/service.py:629-756 | With a known department and position access is answered for the single holder, several holders are offered as the best five, none asks for the position; without a department or position it is asked for. |
| `TurnOutcomes.TopicOpened` | app/agent/service.py:246-325 | Which messages open a topic of their own although a question is pending. |
| `QuestionOutcomes.ResetAnswered` | app/agent/service.py:237-244 | A reset drops intent, slots and question. |
| `QuestionOutcomes.IntentAnswered` | app/agent/service.py:246-279 | Asked for roles the user gets all roles of the system in catalog order, asked for the instruction its first instruction with citation; anything else leaves the question open. |
| `QuestionOutcomes.CityAnswered` | app/agent/service.py:427-438 | A city value is taken over in the spelling of the first department of that city; any other value leaves the question open. |
| `QuestionOutcomes.DepartmentAnswered` | app/agent/service.py:439-454 | Several passing departments are offered as the best five, one is taken over and access is looked up, none leaves the question open. |
| `QuestionOutcomes.PositionAnswered` | app/agent/service.py:455-473 | The same for positions held in the city and department known so far. |
| `QuestionOutcomes.SystemAnswered` | app/agent/service.py:474-534 | A system meant by the value is taken over, weak matches are offered while the phase stays, else the question stays open. |
| `QuestionOutcomes.ChoiceAnswered` | app/agent/service.py:292-316 | Asking for more changes nothing; the number of an option takes it over and, for departments and positions, access is looked up. |
| `QuestionOutcomes.SystemNamed` | app/agent/service.py:325-417 | A message that names a system gets its instruction, its roles or the question which of them; without a SAFE mention the weak matches are offered, best first; only without any match the planner is asked. |
| `QuestionOutcomes.PlanAnswered` | app/agent/service.py:84-227 | A plan is followed with the answer its intent calls for, or refused with the code of the first objection and an unchanged state. |
| `DialogueOutcomes.HandleRenumbered` | app/agent/service.py:58-227 | Revisions do not steer the dialogue: from a state with another revision a turn differs in revision only. |
| `DialogueOutcomes.ResetIsFresh` | app/agent/service.py:237-244 | After a reset any further conversation, over any catalogs and planner replies, goes on as in a new session up to revisions. |
| `Payload.StateRoundTrip` | app/runtime/service.py:110-154 | A stored state is reloaded unchanged exactly when it belongs to the session and its phase is not empty; its revision always survives. |
| `StateStore.PostgresStateStore.CreateSession` | app/runtime/postgres.py:274-284 | Inserts the row, or is refused when the key exists. |
| `StateStore.CreatedSessionLoads` | app/runtime/postgres.py:274-294 | A new session is loaded as it was created, with its revision in the row; a taken key or a negative revision is refused, and nothing else changes. |
| `StateStore.PostgresStateStore.GetReplay` | app/runtime/postgres.py:296-308 | Reads the response stored for the session and request. |
| `StateStore.PostgresStateStore.CommitTurn` | app/runtime/postgres.py:351-450 | The early exits and the two table updates compute the specified commit: replay, revision checks, constraints, one inserted turn with the state row. |
| `StateStore.RuntimeService.PostMessage` | app/runtime/service.py:71-108 | The four steps on the store compute the specified outcome of a message. |
| `ResponseReading.ResultReadBack` | app/runtime/service.py:156-193 | From the JSON of a response route, outcome, answer, every fact under its key, failure and diagnostics are read back exactly. |
| `ResponseReading.GroundedReads` | app/runtime/service.py:156-193 | Facts that a catalog grounds are grounded as read from the JSON by key. |
| `StateStore.FindTurnAt` | app/runtime/postgres.py:297-308 | A replay is found exactly when a turn of that session and request is stored. |
| `StateStore.PackageAccepted` | app/runtime/postgres.py:172-246 | What the engine hands over always satisfies the constraints of the turn table. |
| `TurnProtocol.ReachableInv` | app/runtime/service.py:71-108 | Every reachable world keeps the protocol invariant: rows show the last turn, turns are sequential, requests unique, and each client's base state is current or outdated by revision. |
| `TurnProtocol.CommitOutcome` | app/runtime/postgres.py:364-450 | A packaged turn is replayed, refused for its revision, or inserted as the engine's own row. |
| `TurnTheorems.NoLostUpdate` | app/runtime/postgres.py:364-450 | In every interleaving of any number of clients a step that adds a turn adds one engine run on exactly the state the session is in at that moment. |
| `TurnTheorems.SerialHistory` | app/runtime/service.py:94-108 | In table order each turn of a session is one engine run on the state left by the previous turn, and the session row shows the last one. |
| `TurnTheorems.RefusedOnlyWhenStale` | app/runtime/postgres.py:392-402 | A computed turn is refused exactly when it is no replay and its session has moved to a later revision; it never meets another error. |
| `TurnTheorems.TurnsNeverChange` | app/runtime/postgres.py:406-430 | Stored turns are never altered or removed by any continuation of a run. |
| `TurnTheorems.SameRequestSameResponse` | app/runtime/service.py:79-84 | Calls for one session and request that return normally, at any two moments, return the same response; at most one such turn is stored. |
| `TurnTheorems.RevisionAccounting` | app/runtime/postgres.py:392-449 | A session's revision is the number of its answered turns, a failed turn leaves the state alone, and answered turns start from increasing revisions. |
| `TurnTheorems.DialogueInvariant` | app/runtime/service.py:94-108 | In every run over validated catalogs every stored session state satisfies the dialogue invariant. |
| `TurnTheorems.StoredAnswersGrounded` | app/agent/service.py:829-881 | Every response ever stored comes from an engine run of this system on a validated catalog whose version is recorded beside it, and the ids read from its JSON by key belong to that catalog: each id under role_ids to a system under system_id or system_ids, each instruction to its system, and so on. |
| `TurnTheorems.StoredResponsesTell` | app/runtime/postgres.py:406-430 | Every stored turn reads back as the engine run on the state its session was in: request id, answer, failure, route, outcome, calls and durations in response and telemetry, version and trace id in their columns. |
| `TurnTheorems.UndisturbedClient` | app/runtime/service.py:71-108 | Run without interference the four steps of a client are the service's own method. |
| `DuplicateRequests.StoredTurnReplayed` | app/runtime/service.py:79-84 | Once a request is stored, a call of it that has not read the replay yet, or has its turn computed or its state loaded, can return nothing but the stored response, however the run goes on. |
| `DuplicateRequests.LateDuplicate` | app/runtime/service.py:85-92 | A call that read the replay before its request was stored and the state after it returns the stored response if and only if the session is still at the revision that the call names, and else ends in a revision conflict. |
| `DuplicateRequests.DuplicateMayConflict` | app/runtime/service.py:85-92 | Two calls of one request in a new session: the first is stored and answered, the second ends in a revision conflict instead of the replay. |
| `DuplicateRequests.ResetMayConflict` | app/runtime/service.py:85-92 | In particular any reset message, whatever the catalog and the planner. |
| `FullSystem.TurnRuns` | app/bootstrap.py:43-67 | The turns of the whole system are those of a turn-protocol run whose engine inputs all carry releases of the catalog database. |
| `FullSystem.SessionsStayCoherent` | app/agent/service.py:58-64 | In every run of publisher, cache and clients together every stored session state satisfies the dialogue invariant. |
| `FullSystem.AnswersComeFromReleases` | app/agent/service.py:58-64 | In every such run the ids read by key from every stored response belong to the published document whose version is recorded beside it. |
| `SessionOrder.ConversationMovesForward` | app/catalog/cache.py:204-222 | With one refresher, whatever is published and however clients race, a turn stored after an answered turn of its session used the same catalog or one published later. |
| `CatalogCache.CatalogCache.BeginRefresh` | app/catalog/cache.py:160-170 | The first critical section: hit, register as loader, or wait on the registered event. |
| `CatalogCache.CatalogCache.ResultAfterWait` | app/catalog/cache.py:174-179 | The second critical section: what a waiter reports. |
| `CatalogCache.CatalogCache.FinishRefresh` | app/catalog/cache.py:181-202 | The last critical section: activate the loaded version or record the error, drop the registration, set the event. |
| `CatalogCache.CatalogCache.RecordSourceError` | app/catalog/cache.py:256-262 | Keeps the last good bundle and says what went wrong. |
| `CatalogCache.CatalogCache.Refresh` | app/catalog/cache.py:159-202 | A lone refresh ends with a hit, an activation or an error, with the status to match, and leaves no registration. |
| `CatalogCache.ReachableInv` | app/catalog/cache.py:159-202 | Every reachable interleaving keeps honest status, registered loaders, distinct events and served waiters. |
| `CatalogCache.SingleFlight` | app/catalog/cache.py:164-170 | No two threads are ever loading the same version. |
| `CatalogCache.WaiterHasLoader` | app/catalog/cache.py:172-202 | A waiter whose event is not set has a live loader of its version that will set it. |
| `CatalogCache.SomeThreadCanStep` | app/catalog/cache.py:159-202 | As long as some refresh is in flight some thread can step. |
| `CatalogCache.EveryRefreshEnds` | app/catalog/cache.py:159-202 | Steps of refreshes are bounded by three per call, so with progress every refresh returns. |
| `CatalogCache.LastGoodStatus` | app/catalog/cache.py:142-202 | EMPTY iff nothing is active, the status names the active version, READY has no error and DEGRADED has one; an active bundle is never lost; the bundle changes exactly when a thread publishes a load that brought the version asked for, and that thread alone reports the activation of what is served from then on. |
| `CatalogCache.ReturnsTellTruth` | app/catalog/cache.py:159-202 | In every interleaving a report is true when it is made: no error exactly when the version asked for is active, activated exactly when the thread just published it, a hit otherwise; a waiter reports the last error in the status, or that nothing was activated. |
| `Publication.PublishCatalog` | app/catalog/postgres.py:276-364 | The transaction either runs all its statements or leaves the database as it was. |
| `Publication.CatalogDatabase.Load` | app/catalog/postgres.py:610-624 | Loads any release that is not STAGING. |
| `Publication.RefusedByConstraints` | app/catalog/postgres.py:115-236 | A statement is refused exactly when a primary key is taken or what it would leave behind breaks the one-active index or a foreign key, that of alias rows to entity rows included. |
| `Publication.ConstraintsThroughout` | app/catalog/postgres.py:115-236 | The one-active index and all foreign keys hold after every single statement of any script. |
| `Publication.FlattenDistinct` | app/catalog/postgres.py:366-568 | The rows of a release fit exactly when each group is distinct and the groups are disjoint. |
| `Publication.InsertRows` | app/catalog/postgres.py:366-568 | Inserting rows of a known release succeeds exactly when they are new and distinct and no alias row precedes its entity, and then adds exactly them. |
| `Publication.ScriptOutcome` | app/catalog/postgres.py:286-358 | On a committed database the script succeeds exactly when the version is new, the rows are distinct and each alias row follows its entity; then the new release is ACTIVE and pointed to, all others RETIRED. |
| `PublicationProofs.RowsFit` | app/catalog/postgres.py:366-568 | The rows of a valid document collide exactly when an entity repeats an alias or a profile repeats a target. |
| `PublicationProofs.PublishOutcome` | app/catalog/postgres.py:276-364 | Publication succeeds exactly when the document is valid, its version is new and no entity repeats an alias and no profile a target; otherwise nothing changes. |
| `PublishedRows.RowsAreTheDocument` | app/catalog/postgres.py:366-568 | The rows of a release are exactly one per department, position, system, role, profile and instruction, one per alias spelling, and one per department, position, system and role of a profile. |
| `PublishedRows.PublishedTables` | app/catalog/postgres.py:302-364 | After a successful publication the tables hold what they held and exactly those rows; the new release is ACTIVE, the one that was active RETIRED, every other release untouched. |
| `PublicationProofs.EntitiesBeforeAliases` | app/catalog/postgres.py:202-205 | The publisher inserts every entity before its aliases, as their foreign key demands. |
| `PublicationProofs.RunsKeepInv` | app/catalog/postgres.py:276-364 | After any run of publication attempts every stored document is valid and filed under its version, and all constraints hold. |
| `PublicationProofs.LifecycleOverRuns` | app/catalog/postgres.py:286-358 | Over all runs of publications and failures the active version is that of the one ACTIVE release, nothing stays STAGING, documents never change and RETIRED is final. |
| `StoredAliases.InsertAliases` | app/catalog/postgres.py:459-501 | The counting loops store every alias with its collision count and its safety. |
| `StoredAliases.AliasesAreTheDocument` | app/catalog/postgres.py:459-488 | The alias rows are exactly those of the departments, positions and systems of the document: stripped, normalized, a missing mark as AMBIGUOUS. |
| `StoredAliases.SafeMeansUnshared` | app/catalog/postgres.py:485-501 | An alias is stored SAFE exactly when it is marked SAFE and no other alias of its entity type has its spelling. |
| `StoredAliases.StoredSafetyAllowed` | app/catalog/postgres.py:196-198 | For a valid document the stored safety satisfies its check constraint. |
| `CatalogRefresh.ReachableInv` | app/catalog/cache.py:159-222 | Publications, the refresh of a configured version and refreshes of the active one, interleaved in any way, keep database, history and cache consistent. |
| `CatalogRefresh.PointedVersionStaysLoadable` | app/catalog/postgres.py:597-624 | A version that is active at some moment stays loadable whatever is published later, and loads as the bundle of the document active then. |
| `CatalogRefresh.ServedBundleIsPublished` | app/catalog/cache.py:204-222 | The bundle served to turns is always a validated release, unchanged since its publication. |
| `CatalogRefresh.OneRefresherMovesForward` | app/catalog/cache.py:249-254 | With one refresher, after at most one refresh of a configured version at the start, the activated versions follow the publication order without repetition. |
| `CatalogRefresh.TwoRefreshersMayGoBack` | app/catalog/cache.py:197-202 | Of any two publishable catalogs with different versions the older can be activated last by one of two refreshers although the newer was published, loaded and activated before: a run of publisher and cache. |
| `V1Snapshot.CollectSystemAliases` | app/catalog/v1_snapshot.py:202-223 | The loop builds the alias table of the systems. |
| `V1Snapshot.CollectDepartmentAliases` | app/catalog/v1_snapshot.py:225-239 | The loop builds the alias table of the departments, the last spelling winning. |
| `V1Snapshot.CollectCities` | app/catalog/v1_snapshot.py:260-267 | The loop takes the first city found for each profile. |
| `V1Snapshot.BuildDepartments` | app/catalog/v1_snapshot.py:269-300 | The loop fills the three department dictionaries in place. |
| `V1Snapshot.BuildPositions` | app/catalog/v1_snapshot.py:302-330 | The loop fills the three position dictionaries in place. |
| `V1Snapshot.BuildAccess` | app/catalog/v1_snapshot.py:332-373 | The loop collects roles and grants, or fails on an entitlement of a missing system. |
| `V1Snapshot.BuildDocument` | app/catalog/v1_snapshot.py:188-429 | The chain of loops computes the specified translation. |
| `V1SnapshotProofs.SystemAliasOutcome` | app/catalog/v1_snapshot.py:202-223 | The alias kept under a spelling is the last SAFE one or, without a SAFE one, the first; one is kept exactly when some usable row exists. |
| `V1SnapshotProofs.DepartmentAliasOutcome` | app/catalog/v1_snapshot.py:225-239 | For departments the last usable row of a spelling wins. |
| `V1SnapshotProofs.CityOutcome` | app/catalog/v1_snapshot.py:260-267 | A profile's city is the first one found along its segments, if any. |
| `TranslatedDocument.SystemsTranslated` | app/catalog/v1_snapshot.py:241-258 | In the document a system has exactly the aliases that won for it under some spelling, each as its row has it, each spelling once. |
| `TranslatedDocument.DepartmentsTranslated` | app/catalog/v1_snapshot.py:269-300 | The document holds one department per identifier, with the name of its first row, the city of that row's profile and exactly the last usable aliases of that name. |
| `TranslatedDocument.PositionsTranslated` | app/catalog/v1_snapshot.py:302-330 | The document holds one position per identifier, with the name of its first row; a leader is also called chief. |
| `TranslatedDocument.ProfilesTranslated` | app/catalog/v1_snapshot.py:375-401 | Every profile row becomes a profile with its name, the first city along its segments, and its departments and positions. |
| `TranslatedDocument.RolesTranslated` | app/catalog/v1_snapshot.py:332-366 | Each listed role is what the first row of its identifier says: its level and the name to show. |
| `StableIds.SameIdentifier` | app/catalog/v1_snapshot.py:432-439 | Two entities of a kind get one identifier exactly when their codes normalize alike, or neither has a code and their names do, up to the digest. |
| `StableIds.DepartmentIdentified` | app/catalog/v1_snapshot.py:272-284 | A department row takes the identifier of the first row with an equal code, or without a code an equal normalized name, in an equal normalized city. |
| `StableIds.PositionIdentified` | app/catalog/v1_snapshot.py:305-312 | A position row takes the identifier of the first row with an equal code, or without a code an equal normalized name. |
| `StableIds.SystemsAndProfilesIdentified` | app/catalog/v1_snapshot.py:241-258 | Systems and profiles are identified row by row by their own code and name. |
| `StableIds.VersionsDiffer` | app/catalog/v1_snapshot.py:404-407 | Two snapshots get one catalog version exactly when they have the same number and the same first twelve characters of the normalized source hash. |
| `V1SnapshotProofs.RoleIdInjective` | app/catalog/v1_snapshot.py:347-353 | System id, source column and level can be read back from a role id. |
| `V1SnapshotProofs.TranslationFails` | app/catalog/v1_snapshot.py:335-340 | Translation fails exactly when an entitlement belongs to no system of the snapshot. |
| `V1SnapshotProofs.TranslationValid` | app/catalog/v1_snapshot.py:188-429 | The document passes the validator exactly when system and profile ids are distinct and named and the first row of every department, position and role has a name to show; it fits the tables in any case. |
| `V1SnapshotProofs.TranslationPublishes` | app/catalog/v1_snapshot.py:402-429 | A translated snapshot is published exactly when it meets that condition and its version is new. |
| `V1SnapshotProofs.AccessPreserved` | app/catalog/v1_snapshot.py:332-402 | When system ids are distinct, a profile has the role of a system, source column and level in the document exactly when some source row grants it. |
| `V1SnapshotProofs.NoForeignGrants` | app/catalog/v1_snapshot.py:367-373 | Every granted role is that of some source row of the profile. |
| `V1SnapshotProofs.RolesPreserved` | app/catalog/v1_snapshot.py:355-366 | When system ids are distinct, a system lists exactly the roles that some access row names, with their level. |
| `V1SnapshotProofs.DepartmentsPreserved` | app/catalog/v1_snapshot.py:269-300 | A profile keeps exactly the departments its rows name; rows of one key share the id of the first. |
| `V1SnapshotProofs.PositionsPreserved` | app/catalog/v1_snapshot.py:302-330 | A profile keeps exactly the positions its rows name; rows of one key share the id of the first. |
| `EndToEnd.AllGrantedIsSource` | app/catalog/v1_snapshot.py:332-402 | Over all systems of the bundle a translated profile is granted exactly the roles of its source rows, and no role of any other spelling. |
| `EndToEnd.AnswerMatchesSource` | app/agent/service.py:709-755 | From end to end: every role in an access answer, whatever its spelling, is the role of some V1 row of the profile; with at most ten systems and ten granted roles in each the answer names exactly those. |
| `NormalizationProofs.NormalizeCanonical` | app/catalog/normalization.py:40-47 | Normalized text is a single-blank-separated list of non-empty words over digits, Latin and Cyrillic letters. |
| `NormalizationProofs.YoIsYe` | app/catalog/normalization.py:43 | The letter ё reads as е, in any context. |
| `NormalizationProofs.CaseIsInvisible` | app/catalog/normalization.py:43 | Characters with the same lower case are interchangeable, in any context. |
| `NormalizationProofs.NumberSignIsWord` | app/catalog/normalization.py:44 | The number sign reads as the word for it, in any context. |
| `NormalizationProofs.OrdinalEndingInvisible` | app/catalog/normalization.py:45 | An ordinal ending after a digit, hyphenated or not, reads as a blank, in any context. |
| `NormalizationProofs.SecondPass` | app/catalog/normalization.py:40-47 | A second pass cuts the ending of every ordinal token and changes nothing else. |
| `NormalizationProofs.NormalizeIdempotent` | app/catalog/normalization.py:40-47 | Normalizing twice changes nothing exactly when the folded text has no ordinal ending after an ASCII digit that is followed at once by a word character outside the alphabet. |
| `NormalizationProofs.PlainTextIdempotent` | app/catalog/normalization.py:40-47 | In particular when all word characters of the folded text belong to the alphabet. |
| `NormalizationProofs.DepartmentNumberExact` | app/catalog/normalization.py:50-59 | The regular expression finds the first token of one to four digits; an ordinal word goes first. |
| `NormalizationProofs.NumberIsWholeToken` | app/catalog/normalization.py:50-59 | A department number is an ordinal word or a whole token of one to four digits, never a part of a longer one. |
| `NormalizationProofs.NumbersAgree` | app/catalog/normalization.py:50-59 | Raw and normalized text give the same number exactly when an ordinal word decides, or no short ordinal stands before the first short number, or both have the same value. |
| `NormalizationProofs.NumbersAgreeUnexposed` | app/catalog/normalization.py:50-59 | In particular when no ordinal is exposed in the folded text. |
| `NormalizationProofs.ExposedOrdinalExample` | app/catalog/normalization.py:40-59 | A concrete text on which a second pass changes the text and the number. |
| `CatalogLanguage.AdapterSane` | app/catalog/normalization.py:40-47 | Canonical text meets what the snapshot translation assumes of it: stripping is invisible, no white space but the blank. |
| `CatalogLanguage.EmptyNormal` | app/catalog/normalization.py:40-47 | The empty text normalizes to itself, as the completeness of access answers assumes. |
| `ShellWords.QuoteRoundTrip` | scripts/installer_preflight.py:41-56 | Every value without NUL, newline, carriage return and tab is read back from its quoted form. |
| `ShellWords.UnquotedExact` | scripts/installer_preflight.py:41-56 | A value written without quotes is read back exactly when no character means anything to the lexer. |
| `EnvFile.ParseEnv` | scripts/installer_preflight.py:59-77 | The loop over lines computes the specified settings or refuses. |
| `EnvFile.RewriteEnv` | scripts/installer_preflight.py:209-224 | The loops filter the known lines, trim the end and append the settings. |
| `EnvFile.WriteEffectiveEnv` | scripts/installer_preflight.py:195-224 | The quoted settings replace those of the source file. |
| `EnvFile.UpdatedEnv` | scripts/prepare_gigachat_certs.py:168-184 | The certificate paths, unquoted, replace those of the existing file. |
| `EnvFile.WriteRuntimeEnv` | scripts/activate_rolemodel_v2_server.py:259-264 | The runtime file holds the quoted RMV2_ settings but the privileged ones. |
| `EnvFileProofs.EffectiveEnvReadsBack` | scripts/installer_preflight.py:195-240 | The written file gives back exactly the settings, whatever else the source file held. |
| `EnvFileProofs.InstallerEnvReadsBack` | scripts/installer_preflight.py:195-240 | The same for the table of installer keys. |
| `EnvFileProofs.RuntimeEnvReadsBack` | scripts/activate_rolemodel_v2_server.py:77-96 | The runtime file gives back exactly the RMV2_ settings except the privileged ones. |
| `EnvFileProofs.SameKey` | scripts/installer_preflight.py:211-217 | Reader and writer agree on the key of every line that sets something. |
| `EnvLines.SettingFound` | scripts/installer_preflight.py:65-76 | A setting is read, and found by a rewrite, under its key, with or without export and whatever white space surrounds it. |
| `EnvLines.CommentIgnored` | scripts/installer_preflight.py:66-67 | A comment sets nothing, and no rewrite drops it. |
| `EnvLines.RewrittenExactly` | scripts/installer_preflight.py:209-224 | A rewrite writes exactly the lines that set no known key, as they are and in order, without empty lines at their end, then an empty line if any is left, then the assignments. |
| `EnvFileProofs.RewriteIdempotent` | scripts/installer_preflight.py:209-224 | Rewriting twice is rewriting once exactly when line ends inside the settings leave nothing over that passes for a foreign line. |
| `EnvFileProofs.SettingLeavesFragment` | scripts/installer_preflight.py:209-224 | An allowed value with a line end inside it that only the rewriter sees is such a case: its quoted tail stays behind and is added again by every rewrite. |
| `EnvFileProofs.RewriteStable` | scripts/installer_preflight.py:209-224 | In particular when the settings hold no line end of any kind; the foreign lines are then kept. |
| `EnvFileProofs.PathReadsBack` | scripts/prepare_gigachat_certs.py:182-183 | An unquoted path is read back exactly when it holds no blank, quote, backslash or comment sign and no forbidden character and does not end in white space. |
| `EnvFileProofs.CertificateEnvReadsBack` | scripts/prepare_gigachat_certs.py:168-184 | The whole rewritten file gives back the three certificate settings, whatever else it held, exactly when every path is such a plain one. |
| `EnvFileProofs.ForeignSettingsRead` | scripts/installer_preflight.py:209-224 | A reader of other settings finds in the rewritten file what the source holds when it is split at every Unicode line end. |
| `EnvFileProofs.ForeignSettingsKept` | scripts/installer_preflight.py:209-224 | Rewriting keeps the other settings exactly when the source reads the same split either way, in particular when it holds no line end that only the rewriter splits at. |
| `EnvFileProofs.ForeignSettingCut` | scripts/installer_preflight.py:209-224 | A plain value with such a line end in its middle is cut there by a rewrite for other settings. |
| `CertificateSwap.Disk.Stage` | scripts/prepare_gigachat_certs.py:240-245 | Staging holds exactly the payloads unless an operation failed. |
| `CertificateSwap.Disk.SwapIn` | scripts/prepare_gigachat_certs.py:259-278 | The swap with its rollback ends in one of the few named states. |
| `CertificateSwap.Disk.CleanUp` | scripts/prepare_gigachat_certs.py:279-285 | The final block removes what is staged and restores a directory set aside. |
| `CertificateSwap.Disk.Prepare` | scripts/prepare_gigachat_certs.py:236-286 | Whichever single operation fails, directory and settings file end both old or both new and nothing staged remains; success comes exactly when the destination may be replaced and nothing failed, and leaves no backup. |

## Left out

- HTTP layer, user interface, startup wiring and settings parsing: plumbing.
- GigaChat transport, OAuth and prompt building: a network client behind the planner's reply.
- SQL text, migrations and grants: only constraints and transaction boundaries are modelled.
- Answer texts, option messages, `matched_by` lists and `next_required_slots`: wording only.
- Telemetry aggregation, percentiles, clocks and generated ids: times and trace ids are parameters.
- SearchTools.RankText: does not return the `matched_by` list, which nothing else reads.
- SearchTools.SearchDepartments: leaves out `matched_by` and all context of a candidate but the city.
- SearchTools.SearchPositions: leaves out `matched_by` and the context of a candidate.
- SearchTools.SearchSystems: leaves out `matched_by` and the context of a candidate.
- SearchTools.SearchRoles: leaves out `matched_by` and the context of a candidate.
- SearchTools.ResolveProfiles: does not model the `system_id` filter, which the agent never passes.
- Dynamic type checks of documents (`must be a list`, `must be an object`) and the kinds of validation errors: documents are typed, and the validator only accepts or refuses.
- Validation `counts` and payload columns of entity rows: no property depends on them.
- `get_access_instruction`, and the `system_id` and `position` filters of the searches: the agent does not use them.
- `start_auto_refresh` and `stop_auto_refresh`: one refresher is assumed for the order of versions; thread restart is not modelled.
- Thread interleavings inside one critical section and a crash of the process during a load: critical sections are atomic and loads end.
- Foreign keys of the relation tables to entities: the schema has none.
- `_extract_city`: the regular expression stays a function parameter.
- Reloading a stored state accepts the JSON types that the encoder writes; coercions of other types by `str` and `int` are not modelled.
- Path checks, symbolic links, file modes and `fsync` of the environment writers: only the text is modelled.
- The final sigma rule of `str.lower`: both forms lie outside the alphabet and are dropped alike.
- CertificateSwap.Disk.Prepare: does not cover a second failure during recovery nor a removal that fails half-way, because the original promises nothing then.
- The order of lines in the runtime file: the theorems hold for every order of the keys.
- Alias marks other than SAFE, AMBIGUOUS and UNSAFE are treated like UNSAFE: the validator refuses them, so no published bundle holds one.
- Release building, the activation sequence and deployment scripts: external tools.
