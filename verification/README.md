# Okapi Copilot backend: verified model

A Dafny model of the parts of the backend whose correctness is about time, interleaving and runs, with
proofs of what they promise. `dafny verify dfyconfig.toml` checks it all.

- **Inbound gateway** (`ReplayGuard`, `Webhook`, `DedupKey`, `InboundExecution`, `InboundGateway`,
  `GatewayInvariant`, `GatewayTheorems`, `GatewayRuns`, `GatewayThreshold`, `GatewayRedelivery`,
  `GatewayNoninterference`).
  Webhook verification and message processing are modelled as any number of deliveries over one guard with
  expiring keys, one id source, one conversation store and one clock. Each call through a port is two steps,
  performed and resumed, and any other step may come in between; a port may also fail before or after
  performing a call. The classes (`RedisReplayGuard`, `VerifyWebhook`, `Execution`) do by assignment what the
  step system says.
- **Signing-key cache** (`JwksCache`). Lookups interleave with each other and with key rotation; what the
  server publishes is an arbitrary function of time.
- **Security contexts** (`SecurityContexts`, `ContextResolution`, `Authorization`). Which membership a
  context is issued from, and what the context still says when it is used later.
- **Lifecycles** (`StateMachine`, `RequestLifecycle`, `MessageLifecycle`, `ConversationLifecycle`). One
  guard, three tables, all runs.

Conventions. Instants and durations are integers in microseconds; TTLs given in seconds are in the same
unit and at least one second, which is what the key store accepts. Python exceptions are `Err` results or
a final phase. A delivery's `Trace`, a lookup's `fetches`, `warm` and `seen`, and the recorded instants of
the key cache are history: no step reads them. A key is live before its expiry instant and expired from that
instant on. "Latency" bounds the time from the clock reading a webhook's envelope is checked against to the
instant the guard performs the call in question. How many calls fit into a window is `Prelude.HowMany`, which
is 1 + ⌊width/gap⌋ (`Prelude.HowManyIsQuotient`).

Where the code and its documentation differ, the model follows the code:

- The guard port says a key is refused once seen; the code refuses it while an earlier success is within
  its TTL (`ReplayGuard.RefinesFullHistory`). The pipeline's documentation says a duplicate delivery of a
  provider message must not be processed twice. That is not so in general: without a webhook a message is
  processed again after every dedup TTL (`GatewayThreshold.UnhookedCompletesAgain`), and with webhooks whenever
  the event timestamps, which the signature does not cover, are far enough apart. The exact condition, for any
  two deliveries, is `GatewayThreshold.BothCompleteIff`; for one event it is a bound on the configuration alone
  (`GatewayThreshold.CompletesAtMostOnceIff`). Replay protection with its default settings accepts one event up
  to three times (`Webhook.AcceptanceBoundIsAttained`, `Webhook.DefaultsAcceptThreeTimes`).
- The request module says AUTHORIZED requires having gone through WAITING_CONFIRMATION or WAITING_APPROVAL
  "when the Policy Engine required them". Whether it did is no input of the transition table, so the table
  cannot enforce this: it allows three ways past the gates to every request
  (`RequestLifecycle.GateIsSkippable`, `RequestLifecycle.UngatedIff`, `RequestLifecycle.GatePassedIff`).
- `ResolveSecurityContext` reads the clock before it awaits the memberships. So the membership that a context
  rests on was in the table at one instant and inside its window at an earlier one, and there need not be an
  instant at which it was valid (`Authorization.NoInstantOfValidity`, `Authorization.OneInstantIff`).

## Model

| member | source | states |
|---|---|---|
| `GatewayThreshold.BothCompleteIff` | src/okapi_copilot/application/use_cases/process_inbound_message.py:98-181 | Exactly when two prompt deliveries of one provider message can both complete in some interleaving: always if one came without a webhook; with event timestamps τ and τ′, if and only if dedup TTL ≤ distance of τ and τ′ + 2·max_clock_skew + latency. For every configuration, correctly signed webhook, non-blank message and latency |
| `GatewayThreshold.CompletesAtMostOnceIff` | src/okapi_copilot/application/use_cases/process_inbound_message.py:98-181 | The case τ = τ′: deliveries of one event complete at most once in all interleavings if and only if 2·max_clock_skew + latency < dedup TTL |
| `GatewayThreshold.UnhookedCompletesAgain` | src/okapi_copilot/application/use_cases/process_inbound_message.py:101-136 | Without a webhook any number of deliveries of one message completes in some run, for every dedup TTL |
| `GatewayThreshold.CompletionsAreBounded` | src/okapi_copilot/application/use_cases/process_inbound_message.py:124-136 | In every interleaving at most 1 + ⌊(2·skew + latency)/dedup TTL⌋ prompt deliveries of one event complete |
| `GatewayThreshold.CompletionBoundIsAttained` | src/okapi_copilot/application/use_cases/process_inbound_message.py:124-136 | For every configuration, correctly signed webhook, message and latency some reachable state has that many |
| `GatewayRedelivery.RedeliveriesAreBounded` | src/okapi_copilot/application/use_cases/process_inbound_message.py:124-136 | In every interleaving, of the prompt deliveries of one and the same webhook, under one replay key, at most 1 + ⌊(2·skew + latency)/the larger of both TTLs⌋ complete; where the replay key is the dedup key itself, none if the replay TTL exceeds the latency, and otherwise at most 1 + ⌊(2·skew + latency − replay TTL)/the sum of both TTLs⌋ |
| `GatewayRedelivery.RedeliveryBoundIsAttained` | src/okapi_copilot/application/use_cases/process_inbound_message.py:124-136 | For every configuration, correctly signed webhook, message and latency some reachable state has that many |
| `GatewayRedelivery.RedeliveryCompletesIff` | src/okapi_copilot/application/use_cases/process_inbound_message.py:124-136 | So the same webhook can be delivered twice and complete both times exactly when both TTLs fit into 2·skew + latency; where the replay key is the dedup key, when the replay TTL fits into the latency and twice the replay TTL with the dedup TTL into 2·skew + latency |
| `GatewayThreshold.VerificationBoundIsAttained` | src/okapi_copilot/application/use_cases/verify_webhook.py:57-83 | The bound on verifications of one (replay key, timestamp) is attained in a reachable state of the gateway, for every configuration, correctly signed webhook and latency |
| `GatewayTheorems.CompletesAtMostOnce` | src/okapi_copilot/application/use_cases/process_inbound_message.py:102-136 | End to end: in every interleaving, of the prompt webhook deliveries of one provider message at most one completes while the dedup TTL outlasts the distance of their timestamps, 2·skew and the latency together |
| `GatewayTheorems.DefaultsCompleteOnce` | src/okapi_copilot/application/use_cases/process_inbound_message.py:81-136 | With the default skew and dedup TTL that leaves less than 23 h 50 min for the distance of the timestamps and the latency |
| `GatewayThreshold.DefaultsAreADayApart` | src/okapi_copilot/application/use_cases/process_inbound_message.py:89-136 | With the default dedup TTL two completed deliveries of one message are at least 24 hours apart |
| `GatewayThreshold.DefaultsReadmitAfterADay` | src/okapi_copilot/application/use_cases/process_inbound_message.py:89-136 | And some run completes one message twice exactly 24 hours apart |
| `GatewayTheorems.AdmissionsAreSpaced` | src/okapi_copilot/application/use_cases/process_inbound_message.py:124-136 | Two completed deliveries with one dedup key had their dedup calls performed at least the dedup TTL apart, with or without a webhook |
| `GatewayTheorems.AdmittedInWindow` | src/okapi_copilot/application/use_cases/verify_webhook.py:57-83 | A completed webhook delivery had its dedup call performed between timestamp − skew and timestamp + skew + latency |
| `GatewayTheorems.VerificationsAreBounded` | src/okapi_copilot/application/use_cases/verify_webhook.py:60-83 | In every interleaved run, with the guard shared by all replay and dedup calls, one (replay key, timestamp) is let through verification at most 1 + ⌊(2·skew + latency)/TTL⌋ times |
| `GatewayTheorems.NoTransitionIsRefused` | src/okapi_copilot/application/use_cases/process_inbound_message.py:113-179 | In no interleaving does an internal `transition_to` of a message or conversation raise |
| `GatewayTheorems.SuccessMeans` | src/okapi_copilot/application/use_cases/process_inbound_message.py:171-181 | A success has status CONTEXTUALIZED, the conversation's own id, and the request's sender, channel text, timestamp and correlation id; its source was not rejected and its own dedup call was a first occurrence |
| `GatewayTheorems.SuccessIsIdentified` | src/okapi_copilot/application/use_cases/process_inbound_message.py:108-151 | A success has a sender that was found, and content that is not blank |
| `GatewayTheorems.LookupAsksForSender` | src/okapi_copilot/application/use_cases/process_inbound_message.py:139-158 | In every reachable state the conversation is looked up for exactly the channel identity that the identity port answered |
| `GatewayTheorems.RaisedMeans` | src/okapi_copilot/application/use_cases/process_inbound_message.py:102-151 | What each error says is so: the reason of the rejected source, blank content, the message id of a duplicate whose own dedup call was refused, and channel, provider and subject of a sender that was looked up and not found; the first three come before the lookup |
| `GatewayTheorems.VerdictIsCarried` | src/okapi_copilot/application/use_cases/verify_webhook.py:57-83 | A webhook delivery past verification carries its verdict: that of the first check that failed at the clock reading of the check, or else the guard's on its own replay call |
| `GatewayTheorems.StepIsNoted` | src/okapi_copilot/application/use_cases/process_inbound_message.py:112-158 | The clock readings and answers that the trace notes are those that were used and given |
| `GatewayTheorems.OverIsOver` | src/okapi_copilot/application/use_cases/process_inbound_message.py:98-181 | A delivery that is over, however it ended, never changes again |
| `GatewayTheorems.ConversationOfSuccess` | src/okapi_copilot/application/use_cases/process_inbound_message.py:155-169 | The conversation of a success is the one the lookup found, with nothing saved, or an ACTIVE one with the request's tenant, organization and channel, dated from the clock reading of the processing, that this delivery saved |
| `GatewayTheorems.GeneratedIdsAreDistinct` | src/okapi_copilot/application/use_cases/process_inbound_message.py:113-168 | With an id source that does not repeat itself, all ids drawn for messages and new conversations are pairwise distinct, also those of deliveries that raised or lost a port |
| `GatewayTheorems.IssuedIffDrawn` | src/okapi_copilot/application/use_cases/process_inbound_message.py:113-168 | Those are all the ids: what was issued is what some delivery drew |
| `GatewayTheorems.SavedIdsAreDistinct` | src/okapi_copilot/application/use_cases/process_inbound_message.py:159-169 | Every saved conversation has the id its delivery drew for it, and no two saves have the same id |
| `GatewayTheorems.MessageIdIsKept` | src/okapi_copilot/application/use_cases/process_inbound_message.py:113-179 | No step of any delivery changes a message id once drawn: the message has it for as long as its delivery lasts, and when it completes |
| `GatewayTheorems.KeyIsConsumedIff` | src/okapi_copilot/application/use_cases/process_inbound_message.py:129-153 | Port failures aside, the dedup key is consumed exactly by the deliveries that get past the guard, including those that end with an unknown sender |
| `GatewayTheorems.RedeliveryIsTurnedAway` | src/okapi_copilot/application/use_cases/process_inbound_message.py:129-136 | After a first occurrence, whatever came of it, a later call on that key inside the TTL makes its delivery a duplicate |
| `GatewayTheorems.OwnReplayKeyBlocks` | src/okapi_copilot/application/use_cases/verify_webhook.py:77-81 | Replay and dedup share one key space: a webhook whose replay key is its own message's dedup key completes only if the dedup call comes at least the replay TTL after the replay call |
| `GatewayTheorems.SavesAreCounted` | src/okapi_copilot/application/use_cases/process_inbound_message.py:159-169 | The number of saves equals the number of deliveries that saved; nobody saves twice |
| `GatewayTheorems.SavesEqualNewConversations` | src/okapi_copilot/application/use_cases/process_inbound_message.py:155-169 | In a quiet state without port failures there is one save for each completed delivery whose lookup found nothing, and no other |
| `GatewayTheorems.FailureSavesNothing` | src/okapi_copilot/application/use_cases/process_inbound_message.py:102-151 | A delivery that raised has saved no conversation |
| `GatewayInvariant.InvAlways` | src/okapi_copilot/application/use_cases/process_inbound_message.py:98-181 | The inductive invariant of all interleavings: message status by await point, verdicts recorded with the calls that gave them, a log in the order of time, and every call, save and issued id owned by one delivery |
| `GatewayInvariant.NextKeepsInv` | src/okapi_copilot/application/use_cases/process_inbound_message.py:98-181 | Every action of the system (time, arrival, each await answered, each resumption, each port failure) keeps that invariant |
| `GatewayNoninterference.RefusedDeliveryDoesNotMatter` | src/okapi_copilot/application/use_cases/process_inbound_message.py:101-136 | Deleting a delivery none of whose guard calls succeeded, with all its steps, from any run leaves every other delivery at its stage, with its request and ids, and the clock, store, calls, saves and ids as they were; the id source must not give one of its ids to another delivery |
| `GatewayNoninterference.RejectedWebhookDoesNotMatter` | src/okapi_copilot/application/use_cases/verify_webhook.py:60-83 | The same for a webhook that verification rejected, with nothing asked of the id source |
| `GatewayNoninterference.RejectedWebhooksDoNotMatter` | src/okapi_copilot/application/use_cases/verify_webhook.py:60-83 | Deleting every rejected webhook from a run leaves all other deliveries in order at their stages, and the clock, the store and the saved conversations as they were |
| `InboundExecution.StripIsEmptyIff` | src/okapi_copilot/application/use_cases/process_inbound_message.py:108-110 | The content counts as empty exactly when all its characters are whitespace |
| `InboundExecution.SpacesAre` | src/okapi_copilot/application/use_cases/process_inbound_message.py:108-110 | Whitespace is exactly the listed characters |
| `InboundExecution.BeginIsSound` | src/okapi_copilot/application/use_cases/process_inbound_message.py:101-131 | The execution reaches its first await exactly when the source was not rejected and the content is not blank, with the message VALIDATED; it raises the rejection with its reason, or else empty content |
| `InboundExecution.AfterIdentityIsSound` | src/okapi_copilot/application/use_cases/process_inbound_message.py:138-158 | With a sender found the message goes on as IDENTIFIED and the lookup asks for exactly that sender; without one the error names channel, provider and subject |
| `InboundExecution.AfterLookupIsSound` | src/okapi_copilot/application/use_cases/process_inbound_message.py:155-179 | A found conversation completes the execution and is its result; nothing found leads to the save of a new ACTIVE one with the drawn id, dated now |
| `InboundExecution.AfterSaveIsSound` | src/okapi_copilot/application/use_cases/process_inbound_message.py:169-181 | After the save the execution completes with the rebuilt message |
| `InboundExecution.Execution.Start` | src/okapi_copilot/application/use_cases/process_inbound_message.py:101-131 | The coroutine up to its first await, as an object that rebinds its fields, does what the step system's first piece does |
| `InboundExecution.Execution.OnGuard` | src/okapi_copilot/application/use_cases/process_inbound_message.py:132-143 | The same for the resumption with the guard's verdict |
| `InboundExecution.Execution.OnIdentity` | src/okapi_copilot/application/use_cases/process_inbound_message.py:144-158 | The same for the resumption with the sender lookup's answer |
| `InboundExecution.Execution.OnConversation` | src/okapi_copilot/application/use_cases/process_inbound_message.py:159-181 | The same for the resumption with the conversation lookup's answer |
| `InboundExecution.Execution.OnSaved` | src/okapi_copilot/application/use_cases/process_inbound_message.py:169-181 | The same for the resumption after the save |
| `DedupKey.KeyTexts` | src/okapi_copilot/application/use_cases/process_inbound_message.py:125-128 | The key texts of the five channels, spelled out |
| `DedupKey.DecodeInvertsEncode` | src/okapi_copilot/application/use_cases/process_inbound_message.py:125-128 | A decoder recovers channel, provider and message id from the key for every colon-free provider |
| `DedupKey.KeyIsInjective` | src/okapi_copilot/application/use_cases/process_inbound_message.py:125-128 | Among colon-free providers equal keys mean equal triples, whatever the message ids contain |
| `DedupKey.SameKeyIff` | src/okapi_copilot/application/use_cases/process_inbound_message.py:125-128 | Two triples share a key exactly when the channels agree and "provider:id" read the same |
| `DedupKey.KeyIsUniqueIff` | src/okapi_copilot/application/use_cases/process_inbound_message.py:125-128 | A triple shares its key with no other triple at all exactly when neither provider nor message id contains a colon |
| `ReplayGuard.RedisReplayGuard.CheckAndRecord` | src/okapi_copilot/infrastructure/persistence/redis/replay_guard.py:32-37 | Set if absent with expiry: the verdict says whether the key was live, and only a success changes the store |
| `ReplayGuard.RefinesFullHistory` | src/okapi_copilot/infrastructure/persistence/redis/replay_guard.py:32-37 | A call succeeds exactly when no earlier successful call on its key is still within that call's own TTL |
| `ReplayGuard.StoreIsHistory` | src/okapi_copilot/infrastructure/persistence/redis/replay_guard.py:32-37 | The expiring store and the full history agree on which keys are live at every instant |
| `ReplayGuard.SuccessesAreSpaced` | src/okapi_copilot/infrastructure/persistence/redis/replay_guard.py:32-37 | Two successes on a key are at least the first one's TTL apart; refused calls never extend it |
| `ReplayGuard.SuccessesNeedTime` | src/okapi_copilot/infrastructure/persistence/redis/replay_guard.py:32-37 | n successes on a key that each hold it for a gap span at least n − 1 gaps |
| `ReplayGuard.RefusedCallsDoNotMatter` | src/okapi_copilot/infrastructure/persistence/redis/replay_guard.py:32-37 | Dropping any refused calls from a log leaves every other verdict and the store unchanged |
| `ReplayGuard.KeysDoNotInterfere` | src/okapi_copilot/infrastructure/persistence/redis/replay_guard.py:32-37 | Projecting a log onto one key leaves that key's verdicts and liveness unchanged |
| `ReplayGuard.VerdictsAreDetermined` | src/okapi_copilot/infrastructure/persistence/redis/replay_guard.py:32-37 | Two logs of the same calls have the same verdicts |
| `Webhook.SignatureAcceptedIff` | src/okapi_copilot/domain/gateway/webhook_signature.py:25-50 | With hexadecimal digests exactly two texts are accepted, the digest and the digest after "sha256=" or "sha1=", as the algorithm is; comparison raises exactly on text with a character that is not ASCII |
| `Webhook.ValidateEnvelope` | src/okapi_copilot/domain/gateway/webhook_security.py:34-48 | Valid exactly when the timestamp is within the skew of now, bounds included, and the payload is within its limit |
| `Webhook.DefaultLimits` | src/okapi_copilot/domain/gateway/webhook_security.py:21-48 | By default five minutes of skew either way and a payload of 1 000 000 bytes pass, and no more |
| `Webhook.DefaultReplayWindow` | src/okapi_copilot/application/use_cases/verify_webhook.py:45-83 | With the default TTL a recorded key is refused for five minutes, and not at the end of the fifth |
| `Webhook.OutcomeIs` | src/okapi_copilot/application/use_cases/verify_webhook.py:57-83 | Acceptance needs every check, and the reason of a rejection is the first check that fails, in order |
| `Webhook.VerifyWebhook.Execute` | src/okapi_copilot/application/use_cases/verify_webhook.py:57-83 | The use case over the guard object gives that outcome and touches the guard only after all other checks |
| `Webhook.AcceptancesAreBounded` | src/okapi_copilot/application/use_cases/verify_webhook.py:57-83 | Over any run, among any other users of the guard, one (replay key, timestamp) is accepted at most 1 + ⌊(2·skew + latency)/TTL⌋ times |
| `Webhook.AcceptedAtMostOnce` | src/okapi_copilot/application/use_cases/verify_webhook.py:57-83 | At most once when the TTL outlasts 2·skew + latency |
| `Webhook.AcceptanceBoundIsAttained` | src/okapi_copilot/application/use_cases/verify_webhook.py:57-83 | For every configuration, latency and correctly signed request some run, in the order of time, attains the bound |
| `Webhook.DefaultsAcceptThreeTimes` | src/okapi_copilot/application/use_cases/verify_webhook.py:45-83 | With the default skew and TTL and no latency the bound is 3, and some run, in the order of time, accepts one event three times |
| `Webhook.RejectedCallsDoNotMatter` | src/okapi_copilot/application/use_cases/verify_webhook.py:60-83 | Deleting any rejected verifications from a run leaves every remaining outcome unchanged |
| `JwksCache.CacheIsAPublishedList` | src/okapi_copilot/infrastructure/identity/keycloak_identity_provider.py:137-152 | In every interleaving, overwrites out of order included, the cached list was the published one at an instant between its noted time and now |
| `JwksCache.AnswersAreFresh` | src/okapi_copilot/infrastructure/identity/keycloak_identity_provider.py:122-152 | Every answer is that of a list published less than one TTL before the call began, or during the call |
| `JwksCache.MissingMeansAbsent` | src/okapi_copilot/infrastructure/identity/keycloak_identity_provider.py:127-135 | `None` means the key was absent at an instant during the last fetch, which began after the call |
| `JwksCache.PublishedIsFound` | src/okapi_copilot/infrastructure/identity/keycloak_identity_provider.py:122-135 | A key published throughout the call is never reported missing |
| `JwksCache.WithdrawnIsRefused` | src/okapi_copilot/infrastructure/identity/keycloak_identity_provider.py:122-152 | A key withdrawn for good is refused by every call that begins one TTL after its last publication |
| `JwksCache.WithdrawnMayBeAccepted` | src/okapi_copilot/infrastructure/identity/keycloak_identity_provider.py:140-145 | That bound is exact: for every TTL some call one instant earlier still accepts the key |
| `JwksCache.AtMostTwoFetches` | src/okapi_copilot/infrastructure/identity/keycloak_identity_provider.py:122-135 | A call fetches at most twice, and without a fetch it has found the key |
| `JwksCache.FetchesAre` | src/okapi_copilot/infrastructure/identity/keycloak_identity_provider.py:122-145 | Exactly how many requests an answered call sent: it looked at one list, the cached one if that was fresh and else a fetched one, and at a second, fetched one exactly if the first lacks the key; the last list gives the answer |
| `JwksCache.OneRefetchIfWarm` | src/okapi_copilot/infrastructure/identity/keycloak_identity_provider.py:127-135 | A call that found the cache fresh sends one request exactly if the cached list lacks the key, and never two; one that did not sends one or two, and two before it gives up |
| `JwksCache.NoFetchIff` | src/okapi_copilot/infrastructure/identity/keycloak_identity_provider.py:137-145 | A call makes no fetch exactly when the cache is fresh and has the key, and is then answered at once; otherwise its first request goes out at once, forced exactly if the cache is fresh |
| `JwksCache.AnswerIsUsedSo` | src/okapi_copilot/infrastructure/identity/keycloak_identity_provider.py:122-152 | An answer with the key ends the call, and so does the forced fetch; any other answer is followed by the forced one at once |
| `JwksCache.CacheIsWrittenBy` | src/okapi_copilot/infrastructure/identity/keycloak_identity_provider.py:147-152 | Only an answer that comes back writes the cache, with its list and the time noted before its request |
| `JwksCache.CacheCanGoBackIff` | src/okapi_copilot/infrastructure/identity/keycloak_identity_provider.py:137-152 | Exactly when the cache can go back to a list published before the cached one, in some continuation of a reachable state: when the answer to a fetch, of such a list, is still under way |
| `JwksCache.WithdrawnIsAcceptedIff` | src/okapi_copilot/infrastructure/identity/keycloak_identity_provider.py:122-152 | For a key that is not published from now on, a call that begins from now on can still accept it exactly when the cache holds it and is fresh, or an answer under way holds it and its noted time is less than one TTL ago; an earlier call may have been told that the key is missing |
| `JwksCache.CacheMayGoBack` | src/okapi_copilot/infrastructure/identity/keycloak_identity_provider.py:138-151 | An instance: a slow fetch overwrites the answer of a later one, so that a key one call saw withdrawn, never published again, is served to a later call |
| `JwksCache.NotedTimeMayGrow` | src/okapi_copilot/infrastructure/identity/keycloak_identity_provider.py:138-151 | The noted times do not tell: for every TTL over five microseconds a run brings a withdrawn key back into a cache whose noted time grows |
| `JwksCache.FirstWithKidIs` | src/okapi_copilot/infrastructure/identity/keycloak_identity_provider.py:124-126 | The result is the first entry with that kid, and none exactly when there is none |
| `JwksCache.KeycloakIdentityProvider.FindKey` | src/okapi_copilot/infrastructure/identity/keycloak_identity_provider.py:132-135 | The search loop returns that entry |
| `JwksCache.KeycloakIdentityProvider.Begin` | src/okapi_copilot/infrastructure/identity/keycloak_identity_provider.py:122-145 | The adapter up to its first await: a fresh cache with the key answers, a fresh one without it makes the one fetch forced, and without a fresh one the first fetch is not forced; as in the step system |
| `JwksCache.KeycloakIdentityProvider.Resume` | src/okapi_copilot/infrastructure/identity/keycloak_identity_provider.py:147-152 | With a response the adapter caches it under the time noted before the request, and decides as the step system does |
| `SecurityContexts.ValidIffInWindow` | src/okapi_copilot/domain/identity/membership.py:36-41 | A membership is valid exactly when ACTIVE and now is at or after its start and before its end, if it has one |
| `ContextResolution.OutcomeIsCounting` | src/okapi_copilot/application/use_cases/resolve_security_context.py:84-143 | No valid matching membership, exactly one, or several decide between refusal, a context from that very entry, and ambiguity; refusal for lack of any valid membership is told apart; every error names the user, and a refused request its hints |
| `ContextResolution.LoneMatchIsIssued` | src/okapi_copilot/application/use_cases/resolve_security_context.py:84-143 | An ACTIVE row whose window holds now, where the hints point, and the only such row, gets a context from its fields |
| `ContextResolution.IssuedFromMembership` | src/okapi_copilot/application/use_cases/resolve_security_context.py:84-143 | A context is issued only from a listed membership that is valid and where the hints point, and each of its fields comes from that membership, the identity, the request and the clock, with no permissions |
| `ContextResolution.AmbiguityListsMatches` | src/okapi_copilot/application/use_cases/resolve_security_context.py:109-120 | An ambiguity error names the places of exactly the matching memberships, one for each |
| `ContextResolution.OrderDoesNotMatter` | src/okapi_copilot/application/use_cases/resolve_security_context.py:84-122 | Permuting the membership list changes neither the kind of outcome nor the context |
| `ContextResolution.InvalidEntriesDoNotMatter` | src/okapi_copilot/application/use_cases/resolve_security_context.py:84 | Inserting a membership that is not valid, anywhere, changes nothing |
| `ContextResolution.HintsOnlyNarrow` | src/okapi_copilot/application/use_cases/resolve_security_context.py:92-122 | More hints on a successful request keep its membership or refuse; they never lead to another |
| `ContextResolution.SelectableIff` | src/okapi_copilot/application/use_cases/resolve_security_context.py:145-157 | Some hints single out a valid membership exactly when no other valid one is in its tenant and organization, or in its tenant when it names no organization |
| `Authorization.CheckIs` | src/okapi_copilot/domain/policy/authorization_engine.py:37-64 | Allowed exactly when unexpired, in the tenant, in the organization if one is named, with the role if one is required, and with the permission; each denial reason is the first check that fails |
| `Authorization.DecisionIs` | src/okapi_copilot/infrastructure/policy/default_policy_engine.py:62-92 | The engine allows exactly when the context is in force for the resource and holds the permission, denies otherwise; its record names engine, version, instant and context, and as reason the first check that failed |
| `Authorization.InForceRestsOnMembership` | src/okapi_copilot/application/use_cases/resolve_security_context.py:82-143 | A context in force rests on a row that was ACTIVE when it was read and inside its validity window at the clock reading before that, two instants less than one context TTL ago; it ends less than one TTL after that window; and the row was valid when read exactly when the window had not ended in between |
| `Authorization.NoInstantOfValidity` | src/okapi_copilot/application/use_cases/resolve_security_context.py:82-84 | The two instants cannot be made one: for every TTL over one microsecond some context is in force although no row was valid at any instant, because the clock is read before the rows |
| `Authorization.OneInstantIff` | src/okapi_copilot/application/use_cases/resolve_security_context.py:82-143 | Exactly when one instant of validity less than one TTL ago is certain, whatever the table was at other times: when one of the rows that were read was valid at the instant of the read |
| `Authorization.InForceRestsOnOneInstant` | src/okapi_copilot/application/use_cases/resolve_security_context.py:82-143 | There is one such instant whenever no row's window ends between the clock reading and the read of the rows |
| `Authorization.RevocationTakesEffect` | src/okapi_copilot/application/use_cases/resolve_security_context.py:82-143 | Once no ACTIVE row has stood for the tenant (and organization) for one context TTL, no issued context is in force for it |
| `Authorization.StalenessIsAttained` | src/okapi_copilot/application/use_cases/resolve_security_context.py:122-143 | That bound is exact: for every context TTL some context is still in force one instant before it, its membership no longer ACTIVE at any instant after issuance |
| `Authorization.IssuedContextsAreDenied` | src/okapi_copilot/infrastructure/policy/default_policy_engine.py:62-92 | The default engine denies every resolver-issued context, with `permission_absent` exactly while it is in force for the resource |
| `StateMachine.EnsureTransitionAllowed` | src/okapi_copilot/domain/shared/state_machine.py:20-32 | The guard raises exactly on targets the table does not list, a missing entry listing nothing |
| `StateMachine.AmortisedBound` | src/okapi_copilot/domain/shared/state_machine.py:20-32 | For any table: if every transition pays its cost from a potential, except one that may draw a credit, a run costs at most its initial potential plus the credit for each time it drew it |
| `StateMachine.Pump` | src/okapi_copilot/domain/shared/state_machine.py:20-32 | For any table: a cycle can be taken any number of times, with exact length and count |
| `RequestLifecycle.TerminalIffStuck` | src/okapi_copilot/domain/request/request.py:120-129 | A request refuses every transition exactly when it is terminal |
| `RequestLifecycle.WaysIn` | src/okapi_copilot/domain/request/request.py:64-107 | Exactly which states lead to each state |
| `RequestLifecycle.GatesLeadOn` | src/okapi_copilot/domain/request/request.py:51-107 | Through either gate a request can be authorized, executed, verified and completed, or denied |
| `RequestLifecycle.HistoryIsRun` | src/okapi_copilot/domain/request/request.py:109-138 | The versions of a request visit a run of the table and differ only in state and update time |
| `RequestLifecycle.RunLengthBound` | src/okapi_copilot/domain/request/request.py:51-107 | From NEW at most 8 + 4·(VERIFYING → REQUIRES_HUMAN count) transitions |
| `RequestLifecycle.RunLengthAttained` | src/okapi_copilot/domain/request/request.py:51-107 | For every count some run attains it |
| `RequestLifecycle.ExecutingIsAuthorized` | src/okapi_copilot/domain/request/request.py:51-107 | Every EXECUTING is entered from AUTHORIZED |
| `RequestLifecycle.AfterExecuting` | src/okapi_copilot/domain/request/request.py:92-105 | After EXECUTING, a new EXECUTING, AUTHORIZED, CANCELLED, DENIED or EXPIRED comes only after VERIFYING and then REQUIRES_HUMAN; the next EXECUTING is four transitions on, through AUTHORIZED |
| `RequestLifecycle.ExecutionsBounded` | src/okapi_copilot/domain/request/request.py:51-107 | EXECUTING is entered at most once more than there were escalations |
| `RequestLifecycle.GateIsSkippable` | src/okapi_copilot/domain/request/request.py:51-91 | The table allows three ways to AUTHORIZED and then EXECUTING that pass no gate: PLANNING → AUTHORIZED, PLANNING → REQUIRES_HUMAN → AUTHORIZED and UNDERSTANDING → REQUIRES_HUMAN → AUTHORIZED |
| `RequestLifecycle.UngatedIff` | src/okapi_copilot/domain/request/request.py:51-91 | There is no fourth: a run that executes passed no gate exactly when it began in one of those ways |
| `RequestLifecycle.GatePassedIff` | src/okapi_copilot/domain/request/request.py:51-91 | A run that executes went through a gate exactly when its third transition, out of PLANNING, was to one |
| `MessageLifecycle.BuildTransitions` | src/okapi_copilot/domain/messaging/message.py:43-54 | The table builder, as a loop, produces exactly the specified entries for any duplicate-free happy path of length at least two |
| `MessageLifecycle.PathTableIsUnique` | src/okapi_copilot/domain/messaging/message.py:43-54 | Those entries determine the table |
| `MessageLifecycle.AllowedIsBuilt` | src/okapi_copilot/domain/messaging/message.py:33-54 | The ten-state table in force is the one built from the seven-state happy path |
| `MessageLifecycle.RunsAreAttempts` | src/okapi_copilot/domain/messaging/message.py:33-54 | For any such path the runs from its first state are exactly the sequences of attempts: retried prefixes with FAILED and RETRYING after each, then a prefix that may end in FAILED, RETRYING or DEAD_LETTER |
| `MessageLifecycle.SuccessWalksWholePath` | src/okapi_copilot/domain/messaging/message.py:33-54 | A run that ends in the last happy state ends with the whole happy path in order |
| `MessageLifecycle.MessageRunsAreAttempts` | src/okapi_copilot/domain/messaging/message.py:33-54 | The same for the ten-state table: the runs from RECEIVED are exactly the sequences of attempts over the seven happy states |
| `MessageLifecycle.RespondedWalksWholePath` | src/okapi_copilot/domain/messaging/message.py:33-54 | A message that reaches RESPONDED has just gone through all seven happy states in order |
| `MessageLifecycle.RunLengthBound` | src/okapi_copilot/domain/messaging/message.py:33-54 | From RECEIVED at most 8 + 8·(RETRYING → RECEIVED count) transitions |
| `MessageLifecycle.RunLengthAttained` | src/okapi_copilot/domain/messaging/message.py:33-54 | For every count some run attains it |
| `ConversationLifecycle.WaysIn` | src/okapi_copilot/domain/conversation/conversation.py:27-32 | Exactly which states lead to each state; ACTIVE and IDLE conversations can be archived |
| `ConversationLifecycle.RunLengthBound` | src/okapi_copilot/domain/conversation/conversation.py:27-32 | From CREATED at most 3 + 2·(IDLE → ACTIVE count) transitions |
| `ConversationLifecycle.RunLengthAttained` | src/okapi_copilot/domain/conversation/conversation.py:27-32 | For every count some run attains it |

## Left out

- Message authentication, digests, JWT decoding and signature algorithms: HMAC (section 2 of RFC 2104) is an arbitrary function with hexadecimal results, and token verification yields an identity.
- The HTTP application, routers, middleware, error mapping, settings and logging: plumbing.
- Key store and database wire behaviour: a command is performed at one instant, and a fetch that fails leaves the key cache as it was. A command that a caller gave up on is not performed afterwards.
- Clock differences between hosts: there is one clock, and any delay is latency.
- At most one active conversation per sender, and agreement of a reused conversation's tenant with the request's: the code does not decide them. The conversation lookup answers any ACTIVE conversation or nothing.
- The membership port's promise to return only the user's own rows: taken as its contract.
- Confirmation, approval and human outcomes of policy decisions: no engine produces them. `policy_version` is carried and, as in the code, never compared; the engine's `current_policy_version` returns its own field and is not modelled.
- Payload bytes beyond their number, surrogates in secrets, and time zones.
- Authentication strength, channel entities, intents, constraints and users: easy one-function facts.
