# Reward platform: the claim saga, the event service and user registration

This project models the core of a small reward platform written in NestJS
over MongoDB. It covers three parts: the event server's claim flow, its
event management, and the auth server's user registration.

- **Claim controller.** A user claims the reward of an event with
  `POST /event-claims/:eventId/claim`. The controller checks the gateway
  headers, which are the idempotency key and the user id, roles and name.
  It parses the comma-separated roles header and answers 202 with the key
  and status of the claim record. `GET /event-claims/me` lists the user's
  claims, by default 10 per page, newest first.
- **Claim service.** `EventClaimsService.initiateClaim` is idempotent on the
  key. A new claim record (`UserRewardRequest`) starts at
  `PENDING_VALIDATION` with a snapshot of the event. It then runs through a
  saga of four gated steps:
  - S1 checks that the user and the event are valid and that there is no
    earlier success;
  - S2 checks the event conditions;
  - S3 allocates stock, using a guarded decrement for each limited reward;
  - S4 grants the rewards.

  A failure in S3 or S4 gives back the stock taken in the run through
  `compensateInventory` and ends `FAILED_ROLLED_BACK`. S5 marks a final
  record `S5_COMPLETED`. An error fallback sends a record that is not
  settled to `COMPENSATION_FAILED_MANUAL_INTERVENTION_REQUIRED`.
- **Event service.** `EventsService` creates, lists, reads, updates,
  removes and sets the status of events. Each event embeds its rewards,
  each reward with its stock.
- **User registration.** `UsersService` and `AuthService` register users.
  A username that is taken gives 409, and a user who asks for no role gets
  `['USER']`. `CreateUserDto` is the validated request body.

## How the model is built

The saga is written twice:

- **As pure functions** in the module `ClaimSaga` (`claim_saga.dfy`). The
  record, the ledger (a map from `requestId` to record), the event
  collection, the collaborators and the current time are their inputs.
- **As imperative classes** that update the ledger and the event collection
  in place: `ClaimService.EventClaimsService`, `ClaimLedger.Ledger` and
  `EventStore.EventStore`. Each method's `ensures` equates its result and
  the new state with those functions.

What the saga promises is proved about the functions, in
`saga_properties.dfy` and `stock_accounting.dfy`. Among other things:

- the steps run in order;
- a success means every check passed and every entry was granted;
- a success takes exactly one unit per limited entry;
- an allocation rollback restores the collection;
- stock is never made negative.

The stock accounting is written as a conservation law. The live collection
is always the collection at the start of the run minus the units that the
entries hold. An entry holds a unit while it is `INVENTORY_ALLOCATED`,
`SUCCESS` or `FAILED_EXTERNAL` for a limited reward.

The three external services (user status, condition evaluation, reward
fulfilment) are `Collaborators`, given as functions. The clock is a
parameter `now`. ObjectId validity is a parameter `isValidId`. The id of a
new document and the bcrypt hash of a password are also parameters. The
outcome of the insert of a new claim (`InsertOutcome`) stands for the
duplicate-key race with a concurrent initiation.

## Model

| member | source | states |
|---|---|---|
| ClaimSaga.Validate | event-server/src/event-claims/services/event-claims.service.ts:181-213 | S1 runs only at PENDING_VALIDATION and moves to PENDING_CONDITION_CHECK exactly when the user is active, the event exists, is ACTIVE and in its window, and no successful claim of the user for the event exists; otherwise it stops in one of the three VALIDATION_FAILED_* statuses with a reason; nothing else of the record or the collection changes |
| ClaimSaga.ValidationOrder | event-server/src/event-claims/services/event-claims.service.ts:183-209 | the S1 checks run in the order user, event, earlier success, and the first one that fails decides the status |
| ClaimSaga.EventNotActiveIsNotCurrentlyActive | event-server/src/event-claims/services/event-claims.service.ts:192-193 | the S1 event test is exactly the negation of the schema's `isCurrentlyActive` virtual (ACTIVE and `startDate <= now <= endDate`) |
| ClaimSaga.CheckConditions | event-server/src/event-claims/services/event-claims.service.ts:216-241 | S2 fails CONDITION_CHECK_FAILED_EXTERNAL exactly when the snapshot has no conditions and CONDITION_NOT_MET exactly when the evaluator refuses them; otherwise it routes to PENDING_INVENTORY_ALLOCATION exactly when some snapshot reward is limited and to PENDING_REWARD_GRANT exactly when none is |
| ClaimSaga.OrDefault | event-server/src/event-claims/services/event-claims.service.ts:296 | `reason \|\| fallback`: an existing non-empty reason is kept, otherwise the fallback is used |
| ClaimSaga.AllocateFrom | event-server/src/event-claims/services/event-claims.service.ts:257-291 | the allocation loop keeps the number of entries; what it does to each entry is stated by SagaProperties.AllocationShape and what it does to stock by StockAccounting.AllocationConserves |
| ClaimSaga.CompensateFrom | event-server/src/event-claims/services/event-claims.service.ts:388-418 | compensation keeps the number of entries; its effect is stated by SagaProperties.CompensationShape and StockAccounting.CompensationConserves |
| ClaimSaga.AllocateInventory | event-server/src/event-claims/services/event-claims.service.ts:244-306 | S3 runs only at PENDING_INVENTORY_ALLOCATION; it ends INVENTORY_ALLOCATION_ERROR exactly when the event is gone, FAILED_ROLLED_BACK with a non-empty reason on any other failure, and PENDING_REWARD_GRANT (reason untouched) otherwise |
| ClaimSaga.GrantFrom | event-server/src/event-claims/services/event-claims.service.ts:312-335 | the grant loop keeps the number of entries; its effect is stated by SagaProperties.GrantShape |
| ClaimSaga.GrantRewards | event-server/src/event-claims/services/event-claims.service.ts:309-358 | S4 runs only at PENDING_REWARD_GRANT; it stops exactly when it ends FAILED_ROLLED_BACK, with a non-empty reason and no grant time; otherwise it ends SUCCESS_ALL_GRANTED at `now` with the collection untouched |
| ClaimSaga.IsFinalStatuses | event-server/src/event-claims/services/event-claims.service.ts:361 | the S5 test (`SUCCESS_ALL_GRANTED`, a `FAILED_` or `COMPENSATED_` prefix, `REWARD_PARTIALLY_GRANTED`) holds for exactly five statuses |
| ClaimSaga.Complete | event-server/src/event-claims/services/event-claims.service.ts:361-365 | S5 sets the step to S5_COMPLETED on a final status and changes nothing otherwise |
| ClaimSaga.Saga | event-server/src/event-claims/services/event-claims.service.ts:175-366 | the steps S1 to S5 in order, a stopping step returning before S5; `SagaSettles`, `SagaSkipsSettledRecords`, `SuccessMeansEveryCheckPassed`, `StockAccounting.SagaConserves` and `SuccessTakesOneUnitPerEntry` state what a run does |
| ClaimSaga.RecoverFromUnhandledError | event-server/src/event-claims/services/event-claims.service.ts:367-385 | the fallback writes nothing when the record cannot be re-read (its rewrite is stated by SagaProperties.FallbackSparesOnlySettledRecords) |
| ClaimService.NewRequest | event-server/src/event-claims/services/event-claims.service.ts:83-98 | a new record is PENDING_VALIDATION at step S0 under the key, with the event's snapshot and one PENDING entry per event reward in the event's order, and the schema defaults for the other fields |
| ClaimService.Initiate | event-server/src/event-claims/services/event-claims.service.ts:59-138 | `initiateClaim`: an existing key returns its record, then the id check, the lookup, the insert and the saga; `InitiationIsIdempotent`, `RejectedInitiationWritesNothing`, `AlreadyClaimedKept` and `InitiationKeepsLedgerInvariants` state its behaviour |
| ClaimService.RecoverAfterInitiation | event-server/src/event-claims/services/event-claims.service.ts:119-135 | the outer catch of `initiateClaim`; `SagaProperties.OuterFallbackAgrees` states which records it rewrites and how |
| ClaimService.Matching | event-server/src/event-claims/services/event-claims.service.ts:151-154 | the query keeps exactly the records of the user with the status asked for (any status when none or an empty one is given), and keeps every such record; the order is stated by `MatchingIsFilter` |
| ClaimService.MatchingIsFilter | event-server/src/event-claims/services/event-claims.service.ts:151-164 | the matches keep the order and multiplicity of the input: one record is kept exactly when it matches, and a concatenation's matches are the parts' matches concatenated |
| ClaimService.FindByUserIdSpec | event-server/src/event-claims/services/event-claims.service.ts:140-173 | a missing user id is 400 and a negative skip is 500; otherwise the page is the skip/limit window of the matches, `total` counts all matches, and `totalPages` is `ceil(total / limit)` |
| ClaimService.EventClaimsService.InitiateClaim | event-server/src/event-claims/services/event-claims.service.ts:59-138 | the answer, the new ledger and the new collection are those of `Initiate`: an existing record under the key is returned as is; a malformed event id is 400, a missing event 404; a lost insert race returns the winner's record or 500; otherwise the new record is inserted, run through the saga and re-read; the ledger invariant is kept |
| ClaimService.EventClaimsService.ProcessRewardClaimSaga | event-server/src/event-claims/services/event-claims.service.ts:175-366 | the record returned and the collection left are those of `Saga`, and the ledger holds the final record under its key exactly when some step or S5 wrote it |
| ClaimService.EventClaimsService.RunValidation | event-server/src/event-claims/services/event-claims.service.ts:181-213 | step S1 computes `Validate` and stores the record when the step runs |
| ClaimService.EventClaimsService.RunConditionCheck | event-server/src/event-claims/services/event-claims.service.ts:216-241 | step S2 computes `CheckConditions` and stores the record when the step runs |
| ClaimService.EventClaimsService.RunAllocation | event-server/src/event-claims/services/event-claims.service.ts:244-306 | the allocation loop over the live collection computes `AllocateInventory`, with the guarded decrements and the release of compensation |
| ClaimService.EventClaimsService.RunGrant | event-server/src/event-claims/services/event-claims.service.ts:309-358 | the grant loop and the rollback compute `GrantRewards` |
| ClaimService.EventClaimsService.CompensateInventory | event-server/src/event-claims/services/event-claims.service.ts:388-418 | the loop of `compensateInventory` computes `CompensateFrom` on the entries and the live collection |
| ClaimService.EventClaimsService.RecoverFromError | event-server/src/event-claims/services/event-claims.service.ts:367-385 | the catch block writes back exactly the record `RecoverFromUnhandledError` gives for the stored record, and nothing when there is none |
| ClaimService.EventClaimsService.FindByUserId | event-server/src/event-claims/services/event-claims.service.ts:140-173 | the answer is `FindByUserIdSpec` over the ledger's records in the order given |
| SagaProperties.AllocationShape | event-server/src/event-claims/services/event-claims.service.ts:257-291 | the allocation loop marks entries INVENTORY_ALLOCATED in order, fails at most one entry (FAILED_OUT_OF_STOCK or FAILED_INVENTORY_ERROR) and leaves every later entry and every snapshot unchanged; all succeed exactly when it reports full allocation |
| SagaProperties.CompensationShape | event-server/src/event-claims/services/event-claims.service.ts:391-414 | compensation turns exactly the touched entries (INVENTORY_ALLOCATED, or SUCCESS on a grant rollback) into ROLLED_BACK_INVENTORY and leaves every other entry as it was |
| SagaProperties.CompensationOfUntouched | event-server/src/event-claims/services/event-claims.service.ts:394-397 | compensation of entries none of which is touched changes neither the entries nor the collection |
| SagaProperties.CompensationIsIdempotent | event-server/src/event-claims/services/event-claims.service.ts:391-413 | compensating a second time releases nothing and changes no entry |
| SagaProperties.GrantShape | event-server/src/event-claims/services/event-claims.service.ts:312-335 | the grant loop changes only INVENTORY_ALLOCATED entries, to SUCCESS at `now` or to FAILED_EXTERNAL with the service's reason, and reports full success exactly when every entry ends SUCCESS |
| SagaProperties.GrantFailureRollsBackEveryHeldEntry | event-server/src/event-claims/services/event-claims.service.ts:343-349 | after a grant rollback with the event still present no entry is left INVENTORY_ALLOCATED or SUCCESS |
| SagaProperties.SagaSkipsSettledRecords | event-server/src/event-claims/services/event-claims.service.ts:175-366 | a record at none of the four gates runs through no step: only S5 may mark it, and no stock moves |
| SagaProperties.StepsMoveForward | event-server/src/event-claims/services/event-claims.service.ts:175-358 | each step that runs leaves the status strictly past its own gate, so no step runs twice in one pass |
| SagaProperties.SagaSettles | event-server/src/event-claims/services/event-claims.service.ts:175-366 | every run ends at none of the four gates, with the record's identity and its number of entries unchanged |
| SagaProperties.SagaKeepsSnapshots | event-server/src/event-claims/services/event-claims.service.ts:175-366 | no step changes which reward an entry is for |
| SagaProperties.AllocationKeepsSnapshots | event-server/src/event-claims/services/event-claims.service.ts:257-291 | S3 keeps every entry's reward snapshot |
| SagaProperties.GrantKeepsSnapshots | event-server/src/event-claims/services/event-claims.service.ts:312-335 | S4 keeps every entry's reward snapshot |
| SagaProperties.SuccessGrantsEveryEntry | event-server/src/event-claims/services/event-claims.service.ts:309-357 | a run that ends SUCCESS_ALL_GRANTED has every entry SUCCESS |
| SagaProperties.SuccessMeansEveryCheckPassed | event-server/src/event-claims/services/event-claims.service.ts:181-357 | a run from PENDING_VALIDATION ends SUCCESS_ALL_GRANTED only if the user was active, the event currently active, no earlier success existed and the conditions were present and met, and every entry was granted at `now` |
| SagaProperties.UnlimitedOnlyNeverSucceeds | event-server/src/event-claims/services/event-claims.service.ts:235-338 | an event whose rewards are all unlimited is never claimed successfully: S2 skips S3, so the entries stay PENDING and S4 fails the run |
| SagaProperties.NoRewardsSucceeds | event-server/src/event-claims/services/event-claims.service.ts:235-357 | an event without rewards is claimed successfully, leaving the collection alone, once S1 and S2 pass |
| SagaProperties.InitiationIsIdempotent | event-server/src/event-claims/services/event-claims.service.ts:68-72 | a second request with the same key returns the first answer's record and writes nothing, whoever sends it and whatever the collaborators now answer |
| SagaProperties.RejectedInitiationWritesNothing | event-server/src/event-claims/services/event-claims.service.ts:74-115 | a request refused before its record is written (bad id, missing event, failed insert) leaves the ledger and the collection unchanged |
| SagaProperties.AlreadyClaimedKept | event-server/src/event-claims/services/event-claims.service.ts:200-202 | an earlier success stays visible to the S1 query after a record is written under a new key |
| SagaProperties.InitiationKeepsLedgerInvariants | event-server/src/event-claims/services/event-claims.service.ts:59-138 | initiation keeps every record under its own key and at most one success per user and event |
| SagaProperties.FallbackSparesOnlySettledRecords | event-server/src/event-claims/services/event-claims.service.ts:370-378 | the fallback leaves a record unchanged exactly when its status starts with SUCCESS_ or FAILED_ or is already manual intervention; otherwise it forces manual intervention with the error as reason and the step kept or UNKNOWN_ERROR_STEP_AT_EXCEPTION |
| SagaProperties.OuterFallbackAgrees | event-server/src/event-claims/services/event-claims.service.ts:119-135 | the outer fallback writes nothing for exactly the records the inner one spares, and when the record cannot be re-read it forces the inserted copy to manual intervention |
| StockAccounting.AllocationConserves | event-server/src/event-claims/services/event-claims.service.ts:257-291 | the allocation loop keeps the live collection equal to the start collection minus the units the entries hold |
| StockAccounting.CompensationConserves | event-server/src/event-claims/services/event-claims.service.ts:391-414 | compensation keeps the balance when it looks rewards up in an event that differs from the start only in stock |
| StockAccounting.GrantConserves | event-server/src/event-claims/services/event-claims.service.ts:312-335 | the grant loop keeps the balance without writing stock |
| StockAccounting.AllocationStepConserves | event-server/src/event-claims/services/event-claims.service.ts:244-306 | S3 keeps the balance for entries that hold nothing when it starts |
| StockAccounting.GrantStepConserves | event-server/src/event-claims/services/event-claims.service.ts:309-358 | S4, with its rollback, keeps the balance |
| StockAccounting.SagaConserves | event-server/src/event-claims/services/event-claims.service.ts:175-366 | a whole run keeps the balance for a record whose entries hold nothing at its start |
| StockAccounting.OnlySuccessOrRollbackTouchesStock | event-server/src/event-claims/services/event-claims.service.ts:175-366 | a run that ends neither SUCCESS_ALL_GRANTED nor FAILED_ROLLED_BACK leaves the collection unchanged |
| StockAccounting.AllocationRollbackRestoresStock | event-server/src/event-claims/services/event-claims.service.ts:294-302 | an allocation failure ends with no entry holding stock and the collection as before S3 |
| StockAccounting.AllocationRollbackLeavesNoTrace | event-server/src/event-claims/services/event-claims.service.ts:294-302 | a run rolled back in S3 leaves the collection as it found it |
| StockAccounting.GrantRollbackKeepsFailedGrantUnits | event-server/src/event-claims/services/event-claims.service.ts:326-349 | after a grant rollback with the event present, the only entries still holding stock are FAILED_EXTERNAL ones: the unit of a failed grant is not given back |
| StockAccounting.SuccessTakesOneUnitPerEntry | event-server/src/event-claims/services/event-claims.service.ts:269-357 | a successful run takes exactly one unit of each limited reward per entry for it and changes nothing else in the collection |
| StockAccounting.AllocationKeepsStockNonNegative | event-server/src/event-claims/services/event-claims.service.ts:269-287 | the allocation loop makes no non-negative stock negative and removes no event or reward |
| StockAccounting.CompensationKeepsStockNonNegative | event-server/src/event-claims/services/event-claims.service.ts:402-408 | compensation makes no non-negative stock negative |
| StockAccounting.AllocationStepKeepsStockNonNegative | event-server/src/event-claims/services/event-claims.service.ts:244-306 | S3 makes no non-negative stock negative |
| StockAccounting.GrantStepKeepsStockNonNegative | event-server/src/event-claims/services/event-claims.service.ts:309-358 | S4 makes no non-negative stock negative |
| StockAccounting.SagaKeepsStockNonNegative | event-server/src/event-claims/services/event-claims.service.ts:175-366 | no run makes a non-negative stock negative or loses an event or a reward |
| EventStore.FindRewardIndex | event-server/src/event-claims/services/event-claims.service.ts:259 | `rewards.find` by id gives the first reward with the id, and nothing exactly when no reward has it |
| EventStore.Decrement | event-server/src/event-claims/services/event-claims.service.ts:271-275 | the guarded `$inc: -1`; `DecrementGuarded`, `DecrementKeepsStockNonNegative` and `DecrementThenIncrement` state its behaviour |
| EventStore.Increment | event-server/src/event-claims/services/event-claims.service.ts:405-408 | the unguarded `$inc: +1`; `IncrementUncapped`, `ReleaseCanExceedTotal` and `IncrementKeepsStockNonNegative` state its behaviour |
| EventStore.DecrementGuarded | event-server/src/event-claims/services/event-claims.service.ts:271-275 | the guarded decrement writes exactly when the event exists and its reward has at least one unit; it then takes one unit from that reward only, which stays non-negative |
| EventStore.IncrementUncapped | event-server/src/event-claims/services/event-claims.service.ts:405-408 | the release adds one unit to the first reward with the id, changes nothing else and is not capped |
| EventStore.ReleaseCanExceedTotal | event-server/src/event-claims/services/event-claims.service.ts:403-408 | a reward already at its total stock goes above it when released |
| EventStore.DecrementThenIncrement | event-server/src/event-claims/services/event-claims.service.ts:405-408 | a successful decrement followed by a release of the same reward restores the collection |
| EventStore.DecrementKeepsStockNonNegative | event-server/src/event-claims/services/event-claims.service.ts:271-274 | the guarded decrement makes no non-negative stock negative |
| EventStore.IncrementKeepsStockNonNegative | event-server/src/event-claims/services/event-claims.service.ts:405-407 | the release makes no non-negative stock negative |
| EventStore.EventStore.FindById | event-server/src/event-claims/services/event-claims.service.ts:78 | `findById` returns the stored event, and nothing exactly when none is stored under the id |
| EventStore.EventStore.TryDecrement | event-server/src/event-claims/services/event-claims.service.ts:271-275 | the allocation write updates the collection as `Decrement` does and reports whether it modified a document |
| EventStore.EventStore.Release | event-server/src/event-claims/services/event-claims.service.ts:405-408 | the release write updates the collection as `Increment` does |
| EventStore.EventStore.Save | event-server/src/events/services/event.service.ts:97 | `save()` stores the whole event under its id |
| EventStore.EventStore.Delete | event-server/src/events/services/event.service.ts:101-102 | `deleteOne` removes the event and reports whether one was stored |
| ClaimLedger.TripleIsUnique | event-server/src/event-claims/schemas/user-reward-request.schema.ts:97-100 | in a ledger keyed by `requestId`, two records that agree on (userId, eventId, requestId) are the same record, so the compound index cannot be violated |
| ClaimLedger.SaveKeepsInvariants | event-server/src/event-claims/schemas/user-reward-request.schema.ts:30-31 | writing a record under its own `requestId` keeps the ledger keyed by it, and keeps at most one success per user and event when its status is not SUCCESS_ALL_GRANTED or no other record of that pair is |
| ClaimLedger.Ledger.FindOne | event-server/src/event-claims/services/event-claims.service.ts:68 | `findOne({ requestId })` returns the record stored under the key, or nothing |
| ClaimLedger.Ledger.HasSuccessfulClaim | event-server/src/event-claims/services/event-claims.service.ts:200-202 | the S1 query finds a record exactly when the user has a SUCCESS_ALL_GRANTED record for the event |
| ClaimLedger.Ledger.Save | event-server/src/event-claims/services/event-claims.service.ts:211 | `save()` writes the record under its key and keeps the ledger keyed by `requestId` |
| ClaimSchema.StatusNameInSchema | event-server/src/event-claims/schemas/user-reward-request.schema.ts:42-73 | every status the service writes is stored as one of the declared enumeration strings |
| ClaimSchema.SuccessPrefix | event-server/src/event-claims/services/event-claims.service.ts:372 | of the 23 statuses only SUCCESS_ALL_GRANTED starts with `SUCCESS_` |
| ClaimSchema.FailedPrefix | event-server/src/event-claims/services/event-claims.service.ts:361 | only FAILED_ROLLED_BACK starts with `FAILED_`; the VALIDATION_FAILED_*, *_FAILED_* and COMPENSATION_FAILED_* values do not |
| ClaimSchema.CompensatedPrefix | event-server/src/event-claims/services/event-claims.service.ts:361 | only COMPENSATED_INVENTORY and COMPENSATED_REWARD start with `COMPENSATED_` |
| ClaimSchema.GrantStatusSchemaMismatch | event-server/src/event-claims/schemas/user-reward-request.schema.ts:12-17 | of the seven grant statuses the service writes, only PENDING and SUCCESS are in the enumeration the schema declares for `grantStatus` |
| ClaimSchema.NewClaimRequest | event-server/src/event-claims/schemas/user-reward-request.schema.ts:70-85 | a new record has the schema defaults: PENDING_VALIDATION, `retryCount` 0 and an empty `processedRewards` |
| RewardSchema.WithDefaults | event-server/src/events/schemas/reward.schema.ts:18-31 | casting a reward input gives `quantityPerUser` 1 and `totalStock`, `remainingStock` -1 when left out, and trims `rewardName` |
| RewardSchema.PreSave | event-server/src/events/schemas/reward.schema.ts:36-41 | the hook sets the remaining stock to the total stock exactly on a new reward with positive total stock still at -1, and changes nothing else |
| RewardSchema.PreSaveSettles | event-server/src/events/schemas/reward.schema.ts:36-41 | the hook is idempotent, and after it a new reward with positive total stock is no longer marked unlimited |
| RewardSchema.NewReward | event-server/src/events/schemas/reward.schema.ts:24-41 | a new reward is saved with its defaults and the hook applied, and is refused (500) exactly when `quantityPerUser < 1` or the trimmed name is empty |
| RewardSchema.NewRewardStock | event-server/src/events/schemas/reward.schema.ts:27-41 | a reward left to the defaults is unlimited with one unit per user; one given only a positive total stock starts with all of it remaining |
| EventSchema.ParseEventStatus | event-server/src/events/schemas/event.schema.ts:27-33 | a string is read as a status exactly when it is one of the five enumeration names |
| EventSchema.EventStatusNameRoundTrip | event-server/src/events/schemas/event.schema.ts:27-33 | every status has a name in the enumeration and reading that name gives the status back |
| EventService.NewRewards | event-server/src/events/services/event.service.ts:24 | the supplied rewards become new sub-documents in order, and the save fails exactly when one of them fails its validators |
| EventService.SaveChecked | event-server/src/events/services/event.service.ts:31 | `save()` succeeds exactly when the event passes its validators, otherwise 500 |
| EventService.CreateEvent | event-server/src/events/services/event.service.ts:14-39 | an end date not after the start date is 400 and an id clash 409; a created event is DRAFT, valid, by its creator, with the dates, trimmed name and conditions supplied and new sub-documents for the rewards (none when left out), and is not currently active at any time |
| EventService.MatchingEvents | event-server/src/events/services/event.service.ts:42-45 | the filter keeps exactly the events with the status asked for, and every event unchanged when no status or an empty one is given; the order is stated by `MatchingEventsIsFilter` |
| EventService.MatchingEventsIsFilter | event-server/src/events/services/event.service.ts:42-50 | the matches keep the order and multiplicity of the input: one event is kept exactly when it matches, and a concatenation's matches are the parts' matches concatenated |
| EventService.FindAllSpec | event-server/src/events/services/event.service.ts:41-62 | with page 1 and limit 10 by default, a negative skip is 500; otherwise the page is the window of the matches, `total` counts them and `totalPages` is `ceil(total / limit)` |
| EventService.DefaultEventsPage | event-server/src/events/services/event.service.ts:41-62 | with no arguments the answer is the ten newest events (or all, when fewer), page 1, and `ceil(total / 10)` pages |
| EventService.FindOneSpec | event-server/src/events/services/event.service.ts:64-70 | a malformed id is 500, a missing event 404, otherwise the stored event |
| EventService.UpdateEvent | event-server/src/events/services/event.service.ts:72-98 | the lookup errors come first; when a date is supplied the update is refused with 400 exactly when the resulting end is not after the resulting start; a saved update is the supplied fields over the stored event with `updatedBy` set, the creator kept, and the rewards replaced only when supplied |
| EventService.Applied | event-server/src/events/services/event.service.ts:88-96 | `Object.assign` of the supplied fields, the replaced rewards and `updatedBy`; `UpdateEvent`'s contract states what an update stores |
| EventService.WhitelistIsStatusEnumeration | event-server/src/events/services/event.service.ts:110 | the whitelist of `updateStatus` is exactly the set of names of the schema's status enumeration |
| EventService.UpdateStatusSpec | event-server/src/events/services/event.service.ts:107-117 | the lookup errors come first, then a status outside the whitelist is 400; a valid event is always saved, with only its status and `updatedBy` changed |
| EventService.RemoveSpec | event-server/src/events/services/event.service.ts:100-105 | remove succeeds exactly when the id is well formed and an event is stored under it; otherwise 500 or 404 |
| EventService.WritesKeepDatesOrdered | event-server/src/events/services/event.service.ts:14-117 | if every stored event ends after it starts, so does every event after a create, update, status change or removal |
| EventService.ActivationOpensClaimWindow | event-server/src/events/services/event.service.ts:107-117 | setting ACTIVE keeps the dates, makes the event currently active exactly within its window, and can be repeated without further change |
| EventService.EventsService.Create | event-server/src/events/services/event.service.ts:14-39 | `create` answers `CreateEvent` and stores the event under the new id only on success |
| EventService.EventsService.FindAll | event-server/src/events/services/event.service.ts:41-62 | `findAll` answers `FindAllSpec` over the events in the order given and writes nothing |
| EventService.EventsService.FindOne | event-server/src/events/services/event.service.ts:64-70 | `findOne` answers `FindOneSpec` |
| EventService.EventsService.Update | event-server/src/events/services/event.service.ts:72-98 | `update` answers `UpdateEvent` and stores the updated event only on success |
| EventService.EventsService.Remove | event-server/src/events/services/event.service.ts:100-105 | `remove` answers `RemoveSpec` and removes the event only on success |
| EventService.EventsService.UpdateStatus | event-server/src/events/services/event.service.ts:107-117 | `updateStatus` answers `UpdateStatusSpec` and stores the event only on success |
| ClaimsController.TrimAll | event-server/src/event-claims/controllers/event-claims.controller.ts:76 | the map trims every piece and keeps their number and order |
| ClaimsController.DropEmpty | event-server/src/event-claims/controllers/event-claims.controller.ts:77 | the filter keeps only non-empty pieces and every non-empty piece, and the list unchanged when no piece is empty; the order is stated by `DropEmptyIsFilter` |
| ClaimsController.DropEmptyIsFilter | event-server/src/event-claims/controllers/event-claims.controller.ts:77 | the kept pieces keep their order and multiplicity: one piece is kept exactly when non-empty, and a concatenation's kept pieces are the parts' kept pieces concatenated |
| ClaimsController.ParseRoles | event-server/src/event-claims/controllers/event-claims.controller.ts:74-77 | split on commas, trim each piece, drop the empty ones; `ParsedRolesAreRoleNames`, `NoRolesWhenAllBlank` and `ParseRolesOfJoin` state its behaviour |
| ClaimsController.ParsedRolesAreRoleNames | event-server/src/event-claims/controllers/event-claims.controller.ts:74-77 | every role read from the header is non-empty, trimmed and free of commas |
| ClaimsController.NoRolesWhenAllBlank | event-server/src/event-claims/controllers/event-claims.controller.ts:74-82 | the header yields no role exactly when every comma-separated piece is blank |
| ClaimsController.ParseRolesOfJoin | event-server/src/event-claims/controllers/event-claims.controller.ts:74-77 | reading the header the gateway builds with `roles.join(',')` gives back the roles, when each is a well-formed role name |
| ClaimsController.CheckClaimHeaders | event-server/src/event-claims/controllers/event-claims.controller.ts:64-82 | a missing or empty idempotency key is refused first, then any missing user header, then a roles header without roles; otherwise the key, id, name and parsed roles are passed on |
| ClaimsController.GatewayHeadersAccepted | event-server/src/event-claims/controllers/event-claims.controller.ts:64-82 | headers as the gateway sends them for a user with non-empty values and well-formed roles pass the checks and yield exactly that user |
| ClaimsController.ClaimResponseOf | event-server/src/event-claims/controllers/event-claims.controller.ts:101-112 | no record is 400; otherwise the 202 answer carries the fixed message, the record's key and its status string, which is one of the schema's |
| ClaimsController.ClaimRewardSpec | event-server/src/event-claims/controllers/event-claims.controller.ts:53-113 | refused headers answer 400, otherwise `initiateClaim`'s result is shaped into the answer; `ClaimAnswerNamesKey` states its behaviour |
| ClaimsController.ClaimAnswerNamesKey | event-server/src/event-claims/controllers/event-claims.controller.ts:91-112 | refused headers write nothing; an accepted answer names the key it was sent with; a newly created claim is answered in a settled status |
| ClaimsController.ClaimsQueryOf | event-server/src/event-claims/controllers/event-claims.controller.ts:121-139 | page 1, limit 10 and `createdAt` descending unless given; a page or limit the pipe refuses, or a missing user id, is 400 |
| ClaimsController.IntQuery | event-server/src/event-claims/controllers/event-claims.controller.ts:124-125 | `DefaultValuePipe` then `ParseIntPipe`: an absent or non-numeric parameter gives the default, a whole number itself, and anything else 400 |
| ClaimsController.DefaultClaimsPage | event-server/src/event-claims/controllers/event-claims.controller.ts:121-150 | with only the user header the answer is the first ten of the user's records, their total, page 1 and `ceil(total / 10)` pages |
| ClaimsController.EventClaimsController.ClaimReward | event-server/src/event-claims/controllers/event-claims.controller.ts:53-113 | the handler answers and writes exactly as the header checks followed by `initiateClaim` do, and keeps the ledger invariant |
| ClaimsController.EventClaimsController.GetMyClaims | event-server/src/event-claims/controllers/event-claims.controller.ts:121-151 | the handler answers the parameter errors, or else `findByUserId` with the defaulted parameters |
| Paging.TotalPages | event-server/src/events/services/event.service.ts:60 | `Math.ceil(total / limit)` is the least number of pages of `limit` that cover `total` for a positive limit, and not an integer for limit 0 |
| Paging.LimitCap | event-server/src/events/services/event.service.ts:53 | `.limit(0)` means no limit and a negative limit caps at its absolute value |
| Paging.Window | event-server/src/events/services/event.service.ts:47-54 | a negative skip is refused with 500; otherwise the window is the matches from `skip` on, cut at the limit |
| Paging.PagesEndAtTotalPages | event-server/src/event-claims/services/event-claims.service.ts:156-172 | for a positive limit and a page from 1 on, a page holds matches exactly when it is at most `totalPages`, and every page before the last is full |
| UserRegistry.RolesOrDefault | auth-server/src/users/service/users.service.ts:25 | the roles asked for when there are any, otherwise `['USER']` |
| UserRegistry.FindByUsername | auth-server/src/auth/service/auth.service.ts:33-35 | a user is found exactly when one has the trimmed username, and it is one of the stored users with that name (`findOneByUsername` of both services) |
| UserRegistry.FindById | auth-server/src/auth/service/auth.service.ts:37-40 | a malformed id is 500; otherwise a user is found exactly when one is stored under the id (`findOneById` of both services) |
| UserRegistry.CreateUser | auth-server/src/auth/service/auth.service.ts:14-31 | a taken (trimmed) username is exactly the 409 case; a created user is active with the new id, the trimmed non-empty username, the hashed password and the roles or `['USER']`; the other failures are 500 (`create` of both services) |
| UserRegistry.CreateKeepsUsersUnique | auth-server/src/users/service/users.service.ts:14-28 | registration keeps usernames and ids unique, and both lookups then find the new user |
| UserRegistry.RegisterTwiceConflicts | auth-server/src/users/service/users.service.ts:17-20 | registering the same trimmed username a second time is 409, whatever its id and hash |
| UserRegistry.UsersService.Create | auth-server/src/users/service/users.service.ts:14-28 | `create` answers `CreateUser`, appends the user only on success and keeps usernames and ids unique |
| UserRegistry.UsersService.FindOneByUsername | auth-server/src/users/service/users.service.ts:30-32 | `findOneByUsername` answers `FindByUsername` |
| UserRegistry.UsersService.FindOneById | auth-server/src/users/service/users.service.ts:34-36 | `findOneById` answers `FindById` |
| CreateUserValidation.StringViolations | auth-server/src/users/dto/create-user.dto.ts:13-24 | each rule of a required string property fails exactly in its own case (missing; empty; too short as validator.js's `isLength` counts, in code points with U+FE0E and U+FE0F counting as nothing; not alphanumeric) |
| CreateUserValidation.RolesViolations | auth-server/src/users/dto/create-user.dto.ts:26-35 | `roles` left out fails nothing; given, it fails ArrayNotEmpty exactly when empty and IsIn exactly when some element is not a known role |
| CreateUserValidation.ValidBodies | auth-server/src/users/dto/create-user.dto.ts:12-36 | a body passes exactly when the username is alphanumeric and at least 4 long, the password at least 8 long as `isLength` counts, and the roles, if given, a non-empty list of known names |
| CreateUserValidation.EmptyBodyViolations | auth-server/src/users/dto/create-user.dto.ts:13-24 | an empty body fails every rule of both required properties and none of `roles` |
| CreateUserValidation.ValidatorLength | auth-server/src/users/dto/create-user.dto.ts:15-23 | the length `@MinLength` compares is the number of code points less the number of U+FE0E and U+FE0F selectors |
| CreateUserValidation.FourEmojiPasswordTooShort | auth-server/src/users/dto/create-user.dto.ts:23 | a password of four emoji (eight UTF-16 units) still fails `@MinLength(8)` |
| CreateUserValidation.ValidateCreateUser | auth-server/src/users/dto/create-user.dto.ts:12-36 | the pipe answers 400 exactly when some rule fails and otherwise passes the three fields on |
| CreateUserValidation.AlphanumericIsTrimmed | auth-server/src/users/dto/create-user.dto.ts:16-18 | an alphanumeric username is left unchanged by the schema's trim |
| CreateUserValidation.AcceptedBodyIsStoredAsSent | auth-server/src/users/dto/create-user.dto.ts:12-36 | a body the pipe accepts is stored with its username unchanged and its roles (each known) or `['USER']`, failing only with 409 or on an id clash |

## Where the code differs from the intended behaviour

The model follows the code in each of these cases.

- **Two entry lists.** The schema declares `processedRewards`, but the
  service reads and writes `rewardsToProcess`, a field the schema does not
  declare. The record carries both. The model assumes that the undeclared
  `rewardsToProcess` survives the document constructor and `save()`.
  Mongoose's strict mode, which would drop it, is not modelled.
- **Grant-status enumeration.** The schema allows `grantStatus` to be
  PENDING, SUCCESS, FAILED or ROLLED_BACK. The service writes seven other
  values, and only PENDING and SUCCESS are among the four
  (`ClaimSchema.GrantStatusSchemaMismatch`).
- **Unlimited-only events.** An event whose rewards are all unlimited is
  never claimed successfully. S2 skips S3, so the entries are never
  allocated, and S4 fails the run (`SagaProperties.UnlimitedOnlyNeverSucceeds`).
- **Failed grants keep their stock.** A reward whose grant failed
  (`FAILED_EXTERNAL`) is not released on rollback. Its unit stays taken
  (`StockAccounting.GrantRollbackKeepsFailedGrantUnits`).
- **Uncapped release.** The release is an uncapped `$inc: +1`, so a
  remaining stock can go above `totalStock` (`EventStore.ReleaseCanExceedTotal`).
- **S3 status overwritten.** S3 assigns INVENTORY_ALLOCATION_FAILED_OUT_OF_STOCK
  and then overwrites it with FAILED_ROLLED_BACK before saving. A record
  rolled back in S3 or S4 returns before S5, so it keeps S3 or S4 as its
  step.
- **`isCurrentlyActive` in S1.** S1 calls `isUserActive` without the
  schema's virtual and uses its own test of the event window, which is its
  exact negation (`ClaimSaga.EventNotActiveIsNotCurrentlyActive`).
- **No unique `eventName`.** The event schema has no unique index on
  `eventName`, so `create` answers 409 only on an id clash.

## Left out

- **Concurrency.** Concurrent saga runs and concurrent initiations are not
  modelled. A lost insert race is the `DuplicateKey` outcome, with the
  winner's record as an input. The guarded decrement is atomic.
- **Positional update.** The `'rewards._id'` / `rewards.$` update matches
  the first reward with the id, as `find` does. The filter's separate
  `remainingStock >= 1` test on any array element (no `$elemMatch`) is
  modelled as a test on that same reward.
- **Collaborators.** The mock collaborators (`isUserActive`,
  `checkConditions`, `grantReward`) are total functions given as inputs.
  The user's status may differ between S1 and each grant. Their latency and
  their failures as exceptions are not modelled.
- **Clock.** `new Date()` is the parameter `now`. Dates are millisecond
  integers, and invalid dates (`NaN`) are not modelled.
- **Exceptions.** An exception thrown inside a step is not modelled. The
  catch blocks are separate operations on the record as last saved
  (`RecoverFromUnhandledError`, `RecoverAfterInitiation`).
- **Messages.** The Korean messages of errors and failure reasons are
  replaced by English reasons. Only their being non-empty matters. HTTP
  errors are their status codes.
- **Logging.** Logging is left out.
- **Response shaping.** The `select` and `populate` projection of
  `findByUserId` is left out.
- **Sort order.** The sort order (`createdAt` or the requested field) is an
  input list of keys. How documents compare is not modelled.
- **ObjectId validity.** ObjectId validity is the parameter `isValidId`. The
  id of a new document is a parameter.
- **Passwords.** bcrypt hashing in the user schema's `pre('save')` hook is
  the parameter `hashed`. `comparePassword` is not part of this model.
- **Query parameters.** The global validation pipe's conversion of query
  strings is the `NumericQuery` datatype. Number parsing is not modelled.
- **JSON values.** `conditions` and `details` are opaque string maps. Their
  content only reaches the collaborators.
- **Event DTOs.** The class-validator rules of `CreateEventDto` and
  `UpdateEventDto` are not part of this model. The services receive their
  fields as typed values.
- **Timestamps and audit fields.** The `createdAt`/`updatedAt` timestamps,
  `compensatingActionsLog` and `retryCount` updates are left out. The
  record keeps `retryCount` at its default.
- **AuthService.** It is modelled by the `UserRegistry.UsersService` class,
  because its three methods do exactly what those of `UsersService` do.
- **Final re-read.** The re-read at the end of `initiateClaim` can return
  `null` only if the record were deleted meanwhile. Deletion is not
  modelled, so the controller's `!requestDocument` guard is unreachable
  there.
- ClaimSaga.AllocateFrom: its own contract states only that the entry
  count is kept. Its per-entry effect is stated by `SagaProperties.AllocationShape`
  and its stock effect by `StockAccounting.AllocationConserves`.
- ClaimSaga.CompensateFrom: its own contract states only that the entry
  count is kept. Its effect is stated by `SagaProperties.CompensationShape`
  and `StockAccounting.CompensationConserves`.
- ClaimSaga.GrantFrom: its own contract states only that the entry count is
  kept. Its effect is stated by `SagaProperties.GrantShape` and
  `StockAccounting.GrantConserves`.
- **Null remaining stock.** `remainingStock` is an integer. A limited
  reward whose `remainingStock` is `null`, which S3's `typeof … === 'number'`
  guard fails as out of stock, cannot be represented.
- **Lone surrogates.** Strings are sequences of Unicode scalar values. A
  string holding an unpaired UTF-16 surrogate cannot be represented, so
  `isLength` is the code-point count less the variation selectors.
- ClaimSaga.RecoverFromUnhandledError: its own contract states only when it
  writes nothing. The rewrite is stated by
  `SagaProperties.FallbackSparesOnlySettledRecords`.
