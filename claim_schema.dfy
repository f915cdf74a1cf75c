/** The claim ledger record (`UserRewardRequest`): the closed status
    enumeration and its default, the per-reward sub-record, the saga step
    markers and the schema defaults. */
module ClaimSchema {
  import opened Wrappers
  import opened JsStrings
  import opened RewardSchema
  import opened EventSchema

  type RequestId = string
  type UserId = string

  /** The schema's status enumeration. */
  datatype ClaimStatus =
    | PENDING_VALIDATION
    | VALIDATION_FAILED_USER_INACTIVE
    | VALIDATION_FAILED_EVENT_NOT_ACTIVE
    | VALIDATION_FAILED_ALREADY_CLAIMED
    | PENDING_CONDITION_CHECK
    | CONDITION_CHECK_FAILED_EXTERNAL
    | CONDITION_NOT_MET
    | PENDING_INVENTORY_ALLOCATION
    | INVENTORY_ALLOCATION_FAILED_OUT_OF_STOCK
    | INVENTORY_ALLOCATION_FAILED_CONCURRENCY
    | INVENTORY_ALLOCATION_ERROR
    | INVENTORY_ALLOCATED
    | PENDING_REWARD_GRANT
    | REWARD_GRANT_FAILED_EXTERNAL
    | REWARD_GRANT_FAILED_USER_INACTIVE
    | REWARD_PARTIALLY_GRANTED
    | SUCCESS_ALL_GRANTED
    | PENDING_COMPENSATION_INVENTORY
    | COMPENSATED_INVENTORY
    | PENDING_COMPENSATION_REWARD
    | COMPENSATED_REWARD
    | FAILED_ROLLED_BACK
    | COMPENSATION_FAILED_MANUAL_INTERVENTION_REQUIRED

  /** The schema's default status. */
  const DEFAULT_CLAIM_STATUS: ClaimStatus := PENDING_VALIDATION

  /** The stored string of a status. */
  function StatusName(s: ClaimStatus): string {
    match s
    case PENDING_VALIDATION => "PENDING_VALIDATION"
    case VALIDATION_FAILED_USER_INACTIVE => "VALIDATION_FAILED_USER_INACTIVE"
    case VALIDATION_FAILED_EVENT_NOT_ACTIVE => "VALIDATION_FAILED_EVENT_NOT_ACTIVE"
    case VALIDATION_FAILED_ALREADY_CLAIMED => "VALIDATION_FAILED_ALREADY_CLAIMED"
    case PENDING_CONDITION_CHECK => "PENDING_CONDITION_CHECK"
    case CONDITION_CHECK_FAILED_EXTERNAL => "CONDITION_CHECK_FAILED_EXTERNAL"
    case CONDITION_NOT_MET => "CONDITION_NOT_MET"
    case PENDING_INVENTORY_ALLOCATION => "PENDING_INVENTORY_ALLOCATION"
    case INVENTORY_ALLOCATION_FAILED_OUT_OF_STOCK => "INVENTORY_ALLOCATION_FAILED_OUT_OF_STOCK"
    case INVENTORY_ALLOCATION_FAILED_CONCURRENCY => "INVENTORY_ALLOCATION_FAILED_CONCURRENCY"
    case INVENTORY_ALLOCATION_ERROR => "INVENTORY_ALLOCATION_ERROR"
    case INVENTORY_ALLOCATED => "INVENTORY_ALLOCATED"
    case PENDING_REWARD_GRANT => "PENDING_REWARD_GRANT"
    case REWARD_GRANT_FAILED_EXTERNAL => "REWARD_GRANT_FAILED_EXTERNAL"
    case REWARD_GRANT_FAILED_USER_INACTIVE => "REWARD_GRANT_FAILED_USER_INACTIVE"
    case REWARD_PARTIALLY_GRANTED => "REWARD_PARTIALLY_GRANTED"
    case SUCCESS_ALL_GRANTED => "SUCCESS_ALL_GRANTED"
    case PENDING_COMPENSATION_INVENTORY => "PENDING_COMPENSATION_INVENTORY"
    case COMPENSATED_INVENTORY => "COMPENSATED_INVENTORY"
    case PENDING_COMPENSATION_REWARD => "PENDING_COMPENSATION_REWARD"
    case COMPENSATED_REWARD => "COMPENSATED_REWARD"
    case FAILED_ROLLED_BACK => "FAILED_ROLLED_BACK"
    case COMPENSATION_FAILED_MANUAL_INTERVENTION_REQUIRED => "COMPENSATION_FAILED_MANUAL_INTERVENTION_REQUIRED"
  }

  /** The `enum` list of the schema's `status` field, as written there. */
  const SCHEMA_STATUS_NAMES: seq<string> := [
    "PENDING_VALIDATION",
    "VALIDATION_FAILED_USER_INACTIVE",
    "VALIDATION_FAILED_EVENT_NOT_ACTIVE",
    "VALIDATION_FAILED_ALREADY_CLAIMED",
    "PENDING_CONDITION_CHECK",
    "CONDITION_CHECK_FAILED_EXTERNAL",
    "CONDITION_NOT_MET",
    "PENDING_INVENTORY_ALLOCATION",
    "INVENTORY_ALLOCATION_FAILED_OUT_OF_STOCK",
    "INVENTORY_ALLOCATION_FAILED_CONCURRENCY",
    "INVENTORY_ALLOCATION_ERROR",
    "INVENTORY_ALLOCATED",
    "PENDING_REWARD_GRANT",
    "REWARD_GRANT_FAILED_EXTERNAL",
    "REWARD_GRANT_FAILED_USER_INACTIVE",
    "REWARD_PARTIALLY_GRANTED",
    "SUCCESS_ALL_GRANTED",
    "PENDING_COMPENSATION_INVENTORY",
    "COMPENSATED_INVENTORY",
    "PENDING_COMPENSATION_REWARD",
    "COMPENSATED_REWARD",
    "FAILED_ROLLED_BACK",
    "COMPENSATION_FAILED_MANUAL_INTERVENTION_REQUIRED"
  ]

  /** Every status the model can hold (so every status the service assigns)
      is stored as a string of the schema's enumeration. */
  lemma StatusNameInSchema(s: ClaimStatus)
    ensures StatusName(s) in SCHEMA_STATUS_NAMES
  {
  }

  /** The statuses up to INVENTORY_ALLOCATED in declaration order; the prefix
      lemmas below go through the two halves separately. */
  predicate IsEarlyStatus(s: ClaimStatus) {
    || s == PENDING_VALIDATION || s == VALIDATION_FAILED_USER_INACTIVE || s == VALIDATION_FAILED_EVENT_NOT_ACTIVE
    || s == VALIDATION_FAILED_ALREADY_CLAIMED || s == PENDING_CONDITION_CHECK || s == CONDITION_CHECK_FAILED_EXTERNAL
    || s == CONDITION_NOT_MET || s == PENDING_INVENTORY_ALLOCATION || s == INVENTORY_ALLOCATION_FAILED_OUT_OF_STOCK
    || s == INVENTORY_ALLOCATION_FAILED_CONCURRENCY || s == INVENTORY_ALLOCATION_ERROR || s == ClaimStatus.INVENTORY_ALLOCATED
  }

  /** Of the 23 statuses only SUCCESS_ALL_GRANTED starts with "SUCCESS_". */
  lemma SuccessPrefix(s: ClaimStatus)
    ensures StartsWith(StatusName(s), "SUCCESS_") <==> s == SUCCESS_ALL_GRANTED
  {
    if IsEarlyStatus(s) { SuccessPrefixEarly(s); } else { SuccessPrefixLate(s); }
  }

  lemma SuccessPrefixEarly(s: ClaimStatus)
    requires IsEarlyStatus(s)
    ensures StartsWith(StatusName(s), "SUCCESS_") <==> s == SUCCESS_ALL_GRANTED
  {
    match s
    case PENDING_VALIDATION => DiffersAt(StatusName(s), "SUCCESS_", 0);
    case VALIDATION_FAILED_USER_INACTIVE => DiffersAt(StatusName(s), "SUCCESS_", 0);
    case VALIDATION_FAILED_EVENT_NOT_ACTIVE => DiffersAt(StatusName(s), "SUCCESS_", 0);
    case VALIDATION_FAILED_ALREADY_CLAIMED => DiffersAt(StatusName(s), "SUCCESS_", 0);
    case PENDING_CONDITION_CHECK => DiffersAt(StatusName(s), "SUCCESS_", 0);
    case CONDITION_CHECK_FAILED_EXTERNAL => DiffersAt(StatusName(s), "SUCCESS_", 0);
    case CONDITION_NOT_MET => DiffersAt(StatusName(s), "SUCCESS_", 0);
    case PENDING_INVENTORY_ALLOCATION => DiffersAt(StatusName(s), "SUCCESS_", 0);
    case INVENTORY_ALLOCATION_FAILED_OUT_OF_STOCK => DiffersAt(StatusName(s), "SUCCESS_", 0);
    case INVENTORY_ALLOCATION_FAILED_CONCURRENCY => DiffersAt(StatusName(s), "SUCCESS_", 0);
    case INVENTORY_ALLOCATION_ERROR => DiffersAt(StatusName(s), "SUCCESS_", 0);
    case INVENTORY_ALLOCATED => DiffersAt(StatusName(s), "SUCCESS_", 0);
    case _ =>
  }

  lemma SuccessPrefixLate(s: ClaimStatus)
    requires !IsEarlyStatus(s)
    ensures StartsWith(StatusName(s), "SUCCESS_") <==> s == SUCCESS_ALL_GRANTED
  {
    match s
    case PENDING_REWARD_GRANT => DiffersAt(StatusName(s), "SUCCESS_", 0);
    case REWARD_GRANT_FAILED_EXTERNAL => DiffersAt(StatusName(s), "SUCCESS_", 0);
    case REWARD_GRANT_FAILED_USER_INACTIVE => DiffersAt(StatusName(s), "SUCCESS_", 0);
    case REWARD_PARTIALLY_GRANTED => DiffersAt(StatusName(s), "SUCCESS_", 0);
    case SUCCESS_ALL_GRANTED => assert StatusName(s)[..8] == "SUCCESS_";
    case PENDING_COMPENSATION_INVENTORY => DiffersAt(StatusName(s), "SUCCESS_", 0);
    case COMPENSATED_INVENTORY => DiffersAt(StatusName(s), "SUCCESS_", 0);
    case PENDING_COMPENSATION_REWARD => DiffersAt(StatusName(s), "SUCCESS_", 0);
    case COMPENSATED_REWARD => DiffersAt(StatusName(s), "SUCCESS_", 0);
    case FAILED_ROLLED_BACK => DiffersAt(StatusName(s), "SUCCESS_", 0);
    case COMPENSATION_FAILED_MANUAL_INTERVENTION_REQUIRED => ManualNotSuccessPrefix();
    case _ =>
  }

  /** Only FAILED_ROLLED_BACK starts with "FAILED_": the VALIDATION_FAILED_*,
      INVENTORY_ALLOCATION_FAILED_*, REWARD_GRANT_FAILED_* and
      COMPENSATION_FAILED_* values do not. */
  lemma FailedPrefix(s: ClaimStatus)
    ensures StartsWith(StatusName(s), "FAILED_") <==> s == FAILED_ROLLED_BACK
  {
    if IsEarlyStatus(s) { FailedPrefixEarly(s); } else { FailedPrefixLate(s); }
  }

  lemma FailedPrefixEarly(s: ClaimStatus)
    requires IsEarlyStatus(s)
    ensures StartsWith(StatusName(s), "FAILED_") <==> s == FAILED_ROLLED_BACK
  {
    match s
    case PENDING_VALIDATION => DiffersAt(StatusName(s), "FAILED_", 0);
    case VALIDATION_FAILED_USER_INACTIVE => DiffersAt(StatusName(s), "FAILED_", 0);
    case VALIDATION_FAILED_EVENT_NOT_ACTIVE => DiffersAt(StatusName(s), "FAILED_", 0);
    case VALIDATION_FAILED_ALREADY_CLAIMED => DiffersAt(StatusName(s), "FAILED_", 0);
    case PENDING_CONDITION_CHECK => DiffersAt(StatusName(s), "FAILED_", 0);
    case CONDITION_CHECK_FAILED_EXTERNAL => DiffersAt(StatusName(s), "FAILED_", 0);
    case CONDITION_NOT_MET => DiffersAt(StatusName(s), "FAILED_", 0);
    case PENDING_INVENTORY_ALLOCATION => DiffersAt(StatusName(s), "FAILED_", 0);
    case INVENTORY_ALLOCATION_FAILED_OUT_OF_STOCK => DiffersAt(StatusName(s), "FAILED_", 0);
    case INVENTORY_ALLOCATION_FAILED_CONCURRENCY => DiffersAt(StatusName(s), "FAILED_", 0);
    case INVENTORY_ALLOCATION_ERROR => DiffersAt(StatusName(s), "FAILED_", 0);
    case INVENTORY_ALLOCATED => DiffersAt(StatusName(s), "FAILED_", 0);
    case _ =>
  }

  lemma FailedPrefixLate(s: ClaimStatus)
    requires !IsEarlyStatus(s)
    ensures StartsWith(StatusName(s), "FAILED_") <==> s == FAILED_ROLLED_BACK
  {
    match s
    case PENDING_REWARD_GRANT => DiffersAt(StatusName(s), "FAILED_", 0);
    case REWARD_GRANT_FAILED_EXTERNAL => DiffersAt(StatusName(s), "FAILED_", 0);
    case REWARD_GRANT_FAILED_USER_INACTIVE => DiffersAt(StatusName(s), "FAILED_", 0);
    case REWARD_PARTIALLY_GRANTED => DiffersAt(StatusName(s), "FAILED_", 0);
    case SUCCESS_ALL_GRANTED => DiffersAt(StatusName(s), "FAILED_", 0);
    case PENDING_COMPENSATION_INVENTORY => DiffersAt(StatusName(s), "FAILED_", 0);
    case COMPENSATED_INVENTORY => DiffersAt(StatusName(s), "FAILED_", 0);
    case PENDING_COMPENSATION_REWARD => DiffersAt(StatusName(s), "FAILED_", 0);
    case COMPENSATED_REWARD => DiffersAt(StatusName(s), "FAILED_", 0);
    case FAILED_ROLLED_BACK => assert StatusName(s)[..7] == "FAILED_";
    case COMPENSATION_FAILED_MANUAL_INTERVENTION_REQUIRED => ManualNotFailedPrefix();
    case _ =>
  }

  /** Only COMPENSATED_INVENTORY and COMPENSATED_REWARD start with "COMPENSATED_". */
  lemma CompensatedPrefix(s: ClaimStatus)
    ensures StartsWith(StatusName(s), "COMPENSATED_") <==> (s == COMPENSATED_INVENTORY || s == COMPENSATED_REWARD)
  {
    if IsEarlyStatus(s) { CompensatedPrefixEarly(s); } else { CompensatedPrefixLate(s); }
  }

  lemma CompensatedPrefixEarly(s: ClaimStatus)
    requires IsEarlyStatus(s)
    ensures StartsWith(StatusName(s), "COMPENSATED_") <==> (s == COMPENSATED_INVENTORY || s == COMPENSATED_REWARD)
  {
    match s
    case PENDING_VALIDATION => DiffersAt(StatusName(s), "COMPENSATED_", 0);
    case VALIDATION_FAILED_USER_INACTIVE => DiffersAt(StatusName(s), "COMPENSATED_", 0);
    case VALIDATION_FAILED_EVENT_NOT_ACTIVE => DiffersAt(StatusName(s), "COMPENSATED_", 0);
    case VALIDATION_FAILED_ALREADY_CLAIMED => DiffersAt(StatusName(s), "COMPENSATED_", 0);
    case PENDING_CONDITION_CHECK => DiffersAt(StatusName(s), "COMPENSATED_", 0);
    case CONDITION_CHECK_FAILED_EXTERNAL => DiffersAt(StatusName(s), "COMPENSATED_", 2);
    case CONDITION_NOT_MET => DiffersAt(StatusName(s), "COMPENSATED_", 2);
    case PENDING_INVENTORY_ALLOCATION => DiffersAt(StatusName(s), "COMPENSATED_", 0);
    case INVENTORY_ALLOCATION_FAILED_OUT_OF_STOCK => DiffersAt(StatusName(s), "COMPENSATED_", 0);
    case INVENTORY_ALLOCATION_FAILED_CONCURRENCY => DiffersAt(StatusName(s), "COMPENSATED_", 0);
    case INVENTORY_ALLOCATION_ERROR => DiffersAt(StatusName(s), "COMPENSATED_", 0);
    case INVENTORY_ALLOCATED => DiffersAt(StatusName(s), "COMPENSATED_", 0);
    case _ =>
  }

  lemma CompensatedPrefixLate(s: ClaimStatus)
    requires !IsEarlyStatus(s)
    ensures StartsWith(StatusName(s), "COMPENSATED_") <==> (s == COMPENSATED_INVENTORY || s == COMPENSATED_REWARD)
  {
    match s
    case PENDING_REWARD_GRANT => DiffersAt(StatusName(s), "COMPENSATED_", 0);
    case REWARD_GRANT_FAILED_EXTERNAL => DiffersAt(StatusName(s), "COMPENSATED_", 0);
    case REWARD_GRANT_FAILED_USER_INACTIVE => DiffersAt(StatusName(s), "COMPENSATED_", 0);
    case REWARD_PARTIALLY_GRANTED => DiffersAt(StatusName(s), "COMPENSATED_", 0);
    case SUCCESS_ALL_GRANTED => DiffersAt(StatusName(s), "COMPENSATED_", 0);
    case PENDING_COMPENSATION_INVENTORY => DiffersAt(StatusName(s), "COMPENSATED_", 0);
    case COMPENSATED_INVENTORY => assert StatusName(s)[..12] == "COMPENSATED_";
    case PENDING_COMPENSATION_REWARD => DiffersAt(StatusName(s), "COMPENSATED_", 0);
    case COMPENSATED_REWARD => assert StatusName(s)[..12] == "COMPENSATED_";
    case FAILED_ROLLED_BACK => DiffersAt(StatusName(s), "COMPENSATED_", 0);
    case COMPENSATION_FAILED_MANUAL_INTERVENTION_REQUIRED => ManualNotCompensatedPrefix();
    case _ =>
  }

  // The longest status name, against each prefix in turn (one lemma each:
  // the solver handles the long literal better one fact at a time).

  lemma ManualNotSuccessPrefix()
    ensures !StartsWith(StatusName(COMPENSATION_FAILED_MANUAL_INTERVENTION_REQUIRED), "SUCCESS_")
  {
    DiffersAt(StatusName(COMPENSATION_FAILED_MANUAL_INTERVENTION_REQUIRED), "SUCCESS_", 7);
  }

  lemma ManualNotFailedPrefix()
    ensures !StartsWith(StatusName(COMPENSATION_FAILED_MANUAL_INTERVENTION_REQUIRED), "FAILED_")
  {
    var head, tail := "COMPENSATION", "_FAILED_MANUAL_INTERVENTION_REQUIRED";
    assert StatusName(COMPENSATION_FAILED_MANUAL_INTERVENTION_REQUIRED) == head + tail;
    DiffersAt(head + tail, "FAILED_", 0);
  }

  lemma ManualNotCompensatedPrefix()
    ensures !StartsWith(StatusName(COMPENSATION_FAILED_MANUAL_INTERVENTION_REQUIRED), "COMPENSATED_")
  {
    DiffersAt(StatusName(COMPENSATION_FAILED_MANUAL_INTERVENTION_REQUIRED), "COMPENSATED_", 9);
  }

  /** A string that differs from a prefix at some position does not start
      with it. */
  lemma DiffersAt(s: string, p: string, i: nat)
    requires i < |p| && i < |s| && s[i] != p[i]
    ensures !StartsWith(s, p)
  {
    if |p| <= |s| {
      assert s[..|p|][i] == s[i];
    }
  }

  /** The per-reward processing status the claim service writes. */
  datatype GrantStatus =
    | PENDING
    | INVENTORY_ALLOCATED
    | SUCCESS
    | FAILED_OUT_OF_STOCK
    | FAILED_INVENTORY_ERROR
    | FAILED_EXTERNAL
    | ROLLED_BACK_INVENTORY

  function GrantStatusName(g: GrantStatus): string {
    match g
    case PENDING => "PENDING"
    case INVENTORY_ALLOCATED => "INVENTORY_ALLOCATED"
    case SUCCESS => "SUCCESS"
    case FAILED_OUT_OF_STOCK => "FAILED_OUT_OF_STOCK"
    case FAILED_INVENTORY_ERROR => "FAILED_INVENTORY_ERROR"
    case FAILED_EXTERNAL => "FAILED_EXTERNAL"
    case ROLLED_BACK_INVENTORY => "ROLLED_BACK_INVENTORY"
  }

  /** The `enum` the schema declares for the sub-record's `grantStatus`. */
  const SCHEMA_GRANT_STATUS_NAMES: seq<string> := ["PENDING", "SUCCESS", "FAILED", "ROLLED_BACK"]

  /** The schema's grant enumeration admits only two of the statuses the
      service writes. */
  lemma GrantStatusSchemaMismatch(g: GrantStatus)
    ensures GrantStatusName(g) in SCHEMA_GRANT_STATUS_NAMES <==> (g == PENDING || g == SUCCESS)
  {
  }

  /** The `currentSagaStep` markers the service writes. */
  datatype SagaStep =
    | S0_REQUEST_INITIALIZED
    | S1_VALIDATE_USER_EVENT
    | S2_CHECK_CONDITIONS
    | S3_ALLOCATE_INVENTORY
    | S4_GRANT_REWARDS
    | S5_COMPLETED
    | UNKNOWN_ERROR_STEP_AT_EXCEPTION

  /** One per-reward entry: the required snapshot of the reward definition and
      grant status, and the optional failure reason and processing time. */
  datatype ProcessedReward = ProcessedReward(
    rewardDetailsSnapshot: Reward,
    grantStatus: GrantStatus,
    failureReason: Option<string>,
    processedAt: Option<int>)

  /** The copy of the event taken when the claim is created. */
  datatype EventSnapshot = EventSnapshot(
    eventName: string,
    conditions: Option<Conditions>,
    rewards: seq<Reward>)

  /** A ledger record. `processedRewards` is the list the schema declares;
      `rewardsToProcess` is the list the claim service reads and writes. */
  datatype ClaimRequest = ClaimRequest(
    requestId: RequestId,
    userId: UserId,
    eventId: EventId,
    eventSnapshot: Option<EventSnapshot>,
    status: ClaimStatus,
    currentSagaStep: Option<SagaStep>,
    processedRewards: seq<ProcessedReward>,
    rewardsToProcess: seq<ProcessedReward>,
    failureReason: Option<string>,
    retryCount: int,
    rewardsGrantedAt: Option<int>)

  /** A new record with the schema's defaults: status PENDING_VALIDATION,
      `retryCount` 0, an empty `processedRewards` list, and no step, reason or
      grant time. */
  function NewClaimRequest(requestId: RequestId, userId: UserId, eventId: EventId): (r: ClaimRequest)
    ensures r.requestId == requestId && r.userId == userId && r.eventId == eventId
    ensures r.status == DEFAULT_CLAIM_STATUS && r.status == PENDING_VALIDATION
    ensures r.retryCount == 0 && r.processedRewards == [] && r.rewardsToProcess == []
    ensures r.eventSnapshot.None? && r.currentSagaStep.None? && r.failureReason.None? && r.rewardsGrantedAt.None?
  {
    ClaimRequest(requestId, userId, eventId, None, DEFAULT_CLAIM_STATUS, None, [], [], None, 0, None)
  }
}
