/** The embedded `Reward` sub-document of an event: its fields and defaults,
    the validators Mongoose applies on save, and the `pre('save')` hook that
    initialises the remaining stock of a new limited reward. */
module RewardSchema {
  import opened Wrappers
  import JsStrings

  type RewardId = string

  /** The free-form `details` object (`Mixed`), kept opaque. */
  type Details = map<string, string>

  datatype RewardType = POINT | ITEM | COUPON | VIRTUAL_CURRENCY

  /** The stock value that means "unlimited". */
  const UNLIMITED: int := -1

  /** A stored reward. `totalStock` is `None` when the stored value is `null`;
      the schema default makes it -1 when it is left out. */
  datatype Reward = Reward(
    id: RewardId,
    rewardType: RewardType,
    rewardName: string,
    details: Details,
    quantityPerUser: int,
    totalStock: Option<int>,
    remainingStock: int)

  /** The claim service's test for a limited-stock reward:
      `totalStock !== -1 && totalStock !== null`. */
  predicate IsLimited(r: Reward) {
    r.totalStock.Some? && r.totalStock.value != UNLIMITED
  }

  /** A reward as supplied by a caller; `None` marks a field that was left out.
      `id` is the ObjectId generated for the new sub-document. */
  datatype RewardInput = RewardInput(
    id: RewardId,
    rewardType: RewardType,
    rewardName: string,
    details: Details,
    quantityPerUser: Option<int>,
    totalStock: Option<int>,
    remainingStock: Option<int>)

  /** Casting an input into a sub-document: `quantityPerUser` defaults to 1,
      `totalStock` and `remainingStock` to -1 (unlimited), and the `trim`
      setter trims `rewardName`. */
  function WithDefaults(input: RewardInput): (r: Reward)
    ensures r.id == input.id && r.rewardType == input.rewardType && r.details == input.details
    ensures r.rewardName == JsStrings.Trim(input.rewardName)
    ensures r.quantityPerUser == (if input.quantityPerUser.Some? then input.quantityPerUser.value else 1)
    ensures r.totalStock == Some(if input.totalStock.Some? then input.totalStock.value else UNLIMITED)
    ensures r.remainingStock == (if input.remainingStock.Some? then input.remainingStock.value else UNLIMITED)
  {
    Reward(
      input.id,
      input.rewardType,
      JsStrings.Trim(input.rewardName),
      input.details,
      match input.quantityPerUser case Some(q) => q case None => 1,
      Some(match input.totalStock case Some(t) => t case None => UNLIMITED),
      match input.remainingStock case Some(s) => s case None => UNLIMITED)
  }

  /** The `pre('save')` hook: on the first save of a reward whose `totalStock`
      is positive and whose `remainingStock` is still -1, the remaining stock
      starts at the total stock. */
  predicate HookApplies(r: Reward, isNew: bool) {
    isNew && r.totalStock.Some? && r.totalStock.value > 0 && r.remainingStock == UNLIMITED
  }

  function PreSave(r: Reward, isNew: bool): (r': Reward)
    ensures HookApplies(r, isNew) ==> r' == r.(remainingStock := r.totalStock.value)
    ensures !HookApplies(r, isNew) ==> r' == r
  {
    if isNew && r.totalStock.Some? && r.totalStock.value > 0 && r.remainingStock == UNLIMITED
    then r.(remainingStock := r.totalStock.value)
    else r
  }

  /** The hook changes only the remaining stock and running it again changes
      nothing more; when it has run on a new reward with positive total stock,
      the remaining stock is no longer the "unlimited" marker. */
  lemma PreSaveSettles(r: Reward, isNew: bool)
    ensures PreSave(r, isNew) == r.(remainingStock := PreSave(r, isNew).remainingStock)
    ensures PreSave(PreSave(r, isNew), isNew) == PreSave(r, isNew)
    ensures isNew && r.totalStock.Some? && r.totalStock.value > 0 ==>
              PreSave(r, isNew).remainingStock != UNLIMITED
  {
  }

  /** The validators run on save: `quantityPerUser` has `min: 1` and
      `rewardName` is required (a required string may not be empty). */
  predicate ValidReward(r: Reward) {
    r.quantityPerUser >= 1 && r.rewardName != ""
  }

  /** A new reward sub-document as saved: defaults, then the hook with
      `isNew`, then the validators (a validation error is not caught by the
      services, so it reaches the client as 500). */
  function NewReward(input: RewardInput): (r: Result<Reward, HttpError>)
    ensures r.Success? <==> ValidReward(PreSave(WithDefaults(input), true))
    ensures r.Success? ==> r.value == PreSave(WithDefaults(input), true)
    ensures r.Failure? ==> r.error == InternalServerError
  {
    var reward := PreSave(WithDefaults(input), true);
    if ValidReward(reward) then Success(reward) else Failure(InternalServerError)
  }

  /** What a newly created reward looks like: left to the defaults it is
      unlimited with one unit per user; given only a positive total stock
      it starts with all of that stock remaining. */
  lemma NewRewardStock(input: RewardInput)
    requires NewReward(input).Success?
    ensures NewReward(input).value.quantityPerUser >= 1
    ensures input.totalStock.None? && input.remainingStock.None? ==>
              NewReward(input).value.totalStock == Some(UNLIMITED) &&
              NewReward(input).value.remainingStock == UNLIMITED &&
              !IsLimited(NewReward(input).value)
    ensures input.totalStock.Some? && input.totalStock.value > 0 && input.remainingStock.None? ==>
              NewReward(input).value.remainingStock == input.totalStock.value
  {
  }
}
