/** NotificationService and the notifier worker as they run: fields assigned step by step,
    rolled back on an exception. Each method is proved to be its transaction in Outbox. */
module OutboxService {
  import opened Wrappers
  import opened Events
  import opened Outbox

  ghost function StaleBelow(stale: set<nat>, n: nat): set<nat> {
    set j | j in stale && j < n
  }

  lemma CountOne(stale: set<nat>, id: nat)
    ensures |StaleBelow(stale, id + 1)| == |StaleBelow(stale, id)| + if id in stale then 1 else 0
  {
    if id in stale {
      assert StaleBelow(stale, id + 1) == StaleBelow(stale, id) + {id};
    } else {
      assert StaleBelow(stale, id + 1) == StaleBelow(stale, id);
    }
  }

  // Recovering row by row from the first row down is recovering all rows at once.
  lemma RecoverOne(s: State, now: Instant, locked: set<nat>, id: nat)
    requires id < |s.deliveries|
    ensures var d := s.deliveries[id];
            var key := CurrentKey(d, id);
            var ds := RecoveredDeliveries(s.deliveries, now, locked, id);
            var ds' := RecoveredDeliveries(s.deliveries, now, locked, id + 1);
            var as' := RecoveredAttempts(s.deliveries, s.attempts, now, locked, id + 1);
            var as0 := RecoveredAttempts(s.deliveries, s.attempts, now, locked, id);
            && ds[id] == d
            && (AttemptOpen(d, id, as0) <==> AttemptOpen(d, id, s.attempts))
            && (Recoverable(s.deliveries, id, now, locked) && AttemptOpen(d, id, s.attempts) ==>
                  ds' == ds[id := FailedDelivery(d, STALE_RESULT, now)]
                  && as' == as0[key := FailedAttempt(as0[key], STALE_RESULT, now)])
            && (!Recoverable(s.deliveries, id, now, locked) ==> ds' == ds && as' == as0)
  {
    var as0 := RecoveredAttempts(s.deliveries, s.attempts, now, locked, id);
    var as' := RecoveredAttempts(s.deliveries, s.attempts, now, locked, id + 1);
    var key := CurrentKey(s.deliveries[id], id);
    if Recoverable(s.deliveries, id, now, locked) && AttemptOpen(s.deliveries[id], id, s.attempts) {
      assert as' == as0[key := FailedAttempt(as0[key], STALE_RESULT, now)];
    }
    if !Recoverable(s.deliveries, id, now, locked) {
      assert as' == as0;
    }
  }

  class NotificationService {
    var deliveries: seq<Delivery>
    var attempts: map<AttemptKey, Attempt>
    var nextToken: nat

    ghost function Tables(): State
      reads this
    {
      State(deliveries, attempts, nextToken)
    }

    constructor ()
      ensures Tables() == Empty
    {
      deliveries, attempts, nextToken := [], map[], 0;
    }

    method EnqueueEvent(e: Event, now: Instant) returns (reply: Reply)
      modifies this
      ensures (Tables(), reply) == Enqueue(old(Tables()), e, now)
    {
      var existing := FindByKey(deliveries, e.key);
      if existing.Some? {
        return Enqueued(existing.value);
      }
      var delivery := NewDelivery(e, now);
      reply := Enqueued(|deliveries|);
      deliveries := deliveries + [delivery];
    }

    method Retry(id: nat, expectedVersion: nat) returns (reply: Reply)
      modifies this
      ensures (Tables(), reply) == RetryFailed(old(Tables()), id, expectedVersion)
    {
      if id >= |deliveries| {
        return NotFound;
      }
      var delivery := deliveries[id];
      if delivery.version != expectedVersion {
        return VersionConflict;
      }
      if !delivery.status.Failed? || delivery.sentAt.Some? {
        return RetryNotAllowed;
      }
      var previousVersion := delivery.version;
      delivery := delivery.(status := Pending);
      delivery := delivery.(sendRound := delivery.sendRound + 1);
      delivery := delivery.(roundAttemptCount := 0);
      delivery := delivery.(nextAttemptAt := None);
      delivery := delivery.(claimToken := None, claimedAt := None);
      delivery := delivery.(version := delivery.version + 1);
      deliveries := deliveries[id := delivery];
      return Requeued(previousVersion);
    }

    method Claim(now: Instant, locked: set<nat>) returns (reply: Reply)
      modifies this
      ensures (Tables(), reply) == ClaimNext(old(Tables()), now, locked)
    {
      var first := NextClaim(deliveries, now, locked, |deliveries|);
      if first.None? {
        return Idle;
      }
      var id := first.value;
      var delivery := deliveries[id];
      var trigger :=
        if delivery.sendRound > 1 && delivery.roundAttemptCount == 0 then ManualRetry
        else if delivery.roundAttemptCount == 0 then Initial
        else AutomaticRetry;
      delivery := delivery.(attemptCount := delivery.attemptCount + 1);
      delivery := delivery.(roundAttemptCount := delivery.roundAttemptCount + 1);
      delivery := delivery.(status := Sending);
      var token := nextToken;
      delivery := delivery.(claimToken := Some(token), claimedAt := Some(now));
      delivery := delivery.(nextAttemptAt := None);
      delivery := delivery.(version := delivery.version + 1);
      var key := AttemptKey(id, delivery.attemptCount);
      if key in attempts {
        return DuplicateAttempt;
      }
      attempts := attempts[key := Attempt(trigger, now, None, None, None, None, None)];
      deliveries := deliveries[id := delivery];
      nextToken := nextToken + 1;
      return Claimed(id, token);
    }

    method Complete(id: nat, token: nat, result: DeliveryResult, now: Instant) returns (reply: Reply)
      modifies this
      ensures (Tables(), reply) == CompleteClaimed(old(Tables()), id, token, result, now)
    {
      if !result.outcome.Success? {
        return WrongOutcome;
      }
      if !Matches(State(deliveries, attempts, nextToken), id, token) {
        return Refused;
      }
      var delivery := deliveries[id];
      var key := CurrentKey(delivery, id);
      if !AttemptOpen(delivery, id, attempts) {
        return Inconsistent;
      }
      var attempt := attempts[key];
      attempt := attempt.(finishedAt := Some(now));
      attempt := attempt.(result := Some(Success));
      attempt := attempt.(httpStatus := result.httpStatus);
      attempt := attempt.(providerErrorCode := result.providerErrorCode);
      delivery := delivery.(status := Succeeded);
      if delivery.sentAt.None? {
        delivery := delivery.(sentAt := Some(now));
      }
      delivery := delivery.(nextAttemptAt := None);
      delivery := delivery.(lastErrorCode := None, lastFailureSummary := None);
      delivery := delivery.(claimToken := None, claimedAt := None);
      delivery := delivery.(version := delivery.version + 1);
      attempts := attempts[key := attempt];
      deliveries := deliveries[id := delivery];
      return Accepted;
    }

    // _apply_failure: closes the current attempt of delivery id.
    method ApplyFailure(id: nat, result: DeliveryResult, now: Instant)
      requires id < |deliveries| && AttemptOpen(deliveries[id], id, attempts)
      modifies this`deliveries, this`attempts
      ensures deliveries == old(deliveries)[id := FailedDelivery(old(deliveries)[id], result, now)]
      ensures var key := CurrentKey(old(deliveries)[id], id);
              attempts == old(attempts)[key := FailedAttempt(old(attempts)[key], result, now)]
    {
      var delivery := deliveries[id];
      var key := CurrentKey(delivery, id);
      var attempt := attempts[key];
      attempt := attempt.(finishedAt := Some(now));
      attempt := attempt.(result := Some(result.outcome));
      attempt := attempt.(httpStatus := result.httpStatus);
      attempt := attempt.(providerErrorCode := result.providerErrorCode);
      attempt := attempt.(failureSummary := result.failureSummary);
      delivery := delivery.(lastErrorCode := result.errorCode, lastFailureSummary := result.failureSummary);
      var retryable := result.outcome.RetryableFailure? || result.outcome.Uncertain?;
      if retryable && delivery.roundAttemptCount < |RETRY_DELAYS_SECONDS| {
        var delay := RETRY_DELAYS_SECONDS[delivery.roundAttemptCount];
        delivery := delivery.(status := RetryWait, nextAttemptAt := Some(now + delay));
      } else {
        delivery := delivery.(status := Failed, nextAttemptAt := None);
      }
      delivery := delivery.(claimToken := None, claimedAt := None);
      delivery := delivery.(version := delivery.version + 1);
      attempts := attempts[key := attempt];
      deliveries := deliveries[id := delivery];
    }

    method Fail(id: nat, token: nat, result: DeliveryResult, now: Instant) returns (reply: Reply)
      modifies this
      ensures (Tables(), reply) == FailClaimed(old(Tables()), id, token, result, now)
    {
      if result.outcome.Success? {
        return WrongOutcome;
      }
      if !Matches(State(deliveries, attempts, nextToken), id, token) {
        return Refused;
      }
      if !AttemptOpen(deliveries[id], id, attempts) {
        return Inconsistent;
      }
      ApplyFailure(id, result, now);
      return Accepted;
    }

    // Walks the stale claims; a broken ledger rolls the whole transaction back.
    method RecoverStale(now: Instant, locked: set<nat>) returns (reply: Reply)
      modifies this
      ensures (Tables(), reply) == RecoverStaleClaims(old(Tables()), now, locked)
    {
      ghost var before := Tables();
      var savedDeliveries, savedAttempts := deliveries, attempts;
      var stale := StaleRows(deliveries, now, locked);
      ghost var n := |deliveries|;
      var recovered := 0;
      var id: nat := 0;
      while id < |deliveries|
        invariant id <= |deliveries| == n && nextToken == before.nextToken
        invariant deliveries == RecoveredDeliveries(before.deliveries, now, locked, id)
        invariant attempts == RecoveredAttempts(before.deliveries, before.attempts, now, locked, id)
        invariant forall j | j in stale && j < id :: AttemptOpen(before.deliveries[j], j, before.attempts)
        invariant recovered == |StaleBelow(stale, id)|
      {
        RecoverOne(before, now, locked, id);
        CountOne(stale, id);
        if id in stale {
          if !AttemptOpen(deliveries[id], id, attempts) {
            assert id in stale && !AttemptOpen(before.deliveries[id], id, before.attempts);
            deliveries, attempts := savedDeliveries, savedAttempts;
            return Inconsistent;
          }
          ApplyFailure(id, STALE_RESULT, now);
          recovered := recovered + 1;
        }
        id := id + 1;
      }
      assert StaleBelow(stale, id) == stale && id == n;
      assert !exists j | j in stale :: !AttemptOpen(before.deliveries[j], j, before.attempts);
      return Recovered(recovered);
    }
  }

  // What the provider's adapter did: it answered, it is misconfigured, or it raised.
  datatype SendOutcome =
    | Answered(result: DeliveryResult)
    | Misconfigured(result: DeliveryResult)
    | Raised

  const UNKNOWN_RESULT := DeliveryResult(
    Uncertain, Some("wecom_delivery_unknown"),
    Some("发送结果无法确认，将按计划重试。"), None, None)

  function Reported(o: SendOutcome): DeliveryResult {
    match o
    case Answered(r) => r
    case Misconfigured(r) => r
    case Raised => UNKNOWN_RESULT
  }

  function Report(id: nat, token: nat, r: DeliveryResult, now: Instant): Step {
    if r.outcome.Success? then CompleteStep(id, token, r, now) else FailStep(id, token, r, now)
  }

  // The steps one pass of the worker takes on tables s; an exception ends it early.
  function PassSteps(s: State, claimedAt: Instant, locked: set<nat>, sent: SendOutcome, completedAt: Instant)
    : seq<Step>
  {
    var recover := RecoverStep(claimedAt, locked);
    var (s1, recovered) := RecoverStaleClaims(s, claimedAt, locked);
    if recovered.Inconsistent? then [recover]
    else
      var claim := ClaimNext(s1, claimedAt, locked).1;
      [recover, ClaimStep(claimedAt, locked)]
      + if claim.Claimed? then [Report(claim.id, claim.token, Reported(sent), completedAt)] else []
  }

  // workers/notifier.py run_once, when nobody else runs between its transactions. The reply is
  // what the last transaction answered.
  method RunOnce(
    service: NotificationService, claimedAt: Instant, locked: set<nat>, sent: SendOutcome, completedAt: Instant)
    returns (reply: Reply)
    modifies service
    ensures service.Tables() == Run(old(service.Tables()), PassSteps(old(service.Tables()), claimedAt, locked, sent, completedAt))
  {
    ghost var s := service.Tables();
    ghost var steps := PassSteps(s, claimedAt, locked, sent, completedAt);
    RunUnfolds(s, steps);
    reply := service.RecoverStale(claimedAt, locked);
    ghost var s1 := service.Tables();
    RunUnfolds(s1, steps[1..]);
    if reply.Inconsistent? {
      return;
    }
    reply := service.Claim(claimedAt, locked);
    ghost var s2 := service.Tables();
    RunUnfolds(s2, steps[2..]);
    if !reply.Claimed? {
      return;
    }
    var id, token := reply.id, reply.token;
    var result: DeliveryResult;
    match sent {
      case Answered(r) => result := r;
      case Misconfigured(r) => result := r;
      case Raised => result := UNKNOWN_RESULT;
    }
    RunUnfolds(Do(s2, Report(id, token, result, completedAt)).0, []);
    assert steps[3..] == [];
    if result.outcome.Success? {
      reply := service.Complete(id, token, result, completedAt);
    } else {
      reply := service.Fail(id, token, result, completedAt);
    }
  }

  lemma RunUnfolds(s: State, steps: seq<Step>)
    ensures Run(s, steps) == if steps == [] then s else Run(Do(s, steps[0]).0, steps[1..])
  {
  }
}
