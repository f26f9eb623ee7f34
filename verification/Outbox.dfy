/** The notification outbox (backend/app/modules/notifications/service.py): the delivery and
    attempt tables, and each transaction as a total function on them. A row-locked transaction
    is one atomic step; an exception leaves the tables as they were. */
module Outbox {
  import opened Wrappers
  import opened Events

  const RETRY_DELAYS_SECONDS: seq<int> := [0, 60, 300, 1800]
  const CLAIM_TIMEOUT: int := 300

  type Instant = int

  datatype Status = Pending | Sending | RetryWait | Succeeded | Failed
  datatype Trigger = Initial | AutomaticRetry | ManualRetry
  datatype Outcome = Success | RetryableFailure | PermanentFailure | Uncertain

  datatype DeliveryResult = DeliveryResult(
    outcome: Outcome,
    errorCode: Option<string>,
    failureSummary: Option<string>,
    httpStatus: Option<int>,
    providerErrorCode: Option<string>)

  datatype Delivery = Delivery(
    event: Event,
    createdAt: Instant,
    status: Status,
    attemptCount: nat,
    sendRound: nat,
    roundAttemptCount: nat,
    nextAttemptAt: Option<Instant>,
    sentAt: Option<Instant>,
    lastErrorCode: Option<string>,
    lastFailureSummary: Option<string>,
    claimToken: Option<nat>,
    claimedAt: Option<Instant>,
    version: nat)

  datatype Attempt = Attempt(
    trigger: Trigger,
    startedAt: Instant,
    finishedAt: Option<Instant>,
    result: Option<Outcome>,
    httpStatus: Option<int>,
    providerErrorCode: Option<string>,
    failureSummary: Option<string>)

  // The unique key of the attempt table.
  datatype AttemptKey = AttemptKey(delivery: nat, number: nat)

  // A delivery's primary key is its position; rows are never deleted. nextToken stands for uuid4.
  datatype State = State(
    deliveries: seq<Delivery>,
    attempts: map<AttemptKey, Attempt>,
    nextToken: nat)

  const Empty := State([], map[], 0)

  // What a transaction answers; the last six stand for the exceptions of the source.
  datatype Reply =
    | Enqueued(id: nat)
    | Idle
    | Claimed(id: nat, token: nat)
    | Accepted
    | Refused
    | Recovered(count: nat)
    | Requeued(previousVersion: nat)
    | NotFound
    | VersionConflict
    | RetryNotAllowed
    | WrongOutcome
    | Inconsistent
    | DuplicateAttempt

  // ---------- Queries ----------

  function FindByKey(ds: seq<Delivery>, key: EventKey): (r: Option<nat>)
    ensures r.Some? ==> r.value < |ds| && ds[r.value].event.key == key
    ensures r.None? ==> forall i | 0 <= i < |ds| :: ds[i].event.key != key
  {
    if ds == [] then None
    else if ds[|ds| - 1].event.key == key then Some(|ds| - 1)
    else FindByKey(ds[..|ds| - 1], key)
  }

  predicate Claimable(d: Delivery, now: Instant) {
    && d.sentAt.None?
    && (d.status.Pending?
        || (d.status.RetryWait? && d.nextAttemptAt.Some? && d.nextAttemptAt.value <= now))
  }

  // Order by next_attempt_at (nulls first), created_at, id.
  predicate Precedes(a: Delivery, i: nat, b: Delivery, j: nat) {
    if a.nextAttemptAt != b.nextAttemptAt then
      a.nextAttemptAt.None?
      || (b.nextAttemptAt.Some? && a.nextAttemptAt.value < b.nextAttemptAt.value)
    else
      a.createdAt < b.createdAt || (a.createdAt == b.createdAt && i < j)
  }

  // The first claimable row, in that order, among the first n that no other transaction has locked.
  function NextClaim(ds: seq<Delivery>, now: Instant, locked: set<nat>, n: nat): (r: Option<nat>)
    requires n <= |ds|
    ensures r.Some? ==>
              && r.value < n && r.value !in locked && Claimable(ds[r.value], now)
              && forall j: nat | j < n && j != r.value && j !in locked && Claimable(ds[j], now) ::
                   Precedes(ds[r.value], r.value, ds[j], j)
    ensures r.None? ==> forall j: nat | j < n && j !in locked :: !Claimable(ds[j], now)
  {
    if n == 0 then None
    else
      var i := n - 1;
      var best := NextClaim(ds, now, locked, i);
      if i in locked || !Claimable(ds[i], now) then best
      else if best.None? || Precedes(ds[i], i, ds[best.value], best.value) then Some(i)
      else best
  }

  predicate Matches(s: State, id: nat, token: nat) {
    && id < |s.deliveries|
    && s.deliveries[id].status.Sending?
    && s.deliveries[id].claimToken == Some(token)
    && s.deliveries[id].sentAt.None?
  }

  predicate Stale(d: Delivery, now: Instant) {
    d.status.Sending? && d.claimedAt.Some? && d.claimedAt.value <= now - CLAIM_TIMEOUT
  }

  function CurrentKey(d: Delivery, id: nat): AttemptKey {
    AttemptKey(id, d.attemptCount)
  }

  predicate AttemptOpen(d: Delivery, id: nat, attempts: map<AttemptKey, Attempt>) {
    CurrentKey(d, id) in attempts && attempts[CurrentKey(d, id)].result.None?
  }

  // ---------- Row changes ----------

  function NewDelivery(e: Event, now: Instant): Delivery {
    Delivery(e, now, Pending, 0, 1, 0, None, None, None, None, None, None, 1)
  }

  function ClaimedDelivery(d: Delivery, token: nat, now: Instant): Delivery {
    d.(attemptCount := d.attemptCount + 1,
       roundAttemptCount := d.roundAttemptCount + 1,
       status := Sending,
       claimToken := Some(token),
       claimedAt := Some(now),
       nextAttemptAt := None,
       version := d.version + 1)
  }

  function NextTrigger(d: Delivery): Trigger {
    if d.sendRound > 1 && d.roundAttemptCount == 0 then ManualRetry
    else if d.roundAttemptCount == 0 then Initial
    else AutomaticRetry
  }

  function StartedAttempt(d: Delivery, now: Instant): Attempt {
    Attempt(NextTrigger(d), now, None, None, None, None, None)
  }

  function SentDelivery(d: Delivery, now: Instant): Delivery {
    d.(status := Succeeded,
       sentAt := if d.sentAt.None? then Some(now) else d.sentAt,
       nextAttemptAt := None,
       lastErrorCode := None,
       lastFailureSummary := None,
       claimToken := None,
       claimedAt := None,
       version := d.version + 1)
  }

  function SentAttempt(a: Attempt, r: DeliveryResult, now: Instant): Attempt {
    a.(finishedAt := Some(now),
       result := Some(Success),
       httpStatus := r.httpStatus,
       providerErrorCode := r.providerErrorCode)
  }

  predicate WillRetry(d: Delivery, r: DeliveryResult) {
    (r.outcome.RetryableFailure? || r.outcome.Uncertain?)
    && d.roundAttemptCount < |RETRY_DELAYS_SECONDS|
  }

  function FailedDelivery(d: Delivery, r: DeliveryResult, now: Instant): Delivery {
    d.(status := if WillRetry(d, r) then RetryWait else Failed,
       nextAttemptAt :=
         if WillRetry(d, r) then Some(now + RETRY_DELAYS_SECONDS[d.roundAttemptCount]) else None,
       lastErrorCode := r.errorCode,
       lastFailureSummary := r.failureSummary,
       claimToken := None,
       claimedAt := None,
       version := d.version + 1)
  }

  function FailedAttempt(a: Attempt, r: DeliveryResult, now: Instant): Attempt {
    a.(finishedAt := Some(now),
       result := Some(r.outcome),
       httpStatus := r.httpStatus,
       providerErrorCode := r.providerErrorCode,
       failureSummary := r.failureSummary)
  }

  function RequeuedDelivery(d: Delivery): Delivery {
    d.(status := Pending,
       sendRound := d.sendRound + 1,
       roundAttemptCount := 0,
       nextAttemptAt := None,
       claimToken := None,
       claimedAt := None,
       version := d.version + 1)
  }

  // ---------- Transactions ----------

  function Enqueue(s: State, e: Event, now: Instant): (State, Reply) {
    var existing := FindByKey(s.deliveries, e.key);
    if existing.Some? then (s, Enqueued(existing.value))
    else (s.(deliveries := s.deliveries + [NewDelivery(e, now)]), Enqueued(|s.deliveries|))
  }

  function RetryFailed(s: State, id: nat, expectedVersion: nat): (State, Reply) {
    if id >= |s.deliveries| then (s, NotFound)
    else
      var d := s.deliveries[id];
      if d.version != expectedVersion then (s, VersionConflict)
      else if !d.status.Failed? || d.sentAt.Some? then (s, RetryNotAllowed)
      else (s.(deliveries := s.deliveries[id := RequeuedDelivery(d)]), Requeued(d.version))
  }

  function ClaimNext(s: State, now: Instant, locked: set<nat>): (State, Reply) {
    var first := NextClaim(s.deliveries, now, locked, |s.deliveries|);
    if first.None? then (s, Idle)
    else
      var id := first.value;
      var d := s.deliveries[id];
      var key := AttemptKey(id, d.attemptCount + 1);
      if key in s.attempts then (s, DuplicateAttempt)
      else
        (State(s.deliveries[id := ClaimedDelivery(d, s.nextToken, now)],
               s.attempts[key := StartedAttempt(d, now)],
               s.nextToken + 1),
         Claimed(id, s.nextToken))
  }

  function CompleteClaimed(s: State, id: nat, token: nat, r: DeliveryResult, now: Instant): (State, Reply) {
    if !r.outcome.Success? then (s, WrongOutcome)
    else if !Matches(s, id, token) then (s, Refused)
    else
      var d := s.deliveries[id];
      if !AttemptOpen(d, id, s.attempts) then (s, Inconsistent)
      else
        var key := CurrentKey(d, id);
        (s.(deliveries := s.deliveries[id := SentDelivery(d, now)],
            attempts := s.attempts[key := SentAttempt(s.attempts[key], r, now)]),
         Accepted)
  }

  function FailClaimed(s: State, id: nat, token: nat, r: DeliveryResult, now: Instant): (State, Reply) {
    if r.outcome.Success? then (s, WrongOutcome)
    else if !Matches(s, id, token) then (s, Refused)
    else
      var d := s.deliveries[id];
      if !AttemptOpen(d, id, s.attempts) then (s, Inconsistent)
      else
        var key := CurrentKey(d, id);
        (s.(deliveries := s.deliveries[id := FailedDelivery(d, r, now)],
            attempts := s.attempts[key := FailedAttempt(s.attempts[key], r, now)]),
         Accepted)
  }

  const STALE_RESULT := DeliveryResult(
    Uncertain, Some("wecom_result_uncertain"),
    Some("上次发送结果无法确认，将按计划重试。"), None, None)

  predicate Recoverable(ds: seq<Delivery>, i: nat, now: Instant, locked: set<nat>) {
    i < |ds| && i !in locked && Stale(ds[i], now)
  }

  function StaleRows(ds: seq<Delivery>, now: Instant, locked: set<nat>): set<nat> {
    set i: nat | i < |ds| && Recoverable(ds, i, now, locked)
  }

  function RecoveredDeliveries(ds: seq<Delivery>, now: Instant, locked: set<nat>, n: nat): (r: seq<Delivery>)
    requires n <= |ds|
    ensures |r| == |ds|
    ensures forall i | 0 <= i < |ds| ::
              r[i] == if i < n && Recoverable(ds, i, now, locked)
                      then FailedDelivery(ds[i], STALE_RESULT, now) else ds[i]
  {
    seq(|ds|, i requires 0 <= i < |ds| =>
      if i < n && Recoverable(ds, i, now, locked) then FailedDelivery(ds[i], STALE_RESULT, now) else ds[i])
  }

  // The attempt that recovery closes, if k is one.
  predicate Closes(ds: seq<Delivery>, k: AttemptKey, now: Instant, locked: set<nat>, n: nat) {
    k.delivery < n && Recoverable(ds, k.delivery, now, locked)
    && k == CurrentKey(ds[k.delivery], k.delivery)
  }

  function RecoveredAttempts(
    ds: seq<Delivery>, attempts: map<AttemptKey, Attempt>, now: Instant, locked: set<nat>, n: nat)
    : map<AttemptKey, Attempt>
  {
    map k | k in attempts ::
      if Closes(ds, k, now, locked, n) then FailedAttempt(attempts[k], STALE_RESULT, now) else attempts[k]
  }

  // Every stale claim fails at once; one broken ledger aborts the whole transaction.
  function RecoverStaleClaims(s: State, now: Instant, locked: set<nat>): (State, Reply) {
    var stale := StaleRows(s.deliveries, now, locked);
    if exists i | i in stale :: !AttemptOpen(s.deliveries[i], i, s.attempts) then (s, Inconsistent)
    else
      (State(RecoveredDeliveries(s.deliveries, now, locked, |s.deliveries|),
             RecoveredAttempts(s.deliveries, s.attempts, now, locked, |s.deliveries|),
             s.nextToken),
       Recovered(|stale|))
  }

  // ---------- Runs ----------

  datatype Step =
    | EnqueueStep(event: Event, now: Instant)
    | RetryStep(id: nat, expectedVersion: nat)
    | ClaimStep(now: Instant, locked: set<nat>)
    | CompleteStep(id: nat, token: nat, result: DeliveryResult, now: Instant)
    | FailStep(id: nat, token: nat, result: DeliveryResult, now: Instant)
    | RecoverStep(now: Instant, locked: set<nat>)

  function Do(s: State, step: Step): (State, Reply) {
    match step
    case EnqueueStep(e, now) => Enqueue(s, e, now)
    case RetryStep(id, v) => RetryFailed(s, id, v)
    case ClaimStep(now, locked) => ClaimNext(s, now, locked)
    case CompleteStep(id, token, r, now) => CompleteClaimed(s, id, token, r, now)
    case FailStep(id, token, r, now) => FailClaimed(s, id, token, r, now)
    case RecoverStep(now, locked) => RecoverStaleClaims(s, now, locked)
  }

  function Run(s: State, steps: seq<Step>): State
    decreases |steps|
  {
    if steps == [] then s else Run(Do(s, steps[0]).0, steps[1..])
  }
}
