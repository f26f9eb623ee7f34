/** The attempt ledger: what every outbox transaction keeps, whatever order the workers
    and the owners run in. */
module OutboxLedger {
  import opened Wrappers
  import opened Events
  import opened Outbox

  // ---------- Counting a delivery's first n attempts ----------

  function FinishedCount(attempts: map<AttemptKey, Attempt>, i: nat, n: nat): nat {
    if n == 0 then 0
    else
      FinishedCount(attempts, i, n - 1)
      + if AttemptKey(i, n) in attempts && attempts[AttemptKey(i, n)].result.Some? then 1 else 0
  }

  function ManualCount(attempts: map<AttemptKey, Attempt>, i: nat, n: nat): nat {
    if n == 0 then 0
    else
      ManualCount(attempts, i, n - 1)
      + if AttemptKey(i, n) in attempts && attempts[AttemptKey(i, n)].trigger.ManualRetry? then 1 else 0
  }

  // The place of attempt n in its retry round, counting from the attempt that opened the round.
  function RoundPosition(attempts: map<AttemptKey, Attempt>, i: nat, n: nat): nat {
    if n == 0 then 0
    else if AttemptKey(i, n) in attempts && attempts[AttemptKey(i, n)].trigger.AutomaticRetry? then
      RoundPosition(attempts, i, n - 1) + 1
    else 1
  }

  // ---------- The invariant of one delivery ----------

  ghost predicate Numbered(d: Delivery, i: nat, attempts: map<AttemptKey, Attempt>) {
    && (forall n: nat :: AttemptKey(i, n) in attempts <==> 1 <= n <= d.attemptCount)
    && (forall n: nat | 1 <= n <= d.attemptCount ::
          var a := attempts[AttemptKey(i, n)];
          && (a.result.Some? <==> a.finishedAt.Some?)
          && (a.result.None? <==> n == d.attemptCount && d.status.Sending?))
  }

  ghost predicate Leased(d: Delivery) {
    && (d.claimToken.Some? <==> d.status.Sending?)
    && (d.claimedAt.Some? <==> d.status.Sending?)
    && (d.sentAt.Some? <==> d.status.Succeeded?)
    && (d.nextAttemptAt.Some? <==> d.status.RetryWait?)
  }

  ghost predicate InRounds(d: Delivery) {
    && d.sendRound >= 1
    && d.roundAttemptCount <= |RETRY_DELAYS_SECONDS|
    && (d.status.Pending? <==> d.roundAttemptCount == 0)
    && (d.status.RetryWait? ==> d.roundAttemptCount < |RETRY_DELAYS_SECONDS|)
    && d.sendRound - 1 + (if d.roundAttemptCount > 0 then 1 else 0) <= d.attemptCount
    && d.roundAttemptCount <= d.attemptCount <= 4 * (d.sendRound - 1) + d.roundAttemptCount
  }

  ghost predicate Versioned(d: Delivery, i: nat, attempts: map<AttemptKey, Attempt>) {
    d.version == 1 + d.attemptCount + FinishedCount(attempts, i, d.attemptCount) + (d.sendRound - 1)
  }

  function ManualAttempts(d: Delivery): int {
    d.sendRound - 1 - (if d.status.Pending? && d.sendRound > 1 then 1 else 0)
  }

  ghost predicate Triggered(d: Delivery, i: nat, attempts: map<AttemptKey, Attempt>) {
    && (forall n: nat | AttemptKey(i, n) in attempts ::
          attempts[AttemptKey(i, n)].trigger.Initial? <==> n == 1)
    && ManualCount(attempts, i, d.attemptCount) == ManualAttempts(d)
    && (d.roundAttemptCount > 0 ==>
          RoundPosition(attempts, i, d.attemptCount) == d.roundAttemptCount)
  }

  // Attempt n is an automatic retry that waited the delay of its place in the round.
  ghost predicate Waited(i: nat, n: nat, attempts: map<AttemptKey, Attempt>) {
    && n >= 2
    && AttemptKey(i, n) in attempts
    && AttemptKey(i, n - 1) in attempts
    && var last := attempts[AttemptKey(i, n - 1)];
    var k := RoundPosition(attempts, i, n - 1);
    && last.finishedAt.Some?
    && last.result in {Some(RetryableFailure), Some(Uncertain)}
    && 1 <= k < |RETRY_DELAYS_SECONDS|
    && attempts[AttemptKey(i, n)].startedAt >= last.finishedAt.value + RETRY_DELAYS_SECONDS[k]
  }

  ghost predicate Spaced(d: Delivery, i: nat, attempts: map<AttemptKey, Attempt>) {
    && (forall n: nat | AttemptKey(i, n) in attempts ::
          attempts[AttemptKey(i, n)].trigger.AutomaticRetry? ==> Waited(i, n, attempts))
    && (d.status.RetryWait? ==>
          && CurrentKey(d, i) in attempts
          && var last := attempts[CurrentKey(d, i)];
          && last.finishedAt.Some?
          && last.result in {Some(RetryableFailure), Some(Uncertain)}
          && d.roundAttemptCount < |RETRY_DELAYS_SECONDS|
          && d.nextAttemptAt == Some(last.finishedAt.value + RETRY_DELAYS_SECONDS[d.roundAttemptCount]))
  }

  ghost predicate SucceedsLast(d: Delivery, i: nat, attempts: map<AttemptKey, Attempt>) {
    && (forall n: nat | AttemptKey(i, n) in attempts ::
          attempts[AttemptKey(i, n)].result == Some(Success) <==> n == d.attemptCount && d.status.Succeeded?)
    && (d.status.Succeeded? ==>
          CurrentKey(d, i) in attempts && d.sentAt == attempts[CurrentKey(d, i)].finishedAt)
  }

  // A delivery is given up only after a permanent failure, or after the fourth attempt of its round.
  ghost predicate GivenUp(d: Delivery, i: nat, attempts: map<AttemptKey, Attempt>) {
    d.status.Failed? ==>
      && CurrentKey(d, i) in attempts
      && var result := attempts[CurrentKey(d, i)].result;
      result == Some(PermanentFailure) || (result in {Some(RetryableFailure), Some(Uncertain)} && d.roundAttemptCount == 4)
  }

  ghost predicate RowOk(d: Delivery, i: nat, attempts: map<AttemptKey, Attempt>) {
    && Numbered(d, i, attempts)
    && Leased(d)
    && InRounds(d)
    && Versioned(d, i, attempts)
    && Triggered(d, i, attempts)
    && Spaced(d, i, attempts)
    && SucceedsLast(d, i, attempts)
    && GivenUp(d, i, attempts)
  }

  // ---------- The invariant of the tables ----------

  ghost predicate TokensOk(s: State) {
    && (forall i: nat | i < |s.deliveries| && s.deliveries[i].claimToken.Some? ::
          s.deliveries[i].claimToken.value < s.nextToken)
    && (forall i: nat, j: nat | i < j < |s.deliveries| && s.deliveries[i].claimToken.Some? ::
          s.deliveries[i].claimToken != s.deliveries[j].claimToken)
  }

  ghost predicate UniqueEvents(s: State) {
    forall i: nat, j: nat | i < j < |s.deliveries| ::
      s.deliveries[i].event.key != s.deliveries[j].event.key
  }

  ghost predicate Inv(s: State) {
    && (forall i: nat | i < |s.deliveries| :: RowOk(s.deliveries[i], i, s.attempts))
    && (forall k | k in s.attempts :: k.delivery < |s.deliveries|)
    && TokensOk(s)
    && UniqueEvents(s)
  }

  // ---------- Framing ----------

  ghost predicate SameLedger(i: nat, a: map<AttemptKey, Attempt>, b: map<AttemptKey, Attempt>) {
    forall n: nat ::
      && (AttemptKey(i, n) in a <==> AttemptKey(i, n) in b)
      && (AttemptKey(i, n) in a ==> a[AttemptKey(i, n)] == b[AttemptKey(i, n)])
  }

  ghost predicate SameTriggers(i: nat, m: nat, a: map<AttemptKey, Attempt>, b: map<AttemptKey, Attempt>) {
    forall n: nat | n <= m ::
      && (AttemptKey(i, n) in a <==> AttemptKey(i, n) in b)
      && (AttemptKey(i, n) in a ==> a[AttemptKey(i, n)].trigger == b[AttemptKey(i, n)].trigger)
  }

  lemma {:induction false} TriggerCountsAgree(i: nat, n: nat, a: map<AttemptKey, Attempt>, b: map<AttemptKey, Attempt>)
    requires SameTriggers(i, n, a, b)
    ensures ManualCount(a, i, n) == ManualCount(b, i, n)
    ensures RoundPosition(a, i, n) == RoundPosition(b, i, n)
  {
    if n > 0 { TriggerCountsAgree(i, n - 1, a, b); }
  }

  lemma {:induction false} FinishedCountsAgree(i: nat, n: nat, a: map<AttemptKey, Attempt>, b: map<AttemptKey, Attempt>)
    requires forall m: nat | m <= n ::
               && (AttemptKey(i, m) in a <==> AttemptKey(i, m) in b)
               && (AttemptKey(i, m) in a ==> a[AttemptKey(i, m)] == b[AttemptKey(i, m)])
    ensures FinishedCount(a, i, n) == FinishedCount(b, i, n)
  {
    if n > 0 { FinishedCountsAgree(i, n - 1, a, b); }
  }

  // The gap before an attempt survives any change that keeps the triggers, its start and the
  // end of its predecessor.
  lemma WaitedAgrees(i: nat, n: nat, a: map<AttemptKey, Attempt>, b: map<AttemptKey, Attempt>)
    requires Waited(i, n, a)
    requires SameTriggers(i, n - 1, a, b)
    requires AttemptKey(i, n) in b && b[AttemptKey(i, n)].startedAt == a[AttemptKey(i, n)].startedAt
    requires b[AttemptKey(i, n - 1)] == a[AttemptKey(i, n - 1)]
    ensures Waited(i, n, b)
  {
    TriggerCountsAgree(i, n - 1, a, b);
  }

  lemma RowFrame(d: Delivery, i: nat, a: map<AttemptKey, Attempt>, b: map<AttemptKey, Attempt>)
    requires RowOk(d, i, a)
    requires SameLedger(i, a, b)
    ensures RowOk(d, i, b)
  {
    TriggerCountsAgree(i, d.attemptCount, a, b);
    FinishedCountsAgree(i, d.attemptCount, a, b);
    forall n: nat | AttemptKey(i, n) in b && b[AttemptKey(i, n)].trigger.AutomaticRetry?
      ensures Waited(i, n, b)
    {
      WaitedAgrees(i, n, a, b);
    }
  }

  // ---------- What each transaction does to one row ----------

  lemma NewRow(e: Event, now: Instant, i: nat, attempts: map<AttemptKey, Attempt>)
    requires forall k | k in attempts :: k.delivery != i
    ensures RowOk(NewDelivery(e, now), i, attempts)
  {
  }

  lemma ClaimRow(d: Delivery, i: nat, a: map<AttemptKey, Attempt>, token: nat, now: Instant)
    requires RowOk(d, i, a) && Claimable(d, now)
    ensures RowOk(ClaimedDelivery(d, token, now), i,
                  a[AttemptKey(i, d.attemptCount + 1) := StartedAttempt(d, now)])
  {
    var d' := ClaimedDelivery(d, token, now);
    var n' := d.attemptCount + 1;
    var b := a[AttemptKey(i, n') := StartedAttempt(d, now)];
    assert InRounds(d') && Leased(d');
    assert Numbered(d', i, b);
    TriggerCountsAgree(i, d.attemptCount, a, b);
    FinishedCountsAgree(i, d.attemptCount, a, b);
    forall n: nat | AttemptKey(i, n) in b && b[AttemptKey(i, n)].trigger.AutomaticRetry?
      ensures Waited(i, n, b)
    {
      if n <= d.attemptCount { WaitedAgrees(i, n, a, b); }
    }
  }

  // A finished attempt: b is a with the open attempt closed.
  ghost predicate ClosesOpen(d: Delivery, i: nat, a: map<AttemptKey, Attempt>, b: map<AttemptKey, Attempt>) {
    && AttemptOpen(d, i, a)
    && CurrentKey(d, i) in b
    && var old' := a[CurrentKey(d, i)];
    var new' := b[CurrentKey(d, i)];
    && new'.trigger == old'.trigger && new'.startedAt == old'.startedAt
    && new'.finishedAt.Some? && new'.result.Some?
    && forall n: nat | n != d.attemptCount ::
         && (AttemptKey(i, n) in a <==> AttemptKey(i, n) in b)
         && (AttemptKey(i, n) in a ==> a[AttemptKey(i, n)] == b[AttemptKey(i, n)])
  }

  lemma CloseFacts(d: Delivery, i: nat, a: map<AttemptKey, Attempt>, b: map<AttemptKey, Attempt>)
    requires RowOk(d, i, a) && d.status.Sending? && ClosesOpen(d, i, a, b)
    ensures d.attemptCount >= 1
    ensures ManualCount(a, i, d.attemptCount) == ManualCount(b, i, d.attemptCount)
    ensures RoundPosition(a, i, d.attemptCount) == RoundPosition(b, i, d.attemptCount)
    ensures FinishedCount(b, i, d.attemptCount) == FinishedCount(a, i, d.attemptCount) + 1
    ensures forall n: nat | AttemptKey(i, n) in b && b[AttemptKey(i, n)].trigger.AutomaticRetry? :: Waited(i, n, b)
  {
    TriggerCountsAgree(i, d.attemptCount, a, b);
    FinishedCountsAgree(i, d.attemptCount - 1, a, b);
    forall n: nat | AttemptKey(i, n) in b && b[AttemptKey(i, n)].trigger.AutomaticRetry?
      ensures Waited(i, n, b)
    {
      WaitedAgrees(i, n, a, b);
    }
  }

  lemma SendRow(d: Delivery, i: nat, a: map<AttemptKey, Attempt>, b: map<AttemptKey, Attempt>, r: DeliveryResult, now: Instant)
    requires RowOk(d, i, a) && d.status.Sending? && ClosesOpen(d, i, a, b)
    requires b[CurrentKey(d, i)] == SentAttempt(a[CurrentKey(d, i)], r, now)
    ensures RowOk(SentDelivery(d, now), i, b)
  {
    CloseFacts(d, i, a, b);
  }

  lemma FailRow(d: Delivery, i: nat, a: map<AttemptKey, Attempt>, b: map<AttemptKey, Attempt>, r: DeliveryResult, now: Instant)
    requires RowOk(d, i, a) && d.status.Sending? && ClosesOpen(d, i, a, b) && !r.outcome.Success?
    requires b[CurrentKey(d, i)] == FailedAttempt(a[CurrentKey(d, i)], r, now)
    ensures RowOk(FailedDelivery(d, r, now), i, b)
  {
    CloseFacts(d, i, a, b);
  }

  lemma RequeueRow(d: Delivery, i: nat, attempts: map<AttemptKey, Attempt>)
    requires RowOk(d, i, attempts) && d.status.Failed?
    ensures RowOk(RequeuedDelivery(d), i, attempts)
  {
  }

  // ---------- What each transaction does to the tables ----------

  // Rows other than i keep their invariant when only attempts of i change.
  lemma OtherRows(s: State, i: nat, b: map<AttemptKey, Attempt>)
    requires Inv(s)
    requires forall k: AttemptKey | k.delivery != i :: (k in s.attempts <==> k in b) && (k in b ==> b[k] == s.attempts[k])
    ensures forall j: nat | j < |s.deliveries| && j != i :: RowOk(s.deliveries[j], j, b)
  {
    forall j: nat | j < |s.deliveries| && j != i ensures RowOk(s.deliveries[j], j, b) {
      RowFrame(s.deliveries[j], j, s.attempts, b);
    }
  }

  lemma EnqueueKeeps(s: State, e: Event, now: Instant)
    requires Inv(s)
    ensures Inv(Enqueue(s, e, now).0)
  {
    if FindByKey(s.deliveries, e.key).None? { NewRow(e, now, |s.deliveries|, s.attempts); }
  }

  lemma RetryKeeps(s: State, id: nat, v: nat)
    requires Inv(s)
    ensures Inv(RetryFailed(s, id, v).0)
  {
    if id < |s.deliveries| && s.deliveries[id].status.Failed? { RequeueRow(s.deliveries[id], id, s.attempts); }
  }

  lemma ClaimKeeps(s: State, now: Instant, locked: set<nat>)
    requires Inv(s)
    ensures Inv(ClaimNext(s, now, locked).0)
    ensures !ClaimNext(s, now, locked).1.DuplicateAttempt?
  {
    var first := NextClaim(s.deliveries, now, locked, |s.deliveries|);
    if first.Some? {
      var i := first.value;
      var d := s.deliveries[i];
      ClaimRow(d, i, s.attempts, s.nextToken, now);
      OtherRows(s, i, s.attempts[AttemptKey(i, d.attemptCount + 1) := StartedAttempt(d, now)]);
    }
  }

  lemma CompleteKeeps(s: State, id: nat, token: nat, r: DeliveryResult, now: Instant)
    requires Inv(s)
    ensures Inv(CompleteClaimed(s, id, token, r, now).0)
    ensures !CompleteClaimed(s, id, token, r, now).1.Inconsistent?
  {
    if r.outcome.Success? && Matches(s, id, token) {
      var d := s.deliveries[id];
      var key := CurrentKey(d, id);
      assert AttemptOpen(d, id, s.attempts);
      var b := s.attempts[key := SentAttempt(s.attempts[key], r, now)];
      SendRow(d, id, s.attempts, b, r, now);
      OtherRows(s, id, b);
    }
  }

  lemma FailKeeps(s: State, id: nat, token: nat, r: DeliveryResult, now: Instant)
    requires Inv(s)
    ensures Inv(FailClaimed(s, id, token, r, now).0)
    ensures !FailClaimed(s, id, token, r, now).1.Inconsistent?
  {
    if !r.outcome.Success? && Matches(s, id, token) {
      var d := s.deliveries[id];
      var key := CurrentKey(d, id);
      assert AttemptOpen(d, id, s.attempts);
      var b := s.attempts[key := FailedAttempt(s.attempts[key], r, now)];
      FailRow(d, id, s.attempts, b, r, now);
      OtherRows(s, id, b);
    }
  }

  lemma RecoverKeeps(s: State, now: Instant, locked: set<nat>)
    requires Inv(s)
    ensures Inv(RecoverStaleClaims(s, now, locked).0)
    ensures !RecoverStaleClaims(s, now, locked).1.Inconsistent?
  {
    var s' := RecoverStaleClaims(s, now, locked).0;
    forall i: nat | i < |s.deliveries| ensures RowOk(s'.deliveries[i], i, s'.attempts) {
      RecoverRow(s, now, locked, i);
    }
  }

  lemma RecoverRow(s: State, now: Instant, locked: set<nat>, i: nat)
    requires Inv(s) && i < |s.deliveries|
    ensures !RecoverStaleClaims(s, now, locked).1.Inconsistent?
    ensures var s' := RecoverStaleClaims(s, now, locked).0;
            RowOk(s'.deliveries[i], i, s'.attempts)
  {
    forall j: nat | j in StaleRows(s.deliveries, now, locked)
      ensures AttemptOpen(s.deliveries[j], j, s.attempts)
    {
      assert RowOk(s.deliveries[j], j, s.attempts);
    }
    var d := s.deliveries[i];
    var b := RecoveredAttempts(s.deliveries, s.attempts, now, locked, |s.deliveries|);
    if Recoverable(s.deliveries, i, now, locked) {
      assert i in StaleRows(s.deliveries, now, locked);
      FailRow(d, i, s.attempts, b, STALE_RESULT, now);
    } else {
      RowFrame(d, i, s.attempts, b);
    }
  }

  lemma StepKeeps(s: State, step: Step)
    requires Inv(s)
    ensures Inv(Do(s, step).0)
    ensures !Do(s, step).1.Inconsistent? && !Do(s, step).1.DuplicateAttempt?
  {
    match step
    case EnqueueStep(e, now) => EnqueueKeeps(s, e, now);
    case RetryStep(id, v) => RetryKeeps(s, id, v);
    case ClaimStep(now, locked) => ClaimKeeps(s, now, locked);
    case CompleteStep(id, token, r, now) => CompleteKeeps(s, id, token, r, now);
    case FailStep(id, token, r, now) => FailKeeps(s, id, token, r, now);
    case RecoverStep(now, locked) => RecoverKeeps(s, now, locked);
  }

  lemma {:induction false} RunKeeps(s: State, steps: seq<Step>)
    requires Inv(s)
    ensures Inv(Run(s, steps))
    decreases |steps|
  {
    if steps != [] {
      StepKeeps(s, steps[0]);
      RunKeeps(Do(s, steps[0]).0, steps[1..]);
    }
  }
}
