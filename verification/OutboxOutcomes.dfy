/** What each transaction of the outbox decides and writes, told from the tables before and after it
    in every reachable state: who is given up and when, what a claim takes, what a report leaves. */
module OutboxOutcomes {
  import opened Wrappers
  import opened Events
  import opened Outbox
  import opened OutboxLedger
  import opened OutboxService

  // The seconds between the k-th attempt of a round and the next.
  function Pause(k: nat): int {
    if k == 1 then 60 else if k == 2 then 300 else 1800
  }

  // ---------- Giving up ----------

  // A delivery that has failed its last attempt is given up exactly if that failure was permanent
  // or was the fourth of its round; otherwise it waits by its place in the round.
  lemma GivenUpExactly(steps: seq<Step>, i: nat)
    requires i < |Run(Empty, steps).deliveries|
    ensures var s := Run(Empty, steps);
            var d := s.deliveries[i];
            d.status in {Failed, RetryWait} ==>
              && AttemptKey(i, d.attemptCount) in s.attempts
              && var a := s.attempts[AttemptKey(i, d.attemptCount)];
              var k := RoundPosition(s.attempts, i, d.attemptCount);
              && a.finishedAt.Some? && a.result in {Some(PermanentFailure), Some(RetryableFailure), Some(Uncertain)}
              && 1 <= k <= 4
              && (d.status.Failed? <==> a.result == Some(PermanentFailure) || k == 4)
              && (d.status.RetryWait? ==> d.nextAttemptAt == Some(a.finishedAt.value + Pause(k)))
  {
    RunKeeps(Empty, steps);
    assert RowOk(Run(Empty, steps).deliveries[i], i, Run(Empty, steps).attempts);
  }

  // An automatic retry starts no sooner than its pause after a failure that was not permanent.
  lemma RetriesPause(steps: seq<Step>, i: nat, n: nat)
    requires i < |Run(Empty, steps).deliveries|
    requires AttemptKey(i, n) in Run(Empty, steps).attempts && n >= 2
    requires Run(Empty, steps).attempts[AttemptKey(i, n)].trigger.AutomaticRetry?
    ensures var attempts := Run(Empty, steps).attempts;
            && AttemptKey(i, n - 1) in attempts
            && var last := attempts[AttemptKey(i, n - 1)];
            && last.finishedAt.Some? && last.result in {Some(RetryableFailure), Some(Uncertain)}
            && 1 <= RoundPosition(attempts, i, n - 1) <= 3
            && attempts[AttemptKey(i, n)].startedAt >= last.finishedAt.value + Pause(RoundPosition(attempts, i, n - 1))
  {
    RunKeeps(Empty, steps);
    assert RowOk(Run(Empty, steps).deliveries[i], i, Run(Empty, steps).attempts);
    assert Waited(i, n, Run(Empty, steps).attempts);
  }

  // ---------- Reports ----------

  // The attempt that delivery id is at.
  function LastAttempt(s: State, id: nat): Option<Attempt> {
    if id < |s.deliveries| && AttemptKey(id, s.deliveries[id].attemptCount) in s.attempts
    then Some(s.attempts[AttemptKey(id, s.deliveries[id].attemptCount)]) else None
  }

  // What any failure leaves of a delivery and its open attempt.
  ghost predicate FailureStored(s: State, s': State, id: nat, r: DeliveryResult, now: Instant) {
    && id < |s.deliveries| == |s'.deliveries| && LastAttempt(s, id).Some?
    && var d, d' := s.deliveries[id], s'.deliveries[id];
    && LastAttempt(s', id)
       == Some(Attempt(LastAttempt(s, id).value.trigger, LastAttempt(s, id).value.startedAt, Some(now), Some(r.outcome),
                       r.httpStatus, r.providerErrorCode, r.failureSummary))
    && d'.attemptCount == d.attemptCount && d'.sendRound == d.sendRound && d'.event == d.event
    && d'.claimToken.None? && d'.claimedAt.None? && d'.sentAt.None?
    && d'.lastErrorCode == r.errorCode && d'.lastFailureSummary == r.failureSummary
    && d'.status == (if r.outcome != PermanentFailure && RoundPosition(s.attempts, id, d.attemptCount) < 4
                     then RetryWait else Failed)
  }

  // The claim of delivery id is alive under this token.
  predicate Live(s: State, id: nat, token: nat) {
    id < |s.deliveries| && s.deliveries[id].claimToken == Some(token)
  }

  ghost predicate OthersSame(s: State, s': State, id: nat) {
    && |s'.deliveries| == |s.deliveries|
    && (forall j: nat | j < |s.deliveries| && j != id :: s'.deliveries[j] == s.deliveries[j])
    && (forall k: AttemptKey | k.delivery != id ::
          (k in s'.attempts <==> k in s.attempts) && (k in s.attempts ==> s'.attempts[k] == s.attempts[k]))
  }

  lemma FailureExact(steps: seq<Step>, id: nat, token: nat, r: DeliveryResult, now: Instant)
    ensures var s := Run(Empty, steps);
            var (s', reply) := Do(s, FailStep(id, token, r, now));
            && (reply == if r.outcome.Success? then WrongOutcome else if Live(s, id, token) then Accepted else Refused)
            && (if reply.Accepted? then FailureStored(s, s', id, r, now) && OthersSame(s, s', id) else s' == s)
  {
    var s := Run(Empty, steps);
    RunKeeps(Empty, steps);
    if id < |s.deliveries| { assert RowOk(s.deliveries[id], id, s.attempts); }
  }

  lemma SuccessExact(steps: seq<Step>, id: nat, token: nat, r: DeliveryResult, now: Instant)
    ensures var s := Run(Empty, steps);
            var (s', reply) := Do(s, CompleteStep(id, token, r, now));
            && (reply == if !r.outcome.Success? then WrongOutcome else if Live(s, id, token) then Accepted else Refused)
            && (reply.Accepted? ==>
                  && OthersSame(s, s', id) && LastAttempt(s, id).Some?
                  && LastAttempt(s', id)
                     == Some(LastAttempt(s, id).value.(finishedAt := Some(now), result := Some(Success),
                                                       httpStatus := r.httpStatus, providerErrorCode := r.providerErrorCode))
                  && s'.deliveries[id].status.Succeeded? && s'.deliveries[id].sentAt == Some(now)
                  && s'.deliveries[id].lastErrorCode.None? && s'.deliveries[id].lastFailureSummary.None?)
            && (!reply.Accepted? ==> s' == s)
  {
    var s := Run(Empty, steps);
    RunKeeps(Empty, steps);
    if id < |s.deliveries| { assert RowOk(s.deliveries[id], id, s.attempts); }
  }

  // Recovery takes exactly the unlocked claims that are five minutes old, as uncertain failures.
  lemma RecoveryExact(steps: seq<Step>, now: Instant, locked: set<nat>, i: nat)
    requires i < |Run(Empty, steps).deliveries|
    ensures var s := Run(Empty, steps);
            var s' := Do(s, RecoverStep(now, locked)).0;
            var d := s.deliveries[i];
            && |s'.deliveries| == |s.deliveries| && STALE_RESULT.outcome.Uncertain?
            && (if i !in locked && d.status.Sending? && d.claimedAt.Some? && now - d.claimedAt.value >= 300
                then FailureStored(s, s', i, STALE_RESULT, now) else s'.deliveries[i] == d)
  {
    var s := Run(Empty, steps);
    RunKeeps(Empty, steps);
    RecoverRow(s, now, locked, i);
    RecoveredRow(s, now, locked, i);
  }

  // The claims that recovery may take.
  function Overdue(s: State, now: Instant, locked: set<nat>): set<nat> {
    set i: nat | i < |s.deliveries| && i !in locked && s.deliveries[i].status.Sending? && s.deliveries[i].claimedAt.Some?
                 && now - s.deliveries[i].claimedAt.value >= 300
  }

  lemma RecoveryCounts(steps: seq<Step>, now: Instant, locked: set<nat>)
    ensures Do(Run(Empty, steps), RecoverStep(now, locked)).1 == Recovered(|Overdue(Run(Empty, steps), now, locked)|)
  {
    var s := Run(Empty, steps);
    RunKeeps(Empty, steps);
    RecoverKeeps(s, now, locked);
    assert Overdue(s, now, locked) == StaleRows(s.deliveries, now, locked);
  }

  lemma RecoveredRow(s: State, now: Instant, locked: set<nat>, i: nat)
    requires Inv(s) && i < |s.deliveries|
    requires !RecoverStaleClaims(s, now, locked).1.Inconsistent?
    ensures var s' := RecoverStaleClaims(s, now, locked).0;
            && |s'.deliveries| == |s.deliveries|
            && var d := s.deliveries[i];
            if i !in locked && d.status.Sending? && d.claimedAt.Some? && now - d.claimedAt.value >= 300
            then FailureStored(s, s', i, STALE_RESULT, now) else s'.deliveries[i] == d
  {
    assert RowOk(s.deliveries[i], i, s.attempts);
    var key := CurrentKey(s.deliveries[i], i);
    if Recoverable(s.deliveries, i, now, locked) { assert Closes(s.deliveries, key, now, locked, |s.deliveries|); }
  }

  // ---------- Claims ----------

  predicate Waiting(d: Delivery, now: Instant) {
    d.status.Pending? || (d.status.RetryWait? && d.nextAttemptAt.Some? && d.nextAttemptAt.value <= now)
  }

  // Pending ones first, then by the time they are due, by creation and by key.
  predicate Sooner(a: Delivery, i: nat, b: Delivery, j: nat) {
    if a.status != b.status then a.status.Pending?
    else if a.status.RetryWait? && a.nextAttemptAt != b.nextAttemptAt then
      a.nextAttemptAt.Some? && b.nextAttemptAt.Some? && a.nextAttemptAt.value < b.nextAttemptAt.value
    else if a.createdAt != b.createdAt then a.createdAt < b.createdAt
    else i < j
  }

  // What a claim of delivery id under this token leaves.
  ghost predicate ClaimOpened(s: State, s': State, id: nat, token: nat, now: Instant) {
    && id < |s.deliveries| && OthersSame(s, s', id)
    && var d, d' := s.deliveries[id], s'.deliveries[id];
    && d'.status.Sending? && d'.claimToken == Some(token) && d'.claimedAt == Some(now)
    && d'.attemptCount == d.attemptCount + 1 && d'.event == d.event
    && LastAttempt(s', id)
       == Some(Attempt(if d.attemptCount == 0 then Initial else if d.status.Pending? then ManualRetry else AutomaticRetry,
                       now, None, None, None, None, None))
    && (forall j: nat | j < |s.deliveries| :: s.deliveries[j].claimToken != Some(token))
  }

  // A claim is idle exactly if nothing unlocked is due; otherwise it takes the soonest, under a token
  // that no claim holds, and opens its next attempt.
  lemma ClaimExact(steps: seq<Step>, now: Instant, locked: set<nat>)
    ensures var s := Run(Empty, steps);
            var (s', reply) := Do(s, ClaimStep(now, locked));
            && (reply.Idle? <==> forall j: nat | j < |s.deliveries| && j !in locked :: !Waiting(s.deliveries[j], now))
            && (reply.Idle? ==> s' == s)
            && (!reply.Idle? ==>
                  && reply.Claimed? && reply.id < |s.deliveries| && reply.id !in locked
                  && Waiting(s.deliveries[reply.id], now)
                  && (forall j: nat | j < |s.deliveries| && j != reply.id && j !in locked && Waiting(s.deliveries[j], now) ::
                        Sooner(s.deliveries[reply.id], reply.id, s.deliveries[j], j))
                  && ClaimOpened(s, s', reply.id, reply.token, now))
  {
    var s := Run(Empty, steps);
    RunKeeps(Empty, steps);
    WaitingIsClaimable(s, now);
    var first := NextClaim(s.deliveries, now, locked, |s.deliveries|);
    if first.Some? {
      SoonestPrecedes(s, now, locked, first.value);
      ClaimOpens(s, now, locked, first.value);
    }
  }

  lemma WaitingIsClaimable(s: State, now: Instant)
    requires Inv(s)
    ensures forall j: nat | j < |s.deliveries| :: Waiting(s.deliveries[j], now) <==> Claimable(s.deliveries[j], now)
  {
    forall j: nat | j < |s.deliveries| ensures Waiting(s.deliveries[j], now) <==> Claimable(s.deliveries[j], now) {
      assert RowOk(s.deliveries[j], j, s.attempts);
    }
  }

  lemma ClaimOpens(s: State, now: Instant, locked: set<nat>, id: nat)
    requires Inv(s) && NextClaim(s.deliveries, now, locked, |s.deliveries|) == Some(id)
    ensures Do(s, ClaimStep(now, locked)).1 == Claimed(id, s.nextToken)
    ensures ClaimOpened(s, Do(s, ClaimStep(now, locked)).0, id, s.nextToken, now)
  {
    ClaimKeeps(s, now, locked);
    assert RowOk(s.deliveries[id], id, s.attempts);
  }

  lemma SoonestPrecedes(s: State, now: Instant, locked: set<nat>, i: nat)
    requires Inv(s) && NextClaim(s.deliveries, now, locked, |s.deliveries|) == Some(i)
    ensures forall j: nat | j < |s.deliveries| && j != i && j !in locked && Waiting(s.deliveries[j], now) ::
              Sooner(s.deliveries[i], i, s.deliveries[j], j)
  {
    forall j: nat | j < |s.deliveries| && j != i && j !in locked && Waiting(s.deliveries[j], now)
      ensures Sooner(s.deliveries[i], i, s.deliveries[j], j)
    {
      assert RowOk(s.deliveries[i], i, s.attempts) && RowOk(s.deliveries[j], j, s.attempts);
      assert Claimable(s.deliveries[j], now);
    }
  }

  // ---------- Manual retry and enqueueing ----------

  lemma RetryExact(steps: seq<Step>, id: nat, version: nat)
    ensures var s := Run(Empty, steps);
            var (s', reply) := Do(s, RetryStep(id, version));
            && (reply.NotFound? <==> id >= |s.deliveries|)
            && (reply.VersionConflict? <==> id < |s.deliveries| && s.deliveries[id].version != version)
            && (reply.Requeued? <==> id < |s.deliveries| && s.deliveries[id].version == version && s.deliveries[id].status.Failed?)
            && (if reply.Requeued? then
                  && OthersSame(s, s', id) && s'.attempts == s.attempts && reply.previousVersion == version
                  && var d, d' := s.deliveries[id], s'.deliveries[id];
                  d' == d.(status := Pending, sendRound := d.sendRound + 1, roundAttemptCount := 0, version := version + 1)
                else s' == s)
  {
    var s := Run(Empty, steps);
    RunKeeps(Empty, steps);
    if id < |s.deliveries| { assert RowOk(s.deliveries[id], id, s.attempts); }
  }

  // A new key adds a delivery that is due at once and has no attempt; a known one adds nothing.
  lemma EnqueueExact(steps: seq<Step>, e: Event, now: Instant)
    ensures var s := Run(Empty, steps);
            var (s', reply) := Do(s, EnqueueStep(e, now));
            && reply.Enqueued? && reply.id < |s'.deliveries| && s'.deliveries[reply.id].event.key == e.key
            && s'.attempts == s.attempts
            && (if exists j: nat :: j < |s.deliveries| && s.deliveries[j].event.key == e.key then s' == s
                else
                  && |s'.deliveries| == |s.deliveries| + 1 && s'.deliveries[..|s.deliveries|] == s.deliveries
                  && var d := s'.deliveries[|s.deliveries|];
                  && d.event == e && d.createdAt == now && d.version == 1 && (forall at: Instant :: Waiting(d, at))
                  && (forall k | k in s'.attempts :: k.delivery != |s.deliveries|))
  {
    RunKeeps(Empty, steps);
  }

  // ---------- One pass of the worker ----------

  // It recovers, then claims, and reports what it claimed as the provider answered; an adapter that
  // raised makes an uncertain result.
  lemma PassExact(
    steps: seq<Step>, claimedAt: Instant, locked: set<nat>, sent: SendOutcome, completedAt: Instant)
    ensures var s := Run(Empty, steps);
            var pass := PassSteps(s, claimedAt, locked, sent, completedAt);
            && 2 <= |pass| <= 3 && pass[0] == RecoverStep(claimedAt, locked) && pass[1] == ClaimStep(claimedAt, locked)
            && var reply := Do(Do(s, pass[0]).0, pass[1]).1;
            && (|pass| == 3 <==> reply.Claimed?)
            && (|pass| == 3 ==>
                  && (pass[2].CompleteStep? || pass[2].FailStep?)
                  && pass[2].id == reply.id && pass[2].token == reply.token && pass[2].now == completedAt
                  && (pass[2].CompleteStep? <==> !sent.Raised? && sent.result.outcome.Success?)
                  && (if sent.Raised? then pass[2].result.outcome.Uncertain? else pass[2].result == sent.result))
  {
    var s := Run(Empty, steps);
    RunKeeps(Empty, steps);
    RecoverKeeps(s, claimedAt, locked);
    PassFrom(s, claimedAt, locked, sent, completedAt);
  }

  lemma PassFrom(s: State, claimedAt: Instant, locked: set<nat>, sent: SendOutcome, completedAt: Instant)
    requires !RecoverStaleClaims(s, claimedAt, locked).1.Inconsistent?
    ensures var pass, claim := PassSteps(s, claimedAt, locked, sent, completedAt), ClaimStep(claimedAt, locked);
            var reply := Do(RecoverStaleClaims(s, claimedAt, locked).0, claim).1;
            && Do(s, RecoverStep(claimedAt, locked)) == RecoverStaleClaims(s, claimedAt, locked)
            && (reply.Claimed? ==> pass == [RecoverStep(claimedAt, locked), claim,
                                            Report(reply.id, reply.token, Reported(sent), completedAt)])
            && (!reply.Claimed? ==> pass == [RecoverStep(claimedAt, locked), claim])
  {
  }
}
