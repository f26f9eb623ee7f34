/** Whole runs of the outbox: any number of workers and owners, any interleaving, any clock,
    workers that stall or die between claiming and reporting. */
module OutboxRuns {
  import opened Wrappers
  import opened Events
  import opened Outbox
  import opened OutboxLedger

  // ---------- Safety ----------

  lemma EveryRunKeepsLedger(steps: seq<Step>, i: nat)
    requires i < |Run(Empty, steps).deliveries|
    ensures var s := Run(Empty, steps);
            var d := s.deliveries[i];
            && (forall n: nat :: AttemptKey(i, n) in s.attempts <==> 1 <= n <= d.attemptCount)
            && (forall n: nat | 1 <= n <= d.attemptCount ::
                  s.attempts[AttemptKey(i, n)].result.None? <==> n == d.attemptCount && d.claimToken.Some?)
            && (d.claimToken.Some? <==> d.status.Sending?)
            && d.version == 1 + d.attemptCount + FinishedCount(s.attempts, i, d.attemptCount) + (d.sendRound - 1)
  {
    RunKeeps(Empty, steps);
    assert RowOk(Run(Empty, steps).deliveries[i], i, Run(Empty, steps).attempts);
  }

  lemma ErrorsUnreachable(steps: seq<Step>, step: Step)
    ensures !Do(Run(Empty, steps), step).1.Inconsistent?
    ensures !Do(Run(Empty, steps), step).1.DuplicateAttempt?
  {
    RunKeeps(Empty, steps);
    StepKeeps(Run(Empty, steps), step);
  }

  lemma AtMostOneSuccess(steps: seq<Step>, i: nat)
    requires i < |Run(Empty, steps).deliveries|
    ensures var s := Run(Empty, steps);
            var d := s.deliveries[i];
            && (forall n: nat | AttemptKey(i, n) in s.attempts && s.attempts[AttemptKey(i, n)].result == Some(Success) ::
                  n == d.attemptCount && d.sentAt == s.attempts[AttemptKey(i, n)].finishedAt)
            && (d.sentAt.Some? <==> d.status.Succeeded?)
            && (d.status.Succeeded? <==>
                  exists n: nat :: AttemptKey(i, n) in s.attempts && s.attempts[AttemptKey(i, n)].result == Some(Success))
  {
    RunKeeps(Empty, steps);
    var s := Run(Empty, steps);
    var d := s.deliveries[i];
    assert RowOk(d, i, s.attempts);
    if d.status.Succeeded? {
      assert AttemptKey(i, d.attemptCount) in s.attempts;
    }
  }

  lemma RoundsOnEveryRun(steps: seq<Step>, i: nat)
    requires i < |Run(Empty, steps).deliveries|
    ensures var s := Run(Empty, steps);
            var d := s.deliveries[i];
            && d.roundAttemptCount <= 4 && d.attemptCount <= 4 * d.sendRound
            && (forall n: nat | AttemptKey(i, n) in s.attempts ::
                  && (s.attempts[AttemptKey(i, n)].trigger.Initial? <==> n == 1)
                  && (s.attempts[AttemptKey(i, n)].trigger.AutomaticRetry? ==> Waited(i, n, s.attempts)))
            && ManualCount(s.attempts, i, d.attemptCount) == ManualAttempts(d)
  {
    RunKeeps(Empty, steps);
    assert RowOk(Run(Empty, steps).deliveries[i], i, Run(Empty, steps).attempts);
  }

  // ---------- How a row can change ----------

  ghost predicate RowChange(d: Delivery, d': Delivery, step: Step) {
    || d' == d
    || (step.ClaimStep? && Claimable(d, step.now)
        && exists token :: d' == ClaimedDelivery(d, token, step.now))
    || (step.CompleteStep? && d.status.Sending? && d' == SentDelivery(d, step.now))
    || (step.FailStep? && d.status.Sending? && d' == FailedDelivery(d, step.result, step.now))
    || (step.RecoverStep? && d.status.Sending? && d' == FailedDelivery(d, STALE_RESULT, step.now))
    || (step.RetryStep? && d.status.Failed? && d' == RequeuedDelivery(d))
  }

  lemma RowChanges(s: State, step: Step, i: nat)
    requires i < |s.deliveries|
    ensures |Do(s, step).0.deliveries| >= |s.deliveries|
    ensures !step.EnqueueStep? ==> |Do(s, step).0.deliveries| == |s.deliveries|
    ensures RowChange(s.deliveries[i], Do(s, step).0.deliveries[i], step)
  {
  }

  // A row that keeps its contents keeps its attempts: every change of a ledger shows in its row.
  lemma AttemptsChangeWithRow(s: State, step: Step, i: nat)
    requires Inv(s) && i < |s.deliveries| && i < |Do(s, step).0.deliveries|
    requires Do(s, step).0.deliveries[i] == s.deliveries[i]
    ensures SameLedger(i, s.attempts, Do(s, step).0.attempts)
  {
    var d := s.deliveries[i];
    assert ClaimedDelivery(d, s.nextToken, 0).version != d.version;
  }

  // Every step leaves a row alone or adds exactly one to its version; events are frozen.
  lemma RowHistory(s: State, step: Step, i: nat)
    requires Inv(s) && i < |s.deliveries|
    ensures var s' := Do(s, step).0;
            && |s'.deliveries| >= |s.deliveries|
            && s'.deliveries[i].event == s.deliveries[i].event
            && (s'.deliveries[i] == s.deliveries[i] || s'.deliveries[i].version == s.deliveries[i].version + 1)
            && (s'.deliveries[i] == s.deliveries[i] ==> SameLedger(i, s.attempts, s'.attempts))
            && (s.deliveries[i].status.Succeeded? ==> s'.deliveries[i] == s.deliveries[i])
  {
    RowChanges(s, step, i);
    if Do(s, step).0.deliveries[i] == s.deliveries[i] { AttemptsChangeWithRow(s, step, i); }
  }

  lemma {:induction false} EventsAreFrozen(s: State, steps: seq<Step>, i: nat)
    requires Inv(s) && i < |s.deliveries|
    ensures i < |Run(s, steps).deliveries|
    ensures Run(s, steps).deliveries[i].event == s.deliveries[i].event
    ensures Run(s, steps).deliveries[i].version >= s.deliveries[i].version
    decreases |steps|
  {
    if steps != [] {
      RowHistory(s, steps[0], i);
      StepKeeps(s, steps[0]);
      EventsAreFrozen(Do(s, steps[0]).0, steps[1..], i);
    }
  }

  // Nothing ever happens again to a delivery that was sent, nor to its attempts.
  lemma {:induction false} SentIsFinal(s: State, steps: seq<Step>, i: nat)
    requires Inv(s) && i < |s.deliveries| && s.deliveries[i].status.Succeeded?
    ensures i < |Run(s, steps).deliveries| && Run(s, steps).deliveries[i] == s.deliveries[i]
    ensures SameLedger(i, s.attempts, Run(s, steps).attempts)
    decreases |steps|
  {
    if steps != [] {
      RowHistory(s, steps[0], i);
      StepKeeps(s, steps[0]);
      SentIsFinal(Do(s, steps[0]).0, steps[1..], i);
    }
  }

  ghost predicate Superseded(s: State, id: nat, token: nat) {
    token < s.nextToken
    && (id < |s.deliveries| ==> s.deliveries[id].claimToken != Some(token))
  }

  lemma SupersededStays(s: State, step: Step, id: nat, token: nat)
    requires Inv(s) && Superseded(s, id, token)
    ensures Superseded(Do(s, step).0, id, token)
  {
  }

  // A worker whose claim has ended can change nothing, however late it reports.
  lemma {:induction false} LateReportsChangeNothing(
    s: State, steps: seq<Step>, id: nat, token: nat, r: DeliveryResult, now: Instant)
    requires Inv(s) && Superseded(s, id, token)
    ensures var t := Run(s, steps);
            && CompleteClaimed(t, id, token, r, now).0 == t && !CompleteClaimed(t, id, token, r, now).1.Accepted?
            && FailClaimed(t, id, token, r, now).0 == t && !FailClaimed(t, id, token, r, now).1.Accepted?
    decreases |steps|
  {
    if steps != [] {
      SupersededStays(s, steps[0], id, token);
      StepKeeps(s, steps[0]);
      LateReportsChangeNothing(Do(s, steps[0]).0, steps[1..], id, token, r, now);
    }
  }

  // A claim ends exactly once: by its report, or by recovery.
  lemma EndedClaimsAreSuperseded(s: State, id: nat, token: nat, step: Step)
    requires Inv(s) && Matches(s, id, token)
    ensures var s' := Do(s, step).0;
            s'.deliveries[id] == s.deliveries[id] || Superseded(s', id, token)
    ensures (step.CompleteStep? || step.FailStep?) && step.id == id && step.token == token
            && (step.CompleteStep? <==> step.result.outcome.Success?)
            ==> Do(s, step).1.Accepted? && Superseded(Do(s, step).0, id, token)
  {
    assert RowOk(s.deliveries[id], id, s.attempts);
  }

  // A version can be spent on one manual retry only.
  lemma OneRetryPerVersion(s: State, id: nat, v: nat, steps: seq<Step>)
    requires Inv(s) && RetryFailed(s, id, v).1.Requeued?
    ensures RetryFailed(Run(RetryFailed(s, id, v).0, steps), id, v).1 == VersionConflict
  {
    StepKeeps(s, RetryStep(id, v));
    EventsAreFrozen(RetryFailed(s, id, v).0, steps, id);
  }

  lemma KeyIsFound(s: State, i: nat)
    requires UniqueEvents(s) && i < |s.deliveries|
    ensures FindByKey(s.deliveries, s.deliveries[i].event.key) == Some(i)
  {
  }

  // An event key is delivered from one row, with the snapshot of its first enqueueing.
  lemma EnqueueOnce(s: State, first: Event, now: Instant, steps: seq<Step>, again: Event, later: Instant)
    requires Inv(s) && again.key == first.key
    requires Enqueue(s, first, now).1.Enqueued?
    ensures var (s1, r1) := Enqueue(s, first, now);
            var t := Run(s1, steps);
            && r1.id < |s1.deliveries| <= |t.deliveries|
            && s1.deliveries[r1.id].event.key == first.key
            && (FindByKey(s.deliveries, first.key).None? ==> s1.deliveries[r1.id].event == first)
            && Enqueue(t, again, later) == (t, r1)
            && t.deliveries[r1.id].event == s1.deliveries[r1.id].event
  {
    StepKeeps(s, EnqueueStep(first, now));
    var (s1, r1) := Enqueue(s, first, now);
    EventsAreFrozen(s1, steps, r1.id);
    RunKeeps(s1, steps);
    KeyIsFound(Run(s1, steps), r1.id);
    if steps != [] { EventsAreFrozen(s1, steps, |s1.deliveries| - 1); }
  }

  // ---------- Progress ----------

  function Measure(d: Delivery): nat {
    match d.status
    case Pending => 8
    case RetryWait => if d.roundAttemptCount <= 4 then 2 * (4 - d.roundAttemptCount) else 0
    case Sending => if 1 <= d.roundAttemptCount <= 4 then 2 * (4 - d.roundAttemptCount) + 1 else 0
    case Succeeded => 0
    case Failed => 0
  }

  function Total(ds: seq<Delivery>): nat {
    if ds == [] then 0 else Total(ds[..|ds| - 1]) + Measure(ds[|ds| - 1])
  }

  predicate WorkerStep(step: Step) {
    step.ClaimStep? || step.CompleteStep? || step.FailStep? || step.RecoverStep?
  }

  predicate Done(d: Delivery) {
    d.status.Succeeded? || d.status.Failed?
  }

  lemma {:induction false} TotalDrops(a: seq<Delivery>, b: seq<Delivery>)
    requires |a| == |b|
    requires forall i | 0 <= i < |a| :: Measure(b[i]) <= Measure(a[i])
    ensures Total(b) <= Total(a)
    ensures (exists i :: 0 <= i < |a| && Measure(b[i]) < Measure(a[i])) ==> Total(b) < Total(a)
  {
    if a != [] {
      var m := |a| - 1;
      TotalDrops(a[..m], b[..m]);
      if i :| 0 <= i < |a| && Measure(b[i]) < Measure(a[i]) {
        if i < m { assert Measure(b[..m][i]) < Measure(a[..m][i]); }
      }
    }
  }

  lemma {:induction false} TotalBound(ds: seq<Delivery>)
    ensures Total(ds) <= 8 * |ds|
    ensures Total(ds) == 0 ==> forall i | 0 <= i < |ds| :: Measure(ds[i]) == 0
  {
    if ds != [] { TotalBound(ds[..|ds| - 1]); }
  }

  lemma ChangeMeasure(d: Delivery, i: nat, attempts: map<AttemptKey, Attempt>, d': Delivery, step: Step)
    requires RowOk(d, i, attempts) && WorkerStep(step) && RowChange(d, d', step)
    ensures d' == d || Measure(d') < Measure(d)
  {
  }

  lemma ChangesDrop(s: State, ds': seq<Delivery>, step: Step)
    requires Inv(s) && WorkerStep(step) && AllRowsChange(s.deliveries, ds', step)
    ensures Total(ds') <= Total(s.deliveries)
    ensures ds' != s.deliveries ==> Total(ds') < Total(s.deliveries)
  {
    forall i: nat | i < |s.deliveries|
      ensures ds'[i] == s.deliveries[i] || Measure(ds'[i]) < Measure(s.deliveries[i])
    {
      ChangeMeasure(s.deliveries[i], i, s.attempts, ds'[i], step);
    }
    TotalDrops(s.deliveries, ds');
  }

  ghost predicate AllRowsChange(ds: seq<Delivery>, ds': seq<Delivery>, step: Step) {
    && |ds'| == |ds|
    && forall i: nat | i < |ds| :: RowChange(ds[i], ds'[i], step)
  }

  lemma AllRowsDo(s: State, step: Step)
    requires WorkerStep(step)
    ensures AllRowsChange(s.deliveries, Do(s, step).0.deliveries, step)
  {
    var ds' := Do(s, step).0.deliveries;
    assert |ds'| == |s.deliveries|;
    forall i: nat | i < |s.deliveries| ensures RowChange(s.deliveries[i], ds'[i], step) {
      RowChanges(s, step, i);
    }
  }

  lemma WorkerStepDrops(s: State, step: Step)
    requires Inv(s) && WorkerStep(step)
    ensures |Do(s, step).0.deliveries| == |s.deliveries|
    ensures Total(Do(s, step).0.deliveries) <= Total(s.deliveries)
    ensures Do(s, step).0.deliveries != s.deliveries ==> Total(Do(s, step).0.deliveries) < Total(s.deliveries)
  {
    AllRowsDo(s, step);
    ChangesDrop(s, Do(s, step).0.deliveries, step);
  }

  // A worker step that touches no row touches nothing.
  lemma ChangeShowsInRow(s: State, step: Step)
    requires Inv(s) && WorkerStep(step) && Do(s, step).0.deliveries == s.deliveries
    ensures Do(s, step).0 == s
  {
    if step.RecoverStep? {
      forall i: nat | i < |s.deliveries| ensures !Recoverable(s.deliveries, i, step.now, step.locked) {
        RecoverRow(s, step.now, step.locked, i);
      }
      assert Do(s, step).0.attempts == s.attempts;
    }
  }

  function EffectiveSteps(s: State, steps: seq<Step>): nat
    decreases |steps|
  {
    if steps == [] then 0
    else (if Do(s, steps[0]).0 != s then 1 else 0) + EffectiveSteps(Do(s, steps[0]).0, steps[1..])
  }

  // Workers alone can change the outbox at most eight times per delivery.
  lemma {:induction false} WorkersSettle(s: State, steps: seq<Step>)
    requires Inv(s)
    requires forall k | 0 <= k < |steps| :: WorkerStep(steps[k])
    ensures |Run(s, steps).deliveries| == |s.deliveries|
    ensures EffectiveSteps(s, steps) + Total(Run(s, steps).deliveries) <= Total(s.deliveries)
    ensures EffectiveSteps(s, steps) <= 8 * |s.deliveries|
    decreases |steps|
  {
    TotalBound(s.deliveries);
    if steps != [] {
      WorkerStepDrops(s, steps[0]);
      if Do(s, steps[0]).0.deliveries == s.deliveries { ChangeShowsInRow(s, steps[0]); }
      StepKeeps(s, steps[0]);
      WorkersSettle(Do(s, steps[0]).0, steps[1..]);
    }
  }

  // ---------- Draining ----------

  const LONGEST_DELAY: int := 1800

  // No lease or retry date in the table lies later than a clock that stood at t.
  ghost predicate DatedBy(s: State, t: Instant) {
    forall i: nat | i < |s.deliveries| :: RowDated(s.deliveries[i], t)
  }

  function Clock(step: Step): Instant
    requires WorkerStep(step)
  {
    step.now
  }

  ghost predicate RowDated(d: Delivery, t: Instant) {
    && (d.claimedAt.Some? ==> d.claimedAt.value <= t)
    && (d.nextAttemptAt.Some? ==> d.nextAttemptAt.value <= t + LONGEST_DELAY)
  }

  lemma StepDates(s: State, step: Step, t: Instant)
    requires WorkerStep(step) && Clock(step) <= t && DatedBy(s, t)
    ensures DatedBy(Do(s, step).0, t)
  {
    AllRowsDo(s, step);
  }

  lemma {:induction false} RunDates(s: State, steps: seq<Step>, t: Instant)
    requires Inv(s) && DatedBy(s, t)
    requires forall k | 0 <= k < |steps| :: WorkerStep(steps[k]) && Clock(steps[k]) <= t
    ensures DatedBy(Run(s, steps), t)
    decreases |steps|
  {
    if steps != [] {
      StepDates(s, steps[0], t);
      StepKeeps(s, steps[0]);
      RunDates(Do(s, steps[0]).0, steps[1..], t);
    }
  }

  function Poll(s: State, now: Instant): State {
    ClaimNext(RecoverStaleClaims(s, now, {}).0, now, {}).0
  }

  lemma ClaimPollKeeps(s: State, now: Instant)
    requires Inv(s)
    ensures var ds' := ClaimNext(s, now, {}).0.deliveries;
            Inv(ClaimNext(s, now, {}).0) && |ds'| == |s.deliveries| && Total(ds') <= Total(s.deliveries)
  {
    ClaimKeeps(s, now, {});
    WorkerStepDrops(s, ClaimStep(now, {}));
  }

  lemma PollKeeps(s: State, now: Instant)
    requires Inv(s)
    ensures Inv(Poll(s, now)) && |Poll(s, now).deliveries| == |s.deliveries|
    ensures Total(Poll(s, now).deliveries) <= Total(RecoverStaleClaims(s, now, {}).0.deliveries) <= Total(s.deliveries)
  {
    RecoverKeeps(s, now, {});
    WorkerStepDrops(s, RecoverStep(now, {}));
    ClaimPollKeeps(RecoverStaleClaims(s, now, {}).0, now);
  }

  lemma PollRecovers(s: State, i: nat, now: Instant)
    requires Inv(s) && i < |s.deliveries| && Stale(s.deliveries[i], now)
    ensures Total(Poll(s, now).deliveries) < Total(s.deliveries)
  {
    PollKeeps(s, now);
    RecoverRow(s, now, {}, i);
    WorkerStepDrops(s, RecoverStep(now, {}));
    assert Recoverable(s.deliveries, i, now, {});
    assert Do(s, RecoverStep(now, {})).0.deliveries[i] == FailedDelivery(s.deliveries[i], STALE_RESULT, now);
  }

  lemma ClaimDrops(s: State, i: nat, now: Instant)
    requires Inv(s) && i < |s.deliveries| && Claimable(s.deliveries[i], now)
    ensures Total(ClaimNext(s, now, {}).0.deliveries) < Total(s.deliveries)
  {
    ClaimKeeps(s, now, {});
    WorkerStepDrops(s, ClaimStep(now, {}));
    ClaimChanges(s, i, now);
  }

  lemma ClaimChanges(s: State, i: nat, now: Instant)
    requires i < |s.deliveries| && Claimable(s.deliveries[i], now) && !ClaimNext(s, now, {}).1.DuplicateAttempt?
    ensures ClaimNext(s, now, {}).0.deliveries != s.deliveries
  {
    var j := NextClaim(s.deliveries, now, {}, |s.deliveries|).value;
    assert ClaimNext(s, now, {}).0.deliveries[j].status.Sending?;
  }

  lemma RecoverLeaves(s: State, i: nat, now: Instant)
    requires Inv(s) && i < |s.deliveries| && !s.deliveries[i].status.Sending?
    ensures var s1 := RecoverStaleClaims(s, now, {}).0;
            |s1.deliveries| == |s.deliveries| && s1.deliveries[i] == s.deliveries[i]
  {
  }

  lemma PollClaims(s: State, i: nat, now: Instant)
    requires Inv(s) && i < |s.deliveries| && Claimable(s.deliveries[i], now)
    ensures Total(Poll(s, now).deliveries) < Total(s.deliveries)
  {
    PollKeeps(s, now);
    RecoverLeaves(s, i, now);
    RecoverKeeps(s, now, {});
    ClaimDrops(RecoverStaleClaims(s, now, {}).0, i, now);
  }

  // As time passes, a poll always finds work while a delivery is unfinished.
  lemma PollProgresses(s: State, t: Instant, now: Instant)
    requires Inv(s) && DatedBy(s, t) && now >= t + LONGEST_DELAY
    requires exists i :: 0 <= i < |s.deliveries| && !Done(s.deliveries[i])
    ensures Total(Poll(s, now).deliveries) < Total(s.deliveries)
  {
    var i: nat :| i < |s.deliveries| && !Done(s.deliveries[i]);
    assert RowOk(s.deliveries[i], i, s.attempts);
    if s.deliveries[i].status.Sending? { PollRecovers(s, i, now); } else { PollClaims(s, i, now); }
  }

  // One poll and whatever the workers do afterwards, up to the clock reading `until`.
  datatype Cycle = Cycle(now: Instant, after: seq<Step>, until: Instant)

  ghost predicate WellPaced(t: Instant, cycles: seq<Cycle>)
    decreases |cycles|
  {
    cycles == []
    || (&& t + LONGEST_DELAY <= cycles[0].now <= cycles[0].until
        && (forall k | 0 <= k < |cycles[0].after| ::
              WorkerStep(cycles[0].after[k]) && Clock(cycles[0].after[k]) <= cycles[0].until)
        && WellPaced(cycles[0].until, cycles[1..]))
  }

  function RunCycles(s: State, cycles: seq<Cycle>): State
    decreases |cycles|
  {
    if cycles == [] then s
    else RunCycles(Run(Poll(s, cycles[0].now), cycles[0].after), cycles[1..])
  }

  // One cycle keeps the invariant and the pace, and makes progress while anything is unfinished.
  lemma CycleProgresses(s: State, t: Instant, c: Cycle)
    requires Inv(s) && DatedBy(s, t) && WellPaced(t, [c])
    ensures var s' := Run(Poll(s, c.now), c.after);
            && Inv(s') && DatedBy(s', c.until) && |s'.deliveries| == |s.deliveries|
            && Total(s'.deliveries) <= (if Total(s.deliveries) == 0 then 0 else Total(s.deliveries) - 1)
  {
    PollKeeps(s, c.now);
    if forall i | 0 <= i < |s.deliveries| :: Done(s.deliveries[i]) {
      AllDoneTotal(s.deliveries);
    } else {
      PollProgresses(s, t, c.now);
    }
    PollDates(s, t, c.now);
    AfterPoll(Poll(s, c.now), c);
  }

  lemma AfterPoll(p: State, c: Cycle)
    requires Inv(p) && DatedBy(p, c.now) && c.now <= c.until
    requires forall k | 0 <= k < |c.after| :: WorkerStep(c.after[k]) && Clock(c.after[k]) <= c.until
    ensures var s' := Run(p, c.after);
            && Inv(s') && DatedBy(s', c.until) && |s'.deliveries| == |p.deliveries|
            && Total(s'.deliveries) <= Total(p.deliveries)
  {
    RunDates(p, c.after, c.until);
    RunKeeps(p, c.after);
    WorkersSettle(p, c.after);
  }

  // Whatever the provider answers and whichever workers die, enough polls finish every delivery.
  lemma {:induction false} PollingDrains(s: State, t: Instant, cycles: seq<Cycle>)
    requires Inv(s) && DatedBy(s, t) && WellPaced(t, cycles)
    requires |cycles| >= Total(s.deliveries)
    ensures |RunCycles(s, cycles).deliveries| == |s.deliveries|
    ensures forall i | 0 <= i < |s.deliveries| :: Done(RunCycles(s, cycles).deliveries[i])
    decreases |cycles|
  {
    if cycles == [] {
      TotalBound(s.deliveries);
      forall i | 0 <= i < |s.deliveries| ensures Done(s.deliveries[i]) {
        assert RowOk(s.deliveries[i], i, s.attempts);
      }
    } else {
      var c := cycles[0];
      CycleProgresses(s, t, c);
      PollingDrains(Run(Poll(s, c.now), c.after), c.until, cycles[1..]);
    }
  }

  lemma {:induction false} AllDoneTotal(ds: seq<Delivery>)
    requires forall i | 0 <= i < |ds| :: Done(ds[i])
    ensures Total(ds) == 0
  {
    if ds != [] { AllDoneTotal(ds[..|ds| - 1]); }
  }

  lemma PollDates(s: State, t: Instant, now: Instant)
    requires DatedBy(s, t) && t <= now
    ensures DatedBy(Poll(s, now), now)
  {
    StepDates(s, RecoverStep(now, {}), now);
    StepDates(RecoverStaleClaims(s, now, {}).0, ClaimStep(now, {}), now);
  }

  // Every table has such a clock reading.
  lemma {:induction false} SomeClock(ds: seq<Delivery>) returns (t: Instant)
    ensures DatedBy(State(ds, map[], 0), t)
  {
    if ds == [] {
      t := 0;
    } else {
      var m := |ds| - 1;
      var u := SomeClock(ds[..m]);
      t := if ds[m].claimedAt.GetOr(u) > u then ds[m].claimedAt.GetOr(u) else u;
      t := if ds[m].nextAttemptAt.GetOr(t) > t then ds[m].nextAttemptAt.GetOr(t) else t;
      forall i: nat | i < |ds|
        ensures RowDated(ds[i], t)
      {
        if i < m { assert ds[..m][i] == ds[i]; }
      }
    }
  }

  // A state in which no poll, at any time, can do anything has finished every delivery.
  lemma QuietMeansDone(s: State)
    requires Inv(s)
    requires forall now :: Poll(s, now) == s
    ensures forall i | 0 <= i < |s.deliveries| :: Done(s.deliveries[i])
  {
    var t := SomeClock(s.deliveries);
    assert DatedBy(s, t) by {
      var u := State(s.deliveries, map[], 0);
      forall i: nat | i < |s.deliveries|
        ensures RowDated(s.deliveries[i], t)
      {
        assert u.deliveries[i] == s.deliveries[i];
      }
    }
    assert Poll(s, t + LONGEST_DELAY) == s;
    if i :| 0 <= i < |s.deliveries| && !Done(s.deliveries[i]) {
      PollProgresses(s, t, t + LONGEST_DELAY);
    }
  }
}
