/** Whole runs of the project ledger: conversions that race, status changes, corrections, field
    updates and the notification workers, in any interleaving. */
module ProjectRuns {
  import opened Wrappers
  import opened Workflow
  import opened ProjectLedger
  import opened ProjectHistory
  import opened ProjectEvents
  import Evaluations
  import EvaluationRuns
  import Events
  import opened OutboxEvents
  import Sorting

  ghost predicate Good(s: State) {
    LedgerOk(s) && EventsOk(s) && ConversionOk(s)
  }

  lemma EmptyIsGood()
    ensures Good(Empty)
  {
  }

  lemma StepKeepsGood(s: State, step: Step)
    requires Good(s) && Foreign(step)
    ensures Good(Do(s, step).0)
  {
    StepKeepsLedger(s, step);
    StepNotifies(s, step);
    StepKeepsConversion(s, step);
  }

  // Others enqueue only their own events.
  predicate Proper(steps: seq<Step>) {
    forall k | 0 <= k < |steps| :: Foreign(steps[k])
  }

  lemma {:induction false} RunKeepsGood(s: State, steps: seq<Step>)
    requires Good(s) && Proper(steps)
    ensures Good(Run(s, steps))
    decreases |steps|
  {
    if steps != [] {
      StepKeepsGood(s, steps[0]);
      RunKeepsGood(Do(s, steps[0]).0, steps[1..]);
    }
  }

  // ---------- History and fields ----------

  // Whatever the clocks say: a history is an unbroken chain of legal moves from its creation to the
  // status of the row.
  lemma HistoryIsChain(steps: seq<Step>, i: nat)
    requires i < |Run(Empty, steps).projects|
    ensures var s := Run(Empty, steps);
            && |s.histories| == |s.projects|
            && var h := s.histories[i];
            var p := s.projects[i];
            && h != [] && CreationEntry(h[0])
            && (forall k | 0 < k < |h| :: Link(h[k - 1], h[k]))
            && h[|h| - 1].newStatus == p.status && h[|h| - 1].toVersion <= p.version
            && PreTermination(h) in {None, Some(PendingApplication), Some(Submitted)}
  {
    RunKeepsLedger(Empty, steps);
    var s := Run(Empty, steps);
    assert HistoryOk(s.projects[i], s.histories[i]);
    SearchFindsOpenStatus(s.histories[i]);
  }

  // If the clock does not run backwards on project i, whatever it does elsewhere, the search finds
  // the status that was left and a submitted project is never pending again.
  lemma SearchIsRight(steps: seq<Step>, i: nat)
    requires i < |Run(Empty, steps).projects| && TimelyRun(Empty, steps, i)
    ensures var s := Run(Empty, steps);
            && i < |s.histories| && s.histories[i] != []
            && var h := s.histories[i];
            && NeverUnsubmitted(h)
            && (s.projects[i].status.Terminated? ==>
                  PreTermination(h) == h[|h| - 1].previous && PreTermination(h) in {Some(PendingApplication), Some(Submitted)})
  {
    RunKeepsLedger(Empty, steps);
    RunKeepsTime(Empty, steps, i);
    var s := Run(Empty, steps);
    assert HistoryOk(s.projects[i], s.histories[i]);
    if s.projects[i].status.Terminated? { SearchFindsStatusLeft(s.histories[i]); }
  }

  // A day after which no step of the run read the calendar.
  function LastDay(steps: seq<Step>): (day: Date)
    ensures forall k | 0 <= k < |steps| :: DatedBy(steps[k], day)
  {
    if steps == [] then 0
    else
      var before := LastDay(steps[..|steps| - 1]);
      assert forall k | 0 <= k < |steps| - 1 :: steps[..|steps| - 1][k] == steps[k];
      Later(before, StepDay(steps[|steps| - 1]).GetOr(before))
  }

  // Each status owns its columns, in every reachable state; the dates are ordered and none is later
  // than the latest day that a step of this project has read.
  lemma FieldsAreOwned(steps: seq<Step>, i: nat, day: Date)
    requires i < |Run(Empty, steps).projects|
    requires forall k | 0 <= k < |steps| :: On(steps[k], i) ==> DatedBy(steps[k], day)
    ensures var p := Run(Empty, steps).projects[i];
            Owned(p.status, p.values, day) && Checks(p)
  {
    RunKeepsFields(Empty, steps, i, day);
    assert OwnsFields(Run(Empty, steps), i, day);
  }

  // Whatever the clocks say, a submitted project is never pending again, and is terminated from
  // submitted only, exactly as long as no correction takes back to pending a terminated project
  // for which the search answers pending although it was submitted.
  lemma NeverUnsubmittedExact(steps: seq<Step>, i: nat)
    requires i < |Run(Empty, steps).projects|
    ensures var s := Run(Empty, steps);
            i < |s.histories| && (NeverUnsubmitted(s.histories[i]) <==> !LosesOnRun(Empty, steps, i))
  {
    RunKeepsLedger(Empty, steps);
    RunUndoes(Empty, steps, i, LastDay(steps));
  }

  // The restoration that the rules accept and the table refuses.
  predicate RestoresCleared(s: State, step: Step) {
    && step.CorrectStep? && Known(s, step.id)
    && var p := s.projects[step.id];
    && p.version == step.expectedVersion && MayChangeStatus(step.actor, p)
    && p.status.Terminated? && PreTermination(s.histories[step.id]) == Some(Submitted)
    && step.payload.target.Submitted? && p.values.submittedOn.None?
  }

  // An update that is accepted but for a name of blanks.
  predicate BlanksName(s: State, step: Step) {
    && step.UpdateStep? && Known(s, step.id)
    && var p := s.projects[step.id];
    && p.version == step.expectedVersion && MayUpdate(step.actor, p, step.changes)
    && UpdateValid(p, step.changes, step.today)
    && step.changes.name.Set? && step.changes.name.value.Some? && !NonBlank(step.changes.name.value.value)
  }

  // The rules keep the CHECK constraints by themselves but for two cases: a project that was
  // terminated while submitted is restored after its submission date was cleared, or a project is
  // given a blank name.
  lemma CheckAbortsExactly(steps: seq<Step>, step: Step)
    ensures var s := Run(Empty, steps);
            Do(s, step).1.CheckViolation? <==> RestoresCleared(s, step) || BlanksName(s, step)
  {
    var s := Run(Empty, steps);
    RunKeepsLedger(Empty, steps);
    if (step.TransitionStep? || step.CorrectStep? || step.UpdateStep?) && Known(s, step.id) {
      var day := LastDay(steps);
      FieldsAreOwned(steps, step.id, day);
      StepChecks(s, step, day);
    }
  }

  lemma StepChecks(s: State, step: Step, day: Date)
    requires step.TransitionStep? || step.CorrectStep? || step.UpdateStep?
    requires Known(s, step.id) && HistoryOk(s.projects[step.id], s.histories[step.id]) && FieldsOk(s.projects[step.id], day)
    ensures Do(s, step).1.CheckViolation? <==> RestoresCleared(s, step) || BlanksName(s, step)
  {
    var p, h := s.projects[step.id], s.histories[step.id];
    match step
    case TransitionStep(_, _, _, payload, today, _) => TransitionKeepsOwnership(p.status, p.values, payload, day, today);
    case CorrectStep(_, _, _, payload, _, today, _) =>
      SearchFindsOpenStatus(h);
      CorrectionOwnershipExact(p.status, p.values, PreTermination(h), payload, day, today);
      CorrectionChecks(p, h, day, payload, today);
    case UpdateStep(_, _, _, changes, today) =>
      if UpdateValid(p, changes, today) { UpdateKeepsOwnership(p, changes, day, today); }
  }

  lemma CorrectionChecks(p: Project, h: seq<Entry>, day: Date, payload: Payload, today: Date)
    requires HistoryOk(p, h) && FieldsOk(p, day)
    ensures var r := ApplyCorrection(p.status, p.values, PreTermination(h), payload, today);
            r.Moved? ==>
              (Checks(MovedProject(p, r)) <==> !(p.status.Terminated? && payload.target.Submitted? && p.values.submittedOn.None?))
  {
    SearchFindsOpenStatus(h);
    CorrectionOwnershipExact(p.status, p.values, PreTermination(h), payload, day, today);
  }

  // Clearing the submission date of a terminated project is accepted, so the abort is reachable.
  lemma ClearingIsAccepted(steps: seq<Step>, id: nat, actor: User, today: Date)
    requires id < |Run(Empty, steps).projects|
    requires Run(Empty, steps).projects[id].status.Terminated? && MayChangeStatus(actor, Run(Empty, steps).projects[id])
    ensures var s := Run(Empty, steps);
            var clear := Changes(Keep, Keep, Keep, Patch(Set(None), Keep, Keep, Keep));
            var (s', reply) := Update(s, id, actor, s.projects[id].version, clear, today);
            reply == Returned(id) && s'.projects[id].values.submittedOn.None?
  {
    RunKeepsLedger(Empty, steps);
    FieldsAreOwned(steps, id, LastDay(steps));
  }

  lemma {:induction false} VersionsGrow(s: State, steps: seq<Step>, i: nat)
    requires |s.projects| == |s.histories| && i < |s.projects|
    ensures |Run(s, steps).projects| == |Run(s, steps).histories| && i < |Run(s, steps).projects|
    ensures Run(s, steps).projects[i].version >= s.projects[i].version
    ensures SameIdentity(s.projects[i], Run(s, steps).projects[i])
    decreases |steps|
  {
    if steps != [] {
      RowChanges(s, steps[0], i);
      ChangeKeepsIdentity(s.projects[i], s.histories[i], Do(s, steps[0]).0.projects[i], Do(s, steps[0]).0.histories[i], steps[0]);
      VersionsGrow(Do(s, steps[0]).0, steps[1..], i);
    }
  }

  predicate VersionedWrite(step: Step) {
    step.TransitionStep? || step.CorrectStep? || step.UpdateStep? || step.CorrectPrimaryStep?
  }

  // Once a write has changed a project, every write that expected the old version conflicts.
  lemma OneWritePerVersion(s: State, first: Step, steps: seq<Step>, second: Step)
    requires |s.projects| == |s.histories|
    requires VersionedWrite(first) && VersionedWrite(second) && second.id == first.id
    requires second.expectedVersion == first.expectedVersion
    requires Do(s, first).0.projects != s.projects
    ensures Do(Run(Do(s, first).0, steps), second).1.VersionConflict?
    ensures Do(Run(Do(s, first).0, steps), second).0 == Run(Do(s, first).0, steps)
  {
    WriteTakesVersion(s, first);
    RowChanges(s, first, first.id);
    VersionsGrow(Do(s, first).0, steps, first.id);
    StaleWriteConflicts(Run(Do(s, first).0, steps), second);
  }

  lemma WriteTakesVersion(s: State, step: Step)
    requires |s.projects| == |s.histories| && VersionedWrite(step) && Do(s, step).0.projects != s.projects
    ensures step.id < |s.projects| && s.projects[step.id].version == step.expectedVersion
    ensures |Do(s, step).0.projects| == |s.projects|
    ensures Do(s, step).0.projects[step.id].version == step.expectedVersion + 1
  {
  }

  lemma StaleWriteConflicts(s: State, step: Step)
    requires VersionedWrite(step) && Known(s, step.id) && s.projects[step.id].version > step.expectedVersion
    ensures Do(s, step).1.VersionConflict? && Do(s, step).0 == s
  {
  }

  // ---------- Notifications ----------

  // A first-submission (first-success) delivery exists if and only if the history ever entered
  // that status; there is one, and it shows what the first entry recorded.
  lemma FirstEventsMatchHistory(steps: seq<Step>, i: nat)
    requires Proper(steps) && i < |Run(Empty, steps).projects|
    ensures var s := Run(Empty, steps);
            && i < |s.histories|
            && SnapshotOf(EventOf(s.outbox, Events.FirstSubmitted(i))) == ExpectedSubmission(s.histories[i])
            && SnapshotOf(EventOf(s.outbox, Events.FirstSucceeded(i))) == ExpectedSuccess(s.histories[i])
            && EventOf(s.outbox, Events.ProjectCreated(i)).Some?
            && (forall a: nat, b: nat | a < b < |s.outbox.deliveries| ::
                  s.outbox.deliveries[a].event.key != s.outbox.deliveries[b].event.key)
  {
    EmptyIsGood();
    RunKeepsGood(Empty, steps);
    var s := Run(Empty, steps);
    assert Notifies(s.outbox, i, HistoryOf(s, i));
    assert HistoryOk(s.projects[i], s.histories[i]);
  }

  lemma StepKeepsEvent(s: State, step: Step, key: Events.EventKey)
    requires EventOf(s.outbox, key).Some?
    ensures EventOf(Do(s, step).0.outbox, key) == EventOf(s.outbox, key)
  {
    if step.OutboxStep? {
      if step.outboxStep.EnqueueStep? {
        EnqueueEvent(s.outbox, step.outboxStep.event, step.outboxStep.now, key);
      } else {
        DeliveryKeepsEvents(s.outbox, step.outboxStep, key);
      }
    } else if Do(s, step).0.outbox != s.outbox {
      var e, now := EnqueuedBy(s, step);
      EnqueueEvent(s.outbox, e, now, key);
    }
  }

  lemma {:induction false} RunKeepsEvent(s: State, steps: seq<Step>, key: Events.EventKey)
    requires EventOf(s.outbox, key).Some?
    ensures EventOf(Run(s, steps).outbox, key) == EventOf(s.outbox, key)
    decreases |steps|
  {
    if steps != [] {
      StepKeepsEvent(s, steps[0], key);
      RunKeepsEvent(Do(s, steps[0]).0, steps[1..], key);
    }
  }

  // The created notification of a project shows for ever the name, entity and deadline that the
  // conversion gave it, whatever is updated later.
  lemma CreatedShowsConversion(before: seq<Step>, step: Step, steps: seq<Step>)
    requires Proper(before) && |Do(Run(Empty, before), step).0.projects| > |Run(Empty, before).projects|
    ensures var i := |Run(Empty, before).projects|;
            var s' := Do(Run(Empty, before), step).0;
            var p := s'.projects[i];
            EventOf(Run(s', steps).outbox, Events.ProjectCreated(i))
            == Some(Events.Event(Events.ProjectCreated(i), p.name, Events.CreationSnapshot(p.entityName, p.deadlineOn)))
  {
    var s := Run(Empty, before);
    EmptyIsGood();
    RunKeepsGood(Empty, before);
    var i := |s.projects|;
    assert Notifies(s.outbox, i, HistoryOf(s, i));
    NewRows(s, step);
    EnqueueEvent(s.outbox, CreatedEvent(i, s.drafts[step.call]), step.now, Events.ProjectCreated(i));
    RunKeepsEvent(Do(s, step).0, steps, Events.ProjectCreated(i));
  }

  // ---------- Conversion ----------

  // However conversions race and whatever their clocks say, there is one project per policy and per
  // key, with one created entry, one pair of creation audits and one created notification.
  lemma ConvertedOnce(steps: seq<Step>)
    requires Proper(steps)
    ensures var s := Run(Empty, steps);
            && (forall i: nat, j: nat | i < |s.projects| && j < |s.projects| ::
                  (s.projects[i].policyId == s.projects[j].policyId || s.projects[i].idempotencyKey == s.projects[j].idempotencyKey)
                  ==> i == j)
            && (forall i: nat, k: nat | i < |s.histories| && k < |s.histories[i]| :: s.histories[i][k].action.Created? <==> k == 0)
            && (forall i: nat :: s.audits[ProjectCreatedAudit(i)] == if i < |s.projects| then 1 else 0)
            && (forall policy: nat, i: nat ::
                  s.audits[PolicyConvertedAudit(policy, i)]
                  == if i < |s.projects| && s.projects[i].policyId == policy then 1 else 0)
            && (forall i: nat :: EventOf(s.outbox, Events.ProjectCreated(i)).Some? <==> i < |s.projects|)
  {
    EmptyIsGood();
    RunKeepsGood(Empty, steps);
    var s := Run(Empty, steps);
    forall i: nat ensures EventOf(s.outbox, Events.ProjectCreated(i)).Some? <==> i < |s.projects| {
      assert Notifies(s.outbox, i, HistoryOf(s, i));
      if i < |s.projects| { assert HistoryOk(s.projects[i], s.histories[i]); }
    }
    forall i: nat, k: nat | i < |s.histories| && k < |s.histories[i]|
      ensures s.histories[i][k].action.Created? <==> k == 0
    {
      assert HistoryOk(s.projects[i], s.histories[i]);
      if k > 0 { assert Link(s.histories[i][k - 1], s.histories[i][k]); }
    }
  }

  // The key and fingerprint that a conversion step asks for.
  function AskedKey(s: State, step: Step): string
    requires step.CheckStep? || (step.InsertStep? && step.call in s.drafts)
  {
    if step.CheckStep? then step.request.idempotencyKey else s.drafts[step.call].idempotencyKey
  }

  function AskedFingerprint(s: State, step: Step): Fingerprint
    requires step.CheckStep? || (step.InsertStep? && step.call in s.drafts)
  {
    if step.CheckStep? then RequestFingerprint(step.request, step.policy) else s.drafts[step.call].fingerprint
  }

  lemma ReturnMatches(s: State, step: Step)
    requires step.CheckStep? || (step.InsertStep? && step.call in s.drafts)
    requires Do(s, step).1.Returned?
    ensures var i := Do(s, step).1.project;
            var ps' := Do(s, step).0.projects;
            i < |ps'| && ps'[i].idempotencyKey == AskedKey(s, step) && ps'[i].fingerprint == AskedFingerprint(s, step)
  {
  }

  lemma KeyIsUnique(ps: seq<Project>, i: nat, key: string)
    requires UniqueProjects(ps) && i < |ps| && ps[i].idempotencyKey == key
    ensures forall j: nat | j < |ps| && ps[j].idempotencyKey == key :: j == i
  {
  }

  // Whether it won or lost the race, a call that returns a project returns the only one with its
  // key, with a matching fingerprint, and it stays so in every continuation.
  lemma ReturnedProjectIsTheOne(before: seq<Step>, step: Step, steps: seq<Step>)
    requires Proper(before) && Foreign(step) && Proper(steps)
    requires step.CheckStep? || (step.InsertStep? && step.call in Run(Empty, before).drafts)
    requires Do(Run(Empty, before), step).1.Returned?
    ensures var s := Run(Empty, before);
            var i := Do(s, step).1.project;
            var t := Run(Do(s, step).0, steps);
            && i < |t.projects|
            && t.projects[i].idempotencyKey == AskedKey(s, step)
            && t.projects[i].fingerprint == AskedFingerprint(s, step)
            && (forall j: nat | j < |t.projects| && t.projects[j].idempotencyKey == AskedKey(s, step) :: j == i)
  {
    var s := Run(Empty, before);
    EmptyIsGood();
    RunKeepsGood(Empty, before);
    var i := Do(s, step).1.project;
    StepKeepsGood(s, step);
    RunKeepsGood(Do(s, step).0, steps);
    ReturnMatches(s, step);
    VersionsGrow(Do(s, step).0, steps, i);
    KeyIsUnique(Run(Do(s, step).0, steps).projects, i, AskedKey(s, step));
  }

  // A policy whose conclusion allows conversion always has its primary entity.
  lemma PrimaryMissingUnreachable(
    evaluationSteps: seq<Evaluations.Step>, s: State, r: Request, policy: PolicyFields, users: map<nat, bool>)
    ensures !CheckReply(s, Evaluations.Run(Evaluations.Empty, evaluationSteps), r, policy, users).PrimaryEntityMissing?
  {
    var e := Evaluations.Run(Evaluations.Empty, evaluationSteps);
    if r.policyId < |e.policies| && Convertible(e.policies[r.policyId]) {
      EvaluationRuns.ConfirmedRecommendationHasPrimary(evaluationSteps, r.policyId);
    }
  }

  lemma FingerprintForgetsMemberOrder(a: Fingerprint, b: Fingerprint, membersA: seq<nat>, membersB: seq<nat>)
    requires a == CreationFingerprint(a.policyId, a.name, a.deadlineOn, a.liaison, membersA)
    requires b == CreationFingerprint(b.policyId, b.name, b.deadlineOn, b.liaison, membersB)
    ensures a == b <==>
              && a.policyId == b.policyId && a.name == b.name && a.deadlineOn == b.deadlineOn && a.liaison == b.liaison
              && multiset(membersA) == multiset(membersB)
  {
    Sorting.SortForgetsOrder((m: nat) => m as int, membersA, membersB);
  }
}
