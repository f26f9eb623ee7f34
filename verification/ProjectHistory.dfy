/** What every step keeps about one project: the columns its status owns, and a history that is
    an unbroken chain of legal moves ending in the project's status. */
module ProjectHistory {
  import opened Wrappers
  import opened Workflow
  import opened ProjectLedger

  // ---------- The history of one project ----------

  predicate CreationEntry(e: Entry) {
    e.action.Created? && e.previous.None? && e.newStatus.PendingApplication? && e.fromVersion == 0 && e.toVersion == 1
  }

  predicate Link(a: Entry, b: Entry) {
    && !b.action.Created?
    && b.previous == Some(a.newStatus)
    && b.toVersion == b.fromVersion + 1
    && a.toVersion <= b.fromVersion
    && b.after.Some?
    && LegalMove(a.newStatus, b.newStatus, b.action.Corrected?)
  }

  ghost predicate Chained(h: seq<Entry>) {
    && h != [] && CreationEntry(h[0])
    && forall k | 0 < k < |h| :: Link(h[k - 1], h[k])
  }

  // The clock never ran backwards between two entries.
  ghost predicate InOrder(h: seq<Entry>) {
    forall j, k | 0 <= j < k < |h| :: h[j].occurredAt <= h[k].occurredAt
  }

  // Once submitted, a project is never pending again, and is terminated only from submitted.
  ghost predicate NeverUnsubmitted(h: seq<Entry>) {
    forall j, k | 0 <= j < k < |h| && h[j].newStatus.Submitted? ::
      && !h[k].newStatus.PendingApplication?
      && (h[k].newStatus.Terminated? ==> h[k].previous == Some(Submitted))
  }

  // The history is the row's: it leads to the row's status, and not past its version.
  ghost predicate HistoryOk(p: Project, h: seq<Entry>) {
    && Chained(h)
    && var last := h[|h| - 1];
    last.newStatus == p.status && last.toVersion <= p.version
  }

  // ---------- The termination search ----------

  lemma LatestOfAppended(h: seq<Entry>, e: Entry)
    ensures LatestTermination(h + [e])
            == if e.newStatus.Terminated?
                  && (LatestTermination(h).None? || h[LatestTermination(h).value].occurredAt <= e.occurredAt)
               then Some(|h|) else LatestTermination(h)
  {
    assert (h + [e])[..|h|] == h;
  }

  // For any history and any clock: after a termination the search finds the status that was
  // left if and only if no earlier termination carries a later time, or the newest such one
  // left the same status.
  lemma TerminationSearchExact(h: seq<Entry>, e: Entry)
    requires e.newStatus.Terminated? && e.previous.Some?
    ensures PreTermination(h + [e]) == e.previous <==>
              || (forall j | 0 <= j < |h| && h[j].newStatus.Terminated? :: h[j].occurredAt <= e.occurredAt)
              || PreTermination(h) == e.previous
  {
    LatestOfAppended(h, e);
  }

  // Whatever the clock did, the search never finds a result.
  lemma SearchFindsOpenStatus(h: seq<Entry>)
    requires Chained(h)
    ensures PreTermination(h) in {None, Some(PendingApplication), Some(Submitted)}
  {
    var r := LatestTermination(h);
    if r.Some? { assert Link(h[r.value - 1], h[r.value]); }
  }

  // If the clock never ran backwards on this project, it finds the status that was left.
  lemma SearchFindsStatusLeft(h: seq<Entry>)
    requires Chained(h) && InOrder(h) && h[|h| - 1].newStatus.Terminated?
    ensures PreTermination(h) == h[|h| - 1].previous
    ensures PreTermination(h) in {Some(PendingApplication), Some(Submitted)}
  {
    var last := h[|h| - 1];
    assert |h| > 1;
    assert Link(h[|h| - 2], last);
    assert h == h[..|h| - 1] + [last];
    TerminationSearchExact(h[..|h| - 1], last);
  }

  // ---------- How a project can change ----------

  datatype Move = Move(result: WorkflowResult, correction: bool, reason: Option<string>, now: Instant)

  // The workflow result that a status step computes on this row.
  ghost predicate Computes(p: Project, h: seq<Entry>, step: Step, m: Move) {
    || (step.TransitionStep? && !m.correction && m.now == step.now
        && m.result == ApplyTransition(p.status, p.values, step.payload, step.today))
    || (step.CorrectStep? && m.correction && m.now == step.now
        && m.result == ApplyCorrection(p.status, p.values, PreTermination(h), step.payload, step.today))
  }

  ghost predicate Moves(p: Project, h: seq<Entry>, p': Project, h': seq<Entry>, step: Step) {
    exists m: Move :: m.result.Moved? && Computes(p, h, step, m) && p' == MovedProject(p, m.result) && Checks(p')
      && h' == h + [MoveEntry(p, m.result, m.correction, m.reason, m.now)]
  }

  ghost predicate Touches(p: Project, p': Project, step: Step) {
    || (step.UpdateStep? && UpdateValid(p, step.changes, step.today) && Checks(p') && p' == UpdatedProject(p, step.changes))
    || (step.CorrectPrimaryStep?
        && p' == p.(primaryId := p'.primaryId, entityCode := p'.entityCode, entityName := p'.entityName, version := p.version + 1))
  }

  ghost predicate RowChange(p: Project, h: seq<Entry>, p': Project, h': seq<Entry>, step: Step) {
    || (p' == p && h' == h)
    || (h' == h && Touches(p, p', step))
    || Moves(p, h, p', h', step)
  }

  lemma TransitionChanges(s: State, id: nat, actor: User, v: nat, payload: Payload, today: Date, now: Instant)
    requires |s.projects| == |s.histories|
    ensures var (s', reply) := Transition(s, id, actor, v, payload, today, now);
            s' == s || (Known(s, id) && StatusStep(s, id, s')
                        && Moves(s.projects[id], s.histories[id], s'.projects[id], s'.histories[id],
                                 TransitionStep(id, actor, v, payload, today, now)))
  {
    var (s', reply) := Transition(s, id, actor, v, payload, today, now);
    if s' != s {
      var p := s.projects[id];
      var m := Move(ApplyTransition(p.status, p.values, payload, today), false, None, now);
      assert Computes(p, s.histories[id], TransitionStep(id, actor, v, payload, today, now), m);
    }
  }

  lemma CorrectionChanges(
    s: State, id: nat, actor: User, v: nat, payload: Payload, reason: Option<string>, today: Date, now: Instant)
    requires |s.projects| == |s.histories|
    ensures var (s', reply) := CorrectStatus(s, id, actor, v, payload, reason, today, now);
            s' == s || (Known(s, id) && StatusStep(s, id, s')
                        && Moves(s.projects[id], s.histories[id], s'.projects[id], s'.histories[id],
                                 CorrectStep(id, actor, v, payload, reason, today, now)))
  {
    var (s', reply) := CorrectStatus(s, id, actor, v, payload, reason, today, now);
    if s' != s {
      var p := s.projects[id];
      var m := Move(ApplyCorrection(p.status, p.values, PreTermination(s.histories[id]), payload, today), true, reason, now);
      assert Computes(p, s.histories[id], CorrectStep(id, actor, v, payload, reason, today, now), m);
    }
  }

  // A status step touches one row, its history and the outbox.
  ghost predicate StatusStep(s: State, id: nat, s': State) {
    && |s'.projects| == |s.projects| && |s'.histories| == |s.histories|
    && (forall i: nat | i < |s.projects| && i != id :: s'.projects[i] == s.projects[i])
    && (forall i: nat | i < |s.histories| && i != id :: s'.histories[i] == s.histories[i])
    && s'.audits == s.audits && s'.drafts == s.drafts
  }

  // The step is about project i.
  predicate On(step: Step, i: nat) {
    match step
    case TransitionStep(id, _, _, _, _, _) => id == i
    case CorrectStep(id, _, _, _, _, _, _) => id == i
    case UpdateStep(id, _, _, _, _) => id == i
    case CorrectPrimaryStep(id, _, _, _, _) => id == i
    case _ => false
  }

  lemma RowChanges(s: State, step: Step, i: nat)
    requires |s.projects| == |s.histories| && i < |s.projects|
    ensures var s' := Do(s, step).0;
            && |s'.projects| == |s'.histories| && |s'.projects| >= |s.projects|
            && RowChange(s.projects[i], s.histories[i], s'.projects[i], s'.histories[i], step)
            && (!On(step, i) ==> s'.projects[i] == s.projects[i] && s'.histories[i] == s.histories[i])
  {
    match step
    case CheckStep(_, _, _, _, _) =>
    case InsertStep(_, _, _) =>
    case TransitionStep(id, actor, v, payload, today, now) => TransitionChanges(s, id, actor, v, payload, today, now);
    case CorrectStep(id, actor, v, payload, reason, today, now) =>
      CorrectionChanges(s, id, actor, v, payload, reason, today, now);
    case UpdateStep(_, _, _, _, _) =>
    case CorrectPrimaryStep(_, _, _, _, _) =>
    case OutboxStep(_) =>
  }

  // ---------- What a change keeps ----------

  // The day that a step reads, if it is one that may change dates.
  function StepDay(step: Step): Option<Date> {
    match step
    case TransitionStep(_, _, _, _, today, _) => Some(today)
    case CorrectStep(_, _, _, _, _, today, _) => Some(today)
    case UpdateStep(_, _, _, _, today) => Some(today)
    case _ => None
  }

  predicate DatedBy(step: Step, day: Date) {
    StepDay(step).Some? ==> StepDay(step).value <= day
  }

  lemma OwnedLater(status: Status, v: Values, day: Date, later: Date)
    requires Owned(status, v, day) && day <= later
    ensures Owned(status, v, later)
  {
  }

  lemma UpdateKeepsOwnership(p: Project, c: Changes, day: Date, today: Date)
    requires Owned(p.status, p.values, day) && UpdateValid(p, c, today)
    ensures Owned(p.status, UpdatedProject(p, c).values, today)
  {
  }

  // An update is accepted exactly when it leaves the project well-formed and named, and touches
  // result and termination columns only in the statuses that own them.
  lemma UpdateAcceptsExactly(p: Project, c: Changes, day: Date, today: Date)
    requires Owned(p.status, p.values, day)
    ensures UpdateValid(p, c, today) <==>
              && Owned(p.status, UpdatedProject(p, c).values, today) && c.name != Set(None)
              && (c.values.resultOn.Set? || c.values.resultNote.Set? ==> p.status in {Succeeded, Rejected})
              && (c.values.terminationNote.Set? ==> p.status.Terminated?)
  {
  }

  lemma MoveIsLegal(p: Project, h: seq<Entry>, step: Step, m: Move)
    requires HistoryOk(p, h) && Computes(p, h, step, m) && m.result.Moved?
    ensures LegalMove(p.status, m.result.newStatus, m.correction)
  {
    SearchFindsOpenStatus(h);
  }

  lemma MoveKeepsOwnership(p: Project, h: seq<Entry>, step: Step, m: Move, day: Date)
    requires HistoryOk(p, h) && Owned(p.status, p.values, day) && DatedBy(step, day)
    requires Computes(p, h, step, m) && m.result.Moved? && Checks(MovedProject(p, m.result))
    ensures Owned(m.result.newStatus, Patched(p.values, m.result.values), day)
  {
    if m.correction {
      SearchFindsOpenStatus(h);
      CorrectionOwnershipExact(p.status, p.values, PreTermination(h), step.payload, day, step.today);
    } else {
      TransitionKeepsOwnership(p.status, p.values, step.payload, day, step.today);
    }
  }

  lemma MoveKeepsHistory(p: Project, h: seq<Entry>, m: Move)
    requires HistoryOk(p, h) && m.result.Moved? && LegalMove(p.status, m.result.newStatus, m.correction)
    ensures HistoryOk(MovedProject(p, m.result), h + [MoveEntry(p, m.result, m.correction, m.reason, m.now)])
  {
    assert Link(h[|h| - 1], MoveEntry(p, m.result, m.correction, m.reason, m.now));
  }

  lemma RowKeeps(p: Project, h: seq<Entry>, p': Project, h': seq<Entry>, step: Step)
    requires HistoryOk(p, h) && RowChange(p, h, p', h', step)
    ensures HistoryOk(p', h')
  {
    if Moves(p, h, p', h', step) {
      var m: Move :| m.result.Moved? && Computes(p, h, step, m) && p' == MovedProject(p, m.result) && Checks(p')
        && h' == h + [MoveEntry(p, m.result, m.correction, m.reason, m.now)];
      MoveIsLegal(p, h, step, m);
      MoveKeepsHistory(p, h, m);
    }
  }

  ghost predicate FieldsOk(p: Project, day: Date) {
    Owned(p.status, p.values, day) && Checks(p)
  }

  lemma RowKeepsFields(p: Project, h: seq<Entry>, p': Project, h': seq<Entry>, step: Step, day: Date)
    requires HistoryOk(p, h) && FieldsOk(p, day) && DatedBy(step, day) && RowChange(p, h, p', h', step)
    ensures FieldsOk(p', day)
  {
    if Moves(p, h, p', h', step) {
      var m: Move :| m.result.Moved? && Computes(p, h, step, m) && p' == MovedProject(p, m.result) && Checks(p')
        && h' == h + [MoveEntry(p, m.result, m.correction, m.reason, m.now)];
      MoveKeepsOwnership(p, h, step, m, day);
    } else if h' == h && Touches(p, p', step) && step.UpdateStep? {
      UpdateKeepsOwnership(p, step.changes, day, step.today);
      OwnedLater(p'.status, p'.values, step.today, day);
    }
  }

  // ---------- One project's clock ----------

  // No entry is earlier than the one before it, and so a submission is never undone.
  ghost predicate InTime(h: seq<Entry>) {
    InOrder(h) && NeverUnsubmitted(h)
  }

  // A status step reads the clock after the last entry of its project was dated.
  predicate Timely(h: seq<Entry>, step: Step) {
    && (step.TransitionStep? && h != [] ==> h[|h| - 1].occurredAt <= step.now)
    && (step.CorrectStep? && h != [] ==> h[|h| - 1].occurredAt <= step.now)
  }

  lemma MoveKeepsTime(p: Project, h: seq<Entry>, m: Move)
    requires HistoryOk(p, h) && InTime(h) && m.result.Moved? && h[|h| - 1].occurredAt <= m.now
    requires LegalMove(p.status, m.result.newStatus, m.correction)
    requires m.correction && p.status.Terminated? ==> Some(m.result.newStatus) == h[|h| - 1].previous
    ensures InTime(h + [MoveEntry(p, m.result, m.correction, m.reason, m.now)])
  {
    var e := MoveEntry(p, m.result, m.correction, m.reason, m.now);
    var h' := h + [e];
    var n := |h|;
    assert InOrder(h') by {
      forall j, k | 0 <= j < k < |h'| ensures h'[j].occurredAt <= h'[k].occurredAt {
        if k == n && j < n - 1 { assert h[j].occurredAt <= h[n - 1].occurredAt; }
      }
    }
    assert NeverUnsubmitted(h') by {
      forall j, k | 0 <= j < k < |h'| && h'[j].newStatus.Submitted?
        ensures !h'[k].newStatus.PendingApplication?
        ensures h'[k].newStatus.Terminated? ==> h'[k].previous == Some(Submitted)
      {
        if k == n && j < n - 1 { assert h[j].newStatus.Submitted? && !h[n - 1].newStatus.PendingApplication?; }
      }
    }
  }

  lemma RowKeepsTime(p: Project, h: seq<Entry>, p': Project, h': seq<Entry>, step: Step)
    requires HistoryOk(p, h) && InTime(h) && Timely(h, step) && RowChange(p, h, p', h', step)
    ensures InTime(h')
  {
    if Moves(p, h, p', h', step) {
      var m: Move :| m.result.Moved? && Computes(p, h, step, m) && p' == MovedProject(p, m.result) && Checks(p')
        && h' == h + [MoveEntry(p, m.result, m.correction, m.reason, m.now)];
      MoveIsLegal(p, h, step, m);
      if p.status.Terminated? { SearchFindsStatusLeft(h); }
      MoveKeepsTime(p, h, m);
    }
  }

  // ---------- When a submission is undone ----------

  ghost predicate EverSubmitted(h: seq<Entry>) {
    exists j :: 0 <= j < |h| && h[j].newStatus.Submitted?
  }

  // The correction that the search's answer lets through: back to pending, although the project was
  // submitted since.
  ghost predicate LosesSubmission(s: State, step: Step, i: nat) {
    && step.CorrectStep? && step.id == i && Known(s, i)
    && var p := s.projects[i];
    && p.version == step.expectedVersion && MayChangeStatus(step.actor, p)
    && p.status.Terminated? && step.payload.target.PendingApplication?
    && PreTermination(s.histories[i]) == Some(PendingApplication) && EverSubmitted(s.histories[i])
  }

  lemma AppendedUnsubmits(h: seq<Entry>, e: Entry)
    requires Chained(h) && NeverUnsubmitted(h) && Link(h[|h| - 1], e)
    ensures NeverUnsubmitted(h + [e]) <==> !(EverSubmitted(h) && e.newStatus.PendingApplication?)
  {
    var n, h' := |h|, h + [e];
    if EverSubmitted(h) {
      var j :| 0 <= j < n && h[j].newStatus.Submitted?;
      assert h'[j].newStatus.Submitted? && h'[n] == e;
      assert j < n - 1 ==> !h[n - 1].newStatus.PendingApplication?;
    }
    if !(EverSubmitted(h) && e.newStatus.PendingApplication?) {
      forall j, k | 0 <= j < k < |h'| && h'[j].newStatus.Submitted?
        ensures !h'[k].newStatus.PendingApplication?
        ensures h'[k].newStatus.Terminated? ==> h'[k].previous == Some(Submitted)
      {
        if k == n { assert h[j].newStatus.Submitted? && (j < n - 1 ==> !h[n - 1].newStatus.PendingApplication?); }
      }
    }
  }

  lemma LossChecksOut(p: Project, h: seq<Entry>, payload: Payload, today: Date, day: Date)
    requires Owned(p.status, p.values, day) && Checks(p) && p.status.Terminated? && payload.target.PendingApplication?
    requires PreTermination(h) == Some(PendingApplication)
    ensures var r := ApplyCorrection(p.status, p.values, PreTermination(h), payload, today);
            r.Moved? && Checks(MovedProject(p, r))
  {
    CorrectionOwnershipExact(p.status, p.values, PreTermination(h), payload, day, today);
  }

  // What a move does to a history that never undid a submission.
  lemma MoveUnsubmits(p: Project, h: seq<Entry>, step: Step, m: Move)
    requires HistoryOk(p, h) && NeverUnsubmitted(h) && Computes(p, h, step, m) && m.result.Moved?
    ensures NeverUnsubmitted(h + [MoveEntry(p, m.result, m.correction, m.reason, m.now)]) <==>
              !(EverSubmitted(h) && m.correction && p.status.Terminated? && step.payload.target.PendingApplication?
                && PreTermination(h) == Some(PendingApplication))
  {
    MoveIsLegal(p, h, step, m);
    AppendedUnsubmits(h, MoveEntry(p, m.result, m.correction, m.reason, m.now));
  }

  // A step undoes a submission exactly when it is that correction.
  lemma SubmissionLostExactly(s: State, step: Step, i: nat, day: Date)
    requires |s.projects| == |s.histories| && i < |s.projects|
    requires HistoryOk(s.projects[i], s.histories[i]) && Owned(s.projects[i].status, s.projects[i].values, day)
    requires Checks(s.projects[i]) && NeverUnsubmitted(s.histories[i])
    ensures i < |Do(s, step).0.histories|
    ensures !NeverUnsubmitted(Do(s, step).0.histories[i]) <==> LosesSubmission(s, step, i)
  {
    var p, h := s.projects[i], s.histories[i];
    RowChanges(s, step, i);
    if LosesSubmission(s, step, i) {
      LossChecksOut(p, h, step.payload, step.today, day);
      var r := ApplyCorrection(p.status, p.values, PreTermination(h), step.payload, step.today);
      var m := Move(r, true, step.reason, step.now);
      assert Computes(p, h, step, m);
      MoveUnsubmits(p, h, step, m);
    } else {
      RowKeepsSubmission(s, step, i);
    }
  }

  lemma RowKeepsSubmission(s: State, step: Step, i: nat)
    requires |s.projects| == |s.histories| && i < |s.projects|
    requires HistoryOk(s.projects[i], s.histories[i]) && NeverUnsubmitted(s.histories[i]) && !LosesSubmission(s, step, i)
    ensures i < |Do(s, step).0.histories| && NeverUnsubmitted(Do(s, step).0.histories[i])
  {
    var p, h, s' := s.projects[i], s.histories[i], Do(s, step).0;
    RowChanges(s, step, i);
    if Moves(p, h, s'.projects[i], s'.histories[i], step) {
      var m: Move :| m.result.Moved? && Computes(p, h, step, m) && s'.projects[i] == MovedProject(p, m.result)
        && Checks(s'.projects[i]) && s'.histories[i] == h + [MoveEntry(p, m.result, m.correction, m.reason, m.now)];
      MoveUnsubmits(p, h, step, m);
    }
  }

  // ---------- Every step and every run ----------

  ghost predicate DraftOk(draft: Project) {
    draft.status.PendingApplication? && draft.values == NoValues && draft.version == 1
  }

  ghost predicate LedgerOk(s: State) {
    && |s.projects| == |s.histories|
    && (forall i: nat | i < |s.projects| :: HistoryOk(s.projects[i], s.histories[i]))
    && (forall call | call in s.drafts :: DraftOk(s.drafts[call]))
  }

  lemma NewRow(draft: Project, now: Instant, day: Date)
    requires DraftOk(draft) && Checks(draft)
    ensures HistoryOk(draft, [CreatedEntry(now)]) && InTime([CreatedEntry(now)]) && FieldsOk(draft, day)
  {
  }

  // What an insert adds.
  ghost predicate Inserts(s: State, call: nat, s': State, now: Instant) {
    && call in s.drafts && Checks(s.drafts[call])
    && s'.projects == s.projects + [s.drafts[call]]
    && s'.histories == s.histories + [[CreatedEntry(now)]]
  }

  lemma NewRows(s: State, step: Step)
    requires |s.projects| == |s.histories|
    ensures var s' := Do(s, step).0;
            |s'.projects| == |s.projects| || (step.InsertStep? && Inserts(s, step.call, s', step.now))
    ensures forall call | call in Do(s, step).0.drafts ::
              DraftOk(Do(s, step).0.drafts[call]) || (call in s.drafts && Do(s, step).0.drafts[call] == s.drafts[call])
  {
    if step.TransitionStep? {
      TransitionChanges(s, step.id, step.actor, step.expectedVersion, step.payload, step.today, step.now);
    } else if step.CorrectStep? {
      CorrectionChanges(s, step.id, step.actor, step.expectedVersion, step.payload, step.reason, step.today, step.now);
    }
  }

  lemma LengthsAgree(s: State, step: Step)
    requires |s.projects| == |s.histories|
    ensures |Do(s, step).0.projects| == |Do(s, step).0.histories| >= |s.projects|
  {
    if step.TransitionStep? {
      TransitionChanges(s, step.id, step.actor, step.expectedVersion, step.payload, step.today, step.now);
    } else if step.CorrectStep? {
      CorrectionChanges(s, step.id, step.actor, step.expectedVersion, step.payload, step.reason, step.today, step.now);
    }
  }

  lemma StepKeepsLedger(s: State, step: Step)
    requires LedgerOk(s)
    ensures LedgerOk(Do(s, step).0)
  {
    var s' := Do(s, step).0;
    NewRows(s, step);
    LengthsAgree(s, step);
    forall i: nat | i < |s'.projects| ensures HistoryOk(s'.projects[i], s'.histories[i]) {
      if i < |s.projects| {
        RowChanges(s, step, i);
        RowKeeps(s.projects[i], s.histories[i], s'.projects[i], s'.histories[i], step);
      } else {
        NewRow(s.drafts[step.call], step.now, 0);
      }
    }
  }

  lemma {:induction false} RunKeepsLedger(s: State, steps: seq<Step>)
    requires LedgerOk(s)
    ensures LedgerOk(Run(s, steps))
    decreases |steps|
  {
    if steps != [] {
      StepKeepsLedger(s, steps[0]);
      RunKeepsLedger(Do(s, steps[0]).0, steps[1..]);
    }
  }

  // ---------- Dates and clock along a run ----------

  // Project i, once it exists, owns its fields by this day.
  ghost predicate OwnsFields(s: State, i: nat, day: Date) {
    i < |s.projects| ==> FieldsOk(s.projects[i], day)
  }

  lemma StepKeepsFields(s: State, step: Step, i: nat, day: Date)
    requires LedgerOk(s) && OwnsFields(s, i, day) && (On(step, i) ==> DatedBy(step, day))
    ensures OwnsFields(Do(s, step).0, i, day)
  {
    var s' := Do(s, step).0;
    if i < |s.projects| {
      RowChanges(s, step, i);
      if On(step, i) { RowKeepsFields(s.projects[i], s.histories[i], s'.projects[i], s'.histories[i], step, day); }
    } else if i < |s'.projects| {
      NewRows(s, step);
      NewRow(s.drafts[step.call], step.now, day);
    }
  }

  lemma {:induction false} RunKeepsFields(s: State, steps: seq<Step>, i: nat, day: Date)
    requires LedgerOk(s) && OwnsFields(s, i, day)
    requires forall k | 0 <= k < |steps| :: On(steps[k], i) ==> DatedBy(steps[k], day)
    ensures OwnsFields(Run(s, steps), i, day)
    decreases |steps|
  {
    if steps != [] {
      StepKeepsFields(s, steps[0], i, day);
      StepKeepsLedger(s, steps[0]);
      RunKeepsFields(Do(s, steps[0]).0, steps[1..], i, day);
    }
  }

  // Projects that do not exist yet have no history.
  function HistoryOf(s: State, i: nat): seq<Entry> {
    if i < |s.histories| then s.histories[i] else []
  }

  // On project i the clock does not run backwards.
  ghost predicate TimelyRun(s: State, steps: seq<Step>, i: nat)
    decreases |steps|
  {
    steps == []
    || ((On(steps[0], i) ==> Timely(HistoryOf(s, i), steps[0])) && TimelyRun(Do(s, steps[0]).0, steps[1..], i))
  }

  lemma StepKeepsTime(s: State, step: Step, i: nat)
    requires LedgerOk(s) && InTime(HistoryOf(s, i)) && (On(step, i) ==> Timely(HistoryOf(s, i), step))
    ensures InTime(HistoryOf(Do(s, step).0, i))
  {
    var s' := Do(s, step).0;
    LengthsAgree(s, step);
    if i < |s.projects| {
      RowChanges(s, step, i);
      if On(step, i) { RowKeepsTime(s.projects[i], s.histories[i], s'.projects[i], s'.histories[i], step); }
    } else if i < |s'.projects| {
      NewRows(s, step);
      NewRow(s.drafts[step.call], step.now, 0);
    }
  }

  lemma {:induction false} RunKeepsTime(s: State, steps: seq<Step>, i: nat)
    requires LedgerOk(s) && InTime(HistoryOf(s, i)) && TimelyRun(s, steps, i)
    ensures InTime(HistoryOf(Run(s, steps), i))
    decreases |steps|
  {
    if steps != [] {
      StepKeepsTime(s, steps[0], i);
      StepKeepsLedger(s, steps[0]);
      RunKeepsTime(Do(s, steps[0]).0, steps[1..], i);
    }
  }

  // Some step of the run undoes a submission of project i.
  ghost predicate LosesOnRun(s: State, steps: seq<Step>, i: nat)
    decreases |steps|
  {
    steps != [] && (LosesSubmission(s, steps[0], i) || LosesOnRun(Do(s, steps[0]).0, steps[1..], i))
  }

  lemma HistoryGrows(s: State, step: Step, i: nat)
    requires |s.projects| == |s.histories|
    ensures HistoryOf(s, i) <= HistoryOf(Do(s, step).0, i)
  {
    if i < |s.projects| { RowChanges(s, step, i); }
  }

  lemma UndoneStays(h: seq<Entry>, h': seq<Entry>)
    requires !NeverUnsubmitted(h) && h <= h'
    ensures !NeverUnsubmitted(h')
  {
    var j, k :| 0 <= j < k < |h| && h[j].newStatus.Submitted?
      && (h[k].newStatus.PendingApplication? || (h[k].newStatus.Terminated? && h[k].previous != Some(Submitted)));
    assert h'[j] == h[j] && h'[k] == h[k];
  }

  lemma {:induction false} UndoneOnRun(s: State, steps: seq<Step>, i: nat)
    requires LedgerOk(s) && !NeverUnsubmitted(HistoryOf(s, i))
    ensures !NeverUnsubmitted(HistoryOf(Run(s, steps), i))
    decreases |steps|
  {
    if steps != [] {
      StepKeepsLedger(s, steps[0]);
      HistoryGrows(s, steps[0], i);
      UndoneStays(HistoryOf(s, i), HistoryOf(Do(s, steps[0]).0, i));
      UndoneOnRun(Do(s, steps[0]).0, steps[1..], i);
    }
  }

  lemma StepUndoes(s: State, step: Step, i: nat, day: Date)
    requires LedgerOk(s) && OwnsFields(s, i, day) && NeverUnsubmitted(HistoryOf(s, i))
    ensures !NeverUnsubmitted(HistoryOf(Do(s, step).0, i)) <==> LosesSubmission(s, step, i)
  {
    LengthsAgree(s, step);
    if i < |s.projects| {
      SubmissionLostExactly(s, step, i, day);
    } else if i < |Do(s, step).0.projects| {
      NewRows(s, step);
      NewRow(s.drafts[step.call], step.now, day);
    }
  }

  lemma {:induction false} RunUndoes(s: State, steps: seq<Step>, i: nat, day: Date)
    requires LedgerOk(s) && OwnsFields(s, i, day) && NeverUnsubmitted(HistoryOf(s, i))
    requires forall k | 0 <= k < |steps| :: On(steps[k], i) ==> DatedBy(steps[k], day)
    ensures NeverUnsubmitted(HistoryOf(Run(s, steps), i)) <==> !LosesOnRun(s, steps, i)
    decreases |steps|
  {
    if steps != [] {
      StepUndoes(s, steps[0], i, day);
      StepKeepsLedger(s, steps[0]);
      StepKeepsFields(s, steps[0], i, day);
      if LosesSubmission(s, steps[0], i) {
        UndoneOnRun(Do(s, steps[0]).0, steps[1..], i);
      } else {
        RunUndoes(Do(s, steps[0]).0, steps[1..], i, day);
      }
    }
  }
}
