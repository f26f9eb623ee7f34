/** The ledger and the outbox agree: each project's creation and first-status notifications are
    exactly what its history says, and conversion happens once per policy and per key. */
module ProjectEvents {
  import opened Wrappers
  import opened Workflow
  import opened ProjectLedger
  import opened ProjectHistory
  import Events
  import Outbox
  import opened OutboxEvents
  import OutboxLedger

  // Other parts of the system enqueue their own events only.
  predicate Foreign(step: Step) {
    step.OutboxStep? ==> step.outboxStep.EnqueueStep? ==> step.outboxStep.event.key.FailureEpisode?
  }

  // ---------- What the history says must have been notified ----------

  function FirstEntry(h: seq<Entry>, status: Status): (r: Option<nat>)
    ensures r.Some? ==> r.value < |h| && h[r.value].newStatus == status
                        && forall j | 0 <= j < r.value :: h[j].newStatus != status
    ensures r.None? ==> forall j | 0 <= j < |h| :: h[j].newStatus != status
  {
    if h == [] then None
    else if FirstEntry(h[..|h| - 1], status).Some? then FirstEntry(h[..|h| - 1], status)
    else if h[|h| - 1].newStatus == status then Some(|h| - 1)
    else None
  }

  // The values a history row recorded.
  function Recorded(e: Entry): Values {
    e.after.GetOr(NoValues)
  }

  function ExpectedSubmission(h: seq<Entry>): Option<Events.Snapshot> {
    var k := FirstEntry(h, Submitted);
    if k.None? then None else Some(Events.SubmissionSnapshot(Recorded(h[k.value]).submittedOn))
  }

  function ExpectedSuccess(h: seq<Entry>): Option<Events.Snapshot> {
    var k := FirstEntry(h, Succeeded);
    if k.None? then None
    else
      var v := Recorded(h[k.value]);
      Some(Events.SuccessSnapshot(v.resultOn, Clipped(v.resultNote)))
  }

  ghost predicate Notifies(o: Outbox.State, i: nat, h: seq<Entry>) {
    && EventOf(o, Events.ProjectCreated(i)).Some? == (h != [])
    && SnapshotOf(EventOf(o, Events.FirstSubmitted(i))) == ExpectedSubmission(h)
    && SnapshotOf(EventOf(o, Events.FirstSucceeded(i))) == ExpectedSuccess(h)
  }

  ghost predicate EventsOk(s: State) {
    forall i: nat :: Notifies(s.outbox, i, HistoryOf(s, i))
  }

  // ---------- Steps ----------

  lemma FirstOfAppended(h: seq<Entry>, e: Entry, status: Status)
    ensures FirstEntry(h + [e], status)
            == if FirstEntry(h, status).Some? then FirstEntry(h, status)
               else if e.newStatus == status then Some(|h|) else None
  {
    assert (h + [e])[..|h|] == h;
  }

  lemma MoveNotifies(o: Outbox.State, i: nat, p: Project, h: seq<Entry>, m: Move, now: Instant)
    requires h != [] && Notifies(o, i, h) && m.result.Moved?
    ensures Notifies(Notified(o, FirstStatusEvent(i, MovedProject(p, m.result)), now), i,
                     h + [MoveEntry(p, m.result, m.correction, m.reason, m.now)])
  {
    var e := MoveEntry(p, m.result, m.correction, m.reason, m.now);
    var event := FirstStatusEvent(i, MovedProject(p, m.result));
    FirstOfAppended(h, e, Submitted);
    FirstOfAppended(h, e, Succeeded);
    if event.Some? {
      EnqueueEvent(o, event.value, now, Events.ProjectCreated(i));
      EnqueueEvent(o, event.value, now, Events.FirstSubmitted(i));
      EnqueueEvent(o, event.value, now, Events.FirstSucceeded(i));
    }
  }

  // An event about project i is invisible to the others.
  predicate About(e: Events.Event, i: nat) {
    match e.key
    case ProjectCreated(j) => j == i
    case FirstSubmitted(j) => j == i
    case FirstSucceeded(j) => j == i
    case FailureEpisode(_, _) => false
  }

  lemma OthersUnnotified(o: Outbox.State, e: Events.Event, now: Instant, i: nat, h: seq<Entry>)
    requires Notifies(o, i, h) && !About(e, i)
    ensures Notifies(Outbox.Enqueue(o, e, now).0, i, h)
  {
    EnqueueEvent(o, e, now, Events.ProjectCreated(i));
    EnqueueEvent(o, e, now, Events.FirstSubmitted(i));
    EnqueueEvent(o, e, now, Events.FirstSucceeded(i));
  }

  lemma QuietNotifies(s: State, s': State)
    requires EventsOk(s) && s'.outbox == s.outbox && s'.histories == s.histories
    ensures EventsOk(s')
  {
    forall i: nat ensures Notifies(s'.outbox, i, HistoryOf(s', i)) {
      assert HistoryOf(s', i) == HistoryOf(s, i);
    }
  }

  lemma PersistNotifies(s: State, id: nat, m: Move, now: Instant)
    requires EventsOk(s) && Known(s, id) && m.result.Moved? && s.histories[id] != []
    ensures EventsOk(Persist(s, id, m.result, m.correction, m.reason, now).0)
  {
    var s' := Persist(s, id, m.result, m.correction, m.reason, now).0;
    if s' != s {
      var p := s.projects[id];
      var event := FirstStatusEvent(id, MovedProject(p, m.result));
      forall i: nat ensures Notifies(s'.outbox, i, HistoryOf(s', i)) {
        assert Notifies(s.outbox, i, HistoryOf(s, i));
        if i == id {
          MoveNotifies(s.outbox, id, p, s.histories[id], m.(now := now), now);
        } else if event.Some? {
          OthersUnnotified(s.outbox, event.value, now, i, HistoryOf(s, i));
        }
      }
    }
  }

  lemma CreationNotifies(o: Outbox.State, i: nat, e: Events.Event, now: Instant, at: Instant)
    requires Notifies(o, i, []) && e.key == Events.ProjectCreated(i)
    ensures Notifies(Outbox.Enqueue(o, e, now).0, i, [CreatedEntry(at)])
  {
    EnqueueEvent(o, e, now, Events.ProjectCreated(i));
    EnqueueEvent(o, e, now, Events.FirstSubmitted(i));
    EnqueueEvent(o, e, now, Events.FirstSucceeded(i));
    assert [CreatedEntry(at)][..0] == [];
  }

  lemma InsertNotifies(s: State, call: nat, visible: bool, now: Instant)
    requires EventsOk(s) && |s.projects| == |s.histories|
    ensures EventsOk(InsertConversion(s, call, visible, now).0)
  {
    var s' := InsertConversion(s, call, visible, now).0;
    if |s'.projects| > |s.projects| {
      var e := CreatedEvent(|s.projects|, s.drafts[call]);
      forall i: nat ensures Notifies(s'.outbox, i, HistoryOf(s', i)) {
        assert Notifies(s.outbox, i, HistoryOf(s, i));
        if i != |s.projects| {
          OthersUnnotified(s.outbox, e, now, i, HistoryOf(s, i));
        } else {
          CreationNotifies(s.outbox, i, e, now, now);
        }
      }
    } else {
      QuietNotifies(s, s');
    }
  }

  lemma DeliveryNotifies(o: Outbox.State, step: Outbox.Step, i: nat, h: seq<Entry>)
    requires Notifies(o, i, h) && Foreign(OutboxStep(step))
    ensures Notifies(Outbox.Do(o, step).0, i, h)
  {
    if step.EnqueueStep? {
      OthersUnnotified(o, step.event, step.now, i, h);
    } else {
      DeliveryKeepsEvents(o, step, Events.ProjectCreated(i));
      DeliveryKeepsEvents(o, step, Events.FirstSubmitted(i));
      DeliveryKeepsEvents(o, step, Events.FirstSucceeded(i));
    }
  }

  lemma OutboxNotifies(s: State, o: Outbox.Step)
    requires EventsOk(s) && Foreign(OutboxStep(o))
    ensures EventsOk(Do(s, OutboxStep(o)).0)
  {
    var s' := Do(s, OutboxStep(o)).0;
    forall i: nat ensures Notifies(s'.outbox, i, HistoryOf(s', i)) {
      DeliveryNotifies(s.outbox, o, i, HistoryOf(s, i));
    }
  }

  lemma TransitionNotifies(s: State, step: Step)
    requires EventsOk(s) && step.TransitionStep?
    requires forall i: nat | i < |s.histories| :: s.histories[i] != []
    ensures EventsOk(Do(s, step).0)
  {
    if Known(s, step.id) {
      var p := s.projects[step.id];
      var r := ApplyTransition(p.status, p.values, step.payload, step.today);
      if r.Moved? { PersistNotifies(s, step.id, Move(r, false, None, step.now), step.now); }
    }
  }

  lemma CorrectionNotifies(s: State, step: Step)
    requires EventsOk(s) && step.CorrectStep?
    requires forall i: nat | i < |s.histories| :: s.histories[i] != []
    ensures EventsOk(Do(s, step).0)
  {
    if Known(s, step.id) {
      var p := s.projects[step.id];
      var r := ApplyCorrection(p.status, p.values, PreTermination(s.histories[step.id]), step.payload, step.today);
      if r.Moved? { PersistNotifies(s, step.id, Move(r, true, step.reason, step.now), step.now); }
    }
  }

  lemma StepNotifies(s: State, step: Step)
    requires EventsOk(s) && Foreign(step) && |s.projects| == |s.histories|
    requires forall i: nat | i < |s.histories| :: s.histories[i] != []
    ensures EventsOk(Do(s, step).0)
  {
    match step
    case CheckStep(_, _, _, _, _) => QuietNotifies(s, Do(s, step).0);
    case InsertStep(call, visible, now) => InsertNotifies(s, call, visible, now);
    case TransitionStep(_, _, _, _, _, _) => TransitionNotifies(s, step);
    case CorrectStep(_, _, _, _, _, _, _) => CorrectionNotifies(s, step);
    case UpdateStep(_, _, _, _, _) => QuietNotifies(s, Do(s, step).0);
    case CorrectPrimaryStep(_, _, _, _, _) => QuietNotifies(s, Do(s, step).0);
    case OutboxStep(o) => OutboxNotifies(s, o);
  }

  // ---------- Conversion happens once ----------

  ghost predicate UniqueProjects(ps: seq<Project>) {
    forall i: nat, j: nat | i < j < |ps| ::
      ps[i].policyId != ps[j].policyId && ps[i].idempotencyKey != ps[j].idempotencyKey
  }

  ghost predicate Audited(s: State) {
    && (forall i: nat :: s.audits[ProjectCreatedAudit(i)] == if i < |s.projects| then 1 else 0)
    && (forall policy: nat, i: nat ::
          s.audits[PolicyConvertedAudit(policy, i)]
          == if i < |s.projects| && s.projects[i].policyId == policy then 1 else 0)
  }

  ghost predicate ConversionOk(s: State) {
    UniqueProjects(s.projects) && Audited(s) && OutboxLedger.Inv(s.outbox)
  }

  // A row keeps the columns that conversion fixed.
  predicate SameIdentity(p: Project, p': Project) {
    p'.policyId == p.policyId && p'.idempotencyKey == p.idempotencyKey && p'.fingerprint == p.fingerprint
  }

  lemma ChangeKeepsIdentity(p: Project, h: seq<Entry>, p': Project, h': seq<Entry>, step: Step)
    requires RowChange(p, h, p', h', step)
    ensures SameIdentity(p, p')
  {
  }

  lemma InsertKeepsUnique(s: State, call: nat, visible: bool, now: Instant)
    requires ConversionOk(s)
    ensures UniqueProjects(InsertConversion(s, call, visible, now).0.projects)
    ensures Audited(InsertConversion(s, call, visible, now).0)
  {
  }

  lemma SameRowsKeepUnique(s: State, s': State)
    requires ConversionOk(s) && |s'.projects| == |s.projects| && s'.audits == s.audits
    requires forall i: nat | i < |s.projects| :: SameIdentity(s.projects[i], s'.projects[i])
    ensures UniqueProjects(s'.projects) && Audited(s')
  {
  }

  lemma OtherAuditsSame(s: State, step: Step)
    requires !step.InsertStep?
    ensures Do(s, step).0.audits == s.audits && |Do(s, step).0.projects| == |s.projects|
  {
  }

  lemma OutboxKeepsInv(s: State, step: Step)
    requires OutboxLedger.Inv(s.outbox)
    ensures OutboxLedger.Inv(Do(s, step).0.outbox)
  {
    if step.OutboxStep? {
      OutboxLedger.StepKeeps(s.outbox, step.outboxStep);
    } else {
      OutboxOfStep(s, step);
    }
  }

  lemma OutboxOfStep(s: State, step: Step)
    requires !step.OutboxStep? && OutboxLedger.Inv(s.outbox)
    ensures OutboxLedger.Inv(Do(s, step).0.outbox)
  {
    var o' := Do(s, step).0.outbox;
    if o' != s.outbox {
      var e, now := EnqueuedBy(s, step);
      OutboxLedger.EnqueueKeeps(s.outbox, e, now);
    }
  }

  lemma EnqueuedBy(s: State, step: Step) returns (e: Events.Event, now: Instant)
    requires !step.OutboxStep? && Do(s, step).0.outbox != s.outbox
    ensures Do(s, step).0.outbox == Outbox.Enqueue(s.outbox, e, now).0
  {
    match step
    case InsertStep(call, _, t) =>
      e, now := CreatedEvent(|s.projects|, s.drafts[call]), t;
    case TransitionStep(id, _, _, _, _, t) =>
      e, now := FirstStatusEvent(id, Do(s, step).0.projects[id]).value, t;
    case CorrectStep(id, _, _, _, _, _, t) =>
      e, now := FirstStatusEvent(id, Do(s, step).0.projects[id]).value, t;
  }

  lemma StepKeepsConversion(s: State, step: Step)
    requires ConversionOk(s) && |s.projects| == |s.histories|
    ensures ConversionOk(Do(s, step).0)
    ensures forall i: nat | i < |s.projects| ::
              i < |Do(s, step).0.projects| && SameIdentity(s.projects[i], Do(s, step).0.projects[i])
  {
    OutboxKeepsInv(s, step);
    forall i: nat | i < |s.projects|
      ensures i < |Do(s, step).0.projects| && SameIdentity(s.projects[i], Do(s, step).0.projects[i])
    {
      RowChanges(s, step, i);
      ChangeKeepsIdentity(s.projects[i], s.histories[i], Do(s, step).0.projects[i], Do(s, step).0.histories[i], step);
    }
    if step.InsertStep? {
      InsertKeepsUnique(s, step.call, step.visible, step.now);
    } else {
      OtherAuditsSame(s, step);
      SameRowsKeepUnique(s, Do(s, step).0);
    }
  }
}
