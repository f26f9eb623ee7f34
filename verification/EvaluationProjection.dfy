/** The policy projection as a fold of the logs: the columns that the steps update one by one
    always equal what the batch and decision tables say. */
module EvaluationProjection {
  import opened Wrappers
  import opened Evaluations
  import opened EvaluationResults

  // The newest decision about p with that source.
  function LastDecision(ds: seq<Decision>, p: nat, source: Source): (r: Option<Decision>)
    ensures r.Some? ==> r.value in ds && r.value.policy == p && r.value.source == source
    ensures r.None? ==> forall d | d in ds && d.policy == p :: d.source != source
  {
    if ds == [] then None
    else if ds[|ds| - 1].policy == p && ds[|ds| - 1].source == source then Some(ds[|ds| - 1])
    else LastDecision(ds[..|ds| - 1], p, source)
  }

  // Batch i has a stored result and belongs to p.
  predicate FinishedFor(s: State, i: nat, p: nat) {
    && i < |s.batches| && Finished(s.batches[i])
    && s.batches[i].versionId < |s.versions| && s.versions[s.batches[i].versionId] == p
  }

  // The highest such id below n, whatever order the batches finished in.
  function TopFinished(s: State, p: nat, n: nat): (r: Option<nat>)
    ensures r.Some? ==> r.value < n && FinishedFor(s, r.value, p)
    ensures r.Some? ==> forall i: nat | r.value < i < n :: !FinishedFor(s, i, p)
    ensures r.None? ==> forall i: nat | i < n :: !FinishedFor(s, i, p)
  {
    if n == 0 then None
    else if FinishedFor(s, n - 1, p) then Some(n - 1)
    else TopFinished(s, p, n - 1)
  }

  // The decision in force: a manual one beats every confirmation.
  function Deciding(ds: seq<Decision>, p: nat): Option<Decision> {
    if LastDecision(ds, p, ManualOverride).Some? then LastDecision(ds, p, ManualOverride)
    else LastDecision(ds, p, EvaluationConfirmation)
  }

  // What the logs say about p; the pointer is not part of the fold.
  function Fold(s: State, p: nat): Policy {
    var d := Deciding(s.decisions, p);
    var top := TopFinished(s, p, |s.batches|);
    if d.Some? then Policy(top, d.value.conclusion, true, d.value.source, Some(d.value.decidedAt))
    else if top.Some? && s.batches[top.value].rawResponse.Some? then
      Policy(top, s.batches[top.value].rawResponse.value.conclusion, false, SystemSuggestion, None)
    else Policy(top, PendingConfirmation, false, SystemSuggestion, None)
  }

  ghost predicate PointerOk(s: State, p: nat)
    requires p < |s.policies|
  {
    var pointer := s.policies[p].currentBatch;
    && (pointer.Some? ==> FinishedFor(s, pointer.value, p))
    && (pointer.None? ==> TopFinished(s, p, |s.batches|).None?)
    && (s.policies[p].source.SystemSuggestion? ==> pointer == TopFinished(s, p, |s.batches|))
  }

  ghost predicate Projected(s: State, p: nat)
    requires p < |s.policies|
  {
    && s.policies[p].(currentBatch := None) == Fold(s, p).(currentBatch := None)
    && PointerOk(s, p)
  }

  // Confirmed batches are on record, decisions are about known policies and batches.
  ghost predicate Recorded(s: State) {
    && (forall i: nat, p: nat | FinishedFor(s, i, p) && s.batches[i].status.Confirmed? ::
          LastDecision(s.decisions, p, EvaluationConfirmation).Some?)
    && (forall d | d in s.decisions :: d.policy < |s.policies| && !d.source.SystemSuggestion?)
  }

  // A manual decision records the conclusion that was in force.
  ghost predicate PreviousOk(ds: seq<Decision>) {
    forall k | 0 <= k < |ds| && ds[k].source.ManualOverride? ::
      Deciding(ds[..k], ds[k].policy).Some? && ds[k].previous == Deciding(ds[..k], ds[k].policy).value.conclusion
  }

  ghost predicate ProjectionOk(s: State) {
    && ResultsOk(s)
    && (forall p: nat | p < |s.policies| :: Projected(s, p))
    && Recorded(s)
    && PreviousOk(s.decisions)
  }

  // ---------- Frames ----------

  ghost predicate SameFinished(s: State, s': State, p: nat) {
    forall i: nat ::
      && (FinishedFor(s, i, p) <==> FinishedFor(s', i, p))
      && (FinishedFor(s, i, p) ==> s'.batches[i].rawResponse == s.batches[i].rawResponse)
  }

  lemma {:induction false} TopAgrees(s: State, s': State, p: nat, n: nat, n': nat)
    requires n <= n' && SameFinished(s, s', p)
    requires forall i: nat | n <= i < n' :: !FinishedFor(s', i, p)
    ensures TopFinished(s, p, n) == TopFinished(s', p, n')
  {
    if n < n' {
      TopAgrees(s, s', p, n, n' - 1);
    } else if n > 0 {
      TopAgrees(s, s', p, n - 1, n - 1);
    }
  }

  lemma ProjectedFrame(s: State, s': State, p: nat)
    requires p < |s.policies| && p < |s'.policies| && s'.policies[p] == s.policies[p]
    requires Projected(s, p) && SameFinished(s, s', p) && |s.batches| <= |s'.batches|
    requires Deciding(s'.decisions, p) == Deciding(s.decisions, p)
    ensures Projected(s', p)
  {
    TopAgrees(s, s', p, |s.batches|, |s'.batches|);
  }

  lemma LastOfAppended(ds: seq<Decision>, d: Decision, p: nat, source: Source)
    ensures LastDecision(ds + [d], p, source)
            == if d.policy == p && d.source == source then Some(d) else LastDecision(ds, p, source)
  {
    assert (ds + [d])[..|ds|] == ds;
  }

  // ---------- Steps that leave the projection alone ----------

  // Only unfinished batches change, and the decision log stays.
  ghost predicate QuietStep(s: State, s': State) {
    && |s.batches| <= |s'.batches| && |s.policies| <= |s'.policies| && |s.versions| <= |s'.versions|
    && (forall p: nat | p < |s.policies| :: s'.policies[p] == s.policies[p])
    && (forall p: nat | |s.policies| <= p < |s'.policies| :: s'.policies[p] == FreshPolicy)
    && (forall v: nat | v < |s.versions| :: s'.versions[v] == s.versions[v])
    && (forall i: nat | i < |s.batches| ::
          s'.batches[i] == s.batches[i]
          || (!Finished(s.batches[i]) && !Finished(s'.batches[i]) && s'.batches[i].versionId == s.batches[i].versionId))
    && (forall i: nat | |s.batches| <= i < |s'.batches| :: !Finished(s'.batches[i]))
    && s'.decisions == s.decisions
  }

  lemma QuietKeepsProjection(s: State, s': State)
    requires ProjectionOk(s) && QuietStep(s, s') && ResultsOk(s')
    ensures ProjectionOk(s')
  {
    forall p: nat ensures SameFinished(s, s', p) {
      forall i: nat ensures FinishedFor(s, i, p) <==> FinishedFor(s', i, p) {
        if i < |s.batches| { assert s.batches[i].versionId < |s.versions|; }
      }
    }
    forall p: nat | p < |s'.policies| ensures Projected(s', p) {
      if p < |s.policies| {
        ProjectedFrame(s, s', p);
      } else {
        NewPolicyIsProjected(s', p, s);
      }
    }
    forall i: nat, p: nat | FinishedFor(s', i, p) && s'.batches[i].status.Confirmed?
      ensures LastDecision(s'.decisions, p, EvaluationConfirmation).Some?
    {
      assert SameFinished(s, s', p);
      assert FinishedFor(s, i, p);
    }
  }

  lemma NewPolicyIsProjected(s': State, p: nat, s: State)
    requires ProjectionOk(s) && |s.policies| <= p < |s'.policies| && s'.policies[p] == FreshPolicy
    requires s'.decisions == s.decisions && SameFinished(s, s', p)
    ensures Projected(s', p)
  {
    forall i: nat ensures !FinishedFor(s', i, p) {
      assert !FinishedFor(s, i, p);
    }
  }

  // ---------- Completion ----------

  ghost predicate Completes(s: State, id: nat, v: ValidValues, now: Instant, s': State) {
    && KnownBatch(s, id) && s.batches[id].status.Running?
    && s'.batches == s.batches[id := CompletedBatch(s.batches[id], v, now)]
    && var p := PolicyOf(s, id);
    s'.policies == s.policies[p := SuggestedPolicy(s.policies[p], id, v.conclusion)]
    && s'.versions == s.versions && s'.decisions == s.decisions
  }

  lemma CompletionTop(s: State, id: nat, v: ValidValues, now: Instant, s': State)
    requires Completes(s, id, v, now, s')
    ensures var p := PolicyOf(s, id);
            var top := TopFinished(s, p, |s.batches|);
            TopFinished(s', p, |s'.batches|) == if top.Some? && top.value > id then top else Some(id)
  {
    var p := PolicyOf(s, id);
    assert FinishedFor(s', id, p);
    forall i: nat | i != id ensures FinishedFor(s, i, p) <==> FinishedFor(s', i, p) {
    }
  }

  lemma CompletionProjects(s: State, id: nat, v: ValidValues, now: Instant, s': State)
    requires ProjectionOk(s) && Completes(s, id, v, now, s')
    ensures Projected(s', PolicyOf(s, id))
  {
    var p := PolicyOf(s, id);
    CompletionTop(s, id, v, now, s');
    assert Projected(s, p);
    assert !FinishedFor(s, id, p);
    assert FinishedFor(s', id, p);
    forall i: nat | FinishedFor(s, i, p) ensures FinishedFor(s', i, p) && s'.batches[i] == s.batches[i] {
    }
  }

  lemma CompletionKeepsOthers(s: State, id: nat, v: ValidValues, now: Instant, s': State, q: nat)
    requires ProjectionOk(s) && Completes(s, id, v, now, s') && q < |s.policies| && q != PolicyOf(s, id)
    ensures Projected(s', q)
  {
    assert SameFinished(s, s', q);
    ProjectedFrame(s, s', q);
  }

  lemma CompletionRecords(s: State, id: nat, v: ValidValues, now: Instant, s': State)
    requires ProjectionOk(s) && Completes(s, id, v, now, s')
    ensures Recorded(s')
  {
    forall i: nat, q: nat | FinishedFor(s', i, q) && s'.batches[i].status.Confirmed?
      ensures LastDecision(s'.decisions, q, EvaluationConfirmation).Some?
    {
      assert i != id && FinishedFor(s, i, q);
    }
  }

  lemma CompletionKeepsProjection(s: State, id: nat, v: ValidValues, now: Instant, s': State)
    requires ProjectionOk(s) && Completes(s, id, v, now, s') && ResultsOk(s')
    ensures ProjectionOk(s')
  {
    CompletionProjects(s, id, v, now, s');
    CompletionRecords(s, id, v, now, s');
    forall q: nat | q < |s'.policies| ensures Projected(s', q) {
      if q != PolicyOf(s, id) { CompletionKeepsOthers(s, id, v, now, s', q); }
    }
  }

  // ---------- Confirmation and manual decisions ----------

  ghost predicate Decides(s: State, d: Decision, s': State) {
    && d.policy < |s.policies|
    && |s'.batches| == |s.batches| && s'.versions == s.versions
    && s'.decisions == s.decisions + [d]
    && FinishedFor(s, d.batch, d.policy)
    && (forall i: nat | i < |s.batches| && i != d.batch :: s'.batches[i] == s.batches[i])
    && s'.batches[d.batch] in {s.batches[d.batch], s.batches[d.batch].(status := Confirmed, finishedAt := Some(d.decidedAt))}
    && s'.policies == s.policies[d.policy :=
         if d.source.ManualOverride? then DecidedPolicy(s.policies[d.policy], d)
         else ConfirmedPolicy(s.policies[d.policy], d)]
    && (d.source.EvaluationConfirmation?
        || (d.source.ManualOverride? && s'.batches == s.batches && s.batches[d.batch].status.Confirmed?
            && d.previous == s.policies[d.policy].conclusion))
  }

  lemma DecisionFinished(s: State, d: Decision, s': State, p: nat)
    requires Decides(s, d, s')
    ensures SameFinished(s, s', p)
  {
  }

  lemma DecisionKeepsOthers(s: State, d: Decision, s': State, p: nat)
    requires ProjectionOk(s) && Decides(s, d, s') && p < |s.policies| && p != d.policy
    ensures Projected(s', p)
  {
    DecisionFinished(s, d, s', p);
    LastOfAppended(s.decisions, d, p, ManualOverride);
    LastOfAppended(s.decisions, d, p, EvaluationConfirmation);
    ProjectedFrame(s, s', p);
  }

  lemma DecisionProjects(s: State, d: Decision, s': State)
    requires ProjectionOk(s) && Decides(s, d, s')
    ensures Projected(s', d.policy)
  {
    var p := d.policy;
    assert Projected(s, p);
    DecisionFinished(s, d, s', p);
    TopAgrees(s, s', p, |s.batches|, |s'.batches|);
    LastOfAppended(s.decisions, d, p, ManualOverride);
    LastOfAppended(s.decisions, d, p, EvaluationConfirmation);
  }

  lemma DecisionRecords(s: State, d: Decision, s': State)
    requires ProjectionOk(s) && Decides(s, d, s')
    ensures Recorded(s')
  {
    forall i: nat, p: nat | FinishedFor(s', i, p) && s'.batches[i].status.Confirmed?
      ensures LastDecision(s'.decisions, p, EvaluationConfirmation).Some?
    {
      LastOfAppended(s.decisions, d, p, EvaluationConfirmation);
      DecisionFinished(s, d, s', p);
      assert FinishedFor(s, i, p);
    }
  }

  lemma DecisionPrevious(s: State, d: Decision, s': State)
    requires ProjectionOk(s) && Decides(s, d, s')
    ensures PreviousOk(s'.decisions)
  {
    var ds := s'.decisions;
    forall k | 0 <= k < |ds| && ds[k].source.ManualOverride?
      ensures Deciding(ds[..k], ds[k].policy).Some?
              && ds[k].previous == Deciding(ds[..k], ds[k].policy).value.conclusion
    {
      assert ds[..k] == if k < |s.decisions| then s.decisions[..k] else s.decisions;
      if k < |s.decisions| {
        assert ds[k] == s.decisions[k];
      } else {
        assert Projected(s, d.policy);
      }
    }
  }

  lemma DecisionKeepsProjection(s: State, d: Decision, s': State)
    requires ProjectionOk(s) && Decides(s, d, s') && ResultsOk(s')
    ensures ProjectionOk(s')
  {
    DecisionProjects(s, d, s');
    DecisionRecords(s, d, s');
    DecisionPrevious(s, d, s');
    forall p: nat | p < |s'.policies| ensures Projected(s', p) {
      if p != d.policy { DecisionKeepsOthers(s, d, s', p); }
    }
  }

  // ---------- Every step ----------

  lemma ConfirmDecides(s: State, id: nat, input: ConfirmInput, now: Instant) returns (d: Decision)
    requires Confirm(s, id, input, now).1 == Done
    ensures Decides(s, d, Confirm(s, id, input, now).0)
  {
    var b := s.batches[id];
    d := Decision(PolicyOf(s, id), id, b.rawResponse.value.conclusion, input.values.conclusion,
                  EvaluationConfirmation, Text.StripOptional(input.changeReason), now);
  }

  lemma AdjustDecides(s: State, p: nat, verdict: Verdict, reason: string, now: Instant) returns (d: Decision)
    requires ProjectionOk(s) && AdjustConclusion(s, p, verdict, reason, now).1 == Done
    ensures Decides(s, d, AdjustConclusion(s, p, verdict, reason, now).0)
  {
    assert Projected(s, p);
    d := Decision(p, s.policies[p].currentBatch.value, s.policies[p].conclusion, verdict, ManualOverride,
                  Some(Text.Strip(reason)), now);
  }

  lemma ProcessCompletes(s: State, id: nat, token: nat, answer: Answer, now: Instant)
    ensures var (s', reply) := ProcessClaimed(s, id, token, answer, now);
            if reply.Completed? then Valid(answer.values) && Completes(s, id, answer.values, now, s')
            else QuietStep(s, s')
  {
  }

  lemma QuietSteps(s: State, step: Step)
    requires !step.ProcessStep? && !step.ConfirmStep? && !step.AdjustStep?
    ensures QuietStep(s, Do(s, step).0)
  {
  }

  lemma ProcessKeepsProjection(s: State, id: nat, token: nat, answer: Answer, now: Instant)
    requires ProjectionOk(s)
    ensures ProjectionOk(ProcessClaimed(s, id, token, answer, now).0)
  {
    ProcessCompletes(s, id, token, answer, now);
    ProcessKeepsResults(s, id, token, answer, now);
    var (s', reply) := ProcessClaimed(s, id, token, answer, now);
    if reply.Completed? {
      CompletionKeepsProjection(s, id, answer.values, now, s');
    } else {
      QuietKeepsProjection(s, s');
    }
  }

  lemma ConfirmKeepsProjection(s: State, id: nat, input: ConfirmInput, now: Instant)
    requires ProjectionOk(s)
    ensures ProjectionOk(Confirm(s, id, input, now).0)
  {
    ConfirmEdits(s, id, input, now);
    var (s', reply) := Confirm(s, id, input, now);
    if reply == Done {
      ConfirmKeepsResults(s, id, input, now);
      var d := ConfirmDecides(s, id, input, now);
      DecisionKeepsProjection(s, d, s');
    }
  }

  lemma ManualKeepsProjection(s: State, d: Decision, s': State)
    requires ProjectionOk(s) && Decides(s, d, s') && SameResults(s, s')
    ensures ProjectionOk(s')
  {
    SameResultsOk(s, s');
    DecisionKeepsProjection(s, d, s');
  }

  lemma AdjustRefused(s: State, p: nat, verdict: Verdict, reason: string, now: Instant)
    requires AdjustConclusion(s, p, verdict, reason, now).1 != Done
    ensures AdjustConclusion(s, p, verdict, reason, now).0 == s
  {
  }

  lemma AdjustKeepsProjection(s: State, p: nat, verdict: Verdict, reason: string, now: Instant)
    requires ProjectionOk(s)
    ensures ProjectionOk(AdjustConclusion(s, p, verdict, reason, now).0)
  {
    if AdjustConclusion(s, p, verdict, reason, now).1 == Done {
      var d := AdjustDecides(s, p, verdict, reason, now);
      DecisionsTouchNoResult(s, AdjustStep(p, verdict, reason, now));
      ManualKeepsProjection(s, d, AdjustConclusion(s, p, verdict, reason, now).0);
    } else {
      AdjustRefused(s, p, verdict, reason, now);
    }
  }

  lemma StepKeepsProjection(s: State, step: Step)
    requires ProjectionOk(s)
    ensures ProjectionOk(Do(s, step).0)
  {
    if step.ProcessStep? {
      ProcessKeepsProjection(s, step.id, step.token, step.answer, step.now);
    } else if step.ConfirmStep? {
      ConfirmKeepsProjection(s, step.id, step.input, step.now);
    } else if step.AdjustStep? {
      AdjustKeepsProjection(s, step.policy, step.verdict, step.reason, step.now);
    } else {
      StepKeepsResults(s, step);
      QuietSteps(s, step);
      QuietKeepsProjection(s, Do(s, step).0);
    }
  }

  lemma {:induction false} RunKeepsProjection(s: State, steps: seq<Step>)
    requires ProjectionOk(s)
    ensures ProjectionOk(Run(s, steps))
    decreases |steps|
  {
    if steps != [] {
      StepKeepsProjection(s, steps[0]);
      RunKeepsProjection(Do(s, steps[0]).0, steps[1..]);
    }
  }
}
