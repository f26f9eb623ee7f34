/** Whole runs of the evaluation loop. */
module EvaluationRuns {
  import opened Wrappers
  import opened Evaluations
  import opened EvaluationResults
  import opened EvaluationProjection
  import opened EvaluationPrimaries

  lemma EmptyIsOk()
    ensures ProjectionOk(Empty) && PrimariesOk(Empty)
  {
  }

  // ---------- How a batch can change ----------

  ghost predicate BatchChange(b: Batch, b': Batch, nextToken: nat, step: Step) {
    || b' == b
    || (step.CancelStep? && (b.status.Pending? || b.status.Running?) && b' == CancelledBatch(b, step.cancelReason, step.now))
    || (step.ClaimStep? && Claimable(b, step.now) && b' == ClaimedBatch(b, nextToken, step.now))
    || (step.ProcessStep? && b.status.Running? && b.claimToken == Some(step.token)
        && (b' == FailedBatch(b, step.now)
            || (step.answer.Produced? && Valid(step.answer.values) && b' == CompletedBatch(b, step.answer.values, step.now))))
    || (step.FailStep? && b.status.Running? && b.claimToken == Some(step.token) && b' == FailedBatch(b, step.now))
    || (step.ConfirmStep? && b.status.AwaitingConfirmation? && b' == b.(status := Confirmed, finishedAt := Some(step.now)))
  }

  lemma BatchChanges(s: State, step: Step, i: nat)
    requires i < |s.batches|
    ensures |Do(s, step).0.batches| >= |s.batches|
    ensures BatchChange(s.batches[i], Do(s, step).0.batches[i], s.nextToken, step)
    ensures Do(s, step).0.nextToken >= s.nextToken
  {
    if step.ConfirmStep? {
      ConfirmEdits(s, step.id, step.input, step.now);
    } else if step.AdjustStep? || step.SelectStep? {
      DecisionsTouchNoResult(s, step);
    }
  }

  predicate Terminal(b: Batch) {
    b.status.Failed? || b.status.Cancelled? || b.status.Confirmed?
  }

  // Failed, cancelled and confirmed batches never change again; a stored response is never replaced.
  lemma {:induction false} SettledIsFinal(s: State, steps: seq<Step>, i: nat)
    requires i < |s.batches|
    ensures i < |Run(s, steps).batches|
    ensures Terminal(s.batches[i]) ==> Run(s, steps).batches[i] == s.batches[i]
    ensures s.batches[i].status.AwaitingConfirmation? ==>
              Run(s, steps).batches[i].rawResponse == s.batches[i].rawResponse && Finished(Run(s, steps).batches[i])
    decreases |steps|
  {
    if steps != [] {
      BatchChanges(s, steps[0], i);
      SettledIsFinal(Do(s, steps[0]).0, steps[1..], i);
    }
  }

  // ---------- Exactly-once results ----------

  function RowsOf(rows: map<RowKey, EntityResult>, i: nat): set<RowKey> {
    set k | k in rows && k.batch == i
  }

  lemma ExactlyOnceResults(steps: seq<Step>, i: nat)
    requires i < |Run(Empty, steps).batches|
    ensures var s := Run(Empty, steps);
            && (s.batches[i].rawResponse.Some? <==> Finished(s.batches[i]))
            && RowsOf(s.rows, i) == (if Finished(s.batches[i]) then set code | code in ENTITY_CODES :: RowKey(i, code) else {})
            && |RowsOf(s.rows, i)| == (if Finished(s.batches[i]) then 3 else 0)
            && (i in s.confirmations <==> s.batches[i].status.Confirmed?)
  {
    EmptyIsOk();
    RunKeepsResults(Empty, steps);
    var s := Run(Empty, steps);
    var expected := if Finished(s.batches[i]) then set code | code in ENTITY_CODES :: RowKey(i, code) else {};
    assert RowsOk(s.batches[i], i, s.rows);
    forall k ensures k in RowsOf(s.rows, i) <==> k in expected {
      assert k == RowKey(k.batch, k.code);
    }
    assert expected == (if Finished(s.batches[i]) then {RowKey(i, Beijing), RowKey(i, Suzhou), RowKey(i, Shenzhen)} else {});
  }

  // A valid answer for a held claim is always stored; the error paths behind it are unreachable.
  lemma HeldAnswersComplete(steps: seq<Step>, id: nat, token: nat, v: ValidValues, now: Instant)
    requires Holds(Run(Empty, steps), id, token)
    ensures ProcessClaimed(Run(Empty, steps), id, token, Produced(v), now).1.Completed?
  {
    EmptyIsOk();
    RunKeepsResults(Empty, steps);
    HeldBatchIsFree(Run(Empty, steps), id, token);
  }

  ghost predicate Lost(s: State, id: nat, token: nat) {
    token < s.nextToken && !Holds(s, id, token)
  }

  lemma LostStays(s: State, step: Step, id: nat, token: nat)
    requires ResultsOk(s) && Lost(s, id, token)
    ensures Lost(Do(s, step).0, id, token)
  {
    if id < |s.batches| {
      assert BatchOk(s.batches[id], s.nextToken);
      BatchChanges(s, step, id);
    } else {
      NewBatches(s, step);
    }
  }

  lemma NewBatches(s: State, step: Step)
    ensures |Do(s, step).0.batches| >= |s.batches| && Do(s, step).0.nextToken >= s.nextToken
    ensures forall i: nat | |s.batches| <= i < |Do(s, step).0.batches| :: Do(s, step).0.batches[i].status.Pending?
  {
    if step.ConfirmStep? {
      ConfirmEdits(s, step.id, step.input, step.now);
    } else if step.AdjustStep? || step.SelectStep? {
      DecisionsTouchNoResult(s, step);
    }
  }

  // A worker whose claim was lost changes nothing, however late it answers.
  lemma {:induction false} LateWorkersChangeNothing(
    s: State, steps: seq<Step>, id: nat, token: nat, answer: Answer, now: Instant)
    requires ResultsOk(s) && Lost(s, id, token)
    ensures ProcessClaimed(Run(s, steps), id, token, answer, now).0 == Run(s, steps)
    ensures FailClaimed(Run(s, steps), id, token, now).0 == Run(s, steps)
    decreases |steps|
  {
    if steps != [] {
      LostStays(s, steps[0], id, token);
      StepKeepsResults(s, steps[0]);
      LateWorkersChangeNothing(Do(s, steps[0]).0, steps[1..], id, token, answer, now);
    }
  }

  // Every way a claim can end loses its token: reclaim, cancellation, failure, completion.
  lemma EndedClaimsAreLost(s: State, step: Step, id: nat, token: nat)
    requires ResultsOk(s) && Holds(s, id, token)
    ensures id < |Do(s, step).0.batches|
            && (Do(s, step).0.batches[id] == s.batches[id] || Lost(Do(s, step).0, id, token))
  {
    assert BatchOk(s.batches[id], s.nextToken);
    BatchChanges(s, step, id);
  }

  // ---------- The projection ----------

  lemma ProjectionIsFold(steps: seq<Step>, p: nat)
    requires p < |Run(Empty, steps).policies|
    ensures var s := Run(Empty, steps);
            var d := Deciding(s.decisions, p);
            var top := TopFinished(s, p, |s.batches|);
            var policy := s.policies[p];
            && (d.Some? ==>
                  policy.conclusion == d.value.conclusion && policy.source == d.value.source
                  && policy.confirmed && policy.confirmedAt == Some(d.value.decidedAt))
            && (d.None? ==>
                  && !policy.confirmed && policy.confirmedAt.None? && policy.source.SystemSuggestion?
                  && policy.currentBatch == top
                  && (top.None? ==> policy.conclusion.PendingConfirmation?)
                  && (top.Some? ==>
                        s.batches[top.value].rawResponse.Some?
                        && policy.conclusion == s.batches[top.value].rawResponse.value.conclusion))
            && (policy.currentBatch.None? <==> top.None?)
            && PreviousOk(s.decisions)
  {
    EmptyIsOk();
    RunKeepsProjection(Empty, steps);
    var s := Run(Empty, steps);
    assert Projected(s, p);
    var top := TopFinished(s, p, |s.batches|);
    if top.Some? { assert BatchOk(s.batches[top.value], s.nextToken); }
  }

  function Strength(source: Source): nat {
    match source
    case SystemSuggestion => 0
    case EvaluationConfirmation => 1
    case ManualOverride => 2
  }

  ghost predicate PolicyChange(p: Policy, p': Policy, step: Step) {
    || p' == p
    || (step.ProcessStep? && exists verdict :: p' == SuggestedPolicy(p, step.id, verdict))
    || (step.ConfirmStep? && exists d: Decision :: d.batch == step.id && d.source == EvaluationConfirmation && p' == ConfirmedPolicy(p, d))
    || (step.AdjustStep? && exists d: Decision :: d.source == ManualOverride && p' == DecidedPolicy(p, d))
  }

  lemma PolicyChanges(s: State, step: Step, p: nat)
    requires p < |s.policies|
    ensures |Do(s, step).0.policies| >= |s.policies|
    ensures PolicyChange(s.policies[p], Do(s, step).0.policies[p], step)
  {
    var (s', reply) := Do(s, step);
    if step.ConfirmStep? {
      if reply == Done {
        var d := ConfirmDecides(s, step.id, step.input, step.now);
      } else {
        ConfirmEdits(s, step.id, step.input, step.now);
      }
    } else if step.AdjustStep? && reply == Done {
      var d := Decision(step.policy, s.policies[step.policy].currentBatch.value, s.policies[step.policy].conclusion,
                        step.verdict, ManualOverride, Some(Text.Strip(step.reason)), step.now);
      assert s'.policies == s.policies[step.policy := DecidedPolicy(s.policies[step.policy], d)];
    }
  }

  // The source of a conclusion only gets stronger, and confirmation is never taken back.
  lemma {:induction false} SourceNeverMovesBack(s: State, steps: seq<Step>, p: nat)
    requires ProjectionOk(s) && p < |s.policies|
    ensures p < |Run(s, steps).policies|
    ensures Strength(Run(s, steps).policies[p].source) >= Strength(s.policies[p].source)
    ensures s.policies[p].confirmed ==> Run(s, steps).policies[p].confirmed
    decreases |steps|
  {
    if steps != [] {
      PolicyChanges(s, steps[0], p);
      StepKeepsProjection(s, steps[0]);
      ConfirmedBySource(s, p);
      ConfirmedBySource(Do(s, steps[0]).0, p);
      SourceNeverMovesBack(Do(s, steps[0]).0, steps[1..], p);
    }
  }

  lemma ConfirmedBySource(s: State, p: nat)
    requires ProjectionOk(s) && p < |s.policies|
    ensures s.policies[p].confirmed <==> !s.policies[p].source.SystemSuggestion?
  {
    assert Projected(s, p);
    var d := Deciding(s.decisions, p);
    if d.Some? { assert d.value in s.decisions; }
  }

  // A confirmation that would go through: the batch has none yet and no check refuses it.
  predicate ConfirmsFirst(s: State, step: Step) {
    step.ConfirmStep? && KnownBatch(s, step.id) && step.id !in s.confirmations
    && ConfirmRefusal(s, step.id, step.input) == Done
  }

  // The pointer moves back by a confirmation and only so: exactly when a batch older than the one
  // pointed at is confirmed for the first time. Completions only move it forward.
  lemma PointerMovesBack(s: State, step: Step, p: nat)
    requires p < |s.policies| && s.policies[p].currentBatch.Some?
    ensures var old' := s.policies[p].currentBatch.value;
            var new' := Do(s, step).0.policies[p].currentBatch;
            && new'.Some?
            && (new'.value < old' <==> ConfirmsFirst(s, step) && PolicyOf(s, step.id) == p && step.id < old')
  {
    PolicyChanges(s, step, p);
    if step.ConfirmStep? {
      ConfirmEdits(s, step.id, step.input, step.now);
      if ConfirmsFirst(s, step) {
        var d := ConfirmDecides(s, step.id, step.input, step.now);
      }
    }
  }

  // ---------- Primary entities ----------

  lemma PrimaryChains(steps: seq<Step>, p: nat)
    ensures var chain := Of(Run(Empty, steps).primaries, p);
            && (forall i | 0 <= i < |chain| :: chain[i].supersededAt.None? <==> i == |chain| - 1)
            && (forall i | 0 < i < |chain| :: chain[i].code != chain[i - 1].code && Text.Stated(chain[i].reason))
  {
    EmptyIsOk();
    RunKeepsPrimaries(Empty, steps);
    assert Chain(Of(Run(Empty, steps).primaries, p));
  }

  lemma {:induction false} OfIsTheTable(ps: seq<Primary>, p: nat)
    ensures forall q :: q in Of(ps, p) <==> q in ps && q.policy == p
  {
    if ps != [] {
      OfIsTheTable(ps[..|ps| - 1], p);
      assert ps == ps[..|ps| - 1] + [ps[|ps| - 1]];
    }
  }

  // A confirmed recommendation always has exactly one current row in the table of primary entity
  // decisions, the last of its chain.
  lemma ConfirmedRecommendationHasPrimary(steps: seq<Step>, p: nat)
    requires p < |Run(Empty, steps).policies|
    requires Run(Empty, steps).policies[p].confirmed && Run(Empty, steps).policies[p].conclusion.RecommendApply?
    ensures var ps := Run(Empty, steps).primaries;
            var chain := Of(ps, p);
            && CurrentPrimary(ps, p).Some? && chain != [] && ps[CurrentPrimary(ps, p).value] == chain[|chain| - 1]
            && (forall i: nat | i < |ps| && ps[i].policy == p && ps[i].supersededAt.None? :: i == CurrentPrimary(ps, p).value)
  {
    EmptyIsOk();
    RunKeepsPrimaries(Empty, steps);
    var s := Run(Empty, steps);
    assert Backed(s, p) && Chain(Of(s.primaries, p));
    CurrentIsLast(s.primaries, p);
    forall i: nat | i < |s.primaries| && s.primaries[i].policy == p && s.primaries[i].supersededAt.None?
      ensures i == CurrentPrimary(s.primaries, p).value
    {
      OneCurrentRow(s.primaries, p, i, CurrentPrimary(s.primaries, p).value);
    }
  }

  // A reordering of the entities is not a change: it needs no reason and never conflicts.
  lemma OrderIsNoChange(a: ValidValues, b: ValidValues)
    ensures Normalize(a) == Normalize(b) <==>
              && a.conclusion == b.conclusion && a.summary == b.summary && a.keyConditions == b.keyConditions
              && multiset(a.entities) == multiset(b.entities)
  {
    ValidCodesDiffer(a);
    Sorting.SortForgetsOrder(Rank, a.entities, b.entities);
  }

  lemma ValidCodesDiffer(v: ValidValues)
    ensures forall x, y | x in v.entities && y in v.entities && Rank(x) == Rank(y) :: x == y
  {
    var es := v.entities;
    assert HasCode(es, Beijing) && HasCode(es, Suzhou) && HasCode(es, Shenzhen);
    assert es == [es[0], es[1], es[2]];
    assert es[0].code != es[1].code && es[1].code != es[2].code && es[0].code != es[2].code;
  }
}
