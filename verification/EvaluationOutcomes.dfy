/** What each transaction of the evaluation loop decides and writes, told from the tables before and
    after it in every reachable state. */
module EvaluationOutcomes {
  import opened Wrappers
  import opened Text
  import opened Evaluations
  import opened EvaluationResults
  import opened EvaluationPrimaries
  import opened EvaluationRuns

  // Two answers say the same, whatever the order of their entities.
  predicate SameAnswer(a: Values, b: Values) {
    && a.conclusion == b.conclusion && a.summary == b.summary && a.keyConditions == b.keyConditions
    && multiset(a.entities) == multiset(b.entities)
  }

  // ---------- Confirming again ----------

  lemma StepKeepsConfirmation(s: State, step: Step, id: nat)
    requires KnownBatch(s, id) && id in s.confirmations
    ensures var s' := Do(s, step).0;
            KnownBatch(s', id) && id in s'.confirmations && s'.confirmations[id] == s.confirmations[id]
  {
    BatchChanges(s, step, id);
    if step.ConfirmStep? { ConfirmEdits(s, step.id, step.input, step.now); }
  }

  lemma {:induction false} RunKeepsConfirmation(s: State, steps: seq<Step>, id: nat)
    requires KnownBatch(s, id) && id in s.confirmations
    ensures var t := Run(s, steps);
            KnownBatch(t, id) && id in t.confirmations && t.confirmations[id] == s.confirmations[id]
    decreases |steps|
  {
    if steps != [] {
      StepKeepsConfirmation(s, steps[0], id);
      RunKeepsConfirmation(Do(s, steps[0]).0, steps[1..], id);
    }
  }

  // Once confirmed, a batch answers every later confirmation without a change: quietly if it says the
  // same, and for a recommendation names the same primary entity; with a conflict if it says anything else.
  lemma ReconfirmationExact(
    s: State, id: nat, first: ConfirmInput, now: Instant, steps: seq<Step>, again: ConfirmInput, later: Instant)
    requires Do(s, ConfirmStep(id, first, now)).1 == Done
    ensures var t := Run(Do(s, ConfirmStep(id, first, now)).0, steps);
            var (t', reply) := Do(t, ConfirmStep(id, again, later));
            var recommended := first.values.conclusion.RecommendApply?;
            && t' == t
            && (reply == AlreadyConfirmed <==>
                  SameAnswer(first.values, again.values) && (recommended ==> again.primary == first.primary))
            && (!SameAnswer(first.values, again.values) ==> reply == ConfirmationConflict)
            && (SameAnswer(first.values, again.values) && recommended && again.primary != first.primary ==>
                  reply == if again.primary.None? then PrimaryRequired
                           else if exists e | e in first.values.entities :: e.code == again.primary.value
                           then ConfirmationConflict else PrimaryNotEligible)
  {
    var s1 := Do(s, ConfirmStep(id, first, now)).0;
    ConfirmEdits(s, id, first, now);
    FirstIsStored(s, id, first, now);
    RunKeepsConfirmation(s1, steps, id);
    OrderIsNoChange(first.values, again.values);
  }

  lemma FirstIsStored(s: State, id: nat, first: ConfirmInput, now: Instant)
    requires Do(s, ConfirmStep(id, first, now)).1 == Done
    ensures var s1 := Do(s, ConfirmStep(id, first, now)).0;
            && KnownBatch(s1, id) && id in s1.confirmations && s1.confirmations[id].values == first.values
            && (first.values.conclusion.RecommendApply? ==>
                  && s1.confirmations[id].primary == first.primary && first.primary.Some?
                  && HasCode(first.values.entities, first.primary.value))
  {
  }

  // ---------- The first confirmation ----------

  // The stored form of a reason.
  function Kept(reason: Option<string>): Option<string> {
    if reason.None? || reason.value == "" then None else Some(Strip(reason.value))
  }

  predicate IsCurrent(ps: seq<Primary>, i: nat, p: nat) {
    i < |ps| && ps[i].policy == p && ps[i].supersededAt.None?
  }

  // Some current row of the policy names another entity, or the same one.
  ghost predicate NamesOther(ps: seq<Primary>, p: nat, code: Code) {
    exists i: nat :: IsCurrent(ps, i, p) && ps[i].code != code
  }

  ghost predicate NamesSame(ps: seq<Primary>, p: nat, code: Code) {
    exists i: nat :: IsCurrent(ps, i, p) && ps[i].code == code
  }

  ghost predicate HasCurrent(ps: seq<Primary>, p: nat) {
    exists i: nat :: IsCurrent(ps, i, p)
  }

  lemma CurrentFacts(ps: seq<Primary>, p: nat, code: Code)
    requires Chain(Of(ps, p))
    ensures HasCurrent(ps, p) <==> CurrentPrimary(ps, p).Some?
    ensures NamesOther(ps, p, code) <==> CurrentPrimary(ps, p).Some? && ps[CurrentPrimary(ps, p).value].code != code
    ensures NamesSame(ps, p, code) <==> CurrentPrimary(ps, p).Some? && ps[CurrentPrimary(ps, p).value].code == code
  {
    var c := CurrentPrimary(ps, p);
    if c.Some? { assert IsCurrent(ps, c.value, p); }
    forall i: nat | IsCurrent(ps, i, p) ensures c == Some(i) {
      OneCurrentRow(ps, p, i, c.value);
    }
  }

  // The refusals of a first confirmation in their order, or Done.
  ghost function ExpectedConfirmation(b: Batch, ps: seq<Primary>, p: nat, input: ConfirmInput): Reply {
    var recommended := input.values.conclusion.RecommendApply?;
    if !b.status.AwaitingConfirmation? || b.rawResponse.None? then NotAwaitingConfirmation
    else if recommended && input.primary.None? then PrimaryRequired
    else if recommended && input.primary.value !in {Beijing, Suzhou, Shenzhen} then PrimaryNotEligible
    else if recommended && NamesOther(ps, p, input.primary.value) && !Stated(input.changeReason) then PrimaryReasonRequired
    else if !SameAnswer(input.values, b.rawResponse.value) && !Stated(input.changeReason) then ReasonRequired
    else Done
  }

  lemma StatedIsTruthy(reason: Option<string>)
    ensures Truthy(StripOptional(reason)) <==> Stated(reason)
    ensures StripOptional(reason) == Kept(reason)
  {
    assert Strip("") == "";
  }

  lemma ProfilesByCode(profiles: seq<Profile>, code: Code)
    requires Configured(profiles)
    ensures ProfileOf(profiles, code).Some? <==> code in {Beijing, Suzhou, Shenzhen}
    ensures code in {Beijing, Suzhou, Shenzhen} ==>
              exists q | q in profiles :: q.code == code && ProfileOf(profiles, code) == Some(q)
  {
    var codes := seq(|profiles|, i requires 0 <= i < |profiles| => profiles[i].code);
    assert codes == [Beijing, Suzhou, Shenzhen];
    assert |codes| == 3 && codes[0] == Beijing && codes[1] == Suzhou && codes[2] == Shenzhen;
    assert |profiles| == 3;
    assert profiles[0].code == Beijing && profiles[1].code == Suzhou && profiles[2].code == Shenzhen;
    assert forall q | q in profiles :: q == profiles[0] || q == profiles[1] || q == profiles[2];
  }

  lemma ValidHasCodes(v: ValidValues, code: Code)
    ensures HasCode(v.entities, code) <==> code in {Beijing, Suzhou, Shenzhen}
  {
  }

  lemma ConfirmationExact(steps: seq<Step>, id: nat, input: ConfirmInput, now: Instant)
    requires id < |Run(Empty, steps).batches| && !Run(Empty, steps).batches[id].status.Confirmed?
    ensures var s := Run(Empty, steps);
            && KnownBatch(s, id)
            && Do(s, ConfirmStep(id, input, now)).1 == ExpectedConfirmation(s.batches[id], s.primaries, PolicyOf(s, id), input)
            && (Do(s, ConfirmStep(id, input, now)).1 != Done ==> Do(s, ConfirmStep(id, input, now)).0 == s)
  {
    var s := Run(Empty, steps);
    EmptyIsOk();
    RunKeepsResults(Empty, steps);
    RunKeepsPrimaries(Empty, steps);
    assert BatchOk(s.batches[id], s.nextToken);
    assert KnownBatch(s, id);
    StatedIsTruthy(input.changeReason);
    ConfirmationIn(s, id, input);
  }

  lemma ConfirmationIn(s: State, id: nat, input: ConfirmInput)
    requires KnownBatch(s, id) && Configured(s.batches[id].profiles) && Chain(Of(s.primaries, PolicyOf(s, id)))
    ensures ConfirmRefusal(s, id, input) == ExpectedConfirmation(s.batches[id], s.primaries, PolicyOf(s, id), input)
  {
    var b := s.batches[id];
    StatedIsTruthy(input.changeReason);
    if input.primary.Some? {
      ProfilesByCode(b.profiles, input.primary.value);
      ValidHasCodes(input.values, input.primary.value);
      CurrentFacts(s.primaries, PolicyOf(s, id), input.primary.value);
    }
    if b.rawResponse.Some? { OrderIsNoChange(input.values, b.rawResponse.value); }
  }

  // Every current row of the policy is superseded, and q is added.
  ghost predicate Appointed(ps: seq<Primary>, ps': seq<Primary>, q: Primary, now: Instant) {
    && |ps'| == |ps| + 1 && ps'[|ps|] == q
    && (forall i: nat | i < |ps| ::
          ps'[i] == if IsCurrent(ps, i, q.policy) then ps[i].(supersededAt := Some(now)) else ps[i])
  }

  lemma AppointIsAppointed(ps: seq<Primary>, q: Primary, now: Instant)
    requires Chain(Of(ps, q.policy))
    ensures Appointed(ps, Appoint(ps, q, now), q, now)
  {
    var c := CurrentPrimary(ps, q.policy);
    forall i: nat | IsCurrent(ps, i, q.policy) ensures c == Some(i) {
      OneCurrentRow(ps, q.policy, i, c.value);
    }
  }

  // A row that an appointment adds: its legal name is the one that the batch's profile of that code had.
  ghost predicate AppointsFrom(
    s: State, s': State, b: Batch, p: nat, id: nat, code: Code, reason: Option<string>, now: Instant)
  {
    exists q | q in b.profiles ::
      q.code == code && Appointed(s.primaries, s'.primaries, Primary(p, id, code, q.legalName, reason, now, None), now)
  }

  // What a first confirmation writes, table by table.
  ghost predicate ConfirmationWritten(s: State, s': State, id: nat, input: ConfirmInput, now: Instant)
    requires KnownBatch(s, id) && s.batches[id].rawResponse.Some?
  {
    var b, p := s.batches[id], PolicyOf(s, id);
    var old', recommended := s.policies[p], input.values.conclusion.RecommendApply?;
    && s'.versions == s.versions && s'.rows == s.rows && s'.nextToken == s.nextToken
    && s'.batches == s.batches[id := b.(status := Confirmed, finishedAt := Some(now))]
    && s'.confirmations == s.confirmations[
         id := Confirmation(input.values, Kept(input.changeReason), if recommended then input.primary else None, now)]
    && s'.decisions == s.decisions + [Decision(p, id, b.rawResponse.value.conclusion, input.values.conclusion,
                                               EvaluationConfirmation, Kept(input.changeReason), now)]
    && s'.policies == s.policies[
         p := if old'.source.ManualOverride? then old'.(currentBatch := Some(id))
              else Policy(Some(id), input.values.conclusion, true, EvaluationConfirmation, Some(now))]
    && (if recommended && input.primary.Some? && !NamesSame(s.primaries, p, input.primary.value)
        then AppointsFrom(s, s', b, p, id, input.primary.value, Kept(input.changeReason), now)
        else s'.primaries == s.primaries)
  }

  lemma ConfirmationWrites(steps: seq<Step>, id: nat, input: ConfirmInput, now: Instant)
    requires Do(Run(Empty, steps), ConfirmStep(id, input, now)).1 == Done
    ensures var s := Run(Empty, steps);
            && KnownBatch(s, id) && s.batches[id].rawResponse.Some?
            && ConfirmationWritten(s, Do(s, ConfirmStep(id, input, now)).0, id, input, now)
  {
    var s := Run(Empty, steps);
    EmptyIsOk();
    RunKeepsResults(Empty, steps);
    RunKeepsPrimaries(Empty, steps);
    ConfirmEdits(s, id, input, now);
    assert BatchOk(s.batches[id], s.nextToken);
    ConfirmationWritesIn(s, id, input, now);
  }

  lemma ConfirmationWritesIn(s: State, id: nat, input: ConfirmInput, now: Instant)
    requires KnownBatch(s, id) && id !in s.confirmations && ConfirmRefusal(s, id, input) == Done
    requires Configured(s.batches[id].profiles) && Chain(Of(s.primaries, PolicyOf(s, id)))
    ensures ConfirmationWritten(s, Do(s, ConfirmStep(id, input, now)).0, id, input, now)
  {
    var b, p := s.batches[id], PolicyOf(s, id);
    StatedIsTruthy(input.changeReason);
    if input.primary.Some? {
      ProfilesByCode(b.profiles, input.primary.value);
      CurrentFacts(s.primaries, p, input.primary.value);
      if input.values.conclusion.RecommendApply? && ChangesPrimary(s, p, input.primary.value) {
        var legalName := ProfileOf(b.profiles, input.primary.value).value.legalName;
        AppointIsAppointed(s.primaries, Primary(p, id, input.primary.value, legalName, Kept(input.changeReason), now, None), now);
      }
    }
  }

  // ---------- Manual decisions ----------

  // The batch that the policy points at is confirmed.
  predicate PointsAtDone(s: State, p: nat) {
    && p < |s.policies| && s.policies[p].currentBatch.Some?
    && var id := s.policies[p].currentBatch.value;
    id < |s.batches| && s.batches[id].status.Confirmed?
  }

  lemma PointsAlike(s: State, p: nat)
    requires ResultsOk(s)
    ensures PointsAtConfirmed(s, p) <==> PointsAtDone(s, p)
  {
  }

  lemma AdjustmentExact(steps: seq<Step>, p: nat, verdict: Verdict, reason: string, now: Instant)
    ensures var s := Run(Empty, steps);
            var (s', reply) := Do(s, AdjustStep(p, verdict, reason, now));
            && reply == (if p >= |s.policies| then NotFound
                         else if Strip(reason) == "" then ReasonRequired
                         else if !PointsAtDone(s, p) then NotConfirmed
                         else if verdict.RecommendApply? && !HasCurrent(s.primaries, p) then PrimaryRequired
                         else Done)
            && (if reply == Done then
                  && PointsAtDone(s, p)
                  && var old' := s.policies[p];
                  s' == s.(
                    policies := s.policies[p := Policy(old'.currentBatch, verdict, true, ManualOverride, Some(now))],
                    decisions := s.decisions + [Decision(p, old'.currentBatch.value, old'.conclusion, verdict, ManualOverride,
                                                         Some(Strip(reason)), now)])
                else s' == s)
  {
    var s := Run(Empty, steps);
    EmptyIsOk();
    RunKeepsResults(Empty, steps);
    RunKeepsPrimaries(Empty, steps);
    PointsAlike(s, p);
    CurrentFacts(s.primaries, p, Beijing);
  }

  lemma SelectionExact(steps: seq<Step>, p: nat, code: Code, reason: Option<string>, now: Instant)
    ensures var s := Run(Empty, steps);
            var (s', reply) := Do(s, SelectStep(p, code, reason, now));
            && reply == (if p >= |s.policies| then NotFound
                         else if !PointsAtDone(s, p) then NotConfirmed
                         else if code !in {Beijing, Suzhou, Shenzhen} then PrimaryNotEligible
                         else if NamesSame(s.primaries, p, code) then PrimaryUnchanged
                         else if NamesOther(s.primaries, p, code) && !Stated(reason) then PrimaryReasonRequired
                         else Done)
            && (if reply == Done then
                  && PointsAtDone(s, p) && s' == s.(primaries := s'.primaries)
                  && var id := s.policies[p].currentBatch.value;
                  AppointsFrom(s, s', s.batches[id], p, id, code, Kept(reason), now)
                else s' == s)
  {
    var s := Run(Empty, steps);
    EmptyIsOk();
    RunKeepsResults(Empty, steps);
    RunKeepsPrimaries(Empty, steps);
    PointsAlike(s, p);
    if PointsAtDone(s, p) { SelectionIn(s, p, code, reason, now); }
  }

  lemma SelectionIn(s: State, p: nat, code: Code, reason: Option<string>, now: Instant)
    requires ResultsOk(s) && PointsAtConfirmed(s, p) && Chain(Of(s.primaries, p))
    ensures var (s', reply) := Do(s, SelectStep(p, code, reason, now));
            && reply == (if code !in {Beijing, Suzhou, Shenzhen} then PrimaryNotEligible
                         else if NamesSame(s.primaries, p, code) then PrimaryUnchanged
                         else if NamesOther(s.primaries, p, code) && !Stated(reason) then PrimaryReasonRequired
                         else Done)
            && (if reply == Done then
                  && s' == s.(primaries := s'.primaries)
                  && var id := s.policies[p].currentBatch.value;
                  AppointsFrom(s, s', s.batches[id], p, id, code, Kept(reason), now)
                else s' == s)
  {
    var id := s.policies[p].currentBatch.value;
    assert Configured(s.batches[id].profiles) by { assert BatchOk(s.batches[id], s.nextToken); }
    SelectionOf(s, p, id, code, reason, now);
  }

  lemma SelectionOf(s: State, p: nat, id: nat, code: Code, reason: Option<string>, now: Instant)
    requires PointsAtConfirmed(s, p) && s.policies[p].currentBatch == Some(id) && Chain(Of(s.primaries, p))
    requires Configured(s.batches[id].profiles)
    ensures var (s', reply) := Do(s, SelectStep(p, code, reason, now));
            && reply == (if code !in {Beijing, Suzhou, Shenzhen} then PrimaryNotEligible
                         else if NamesSame(s.primaries, p, code) then PrimaryUnchanged
                         else if NamesOther(s.primaries, p, code) && !Stated(reason) then PrimaryReasonRequired
                         else Done)
            && (if reply == Done then
                  && s' == s.(primaries := s'.primaries)
                  && AppointsFrom(s, s', s.batches[id], p, id, code, Kept(reason), now)
                else s' == s)
  {
    StatedIsTruthy(reason);
    CurrentFacts(s.primaries, p, code);
    ValidHasCodes(s.confirmations[id].values, code);
    ProfilesByCode(s.batches[id].profiles, code);
    if code in {Beijing, Suzhou, Shenzhen} {
      var legalName := ProfileOf(s.batches[id].profiles, code).value.legalName;
      AppointIsAppointed(s.primaries, Primary(p, id, code, legalName, Kept(reason), now, None), now);
    }
  }

  // ---------- Batches and workers ----------

  lemma EnqueueExact(s: State, version: nat, profiles: seq<Profile>, published: bool)
    ensures var (s', reply) := Do(s, EnqueueStep(version, profiles, published));
            var three := |profiles| == 3 && profiles[0].code == Beijing && profiles[1].code == Suzhou && profiles[2].code == Shenzhen;
            && reply == (if !three then WrongEntities else if !published then NoPublishedRule
                         else if version >= |s.versions| then ForeignKeyViolation else Created(|s.batches|))
            && (if reply.Created? then
                  s' == s.(batches := s.batches + [Batch(version, profiles, Pending, None, None, None, None, None, false, None)])
                else s' == s)
  {
    var codes := seq(|profiles|, i requires 0 <= i < |profiles| => profiles[i].code);
    assert codes == [Beijing, Suzhou, Shenzhen] <==> |codes| == 3 && codes[0] == Beijing && codes[1] == Suzhou && codes[2] == Shenzhen;
  }

  lemma CancelExact(s: State, id: nat, reason: Option<string>, now: Instant)
    ensures var (s', reply) := Do(s, CancelStep(id, reason, now));
            && reply == (if id >= |s.batches| then NotFound
                         else if s.batches[id].status in {Pending, Running, Cancelled} then Done else CancellationConflict)
            && (if id < |s.batches| && s.batches[id].status in {Pending, Running} then
                  var b := s.batches[id];
                  s' == s.(batches := s.batches[
                             id := b.(status := Cancelled, cancelReason := if Stated(reason) then Kept(reason) else None,
                                      finishedAt := Some(now), claimToken := None)])
                else s' == s)
  {
    StatedIsTruthy(reason);
  }

  // A worker may take a pending batch, or a running one whose claim is fifteen minutes old.
  predicate Takeable(b: Batch, now: Instant) {
    b.status.Pending? || (b.status.Running? && b.startedAt.Some? && now - b.startedAt.value >= 900)
  }

  lemma ClaimExact(steps: seq<Step>, now: Instant, locked: set<nat>)
    ensures var s := Run(Empty, steps);
            var (s', reply) := Do(s, ClaimStep(now, locked));
            && (reply.Idle? <==> forall j: nat | j < |s.batches| && j !in locked :: !Takeable(s.batches[j], now))
            && (reply.Idle? ==> s' == s)
            && (!reply.Idle? ==>
                  && reply.Claimed? && reply.id < |s.batches| && reply.id !in locked && Takeable(s.batches[reply.id], now)
                  && (forall j: nat | j < reply.id && j !in locked :: !Takeable(s.batches[j], now))
                  && (forall j: nat | j < |s.batches| :: s.batches[j].claimToken != Some(reply.token))
                  && s' == s.(batches := s.batches[
                                reply.id := s.batches[reply.id].(status := Running, startedAt := Some(now),
                                                                 claimToken := Some(reply.token))],
                              nextToken := s.nextToken + 1))
  {
    var s := Run(Empty, steps);
    RunKeepsStarted(Empty, steps);
    EmptyIsOk();
    RunKeepsResults(Empty, steps);
    forall j: nat | j < |s.batches| ensures Takeable(s.batches[j], now) <==> Claimable(s.batches[j], now) {
      assert BatchOk(s.batches[j], s.nextToken);
    }
    forall j: nat | j < |s.batches| ensures s.batches[j].claimToken != Some(s.nextToken) {
      assert BatchOk(s.batches[j], s.nextToken);
    }
  }

  // A running batch has a start.
  ghost predicate Started(s: State) {
    forall i: nat | i < |s.batches| :: s.batches[i].status.Running? ==> s.batches[i].startedAt.Some?
  }

  lemma StepKeepsStarted(s: State, step: Step)
    requires Started(s)
    ensures Started(Do(s, step).0)
  {
    var s' := Do(s, step).0;
    forall i: nat | i < |s'.batches| && s'.batches[i].status.Running? ensures s'.batches[i].startedAt.Some? {
      if i < |s.batches| { BatchChanges(s, step, i); } else { NewBatchWaits(s, step, i); }
    }
  }

  lemma NewBatchWaits(s: State, step: Step, i: nat)
    requires |s.batches| <= i < |Do(s, step).0.batches|
    ensures Do(s, step).0.batches[i].status.Pending?
  {
    if step.ConfirmStep? {
      ConfirmEdits(s, step.id, step.input, step.now);
    } else if step.AdjustStep? || step.SelectStep? {
      DecisionsTouchNoResult(s, step);
    }
  }

  lemma {:induction false} RunKeepsStarted(s: State, steps: seq<Step>)
    requires Started(s)
    ensures Started(Run(s, steps))
    decreases |steps|
  {
    if steps != [] {
      StepKeepsStarted(s, steps[0]);
      RunKeepsStarted(Do(s, steps[0]).0, steps[1..]);
    }
  }

  // The answer that a batch can be completed with: three results, one for each entity.
  predicate Complete(answer: Answer) {
    && answer.Produced? && |answer.values.entities| == 3
    && (exists e | e in answer.values.entities :: e.code == Beijing)
    && (exists e | e in answer.values.entities :: e.code == Suzhou)
    && (exists e | e in answer.values.entities :: e.code == Shenzhen)
  }

  lemma CompleteIsValid(answer: Answer)
    ensures Complete(answer) <==> answer.Produced? && Valid(answer.values)
  {
    if Complete(answer) {
      var es := answer.values.entities;
      assert es == [es[0], es[1], es[2]];
      assert forall code | code in {Beijing, Suzhou, Shenzhen} :: HasCode(es, code);
      assert {es[0].code, es[1].code, es[2].code} == {Beijing, Suzhou, Shenzhen} by { CodesCover(es); }
    }
  }

  lemma CodesCover(es: seq<EntityResult>)
    requires |es| == 3 && HasCode(es, Beijing) && HasCode(es, Suzhou) && HasCode(es, Shenzhen)
    ensures {es[0].code, es[1].code, es[2].code} == {Beijing, Suzhou, Shenzhen}
  {
    assert es == [es[0], es[1], es[2]];
  }

  // What a completed answer leaves.
  ghost predicate AnswerStored(s: State, s': State, id: nat, v: ValidValues, now: Instant)
    requires KnownBatch(s, id)
  {
    var p, b := PolicyOf(s, id), s.batches[id];
    var old' := s.policies[p];
    && s'.batches == s.batches[
         id := b.(status := AwaitingConfirmation, conclusion := Some(v.conclusion), rawResponse := Some(v), finishedAt := Some(now))]
    && (forall e | e in v.entities :: RowKey(id, e.code) in s'.rows && s'.rows[RowKey(id, e.code)] == e)
    && (forall k: RowKey | k.batch != id :: (k in s'.rows <==> k in s.rows) && (k in s.rows ==> s'.rows[k] == s.rows[k]))
    && s'.policies == s.policies[
         p := if old'.currentBatch.Some? && old'.currentBatch.value >= id then old'
              else if old'.source.SystemSuggestion? then Policy(Some(id), v.conclusion, false, SystemSuggestion, None)
              else old'.(currentBatch := Some(id))]
    && s'.versions == s.versions && s'.confirmations == s.confirmations && s'.decisions == s.decisions
    && s'.primaries == s.primaries && s'.nextToken == s.nextToken
  }

  // The holder of the live token completes the batch with a complete answer and fails it with any
  // other; anybody else changes nothing.
  lemma ProcessExact(steps: seq<Step>, id: nat, token: nat, answer: Answer, now: Instant)
    ensures var s := Run(Empty, steps);
            var (s', reply) := Do(s, ProcessStep(id, token, answer, now));
            var live := id < |s.batches| && s.batches[id].status.Running? && s.batches[id].claimToken == Some(token);
            && reply == (if id >= |s.batches| then NotFound else if !live then ClaimLost
                         else if Complete(answer) then Completed else MarkedFailed)
            && (reply == Completed ==> KnownBatch(s, id) && Valid(answer.values) && AnswerStored(s, s', id, answer.values, now))
            && (reply == MarkedFailed ==>
                  s' == s.(batches := s.batches[id := s.batches[id].(status := Failed, failed := true, finishedAt := Some(now))]))
            && (reply in {NotFound, ClaimLost} ==> s' == s)
  {
    var s := Run(Empty, steps);
    EmptyIsOk();
    RunKeepsResults(Empty, steps);
    CompleteIsValid(answer);
    if Holds(s, id, token) {
      HeldBatchIsFree(s, id, token);
      if answer.Produced? && Valid(answer.values) { AnswerIsStored(s, id, token, answer, now); }
    }
  }

  lemma AnswerIsStored(s: State, id: nat, token: nat, answer: Answer, now: Instant)
    requires Holds(s, id, token) && KnownBatch(s, id) && RowsFree(s, id) && answer.Produced? && Valid(answer.values)
    ensures AnswerStored(s, Do(s, ProcessStep(id, token, answer, now)).0, id, answer.values, now)
  {
    var es := answer.values.entities;
    RowsHold(s.rows, id, es);
    AddRowsAdds(s.rows, id, es);
  }

  // Every result has its own row, and the rows of other batches stay.
  lemma {:induction false} RowsHold(rows: map<RowKey, EntityResult>, id: nat, es: seq<EntityResult>)
    requires forall i, j | 0 <= i < j < |es| :: es[i].code != es[j].code
    ensures var rows' := AddRows(rows, id, es);
            && (forall e | e in es :: RowKey(id, e.code) in rows' && rows'[RowKey(id, e.code)] == e)
            && (forall k: RowKey | k.batch != id :: (k in rows' <==> k in rows) && (k in rows ==> rows'[k] == rows[k]))
  {
    if es != [] {
      var n := |es| - 1;
      RowsHold(rows, id, es[..n]);
      assert es == es[..n] + [es[n]];
    }
  }

  lemma FailExact(s: State, id: nat, token: nat, now: Instant)
    ensures var (s', reply) := Do(s, FailStep(id, token, now));
            var live := id < |s.batches| && s.batches[id].status.Running? && s.batches[id].claimToken == Some(token);
            && reply == (if id >= |s.batches| then NotFound else if !live then ClaimLost else MarkedFailed)
            && s' == (if live then
                        s.(batches := s.batches[id := s.batches[id].(status := Failed, failed := true, finishedAt := Some(now))])
                      else s)
  {
  }
}
