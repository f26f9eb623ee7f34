/** EvaluationService as it runs: rows assigned step by step. Each method is proved to be its
    transaction in Evaluations; a refused call changes nothing. */
module EvaluationService {
  import opened Wrappers
  import opened Text
  import opened Evaluations

  class Service {
    var policies: seq<Policy>
    var versions: seq<nat>
    var batches: seq<Batch>
    var rows: map<RowKey, EntityResult>
    var confirmations: map<nat, Confirmation>
    var decisions: seq<Decision>
    var primaries: seq<Primary>
    var nextToken: nat

    function Tables(): State
      reads this
    {
      State(policies, versions, batches, rows, confirmations, decisions, primaries, nextToken)
    }

    constructor ()
      ensures Tables() == Empty
    {
      policies, versions, batches, rows := [], [], [], map[];
      confirmations, decisions, primaries, nextToken := map[], [], [], 0;
    }

    method EnqueueBatch(versionId: nat, profiles: seq<Profile>, published: bool) returns (reply: Reply)
      modifies this
      ensures (Tables(), reply) == Enqueue(old(Tables()), versionId, profiles, published)
    {
      if seq(|profiles|, i requires 0 <= i < |profiles| => profiles[i].code) != ENTITY_ORDER {
        return WrongEntities;
      }
      if !published {
        return NoPublishedRule;
      }
      if versionId >= |versions| {
        return ForeignKeyViolation;
      }
      reply := Created(|batches|);
      batches := batches + [Batch(versionId, profiles, Pending, None, None, None, None, None, false, None)];
    }

    method CancelBatch(id: nat, reason: Option<string>, now: Instant) returns (reply: Reply)
      modifies this
      ensures (Tables(), reply) == Cancel(old(Tables()), id, reason, now)
    {
      if id >= |batches| {
        return NotFound;
      }
      var batch := batches[id];
      if batch.status.Cancelled? {
        return Done;
      }
      if !(batch.status.Pending? || batch.status.Running?) {
        return CancellationConflict;
      }
      batch := batch.(status := Cancelled);
      var stripped := StripOptional(reason);
      batch := batch.(cancelReason := if Truthy(stripped) then stripped else None);
      batch := batch.(finishedAt := Some(now));
      batch := batch.(claimToken := None);
      batches := batches[id := batch];
      return Done;
    }

    method Claim(now: Instant, locked: set<nat>) returns (reply: Reply)
      modifies this
      ensures (Tables(), reply) == ClaimNext(old(Tables()), now, locked)
    {
      var first := NextClaim(batches, now, locked, 0);
      if first.None? {
        return Idle;
      }
      var batch := batches[first.value];
      var token := nextToken;
      batch := batch.(status := Running);
      batch := batch.(startedAt := Some(now));
      batch := batch.(claimToken := Some(token));
      batches := batches[first.value := batch];
      nextToken := nextToken + 1;
      return Claimed(first.value, token);
    }

    method Fail(id: nat, token: nat, now: Instant) returns (reply: Reply)
      modifies this
      ensures (Tables(), reply) == FailClaimed(old(Tables()), id, token, now)
    {
      if id >= |batches| {
        return NotFound;
      }
      var batch := batches[id];
      if !batch.status.Running? || batch.claimToken != Some(token) {
        return ClaimLost;
      }
      batch := batch.(status := Failed);
      batch := batch.(failed := true);
      batch := batch.(finishedAt := Some(now));
      batches := batches[id := batch];
      return MarkedFailed;
    }

    method Process(id: nat, token: nat, answer: Answer, now: Instant) returns (reply: Reply)
      modifies this
      ensures (Tables(), reply) == ProcessClaimed(old(Tables()), id, token, answer, now)
    {
      if id >= |batches| {
        return NotFound;
      }
      if !Holds(Tables(), id, token) {
        return ClaimLost;
      }
      if answer.Raised? || !Valid(answer.values) || !KnownBatch(Tables(), id) || !RowsFree(Tables(), id) {
        reply := Fail(id, token, now);
        return;
      }
      var result: ValidValues := answer.values;
      var policyId := PolicyOf(Tables(), id);
      ghost var before := rows;
      var k := 0;
      while k < |result.entities|
        invariant 0 <= k <= |result.entities|
        invariant rows == AddRows(before, id, result.entities[..k])
        invariant policies == old(policies) && versions == old(versions) && batches == old(batches)
        invariant confirmations == old(confirmations) && decisions == old(decisions)
        invariant primaries == old(primaries) && nextToken == old(nextToken)
      {
        var entity := result.entities[k];
        assert result.entities[..k + 1][..k] == result.entities[..k];
        rows := rows[RowKey(id, entity.code) := entity];
        k := k + 1;
      }
      assert result.entities[..k] == result.entities;
      var batch := batches[id];
      batch := batch.(conclusion := Some(result.conclusion));
      batch := batch.(rawResponse := Some(result));
      batch := batch.(status := AwaitingConfirmation);
      batch := batch.(finishedAt := Some(now));
      batches := batches[id := batch];
      var policy := policies[policyId];
      if policy.currentBatch.None? || policy.currentBatch.value < id {
        policy := policy.(currentBatch := Some(id));
        if policy.source.SystemSuggestion? {
          policy := policy.(conclusion := result.conclusion);
          policy := policy.(confirmed := false);
          policy := policy.(confirmedAt := None);
        }
      }
      policies := policies[policyId := policy];
      return Completed;
    }

    // _append_conclusion_decision
    method AppendDecision(decision: Decision, updateProjection: bool)
      requires decision.policy < |policies|
      modifies this`decisions, this`policies
      ensures decisions == old(decisions) + [decision]
      ensures policies == old(policies)[decision.policy :=
                if updateProjection then DecidedPolicy(old(policies)[decision.policy], decision)
                else old(policies)[decision.policy]]
    {
      decisions := decisions + [decision];
      if updateProjection {
        var policy := policies[decision.policy];
        policy := policy.(conclusion := decision.conclusion);
        policy := policy.(confirmed := true);
        policy := policy.(source := decision.source);
        policy := policy.(confirmedAt := Some(decision.decidedAt));
        policies := policies[decision.policy := policy];
      }
    }

    // Ends the current primary entity of the policy, if any, and adds the new one.
    method ReplacePrimary(new': Primary, now: Instant)
      modifies this`primaries
      ensures primaries == Appoint(old(primaries), new', now)
    {
      var current := CurrentPrimary(primaries, new'.policy);
      if current.Some? {
        primaries := primaries[current.value := primaries[current.value].(supersededAt := Some(now))];
      }
      primaries := primaries + [new'];
    }

    // The checks of confirm before anything is written; Done when all pass.
    method CheckConfirmation(id: nat, input: ConfirmInput) returns (reply: Reply)
      requires KnownBatch(Tables(), id)
      ensures reply == ConfirmRefusal(Tables(), id, input)
    {
      var batch := batches[id];
      if !batch.status.AwaitingConfirmation? || batch.rawResponse.None? {
        return NotAwaitingConfirmation;
      }
      var reason := StripOptional(input.changeReason);
      if input.values.conclusion.RecommendApply? {
        if input.primary.None? {
          return PrimaryRequired;
        }
        var code := input.primary.value;
        if ProfileOf(batch.profiles, code).None? || !HasCode(input.values.entities, code) {
          return PrimaryNotEligible;
        }
        var current := CurrentPrimary(primaries, PolicyOf(Tables(), id));
        if current.Some? && primaries[current.value].code != code && !Truthy(reason) {
          return PrimaryReasonRequired;
        }
      }
      var changed := Normalize(input.values) != Normalize(batch.rawResponse.value);
      if changed && !Truthy(reason) {
        return ReasonRequired;
      }
      return Done;
    }

    method RecordConfirmation(id: nat, input: ConfirmInput, now: Instant)
      requires KnownBatch(Tables(), id) && ConfirmRefusal(Tables(), id, input) == Done
      modifies this
      ensures Tables() == ConfirmWritten(old(Tables()), id, input, now)
    {
      var batch := batches[id];
      var policyId := PolicyOf(Tables(), id);
      var reason := StripOptional(input.changeReason);
      var recommended := input.values.conclusion.RecommendApply?;
      var change := recommended && ChangesPrimary(Tables(), policyId, input.primary.value);
      confirmations := confirmations[
        id := Confirmation(input.values, reason, if recommended then input.primary else None, now)];
      AppendDecision(
        Decision(policyId, id, batch.rawResponse.value.conclusion, input.values.conclusion,
                 EvaluationConfirmation, reason, now),
        !policies[policyId].source.ManualOverride?);
      if change {
        var profile := ProfileOf(batch.profiles, input.primary.value);
        ReplacePrimary(Primary(policyId, id, input.primary.value, profile.value.legalName, reason, now, None), now);
      }
      batch := batch.(status := Confirmed);
      batch := batch.(finishedAt := Some(now));
      batches := batches[id := batch];
      ghost var decided := policies[policyId];
      policies := policies[policyId := policies[policyId].(currentBatch := Some(id))];
      assert policies == old(policies)[policyId := decided.(currentBatch := Some(id))];
    }

    method ConfirmBatch(id: nat, input: ConfirmInput, now: Instant) returns (reply: Reply)
      modifies this
      ensures (Tables(), reply) == Confirm(old(Tables()), id, input, now)
    {
      if id >= |batches| {
        return NotFound;
      }
      if !KnownBatch(Tables(), id) {
        return ForeignKeyViolation;
      }
      if id in confirmations {
        return Reconfirm(confirmations[id], input);
      }
      reply := CheckConfirmation(id, input);
      if reply == Done {
        RecordConfirmation(id, input, now);
      }
    }

    method Adjust(policyId: nat, verdict: Verdict, reason: string, now: Instant) returns (reply: Reply)
      modifies this
      ensures (Tables(), reply) == AdjustConclusion(old(Tables()), policyId, verdict, reason, now)
    {
      if policyId >= |policies| {
        return NotFound;
      }
      var normalized := Strip(reason);
      if normalized == "" {
        return ReasonRequired;
      }
      if !PointsAtConfirmed(Tables(), policyId) {
        return NotConfirmed;
      }
      if verdict.RecommendApply? {
        if CurrentPrimary(primaries, policyId).None? {
          return PrimaryRequired;
        }
      }
      var previous := policies[policyId].conclusion;
      AppendDecision(
        Decision(policyId, policies[policyId].currentBatch.value, previous, verdict, ManualOverride, Some(normalized), now),
        true);
      return Done;
    }

    method SelectPrimaryEntity(policyId: nat, code: Code, reason: Option<string>, now: Instant) returns (reply: Reply)
      modifies this
      ensures (Tables(), reply) == SelectPrimary(old(Tables()), policyId, code, reason, now)
    {
      if policyId >= |policies| {
        return NotFound;
      }
      if !PointsAtConfirmed(Tables(), policyId) {
        return NotConfirmed;
      }
      var id := policies[policyId].currentBatch.value;
      if !HasCode(confirmations[id].values.entities, code) {
        return PrimaryNotEligible;
      }
      var current := CurrentPrimary(primaries, policyId);
      if current.Some? && primaries[current.value].code == code {
        return PrimaryUnchanged;
      }
      var stripped := StripOptional(reason);
      if current.Some? && !Truthy(stripped) {
        return PrimaryReasonRequired;
      }
      var profile := ProfileOf(batches[id].profiles, code);
      if profile.None? {
        return ProfileMissing;
      }
      ReplacePrimary(Primary(policyId, id, code, profile.value.legalName, stripped, now, None), now);
      return Done;
    }
  }
}
