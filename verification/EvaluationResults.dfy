/** Exactly-once results: what a batch's status says about its stored result, under any
    interleaving of claims, reclaims, late workers, failures, cancellations and confirmations. */
module EvaluationResults {
  import opened Wrappers
  import opened Evaluations

  ghost predicate Linked(s: State) {
    && (forall v: nat | v < |s.versions| :: s.versions[v] < |s.policies|)
    && (forall i: nat | i < |s.batches| :: s.batches[i].versionId < |s.versions|)
  }

  predicate Finished(b: Batch) {
    b.status.AwaitingConfirmation? || b.status.Confirmed?
  }

  predicate Configured(profiles: seq<Profile>) {
    seq(|profiles|, i requires 0 <= i < |profiles| => profiles[i].code) == ENTITY_ORDER
  }

  ghost predicate BatchOk(b: Batch, nextToken: nat) {
    && Configured(b.profiles)
    && (b.rawResponse.Some? <==> Finished(b))
    && (b.conclusion == if b.rawResponse.Some? then Some(b.rawResponse.value.conclusion) else None)
    && (b.status.Running? ==> b.claimToken.Some?)
    && (b.status.Pending? ==> b.claimToken.None?)
    && (b.claimToken.Some? ==> b.claimToken.value < nextToken)
    && (b.failed <==> b.status.Failed?)
  }

  ghost predicate RowsOk(b: Batch, i: nat, rows: map<RowKey, EntityResult>) {
    && (forall code :: RowKey(i, code) in rows <==> Finished(b) && code in ENTITY_CODES)
    && (forall code | RowKey(i, code) in rows ::
          && rows[RowKey(i, code)].code == code
          && b.rawResponse.Some? && rows[RowKey(i, code)] in b.rawResponse.value.entities)
  }

  ghost predicate ResultsOk(s: State) {
    && Linked(s)
    && (forall i: nat | i < |s.batches| :: BatchOk(s.batches[i], s.nextToken))
    && (forall i: nat | i < |s.batches| :: RowsOk(s.batches[i], i, s.rows))
    && (forall k | k in s.rows :: k.batch < |s.batches|)
    && (forall i: nat :: i in s.confirmations <==> i < |s.batches| && s.batches[i].status.Confirmed?)
    && TokensDiffer(s.batches)
  }

  ghost predicate TokensDiffer(bs: seq<Batch>) {
    forall i: nat, j: nat | i < j < |bs| && bs[i].claimToken.Some? :: bs[i].claimToken != bs[j].claimToken
  }

  // ---------- Rows of a completed batch ----------

  lemma {:induction false} AddRowsAdds(rows: map<RowKey, EntityResult>, id: nat, es: seq<EntityResult>)
    ensures forall k :: k in AddRows(rows, id, es) <==> k in rows || (k.batch == id && HasCode(es, k.code))
    ensures forall k | k in rows && k.batch != id :: AddRows(rows, id, es)[k] == rows[k]
    ensures forall code | HasCode(es, code) ::
              AddRows(rows, id, es)[RowKey(id, code)].code == code && AddRows(rows, id, es)[RowKey(id, code)] in es
  {
    if es != [] {
      var m := |es| - 1;
      AddRowsAdds(rows, id, es[..m]);
      assert es == es[..m] + [es[m]];
      forall code ensures HasCode(es, code) <==> HasCode(es[..m], code) || code == es[m].code {
        if code == es[m].code { assert es[m] in es; }
      }
    }
  }

  lemma CompleteRows(b: Batch, id: nat, rows: map<RowKey, EntityResult>, v: ValidValues, now: Instant)
    requires RowsOk(b, id, rows) && b.status.Running?
    ensures RowsOk(CompletedBatch(b, v, now), id, AddRows(rows, id, v.entities))
  {
    AddRowsAdds(rows, id, v.entities);
    forall code ensures HasCode(v.entities, code) <==> code in ENTITY_CODES {
    }
  }

  // ---------- Steps ----------

  // Batch id becomes b' while every other batch, and every stored result, stays.
  ghost predicate EditsBatch(s: State, id: nat, b': Batch, s': State) {
    && id < |s.batches|
    && s'.batches == s.batches[id := b']
    && s'.rows == s.rows
    && s'.versions == s.versions && |s'.policies| == |s.policies|
    && s'.nextToken >= s.nextToken
    && b'.versionId == s.batches[id].versionId
    && b'.rawResponse == s.batches[id].rawResponse
    && (b'.claimToken in {None, s.batches[id].claimToken}
        || (b'.claimToken == Some(s.nextToken) && s'.nextToken == s.nextToken + 1))
    && s'.confirmations.Keys == s.confirmations.Keys + if b'.status.Confirmed? then {id} else {}
  }

  lemma EditKeepsTokens(bs: seq<Batch>, id: nat, b': Batch, nextToken: nat)
    requires id < |bs| && TokensDiffer(bs)
    requires forall i: nat | i < |bs| :: BatchOk(bs[i], nextToken)
    requires b'.claimToken in {None, bs[id].claimToken, Some(nextToken)}
    ensures TokensDiffer(bs[id := b'])
  {
  }

  lemma EditKeepsResults(s: State, id: nat, b': Batch, s': State)
    requires ResultsOk(s) && EditsBatch(s, id, b', s')
    requires BatchOk(b', s'.nextToken) && Finished(b') == Finished(s.batches[id])
    requires s.batches[id].status.Confirmed? ==> b'.status.Confirmed?
    ensures ResultsOk(s')
  {
    EditKeepsTokens(s.batches, id, b', s.nextToken);
    forall i: nat | i < |s'.batches|
      ensures BatchOk(s'.batches[i], s'.nextToken) && RowsOk(s'.batches[i], i, s'.rows)
    {
      assert BatchOk(s.batches[i], s.nextToken) && RowsOk(s.batches[i], i, s.rows);
    }
  }

  lemma CancelKeepsResults(s: State, id: nat, reason: Option<string>, now: Instant)
    requires ResultsOk(s)
    ensures ResultsOk(Cancel(s, id, reason, now).0)
  {
    if id < |s.batches| && (s.batches[id].status.Pending? || s.batches[id].status.Running?) {
      assert BatchOk(s.batches[id], s.nextToken);
      EditKeepsResults(s, id, CancelledBatch(s.batches[id], reason, now), Cancel(s, id, reason, now).0);
    }
  }

  lemma ClaimKeepsResults(s: State, now: Instant, locked: set<nat>)
    requires ResultsOk(s)
    ensures ResultsOk(ClaimNext(s, now, locked).0)
  {
    var first := NextClaim(s.batches, now, locked, 0);
    if first.Some? {
      var id := first.value;
      assert BatchOk(s.batches[id], s.nextToken);
      EditKeepsResults(s, id, ClaimedBatch(s.batches[id], s.nextToken, now), ClaimNext(s, now, locked).0);
    }
  }

  lemma FailKeepsResults(s: State, id: nat, token: nat, now: Instant)
    requires ResultsOk(s)
    ensures ResultsOk(FailClaimed(s, id, token, now).0)
  {
    if Holds(s, id, token) {
      assert BatchOk(s.batches[id], s.nextToken);
      EditKeepsResults(s, id, FailedBatch(s.batches[id], now), FailClaimed(s, id, token, now).0);
    }
  }

  lemma ConfirmEdits(s: State, id: nat, input: ConfirmInput, now: Instant)
    ensures var (s', reply) := Confirm(s, id, input, now);
            if reply == Done then
              && KnownBatch(s, id) && s.batches[id].status.AwaitingConfirmation?
              && EditsBatch(s, id, s.batches[id].(status := Confirmed, finishedAt := Some(now)), s')
            else s' == s
  {
  }

  lemma ConfirmKeepsResults(s: State, id: nat, input: ConfirmInput, now: Instant)
    requires ResultsOk(s)
    ensures ResultsOk(Confirm(s, id, input, now).0)
  {
    ConfirmEdits(s, id, input, now);
    var (s', reply) := Confirm(s, id, input, now);
    if reply == Done { ConfirmedResultsOk(s, id, now, s'); }
  }

  lemma ConfirmedResultsOk(s: State, id: nat, now: Instant, s': State)
    requires ResultsOk(s) && id < |s.batches| && s.batches[id].status.AwaitingConfirmation?
    requires EditsBatch(s, id, s.batches[id].(status := Confirmed, finishedAt := Some(now)), s')
    ensures ResultsOk(s')
  {
    assert BatchOk(s.batches[id], s.nextToken);
    EditKeepsResults(s, id, s.batches[id].(status := Confirmed, finishedAt := Some(now)), s');
  }

  lemma CompleteKeepsResults(s: State, id: nat, v: ValidValues, now: Instant, s': State)
    requires ResultsOk(s) && id < |s.batches| && s.batches[id].status.Running?
    requires s'.batches == s.batches[id := CompletedBatch(s.batches[id], v, now)]
    requires s'.rows == AddRows(s.rows, id, v.entities)
    requires s'.versions == s.versions && |s'.policies| == |s.policies|
    requires s'.nextToken == s.nextToken && s'.confirmations == s.confirmations
    ensures ResultsOk(s')
  {
    CompleteRows(s.batches[id], id, s.rows, v, now);
    AddRowsAdds(s.rows, id, v.entities);
    EditKeepsTokens(s.batches, id, s'.batches[id], s.nextToken);
    forall i: nat | i < |s'.batches| ensures BatchOk(s'.batches[i], s'.nextToken) {
      assert BatchOk(s.batches[i], s.nextToken);
    }
    forall i: nat | i < |s'.batches| ensures RowsOk(s'.batches[i], i, s'.rows) {
      assert RowsOk(s.batches[i], i, s.rows);
    }
  }

  // A held batch has no rows yet, so its completion never meets the unique key.
  lemma HeldBatchIsFree(s: State, id: nat, token: nat)
    requires ResultsOk(s) && Holds(s, id, token)
    ensures KnownBatch(s, id) && RowsFree(s, id)
  {
    assert RowsOk(s.batches[id], id, s.rows);
    forall k | k in s.rows ensures k.batch != id {
      assert k == RowKey(k.batch, k.code);
    }
  }

  lemma ProcessKeepsResults(s: State, id: nat, token: nat, answer: Answer, now: Instant)
    requires ResultsOk(s)
    ensures ResultsOk(ProcessClaimed(s, id, token, answer, now).0)
  {
    var (s', reply) := ProcessClaimed(s, id, token, answer, now);
    if reply.Completed? {
      CompleteKeepsResults(s, id, answer.values, now, s');
    } else if reply.MarkedFailed? {
      FailKeepsResults(s, id, token, now);
    }
  }

  lemma EnqueueKeepsResults(s: State, v: nat, profiles: seq<Profile>, published: bool)
    requires ResultsOk(s)
    ensures ResultsOk(Enqueue(s, v, profiles, published).0)
  {
    var s' := Enqueue(s, v, profiles, published).0;
    forall i: nat | i < |s'.batches| ensures RowsOk(s'.batches[i], i, s'.rows) {
      if i == |s.batches| {
        forall code ensures RowKey(i, code) !in s.rows {
          assert RowKey(i, code).batch == i;
        }
      } else {
        assert RowsOk(s.batches[i], i, s.rows);
      }
    }
  }

  lemma StepKeepsResults(s: State, step: Step)
    requires ResultsOk(s)
    ensures ResultsOk(Do(s, step).0)
  {
    match step
    case AddPolicyStep => AddPolicyKeepsResults(s);
    case AddVersionStep(p) => AddVersionKeepsResults(s, p);
    case EnqueueStep(v, profiles, published) => EnqueueKeepsResults(s, v, profiles, published);
    case CancelStep(id, reason, now) => CancelKeepsResults(s, id, reason, now);
    case ClaimStep(now, locked) => ClaimKeepsResults(s, now, locked);
    case ProcessStep(id, token, answer, now) => ProcessKeepsResults(s, id, token, answer, now);
    case FailStep(id, token, now) => FailKeepsResults(s, id, token, now);
    case ConfirmStep(id, input, now) => ConfirmKeepsResults(s, id, input, now);
    case AdjustStep(p, verdict, reason, now) => DecisionsKeepResults(s, step);
    case SelectStep(p, code, reason, now) => DecisionsKeepResults(s, step);
  }

  lemma AddPolicyKeepsResults(s: State)
    requires ResultsOk(s)
    ensures ResultsOk(AddPolicy(s).0)
  {
  }

  lemma AddVersionKeepsResults(s: State, p: nat)
    requires ResultsOk(s)
    ensures ResultsOk(AddVersion(s, p).0)
  {
  }

  ghost predicate SameResults(s: State, s': State) {
    && s'.batches == s.batches && s'.rows == s.rows && s'.confirmations == s.confirmations
    && s'.versions == s.versions && |s'.policies| == |s.policies| && s'.nextToken == s.nextToken
  }

  // An owner's decision touches no result.
  lemma DecisionsTouchNoResult(s: State, step: Step)
    requires step.AdjustStep? || step.SelectStep?
    ensures SameResults(s, Do(s, step).0)
  {
  }

  lemma DecisionsKeepResults(s: State, step: Step)
    requires ResultsOk(s) && (step.AdjustStep? || step.SelectStep?)
    ensures ResultsOk(Do(s, step).0)
  {
    DecisionsTouchNoResult(s, step);
    SameResultsOk(s, Do(s, step).0);
  }

  lemma SameResultsOk(s: State, s': State)
    requires ResultsOk(s) && SameResults(s, s')
    ensures ResultsOk(s')
  {
  }

  lemma {:induction false} RunKeepsResults(s: State, steps: seq<Step>)
    requires ResultsOk(s)
    ensures ResultsOk(Run(s, steps))
    decreases |steps|
  {
    if steps != [] {
      StepKeepsResults(s, steps[0]);
      RunKeepsResults(Do(s, steps[0]).0, steps[1..]);
    }
  }
}
