/** The evaluation decision loop (backend/app/modules/evaluations/service.py): batches, their
    entity rows, confirmations, conclusion decisions, primary entity decisions and the policy
    projection, with each transaction as a total function on these tables. */
module Evaluations {
  import opened Wrappers
  import opened Sorting
  import opened Text

  type Instant = int

  datatype Conclusion = PendingConfirmation | RecommendApply | Watch | NotRecommended | Uncertain
  // What a model or an owner may conclude; pending_confirmation is only a policy's first value.
  type Verdict = c: Conclusion | !c.PendingConfirmation? witness Watch

  datatype Source = SystemSuggestion | EvaluationConfirmation | ManualOverride
  datatype BatchStatus = Pending | Running | AwaitingConfirmation | Confirmed | Cancelled | Failed

  datatype Code = Beijing | Suzhou | Shenzhen | Other(name: string)
  const ENTITY_ORDER: seq<Code> := [Beijing, Suzhou, Shenzhen]
  const ENTITY_CODES: set<Code> := {Beijing, Suzhou, Shenzhen}

  const STALE_AFTER: int := 900

  // The other fields of an entity's result are one opaque text.
  datatype EntityResult = EntityResult(code: Code, score: nat, details: string)
  datatype Values = Values(
    conclusion: Verdict, summary: string, keyConditions: seq<string>, entities: seq<EntityResult>)

  predicate HasCode(es: seq<EntityResult>, code: Code) {
    exists e | e in es :: e.code == code
  }

  // validate_entities of EvaluationResult and EvaluationConfirmationInput.
  predicate Valid(v: Values) {
    && |v.entities| == 3
    && (forall e | e in v.entities :: e.code in ENTITY_CODES)
    && (forall code | code in ENTITY_CODES :: HasCode(v.entities, code))
  }

  const SAMPLE_ENTITIES := [EntityResult(Beijing, 0, ""), EntityResult(Suzhou, 0, ""), EntityResult(Shenzhen, 0, "")]

  lemma SampleIsValid()
    ensures Valid(Values(Watch, "", [], SAMPLE_ENTITIES))
  {
    assert SAMPLE_ENTITIES[0] in SAMPLE_ENTITIES;
    assert SAMPLE_ENTITIES[1] in SAMPLE_ENTITIES;
    assert SAMPLE_ENTITIES[2] in SAMPLE_ENTITIES;
  }

  type ValidValues = v: Values | Valid(v)
    ghost witness (SampleIsValid(); Values(Watch, "", [], SAMPLE_ENTITIES))

  // The alphabetical order of the seed codes.
  function Rank(e: EntityResult): int {
    match e.code
    case Beijing => 0
    case Shenzhen => 1
    case Suzhou => 2
    case Other(_) => 3
  }

  // _normalize_confirmation_values
  function Normalize(v: Values): Values {
    v.(entities := SortBy(Rank, v.entities))
  }

  datatype Profile = Profile(code: Code, legalName: string)

  datatype Batch = Batch(
    versionId: nat,
    profiles: seq<Profile>,
    status: BatchStatus,
    claimToken: Option<nat>,
    startedAt: Option<Instant>,
    finishedAt: Option<Instant>,
    conclusion: Option<Verdict>,
    rawResponse: Option<ValidValues>,
    failed: bool,
    cancelReason: Option<string>)

  datatype Policy = Policy(
    currentBatch: Option<nat>,
    conclusion: Conclusion,
    confirmed: bool,
    source: Source,
    confirmedAt: Option<Instant>)

  const FreshPolicy := Policy(None, PendingConfirmation, false, SystemSuggestion, None)

  datatype Confirmation = Confirmation(
    values: ValidValues, reason: Option<string>, primary: Option<Code>, confirmedAt: Instant)

  datatype Decision = Decision(
    policy: nat, batch: nat, previous: Conclusion, conclusion: Verdict, source: Source,
    reason: Option<string>, decidedAt: Instant)

  datatype Primary = Primary(
    policy: nat, batch: nat, code: Code, legalName: string, reason: Option<string>,
    selectedAt: Instant, supersededAt: Option<Instant>)

  // The unique key of the entity row table.
  datatype RowKey = RowKey(batch: nat, code: Code)

  // Primary keys are positions; versions[v] is the policy of version v.
  datatype State = State(
    policies: seq<Policy>,
    versions: seq<nat>,
    batches: seq<Batch>,
    rows: map<RowKey, EntityResult>,
    confirmations: map<nat, Confirmation>,
    decisions: seq<Decision>,
    primaries: seq<Primary>,
    nextToken: nat)

  const Empty := State([], [], [], map[], map[], [], [], 0)

  datatype Reply =
    | Done
    | Created(id: nat)
    | Idle
    | Claimed(id: nat, token: nat)
    | Completed
    | MarkedFailed
    | ClaimLost
    | AlreadyConfirmed
    | PrimaryUnchanged
    | NotFound
    | WrongEntities
    | ProfileMissing
    | NoPublishedRule
    | ForeignKeyViolation
    | CancellationConflict
    | ConfirmationConflict
    | NotAwaitingConfirmation
    | PrimaryRequired
    | PrimaryNotEligible
    | PrimaryReasonRequired
    | ReasonRequired
    | NotConfirmed

  // ---------- Queries ----------

  function PolicyOf(s: State, id: nat): (p: nat)
    requires KnownBatch(s, id)
    ensures p < |s.policies|
  {
    s.versions[s.batches[id].versionId]
  }

  predicate KnownBatch(s: State, id: nat) {
    && id < |s.batches|
    && s.batches[id].versionId < |s.versions|
    && s.versions[s.batches[id].versionId] < |s.policies|
  }

  predicate Claimable(b: Batch, now: Instant) {
    || b.status.Pending?
    || (b.status.Running? && (b.startedAt.None? || b.startedAt.value <= now - STALE_AFTER))
  }

  // The first claimable batch by id that no other transaction has locked.
  function NextClaim(bs: seq<Batch>, now: Instant, locked: set<nat>, from: nat): (r: Option<nat>)
    requires from <= |bs|
    ensures r.Some? ==> from <= r.value < |bs| && r.value !in locked && Claimable(bs[r.value], now)
    ensures forall i: nat | from <= i < (if r.Some? then r.value else |bs|) :: i in locked || !Claimable(bs[i], now)
    decreases |bs| - from
  {
    if from == |bs| then None
    else if from !in locked && Claimable(bs[from], now) then Some(from)
    else NextClaim(bs, now, locked, from + 1)
  }

  predicate Holds(s: State, id: nat, token: nat) {
    id < |s.batches| && s.batches[id].status.Running? && s.batches[id].claimToken == Some(token)
  }

  // The row whose current_policy_id is p.
  function CurrentPrimary(ps: seq<Primary>, p: nat): (r: Option<nat>)
    ensures r.Some? ==> r.value < |ps| && ps[r.value].policy == p && ps[r.value].supersededAt.None?
    ensures r.None? ==> forall i | 0 <= i < |ps| && ps[i].policy == p :: ps[i].supersededAt.Some?
  {
    if ps == [] then None
    else if ps[|ps| - 1].policy == p && ps[|ps| - 1].supersededAt.None? then Some(|ps| - 1)
    else CurrentPrimary(ps[..|ps| - 1], p)
  }

  function ProfileOf(profiles: seq<Profile>, code: Code): (r: Option<Profile>)
    ensures r.Some? ==> r.value in profiles && r.value.code == code
    ensures r.None? ==> forall q | q in profiles :: q.code != code
  {
    if profiles == [] then None
    else if profiles[0].code == code then Some(profiles[0])
    else ProfileOf(profiles[1..], code)
  }

  // ---------- Enqueue, cancel, claim ----------

  function Enqueue(s: State, versionId: nat, profiles: seq<Profile>, published: bool): (State, Reply) {
    if seq(|profiles|, i requires 0 <= i < |profiles| => profiles[i].code) != ENTITY_ORDER then (s, WrongEntities)
    else if !published then (s, NoPublishedRule)
    else if versionId >= |s.versions| then (s, ForeignKeyViolation)
    else
      (s.(batches := s.batches + [Batch(versionId, profiles, Pending, None, None, None, None, None, false, None)]),
       Created(|s.batches|))
  }

  function CancelledBatch(b: Batch, reason: Option<string>, now: Instant): Batch {
    b.(status := Cancelled,
       cancelReason := if Truthy(StripOptional(reason)) then StripOptional(reason) else None,
       finishedAt := Some(now),
       claimToken := None)
  }

  function Cancel(s: State, id: nat, reason: Option<string>, now: Instant): (State, Reply) {
    if id >= |s.batches| then (s, NotFound)
    else if s.batches[id].status.Cancelled? then (s, Done)
    else if !s.batches[id].status.Pending? && !s.batches[id].status.Running? then (s, CancellationConflict)
    else (s.(batches := s.batches[id := CancelledBatch(s.batches[id], reason, now)]), Done)
  }

  function ClaimedBatch(b: Batch, token: nat, now: Instant): Batch {
    b.(status := Running, startedAt := Some(now), claimToken := Some(token))
  }

  function ClaimNext(s: State, now: Instant, locked: set<nat>): (State, Reply) {
    var first := NextClaim(s.batches, now, locked, 0);
    if first.None? then (s, Idle)
    else
      (s.(batches := s.batches[first.value := ClaimedBatch(s.batches[first.value], s.nextToken, now)],
          nextToken := s.nextToken + 1),
       Claimed(first.value, s.nextToken))
  }

  // ---------- Worker results ----------

  datatype Answer = Produced(values: Values) | Raised

  function AddRows(rows: map<RowKey, EntityResult>, id: nat, es: seq<EntityResult>): map<RowKey, EntityResult> {
    if es == [] then rows
    else AddRows(rows, id, es[..|es| - 1])[RowKey(id, es[|es| - 1].code) := es[|es| - 1]]
  }

  function CompletedBatch(b: Batch, v: ValidValues, now: Instant): Batch {
    b.(conclusion := Some(v.conclusion), rawResponse := Some(v), status := AwaitingConfirmation, finishedAt := Some(now))
  }

  // The pointer only moves forward here, and only a suggestion follows it.
  function SuggestedPolicy(p: Policy, id: nat, verdict: Verdict): Policy {
    if p.currentBatch.Some? && p.currentBatch.value >= id then p
    else if !p.source.SystemSuggestion? then p.(currentBatch := Some(id))
    else Policy(Some(id), verdict, false, SystemSuggestion, None)
  }

  function FailedBatch(b: Batch, now: Instant): Batch {
    b.(status := Failed, failed := true, finishedAt := Some(now))
  }

  function FailClaimed(s: State, id: nat, token: nat, now: Instant): (State, Reply) {
    if id >= |s.batches| then (s, NotFound)
    else if !Holds(s, id, token) then (s, ClaimLost)
    else (s.(batches := s.batches[id := FailedBatch(s.batches[id], now)]), MarkedFailed)
  }

  predicate RowsFree(s: State, id: nat) {
    forall k | k in s.rows :: k.batch != id
  }

  // process_claimed: the second half, after the adapter answered. Any exception but a lost claim
  // fails the batch.
  function ProcessClaimed(s: State, id: nat, token: nat, answer: Answer, now: Instant): (State, Reply) {
    if id >= |s.batches| then (s, NotFound)
    else if !Holds(s, id, token) then (s, ClaimLost)
    else if answer.Raised? || !Valid(answer.values) || !KnownBatch(s, id) || !RowsFree(s, id) then
      FailClaimed(s, id, token, now)
    else
      var p := PolicyOf(s, id);
      (s.(rows := AddRows(s.rows, id, answer.values.entities),
          batches := s.batches[id := CompletedBatch(s.batches[id], answer.values, now)],
          policies := s.policies[p := SuggestedPolicy(s.policies[p], id, answer.values.conclusion)]),
       Completed)
  }

  // ---------- Confirmation ----------

  datatype ConfirmInput = ConfirmInput(values: ValidValues, changeReason: Option<string>, primary: Option<Code>)

  // The answer for a batch that already has a confirmation.
  function Reconfirm(c: Confirmation, input: ConfirmInput): Reply {
    if Normalize(c.values) != Normalize(input.values) then ConfirmationConflict
    else if c.values.conclusion.RecommendApply? then
      if input.primary.None? then PrimaryRequired
      else if !HasCode(c.values.entities, input.primary.value) then PrimaryNotEligible
      else if c.primary != input.primary then ConfirmationConflict
      else AlreadyConfirmed
    else AlreadyConfirmed
  }

  predicate Eligible(b: Batch, input: ConfirmInput) {
    && input.primary.Some?
    && ProfileOf(b.profiles, input.primary.value).Some?
    && HasCode(input.values.entities, input.primary.value)
  }

  predicate ChangesPrimary(s: State, p: nat, code: Code) {
    var current := CurrentPrimary(s.primaries, p);
    current.None? || s.primaries[current.value].code != code
  }

  // Why a first confirmation is refused, in the order of the checks; Done when it is not.
  function ConfirmRefusal(s: State, id: nat, input: ConfirmInput): Reply
    requires KnownBatch(s, id)
  {
    var b := s.batches[id];
    var p := PolicyOf(s, id);
    var reason := StripOptional(input.changeReason);
    if !b.status.AwaitingConfirmation? || b.rawResponse.None? then NotAwaitingConfirmation
    else if input.values.conclusion.RecommendApply? && input.primary.None? then PrimaryRequired
    else if input.values.conclusion.RecommendApply? && !Eligible(b, input) then PrimaryNotEligible
    else if input.values.conclusion.RecommendApply?
            && CurrentPrimary(s.primaries, p).Some? && ChangesPrimary(s, p, input.primary.value) && !Truthy(reason)
    then PrimaryReasonRequired
    else if Normalize(input.values) != Normalize(b.rawResponse.value) && !Truthy(reason) then ReasonRequired
    else Done
  }

  function Superseded(ps: seq<Primary>, p: nat, now: Instant): (r: seq<Primary>)
    ensures |r| == |ps|
  {
    var current := CurrentPrimary(ps, p);
    if current.None? then ps else ps[current.value := ps[current.value].(supersededAt := Some(now))]
  }

  function Appoint(ps: seq<Primary>, q: Primary, now: Instant): seq<Primary> {
    Superseded(ps, q.policy, now) + [q]
  }

  // _append_conclusion_decision's projection update.
  function DecidedPolicy(p: Policy, d: Decision): Policy {
    p.(conclusion := d.conclusion, confirmed := true, source := d.source, confirmedAt := Some(d.decidedAt))
  }

  function ConfirmedPolicy(p: Policy, d: Decision): Policy {
    (if p.source.ManualOverride? then p else DecidedPolicy(p, d)).(currentBatch := Some(d.batch))
  }

  // What a first confirmation writes.
  function ConfirmWritten(s: State, id: nat, input: ConfirmInput, now: Instant): State
    requires KnownBatch(s, id) && ConfirmRefusal(s, id, input) == Done
  {
    var b := s.batches[id];
    var p := PolicyOf(s, id);
    var reason := StripOptional(input.changeReason);
    var recommended := input.values.conclusion.RecommendApply?;
    var d := Decision(p, id, b.rawResponse.value.conclusion, input.values.conclusion, EvaluationConfirmation, reason, now);
    s.(confirmations := s.confirmations[
         id := Confirmation(input.values, reason, if recommended then input.primary else None, now)],
       decisions := s.decisions + [d],
       policies := s.policies[p := ConfirmedPolicy(s.policies[p], d)],
       primaries :=
         if recommended && ChangesPrimary(s, p, input.primary.value) then
           var legalName := ProfileOf(b.profiles, input.primary.value).value.legalName;
           Appoint(s.primaries, Primary(p, id, input.primary.value, legalName, reason, now, None), now)
         else s.primaries,
       batches := s.batches[id := b.(status := Confirmed, finishedAt := Some(now))])
  }

  function Confirm(s: State, id: nat, input: ConfirmInput, now: Instant): (State, Reply) {
    if id >= |s.batches| then (s, NotFound)
    else if !KnownBatch(s, id) then (s, ForeignKeyViolation)
    else if id in s.confirmations then (s, Reconfirm(s.confirmations[id], input))
    else if ConfirmRefusal(s, id, input) != Done then (s, ConfirmRefusal(s, id, input))
    else (ConfirmWritten(s, id, input, now), Done)
  }

  // ---------- Manual decisions ----------

  predicate PointsAtConfirmed(s: State, p: nat) {
    && p < |s.policies|
    && s.policies[p].currentBatch.Some?
    && s.policies[p].currentBatch.value < |s.batches|
    && s.batches[s.policies[p].currentBatch.value].status.Confirmed?
    && s.policies[p].currentBatch.value in s.confirmations
  }

  function AdjustConclusion(s: State, p: nat, verdict: Verdict, reason: string, now: Instant): (State, Reply) {
    if p >= |s.policies| then (s, NotFound)
    else if Strip(reason) == "" then (s, ReasonRequired)
    else if !PointsAtConfirmed(s, p) then (s, NotConfirmed)
    else if verdict.RecommendApply? && CurrentPrimary(s.primaries, p).None? then (s, PrimaryRequired)
    else
      var d := Decision(p, s.policies[p].currentBatch.value, s.policies[p].conclusion, verdict, ManualOverride,
                        Some(Strip(reason)), now);
      (s.(decisions := s.decisions + [d], policies := s.policies[p := DecidedPolicy(s.policies[p], d)]), Done)
  }

  function SelectPrimary(s: State, p: nat, code: Code, reason: Option<string>, now: Instant): (State, Reply) {
    if p >= |s.policies| then (s, NotFound)
    else if !PointsAtConfirmed(s, p) then (s, NotConfirmed)
    else
      var id := s.policies[p].currentBatch.value;
      if !HasCode(s.confirmations[id].values.entities, code) then (s, PrimaryNotEligible)
      else if !ChangesPrimary(s, p, code) then (s, PrimaryUnchanged)
      else if CurrentPrimary(s.primaries, p).Some? && !Truthy(StripOptional(reason)) then (s, PrimaryReasonRequired)
      else if ProfileOf(s.batches[id].profiles, code).None? then (s, ProfileMissing)
      else
        var legalName := ProfileOf(s.batches[id].profiles, code).value.legalName;
        (s.(primaries := Appoint(s.primaries, Primary(p, id, code, legalName, StripOptional(reason), now, None), now)),
         Done)
  }

  // ---------- Runs ----------

  datatype Step =
    | AddPolicyStep
    | AddVersionStep(policy: nat)
    | EnqueueStep(versionId: nat, profiles: seq<Profile>, published: bool)
    | CancelStep(id: nat, cancelReason: Option<string>, now: Instant)
    | ClaimStep(now: Instant, locked: set<nat>)
    | ProcessStep(id: nat, token: nat, answer: Answer, now: Instant)
    | FailStep(id: nat, token: nat, now: Instant)
    | ConfirmStep(id: nat, input: ConfirmInput, now: Instant)
    | AdjustStep(policy: nat, verdict: Verdict, reason: string, now: Instant)
    | SelectStep(policy: nat, code: Code, selectReason: Option<string>, now: Instant)

  // Policies and their versions come from ingestion.
  function AddPolicy(s: State): (State, Reply) {
    (s.(policies := s.policies + [FreshPolicy]), Created(|s.policies|))
  }

  function AddVersion(s: State, p: nat): (State, Reply) {
    if p >= |s.policies| then (s, ForeignKeyViolation)
    else (s.(versions := s.versions + [p]), Created(|s.versions|))
  }

  function Do(s: State, step: Step): (State, Reply) {
    match step
    case AddPolicyStep => AddPolicy(s)
    case AddVersionStep(p) => AddVersion(s, p)
    case EnqueueStep(v, profiles, published) => Enqueue(s, v, profiles, published)
    case CancelStep(id, reason, now) => Cancel(s, id, reason, now)
    case ClaimStep(now, locked) => ClaimNext(s, now, locked)
    case ProcessStep(id, token, answer, now) => ProcessClaimed(s, id, token, answer, now)
    case FailStep(id, token, now) => FailClaimed(s, id, token, now)
    case ConfirmStep(id, input, now) => Confirm(s, id, input, now)
    case AdjustStep(p, verdict, reason, now) => AdjustConclusion(s, p, verdict, reason, now)
    case SelectStep(p, code, reason, now) => SelectPrimary(s, p, code, reason, now)
  }

  function Run(s: State, steps: seq<Step>): State
    decreases |steps|
  {
    if steps == [] then s else Run(Do(s, steps[0]).0, steps[1..])
  }
}
