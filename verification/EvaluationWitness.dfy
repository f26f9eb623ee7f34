/** A run of the evaluation loop in which a confirmation moves the current-batch pointer back. */
module EvaluationWitness {
  import opened Wrappers
  import opened Evaluations

  const PROFILES := [Profile(Beijing, "Beijing"), Profile(Suzhou, "Suzhou"), Profile(Shenzhen, "Shenzhen")]

  function Recommended(): ValidValues {
    SampleIsValid();
    assert Valid(Values(RecommendApply, "", [], SAMPLE_ENTITIES));
    Values(RecommendApply, "", [], SAMPLE_ENTITIES)
  }

  function Input(): ConfirmInput {
    ConfirmInput(Recommended(), None, Some(Beijing))
  }

  function Answer(id: nat): Step {
    ProcessStep(id, id, Produced(Recommended()), 0)
  }

  // Two batches of one version are finished, and the younger one is confirmed first.
  function Prelude(): seq<Step> {
    [AddPolicyStep, AddVersionStep(0)]
    + ([EnqueueStep(0, PROFILES, true), EnqueueStep(0, PROFILES, true)]
       + ([ClaimStep(0, {}), ClaimStep(0, {})] + ([Answer(0), Answer(1)] + [ConfirmStep(1, Input(), 0)])))
  }

  function Waiting(): Batch {
    Batch(0, PROFILES, Pending, None, None, None, None, None, false, None)
  }

  function Leased(token: nat): Batch {
    Waiting().(status := Running, startedAt := Some(0), claimToken := Some(token))
  }

  function Answered(token: nat): Batch {
    CompletedBatch(Leased(token), Recommended(), 0)
  }

  function Queued(): State {
    Empty.(policies := [FreshPolicy], versions := [0], batches := [Waiting(), Waiting()])
  }

  function Claimed(): State {
    Queued().(batches := [Leased(0), Leased(1)], nextToken := 2)
  }

  function Finished(): State {
    Claimed().(
      batches := [Answered(0), Answered(1)],
      rows := AddRows(AddRows(map[], 0, SAMPLE_ENTITIES), 1, SAMPLE_ENTITIES),
      policies := [Policy(Some(1), RecommendApply, false, SystemSuggestion, None)])
  }

  lemma RunTwo(s: State, a: Step, b: Step, rest: seq<Step>)
    ensures Run(s, [a, b] + rest) == Run(Do(Do(s, a).0, b).0, rest)
  {
    assert ([a, b] + rest)[1..] == [b] + rest && ([b] + rest)[1..] == rest;
  }

  lemma RunOne(s: State, a: Step)
    ensures Run(s, [a]) == Do(s, a).0
  {
  }

  lemma Queues()
    ensures Do(Do(Do(Do(Empty, AddPolicyStep).0, AddVersionStep(0)).0, EnqueueStep(0, PROFILES, true)).0,
               EnqueueStep(0, PROFILES, true)).0 == Queued()
  {
    assert seq(|PROFILES|, i requires 0 <= i < |PROFILES| => PROFILES[i].code) == ENTITY_ORDER;
    var s := Do(Do(Empty, AddPolicyStep).0, AddVersionStep(0)).0;
    assert s == Empty.(policies := [FreshPolicy], versions := [0]);
    assert Do(s, EnqueueStep(0, PROFILES, true)).0 == s.(batches := [Waiting()]);
  }

  lemma Claims()
    ensures Do(Do(Queued(), ClaimStep(0, {})).0, ClaimStep(0, {})).0 == Claimed()
  {
    var s := Do(Queued(), ClaimStep(0, {})).0;
    assert s == Queued().(batches := [Leased(0), Waiting()], nextToken := 1);
  }

  lemma {:induction false} RowsOfBatch(rows: map<RowKey, EntityResult>, id: nat, es: seq<EntityResult>)
    ensures forall k | k in AddRows(rows, id, es) :: k in rows || k.batch == id
  {
    if es != [] { RowsOfBatch(rows, id, es[..|es| - 1]); }
  }

  lemma Processes()
    ensures Do(Do(Claimed(), Answer(0)).0,
               Answer(1)).0 == Finished()
  {
    var rows := AddRows(map[], 0, SAMPLE_ENTITIES);
    var s := Do(Claimed(), Answer(0)).0;
    assert s == Claimed().(batches := [Answered(0), Leased(1)], rows := rows,
                           policies := [Policy(Some(0), RecommendApply, false, SystemSuggestion, None)]);
    RowsOfBatch(map[], 0, SAMPLE_ENTITIES);
    assert RowsFree(s, 1);
  }

  function Chosen(): Primary {
    Primary(0, 1, Beijing, "Beijing", None, 0, None)
  }

  lemma Accepted(s: State, id: nat)
    requires id < 2 && s.versions == [0] && |s.policies| == 1 && |s.batches| == 2
    requires s.batches[id] == Answered(id)
    requires s.primaries == [] || s.primaries == [Chosen()]
    ensures KnownBatch(s, id) && ConfirmRefusal(s, id, Input()) == Done
    ensures ProfileOf(PROFILES, Beijing) == Some(Profile(Beijing, "Beijing"))
  {
    assert PROFILES[0].code == Beijing;
    assert HasCode(Recommended().entities, Beijing) by { assert SAMPLE_ENTITIES[0] in SAMPLE_ENTITIES; }
    if s.primaries == [Chosen()] { assert CurrentPrimary(s.primaries, 0) == Some(0); }
  }

  lemma YoungerConfirmed()
    ensures var s := Do(Finished(), ConfirmStep(1, Input(), 0)).0;
            && s.policies == [Policy(Some(1), RecommendApply, true, EvaluationConfirmation, Some(0))]
            && s.primaries == [Chosen()] && s.versions == [0] && |s.batches| == 2 && s.batches[0] == Answered(0)
            && 0 !in s.confirmations
  {
    Accepted(Finished(), 1);
    assert CurrentPrimary([], 0) == None;
  }

  lemma PreludeEnds()
    ensures Run(Empty, Prelude()) == Do(Finished(), ConfirmStep(1, Input(), 0)).0
  {
    var queueing := [EnqueueStep(0, PROFILES, true), EnqueueStep(0, PROFILES, true)];
    var claiming := [ClaimStep(0, {}), ClaimStep(0, {})];
    var last := [ConfirmStep(1, Input(), 0)];
    var processing := [Answer(0), Answer(1)];
    Queues();
    Claims();
    Processes();
    RunTwo(Empty, AddPolicyStep, AddVersionStep(0), queueing + (claiming + (processing + last)));
    RunTwo(Do(Do(Empty, AddPolicyStep).0, AddVersionStep(0)).0, queueing[0], queueing[1], claiming + (processing + last));
    RunTwo(Queued(), claiming[0], claiming[1], processing + last);
    RunTwo(Claimed(), Answer(0), Answer(1), last);
    RunOne(Finished(), last[0]);
  }

  lemma OlderConfirmed(s: State)
    requires s.versions == [0] && |s.policies| == 1 && |s.batches| == 2 && s.batches[0] == Answered(0)
    requires s.primaries == [Chosen()] && 0 !in s.confirmations
    ensures var (s', reply) := Do(s, ConfirmStep(0, Input(), 0));
            reply == Done && |s'.policies| == 1 && s'.policies[0].currentBatch == Some(0)
  {
    Accepted(s, 0);
  }

  // The younger batch is confirmed and pointed at; confirming the older one moves the pointer back.
  lemma PointerGoesBack()
    ensures var s := Run(Empty, Prelude());
            var (s', reply) := Do(s, ConfirmStep(0, Input(), 0));
            && s.policies == [Policy(Some(1), RecommendApply, true, EvaluationConfirmation, Some(0))]
            && reply == Done && |s'.policies| == 1 && s'.policies[0].currentBatch == Some(0)
  {
    PreludeEnds();
    YoungerConfirmed();
    OlderConfirmed(Run(Empty, Prelude()));
  }
}
