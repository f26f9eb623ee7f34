/** Primary entity decisions: per policy an unbroken chain with exactly its last entry current,
    and a current entry wherever a recommendation is confirmed. */
module EvaluationPrimaries {
  import opened Wrappers
  import opened Text
  import opened Evaluations

  // The decisions about p, oldest first.
  function Of(ps: seq<Primary>, p: nat): seq<Primary> {
    if ps == [] then []
    else Of(ps[..|ps| - 1], p) + if ps[|ps| - 1].policy == p then [ps[|ps| - 1]] else []
  }

  predicate Chain(chain: seq<Primary>) {
    && (forall i | 0 <= i < |chain| :: chain[i].supersededAt.None? <==> i == |chain| - 1)
    && (forall i | 0 < i < |chain| :: chain[i].code != chain[i - 1].code && Stated(chain[i].reason))
  }

  ghost predicate Backed(s: State, p: nat)
    requires p < |s.policies|
  {
    s.policies[p].confirmed && s.policies[p].conclusion.RecommendApply? ==> CurrentPrimary(s.primaries, p).Some?
  }

  ghost predicate PrimariesOk(s: State) {
    && (forall p: nat :: Chain(Of(s.primaries, p)))
    && (forall p: nat | p < |s.policies| :: Backed(s, p))
  }

  // ---------- The table operations on one chain ----------

  lemma OfAppended(ps: seq<Primary>, q: Primary, p: nat)
    ensures Of(ps + [q], p) == Of(ps, p) + if q.policy == p then [q] else []
  {
    assert (ps + [q])[..|ps|] == ps;
  }

  // The current row is the last of its chain.
  lemma {:induction false} CurrentIsLast(ps: seq<Primary>, p: nat)
    requires Chain(Of(ps, p))
    ensures CurrentPrimary(ps, p).Some? <==> Of(ps, p) != []
    ensures Of(ps, p) != [] ==> ps[CurrentPrimary(ps, p).value] == Of(ps, p)[|Of(ps, p)| - 1]
  {
    if ps != [] {
      var m := |ps| - 1;
      if ps[m].policy == p {
        assert Of(ps, p)[|Of(ps, p)| - 1] == ps[m];
      } else {
        assert Of(ps, p) == Of(ps[..m], p);
        CurrentIsLast(ps[..m], p);
      }
    }
  }

  // The place of row i in the chain of its policy.
  lemma {:induction false} PlaceInChain(ps: seq<Primary>, p: nat, i: nat)
    requires i < |ps| && ps[i].policy == p
    ensures |Of(ps[..i], p)| < |Of(ps, p)| && Of(ps, p)[|Of(ps[..i], p)|] == ps[i]
  {
    var m := |ps| - 1;
    if i < m {
      assert ps[..m][..i] == ps[..i];
      PlaceInChain(ps[..m], p, i);
    }
  }

  // A policy has at most one current row.
  lemma OneCurrentRow(ps: seq<Primary>, p: nat, i: nat, j: nat)
    requires Chain(Of(ps, p)) && i < |ps| && j < |ps|
    requires ps[i].policy == p && ps[i].supersededAt.None? && ps[j].policy == p && ps[j].supersededAt.None?
    ensures i == j
  {
    PlaceInChain(ps, p, i);
    PlaceInChain(ps, p, j);
    if i < j { assert ps[..j][..i] == ps[..i]; PlaceInChain(ps[..j], p, i); }
    if j < i { assert ps[..i][..j] == ps[..j]; PlaceInChain(ps[..i], p, j); }
  }

  function EndLast(chain: seq<Primary>, now: Instant): seq<Primary> {
    if chain == [] then chain
    else chain[|chain| - 1 := chain[|chain| - 1].(supersededAt := Some(now))]
  }

  // Superseding the current row of p ends the last link of p's chain and no other chain.
  lemma {:induction false} SupersedeEnds(ps: seq<Primary>, p: nat, now: Instant)
    requires Chain(Of(ps, p))
    ensures Of(Superseded(ps, p, now), p) == EndLast(Of(ps, p), now)
  {
    CurrentIsLast(ps, p);
    if ps != [] && CurrentPrimary(ps, p).Some? {
      var m := |ps| - 1;
      var ended := Superseded(ps, p, now);
      if ps[m].policy == p {
        assert Of(ps, p)[|Of(ps, p)| - 1] == ps[m];
        assert ended[..m] == ps[..m];
      } else {
        assert Of(ps, p) == Of(ps[..m], p);
        SupersedeEnds(ps[..m], p, now);
        assert ended[..m] == Superseded(ps[..m], p, now);
      }
    }
  }

  lemma {:induction false} EditKeepsOthers(ps: seq<Primary>, i: nat, new': Primary, q: nat)
    requires i < |ps| && new'.policy == ps[i].policy != q
    ensures Of(ps[i := new'], q) == Of(ps, q)
  {
    var m := |ps| - 1;
    if i < m {
      assert ps[i := new'][..m] == ps[..m][i := new'];
      EditKeepsOthers(ps[..m], i, new', q);
    } else {
      assert ps[i := new'][..m] == ps[..m];
    }
  }

  predicate MayAppoint(ps: seq<Primary>, new': Primary) {
    && new'.supersededAt.None?
    && (CurrentPrimary(ps, new'.policy).Some? ==>
          ps[CurrentPrimary(ps, new'.policy).value].code != new'.code && Stated(new'.reason))
  }

  // An appointment ends the last link of its own chain, adds one, and leaves the other chains.
  lemma AppointExtends(ps: seq<Primary>, new': Primary, now: Instant, p: nat)
    requires Chain(Of(ps, new'.policy))
    ensures Of(Appoint(ps, new', now), p)
            == if p == new'.policy then EndLast(Of(ps, p), now) + [new'] else Of(ps, p)
  {
    var ended := Superseded(ps, new'.policy, now);
    OfAppended(ended, new', p);
    if p == new'.policy {
      SupersedeEnds(ps, p, now);
    } else {
      var current := CurrentPrimary(ps, new'.policy);
      if current.Some? { EditKeepsOthers(ps, current.value, ended[current.value], p); }
    }
  }

  lemma AppointKeepsChain(ps: seq<Primary>, new': Primary, now: Instant, p: nat)
    requires Chain(Of(ps, p)) && Chain(Of(ps, new'.policy)) && MayAppoint(ps, new')
    ensures Chain(Of(Appoint(ps, new', now), p))
  {
    AppointExtends(ps, new', now, p);
    CurrentIsLast(ps, new'.policy);
    ExtendedChain(Of(ps, new'.policy), new', now);
  }

  lemma AppointKeepsCurrent(ps: seq<Primary>, new': Primary, now: Instant, p: nat)
    requires Chain(Of(ps, p)) && Chain(Of(ps, new'.policy)) && MayAppoint(ps, new')
    ensures CurrentPrimary(ps, p).Some? || p == new'.policy ==> CurrentPrimary(Appoint(ps, new', now), p).Some?
  {
    AppointKeepsChain(ps, new', now, p);
    AppointExtends(ps, new', now, p);
    CurrentIsLast(ps, p);
    CurrentIsLast(Appoint(ps, new', now), p);
  }

  lemma ExtendedChain(chain: seq<Primary>, new': Primary, now: Instant)
    requires Chain(chain) && new'.supersededAt.None?
    requires chain != [] ==> chain[|chain| - 1].code != new'.code && Stated(new'.reason)
    ensures Chain(EndLast(chain, now) + [new'])
  {
  }

  // ---------- Steps ----------

  // What a step does to the primary table.
  ghost predicate Appoints(ps: seq<Primary>, ps': seq<Primary>) {
    ps' == ps || exists new': Primary, now :: MayAppoint(ps, new') && ps' == Appoint(ps, new', now)
  }

  lemma AppointsKeepsChains(ps: seq<Primary>, ps': seq<Primary>, p: nat)
    requires (forall q: nat :: Chain(Of(ps, q))) && Appoints(ps, ps')
    ensures Chain(Of(ps', p))
    ensures CurrentPrimary(ps, p).Some? ==> CurrentPrimary(ps', p).Some?
  {
    if ps' != ps {
      var new': Primary, now :| MayAppoint(ps, new') && ps' == Appoint(ps, new', now);
      assert Chain(Of(ps, new'.policy)) && Chain(Of(ps, p));
      AppointKeepsChain(ps, new', now, p);
      AppointKeepsCurrent(ps, new', now, p);
    }
  }

  // A policy becomes a confirmed recommendation only with a current primary entity.
  ghost predicate BacksUp(s: State, s': State) {
    && |s.policies| <= |s'.policies|
    && (forall p: nat | |s.policies| <= p < |s'.policies| :: s'.policies[p] == FreshPolicy)
    && (forall p: nat | p < |s.policies| ::
          || !s'.policies[p].confirmed
          || !s'.policies[p].conclusion.RecommendApply?
          || (s.policies[p].confirmed && s.policies[p].conclusion.RecommendApply?)
          || CurrentPrimary(s'.primaries, p).Some?)
  }

  function ConfirmedPrimary(s: State, id: nat, input: ConfirmInput, now: Instant): Primary
    requires KnownBatch(s, id) && input.primary.Some? && Eligible(s.batches[id], input)
  {
    Primary(PolicyOf(s, id), id, input.primary.value,
            ProfileOf(s.batches[id].profiles, input.primary.value).value.legalName,
            StripOptional(input.changeReason), now, None)
  }

  lemma ConfirmAppoints(s: State, id: nat, input: ConfirmInput, now: Instant)
    ensures Appoints(s.primaries, Confirm(s, id, input, now).0.primaries)
    ensures Confirm(s, id, input, now).1 == Done && input.values.conclusion.RecommendApply? ==>
              && KnownBatch(s, id) && Eligible(s.batches[id], input)
              && var new' := ConfirmedPrimary(s, id, input, now);
              var ps' := Confirm(s, id, input, now).0.primaries;
              if ChangesPrimary(s, new'.policy, new'.code) then MayAppoint(s.primaries, new') && ps' == Appoint(s.primaries, new', now)
              else ps' == s.primaries && CurrentPrimary(s.primaries, new'.policy).Some?
  {
    var (s', reply) := Confirm(s, id, input, now);
    StrippedIsStated(input.changeReason);
    if reply == Done && input.values.conclusion.RecommendApply? {
      var new' := ConfirmedPrimary(s, id, input, now);
      if ChangesPrimary(s, new'.policy, new'.code) {
        assert MayAppoint(s.primaries, new') && s'.primaries == Appoint(s.primaries, new', now);
      }
    }
  }

  lemma SelectAppoints(s: State, p: nat, code: Code, reason: Option<string>, now: Instant)
    ensures Appoints(s.primaries, SelectPrimary(s, p, code, reason, now).0.primaries)
  {
    StrippedIsStated(reason);
  }

  lemma ConfirmBacksUp(s: State, id: nat, input: ConfirmInput, now: Instant)
    requires forall p: nat :: Chain(Of(s.primaries, p))
    ensures BacksUp(s, Confirm(s, id, input, now).0)
  {
    ConfirmAppoints(s, id, input, now);
    var (s', reply) := Confirm(s, id, input, now);
    if reply == Done && input.values.conclusion.RecommendApply? {
      var new' := ConfirmedPrimary(s, id, input, now);
      if ChangesPrimary(s, new'.policy, new'.code) {
        assert Chain(Of(s.primaries, new'.policy));
        AppointKeepsCurrent(s.primaries, new', now, new'.policy);
      }
    }
  }

  lemma OtherStepsBackUp(s: State, step: Step)
    requires !step.ConfirmStep?
    requires forall p: nat | CurrentPrimary(s.primaries, p).Some? :: CurrentPrimary(Do(s, step).0.primaries, p).Some?
    ensures BacksUp(s, Do(s, step).0)
  {
  }

  lemma StepAppoints(s: State, step: Step)
    ensures Appoints(s.primaries, Do(s, step).0.primaries)
  {
    if step.ConfirmStep? {
      ConfirmAppoints(s, step.id, step.input, step.now);
    } else if step.SelectStep? {
      SelectAppoints(s, step.policy, step.code, step.selectReason, step.now);
    }
  }

  lemma StepKeepsPrimaries(s: State, step: Step)
    requires PrimariesOk(s)
    ensures PrimariesOk(Do(s, step).0)
  {
    var ps' := Do(s, step).0.primaries;
    StepAppoints(s, step);
    forall p: nat | CurrentPrimary(s.primaries, p).Some? ensures CurrentPrimary(ps', p).Some? {
      AppointsKeepsChains(s.primaries, ps', p);
    }
    if step.ConfirmStep? {
      ConfirmBacksUp(s, step.id, step.input, step.now);
    } else {
      OtherStepsBackUp(s, step);
    }
    KeepsPrimaries(s, Do(s, step).0);
  }

  lemma KeepsPrimaries(s: State, s': State)
    requires PrimariesOk(s) && Appoints(s.primaries, s'.primaries) && BacksUp(s, s')
    ensures PrimariesOk(s')
  {
    forall p: nat ensures Chain(Of(s'.primaries, p)) {
      AppointsKeepsChains(s.primaries, s'.primaries, p);
    }
    forall p: nat | p < |s'.policies| ensures Backed(s', p) {
      AppointsKeepsChains(s.primaries, s'.primaries, p);
      if p < |s.policies| { assert Backed(s, p); }
    }
  }

  lemma {:induction false} RunKeepsPrimaries(s: State, steps: seq<Step>)
    requires PrimariesOk(s)
    ensures PrimariesOk(Run(s, steps))
    decreases |steps|
  {
    if steps != [] {
      StepKeepsPrimaries(s, steps[0]);
      RunKeepsPrimaries(Do(s, steps[0]).0, steps[1..]);
    }
  }
}
