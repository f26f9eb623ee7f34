/** What each operation of the project ledger decides and writes, told from the request and the
    tables: what a conversion makes of its request, when a repeated request gets its project back,
    what an update, a correction and a move leave. */
module ProjectOutcomes {
  import opened Wrappers
  import opened Workflow
  import opened ProjectLedger
  import opened ProjectHistory
  import opened ProjectEvents
  import opened ProjectRuns
  import opened OutboxEvents
  import Evaluations
  import EvaluationPrimaries
  import EvaluationRuns
  import Events
  import Outbox
  import Sorting

  // ---------- Conversion ----------

  // The step works on the draft of this call.
  predicate TouchesCall(step: Step, call: nat) {
    (step.CheckStep? || step.InsertStep?) && step.call == call
  }

  lemma {:induction false} DraftWaits(s: State, steps: seq<Step>, call: nat)
    requires call in s.drafts && forall k | 0 <= k < |steps| :: !TouchesCall(steps[k], call)
    ensures call in Run(s, steps).drafts && Run(s, steps).drafts[call] == s.drafts[call]
    decreases |steps|
  {
    if steps != [] {
      StepKeepsDraft(s, steps[0], call);
      DraftWaits(Do(s, steps[0]).0, steps[1..], call);
    }
  }

  lemma StepKeepsDraft(s: State, step: Step, call: nat)
    requires call in s.drafts && !TouchesCall(step, call)
    ensures var s' := Do(s, step).0; call in s'.drafts && s'.drafts[call] == s.drafts[call]
  {
  }

  function AskedName(r: Request, policy: PolicyFields): string {
    if r.name.Some? then r.name.value else policy.title
  }

  function AskedDeadline(r: Request, policy: PolicyFields): Option<Date> {
    if r.deadlineOn.Some? then r.deadlineOn else policy.deadlineOn
  }

  // The project is what the request asked for: its own name and deadline, or else the policy's, and
  // the policy's current primary entity.
  ghost predicate AsAsked(p: Project, r: Request, policy: PolicyFields, e: Evaluations.State) {
    && p.policyId == r.policyId && p.idempotencyKey == r.idempotencyKey
    && p.name == AskedName(r, policy) && p.deadlineOn == AskedDeadline(r, policy)
    && p.liaison == r.liaison && p.members == r.members
    && p.primaryId < |e.primaries|
    && var row := e.primaries[p.primaryId];
    && row.policy == r.policyId && row.supersededAt.None? && p.entityCode == row.code && p.entityName == row.legalName
    && p.status.PendingApplication? && p.values == Values(None, None, None, None) && p.progressNote.None? && p.version == 1
  }

  predicate Named(name: string) {
    exists i :: 0 <= i < |name| && name[i] != ' '
  }

  predicate Used(ps: seq<Project>, policyId: nat, key: string) {
    exists p | p in ps :: p.policyId == policyId || p.idempotencyKey == key
  }

  // A request that passed its check and is then inserted adds a project exactly if its policy and its
  // key are still unused and its name is not blank, and that project is what it asked for.
  lemma ConvertedAsAsked(
    before: seq<Step>, check: Step, between: seq<Step>, visible: bool, now: Instant)
    requires check.CheckStep? && Do(Run(Empty, before), check).1 == Ready
    requires forall k | 0 <= k < |between| :: !TouchesCall(between[k], check.call)
    ensures var s := Run(Do(Run(Empty, before), check).0, between);
            var (s', reply) := Do(s, InsertStep(check.call, visible, now));
            var n := |s.projects|;
            && (reply == Returned(n) <==>
                  && !Used(s.projects, check.request.policyId, check.request.idempotencyKey)
                  && Named(AskedName(check.request, check.policy)))
            && (if reply == Returned(n) then
                  && |s'.projects| == n + 1 && s'.projects[..n] == s.projects
                  && AsAsked(s'.projects[n], check.request, check.policy, check.evaluations)
                else s'.projects == s.projects)
  {
    var s1 := Do(Run(Empty, before), check).0;
    DraftWaits(s1, between, check.call);
    CheckDrafts(Run(Empty, before), check);
    InsertsDraft(Run(s1, between), check, visible, now);
  }

  lemma CheckDrafts(s: State, check: Step)
    requires check.CheckStep? && Do(s, check).1 == Ready
    ensures var s' := Do(s, check).0;
            && check.call in s'.drafts && AsAsked(s'.drafts[check.call], check.request, check.policy, check.evaluations)
  {
  }

  lemma InsertsDraft(s: State, check: Step, visible: bool, now: Instant)
    requires check.CheckStep? && check.call in s.drafts
    requires AsAsked(s.drafts[check.call], check.request, check.policy, check.evaluations)
    ensures var (s', reply) := Do(s, InsertStep(check.call, visible, now));
            var n := |s.projects|;
            && (reply == Returned(n) <==>
                  && !Used(s.projects, check.request.policyId, check.request.idempotencyKey)
                  && Named(AskedName(check.request, check.policy)))
            && (if reply == Returned(n) then
                  && |s'.projects| == n + 1 && s'.projects[..n] == s.projects && s'.projects[n] == s.drafts[check.call]
                else s'.projects == s.projects)
  {
    var draft := s.drafts[check.call];
    UsedExactly(s.projects, draft);
  }

  lemma UsedExactly(ps: seq<Project>, draft: Project)
    ensures Used(ps, draft.policyId, draft.idempotencyKey)
            <==> FindKey(ps, draft.idempotencyKey).Some? || FindPolicy(ps, draft.policyId).Some?
  {
    var k, p := FindKey(ps, draft.idempotencyKey), FindPolicy(ps, draft.policyId);
    if k.Some? { assert ps[k.value] in ps; }
    if p.Some? { assert ps[p.value] in ps; }
  }

  // ---------- Repeated requests ----------

  // Two requests ask for the same, each beside the policy as it was locked.
  predicate AsksSame(r: Request, policy: PolicyFields, r2: Request, policy2: PolicyFields) {
    && r2.policyId == r.policyId && r2.liaison == r.liaison && multiset(r2.members) == multiset(r.members)
    && AskedName(r2, policy2) == AskedName(r, policy) && AskedDeadline(r2, policy2) == AskedDeadline(r, policy)
  }

  // A draft's fingerprint is that of what it asks for.
  ghost predicate Printed(s: State) {
    forall call | call in s.drafts ::
      var d := s.drafts[call];
      d.fingerprint == CreationFingerprint(d.policyId, d.name, d.deadlineOn, d.liaison, d.members)
  }

  lemma StepKeepsPrinted(s: State, step: Step)
    requires Printed(s)
    ensures Printed(Do(s, step).0)
  {
  }

  lemma StepKeepsAll(s: State, step: Step)
    requires ConversionOk(s) && LedgerOk(s) && Printed(s)
    ensures ConversionOk(Do(s, step).0) && LedgerOk(Do(s, step).0) && Printed(Do(s, step).0)
  {
    StepKeepsConversion(s, step);
    StepKeepsLedger(s, step);
    StepKeepsPrinted(s, step);
  }

  lemma {:induction false} RunKeepsConversion(s: State, steps: seq<Step>)
    requires ConversionOk(s) && LedgerOk(s) && Printed(s)
    ensures ConversionOk(Run(s, steps)) && LedgerOk(Run(s, steps)) && Printed(Run(s, steps))
    decreases |steps|
  {
    if steps != [] {
      StepKeepsAll(s, steps[0]);
      RunKeepsConversion(Do(s, steps[0]).0, steps[1..]);
    }
  }

  lemma SameFingerprint(r: Request, policy: PolicyFields, r2: Request, policy2: PolicyFields)
    ensures RequestFingerprint(r2, policy2) == RequestFingerprint(r, policy) <==> AsksSame(r, policy, r2, policy2)
  {
    Sorting.SortForgetsOrder((m: nat) => m as int, r2.members, r.members);
  }

  lemma CheckPrints(s: State, check: Step)
    requires check.CheckStep? && Do(s, check).1 == Ready
    ensures check.call in Do(s, check).0.drafts
    ensures Do(s, check).0.drafts[check.call].fingerprint == RequestFingerprint(check.request, check.policy)
    ensures Do(s, check).0.drafts[check.call].idempotencyKey == check.request.idempotencyKey
  {
  }

  // The answer to a request whose key made project i.
  function ExpectedRepeat(e: Evaluations.State, r: Request, same: bool, i: nat): Reply {
    if r.policyId >= |e.policies| then PolicyNotConvertible
    else if !(r.actor.active && r.actor.owner) then WriteForbidden
    else if same then Returned(i) else IdempotencyKeyReused
  }

  // Once a request has made a project, a request under its key gets that project back exactly if it
  // asks for the same, whatever became of the project since; otherwise it is refused.
  lemma RepeatExact(
    before: seq<Step>, check: Step, between: seq<Step>, visible: bool, now: Instant, after: seq<Step>, again: Step)
    requires check.CheckStep? && Do(Run(Empty, before), check).1 == Ready
    requires forall k | 0 <= k < |between| :: !TouchesCall(between[k], check.call)
    requires var s := Run(Do(Run(Empty, before), check).0, between);
             Do(s, InsertStep(check.call, visible, now)).1 == Returned(|s.projects|)
    requires again.CheckStep? && again.request.idempotencyKey == check.request.idempotencyKey
    ensures var s := Run(Do(Run(Empty, before), check).0, between);
            var t := Run(Do(s, InsertStep(check.call, visible, now)).0, after);
            var same := AsksSame(check.request, check.policy, again.request, again.policy);
            Do(t, again) == (t, ExpectedRepeat(again.evaluations, again.request, same, |s.projects|))
  {
    var s := Run(Do(Run(Empty, before), check).0, between);
    CreatedStays(before, check, between, visible, now, after);
    SameFingerprint(check.request, check.policy, again.request, again.policy);
    KeyFinds(Run(Do(s, InsertStep(check.call, visible, now)).0, after), again, |s.projects|);
  }

  // Project i is the one that this request made: no other has its key or its policy.
  ghost predicate MadeBy(t: State, i: nat, r: Request, policy: PolicyFields) {
    && UniqueProjects(t.projects) && i < |t.projects|
    && t.projects[i].policyId == r.policyId && t.projects[i].idempotencyKey == r.idempotencyKey
    && t.projects[i].fingerprint == RequestFingerprint(r, policy)
  }

  lemma CreatedStays(before: seq<Step>, check: Step, between: seq<Step>, visible: bool, now: Instant, after: seq<Step>)
    requires check.CheckStep? && Do(Run(Empty, before), check).1 == Ready
    requires forall k | 0 <= k < |between| :: !TouchesCall(between[k], check.call)
    requires var s := Run(Do(Run(Empty, before), check).0, between);
             Do(s, InsertStep(check.call, visible, now)).1 == Returned(|s.projects|)
    ensures var s := Run(Do(Run(Empty, before), check).0, between);
            var t := Run(Do(s, InsertStep(check.call, visible, now)).0, after);
            MadeBy(t, |s.projects|, check.request, check.policy) && Printed(t)
  {
    var s0 := Run(Empty, before);
    var s1 := Do(s0, check).0;
    var s := Run(s1, between);
    var insert := InsertStep(check.call, visible, now);
    CheckPrints(s0, check);
    DraftWaits(s1, between, check.call);
    InsertedIs(s, check.call, visible, now);
    EmptyIsGood();
    RunKeepsConversion(Empty, before);
    StepKeepsAll(s0, check);
    RunKeepsConversion(s1, between);
    StepKeepsAll(s, insert);
    RunKeepsConversion(Do(s, insert).0, after);
    VersionsGrow(Do(s, insert).0, after, |s.projects|);
  }

  lemma InsertedIs(s: State, call: nat, visible: bool, now: Instant)
    requires call in s.drafts && Do(s, InsertStep(call, visible, now)).1 == Returned(|s.projects|)
    ensures Do(s, InsertStep(call, visible, now)).0.projects == s.projects + [s.drafts[call]]
  {
  }

  lemma KeyFinds(t: State, again: Step, i: nat)
    requires UniqueProjects(t.projects) && i < |t.projects| && again.CheckStep?
    requires t.projects[i].idempotencyKey == again.request.idempotencyKey
    ensures var same := t.projects[i].fingerprint == RequestFingerprint(again.request, again.policy);
            Do(t, again) == (t, ExpectedRepeat(again.evaluations, again.request, same, i))
  {
    KeyIsUnique(t.projects, i, again.request.idempotencyKey);
  }

  // ---------- Lost races ----------

  // The draft asks for what the request asked for.
  predicate DraftsSame(d: Project, r: Request, policy: PolicyFields) {
    && d.policyId == r.policyId && d.liaison == r.liaison && multiset(d.members) == multiset(r.members)
    && d.name == AskedName(r, policy) && d.deadlineOn == AskedDeadline(r, policy)
  }

  // A draft that comes after a project of its key or its policy adds nothing. A call that sees that
  // project gets it back if it asked for the same under its key, and else is told of the key or of
  // the project; a call that does not see it is told that the policy was converted.
  lemma RaceExact(
    before: seq<Step>, check: Step, between: seq<Step>, visible: bool, now: Instant, after: seq<Step>, late: Step)
    requires check.CheckStep? && Do(Run(Empty, before), check).1 == Ready
    requires forall k | 0 <= k < |between| :: !TouchesCall(between[k], check.call)
    requires var s := Run(Do(Run(Empty, before), check).0, between);
             Do(s, InsertStep(check.call, visible, now)).1 == Returned(|s.projects|)
    ensures var s := Run(Do(Run(Empty, before), check).0, between);
            var i := |s.projects|;
            var t := Run(Do(s, InsertStep(check.call, visible, now)).0, after);
            late.InsertStep? && late.call in t.drafts ==>
              var d := t.drafts[late.call];
              var gone := t.(drafts := t.drafts - {late.call});
              && (d.idempotencyKey == check.request.idempotencyKey ==>
                    Do(t, late) == (gone, if !late.visible then PolicyAlreadyConverted(None)
                                          else if DraftsSame(d, check.request, check.policy) then Returned(i)
                                          else IdempotencyKeyReused))
              && (d.policyId == check.request.policyId && (forall p | p in t.projects :: p.idempotencyKey != d.idempotencyKey) ==>
                    Do(t, late) == (gone, PolicyAlreadyConverted(if late.visible then Some(i) else None)))
  {
    var s := Run(Do(Run(Empty, before), check).0, between);
    CreatedStays(before, check, between, visible, now, after);
    var t := Run(Do(s, InsertStep(check.call, visible, now)).0, after);
    if late.InsertStep? && late.call in t.drafts {
      LateIs(t, late, |s.projects|, check.request, check.policy);
    }
  }

  lemma LateIs(t: State, late: Step, i: nat, r: Request, policy: PolicyFields)
    requires late.InsertStep? && late.call in t.drafts && Printed(t)
    requires MadeBy(t, i, r, policy)
    ensures var d := t.drafts[late.call];
            var gone := t.(drafts := t.drafts - {late.call});
            && (d.idempotencyKey == r.idempotencyKey ==>
                  Do(t, late) == (gone, if !late.visible then PolicyAlreadyConverted(None)
                                        else if DraftsSame(d, r, policy) then Returned(i) else IdempotencyKeyReused))
            && (d.policyId == r.policyId && (forall p | p in t.projects :: p.idempotencyKey != d.idempotencyKey) ==>
                  Do(t, late) == (gone, PolicyAlreadyConverted(if late.visible then Some(i) else None)))
  {
    var d := t.drafts[late.call];
    Sorting.SortForgetsOrder((m: nat) => m as int, d.members, r.members);
    if d.idempotencyKey == r.idempotencyKey { assert FindKey(t.projects, d.idempotencyKey) == Some(i); }
    if d.policyId == r.policyId { assert FindPolicy(t.projects, d.policyId) == Some(i); }
  }

  // ---------- The checks of a conversion ----------

  ghost predicate HasCurrent(ps: seq<Evaluations.Primary>, p: nat) {
    exists i: nat :: i < |ps| && ps[i].policy == p && ps[i].supersededAt.None?
  }

  lemma HasCurrentExact(ps: seq<Evaluations.Primary>, p: nat)
    ensures HasCurrent(ps, p) <==> Evaluations.CurrentPrimary(ps, p).Some?
  {
  }

  predicate ActiveUser(users: map<nat, bool>, id: nat) {
    id in users && users[id]
  }

  // The answer to a request under a new key, by the checks in their order.
  ghost predicate ExpectedCheck(reply: Reply, ps: seq<Project>, e: Evaluations.State, r: Request, users: map<nat, bool>) {
    if r.policyId >= |e.policies| then reply == PolicyNotConvertible
    else if !(r.actor.active && r.actor.owner) then reply == WriteForbidden
    else if !(e.policies[r.policyId].confirmed && e.policies[r.policyId].conclusion.RecommendApply?) then
      reply == PolicyNotConvertible
    else if !HasCurrent(e.primaries, r.policyId) then reply == PrimaryEntityMissing
    else if exists p | p in ps :: p.policyId == r.policyId then
      && reply.PolicyAlreadyConverted? && reply.existing.Some? && reply.existing.value < |ps|
      && ps[reply.existing.value].policyId == r.policyId
    else if r.liaison !in users then reply == LiaisonRequired
    else if !users[r.liaison] || exists m | m in r.members :: !ActiveUser(users, m) then reply == UserInactive
    else reply == Ready
  }

  lemma CheckExact(s: State, check: Step)
    requires check.CheckStep? && forall p | p in s.projects :: p.idempotencyKey != check.request.idempotencyKey
    ensures ExpectedCheck(Do(s, check).1, s.projects, check.evaluations, check.request, check.users)
    ensures Do(s, check).1 != Ready ==> Do(s, check).0 == s
    ensures Do(s, check).1 == Ready ==>
              var s' := Do(s, check).0;
              s' == s.(drafts := s'.drafts) && s'.drafts.Keys == s.drafts.Keys + {check.call}
  {
    var r := check.request;
    HasCurrentExact(check.evaluations.primaries, r.policyId);
    assert FindKey(s.projects, r.idempotencyKey).None?;
    var p := FindPolicy(s.projects, r.policyId);
    if p.Some? { assert s.projects[p.value] in s.projects; }
  }

  // ---------- Updates ----------

  // A field of the row after an update: the new value if one was sent, else the old one.
  predicate TakesField<T(==)>(f: Field<T>, before: Option<T>, after: Option<T>) {
    if f.Set? then after == f.value else after == before
  }

  predicate Takes(p: Project, c: Changes, p': Project) {
    && TakesField(c.name, Some(p.name), Some(p'.name))
    && TakesField(c.deadlineOn, p.deadlineOn, p'.deadlineOn) && TakesField(c.progressNote, p.progressNote, p'.progressNote)
    && TakesField(c.values.submittedOn, p.values.submittedOn, p'.values.submittedOn)
    && TakesField(c.values.resultOn, p.values.resultOn, p'.values.resultOn)
    && TakesField(c.values.resultNote, p.values.resultNote, p'.values.resultNote)
    && TakesField(c.values.terminationNote, p.values.terminationNote, p'.values.terminationNote)
    && p' == p.(name := p'.name, deadlineOn := p'.deadlineOn, progressNote := p'.progressNote, values := p'.values,
                version := p.version + 1)
  }

  // An active owner may update; the active liaison may, except name and deadline.
  predicate Permitted(actor: User, p: Project, c: Changes) {
    actor.active && (actor.owner || (actor.id == p.liaison && !c.name.Set? && !c.deadlineOn.Set?))
  }

  lemma UpdateExact(s: State, step: Step)
    requires step.UpdateStep? && Known(s, step.id)
    ensures var (s', reply) := Do(s, step);
            var p := s.projects[step.id];
            && (reply.VersionConflict? <==> p.version != step.expectedVersion)
            && (reply.VersionConflict? ==> reply.currentVersion == p.version)
            && (reply.WriteForbidden? <==> p.version == step.expectedVersion && !Permitted(step.actor, p, step.changes))
            && (reply == Returned(step.id) ==>
                  && s' == s.(projects := s'.projects) && |s'.projects| == |s.projects|
                  && Takes(p, step.changes, s'.projects[step.id])
                  && forall j: nat | j < |s.projects| && j != step.id :: s'.projects[j] == s.projects[j])
            && (reply != Returned(step.id) ==> s' == s)
  {
  }

  // An update is accepted exactly if it comes at the current version from a user who may, touches
  // result and termination columns only in the statuses that own them, and leaves a named row whose
  // status owns its columns, with no date after today.
  lemma UpdateAccepted(steps: seq<Step>, step: Step)
    requires step.UpdateStep? && step.id < |Run(Empty, steps).projects|
    ensures var s := Run(Empty, steps);
            && Known(s, step.id)
            && var p, c := s.projects[step.id], step.changes;
            Do(s, step).1 == Returned(step.id) <==>
              && p.version == step.expectedVersion && Permitted(step.actor, p, c)
              && (c.values.resultOn.Set? || c.values.resultNote.Set? ==> p.status in {Succeeded, Rejected})
              && (c.values.terminationNote.Set? ==> p.status.Terminated?)
              && exists p' :: Takes(p, c, p') && Named(p'.name) && Owned(p'.status, p'.values, step.today)
  {
    var s := Run(Empty, steps);
    RunKeepsLedger(Empty, steps);
    FieldsAreOwned(steps, step.id, LastDay(steps));
    UpdateIn(s, step, LastDay(steps));
  }

  lemma TakesOne(p: Project, c: Changes, p': Project)
    ensures Takes(p, c, p') <==> c.name != Set(None) && p' == UpdatedProject(p, c)
  {
  }

  lemma UpdateIn(s: State, step: Step, day: Date)
    requires step.UpdateStep? && Known(s, step.id) && FieldsOk(s.projects[step.id], day)
    ensures var p, c := s.projects[step.id], step.changes;
            Do(s, step).1 == Returned(step.id) <==>
              && p.version == step.expectedVersion && Permitted(step.actor, p, c)
              && (c.values.resultOn.Set? || c.values.resultNote.Set? ==> p.status in {Succeeded, Rejected})
              && (c.values.terminationNote.Set? ==> p.status.Terminated?)
              && exists p' :: Takes(p, c, p') && Named(p'.name) && Owned(p'.status, p'.values, step.today)
  {
    var p, c := s.projects[step.id], step.changes;
    UpdateAcceptsExactly(p, c, day, step.today);
    TakesOne(p, c, UpdatedProject(p, c));
    forall p' | Takes(p, c, p') ensures p' == UpdatedProject(p, c) && c.name != Set(None) { TakesOne(p, c, p'); }
  }

  // ---------- Correcting the primary entity ----------

  // The answer to a correction towards row target.
  predicate ExpectedCorrection(
    reply: Reply, p: Project, id: nat, actor: User, version: nat, target: nat, ps: seq<Evaluations.Primary>)
  {
    if p.version != version then reply == VersionConflict(p.version)
    else if !(actor.active && actor.owner) then reply == WriteForbidden
    else if !(target < |ps| && ps[target].policy == p.policyId && ps[target].supersededAt.None?) then reply == PrimaryEntityMissing
    else reply == Returned(id)
  }

  // A project takes over code and legal name of its policy's current row, if that is another one.
  lemma CorrectPrimaryExact(s: State, step: Step, evaluationSteps: seq<Evaluations.Step>)
    requires step.CorrectPrimaryStep? && Known(s, step.id)
    requires step.primaries == Evaluations.Run(Evaluations.Empty, evaluationSteps).primaries
    ensures var (s', reply) := Do(s, step);
            var p := s.projects[step.id];
            && ExpectedCorrection(reply, p, step.id, step.actor, step.expectedVersion, step.target, step.primaries)
            && (if reply == Returned(step.id) && p.primaryId != step.target then
                  s' == s.(projects := s.projects[
                             step.id := p.(primaryId := step.target, entityCode := step.primaries[step.target].code,
                                           entityName := step.primaries[step.target].legalName, version := p.version + 1)])
                else s' == s)
  {
    var ps, policy := step.primaries, s.projects[step.id].policyId;
    EvaluationRuns.EmptyIsOk();
    EvaluationPrimaries.RunKeepsPrimaries(Evaluations.Empty, evaluationSteps);
    var current := Evaluations.CurrentPrimary(ps, policy);
    if step.target < |ps| && ps[step.target].policy == policy && ps[step.target].supersededAt.None? {
      EvaluationPrimaries.OneCurrentRow(ps, policy, step.target, current.value);
    }
  }

  // ---------- Moves ----------

  // Who may move a project: an active owner or its active liaison.
  predicate Mover(actor: User, p: Project) {
    actor.active && (actor.owner || actor.id == p.liaison)
  }

  // What a move leaves besides the columns that the rules own: the row's version, and an entry that
  // shows both sides of the move.
  ghost predicate MoveStored(
    s: State, s': State, id: nat, action: Action, reason: Option<string>, relatedDate: Option<Date>, now: Instant)
  {
    && Known(s, id) && |s'.projects| == |s.projects| && |s'.histories| == |s.histories|
    && var p, p' := s.projects[id], s'.projects[id];
    && p' == p.(status := p'.status, values := p'.values, version := p.version + 1)
    && s'.histories[id]
       == s.histories[id] + [Entry(action, Some(p.status), p'.status, reason, relatedDate, Some(p.values), Some(p'.values),
                                   p.version, p.version + 1, now)]
    && (forall j: nat | j < |s.projects| && j != id :: s'.projects[j] == s.projects[j])
    && (forall j: nat | j < |s.histories| && j != id :: s'.histories[j] == s.histories[j])
    && s'.audits == s.audits && s'.drafts == s.drafts
  }

  // The date that a move is about: the day of submission, or of the result.
  function DateOfMove(payload: Payload, correction: bool): Option<Date> {
    match payload.target
    case Submitted => if correction then None else payload.submittedOn
    case Succeeded => payload.resultOn
    case Rejected => payload.resultOn
    case _ => None
  }

  lemma TransitionExact(s: State, step: Step)
    requires step.TransitionStep? && Known(s, step.id)
    ensures var (s', reply) := Do(s, step);
            var p := s.projects[step.id];
            && (reply.VersionConflict? <==> p.version != step.expectedVersion)
            && (reply.WriteForbidden? <==> p.version == step.expectedVersion && !Mover(step.actor, p))
            && (reply == Returned(step.id) ==>
                  MoveStored(s, s', step.id, Transitioned, None, DateOfMove(step.payload, false), step.now)
                  && s'.projects[step.id].status == step.payload.target)
            && (reply != Returned(step.id) ==> s' == s)
  {
  }

  lemma CorrectionExact(steps: seq<Step>, step: Step)
    requires step.CorrectStep? && step.id < |Run(Empty, steps).projects|
    ensures var s := Run(Empty, steps);
            var (s', reply) := Do(s, step);
            && Known(s, step.id)
            && var p := s.projects[step.id];
            && (reply.VersionConflict? <==> p.version != step.expectedVersion)
            && (reply.WriteForbidden? <==> p.version == step.expectedVersion && !Mover(step.actor, p))
            && (reply == Returned(step.id) ==>
                  MoveStored(s, s', step.id, Corrected, step.reason, DateOfMove(step.payload, true), step.now)
                  && s'.projects[step.id].status == step.payload.target)
            && (reply != Returned(step.id) ==> s' == s)
  {
    var s := Run(Empty, steps);
    RunKeepsLedger(Empty, steps);
    assert HistoryOk(s.projects[step.id], s.histories[step.id]);
    SearchFindsOpenStatus(s.histories[step.id]);
    CorrectionIn(s, step);
  }

  lemma CorrectionIn(s: State, step: Step)
    requires step.CorrectStep? && Known(s, step.id)
    requires PreTermination(s.histories[step.id]) in {None, Some(PendingApplication), Some(Submitted)}
    ensures var (s', reply) := Do(s, step);
            var p := s.projects[step.id];
            && (reply.VersionConflict? <==> p.version != step.expectedVersion)
            && (reply.WriteForbidden? <==> p.version == step.expectedVersion && !Mover(step.actor, p))
            && (reply == Returned(step.id) ==>
                  MoveStored(s, s', step.id, Corrected, step.reason, DateOfMove(step.payload, true), step.now)
                  && s'.projects[step.id].status == step.payload.target)
            && (reply != Returned(step.id) ==> s' == s)
  {
  }

  // ---------- What a move announces ----------

  function Shortened(note: Option<string>): Option<string> {
    if note.Some? then Some(if |note.value| <= 500 then note.value else note.value[..500]) else None
  }

  // The event under this key after a move: the first one stays; else the move may raise it.
  ghost predicate Announces(
    o: Outbox.State, o': Outbox.State, key: Events.EventKey, raised: bool, name: string, shown: Events.Snapshot)
  {
    EventOf(o', key) == if EventOf(o, key).Some? then EventOf(o, key)
                        else if raised then Some(Events.Event(key, name, shown)) else None
  }

  // A move announces the first submission with its day, and the first success with its day and the
  // first 500 characters of its note; nothing else.
  lemma MoveAnnounced(s: State, step: Step)
    requires (step.TransitionStep? || step.CorrectStep?) && Known(s, step.id) && Do(s, step).1 == Returned(step.id)
    ensures var s' := Do(s, step).0;
            && |s'.projects| == |s.projects|
            && var p' := s'.projects[step.id];
            && Announces(s.outbox, s'.outbox, Events.FirstSubmitted(step.id), p'.status.Submitted?, p'.name,
                         Events.SubmissionSnapshot(p'.values.submittedOn))
            && Announces(s.outbox, s'.outbox, Events.FirstSucceeded(step.id), p'.status.Succeeded?, p'.name,
                         Events.SuccessSnapshot(p'.values.resultOn, Shortened(p'.values.resultNote)))
            && forall key | key !in {Events.FirstSubmitted(step.id), Events.FirstSucceeded(step.id)} ::
                 EventOf(s'.outbox, key) == EventOf(s.outbox, key)
  {
    var s' := Do(s, step).0;
    var event := FirstStatusEvent(step.id, s'.projects[step.id]);
    if event.Some? {
      forall key ensures EventOf(s'.outbox, key)
                         == if key == event.value.key && EventOf(s.outbox, key).None? then event else EventOf(s.outbox, key)
      {
        EnqueueEvent(s.outbox, event.value, step.now, key);
      }
    }
  }
}
