/** The project ledger (backend/app/modules/projects/service.py): project rows, status history,
    creation audits and the notifications they raise. The table CHECKs and unique keys guard
    every write; conversion is split into its check and its insert. */
module ProjectLedger {
  import opened Wrappers
  import opened Text
  import opened Workflow
  import Events
  import Evaluations
  import Outbox
  import Sorting

  type Instant = int

  // The pre-image of creation_request_fingerprint; the hash is taken to be injective.
  datatype Fingerprint = Fingerprint(
    policyId: nat, name: string, deadlineOn: Option<Date>, liaison: nat, members: seq<nat>)

  function CreationFingerprint(
    policyId: nat, name: string, deadlineOn: Option<Date>, liaison: nat, members: seq<nat>): Fingerprint
  {
    Fingerprint(policyId, name, deadlineOn, liaison, Sorting.SortBy((m: nat) => m as int, members))
  }

  datatype Project = Project(
    policyId: nat,
    name: string,
    primaryId: nat,
    entityCode: Evaluations.Code,
    entityName: string,
    liaison: nat,
    members: seq<nat>,
    status: Status,
    deadlineOn: Option<Date>,
    values: Values,
    progressNote: Option<string>,
    idempotencyKey: string,
    fingerprint: Fingerprint,
    version: nat)

  datatype Action = Created | Transitioned | Corrected

  datatype Entry = Entry(
    action: Action,
    previous: Option<Status>,
    newStatus: Status,
    reason: Option<string>,
    relatedDate: Option<Date>,
    before: Option<Values>,
    after: Option<Values>,
    fromVersion: nat,
    toVersion: nat,
    occurredAt: Instant)

  datatype Audit =
    | ProjectCreatedAudit(project: nat)
    | PolicyConvertedAudit(policy: nat, project: nat)

  // histories[i] are the history rows of project i in id order; drafts are the conversions
  // that have passed their checks and not yet inserted.
  datatype State = State(
    projects: seq<Project>,
    histories: seq<seq<Entry>>,
    audits: multiset<Audit>,
    outbox: Outbox.State,
    drafts: map<nat, Project>)

  const Empty := State([], [], multiset{}, Outbox.Empty, map[])

  datatype User = User(id: nat, active: bool, owner: bool)

  datatype Reply =
    | Returned(project: nat)
    | Ready
    | NotFound
    | VersionConflict(currentVersion: nat)
    | WriteForbidden
    | TransitionInvalid
    | CorrectionInvalid
    | FieldValidationFailed
    | CheckViolation
    | PolicyNotConvertible
    | PrimaryEntityMissing
    | IdempotencyKeyReused
    | PolicyAlreadyConverted(existing: Option<nat>)
    | LiaisonRequired
    | UserInactive

  // ---------- CHECK constraints (projects/models.py) ----------

  predicate Checks(p: Project) {
    && (p.status in RESULT_STATUSES ==> p.values.resultOn.Some?)
    && (p.status in {Submitted, Succeeded, Rejected} ==> p.values.submittedOn.Some?)
    && (p.values.resultOn.Some? ==>
          p.values.submittedOn.Some? && p.values.resultOn.value >= p.values.submittedOn.value)
    && NonBlank(p.name)
    && (p.status.Terminated? ==> p.values.terminationNote.Some? && |p.values.terminationNote.value| > 0)
  }

  predicate NonBlank(name: string) {
    exists i :: 0 <= i < |name| && name[i] != ' '
  }

  // ---------- Permissions (projects/permissions.py) ----------

  predicate MayChangeStatus(actor: User, p: Project) {
    actor.active && (actor.owner || actor.id == p.liaison)
  }

  predicate MayCorrectEntity(actor: User) {
    actor.active && actor.owner
  }

  // ---------- Events (notifications/events.py) ----------

  function CreatedEvent(id: nat, p: Project): Events.Event {
    Events.Event(Events.ProjectCreated(id), p.name, Events.CreationSnapshot(p.entityName, p.deadlineOn))
  }

  function Clipped(note: Option<string>): Option<string> {
    if note.Some? && |note.value| > 500 then Some(note.value[..500]) else note
  }

  function FirstStatusEvent(id: nat, p: Project): Option<Events.Event> {
    match p.status
    case Submitted =>
      Some(Events.Event(Events.FirstSubmitted(id), p.name, Events.SubmissionSnapshot(p.values.submittedOn)))
    case Succeeded =>
      Some(Events.Event(Events.FirstSucceeded(id), p.name,
                        Events.SuccessSnapshot(p.values.resultOn, Clipped(p.values.resultNote))))
    case _ => None
  }

  function Notified(outbox: Outbox.State, event: Option<Events.Event>, now: Instant): Outbox.State {
    if event.Some? then Outbox.Enqueue(outbox, event.value, now).0 else outbox
  }

  // ---------- Status changes ----------

  // The place of the terminated entry that is newest by occurred_at and then by id.
  function LatestTermination(h: seq<Entry>): (r: Option<nat>)
    ensures r.Some? ==> r.value < |h| && h[r.value].newStatus.Terminated?
    ensures r.Some? ==> forall j | 0 <= j < |h| && h[j].newStatus.Terminated? ::
                          h[j].occurredAt < h[r.value].occurredAt
                          || (h[j].occurredAt == h[r.value].occurredAt && j <= r.value)
    ensures r.None? ==> forall j | 0 <= j < |h| :: !h[j].newStatus.Terminated?
  {
    if h == [] then None
    else
      var best := LatestTermination(h[..|h| - 1]);
      var e := h[|h| - 1];
      if e.newStatus.Terminated? && (best.None? || h[best.value].occurredAt <= e.occurredAt) then Some(|h| - 1)
      else best
  }

  function PreTermination(h: seq<Entry>): Option<Status> {
    if LatestTermination(h).None? then None else h[LatestTermination(h).value].previous
  }

  function MovedProject(p: Project, r: WorkflowResult): Project
    requires r.Moved?
  {
    p.(status := r.newStatus, values := Patched(p.values, r.values), version := p.version + 1)
  }

  function MoveEntry(p: Project, r: WorkflowResult, correction: bool, reason: Option<string>, now: Instant): Entry
    requires r.Moved?
  {
    var p' := MovedProject(p, r);
    Entry(if correction then Corrected else Transitioned, Some(p.status), p'.status, reason, r.relatedDate,
          Some(p.values), Some(p'.values), p.version, p'.version, now)
  }

  predicate Known(s: State, id: nat) {
    id < |s.projects| && id < |s.histories|
  }

  // _persist_status_change
  function Persist(s: State, id: nat, r: WorkflowResult, correction: bool, reason: Option<string>, now: Instant): (State, Reply)
    requires Known(s, id) && r.Moved?
  {
    var p' := MovedProject(s.projects[id], r);
    if !Checks(p') then (s, CheckViolation)
    else
      (s.(projects := s.projects[id := p'],
          histories := s.histories[id := s.histories[id] + [MoveEntry(s.projects[id], r, correction, reason, now)]],
          outbox := Notified(s.outbox, FirstStatusEvent(id, p'), now)),
       Returned(id))
  }

  function Transition(s: State, id: nat, actor: User, expectedVersion: nat, payload: Payload, today: Date, now: Instant): (State, Reply) {
    if !Known(s, id) then (s, NotFound)
    else
      var p := s.projects[id];
      if p.version != expectedVersion then (s, VersionConflict(p.version))
      else if !MayChangeStatus(actor, p) then (s, WriteForbidden)
      else
        var r := ApplyTransition(p.status, p.values, payload, today);
        if r.Invalid? then (s, TransitionInvalid) else Persist(s, id, r, false, None, now)
  }

  function CorrectStatus(
    s: State, id: nat, actor: User, expectedVersion: nat, payload: Payload, reason: Option<string>, today: Date, now: Instant)
    : (State, Reply)
  {
    if !Known(s, id) then (s, NotFound)
    else
      var p := s.projects[id];
      if p.version != expectedVersion then (s, VersionConflict(p.version))
      else if !MayChangeStatus(actor, p) then (s, WriteForbidden)
      else
        var r := ApplyCorrection(p.status, p.values, PreTermination(s.histories[id]), payload, today);
        if r.Invalid? then (s, CorrectionInvalid) else Persist(s, id, r, true, reason, now)
  }

  // ---------- Field updates ----------

  datatype Changes = Changes(
    name: Field<string>, deadlineOn: Field<Date>, progressNote: Field<string>, values: Patch)

  predicate MayUpdate(actor: User, p: Project, c: Changes) {
    actor.active && (actor.owner || (actor.id == p.liaison && c.name.Keep? && c.deadlineOn.Keep?))
  }

  // _validate_update
  predicate UpdateValid(p: Project, c: Changes, today: Date) {
    var submittedOn := c.values.submittedOn.Or(p.values.submittedOn);
    var resultOn := c.values.resultOn.Or(p.values.resultOn);
    && c.name != Set(None)
    && ((c.values.resultOn.Keep? && c.values.resultNote.Keep?) || p.status in RESULT_STATUSES)
    && (c.values.terminationNote.Keep? || p.status.Terminated?)
    && (p.status in {Submitted, Succeeded, Rejected} ==> submittedOn.Some?)
    && (submittedOn.Some? ==> submittedOn.value <= today)
    && (resultOn.Some? ==> submittedOn.Some? && submittedOn.value <= resultOn.value <= today)
    && (p.status in RESULT_STATUSES ==> resultOn.Some?)
    && (p.status.Terminated? ==> Truthy(c.values.terminationNote.Or(p.values.terminationNote)))
  }

  function UpdatedProject(p: Project, c: Changes): Project {
    p.(name := c.name.Or(Some(p.name)).GetOr(p.name),
       deadlineOn := c.deadlineOn.Or(p.deadlineOn),
       progressNote := c.progressNote.Or(p.progressNote),
       values := Patched(p.values, c.values),
       version := p.version + 1)
  }

  function Update(s: State, id: nat, actor: User, expectedVersion: nat, c: Changes, today: Date): (State, Reply) {
    if !Known(s, id) then (s, NotFound)
    else
      var p := s.projects[id];
      if p.version != expectedVersion then (s, VersionConflict(p.version))
      else if !MayUpdate(actor, p, c) then (s, WriteForbidden)
      else if !UpdateValid(p, c, today) then (s, FieldValidationFailed)
      else if !Checks(UpdatedProject(p, c)) then (s, CheckViolation)
      else (s.(projects := s.projects[id := UpdatedProject(p, c)]), Returned(id))
  }

  function CorrectPrimary(
    s: State, id: nat, actor: User, expectedVersion: nat, target: nat, primaries: seq<Evaluations.Primary>): (State, Reply)
  {
    if !Known(s, id) then (s, NotFound)
    else
      var p := s.projects[id];
      if p.version != expectedVersion then (s, VersionConflict(p.version))
      else if !MayCorrectEntity(actor) then (s, WriteForbidden)
      else
        var current := Evaluations.CurrentPrimary(primaries, p.policyId);
        if current != Some(target) then (s, PrimaryEntityMissing)
        else if p.primaryId == target then (s, Returned(id))
        else
          var q := primaries[target];
          (s.(projects := s.projects[id :=
                p.(primaryId := target, entityCode := q.code, entityName := q.legalName, version := p.version + 1)]),
           Returned(id))
  }

  // ---------- Conversion ----------

  function FindKey(ps: seq<Project>, key: string): (r: Option<nat>)
    ensures r.Some? ==> r.value < |ps| && ps[r.value].idempotencyKey == key
    ensures r.None? ==> forall i | 0 <= i < |ps| :: ps[i].idempotencyKey != key
  {
    if ps == [] then None
    else if ps[|ps| - 1].idempotencyKey == key then Some(|ps| - 1)
    else FindKey(ps[..|ps| - 1], key)
  }

  function FindPolicy(ps: seq<Project>, policyId: nat): (r: Option<nat>)
    ensures r.Some? ==> r.value < |ps| && ps[r.value].policyId == policyId
    ensures r.None? ==> forall i | 0 <= i < |ps| :: ps[i].policyId != policyId
  {
    if ps == [] then None
    else if ps[|ps| - 1].policyId == policyId then Some(|ps| - 1)
    else FindPolicy(ps[..|ps| - 1], policyId)
  }

  datatype Request = Request(
    policyId: nat,
    name: Option<string>,
    deadlineOn: Option<Date>,
    liaison: nat,
    members: seq<nat>,
    idempotencyKey: string,
    actor: User)

  // The title and deadline of the policy row that the call has locked.
  datatype PolicyFields = PolicyFields(title: string, deadlineOn: Option<Date>)

  function EffectiveName(r: Request, policy: PolicyFields): string {
    r.name.GetOr(policy.title)
  }

  function EffectiveDeadline(r: Request, policy: PolicyFields): Option<Date> {
    if r.deadlineOn.Some? then r.deadlineOn else policy.deadlineOn
  }

  function RequestFingerprint(r: Request, policy: PolicyFields): Fingerprint {
    CreationFingerprint(r.policyId, EffectiveName(r, policy), EffectiveDeadline(r, policy), r.liaison, r.members)
  }

  function Draft(r: Request, policy: PolicyFields, primaryId: nat, primary: Evaluations.Primary): Project {
    Project(r.policyId, EffectiveName(r, policy), primaryId, primary.code, primary.legalName, r.liaison, r.members,
            PendingApplication, EffectiveDeadline(r, policy), NoValues, None, r.idempotencyKey,
            RequestFingerprint(r, policy), 1)
  }

  // The answer when the idempotency key is taken by project i.
  function KeyTaken(s: State, i: nat, fingerprint: Fingerprint): Reply
    requires i < |s.projects|
  {
    if s.projects[i].fingerprint == fingerprint then Returned(i) else IdempotencyKeyReused
  }

  predicate Convertible(p: Evaluations.Policy) {
    p.confirmed && p.conclusion.RecommendApply?
  }

  // The checks of convert_policy, in their order. users maps ids to whether they are active.
  function CheckReply(s: State, e: Evaluations.State, r: Request, policy: PolicyFields, users: map<nat, bool>): Reply {
    if r.policyId >= |e.policies| then PolicyNotConvertible
    else if !r.actor.active || !r.actor.owner then WriteForbidden
    else if FindKey(s.projects, r.idempotencyKey).Some? then
      KeyTaken(s, FindKey(s.projects, r.idempotencyKey).value, RequestFingerprint(r, policy))
    else if !Convertible(e.policies[r.policyId]) then PolicyNotConvertible
    else if Evaluations.CurrentPrimary(e.primaries, r.policyId).None? then PrimaryEntityMissing
    else if FindPolicy(s.projects, r.policyId).Some? then PolicyAlreadyConverted(FindPolicy(s.projects, r.policyId))
    else if r.liaison !in users then LiaisonRequired
    else if !users[r.liaison] then UserInactive
    else if exists m | m in r.members :: m !in users || !users[m] then UserInactive
    else Ready
  }

  // The first half of call number call: everything before the insert.
  function CheckConversion(
    s: State, e: Evaluations.State, call: nat, r: Request, policy: PolicyFields, users: map<nat, bool>): (State, Reply)
  {
    var reply := CheckReply(s, e, r, policy, users);
    if reply != Ready then (s, reply)
    else
      var primaryId := Evaluations.CurrentPrimary(e.primaries, r.policyId).value;
      (s.(drafts := s.drafts[call := Draft(r, policy, primaryId, e.primaries[primaryId])]), Ready)
  }

  predicate UniqueKeysFree(s: State, draft: Project) {
    FindKey(s.projects, draft.idempotencyKey).None? && FindPolicy(s.projects, draft.policyId).None?
  }

  // _resolve_creation_race; an old read snapshot may hide the winner.
  function ResolveRace(s: State, draft: Project, visible: bool): Reply {
    var byKey := FindKey(s.projects, draft.idempotencyKey);
    var byPolicy := FindPolicy(s.projects, draft.policyId);
    if visible && byKey.Some? then KeyTaken(s, byKey.value, draft.fingerprint)
    else if visible && byPolicy.Some? then PolicyAlreadyConverted(byPolicy)
    else PolicyAlreadyConverted(None)
  }

  function CreatedEntry(now: Instant): Entry {
    Entry(Created, None, PendingApplication, None, None, None, None, 0, 1, now)
  }

  // The second half: the insert under the two unique keys.
  function InsertConversion(s: State, call: nat, visible: bool, now: Instant): (State, Reply) {
    if call !in s.drafts then (s, NotFound)
    else
      var draft := s.drafts[call];
      var t := s.(drafts := s.drafts - {call});
      if !UniqueKeysFree(s, draft) || !Checks(draft) then (t, ResolveRace(s, draft, visible))
      else
        var id := |s.projects|;
        (t.(projects := s.projects + [draft],
            histories := s.histories + [[CreatedEntry(now)]],
            audits := s.audits + multiset{ProjectCreatedAudit(id), PolicyConvertedAudit(draft.policyId, id)},
            outbox := Outbox.Enqueue(s.outbox, CreatedEvent(id, draft), now).0),
         Returned(id))
  }

  // ---------- Runs ----------

  datatype Step =
    | CheckStep(call: nat, evaluations: Evaluations.State, request: Request, policy: PolicyFields, users: map<nat, bool>)
    | InsertStep(call: nat, visible: bool, now: Instant)
    | TransitionStep(id: nat, actor: User, expectedVersion: nat, payload: Payload, today: Date, now: Instant)
    | CorrectStep(id: nat, actor: User, expectedVersion: nat, payload: Payload, reason: Option<string>, today: Date, now: Instant)
    | UpdateStep(id: nat, actor: User, expectedVersion: nat, changes: Changes, today: Date)
    | CorrectPrimaryStep(id: nat, actor: User, expectedVersion: nat, target: nat, primaries: seq<Evaluations.Primary>)
    | OutboxStep(outboxStep: Outbox.Step)

  function Do(s: State, step: Step): (State, Reply) {
    match step
    case CheckStep(call, e, r, policy, users) => CheckConversion(s, e, call, r, policy, users)
    case InsertStep(call, visible, now) => InsertConversion(s, call, visible, now)
    case TransitionStep(id, actor, v, payload, today, now) => Transition(s, id, actor, v, payload, today, now)
    case CorrectStep(id, actor, v, payload, reason, today, now) => CorrectStatus(s, id, actor, v, payload, reason, today, now)
    case UpdateStep(id, actor, v, c, today) => Update(s, id, actor, v, c, today)
    case CorrectPrimaryStep(id, actor, v, target, primaries) => CorrectPrimary(s, id, actor, v, target, primaries)
    case OutboxStep(o) => (s.(outbox := Outbox.Do(s.outbox, o).0), Ready)
  }

  function Run(s: State, steps: seq<Step>): State
    decreases |steps|
  {
    if steps == [] then s else Run(Do(s, steps[0]).0, steps[1..])
  }
}
