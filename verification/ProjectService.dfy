/** ProjectService as it runs: project rows, history and audits written step by step, and events
    handed to the notification service. Each method is proved to be its transaction in
    ProjectLedger; a refused or aborted call changes nothing. */
module ProjectService {
  import opened Wrappers
  import opened Workflow
  import opened ProjectLedger
  import Evaluations
  import OutboxService
  import opened Text

  class Service {
    var projects: seq<Project>
    var histories: seq<seq<Entry>>
    var audits: multiset<Audit>
    var drafts: map<nat, Project>
    const notifications: OutboxService.NotificationService

    ghost function Tables(): State
      reads this, notifications
    {
      State(projects, histories, audits, notifications.Tables(), drafts)
    }

    constructor (notifications: OutboxService.NotificationService)
      ensures this.notifications == notifications
      ensures Tables() == Empty.(outbox := notifications.Tables())
    {
      projects, histories, audits, drafts := [], [], multiset{}, map[];
      this.notifications := notifications;
    }

    method PersistStatusChange(
      id: nat, result: WorkflowResult, correction: bool, reason: Option<string>, now: Instant) returns (reply: Reply)
      requires id < |projects| && id < |histories| && result.Moved?
      modifies this, notifications
      ensures (Tables(), reply) == Persist(old(Tables()), id, result, correction, reason, now)
    {
      var project := projects[id];
      var oldStatus, oldVersion, before := project.status, project.version, project.values;
      project := project.(status := result.newStatus);
      project := project.(values := Patched(project.values, result.values));
      project := project.(version := project.version + 1);
      if !Checks(project) {
        return CheckViolation;
      }
      projects := projects[id := project];
      var entry := Entry(if correction then Corrected else Transitioned, Some(oldStatus), project.status, reason,
                         result.relatedDate, Some(before), Some(project.values), oldVersion, project.version, now);
      histories := histories[id := histories[id] + [entry]];
      var event := FirstStatusEvent(id, project);
      if event.Some? {
        var _ := notifications.EnqueueEvent(event.value, now);
      }
      return Returned(id);
    }

    method TransitionProject(id: nat, actor: User, expectedVersion: nat, payload: Payload, today: Date, now: Instant)
      returns (reply: Reply)
      modifies this, notifications
      ensures (Tables(), reply) == Transition(old(Tables()), id, actor, expectedVersion, payload, today, now)
    {
      if id >= |projects| || id >= |histories| {
        return NotFound;
      }
      var project := projects[id];
      if project.version != expectedVersion {
        return VersionConflict(project.version);
      }
      if !MayChangeStatus(actor, project) {
        return WriteForbidden;
      }
      var result := ApplyTransition(project.status, project.values, payload, today);
      if result.Invalid? {
        return TransitionInvalid;
      }
      reply := PersistStatusChange(id, result, false, None, now);
    }

    method CorrectProject(
      id: nat, actor: User, expectedVersion: nat, payload: Payload, reason: Option<string>, today: Date, now: Instant)
      returns (reply: Reply)
      modifies this, notifications
      ensures (Tables(), reply) == CorrectStatus(old(Tables()), id, actor, expectedVersion, payload, reason, today, now)
    {
      if id >= |projects| || id >= |histories| {
        return NotFound;
      }
      var project := projects[id];
      if project.version != expectedVersion {
        return VersionConflict(project.version);
      }
      if !MayChangeStatus(actor, project) {
        return WriteForbidden;
      }
      var left := PreTermination(histories[id]);
      var result := ApplyCorrection(project.status, project.values, left, payload, today);
      if result.Invalid? {
        return CorrectionInvalid;
      }
      reply := PersistStatusChange(id, result, true, reason, now);
    }

    // _validate_update
    method ValidateUpdate(project: Project, changes: Changes, today: Date) returns (valid: bool)
      ensures valid == UpdateValid(project, changes, today)
    {
      if changes.name == Set(None) {
        return false;
      }
      var touchesResult := changes.values.resultOn.Set? || changes.values.resultNote.Set?;
      if touchesResult && project.status !in RESULT_STATUSES {
        return false;
      }
      if changes.values.terminationNote.Set? && !project.status.Terminated? {
        return false;
      }
      var submittedOn := changes.values.submittedOn.Or(project.values.submittedOn);
      var resultOn := changes.values.resultOn.Or(project.values.resultOn);
      if project.status in {Submitted, Succeeded, Rejected} && submittedOn.None? {
        return false;
      }
      if submittedOn.Some? && submittedOn.value > today {
        return false;
      }
      if resultOn.Some? {
        if resultOn.value > today || submittedOn.None? || resultOn.value < submittedOn.value {
          return false;
        }
      }
      if project.status in RESULT_STATUSES && resultOn.None? {
        return false;
      }
      if project.status.Terminated? && !Truthy(changes.values.terminationNote.Or(project.values.terminationNote)) {
        return false;
      }
      return true;
    }

    method UpdateProject(id: nat, actor: User, expectedVersion: nat, changes: Changes, today: Date) returns (reply: Reply)
      modifies this
      ensures (Tables(), reply) == Update(old(Tables()), id, actor, expectedVersion, changes, today)
    {
      if id >= |projects| || id >= |histories| {
        return NotFound;
      }
      var project := projects[id];
      if project.version != expectedVersion {
        return VersionConflict(project.version);
      }
      if !MayUpdate(actor, project, changes) {
        return WriteForbidden;
      }
      var valid := ValidateUpdate(project, changes, today);
      if !valid {
        return FieldValidationFailed;
      }
      if changes.name.Set? && changes.name.value.Some? {
        project := project.(name := changes.name.value.value);
      }
      project := project.(deadlineOn := changes.deadlineOn.Or(project.deadlineOn));
      project := project.(progressNote := changes.progressNote.Or(project.progressNote));
      project := project.(values := Patched(project.values, changes.values));
      project := project.(version := project.version + 1);
      if !Checks(project) {
        return CheckViolation;
      }
      projects := projects[id := project];
      return Returned(id);
    }

    method CorrectPrimaryEntity(
      id: nat, actor: User, expectedVersion: nat, target: nat, primaries: seq<Evaluations.Primary>) returns (reply: Reply)
      modifies this
      ensures (Tables(), reply) == CorrectPrimary(old(Tables()), id, actor, expectedVersion, target, primaries)
    {
      if id >= |projects| || id >= |histories| {
        return NotFound;
      }
      var project := projects[id];
      if project.version != expectedVersion {
        return VersionConflict(project.version);
      }
      if !MayCorrectEntity(actor) {
        return WriteForbidden;
      }
      var current := Evaluations.CurrentPrimary(primaries, project.policyId);
      if current.None? || current.value != target {
        return PrimaryEntityMissing;
      }
      if project.primaryId == target {
        return Returned(id);
      }
      project := project.(primaryId := target);
      project := project.(entityCode := primaries[target].code);
      project := project.(entityName := primaries[target].legalName);
      project := project.(version := project.version + 1);
      projects := projects[id := project];
      return Returned(id);
    }

    // convert_policy up to the insert.
    method CheckConvert(
      evaluations: Evaluations.State, call: nat, request: Request, policy: PolicyFields, users: map<nat, bool>)
      returns (reply: Reply)
      modifies this
      ensures (Tables(), reply) == CheckConversion(old(Tables()), evaluations, call, request, policy, users)
    {
      if request.policyId >= |evaluations.policies| {
        return PolicyNotConvertible;
      }
      if !request.actor.active || !request.actor.owner {
        return WriteForbidden;
      }
      var fingerprint := RequestFingerprint(request, policy);
      var existingKey := FindKey(projects, request.idempotencyKey);
      if existingKey.Some? {
        if projects[existingKey.value].fingerprint == fingerprint {
          return Returned(existingKey.value);
        }
        return IdempotencyKeyReused;
      }
      var row := evaluations.policies[request.policyId];
      if !row.confirmed || !row.conclusion.RecommendApply? {
        return PolicyNotConvertible;
      }
      var primary := Evaluations.CurrentPrimary(evaluations.primaries, request.policyId);
      if primary.None? {
        return PrimaryEntityMissing;
      }
      var existingProject := FindPolicy(projects, request.policyId);
      if existingProject.Some? {
        return PolicyAlreadyConverted(existingProject);
      }
      if request.liaison !in users {
        return LiaisonRequired;
      }
      if !users[request.liaison] {
        return UserInactive;
      }
      if exists m | m in request.members :: m !in users || !users[m] {
        return UserInactive;
      }
      drafts := drafts[call := Draft(request, policy, primary.value, evaluations.primaries[primary.value])];
      return Ready;
    }

    // The insert of convert_policy and the race it may lose.
    method InsertConvert(call: nat, visible: bool, now: Instant) returns (reply: Reply)
      modifies this, notifications
      ensures (Tables(), reply) == InsertConversion(old(Tables()), call, visible, now)
    {
      if call !in drafts {
        return NotFound;
      }
      var project := drafts[call];
      drafts := drafts - {call};
      var existingKey := FindKey(projects, project.idempotencyKey);
      var existingProject := FindPolicy(projects, project.policyId);
      if existingKey.Some? || existingProject.Some? || !Checks(project) {
        if visible && existingKey.Some? {
          if projects[existingKey.value].fingerprint == project.fingerprint {
            return Returned(existingKey.value);
          }
          return IdempotencyKeyReused;
        }
        if visible && existingProject.Some? {
          return PolicyAlreadyConverted(existingProject);
        }
        return PolicyAlreadyConverted(None);
      }
      var id := |projects|;
      projects := projects + [project];
      histories := histories + [[CreatedEntry(now)]];
      audits := audits + multiset{ProjectCreatedAudit(id)};
      audits := audits + multiset{PolicyConvertedAudit(project.policyId, id)};
      assert audits == old(audits) + multiset{ProjectCreatedAudit(id), PolicyConvertedAudit(project.policyId, id)};
      var _ := notifications.EnqueueEvent(CreatedEvent(id, project), now);
      return Returned(id);
    }
  }
}
