/** The pure status rules of backend/app/modules/projects/workflow.py. */
module Workflow {
  import opened Wrappers
  import opened Text

  type Date = int

  datatype Status = PendingApplication | Submitted | Succeeded | Rejected | Terminated

  function NormalTransitions(current: Status): set<Status> {
    match current
    case PendingApplication => {Submitted, Terminated}
    case Submitted => {Succeeded, Rejected, Terminated}
    case Succeeded => {}
    case Rejected => {}
    case Terminated => {}
  }

  const RESULT_STATUSES: set<Status> := {Succeeded, Rejected}

  // The columns that the workflow owns.
  datatype Values = Values(
    submittedOn: Option<Date>, resultOn: Option<Date>, resultNote: Option<string>, terminationNote: Option<string>)

  const NoValues := Values(None, None, None, None)

  // A key of a change dictionary: absent, or present with a value.
  datatype Field<+T> = Keep | Set(value: Option<T>) {
    function Or(current: Option<T>): Option<T> {
      if Keep? then current else value
    }
  }

  datatype Patch = Patch(
    submittedOn: Field<Date>, resultOn: Field<Date>, resultNote: Field<string>, terminationNote: Field<string>)

  function Patched(v: Values, p: Patch): Values {
    Values(p.submittedOn.Or(v.submittedOn), p.resultOn.Or(v.resultOn),
           p.resultNote.Or(v.resultNote), p.terminationNote.Or(v.terminationNote))
  }

  datatype Payload = Payload(
    target: Status, submittedOn: Option<Date>, resultOn: Option<Date>,
    resultNote: Option<string>, terminationNote: Option<string>)

  datatype WorkflowResult =
    | Moved(newStatus: Status, values: Patch, relatedDate: Option<Date>)
    | Invalid

  predicate SubmissionDated(submittedOn: Option<Date>, today: Date) {
    submittedOn.Some? && submittedOn.value <= today
  }

  predicate ResultDated(resultOn: Option<Date>, submittedOn: Option<Date>, today: Date) {
    submittedOn.Some? && resultOn.Some? && submittedOn.value <= resultOn.value <= today
  }

  const Cleared := Patch(Keep, Set(None), Set(None), Set(None))

  function ResultPatch(payload: Payload): Patch {
    Patch(Keep, Set(payload.resultOn), Set(payload.resultNote), Set(None))
  }

  function ApplyTransition(current: Status, values: Values, payload: Payload, today: Date): WorkflowResult {
    if payload.target !in NormalTransitions(current) then Invalid
    else if payload.target.Submitted? then
      if SubmissionDated(payload.submittedOn, today)
      then Moved(Submitted, Cleared.(submittedOn := Set(payload.submittedOn)), payload.submittedOn)
      else Invalid
    else if payload.target in RESULT_STATUSES then
      if ResultDated(payload.resultOn, values.submittedOn, today)
      then Moved(payload.target, ResultPatch(payload), payload.resultOn)
      else Invalid
    else if !Truthy(payload.terminationNote) then Invalid
    else Moved(Terminated, Cleared.(terminationNote := Set(payload.terminationNote)), None)
  }

  function ApplyCorrection(
    current: Status, values: Values, preTermination: Option<Status>, payload: Payload, today: Date): WorkflowResult
  {
    if current.Terminated? then
      if preTermination != Some(payload.target) then Invalid
      else Moved(payload.target, Cleared, None)
    else if current !in RESULT_STATUSES then Invalid
    else if payload.target.Submitted? then Moved(Submitted, Cleared, None)
    else if payload.target !in RESULT_STATUSES || payload.target == current then Invalid
    else if ResultDated(payload.resultOn, values.submittedOn, today)
    then Moved(payload.target, ResultPatch(payload), payload.resultOn)
    else Invalid
  }

  // ---------- Field ownership ----------

  // Which columns each status owns, and their order, with no date after `day`.
  predicate Owned(status: Status, v: Values, day: Date) {
    && (v.resultOn.Some? <==> status in {Succeeded, Rejected})
    && (v.resultNote.Some? ==> status in {Succeeded, Rejected})
    && (v.terminationNote.Some? <==> status.Terminated?)
    && (status.Terminated? ==> Truthy(v.terminationNote))
    && (status in {Submitted, Succeeded, Rejected} ==> v.submittedOn.Some?)
    && (v.submittedOn.Some? ==> v.submittedOn.value <= day)
    && (v.resultOn.Some? ==> v.submittedOn.Some? && v.submittedOn.value <= v.resultOn.value <= day)
  }

  function Later(a: Date, b: Date): Date {
    if a <= b then b else a
  }

  lemma TransitionKeepsOwnership(current: Status, v: Values, payload: Payload, day: Date, today: Date)
    requires Owned(current, v, day)
    ensures var r := ApplyTransition(current, v, payload, today);
            r.Moved? ==> Owned(r.newStatus, Patched(v, r.values), Later(day, today))
  {
  }

  // A correction keeps ownership unless it brings back a submission whose date was cleared
  // while the project was terminated.
  lemma CorrectionOwnershipExact(
    current: Status, v: Values, pre: Option<Status>, payload: Payload, day: Date, today: Date)
    requires Owned(current, v, day)
    requires pre in {None, Some(PendingApplication), Some(Submitted)}
    ensures var r := ApplyCorrection(current, v, pre, payload, today);
            r.Moved? ==>
              (Owned(r.newStatus, Patched(v, r.values), Later(day, today))
               <==> !(current.Terminated? && payload.target.Submitted? && v.submittedOn.None?))
  {
  }

  // Exactly the moves that the rules offer.
  predicate LegalMove(previous: Status, next: Status, correction: bool) {
    if correction then
      || (previous.Terminated? && next in {PendingApplication, Submitted})
      || (previous in {Succeeded, Rejected} && next in {Submitted, Succeeded, Rejected} && next != previous)
    else
      || (previous.PendingApplication? && next in {Submitted, Terminated})
      || (previous.Submitted? && next in {Succeeded, Rejected, Terminated})
  }

  // A move is legal exactly when some payload makes the rules take it on a well-formed project.
  lemma TransitionsAreLegal(previous: Status, v: Values, next: Status, day: Date)
    requires Owned(previous, v, day)
    ensures LegalMove(previous, next, false) <==>
              exists payload: Payload :: payload.target == next && ApplyTransition(previous, v, payload, day).Moved?
  {
    if LegalMove(previous, next, false) {
      var payload := Payload(next, Some(day), Some(day), None, Some("closed"));
      assert ApplyTransition(previous, v, payload, day).Moved?;
    }
  }

  lemma CorrectionsAreLegal(previous: Status, v: Values, next: Status, day: Date)
    requires Owned(previous, v, day)
    ensures LegalMove(previous, next, true) <==>
              exists payload: Payload, pre: Option<Status> ::
                && payload.target == next && pre in {None, Some(PendingApplication), Some(Submitted)}
                && ApplyCorrection(previous, v, pre, payload, day).Moved?
  {
    if LegalMove(previous, next, true) {
      var payload := Payload(next, Some(day), Some(day), None, None);
      var pre: Option<Status> := if previous.Terminated? then Some(next) else None;
      assert ApplyCorrection(previous, v, pre, payload, day).Moved?;
    }
  }

  // The columns that a move asks for: those of the target status as the payload gives them, the
  // others cleared, and the submission date kept unless the move is the submission itself.
  function Asked(v: Values, payload: Payload, correction: bool): Values {
    var result := payload.target in {Succeeded, Rejected};
    Values(if payload.target.Submitted? && !correction then payload.submittedOn else v.submittedOn,
           if result then payload.resultOn else None,
           if result then payload.resultNote else None,
           if payload.target.Terminated? then payload.terminationNote else None)
  }

  // A transition is accepted exactly when it is legal and leaves a well-formed row, and it leaves
  // exactly the row that was asked for, dated by its own event.
  lemma TransitionAcceptsExactly(current: Status, v: Values, payload: Payload, day: Date, today: Date)
    requires Owned(current, v, day) && day <= today
    ensures var r := ApplyTransition(current, v, payload, today);
            var after := Asked(v, payload, false);
            && (r.Moved? <==> LegalMove(current, payload.target, false) && Owned(payload.target, after, today))
            && (r.Moved? ==>
                  && r.newStatus == payload.target && Patched(v, r.values) == after
                  && r.relatedDate == if payload.target.Submitted? then after.submittedOn else after.resultOn)
  {
  }

  // So is a correction, except that a restoration is checked against the history only.
  lemma CorrectionAcceptsExactly(
    current: Status, v: Values, pre: Option<Status>, payload: Payload, day: Date, today: Date)
    requires Owned(current, v, day) && day <= today
    requires pre in {None, Some(PendingApplication), Some(Submitted)}
    ensures var r := ApplyCorrection(current, v, pre, payload, today);
            var after := Asked(v, payload, true);
            && (r.Moved? <==>
                  && LegalMove(current, payload.target, true)
                  && if current.Terminated? then pre == Some(payload.target) else Owned(payload.target, after, today))
            && (r.Moved? ==>
                  r.newStatus == payload.target && Patched(v, r.values) == after && r.relatedDate == after.resultOn)
  {
  }
}
