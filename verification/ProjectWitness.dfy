/** Two runs of the project ledger that go wrong: a restoration that the table refuses, and a clock
    that runs backwards. */
module ProjectWitness {
  import opened Wrappers
  import opened Workflow
  import opened ProjectLedger
  import opened ProjectHistory
  import Evaluations
  import EvaluationWitness

  const OWNER := User(0, true, true)
  const REQUEST := Request(0, Some("P"), None, 0, [], "key", OWNER)
  const POLICY := PolicyFields("P", None)

  function Approved(): Evaluations.State {
    Evaluations.Run(Evaluations.Empty, EvaluationWitness.Prelude())
  }

  function Submission(day: Date): Payload {
    Payload(Submitted, Some(day), None, None, None)
  }

  const CLOSING := Payload(Terminated, None, None, None, Some("closed"))
  const REOPENING := Payload(PendingApplication, None, None, None, None)
  const RESTORING := Payload(Submitted, None, None, None, None)
  const CLEARING := Changes(Keep, Keep, Keep, Patch(Set(None), Keep, Keep, Keep))

  function Opening(): seq<Step> {
    [CheckStep(0, Approved(), REQUEST, POLICY, map[0 := true]), InsertStep(0, true, 0)]
  }

  function First(): Project {
    Draft(REQUEST, POLICY, 0, EvaluationWitness.Chosen())
  }

  // One project, as far as status steps look at it.
  ghost predicate At(s: State, status: Status, values: Values, version: nat, h: seq<Entry>) {
    && |s.projects| == 1 && s.histories == [h]
    && s.projects[0] == First().(status := status, values := values, version := version)
  }

  lemma ChecksOut(e: Evaluations.State)
    requires |e.policies| == 1 && Convertible(e.policies[0]) && e.primaries == [EvaluationWitness.Chosen()]
    ensures CheckConversion(Empty, e, 0, REQUEST, POLICY, map[0 := true]).0 == Empty.(drafts := map[0 := First()])
  {
    assert Evaluations.CurrentPrimary(e.primaries, 0) == Some(0);
  }

  lemma Inserted(s: State)
    requires s == Empty.(drafts := map[0 := First()])
    ensures At(InsertConversion(s, 0, true, 0).0, PendingApplication, NoValues, 1, [CreatedEntry(0)])
  {
    assert First().name[0] == 'P';
  }

  lemma Opens()
    ensures At(Run(Empty, Opening()), PendingApplication, NoValues, 1, [CreatedEntry(0)])
  {
    EvaluationWitness.PreludeEnds();
    EvaluationWitness.YoungerConfirmed();
    ChecksOut(Approved());
    Inserted(Empty.(drafts := map[0 := First()]));
    RunTwo(Empty, Opening()[0], Opening()[1], []);
    assert Opening() == [Opening()[0], Opening()[1]] + [];
  }

  lemma RunTwo(s: State, a: Step, b: Step, rest: seq<Step>)
    ensures Run(s, [a, b] + rest) == Run(Do(Do(s, a).0, b).0, rest)
  {
    assert ([a, b] + rest)[1..] == [b] + rest && ([b] + rest)[1..] == rest;
  }

  function Entering(status: Status, values: Values, version: nat, r: WorkflowResult, correction: bool, now: Instant): Entry
    requires r.Moved?
  {
    MoveEntry(First().(status := status, values := values, version := version), r, correction, None, now)
  }

  // A status step of the owner at the current version.
  function Move(payload: Payload, version: nat, now: Instant): Step {
    TransitionStep(0, OWNER, version, payload, 1, now)
  }

  function Fix(payload: Payload, version: nat, now: Instant): Step {
    CorrectStep(0, OWNER, version, payload, None, 1, now)
  }

  lemma Moves(s: State, status: Status, values: Values, version: nat, h: seq<Entry>, payload: Payload, now: Instant)
    requires At(s, status, values, version, h)
    requires var r := ApplyTransition(status, values, payload, 1);
             r.Moved? && Checks(First().(status := r.newStatus, values := Patched(values, r.values)))
    ensures var r := ApplyTransition(status, values, payload, 1);
            At(Do(s, Move(payload, version, now)).0, r.newStatus, Patched(values, r.values), version + 1,
               h + [Entering(status, values, version, r, false, now)])
  {
  }

  lemma Corrects(s: State, status: Status, values: Values, version: nat, h: seq<Entry>, payload: Payload, now: Instant)
    requires At(s, status, values, version, h)
    requires var r := ApplyCorrection(status, values, PreTermination(h), payload, 1);
             r.Moved? && Checks(First().(status := r.newStatus, values := Patched(values, r.values)))
    ensures var r := ApplyCorrection(status, values, PreTermination(h), payload, 1);
            At(Do(s, Fix(payload, version, now)).0, r.newStatus, Patched(values, r.values), version + 1,
               h + [Entering(status, values, version, r, true, now)])
  {
  }

  lemma FirstPasses(status: Status, values: Values, version: nat, day: Date)
    requires Owned(status, values, day)
    ensures Checks(First().(status := status, values := values, version := version))
  {
    assert First().name[0] == 'P';
  }

  // ---------- The refused restoration ----------

  function Cleared(): seq<Step> {
    Opening() + ([Move(Submission(1), 1, 1), Move(CLOSING, 2, 2)] + [UpdateStep(0, OWNER, 3, CLEARING, 1)])
  }

  lemma RunOne(s: State, a: Step)
    ensures Run(s, [a]) == Do(s, a).0
  {
  }

  lemma SearchAfter(h: seq<Entry>, a: Entry, b: Entry)
    requires LatestTermination(h).None? && !a.newStatus.Terminated? && b.newStatus.Terminated?
    ensures PreTermination(h + [a] + [b]) == b.previous
  {
    LatestOfAppended(h, a);
    LatestOfAppended(h + [a], b);
  }

  lemma Clears(s: State, values: Values, version: nat, h: seq<Entry>)
    requires At(s, Terminated, values, version, h) && Owned(Terminated, values, 1)
    ensures At(Do(s, UpdateStep(0, OWNER, version, CLEARING, 1)).0, Terminated, values.(submittedOn := None), version + 1, h)
  {
    FirstPasses(Terminated, values.(submittedOn := None), version + 1, 1);
  }

  const SUBMITTED := NoValues.(submittedOn := Some(1))
  const CLOSED := SUBMITTED.(terminationNote := Some("closed"))

  lemma Closes(s0: State) returns (h: seq<Entry>)
    requires At(s0, PendingApplication, NoValues, 1, [CreatedEntry(0)])
    ensures At(Do(Do(s0, Move(Submission(1), 1, 1)).0, Move(CLOSING, 2, 2)).0, Terminated, CLOSED, 3, h)
    ensures PreTermination(h) == Some(Submitted)
  {
    var h0 := [CreatedEntry(0)];
    var submits := ApplyTransition(PendingApplication, NoValues, Submission(1), 1);
    var closes := ApplyTransition(Submitted, SUBMITTED, CLOSING, 1);
    var a := Entering(PendingApplication, NoValues, 1, submits, false, 1);
    var b := Entering(Submitted, SUBMITTED, 2, closes, false, 2);
    FirstPasses(Submitted, SUBMITTED, 1, 1);
    FirstPasses(Terminated, CLOSED, 1, 1);
    Moves(s0, PendingApplication, NoValues, 1, h0, Submission(1), 1);
    Moves(Do(s0, Move(Submission(1), 1, 1)).0, Submitted, SUBMITTED, 2, h0 + [a], CLOSING, 2);
    SearchAfter(h0, a, b);
    h := h0 + [a] + [b];
  }

  lemma Refuses(s: State, h: seq<Entry>)
    requires At(s, Terminated, CLOSED.(submittedOn := None), 4, h) && PreTermination(h) == Some(Submitted)
    ensures Do(s, Fix(RESTORING, 4, 3)).1 == CheckViolation
  {
  }

  lemma ClearedRun(s0: State)
    requires s0 == Run(Empty, Opening())
    ensures Run(Empty, Cleared())
            == Do(Do(Do(s0, Move(Submission(1), 1, 1)).0, Move(CLOSING, 2, 2)).0, UpdateStep(0, OWNER, 3, CLEARING, 1)).0
  {
    var moves, clear := [Move(Submission(1), 1, 1), Move(CLOSING, 2, 2)], UpdateStep(0, OWNER, 3, CLEARING, 1);
    RunAppend(Empty, Opening(), moves + [clear]);
    RunTwo(s0, moves[0], moves[1], [clear]);
    RunOne(Do(Do(s0, moves[0]).0, moves[1]).0, clear);
  }

  lemma ClearedState() returns (h: seq<Entry>)
    ensures At(Run(Empty, Cleared()), Terminated, CLOSED.(submittedOn := None), 4, h) && PreTermination(h) == Some(Submitted)
  {
    var s0 := Run(Empty, Opening());
    Opens();
    h := Closes(s0);
    Clears(Do(Do(s0, Move(Submission(1), 1, 1)).0, Move(CLOSING, 2, 2)).0, CLOSED, 3, h);
    ClearedRun(s0);
  }

  // Submitted, terminated, its submission date cleared: restoring the project breaks a CHECK.
  lemma RestorationIsRefused()
    ensures Do(Run(Empty, Cleared()), Fix(RESTORING, 4, 3)).1 == CheckViolation
  {
    var h := ClearedState();
    Refuses(Run(Empty, Cleared()), h);
  }

  lemma {:induction false} RunAppend(s: State, a: seq<Step>, b: seq<Step>)
    ensures Run(s, a + b) == Run(Run(s, a), b)
    decreases |a|
  {
    if a == [] {
      assert a + b == b;
    } else {
      assert (a + b)[1..] == a[1..] + b;
      RunAppend(Do(s, a[0]).0, a[1..], b);
    }
  }

  // ---------- The clock that fell back ----------

  // Terminated while pending, reopened, submitted, and terminated again by a clock that fell back.
  function Skewed(): seq<Step> {
    Opening() + ([Move(CLOSING, 1, 10), Fix(REOPENING, 2, 11)] + ([Move(Submission(1), 3, 12), Move(CLOSING, 4, 5)] + []))
  }

  lemma SearchSkewed(h: seq<Entry>, a: Entry, b: Entry, c: Entry, d: Entry)
    requires LatestTermination(h).None? && a.newStatus.Terminated? && !b.newStatus.Terminated? && !c.newStatus.Terminated?
    requires d.newStatus.Terminated? && d.occurredAt < a.occurredAt
    ensures PreTermination(h + [a] + [b] + [c] + [d]) == a.previous
  {
    LatestOfAppended(h, a);
    LatestOfAppended(h + [a], b);
    LatestOfAppended(h + [a] + [b], c);
    LatestOfAppended(h + [a] + [b] + [c], d);
  }

  const NOTED := NoValues.(terminationNote := Some("closed"))

  lemma ClosesAndReopens(s0: State) returns (a: Entry, b: Entry)
    requires At(s0, PendingApplication, NoValues, 1, [CreatedEntry(0)])
    ensures At(Do(Do(s0, Move(CLOSING, 1, 10)).0, Fix(REOPENING, 2, 11)).0, PendingApplication, NoValues, 3,
               [CreatedEntry(0)] + [a] + [b])
    ensures a.newStatus.Terminated? && a.previous == Some(PendingApplication) && a.occurredAt == 10
    ensures b.newStatus.PendingApplication?
  {
    var h0 := [CreatedEntry(0)];
    a := Entering(PendingApplication, NoValues, 1, ApplyTransition(PendingApplication, NoValues, CLOSING, 1), false, 10);
    FirstPasses(Terminated, NOTED, 1, 1);
    FirstPasses(PendingApplication, NoValues, 1, 1);
    Moves(s0, PendingApplication, NoValues, 1, h0, CLOSING, 10);
    LatestOfAppended(h0, a);
    assert (h0 + [a])[1] == a;
    b := Entering(Terminated, NOTED, 2, ApplyCorrection(Terminated, NOTED, PreTermination(h0 + [a]), REOPENING, 1), true, 11);
    Corrects(Do(s0, Move(CLOSING, 1, 10)).0, Terminated, NOTED, 2, h0 + [a], REOPENING, 11);
  }

  lemma SubmitsAndCloses(s: State, h: seq<Entry>) returns (c: Entry, d: Entry)
    requires At(s, PendingApplication, NoValues, 3, h)
    ensures At(Do(Do(s, Move(Submission(1), 3, 12)).0, Move(CLOSING, 4, 5)).0, Terminated, CLOSED, 5, h + [c] + [d])
    ensures c.newStatus.Submitted? && d.newStatus.Terminated? && d.previous == Some(Submitted) && d.occurredAt == 5
  {
    c := Entering(PendingApplication, NoValues, 3, ApplyTransition(PendingApplication, NoValues, Submission(1), 1), false, 12);
    d := Entering(Submitted, SUBMITTED, 4, ApplyTransition(Submitted, SUBMITTED, CLOSING, 1), false, 5);
    FirstPasses(Submitted, SUBMITTED, 1, 1);
    FirstPasses(Terminated, CLOSED, 1, 1);
    Moves(s, PendingApplication, NoValues, 3, h, Submission(1), 12);
    Moves(Do(s, Move(Submission(1), 3, 12)).0, Submitted, SUBMITTED, 4, h + [c], CLOSING, 5);
  }

  lemma SkewedRun(s0: State)
    requires s0 == Run(Empty, Opening())
    ensures Run(Empty, Skewed())
            == Do(Do(Do(Do(s0, Move(CLOSING, 1, 10)).0, Fix(REOPENING, 2, 11)).0, Move(Submission(1), 3, 12)).0,
                  Move(CLOSING, 4, 5)).0
  {
    var last := [Move(Submission(1), 3, 12), Move(CLOSING, 4, 5)] + [];
    RunAppend(Empty, Opening(), [Move(CLOSING, 1, 10), Fix(REOPENING, 2, 11)] + last);
    RunTwo(s0, Move(CLOSING, 1, 10), Fix(REOPENING, 2, 11), last);
    RunTwo(Do(Do(s0, Move(CLOSING, 1, 10)).0, Fix(REOPENING, 2, 11)).0, Move(Submission(1), 3, 12), Move(CLOSING, 4, 5), []);
  }

  lemma Misleads(s: State, h: seq<Entry>)
    requires At(s, Terminated, CLOSED, 5, h) && PreTermination(h) == Some(PendingApplication)
    ensures Do(s, Fix(RESTORING, 5, 6)).1 == CorrectionInvalid
    ensures Do(s, Fix(REOPENING, 5, 6)).1 == Returned(0)
    ensures |Do(s, Fix(REOPENING, 5, 6)).0.projects| == 1 && Do(s, Fix(REOPENING, 5, 6)).0.projects[0].status.PendingApplication?
  {
    FirstPasses(PendingApplication, SUBMITTED, 6, 1);
  }

  // A clock that ran backwards on one project breaks both promises: the search answers with the older
  // termination, so the correction refuses to restore the submission and brings a submitted project
  // back to pending.
  lemma BackwardsClockMisleads()
    ensures var s := Run(Empty, Skewed());
            && |s.projects| == 1 && |s.histories| == 1 && |s.histories[0]| == 5
            && s.projects[0].status.Terminated? && s.histories[0][4].previous == Some(Submitted)
            && PreTermination(s.histories[0]) == Some(PendingApplication)
            && Do(s, Fix(RESTORING, 5, 6)).1 == CorrectionInvalid
            && Do(s, Fix(REOPENING, 5, 6)).1 == Returned(0)
            && |Do(s, Fix(REOPENING, 5, 6)).0.projects| == 1
            && Do(s, Fix(REOPENING, 5, 6)).0.projects[0].status.PendingApplication?
  {
    var s0 := Run(Empty, Opening());
    Opens();
    var a, b := ClosesAndReopens(s0);
    var h := [CreatedEntry(0)] + [a] + [b];
    var c, d := SubmitsAndCloses(Do(Do(s0, Move(CLOSING, 1, 10)).0, Fix(REOPENING, 2, 11)).0, h);
    SkewedRun(s0);
    SearchSkewed([CreatedEntry(0)], a, b, c, d);
    Misleads(Run(Empty, Skewed()), h + [c] + [d]);
  }
}
