/** Collection tasks and source health (backend/app/modules/collection/service.py). */
module Collection {
  import opened Wrappers
  import Events
  import Outbox

  type Instant = int

  datatype Status = Pending | Running | Succeeded | PartialFailed | Failed

  datatype Task = Task(
    source: nat, status: Status, createdAt: Instant, startedAt: Option<Instant>, finishedAt: Option<Instant>,
    discovered: nat, succeeded: nat, failed: nat, exitedBadly: bool)

  datatype Item = Item(task: nat, status: Status)

  datatype Health = Health(failures: nat, episode: Option<nat>, lastProcessed: Option<nat>)

  const Healthy := Health(0, None, None)

  // What a finalisation recorded. The log is history only: no operation reads it.
  datatype Outcome = Outcome(task: nat, source: nat, ok: bool)

  // sources maps an id to the source's name.
  datatype State = State(
    sources: map<nat, string>,
    tasks: seq<Task>,
    items: seq<Item>,
    health: map<nat, Health>,
    outbox: Outbox.State,
    log: seq<Outcome>)

  const Empty := State(map[], [], [], map[], Outbox.Empty, [])

  datatype Reply =
    | Done
    | Created(id: nat)
    | Idle
    | Claimed(id: nat)
    | Finished(status: Status)
    | NotCollectable
    | AlreadyRunning
    | NotFound
    | SourceMissing
    | EpisodeMissing

  predicate Active(t: Task) {
    t.status.Pending? || t.status.Running?
  }

  predicate Final(t: Task) {
    t.status.Failed? || t.status.PartialFailed? || t.status.Succeeded?
  }

  function Create(s: State, source: nat, ready: bool, now: Instant): (State, Reply) {
    if source !in s.sources || !ready then (s, NotCollectable)
    else if exists t | t in s.tasks :: t.source == source && Active(t) then (s, AlreadyRunning)
    else (s.(tasks := s.tasks + [Task(source, Pending, now, None, None, 0, 0, 0, false)]), Created(|s.tasks|))
  }

  // The oldest pending task by created_at and id, among the first n that nobody has locked.
  function NextClaim(ts: seq<Task>, locked: set<nat>, n: nat): (r: Option<nat>)
    requires n <= |ts|
    ensures r.Some? ==>
              && r.value < n && r.value !in locked && ts[r.value].status.Pending?
              && forall j: nat | j < n && j !in locked && ts[j].status.Pending? ::
                   ts[r.value].createdAt < ts[j].createdAt || (ts[r.value].createdAt == ts[j].createdAt && r.value <= j)
    ensures r.None? ==> forall j: nat | j < n && j !in locked :: !ts[j].status.Pending?
  {
    if n == 0 then None
    else
      var best := NextClaim(ts, locked, n - 1);
      if n - 1 in locked || !ts[n - 1].status.Pending? then best
      else if best.None? || ts[n - 1].createdAt < ts[best.value].createdAt then Some(n - 1)
      else best
  }

  function ClaimNext(s: State, locked: set<nat>, now: Instant): (State, Reply) {
    var first := NextClaim(s.tasks, locked, |s.tasks|);
    if first.None? then (s, Idle)
    else
      (s.(tasks := s.tasks[first.value := s.tasks[first.value].(status := Running, startedAt := Some(now))]),
       Claimed(first.value))
  }

  function CountItems(items: seq<Item>, task: nat, p: Status -> bool): nat {
    if items == [] then 0
    else CountItems(items[..|items| - 1], task, p)
         + if items[|items| - 1].task == task && p(items[|items| - 1].status) then 1 else 0
  }

  function Verdict(succeeded: nat, failed: nat, returncode: int): Status {
    if succeeded > 0 && failed > 0 then PartialFailed
    else if succeeded > 0 && failed == 0 && returncode == 0 then Succeeded
    else Failed
  }

  function FinishedTask(t: Task, items: seq<Item>, id: nat, returncode: int, now: Instant): Task {
    var succeeded := CountItems(items, id, st => st == Succeeded);
    var failed := CountItems(items, id, st => st == Failed);
    t.(discovered := CountItems(items, id, st => true),
       succeeded := succeeded,
       failed := failed,
       status := Verdict(succeeded, failed, returncode),
       finishedAt := Some(now),
       exitedBadly := t.exitedBadly || returncode != 0)
  }

  function HealthOf(s: State, source: nat): Health {
    if source in s.health then s.health[source] else Healthy
  }

  function Observed(h: Health, id: nat, ok: bool): Health {
    if h.lastProcessed == Some(id) then h
    else if ok then Health(0, None, Some(id))
    else Health(h.failures + 1, if h.failures == 0 then Some(id) else h.episode, Some(id))
  }

  function EpisodeEvent(source: nat, name: string, h: Health, id: nat): Events.Event
    requires h.episode.Some?
  {
    Events.Event(Events.FailureEpisode(source, h.episode.value), name, Events.EpisodeSnapshot(h.failures, id))
  }

  // source_failure_notification_event refuses an alert without a starting task.
  predicate LosesEpisode(s: State, id: nat)
    requires id < |s.tasks|
  {
    var t := s.tasks[id];
    var h := HealthOf(s, t.source);
    var h' := Observed(h, id, t.status.Succeeded?);
    Final(t) && h.lastProcessed != Some(id) && !t.status.Succeeded? && h'.failures == 3 && h'.episode.None?
  }

  // record_source_task_outcome
  function RecordOutcome(s: State, id: nat, now: Instant): State
    requires id < |s.tasks| && s.tasks[id].source in s.sources && !LosesEpisode(s, id)
  {
    var t := s.tasks[id];
    var h := HealthOf(s, t.source);
    var h' := Observed(h, id, t.status.Succeeded?);
    if !Final(t) then s
    else if h.lastProcessed == Some(id) then s
    else
      s.(health := s.health[t.source := h'],
         outbox := if !t.status.Succeeded? && h'.failures == 3
                   then Outbox.Enqueue(s.outbox, EpisodeEvent(t.source, s.sources[t.source], h', id), now).0
                   else s.outbox)
  }

  function FinishFromItems(s: State, id: nat, returncode: int, now: Instant): (State, Reply) {
    if id >= |s.tasks| then (s, NotFound)
    else if Final(s.tasks[id]) then (s, Finished(s.tasks[id].status))
    else if s.tasks[id].source !in s.sources then (s, SourceMissing)
    else
      var t := FinishedTask(s.tasks[id], s.items, id, returncode, now);
      var s1 := s.(tasks := s.tasks[id := t], log := s.log + [Outcome(id, t.source, t.status.Succeeded?)]);
      if LosesEpisode(s1, id) then (s, EpisodeMissing)
      else (RecordOutcome(s1, id, now), Finished(t.status))
  }

  datatype Step =
    | AddSourceStep(source: nat, name: string)
    | CreateStep(source: nat, ready: bool, now: Instant)
    | ClaimStep(locked: set<nat>, now: Instant)
    | AddItemStep(item: Item)
    | MarkItemStep(index: nat, status: Status)
    | FinishStep(id: nat, returncode: int, now: Instant)
    | OutboxStep(outboxStep: Outbox.Step)

  function Do(s: State, step: Step): (State, Reply) {
    match step
    case AddSourceStep(source, name) => (s.(sources := s.sources[source := name]), Done)
    case CreateStep(source, ready, now) => Create(s, source, ready, now)
    case ClaimStep(locked, now) => ClaimNext(s, locked, now)
    case AddItemStep(item) => (s.(items := s.items + [item]), Done)
    case MarkItemStep(i, st) =>
      (if i < |s.items| then s.(items := s.items[i := s.items[i].(status := st)]) else s, Done)
    case FinishStep(id, returncode, now) => FinishFromItems(s, id, returncode, now)
    case OutboxStep(o) => (s.(outbox := Outbox.Do(s.outbox, o).0), Done)
  }

  function Run(s: State, steps: seq<Step>): State
    decreases |steps|
  {
    if steps == [] then s else Run(Do(s, steps[0]).0, steps[1..])
  }
}
