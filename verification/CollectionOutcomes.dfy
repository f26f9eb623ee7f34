/** How a collection task ends and which one is started, told from the item and task tables alone. */
module CollectionOutcomes {
  import opened Wrappers
  import opened Collection
  import opened OutboxEvents
  import Events

  // ---------- Items ----------

  // The item rows of a task, and those of them that ended like this.
  function ItemsOf(items: seq<Item>, task: nat): set<nat> {
    set i: nat | i < |items| && items[i].task == task
  }

  function ItemsEnded(items: seq<Item>, task: nat, status: Status): set<nat> {
    set i: nat | i < |items| && items[i].task == task && items[i].status == status
  }

  function Having(items: seq<Item>, task: nat, p: Status -> bool): set<nat> {
    set i: nat | i < |items| && items[i].task == task && p(items[i].status)
  }

  lemma {:induction false} CountIsSize(items: seq<Item>, task: nat, p: Status -> bool)
    ensures CountItems(items, task, p) == |Having(items, task, p)|
  {
    if items == [] {
      assert Having(items, task, p) == {};
    } else {
      var n, prefix := |items| - 1, items[..|items| - 1];
      CountIsSize(prefix, task, p);
      assert Having(items, task, p)
             == Having(prefix, task, p) + if items[n].task == task && p(items[n].status) then {n} else {};
    }
  }

  lemma CountsAreCardinalities(items: seq<Item>, task: nat)
    ensures CountItems(items, task, st => true) == |ItemsOf(items, task)|
    ensures CountItems(items, task, st => st == Succeeded) == |ItemsEnded(items, task, Succeeded)|
    ensures CountItems(items, task, st => st == Failed) == |ItemsEnded(items, task, Failed)|
  {
    CountIsSize(items, task, st => true);
    CountIsSize(items, task, st => st == Succeeded);
    CountIsSize(items, task, st => st == Failed);
    assert Having(items, task, st => true) == ItemsOf(items, task);
    assert Having(items, task, st => st == Succeeded) == ItemsEnded(items, task, Succeeded);
    assert Having(items, task, st => st == Failed) == ItemsEnded(items, task, Failed);
  }

  // ---------- Finalisation ----------

  predicate AnyEnded(items: seq<Item>, task: nat, status: Status) {
    exists i: nat :: i < |items| && items[i].task == task && items[i].status == status
  }

  lemma AnyIsNonempty(items: seq<Item>, task: nat, status: Status)
    ensures AnyEnded(items, task, status) <==> |ItemsEnded(items, task, status)| > 0
  {
    if AnyEnded(items, task, status) {
      var i: nat :| i < |items| && items[i].task == task && items[i].status == status;
      assert i in ItemsEnded(items, task, status);
    }
  }

  // How a finished task looks.
  ghost predicate EndedAsItems(t: Task, t': Task, items: seq<Item>, id: nat, returncode: int, now: Instant) {
    && (t'.status.Succeeded? <==> AnyEnded(items, id, Succeeded) && !AnyEnded(items, id, Failed) && returncode == 0)
    && (t'.status.PartialFailed? <==> AnyEnded(items, id, Succeeded) && AnyEnded(items, id, Failed))
    && (t'.status.Failed? <==> !AnyEnded(items, id, Succeeded) || (!AnyEnded(items, id, Failed) && returncode != 0))
    && t'.discovered == |ItemsOf(items, id)|
    && t'.succeeded == |ItemsEnded(items, id, Succeeded)| && t'.failed == |ItemsEnded(items, id, Failed)|
    && t'.source == t.source && t'.createdAt == t.createdAt && t'.startedAt == t.startedAt && t'.finishedAt == Some(now)
    && (t'.exitedBadly <==> t.exitedBadly || returncode != 0)
  }

  lemma VerdictOfItems(t: Task, items: seq<Item>, id: nat, returncode: int, now: Instant)
    ensures EndedAsItems(t, FinishedTask(t, items, id, returncode, now), items, id, returncode, now)
  {
    CountsAreCardinalities(items, id);
    AnyIsNonempty(items, id, Succeeded);
    AnyIsNonempty(items, id, Failed);
  }

  // Tasks have sources, and a source with failures has an episode.
  ghost predicate Sound(s: State) {
    && (forall i: nat | i < |s.tasks| :: s.tasks[i].source in s.sources)
    && (forall source: nat | source in s.health :: s.health[source].failures > 0 ==> s.health[source].episode.Some?)
  }

  lemma StepKeepsSound(s: State, step: Step)
    requires Sound(s)
    ensures Sound(Do(s, step).0)
  {
    if step.FinishStep? { FinishKeepsSound(s, step.id, step.returncode, step.now); }
  }

  lemma FinishKeepsSound(s: State, id: nat, returncode: int, now: Instant)
    requires Sound(s)
    ensures Sound(FinishFromItems(s, id, returncode, now).0)
    ensures id < |s.tasks| ==> FinishFromItems(s, id, returncode, now).1.Finished?
  {
    if id < |s.tasks| {
      var t := FinishedTask(s.tasks[id], s.items, id, returncode, now);
      assert s.tasks[id].source in s.sources && t.source == s.tasks[id].source;
    }
  }

  lemma {:induction false} RunKeepsSound(s: State, steps: seq<Step>)
    requires Sound(s)
    ensures Sound(Run(s, steps))
    decreases |steps|
  {
    if steps != [] {
      StepKeepsSound(s, steps[0]);
      RunKeepsSound(Do(s, steps[0]).0, steps[1..]);
    }
  }

  // An unfinished task ends as its items and the collector's return code say, and this is the outcome
  // that its source's health sees; a finished one is left alone.
  lemma FinishExact(steps: seq<Step>, id: nat, returncode: int, now: Instant)
    ensures var s := Run(Empty, steps);
            var (s', reply) := Do(s, FinishStep(id, returncode, now));
            if id >= |s.tasks| then s' == s && reply == NotFound
            else if s.tasks[id].status in {Succeeded, PartialFailed, Failed} then s' == s && reply == Finished(s.tasks[id].status)
            else
              && |s'.tasks| == |s.tasks| && reply == Finished(s'.tasks[id].status)
              && EndedAsItems(s.tasks[id], s'.tasks[id], s.items, id, returncode, now)
              && s'.log == s.log + [Outcome(id, s.tasks[id].source, s'.tasks[id].status.Succeeded?)]
              && s'.items == s.items && (forall j: nat | j < |s.tasks| && j != id :: s'.tasks[j] == s.tasks[j])
  {
    var s := Run(Empty, steps);
    RunKeepsSound(Empty, steps);
    FinishKeepsSound(s, id, returncode, now);
    if id < |s.tasks| && !Final(s.tasks[id]) { VerdictOfItems(s.tasks[id], s.items, id, returncode, now); }
  }

  // ---------- Creation and claims ----------

  predicate Unfinished(t: Task) {
    t.status in {Pending, Running}
  }

  lemma CreateExact(s: State, source: nat, ready: bool, now: Instant)
    ensures var (s', reply) := Do(s, CreateStep(source, ready, now));
            && (reply.NotCollectable? <==> !(source in s.sources && ready))
            && (reply.Created? <==>
                  source in s.sources && ready && forall j: nat | j < |s.tasks| && s.tasks[j].source == source :: !Unfinished(s.tasks[j]))
            && (if reply.Created? then
                  && reply.id == |s.tasks| && |s'.tasks| == |s.tasks| + 1 && s'.tasks[..|s.tasks|] == s.tasks
                  && s'.tasks[|s.tasks|] == Task(source, Pending, now, None, None, 0, 0, 0, false)
                else s' == s)
  {
    if exists t | t in s.tasks :: t.source == source && Active(t) {
      var t :| t in s.tasks && t.source == source && Active(t);
      var j :| 0 <= j < |s.tasks| && s.tasks[j] == t;
      assert Unfinished(s.tasks[j]);
    }
    forall j: nat | j < |s.tasks| && s.tasks[j].source == source && Unfinished(s.tasks[j])
      ensures exists t | t in s.tasks :: t.source == source && Active(t)
    {
      assert s.tasks[j] in s.tasks;
    }
  }

  // A claim starts the oldest unlocked pending task, the lower key first.
  lemma ClaimExact(s: State, locked: set<nat>, now: Instant)
    ensures var (s', reply) := Do(s, ClaimStep(locked, now));
            && (reply.Idle? <==> forall j: nat | j < |s.tasks| && j !in locked :: !s.tasks[j].status.Pending?)
            && (reply.Idle? ==> s' == s)
            && (!reply.Idle? ==>
                  && reply.Claimed? && reply.id < |s.tasks| && reply.id !in locked
                  && var t := s.tasks[reply.id];
                  && t.status.Pending?
                  && (forall j: nat | j < |s.tasks| && j !in locked && s.tasks[j].status.Pending? ::
                        t.createdAt < s.tasks[j].createdAt || (t.createdAt == s.tasks[j].createdAt && reply.id <= j))
                  && s' == s.(tasks := s.tasks[reply.id := t.(status := Running, startedAt := Some(now))]))
  {
  }

  // ---------- What a finalisation announces ----------

  // The one event that it may add is an alert about the task's own source, under the source's name,
  // with three failures and this task as the latest.
  lemma FinishAnnounces(s: State, id: nat, returncode: int, now: Instant, key: Events.EventKey)
    requires id < |s.tasks| && s.tasks[id].source in s.sources
    ensures var s' := Do(s, FinishStep(id, returncode, now)).0;
            var source := s.tasks[id].source;
            EventOf(s'.outbox, key) != EventOf(s.outbox, key) ==>
              && EventOf(s.outbox, key).None? && key.FailureEpisode? && key.source == source
              && EventOf(s'.outbox, key) == Some(Events.Event(key, s.sources[source], Events.EpisodeSnapshot(3, id)))
  {
    if !Final(s.tasks[id]) {
      var t := FinishedTask(s.tasks[id], s.items, id, returncode, now);
      var s1 := s.(tasks := s.tasks[id := t], log := s.log + [Outcome(id, t.source, t.status.Succeeded?)]);
      if !LosesEpisode(s1, id) { RecordAnnounces(s1, id, now, key); }
    }
  }

  lemma RecordAnnounces(s: State, id: nat, now: Instant, key: Events.EventKey)
    requires id < |s.tasks| && s.tasks[id].source in s.sources && !LosesEpisode(s, id)
    ensures var s', source := RecordOutcome(s, id, now), s.tasks[id].source;
            EventOf(s'.outbox, key) != EventOf(s.outbox, key) ==>
              && EventOf(s.outbox, key).None? && key.FailureEpisode? && key.source == source
              && EventOf(s'.outbox, key) == Some(Events.Event(key, s.sources[source], Events.EpisodeSnapshot(3, id)))
  {
    var t := s.tasks[id];
    var h := Observed(HealthOf(s, t.source), id, t.status.Succeeded?);
    if h.episode.Some? { EnqueueEvent(s.outbox, EpisodeEvent(t.source, s.sources[t.source], h, id), now, key); }
  }
}
