/** CollectionTaskService as it runs: task and health rows assigned field by field, and alerts
    handed to the notification service. Each method is proved to be its transaction in Collection. */
module CollectionService {
  import opened Wrappers
  import opened Collection
  import OutboxService

  class CollectionTaskService {
    var sources: map<nat, string>
    var tasks: seq<Task>
    var items: seq<Item>
    var health: map<nat, Health>
    var log: seq<Outcome>
    const notifications: OutboxService.NotificationService

    ghost function Tables(): State
      reads this, notifications
    {
      State(sources, tasks, items, health, notifications.Tables(), log)
    }

    constructor (notifications: OutboxService.NotificationService)
      ensures this.notifications == notifications
      ensures Tables() == Empty.(outbox := notifications.Tables())
    {
      sources, tasks, items, health, log := map[], [], [], map[], [];
      this.notifications := notifications;
    }

    method CreateTask(source: nat, ready: bool, now: Instant) returns (reply: Reply)
      modifies this
      ensures (Tables(), reply) == Create(old(Tables()), source, ready, now)
    {
      if source !in sources || !ready {
        return NotCollectable;
      }
      if exists t | t in tasks :: t.source == source && Active(t) {
        return AlreadyRunning;
      }
      reply := Created(|tasks|);
      tasks := tasks + [Task(source, Pending, now, None, None, 0, 0, 0, false)];
    }

    method Claim(locked: set<nat>, now: Instant) returns (reply: Reply)
      modifies this
      ensures (Tables(), reply) == ClaimNext(old(Tables()), locked, now)
    {
      var first := NextClaim(tasks, locked, |tasks|);
      if first.None? {
        return Idle;
      }
      var task := tasks[first.value];
      task := task.(status := Running);
      task := task.(startedAt := Some(now));
      tasks := tasks[first.value := task];
      return Claimed(first.value);
    }

    method FinishItems(id: nat, returncode: int, now: Instant) returns (reply: Reply)
      modifies this, notifications
      ensures (Tables(), reply) == FinishFromItems(old(Tables()), id, returncode, now)
    {
      if id >= |tasks| {
        return NotFound;
      }
      var task := tasks[id];
      if Final(task) {
        return Finished(task.status);
      }
      if task.source !in sources {
        return SourceMissing;
      }
      var before := (tasks, log);
      var succeeded := CountItems(items, id, st => st == Succeeded);
      var failed := CountItems(items, id, st => st == Failed);
      task := task.(discovered := CountItems(items, id, st => true));
      task := task.(succeeded := succeeded, failed := failed);
      if succeeded > 0 && failed > 0 {
        task := task.(status := PartialFailed);
      } else if succeeded > 0 && failed == 0 && returncode == 0 {
        task := task.(status := Succeeded);
      } else {
        task := task.(status := Failed);
      }
      task := task.(finishedAt := Some(now));
      if returncode != 0 {
        task := task.(exitedBadly := true);
      }
      assert task == FinishedTask(tasks[id], items, id, returncode, now);
      tasks := tasks[id := task];
      log := log + [Outcome(id, task.source, task.status.Succeeded?)];
      var raised := RecordSourceTaskOutcome(id, now);
      if raised {
        tasks, log := before.0, before.1;
        return EpisodeMissing;
      }
      return Finished(task.status);
    }

    method RecordSourceTaskOutcome(id: nat, now: Instant) returns (raised: bool)
      requires id < |tasks| && tasks[id].source in sources
      modifies `health, notifications
      ensures raised == LosesEpisode(old(Tables()), id)
      ensures Tables() == if raised then old(Tables()) else RecordOutcome(old(Tables()), id, now)
    {
      var task := tasks[id];
      if !Final(task) {
        return false;
      }
      var state := Healthy;
      if task.source in health {
        state := health[task.source];
      }
      if state.lastProcessed == Some(id) {
        return false;
      }
      state := state.(lastProcessed := Some(id));
      if task.status.Succeeded? {
        state := state.(failures := 0);
        state := state.(episode := None);
        health := health[task.source := state];
        return false;
      }
      if state.failures == 0 {
        state := state.(episode := Some(id));
      }
      state := state.(failures := state.failures + 1);
      if state.failures == 3 && state.episode.None? {
        return true;
      }
      health := health[task.source := state];
      if state.failures == 3 {
        var _ := notifications.EnqueueEvent(EpisodeEvent(task.source, sources[task.source], state, id), now);
      }
      return false;
    }
  }
}
