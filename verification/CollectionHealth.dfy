/** The incremental failure counter and its alerts against the history of finalised tasks. */
module CollectionHealth {
  import opened Wrappers
  import opened Collection
  import Events
  import Outbox
  import opened OutboxEvents
  import OutboxLedger

  // The outcomes of one source, in finalisation order.
  function Of(log: seq<Outcome>, source: nat): seq<Outcome> {
    if log == [] then []
    else Of(log[..|log| - 1], source) + if log[|log| - 1].source == source then [log[|log| - 1]] else []
  }

  // The trailing run of outcomes that did not succeed.
  function Trailing(os: seq<Outcome>): seq<Outcome> {
    if os == [] || os[|os| - 1].ok then [] else Trailing(os[..|os| - 1]) + [os[|os| - 1]]
  }

  // It is a suffix without a success, and the outcome before it, if any, is a success.
  lemma {:induction false} TrailingShape(os: seq<Outcome>)
    ensures var r := Trailing(os);
            && |r| <= |os|
            && (forall j | 0 <= j < |r| :: r[j] == os[|os| - |r| + j] && !r[j].ok)
            && (|r| < |os| ==> os[|os| - |r| - 1].ok)
  {
    if os != [] && !os[|os| - 1].ok { TrailingShape(os[..|os| - 1]); }
  }

  // A maximal failure run of at least three outcomes starts at k.
  predicate StartsEpisode(os: seq<Outcome>, k: nat) {
    && k + 2 < |os|
    && !os[k].ok && !os[k + 1].ok && !os[k + 2].ok
    && (k > 0 ==> os[k - 1].ok)
  }

  function ExpectedHealth(os: seq<Outcome>): Health {
    var r := Trailing(os);
    Health(|r|, if r == [] then None else Some(r[0].task), if os == [] then None else Some(os[|os| - 1].task))
  }

  ghost predicate LogMatchesTasks(s: State) {
    && (forall k: nat | k < |s.log| ::
          && s.log[k].task < |s.tasks|
          && var t := s.tasks[s.log[k].task];
          t.source == s.log[k].source && Final(t) && (s.log[k].ok <==> t.status.Succeeded?))
    && (forall j: nat, k: nat | j < k < |s.log| :: s.log[j].task != s.log[k].task)
    && (forall id: nat | id < |s.tasks| && Final(s.tasks[id]) :: exists k: nat :: k < |s.log| && s.log[k].task == id)
  }

  ghost predicate OneActive(s: State) {
    && (forall i: nat, j: nat | i < j < |s.tasks| && Active(s.tasks[i]) && Active(s.tasks[j]) ::
          s.tasks[i].source != s.tasks[j].source)
    && (forall id: nat | id < |s.tasks| :: s.tasks[id].source in s.sources)
  }

  // The alert of episode t of a source, if it was raised.
  ghost predicate AlertsMatch(o: Outbox.State, source: nat, os: seq<Outcome>) {
    && (forall k: nat | StartsEpisode(os, k) ::
          SnapshotOf(EventOf(o, Events.FailureEpisode(source, os[k].task))) == Some(Events.EpisodeSnapshot(3, os[k + 2].task)))
    && (forall t: nat | EventOf(o, Events.FailureEpisode(source, t)).Some? ::
          exists k: nat :: StartsEpisode(os, k) && os[k].task == t)
  }

  ghost predicate CountersMatch(s: State) {
    forall source: nat :: HealthOf(s, source) == ExpectedHealth(Of(s.log, source))
  }

  ghost predicate AllAlertsMatch(s: State) {
    forall source: nat :: AlertsMatch(s.outbox, source, Of(s.log, source))
  }

  ghost predicate HealthOk(s: State) {
    && LogMatchesTasks(s) && OneActive(s)
    && CountersMatch(s) && AllAlertsMatch(s)
    && OutboxLedger.Inv(s.outbox)
  }

  // ---------- One more outcome ----------

  lemma OfAppended(log: seq<Outcome>, o: Outcome, source: nat)
    ensures Of(log + [o], source) == if o.source == source then Of(log, source) + [o] else Of(log, source)
  {
    assert (log + [o])[..|log|] == log;
  }

  lemma {:induction false} OfIsTheLog(log: seq<Outcome>, source: nat)
    ensures forall o :: o in Of(log, source) <==> o in log && o.source == source
  {
    if log != [] {
      OfIsTheLog(log[..|log| - 1], source);
      assert log == log[..|log| - 1] + [log[|log| - 1]];
    }
  }

  lemma TrailingOfAppended(os: seq<Outcome>, o: Outcome)
    ensures Trailing(os + [o]) == if o.ok then [] else Trailing(os) + [o]
  {
    assert (os + [o])[..|os|] == os;
  }

  // The counter follows the trailing run, outcome by outcome.
  lemma ObservedIsExpected(os: seq<Outcome>, o: Outcome)
    requires os != [] ==> os[|os| - 1].task != o.task
    ensures Observed(ExpectedHealth(os), o.task, o.ok) == ExpectedHealth(os + [o])
  {
    var r := Trailing(os);
    TrailingOfAppended(os, o);
    if r == [] { assert r + [o] == [o]; } else { assert (r + [o])[0] == r[0]; }
  }

  // The last three outcomes start an episode exactly when the trailing run is three long.
  lemma LastThree(os: seq<Outcome>)
    requires |os| >= 3
    ensures StartsEpisode(os, |os| - 3) <==> |Trailing(os)| == 3
  {
    var r := Trailing(os);
    TrailingShape(os);
    if |r| == 3 {
      assert r[0] == os[|os| - 3] && r[1] == os[|os| - 2] && r[2] == os[|os| - 1];
    } else if |r| > 3 {
      assert r[|r| - 4] == os[|os| - 4];
    }
  }

  // An outcome completes an episode exactly when it makes the trailing run three long.
  lemma EpisodeOfAppended(os: seq<Outcome>, o: Outcome, k: nat)
    ensures StartsEpisode(os + [o], k) <==> StartsEpisode(os, k) || (|Trailing(os + [o])| == 3 && k == |os| - 2)
  {
    if |os| >= 2 { LastThree(os + [o]); } else { TrailingShape(os + [o]); }
  }

  // A quiet outcome adds no episode and no alert.
  lemma QuietOutcome(o: Outbox.State, source: nat, os: seq<Outcome>, new': Outcome)
    requires AlertsMatch(o, source, os)
    requires |Trailing(os + [new'])| != 3
    ensures AlertsMatch(o, source, os + [new'])
  {
    forall k: nat ensures StartsEpisode(os + [new'], k) <==> StartsEpisode(os, k) {
      EpisodeOfAppended(os, new', k);
    }
    forall t: nat | EventOf(o, Events.FailureEpisode(source, t)).Some?
      ensures exists k: nat :: StartsEpisode(os + [new'], k) && (os + [new'])[k].task == t
    {
      var k: nat :| StartsEpisode(os, k) && os[k].task == t;
      assert StartsEpisode(os + [new'], k) && (os + [new'])[k].task == t;
    }
  }

  ghost predicate DistinctTasks(os: seq<Outcome>) {
    forall j: nat, k: nat | j < k < |os| :: os[j].task != os[k].task
  }

  // Adding the one alert that an outcome calls for keeps alerts and episodes together.
  lemma AlertAdded(o: Outbox.State, o': Outbox.State, source: nat, os: seq<Outcome>, new': Outcome, e: Events.Event)
    requires AlertsMatch(o, source, os) && DistinctTasks(os + [new'])
    requires |Trailing(os + [new'])| == 3 && |os| >= 2
    requires e.key == Events.FailureEpisode(source, os[|os| - 2].task)
    requires e.snapshot == Events.EpisodeSnapshot(3, new'.task)
    requires forall t: nat :: EventOf(o', Events.FailureEpisode(source, t))
                              == if t == os[|os| - 2].task then Some(e) else EventOf(o, Events.FailureEpisode(source, t))
    ensures AlertsMatch(o', source, os + [new'])
  {
    var os' := os + [new'];
    forall k: nat | StartsEpisode(os', k)
      ensures SnapshotOf(EventOf(o', Events.FailureEpisode(source, os'[k].task)))
              == Some(Events.EpisodeSnapshot(3, os'[k + 2].task))
    {
      EpisodeOfAppended(os, new', k);
    }
    forall t: nat | EventOf(o', Events.FailureEpisode(source, t)).Some?
      ensures exists k: nat :: StartsEpisode(os', k) && os'[k].task == t
    {
      if t == os[|os| - 2].task {
        EpisodeOfAppended(os, new', |os| - 2);
        assert StartsEpisode(os', |os| - 2) && os'[|os| - 2].task == t;
      } else {
        var k: nat :| StartsEpisode(os, k) && os[k].task == t;
        EpisodeOfAppended(os, new', k);
        assert StartsEpisode(os', k) && os'[k].task == t;
      }
    }
  }

  // The third failure of a run raises the alert of its first.
  lemma ThirdFailure(o: Outbox.State, source: nat, name: string, os: seq<Outcome>, new': Outcome, now: Instant)
    requires AlertsMatch(o, source, os) && DistinctTasks(os + [new'])
    requires |Trailing(os + [new'])| == 3
    ensures ExpectedHealth(os + [new']).episode.Some?
    ensures AlertsMatch(Outbox.Enqueue(o, EpisodeEvent(source, name, ExpectedHealth(os + [new']), new'.task), now).0,
                        source, os + [new'])
  {
    var os' := os + [new'];
    TrailingShape(os');
    var first: nat := |os| - 2;
    assert Trailing(os')[0] == os'[first] == os[first];
    var e := EpisodeEvent(source, name, ExpectedHealth(os'), new'.task);
    var o' := Outbox.Enqueue(o, e, now).0;
    if EventOf(o, e.key).Some? {
      assert false;
    }
    forall t: nat
      ensures EventOf(o', Events.FailureEpisode(source, t))
              == if t == os[first].task then Some(e) else EventOf(o, Events.FailureEpisode(source, t))
    {
      EnqueueEvent(o, e, now, Events.FailureEpisode(source, t));
    }
    AlertAdded(o, o', source, os, new', e);
  }

  lemma OtherSources(o: Outbox.State, e: Events.Event, now: Instant, source: nat, os: seq<Outcome>)
    requires AlertsMatch(o, source, os)
    requires e.key.FailureEpisode? ==> e.key.source != source
    ensures AlertsMatch(Outbox.Enqueue(o, e, now).0, source, os)
  {
    var o' := Outbox.Enqueue(o, e, now).0;
    forall t: nat ensures EventOf(o', Events.FailureEpisode(source, t)) == EventOf(o, Events.FailureEpisode(source, t)) {
      EnqueueEvent(o, e, now, Events.FailureEpisode(source, t));
    }
  }

  lemma {:induction false} OfKeepsDistinct(log: seq<Outcome>, source: nat)
    requires DistinctTasks(log)
    ensures DistinctTasks(Of(log, source))
  {
    if log != [] {
      var m := |log| - 1;
      OfKeepsDistinct(log[..m], source);
      OfIsTheLog(log[..m], source);
      var os := Of(log[..m], source);
      forall k: nat | k < |os| ensures os[k].task != log[m].task {
        assert os[k] in log[..m];
      }
    }
  }

  // ---------- Finalisation ----------

  // One finalisation, as it touches tasks and log.
  predicate Finalises(s: State, s': State, id: nat, o: Outcome) {
    && id < |s.tasks| == |s'.tasks| && !Final(s.tasks[id]) && Final(s'.tasks[id])
    && s'.tasks[id].source == s.tasks[id].source && s'.sources == s.sources
    && o == Outcome(id, s.tasks[id].source, s'.tasks[id].status.Succeeded?)
    && (forall j | 0 <= j < |s.tasks| && j != id :: s'.tasks[j] == s.tasks[j])
    && s'.log == s.log + [o]
  }

  lemma FinalisesKeepsDistinct(s: State, s': State, id: nat, o: Outcome)
    requires LogMatchesTasks(s) && Finalises(s, s', id, o)
    ensures DistinctTasks(s.log + [o])
  {
  }

  lemma FinalisesKeepsActive(s: State, s': State, id: nat, o: Outcome)
    requires OneActive(s) && Finalises(s, s', id, o)
    ensures OneActive(s')
  {
  }

  lemma FinalisesKeepsLog(s: State, s': State, id: nat, o: Outcome)
    requires LogMatchesTasks(s) && Finalises(s, s', id, o)
    ensures LogMatchesTasks(s')
  {
    FinalisesKeepsDistinct(s, s', id, o);
    forall j: nat | j < |s'.tasks| && Final(s'.tasks[j]) ensures exists k: nat :: k < |s'.log| && s'.log[k].task == j {
      if j == id {
        assert s'.log[|s.log|].task == j;
      } else {
        var k: nat :| k < |s.log| && s.log[k].task == j;
        assert s'.log[k].task == j;
      }
    }
  }

  // The same finalisation, as its own source counts it.
  lemma OwnSourceObserved(log: seq<Outcome>, o: Outcome, h: Health)
    requires DistinctTasks(log + [o]) && h == ExpectedHealth(Of(log, o.source))
    ensures Observed(h, o.task, o.ok) == ExpectedHealth(Of(log + [o], o.source))
    ensures h.lastProcessed != Some(o.task)
  {
    var os := Of(log, o.source);
    OfAppended(log, o, o.source);
    OfKeepsDistinct(log + [o], o.source);
    if os != [] { assert (os + [o])[|os| - 1].task != (os + [o])[|os|].task; }
    ObservedIsExpected(os, o);
  }

  function Alerted(outbox: Outbox.State, name: string, o: Outcome, h: Health, now: Instant): Outbox.State {
    if !o.ok && h.failures == 3 && h.episode.Some?
    then Outbox.Enqueue(outbox, EpisodeEvent(o.source, name, h, o.task), now).0
    else outbox
  }

  lemma OwnAlerts(outbox: Outbox.State, log: seq<Outcome>, o: Outcome, name: string, now: Instant)
    requires AlertsMatch(outbox, o.source, Of(log, o.source)) && DistinctTasks(log + [o])
    ensures AlertsMatch(Alerted(outbox, name, o, ExpectedHealth(Of(log + [o], o.source)), now), o.source, Of(log + [o], o.source))
  {
    var os := Of(log, o.source);
    OfAppended(log, o, o.source);
    OfKeepsDistinct(log + [o], o.source);
    TrailingOfAppended(os, o);
    if |Trailing(os + [o])| == 3 {
      ThirdFailure(outbox, o.source, name, os, o, now);
    } else {
      QuietOutcome(outbox, o.source, os, o);
    }
  }

  lemma OtherAlerts(outbox: Outbox.State, o: Outcome, name: string, h: Health, now: Instant, source: nat, os: seq<Outcome>)
    requires AlertsMatch(outbox, source, os) && source != o.source
    ensures AlertsMatch(Alerted(outbox, name, o, h, now), source, os)
  {
    if !o.ok && h.failures == 3 && h.episode.Some? {
      OtherSources(outbox, EpisodeEvent(o.source, name, h, o.task), now, source, os);
    }
  }

  lemma FinishAlerts(outbox: Outbox.State, log: seq<Outcome>, o: Outcome, name: string, h: Health, now: Instant, source: nat)
    requires AlertsMatch(outbox, source, Of(log, source)) && DistinctTasks(log + [o])
    requires h == ExpectedHealth(Of(log + [o], o.source))
    ensures AlertsMatch(Alerted(outbox, name, o, h, now), source, Of(log + [o], source))
  {
    if source == o.source {
      OwnAlerts(outbox, log, o, name, now);
    } else {
      OfAppended(log, o, source);
      OtherAlerts(outbox, o, name, h, now, source, Of(log, source));
    }
  }

  lemma RecordIsObserved(s: State, id: nat, o: Outcome, now: Instant)
    requires id < |s.tasks| && s.tasks[id].source in s.sources && Final(s.tasks[id])
    requires o == Outcome(id, s.tasks[id].source, s.tasks[id].status.Succeeded?)
    requires HealthOf(s, o.source).lastProcessed != Some(id) && !LosesEpisode(s, id)
    ensures var h := Observed(HealthOf(s, o.source), id, o.ok);
            RecordOutcome(s, id, now)
            == s.(health := s.health[o.source := h], outbox := Alerted(s.outbox, s.sources[o.source], o, h, now))
  {
  }

  lemma FinishKeeps(s: State, id: nat, returncode: int, now: Instant)
    requires HealthOk(s)
    ensures HealthOk(FinishFromItems(s, id, returncode, now).0)
    ensures FinishFromItems(s, id, returncode, now).1 !in {SourceMissing, EpisodeMissing}
  {
    if id < |s.tasks| && !Final(s.tasks[id]) {
      var t := FinishedTask(s.tasks[id], s.items, id, returncode, now);
      var o := Outcome(id, t.source, t.status.Succeeded?);
      var s1 := s.(tasks := s.tasks[id := t], log := s.log + [o]);
      assert Finalises(s, s1, id, o);
      FinalisesKeepsLog(s, s1, id, o);
      FinalisesKeepsDistinct(s, s1, id, o);
      FinalisesKeepsActive(s, s1, id, o);
      OwnSourceObserved(s.log, o, HealthOf(s, o.source));
      RecordIsObserved(s1, id, o, now);
      RecordKeepsHealth(s, s1, o, now);
    }
  }

  lemma AlertedKeepsInv(outbox: Outbox.State, name: string, o: Outcome, h: Health, now: Instant)
    requires OutboxLedger.Inv(outbox)
    ensures OutboxLedger.Inv(Alerted(outbox, name, o, h, now))
  {
    if !o.ok && h.failures == 3 && h.episode.Some? {
      OutboxLedger.EnqueueKeeps(outbox, EpisodeEvent(o.source, name, h, o.task), now);
    }
  }

  lemma ObservedSource(s: State, s': State, o: Outcome, source: nat)
    requires CountersMatch(s) && DistinctTasks(s.log + [o]) && s'.log == s.log + [o]
    requires s'.health == s.health[o.source := Observed(HealthOf(s, o.source), o.task, o.ok)]
    ensures HealthOf(s', source) == ExpectedHealth(Of(s'.log, source))
  {
    if source == o.source {
      OwnSourceObserved(s.log, o, HealthOf(s, source));
    } else {
      OfAppended(s.log, o, source);
      assert HealthOf(s, source) == ExpectedHealth(Of(s.log, source));
    }
  }

  lemma RecordKeepsCounters(s: State, s': State, o: Outcome)
    requires CountersMatch(s) && DistinctTasks(s.log + [o]) && s'.log == s.log + [o]
    requires s'.health == s.health[o.source := Observed(HealthOf(s, o.source), o.task, o.ok)]
    ensures CountersMatch(s')
  {
    forall source: nat ensures HealthOf(s', source) == ExpectedHealth(Of(s'.log, source)) {
      ObservedSource(s, s', o, source);
    }
  }

  lemma RecordKeepsAlerts(s: State, s': State, o: Outcome, name: string, h: Health, now: Instant)
    requires AllAlertsMatch(s) && DistinctTasks(s.log + [o]) && s'.log == s.log + [o]
    requires h == ExpectedHealth(Of(s.log + [o], o.source)) && s'.outbox == Alerted(s.outbox, name, o, h, now)
    ensures AllAlertsMatch(s')
  {
    forall source: nat ensures AlertsMatch(s'.outbox, source, Of(s'.log, source)) {
      assert AlertsMatch(s.outbox, source, Of(s.log, source));
      FinishAlerts(s.outbox, s.log, o, name, h, now, source);
    }
  }

  lemma RecordKeepsHealth(s: State, s1: State, o: Outcome, now: Instant)
    requires HealthOk(s) && LogMatchesTasks(s1) && OneActive(s1) && DistinctTasks(s.log + [o])
    requires s1.health == s.health && s1.outbox == s.outbox && s1.log == s.log + [o] && o.source in s1.sources
    ensures var h := Observed(HealthOf(s, o.source), o.task, o.ok);
            HealthOk(s1.(health := s1.health[o.source := h],
                         outbox := Alerted(s1.outbox, s1.sources[o.source], o, h, now)))
  {
    var h := Observed(HealthOf(s, o.source), o.task, o.ok);
    var name := s1.sources[o.source];
    var s' := s1.(health := s1.health[o.source := h], outbox := Alerted(s1.outbox, name, o, h, now));
    assert HealthOf(s, o.source) == ExpectedHealth(Of(s.log, o.source));
    OwnSourceObserved(s.log, o, HealthOf(s, o.source));
    RecordKeepsCounters(s, s', o);
    RecordKeepsAlerts(s, s', o, name, h, now);
    AlertedKeepsInv(s1.outbox, name, o, h, now);
    TasksAndSources(s1, s');
  }

  lemma TasksAndSources(s: State, s': State)
    requires LogMatchesTasks(s) && OneActive(s)
    requires s'.tasks == s.tasks && s'.log == s.log && s'.sources == s.sources
    ensures LogMatchesTasks(s') && OneActive(s')
  {
  }

  // ---------- Every step and every run ----------

  // Other parts of the system enqueue their own events only.
  predicate Foreign(step: Step) {
    step.OutboxStep? ==> step.outboxStep.EnqueueStep? ==> !step.outboxStep.event.key.FailureEpisode?
  }

  lemma OutboxKeepsAlerts(o: Outbox.State, step: Outbox.Step, source: nat, os: seq<Outcome>)
    requires AlertsMatch(o, source, os) && Foreign(OutboxStep(step))
    ensures AlertsMatch(Outbox.Do(o, step).0, source, os)
  {
    if step.EnqueueStep? {
      OtherSources(o, step.event, step.now, source, os);
    } else {
      var o' := Outbox.Do(o, step).0;
      forall t: nat ensures EventOf(o', Events.FailureEpisode(source, t)) == EventOf(o, Events.FailureEpisode(source, t)) {
        DeliveryKeepsEvents(o, step, Events.FailureEpisode(source, t));
      }
    }
  }

  predicate SameFinals(s: State, s': State) {
    && s'.log == s.log && |s.tasks| <= |s'.tasks|
    && (forall j | 0 <= j < |s.tasks| && Final(s.tasks[j]) :: s'.tasks[j] == s.tasks[j])
    && (forall j | 0 <= j < |s'.tasks| && Final(s'.tasks[j]) :: j < |s.tasks| && Final(s.tasks[j]))
  }

  lemma SameFinalsKeepsLog(s: State, s': State)
    requires LogMatchesTasks(s) && SameFinals(s, s')
    ensures LogMatchesTasks(s')
  {
    forall j: nat | j < |s'.tasks| && Final(s'.tasks[j]) ensures exists k: nat :: k < |s'.log| && s'.log[k].task == j {
      assert Final(s.tasks[j]);
    }
  }

  lemma TaskStepSameFinals(s: State, step: Step)
    requires !step.FinishStep?
    ensures SameFinals(s, Do(s, step).0)
    ensures Do(s, step).0.health == s.health
    ensures !step.OutboxStep? ==> Do(s, step).0.outbox == s.outbox
  {
  }

  lemma TaskStepKeepsActive(s: State, step: Step)
    requires OneActive(s) && !step.FinishStep?
    ensures OneActive(Do(s, step).0)
  {
  }

  lemma StepKeepsHealth(s: State, step: Step)
    requires HealthOk(s) && Foreign(step)
    ensures HealthOk(Do(s, step).0)
  {
    if step.FinishStep? {
      FinishKeeps(s, step.id, step.returncode, step.now);
    } else {
      TaskStepSameFinals(s, step);
      SameFinalsKeepsLog(s, Do(s, step).0);
      TaskStepKeepsActive(s, step);
      SameHealth(s, Do(s, step).0);
      if step.OutboxStep? { OutboxStepKeepsAlerts(s, step.outboxStep); }
    }
  }

  lemma OutboxStepKeepsAlerts(s: State, step: Outbox.Step)
    requires AllAlertsMatch(s) && OutboxLedger.Inv(s.outbox) && Foreign(OutboxStep(step))
    ensures var s' := s.(outbox := Outbox.Do(s.outbox, step).0);
            AllAlertsMatch(s') && OutboxLedger.Inv(s'.outbox)
  {
    var s' := s.(outbox := Outbox.Do(s.outbox, step).0);
    OutboxLedger.StepKeeps(s.outbox, step);
    forall source: nat ensures AlertsMatch(s'.outbox, source, Of(s'.log, source)) {
      assert AlertsMatch(s.outbox, source, Of(s.log, source));
      OutboxKeepsAlerts(s.outbox, step, source, Of(s.log, source));
    }
  }

  lemma SameHealth(s: State, s': State)
    requires HealthOk(s) && s'.log == s.log && s'.health == s.health
    ensures forall source: nat :: HealthOf(s', source) == ExpectedHealth(Of(s'.log, source))
  {
    forall source: nat ensures HealthOf(s', source) == ExpectedHealth(Of(s'.log, source)) {
      assert HealthOf(s', source) == HealthOf(s, source);
    }
  }

  lemma {:induction false} RunKeepsHealth(s: State, steps: seq<Step>)
    requires HealthOk(s) && forall k | 0 <= k < |steps| :: Foreign(steps[k])
    ensures HealthOk(Run(s, steps))
    decreases |steps|
  {
    if steps != [] {
      StepKeepsHealth(s, steps[0]);
      RunKeepsHealth(Do(s, steps[0]).0, steps[1..]);
    }
  }

  // The stored counter, episode and last task are those of the history; there is one alert per
  // maximal failure run of at least three, raised by its third task, and no other.
  lemma HealthFollowsHistory(steps: seq<Step>, source: nat)
    requires forall k | 0 <= k < |steps| :: Foreign(steps[k])
    ensures var s := Run(Empty, steps);
            var os := Of(s.log, source);
            && HealthOf(s, source) == ExpectedHealth(os)
            && (forall t: nat ::
                  EventOf(s.outbox, Events.FailureEpisode(source, t)).Some?
                  <==> exists k: nat :: StartsEpisode(os, k) && os[k].task == t)
            && (forall k: nat | StartsEpisode(os, k) ::
                  SnapshotOf(EventOf(s.outbox, Events.FailureEpisode(source, os[k].task)))
                  == Some(Events.EpisodeSnapshot(3, os[k + 2].task)))
            && OutboxLedger.UniqueEvents(s.outbox)
  {
    EmptyIsHealthy();
    RunKeepsHealth(Empty, steps);
    assert AlertsMatch(Run(Empty, steps).outbox, source, Of(Run(Empty, steps).log, source));
  }

  lemma EmptyIsHealthy()
    ensures HealthOk(Empty)
  {
  }

  // The log is what it says: one outcome per finalised task, agreeing with the table of collection tasks.
  lemma LogIsFaithful(steps: seq<Step>, id: nat)
    requires forall k | 0 <= k < |steps| :: Foreign(steps[k])
    requires id < |Run(Empty, steps).tasks|
    ensures var s := Run(Empty, steps);
            && (Final(s.tasks[id]) <==> exists k: nat :: k < |s.log| && s.log[k].task == id)
            && (forall k: nat | k < |s.log| && s.log[k].task == id ::
                  s.log[k] == Outcome(id, s.tasks[id].source, s.tasks[id].status.Succeeded?))
            && (forall j: nat, k: nat | j < k < |s.log| :: s.log[j].task != s.log[k].task)
            && (forall j: nat | j < |s.tasks| && j != id && Active(s.tasks[j]) && Active(s.tasks[id]) ::
                  s.tasks[j].source != s.tasks[id].source)
  {
    EmptyIsHealthy();
    RunKeepsHealth(Empty, steps);
  }

  // Finalising again changes nothing. The outcome recorder alone is weaker: called again for a
  // finalised task it changes nothing exactly when that task is the last one it processed.
  lemma FinalisingAgainChangesNothing(s: State, id: nat, returncode: int, now: Instant, returncode2: int, later: Instant)
    requires HealthOk(s)
    ensures var s1 := FinishFromItems(s, id, returncode, now).0;
            FinishFromItems(s1, id, returncode2, later).0 == s1
  {
    FinishKeeps(s, id, returncode, now);
    if id < |s.tasks| && !Final(s.tasks[id]) {
      assert Final(FinishFromItems(s, id, returncode, now).0.tasks[id]);
    }
  }

  lemma RecordingAgainExact(s: State, id: nat, now: Instant)
    requires id < |s.tasks| && s.tasks[id].source in s.sources && Final(s.tasks[id]) && !LosesEpisode(s, id)
    ensures RecordOutcome(s, id, now) == s <==> HealthOf(s, s.tasks[id].source).lastProcessed == Some(id)
  {
    var source := s.tasks[id].source;
    if HealthOf(s, source).lastProcessed != Some(id) {
      assert HealthOf(RecordOutcome(s, id, now), source).lastProcessed == Some(id);
    }
  }
}
