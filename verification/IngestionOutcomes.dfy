/** What an ingestion writes, told from the payload and the tables: the policy row, the discovery, the
    version, the bytes of its files, the batch and the task item; and which policy it goes to. */
module IngestionOutcomes {
  import opened Wrappers
  import opened Text
  import opened Normalize
  import opened AttachmentNames
  import opened Ingestion
  import opened IngestionIdentity
  import opened IngestionFiles
  import opened IngestionExact
  import opened IngestionRuns

  // ---------- Refusals ----------

  // The answer to a payload that is refused, by the checks in their order.
  lemma RefusalExact(s: State, payload: Payload)
    ensures Refusal(s, payload) == (if payload.channel !in s.channels then Some(UnknownChannel)
                                    else if payload.url.None? then Some(BadUrl)
                                    else if Words(payload.title) == [] then Some(BlankTitle)
                                    else if payload.publishedOn.NotIso? || payload.deadlineOn.NotIso? then Some(BadDate)
                                    else None)
  {
    BlankExact(payload.title);
  }

  // ---------- The policy row ----------

  // The row carries what the payload says.
  predicate Carries(row: Policy, payload: Payload) {
    && row.title == NormalizeText(payload.title)
    && row.documentNumber == (if payload.documentNumber.Some? && Words(payload.documentNumber.value) != []
                              then Some(NormalizeText(payload.documentNumber.value)) else None)
    && row.publishedOn == (if payload.publishedOn.On? then Some(payload.publishedOn.day) else None)
    && row.deadlineOn == (if payload.deadlineOn.On? then Some(payload.deadlineOn.day) else None)
  }

  lemma TitledCarries(row: Policy, payload: Payload)
    ensures Carries(Titled(row, payload), payload) && Titled(row, payload).currentVersion == row.currentVersion
  {
    BlankExact(payload.documentNumber.GetOr(""));
  }

  // The discovery of the payload's URL on its channel, after a visit.
  ghost predicate DiscoveryKept(s: State, ds': seq<Discovery>, payload: Payload, policy: nat, now: Instant) {
    payload.url.Some? && payload.channel in s.channels &&
    if exists i: nat :: i < |s.discoveries| && s.discoveries[i].channel == payload.channel && s.discoveries[i].url == payload.url.value
    then
      exists i: nat :: i < |s.discoveries| && s.discoveries[i].channel == payload.channel && s.discoveries[i].url == payload.url.value
                       && ds' == s.discoveries[i := s.discoveries[i].(lastSeen := now)]
    else
      ds' == s.discoveries + [Discovery(policy, s.channels[payload.channel], payload.channel, payload.originalUrl,
                                        payload.url.value, now, now)]
  }

  lemma VisitKeepsDiscovery(s: State, payload: Payload, policy: nat, now: Instant)
    requires Refusal(s, payload).None?
    ensures DiscoveryKept(s, Visited(s.discoveries, policy, s.channels[payload.channel], payload, now), payload, policy, now)
  {
  }

  // What a committed attempt leaves in the policy and discovery tables.
  ghost predicate VisitStored(s: State, s': State, payload: Payload, policy: nat, createdPolicy: bool, current: Option<nat>, now: Instant) {
    && policy in s'.policies && Carries(s'.policies[policy], payload) && s'.policies[policy].currentVersion == current
    && (createdPolicy <==> policy !in s.policies) && s'.policies.Keys == s.policies.Keys + {policy}
    && (forall q | q in s.policies && q != policy :: s'.policies[q] == s.policies[q])
    && DiscoveryKept(s, s'.discoveries, payload, policy, now)
    && s'.channels == s.channels
  }

  lemma RecordedStores(s: State, payload: Payload, now: Instant)
    requires KeysOk(s) && Refusal(s, payload).None?
    ensures MatchedBy(s, payload).Some? ==> MatchedBy(s, payload).value in s.policies
    ensures var m := MatchedBy(s, payload);
            VisitStored(s, Recorded(s, payload, m, now), payload, m.GetOr(s.nextPolicy), m.None?,
                        if m.Some? then s.policies[m.value].currentVersion else None, now)
  {
    MatchedIsPolicy(s, payload);
    var m := MatchedBy(s, payload);
    TitledCarries(if m.Some? then s.policies[m.value] else Untitled, payload);
    VisitKeepsDiscovery(s, payload, m.GetOr(s.nextPolicy), now);
  }

  // The policy that an attempt is answered with carries the payload's title, number and days; other
  // policies stay as they were, and the channel has seen the URL now.
  lemma CommittedVisit(names: Namer, s: State, payload: Payload, faults: Faults, now: Instant)
    requires KeysOk(s) && Attempted(names, s, payload, faults, now).reply.Ingested?
    ensures var a := Attempted(names, s, payload, faults, now);
            VisitStored(s, a.tables, payload, a.reply.policy, a.reply.createdPolicy,
                        if a.reply.createdVersion then Some(a.reply.version)
                        else if a.reply.policy in s.policies then s.policies[a.reply.policy].currentVersion else None, now)
  {
    AttemptIs(names, s, payload, faults, now);
    VisitOfCommit(s, payload, now, Attempted(names, s, payload, faults, now));
  }

  lemma VisitOfCommit(s: State, payload: Payload, now: Instant, a: Attempt)
    requires KeysOk(s) && Refusal(s, payload).None? && a.reply.Ingested?
    requires MatchedBy(s, payload).Some? ==> MatchedBy(s, payload).value in s.policies
    requires Commits(s, payload, now, a)
    ensures VisitStored(s, a.tables, payload, a.reply.policy, a.reply.createdPolicy,
                        if a.reply.createdVersion then Some(a.reply.version)
                        else if a.reply.policy in s.policies then s.policies[a.reply.policy].currentVersion else None, now)
  {
    RecordedStores(s, payload, now);
    RecordedIs(s, payload, MatchedBy(s, payload), now);
  }

  // On every run, by either entry point: what a committed call leaves of policy, discovery and item.
  lemma IngestionCarriesPayload(names: Namer, steps: seq<Step>, step: Step)
    requires step.IngestStep? || step.MarkStep?
    requires Do(names, Run(names, Empty, steps), step).1.Ingested?
    ensures var s := Run(names, Empty, steps);
            var (s', reply) := Do(names, s, step);
            && VisitStored(s, s', step.payload, reply.policy, reply.createdPolicy,
                           if reply.createdVersion then Some(reply.version)
                           else if reply.policy in s.policies then s.policies[reply.policy].currentVersion else None, step.now)
            && (if step.MarkStep? then ItemMarked(s, s', step.payload, reply.policy) else s'.items == s.items)
  {
    var s := Run(names, Empty, steps);
    RunKeepsIdentity(names, Empty, steps);
    CallIngests(names, s, step);
    CommittedVisit(names, s, step.payload, step.faults, step.now);
    if step.MarkStep? { MarkMarks(names, s, step); }
  }

  // The item of the payload's task, channel and URL succeeded with this policy; no other changed.
  ghost predicate ItemMarked(s: State, s': State, payload: Payload, policy: nat) {
    && |s'.items| == |s.items|
    && exists i: nat ::
         && i < |s.items| && s.items[i].task == payload.task && s.items[i].channel == payload.channel
         && s.items[i].originalUrl == payload.originalUrl
         && s'.items == s.items[i := s.items[i].(status := Succeeded, policy := Some(policy))]
  }

  lemma CallIngests(names: Namer, s: State, step: Step)
    requires (step.IngestStep? || step.MarkStep?) && Do(names, s, step).1.Ingested?
    ensures var a := Attempted(names, s, step.payload, step.faults, step.now);
            a.reply == Do(names, s, step).1 && Do(names, s, step).0 == a.tables.(items := Do(names, s, step).0.items)
    ensures step.IngestStep? ==> Do(names, s, step).0.items == s.items
  {
    AttemptKeepsItems(names, s, step.payload, step.faults, step.now);
  }

  lemma MarkMarks(names: Namer, s: State, step: Step)
    requires step.MarkStep? && Do(names, s, step).1.Ingested?
    ensures ItemMarked(s, Do(names, s, step).0, step.payload, Do(names, s, step).1.policy)
  {
    AttemptKeepsItems(names, s, step.payload, step.faults, step.now);
    var i := FindItem(s.items, step.payload).value;
    assert SameItem(s.items[i], step.payload.task, step.payload.channel, step.payload.originalUrl);
  }

  // ---------- Entry points ----------

  ghost predicate HasItem(s: State, payload: Payload) {
    exists i | i in s.items :: i.task == payload.task && i.channel == payload.channel && i.originalUrl == payload.originalUrl
  }

  // A call answers as its transaction does, unless it lacks its lock or its item, and then it does
  // nothing, or its lock is not released after the commit; and then what was committed stays.
  lemma CallAnswers(names: Namer, s: State, step: Step)
    requires step.IngestStep? || step.MarkStep?
    ensures var a := Attempted(names, s, step.payload, step.faults, step.now);
            var (s', reply) := Do(names, s, step);
            if step.faults.lockFails then s' == s && reply == LockTimeout
            else if step.MarkStep? && !HasItem(s, step.payload) then s' == s && reply == NoTaskItem
            else if !a.reply.Ingested? then
              && reply == a.reply && s' == s.(nextPolicy := a.tables.nextPolicy, files := s'.files, cleanups := s'.cleanups)
            else
              && reply == (if step.faults.releaseFails then ReleaseFailed else a.reply)
              && (step.IngestStep? ==> s' == a.tables)
              && (step.MarkStep? ==> s' == a.tables.(items := s'.items, cleanups := s'.cleanups)
                                     && ItemMarked(s, s', step.payload, a.reply.policy))
  {
    AttemptKeepsItems(names, s, step.payload, step.faults, step.now);
    var item := FindItem(s.items, step.payload);
    if item.Some? { assert s.items[item.value] in s.items; }
  }

  predicate SamePlace(i: Item, j: Item) {
    i.task == j.task && i.channel == j.channel && i.originalUrl == j.originalUrl
  }

  ghost predicate ItemsDiffer(items: seq<Item>) {
    forall i: nat, j: nat | i < j < |items| :: !SamePlace(items[i], items[j])
  }

  // Items stay in their places, and at most one is added, in a new place.
  ghost predicate ItemsGrow(items: seq<Item>, items': seq<Item>) {
    && |items| <= |items'| <= |items| + 1
    && (forall i: nat | i < |items| :: SamePlace(items[i], items'[i]))
    && (|items'| > |items| ==> forall i: nat | i < |items| :: !SamePlace(items[i], items'[|items|]))
  }

  lemma StepGrowsItems(names: Namer, s: State, step: Step)
    ensures ItemsGrow(s.items, Do(names, s, step).0.items)
  {
    if step.IngestStep? || step.MarkStep? {
      CallMarksOne(names, s, step);
      MarkedGrow(s.items, Do(names, s, step).0.items);
    } else if step.AddItemStep? {
      assert forall i: nat | i < |s.items| :: s.items[i] in s.items;
    }
  }

  lemma CallMarksOne(names: Namer, s: State, step: Step)
    requires step.IngestStep? || step.MarkStep?
    ensures OneMarked(s.items, Do(names, s, step).0.items)
  {
    CallAnswers(names, s, step);
    AttemptKeepsItems(names, s, step.payload, step.faults, step.now);
  }

  ghost predicate OneMarked(items: seq<Item>, items': seq<Item>) {
    items' == items
    || exists i: nat, policy: nat :: i < |items| && items' == items[i := items[i].(status := Succeeded, policy := Some(policy))]
  }

  lemma MarkedGrow(items: seq<Item>, items': seq<Item>)
    requires OneMarked(items, items')
    ensures ItemsGrow(items, items')
  {
  }

  lemma GrownDiffer(items: seq<Item>, items': seq<Item>)
    requires ItemsDiffer(items) && ItemsGrow(items, items')
    ensures ItemsDiffer(items')
  {
    forall i: nat, j: nat | i < j < |items'| ensures !SamePlace(items'[i], items'[j]) {
      assert SamePlace(items[i], items'[i]);
      if j < |items| { assert !SamePlace(items[i], items[j]) && SamePlace(items[j], items'[j]); }
    }
  }

  // A task has one item for each channel and URL.
  lemma {:induction false} RunKeepsItems(names: Namer, s: State, steps: seq<Step>)
    requires ItemsDiffer(s.items)
    ensures ItemsDiffer(Run(names, s, steps).items)
    decreases |steps|
  {
    if steps != [] {
      StepGrowsItems(names, s, steps[0]);
      GrownDiffer(s.items, Do(names, s, steps[0]).0.items);
      RunKeepsItems(names, Do(names, s, steps[0]).0, steps[1..]);
    }
  }

  // ---------- Which policy a payload goes to ----------

  ghost predicate UrlSeen(s: State, payload: Payload) {
    exists d | d in s.discoveries :: payload.url == Some(d.url) && d.policy in s.policies
  }

  ghost predicate NumberKnown(s: State, payload: Payload) {
    exists p | p in s.policies :: NumberOf(payload).Some? && s.policies[p].documentNumber == NumberOf(payload)
  }

  ghost predicate TitledThatDay(s: State, p: nat, title: string, day: Date) {
    p in s.policies && s.policies[p].title == title && s.policies[p].publishedOn == Some(day)
  }

  lemma MatchesByTitle(s: State, payload: Payload, day: Date)
    requires KeysOk(s) && payload.url.Some? && payload.publishedOn == On(day)
    requires !UrlSeen(s, payload) && !NumberKnown(s, payload)
    ensures var m, title := MatchedBy(s, payload), NormalizeText(payload.title);
            && (forall p: nat | TitledThatDay(s, p, title, day) :: m.Some? && m.value <= p && TitledThatDay(s, m.value, title, day))
            && (m.Some? ==> m.value in s.policies)
  {
    var title := NormalizeText(payload.title);
    forall p: nat ensures !SeenUnder(s, payload.url.value)(p) {}
    if NumberOf(payload).Some? {
      forall p: nat ensures !NumberedAs(s, NumberOf(payload).value)(p) {}
    }
    forall p: nat ensures TitledOn(s, title, day)(p) <==> TitledThatDay(s, p, title, day) {}
    var r := ByTitleAndDate(s, title, day);
    assert r.None? ==> forall j: nat | j < s.nextPolicy :: !TitledOn(s, title, day)(j);
  }

  // Two payloads with the same title, word for word, and the same day of publication, neither known
  // by its URL or its number, go to one policy, whatever happens between that retitles none of them.
  lemma SameTitleSamePolicy(names: Namer, steps: seq<Step>, first: Step, between: seq<Step>, second: Step, day: Date)
    requires (first.IngestStep? || first.MarkStep?) && (second.IngestStep? || second.MarkStep?)
    requires first.payload.publishedOn == On(day) && second.payload.publishedOn == On(day)
    requires Words(first.payload.title) == Words(second.payload.title)
    requires var s := Run(names, Empty, steps); !UrlSeen(s, first.payload) && !NumberKnown(s, first.payload)
    requires var s1 := Do(names, Run(names, Empty, steps), first).0;
             var t := Run(names, s1, between);
             && !UrlSeen(t, second.payload) && !NumberKnown(t, second.payload)
             && NoneRetitled(s1, t, NormalizeText(first.payload.title), day)
    requires Do(names, Run(names, Empty, steps), first).1.Ingested?
    requires Do(names, Run(names, Do(names, Run(names, Empty, steps), first).0, between), second).1.Ingested?
    ensures var (s1, r1) := Do(names, Run(names, Empty, steps), first);
            var r2 := Do(names, Run(names, s1, between), second).1;
            r2.policy == r1.policy && !r2.createdPolicy
  {
    var s := Run(names, Empty, steps);
    var s1, r1 := Do(names, s, first).0, Do(names, s, first).1;
    RunKeepsIdentity(names, Empty, steps);
    StepKeepsIdentity(names, s, first);
    RunKeepsIdentity(names, s1, between);
    SameNormalExact(first.payload.title, second.payload.title);
    FirstIsLeast(names, steps, first, day);
    StaysLeast(names, s1, Run(names, s1, between), second, r1.policy, day);
  }

  // None of the policies of that time has gained or lost the title and day since.
  ghost predicate NoneRetitled(s: State, t: State, title: string, day: Date) {
    forall p: nat | p < s.nextPolicy :: TitledThatDay(s, p, title, day) <==> TitledThatDay(t, p, title, day)
  }

  lemma StaysLeast(names: Namer, s: State, t: State, second: Step, p: nat, day: Date)
    requires KeysOk(s) && KeysOk(t) && (second.IngestStep? || second.MarkStep?) && second.payload.publishedOn == On(day)
    requires !UrlSeen(t, second.payload) && !NumberKnown(t, second.payload) && Do(names, t, second).1.Ingested?
    requires NoneRetitled(s, t, NormalizeText(second.payload.title), day)
    requires TitledThatDay(s, p, NormalizeText(second.payload.title), day)
    requires forall q: nat | TitledThatDay(s, q, NormalizeText(second.payload.title), day) :: p <= q
    ensures Do(names, t, second).1.policy == p && !Do(names, t, second).1.createdPolicy
  {
    var title := NormalizeText(second.payload.title);
    assert p < s.nextPolicy;
    forall q: nat | TitledThatDay(t, q, title, day) ensures p <= q {
      if q < s.nextPolicy { assert TitledThatDay(s, q, title, day); }
    }
    LeastIsMatched(names, t, second, p, day);
  }

  lemma LeastIsMatched(names: Namer, t: State, second: Step, p: nat, day: Date)
    requires KeysOk(t) && (second.IngestStep? || second.MarkStep?) && second.payload.publishedOn == On(day)
    requires !UrlSeen(t, second.payload) && !NumberKnown(t, second.payload) && Do(names, t, second).1.Ingested?
    requires TitledThatDay(t, p, NormalizeText(second.payload.title), day)
    requires forall q: nat | TitledThatDay(t, q, NormalizeText(second.payload.title), day) :: p <= q
    ensures Do(names, t, second).1.policy == p && !Do(names, t, second).1.createdPolicy
  {
    CallIngests(names, t, second);
    AttemptIs(names, t, second.payload, second.faults, second.now);
    MatchesByTitle(t, second.payload, day);
  }

  // The policy of the first call is the least of that title and day afterwards.
  lemma FirstIsLeast(names: Namer, steps: seq<Step>, first: Step, day: Date)
    requires (first.IngestStep? || first.MarkStep?) && first.payload.publishedOn == On(day)
    requires var s := Run(names, Empty, steps); !UrlSeen(s, first.payload) && !NumberKnown(s, first.payload)
    requires Do(names, Run(names, Empty, steps), first).1.Ingested?
    ensures var (s1, r1) := Do(names, Run(names, Empty, steps), first);
            var title := NormalizeText(first.payload.title);
            && TitledThatDay(s1, r1.policy, title, day)
            && forall p: nat | TitledThatDay(s1, p, title, day) :: r1.policy <= p
  {
    var s := Run(names, Empty, steps);
    RunKeepsIdentity(names, Empty, steps);
    IngestionCarriesPayload(names, steps, first);
    CallIngests(names, s, first);
    AttemptIs(names, s, first.payload, first.faults, first.now);
    VisitedIsLeast(s, Do(names, s, first).0, first.payload, Do(names, s, first).1, first.now, day);
  }

  lemma VisitedIsLeast(s: State, s1: State, payload: Payload, r1: Reply, now: Instant, day: Date)
    requires KeysOk(s) && payload.url.Some? && payload.publishedOn == On(day) && !UrlSeen(s, payload) && !NumberKnown(s, payload)
    requires r1.Ingested? && r1.policy == MatchedBy(s, payload).GetOr(s.nextPolicy)
    requires exists current :: VisitStored(s, s1, payload, r1.policy, r1.createdPolicy, current, now)
    ensures var title := NormalizeText(payload.title);
            && TitledThatDay(s1, r1.policy, title, day)
            && forall p: nat | TitledThatDay(s1, p, title, day) :: r1.policy <= p
  {
    var title := NormalizeText(payload.title);
    MatchesByTitle(s, payload, day);
    forall p: nat | TitledThatDay(s1, p, title, day) ensures r1.policy <= p {
      if p != r1.policy { assert TitledThatDay(s, p, title, day); }
    }
  }

  // ---------- The version and its files ----------

  // What a new version leaves: its row, its snapshot's bytes, and its evaluation batch.
  ghost predicate VersionStored(s: State, s': State, payload: Payload, published: bool, policy: nat, now: Instant) {
    && |s'.versions| == |s.versions| + 1 && s'.versions[..|s.versions|] == s.versions
    && var v := s'.versions[|s.versions|];
    && v.policy == policy && v.number == CountOf(s.versions, policy) + 1
    && v.title == NormalizeText(payload.title) && v.bodyText == payload.bodyText && v.bodyHtml == payload.bodyHtml
    && v.content == NormalizeText(payload.title) + "\n" + NormalizeText(payload.bodyText) && v.collectedAt == now
    && v.snapshot == SnapshotPath(policy, v.number)
    && v.snapshot in s'.files && s'.files[v.snapshot] == payload.rawHtml
    && s'.batches == (if published then s.batches + [|s.versions|] else s.batches)
  }

  lemma SavesKeepSnapshot(
    names: Namer, v: NewVersion, b: Saved, as': seq<AttachmentPayload>, fates: seq<Fate>, n: nat, path: FilePath)
    requires n <= |as'| && path.SnapshotPath? && path in b.files
    ensures var b' := SaveFirst(names, v, b, as', fates, n); path in b'.files && b'.files[path] == b.files[path]
  {
    var p := (x: Saved) => path in x.files && x.files[path] == b.files[path];
    forall x: Saved, k: nat | k < n && p(x) ensures p(SaveOne(names, v, x, as'[k], FateOf(fates, k))) {
      OneKeepsSnapshot(names, v, x, as'[k], FateOf(fates, k), path);
    }
    SavesKeep(names, v, b, as', fates, 0, n, p);
  }

  lemma OneKeepsSnapshot(names: Namer, v: NewVersion, x: Saved, a: AttachmentPayload, fate: Fate, path: FilePath)
    requires path.SnapshotPath? && path in x.files
    ensures var x' := SaveOne(names, v, x, a, fate); path in x'.files && x'.files[path] == x.files[path]
  {
  }

  lemma CommittedVersion(names: Namer, s: State, payload: Payload, faults: Faults, now: Instant)
    requires IdentityOk(s) && CommitsVersion(names, s, payload, faults)
    ensures var a := Attempted(names, s, payload, faults, now);
            a.reply.Ingested? && VersionStored(s, a.tables, payload, faults.rulePublished, a.reply.policy, now)
  {
    CommittedReply(names, s, payload, faults, now);
    var s1 := NewContentIsNumbered(names, s, payload, faults, now);
    var policy, v := TargetPolicy(s, payload), NewVersionOf(s, TargetPolicy(s, payload));
    RecordedIs(s, payload, MatchedBy(s, payload), now);
    MaxIsCount(s.versions, policy);
    NewVersionStored(names, s, s1, policy, payload, faults, now, MatchedBy(s, payload).None?);
  }

  lemma NewVersionStored(
    names: Namer, s: State, s1: State, policy: nat, payload: Payload, faults: Faults, now: Instant, created: bool)
    requires policy in s1.policies && s1.versions == s.versions && s1.batches == s.batches && s1.files == s.files
    requires MaxNumber(s.versions, policy) == CountOf(s.versions, policy)
    requires Versioned(names, s1, policy, payload, faults, now, created).reply.Ingested?
    ensures VersionStored(s, Versioned(names, s1, policy, payload, faults, now, created).tables, payload, faults.rulePublished,
                          policy, now)
  {
    var v, path := NewVersionOf(s1, policy), NewSnapshot(s1, policy);
    var s2 := s1.(files := s1.files[path := payload.rawHtml]);
    var b, row := AttachedIs(names, s2, policy, payload, faults, now, created, v);
    SavesKeepSnapshot(names, v, Saved(s2.files, [], [path], [], false), payload.attachments, faults.fates, |payload.attachments|,
                      path);
    NormalKeepsWords(payload.title);
  }

  // On every run, by either entry point, under any faults.
  lemma NewVersionCarriesPayload(names: Namer, steps: seq<Step>, step: Step)
    requires step.IngestStep? || step.MarkStep?
    requires Do(names, Run(names, Empty, steps), step).1.Ingested?
    ensures var s := Run(names, Empty, steps);
            var (s', reply) := Do(names, s, step);
            if reply.createdVersion then
              && reply.version == |s.versions| && VersionStored(s, s', step.payload, step.faults.rulePublished, reply.policy, step.now)
            else
              && s'.versions == s.versions && s'.attachments == s.attachments && s'.batches == s.batches && s'.files == s.files
              && reply.version < |s.versions| && s.versions[reply.version].policy == reply.policy
              && Words(s.versions[reply.version].bodyText) == Words(step.payload.bodyText)
  {
    var s := Run(names, Empty, steps);
    RunKeepsIdentity(names, Empty, steps);
    CallIngests(names, s, step);
    AttemptExact(names, s, step.payload, step.faults, step.now);
    var a := Attempted(names, s, step.payload, step.faults, step.now);
    if a.reply.createdVersion {
      CommittedReply(names, s, step.payload, step.faults, step.now);
      CommittedVersion(names, s, step.payload, step.faults, step.now);
    } else {
      OldVersionSays(names, s, step.payload, step.faults, step.now);
    }
  }

  lemma OldVersionSays(names: Namer, s: State, payload: Payload, faults: Faults, now: Instant)
    requires IdentityOk(s)
    requires var r := Attempted(names, s, payload, faults, now).reply; r.Ingested? && !r.createdVersion
    ensures var a := Attempted(names, s, payload, faults, now);
            && a.tables.versions == s.versions && a.tables.attachments == s.attachments && a.tables.batches == s.batches
            && a.tables.files == s.files
            && a.reply.version < |s.versions| && s.versions[a.reply.version].policy == a.reply.policy
            && Words(s.versions[a.reply.version].bodyText) == Words(payload.bodyText)
  {
    AttemptIs(names, s, payload, faults, now);
    RecordedIs(s, payload, MatchedBy(s, payload), now);
    var v := s.versions[Attempted(names, s, payload, faults, now).reply.version];
    ContentTextExact(v.title, v.bodyText, NormalizeText(payload.title), payload.bodyText);
  }

  // ---------- The attachments ----------

  // t is s, cut after n characters.
  predicate CutAfter(t: string, s: string, n: nat) {
    t <= s && |t| == if |s| <= n then |s| else n
  }

  // A row's name is the attachment's in normal form, or "attachment" if it has no word; its URL is
  // the stripped one.
  lemma MetadataExact(cf: char -> string, word: char -> bool, a: AttachmentPayload)
    ensures var m := SafeNames(cf, word).metadata(a);
            && (if Words(a.displayName) == [] then m.displayName == "attachment"
                else CutAfter(m.displayName, NormalizeText(a.displayName), 512))
            && CutAfter(m.sourceUrl, Strip(a.sourceUrl), 65535)
  {
    BlankExact(a.displayName);
  }

  // An attachment ends its ingestion exactly if its URL is blank, or does not parse where its display
  // name says nothing.
  lemma AddressedExactly(cf: char -> string, word: char -> bool, a: AttachmentPayload)
    ensures var names := SafeNames(cf, word);
            Addressed(names, a) <==>
              && Strip(a.sourceUrl) != ""
              && (OwnName(names.metadata(a).displayName) in {"", ".", ".."} ==> a.urlPath.Some?)
  {
  }

  // A stored row holds what its attachment downloaded, under the attachment's cleaned name and URL.
  ghost predicate RowTold(
    names: Namer, v: NewVersion, files: map<FilePath, Bytes>, row: Attachment, as': seq<AttachmentPayload>, fates: seq<Fate>)
  {
    && row.version == v.id
    && exists i: nat ::
         && i < |as'| && names.metadata(as'[i]) == Metadata(row.displayName, row.sourceUrl)
         && (row.storedPath.Some? ==>
               && row.storedPath.value in files && FateOf(fates, i).download == Some(files[row.storedPath.value]))
  }

  ghost predicate RowsTold(names: Namer, v: NewVersion, b: Saved, as': seq<AttachmentPayload>, fates: seq<Fate>) {
    forall row | row in b.rows :: RowTold(names, v, b.files, row, as', fates)
  }

  ghost predicate KeepsBytes(files: map<FilePath, Bytes>, files': map<FilePath, Bytes>) {
    forall path | path in files :: path in files' && files'[path] == files[path]
  }

  lemma PieceKeepsBytes(v: NewVersion, files: map<FilePath, Bytes>, m: Metadata, fate: Fate, filename: string)
    ensures var piece := SaveAs(v, files, m, fate, filename);
            && KeepsBytes(files, piece.files) && |piece.rows| <= 1
            && (forall row | row in piece.rows ::
                  && row.version == v.id && row.displayName == m.displayName && row.sourceUrl == m.sourceUrl
                  && (row.storedPath.Some? ==>
                        row.storedPath.value in piece.files && fate.download == Some(piece.files[row.storedPath.value])))
  {
  }

  lemma OneTold(names: Namer, v: NewVersion, b: Saved, as': seq<AttachmentPayload>, fates: seq<Fate>, k: nat)
    requires k < |as'| && RowsTold(names, v, b, as', fates)
    ensures RowsTold(names, v, SaveOne(names, v, b, as'[k], FateOf(fates, k)), as', fates)
  {
    var a, m, fate := as'[k], names.metadata(as'[k]), FateOf(fates, k);
    if Addressed(names, a) {
      var filename := FilenameFor(names, b.used, a);
      var piece := SaveAs(v, b.files, m, fate, filename);
      PieceKeepsBytes(v, b.files, m, fate, filename);
      forall row | row in b.rows + piece.rows ensures RowTold(names, v, piece.files, row, as', fates) {
        if row in b.rows { ToldStays(names, v, b.files, piece.files, row, as', fates); } else { assert row in piece.rows; }
      }
    }
  }

  lemma ToldStays(
    names: Namer, v: NewVersion, files: map<FilePath, Bytes>, files': map<FilePath, Bytes>, row: Attachment,
    as': seq<AttachmentPayload>, fates: seq<Fate>)
    requires RowTold(names, v, files, row, as', fates) && KeepsBytes(files, files')
    ensures RowTold(names, v, files', row, as', fates)
  {
    var i: nat :| i < |as'| && names.metadata(as'[i]) == Metadata(row.displayName, row.sourceUrl)
      && (row.storedPath.Some? ==> row.storedPath.value in files && FateOf(fates, i).download == Some(files[row.storedPath.value]));
    assert row.storedPath.Some? ==> files'[row.storedPath.value] == files[row.storedPath.value];
  }

  // Every attachment row of a new version belongs to an attachment of the payload and, if it is
  // stored, its file holds the bytes that were downloaded for that attachment.
  lemma AttachmentsTold(
    names: Namer, v: NewVersion, base: map<FilePath, Bytes>, created: seq<FilePath>, as': seq<AttachmentPayload>, fates: seq<Fate>,
    n: nat)
    requires n <= |as'|
    ensures RowsTold(names, v, SaveFirst(names, v, Saved(base, [], created, [], false), as', fates, n), as', fates)
  {
    var b := Saved(base, [], created, [], false);
    var p := (x: Saved) => RowsTold(names, v, x, as', fates);
    forall x: Saved, k: nat | k < n && p(x) ensures p(SaveOne(names, v, x, as'[k], FateOf(fates, k))) {
      OneTold(names, v, x, as', fates, k);
    }
    SavesKeep(names, v, b, as', fates, 0, n, p);
  }

  lemma NewRowsTold(names: Namer, s: State, payload: Payload, faults: Faults, now: Instant)
    requires CommitsVersion(names, s, payload, faults)
    ensures var a := Attempted(names, s, payload, faults, now);
            && |s.attachments| <= |a.tables.attachments| && a.tables.attachments[..|s.attachments|] == s.attachments
            && forall row | row in a.tables.attachments[|s.attachments|..] ::
                 RowTold(names, NewVersionOf(s, TargetPolicy(s, payload)), a.tables.files, row, payload.attachments, faults.fates)
  {
    AttemptExact(names, s, payload, faults, now);
    var s1 := NewContentIsNumbered(names, s, payload, faults, now);
    VersionedRowsTold(names, s1, TargetPolicy(s, payload), payload, faults, now, MatchedBy(s, payload).None?);
  }

  lemma VersionedRowsTold(
    names: Namer, s: State, policy: nat, payload: Payload, faults: Faults, now: Instant, created: bool)
    requires policy in s.policies && Versioned(names, s, policy, payload, faults, now, created).reply.Ingested?
    ensures var a := Versioned(names, s, policy, payload, faults, now, created);
            && |s.attachments| <= |a.tables.attachments| && a.tables.attachments[..|s.attachments|] == s.attachments
            && forall row | row in a.tables.attachments[|s.attachments|..] ::
                 RowTold(names, NewVersionOf(s, policy), a.tables.files, row, payload.attachments, faults.fates)
  {
    var v, path := NewVersionOf(s, policy), NewSnapshot(s, policy);
    var s2 := s.(files := s.files[path := payload.rawHtml]);
    var b, row := AttachedIs(names, s2, policy, payload, faults, now, created, v);
    AttachmentsTold(names, v, s2.files, [path], payload.attachments, faults.fates, |payload.attachments|);
    assert (s.attachments + b.rows)[|s.attachments|..] == b.rows && (s.attachments + b.rows)[..|s.attachments|] == s.attachments;
    assert RowsTold(names, v, b, payload.attachments, faults.fates);
  }

  // No attachment is refused a row: neither its own nor the one that records its failure.
  predicate Recordable(fates: seq<Fate>) {
    forall i | 0 <= i < |fates| :: !fates[i].recordFails
  }

  // The row of attachment i: its cleaned name and URL, and a file exactly if nothing went wrong.
  ghost predicate RowOf(names: Namer, v: NewVersion, row: Attachment, a: AttachmentPayload, fate: Fate) {
    && row.version == v.id && Metadata(row.displayName, row.sourceUrl) == names.metadata(a)
    && (row.storedPath.Some? <==>
          !fate.insertFails && fate.download.Some? && fate.saving.Saves? && !fate.flushFails)
  }

  ghost predicate RowsOf(names: Namer, v: NewVersion, rows: seq<Attachment>, as': seq<AttachmentPayload>, fates: seq<Fate>) {
    |rows| <= |as'| && forall i | 0 <= i < |rows| :: RowOf(names, v, rows[i], as'[i], FateOf(fates, i))
  }

  // One row for each attachment, in their order.
  lemma {:induction false} RowsInOrder(
    names: Namer, v: NewVersion, base: map<FilePath, Bytes>, as': seq<AttachmentPayload>, fates: seq<Fate>, n: nat)
    requires Fresh(names) && NoneOf(base, v) && WholeFates(fates) && Recordable(fates) && n <= |as'|
    requires AllAddressed(names, as', n)
    ensures var b := SaveFirst(names, v, Saved(base, [], [SnapshotPath(v.policy, v.number)], [], false), as', fates, n);
            !b.raised && SavedOk(v, base, b) && |b.rows| == n && RowsOf(names, v, b.rows, as', fates)
  {
    EmptySaved(v, base);
    if n > 0 {
      RowsInOrder(names, v, base, as', fates, n - 1);
      FateIsWhole(fates, n - 1);
      var b0 := Saved(base, [], [SnapshotPath(v.policy, v.number)], [], false);
      NextRow(names, v, base, SaveFirst(names, v, b0, as', fates, n - 1), as', fates, n - 1);
    }
  }

  lemma NextRow(
    names: Namer, v: NewVersion, base: map<FilePath, Bytes>, b: Saved, as': seq<AttachmentPayload>, fates: seq<Fate>, k: nat)
    requires Fresh(names) && NoneOf(base, v) && SavedOk(v, base, b) && !b.raised
    requires k < |as'| && |b.rows| == k && RowsOf(names, v, b.rows, as', fates)
    requires Addressed(names, as'[k]) && !FateOf(fates, k).saving.FailsAfterRename? && Recordable(fates)
    ensures var b' := SaveOne(names, v, b, as'[k], FateOf(fates, k));
            !b'.raised && SavedOk(v, base, b') && |b'.rows| == k + 1 && RowsOf(names, v, b'.rows, as', fates)
  {
    assert !FateOf(fates, k).recordFails;
    var row := RowAdded(names, v, base, b, as'[k], FateOf(fates, k));
    RowsExtend(names, v, b.rows, row, as', fates);
  }

  lemma RowsExtend(
    names: Namer, v: NewVersion, rows: seq<Attachment>, row: Attachment, as': seq<AttachmentPayload>, fates: seq<Fate>)
    requires RowsOf(names, v, rows, as', fates) && |rows| < |as'| && RowOf(names, v, row, as'[|rows|], FateOf(fates, |rows|))
    ensures RowsOf(names, v, rows + [row], as', fates)
  {
  }

  lemma RowAdded(names: Namer, v: NewVersion, base: map<FilePath, Bytes>, b: Saved, a: AttachmentPayload, fate: Fate)
    returns (row: Attachment)
    requires Fresh(names) && NoneOf(base, v) && SavedOk(v, base, b) && !b.raised && Addressed(names, a)
    requires !fate.saving.FailsAfterRename? && !fate.recordFails
    ensures var b' := SaveOne(names, v, b, a, fate);
            !b'.raised && SavedOk(v, base, b') && b'.rows == b.rows + [row] && RowOf(names, v, row, a, fate)
  {
    var filename, m := FilenameFor(names, b.used, a), names.metadata(a);
    FreePath(v, base, b, filename);
    SaveAsIs(v, b.files, m, fate, filename);
    SaveOneKeeps(names, v, base, b, SaveOne(names, v, b, a, fate), a, fate);
    row := Attachment(v.id, m.displayName, m.sourceUrl,
                      if Fine(fate) then Some(AttachmentPath(v.policy, v.number, filename)) else None);
  }

  // ---------- Bytes that stay ----------

  lemma VersionedKeepsBytes(
    names: Namer, s: State, policy: nat, payload: Payload, faults: Faults, now: Instant, created: bool)
    requires policy in s.policies
    ensures KeepsBytes(s.files, Versioned(names, s, policy, payload, faults, now, created).tables.files)
  {
    var path := NewSnapshot(s, policy);
    if path !in s.files && faults.snapshot.Saves? && !faults.flushFails {
      var s2 := s.(files := s.files[path := payload.rawHtml]);
      var v := NewVersionOf(s2, policy);
      var b, row := AttachedIs(names, s2, policy, payload, faults, now, created, v);
      SavesKeepBytes(names, v, Saved(s2.files, [], [path], [], false), payload.attachments, faults.fates);
    }
  }

  lemma SavesKeepBytes(names: Namer, v: NewVersion, b: Saved, as': seq<AttachmentPayload>, fates: seq<Fate>)
    ensures KeepsBytes(b.files, SaveFirst(names, v, b, as', fates, |as'|).files)
  {
    var p := (x: Saved) => KeepsBytes(b.files, x.files);
    forall x: Saved, k: nat | k < |as'| && p(x) ensures p(SaveOne(names, v, x, as'[k], FateOf(fates, k))) {
      var a := as'[k];
      if Addressed(names, a) {
        PieceKeepsBytes(v, x.files, names.metadata(a), FateOf(fates, k), FilenameFor(names, x.used, a));
      }
    }
    SavesKeep(names, v, b, as', fates, 0, |as'|, p);
  }

  lemma AttemptKeepsBytes(names: Namer, s: State, payload: Payload, faults: Faults, now: Instant)
    ensures KeepsBytes(s.files, Attempted(names, s, payload, faults, now).tables.files)
  {
    if Refusal(s, payload).None? {
      var s1 := AttemptBranches(names, s, payload, faults, now);
      VersionedKeepsBytes(names, s1, MatchedBy(s, payload).GetOr(s.nextPolicy), payload, faults, now,
                          MatchedBy(s, payload).None?);
    }
  }

  // A file that a step keeps, it keeps as it is: nothing is ever overwritten.
  lemma StepKeepsBytes(names: Namer, s: State, step: Step, path: FilePath)
    requires path in s.files && path in Do(names, s, step).0.files
    ensures Do(names, s, step).0.files[path] == s.files[path]
  {
    if step.IngestStep? || step.MarkStep? {
      AttemptKeepsBytes(names, s, step.payload, step.faults, step.now);
      CallKeepsBytes(names, s, step, path);
    }
  }

  lemma CallKeepsBytes(names: Namer, s: State, step: Step, path: FilePath)
    requires (step.IngestStep? || step.MarkStep?) && path in s.files && path in Do(names, s, step).0.files
    requires KeepsBytes(s.files, Attempted(names, s, step.payload, step.faults, step.now).tables.files)
    ensures Do(names, s, step).0.files[path] == s.files[path]
  {
    AttemptKeepsItems(names, s, step.payload, step.faults, step.now);
  }

  lemma StepKeepsReferences(names: Namer, s: State, step: Step, path: FilePath)
    requires IdentityOk(s) && Referenced(s, path)
    ensures Referenced(Do(names, s, step).0, path)
  {
    StepExtends(names, s, step);
    AttachmentsGrow(names, s, step);
    MoreReferenced(s, Do(names, s, step).0, path);
  }

  lemma MoreReferenced(s: State, s': State, path: FilePath)
    requires s.versions <= s'.versions && s.attachments <= s'.attachments && Referenced(s, path)
    ensures Referenced(s', path)
  {
    var n := |s.attachments|;
    StoredAppend(s.attachments, s'.attachments[n..]);
    assert s'.attachments == s.attachments + s'.attachments[n..];
    if i: nat :| i < |s.versions| && s.versions[i].snapshot == path { assert s'.versions[i].snapshot == path; }
  }

  lemma AttachmentsGrow(names: Namer, s: State, step: Step)
    ensures s.attachments <= Do(names, s, step).0.attachments
  {
    if step.IngestStep? || step.MarkStep? {
      var a := Attempted(names, s, step.payload, step.faults, step.now);
      if a.reply.Ingested? { AttemptGrows(names, s, step.payload, step.faults, step.now); }
      CallHasEffect(names, s, step, a);
    }
  }

  lemma AttemptGrows(names: Namer, s: State, payload: Payload, faults: Faults, now: Instant)
    requires Attempted(names, s, payload, faults, now).reply.Ingested?
    ensures s.attachments <= Attempted(names, s, payload, faults, now).tables.attachments
  {
    AttemptExact(names, s, payload, faults, now);
    if Attempted(names, s, payload, faults, now).reply.createdVersion {
      NewRowsTold(names, s, payload, faults, now);
      assert s.attachments == Attempted(names, s, payload, faults, now).tables.attachments[..|s.attachments|];
    } else {
      var s1 := AttemptBranches(names, s, payload, faults, now);
    }
  }

  // On careful runs the file of a committed version stays, with the bytes that it was written with.
  lemma {:induction false} CommittedBytesStay(names: Namer, s: State, steps: seq<Step>, path: FilePath)
    requires IdentityOk(s) && FilesOk(s) && Fresh(names) && Referenced(s, path)
    requires forall k | 0 <= k < |steps| :: Careful(steps[k])
    ensures path in s.files && path in Run(names, s, steps).files && Run(names, s, steps).files[path] == s.files[path]
    decreases |steps|
  {
    if steps != [] {
      var s' := Do(names, s, steps[0]).0;
      StepKeepsIdentity(names, s, steps[0]);
      StepKeepsFiles(names, s, steps[0]);
      StepKeepsReferences(names, s, steps[0], path);
      StepKeepsBytes(names, s, steps[0], path);
      CommittedBytesStay(names, s', steps[1..], path);
    }
  }
}
