/** Policy identity: which rows ingestion may create, over every run and under every fault. */
module IngestionIdentity {
  import opened Wrappers
  import opened Normalize
  import opened Ingestion

  // ---------- The invariant ----------

  function CountOf(vs: seq<Version>, policy: nat): nat {
    if vs == [] then 0
    else CountOf(vs[..|vs| - 1], policy) + if vs[|vs| - 1].policy == policy then 1 else 0
  }

  ghost predicate Numbered(vs: seq<Version>) {
    forall i | 0 <= i < |vs| ::
      && vs[i].number == CountOf(vs[..i], vs[i].policy) + 1
      && vs[i].snapshot == SnapshotPath(vs[i].policy, vs[i].number)
      && vs[i].content == ContentText(vs[i].title, vs[i].bodyText)
  }

  ghost predicate DistinctContents(vs: seq<Version>) {
    forall i, j | 0 <= i < j < |vs| && vs[i].policy == vs[j].policy :: vs[i].content != vs[j].content
  }

  ghost predicate IsCurrent(vs: seq<Version>, policy: nat, v: Option<nat>) {
    v.Some? && v.value < |vs| && vs[v.value].policy == policy && vs[v.value].number == CountOf(vs, policy)
  }

  ghost predicate VersionsOk(s: State) {
    && Numbered(s.versions) && DistinctContents(s.versions)
    && (forall i | 0 <= i < |s.versions| :: s.versions[i].policy in s.policies)
  }

  ghost predicate CurrentOk(s: State) {
    forall p | p in s.policies :: IsCurrent(s.versions, p, s.policies[p].currentVersion)
  }

  // One discovery per channel and URL, and one policy per URL across all channels.
  ghost predicate SeenOk(s: State) {
    && (forall i | 0 <= i < |s.discoveries| :: s.discoveries[i].policy in s.policies)
    && (forall i, j | 0 <= i < j < |s.discoveries| && s.discoveries[i].url == s.discoveries[j].url ::
          s.discoveries[i].policy == s.discoveries[j].policy && s.discoveries[i].channel != s.discoveries[j].channel)
  }

  // The next key is above every key in use.
  ghost predicate KeysOk(s: State) {
    forall p | p in s.policies :: p < s.nextPolicy
  }

  ghost predicate IdentityOk(s: State) {
    KeysOk(s) && VersionsOk(s) && CurrentOk(s) && SeenOk(s)
  }

  // ---------- Counting ----------

  lemma CountAppended(vs: seq<Version>, v: Version, policy: nat)
    ensures CountOf(vs + [v], policy) == CountOf(vs, policy) + if v.policy == policy then 1 else 0
  {
    assert (vs + [v])[..|vs|] == vs;
  }

  lemma NumberedPrefix(vs: seq<Version>, n: nat)
    requires Numbered(vs) && n <= |vs|
    ensures Numbered(vs[..n])
  {
    var prefix := vs[..n];
    forall i | 0 <= i < n
      ensures prefix[i].number == CountOf(prefix[..i], prefix[i].policy) + 1
      ensures prefix[i].snapshot == SnapshotPath(prefix[i].policy, prefix[i].number)
      ensures prefix[i].content == ContentText(prefix[i].title, prefix[i].bodyText)
    {
      assert prefix[i] == vs[i] && prefix[..i] == vs[..i];
    }
  }

  lemma {:induction false} MaxIsCount(vs: seq<Version>, policy: nat)
    requires Numbered(vs)
    ensures MaxNumber(vs, policy) == CountOf(vs, policy)
  {
    if vs != [] {
      NumberedPrefix(vs, |vs| - 1);
      MaxIsCount(vs[..|vs| - 1], policy);
    }
  }

  lemma {:induction false} CountGrows(vs: seq<Version>, policy: nat, n: nat)
    requires n <= |vs|
    ensures CountOf(vs[..n], policy) <= CountOf(vs, policy)
  {
    if n < |vs| {
      CountGrows(vs[..|vs| - 1], policy, n);
      assert vs[..|vs| - 1][..n] == vs[..n];
    } else {
      assert vs[..n] == vs;
    }
  }

  lemma CountUpTo(vs: seq<Version>, i: nat)
    requires i < |vs| && vs[i].number == CountOf(vs[..i], vs[i].policy) + 1
    ensures CountOf(vs[..i + 1], vs[i].policy) == vs[i].number
  {
    assert vs[..i + 1] == vs[..i] + [vs[i]];
    CountAppended(vs[..i], vs[i], vs[i].policy);
  }

  lemma LaterNumberIsGreater(vs: seq<Version>, i: nat, j: nat)
    requires Numbered(vs) && i < j < |vs| && vs[i].policy == vs[j].policy
    ensures vs[i].number < vs[j].number
  {
    CountUpTo(vs, i);
    CountGrows(vs[..j], vs[i].policy, i + 1);
    assert vs[..j][..i + 1] == vs[..i + 1];
  }

  lemma NumberAtMostCount(vs: seq<Version>, i: nat)
    requires Numbered(vs) && i < |vs|
    ensures 1 <= vs[i].number <= CountOf(vs, vs[i].policy)
  {
    CountUpTo(vs, i);
    CountGrows(vs, vs[i].policy, i + 1);
  }

  lemma {:induction false} NumberIsUsed(vs: seq<Version>, policy: nat, m: nat) returns (i: nat)
    requires Numbered(vs) && 1 <= m <= CountOf(vs, policy)
    ensures i < |vs| && vs[i].policy == policy && vs[i].number == m
  {
    var n := |vs| - 1;
    if vs[n].policy == policy && vs[n].number == m {
      i := n;
    } else {
      NumberedPrefix(vs, n);
      i := NumberIsUsed(vs[..n], policy, m);
    }
  }

  // ---------- Matching ----------

  // How strongly policy p answers to a payload: by URL, document number, title and day, or title
  // and content; 0 if not at all.
  ghost function Strength(s: State, p: nat, payload: Payload): nat
    requires p in s.policies
  {
    var row, title := s.policies[p], NormalizeText(payload.title);
    if exists d | d in s.discoveries :: d.policy == p && payload.url == Some(d.url) then 4
    else if payload.documentNumber.Some? && Words(payload.documentNumber.value) != []
            && row.documentNumber == Some(NormalizeText(payload.documentNumber.value)) then 3
    else if payload.publishedOn.On? && row.title == title && row.publishedOn == Some(payload.publishedOn.day) then 2
    else if row.title == title
            && exists v | v in s.versions :: v.policy == p && v.content == title + "\n" + NormalizeText(payload.bodyText) then 1
    else 0
  }

  // The match is the oldest among the policies that answer most strongly.
  lemma MatchIsStrongest(s: State, payload: Payload, p: nat)
    requires KeysOk(s) && payload.url.Some? && p in s.policies
    ensures var r := MatchedBy(s, payload);
            && (r.None? ==> Strength(s, p, payload) == 0)
            && (r.Some? ==>
                  && r.value in s.policies && Strength(s, r.value, payload) > 0
                  && (Strength(s, p, payload) < Strength(s, r.value, payload)
                      || (Strength(s, p, payload) == Strength(s, r.value, payload) && r.value <= p)))
  {
    MatchedIsPolicy(s, payload);
    AnswersAlike(s, payload, p);
    var r := MatchedBy(s, payload);
    if r.Some? { AnswersAlike(s, payload, r.value); }
  }

  lemma AnswersAlike(s: State, payload: Payload, p: nat)
    requires payload.url.Some? && p in s.policies
    ensures Strength(s, p, payload) == 4 <==> SeenUnder(s, payload.url.value)(p)
    ensures Strength(s, p, payload) == 3 <==>
              !SeenUnder(s, payload.url.value)(p) && NumberOf(payload).Some? && NumberedAs(s, NumberOf(payload).value)(p)
    ensures Strength(s, p, payload) == 2 <==>
              && !SeenUnder(s, payload.url.value)(p) && !(NumberOf(payload).Some? && NumberedAs(s, NumberOf(payload).value)(p))
              && payload.publishedOn.On? && TitledOn(s, NormalizeText(payload.title), payload.publishedOn.day)(p)
    ensures Strength(s, p, payload) == 1 <==>
              && !SeenUnder(s, payload.url.value)(p) && !(NumberOf(payload).Some? && NumberedAs(s, NumberOf(payload).value)(p))
              && !(payload.publishedOn.On? && TitledOn(s, NormalizeText(payload.title), payload.publishedOn.day)(p))
              && TitledWith(s, NormalizeText(payload.title), ContentOf(payload))(p)
  {
    NormalKeepsWords(payload.title);
    BlankExact(payload.documentNumber.GetOr(""));
  }

  lemma BlankExact(text: string)
    ensures NormalizeText(text) == "" <==> Words(text) == []
  {
    if Words(text) != [] {
      WordsAreWords(text);
      JoinIsTidy(Words(text));
    }
  }

  // ---------- Recording the policy and the discovery ----------

  lemma SeenMeansMatched(s: State, payload: Payload, i: nat)
    requires KeysOk(s) && SeenOk(s) && payload.url.Some? && i < |s.discoveries| && s.discoveries[i].url == payload.url.value
    ensures MatchedBy(s, payload) == Some(s.discoveries[i].policy)
  {
    var url := payload.url.value;
    assert s.discoveries[i] in s.discoveries;
    assert SeenUnder(s, url)(s.discoveries[i].policy);
    var r := ByUrl(s, url);
    assert SeenAt(s, r.value, url);
    var k :| 0 <= k < |s.discoveries| && s.discoveries[k].policy == r.value && s.discoveries[k].url == url;
    if k != i { assert s.discoveries[if k < i then k else i].policy == s.discoveries[if k < i then i else k].policy; }
  }

  lemma MatchedIsPolicy(s: State, payload: Payload)
    requires payload.url.Some?
    ensures MatchedBy(s, payload).Some? ==> MatchedBy(s, payload).value in s.policies
  {
  }

  // Discoveries keep their keys; at most one is added, for a URL's own policy.
  ghost predicate KeepsKeys(s: State, s': State) {
    && |s.discoveries| <= |s'.discoveries| && s.policies.Keys <= s'.policies.Keys
    && (forall i | 0 <= i < |s.discoveries| ::
          && s'.discoveries[i].policy == s.discoveries[i].policy
          && s'.discoveries[i].channel == s.discoveries[i].channel
          && s'.discoveries[i].url == s.discoveries[i].url)
  }

  ghost predicate NewKeyFits(s: State, s': State) {
    && |s'.discoveries| <= |s.discoveries| + 1
    && (forall j | |s.discoveries| <= j < |s'.discoveries| ::
          && s'.discoveries[j].policy in s'.policies
          && forall i | 0 <= i < |s.discoveries| && s.discoveries[i].url == s'.discoveries[j].url ::
               s.discoveries[i].policy == s'.discoveries[j].policy && s.discoveries[i].channel != s'.discoveries[j].channel)
  }

  lemma KeysKeepSeen(s: State, s': State)
    requires SeenOk(s) && KeepsKeys(s, s') && NewKeyFits(s, s')
    ensures SeenOk(s')
  {
  }

  lemma RecordedKeepsKeys(s: State, payload: Payload, now: Instant)
    requires Refusal(s, payload).None?
    ensures MatchedBy(s, payload).Some? ==> MatchedBy(s, payload).value in s.policies
    ensures KeepsKeys(s, Recorded(s, payload, MatchedBy(s, payload), now))
  {
    MatchedIsPolicy(s, payload);
  }

  lemma RecordedKeepsSeen(s: State, payload: Payload, now: Instant)
    requires KeysOk(s) && SeenOk(s) && Refusal(s, payload).None?
    ensures MatchedBy(s, payload).Some? ==> MatchedBy(s, payload).value in s.policies
    ensures SeenOk(Recorded(s, payload, MatchedBy(s, payload), now))
    ensures KeysOk(Recorded(s, payload, MatchedBy(s, payload), now))
  {
    RecordedKeepsKeys(s, payload, now);
    var s' := Recorded(s, payload, MatchedBy(s, payload), now);
    forall i | 0 <= i < |s.discoveries| && s.discoveries[i].url == payload.url.value
      ensures MatchedBy(s, payload) == Some(s.discoveries[i].policy)
    {
      SeenMeansMatched(s, payload, i);
    }
    KeysKeepSeen(s, s');
  }

  // ---------- A new version ----------

  lemma NewVersionNumbered(vs: seq<Version>, v: Version)
    requires Numbered(vs) && v.number == MaxNumber(vs, v.policy) + 1
    requires v.snapshot == SnapshotPath(v.policy, v.number) && v.content == ContentText(v.title, v.bodyText)
    ensures Numbered(vs + [v])
  {
    MaxIsCount(vs, v.policy);
    var vs' := vs + [v];
    forall i | 0 <= i < |vs'|
      ensures vs'[i].number == CountOf(vs'[..i], vs'[i].policy) + 1
      ensures vs'[i].snapshot == SnapshotPath(vs'[i].policy, vs'[i].number)
      ensures vs'[i].content == ContentText(vs'[i].title, vs'[i].bodyText)
    {
      if i < |vs| {
        assert vs'[..i] == vs[..i] && vs'[i] == vs[i];
      } else {
        assert vs'[..i] == vs;
      }
    }
  }

  lemma CurrentElsewhere(vs: seq<Version>, v: Version, policy: nat, c: Option<nat>)
    requires IsCurrent(vs, policy, c) && v.policy != policy
    ensures IsCurrent(vs + [v], policy, c)
  {
    CountAppended(vs, v, policy);
  }

  lemma NewVersionCurrent(vs: seq<Version>, v: Version)
    requires Numbered(vs) && v.number == MaxNumber(vs, v.policy) + 1
    ensures IsCurrent(vs + [v], v.policy, Some(|vs|))
  {
    MaxIsCount(vs, v.policy);
    CountAppended(vs, v, v.policy);
  }

  // The tables of the identity invariant with one more version of a policy.
  ghost predicate AddsVersion(s: State, s': State, policy: nat, v: Version) {
    && policy in s.policies && v.policy == policy && v.number == MaxNumber(s.versions, policy) + 1
    && v.snapshot == SnapshotPath(policy, v.number) && v.content == ContentText(v.title, v.bodyText)
    && FindVersion(s.versions, policy, v.content).None?
    && s'.versions == s.versions + [v] && s'.discoveries == s.discoveries
    && s'.policies == s.policies[policy := s.policies[policy].(currentVersion := Some(|s.versions|))]
    && s'.nextPolicy == s.nextPolicy
  }

  lemma AddsVersionKeepsVersions(s: State, s': State, policy: nat, v: Version)
    requires VersionsOk(s) && AddsVersion(s, s', policy, v)
    ensures VersionsOk(s')
  {
    NewVersionNumbered(s.versions, v);
  }

  lemma AddsVersionKeepsCurrent(s: State, s': State, policy: nat, v: Version)
    requires Numbered(s.versions) && AddsVersion(s, s', policy, v)
    requires forall p | p in s.policies && p != policy :: IsCurrent(s.versions, p, s.policies[p].currentVersion)
    ensures CurrentOk(s')
  {
    NewVersionCurrent(s.versions, v);
    forall p | p in s'.policies ensures IsCurrent(s'.versions, p, s'.policies[p].currentVersion) {
      if p != policy { CurrentElsewhere(s.versions, v, p, s.policies[p].currentVersion); }
    }
  }

  // ---------- A transaction ----------

  lemma RecordedIs(s: State, payload: Payload, m: Option<nat>, now: Instant)
    requires Refusal(s, payload).None? && (m.Some? ==> m.value in s.policies)
    ensures var s' := Recorded(s, payload, m, now);
            && s'.versions == s.versions && s'.attachments == s.attachments && s'.batches == s.batches
            && s'.files == s.files && s'.channels == s.channels && s'.items == s.items && s'.cleanups == s.cleanups
            && s'.policies.Keys == s.policies.Keys + {m.GetOr(s.nextPolicy)}
            && s'.nextPolicy == (if m.Some? then s.nextPolicy else s.nextPolicy + 1)
            && (forall p | p in s.policies && (m.Some? || p != s.nextPolicy) ::
                  s'.policies[p].currentVersion == s.policies[p].currentVersion)
            && (exists i :: 0 <= i < |s'.discoveries| && s'.discoveries[i].channel == payload.channel
                            && s'.discoveries[i].url == payload.url.value)
  {
    var s' := Recorded(s, payload, m, now);
    var found := FindDiscovery(s.discoveries, payload.channel, payload.url.value);
    if found.Some? {
      assert s'.discoveries[found.value].channel == payload.channel;
    } else {
      assert s'.discoveries[|s.discoveries|].channel == payload.channel;
    }
  }

  lemma AttachedIs(
    names: Namer, s: State, policy: nat, payload: Payload, faults: Faults, now: Instant, createdPolicy: bool, v: NewVersion)
    returns (b: Saved, row: Version)
    requires policy in s.policies && v == NewVersion(policy, MaxNumber(s.versions, policy) + 1, |s.versions|)
    ensures b == SaveFirst(names, v, Saved(s.files, [], [SnapshotPath(policy, v.number)], [], false), payload.attachments,
                           faults.fates, |payload.attachments|)
    ensures var a := Attached(names, s, policy, payload, faults, now, createdPolicy);
            && a.created == b.created && a.tables.files == b.files
            && a.reply == (if b.raised then BadAttachmentUrl else if faults.commitFails then DatabaseFailed
                           else Ingested(policy, |s.versions|, createdPolicy, true))
            && (a.reply.Ingested? ==>
                  a.tables == WithVersion(s, policy, row, b, faults.rulePublished))
    ensures row == NewRow(s, policy, payload, now)
  {
    row := NewRow(s, policy, payload, now);
    b := SaveFirst(names, v, Saved(s.files, [], [SnapshotPath(policy, v.number)], [], false), payload.attachments,
                   faults.fates, |payload.attachments|);
  }

  lemma VersionedIs(
    names: Namer, s: State, policy: nat, payload: Payload, faults: Faults, now: Instant, createdPolicy: bool)
    requires policy in s.policies && FindVersion(s.versions, policy, ContentOf(payload)).None?
    requires Versioned(names, s, policy, payload, faults, now, createdPolicy).reply.Ingested?
    ensures var a := Versioned(names, s, policy, payload, faults, now, createdPolicy);
            && a.reply == Ingested(policy, |s.versions|, createdPolicy, true)
            && |a.tables.versions| == |s.versions| + 1
            && AddsVersion(s, a.tables, policy, a.tables.versions[|s.versions|])
            && a.tables.versions[|s.versions|].content == ContentOf(payload)
            && a.tables.channels == s.channels && a.tables.items == s.items && a.tables.cleanups == s.cleanups
  {
  }

  // An accepted payload of no known policy is given the next key.
  predicate TakesKey(s: State, payload: Payload) {
    Refusal(s, payload).None? && MatchedBy(s, payload).None?
  }

  function Spent(s: State, payload: Payload): State {
    if TakesKey(s, payload) then s.(nextPolicy := s.nextPolicy + 1) else s
  }

  // An accepted attempt records the visit, and goes on to number a version if the content is new.
  lemma AttemptBranches(names: Namer, s: State, payload: Payload, faults: Faults, now: Instant) returns (s1: State)
    requires Refusal(s, payload).None?
    ensures MatchedBy(s, payload).Some? ==> MatchedBy(s, payload).value in s.policies
    ensures s1 == Recorded(s, payload, MatchedBy(s, payload), now) && s1.versions == s.versions
    ensures var m := MatchedBy(s, payload);
            var policy := m.GetOr(s.nextPolicy);
            var found := FindVersion(s.versions, policy, ContentOf(payload));
            && policy in s1.policies
            && Attempted(names, s, payload, faults, now)
               == if found.None? then Versioned(names, s1, policy, payload, faults, now, m.None?)
                  else Attempt(s1, [], if faults.commitFails then DatabaseFailed
                                       else Ingested(policy, found.value, m.None?, false))
  {
    MatchedIsPolicy(s, payload);
    s1 := Recorded(s, payload, MatchedBy(s, payload), now);
  }

  // Whether it commits or not, an attempt uses up the key that it gives out.
  lemma AttemptKey(names: Namer, s: State, payload: Payload, faults: Faults, now: Instant)
    ensures Attempted(names, s, payload, faults, now).tables.nextPolicy == Spent(s, payload).nextPolicy
  {
    if Refusal(s, payload).None? {
      var s1 := AttemptBranches(names, s, payload, faults, now);
      VersionedKeepsItems(names, s1, MatchedBy(s, payload).GetOr(s.nextPolicy), payload, faults, now,
                          MatchedBy(s, payload).None?);
    }
  }

  // What an attempt that reaches its commit has done.
  ghost predicate Commits(s: State, payload: Payload, now: Instant, a: Attempt)
    requires Refusal(s, payload).None? && a.reply.Ingested?
    requires MatchedBy(s, payload).Some? ==> MatchedBy(s, payload).value in s.policies
  {
    var m := MatchedBy(s, payload);
    var s1 := Recorded(s, payload, m, now);
    var found := FindVersion(s.versions, a.reply.policy, ContentOf(payload));
    && a.reply.policy == m.GetOr(s.nextPolicy) && a.reply.createdPolicy == m.None?
    && a.reply.createdVersion == found.None?
    && (found.Some? ==> a.tables == s1 && a.reply.version == found.value && a.created == [])
    && (found.None? ==>
          && a.reply.version == |s.versions|
          && |a.tables.versions| == |s.versions| + 1
          && AddsVersion(s1, a.tables, a.reply.policy, a.tables.versions[|s.versions|])
          && a.tables.versions[|s.versions|].content == ContentOf(payload)
          && a.tables.channels == s.channels && a.tables.items == s.items && a.tables.cleanups == s.cleanups)
  }

  lemma AttemptIs(names: Namer, s: State, payload: Payload, faults: Faults, now: Instant)
    requires Attempted(names, s, payload, faults, now).reply.Ingested?
    ensures Refusal(s, payload).None?
    ensures MatchedBy(s, payload).Some? ==> MatchedBy(s, payload).value in s.policies
    ensures Commits(s, payload, now, Attempted(names, s, payload, faults, now))
  {
    var m := MatchedBy(s, payload);
    var s1 := AttemptBranches(names, s, payload, faults, now);
    RecordedIs(s, payload, m, now);
    if FindVersion(s.versions, m.GetOr(s.nextPolicy), ContentOf(payload)).None? {
      VersionedIs(names, s1, m.GetOr(s.nextPolicy), payload, faults, now, m.None?);
    }
  }

  lemma SameCurrentVersions(s: State, s1: State)
    requires VersionsOk(s) && CurrentOk(s) && s1.versions == s.versions && s1.policies.Keys == s.policies.Keys
    requires forall p | p in s.policies :: s1.policies[p].currentVersion == s.policies[p].currentVersion
    ensures VersionsOk(s1) && CurrentOk(s1)
  {
  }

  lemma FoundVersionKeepsIdentity(s: State, payload: Payload, now: Instant, v: nat)
    requires IdentityOk(s) && Refusal(s, payload).None?
    requires v < |s.versions| && s.versions[v].policy == MatchedBy(s, payload).GetOr(s.nextPolicy)
    ensures MatchedBy(s, payload).Some? && MatchedBy(s, payload).value in s.policies
    ensures IdentityOk(Recorded(s, payload, MatchedBy(s, payload), now))
  {
    MatchedIsPolicy(s, payload);
    assert s.versions[v].policy in s.policies;
    VisitKeepsIdentity(s, payload, now, MatchedBy(s, payload).value);
  }

  lemma VisitKeepsIdentity(s: State, payload: Payload, now: Instant, p: nat)
    requires IdentityOk(s) && Refusal(s, payload).None? && MatchedBy(s, payload) == Some(p) && p in s.policies
    ensures IdentityOk(Recorded(s, payload, Some(p), now))
  {
    RecordedKeepsSeen(s, payload, now);
    VisitKeepsCurrent(s, payload, now, p);
  }

  lemma VisitKeepsCurrent(s: State, payload: Payload, now: Instant, p: nat)
    requires VersionsOk(s) && CurrentOk(s) && Refusal(s, payload).None? && p in s.policies
    ensures VersionsOk(Recorded(s, payload, Some(p), now)) && CurrentOk(Recorded(s, payload, Some(p), now))
  {
    RecordedIs(s, payload, Some(p), now);
    SameCurrentVersions(s, Recorded(s, payload, Some(p), now));
  }

  lemma NewVersionKeepsIdentity(s: State, payload: Payload, now: Instant, s1: State, s': State, policy: nat, v: Version)
    requires IdentityOk(s) && Refusal(s, payload).None?
    requires MatchedBy(s, payload).Some? ==> MatchedBy(s, payload).value in s.policies
    requires s1 == Recorded(s, payload, MatchedBy(s, payload), now)
    requires policy == MatchedBy(s, payload).GetOr(s.nextPolicy) && AddsVersion(s1, s', policy, v)
    ensures IdentityOk(s')
  {
    RecordedKeepsSeen(s, payload, now);
    OthersStayCurrent(s, payload, now, s1, policy);
    AddedVersionKeepsIdentity(s1, s', policy, v);
  }

  lemma OthersStayCurrent(s: State, payload: Payload, now: Instant, s1: State, policy: nat)
    requires IdentityOk(s) && Refusal(s, payload).None?
    requires MatchedBy(s, payload).Some? ==> MatchedBy(s, payload).value in s.policies
    requires s1 == Recorded(s, payload, MatchedBy(s, payload), now) && policy == MatchedBy(s, payload).GetOr(s.nextPolicy)
    ensures VersionsOk(s1)
    ensures forall p | p in s1.policies && p != policy :: IsCurrent(s1.versions, p, s1.policies[p].currentVersion)
  {
    RecordedIs(s, payload, MatchedBy(s, payload), now);
  }

  lemma AddedVersionKeepsIdentity(s1: State, s': State, policy: nat, v: Version)
    requires KeysOk(s1) && VersionsOk(s1) && SeenOk(s1) && AddsVersion(s1, s', policy, v) && s'.nextPolicy == s1.nextPolicy
    requires forall p | p in s1.policies && p != policy :: IsCurrent(s1.versions, p, s1.policies[p].currentVersion)
    ensures IdentityOk(s')
  {
    AddsVersionKeepsVersions(s1, s', policy, v);
    AddsVersionKeepsCurrent(s1, s', policy, v);
  }

  lemma AttemptKeepsIdentity(names: Namer, s: State, payload: Payload, faults: Faults, now: Instant)
    requires IdentityOk(s) && Attempted(names, s, payload, faults, now).reply.Ingested?
    ensures IdentityOk(Attempted(names, s, payload, faults, now).tables)
  {
    AttemptIs(names, s, payload, faults, now);
    var a := Attempted(names, s, payload, faults, now);
    var found := FindVersion(s.versions, a.reply.policy, ContentOf(payload));
    if found.Some? {
      FoundVersionKeepsIdentity(s, payload, now, found.value);
    } else {
      var s1 := Recorded(s, payload, MatchedBy(s, payload), now);
      NewVersionKeepsIdentity(s, payload, now, s1, a.tables, a.reply.policy, a.tables.versions[|s.versions|]);
    }
  }

  // ---------- Every step and every run ----------

  predicate SamePolicies(s: State, s': State) {
    && s'.policies == s.policies && s'.discoveries == s.discoveries && s'.versions == s.versions
    && s.nextPolicy <= s'.nextPolicy
  }

  lemma SamePoliciesKeepIdentity(s: State, s': State)
    requires IdentityOk(s) && SamePolicies(s, s')
    ensures IdentityOk(s')
  {
  }

  // A step leaves the policy tables alone or makes them those of a committed attempt.
  lemma StepIs(names: Namer, s: State, step: Step) returns (payload: Payload, faults: Faults, now: Instant)
    ensures SamePolicies(s, Do(names, s, step).0)
            || (Attempted(names, s, payload, faults, now).reply.Ingested?
                && SamePolicies(Attempted(names, s, payload, faults, now).tables, Do(names, s, step).0))
  {
    payload := Payload(0, 0, "", "", None, NoDate, None, NoDate, "", "", "", []);
    faults := Faults(false, Saves, false, [], false, false, false);
    now := 0;
    if step.IngestStep? || step.MarkStep? {
      payload, faults, now := step.payload, step.faults, step.now;
      AttemptKey(names, s, payload, faults, now);
      CallHasEffect(names, s, step, Attempted(names, s, payload, faults, now));
    }
  }

  // What a call makes of its attempt: nothing, a rollback, or a commit.
  predicate CallEffect(s: State, a: Attempt, s': State) {
    || s' == s
    || (!a.reply.Ingested? && s' == RolledBack(s, a.tables).(files := s'.files, cleanups := s'.cleanups)
        && s'.files.Keys <= a.tables.files.Keys)
    || (a.reply.Ingested? && s' == a.tables.(items := s'.items, cleanups := s'.cleanups))
  }

  lemma SettledEffect(s: State, a: Attempt, item: nat, releaseFails: bool)
    requires a.reply.Ingested? ==> item < |a.tables.items|
    ensures CallEffect(s, a, Settled(s, a, item, releaseFails).0)
  {
  }

  lemma CallHasEffect(names: Namer, s: State, step: Step, a: Attempt)
    requires step.IngestStep? || step.MarkStep?
    requires a == Attempted(names, s, step.payload, step.faults, step.now)
    ensures CallEffect(s, a, Do(names, s, step).0)
  {
    if step.MarkStep? {
      AttemptKeepsItems(names, s, step.payload, step.faults, step.now);
      var item := FindItem(s.items, step.payload);
      if item.Some? { SettledEffect(s, a, item.value, step.faults.releaseFails); }
    }
  }

  lemma StepKeepsIdentity(names: Namer, s: State, step: Step)
    requires IdentityOk(s)
    ensures IdentityOk(Do(names, s, step).0)
  {
    var payload, faults, now := StepIs(names, s, step);
    var s' := Do(names, s, step).0;
    if SamePolicies(s, s') {
      SamePoliciesKeepIdentity(s, s');
    } else {
      AttemptKeepsIdentity(names, s, payload, faults, now);
      SamePoliciesKeepIdentity(Attempted(names, s, payload, faults, now).tables, s');
    }
  }

  lemma {:induction false} RunKeepsIdentity(names: Namer, s: State, steps: seq<Step>)
    requires IdentityOk(s)
    ensures IdentityOk(Run(names, s, steps))
    decreases |steps|
  {
    if steps != [] {
      StepKeepsIdentity(names, s, steps[0]);
      RunKeepsIdentity(names, Do(names, s, steps[0]).0, steps[1..]);
    }
  }

  // ---------- Ingesting again ----------

  ghost predicate Known(s: State, payload: Payload, policy: nat, v: nat) {
    && Refusal(s, payload).None?
    && (exists i :: 0 <= i < |s.discoveries| && s.discoveries[i].policy == policy
                    && s.discoveries[i].channel == payload.channel && s.discoveries[i].url == payload.url.value)
    && v < |s.versions| && s.versions[v].policy == policy && s.versions[v].content == ContentOf(payload)
  }

  ghost predicate Extends(s: State, s': State) {
    && KeepsKeys(s, s') && s.versions <= s'.versions
    && (forall c | c in s.channels :: c in s'.channels)
  }

  lemma KnownStays(s: State, s': State, payload: Payload, policy: nat, v: nat)
    requires Known(s, payload, policy, v) && Extends(s, s')
    ensures Known(s', payload, policy, v)
  {
    var i :| 0 <= i < |s.discoveries| && s.discoveries[i].policy == policy
             && s.discoveries[i].channel == payload.channel && s.discoveries[i].url == payload.url.value;
    assert s'.discoveries[i].policy == policy;
  }

  lemma AttemptExtends(names: Namer, s: State, payload: Payload, faults: Faults, now: Instant)
    requires Attempted(names, s, payload, faults, now).reply.Ingested?
    ensures Extends(s, Attempted(names, s, payload, faults, now).tables)
  {
    AttemptIs(names, s, payload, faults, now);
    RecordedKeepsKeys(s, payload, now);
    RecordedIs(s, payload, MatchedBy(s, payload), now);
  }

  lemma EffectExtends(s: State, a: Attempt, s': State)
    requires CallEffect(s, a, s') && (a.reply.Ingested? ==> Extends(s, a.tables))
    ensures Extends(s, s')
  {
  }

  lemma StepExtends(names: Namer, s: State, step: Step)
    ensures Extends(s, Do(names, s, step).0)
  {
    if step.IngestStep? || step.MarkStep? {
      var a := Attempted(names, s, step.payload, step.faults, step.now);
      if a.reply.Ingested? { AttemptExtends(names, s, step.payload, step.faults, step.now); }
      CallHasEffect(names, s, step, a);
      EffectExtends(s, a, Do(names, s, step).0);
    }
  }

  lemma {:induction false} KnownOnRun(names: Namer, s: State, steps: seq<Step>, payload: Payload, policy: nat, v: nat)
    requires Known(s, payload, policy, v)
    ensures Known(Run(names, s, steps), payload, policy, v)
    decreases |steps|
  {
    if steps != [] {
      StepExtends(names, s, steps[0]);
      KnownStays(s, Do(names, s, steps[0]).0, payload, policy, v);
      KnownOnRun(names, Do(names, s, steps[0]).0, steps[1..], payload, policy, v);
    }
  }

  lemma IngestedIsKnown(names: Namer, s: State, payload: Payload, faults: Faults, now: Instant)
    requires IdentityOk(s) && Attempted(names, s, payload, faults, now).reply.Ingested?
    ensures var a := Attempted(names, s, payload, faults, now);
            Known(a.tables, payload, a.reply.policy, a.reply.version)
  {
    AttemptIs(names, s, payload, faults, now);
    var a := Attempted(names, s, payload, faults, now);
    var s1 := Recorded(s, payload, MatchedBy(s, payload), now);
    RecordedIs(s, payload, MatchedBy(s, payload), now);
    RecordedOwner(s, payload, now);
    CommitIsKnown(s, payload, s1, a.tables, a.reply.policy, a.reply.version);
  }

  lemma CommitIsKnown(s: State, payload: Payload, s1: State, s': State, policy: nat, v: nat)
    requires Refusal(s, payload).None? && s'.channels == s.channels && s'.discoveries == s1.discoveries
    requires exists i :: 0 <= i < |s1.discoveries| && s1.discoveries[i].policy == policy
                         && s1.discoveries[i].channel == payload.channel && s1.discoveries[i].url == payload.url.value
    requires v < |s'.versions| && s'.versions[v].policy == policy && s'.versions[v].content == ContentOf(payload)
    ensures Known(s', payload, policy, v)
  {
  }

  // The URL is recorded for the policy that it was matched to.
  lemma RecordedOwner(s: State, payload: Payload, now: Instant)
    requires KeysOk(s) && SeenOk(s) && Refusal(s, payload).None?
    requires MatchedBy(s, payload).Some? ==> MatchedBy(s, payload).value in s.policies
    ensures var s' := Recorded(s, payload, MatchedBy(s, payload), now);
            exists i :: 0 <= i < |s'.discoveries| && s'.discoveries[i].policy == MatchedBy(s, payload).GetOr(s.nextPolicy)
                        && s'.discoveries[i].channel == payload.channel && s'.discoveries[i].url == payload.url.value
  {
    var s' := Recorded(s, payload, MatchedBy(s, payload), now);
    var found := FindDiscovery(s.discoveries, payload.channel, payload.url.value);
    var i := found.GetOr(|s.discoveries|);
    if found.Some? { SeenMeansMatched(s, payload, i); }
    assert s'.discoveries[i].policy == MatchedBy(s, payload).GetOr(s.nextPolicy);
  }

  ghost predicate NoNewRows(s: State, s': State) {
    && s'.policies.Keys == s.policies.Keys && s'.nextPolicy == s.nextPolicy && |s'.discoveries| == |s.discoveries|
    && s'.versions == s.versions && s'.attachments == s.attachments && s'.batches == s.batches && s'.files == s.files
  }

  // The content of a known payload is found under its URL's policy.
  lemma KnownIsMatched(s: State, payload: Payload, policy: nat, v: nat)
    requires IdentityOk(s) && Known(s, payload, policy, v)
    ensures MatchedBy(s, payload) == Some(policy) && policy in s.policies
    ensures FindVersion(s.versions, policy, ContentOf(payload)) == Some(v)
    ensures FindDiscovery(s.discoveries, payload.channel, payload.url.value).Some?
  {
    var i :| 0 <= i < |s.discoveries| && s.discoveries[i].policy == policy
             && s.discoveries[i].channel == payload.channel && s.discoveries[i].url == payload.url.value;
    SeenMeansMatched(s, payload, i);
    var found := FindVersion(s.versions, policy, ContentOf(payload));
    assert found.Some?;
  }

  lemma KnownIsQuiet(names: Namer, s: State, payload: Payload, policy: nat, v: nat, faults: Faults, now: Instant)
    requires IdentityOk(s) && Known(s, payload, policy, v)
    ensures var a := Attempted(names, s, payload, faults, now);
            && NoNewRows(s, a.tables) && a.created == []
            && a.reply == if faults.commitFails then DatabaseFailed else Ingested(policy, v, false, false)
  {
    KnownIsMatched(s, payload, policy, v);
    var s1 := AttemptBranches(names, s, payload, faults, now);
    RecordedIs(s, payload, Some(policy), now);
  }

  predicate IngestsPayload(step: Step, payload: Payload) {
    (step.IngestStep? || step.MarkStep?) && step.payload == payload
  }

  lemma QuietCall(names: Namer, s: State, step: Step, a: Attempt, policy: nat, v: nat)
    requires step.IngestStep? || step.MarkStep?
    requires a == Attempted(names, s, step.payload, step.faults, step.now) && NoNewRows(s, a.tables) && a.created == []
    requires a.reply == if step.faults.commitFails then DatabaseFailed else Ingested(policy, v, false, false)
    ensures NoNewRows(s, Do(names, s, step).0)
    ensures Do(names, s, step).1.Ingested? ==> Do(names, s, step).1 == Ingested(policy, v, false, false)
  {
    assert RemoveAll(s.files, []) == s.files;
  }

  lemma QuietStep(names: Namer, s: State, step: Step, payload: Payload, policy: nat, v: nat)
    requires IdentityOk(s) && Known(s, payload, policy, v) && IngestsPayload(step, payload)
    ensures NoNewRows(s, Do(names, s, step).0)
    ensures Do(names, s, step).1.Ingested? ==> Do(names, s, step).1 == Ingested(policy, v, false, false)
  {
    KnownIsQuiet(names, s, payload, policy, v, step.faults, step.now);
    QuietCall(names, s, step, Attempted(names, s, payload, step.faults, step.now), policy, v);
  }

  // Once a payload has been ingested, ingesting it again at any later time, by either entry point
  // and whatever happens in between, creates no policy, discovery, version, attachment, batch or
  // file, and answers with the same policy and version.
  lemma ReingestionIsQuiet(
    names: Namer, before: seq<Step>, first: Step, between: seq<Step>, again: Step, payload: Payload)
    requires IngestsPayload(first, payload) && IngestsPayload(again, payload)
    requires Do(names, Run(names, Empty, before), first).1.Ingested?
    ensures var (s1, r1) := Do(names, Run(names, Empty, before), first);
            var s2 := Run(names, s1, between);
            var (s3, r3) := Do(names, s2, again);
            && NoNewRows(s2, s3)
            && (r3.Ingested? ==> r3 == Ingested(r1.policy, r1.version, false, false))
  {
    var s := Run(names, Empty, before);
    RunKeepsIdentity(names, Empty, before);
    var s1, r1 := Do(names, s, first).0, Do(names, s, first).1;
    IngestedIsKnown(names, s, payload, first.faults, first.now);
    StepKeepsIdentity(names, s, first);
    assert Known(s1, payload, r1.policy, r1.version) by {
      KnownStays(Attempted(names, s, payload, first.faults, first.now).tables, s1, payload, r1.policy, r1.version);
    }
    RunKeepsIdentity(names, s1, between);
    KnownOnRun(names, s1, between, payload, r1.policy, r1.version);
    QuietStep(names, Run(names, s1, between), again, payload, r1.policy, r1.version);
  }

  // ---------- What identity means ----------

  predicate HasNumber(vs: seq<Version>, policy: nat, m: nat) {
    exists v | v in vs :: v.policy == policy && v.number == m
  }

  // Each policy's versions are numbered exactly 1..n, n at least 1, and the current one has number n.
  lemma NumbersOnEveryRun(names: Namer, steps: seq<Step>, policy: nat, m: nat)
    requires policy in Run(names, Empty, steps).policies
    ensures var s := Run(names, Empty, steps);
            var n := CountOf(s.versions, policy);
            && (HasNumber(s.versions, policy, m) <==> 1 <= m <= n)
            && n >= 1 && IsCurrent(s.versions, policy, s.policies[policy].currentVersion)
  {
    RunKeepsIdentity(names, Empty, steps);
    var s := Run(names, Empty, steps);
    var vs := s.versions;
    NumberAtMostCount(vs, s.policies[policy].currentVersion.value);
    if HasNumber(vs, policy, m) {
      var i :| 0 <= i < |vs| && vs[i].policy == policy && vs[i].number == m;
      NumberAtMostCount(vs, i);
    }
    if 1 <= m <= CountOf(vs, policy) {
      var i := NumberIsUsed(vs, policy, m);
      assert vs[i] in vs;
    }
  }

  // A later version has a higher number and differs from every earlier one in a word of its title or body.
  lemma VersionsDiffer(names: Namer, steps: seq<Step>, i: nat, j: nat)
    requires i < j < |Run(names, Empty, steps).versions|
    requires Run(names, Empty, steps).versions[i].policy == Run(names, Empty, steps).versions[j].policy
    ensures var vs := Run(names, Empty, steps).versions;
            && vs[i].number < vs[j].number
            && !(Words(vs[i].title) == Words(vs[j].title) && Words(vs[i].bodyText) == Words(vs[j].bodyText))
  {
    RunKeepsIdentity(names, Empty, steps);
    var vs := Run(names, Empty, steps).versions;
    LaterNumberIsGreater(vs, i, j);
    ContentTextExact(vs[i].title, vs[i].bodyText, vs[j].title, vs[j].bodyText);
  }

  // Each URL belongs to one policy across all channels, and each channel records it once.
  lemma UrlsOnEveryRun(names: Namer, steps: seq<Step>, i: nat, j: nat)
    requires i < j < |Run(names, Empty, steps).discoveries|
    requires Run(names, Empty, steps).discoveries[i].url == Run(names, Empty, steps).discoveries[j].url
    ensures var ds := Run(names, Empty, steps).discoveries;
            ds[i].policy == ds[j].policy && ds[j].policy in Run(names, Empty, steps).policies && ds[i].channel != ds[j].channel
  {
    RunKeepsIdentity(names, Empty, steps);
  }

  // Content that a policy has had before makes no version: its current version stays the one with
  // the highest number, while its row takes the title of the payload.
  lemma RevertKeepsCurrent(names: Namer, s: State, payload: Payload, faults: Faults, now: Instant, a: Attempt)
    requires IdentityOk(s) && a == Attempted(names, s, payload, faults, now)
    requires a.reply.Ingested? && !a.reply.createdVersion
    ensures a.tables.versions == s.versions && a.reply.policy in a.tables.policies && a.reply.version < |s.versions|
    ensures IsCurrent(s.versions, a.reply.policy, a.tables.policies[a.reply.policy].currentVersion)
    ensures a.tables.policies[a.reply.policy].title == NormalizeText(payload.title)
    ensures s.versions[a.reply.version].number <= CountOf(s.versions, a.reply.policy)
  {
    AttemptIs(names, s, payload, faults, now);
    AttemptKeepsIdentity(names, s, payload, faults, now);
    RecordedIs(s, payload, MatchedBy(s, payload), now);
    NumberAtMostCount(s.versions, a.reply.version);
  }
}
