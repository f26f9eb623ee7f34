/** What the two faults outside the contract of ingestion do: a lock release that fails after the
    commit, and a snapshot write that fails after its rename. */
module IngestionFaults {
  import opened Wrappers
  import opened Ingestion
  import opened IngestionIdentity
  import opened IngestionFiles
  import opened IngestionExact
  import opened IngestionRuns

  // ---------- A cleanup, one removal at a time ----------

  function Cleaning(k: nat, n: nat): seq<Step> {
    seq(n, i => CleanStep(k))
  }

  // Uninterrupted, it removes what `ingest` removes at once.
  lemma {:induction false} CleaningRemovesAll(names: Namer, s: State, k: nat, n: nat)
    requires k < |s.cleanups| && n == |s.cleanups[k]|
    ensures Run(names, s, Cleaning(k, n)) == s.(files := RemoveAll(s.files, s.cleanups[k]), cleanups := s.cleanups[k := []])
    decreases n
  {
    var c := s.cleanups[k];
    if n == 0 {
      assert s.cleanups[k := []] == s.cleanups && RemoveAll(s.files, c) == s.files;
    } else {
      var s1 := CleanUp(s, k);
      assert Cleaning(k, n)[1..] == Cleaning(k, n - 1);
      CleaningRemovesAll(names, s1, k, n - 1);
      assert c == c[..n - 1] + [c[n - 1]];
      assert RemoveAll(s1.files, c[..n - 1]) == RemoveAll(s.files, c);
      assert s1.cleanups[k := []] == s.cleanups[k := []];
    }
  }

  lemma FailedMarkIs(names: Namer, s: State, payload: Payload, faults: Faults, now: Instant, a: Attempt)
    requires !faults.lockFails && FindItem(s.items, payload).Some?
    requires a == Attempted(names, s, payload, faults, now) && !a.reply.Ingested?
    ensures IngestAndMark(names, s, payload, faults, now).0
            == Spent(s, payload).(files := a.tables.files, cleanups := s.cleanups + [a.created])
  {
    AttemptKey(names, s, payload, faults, now);
  }

  // A failed ingest_and_mark_task_item and its cleanup leave tables and files exactly as they were, but
  // for the key that it gave to a new policy.
  lemma FailedMarkRestores(names: Namer, s: State, payload: Payload, faults: Faults, now: Instant)
    requires IdentityOk(s) && FilesOk(s) && Fresh(names) && AllOrNothing(faults)
    requires !faults.lockFails && FindItem(s.items, payload).Some?
    requires !Attempted(names, s, payload, faults, now).reply.Ingested?
    ensures var created := Attempted(names, s, payload, faults, now).created;
            Run(names, IngestAndMark(names, s, payload, faults, now).0, Cleaning(|s.cleanups|, |created|))
            == Spent(s, payload).(cleanups := s.cleanups + [[]])
  {
    var a := Attempted(names, s, payload, faults, now);
    var s1 := IngestAndMark(names, s, payload, faults, now).0;
    FailedMarkIs(names, s, payload, faults, now, a);
    AttemptCleanup(names, s, payload, faults, now, a);
    CleaningRemovesAll(names, s1, |s.cleanups|, |a.created|);
    assert s1.cleanups[|s.cleanups| := []] == s.cleanups + [[]];
  }

  // ---------- The lock's release fails after the commit ----------

  // The version stays committed and current, and its snapshot and attachments are gone.
  lemma ReleaseFailureLosesFiles(names: Namer, s: State, payload: Payload, faults: Faults, now: Instant)
    requires IdentityOk(s) && FilesOk(s) && Fresh(names) && AllOrNothing(faults)
    requires LosesRelease(names, s, payload, faults)
    ensures var a := Attempted(names, s, payload, faults, now);
            var s1 := IngestAndMark(names, s, payload, faults, now).0;
            var s2 := Run(names, s1, Cleaning(|s.cleanups|, |a.created|));
            && |s2.versions| == |s.versions| + 1 && s2.versions[|s.versions|].snapshot !in s2.files
            && (forall row | row in s2.attachments && row.version == |s.versions| && row.storedPath.Some? ::
                  row.storedPath.value !in s2.files)
            && s2.files == s.files
  {
    var a := Attempted(names, s, payload, faults, now);
    var s1 := IngestAndMark(names, s, payload, faults, now).0;
    AttemptFiles(names, s, payload, faults, now, a);
    AttemptExact(names, s, payload, faults, now);
    CleaningRemovesAll(names, s1, |s.cleanups|, |a.created|);
    CleanupRestores(s.files, a.tables.files, a.created);
    var rows := a.tables.attachments[|s.attachments|..];
    assert a.created[0] in a.created;
    forall row | row in s1.attachments && row.version == |s.versions| && row.storedPath.Some?
      ensures row.storedPath.value !in s.files
    {
      assert row in s.attachments || row in rows;
      StoredHasRow(rows, row.storedPath.value);
      assert row.storedPath.value in a.created[1..];
    }
  }

  // ---------- A snapshot write fails after its rename ----------

  // The path of the policy's next version is taken for good.
  ghost predicate Blocked(s: State, policy: nat) {
    policy in s.policies && NewSnapshot(s, policy) in s.files && !PendingAt(s, NewSnapshot(s, policy))
  }

  lemma SaveAsKeepsSnapshot(
    v: NewVersion, files: map<FilePath, Bytes>, m: Metadata, fate: Fate, filename: string, path: FilePath)
    requires path.SnapshotPath? && path in files
    ensures var piece := SaveAs(v, files, m, fate, filename); path in piece.files && path !in piece.created
  {
  }

  lemma SaveOneKeepsSnapshot(
    names: Namer, v: NewVersion, b: Saved, b': Saved, a: AttachmentPayload, fate: Fate, path: FilePath)
    requires path.SnapshotPath? && path in b.files && path !in b.created && b' == SaveOne(names, v, b, a, fate)
    ensures path in b'.files && path !in b'.created
  {
    SaveAsKeepsSnapshot(v, b.files, names.metadata(a), fate, FilenameFor(names, b.used, a), path);
  }

  lemma {:induction false} SavingKeepsSnapshot(
    names: Namer, v: NewVersion, b: Saved, as': seq<AttachmentPayload>, fates: seq<Fate>, n: nat, path: FilePath)
    requires n <= |as'| && path.SnapshotPath? && path in b.files && path !in b.created
    ensures var b' := SaveFirst(names, v, b, as', fates, n); path in b'.files && path !in b'.created
  {
    if n > 0 {
      SavingKeepsSnapshot(names, v, b, as', fates, n - 1, path);
      var before, after := SaveFirst(names, v, b, as', fates, n - 1), SaveFirst(names, v, b, as', fates, n);
      if !before.raised { SaveOneKeepsSnapshot(names, v, before, after, as'[n - 1], FateOf(fates, n - 1), path); }
    }
  }

  lemma MaxElsewhere(vs: seq<Version>, v: Version, policy: nat)
    requires v.policy != policy
    ensures MaxNumber(vs + [v], policy) == MaxNumber(vs, policy)
  {
    assert (vs + [v])[..|vs|] == vs;
  }

  // An attempt leaves a taken path taken, does not note it for cleanup, and does not number past it.
  ghost predicate StaysTaken(s: State, a: Attempt, policy: nat) {
    && NewSnapshot(s, policy) in a.tables.files && NewSnapshot(s, policy) !in a.created
    && (a.reply.Ingested? ==>
          && NewSnapshot(a.tables, policy) == NewSnapshot(s, policy)
          && a.tables.cleanups == s.cleanups && s.policies.Keys <= a.tables.policies.Keys)
  }

  lemma AttachedStaysTaken(
    names: Namer, s: State, q: nat, payload: Payload, faults: Faults, now: Instant, created: bool, policy: nat)
    requires q in s.policies && q != policy && NewSnapshot(s, policy) in s.files
    ensures StaysTaken(s, Attached(names, s, q, payload, faults, now, created), policy)
  {
    var b, row := AttachedIs(names, s, q, payload, faults, now, created, NewVersionOf(s, q));
    SavingKeepsSnapshot(names, NewVersionOf(s, q), Saved(s.files, [], [NewSnapshot(s, q)], [], false), payload.attachments,
                        faults.fates, |payload.attachments|, NewSnapshot(s, policy));
    MaxElsewhere(s.versions, row, policy);
    AddedStaysTaken(s, q, row, b, Attached(names, s, q, payload, faults, now, created), faults.rulePublished, policy);
  }

  lemma AddedStaysTaken(s: State, q: nat, row: Version, b: Saved, a: Attempt, published: bool, policy: nat)
    requires q in s.policies && MaxNumber(s.versions + [row], policy) == MaxNumber(s.versions, policy)
    requires NewSnapshot(s, policy) in b.files && NewSnapshot(s, policy) !in b.created
    requires a.tables.files == b.files && a.created == b.created
    requires a.reply.Ingested? ==> a.tables == WithVersion(s, q, row, b, published)
    ensures StaysTaken(s, a, policy)
  {
  }

  lemma VersionedStaysTaken(
    names: Namer, s: State, q: nat, payload: Payload, faults: Faults, now: Instant, created: bool, policy: nat)
    requires q in s.policies && NewSnapshot(s, policy) in s.files
    ensures StaysTaken(s, Versioned(names, s, q, payload, faults, now, created), policy)
  {
    var path := NewSnapshot(s, q);
    if path !in s.files && faults.snapshot.Saves? && !faults.flushFails {
      AttachedStaysTaken(names, s.(files := s.files[path := payload.rawHtml]), q, payload, faults, now, created, policy);
    }
  }

  lemma SameVersionsStayTaken(s: State, s1: State, a: Attempt, policy: nat)
    requires s1.versions == s.versions && s1.cleanups == s.cleanups && s.policies.Keys <= s1.policies.Keys
    requires StaysTaken(s1, a, policy)
    ensures StaysTaken(s, a, policy)
  {
  }

  lemma UntouchedStaysTaken(s: State, a: Attempt, policy: nat)
    requires NewSnapshot(s, policy) in s.files && a.created == [] && s.policies.Keys <= a.tables.policies.Keys
    requires a.tables.versions == s.versions && a.tables.files == s.files && a.tables.cleanups == s.cleanups
    ensures StaysTaken(s, a, policy)
  {
  }

  // An accepted attempt records a visit only, or goes on to number a version.
  lemma AttemptCases(names: Namer, s: State, payload: Payload, faults: Faults, now: Instant)
    requires Refusal(s, payload).None?
    ensures MatchedBy(s, payload).Some? ==> MatchedBy(s, payload).value in s.policies
    ensures var a := Attempted(names, s, payload, faults, now);
            var m := MatchedBy(s, payload);
            var s1 := Recorded(s, payload, m, now);
            && s1.versions == s.versions && s1.files == s.files && s1.cleanups == s.cleanups
            && s1.policies.Keys == s.policies.Keys + {m.GetOr(s.nextPolicy)}
            && ((a.tables == s1 && a.created == [])
                || a == Versioned(names, s1, m.GetOr(s.nextPolicy), payload, faults, now, m.None?))
  {
    var s1 := AttemptBranches(names, s, payload, faults, now);
    RecordedIs(s, payload, MatchedBy(s, payload), now);
  }

  lemma NumberingStaysTaken(
    names: Namer, s: State, s1: State, q: nat, payload: Payload, faults: Faults, now: Instant, created: bool, policy: nat)
    requires s1.versions == s.versions && s1.files == s.files && s1.cleanups == s.cleanups
    requires s.policies.Keys <= s1.policies.Keys && q in s1.policies && NewSnapshot(s, policy) in s.files
    ensures StaysTaken(s, Versioned(names, s1, q, payload, faults, now, created), policy)
  {
    VersionedStaysTaken(names, s1, q, payload, faults, now, created, policy);
    SameVersionsStayTaken(s, s1, Versioned(names, s1, q, payload, faults, now, created), policy);
  }

  lemma AttemptStaysTaken(names: Namer, s: State, payload: Payload, faults: Faults, now: Instant, policy: nat)
    requires NewSnapshot(s, policy) in s.files
    ensures StaysTaken(s, Attempted(names, s, payload, faults, now), policy)
  {
    var a := Attempted(names, s, payload, faults, now);
    if Refusal(s, payload).None? {
      AttemptCases(names, s, payload, faults, now);
      var m := MatchedBy(s, payload);
      var s1 := Recorded(s, payload, m, now);
      if a.tables == s1 && a.created == [] {
        UntouchedStaysTaken(s, a, policy);
      } else {
        NumberingStaysTaken(names, s, s1, m.GetOr(s.nextPolicy), payload, faults, now, m.None?, policy);
      }
    } else {
      UntouchedStaysTaken(s, a, policy);
    }
  }

  lemma IngestKeepsBlocked(names: Namer, s: State, payload: Payload, faults: Faults, now: Instant, policy: nat)
    requires Blocked(s, policy)
    ensures var s' := Ingest(names, s, payload, faults, now).0;
            Blocked(s', policy) && NewSnapshot(s', policy) == NewSnapshot(s, policy)
  {
    AttemptStaysTaken(names, s, payload, faults, now, policy);
  }

  lemma MarkKeepsBlocked(names: Namer, s: State, payload: Payload, faults: Faults, now: Instant, policy: nat)
    requires Blocked(s, policy)
    ensures var s' := IngestAndMark(names, s, payload, faults, now).0;
            Blocked(s', policy) && NewSnapshot(s', policy) == NewSnapshot(s, policy)
  {
    AttemptStaysTaken(names, s, payload, faults, now, policy);
  }

  lemma CleanKeepsBlocked(s: State, k: nat, policy: nat)
    requires Blocked(s, policy)
    ensures Blocked(CleanUp(s, k), policy) && NewSnapshot(CleanUp(s, k), policy) == NewSnapshot(s, policy)
  {
    if k < |s.cleanups| && s.cleanups[k] != [] {
      assert s.cleanups[k][|s.cleanups[k]| - 1] in s.cleanups[k];
    }
  }

  lemma StepKeepsBlocked(names: Namer, s: State, step: Step, policy: nat)
    requires Blocked(s, policy)
    ensures Blocked(Do(names, s, step).0, policy) && NewSnapshot(Do(names, s, step).0, policy) == NewSnapshot(s, policy)
  {
    match step
    case IngestStep(payload, faults, now) => IngestKeepsBlocked(names, s, payload, faults, now, policy);
    case MarkStep(payload, faults, now) => MarkKeepsBlocked(names, s, payload, faults, now, policy);
    case CleanStep(k) => CleanKeepsBlocked(s, k, policy);
    case _ =>
  }

  lemma {:induction false} BlockedForever(names: Namer, s: State, steps: seq<Step>, policy: nat)
    requires Blocked(s, policy)
    ensures Blocked(Run(names, s, steps), policy)
    ensures MaxNumber(Run(names, s, steps).versions, policy) == MaxNumber(s.versions, policy)
    decreases |steps|
  {
    if steps != [] {
      StepKeepsBlocked(names, s, steps[0], policy);
      BlockedForever(names, Do(names, s, steps[0]).0, steps[1..], policy);
    }
  }

  lemma LateAttempt(names: Namer, s: State, payload: Payload, faults: Faults, now: Instant, policy: nat)
    requires faults.snapshot.FailsAfterRename? && Refusal(s, payload).None?
    requires MatchedBy(s, payload) == Some(policy) && policy in s.policies
    requires FindVersion(s.versions, policy, ContentOf(payload)).None? && NewSnapshot(s, policy) !in s.files
    ensures var a := Attempted(names, s, payload, faults, now);
            && a.reply == WriteFailed && a.created == []
            && a.tables.files == s.files[NewSnapshot(s, policy) := payload.rawHtml]
  {
    RecordedIs(s, payload, Some(policy), now);
  }

  // New content for a known policy, whose snapshot write fails after its rename: no later run,
  // whatever it does, ever gives that policy another version.
  lemma LateWriteFailureBlocks(
    names: Namer, s: State, payload: Payload, faults: Faults, now: Instant, steps: seq<Step>, policy: nat)
    requires FilesOk(s) && !faults.lockFails && faults.snapshot.FailsAfterRename?
    requires Refusal(s, payload).None? && MatchedBy(s, payload) == Some(policy)
    requires FindVersion(s.versions, policy, ContentOf(payload)).None? && NewSnapshot(s, policy) !in s.files
    ensures var (s1, r) := Ingest(names, s, payload, faults, now);
            && r == WriteFailed && s1.versions == s.versions
            && MaxNumber(Run(names, s1, steps).versions, policy) == MaxNumber(s.versions, policy)
  {
    MatchedIsPolicy(s, payload);
    var s1 := s.(files := s.files[NewSnapshot(s, policy) := payload.rawHtml]);
    LateIngest(names, s, payload, faults, now, policy);
    assert !PendingAt(s, NewSnapshot(s, policy));
    assert !PendingAt(s1, NewSnapshot(s, policy));
    BlockedForever(names, s1, steps, policy);
  }

  lemma LateIngest(names: Namer, s: State, payload: Payload, faults: Faults, now: Instant, policy: nat)
    requires !faults.lockFails && faults.snapshot.FailsAfterRename? && Refusal(s, payload).None?
    requires MatchedBy(s, payload) == Some(policy) && policy in s.policies
    requires FindVersion(s.versions, policy, ContentOf(payload)).None? && NewSnapshot(s, policy) !in s.files
    ensures Ingest(names, s, payload, faults, now)
            == (s.(files := s.files[NewSnapshot(s, policy) := payload.rawHtml]), WriteFailed)
  {
    LateAttempt(names, s, payload, faults, now, policy);
    AttemptKey(names, s, payload, faults, now);
    var files := s.files[NewSnapshot(s, policy) := payload.rawHtml];
    assert RemoveAll(files, []) == files;
  }
}
