/** Ingestion over whole runs: what every interleaving of ingestions, failures and cleanups keeps,
    and the faults that break it. */
module IngestionRuns {
  import opened Ingestion
  import opened IngestionIdentity
  import opened IngestionFiles
  import opened IngestionExact

  // ---------- ingest ----------

  lemma RefusedIngest(names: Namer, s: State, payload: Payload, faults: Faults, now: Instant, a: Attempt)
    requires IdentityOk(s) && FilesOk(s) && Fresh(names) && AllOrNothing(faults)
    requires a == Attempted(names, s, payload, faults, now) && !a.reply.Ingested? && !faults.lockFails
    ensures Ingest(names, s, payload, faults, now).0 == Spent(s, payload)
  {
    AttemptCleanup(names, s, payload, faults, now, a);
    AttemptKey(names, s, payload, faults, now);
  }

  // A failed call of ingest leaves tables and files exactly as they were, but for the key that it
  // gave to a new policy.
  lemma FailedIngestChangesNothing(names: Namer, s: State, payload: Payload, faults: Faults, now: Instant)
    requires IdentityOk(s) && FilesOk(s) && Fresh(names) && AllOrNothing(faults)
    requires var r := Ingest(names, s, payload, faults, now).1; !r.Ingested? && !r.ReleaseFailed?
    ensures Ingest(names, s, payload, faults, now).0 == if faults.lockFails then s else Spent(s, payload)
  {
    if !faults.lockFails { RefusedIngest(names, s, payload, faults, now, Attempted(names, s, payload, faults, now)); }
  }

  lemma CommittedKeepsFiles(s: State, a: Attempt)
    requires FilesOk(s) && a.reply.Ingested? && FilesFollow(s, a)
    ensures FilesOk(a.tables)
  {
    if a.reply.createdVersion {
      CommitKeepsFiles(s, a.tables, a.created, a.tables.attachments[|s.attachments|..]);
    } else {
      SameFilesKeep(s, a.tables);
    }
  }

  lemma WholeIngestKeepsFiles(names: Namer, s: State, payload: Payload, faults: Faults, now: Instant)
    requires IdentityOk(s) && FilesOk(s) && Fresh(names) && AllOrNothing(faults)
    ensures FilesOk(Ingest(names, s, payload, faults, now).0)
  {
    var a := Attempted(names, s, payload, faults, now);
    if !faults.lockFails {
      if a.reply.Ingested? {
        CommittedIngest(names, s, payload, faults, now, a);
      } else {
        RefusedIngestKeepsFiles(names, s, payload, faults, now, a);
      }
    }
  }

  lemma RefusedIngestKeepsFiles(names: Namer, s: State, payload: Payload, faults: Faults, now: Instant, a: Attempt)
    requires IdentityOk(s) && FilesOk(s) && Fresh(names) && AllOrNothing(faults)
    requires a == Attempted(names, s, payload, faults, now) && !a.reply.Ingested? && !faults.lockFails
    ensures FilesOk(Ingest(names, s, payload, faults, now).0)
  {
    SameFilesKeep(s, Spent(s, payload));
    RefusedIngest(names, s, payload, faults, now, a);
  }

  lemma CommittedIngest(names: Namer, s: State, payload: Payload, faults: Faults, now: Instant, a: Attempt)
    requires IdentityOk(s) && FilesOk(s) && Fresh(names) && AllOrNothing(faults)
    requires a == Attempted(names, s, payload, faults, now) && a.reply.Ingested? && !faults.lockFails
    ensures FilesOk(Ingest(names, s, payload, faults, now).0)
  {
    AttemptFiles(names, s, payload, faults, now, a);
    CommittedKeepsFiles(s, a);
  }

  lemma NotConserved(s: State, path: FilePath)
    requires path in s.files && !Referenced(s, path) && !PendingAt(s, path)
    ensures !FilesOk(s)
  {
  }

  lemma TamedIngest(names: Namer, s: State, payload: Payload, faults: Faults, now: Instant)
    requires !LeavesOrphan(names, s, payload, faults)
    ensures Ingest(names, s, payload, Tamed(faults), now) == Ingest(names, s, payload, faults, now)
    ensures IngestAndMark(names, s, payload, Tamed(faults), now) == IngestAndMark(names, s, payload, faults, now)
  {
    TamedAttempt(names, s, payload, faults, now);
  }

  lemma OrphanedIngest(names: Namer, s: State, payload: Payload, faults: Faults, now: Instant)
    requires IdentityOk(s) && FilesOk(s) && Fresh(names) && !faults.lockFails && LeavesOrphan(names, s, payload, faults)
    ensures !FilesOk(Ingest(names, s, payload, faults, now).0)
  {
    var path := OrphanAttempt(names, s, payload, faults, now);
    AttemptKeepsItems(names, s, payload, faults, now);
    var s' := Ingest(names, s, payload, faults, now).0;
    assert PendingAt(s', path) == PendingAt(s, path);
    NotConserved(s', path);
  }

  // Conservation survives ingest exactly unless a write it reaches fails after its rename.
  lemma IngestKeepsFilesExact(names: Namer, s: State, payload: Payload, faults: Faults, now: Instant)
    requires IdentityOk(s) && FilesOk(s) && Fresh(names)
    ensures FilesOk(Ingest(names, s, payload, faults, now).0)
            <==> faults.lockFails || !LeavesOrphan(names, s, payload, faults)
  {
    if !LeavesOrphan(names, s, payload, faults) {
      TamedIsWhole(faults);
      TamedIngest(names, s, payload, faults, now);
      WholeIngestKeepsFiles(names, s, payload, Tamed(faults), now);
    } else if !faults.lockFails {
      OrphanedIngest(names, s, payload, faults, now);
    }
  }

  // ---------- ingest_and_mark_task_item ----------

  // The call commits a new version and then fails to release its lock.
  predicate LosesRelease(names: Namer, s: State, payload: Payload, faults: Faults) {
    && !faults.lockFails && FindItem(s.items, payload).Some?
    && CommitsVersion(names, s, payload, faults) && faults.releaseFails
  }

  lemma MarkedKeepsFiles(s: State, item: nat, policy: nat)
    requires FilesOk(s) && item < |s.items|
    ensures FilesOk(Marked(s, item, policy))
  {
    SameFilesKeep(s, Marked(s, item, policy));
  }

  // A file both referred to and waiting for removal is not conserved.
  lemma ReferencedAndPending(s: State, s': State, a: Attempt)
    requires a.reply.Ingested? && a.reply.createdVersion && FilesFollow(s, a)
    requires SameReferences(a.tables, s') && s'.cleanups == s.cleanups + [a.created]
    ensures !Conserved(s')
  {
    var path := a.created[0];
    assert s'.versions[|s.versions|].snapshot == path;
    assert path in s'.cleanups[|s.cleanups|];
    assert Referenced(s', path) && PendingAt(s', path);
  }

  lemma WholeMarkExact(names: Namer, s: State, payload: Payload, faults: Faults, now: Instant)
    requires IdentityOk(s) && FilesOk(s) && Fresh(names) && AllOrNothing(faults)
    ensures FilesOk(IngestAndMark(names, s, payload, faults, now).0) <==> !LosesRelease(names, s, payload, faults)
  {
    var a := Attempted(names, s, payload, faults, now);
    var s' := IngestAndMark(names, s, payload, faults, now).0;
    var item := FindItem(s.items, payload);
    AttemptFiles(names, s, payload, faults, now, a);
    AttemptExact(names, s, payload, faults, now);
    if !faults.lockFails && item.Some? {
      if !a.reply.Ingested? {
        CreatedPend(s, s', a.created);
      } else {
        CommittedKeepsFiles(s, a);
        MarkedKeepsFiles(a.tables, item.value, a.reply.policy);
        var marked := Marked(a.tables, item.value, a.reply.policy);
        if faults.releaseFails {
          if a.reply.createdVersion { ReferencedAndPending(s, s', a); } else { IdleCleanupKeeps(marked, s'); }
        }
      }
    }
  }

  lemma OrphanedMark(names: Namer, s: State, payload: Payload, faults: Faults, now: Instant)
    requires IdentityOk(s) && FilesOk(s) && Fresh(names) && LeavesOrphan(names, s, payload, faults)
    requires !faults.lockFails && FindItem(s.items, payload).Some?
    ensures !FilesOk(IngestAndMark(names, s, payload, faults, now).0)
  {
    var path := OrphanAttempt(names, s, payload, faults, now);
    AttemptKeepsItems(names, s, payload, faults, now);
    var s' := IngestAndMark(names, s, payload, faults, now).0;
    NotPendingLater(s, s', Attempted(names, s, payload, faults, now).created, path);
    NotConserved(s', path);
  }

  lemma NotPendingLater(s: State, s': State, created: seq<FilePath>, path: FilePath)
    requires !PendingAt(s, path) && path !in created
    requires s'.cleanups == s.cleanups || s'.cleanups == s.cleanups + [created]
    ensures !PendingAt(s', path)
  {
  }

  // Conservation survives ingest_and_mark_task_item exactly unless a write it reaches fails after
  // its rename, or the lock's release fails after a new version was committed: then the files of a
  // committed version are queued for removal.
  lemma MarkKeepsFilesExact(names: Namer, s: State, payload: Payload, faults: Faults, now: Instant)
    requires IdentityOk(s) && FilesOk(s) && Fresh(names)
    ensures FilesOk(IngestAndMark(names, s, payload, faults, now).0)
            <==> || faults.lockFails || FindItem(s.items, payload).None?
                 || !(LeavesOrphan(names, s, payload, faults) || LosesRelease(names, s, payload, faults))
  {
    if !LeavesOrphan(names, s, payload, faults) {
      TamedIsWhole(faults);
      TamedIngest(names, s, payload, faults, now);
      TamedCommits(names, s, payload, faults);
      WholeMarkExact(names, s, payload, Tamed(faults), now);
    } else if !faults.lockFails && FindItem(s.items, payload).Some? {
      OrphanedMark(names, s, payload, faults, now);
    }
  }

  lemma TamedCommits(names: Namer, s: State, payload: Payload, faults: Faults)
    ensures CommitsVersion(names, s, payload, Tamed(faults)) <==> CommitsVersion(names, s, payload, faults)
  {
  }

  // ---------- Every step and every run ----------

  // Writes are all-or-nothing and a committed ingest_and_mark_task_item releases its lock.
  predicate Careful(step: Step) {
    match step
    case IngestStep(_, faults, _) => AllOrNothing(faults)
    case MarkStep(_, faults, _) => AllOrNothing(faults) && !faults.releaseFails
    case _ => true
  }

  lemma StepKeepsFiles(names: Namer, s: State, step: Step)
    requires IdentityOk(s) && FilesOk(s) && Fresh(names) && Careful(step)
    ensures FilesOk(Do(names, s, step).0)
  {
    match step
    case IngestStep(payload, faults, now) => WholeIngestKeepsFiles(names, s, payload, faults, now);
    case MarkStep(payload, faults, now) => CarefulMarkKeepsFiles(names, s, payload, faults, now);
    case CleanStep(k) => CleanKeepsFiles(s, k);
    case _ => IdleStepKeepsFiles(names, s, step);
  }

  lemma CarefulMarkKeepsFiles(names: Namer, s: State, payload: Payload, faults: Faults, now: Instant)
    requires IdentityOk(s) && FilesOk(s) && Fresh(names) && AllOrNothing(faults) && !faults.releaseFails
    ensures FilesOk(IngestAndMark(names, s, payload, faults, now).0)
  {
    WholeMarkExact(names, s, payload, faults, now);
  }

  lemma IdleStepKeepsFiles(names: Namer, s: State, step: Step)
    requires FilesOk(s) && !step.IngestStep? && !step.MarkStep? && !step.CleanStep?
    ensures FilesOk(Do(names, s, step).0)
  {
    SameFilesKeep(s, Do(names, s, step).0);
  }

  lemma {:induction false} RunKeepsFiles(names: Namer, s: State, steps: seq<Step>)
    requires IdentityOk(s) && FilesOk(s) && Fresh(names)
    requires forall k | 0 <= k < |steps| :: Careful(steps[k])
    ensures IdentityOk(Run(names, s, steps)) && FilesOk(Run(names, s, steps))
    decreases |steps|
  {
    if steps != [] {
      StepKeepsIdentity(names, s, steps[0]);
      StepKeepsFiles(names, s, steps[0]);
      RunKeepsFiles(names, Do(names, s, steps[0]).0, steps[1..]);
    }
  }

  // After any such run the stored paths are exactly those of committed versions and downloaded
  // attachments, and those that failed calls have yet to remove; no path is both.
  lemma FilesOnEveryRun(names: Namer, steps: seq<Step>, path: FilePath)
    requires Fresh(names) && forall k | 0 <= k < |steps| :: Careful(steps[k])
    ensures var s := Run(names, Empty, steps);
            && (path in s.files <==> Referenced(s, path) || PendingAt(s, path))
            && !(Referenced(s, path) && PendingAt(s, path))
            && Distinct(StoredPaths(s.attachments))
  {
    RunKeepsFiles(names, Empty, steps);
  }

  // On such runs the next ingestion meets an existing path exactly when its content is new to a known
  // policy and a failed call has yet to remove that policy's next snapshot. An attachment
  // never does, since cleanup removes the snapshot last.
  lemma CollisionsAreCleanups(names: Namer, steps: seq<Step>, step: Step)
    requires Fresh(names) && forall k | 0 <= k < |steps| :: Careful(steps[k])
    ensures var s := Run(names, Empty, steps);
            Do(names, s, step).1.PathExists? <==>
              && (step.IngestStep? || (step.MarkStep? && FindItem(s.items, step.payload).Some?)) && !step.faults.lockFails
              && HasNewContent(s, step.payload) && MatchedBy(s, step.payload).Some?
              && exists k :: 0 <= k < |s.cleanups| && s.cleanups[k] != []
                             && s.cleanups[k][0] == NewSnapshot(s, MatchedBy(s, step.payload).value)
  {
    var s := Run(names, Empty, steps);
    RunKeepsFiles(names, Empty, steps);
    CollisionExact(names, steps, step);
    if (step.IngestStep? || step.MarkStep?) && HasNewContent(s, step.payload) && MatchedBy(s, step.payload).Some? {
      TakenByCleanup(s, MatchedBy(s, step.payload).value);
    }
  }

  lemma TakenByCleanup(s: State, policy: nat)
    requires IdentityOk(s) && FilesOk(s)
    ensures NewSnapshot(s, policy) in s.files <==>
              exists k :: 0 <= k < |s.cleanups| && s.cleanups[k] != [] && s.cleanups[k][0] == NewSnapshot(s, policy)
  {
    var path := NewSnapshot(s, policy);
    if path in s.files {
      BlockedByCleanup(s, policy);
    } else {
      PendingIsStored(s, path);
      forall k | 0 <= k < |s.cleanups| && s.cleanups[k] != [] ensures s.cleanups[k][0] != path {
        assert s.cleanups[k][0] in s.cleanups[k];
      }
    }
  }

  // Whether an attachment is stored is decided by its own fate, never by an earlier name or file.
  lemma FateDecides(
    names: Namer, v: NewVersion, base: map<FilePath, Bytes>, as': seq<AttachmentPayload>, fates: seq<Fate>, i: nat)
    requires Fresh(names) && NoneOf(base, v) && WholeFates(fates) && i < |as'| && Addressed(names, as'[i])
    requires var b0 := Saved(base, [], [SnapshotPath(v.policy, v.number)], [], false);
             !SaveFirst(names, v, b0, as', fates, i).raised
    ensures var b0 := Saved(base, [], [SnapshotPath(v.policy, v.number)], [], false);
            var b, b' := SaveFirst(names, v, b0, as', fates, i), SaveFirst(names, v, b0, as', fates, i + 1);
            var path := AttachmentPath(v.policy, v.number, FilenameFor(names, b.used, as'[i]));
            path !in b.files && (path in b'.files <==> Fine(FateOf(fates, i)))
  {
    var b0 := Saved(base, [], [SnapshotPath(v.policy, v.number)], [], false);
    var b := SaveFirst(names, v, b0, as', fates, i);
    EmptySaved(v, base);
    SaveFirstKeeps(names, v, base, b0, as', fates, i);
    FreePath(v, base, b, FilenameFor(names, b.used, as'[i]));
    FateIsWhole(fates, i);
    SaveAsIs(v, b.files, names.metadata(as'[i]), FateOf(fates, i), FilenameFor(names, b.used, as'[i]));
  }
}
