/** Policy keys, which name the directories of the file store: a key that was given out is never
    given out again, so a new policy's directory is empty whatever failed before. */
module IngestionKeys {
  import opened Ingestion
  import opened IngestionIdentity

  // ---------- Keys over runs ----------

  lemma StepKeepsKeys(names: Namer, s: State, step: Step, p: nat)
    requires p < s.nextPolicy
    ensures p < Do(names, s, step).0.nextPolicy
    ensures p in Do(names, s, step).0.policies <==> p in s.policies
  {
    if step.IngestStep? || step.MarkStep? {
      var a := Attempted(names, s, step.payload, step.faults, step.now);
      AttemptKey(names, s, step.payload, step.faults, step.now);
      CallHasEffect(names, s, step, a);
      if a.reply.Ingested? { CommitKeepsKeys(names, s, step.payload, step.faults, step.now, p); }
    }
  }

  lemma CommitKeepsKeys(names: Namer, s: State, payload: Payload, faults: Faults, now: Instant, p: nat)
    requires p < s.nextPolicy && Attempted(names, s, payload, faults, now).reply.Ingested?
    ensures p in Attempted(names, s, payload, faults, now).tables.policies <==> p in s.policies
  {
    AttemptIs(names, s, payload, faults, now);
    RecordedIs(s, payload, MatchedBy(s, payload), now);
  }

  // A key that was given out names the same policy, or none, on every run that follows.
  lemma {:induction false} KeysAreNotReused(names: Namer, s: State, steps: seq<Step>, p: nat)
    requires p < s.nextPolicy
    ensures p < Run(names, s, steps).nextPolicy
    ensures p in Run(names, s, steps).policies <==> p in s.policies
    decreases |steps|
  {
    if steps != [] {
      StepKeepsKeys(names, s, steps[0], p);
      KeysAreNotReused(names, Do(names, s, steps[0]).0, steps[1..], p);
    }
  }

  // ---------- Files lie in directories of keys given out ----------

  ghost predicate Within(files: map<FilePath, Bytes>, limit: nat) {
    forall path | path in files :: path.policy < limit
  }

  ghost predicate FilesKeyed(s: State) {
    Within(s.files, s.nextPolicy)
  }

  lemma SaveOneWithin(names: Namer, v: NewVersion, b: Saved, a: AttachmentPayload, fate: Fate, limit: nat)
    requires Within(b.files, limit) && v.policy < limit
    ensures Within(SaveOne(names, v, b, a, fate).files, limit)
  {
  }

  lemma SavesWithin(
    names: Namer, v: NewVersion, b: Saved, as': seq<AttachmentPayload>, fates: seq<Fate>, n: nat, limit: nat)
    requires n <= |as'| && Within(b.files, limit) && v.policy < limit
    ensures Within(SaveFirst(names, v, b, as', fates, n).files, limit)
  {
    var p := (s: Saved) => Within(s.files, limit);
    forall s: Saved, k: nat | k < n && p(s) ensures p(SaveOne(names, v, s, as'[k], FateOf(fates, k))) {
      SaveOneWithin(names, v, s, as'[k], FateOf(fates, k), limit);
    }
    SavesKeep(names, v, b, as', fates, 0, n, p);
  }

  lemma VersionedWithin(
    names: Namer, s: State, policy: nat, payload: Payload, faults: Faults, now: Instant, createdPolicy: bool)
    requires policy in s.policies && policy < s.nextPolicy && FilesKeyed(s)
    ensures FilesKeyed(Versioned(names, s, policy, payload, faults, now, createdPolicy).tables)
  {
    VersionedKeepsItems(names, s, policy, payload, faults, now, createdPolicy);
    var v := NewVersion(policy, MaxNumber(s.versions, policy) + 1, |s.versions|);
    var path := SnapshotPath(policy, v.number);
    if path !in s.files && faults.snapshot.Saves? && !faults.flushFails {
      var s1 := s.(files := s.files[path := payload.rawHtml]);
      var b, row := AttachedIs(names, s1, policy, payload, faults, now, createdPolicy, v);
      SavesWithin(names, v, Saved(s1.files, [], [path], [], false), payload.attachments, faults.fates, |payload.attachments|,
                  s.nextPolicy);
    }
  }

  lemma AttemptWithin(names: Namer, s: State, payload: Payload, faults: Faults, now: Instant)
    requires KeysOk(s) && FilesKeyed(s)
    ensures FilesKeyed(Attempted(names, s, payload, faults, now).tables)
  {
    if Refusal(s, payload).None? {
      var m := MatchedBy(s, payload);
      MatchedIsPolicy(s, payload);
      RecordedIs(s, payload, m, now);
      VersionedWithin(names, Recorded(s, payload, m, now), m.GetOr(s.nextPolicy), payload, faults, now, m.None?);
    }
  }

  // Under any fault.
  lemma StepKeepsKeyed(names: Namer, s: State, step: Step)
    requires KeysOk(s) && FilesKeyed(s)
    ensures FilesKeyed(Do(names, s, step).0)
  {
    if step.IngestStep? || step.MarkStep? {
      AttemptWithin(names, s, step.payload, step.faults, step.now);
      AttemptKey(names, s, step.payload, step.faults, step.now);
      CallHasEffect(names, s, step, Attempted(names, s, step.payload, step.faults, step.now));
    }
  }

  lemma {:induction false} RunKeepsKeyed(names: Namer, s: State, steps: seq<Step>)
    requires IdentityOk(s) && FilesKeyed(s)
    ensures IdentityOk(Run(names, s, steps)) && FilesKeyed(Run(names, s, steps))
    decreases |steps|
  {
    if steps != [] {
      StepKeepsIdentity(names, s, steps[0]);
      StepKeepsKeyed(names, s, steps[0]);
      RunKeepsKeyed(names, Do(names, s, steps[0]).0, steps[1..]);
    }
  }
}
