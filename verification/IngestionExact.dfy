/** When an ingestion commits, when it meets an existing path, and when a write that fails late
    leaves a file behind: each as a condition on the tables and the call, before the call. */
module IngestionExact {
  import opened Ingestion
  import opened IngestionIdentity
  import opened IngestionFiles
  import opened IngestionKeys

  // ---------- The guards ----------

  function TargetPolicy(s: State, payload: Payload): nat
    requires payload.url.Some?
  {
    MatchedBy(s, payload).GetOr(s.nextPolicy)
  }

  // The payload is accepted and its content is new to the policy it goes to.
  predicate HasNewContent(s: State, payload: Payload) {
    Refusal(s, payload).None? && FindVersion(s.versions, TargetPolicy(s, payload), ContentOf(payload)).None?
  }

  predicate AllAddressed(names: Namer, attachments: seq<AttachmentPayload>, n: nat)
    requires n <= |attachments|
  {
    forall i | 0 <= i < n :: Addressed(names, attachments[i])
  }

  // A version is saved and committed.
  predicate CommitsVersion(names: Namer, s: State, payload: Payload, faults: Faults) {
    && HasNewContent(s, payload) && NewSnapshot(s, TargetPolicy(s, payload)) !in s.files
    && faults.snapshot.Saves? && !faults.flushFails && !faults.commitFails
    && AllAddressed(names, payload.attachments, |payload.attachments|)
  }

  lemma {:induction false} RaisedExact(
    names: Namer, v: NewVersion, b: Saved, as': seq<AttachmentPayload>, fates: seq<Fate>, n: nat)
    requires n <= |as'| && !b.raised
    ensures SaveFirst(names, v, b, as', fates, n).raised <==> !AllAddressed(names, as', n)
  {
    if n > 0 { RaisedExact(names, v, b, as', fates, n - 1); }
  }

  lemma AttachedExact(
    names: Namer, s: State, policy: nat, payload: Payload, faults: Faults, now: Instant, created: bool)
    requires policy in s.policies
    ensures var r := Attached(names, s, policy, payload, faults, now, created).reply;
            && (r.Ingested? <==> !faults.commitFails && AllAddressed(names, payload.attachments, |payload.attachments|))
            && (r.Ingested? ==> r.createdVersion) && !r.PathExists?
  {
    var v := NewVersionOf(s, policy);
    var b, row := AttachedIs(names, s, policy, payload, faults, now, created, v);
    RaisedExact(names, v, Saved(s.files, [], [SnapshotPath(policy, v.number)], [], false), payload.attachments, faults.fates,
                |payload.attachments|);
  }

  lemma VersionedExact(
    names: Namer, s: State, policy: nat, payload: Payload, faults: Faults, now: Instant, created: bool)
    requires policy in s.policies
    ensures var r := Versioned(names, s, policy, payload, faults, now, created).reply;
            && (r.Ingested? <==>
                  && NewSnapshot(s, policy) !in s.files && faults.snapshot.Saves? && !faults.flushFails
                  && !faults.commitFails && AllAddressed(names, payload.attachments, |payload.attachments|))
            && (r.Ingested? ==> r.createdVersion)
            && (r.PathExists? <==> NewSnapshot(s, policy) in s.files)
  {
    var path := NewSnapshot(s, policy);
    if path !in s.files {
      AttachedExact(names, s.(files := s.files[path := payload.rawHtml]), policy, payload, faults, now, created);
    }
  }

  // New content goes on to be numbered and saved.
  lemma NewContentIsNumbered(names: Namer, s: State, payload: Payload, faults: Faults, now: Instant) returns (s1: State)
    requires HasNewContent(s, payload)
    ensures MatchedBy(s, payload).Some? ==> MatchedBy(s, payload).value in s.policies
    ensures s1 == Recorded(s, payload, MatchedBy(s, payload), now)
    ensures s1.versions == s.versions && s1.files == s.files && s1.attachments == s.attachments && s1.cleanups == s.cleanups
    ensures TargetPolicy(s, payload) in s1.policies
    ensures Attempted(names, s, payload, faults, now)
            == Versioned(names, s1, TargetPolicy(s, payload), payload, faults, now, MatchedBy(s, payload).None?)
  {
    s1 := AttemptBranches(names, s, payload, faults, now);
    RecordedIs(s, payload, MatchedBy(s, payload), now);
  }

  lemma OldContentIsQuiet(names: Namer, s: State, payload: Payload, faults: Faults, now: Instant)
    requires !HasNewContent(s, payload)
    ensures var a := Attempted(names, s, payload, faults, now);
            && !(a.reply.Ingested? && a.reply.createdVersion) && !a.reply.PathExists?
            && a.created == [] && a.tables.files == s.files
  {
    if Refusal(s, payload).None? {
      var s1 := AttemptBranches(names, s, payload, faults, now);
      RecordedIs(s, payload, MatchedBy(s, payload), now);
    }
  }

  // An attempt commits a new version, or meets an existing path, exactly under these conditions.
  lemma AttemptExact(names: Namer, s: State, payload: Payload, faults: Faults, now: Instant)
    ensures var r := Attempted(names, s, payload, faults, now).reply;
            && (r.Ingested? && r.createdVersion <==> CommitsVersion(names, s, payload, faults))
            && (r.PathExists? <==> HasNewContent(s, payload) && NewSnapshot(s, TargetPolicy(s, payload)) in s.files)
  {
    if HasNewContent(s, payload) {
      var s1 := NewContentIsNumbered(names, s, payload, faults, now);
      VersionedExact(names, s1, TargetPolicy(s, payload), payload, faults, now, MatchedBy(s, payload).None?);
    } else {
      OldContentIsQuiet(names, s, payload, faults, now);
    }
  }

  // The reply to a committed version.
  lemma CommittedReply(names: Namer, s: State, payload: Payload, faults: Faults, now: Instant)
    requires CommitsVersion(names, s, payload, faults)
    ensures Attempted(names, s, payload, faults, now).reply
            == Ingested(TargetPolicy(s, payload), |s.versions|, MatchedBy(s, payload).None?, true)
  {
    AttemptExact(names, s, payload, faults, now);
    var s1 := NewContentIsNumbered(names, s, payload, faults, now);
    VersionedIs(names, s1, TargetPolicy(s, payload), payload, faults, now, MatchedBy(s, payload).None?);
  }

  // ---------- Existing paths ----------

  // The step brings new content for a known policy, gets as far as saving its snapshot, and the path
  // is taken.
  predicate Collides(s: State, step: Step) {
    && (step.IngestStep? || (step.MarkStep? && FindItem(s.items, step.payload).Some?))
    && !step.faults.lockFails && HasNewContent(s, step.payload)
    && var m := MatchedBy(s, step.payload);
    m.Some? && NewSnapshot(s, m.value) in s.files
  }

  lemma CollidesExactly(names: Namer, s: State, step: Step)
    requires FilesKeyed(s)
    ensures Do(names, s, step).1.PathExists? <==> Collides(s, step)
  {
    if step.IngestStep? || step.MarkStep? { AttemptExact(names, s, step.payload, step.faults, step.now); }
  }

  // On every run, under any faults. A new policy never meets an existing path: its key is new.
  lemma CollisionExact(names: Namer, steps: seq<Step>, step: Step)
    ensures var s := Run(names, Empty, steps);
            Do(names, s, step).1.PathExists? <==> Collides(s, step)
  {
    RunKeepsKeyed(names, Empty, steps);
    CollidesExactly(names, Run(names, Empty, steps), step);
  }

  // ---------- Late writes ----------

  // The write of this attachment is reached and fails after its rename.
  predicate Late(fate: Fate) {
    !fate.insertFails && fate.download.Some? && fate.saving.FailsAfterRename?
  }

  predicate LateAt(names: Namer, payload: Payload, fates: seq<Fate>, i: nat)
    requires i < |payload.attachments|
  {
    Late(FateOf(fates, i)) && AllAddressed(names, payload.attachments, i + 1)
  }

  // Among the writes of a new version, one is reached that fails after its rename.
  predicate WritesLate(names: Namer, payload: Payload, faults: Faults) {
    || faults.snapshot.FailsAfterRename?
    || (faults.snapshot.Saves? && !faults.flushFails
        && exists i :: 0 <= i < |payload.attachments| && LateAt(names, payload, faults.fates, i))
  }

  // A write of the attempt fails after its rename, so that a file stays that nobody has noted.
  predicate LeavesOrphan(names: Namer, s: State, payload: Payload, faults: Faults) {
    && HasNewContent(s, payload) && NewSnapshot(s, TargetPolicy(s, payload)) !in s.files
    && WritesLate(names, payload, faults)
  }

  // The same call with every late write failing early.
  function TamedFate(fate: Fate): Fate {
    if fate.saving.FailsAfterRename? then fate.(saving := FailsBeforeRename) else fate
  }

  function TamedFates(fates: seq<Fate>): seq<Fate> {
    seq(|fates|, i requires 0 <= i < |fates| => TamedFate(fates[i]))
  }

  function Tamed(faults: Faults): Faults {
    faults.(
      snapshot := if faults.snapshot.FailsAfterRename? then FailsBeforeRename else faults.snapshot,
      fates := TamedFates(faults.fates))
  }

  lemma TamedIsWhole(faults: Faults)
    ensures AllOrNothing(Tamed(faults))
  {
  }

  lemma FateOfTamed(fates: seq<Fate>, i: nat)
    ensures FateOf(TamedFates(fates), i) == TamedFate(FateOf(fates, i))
  {
  }

  lemma TamedSaveAs(v: NewVersion, files: map<FilePath, Bytes>, m: Metadata, fate: Fate, filename: string)
    requires !Late(fate)
    ensures SaveAs(v, files, m, TamedFate(fate), filename) == SaveAs(v, files, m, fate, filename)
  {
  }

  lemma TamedSaveOne(names: Namer, v: NewVersion, b: Saved, a: AttachmentPayload, fate: Fate)
    requires Addressed(names, a) ==> !Late(fate)
    ensures SaveOne(names, v, b, a, TamedFate(fate)) == SaveOne(names, v, b, a, fate)
  {
    if Addressed(names, a) {
      TamedSaveAs(v, b.files, names.metadata(a), fate, FilenameFor(names, b.used, a));
    }
  }

  lemma TamedNext(
    names: Namer, v: NewVersion, before: Saved, payload: Payload, fates: seq<Fate>, k: nat)
    requires k < |payload.attachments| && !LateAt(names, payload, fates, k)
    requires AllAddressed(names, payload.attachments, k)
    ensures SaveOne(names, v, before, payload.attachments[k], FateOf(TamedFates(fates), k))
            == SaveOne(names, v, before, payload.attachments[k], FateOf(fates, k))
  {
    FateOfTamed(fates, k);
    TamedSaveOne(names, v, before, payload.attachments[k], FateOf(fates, k));
  }

  lemma {:induction false} TamedSaves(
    names: Namer, v: NewVersion, b: Saved, payload: Payload, fates: seq<Fate>, n: nat)
    requires n <= |payload.attachments| && !b.raised
    requires forall i | 0 <= i < |payload.attachments| :: !LateAt(names, payload, fates, i)
    ensures SaveFirst(names, v, b, payload.attachments, TamedFates(fates), n)
            == SaveFirst(names, v, b, payload.attachments, fates, n)
  {
    if n > 0 {
      TamedSaves(names, v, b, payload, fates, n - 1);
      RaisedExact(names, v, b, payload.attachments, fates, n - 1);
      var before := SaveFirst(names, v, b, payload.attachments, fates, n - 1);
      if !before.raised { TamedNext(names, v, before, payload, fates, n - 1); }
    }
  }

  lemma TamedAttached(
    names: Namer, s: State, policy: nat, payload: Payload, faults: Faults, now: Instant, created: bool)
    requires policy in s.policies
    requires forall i | 0 <= i < |payload.attachments| :: !LateAt(names, payload, faults.fates, i)
    ensures Attached(names, s, policy, payload, Tamed(faults), now, created)
            == Attached(names, s, policy, payload, faults, now, created)
  {
    var v := NewVersionOf(s, policy);
    TamedSaves(names, v, Saved(s.files, [], [SnapshotPath(policy, v.number)], [], false), payload, faults.fates,
               |payload.attachments|);
  }

  lemma TamedVersioned(
    names: Namer, s: State, policy: nat, payload: Payload, faults: Faults, now: Instant, created: bool)
    requires policy in s.policies
    requires NewSnapshot(s, policy) in s.files || !WritesLate(names, payload, faults)
    ensures Versioned(names, s, policy, payload, Tamed(faults), now, created)
            == Versioned(names, s, policy, payload, faults, now, created)
  {
    var path := NewSnapshot(s, policy);
    if path !in s.files && faults.snapshot.Saves? && !faults.flushFails {
      TamedAttached(names, s.(files := s.files[path := payload.rawHtml]), policy, payload, faults, now, created);
    }
  }

  lemma TamedNewContent(names: Namer, s: State, payload: Payload, faults: Faults, now: Instant, path: FilePath)
    requires HasNewContent(s, payload) && path == NewSnapshot(s, TargetPolicy(s, payload))
    requires path in s.files || !WritesLate(names, payload, faults)
    ensures Attempted(names, s, payload, Tamed(faults), now) == Attempted(names, s, payload, faults, now)
  {
    var s1 := NewContentIsNumbered(names, s, payload, faults, now);
    var s2 := NewContentIsNumbered(names, s, payload, Tamed(faults), now);
    assert NewSnapshot(s1, TargetPolicy(s, payload)) == path;
    TamedVersioned(names, s1, TargetPolicy(s, payload), payload, faults, now, MatchedBy(s, payload).None?);
  }

  // A call that leaves no orphan does what it would do if its late writes failed early.
  lemma TamedAttempt(names: Namer, s: State, payload: Payload, faults: Faults, now: Instant)
    requires !LeavesOrphan(names, s, payload, faults)
    ensures Attempted(names, s, payload, Tamed(faults), now) == Attempted(names, s, payload, faults, now)
  {
    if HasNewContent(s, payload) {
      TamedNewContent(names, s, payload, faults, now, NewSnapshot(s, TargetPolicy(s, payload)));
    } else {
      TamedOldContent(names, s, payload, faults, now);
    }
  }

  lemma TamedOldContent(names: Namer, s: State, payload: Payload, faults: Faults, now: Instant)
    requires !HasNewContent(s, payload)
    ensures Attempted(names, s, payload, Tamed(faults), now) == Attempted(names, s, payload, faults, now)
  {
    if Refusal(s, payload).None? {
      var s1 := AttemptBranches(names, s, payload, faults, now);
      RecordedIs(s, payload, MatchedBy(s, payload), now);
    }
  }

  // ---------- Orphans ----------

  predicate InVersion(path: FilePath, v: NewVersion) {
    path.AttachmentPath? && path.policy == v.policy && path.number == v.number
  }

  // What holds of the attachments under any faults.
  ghost predicate SavedLoosely(v: NewVersion, base: map<FilePath, Bytes>, b: Saved) {
    var stored := StoredPaths(b.rows);
    && (forall path | path in b.files :: path in base || (InVersion(path, v) && path.filename in b.used))
    && b.created == [SnapshotPath(v.policy, v.number)] + stored
    && (forall path | path in stored :: InVersion(path, v) && path.filename in b.used)
  }

  ghost predicate Orphaned(v: NewVersion, b: Saved, path: FilePath) {
    InVersion(path, v) && path.filename in b.used && path in b.files && path !in StoredPaths(b.rows)
  }

  lemma PieceStored(v: NewVersion, files: map<FilePath, Bytes>, m: Metadata, fate: Fate, filename: string)
    requires AttachmentPath(v.policy, v.number, filename) !in files
    ensures var piece := SaveAs(v, files, m, fate, filename);
            var path := AttachmentPath(v.policy, v.number, filename);
            && StoredPaths(piece.rows) == piece.created && piece.created <= [path]
            && (forall p | p != path :: p in piece.files <==> p in files)
            && (Late(fate) ==> path in piece.files && piece.created == [])
  {
    var piece := SaveAs(v, files, m, fate, filename);
    if piece.rows != [] { assert StoredPaths(piece.rows[..0]) == []; assert piece.rows[..|piece.rows| - 1] == piece.rows[..0]; }
  }

  // One attachment: a fresh path, its file whatever happened, and no more than its own row.
  ghost predicate AddsOne(v: NewVersion, b: Saved, b': Saved, path: FilePath, stored: seq<FilePath>) {
    && InVersion(path, v) && path.filename !in b.used && b'.used == b.used + [path.filename]
    && stored <= [path]
    && StoredPaths(b'.rows) == StoredPaths(b.rows) + stored && b'.created == b.created + stored
    && (forall p | p != path :: p in b'.files <==> p in b.files)
  }

  lemma AddsLoosely(v: NewVersion, base: map<FilePath, Bytes>, b: Saved, b': Saved, path: FilePath, stored: seq<FilePath>)
    requires SavedLoosely(v, base, b) && AddsOne(v, b, b', path, stored)
    ensures SavedLoosely(v, base, b')
  {
    assert b'.created == [SnapshotPath(v.policy, v.number)] + (StoredPaths(b.rows) + stored);
  }

  lemma AddsKeepOrphan(v: NewVersion, b: Saved, b': Saved, path: FilePath, stored: seq<FilePath>, orphan: FilePath)
    requires Orphaned(v, b, orphan) && AddsOne(v, b, b', path, stored)
    ensures Orphaned(v, b', orphan)
  {
  }

  lemma LooseFree(v: NewVersion, base: map<FilePath, Bytes>, b: Saved, path: FilePath)
    requires SavedLoosely(v, base, b) && NoneOf(base, v) && InVersion(path, v) && path.filename !in b.used
    ensures path !in b.files && path !in StoredPaths(b.rows)
  {
    assert path == AttachmentPath(v.policy, v.number, path.filename);
  }

  lemma LooseStep(names: Namer, v: NewVersion, base: map<FilePath, Bytes>, b: Saved, a: AttachmentPayload, fate: Fate)
    returns (path: FilePath, stored: seq<FilePath>)
    requires Fresh(names) && SavedLoosely(v, base, b) && NoneOf(base, v) && Addressed(names, a)
    ensures AddsOne(v, b, SaveOne(names, v, b, a, fate), path, stored)
    ensures Late(fate) ==> Orphaned(v, SaveOne(names, v, b, a, fate), path)
  {
    var filename := FilenameFor(names, b.used, a);
    path := AttachmentPath(v.policy, v.number, filename);
    LooseFree(v, base, b, path);
    PieceStored(v, b.files, names.metadata(a), fate, filename);
    var piece := SaveAs(v, b.files, names.metadata(a), fate, filename);
    stored := piece.created;
    StoredAppend(b.rows, piece.rows);
  }

  lemma LooseNext(names: Namer, v: NewVersion, base: map<FilePath, Bytes>, b: Saved, a: AttachmentPayload, fate: Fate)
    requires Fresh(names) && SavedLoosely(v, base, b) && NoneOf(base, v)
    ensures SavedLoosely(v, base, SaveOne(names, v, b, a, fate))
  {
    if Addressed(names, a) {
      var path, stored := LooseStep(names, v, base, b, a, fate);
      AddsLoosely(v, base, b, SaveOne(names, v, b, a, fate), path, stored);
    }
  }

  lemma LooseFirst(
    names: Namer, v: NewVersion, base: map<FilePath, Bytes>, b: Saved, payload: Payload, fates: seq<Fate>, n: nat)
    requires Fresh(names) && SavedLoosely(v, base, b) && NoneOf(base, v) && n <= |payload.attachments|
    ensures SavedLoosely(v, base, SaveFirst(names, v, b, payload.attachments, fates, n))
  {
    var p := (s: Saved) => SavedLoosely(v, base, s);
    forall s: Saved, k: nat | k < n && p(s) ensures p(SaveOne(names, v, s, payload.attachments[k], FateOf(fates, k))) {
      LooseNext(names, v, base, s, payload.attachments[k], FateOf(fates, k));
    }
    SavesKeep(names, v, b, payload.attachments, fates, 0, n, p);
  }

  ghost predicate LooselyOrphaned(v: NewVersion, base: map<FilePath, Bytes>, b: Saved, path: FilePath) {
    SavedLoosely(v, base, b) && Orphaned(v, b, path)
  }

  lemma OrphanNext(
    names: Namer, v: NewVersion, base: map<FilePath, Bytes>, b: Saved, a: AttachmentPayload, fate: Fate, path: FilePath)
    requires Fresh(names) && NoneOf(base, v) && LooselyOrphaned(v, base, b, path)
    ensures LooselyOrphaned(v, base, SaveOne(names, v, b, a, fate), path)
  {
    if Addressed(names, a) {
      var next, stored := LooseStep(names, v, base, b, a, fate);
      AddsLoosely(v, base, b, SaveOne(names, v, b, a, fate), next, stored);
      AddsKeepOrphan(v, b, SaveOne(names, v, b, a, fate), next, stored, path);
    }
  }

  lemma OrphanStays(
    names: Namer, v: NewVersion, base: map<FilePath, Bytes>, b: Saved, payload: Payload, fates: seq<Fate>, m: nat, n: nat,
    path: FilePath)
    requires Fresh(names) && NoneOf(base, v) && m <= n <= |payload.attachments|
    requires LooselyOrphaned(v, base, SaveFirst(names, v, b, payload.attachments, fates, m), path)
    ensures LooselyOrphaned(v, base, SaveFirst(names, v, b, payload.attachments, fates, n), path)
  {
    var p := (s: Saved) => LooselyOrphaned(v, base, s, path);
    forall s: Saved, k: nat | m <= k < n && p(s)
      ensures p(SaveOne(names, v, s, payload.attachments[k], FateOf(fates, k)))
    {
      OrphanNext(names, v, base, s, payload.attachments[k], FateOf(fates, k), path);
    }
    SavesKeep(names, v, b, payload.attachments, fates, m, n, p);
  }

  // A late write leaves a file that no row refers to and nobody has noted, whatever follows.
  lemma OrphanAppears(
    names: Namer, v: NewVersion, base: map<FilePath, Bytes>, b: Saved, payload: Payload, fates: seq<Fate>, i: nat)
    returns (path: FilePath)
    requires Fresh(names) && SavedLoosely(v, base, b) && NoneOf(base, v) && !b.raised
    requires i < |payload.attachments| && LateAt(names, payload, fates, i)
    ensures Orphaned(v, SaveFirst(names, v, b, payload.attachments, fates, |payload.attachments|), path)
  {
    var a := payload.attachments[i];
    var before := SaveFirst(names, v, b, payload.attachments, fates, i);
    LooseFirst(names, v, base, b, payload, fates, i);
    RaisedExact(names, v, b, payload.attachments, fates, i);
    var stored;
    path, stored := LooseStep(names, v, base, before, a, FateOf(fates, i));
    AddsLoosely(v, base, before, SaveOne(names, v, before, a, FateOf(fates, i)), path, stored);
    OrphanStays(names, v, base, b, payload, fates, i + 1, |payload.attachments|, path);
  }

  ghost predicate FreeIsUnknown(s: State) {
    forall path | path !in s.files :: !Referenced(s, path) && !PendingAt(s, path)
  }

  lemma ConservedFree(s: State)
    requires Conserved(s)
    ensures FreeIsUnknown(s)
  {
    forall path | path !in s.files ensures !Referenced(s, path) && !PendingAt(s, path) {}
  }

  // The rows of a committed version refer to its snapshot and its stored attachments, no more.
  lemma CommitRefersTo(s: State, policy: nat, row: Version, b: Saved, published: bool, path: FilePath)
    requires policy in s.policies && !Referenced(s, path) && path.AttachmentPath? && row.snapshot.SnapshotPath?
    requires path !in StoredPaths(b.rows)
    ensures !Referenced(WithVersion(s, policy, row, b, published), path)
  {
    StoredAppend(s.attachments, b.rows);
  }

  // A file that an attempt leaves without noting it.
  ghost predicate Leaves(s: State, a: Attempt, path: FilePath) {
    && path in a.tables.files && path !in a.created && !Referenced(s, path) && !PendingAt(s, path)
    && (a.reply.Ingested? ==> !Referenced(a.tables, path))
  }

  lemma AttachedLeaves(
    names: Namer, s: State, policy: nat, payload: Payload, faults: Faults, now: Instant, created: bool, i: nat)
    returns (path: FilePath)
    requires Fresh(names) && policy in s.policies && i < |payload.attachments| && LateAt(names, payload, faults.fates, i)
    requires NoneOf(s.files, NewVersionOf(s, policy))
    requires FreeIsUnknown(s)
    ensures Leaves(s, Attached(names, s, policy, payload, faults, now, created), path)
  {
    var v := NewVersionOf(s, policy);
    var b0 := Saved(s.files, [], [NewSnapshot(s, policy)], [], false);
    var b, row := AttachedIs(names, s, policy, payload, faults, now, created, v);
    LooseFirst(names, v, s.files, b0, payload, faults.fates, |payload.attachments|);
    path := OrphanAppears(names, v, s.files, b0, payload, faults.fates, i);
    assert path == AttachmentPath(v.policy, v.number, path.filename);
    CommitRefersTo(s, policy, row, b, faults.rulePublished, path);
  }

  lemma SameLeaves(s: State, s1: State, a: Attempt, path: FilePath)
    requires Leaves(s1, a, path) && SameReferences(s1, s) && s1.cleanups == s.cleanups
    ensures Leaves(s, a, path)
  {
  }

  lemma VersionedLeaves(
    names: Namer, s: State, policy: nat, payload: Payload, faults: Faults, now: Instant, created: bool)
    returns (path: FilePath)
    requires Fresh(names) && policy in s.policies && NewSnapshot(s, policy) !in s.files
    requires NoneOf(s.files, NewVersionOf(s, policy))
    requires FreeIsUnknown(s)
    requires WritesLate(names, payload, faults)
    ensures Leaves(s, Versioned(names, s, policy, payload, faults, now, created), path)
  {
    path := NewSnapshot(s, policy);
    if faults.snapshot.Saves? {
      var s1 := s.(files := s.files[path := payload.rawHtml]);
      var i :| 0 <= i < |payload.attachments| && LateAt(names, payload, faults.fates, i);
      FewerFree(s, s1);
      path := AttachedLeaves(names, s1, policy, payload, faults, now, created, i);
      SameLeaves(s, s1, Attached(names, s1, policy, payload, faults, now, created), path);
    }
  }

  lemma FewerFree(s: State, s1: State)
    requires FreeIsUnknown(s)
    requires SameReferences(s, s1) && s1.cleanups == s.cleanups && forall p | p in s.files :: p in s1.files
    ensures FreeIsUnknown(s1)
  {
    forall p | p !in s1.files ensures !Referenced(s1, p) && !PendingAt(s1, p) {
      assert p !in s.files;
      assert Referenced(s1, p) == Referenced(s, p) && PendingAt(s1, p) == PendingAt(s, p);
    }
  }

  lemma OrphanOf(names: Namer, s: State, payload: Payload, faults: Faults, now: Instant) returns (path: FilePath)
    requires Fresh(names) && LeavesOrphan(names, s, payload, faults)
    requires NoneOf(s.files, NewVersionOf(s, TargetPolicy(s, payload))) && FreeIsUnknown(s)
    ensures Leaves(s, Attempted(names, s, payload, faults, now), path)
  {
    var s1 := NewContentIsNumbered(names, s, payload, faults, now);
    FewerFree(s, s1);
    path := VersionedLeaves(names, s1, TargetPolicy(s, payload), payload, faults, now, MatchedBy(s, payload).None?);
    SameLeaves(s, s1, Attempted(names, s, payload, faults, now), path);
  }

  lemma OrphanAttempt(names: Namer, s: State, payload: Payload, faults: Faults, now: Instant) returns (path: FilePath)
    requires IdentityOk(s) && FilesOk(s) && Fresh(names) && LeavesOrphan(names, s, payload, faults)
    ensures Leaves(s, Attempted(names, s, payload, faults, now), path)
  {
    NewDirectoryIsEmpty(s, TargetPolicy(s, payload));
    ConservedFree(s);
    path := OrphanOf(names, s, payload, faults, now);
  }
}
