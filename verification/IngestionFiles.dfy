/** The file store against the tables: under all-or-nothing writes the files are exactly those that
    committed rows refer to and those that wait for cleanup, on every interleaving of ingestions
    and cleanups; and exactly where that breaks. */
module IngestionFiles {
  import opened Wrappers
  import opened AttachmentNames
  import opened Ingestion
  import opened IngestionIdentity

  // ---------- The invariant ----------

  // The paths of the downloaded attachments.
  function StoredPaths(rows: seq<Attachment>): seq<FilePath> {
    if rows == [] then []
    else StoredPaths(rows[..|rows| - 1])
         + if rows[|rows| - 1].storedPath.Some? then [rows[|rows| - 1].storedPath.value] else []
  }

  ghost predicate Referenced(s: State, path: FilePath) {
    (exists i :: 0 <= i < |s.versions| && s.versions[i].snapshot == path) || path in StoredPaths(s.attachments)
  }

  ghost predicate PendingAt(s: State, path: FilePath) {
    exists k :: 0 <= k < |s.cleanups| && path in s.cleanups[k]
  }

  ghost predicate Distinct(paths: seq<FilePath>) {
    forall i, j | 0 <= i < j < |paths| :: paths[i] != paths[j]
  }

  // What one call creates, in this order: the snapshot of a version, then its attachments.
  ghost predicate OneVersion(c: seq<FilePath>) {
    && Distinct(c)
    && (c != [] ==> c[0].SnapshotPath?)
    && (forall i | 1 <= i < |c| :: c[i].AttachmentPath? && c[i].policy == c[0].policy && c[i].number == c[0].number)
  }

  ghost predicate CleanupsOk(cs: seq<seq<FilePath>>) {
    && (forall k | 0 <= k < |cs| :: OneVersion(cs[k]))
    && (forall j, k | 0 <= j < k < |cs| :: forall path | path in cs[j] :: path !in cs[k])
  }

  // A stored attachment lies in the directory of its own version, and is stored once.
  ghost predicate AttachmentsOk(s: State) {
    && (forall a | a in s.attachments ::
          && a.version < |s.versions|
          && (a.storedPath.Some? ==>
                && a.storedPath.value.AttachmentPath?
                && a.storedPath.value.policy == s.versions[a.version].policy
                && a.storedPath.value.number == s.versions[a.version].number))
    && Distinct(StoredPaths(s.attachments))
  }

  ghost predicate Conserved(s: State) {
    && (forall path :: path in s.files <==> Referenced(s, path) || PendingAt(s, path))
    && (forall path :: !(Referenced(s, path) && PendingAt(s, path)))
  }

  ghost predicate FilesOk(s: State) {
    Conserved(s) && CleanupsOk(s.cleanups) && AttachmentsOk(s)
  }

  lemma {:induction false} StoredAppend(a: seq<Attachment>, b: seq<Attachment>)
    ensures StoredPaths(a + b) == StoredPaths(a) + StoredPaths(b)
  {
    if b == [] {
      assert a + b == a;
    } else {
      assert (a + b)[..|a + b| - 1] == a + b[..|b| - 1];
      StoredAppend(a, b[..|b| - 1]);
    }
  }

  lemma {:induction false} StoredHasRow(rows: seq<Attachment>, path: FilePath)
    ensures path in StoredPaths(rows) <==> exists a :: a in rows && a.storedPath == Some(path)
  {
    if rows != [] {
      var n := |rows| - 1;
      StoredHasRow(rows[..n], path);
      assert rows == rows[..n] + [rows[n]];
    }
  }

  // ---------- The attachments of one version ----------

  predicate WholeFates(fates: seq<Fate>) {
    forall i | 0 <= i < |fates| :: !fates[i].saving.FailsAfterRename?
  }

  predicate AllOrNothing(faults: Faults) {
    !faults.snapshot.FailsAfterRename? && WholeFates(faults.fates)
  }

  lemma FateIsWhole(fates: seq<Fate>, i: nat)
    requires WholeFates(fates)
    ensures !FateOf(fates, i).saving.FailsAfterRename?
  {
  }

  ghost predicate NoneOf(files: map<FilePath, Bytes>, v: NewVersion) {
    forall filename :: AttachmentPath(v.policy, v.number, filename) !in files
  }

  ghost predicate SavedOk(v: NewVersion, base: map<FilePath, Bytes>, b: Saved) {
    var stored := StoredPaths(b.rows);
    && (forall path :: path in b.files <==> path in base || path in stored)
    && (forall path | path in base && path in b.files :: b.files[path] == base[path])
    && b.created == [SnapshotPath(v.policy, v.number)] + stored
    && (forall i | 0 <= i < |stored| ::
          stored[i].AttachmentPath? && stored[i].policy == v.policy && stored[i].number == v.number
          && stored[i].filename in b.used)
    && Distinct(stored)
    && (forall a | a in b.rows :: a.version == v.id)
  }

  // The names of safe_attachment_filename differ from the used ones.
  lemma SafeNamesAreFresh(cf: char -> string, word: char -> bool)
    requires KeepsPlain(cf)
    ensures Fresh(SafeNames(cf, word))
  {
    forall displayName, urlPath, used ensures SafeNames(cf, word).filename(displayName, urlPath, used) !in used {
      var name := Basename(displayName, urlPath, word);
      PickIsFree(name, used, cf);
      assert forall u | u in used :: Fold(u, cf) in FoldSet(used, cf);
    }
  }

  lemma FailedRowKeeps(v: NewVersion, base: map<FilePath, Bytes>, b: Saved, b': Saved, row: Attachment)
    requires SavedOk(v, base, b) && row.version == v.id && row.storedPath.None?
    requires b'.rows == b.rows + [row] && b.used <= b'.used && b'.files == b.files && b'.created == b.created
    ensures SavedOk(v, base, b')
  {
    StoredAppend(b.rows, [row]);
    assert StoredPaths([row]) == [];
    assert StoredPaths(b'.rows) == StoredPaths(b.rows);
  }

  lemma StoredRowKeeps(
    v: NewVersion, base: map<FilePath, Bytes>, b: Saved, b': Saved, row: Attachment, filename: string, content: Bytes)
    requires SavedOk(v, base, b) && filename !in b.used && NoneOf(base, v)
    requires row.version == v.id && row.storedPath == Some(AttachmentPath(v.policy, v.number, filename))
    requires b'.rows == b.rows + [row] && b'.used == b.used + [filename]
    requires b'.files == b.files[row.storedPath.value := content] && b'.created == b.created + [row.storedPath.value]
    ensures SavedOk(v, base, b')
  {
    var path := row.storedPath.value;
    StoredAppend(b.rows, [row]);
    assert StoredPaths([row]) == [path];
    var stored := StoredPaths(b.rows);
    assert StoredPaths(b'.rows) == stored + [path];
    assert path !in base;
    assert b'.created == [SnapshotPath(v.policy, v.number)] + (stored + [path]);
  }

  // Nothing goes wrong for this attachment.
  predicate Fine(fate: Fate) {
    !fate.insertFails && fate.download.Some? && fate.saving.Saves? && !fate.flushFails
  }

  lemma UsedOnly(v: NewVersion, base: map<FilePath, Bytes>, b: Saved, b': Saved)
    requires SavedOk(v, base, b)
    requires b'.rows == b.rows && b.used <= b'.used && b'.files == b.files && b'.created == b.created
    ensures SavedOk(v, base, b')
  {
  }

  // One attachment, when its path is free: its fate alone decides.
  lemma SaveAsIs(v: NewVersion, files: map<FilePath, Bytes>, m: Metadata, fate: Fate, filename: string)
    requires !fate.saving.FailsAfterRename? && AttachmentPath(v.policy, v.number, filename) !in files
    ensures var piece := SaveAs(v, files, m, fate, filename);
            var path := AttachmentPath(v.policy, v.number, filename);
            var row := Attachment(v.id, m.displayName, m.sourceUrl, if Fine(fate) then Some(path) else None);
            && piece.rows == (if !Fine(fate) && fate.recordFails then [] else [row])
            && (if Fine(fate) then piece.files == files[path := fate.download.value] && piece.created == [path]
                else piece.files == files && piece.created == [])
  {
    var path := AttachmentPath(v.policy, v.number, filename);
    if fate.download.Some? { assert files[path := fate.download.value] - {path} == files; }
  }

  lemma SaveOneKeeps(
    names: Namer, v: NewVersion, base: map<FilePath, Bytes>, b: Saved, b': Saved, a: AttachmentPayload, fate: Fate)
    requires Fresh(names) && SavedOk(v, base, b) && NoneOf(base, v) && !fate.saving.FailsAfterRename?
    requires b' == SaveOne(names, v, b, a, fate)
    ensures SavedOk(v, base, b')
  {
    var m := names.metadata(a);
    if Addressed(names, a) {
      var filename := FilenameFor(names, b.used, a);
      var path := AttachmentPath(v.policy, v.number, filename);
      FreePath(v, base, b, filename);
      SaveAsIs(v, b.files, m, fate, filename);
      if Fine(fate) {
        StoredRowKeeps(v, base, b, b', Attachment(v.id, m.displayName, m.sourceUrl, Some(path)), filename, fate.download.value);
      } else if fate.recordFails {
        UsedOnly(v, base, b, b');
      } else {
        FailedRowKeeps(v, base, b, b', Attachment(v.id, m.displayName, m.sourceUrl, None));
      }
    }
  }

  lemma FreePath(v: NewVersion, base: map<FilePath, Bytes>, b: Saved, filename: string)
    requires SavedOk(v, base, b) && NoneOf(base, v) && filename !in b.used
    ensures AttachmentPath(v.policy, v.number, filename) !in b.files
  {
  }

  lemma SaveFirstKeeps(
    names: Namer, v: NewVersion, base: map<FilePath, Bytes>, b: Saved, as': seq<AttachmentPayload>, fates: seq<Fate>, n: nat)
    requires Fresh(names) && SavedOk(v, base, b) && NoneOf(base, v) && n <= |as'| && WholeFates(fates)
    ensures SavedOk(v, base, SaveFirst(names, v, b, as', fates, n))
  {
    var p := (s: Saved) => SavedOk(v, base, s);
    forall s: Saved, k: nat | k < n && p(s) ensures p(SaveOne(names, v, s, as'[k], FateOf(fates, k))) {
      FateIsWhole(fates, k);
      SaveOneKeeps(names, v, base, s, SaveOne(names, v, s, as'[k], FateOf(fates, k)), as'[k], FateOf(fates, k));
    }
    SavesKeep(names, v, b, as', fates, 0, n, p);
  }

  // ---------- One transaction ----------

  // The files gained exactly the created paths, and kept what they held.
  ghost predicate Written(files: map<FilePath, Bytes>, files': map<FilePath, Bytes>, created: seq<FilePath>) {
    && (forall path :: path in files' <==> path in files || path in created)
    && (forall path | path in files && path in files' :: files'[path] == files[path])
    && (forall path | path in created :: path !in files)
    && OneVersion(created)
  }

  lemma CleanupRestores(files: map<FilePath, Bytes>, files': map<FilePath, Bytes>, created: seq<FilePath>)
    requires Written(files, files', created)
    ensures RemoveAll(files', created) == files
  {
  }

  lemma SavedIsWritten(files: map<FilePath, Bytes>, v: NewVersion, base: map<FilePath, Bytes>, b: Saved, content: Bytes)
    requires SnapshotPath(v.policy, v.number) !in files && NoneOf(files, v)
    requires base == files[SnapshotPath(v.policy, v.number) := content] && SavedOk(v, base, b)
    ensures Written(files, b.files, b.created)
  {
    var stored := StoredPaths(b.rows);
    assert forall i | 0 <= i < |stored| :: stored[i] !in files;
    assert forall i | 1 <= i < |b.created| :: b.created[i] == stored[i - 1];
  }

  function NewVersionOf(s: State, policy: nat): NewVersion {
    NewVersion(policy, MaxNumber(s.versions, policy) + 1, |s.versions|)
  }

  function NewSnapshot(s: State, policy: nat): FilePath {
    SnapshotPath(policy, MaxNumber(s.versions, policy) + 1)
  }

  // The rows and files of a committed new version.
  ghost predicate AddsRows(s: State, s': State, created: seq<FilePath>, rows: seq<Attachment>) {
    && |created| >= 1 && |s'.versions| == |s.versions| + 1 && s'.versions[..|s.versions|] == s.versions
    && s'.versions[|s.versions|].snapshot == created[0]
    && created[0] == SnapshotPath(s'.versions[|s.versions|].policy, s'.versions[|s.versions|].number)
    && s'.attachments == s.attachments + rows
    && StoredPaths(rows) == created[1..]
    && (forall a | a in rows :: a.version == |s.versions|)
  }

  ghost predicate SameReferences(s: State, s': State) {
    s'.versions == s.versions && s'.attachments == s.attachments
  }

  // What an attempt does to files, and to the rows that refer to them.
  ghost predicate FilesFollow(s: State, a: Attempt) {
    && Written(s.files, a.tables.files, a.created)
    && (a.reply.Ingested? && a.reply.createdVersion ==>
          |s.attachments| <= |a.tables.attachments|
          && AddsRows(s, a.tables, a.created, a.tables.attachments[|s.attachments|..]))
    && (a.reply.Ingested? && !a.reply.createdVersion ==>
          a.created == [] && a.tables.files == s.files && SameReferences(s, a.tables))
    && (a.reply.Ingested? ==> a.tables.cleanups == s.cleanups && a.tables.items == s.items)
  }

  lemma EmptySaved(v: NewVersion, base: map<FilePath, Bytes>)
    ensures SavedOk(v, base, Saved(base, [], [SnapshotPath(v.policy, v.number)], [], false))
  {
  }

  lemma NothingWritten(files: map<FilePath, Bytes>)
    ensures Written(files, files, [])
  {
  }

  lemma OnlySnapshot(files: map<FilePath, Bytes>, path: FilePath, content: Bytes)
    requires path.SnapshotPath? && path !in files
    ensures Written(files, files[path := content], [path])
  {
  }

  // The attachments of a version whose snapshot has just been saved.
  lemma AttachedFiles(
    names: Namer, s: State, policy: nat, payload: Payload, faults: Faults, now: Instant, createdPolicy: bool, a: Attempt,
    content: Bytes)
    requires policy in s.policies && Fresh(names) && AllOrNothing(faults)
    requires NewSnapshot(s, policy) !in s.files && NoneOf(s.files, NewVersionOf(s, policy))
    requires a == Attached(names, s.(files := s.files[NewSnapshot(s, policy) := content]), policy, payload, faults, now,
                           createdPolicy)
    ensures FilesFollow(s, a) && !a.reply.PathExists? && (a.reply.Ingested? ==> a.reply.createdVersion)
  {
    var v, path := NewVersionOf(s, policy), NewSnapshot(s, policy);
    var base := s.files[path := content];
    var b0 := Saved(base, [], [path], [], false);
    EmptySaved(v, base);
    assert NoneOf(base, v);
    SaveFirstKeeps(names, v, base, b0, payload.attachments, faults.fates, |payload.attachments|);
    var b, row := AttachedIs(names, s.(files := base), policy, payload, faults, now, createdPolicy, v);
    SavedIsWritten(s.files, v, base, b, content);
    assert b.created[0] == path && b.created[1..] == StoredPaths(b.rows);
    assert (s.attachments + b.rows)[|s.attachments|..] == b.rows;
  }

  lemma VersionedFiles(
    names: Namer, s: State, policy: nat, payload: Payload, faults: Faults, now: Instant, createdPolicy: bool, a: Attempt)
    requires policy in s.policies && Fresh(names) && AllOrNothing(faults)
    requires NewSnapshot(s, policy) !in s.files ==> NoneOf(s.files, NewVersionOf(s, policy))
    requires a == Versioned(names, s, policy, payload, faults, now, createdPolicy)
    ensures FilesFollow(s, a)
    ensures a.reply.PathExists? <==> NewSnapshot(s, policy) in s.files
    ensures a.reply.Ingested? ==> a.reply.createdVersion
  {
    var path := NewSnapshot(s, policy);
    NothingWritten(s.files);
    if path !in s.files && faults.snapshot.Saves? {
      if faults.flushFails {
        OnlySnapshot(s.files, path, payload.rawHtml);
      } else {
        AttachedFiles(names, s, policy, payload, faults, now, createdPolicy, a, payload.rawHtml);
      }
    }
  }

  // ---------- The invariant over one operation ----------

  lemma NewAttachmentUnreferenced(s: State, v: NewVersion, filename: string)
    requires Numbered(s.versions) && AttachmentsOk(s) && v.number == MaxNumber(s.versions, v.policy) + 1
    ensures !Referenced(s, AttachmentPath(v.policy, v.number, filename))
  {
    var path := AttachmentPath(v.policy, v.number, filename);
    MaxIsCount(s.versions, v.policy);
    StoredHasRow(s.attachments, path);
    forall a | a in s.attachments ensures a.storedPath != Some(path) {
      NumberAtMostCount(s.versions, a.version);
    }
  }

  // Cleanup removes a snapshot last, so none of its attachments waits when it does not.
  lemma NewAttachmentNotPending(s: State, path: FilePath)
    requires CleanupsOk(s.cleanups) && path.AttachmentPath? && !PendingAt(s, SnapshotPath(path.policy, path.number))
    ensures !PendingAt(s, path)
  {
    forall k | 0 <= k < |s.cleanups| ensures path !in s.cleanups[k] {
      var c := s.cleanups[k];
      assert OneVersion(c);
      if c != [] { assert c[0] in c && PendingAt(s, c[0]); }
    }
  }

  lemma FreeIfUnknown(s: State, path: FilePath)
    requires Conserved(s) && !Referenced(s, path) && !PendingAt(s, path)
    ensures path !in s.files
  {
  }

  lemma PendingIsStored(s: State, path: FilePath)
    requires Conserved(s) && path !in s.files
    ensures !PendingAt(s, path)
  {
  }

  lemma NewAttachmentFree(s: State, v: NewVersion, filename: string)
    requires Numbered(s.versions) && FilesOk(s) && v.number == MaxNumber(s.versions, v.policy) + 1
    requires SnapshotPath(v.policy, v.number) !in s.files
    ensures AttachmentPath(v.policy, v.number, filename) !in s.files
  {
    var path := AttachmentPath(v.policy, v.number, filename);
    NewAttachmentUnreferenced(s, v, filename);
    PendingIsStored(s, SnapshotPath(v.policy, v.number));
    NewAttachmentNotPending(s, path);
    FreeIfUnknown(s, path);
  }

  // The directory of a version that is yet to be numbered holds no attachment unless it holds the snapshot.
  lemma NewDirectoryIsEmpty(s: State, policy: nat)
    requires Numbered(s.versions) && FilesOk(s) && NewSnapshot(s, policy) !in s.files
    ensures NoneOf(s.files, NewVersionOf(s, policy))
  {
    var v := NewVersionOf(s, policy);
    forall filename ensures AttachmentPath(v.policy, v.number, filename) !in s.files {
      NewAttachmentFree(s, v, filename);
    }
  }

  // The created files of a failed call join the cleanups.
  lemma CreatedPend(s: State, s': State, created: seq<FilePath>)
    requires FilesOk(s) && SameReferences(s, s')
    requires Written(s.files, s'.files, created) && s'.cleanups == s.cleanups + [created]
    ensures FilesOk(s')
  {
    var n := |s.cleanups|;
    forall path ensures PendingAt(s', path) <==> PendingAt(s, path) || path in created {
      if PendingAt(s, path) {
        var k :| 0 <= k < n && path in s.cleanups[k];
        assert path in s'.cleanups[k];
      }
      if path in created { assert path in s'.cleanups[n]; }
    }
    forall path ensures Referenced(s', path) <==> Referenced(s, path) {}
    forall j, k | 0 <= j < k <= n ensures forall path | path in s'.cleanups[j] :: path !in s'.cleanups[k] {
      forall path | path in s'.cleanups[j] ensures path !in s'.cleanups[k] {
        if k == n { assert PendingAt(s, path); }
      }
    }
  }

  // The created files of a committed version are those that its rows refer to.
  lemma CreatedReferenced(s: State, s': State, created: seq<FilePath>, rows: seq<Attachment>)
    requires Written(s.files, s'.files, created) && AddsRows(s, s', created, rows)
    ensures forall path :: Referenced(s', path) <==> Referenced(s, path) || path in created
  {
    StoredAppend(s.attachments, rows);
    assert created == [created[0]] + created[1..];
    forall path ensures Referenced(s', path) <==> Referenced(s, path) || path in created {
      if exists i :: 0 <= i < |s.versions| && s.versions[i].snapshot == path {
        var i :| 0 <= i < |s.versions| && s.versions[i].snapshot == path;
        assert s'.versions[i].snapshot == path;
      }
      if path == created[0] { assert s'.versions[|s.versions|].snapshot == path; }
    }
  }

  lemma CommitKeepsAttachments(s: State, s': State, created: seq<FilePath>, rows: seq<Attachment>)
    requires FilesOk(s) && Written(s.files, s'.files, created) && AddsRows(s, s', created, rows)
    ensures AttachmentsOk(s')
  {
    StoredAppend(s.attachments, rows);
    var old', new' := StoredPaths(s.attachments), created[1..];
    forall i | 0 <= i < |old'| ensures old'[i] in s.files {
      assert Referenced(s, old'[i]);
    }
    forall a | a in rows && a.storedPath.Some?
      ensures a.storedPath.value.AttachmentPath? && a.storedPath.value.policy == created[0].policy
              && a.storedPath.value.number == created[0].number
    {
      StoredHasRow(rows, a.storedPath.value);
    }
    forall i, j | 0 <= i < j < |old' + new'| ensures (old' + new')[i] != (old' + new')[j] {
      if i < |old'| <= j { assert new'[j - |old'|] in created; }
    }
  }

  lemma CommitKeepsFiles(s: State, s': State, created: seq<FilePath>, rows: seq<Attachment>)
    requires FilesOk(s) && Written(s.files, s'.files, created) && AddsRows(s, s', created, rows)
    requires s'.cleanups == s.cleanups
    ensures FilesOk(s')
  {
    CreatedReferenced(s, s', created, rows);
    CommitKeepsAttachments(s, s', created, rows);
    forall path ensures PendingAt(s', path) <==> PendingAt(s, path) {}
    forall path | path in created ensures !PendingAt(s, path) {}
  }

  lemma CleanKeepsCleanups(cs: seq<seq<FilePath>>, k: nat)
    requires CleanupsOk(cs) && k < |cs| && cs[k] != []
    ensures CleanupsOk(cs[k := cs[k][..|cs[k]| - 1]])
  {
    var c := cs[k];
    assert OneVersion(c);
    assert forall path | path in c[..|c| - 1] :: path in c;
  }

  lemma CleanedPath(s: State, s': State, k: nat, gone: FilePath, path: FilePath)
    requires CleanupsOk(s.cleanups) && k < |s.cleanups| && s.cleanups[k] != []
    requires gone == s.cleanups[k][|s.cleanups[k]| - 1]
    requires s'.cleanups == s.cleanups[k := s.cleanups[k][..|s.cleanups[k]| - 1]]
    ensures PendingAt(s', path) <==> PendingAt(s, path) && path != gone
    ensures PendingAt(s, gone)
  {
    var c := s.cleanups[k];
    assert OneVersion(c) && c == c[..|c| - 1] + [gone];
    assert PendingAt(s, gone) by { assert gone in s.cleanups[k]; }
    if PendingAt(s, path) && path != gone {
      var j :| 0 <= j < |s.cleanups| && path in s.cleanups[j];
      assert PendingAt(s', path) by {
        if j == k { assert path in c[..|c| - 1]; }
        assert path in s'.cleanups[j];
      }
    }
    if PendingAt(s', path) {
      var j :| 0 <= j < |s'.cleanups| && path in s'.cleanups[j];
      assert path in s.cleanups[j] && path != gone by {
        if j == k { assert path in c[..|c| - 1]; }
      }
    }
  }

  lemma CleanKeepsFiles(s: State, k: nat)
    requires FilesOk(s)
    ensures FilesOk(CleanUp(s, k))
  {
    if k < |s.cleanups| && s.cleanups[k] != [] {
      var s' := CleanUp(s, k);
      var gone := s.cleanups[k][|s.cleanups[k]| - 1];
      CleanKeepsCleanups(s.cleanups, k);
      forall path ensures PendingAt(s', path) <==> PendingAt(s, path) && path != gone {
        CleanedPath(s, s', k, gone, path);
      }
      CleanedPath(s, s', k, gone, gone);
      forall path ensures Referenced(s', path) <==> Referenced(s, path) {}
    }
  }

  // ---------- Every operation ----------

  lemma SameFilesKeep(s: State, s': State)
    requires FilesOk(s) && SameReferences(s, s') && s'.files == s.files && s'.cleanups == s.cleanups
    ensures FilesOk(s')
  {
    forall path ensures (Referenced(s', path) <==> Referenced(s, path)) && (PendingAt(s', path) <==> PendingAt(s, path)) {}
  }

  // One more cleanup that has nothing to do.
  lemma IdleCleanupKeeps(s: State, s': State)
    requires FilesOk(s) && SameReferences(s, s') && s'.files == s.files && s'.cleanups == s.cleanups + [[]]
    ensures FilesOk(s')
  {
    NothingWritten(s.files);
    CreatedPend(s, s', []);
  }

  lemma NewSnapshotUnreferenced(s: State, policy: nat)
    requires IdentityOk(s) && AttachmentsOk(s)
    ensures !Referenced(s, NewSnapshot(s, policy))
  {
    var path := NewSnapshot(s, policy);
    MaxIsCount(s.versions, policy);
    StoredHasRow(s.attachments, path);
    forall i | 0 <= i < |s.versions| ensures s.versions[i].snapshot != path {
      NumberAtMostCount(s.versions, i);
    }
  }

  // A snapshot path that is taken before its version is numbered waits for cleanup.
  lemma BlockedByCleanup(s: State, policy: nat)
    requires IdentityOk(s) && FilesOk(s) && NewSnapshot(s, policy) in s.files
    ensures exists k :: 0 <= k < |s.cleanups| && s.cleanups[k] != [] && s.cleanups[k][0] == NewSnapshot(s, policy)
  {
    var path := NewSnapshot(s, policy);
    NewSnapshotUnreferenced(s, policy);
    assert PendingAt(s, path);
    var k :| 0 <= k < |s.cleanups| && path in s.cleanups[k];
    assert OneVersion(s.cleanups[k]);
  }

  lemma SameFilesFollow(s: State, s1: State, a: Attempt)
    requires FilesFollow(s1, a) && (a.reply.Ingested? ==> a.reply.createdVersion)
    requires SameReferences(s, s1) && s1.files == s.files && s1.cleanups == s.cleanups && s1.items == s.items
    ensures FilesFollow(s, a)
  {
  }

  // An attempt, given that the directory of the version it may number is free.
  lemma AttemptFollows(names: Namer, s: State, payload: Payload, faults: Faults, now: Instant, policy: nat, a: Attempt)
    requires Fresh(names) && AllOrNothing(faults)
    requires Refusal(s, payload).None? && policy == MatchedBy(s, payload).GetOr(s.nextPolicy)
    requires NewSnapshot(s, policy) !in s.files ==> NoneOf(s.files, NewVersionOf(s, policy))
    requires a == Attempted(names, s, payload, faults, now)
    ensures FilesFollow(s, a)
    ensures a.reply.PathExists? ==> NewSnapshot(s, policy) in s.files
  {
    NothingWritten(s.files);
    var s1 := AttemptBranches(names, s, payload, faults, now);
    RecordedIs(s, payload, MatchedBy(s, payload), now);
    if FindVersion(s.versions, policy, ContentOf(payload)).None? {
      VersionedFiles(names, s1, policy, payload, faults, now, MatchedBy(s, payload).None?, a);
      SameFilesFollow(s, s1, a);
    }
  }

  lemma AttemptFiles(names: Namer, s: State, payload: Payload, faults: Faults, now: Instant, a: Attempt)
    requires IdentityOk(s) && FilesOk(s) && Fresh(names) && AllOrNothing(faults)
    requires a == Attempted(names, s, payload, faults, now)
    ensures FilesFollow(s, a)
    ensures a.reply.PathExists? ==>
              Refusal(s, payload).None? && NewSnapshot(s, MatchedBy(s, payload).GetOr(s.nextPolicy)) in s.files
  {
    NothingWritten(s.files);
    if Refusal(s, payload).None? {
      var policy := MatchedBy(s, payload).GetOr(s.nextPolicy);
      if NewSnapshot(s, policy) !in s.files { NewDirectoryIsEmpty(s, policy); }
      AttemptFollows(names, s, payload, faults, now, policy, a);
    }
  }

  // The cleanup of an attempt gives the files back.
  lemma AttemptCleanup(names: Namer, s: State, payload: Payload, faults: Faults, now: Instant, a: Attempt)
    requires IdentityOk(s) && FilesOk(s) && Fresh(names) && AllOrNothing(faults)
    requires a == Attempted(names, s, payload, faults, now)
    ensures RemoveAll(a.tables.files, a.created) == s.files
  {
    AttemptFiles(names, s, payload, faults, now, a);
    CleanupRestores(s.files, a.tables.files, a.created);
  }
}
