/** Policy ingestion (PolicyIngestionService in backend/app/modules/policies/service.py and FileStore
    in files.py): the policy tables and the file store. Each database transaction is a total function;
    files are outside the database, so a failed transaction rolls the tables back and leaves the
    files to an explicit cleanup. */
module Ingestion {
  import opened Wrappers
  import opened Text
  import opened Normalize
  import opened AttachmentNames

  type Instant = int
  type Date = int
  type Bytes = string

  // How attachments are named: their cleaned display name and source URL, and a file name made from
  // the display name, the names in use and, where the display name says nothing, the path of the
  // source URL.
  datatype Namer = Namer(
    metadata: AttachmentPayload -> Metadata, asksUrl: string -> bool, filename: (string, string, seq<string>) -> string)

  datatype Metadata = Metadata(displayName: string, sourceUrl: string)

  // What ingestion needs of it.
  ghost predicate Fresh(names: Namer) {
    forall displayName, urlPath, used :: names.filename(displayName, urlPath, used) !in used
  }

  // _attachment_metadata and safe_attachment_filename
  function SafeNames(cf: char -> string, word: char -> bool): Namer {
    Namer(CleanMetadata, NamesNothing, (displayName, urlPath, used) => Pick(Basename(displayName, urlPath, word), used, cf))
  }

  function CleanMetadata(a: AttachmentPayload): Metadata {
    Metadata(OrAttachment(Prefix(NormalizeText(a.displayName), 512)), Prefix(Strip(a.sourceUrl), 65535))
  }

  // ---------- Tables and files ----------

  datatype Policy = Policy(
    title: string, documentNumber: Option<string>, publishedOn: Option<Date>, deadlineOn: Option<Date>,
    currentVersion: Option<nat>)

  datatype Discovery = Discovery(
    policy: nat, source: nat, channel: nat, originalUrl: string, url: string, firstSeen: Instant, lastSeen: Instant)

  // FileStore's two directories.
  datatype FilePath =
    | SnapshotPath(policy: nat, number: nat)
    | AttachmentPath(policy: nat, number: nat, filename: string)

  // content is what the fingerprint is taken of; SHA-256 is taken to be injective.
  datatype Version = Version(
    policy: nat, number: nat, title: string, bodyText: string, bodyHtml: string, content: string, snapshot: FilePath,
    collectedAt: Instant)

  // A downloaded attachment has a stored path, a failed one has none.
  datatype Attachment = Attachment(version: nat, displayName: string, sourceUrl: string, storedPath: Option<FilePath>)

  datatype ItemStatus = Pending | Succeeded | Failed
  datatype Item = Item(task: nat, channel: nat, originalUrl: string, status: ItemStatus, policy: Option<nat>)

  // A policy's key is part of its files' paths, and a rollback does not give it back: nextPolicy only
  // grows. Other primary keys are positions. batches holds the version of each evaluation batch.
  // cleanups holds, call by call, the files that a failed ingest_and_mark_task_item has yet to
  // remove: it does so after giving up the ingestion lock.
  datatype State = State(
    channels: map<nat, nat>,
    policies: map<nat, Policy>,
    nextPolicy: nat,
    discoveries: seq<Discovery>,
    versions: seq<Version>,
    attachments: seq<Attachment>,
    batches: seq<nat>,
    items: seq<Item>,
    files: map<FilePath, Bytes>,
    cleanups: seq<seq<FilePath>>)

  const Empty := State(map[], map[], 0, [], [], [], [], [], map[], [])

  // ---------- Input ----------

  datatype DateText = NoDate | On(day: Date) | NotIso

  // urlPath is the unquoted path of the stripped source URL, None where urlsplit raises.
  datatype AttachmentPayload = AttachmentPayload(displayName: string, sourceUrl: string, urlPath: Option<string>)

  // url is what normalize_url makes of originalUrl, None where it raises.
  datatype Payload = Payload(
    task: nat, channel: nat, title: string, originalUrl: string, url: Option<string>,
    publishedOn: DateText, documentNumber: Option<string>, deadlineOn: DateText,
    bodyText: string, bodyHtml: string, rawHtml: Bytes, attachments: seq<AttachmentPayload>)

  // What may go wrong on the way. A write fails before its file appears, or after: the directory
  // is synchronised after the rename.
  datatype Saving = Saves | FailsBeforeRename | FailsAfterRename

  datatype Fate = Fate(
    insertFails: bool, download: Option<Bytes>, saving: Saving, flushFails: bool, recordFails: bool)

  const LostFate := Fate(false, None, Saves, false, false)

  datatype Faults = Faults(
    lockFails: bool, snapshot: Saving, flushFails: bool, fates: seq<Fate>, rulePublished: bool, commitFails: bool,
    releaseFails: bool)

  datatype Reply =
    | Done
    | Ingested(policy: nat, version: nat, createdPolicy: bool, createdVersion: bool)
    | LockTimeout
    | NoTaskItem
    | UnknownChannel
    | BadUrl
    | BlankTitle
    | BadDate
    | PathExists
    | WriteFailed
    | BadAttachmentUrl
    | DatabaseFailed
    | ReleaseFailed

  // ---------- Matching ----------

  // The least key below n that a condition holds of.
  function LeastPolicy(p: nat -> bool, n: nat): (r: Option<nat>)
    ensures r.Some? ==> r.value < n && p(r.value) && forall j: nat | j < r.value :: !p(j)
    ensures r.None? ==> forall j: nat | j < n :: !p(j)
  {
    if n == 0 then None
    else
      var before := LeastPolicy(p, n - 1);
      if before.Some? then before else if p(n - 1) then Some(n - 1) else None
  }

  predicate SeenAt(s: State, policy: nat, url: string) {
    exists d | d in s.discoveries :: d.policy == policy && d.url == url
  }

  predicate HasContent(s: State, policy: nat, content: string) {
    exists v | v in s.versions :: v.policy == policy && v.content == content
  }

  function SeenUnder(s: State, url: string): nat -> bool {
    (p: nat) => p in s.policies && SeenAt(s, p, url)
  }

  function ByUrl(s: State, url: string): Option<nat> {
    LeastPolicy(SeenUnder(s, url), s.nextPolicy)
  }

  function NumberedAs(s: State, number: string): nat -> bool {
    (p: nat) => p in s.policies && s.policies[p].documentNumber == Some(number)
  }

  function ByNumber(s: State, number: string): Option<nat> {
    LeastPolicy(NumberedAs(s, number), s.nextPolicy)
  }

  function TitledOn(s: State, title: string, day: Date): nat -> bool {
    (p: nat) => p in s.policies && s.policies[p].title == title && s.policies[p].publishedOn == Some(day)
  }

  function ByTitleAndDate(s: State, title: string, day: Date): Option<nat> {
    LeastPolicy(TitledOn(s, title, day), s.nextPolicy)
  }

  function TitledWith(s: State, title: string, content: string): nat -> bool {
    (p: nat) => p in s.policies && s.policies[p].title == title && HasContent(s, p, content)
  }

  function ByTitleAndContent(s: State, title: string, content: string): Option<nat> {
    LeastPolicy(TitledWith(s, title, content), s.nextPolicy)
  }

  // _match_policy
  function Matched(s: State, url: string, number: Option<string>, title: string, published: Option<Date>, content: string)
    : Option<nat>
  {
    if ByUrl(s, url).Some? then ByUrl(s, url)
    else if number.Some? && ByNumber(s, number.value).Some? then ByNumber(s, number.value)
    else if published.Some? && ByTitleAndDate(s, title, published.value).Some? then ByTitleAndDate(s, title, published.value)
    else ByTitleAndContent(s, title, content)
  }

  // ---------- One transaction ----------

  function Refusal(s: State, payload: Payload): Option<Reply> {
    if payload.channel !in s.channels then Some(UnknownChannel)
    else if payload.url.None? then Some(BadUrl)
    else if NormalizeText(payload.title) == "" then Some(BlankTitle)
    else if payload.publishedOn.NotIso? || payload.deadlineOn.NotIso? then Some(BadDate)
    else None
  }

  function Day(d: DateText): Option<Date> {
    if d.On? then Some(d.day) else None
  }

  function NumberOf(payload: Payload): Option<string> {
    var number := NormalizeText(payload.documentNumber.GetOr(""));
    if number == "" then None else Some(number)
  }

  function ContentOf(payload: Payload): string {
    ContentText(NormalizeText(payload.title), payload.bodyText)
  }

  function MatchedBy(s: State, payload: Payload): Option<nat>
    requires payload.url.Some?
  {
    Matched(s, payload.url.value, NumberOf(payload), NormalizeText(payload.title), Day(payload.publishedOn), ContentOf(payload))
  }

  const Untitled := Policy("", None, None, None, None)

  // The policy row with the fields that every ingestion overwrites.
  function Titled(p: Policy, payload: Payload): Policy {
    p.(title := NormalizeText(payload.title),
       documentNumber := NumberOf(payload),
       publishedOn := Day(payload.publishedOn),
       deadlineOn := Day(payload.deadlineOn))
  }

  function FindDiscovery(ds: seq<Discovery>, channel: nat, url: string): (r: Option<nat>)
    ensures r.Some? ==> r.value < |ds| && ds[r.value].channel == channel && ds[r.value].url == url
    ensures r.None? ==> forall i | 0 <= i < |ds| :: !(ds[i].channel == channel && ds[i].url == url)
  {
    if ds == [] then None
    else if FindDiscovery(ds[..|ds| - 1], channel, url).Some? then FindDiscovery(ds[..|ds| - 1], channel, url)
    else if ds[|ds| - 1].channel == channel && ds[|ds| - 1].url == url then Some(|ds| - 1)
    else None
  }

  function FindVersion(vs: seq<Version>, policy: nat, content: string): (r: Option<nat>)
    ensures r.Some? ==> r.value < |vs| && vs[r.value].policy == policy && vs[r.value].content == content
    ensures r.None? ==> forall i | 0 <= i < |vs| :: !(vs[i].policy == policy && vs[i].content == content)
  {
    if vs == [] then None
    else if FindVersion(vs[..|vs| - 1], policy, content).Some? then FindVersion(vs[..|vs| - 1], policy, content)
    else if vs[|vs| - 1].policy == policy && vs[|vs| - 1].content == content then Some(|vs| - 1)
    else None
  }

  // coalesce(max(version_number), 0)
  function MaxNumber(vs: seq<Version>, policy: nat): nat {
    if vs == [] then 0
    else
      var before := MaxNumber(vs[..|vs| - 1], policy);
      var v := vs[|vs| - 1];
      if v.policy == policy && v.number > before then v.number else before
  }

  // The discoveries after a visit to a policy's URL.
  function Visited(ds: seq<Discovery>, policy: nat, source: nat, payload: Payload, now: Instant): seq<Discovery>
    requires payload.url.Some?
  {
    var found := FindDiscovery(ds, payload.channel, payload.url.value);
    if found.Some? then ds[found.value := ds[found.value].(lastSeen := now)]
    else ds + [Discovery(policy, source, payload.channel, payload.originalUrl, payload.url.value, now, now)]
  }

  function Recorded(s: State, payload: Payload, match': Option<nat>, now: Instant): State
    requires Refusal(s, payload).None?
    requires match'.Some? ==> match'.value in s.policies
  {
    var policy := match'.GetOr(s.nextPolicy);
    s.(policies := s.policies[policy := Titled(if match'.Some? then s.policies[policy] else Untitled, payload)],
       nextPolicy := if match'.Some? then s.nextPolicy else s.nextPolicy + 1,
       discoveries := Visited(s.discoveries, policy, s.channels[payload.channel], payload, now))
  }

  // ---------- Files ----------

  // FileStore._atomic_write: None when it succeeds, else the exception.
  function Write(files: map<FilePath, Bytes>, path: FilePath, content: Bytes, saving: Saving)
    : (map<FilePath, Bytes>, Option<Reply>)
  {
    if path in files then (files, Some(PathExists))
    else
      match saving
      case Saves => (files[path := content], None)
      case FailsBeforeRename => (files, Some(WriteFailed))
      case FailsAfterRename => (files[path := content], Some(WriteFailed))
  }

  function RemoveAll(files: map<FilePath, Bytes>, paths: seq<FilePath>): map<FilePath, Bytes> {
    map p | p in files && p !in paths :: files[p]
  }

  // ---------- Attachments ----------

  // The loop variables of _save_attachments.
  datatype Saved = Saved(
    files: map<FilePath, Bytes>, rows: seq<Attachment>, created: seq<FilePath>, used: seq<string>, raised: bool)

  datatype NewVersion = NewVersion(policy: nat, number: nat, id: nat)

  // _attachment_metadata and safe_attachment_filename raise on a blank source URL, and on one that
  // does not parse when the name has to be taken from it.
  predicate Addressed(names: Namer, a: AttachmentPayload) {
    names.metadata(a).sourceUrl != "" && (names.asksUrl(names.metadata(a).displayName) ==> a.urlPath.Some?)
  }

  function FilenameFor(names: Namer, used: seq<string>, a: AttachmentPayload): string {
    names.filename(names.metadata(a).displayName, a.urlPath.GetOr(""), used)
  }

  // What one attachment leaves: the files after it, its row if one can be written, its path if stored.
  datatype Piece = Piece(files: map<FilePath, Bytes>, rows: seq<Attachment>, created: seq<FilePath>)

  function FailedPiece(files: map<FilePath, Bytes>, v: NewVersion, m: Metadata, fate: Fate): Piece {
    Piece(files, if fate.recordFails then [] else [Attachment(v.id, m.displayName, m.sourceUrl, None)], [])
  }

  function SaveAs(v: NewVersion, files: map<FilePath, Bytes>, m: Metadata, fate: Fate, filename: string): Piece {
    var path := AttachmentPath(v.policy, v.number, filename);
    if fate.insertFails || fate.download.None? then FailedPiece(files, v, m, fate)
    else
      var (written, error) := Write(files, path, fate.download.value, fate.saving);
      if error.Some? then FailedPiece(written, v, m, fate)
      else if fate.flushFails then FailedPiece(written - {path}, v, m, fate)
      else Piece(written, [Attachment(v.id, m.displayName, m.sourceUrl, Some(path))], [path])
  }

  function WithPiece(b: Saved, piece: Piece, filename: string): Saved {
    Saved(piece.files, b.rows + piece.rows, b.created + piece.created, b.used + [filename], b.raised)
  }

  function SaveOne(names: Namer, v: NewVersion, b: Saved, a: AttachmentPayload, fate: Fate): Saved {
    var filename := FilenameFor(names, b.used, a);
    var m := names.metadata(a);
    if !Addressed(names, a) then b.(raised := true)
    else WithPiece(b, SaveAs(v, b.files, m, fate, filename), filename)
  }

  function FateOf(fates: seq<Fate>, i: nat): Fate {
    if i < |fates| then fates[i] else LostFate
  }

  // After the first n attachments; an exception ends the loop.
  function SaveFirst(names: Namer, v: NewVersion, b: Saved, attachments: seq<AttachmentPayload>, fates: seq<Fate>, n: nat): Saved
    requires n <= |attachments|
  {
    if n == 0 then b
    else
      var before := SaveFirst(names, v, b, attachments, fates, n - 1);
      if before.raised then before else SaveOne(names, v, before, attachments[n - 1], FateOf(fates, n - 1))
  }

  // What saving one attachment keeps, saving the rest keeps.
  lemma {:induction false} SavesKeep(
    names: Namer, v: NewVersion, b: Saved, as': seq<AttachmentPayload>, fates: seq<Fate>, m: nat, n: nat, p: Saved -> bool)
    requires m <= n <= |as'| && p(SaveFirst(names, v, b, as', fates, m))
    requires forall s: Saved, k: nat | m <= k < n && p(s) :: p(SaveOne(names, v, s, as'[k], FateOf(fates, k)))
    ensures p(SaveFirst(names, v, b, as', fates, n))
  {
    if m < n { SavesKeep(names, v, b, as', fates, m, n - 1, p); }
  }

  // ---------- Ingestion ----------

  // What a transaction has done by the time it ends: the tables it would commit, the files as they
  // are, and the paths it has noted for cleanup.
  datatype Attempt = Attempt(tables: State, created: seq<FilePath>, reply: Reply)

  // The version row that a snapshot is saved for.
  function NewRow(s: State, policy: nat, payload: Payload, now: Instant): Version {
    var number := MaxNumber(s.versions, policy) + 1;
    Version(policy, number, NormalizeText(payload.title), payload.bodyText, payload.bodyHtml, ContentOf(payload),
            SnapshotPath(policy, number), now)
  }

  // The tables with that row, which becomes current, and what the attachments left.
  function WithVersion(s: State, policy: nat, row: Version, b: Saved, rulePublished: bool): State
    requires policy in s.policies
  {
    s.(versions := s.versions + [row],
       policies := s.policies[policy := s.policies[policy].(currentVersion := Some(|s.versions|))],
       attachments := s.attachments + b.rows,
       batches := if rulePublished then s.batches + [|s.versions|] else s.batches,
       files := b.files)
  }

  // What follows once the version is flushed and its snapshot saved.
  function Attached(
    names: Namer, s: State, policy: nat, payload: Payload, faults: Faults, now: Instant, createdPolicy: bool): Attempt
    requires policy in s.policies
  {
    var row := NewRow(s, policy, payload, now);
    var v := NewVersion(policy, row.number, |s.versions|);
    var b := SaveFirst(names, v, Saved(s.files, [], [row.snapshot], [], false), payload.attachments, faults.fates,
                       |payload.attachments|);
    if b.raised then Attempt(s.(files := b.files), b.created, BadAttachmentUrl)
    else if faults.commitFails then Attempt(s.(files := b.files), b.created, DatabaseFailed)
    else Attempt(WithVersion(s, policy, row, b, faults.rulePublished), b.created,
                 Ingested(policy, |s.versions|, createdPolicy, true))
  }

  function Versioned(
    names: Namer, s: State, policy: nat, payload: Payload, faults: Faults, now: Instant, createdPolicy: bool): Attempt
    requires policy in s.policies
  {
    var path := SnapshotPath(policy, MaxNumber(s.versions, policy) + 1);
    var (files, error) := Write(s.files, path, payload.rawHtml, faults.snapshot);
    var s1 := s.(files := files);
    if error.Some? then Attempt(s1, [], error.value)
    else if faults.flushFails then Attempt(s1, [path], DatabaseFailed)
    else Attached(names, s1, policy, payload, faults, now, createdPolicy)
  }

  // _ingest_in_transaction
  function Attempted(names: Namer, s: State, payload: Payload, faults: Faults, now: Instant): Attempt {
    var refusal := Refusal(s, payload);
    if refusal.Some? then Attempt(s, [], refusal.value)
    else
      var match' := MatchedBy(s, payload);
      var policy := match'.GetOr(s.nextPolicy);
      var s1 := Recorded(s, payload, match', now);
      var version := FindVersion(s1.versions, policy, ContentOf(payload));
      if version.None? then Versioned(names, s1, policy, payload, faults, now, match'.None?)
      else if faults.commitFails then Attempt(s1, [], DatabaseFailed)
      else Attempt(s1, [], Ingested(policy, version.value, match'.None?, false))
  }

  // What a rollback leaves: the tables as they were but for the policy key that was given out, and
  // the files as they are.
  function RolledBack(s: State, tables: State): State {
    s.(files := tables.files, nextPolicy := tables.nextPolicy)
  }

  // ingest: the cleanup runs under the lock.
  function Ingest(names: Namer, s: State, payload: Payload, faults: Faults, now: Instant): (State, Reply) {
    var a := Attempted(names, s, payload, faults, now);
    if faults.lockFails then (s, LockTimeout)
    else if !a.reply.Ingested? then (RolledBack(s, a.tables).(files := RemoveAll(a.tables.files, a.created)), a.reply)
    else (a.tables, if faults.releaseFails then ReleaseFailed else a.reply)
  }

  function FindItem(items: seq<Item>, payload: Payload): (r: Option<nat>)
    ensures r.Some? ==>
              && r.value < |items|
              && SameItem(items[r.value], payload.task, payload.channel, payload.originalUrl)
    ensures r.None? ==> forall i | 0 <= i < |items| :: !SameItem(items[i], payload.task, payload.channel, payload.originalUrl)
  {
    if items == [] then None
    else if FindItem(items[..|items| - 1], payload).Some? then FindItem(items[..|items| - 1], payload)
    else if SameItem(items[|items| - 1], payload.task, payload.channel, payload.originalUrl) then Some(|items| - 1)
    else None
  }

  predicate SameItem(i: Item, task: nat, channel: nat, originalUrl: string) {
    i.task == task && i.channel == channel && i.originalUrl == originalUrl
  }

  function Marked(s: State, item: nat, policy: nat): State
    requires item < |s.items|
  {
    s.(items := s.items[item := s.items[item].(status := Succeeded, policy := Some(policy))])
  }

  // How ingest_and_mark_task_item ends: any exception, also that of the lock's release after the
  // commit, leaves the created files for cleanup.
  function Settled(s: State, a: Attempt, item: nat, releaseFails: bool): (State, Reply)
    requires a.reply.Ingested? ==> item < |a.tables.items|
  {
    if !a.reply.Ingested? then (RolledBack(s, a.tables).(cleanups := s.cleanups + [a.created]), a.reply)
    else
      var marked := Marked(a.tables, item, a.reply.policy);
      if releaseFails then (marked.(cleanups := s.cleanups + [a.created]), ReleaseFailed) else (marked, a.reply)
  }

  lemma VersionedKeepsItems(
    names: Namer, s: State, policy: nat, payload: Payload, faults: Faults, now: Instant, createdPolicy: bool)
    requires policy in s.policies
    ensures var a := Versioned(names, s, policy, payload, faults, now, createdPolicy);
            a.tables.items == s.items && a.tables.cleanups == s.cleanups && a.tables.nextPolicy == s.nextPolicy
  {
  }

  lemma AttemptKeepsItems(names: Namer, s: State, payload: Payload, faults: Faults, now: Instant)
    ensures Attempted(names, s, payload, faults, now).tables.items == s.items
    ensures Attempted(names, s, payload, faults, now).tables.cleanups == s.cleanups
  {
    if Refusal(s, payload).None? {
      var m := MatchedBy(s, payload);
      VersionedKeepsItems(names, Recorded(s, payload, m, now), m.GetOr(s.nextPolicy), payload, faults, now, m.None?);
    }
  }

  function IngestAndMark(names: Namer, s: State, payload: Payload, faults: Faults, now: Instant): (State, Reply) {
    var item := FindItem(s.items, payload);
    AttemptKeepsItems(names, s, payload, faults, now);
    if faults.lockFails then (s, LockTimeout)
    else if item.None? then (s, NoTaskItem)
    else Settled(s, Attempted(names, s, payload, faults, now), item.value, faults.releaseFails)
  }

  // One call of remove_file in `for path in reversed(created_paths)`.
  function CleanUp(s: State, k: nat): State {
    if k < |s.cleanups| && s.cleanups[k] != [] then
      var c := s.cleanups[k];
      s.(files := s.files - {c[|c| - 1]}, cleanups := s.cleanups[k := c[..|c| - 1]])
    else s
  }

  // ---------- Runs ----------

  datatype Step =
    | AddChannelStep(channel: nat, source: nat)
    | AddItemStep(task: nat, channel: nat, originalUrl: string)
    | FailItemStep(item: nat)
    | IngestStep(payload: Payload, faults: Faults, now: Instant)
    | MarkStep(payload: Payload, faults: Faults, now: Instant)
    | CleanStep(call: nat)

  // Task items are unique on task, channel and URL.
  function AddItem(s: State, task: nat, channel: nat, originalUrl: string): State {
    if exists i | i in s.items :: SameItem(i, task, channel, originalUrl) then s
    else s.(items := s.items + [Item(task, channel, originalUrl, Pending, None)])
  }

  function Do(names: Namer, s: State, step: Step): (State, Reply) {
    match step
    case AddChannelStep(channel, source) => (s.(channels := s.channels[channel := source]), Done)
    case AddItemStep(task, channel, url) => (AddItem(s, task, channel, url), Done)
    case FailItemStep(i) =>
      (if i < |s.items| then s.(items := s.items[i := s.items[i].(status := Failed)]) else s, Done)
    case IngestStep(payload, faults, now) => Ingest(names, s, payload, faults, now)
    case MarkStep(payload, faults, now) => IngestAndMark(names, s, payload, faults, now)
    case CleanStep(k) => (CleanUp(s, k), Done)
  }

  function Run(names: Namer, s: State, steps: seq<Step>): State
    decreases |steps|
  {
    if steps == [] then s else Run(names, Do(names, s, steps[0]).0, steps[1..])
  }
}
