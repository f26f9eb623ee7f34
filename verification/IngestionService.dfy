/** PolicyIngestionService as it runs: rows and files written step by step, attachments in a loop,
    rolled back and cleaned up on an exception. Each method is proved to be its function in Ingestion. */
module IngestionService {
  import opened Wrappers
  import opened Normalize
  import opened Ingestion
  import opened IngestionIdentity

  class PolicyIngestionService {
    var channels: map<nat, nat>
    var policies: map<nat, Policy>
    var nextPolicy: nat
    var discoveries: seq<Discovery>
    var versions: seq<Version>
    var attachments: seq<Attachment>
    var batches: seq<nat>
    var items: seq<Item>
    var files: map<FilePath, Bytes>
    var cleanups: seq<seq<FilePath>>
    const names: Namer

    ghost function Tables(): State
      reads this
    {
      State(channels, policies, nextPolicy, discoveries, versions, attachments, batches, items, files, cleanups)
    }

    // names is meant to be SafeNames, whose file names SafeAttachmentFilename computes.
    constructor (names: Namer)
      ensures Tables() == Empty && this.names == names
    {
      channels, policies, nextPolicy, discoveries, versions, attachments := map[], map[], 0, [], [], [];
      batches, items, files, cleanups := [], [], map[], [];
      this.names := names;
    }

    // The row of the matched policy, or of a new one under the next key.
    method RecordPolicy(matched: Option<nat>, payload: Payload) returns (policy: nat)
      requires matched.Some? ==> matched.value in policies
      modifies `policies, `nextPolicy
      ensures policy == matched.GetOr(old(nextPolicy))
      ensures policies
              == old(policies)[policy := Titled(if matched.Some? then old(policies)[policy] else Untitled, payload)]
      ensures nextPolicy == if matched.Some? then old(nextPolicy) else old(nextPolicy) + 1
    {
      if matched.None? {
        policy := nextPolicy;
        policies := policies[policy := Policy(NormalizeText(payload.title), NumberOf(payload), Day(payload.publishedOn),
                                              Day(payload.deadlineOn), None)];
        nextPolicy := nextPolicy + 1;
      } else {
        policy := matched.value;
        var row := policies[policy];
        row := row.(title := NormalizeText(payload.title));
        row := row.(documentNumber := NumberOf(payload));
        row := row.(publishedOn := Day(payload.publishedOn));
        row := row.(deadlineOn := Day(payload.deadlineOn));
        policies := policies[policy := row];
      }
    }

    // The rows of the policy and its discovery, new or overwritten.
    method RecordVisit(payload: Payload, now: Instant) returns (policy: nat, createdPolicy: bool)
      requires Refusal(Tables(), payload).None?
      modifies `policies, `nextPolicy, `discoveries
      ensures var m := MatchedBy(old(Tables()), payload);
              && (m.Some? ==> m.value in old(policies))
              && Tables() == Recorded(old(Tables()), payload, m, now)
              && policy == m.GetOr(old(nextPolicy)) && policy in policies && createdPolicy == m.None?
    {
      var s := State(channels, policies, nextPolicy, discoveries, versions, attachments, batches, items, files, cleanups);
      var matched := MatchedBy(s, payload);
      MatchedIsPolicy(s, payload);
      createdPolicy := matched.None?;
      policy := RecordPolicy(matched, payload);
      var found := FindDiscovery(discoveries, payload.channel, payload.url.value);
      if found.None? {
        discoveries := discoveries + [Discovery(policy, channels[payload.channel], payload.channel, payload.originalUrl,
                                                payload.url.value, now, now)];
      } else {
        discoveries := discoveries[found.value := discoveries[found.value].(lastSeen := now)];
      }
    }

    // One attachment of _save_attachments, with its savepoint; the stored path unless it fails.
    method SaveAttachment(v: NewVersion, m: Metadata, fate: Fate, filename: string)
      returns (saved: seq<FilePath>)
      modifies `attachments, `files
      ensures var piece := SaveAs(v, old(files), m, fate, filename);
              files == piece.files && attachments == old(attachments) + piece.rows && saved == piece.created
    {
      var path := AttachmentPath(v.policy, v.number, filename);
      var stored, failed := false, true;
      if !fate.insertFails && fate.download.Some? {
        var (written, error) := Write(files, path, fate.download.value, fate.saving);
        files := written;
        if error.None? {
          stored, failed := true, fate.flushFails;
        }
      }
      if !failed {
        attachments := attachments + [Attachment(v.id, m.displayName, m.sourceUrl, Some(path))];
        return [path];
      }
      if stored {
        files := files - {path};
      }
      if !fate.recordFails {
        attachments := attachments + [Attachment(v.id, m.displayName, m.sourceUrl, None)];
      }
      return [];
    }

    // _save_attachments
    method SaveAttachments(v: NewVersion, payload: Payload, fates: seq<Fate>, before: seq<FilePath>)
      returns (created: seq<FilePath>, raised: bool)
      modifies `attachments, `files
      ensures var b := SaveFirst(names, v, Saved(old(files), [], before, [], false), payload.attachments, fates,
                                 |payload.attachments|);
              && files == b.files && attachments == old(attachments) + b.rows
              && created == b.created && raised == b.raised
    {
      created, raised := before, false;
      var used := [];
      ghost var b0 := Saved(files, [], before, [], false);
      ghost var b := b0;
      var n := 0;
      while n < |payload.attachments| && !raised
        invariant n <= |payload.attachments|
        invariant SavedSoFar(names, v, b0, payload.attachments, fates, n, b)
        invariant files == b.files && attachments == old(attachments) + b.rows && created == b.created
        invariant used == b.used && raised == b.raised
        decreases |payload.attachments| - n
      {
        var a, fate := payload.attachments[n], FateOf(fates, n);
        var m := names.metadata(a);
        ghost var next := NextSaved(names, v, b0, payload.attachments, fates, n, b);
        if !Addressed(names, a) {
          raised := true;
        } else {
          var filename := names.filename(m.displayName, a.urlPath.GetOr(""), used);
          ghost var piece := SaveAs(v, files, m, fate, filename);
          AppendTwice(old(attachments), b.rows, piece.rows);
          var saved := SaveAttachment(v, m, fate, filename);
          used := used + [filename];
          created := created + saved;
        }
        b := next;
        n := n + 1;
      }
      RaisedStays(names, v, b0, payload.attachments, fates, n, |payload.attachments|, b);
    }

    // The version's row, which becomes current.
    method AddVersion(policy: nat, row: Version)
      requires policy in policies
      modifies `versions, `policies
      ensures versions == old(versions) + [row]
      ensures policies == old(policies)[policy := old(policies)[policy].(currentVersion := Some(|old(versions)|))]
    {
      versions := versions + [row];
      policies := policies[policy := policies[policy].(currentVersion := Some(|versions| - 1))];
    }

    // The version's row, its attachments and its evaluation batch.
    method AttachVersion(policy: nat, payload: Payload, faults: Faults, now: Instant, createdPolicy: bool)
      returns (created: seq<FilePath>, reply: Reply)
      requires policy in policies
      modifies this
      ensures var a := Attached(names, old(Tables()), policy, payload, faults, now, createdPolicy);
              created == a.created && reply == a.reply && files == a.tables.files && nextPolicy == a.tables.nextPolicy
              && (reply.Ingested? ==> Tables() == a.tables)
    {
      var number, id := MaxNumber(versions, policy) + 1, |versions|;
      var path := SnapshotPath(policy, number);
      var v := NewVersion(policy, number, id);
      ghost var before := Tables();
      ghost var b, expected := AttachedIs(names, before, policy, payload, faults, now, createdPolicy, v);
      var row := Version(policy, number, NormalizeText(payload.title), payload.bodyText, payload.bodyHtml,
                         ContentOf(payload), path, now);
      assert row == expected;
      AddVersion(policy, row);
      var raised;
      created, raised := SaveAttachments(v, payload, faults.fates, [path]);
      if raised {
        return created, BadAttachmentUrl;
      }
      if faults.rulePublished {
        batches := batches + [id];
      }
      if faults.commitFails {
        return created, DatabaseFailed;
      }
      reply := Ingested(policy, id, createdPolicy, true);
      assert Tables() == WithVersion(before, policy, row, b, faults.rulePublished);
    }

    // The rest of _ingest_in_transaction when the content is new.
    method SaveVersion(policy: nat, payload: Payload, faults: Faults, now: Instant, createdPolicy: bool)
      returns (created: seq<FilePath>, reply: Reply)
      requires policy in policies
      modifies this
      ensures var a := Versioned(names, old(Tables()), policy, payload, faults, now, createdPolicy);
              created == a.created && reply == a.reply && files == a.tables.files && nextPolicy == a.tables.nextPolicy
              && (reply.Ingested? ==> Tables() == a.tables)
    {
      var path := SnapshotPath(policy, MaxNumber(versions, policy) + 1);
      var (written, error) := Write(files, path, payload.rawHtml, faults.snapshot);
      files := written;
      if error.Some? {
        return [], error.value;
      }
      if faults.flushFails {
        return [path], DatabaseFailed;
      }
      created, reply := AttachVersion(policy, payload, faults, now, createdPolicy);
    }

    // _ingest_in_transaction
    method IngestInTransaction(payload: Payload, faults: Faults, now: Instant)
      returns (created: seq<FilePath>, reply: Reply)
      modifies this
      ensures var a := Attempted(names, old(Tables()), payload, faults, now);
              created == a.created && reply == a.reply && files == a.tables.files && nextPolicy == a.tables.nextPolicy
              && (reply.Ingested? ==> Tables() == a.tables)
    {
      var s := State(channels, policies, nextPolicy, discoveries, versions, attachments, batches, items, files, cleanups);
      var refusal := Refusal(s, payload);
      if refusal.Some? {
        return [], refusal.value;
      }
      var policy, createdPolicy := RecordVisit(payload, now);
      var found := FindVersion(versions, policy, ContentOf(payload));
      if found.None? {
        created, reply := SaveVersion(policy, payload, faults, now, createdPolicy);
      } else if faults.commitFails {
        created, reply := [], DatabaseFailed;
      } else {
        created, reply := [], Ingested(policy, found.value, createdPolicy, false);
      }
    }

    // The next key of a policy is not rolled back.
    method RollBack(s: State)
      modifies this
      ensures Tables() == RolledBack(s, old(Tables()))
    {
      channels, policies, discoveries, versions := s.channels, s.policies, s.discoveries, s.versions;
      attachments, batches, items, cleanups := s.attachments, s.batches, s.items, s.cleanups;
    }

    // ingest
    method IngestPolicy(payload: Payload, faults: Faults, now: Instant) returns (reply: Reply)
      modifies this
      ensures (Tables(), reply) == Ingest(names, old(Tables()), payload, faults, now)
    {
      if faults.lockFails {
        return LockTimeout;
      }
      var before := State(channels, policies, nextPolicy, discoveries, versions, attachments, batches, items, files, cleanups);
      var created;
      created, reply := IngestInTransaction(payload, faults, now);
      if reply.Ingested? {
        if faults.releaseFails {
          reply := ReleaseFailed;
        }
      } else {
        RollBack(before);
        RemoveFiles(created);
      }
    }

    // for path in reversed(created_paths): remove_file(path)
    method RemoveFiles(paths: seq<FilePath>)
      modifies `files
      ensures files == RemoveAll(old(files), paths)
    {
      var i := |paths|;
      while i > 0
        invariant 0 <= i <= |paths|
        invariant files == RemoveAll(old(files), paths[i..])
      {
        i := i - 1;
        files := files - {paths[i]};
        assert paths[i..] == [paths[i]] + paths[i + 1..];
      }
      assert paths[0..] == paths;
    }

    // The exit of ingest_and_mark_task_item; the removals that follow are CleanUp steps.
    method Settle(before: State, item: nat, created: seq<FilePath>, reply: Reply, releaseFails: bool)
      returns (answer: Reply)
      requires reply.Ingested? ==> item < |items| && cleanups == before.cleanups
      modifies this
      ensures (Tables(), answer) == Settled(before, Attempt(old(Tables()), created, reply), item, releaseFails)
    {
      answer := reply;
      if reply.Ingested? {
        items := items[item := items[item].(status := Succeeded, policy := Some(reply.policy))];
        if releaseFails {
          answer := ReleaseFailed;
          cleanups := cleanups + [created];
        }
      } else {
        RollBack(before);
        cleanups := cleanups + [created];
      }
    }

    // ingest_and_mark_task_item
    method IngestAndMarkTaskItem(payload: Payload, faults: Faults, now: Instant) returns (reply: Reply)
      modifies this
      ensures (Tables(), reply) == IngestAndMark(names, old(Tables()), payload, faults, now)
    {
      if faults.lockFails {
        return LockTimeout;
      }
      var before := State(channels, policies, nextPolicy, discoveries, versions, attachments, batches, items, files, cleanups);
      var item := FindItem(items, payload);
      if item.None? {
        return NoTaskItem;
      }
      AttemptKeepsItems(names, Tables(), payload, faults, now);
      var created;
      created, reply := IngestInTransaction(payload, faults, now);
      reply := Settle(before, item.value, created, reply, faults.releaseFails);
    }
  }

  lemma AppendTwice(a: seq<Attachment>, b: seq<Attachment>, c: seq<Attachment>)
    ensures (a + b) + c == a + (b + c)
  {
  }

  ghost predicate SavedSoFar(
    names: Namer, v: NewVersion, b0: Saved, as': seq<AttachmentPayload>, fates: seq<Fate>, n: nat, b: Saved)
  {
    n <= |as'| && b == SaveFirst(names, v, b0, as', fates, n)
  }

  lemma NextSaved(
    names: Namer, v: NewVersion, b0: Saved, as': seq<AttachmentPayload>, fates: seq<Fate>, n: nat, b: Saved)
    returns (next: Saved)
    requires n < |as'| && SavedSoFar(names, v, b0, as', fates, n, b) && !b.raised
    ensures SavedSoFar(names, v, b0, as', fates, n + 1, next)
    ensures var m := names.metadata(as'[n]);
            var filename := names.filename(m.displayName, as'[n].urlPath.GetOr(""), b.used);
            next == if !Addressed(names, as'[n]) then b.(raised := true)
                    else WithPiece(b, SaveAs(v, b.files, m, FateOf(fates, n), filename), filename)
  {
    next := SaveOne(names, v, b, as'[n], FateOf(fates, n));
  }

  // The loop leaves at the first exception.
  lemma {:induction false} RaisedStays(
    names: Namer, v: NewVersion, b0: Saved, as': seq<AttachmentPayload>, fates: seq<Fate>, n: nat, m: nat, b: Saved)
    requires n <= m <= |as'| && SavedSoFar(names, v, b0, as', fates, n, b)
    requires n == m || b.raised
    ensures SaveFirst(names, v, b0, as', fates, m) == b
  {
    if n < m { RaisedStays(names, v, b0, as', fates, n, m - 1, b); }
  }
}
