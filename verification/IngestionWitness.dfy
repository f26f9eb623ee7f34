/** Short runs of ingestion, from the empty tables, that end in each of its failures: a save meets a
    path whose removal is pending, a committed version loses its files, and a late write failure
    blocks its policy. */
module IngestionWitness {
  import opened Wrappers
  import opened Normalize
  import opened Ingestion
  import opened IngestionIdentity
  import opened IngestionFiles
  import opened IngestionExact
  import opened IngestionRuns

  const CALM := Faults(false, Saves, false, [], false, false, false)
  const NOT_COMMITTED := CALM.(commitFails := true)
  const NOT_RELEASED := CALM.(releaseFails := true)
  const LATE := CALM.(snapshot := FailsAfterRename)

  const FIRST := SnapshotPath(0, 1)
  const SECOND := SnapshotPath(0, 2)

  // Two texts of one document.
  function Published(body: string): Payload {
    Payload(0, 0, "T", "u", Some("u"), NoDate, None, NoDate, body, "", "r", [])
  }

  const OPENING := [AddChannelStep(0, 0), AddItemStep(0, 0, "u")]

  function Opened(): State {
    Empty.(channels := map[0 := 0], items := [Item(0, 0, "u", Pending, None)])
  }

  function FirstRow(): Version {
    Version(0, 1, "T", "a", "", ContentText("T", "a"), FIRST, 0)
  }

  function Stored(): State {
    Opened().(
      policies := map[0 := Policy("T", None, None, None, Some(0))],
      nextPolicy := 1,
      discoveries := [Discovery(0, 0, 0, "u", "u", 0, 0)],
      versions := [FirstRow()],
      files := map[FIRST := "r"])
  }

  lemma Texts(body: string)
    requires Word(body)
    ensures NormalizeText("T") == "T" && NumberOf(Published(body)) == None
    ensures ContentOf(Published(body)) == ContentText("T", body)
    ensures body != "a" ==> ContentText("T", body) != ContentText("T", "a")
  {
    OneWord("T");
    OneWord("a");
    OneWord(body);
    ContentTextExact("T", body, "T", "a");
  }

  lemma Opens(names: Namer, rest: seq<Step>)
    ensures Run(names, Empty, OPENING + rest) == Run(names, Opened(), rest)
  {
    var steps := OPENING + rest;
    assert steps[1..] == [OPENING[1]] + rest && steps[1..][1..] == rest;
    assert Do(names, Do(names, Empty, steps[0]).0, steps[1]).0 == Opened();
  }

  lemma RunOne(names: Namer, s: State, step: Step)
    ensures Run(names, s, [step]) == Do(names, s, step).0
  {
  }

  lemma RunTwo(names: Namer, s: State, a: Step, b: Step)
    ensures Run(names, s, [a, b]) == Do(names, Do(names, s, a).0, b).0
  {
    assert [a, b][1..] == [b];
    RunOne(names, Do(names, s, a).0, b);
  }

  // ---------- The first text ----------

  lemma FirstIsNew(s: State)
    requires s.channels == Opened().channels && s.policies == map[] && s.discoveries == [] && s.versions == []
    ensures HasNewContent(s, Published("a")) && MatchedBy(s, Published("a")) == None
    ensures NewSnapshot(s, s.nextPolicy) == SnapshotPath(s.nextPolicy, 1)
  {
    Texts("a");
  }

  lemma FirstIsRecorded()
    requires Refusal(Opened(), Published("a")).None?
    ensures Recorded(Opened(), Published("a"), None, 0)
            == Stored().(policies := map[0 := Policy("T", None, None, None, None)], versions := [], files := map[])
  {
    Texts("a");
  }

  lemma FirstIsCommitted(names: Namer, faults: Faults, s1: State)
    requires faults == CALM || faults == NOT_RELEASED
    requires s1 == Stored().(policies := map[0 := Policy("T", None, None, None, None)], versions := [], files := map[])
    ensures var a := Versioned(names, s1, 0, Published("a"), faults, 0, true);
            a.tables == Stored() && a.reply == Ingested(0, 0, true, true) && a.created == [FIRST]
  {
    Texts("a");
    assert MaxNumber(s1.versions, 0) == 0;
    var s2 := s1.(files := map[FIRST := "r"]);
    var b, row := AttachedIs(names, s2, 0, Published("a"), faults, 0, true, NewVersion(0, 1, 0));
    assert b == Saved(s2.files, [], [FIRST], [], false) && row == FirstRow();
    assert map[][FIRST := "r"] == s2.files;
  }

  lemma FirstAttempt(names: Namer, faults: Faults)
    requires faults == CALM || faults == NOT_RELEASED
    ensures var a := Attempted(names, Opened(), Published("a"), faults, 0);
            a.tables == Stored() && a.reply == Ingested(0, 0, true, true) && a.created == [FIRST]
  {
    FirstIsNew(Opened());
    FirstIsRecorded();
    var s1 := NewContentIsNumbered(names, Opened(), Published("a"), faults, 0);
    FirstIsCommitted(names, faults, s1);
  }

  // ---------- The second text ----------

  // Once the first text is stored, the second is new to the same policy.
  lemma SecondIsNew(s: State)
    requires s.channels == Stored().channels && s.policies == Stored().policies && s.nextPolicy == 1
    requires s.discoveries == Stored().discoveries && s.versions == Stored().versions
    ensures HasNewContent(s, Published("b")) && MatchedBy(s, Published("b")) == Some(0)
    ensures NewSnapshot(s, 0) == SECOND
  {
    Texts("b");
    SeenMeansMatched(s, Published("b"), 0);
    assert s.versions[..0] == [];
    assert MaxNumber(s.versions, 0) == 1;
  }

  function Blocked(): State {
    Stored().(files := map[FIRST := "r", SECOND := "r"], cleanups := [[SECOND]])
  }

  function Cleaned(): State {
    Stored().(cleanups := [[]])
  }

  lemma SecondFails(names: Namer)
    ensures Do(names, Stored(), MarkStep(Published("b"), NOT_COMMITTED, 0)).0 == Blocked()
  {
    var s, payload := Stored(), Published("b");
    SecondIsNew(s);
    assert FindItem(s.items, payload).Some?;
    var s1 := NewContentIsNumbered(names, s, payload, NOT_COMMITTED, 0);
    assert Attempted(names, s, payload, NOT_COMMITTED, 0).created == [SECOND];
    assert Attempted(names, s, payload, NOT_COMMITTED, 0).tables.files == map[FIRST := "r", SECOND := "r"];
  }

  lemma SecondIsBlocked(names: Namer)
    ensures Do(names, Blocked(), IngestStep(Published("b"), CALM, 0)).1 == PathExists
  {
    SecondIsNew(Blocked());
    CollidesExactly(names, Blocked(), IngestStep(Published("b"), CALM, 0));
  }

  lemma SecondIsIngested(names: Namer)
    ensures Do(names, Cleaned(), IngestStep(Published("b"), CALM, 0)).1 == Ingested(0, 1, false, true)
  {
    SecondIsNew(Cleaned());
    CommittedReply(names, Cleaned(), Published("b"), CALM, 0);
  }

  lemma CleansUp(names: Namer)
    ensures Do(names, Blocked(), CleanStep(0)).0 == Cleaned()
  {
    assert Blocked().files - {SECOND} == Cleaned().files;
    assert Blocked().cleanups[0 := []] == Cleaned().cleanups;
  }

  // ---------- The runs ----------

  lemma Blocks(names: Namer)
    ensures Run(names, Empty, OPENING + [IngestStep(Published("a"), CALM, 0), MarkStep(Published("b"), NOT_COMMITTED, 0)])
            == Blocked()
  {
    var first, second := IngestStep(Published("a"), CALM, 0), MarkStep(Published("b"), NOT_COMMITTED, 0);
    Opens(names, [first, second]);
    RunTwo(names, Opened(), first, second);
    FirstAttempt(names, CALM);
    SecondFails(names);
  }

  // The first text is stored, the transaction of the second fails, and its cleanup is yet to come:
  // every write is whole and no release fails, and still the second text meets an existing path.
  // Once the cleanup has run it is ingested.
  lemma CleanupBlocksIngestion(names: Namer)
    ensures var steps := OPENING + [IngestStep(Published("a"), CALM, 0), MarkStep(Published("b"), NOT_COMMITTED, 0)];
            var s := Run(names, Empty, steps);
            && (forall k | 0 <= k < |steps| :: Careful(steps[k]))
            && Do(names, s, IngestStep(Published("b"), CALM, 0)).1 == PathExists
            && Do(names, Do(names, s, CleanStep(0)).0, IngestStep(Published("b"), CALM, 0)).1 == Ingested(0, 1, false, true)
  {
    Blocks(names);
    SecondIsBlocked(names);
    CleansUp(names);
    SecondIsIngested(names);
  }

  function Unreleased(): State {
    Stored().(items := [Item(0, 0, "u", Succeeded, Some(0))], cleanups := [[FIRST]])
  }

  lemma SettlesUnreleased(a: Attempt)
    requires a == Attempt(Stored(), [FIRST], Ingested(0, 0, true, true))
    ensures FindItem(Opened().items, Published("a")) == Some(0) && Settled(Opened(), a, 0, true).0 == Unreleased()
  {
    assert Opened().items[0 := Item(0, 0, "u", Succeeded, Some(0))] == [Item(0, 0, "u", Succeeded, Some(0))];
  }

  lemma ReleaseFails(names: Namer)
    ensures Do(names, Opened(), MarkStep(Published("a"), NOT_RELEASED, 0)).0 == Unreleased()
  {
    FirstAttempt(names, NOT_RELEASED);
    SettlesUnreleased(Attempted(names, Opened(), Published("a"), NOT_RELEASED, 0));
  }

  lemma RemovesFirst(names: Namer)
    ensures var s := Do(names, Unreleased(), CleanStep(0)).0;
            s.versions == [FirstRow()] && FIRST !in s.files && s.items == Unreleased().items
  {
  }

  // A task item's first text is committed, the release of the lock fails, and the cleanup removes
  // the snapshot that the committed version refers to.
  lemma ReleaseFailureRemovesSnapshot(names: Namer)
    ensures var s := Run(names, Empty, OPENING + [MarkStep(Published("a"), NOT_RELEASED, 0), CleanStep(0)]);
            && s.versions == [FirstRow()] && s.versions[0].snapshot !in s.files
            && |s.items| == 1 && s.items[0].status.Succeeded?
  {
    var mark := MarkStep(Published("a"), NOT_RELEASED, 0);
    Opens(names, [mark, CleanStep(0)]);
    RunTwo(names, Opened(), mark, CleanStep(0));
    ReleaseFails(names);
    RemovesFirst(names);
  }

  function LeftBehind(): State {
    Stored().(files := map[FIRST := "r", SECOND := "r"])
  }

  lemma LateFails(names: Namer)
    ensures Do(names, Stored(), IngestStep(Published("b"), LATE, 0)).0 == LeftBehind()
  {
    SecondIsNew(Stored());
    var s1 := NewContentIsNumbered(names, Stored(), Published("b"), LATE, 0);
    assert RemoveAll(LeftBehind().files, []) == LeftBehind().files;
  }

  // The snapshot of a second text is renamed into place and the write then fails: no row refers to
  // the file and no cleanup will remove it, and the next call for the same text meets it.
  lemma LateFailureBlocks(names: Namer)
    ensures var s := Run(names, Empty, OPENING + [IngestStep(Published("a"), CALM, 0), IngestStep(Published("b"), LATE, 0)]);
            && s.versions == [FirstRow()] && SECOND in s.files && s.cleanups == []
            && Do(names, s, IngestStep(Published("b"), CALM, 0)).1 == PathExists
  {
    var first, late := IngestStep(Published("a"), CALM, 0), IngestStep(Published("b"), LATE, 0);
    Opens(names, [first, late]);
    RunTwo(names, Opened(), first, late);
    FirstAttempt(names, CALM);
    LateFails(names);
    SecondIsNew(LeftBehind());
    CollidesExactly(names, LeftBehind(), IngestStep(Published("b"), CALM, 0));
  }

  function Unmarked(): State {
    Opened().(nextPolicy := 1, files := map[FIRST := "r"], cleanups := [[FIRST]])
  }

  lemma FirstFails(names: Namer)
    ensures Do(names, Opened(), MarkStep(Published("a"), NOT_COMMITTED, 0)).0 == Unmarked()
  {
    var s, payload := Opened(), Published("a");
    FirstIsNew(s);
    FirstIsRecorded();
    assert FindItem(s.items, payload).Some?;
    var s1 := NewContentIsNumbered(names, s, payload, NOT_COMMITTED, 0);
    assert Attempted(names, s, payload, NOT_COMMITTED, 0).created == [FIRST];
    assert Attempted(names, s, payload, NOT_COMMITTED, 0).tables.files == map[FIRST := "r"];
  }

  // The same failure on a first text blocks nothing: the policy gets another key, and so another directory.
  lemma FirstTextIsRetried(names: Namer)
    ensures var s := Run(names, Empty, OPENING + [MarkStep(Published("a"), NOT_COMMITTED, 0)]);
            && s.cleanups == [[FIRST]] && FIRST in s.files
            && Do(names, s, IngestStep(Published("a"), CALM, 0)).1 == Ingested(1, 0, true, true)
  {
    var first := MarkStep(Published("a"), NOT_COMMITTED, 0);
    Opens(names, [first]);
    RunOne(names, Opened(), first);
    FirstFails(names);
    FirstIsNew(Unmarked());
    CommittedReply(names, Unmarked(), Published("a"), CALM, 0);
  }
}
