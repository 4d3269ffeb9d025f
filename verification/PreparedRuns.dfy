/** Prepared batches on whole streams: when the service's batch extends the stream, and a run where it does not. */
module PreparedRuns {
  import opened Domain
  import opened ArtifactLedger
  import opened ArtifactSnapshot
  import opened ArtifactPrepare
  import opened Course
  import ArtifactRuns

  /** On every replayed state, a prepared batch appended next replays exactly when no proposal is a revision
      that names an unresolved parent ordinal for an artifact without a durable parent. */
  lemma PreparedBatchReplays(stream: seq<Event>, listing: seq<Entry>, items: seq<Proposal>, e: Event)
    requires Replay(stream).Some? && stream != [] && e.sequence == |stream| + 1
    requires var st := Replay(stream).value;
      && Lists(listing, st.ledger.revisions) && Commanded(e, items)
      && Prepare(e.payload.batch, items, listing) == Some(e.payload.proposals)
      && e.id !in st.ledger.commands && e.session in st.world.sessions
      && forall i :: 0 <= i < |items| ==> (e.session, items[i].provenance) in st.world.grounded
    ensures Replay(stream + [e]).Some? <==> NoneNamesMissing(Replay(stream).value.ledger, items)
  {
    var st := Replay(stream).value;
    ArtifactRuns.ReplayKeepsLedger(stream);
    CommandDecodes(st.ledger, listing, items, e);
    PreparedBatchReduces(st.ledger, st.world, listing, items, e);
    ReplaySnoc(stream, e);
    BatchReduces(st, e);
  }

  lemma BatchReduces(st: State, e: Event)
    requires e.payload.ProposalBatch? && BatchDecodes(e)
    ensures Reduce(st, e).Some? <==> ReduceBatch(st.ledger, st.world, e).Some?
  {
  }

  // ------------------------------------------------------------ the witness

  const CARD := Flashcard("card", None)
  const AGAIN := Flashcard("card, again", Some(0))
  const FIRST := HumanAuthored("note", "typed", None)
  const CARD_ID := ArtifactId(HumanBatch("s", "note", "k1"), 0)
  const CARD_REVISION := RevisionId(CARD_ID, FlashcardKind, CARD, FIRST, None)
  const SECOND := HumanAuthored("note", "typed", Some(CARD_REVISION))
  const CONTEXT := World({"s"}, {("s", FIRST), ("s", SECOND)})
  const CREATION := Recorded(0, CARD_ID, CARD_REVISION, FlashcardKind, CARD, FIRST, None, None)

  const OPENING: seq<Event> := [
    Event(OtherEventId("context"), 1, "s", Service, ContextRecorded(CONTEXT)),
    HumanEvent("s", "k1", "note", [CREATION], 2)]

  const OPENED := Ledger(
    map[CARD_ID := Artifact(FlashcardKind, None, [CARD_REVISION], CARD_REVISION)],
    map[CARD_REVISION := STORED],
    map[HumanBatch("s", "note", "k1") := Batch("s", HumanOrigin, [CARD_REVISION], None)],
    [],
    map[ArtifactEventId("s", "k1", ProposalCommand) := FingerprintOf(OPENING[1].payload)])

  const STORED := Revision(CARD_ID, HumanBatch("s", "note", "k1"), 0, FlashcardKind, Proposed, CARD, FIRST, None, None)
  const REVISED := Proposal(0, AGAIN, SECOND, Some(CARD_ID))
  const LISTING := [Entry(CARD_REVISION, STORED)]

  lemma OpeningReduces()
    ensures ReduceBatch(EMPTY_LEDGER, CONTEXT, OPENING[1]) == Some(OPENED)
  {
    var scope := ScopeOf(CONTEXT, OPENING[1]);
    var empty := Fold(map[], map[], map[], []);
    var next := ProposeOne(scope, empty, CREATION);
    assert [] + [CARD_REVISION] == [CARD_REVISION];
    assert [CREATION][1..] == [];
    assert ProposeAll(scope, next.value, []) == next;
    assert ProposeAll(scope, empty, [CREATION]) == next;
    assert next.value.artifacts == OPENED.artifacts && next.value.revisions == OPENED.revisions &&
      next.value.ids == [CARD_REVISION];
    var closed := CloseBatch(EMPTY_LEDGER, OPENING[1], next.value);
    assert closed.batches == OPENED.batches && closed.commands == OPENED.commands;
  }

  lemma OpeningReplays()
    ensures Replay(OPENING).Some? && Replay(OPENING).value.ledger == OPENED && Replay(OPENING).value.world == CONTEXT
  {
    var started := State(CONTEXT, EMPTY_LEDGER, INITIAL.book);
    ReplaySnoc([], OPENING[0]);
    assert [] + [OPENING[0]] == [OPENING[0]];
    assert Replay([OPENING[0]]) == Some(started);
    ReplaySnoc([OPENING[0]], OPENING[1]);
    assert [OPENING[0]] + [OPENING[1]] == OPENING;
    OpeningReduces();
  }

  /** The refused shape is reachable: a new command of an open session, with grounded provenance, prepares a
      revision that names a missing parent, and the event does not replay. */
  lemma PreparedBatchRefused() returns (stream: seq<Event>, listing: seq<Entry>, items: seq<Proposal>, e: Event)
    ensures Replay(stream).Some? && stream != [] && e.sequence == |stream| + 1
    ensures Lists(listing, Replay(stream).value.ledger.revisions) && Commanded(e, items)
    ensures Prepare(e.payload.batch, items, listing) == Some(e.payload.proposals)
    ensures e.id !in Replay(stream).value.ledger.commands && e.session in Replay(stream).value.world.sessions
    ensures forall i :: 0 <= i < |items| ==> (e.session, items[i].provenance) in Replay(stream).value.world.grounded
    ensures exists i :: 0 <= i < |items| && NamesMissingParent(Replay(stream).value.ledger, items[i])
    ensures Replay(stream + [e]).None?
  {
    stream, listing, items := OPENING, LISTING, [REVISED];
    OpeningReplays();
    var revision := RevisionId(CARD_ID, FlashcardKind, AGAIN, SECOND, Some(CARD_REVISION));
    var p := Recorded(0, CARD_ID, revision, FlashcardKind, AGAIN, SECOND, Some(CARD_REVISION), None);
    e := HumanEvent("s", "k2", "note", [p], 3);
    RevisionPrepares(e.payload.batch, p);
    PreparedBatchReplays(stream, listing, items, e);
    assert NamesMissingParent(OPENED, items[0]);
  }

  lemma RevisionPrepares(batch: BatchId, p: Recorded)
    requires p == RecordIn(REVISED, Placement(CARD_ID, Some(CARD_REVISION), None))
    ensures Lists(LISTING, OPENED.revisions)
    ensures Prepare(batch, [REVISED], LISTING) == Some([p])
  {
    assert LISTING[0].id == CARD_REVISION;
    assert Lists(LISTING, OPENED.revisions);
    var entry := LISTING[0];
    var byArtifact := (x: Entry) => x.revision.artifact == CARD_ID;
    assert Select(LISTING[1..], byArtifact) == [];
    assert History(LISTING, CARD_ID) == [entry];
    var isHead := (x: Entry) => x.id !in Priors([entry]);
    assert Select([entry][1..], isHead) == [];
    assert Select([entry], isHead) == [entry];
    assert CurrentHead(LISTING, CARD_ID) == Some(entry);
    assert PlacementOf(batch, LISTING, map[], REVISED) == Some(Placement(CARD_ID, Some(CARD_REVISION), None));
    assert PrepareOne(batch, LISTING, {}, map[], REVISED) == Some(p);
    assert [REVISED][1..] == [] && PrepareAll(batch, LISTING, {} + {CARD_ID}, map[][0 := CARD_ID], []) == Some([]);
    assert [p] + [] == [p];
    assert PrepareAll(batch, LISTING, {}, map[], [REVISED]) == Some([p]);
  }
}
