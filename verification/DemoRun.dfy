/** The concrete stream written by the services, command by command: a run that obeys every service rule and whose
    evidence projection raises; runs of two clients in which one is told to retry, once with its command in the
    stream and once with another command under its key; a run that refuses a command whose service checks all pass;
    and four more events that only the reducers admit. */
module DemoRun {
  import opened Domain
  import opened ArtifactLedger
  import opened ArtifactInvariants
  import opened ArtifactSnapshot
  import opened ArtifactPrepare
  import opened AssessmentLedger
  import opened Course
  import opened EventStore
  import opened Commands
  import opened ServiceProtocol
  import opened ServiceProgress
  import opened ServiceVerdicts
  import opened ServiceRules
  import opened DemoEvents
  import EvidenceOrder
  import Evidence
  import PreparedRuns

  /** A run that has written exactly `stream`, whose projection is `st`, with no call under way. */
  ghost predicate Wrote(run: seq<System>, stream: seq<Event>, st: State) {
    && IsRun(run) && Last(run).store == Store(stream, st)
    && forall c :: c in Last(run).clients ==> Last(run).clients[c].Done?
  }

  /** In state `st`, at stream length `n`, command `c` records event `e`, which leads to `next`. */
  ghost predicate Writes(st: State, n: nat, c: Command, listing: seq<Entry>, e: Event, next: State) {
    && Lists(listing, st.ledger.revisions) && c.session in st.world.sessions
    && CommandFor(st, IdOf(c)).None? && !c.DecideAsService?
    && DraftFor(c, View(st, listing), None) == Some(e.payload) && e == EventFor(c, e.payload, n)
    && (c.GradeExact? || c.GradeVerified? ==> GradeRules(c, View(st, listing)))
    && (c.RecordHuman? ==> (c.session, ProvenanceOf(c)) in st.world.grounded)
    && (IsArtifactCommand(c) ==> 1 <= n)
    && Reduce(st, e) == Some(next)
  }

  lemma WritesIsReady(stream: seq<Event>, st: State, c: Command, listing: seq<Entry>, e: Event, next: State)
    requires Writes(st, |stream|, c, listing, e, next)
    ensures Ready(Store(stream, st), c, listing, None, e.payload)
    ensures Append(Store(stream, st), |stream|, EventFor(c, e.payload, |stream|)).Committed?
    ensures Committing(Store(stream, st), c, e.payload) == Store(stream + [e], next)
  {
  }

  lemma Write(
    run: seq<System>, stream: seq<Event>, st: State, c: Command, listing: seq<Entry>, e: Event, next: State)
    returns (longer: seq<System>)
    requires Wrote(run, stream, st) && Writes(st, |stream|, c, listing, e, next)
    ensures Wrote(longer, stream + [e], next)
  {
    WritesIsReady(stream, st, c, listing, e, next);
    ReadyVerdict(run, c, listing, None, e.payload);
    longer := ReadyCommandIsDecided(run, 0, c, listing, None, e.payload);
  }

  // ----------------------------------------------------- context and artifact

  const ASK_COMMAND := RecordHuman("s", "k", ASKED, "note", "typed", None, None)
  const ACCEPT_COMMAND := DecideAsHuman("s", "d", ITEM_REVISION, Accept, None)
  const S1 := State(DemoEvents.CONTEXT, EMPTY_LEDGER, NO_ASSESSMENTS)
  const S2 := State(DemoEvents.CONTEXT, PROPOSED2, NO_ASSESSMENTS)
  const ONE_ENTRY := [Entry(ITEM_REVISION, STORED)]

  lemma ContextWritten() returns (run: seq<System>)
    ensures Wrote(run, [E1], S1)
  {
    var m := ServiceProtocol.Context(E1);
    assert Append(EMPTY_STORE, 0, E1) == EventStore.Committed(Store([E1], S1)) by {
      assert [] + [E1] == [E1];
    }
    RunGrows([BOOT], m);
    run := [BOOT] + [Moved(BOOT, m)];
  }

  lemma AskPrepares()
    ensures Prepare(ITEM_BATCH, [Proposal(0, ASKED, TYPED, None)], []) == Some([CREATION])
  {
    var item := Proposal(0, ASKED, TYPED, None);
    assert PrepareOne(ITEM_BATCH, [], {}, map[], item) == Some(CREATION);
    assert [item][1..] == [] &&
      PrepareAll(ITEM_BATCH, [], {} + {ITEM_ARTIFACT}, map[][0 := ITEM_ARTIFACT], []) == Some([]);
    assert [CREATION] + [] == [CREATION];
    assert PrepareAll(ITEM_BATCH, [], {}, map[], [item]) == Some([CREATION]);
  }

  lemma AskFingerprint()
    ensures FingerprintOf(E2.payload) == CommandFingerprint(ASK_COMMAND)
  {
    var portable := Portable(0, ITEM_ARTIFACT, AssessmentItemKind, ASKED, TYPED);
    assert PortableOf(CREATION) == portable;
    assert FingerprintOf(E2.payload).proposals == [portable];
  }

  lemma AskReduces()
    ensures Reduce(S1, E2) == Some(S2)
  {
    CreationReduces();
  }

  lemma AskWrites()
    ensures Writes(S1, 1, ASK_COMMAND, [], E2, S2)
  {
    AskPrepares();
    AskFingerprint();
    AskReduces();
    assert DraftFor(ASK_COMMAND, View(S1, []), None) == Some(E2.payload);
  }

  lemma BatchWritten() returns (run: seq<System>)
    ensures Wrote(run, [E1, E2], S2)
  {
    var before := ContextWritten();
    AskWrites();
    run := Write(before, [E1], S1, ASK_COMMAND, [], E2, S2);
    assert [E1] + [E2] == [E1, E2];
  }

  lemma NothingAccepted()
    ensures CurrentAccepted(PROPOSED2, ITEM_ARTIFACT) == Some(None)
  {
    var history := PROPOSED2.artifacts[ITEM_ARTIFACT].history;
    assert AcceptedIn(history[1..], PROPOSED2.revisions) == [];
    assert AcceptedIn(history, PROPOSED2.revisions) == [];
  }

  lemma LedgerWritten(run: seq<System>, stream: seq<Event>, st: State)
    requires Wrote(run, stream, st)
    ensures LedgerOk(st.ledger)
  {
    RunsKeepLedger(run, |run| - 1);
  }

  lemma ProposedIsOk()
    ensures LedgerOk(PROPOSED2)
  {
    var run := BatchWritten();
    LedgerWritten(run, [E1, E2], S2);
  }

  lemma NothingAcceptedListed()
    ensures Lists(ONE_ENTRY, PROPOSED2.revisions)
    ensures AcceptedEntry(ONE_ENTRY, ITEM_ARTIFACT) == Some(None)
  {
    assert ONE_ENTRY[0].id == ITEM_REVISION;
    assert Lists(ONE_ENTRY, PROPOSED2.revisions);
    ProposedIsOk();
    SnapshotAgreesWith(PROPOSED2, ONE_ENTRY, ITEM_ARTIFACT);
    NothingAccepted();
  }

  lemma AcceptReduces()
    ensures Reduce(S2, E3) == Some(S3)
  {
    AcceptanceReduces();
  }

  lemma AcceptWrites()
    ensures Writes(S2, 2, ACCEPT_COMMAND, ONE_ENTRY, E3, S3)
  {
    NothingAcceptedListed();
    AcceptReduces();
    assert DraftFor(ACCEPT_COMMAND, View(S2, ONE_ENTRY), None) == Some(E3.payload);
  }

  lemma DecisionWritten() returns (run: seq<System>)
    ensures Wrote(run, [E1, E2, E3], S3)
  {
    var before := BatchWritten();
    AcceptWrites();
    run := Write(before, [E1, E2], S2, ACCEPT_COMMAND, ONE_ENTRY, E3, S3);
    assert [E1, E2] + [E3] == [E1, E2, E3];
  }

  // ------------------------------------------------------- assessment commands

  const ITEM_LISTING := [Entry(ITEM_REVISION, STORED.(status := Accepted))]

  /** The command that records an event of this stream. */
  function CommandOf(page: Page, e: Event): Command
    requires FitsPage(page, e)
  {
    var p := e.payload;
    match p
    case ItemPresented(_, _, _, _, _, _, _) => Present("s", p.key, ITEM_REVISION)
    case AttemptRecorded(_, _, _, _, _) => Respond("s", p.key, p.of, p.response, p.latency)
    case GradeRecorded(_, _, _, _, _, _, _, _) =>
      GradeVerified("s", p.key,
                    VerifiedOutcome("s", p.graded, page.attempts[p.graded].presentation, ITEM_REVISION, ASKED,
                      FreeText(Plain("text")),
                                    p.status, p.criteria, p.score, p.grading.run, p.grading.detail, p.grading.rubric),
                    p.predecessor)
    case GradeContested(_, _, _) => ContestGrade("s", p.key, p.contested, p.reason)
  }

  /** The service's own rule holds of the event on this page. */
  ghost predicate Served(page: Page, e: Event) {
    var p := e.payload;
    && FitsPage(page, e)
    && (p.AttemptRecorded? ==> forall a :: a in page.attempts ==> page.attempts[a].presentation != p.of)
    && (p.GradeRecorded? ==>
          && (forall g :: g in page.grades && page.grades[g].provenance.Verified? ==>
            page.grades[g].provenance.run != p.grading.run)
          && (p.predecessor.Some? ==> HasContest(page.contests, p.predecessor.value)))
    && (p.GradeContested? ==> !HasContest(page.contests, p.contested))
  }

  lemma ItemIsListed(st: State, page: Page)
    requires Holds(st, page)
    ensures Lists(ITEM_LISTING, st.ledger.revisions)
  {
    assert ITEM_LISTING[0].id == ITEM_REVISION;
  }

  ghost predicate Drafts(st: State, c: Command, e: Event) {
    && DraftFor(c, View(st, ITEM_LISTING), None) == Some(e.payload)
    && e == EventFor(c, e.payload, e.sequence - 1)
    && (c.GradeVerified? ==> GradeRules(c, View(st, ITEM_LISTING)))
    && !c.GradeExact? && !IsArtifactCommand(c) && c.session == "s"
  }

  lemma ShowingDrafts(st: State, page: Page, e: Event)
    requires Holds(st, page) && Served(page, e) && e.payload.ItemPresented?
    ensures Drafts(st, CommandOf(page, e), e)
  {
  }

  lemma AnsweringDrafts(st: State, page: Page, e: Event)
    requires Holds(st, page) && Served(page, e) && e.payload.AttemptRecorded?
    ensures Drafts(st, CommandOf(page, e), e)
  {
  }

  lemma GradingDrafts(st: State, page: Page, e: Event)
    requires Holds(st, page) && Served(page, e) && e.payload.GradeRecorded?
    ensures Drafts(st, CommandOf(page, e), e)
  {
    assert CriteriaOf(e.payload.criteria) == ["clarity"];
  }

  lemma ContestingDrafts(st: State, page: Page, e: Event)
    requires Holds(st, page) && Served(page, e) && e.payload.GradeContested?
    ensures Drafts(st, CommandOf(page, e), e)
  {
  }

  lemma ServedDrafts(st: State, page: Page, e: Event)
    requires Holds(st, page) && Served(page, e)
    ensures Drafts(st, CommandOf(page, e), e)
  {
    match e.payload
    case ItemPresented(_, _, _, _, _, _, _) => ShowingDrafts(st, page, e);
    case AttemptRecorded(_, _, _, _, _) => AnsweringDrafts(st, page, e);
    case GradeRecorded(_, _, _, _, _, _, _, _) => GradingDrafts(st, page, e);
    case GradeContested(_, _, _) => ContestingDrafts(st, page, e);
  }

  lemma ServedWrites(st: State, page: Page, e: Event, next: State)
    requires Holds(st, page) && Served(page, e) && Reduce(st, e) == Some(next) && 1 <= e.sequence
    ensures Writes(st, e.sequence - 1, CommandOf(page, e), ITEM_LISTING, e, next)
  {
    ItemIsListed(st, page);
    ServedDrafts(st, page, e);
    ReduceLogs(st, e, e.id);
  }

  /** A run that has written a stream whose book is the page. */
  ghost predicate WroteTo(run: seq<System>, stream: seq<Event>, page: Page) {
    run != [] && Wrote(run, stream, Last(run).store.state) && Holds(Last(run).store.state, page)
  }

  lemma Serve(run: seq<System>, stream: seq<Event>, page: Page, e: Event) returns (longer: seq<System>)
    requires WroteTo(run, stream, page) && Served(page, e) && e.sequence == |stream| + 1
    ensures WroteTo(longer, stream + [e], PageAfter(page, e))
  {
    var st := Last(run).store.state;
    var next := FittingReduces(st, page, e);
    ServedWrites(st, page, e, next);
    longer := Write(run, stream, st, CommandOf(page, e), ITEM_LISTING, e, next);
  }

  // ---------------------------------------------------------------- ten events

  /** The services write the event on this page and it leads to the next page. */
  ghost predicate Leads(page: Page, e: Event, next: Page) {
    Served(page, e) && PageAfter(page, e) == next
  }

  lemma ShowsLead()
    ensures Leads(BLANK, E4, PAGE4) && Leads(PAGE4, E5, PAGE5)
  {
    TurnTo4();
    TurnTo5();
  }

  lemma AnswersLead()
    ensures Leads(PAGE5, E6, PAGE6) && Leads(PAGE6, E7, PAGE7)
  {
    TurnTo6();
    TurnTo7();
  }

  lemma GradesLead()
    ensures Leads(PAGE7, E8, PAGE8) && Leads(PAGE8, E9, PAGE9)
  {
    TurnTo8();
    TurnTo9();
  }

  lemma ContestLeads()
    ensures Leads(PAGE9, E10, PAGE10)
  {
    TurnTo10();
  }

  /** Each event of the stream is one the services write on the page before it. */
  lemma EachIsServed(n: nat)
    requires 3 <= n < 10
    ensures Leads(PAGES[n - 3], HONEST[n], PAGES[n - 2])
  {
    if n < 5 {
      ShowsLead();
    } else if n < 7 {
      AnswersLead();
    } else if n < 9 {
      GradesLead();
    } else {
      ContestLeads();
    }
  }

  lemma PrefixGrows(n: nat)
    requires n < 10
    ensures HONEST[..n + 1] == HONEST[..n] + [HONEST[n]] && HONEST[n].sequence == n + 1
  {
  }

  lemma ItemIsServed() returns (run: seq<System>)
    ensures WroteTo(run, HONEST[..3], BLANK)
  {
    run := DecisionWritten();
    assert HONEST[..3] == [E1, E2, E3];
  }

  /** The services write the stream, event by event. */
  lemma {:induction false} PrefixIsServed(n: nat) returns (run: seq<System>)
    requires 3 <= n <= 10
    ensures WroteTo(run, HONEST[..n], PAGES[n - 3])
  {
    if n == 3 {
      run := ItemIsServed();
    } else {
      var before := PrefixIsServed(n - 1);
      EachIsServed(n - 1);
      PrefixGrows(n - 1);
      run := Serve(before, HONEST[..n - 1], PAGES[n - 4], HONEST[n - 1]);
    }
  }

  /** A run of the protocol ends with exactly these ten events. */
  lemma HonestIsServed() returns (run: seq<System>)
    ensures WroteTo(run, HONEST, PAGE10)
  {
    run := PrefixIsServed(10);
    assert HONEST[..10] == HONEST;
  }

  lemma HonestCrosses(book: Assessments)
    requires book.presentations == SHOWS && book.attempts == ANSWERS
    requires book.grades == map[G1 := ONE_GRADE, G2 := OTHER_GRADE]
    requires book.contests == [Contest(G1, "s", "unfair", 10)]
    ensures EvidenceOrder.FormatsCross(book)
  {
    assert EvidenceOrder.LastContest(book.contests, G1, 0);
    assert EvidenceOrder.CrossesAt(book, ASKED.item.format, G1, G2, 0);
  }

  lemma HonestRefuses(st: State, listing: seq<GradeId>)
    requires Replay(HONEST) == Some(st) && Holds(st, PAGE10) && EvidenceOrder.Enumerates(listing, st.book.grades)
    ensures Evidence.LearnerEvidence(st.book, listing) == None
  {
    HonestCrosses(st.book);
    EvidenceOrder.EvidenceSucceedsExactly(HONEST, listing);
  }

  /** The replay of what a run has written. */
  lemma WrittenReplays(run: seq<System>, stream: seq<Event>, page: Page)
    requires WroteTo(run, stream, page)
    ensures Replay(stream) == Some(Last(run).store.state) && BookRules(Last(run).store.state.book)
  {
    RunsKeep(run, |run| - 1);
    ServicesKeepTheRules(run, |run| - 1);
  }

  /** A run of the services, within every service rule, that ends with no call under way and with an evidence
      projection that raises in every listing: grade, grade of the same format, contest of the first. */
  lemma EvidenceRefused() returns (run: seq<System>)
    ensures IsRun(run) && Last(run).store.stream == HONEST && BookRules(Last(run).store.state.book)
    ensures Replay(HONEST) == Some(Last(run).store.state)
    ensures forall listing :: EvidenceOrder.Enumerates(listing, Last(run).store.state.book.grades) ==>
              Evidence.LearnerEvidence(Last(run).store.state.book, listing) == None
  {
    run := HonestIsServed();
    WrittenReplays(run, HONEST, PAGE10);
    var st := Last(run).store.state;
    forall listing | EvidenceOrder.Enumerates(listing, st.book.grades) ensures Evidence.LearnerEvidence(st.book,
      listing) == None {
      HonestRefuses(st, listing);
    }
  }

  // -------------------------------------------------------- two clients, one key

  const REJECT_COMMAND := DecideAsHuman("s", "d", ITEM_REVISION, Reject, None)

  /** Client 0 accepts while client 1 waits, with a decision under the same key, between its identity check and its
      length check. */
  lemma TwinOvertakes(command: Command) returns (run: seq<System>)
    requires command in {ACCEPT_COMMAND, REJECT_COMMAND}
    ensures IsRun(run) && Last(run).store.stream == [E1, E2, E3] && Last(run).store.state == S3
    ensures {0, 1} <= Last(run).clients.Keys && Last(run).clients[0] == Done(ACCEPT_COMMAND, 2, Success)
    ensures Last(run).clients[1] == Running(command, 2, 1, NO_LOCAL)
  {
    var r2 := BatchWritten();
    var before, waiting := TwinWaits(r2, command);
    AcceptWrites();
    WritesIsReady([E1, E2], S2, ACCEPT_COMMAND, ONE_ENTRY, E3, S3);
    ReadyVerdict(before, ACCEPT_COMMAND, ONE_ENTRY, None, E3.payload);
    run := ReadyCommandIsDecided(before, 0, ACCEPT_COMMAND, ONE_ENTRY, None, E3.payload);
    assert [E1, E2] + [E3] == [E1, E2, E3];
  }

  lemma SuccessIsFulfilled(run: seq<System>, c: nat)
    requires IsRun(run) && c in Last(run).clients && Last(run).clients[c].Done?
    requires Last(run).clients[c].outcome == Success
    ensures Fulfilled(Last(run).store, Last(run).clients[c].command)
  {
    RunsKeep(run, |run| - 1);
    assert ClientOk(Last(run).store, Last(run).clients[c]);
  }

  /** Client 1 is told to retry although its command is in the stream: client 0 committed the same decision after
      client 1 had checked its identity and before it checked the length. */
  lemma RetryThoughCommitted() returns (run: seq<System>, listing: seq<Entry>)
    ensures IsRun(run) && Enabled(Last(run), Step(1, listing)) && Last(run).clients[1].command == ACCEPT_COMMAND
    ensures Fulfilled(Last(run).store, ACCEPT_COMMAND)
    ensures Moved(Last(run), Step(1, listing)).clients[1] == Done(ACCEPT_COMMAND, 2, Retryable)
  {
    run := TwinOvertakes(ACCEPT_COMMAND);
    listing := ITEM_LISTING;
    SuccessIsFulfilled(run, 0);
    ItemIsListedLast(run);
    TwinRetries(Last(run).store, Last(run).clients[1], ACCEPT_COMMAND, listing);
  }

  /** Client 1 is told to retry while its key names client 0's other decision: its identity is in the stream, its
      command is not. */
  lemma RetryOverAnother() returns (run: seq<System>, listing: seq<Entry>)
    ensures IsRun(run) && Enabled(Last(run), Step(1, listing)) && Last(run).clients[1].command == REJECT_COMMAND
    ensures InStream(Last(run).store.stream, IdOf(REJECT_COMMAND)) && !Fulfilled(Last(run).store, REJECT_COMMAND)
    ensures Moved(Last(run), Step(1, listing)).clients[1] == Done(REJECT_COMMAND, 2, Retryable)
  {
    run := TwinOvertakes(REJECT_COMMAND);
    listing := ITEM_LISTING;
    ItemIsListedLast(run);
    RejectIsAbsent(Last(run).store);
    TwinRetries(Last(run).store, Last(run).clients[1], REJECT_COMMAND, listing);
  }

  lemma RejectIsAbsent(store: Store)
    requires store.stream == [E1, E2, E3]
    ensures InStream(store.stream, IdOf(REJECT_COMMAND)) && !Fulfilled(store, REJECT_COMMAND)
  {
    assert store.stream[2].id == IdOf(REJECT_COMMAND);
  }

  lemma ItemIsListedLast(run: seq<System>)
    requires run != [] && Last(run).store.state == S3
    ensures Lists(ITEM_LISTING, Last(run).store.state.ledger.revisions)
  {
    assert ITEM_LISTING[0].id == ITEM_REVISION;
  }

  lemma TwinStarts(run: seq<System>, command: Command) returns (longer: seq<System>)
    requires Wrote(run, [E1, E2], S2)
    ensures IsRun(longer)
    ensures Last(longer) == System(Last(run).store, Last(run).clients[1 := Running(command, 2, 0, NO_LOCAL)])
  {
    longer := Extended(run, Start(1, command, 2));
  }

  lemma TwinChecks(s: System, command: Command, listing: seq<Entry>)
    requires Logged(s.store) && command.DecideAsHuman? && CommandFor(s.store.state, IdOf(command)).None?
    requires Lists(listing, s.store.state.ledger.revisions)
    requires 1 in s.clients && s.clients[1] == Running(command, 2, 0, NO_LOCAL)
    ensures Enabled(s, Step(1, listing))
    ensures Moved(s, Step(1, listing)) == System(s.store, s.clients[1 := Running(command, 2, 1, NO_LOCAL)])
  {
    AbsentMeansFresh(s.store, command, None);
  }

  lemma KeyIsNew(command: Command)
    requires command in {ACCEPT_COMMAND, REJECT_COMMAND}
    ensures CommandFor(S2, IdOf(command)).None? && Lists(ONE_ENTRY, S2.ledger.revisions)
  {
    NothingAcceptedListed();
  }

  /** A second client starts a decision and passes its identity check. */
  lemma TwinWaits(run: seq<System>, command: Command) returns (longer: seq<System>, waiting: Client)
    requires Wrote(run, [E1, E2], S2) && command in {ACCEPT_COMMAND, REJECT_COMMAND}
    ensures IsRun(longer) && Last(longer).store == Last(run).store
    ensures Last(longer).clients == Last(run).clients[1 := waiting]
    ensures waiting == Running(command, 2, 1, NO_LOCAL)
  {
    var started := TwinStarts(run, command);
    KeyIsNew(command);
    LastLogs(started);
    TwinChecks(Last(started), command, ONE_ENTRY);
    waiting := Running(command, 2, 1, NO_LOCAL);
    longer := Extended(started, Step(1, ONE_ENTRY));
    assert Last(started).clients[1 := waiting] == Last(run).clients[1 := waiting];
  }

  lemma TwinRetries(store: Store, c: Client, command: Command, listing: seq<Entry>)
    requires command.DecideAsHuman? && c == Running(command, 2, 1, NO_LOCAL) && |store.stream| != 2
    ensures Advance(store, c, listing).1 == Done(command, 2, Retryable)
  {
  }

  // ------------------------------------------------- checked, and yet refused

  const CARD_COMMAND := RecordHuman("s", "k1", PreparedRuns.CARD, "note", "typed", None, None)
  const AGAIN_COMMAND := RecordHuman("s", "k2", PreparedRuns.AGAIN, "note", "typed",
    Some(PreparedRuns.CARD_REVISION), Some(PreparedRuns.CARD_ID))
  const CARD1 := State(PreparedRuns.CONTEXT, EMPTY_LEDGER, NO_ASSESSMENTS)
  const CARD2 := State(PreparedRuns.CONTEXT, PreparedRuns.OPENED, NO_ASSESSMENTS)

  lemma CardContextWritten() returns (run: seq<System>)
    ensures Wrote(run, [PreparedRuns.OPENING[0]], CARD1)
  {
    var m := ServiceProtocol.Context(PreparedRuns.OPENING[0]);
    assert Append(EMPTY_STORE, 0, PreparedRuns.OPENING[0]) ==
      EventStore.Committed(Store([PreparedRuns.OPENING[0]], CARD1)) by {
      assert [] + [PreparedRuns.OPENING[0]] == [PreparedRuns.OPENING[0]];
    }
    RunGrows([BOOT], m);
    run := [BOOT] + [Moved(BOOT, m)];
  }

  lemma CardPrepares()
    ensures Prepare(HumanBatch("s", "note", "k1"), [Proposal(0, PreparedRuns.CARD, PreparedRuns.FIRST, None)], []) ==
      Some([PreparedRuns.CREATION])
  {
    var batch, item := HumanBatch("s", "note", "k1"), Proposal(0, PreparedRuns.CARD, PreparedRuns.FIRST, None);
    assert PrepareOne(batch, [], {}, map[], item) == Some(PreparedRuns.CREATION);
    assert [item][1..] == [] &&
      PrepareAll(batch, [], {} + {PreparedRuns.CARD_ID}, map[][0 := PreparedRuns.CARD_ID], []) == Some([]);
    assert [PreparedRuns.CREATION] + [] == [PreparedRuns.CREATION];
    assert PrepareAll(batch, [], {}, map[], [item]) == Some([PreparedRuns.CREATION]);
  }

  /** A human batch of one proposal is fingerprinted by its portable part. */
  lemma OneFingerprint(payload: Payload, p: Recorded)
    requires payload.ProposalBatch? && payload.origin == HumanOrigin && payload.proposals == [p]
    ensures FingerprintOf(payload) == ProposalFingerprint(HumanOrigin, payload.run, [PortableOf(p)])
  {
  }

  lemma CardWrites()
    ensures Writes(CARD1, 1, CARD_COMMAND, [], PreparedRuns.OPENING[1], CARD2)
  {
    CardPrepares();
    OneFingerprint(PreparedRuns.OPENING[1].payload, PreparedRuns.CREATION);
    PreparedRuns.OpeningReduces();
    assert DraftFor(CARD_COMMAND, View(CARD1, []), None) == Some(PreparedRuns.OPENING[1].payload);
  }

  lemma CardWritten() returns (run: seq<System>)
    ensures Wrote(run, PreparedRuns.OPENING, CARD2)
  {
    var before := CardContextWritten();
    CardWrites();
    run := Write(before, [PreparedRuns.OPENING[0]], CARD1, CARD_COMMAND, [], PreparedRuns.OPENING[1], CARD2);
    assert [PreparedRuns.OPENING[0]] + [PreparedRuns.OPENING[1]] == PreparedRuns.OPENING;
  }

  lemma AgainDrafts() returns (payload: Payload)
    ensures Lists(PreparedRuns.LISTING, CARD2.ledger.revisions)
    ensures DraftFor(AGAIN_COMMAND, View(CARD2, PreparedRuns.LISTING), None) == Some(payload)
  {
    var revision := RevisionId(PreparedRuns.CARD_ID, FlashcardKind, PreparedRuns.AGAIN, PreparedRuns.SECOND,
      Some(PreparedRuns.CARD_REVISION));
    var p := Recorded(0, PreparedRuns.CARD_ID, revision, FlashcardKind, PreparedRuns.AGAIN, PreparedRuns.SECOND,
      Some(PreparedRuns.CARD_REVISION), None);
    var batch := HumanBatch("s", "note", "k2");
    PreparedRuns.RevisionPrepares(batch, p);
    payload := ProposalBatch(batch, HumanOrigin, [p], None, false, "k2");
    OneFingerprint(payload, p);
  }

  lemma AgainIsReady(payload: Payload)
    requires Lists(PreparedRuns.LISTING, CARD2.ledger.revisions)
    requires DraftFor(AGAIN_COMMAND, View(CARD2, PreparedRuns.LISTING), None) == Some(payload)
    ensures Ready(Store(PreparedRuns.OPENING, CARD2), AGAIN_COMMAND, PreparedRuns.LISTING, None, payload)
    ensures !Lands(CARD2, AGAIN_COMMAND)
  {
  }

  /** All checks of a service can pass and the event be vetoed: after two events of a run, the revision that names a
      missing parent is ready, meets no interference, and is refused. */
  lemma ReadyYetRefused() returns (run: seq<System>, longer: seq<System>, payload: Payload)
    ensures IsRun(run) && IsRun(longer) && run <= longer
    ensures Ready(Last(run).store, AGAIN_COMMAND, PreparedRuns.LISTING, None, payload)
    ensures Last(longer).store == Last(run).store
    ensures 0 in Last(longer).clients && Last(longer).clients[0] == Done(AGAIN_COMMAND, 2, Refused)
  {
    run := CardWritten();
    payload := AgainDrafts();
    AgainIsReady(payload);
    longer := ReadyCommandIsDecided(run, 0, AGAIN_COMMAND, PreparedRuns.LISTING, None, payload);
  }

  // ----------------------------------------------------- beyond the services

  const TWO_DISPUTES := [Contest(G1, "s", "unfair", 10), Contest(G1, "s", "unfair", 11)]
  const MORE_ANSWERS := map[A1 := AnswerTo(PresentationOf("p")), A2 := AnswerTo(PresentationOf("pp")),
    A3 := AnswerTo(PresentationOf("p"))]
  const MORE_GRADES := map[G1 := ONE_GRADE, G2 := OTHER_GRADE, G3 := GradeOf(E13)]
  const ROGUE_GRADES := map[G1 := ONE_GRADE, G2 := OTHER_GRADE.(lifecycle := Replaced), G3 := GradeOf(E13),
    G4 := GradeOf(E14)]
  const PAGE11 := Page(Keys(2, 2, 2, 2), SHOWS, ANSWERS, map[G1 := ONE_GRADE, G2 := OTHER_GRADE], TWO_DISPUTES)
  const PAGE12 := Page(Keys(2, 3, 2, 2), SHOWS, MORE_ANSWERS, map[G1 := ONE_GRADE, G2 := OTHER_GRADE], TWO_DISPUTES)
  const PAGE13 := Page(Keys(2, 3, 3, 2), SHOWS, MORE_ANSWERS, MORE_GRADES, TWO_DISPUTES)
  const PAGE14 := Page(Keys(2, 3, 4, 2), SHOWS, MORE_ANSWERS, ROGUE_GRADES, TWO_DISPUTES)

  lemma TurnTo11()
    ensures Turns(PAGE10, E11, PAGE11)
  {
  }

  lemma TurnTo12()
    ensures Turns(PAGE11, E12, PAGE12)
  {
  }

  lemma TurnTo13()
    ensures Turns(PAGE12, E13, PAGE13)
  {
    assert ActiveGrades(PAGE12.grades, A3) == {};
    assert Regraded(PAGE12.grades, E13.payload, GradeOf(E13)) == PAGE13.grades;
  }

  lemma OtherIsActive(grades: map<GradeId, Grade>)
    requires grades == MORE_GRADES
    ensures ActiveGrades(grades, A2) == {G2} && G4 !in grades
  {
  }

  lemma OtherIsReplaced(grades: map<GradeId, Grade>)
    requires grades == MORE_GRADES
    ensures Regraded(grades, E14.payload, GradeOf(E14)) == ROGUE_GRADES
  {
  }

  lemma TurnTo14()
    ensures Turns(PAGE13, E14, PAGE14)
  {
    OtherIsActive(PAGE13.grades);
    OtherIsReplaced(PAGE13.grades);
  }

  lemma Admit(stream: seq<Event>, st: State, page: Page, e: Event) returns (next: State)
    requires Replay(stream) == Some(st) && Holds(st, page) && FitsPage(page, e) && e.sequence == |stream| + 1
    ensures Replay(stream + [e]) == Some(next) && Holds(next, PageAfter(page, e))
  {
    next := FittingReduces(st, page, e);
    ReplaySnoc(stream, e);
  }

  lemma HonestReplays() returns (st: State)
    ensures Replay(HONEST) == Some(st) && Holds(st, PAGE10)
  {
    var run := HonestIsServed();
    WrittenReplays(run, HONEST, PAGE10);
    st := Last(run).store.state;
  }

  lemma RogueReplays() returns (st: State)
    ensures Replay(HONEST + ROGUE) == Some(st) && Holds(st, PAGE14)
  {
    st := HonestReplays();
    TurnTo11();
    st := Admit(HONEST, st, PAGE10, E11);
    TurnTo12();
    st := Admit(HONEST + [E11], st, PAGE11, E12);
    st := RegradesReplay(HONEST + [E11] + [E12], st);
    RogueIsSuffix(HONEST);
  }

  lemma RegradesReplay(stream: seq<Event>, before: State) returns (st: State)
    requires Replay(stream) == Some(before) && Holds(before, PAGE12) && |stream| == 12
    ensures Replay(stream + [E13] + [E14]) == Some(st) && Holds(st, PAGE14)
  {
    TurnTo13();
    st := Admit(stream, before, PAGE12, E13);
    TurnTo14();
    st := Admit(stream + [E13], st, PAGE13, E14);
  }

  lemma RogueIsSuffix(stream: seq<Event>)
    ensures stream + ROGUE == stream + [E11] + [E12] + [E13] + [E14]
  {
  }

  /** The reducers alone give none of the service rules: they accept this stream, which breaks all four. */
  lemma ReducersAloneAdmit()
    ensures Replay(HONEST + ROGUE).Some?
    ensures var book := Replay(HONEST + ROGUE).value.book;
      !OneAttempt(book.attempts) && !OneContest(book.contests) && !OneGradePerRun(book.grades) &&
        !RegradesContested(book)
  {
    var st := RogueReplays();
    RulesBroken(st.book);
  }

  lemma RulesBroken(book: Assessments)
    requires book.attempts == MORE_ANSWERS && book.contests == TWO_DISPUTES && book.presentations == SHOWS
    requires book.grades == ROGUE_GRADES
    ensures !OneAttempt(book.attempts) && !OneContest(book.contests) && !OneGradePerRun(book.grades)
    ensures !RegradesContested(book)
  {
    assert A1 in book.attempts && A3 in book.attempts && A1 != A3;
    assert book.contests[0].grade == book.contests[1].grade;
    assert SameRun(book.grades[G1], book.grades[G3]) && G1 != G3;
    assert IsFree(book, book.grades[G4].attempt) && !ContestedBy(book.contests, G2, 14);
  }
}
