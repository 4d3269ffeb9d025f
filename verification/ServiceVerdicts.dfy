/** What the store answers to an append whose service checks have all passed: exactly which events are vetoed. */
module ServiceVerdicts {
  import opened Domain
  import opened ArtifactLedger
  import opened ArtifactInvariants
  import opened ArtifactSnapshot
  import opened ArtifactPrepare
  import opened AssessmentLedger
  import opened Course
  import opened EventStore
  import opened Commands
  import opened ServiceProtocol
  import opened ServiceRules
  import AI = AssessmentInvariants
  import AssessmentRuns
  import ClosedGrading
  import PreparedRuns

  /** Every check the command's service makes holds of `st`, and `payload` is the event built from it. */
  ghost predicate Cleared(st: State, c: Command, receipt: Option<Receipt>, payload: Payload) {
    && CommandFor(st, IdOf(c)).None?
    && Drafted(c, st, receipt, payload)
    && (c.DecideAsService? ==> receipt.Some? && PolicyAnswered(c, st, receipt.value))
    && (!IsArtifactCommand(c) ==> c.session in st.world.sessions)
    && (c.GradeExact? || c.GradeVerified? ==> exists listing :: GradeRules(c, View(st, listing)))
    && (c.RecordHuman? ==> (c.session, ProvenanceOf(c)) in st.world.grounded)
  }

  predicate Generable(world: World, session: SessionId, run: RunId, item: Proposal) {
    && ContentDecodes(item.content)
    && item.provenance.Generated? && item.provenance.run == run
    && (session, item.provenance) in world.grounded
  }

  /** What decoder and reducer ask of a command beyond its service's checks. */
  ghost predicate Lands(st: State, c: Command) {
    match c
    case RecordGenerated(session, _, run, items) =>
      && session in st.world.sessions
      && (forall i :: 0 <= i < |items| ==> Generable(st.world, session, run, items[i]))
      && NoneNamesMissing(st.ledger, items)
    case RecordHuman(session, _, content, _, _, _, target) =>
      && session in st.world.sessions && ContentDecodes(content)
      && !NamesMissingParent(st.ledger, Proposal(0, content, ProvenanceOf(c), target))
    case DecideAsHuman(session, _, _, _, _) => session in st.world.sessions
    case DecideAsService(session, _, _, _) => session in st.world.sessions
    case Present(_, _, revision) =>
      && revision in st.ledger.revisions && st.ledger.revisions[revision].content.AssessmentItem?
      && ItemEncodes(st.ledger.revisions[revision].content.item)
    case Respond(_, _, shown, response, _) =>
      && ResponseDecodes(response)
      && shown in st.book.presentations && st.book.presentations[shown].content.AssessmentItem?
      && ResponseFits(st.book.presentations[shown].content.item, response)
    case GradeExact(_, _, _, _) => true
    case GradeVerified(_, _, outcome, _) => ScoreDecodes(outcome.score)
    case ContestGrade(_, _, _, reason) => 0 < |reason| <= 4096
  }

  /** What every replayed state gives. */
  ghost predicate Sound(st: State, n: int) {
    && LedgerOk(st.ledger) && AI.BookOk(st.book, st.ledger.revisions, n) && AssessmentRuns.RecordsIndexed(st.book)
  }

  lemma StoreIsSound(store: Store)
    requires Consistent(store)
    ensures Sound(store.state, |store.stream|)
  {
    StoreFacts(store);
    AssessmentRuns.ReplayKeepsIndex(store.stream);
  }

  // ------------------------------------------------------- command by command

  lemma BatchVerdict(st: State, listing: seq<Entry>, items: seq<Proposal>, e: Event)
    requires LedgerOk(st.ledger) && Lists(listing, st.ledger.revisions) && BuiltFor(e, items) && e.sequence >= 2
    requires Prepare(e.payload.batch, items, listing) == Some(e.payload.proposals) && e.id !in st.ledger.commands
    ensures Reduce(st, e).Some? <==>
      && e.session in st.world.sessions
      && (forall i :: 0 <= i < |items| ==> Recordable(st.world, e, items[i]))
      && NoneNamesMissing(st.ledger, items)
  {
    BuiltBatchReduces(st.ledger, st.world, listing, items, e);
    if BatchDecodes(e) {
      PreparedRuns.BatchReduces(st, e);
    }
  }

  lemma GeneratedVerdict(st: State, c: Command, payload: Payload, n: nat)
    requires LedgerOk(st.ledger) && c.RecordGenerated? && Cleared(st, c, None, payload) && 1 <= n
    ensures Reduce(st, EventFor(c, payload, n)).Some? <==> Lands(st, c)
  {
    var e := EventFor(c, payload, n);
    var listing :| Lists(listing, st.ledger.revisions) && DraftFor(c, View(st, listing), None) == Some(payload);
    BatchVerdict(st, listing, c.recovered, e);
    assert forall i :: 0 <= i < |c.recovered| ==>
      (Recordable(st.world, e, c.recovered[i]) <==> Generable(st.world, c.session, c.run, c.recovered[i]));
  }

  lemma HumanVerdict(st: State, c: Command, payload: Payload, n: nat)
    requires LedgerOk(st.ledger) && c.RecordHuman? && Cleared(st, c, None, payload) && 1 <= n
    ensures Reduce(st, EventFor(c, payload, n)).Some? <==> Lands(st, c)
  {
    var e, item := EventFor(c, payload, n), Proposal(0, c.content, ProvenanceOf(c), c.target);
    var listing :| Lists(listing, st.ledger.revisions) && DraftFor(c, View(st, listing), None) == Some(payload);
    BatchVerdict(st, listing, [item], e);
    assert Recordable(st.world, e, [item][0]) <==> ContentDecodes(c.content);
    assert NoneNamesMissing(st.ledger, [item]) <==> !NamesMissingParent(st.ledger, [item][0]);
  }

  lemma ClosedSessionVetoes(st: State, e: Event)
    requires e.payload.Decision? && e.session !in st.world.sessions
    ensures Reduce(st, e).None?
  {
  }

  lemma DecisionVerdict(st: State, c: Command, receipt: Option<Receipt>, payload: Payload, n: nat)
    requires LedgerOk(st.ledger) && (c.DecideAsHuman? || c.DecideAsService?) && Drafted(c, st, receipt, payload)
    requires c.DecideAsService? ==> receipt.Some? && PolicyAnswered(c, st, receipt.value)
    requires CommandFor(st, IdOf(c)).None? && 1 <= n
    ensures Reduce(st, EventFor(c, payload, n)).Some? <==> c.session in st.world.sessions
  {
    if c.session in st.world.sessions {
      DecisionEvent(c, st, receipt, payload, n);
    } else {
      DecisionIsDrafted(c, st, receipt, payload);
      ClosedSessionVetoes(st, EventFor(c, payload, n));
    }
  }

  lemma DecisionIsDrafted(c: Command, st: State, receipt: Option<Receipt>, payload: Payload)
    requires (c.DecideAsHuman? || c.DecideAsService?) && Drafted(c, st, receipt, payload)
    ensures payload.Decision?
  {
    var listing := DraftedTarget(c, st, receipt, payload);
  }

  /** The events of assessment commands are vetoed by their own decoder and reducer alone. */
  lemma AssessmentReduces(st: State, e: Event)
    requires !e.payload.ProposalBatch? && !e.payload.Decision? && !e.payload.ContextRecorded?
    ensures Reduce(st, e).Some? <==> Assess(st.ledger, st.world, st.book, e).Some?
  {
  }

  lemma DraftOf(c: Command, st: State, payload: Payload) returns (listing: seq<Entry>)
    requires Drafted(c, st, None, payload)
    ensures Lists(listing, st.ledger.revisions) && DraftFor(c, View(st, listing), None) == Some(payload)
  {
    listing :| Lists(listing, st.ledger.revisions) && DraftFor(c, View(st, listing), None) == Some(payload);
  }

  /** The event of an assessment command, as far as every assessment reducer reads it. */
  ghost predicate Arrives(world: World, book: Assessments, c: Command, e: Event) {
    && e.id == IdOf(c) && e.session == c.session && e.actor == ActorOf(c)
    && e.id !in book.commands && e.session in world.sessions
  }

  lemma PresentAssesses(ledger: Ledger, world: World, book: Assessments, c: Command, view: View, e: Event)
    requires c.Present? && Arrives(world, book, c, e) && AssessmentRuns.RecordsIndexed(book)
    requires view.state.ledger == ledger && DraftPresentation(c, view) == Some(e.payload)
    ensures Assess(ledger, world, book, e).Some? <==> ItemEncodes(ledger.revisions[c.revision].content.item)
  {
  }

  lemma PresentVerdict(st: State, c: Command, payload: Payload, n: nat)
    requires c.Present? && Drafted(c, st, None, payload) && AssessmentRuns.RecordsIndexed(st.book)
    requires Arrives(st.world, st.book, c, EventFor(c, payload, n))
    ensures Reduce(st, EventFor(c, payload, n)).Some? <==> Lands(st, c)
  {
    var e := EventFor(c, payload, n);
    var listing := DraftOf(c, st, payload);
    AssessmentReduces(st, e);
    PresentAssesses(st.ledger, st.world, st.book, c, View(st, listing), e);
  }

  lemma ResponseAssesses(ledger: Ledger, world: World, book: Assessments, c: Command, e: Event)
    requires c.Respond? && Arrives(world, book, c, e) && AssessmentRuns.RecordsIndexed(book)
    requires e.payload == ResponsePayload(c) && c.presentation in book.presentations
    requires book.presentations[c.presentation].session == c.session
    requires book.presentations[c.presentation].content.AssessmentItem?
    ensures Assess(ledger, world, book, e).Some? <==>
      ResponseDecodes(c.response) && ResponseFits(book.presentations[c.presentation].content.item, c.response)
  {
  }

  lemma ResponseIsDrafted(c: Command, st: State, payload: Payload)
    requires c.Respond? && Drafted(c, st, None, payload)
    ensures payload == ResponsePayload(c) && c.presentation in st.book.presentations
    ensures st.book.presentations[c.presentation].session == c.session
  {
    var listing := DraftOf(c, st, payload);
  }

  lemma ResponseVerdict(st: State, c: Command, payload: Payload, n: nat)
    requires c.Respond? && Drafted(c, st, None, payload) && AssessmentRuns.RecordsIndexed(st.book)
    requires AI.Shown(st.book.presentations, st.ledger.revisions)
    requires Arrives(st.world, st.book, c, EventFor(c, payload, n))
    ensures Reduce(st, EventFor(c, payload, n)).Some? <==> Lands(st, c)
  {
    ResponseIsDrafted(c, st, payload);
    assert AI.Quotes(st.book.presentations[c.presentation], st.ledger.revisions);
    AssessmentReduces(st, EventFor(c, payload, n));
    ResponseAssesses(st.ledger, st.world, st.book, c, EventFor(c, payload, n));
  }

  lemma ContestAssesses(ledger: Ledger, world: World, book: Assessments, c: Command, e: Event)
    requires c.ContestGrade? && Arrives(world, book, c, e) && e.payload == ContestPayload(c)
    requires c.grade in book.grades && book.grades[c.grade].session == c.session
    ensures Assess(ledger, world, book, e).Some? <==> 0 < |c.reason| <= 4096
  {
  }

  lemma ContestVerdict(st: State, c: Command, payload: Payload, n: nat)
    requires c.ContestGrade? && Drafted(c, st, None, payload)
    requires Arrives(st.world, st.book, c, EventFor(c, payload, n))
    ensures Reduce(st, EventFor(c, payload, n)).Some? <==> Lands(st, c)
  {
    var e := EventFor(c, payload, n);
    var listing := DraftOf(c, st, payload);
    AssessmentReduces(st, e);
    ContestAssesses(st.ledger, st.world, st.book, c, e);
  }

  // -------------------------------------------------------------------- grades

  /** The predecessor that the rules of a grading command admit is a grade of its session. */
  lemma ActiveIsOwn(book: Assessments, session: SessionId, attempt: AttemptId, predecessor: Option<GradeId>)
    requires AI.Judged(book.grades, book.attempts, book.presentations) && Owns(book, session, attempt)
    requires NamesActive(book, attempt, predecessor) && predecessor.Some?
    ensures predecessor.value in book.grades && book.grades[predecessor.value].session == session
  {
    assert predecessor.value in ActiveGrades(book.grades, attempt);
    assert AI.Judges(book.grades[predecessor.value], book.attempts, book.presentations);
  }

  /** A grade for an owned attempt, with the rubric of its item. */
  ghost predicate GradeFits(book: Assessments, session: SessionId, p: Payload)
    requires p.GradeRecorded?
  {
    && p.grade == GradeId(session, p.graded, p.key) && Owns(book, session, p.graded)
    && var item := book.presentations[book.attempts[p.graded].presentation].content.item;
    && CriteriaOf(p.criteria) == item.criteria && p.grading.rubric == item.criteria
  }

  lemma GradeAssesses(ledger: Ledger, world: World, book: Assessments, c: Command, e: Event)
    requires (c.GradeExact? || c.GradeVerified?) && Arrives(world, book, c, e) && e.payload.GradeRecorded?
    requires e.payload.key == c.key && GradeFits(book, c.session, e.payload)
    requires AssessmentRuns.RecordsIndexed(book) && NamesActive(book, e.payload.graded, e.payload.predecessor)
    requires e.payload.predecessor.Some? ==>
      e.payload.predecessor.value in book.grades && book.grades[e.payload.predecessor.value].session == c.session
    ensures Assess(ledger, world, book, e).Some? <==> ScoreDecodes(e.payload.score)
  {
    assert e.payload.grade !in book.grades;
  }

  lemma GradeVerdict(st: State, c: Command, payload: Payload, n: nat)
    requires (c.GradeExact? || c.GradeVerified?) && payload.GradeRecorded?
    requires payload.key == c.key && GradeFits(st.book, c.session, payload)
    requires AssessmentRuns.RecordsIndexed(st.book) && NamesActive(st.book, payload.graded, payload.predecessor)
    requires AI.Judged(st.book.grades, st.book.attempts, st.book.presentations)
    requires Arrives(st.world, st.book, c, EventFor(c, payload, n))
    ensures Reduce(st, EventFor(c, payload, n)).Some? <==> ScoreDecodes(payload.score)
  {
    AssessmentReduces(st, EventFor(c, payload, n));
    if payload.predecessor.Some? {
      ActiveIsOwn(st.book, c.session, payload.graded, payload.predecessor);
    }
    GradeAssesses(st.ledger, st.world, st.book, c, EventFor(c, payload, n));
  }

  lemma VerifiedGradeFits(c: Command, st: State, payload: Payload)
    requires c.GradeVerified? && Drafted(c, st, None, payload)
    requires exists listing :: GradeRules(c, View(st, listing))
    ensures payload == VerifiedGrade(c) && GradeFits(st.book, c.session, payload)
    ensures NamesActive(st.book, payload.graded, payload.predecessor)
  {
    var listing := DraftOf(c, st, payload);
  }

  /** The policy grades every criterion of an admitted closed answer with a score that decodes. */
  lemma ExactGradeFits(book: Assessments, revisions: map<RevisionId, Revision>, c: Command)
    requires AI.Shown(book.presentations, revisions) && AI.Answered(book.attempts, book.presentations)
    requires c.GradeExact? && ExactPayload(c, book).Some?
    ensures var payload := ExactPayload(c, book).value;
      GradeFits(book, c.session, payload) && ScoreDecodes(payload.score)
  {
    var attempt := book.attempts[c.attempt];
    assert AI.Answers(attempt, book.presentations);
    assert AI.Quotes(book.presentations[attempt.presentation], revisions);
    ClosedGrading.ClosedGradingIsSetComparison(book.presentations[attempt.presentation].content.item,
      attempt.response);
  }

  lemma ExactRules(c: Command, st: State, payload: Payload)
    requires c.GradeExact? && Drafted(c, st, None, payload)
    requires exists listing :: GradeRules(c, View(st, listing))
    ensures ExactPayload(c, st.book) == Some(payload) && payload.key == c.key
    ensures NamesActive(st.book, payload.graded, payload.predecessor)
  {
    var listing := DraftOf(c, st, payload);
  }

  lemma ExactVerdict(st: State, c: Command, payload: Payload, n: nat)
    requires c.GradeExact? && Drafted(c, st, None, payload)
    requires exists listing :: GradeRules(c, View(st, listing))
    requires AI.Shown(st.book.presentations, st.ledger.revisions)
    requires AI.Answered(st.book.attempts, st.book.presentations)
    requires AI.Judged(st.book.grades, st.book.attempts, st.book.presentations)
    requires AssessmentRuns.RecordsIndexed(st.book) && Arrives(st.world, st.book, c, EventFor(c, payload, n))
    ensures Reduce(st, EventFor(c, payload, n)).Some?
  {
    ExactRules(c, st, payload);
    ExactGradeFits(st.book, st.ledger.revisions, c);
    GradeVerdict(st, c, payload, n);
  }

  lemma VerifiedVerdict(st: State, c: Command, payload: Payload, n: nat)
    requires c.GradeVerified? && Drafted(c, st, None, payload)
    requires exists listing :: GradeRules(c, View(st, listing))
    requires AI.Judged(st.book.grades, st.book.attempts, st.book.presentations)
    requires AssessmentRuns.RecordsIndexed(st.book) && Arrives(st.world, st.book, c, EventFor(c, payload, n))
    ensures Reduce(st, EventFor(c, payload, n)).Some? <==> ScoreDecodes(c.outcome.score)
  {
    VerifiedGradeFits(c, st, payload);
    GradeVerdict(st, c, payload, n);
  }

  // ------------------------------------------------------------ every command

  /** A receipt is remembered by a service decision only. */
  lemma ReceiptUnused(st: State, c: Command, receipt: Option<Receipt>, payload: Payload)
    requires Cleared(st, c, receipt, payload) && !c.DecideAsService?
    ensures Cleared(st, c, None, payload)
  {
    var listing :| Lists(listing, st.ledger.revisions) && DraftFor(c, View(st, listing), receipt) == Some(payload);
    assert DraftFor(c, View(st, listing), None) == Some(payload);
  }

  lemma AssessmentVerdict(st: State, c: Command, payload: Payload, n: nat, m: int)
    requires Sound(st, m) && !IsArtifactCommand(c) && Cleared(st, c, None, payload)
    ensures Reduce(st, EventFor(c, payload, n)).Some? <==> Lands(st, c)
  {
    match c
    case Present(_, _, _) => PresentVerdict(st, c, payload, n);
    case Respond(_, _, _, _, _) => ResponseVerdict(st, c, payload, n);
    case GradeExact(_, _, _, _) => ExactVerdict(st, c, payload, n);
    case GradeVerified(_, _, _, _) => VerifiedVerdict(st, c, payload, n);
    case ContestGrade(_, _, _, _) => ContestVerdict(st, c, payload, n);
  }

  lemma CommandVerdict(st: State, c: Command, receipt: Option<Receipt>, payload: Payload, n: nat, m: int)
    requires Sound(st, m) && Cleared(st, c, receipt, payload) && (IsArtifactCommand(c) ==> 1 <= n)
    ensures Reduce(st, EventFor(c, payload, n)).Some? <==> Lands(st, c)
  {
    if c.DecideAsService? || c.DecideAsHuman? {
      DecisionVerdict(st, c, receipt, payload, n);
    } else {
      ReceiptUnused(st, c, receipt, payload);
      if c.RecordGenerated? {
        GeneratedVerdict(st, c, payload, n);
      } else if c.RecordHuman? {
        HumanVerdict(st, c, payload, n);
      } else {
        AssessmentVerdict(st, c, payload, n, m);
      }
    }
  }

  /** An append whose service checks hold of the current store is committed exactly when the command lands, and
      vetoed otherwise. */
  lemma AppendVerdict(store: Store, c: Command, receipt: Option<Receipt>, payload: Payload)
    requires Consistent(store) && Cleared(store.state, c, receipt, payload)
    requires IsArtifactCommand(c) ==> 1 <= |store.stream|
    ensures var answer := Append(store, |store.stream|, EventFor(c, payload, |store.stream|));
      (answer.Committed? <==> Lands(store.state, c)) && (answer == Vetoed <==> !Lands(store.state, c))
  {
    StoreIsSound(store);
    CommandVerdict(store.state, c, receipt, payload, |store.stream|, |store.stream|);
  }

  // ------------------------------------------------------------------ in a run

  /** A program makes all its checks before it appends. */
  lemma ChecksComeFirst(c: Command, n: nat)
    requires n < |Program(c)| && Program(c)[n] == TryAppend
    ensures Identify in Program(c)[..n] && Draft in Program(c)[..n]
    ensures c.DecideAsService? ==> Consult in Program(c)[..n]
    ensures !IsArtifactCommand(c) ==> OpenSession in Program(c)[..n]
    ensures c.GradeExact? || c.GradeVerified? ==> CheckRules in Program(c)[..n]
    ensures c.RecordHuman? ==> Ground in Program(c)[..n]
  {
    RulesComeFirst(c, n);
    IdentityComesFirst(c, n);
    var k :| 0 <= k < n && Program(c)[k] == Identify;
    assert Program(c)[..n][k] == Identify;
    if c.DecideAsService? {
      assert Program(c)[..n][3] == Consult;
    } else if c.RecordHuman? {
      assert Program(c)[..n][4] == Ground;
    } else if !IsArtifactCommand(c) {
      assert Program(c)[..n][0] == OpenSession;
    }
  }

  /** At its append, while the stream has the expected length, a client's checks all hold of the store. */
  lemma FactsAreCleared(store: Store, c: Client)
    requires Logged(store) && ClientOk(store, c) && c.Running? && Program(c.command)[c.pc] == TryAppend
    requires |store.stream| == c.expected
    ensures c.local.draft.Some? && Cleared(store.state, c.command, c.local.receipt, c.local.draft.value)
  {
    ChecksComeFirst(c.command, c.pc);
    PassedOf(store, c, Identify);
    IndexedIffCommitted(store, IdOf(c.command));
    PassedOf(store, c, Draft);
    RemainingFacts(store, c);
  }

  lemma RemainingFacts(store: Store, c: Client)
    requires ClientOk(store, c) && c.Running? && Program(c.command)[c.pc] == TryAppend
    requires |store.stream| == c.expected
    ensures c.command.DecideAsService? ==>
      c.local.receipt.Some? && PolicyAnswered(c.command, store.state, c.local.receipt.value)
    ensures !IsArtifactCommand(c.command) ==> c.command.session in store.state.world.sessions
    ensures c.command.GradeExact? || c.command.GradeVerified? ==>
      exists listing :: GradeRules(c.command, View(store.state, listing))
    ensures c.command.RecordHuman? ==> (c.command.session, ProvenanceOf(c.command)) in store.state.world.grounded
  {
    ChecksComeFirst(c.command, c.pc);
    if c.command.DecideAsService? {
      PassedOf(store, c, Consult);
    } else if c.command.RecordHuman? {
      PassedOf(store, c, Ground);
    } else if !IsArtifactCommand(c.command) {
      PassedOf(store, c, OpenSession);
      if c.command.GradeExact? || c.command.GradeVerified? {
        PassedOf(store, c, CheckRules);
      }
    }
  }

  /** What the append step of a client that was not overtaken leads to. */
  ghost predicate DecidedAtAppend(store: Store, c: Client, next: (Store, Client))
    requires c.Running?
  {
    && c.local.draft.Some?
    && (if Lands(store.state, c.command)
        then next.1 == Finish(c, Success) &&
          next.0.stream == store.stream + [EventFor(c.command, c.local.draft.value, c.expected)]
        else next == (store, Finish(c, Refused)))
  }

  /** In every run, a client that reaches its append before the stream moves commits its event exactly when its
      command lands; otherwise it is refused and nothing changes. */
  lemma AppendIsDecided(run: seq<System>, n: nat, client: nat, listing: seq<Entry>)
    requires IsRun(run) && n < |run| && Enabled(run[n], Step(client, listing))
    requires var c := run[n].clients[client];
      Program(c.command)[c.pc] == TryAppend && |run[n].store.stream| == c.expected
    ensures var c := run[n].clients[client];
      DecidedAtAppend(run[n].store, c, Advance(run[n].store, c, listing))
  {
    var store, c := run[n].store, run[n].clients[client];
    RunsKeep(run, n);
    assert ClientOk(store, c);
    FactsAreCleared(store, c);
    AppendVerdict(store, c.command, c.local.receipt, c.local.draft.value);
  }
}
