/** When a command is drafted, and what its event then says: both read from ledger, book and command, field by field,
    for every listing of the revisions. */
module CommandDrafts {
  import opened Domain
  import opened ArtifactLedger
  import opened ArtifactInvariants
  import opened ArtifactSnapshot
  import opened ArtifactPrepare
  import opened ArtifactPlacement
  import opened AssessmentLedger
  import opened ClosedGrading
  import opened EventGuards
  import opened Course
  import opened Commands
  import opened ServiceVerdicts
  import AI = AssessmentInvariants

  // -------------------------------------------------------- when it is drafted

  /** The revision is proposed in the session, and the verdict supersedes the accepted revision of its artifact or, a
      rejection, nothing. */
  ghost predicate MayDecide(
    ledger: Ledger, session: SessionId, r: RevisionId, verdict: Verdict, supersedes: Option<RevisionId>) {
    && Decidable(ledger, session, r)
    && Supersession(ledger.revisions, ledger.revisions[r].artifact, verdict, supersedes)
  }

  /** The attempt and its presentation, of an item, are of the session. */
  ghost predicate OwnAttempt(book: Assessments, session: SessionId, attempt: AttemptId) {
    && attempt in book.attempts && book.attempts[attempt].session == session
    && book.attempts[attempt].presentation in book.presentations
    && book.presentations[book.attempts[attempt].presentation].session == session
    && book.presentations[book.attempts[attempt].presentation].content.AssessmentItem?
  }

  /** The outcome is about the stored attempt, its presentation and its free-response item, criterion by criterion. */
  ghost predicate OutcomeFits(book: Assessments, session: SessionId, o: VerifiedOutcome) {
    && o.session == session && OwnAttempt(book, session, o.attempt)
    && o.presentation == book.attempts[o.attempt].presentation
    && o.response == book.attempts[o.attempt].response
    && var shown := book.presentations[o.presentation];
    && o.revision == shown.revision && o.content == shown.content
    && shown.content.item.format == FreeResponseFormat
    && o.rubric == shown.content.item.criteria
    && |o.criteria| == |o.rubric| && forall i :: 0 <= i < |o.rubric| ==> o.criteria[i].criterion == o.rubric[i]
  }

  /** The one proposal of a human command. */
  function HumanItem(c: Command): Proposal
    requires c.RecordHuman?
  {
    Proposal(0, c.content, HumanAuthored(c.interaction, c.detail, c.prior), c.target)
  }

  ghost predicate Draftable(st: State, c: Command) {
    var ledger, book := st.ledger, st.book;
    match c
    case RecordGenerated(session, key, run, items) => AllPlaceable(ledger, GeneratedBatch(session, run, key), items)
    case RecordHuman(session, key, _, interaction, _, _, _) =>
      AllPlaceable(ledger, HumanBatch(session, interaction, key), [HumanItem(c)])
    case DecideAsHuman(session, _, r, verdict, supersedes) => MayDecide(ledger, session, r, verdict, supersedes)
    case DecideAsService(session, key, r, answer) =>
      && MayDecide(ledger, session, r, answer.verdict, answer.supersedes)
      && AnswersRequest(ledger, ArtifactEventId(session, key, DecisionCommand), session, r, answer)
    case Present(session, _, r) => Showable(ledger, session, r)
    case Respond(session, _, shown, _, _) =>
      && shown in book.presentations && book.presentations[shown].session == session
      && forall a :: a in book.attempts ==> book.attempts[a].presentation != shown
    case GradeExact(session, _, attempt, _) =>
      && OwnAttempt(book, session, attempt)
      && book.presentations[book.attempts[attempt].presentation].content.item.format != FreeResponseFormat
    case GradeVerified(session, _, o, _) => OutcomeFits(book, session, o)
    case ContestGrade(session, _, g, _) =>
      && g in book.grades && book.grades[g].session == session
      && forall i :: 0 <= i < |book.contests| ==> book.contests[i].grade != g
  }

  /** What a command that is not draftable is told: a conflict when a record excludes it (the revision is decided, its
      artifact has another accepted revision, the presentation is answered, the grade is contested, the attempt is not
      what the outcome says), a refusal when something is missing or another session's. */
  ghost function Obstacle(st: State, c: Command): Outcome {
    var ledger, book := st.ledger, st.book;
    match c
    case DecideAsHuman(session, _, r, verdict, _) =>
      if r in ledger.revisions && ledger.revisions[r].status != Proposed then Conflict
      else if Decidable(ledger, session, r) && verdict == Accept then Conflict
      else Refused
    case DecideAsService(_, _, r, _) =>
      if r in ledger.revisions && ledger.revisions[r].status != Proposed then Conflict else Refused
    case Respond(session, _, shown, _, _) =>
      if shown in book.presentations && book.presentations[shown].session == session then Conflict else Refused
    case GradeVerified(session, _, o, _) =>
      if o.session == session && o.attempt in book.attempts
        && book.attempts[o.attempt].presentation in book.presentations then Conflict else Refused
    case ContestGrade(session, _, g, _) =>
      if g in book.grades && book.grades[g].session == session then Conflict else Refused
    case _ => Refused
  }

  // --------------------------------------------------------- what the event says

  ghost predicate BatchSays(
    ledger: Ledger, batch: BatchId, origin: Origin, run: Option<RunId>, key: Key, items: seq<Proposal>, p: Payload) {
    && p.ProposalBatch? && p.batch == batch && p.origin == origin && p.run == run && p.key == key
    && p.proof == (origin == GeneratedOrigin)
    && AllPlaced(ledger, batch, items, p.proposals)
  }

  ghost predicate DecisionSays(
    r: RevisionId, key: Key, verdict: Verdict, supersedes: Option<RevisionId>, receipt: Option<Receipt>, p: Payload) {
    && p.Decision? && p.revision == r && p.key == key
    && p.verdict == verdict && p.supersedes == supersedes && p.receipt == receipt
  }

  ghost predicate PresentationSays(ledger: Ledger, session: SessionId, key: Key, r: RevisionId, p: Payload) {
    && r in ledger.revisions && ledger.revisions[r].content.AssessmentItem?
    && p.ItemPresented? && p.presentation == PresentationId(session, r, key) && p.shown == r && p.key == key
    && var item := ledger.revisions[r].content.item;
    && p.fingerprint == AssessmentItem(item)
    && p.format == item.format && p.prompt == item.prompt && p.options == item.options
  }

  ghost predicate AttemptSays(
    session: SessionId, key: Key, shown: PresentationId, response: Response, latency: Option<nat>, p: Payload) {
    && p.AttemptRecorded? && p.attempt == AttemptId(session, shown, key) && p.of == shown && p.key == key
    && p.response == response && p.latency == latency
  }

  ghost predicate GradeIsOf(
    session: SessionId, key: Key, attempt: AttemptId, predecessor: Option<GradeId>, p: Payload) {
    && p.GradeRecorded? && p.grade == GradeId(session, attempt, key) && p.graded == attempt && p.key == key
    && p.predecessor == predecessor
  }

  ghost predicate ExactGradeSays(book: Assessments, attempt: AttemptId, p: Payload)
    requires p.GradeRecorded?
  {
    && attempt in book.attempts && book.attempts[attempt].presentation in book.presentations
    && book.presentations[book.attempts[attempt].presentation].content.AssessmentItem?
    && var item := book.presentations[book.attempts[attempt].presentation].content.item;
    && p.status == Graded && ClosedResults(item, book.attempts[attempt].response, p.criteria, p.score)
    && p.grading == Deterministic(EXACT_POLICY, item.criteria)
  }

  ghost predicate VerifiedGradeSays(o: VerifiedOutcome, p: Payload)
    requires p.GradeRecorded?
  {
    && p.status == o.status && p.criteria == o.criteria && p.score == o.score
    && p.grading.Verified? && p.grading.run == o.run && p.grading.detail == o.detail && p.grading.rubric == o.rubric
  }

  ghost predicate ContestIsOf(g: GradeId, reason: string, key: Key, p: Payload) {
    p.GradeContested? && p.contested == g && p.reason == reason && p.key == key
  }

  ghost predicate PayloadSays(st: State, c: Command, p: Payload) {
    match c
    case RecordGenerated(session, key, run, items) =>
      BatchSays(st.ledger, GeneratedBatch(session, run, key), GeneratedOrigin, Some(run), key, items, p)
    case RecordHuman(session, key, _, interaction, _, _, _) =>
      BatchSays(st.ledger, HumanBatch(session, interaction, key), HumanOrigin, None, key, [HumanItem(c)], p)
    case DecideAsHuman(_, key, r, verdict, supersedes) => DecisionSays(r, key, verdict, supersedes, None, p)
    case DecideAsService(_, key, r, answer) => DecisionSays(r, key, answer.verdict, answer.supersedes, Some(answer), p)
    case Present(session, key, r) => PresentationSays(st.ledger, session, key, r, p)
    case Respond(session, key, shown, response, latency) => AttemptSays(session, key, shown, response, latency, p)
    case GradeExact(session, key, attempt, predecessor) =>
      GradeIsOf(session, key, attempt, predecessor, p) && ExactGradeSays(st.book, attempt, p)
    case GradeVerified(session, key, o, predecessor) =>
      GradeIsOf(session, key, o.attempt, predecessor, p) && VerifiedGradeSays(o, p)
    case ContestGrade(_, key, g, reason) => ContestIsOf(g, reason, key, p)
  }

  // ------------------------------------------------------- command by command

  /** The draft of a command, given `receipt`, is there exactly when the command is draftable and says what it must. */
  ghost predicate DraftExact(st: State, c: Command, draft: Option<Payload>) {
    && (draft.Some? <==> Draftable(st, c))
    && (draft.Some? ==> PayloadSays(st, c, draft.value))
  }

  lemma GeneratedDrafts(st: State, c: Command, listing: seq<Entry>)
    requires Chained(st.ledger) && Lists(listing, st.ledger.revisions) && c.RecordGenerated?
    ensures DraftExact(st, c, DraftGenerated(c, View(st, listing)))
  {
    PreparesExactly(st.ledger, listing, GeneratedBatch(c.session, c.run, c.key), c.recovered);
  }

  lemma HumanFingerprint(c: Command, ledger: Ledger, payload: Payload)
    requires c.RecordHuman?
    requires BatchSays(ledger, HumanBatch(c.session, c.interaction, c.key), HumanOrigin, None, c.key, [HumanItem(c)],
               payload)
    ensures FingerprintOf(payload) == CommandFingerprint(c)
  {
    var batch, items := HumanBatch(c.session, c.interaction, c.key), [HumanItem(c)];
    assert PlacedAs(ledger, batch, items, 0, payload.proposals[0]);
    assert PortableOf(payload.proposals[0]) == Portable(0, HumanTarget(c), KindOf(c.content), c.content,
      ProvenanceOf(c));
    assert FingerprintOf(payload).proposals == CommandFingerprint(c).proposals;
  }

  lemma HumanDrafts(st: State, c: Command, listing: seq<Entry>)
    requires Chained(st.ledger) && Lists(listing, st.ledger.revisions) && c.RecordHuman?
    ensures DraftExact(st, c, DraftHuman(c, View(st, listing)))
  {
    var batch, items := HumanBatch(c.session, c.interaction, c.key), [HumanItem(c)];
    PreparesExactly(st.ledger, listing, batch, items);
    var prepared := Prepare(batch, items, listing);
    if prepared.Some? {
      HumanFingerprint(c, st.ledger, ProposalBatch(batch, HumanOrigin, prepared.value, None, false, c.key));
    }
  }

  /** The target lookup of a view succeeds exactly for the session's proposed revisions and finds the accepted one. */
  lemma TargetExactly(st: State, session: SessionId, r: RevisionId, listing: seq<Entry>)
    requires LedgerOk(st.ledger) && Lists(listing, st.ledger.revisions)
    ensures var target := DecisionTarget(session, r, View(st, listing));
      && (target.Some? <==> Decidable(st.ledger, session, r))
      && (target.Some? ==> NamesAccepted(st.ledger.revisions, st.ledger.revisions[r].artifact, target.value))
  {
    if r in st.ledger.revisions {
      var a := st.ledger.revisions[r].artifact;
      assert a in st.ledger.artifacts;
      SnapshotAgreesWith(st.ledger, listing, a);
      var current := CurrentNamed(st.ledger, r);
    }
  }

  lemma DraftedAtTarget(
    c: Command, view: View, verdict: Verdict, supersedes: Option<RevisionId>, receipt: Option<Receipt>,
    target: Option<Option<RevisionId>>)
    requires (c.DecideAsHuman? || c.DecideAsService?) && target == DecisionTarget(c.session, c.revision, view)
    ensures var draft := DraftDecision(c, view, verdict, supersedes, receipt);
      && (draft.Some? <==> target.Some? && supersedes == if verdict == Accept then target.value else None)
      && (draft.Some? ==> DecisionSays(c.revision, c.key, verdict, supersedes, receipt, draft.value))
  {
  }

  lemma TargetMayBeDecided(
    st: State, session: SessionId, r: RevisionId, verdict: Verdict, supersedes: Option<RevisionId>,
    listing: seq<Entry>)
    requires LedgerOk(st.ledger) && Lists(listing, st.ledger.revisions)
    ensures var target := DecisionTarget(session, r, View(st, listing));
      MayDecide(st.ledger, session, r, verdict, supersedes) <==>
        target.Some? && supersedes == if verdict == Accept then target.value else None
  {
    TargetExactly(st, session, r, listing);
    var target := DecisionTarget(session, r, View(st, listing));
    if target.Some? {
      SupersessionIs(st.ledger.revisions, st.ledger.revisions[r].artifact, verdict, supersedes, target.value);
    }
  }

  lemma DecisionDrafts(
    st: State, c: Command, verdict: Verdict, supersedes: Option<RevisionId>, receipt: Option<Receipt>,
    listing: seq<Entry>)
    requires LedgerOk(st.ledger) && Lists(listing, st.ledger.revisions) && (c.DecideAsHuman? || c.DecideAsService?)
    ensures var draft := DraftDecision(c, View(st, listing), verdict, supersedes, receipt);
      && (draft.Some? <==> MayDecide(st.ledger, c.session, c.revision, verdict, supersedes))
      && (draft.Some? ==> DecisionSays(c.revision, c.key, verdict, supersedes, receipt, draft.value))
  {
    var view := View(st, listing);
    DraftedAtTarget(c, view, verdict, supersedes, receipt, DecisionTarget(c.session, c.revision, view));
    TargetMayBeDecided(st, c.session, c.revision, verdict, supersedes, listing);
  }

  /** The policy's answer is taken exactly when it answers the request of the ledger and supersedes accordingly. */
  lemma ConsultsExactly(st: State, c: Command, listing: seq<Entry>)
    requires LedgerOk(st.ledger) && Lists(listing, st.ledger.revisions) && c.DecideAsService?
    ensures var receipt := Consulted(c, View(st, listing));
      && (receipt.Some? <==> Draftable(st, c))
      && (receipt.Some? ==> receipt.value == c.answer)
  {
    TargetExactly(st, c.session, c.revision, listing);
    var target := DecisionTarget(c.session, c.revision, View(st, listing));
    if target.Some? {
      AnswerExactly(st.ledger, c, target.value);
    }
  }

  lemma AnswerExactly(ledger: Ledger, c: Command, current: Option<RevisionId>)
    requires c.DecideAsService? && c.revision in ledger.revisions
    requires NamesAccepted(ledger.revisions, ledger.revisions[c.revision].artifact, current)
    ensures var a := ledger.revisions[c.revision].artifact;
      Supersession(ledger.revisions, a, c.answer.verdict, c.answer.supersedes) <==>
        c.answer.supersedes == if c.answer.verdict == Accept then current else None
    ensures AnswersRequest(ledger, IdOf(c), c.session, c.revision, c.answer) <==>
      && c.answer.requestId == IdOf(c)
      && c.answer.result == ResultOf(
        Request(IdOf(c), c.session, c.revision, ledger.revisions[c.revision].kind, current), c.answer.verdict,
        c.answer.supersedes)
  {
    var a := ledger.revisions[c.revision].artifact;
    SupersessionIs(ledger.revisions, a, c.answer.verdict, c.answer.supersedes, current);
    forall other | NamesAccepted(ledger.revisions, a, other) ensures other == current {
      OneNamed(ledger.revisions, a, other, current);
    }
  }

  lemma PresentationDrafts(st: State, c: Command, listing: seq<Entry>)
    requires c.Present?
    ensures DraftExact(st, c, DraftPresentation(c, View(st, listing)))
  {
  }

  lemma ResponseDrafts(st: State, c: Command, listing: seq<Entry>)
    requires c.Respond?
    ensures DraftExact(st, c, DraftResponse(c, View(st, listing)))
  {
  }

  lemma ContestDrafts(st: State, c: Command, listing: seq<Entry>)
    requires c.ContestGrade?
    ensures DraftExact(st, c, DraftContest(c, View(st, listing)))
  {
  }

  lemma ExactDrafts(st: State, c: Command)
    requires AI.Shown(st.book.presentations, st.ledger.revisions)
    requires AI.Answered(st.book.attempts, st.book.presentations) && c.GradeExact?
    ensures DraftExact(st, c, ExactPayload(c, st.book))
  {
    if Draftable(st, c) {
      var attempt := st.book.attempts[c.attempt];
      assert AI.Answers(attempt, st.book.presentations);
      assert AI.Quotes(st.book.presentations[attempt.presentation], st.ledger.revisions);
      ClosedGradingIsSetComparison(st.book.presentations[attempt.presentation].content.item, attempt.response);
    }
  }

  lemma OutcomeExactly(c: Command, view: View)
    requires c.GradeVerified?
    ensures OutcomeHolds(c, view) <==> OutcomeFits(view.state.book, c.session, c.outcome)
  {
    CriteriaAreNamed(c.outcome.criteria, c.outcome.rubric);
  }

  lemma VerifiedDrafts(st: State, c: Command, listing: seq<Entry>)
    requires c.GradeVerified?
    ensures DraftExact(st, c, VerifiedPayload(c, View(st, listing)))
  {
    OutcomeExactly(c, View(st, listing));
  }

  // ------------------------------------------------------------ every command

  /** What the command's service asks the policy for, if it does. */
  function ReceiptFor(c: Command, view: View): Option<Receipt> {
    if c.DecideAsService? then Consulted(c, view) else None
  }

  lemma ServiceDrafts(st: State, c: Command, listing: seq<Entry>)
    requires LedgerOk(st.ledger) && Lists(listing, st.ledger.revisions) && c.DecideAsService?
    ensures DraftExact(st, c, DraftFor(c, View(st, listing), ReceiptFor(c, View(st, listing))))
  {
    ConsultsExactly(st, c, listing);
    DecisionDrafts(st, c, c.answer.verdict, c.answer.supersedes, Some(c.answer), listing);
  }

  lemma AssessmentDrafts(st: State, c: Command, listing: seq<Entry>, n: int)
    requires Sound(st, n) && !IsArtifactCommand(c)
    ensures DraftExact(st, c, DraftFor(c, View(st, listing), None))
  {
    match c
    case Present(_, _, _) => PresentationDrafts(st, c, listing);
    case Respond(_, _, _, _, _) => ResponseDrafts(st, c, listing);
    case GradeExact(_, _, _, _) => ExactDrafts(st, c);
    case GradeVerified(_, _, _, _) => VerifiedDrafts(st, c, listing);
    case ContestGrade(_, _, _, _) => ContestDrafts(st, c, listing);
  }

  /** In every state that a stream leads to and for every listing of its revisions, a command is drafted exactly when
      it is draftable, and its event then says what the command, the ledger and the book say. */
  lemma DraftsExactly(st: State, c: Command, listing: seq<Entry>, n: int)
    requires Sound(st, n) && Lists(listing, st.ledger.revisions)
    ensures DraftExact(st, c, DraftFor(c, View(st, listing), ReceiptFor(c, View(st, listing))))
  {
    match c
    case RecordGenerated(_, _, _, _) => GeneratedDrafts(st, c, listing);
    case RecordHuman(_, _, _, _, _, _, _) => HumanDrafts(st, c, listing);
    case DecideAsHuman(_, _, _, verdict, supersedes) => DecisionDrafts(st, c, verdict, supersedes, None, listing);
    case DecideAsService(_, _, _, _) => ServiceDrafts(st, c, listing);
    case _ => AssessmentDrafts(st, c, listing, n);
  }

  /** What the service tells a command that is not draftable. */
  ghost predicate ObstacleTold(st: State, c: Command, view: View) {
    if c.DecideAsService? then ConsultFailure(c, view) == Obstacle(st, c)
    else DraftFailure(c, view, None) == Obstacle(st, c)
  }

  lemma ObstaclesAreTold(st: State, c: Command, listing: seq<Entry>)
    requires LedgerOk(st.ledger) && Lists(listing, st.ledger.revisions)
    ensures ObstacleTold(st, c, View(st, listing))
  {
    if c.DecideAsHuman? || c.DecideAsService? {
      TargetExactly(st, c.session, c.revision, listing);
    }
  }

  // --------------------------------------------------------------- grade rules

  /** A new grade supersedes exactly the active grade of its attempt; a verified one is of a new run, and supersedes
      only a contested grade. */
  ghost predicate MayGrade(book: Assessments, c: Command)
    requires c.GradeExact? || c.GradeVerified?
  {
    match c
    case GradeExact(_, _, attempt, predecessor) => NamesActiveGrade(book.grades, attempt, predecessor)
    case GradeVerified(_, _, o, predecessor) =>
      && NamesActiveGrade(book.grades, o.attempt, predecessor)
      && (forall g :: g in book.grades && book.grades[g].provenance.Verified? ==>
            book.grades[g].provenance.run != o.run)
      && (predecessor.Some? ==>
            exists i :: 0 <= i < |book.contests| && book.contests[i].grade == predecessor.value)
  }

  lemma RulesExactly(c: Command, view: View)
    requires c.GradeExact? || c.GradeVerified?
    ensures GradeRules(c, view) <==> MayGrade(view.state.book, c)
  {
    ActiveIsNamed(view.state.book.grades, if c.GradeExact? then c.attempt else c.outcome.attempt, c.predecessor);
  }
}
