/** When an event is admitted: decoder and reducer together, as one condition on the state just before it. */
module EventGuards {
  import opened Domain
  import opened ArtifactLedger
  import opened ArtifactInvariants
  import opened Course
  import AL = AssessmentLedger
  import AI = AssessmentInvariants
  import opened BatchGuards
  import opened Selections
  import ArtifactRuns
  import AssessmentRuns

  // ---------------------------------------------------------------- the guards

  /** `named` is the accepted revision of the artifact, or nothing when it has none. */
  ghost predicate NamesAccepted(revisions: map<RevisionId, Revision>, a: ArtifactId, named: Option<RevisionId>) {
    forall r ::
      (r in revisions && revisions[r].artifact == a && revisions[r].status == Accepted) <==> named == Some(r)
  }

  /** A rejection names no revision, an acceptance the accepted one. */
  ghost predicate Supersession(
    revisions: map<RevisionId, Revision>, a: ArtifactId, verdict: Verdict, supersedes: Option<RevisionId>) {
    match verdict
    case Reject => supersedes == None
    case Accept => NamesAccepted(revisions, a, supersedes)
  }

  /** A proposed revision of a batch of the session. */
  ghost predicate Decidable(ledger: Ledger, session: SessionId, r: RevisionId) {
    && r in ledger.revisions && ledger.revisions[r].status == Proposed
    && ledger.revisions[r].batch in ledger.batches
    && ledger.batches[ledger.revisions[r].batch].session == session
  }

  /** The receipt answers the request that the ledger poses for the revision. */
  ghost predicate AnswersRequest(ledger: Ledger, id: EventId, session: SessionId, r: RevisionId, receipt: Receipt)
    requires r in ledger.revisions
  {
    && receipt.requestId == id
    && exists current ::
         && NamesAccepted(ledger.revisions, ledger.revisions[r].artifact, current)
         && receipt.result == ResultDigest(Request(id, session, r, ledger.revisions[r].kind, current), receipt.verdict,
           receipt.supersedes)
  }

  ghost predicate DecisionGuarded(ledger: Ledger, e: Event)
    requires e.payload.Decision?
  {
    var p := e.payload;
    && e.id == ArtifactEventId(e.session, p.key, DecisionCommand) && e.id !in ledger.commands && e.sequence >= 2
    && Decidable(ledger, e.session, p.revision)
    && Supersession(ledger.revisions, ledger.revisions[p.revision].artifact, p.verdict, p.supersedes)
    && (match e.actor
        case Human => p.receipt == None
        case Service =>
          && p.receipt.Some? && AnswersRequest(ledger, e.id, e.session, p.revision, p.receipt.value)
          && p.receipt.value.verdict == p.verdict && p.receipt.value.supersedes == p.supersedes
        case Model => false)
  }

  /** An accepted assessment item of a batch of the session. */
  ghost predicate Showable(ledger: Ledger, session: SessionId, r: RevisionId) {
    && r in ledger.revisions && ledger.revisions[r].status == Accepted && ledger.revisions[r].kind == AssessmentItemKind
    && ledger.revisions[r].batch in ledger.batches
    && ledger.batches[ledger.revisions[r].batch].session == session
    && ledger.revisions[r].content.AssessmentItem?
  }

  /** The answer key of a closed item is an option, or the canonical array of some options in the item's order. */
  ghost predicate KeyFits(item: Item) {
    match item.format
    case FreeResponseFormat => true
    case SingleChoiceFormat => item.expected in item.options
    case MultipleChoiceFormat =>
      && item.expected.JsonArray? && item.expected.canonical
      && item.expected.items != [] && Selects(item.options, item.expected.items)
  }

  /** The event's identity is its own command's, and new. */
  predicate RecordsCommand(book: AL.Assessments, e: Event, key: Key, command: AssessmentCommand) {
    e.id == AssessmentEventId(e.session, key, command) && e.id !in book.commands
  }

  ghost predicate PresentationGuarded(ledger: Ledger, book: AL.Assessments, e: Event)
    requires e.payload.ItemPresented?
  {
    var p := e.payload;
    && e.actor == Service && RecordsCommand(book, e, p.key, PresentCommand)
    && p.presentation == PresentationId(e.session, p.shown, p.key) && p.presentation !in book.presentations
    && Showable(ledger, e.session, p.shown)
    && var item := ledger.revisions[p.shown].content.item;
    && KeyFits(item)
    && p.fingerprint == AssessmentItem(item)
    && p.format == item.format && p.prompt == item.prompt && p.options == item.options
  }

  ghost predicate AttemptGuarded(book: AL.Assessments, e: Event)
    requires e.payload.AttemptRecorded?
  {
    var p := e.payload;
    && e.actor == Human && RecordsCommand(book, e, p.key, AttemptCommand)
    && p.attempt == AttemptId(e.session, p.of, p.key) && p.attempt !in book.attempts
    && p.of in book.presentations && book.presentations[p.of].session == e.session
    && book.presentations[p.of].content.AssessmentItem?
    && AnswersFormat(book.presentations[p.of].content.item, p.response)
  }

  /** The response is of the item's format and selects only its options, several in the item's order. */
  ghost predicate AnswersFormat(item: Item, response: Response) {
    match response
    case FreeText(_) => item.format == FreeResponseFormat
    case SingleChoice(option) => item.format == SingleChoiceFormat && option in item.options
    case MultipleChoice(options) =>
      item.format == MultipleChoiceFormat && options != [] && Selects(item.options, options)
  }

  /** `named` is the one active grade of the attempt, or nothing when it has none. */
  ghost predicate NamesActiveGrade(grades: map<GradeId, AL.Grade>, attempt: AttemptId, named: Option<GradeId>) {
    forall g ::
      (g in grades && grades[g].attempt == attempt && grades[g].lifecycle == AL.Active) <==> named == Some(g)
  }

  ghost predicate GradeGuarded(book: AL.Assessments, e: Event)
    requires e.payload.GradeRecorded?
  {
    var p := e.payload;
    && e.actor == Service && RecordsCommand(book, e, p.key, GradeCommand)
    && p.grade == GradeId(e.session, p.graded, p.key) && p.grade !in book.grades
    && p.graded in book.attempts && book.attempts[p.graded].session == e.session
    && book.attempts[p.graded].presentation in book.presentations
    && var shown := book.presentations[book.attempts[p.graded].presentation];
    && shown.session == e.session && shown.content.AssessmentItem?
    && |p.criteria| == |shown.content.item.criteria|
    && (forall i :: 0 <= i < |p.criteria| ==> p.criteria[i].criterion == shown.content.item.criteria[i])
    && p.grading.rubric == shown.content.item.criteria
    && NamesActiveGrade(book.grades, p.graded, p.predecessor)
    && 0 < p.score.denominator && 0 <= p.score.numerator <= p.score.denominator
  }

  ghost predicate ContestGuarded(book: AL.Assessments, e: Event)
    requires e.payload.GradeContested?
  {
    var p := e.payload;
    && e.actor == Human && RecordsCommand(book, e, p.key, ContestCommand)
    && p.contested in book.grades && book.grades[p.contested].session == e.session
    && 0 < |p.reason| <= 4096
  }

  ghost predicate EventGuarded(st: State, e: Event) {
    match e.payload
    case ContextRecorded(_) => e.id.OtherEventId?
    case ProposalBatch(_, _, _, _, _, _) => e.session in st.world.sessions && BatchGuarded(st.ledger, st.world, e)
    case Decision(_, _, _, _, _) => e.session in st.world.sessions && DecisionGuarded(st.ledger, e)
    case ItemPresented(_, _, _, _, _, _, _) =>
      e.session in st.world.sessions && PresentationGuarded(st.ledger, st.book, e)
    case AttemptRecorded(_, _, _, _, _) => e.session in st.world.sessions && AttemptGuarded(st.book, e)
    case GradeRecorded(_, _, _, _, _, _, _, _) => e.session in st.world.sessions && GradeGuarded(st.book, e)
    case GradeContested(_, _, _) => e.session in st.world.sessions && ContestGuarded(st.book, e)
  }

  // ---------------------------------------------------------- event by event

  /** The accepted-predecessor lookup finds what `NamesAccepted` says. */
  lemma CurrentIsAccepted(ledger: Ledger, a: ArtifactId, named: Option<RevisionId>)
    requires Lineages(ledger.artifacts, ledger.revisions) && OneAccepted(ledger.revisions) && a in ledger.artifacts
    ensures CurrentAccepted(ledger, a) == Some(named) <==> NamesAccepted(ledger.revisions, a, named)
  {
    CurrentAcceptedExact(ledger, a);
    if NamesAccepted(ledger.revisions, a, named) {
      var current := CurrentAccepted(ledger, a).value;
      if named.Some? {
        assert named.value in ledger.revisions;
      }
    }
  }

  lemma OneNamed(revisions: map<RevisionId, Revision>, a: ArtifactId, x: Option<RevisionId>, y: Option<RevisionId>)
    requires NamesAccepted(revisions, a, x) && NamesAccepted(revisions, a, y)
    ensures x == y
  {
    if x.Some? {
      assert x.value in revisions;
    } else if y.Some? {
      assert y.value in revisions;
    }
  }

  lemma RequestAnswered(ledger: Ledger, e: Event, current: Option<RevisionId>)
    requires e.payload.Decision? && e.payload.receipt.Some? && e.payload.revision in ledger.revisions
    requires NamesAccepted(ledger.revisions, ledger.revisions[e.payload.revision].artifact, current)
    requires e.payload.receipt.value.verdict == e.payload.verdict
    requires e.payload.receipt.value.supersedes == e.payload.supersedes
    ensures ReceiptBound(e, ledger.revisions[e.payload.revision], current) <==>
      AnswersRequest(ledger, e.id, e.session, e.payload.revision, e.payload.receipt.value)
  {
    forall other | NamesAccepted(ledger.revisions, ledger.revisions[e.payload.revision].artifact, other)
      ensures other == current
    {
      OneNamed(ledger.revisions, ledger.revisions[e.payload.revision].artifact, other, current);
    }
  }

  lemma SupersessionIs(
    revisions: map<RevisionId, Revision>, a: ArtifactId, verdict: Verdict, supersedes: Option<RevisionId>,
    current: Option<RevisionId>)
    requires NamesAccepted(revisions, a, current)
    ensures Supersession(revisions, a, verdict, supersedes) <==>
      supersedes == if verdict == Accept then current else None
  {
    if verdict == Accept && NamesAccepted(revisions, a, supersedes) {
      OneNamed(revisions, a, supersedes, current);
    }
  }

  /** The decision guard, given the accepted revision `current`. */
  ghost predicate DecisionGuardedAt(ledger: Ledger, e: Event, current: Option<RevisionId>)
    requires e.payload.Decision?
  {
    var p := e.payload;
    && e.id == ArtifactEventId(e.session, p.key, DecisionCommand) && e.id !in ledger.commands && e.sequence >= 2
    && Decidable(ledger, e.session, p.revision)
    && p.supersedes == (if p.verdict == Accept then current else None)
    && (match e.actor
        case Human => p.receipt == None
        case Service =>
          && p.receipt.Some? && ReceiptBound(e, ledger.revisions[p.revision], current)
          && p.receipt.value.verdict == p.verdict && p.receipt.value.supersedes == p.supersedes
        case Model => false)
  }

  lemma DecisionAdmittedAt(ledger: Ledger, world: World, e: Event, current: Option<RevisionId>)
    requires e.payload.Decision? && e.payload.revision in ledger.revisions
    requires CurrentAccepted(ledger, ledger.revisions[e.payload.revision].artifact) == Some(current)
    ensures DecisionDecodes(e) && ReduceDecision(ledger, world, e).Some? <==>
      e.session in world.sessions && DecisionGuardedAt(ledger, e, current)
  {
  }

  lemma GuardsAgree(ledger: Ledger, e: Event, current: Option<RevisionId>)
    requires e.payload.Decision? && e.payload.revision in ledger.revisions
    requires NamesAccepted(ledger.revisions, ledger.revisions[e.payload.revision].artifact, current)
    ensures DecisionGuarded(ledger, e) <==> DecisionGuardedAt(ledger, e, current)
  {
    var p := e.payload;
    SupersessionIs(ledger.revisions, ledger.revisions[p.revision].artifact, p.verdict, p.supersedes, current);
    if p.receipt.Some? && p.receipt.value.verdict == p.verdict && p.receipt.value.supersedes == p.supersedes {
      RequestAnswered(ledger, e, current);
    }
  }

  lemma UnknownIsRefused(ledger: Ledger, world: World, e: Event)
    requires e.payload.Decision? && e.payload.revision !in ledger.revisions
    ensures ReduceDecision(ledger, world, e).None? && !DecisionGuarded(ledger, e)
  {
  }

  lemma DecisionAdmitted(ledger: Ledger, world: World, e: Event)
    requires Lineages(ledger.artifacts, ledger.revisions) && OneAccepted(ledger.revisions) && e.payload.Decision?
    ensures DecisionDecodes(e) && ReduceDecision(ledger, world, e).Some? <==>
      e.session in world.sessions && DecisionGuarded(ledger, e)
  {
    if e.payload.revision in ledger.revisions {
      var current := CurrentNamed(ledger, e.payload.revision);
      DecisionAdmittedAt(ledger, world, e, current);
      GuardsAgree(ledger, e, current);
    } else {
      UnknownIsRefused(ledger, world, e);
    }
  }

  lemma CurrentNamed(ledger: Ledger, r: RevisionId) returns (current: Option<RevisionId>)
    requires Lineages(ledger.artifacts, ledger.revisions) && OneAccepted(ledger.revisions) && r in ledger.revisions
    ensures CurrentAccepted(ledger, ledger.revisions[r].artifact) == Some(current)
    ensures NamesAccepted(ledger.revisions, ledger.revisions[r].artifact, current)
  {
    var a := ledger.revisions[r].artifact;
    CurrentAcceptedExact(ledger, a);
    current := CurrentAccepted(ledger, a).value;
    CurrentIsAccepted(ledger, a, current);
  }

  /** A selection repeats nothing. */
  lemma SelectionIsDistinct(options: seq<Text>, selection: seq<Text>)
    requires Selects(options, selection)
    ensures Distinct(selection)
  {
    forall i, j | 0 <= i < j < |selection| ensures selection[i] != selection[j] {
      assert ListedBefore(options, selection[i], selection[j]);
    }
  }

  lemma KeyEncodes(item: Item)
    requires Distinct(item.options)
    ensures AL.ItemEncodes(item) <==> KeyFits(item)
  {
    if item.format == MultipleChoiceFormat && item.expected.JsonArray? {
      SelectsExactly(item.options, item.expected.items);
      if Selects(item.options, item.expected.items) {
        SelectionIsDistinct(item.options, item.expected.items);
      }
    }
  }

  /** The options of a stored item are distinct. */
  lemma StoredOptions(revisions: map<RevisionId, Revision>, r: RevisionId)
    requires Identified(revisions) && r in revisions && revisions[r].content.AssessmentItem?
    ensures Distinct(revisions[r].content.item.options)
  {
    assert ContentDecodes(revisions[r].content);
  }

  lemma PresentationAdmitted(ledger: Ledger, world: World, book: AL.Assessments, e: Event)
    requires e.payload.ItemPresented? && Identified(ledger.revisions)
    ensures AL.PresentDecodes(e) && AL.ReducePresented(ledger, world, book, e).Some? <==>
      e.session in world.sessions && PresentationGuarded(ledger, book, e)
  {
    var r := e.payload.shown;
    if r in ledger.revisions && ledger.revisions[r].content.AssessmentItem? {
      StoredOptions(ledger.revisions, r);
      KeyEncodes(ledger.revisions[r].content.item);
    }
  }

  lemma ResponseAdmitted(item: Item, response: Response)
    requires Distinct(item.options)
    ensures AL.ResponseFits(item, response) && AL.ResponseDecodes(response) <==> AnswersFormat(item, response)
  {
    if response.MultipleChoice? {
      SelectsExactly(item.options, response.options);
      if Selects(item.options, response.options) {
        SelectionIsDistinct(item.options, response.options);
      }
    }
  }

  lemma AttemptAdmitted(ledger: Ledger, world: World, book: AL.Assessments, e: Event)
    requires e.payload.AttemptRecorded?
    requires Identified(ledger.revisions) && AI.Shown(book.presentations, ledger.revisions)
    ensures AL.AttemptDecodes(e) && AL.ReduceAttempt(world, book, e).Some? <==>
      e.session in world.sessions && AttemptGuarded(book, e)
  {
    if e.payload.of in book.presentations && book.presentations[e.payload.of].content.AssessmentItem? {
      assert AI.Quotes(book.presentations[e.payload.of], ledger.revisions);
      StoredOptions(ledger.revisions, book.presentations[e.payload.of].revision);
      ResponseAdmitted(book.presentations[e.payload.of].content.item, e.payload.response);
    }
  }

  lemma ActiveIsNamed(grades: map<GradeId, AL.Grade>, attempt: AttemptId, named: Option<GradeId>)
    ensures NamesActiveGrade(grades, attempt, named) <==>
      AL.ActiveGrades(grades, attempt) == (match named case None => {} case Some(g) => {g})
  {
    var active := AL.ActiveGrades(grades, attempt);
    assert forall g ::
      g in active <==> g in grades && grades[g].attempt == attempt && grades[g].lifecycle == AL.Active;
  }

  lemma CriteriaAreNamed(results: seq<CriterionResult>, criteria: seq<string>)
    ensures AL.CriteriaOf(results) == criteria <==>
      |results| == |criteria| && forall i :: 0 <= i < |results| ==> results[i].criterion == criteria[i]
  {
    if AL.CriteriaOf(results) == criteria {
      forall i | 0 <= i < |results| ensures results[i].criterion == criteria[i] {
        assert AL.CriteriaOf(results)[i] == criteria[i];
      }
    }
  }

  lemma GradeAdmitted(world: World, book: AL.Assessments, e: Event)
    requires e.payload.GradeRecorded? && AI.Judged(book.grades, book.attempts, book.presentations)
    ensures AL.GradeDecodes(e) && AL.ReduceGrade(world, book, e).Some? <==>
      e.session in world.sessions && GradeGuarded(book, e)
  {
    var p := e.payload;
    ActiveIsNamed(book.grades, p.graded, p.predecessor);
    if p.graded in book.attempts && book.attempts[p.graded].presentation in book.presentations {
      var shown := book.presentations[book.attempts[p.graded].presentation];
      if shown.content.AssessmentItem? {
        CriteriaAreNamed(p.criteria, shown.content.item.criteria);
      }
      if p.predecessor.Some? && NamesActiveGrade(book.grades, p.graded, p.predecessor) {
        assert AI.Judges(book.grades[p.predecessor.value], book.attempts, book.presentations);
      }
    }
  }

  lemma ContestAdmitted(world: World, book: AL.Assessments, e: Event)
    requires e.payload.GradeContested?
    ensures AL.ContestDecodes(e) && AL.ReduceContest(world, book, e).Some? <==>
      e.session in world.sessions && ContestGuarded(book, e)
  {
  }

  // -------------------------------------------------------------- every stream

  lemma AssessAdmitted(ledger: Ledger, world: World, book: AL.Assessments, e: Event)
    requires AI.Judged(book.grades, book.attempts, book.presentations)
    requires Identified(ledger.revisions) && AI.Shown(book.presentations, ledger.revisions)
    requires !e.payload.ProposalBatch? && !e.payload.Decision? && !e.payload.ContextRecorded?
    ensures AL.Assess(ledger, world, book, e).Some? <==> EventGuarded(State(world, ledger, book), e)
  {
    match e.payload
    case ItemPresented(_, _, _, _, _, _, _) => PresentationAdmitted(ledger, world, book, e);
    case AttemptRecorded(_, _, _, _, _) => AttemptAdmitted(ledger, world, book, e);
    case GradeRecorded(_, _, _, _, _, _, _, _) => GradeAdmitted(world, book, e);
    case GradeContested(_, _, _) => ContestAdmitted(world, book, e);
  }

  lemma ReduceParts(st: State, e: Event)
    ensures e.payload.ContextRecorded? ==> (Reduce(st, e).Some? <==> e.id.OtherEventId?)
    ensures e.payload.Decision? ==>
      (Reduce(st, e).Some? <==> DecisionDecodes(e) && ReduceDecision(st.ledger, st.world, e).Some?)
    ensures e.payload.ProposalBatch? ==>
      (Reduce(st, e).Some? <==> BatchDecodes(e) && ReduceBatch(st.ledger, st.world, e).Some?)
    ensures !e.payload.ContextRecorded? && !e.payload.Decision? && !e.payload.ProposalBatch? ==>
      (Reduce(st, e).Some? <==> AL.Assess(st.ledger, st.world, st.book, e).Some?)
  {
  }

  /** In every state that a stream leads to, an event is admitted exactly when its guards hold. */
  lemma AdmittedExactly(stream: seq<Event>, e: Event)
    requires Replay(stream).Some?
    ensures Reduce(Replay(stream).value, e).Some? <==> EventGuarded(Replay(stream).value, e)
  {
    var st := Replay(stream).value;
    ArtifactRuns.ReplayKeepsLedger(stream);
    AssessmentRuns.ReplayKeepsBook(stream);
    StateAdmits(st, e);
  }

  lemma StateAdmits(st: State, e: Event)
    requires LedgerOk(st.ledger) && AI.Judged(st.book.grades, st.book.attempts, st.book.presentations)
    requires AI.Shown(st.book.presentations, st.ledger.revisions)
    ensures Reduce(st, e).Some? <==> EventGuarded(st, e)
  {
    ReduceParts(st, e);
    if e.payload.Decision? {
      DecisionAdmitted(st.ledger, st.world, e);
    } else if e.payload.ProposalBatch? {
      BatchAdmitted(st.ledger, st.world, e);
    } else if !e.payload.ContextRecorded? {
      AssessAdmitted(st.ledger, st.world, st.book, e);
    }
  }

  /** On every stream that replays, the guards of each event hold of the state just before it. */
  lemma EveryEventWasGuarded(stream: seq<Event>, i: nat)
    requires Replay(stream).Some? && i < |stream|
    ensures Replay(stream[..i]).Some? && EventGuarded(Replay(stream[..i]).value, stream[i])
  {
    ReplayPrefix(stream, i);
    ReplayPrefix(stream, i + 1);
    assert stream[..i + 1][..i] == stream[..i];
    AdmittedExactly(stream[..i], stream[i]);
  }
}
