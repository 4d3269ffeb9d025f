/** The service commands, each as the sequence of steps its code takes against the shared store. */
module Commands {
  import opened Domain
  import opened ArtifactLedger
  import opened ArtifactSnapshot
  import opened ArtifactPrepare
  import opened AssessmentLedger
  import opened ClosedGrading
  import opened Course
  import opened EventStore

  /** What a verified grading run recovers to. */
  datatype VerifiedOutcome = VerifiedOutcome(
    session: SessionId, attempt: AttemptId, presentation: PresentationId, revision: RevisionId, content: Content,
      response: Response,
    status: GradeStatus, criteria: seq<CriterionResult>, score: Score, run: RunId, detail: string, rubric: seq<string>)

  /** A command with its caller's session and idempotency key.  `recovered`, `answer` and `outcome` are what the
      proof port, the decision policy and the grading port answer when asked. */
  datatype Command =
    | RecordGenerated(session: SessionId, key: Key, run: RunId, recovered: seq<Proposal>)
    | RecordHuman(session: SessionId, key: Key, content: Content, interaction: InteractionId, detail: string,
                  prior: Option<RevisionId>, target: Option<ArtifactId>)
    | DecideAsHuman(session: SessionId, key: Key, revision: RevisionId, verdict: Verdict,
      supersedes: Option<RevisionId>)
    | DecideAsService(session: SessionId, key: Key, revision: RevisionId, answer: Receipt)
    | Present(session: SessionId, key: Key, revision: RevisionId)
    | Respond(session: SessionId, key: Key, presentation: PresentationId, response: Response, latency: Option<nat>)
    | GradeExact(session: SessionId, key: Key, attempt: AttemptId, predecessor: Option<GradeId>)
    | GradeVerified(session: SessionId, key: Key, outcome: VerifiedOutcome, predecessor: Option<GradeId>)
    | ContestGrade(session: SessionId, key: Key, grade: GradeId, reason: string)

  predicate IsArtifactCommand(c: Command) {
    c.RecordGenerated? || c.RecordHuman? || c.DecideAsHuman? || c.DecideAsService?
  }

  function IdOf(c: Command): EventId {
    match c
    case RecordGenerated(s, k, _, _) => ArtifactEventId(s, k, ProposalCommand)
    case RecordHuman(s, k, _, _, _, _, _) => ArtifactEventId(s, k, ProposalCommand)
    case DecideAsHuman(s, k, _, _, _) => ArtifactEventId(s, k, DecisionCommand)
    case DecideAsService(s, k, _, _) => ArtifactEventId(s, k, DecisionCommand)
    case Present(s, k, _) => AssessmentEventId(s, k, PresentCommand)
    case Respond(s, k, _, _, _) => AssessmentEventId(s, k, AttemptCommand)
    case GradeExact(s, k, _, _) => AssessmentEventId(s, k, GradeCommand)
    case GradeVerified(s, k, _, _) => AssessmentEventId(s, k, GradeCommand)
    case ContestGrade(s, k, _, _) => AssessmentEventId(s, k, ContestCommand)
  }

  function ActorOf(c: Command): Principal {
    if c.RecordHuman? || c.DecideAsHuman? || c.Respond? || c.ContestGrade? then Human else Service
  }

  function EventFor(c: Command, payload: Payload, expected: int): Event {
    Event(IdOf(c), expected + 1, c.session, ActorOf(c), payload)
  }

  // ------------------------------------------------------------- the payloads

  /** What a view read returns: the projection, and its revisions in listing order. */
  datatype View = View(state: State, listing: seq<Entry>)

  function ProvenanceOf(c: Command): Provenance
    requires c.RecordHuman?
  {
    HumanAuthored(c.interaction, c.detail, c.prior)
  }

  function HumanTarget(c: Command): ArtifactId
    requires c.RecordHuman?
  {
    if c.target.Some? then c.target.value else ArtifactId(HumanBatch(c.session, c.interaction, c.key), 0)
  }

  /** The stable fingerprint an artifact command is known by before any state is read. */
  function CommandFingerprint(c: Command): Fingerprint
    requires IsArtifactCommand(c)
  {
    match c
    case RecordGenerated(_, _, run, _) => ProposalFingerprint(GeneratedOrigin, Some(run), [])
    case RecordHuman(_, _, content, _, _, _, _) =>
      ProposalFingerprint(HumanOrigin, None, [Portable(0, HumanTarget(c), KindOf(content), content, ProvenanceOf(c))])
    case DecideAsHuman(_, _, revision, verdict, supersedes) => DecisionFingerprint(revision, verdict, supersedes)
    case DecideAsService(_, _, revision, _) => ServiceDecisionFingerprint(revision)
  }

  function DraftGenerated(c: Command, view: View): Option<Payload>
    requires c.RecordGenerated?
  {
    var batch := GeneratedBatch(c.session, c.run, c.key);
    match Prepare(batch, c.recovered, view.listing)
    case None => None
    case Some(ps) => Some(ProposalBatch(batch, GeneratedOrigin, ps, Some(c.run), true, c.key))
  }

  function DraftHuman(c: Command, view: View): Option<Payload>
    requires c.RecordHuman?
  {
    var batch := HumanBatch(c.session, c.interaction, c.key);
    match Prepare(batch, [Proposal(0, c.content, ProvenanceOf(c), c.target)], view.listing)
    case None => None
    case Some(ps) =>
      var payload := ProposalBatch(batch, HumanOrigin, ps, None, false, c.key);
      if FingerprintOf(payload) == CommandFingerprint(c) then Some(payload) else None
  }

  /** The accepted predecessor of a proposed revision of this session; `None` when the lookup raises. */
  function DecisionTarget(session: SessionId, revision: RevisionId, view: View): Option<Option<RevisionId>> {
    var ledger := view.state.ledger;
    if revision !in ledger.revisions || ledger.revisions[revision].status != Proposed then None
    else if ledger.revisions[revision].batch !in ledger.batches then None
    else if ledger.batches[ledger.revisions[revision].batch].session != session then None
    else AcceptedEntry(view.listing, ledger.revisions[revision].artifact)
  }

  function DraftDecision(
    c: Command, view: View, verdict: Verdict, supersedes: Option<RevisionId>, receipt: Option<Receipt>): Option<Payload>
    requires c.DecideAsHuman? || c.DecideAsService?
  {
    match DecisionTarget(c.session, c.revision, view)
    case None => None
    case Some(current) =>
      if supersedes != (if verdict == Accept then current else None) then None
      else Some(Decision(c.revision, verdict, supersedes, receipt, c.key))
  }

  /** The policy's answer to the request that the view poses, validated. */
  function Consulted(c: Command, view: View): Option<Receipt>
    requires c.DecideAsService?
  {
    match DecisionTarget(c.session, c.revision, view)
    case None => None
    case Some(current) =>
      var request := Request(IdOf(c), c.session, c.revision, view.state.ledger.revisions[c.revision].kind, current);
      if c.answer.requestId != request.id then None
      else if c.answer.supersedes != (if c.answer.verdict == Accept then request.current else None) then None
      else if c.answer.result != ResultOf(request, c.answer.verdict, c.answer.supersedes) then None
      else Some(c.answer)
  }

  function DraftPresentation(c: Command, view: View): Option<Payload>
    requires c.Present?
  {
    var ledger := view.state.ledger;
    if c.revision !in ledger.revisions then None
    else
      var r := ledger.revisions[c.revision];
      if r.status != Accepted || r.kind != AssessmentItemKind || r.batch !in ledger.batches
         || ledger.batches[r.batch].session != c.session || !r.content.AssessmentItem? then None
      else
        var item := r.content.item;
        Some(ItemPresented(PresentationId(c.session, c.revision, c.key), c.revision, r.content, item.format,
          item.prompt, item.options, c.key))
  }

  function ResponsePayload(c: Command): Payload
    requires c.Respond?
  {
    AttemptRecorded(AttemptId(c.session, c.presentation, c.key), c.presentation, c.response, c.latency, c.key)
  }

  function DraftResponse(c: Command, view: View): Option<Payload>
    requires c.Respond?
  {
    var book := view.state.book;
    if c.presentation !in book.presentations || book.presentations[c.presentation].session != c.session then None
    else if exists a :: a in book.attempts && book.attempts[a].presentation == c.presentation then None
    else Some(ResponsePayload(c))
  }

  /** The graded attempt with its presentation, both of this session. */
  predicate Owns(book: Assessments, session: SessionId, attempt: AttemptId) {
    && attempt in book.attempts && book.attempts[attempt].presentation in book.presentations
    && book.attempts[attempt].session == session
    && book.presentations[book.attempts[attempt].presentation].session == session
    && book.presentations[book.attempts[attempt].presentation].content.AssessmentItem?
  }

  const EXACT_POLICY := "exact-closed-answer@1.0.0"

  function ExactPayload(c: Command, book: Assessments): Option<Payload>
    requires c.GradeExact?
  {
    if !Owns(book, c.session, c.attempt) then None
    else
      var item := book.presentations[book.attempts[c.attempt].presentation].content.item;
      if item.format == FreeResponseFormat then None
      else match GradeClosed(item, book.attempts[c.attempt].response)
        case None => None
        case Some(closed) =>
          Some(GradeRecorded(GradeId(c.session, c.attempt, c.key), c.attempt, Graded, closed.results, closed.score,
                             Deterministic(EXACT_POLICY, item.criteria), c.predecessor, c.key))
  }

  predicate OutcomeHolds(c: Command, view: View)
    requires c.GradeVerified?
  {
    var book, o := view.state.book, c.outcome;
    && o.session == c.session
    && Owns(book, c.session, o.attempt)
    && var shown := book.attempts[o.attempt].presentation;
    && shown == o.presentation
    && book.presentations[shown].revision == o.revision
    && book.presentations[shown].content == o.content
    && book.attempts[o.attempt].response == o.response
    && book.presentations[shown].content.item.format == FreeResponseFormat
    && o.rubric == book.presentations[shown].content.item.criteria
    && CriteriaOf(o.criteria) == book.presentations[shown].content.item.criteria
  }

  function VerifiedGrade(c: Command): Payload
    requires c.GradeVerified?
  {
    var o := c.outcome;
    GradeRecorded(GradeId(c.session, o.attempt, c.key), o.attempt, o.status, o.criteria, o.score,
                  Verified(o.run, o.detail, o.rubric), c.predecessor, c.key)
  }

  function VerifiedPayload(c: Command, view: View): Option<Payload>
    requires c.GradeVerified?
  {
    if OutcomeHolds(c, view) then Some(VerifiedGrade(c)) else None
  }

  predicate NamesActive(book: Assessments, attempt: AttemptId, predecessor: Option<GradeId>) {
    ActiveGrades(book.grades, attempt) == (if predecessor.Some? then {predecessor.value} else {})
  }

  predicate RunUsed(book: Assessments, run: RunId) {
    exists g :: g in book.grades && book.grades[g].provenance.Verified? && book.grades[g].provenance.run == run
  }

  predicate HasContest(contests: seq<Contest>, g: GradeId) {
    exists i :: 0 <= i < |contests| && contests[i].grade == g
  }

  /** What a new grade must respect, checked on the view that its payload was built from. */
  predicate GradeRules(c: Command, view: View)
    requires c.GradeExact? || c.GradeVerified?
  {
    var book := view.state.book;
    match c
    case GradeExact(_, _, attempt, predecessor) => NamesActive(book, attempt, predecessor)
    case GradeVerified(_, _, outcome, predecessor) =>
      && !RunUsed(book, outcome.run)
      && NamesActive(book, outcome.attempt, predecessor)
      && (predecessor.Some? ==> HasContest(book.contests, predecessor.value))
  }

  function ContestPayload(c: Command): Payload
    requires c.ContestGrade?
  {
    GradeContested(c.grade, c.reason, c.key)
  }

  function DraftContest(c: Command, view: View): Option<Payload>
    requires c.ContestGrade?
  {
    var book := view.state.book;
    if c.grade !in book.grades || book.grades[c.grade].session != c.session ||
      HasContest(book.contests, c.grade) then None
    else Some(ContestPayload(c))
  }

  /** The payload a command builds from a view (and, for a service decision, from the policy's receipt). */
  function DraftFor(c: Command, view: View, receipt: Option<Receipt>): Option<Payload> {
    match c
    case RecordGenerated(_, _, _, _) => DraftGenerated(c, view)
    case RecordHuman(_, _, _, _, _, _, _) => DraftHuman(c, view)
    case DecideAsHuman(_, _, _, verdict, supersedes) => DraftDecision(c, view, verdict, supersedes, None)
    case DecideAsService(_, _, _, _) =>
      if receipt.None? then None else DraftDecision(c, view, receipt.value.verdict, receipt.value.supersedes, receipt)
    case Present(_, _, _) => DraftPresentation(c, view)
    case Respond(_, _, _, _, _) => DraftResponse(c, view)
    case GradeExact(_, _, _, _) => ExactPayload(c, view.state.book)
    case GradeVerified(_, _, _, _) => VerifiedPayload(c, view)
    case ContestGrade(_, _, _, _) => DraftContest(c, view)
  }

  // ------------------------------------------------------ what a failure is told

  datatype Outcome = Success | Conflict | Retryable | Refused

  /** Why a revision is no target: a terminal one conflicts. */
  function TargetFailure(session: SessionId, revision: RevisionId, view: View): Outcome {
    var ledger := view.state.ledger;
    if revision !in ledger.revisions then Refused
    else if ledger.revisions[revision].status != Proposed then Conflict
    else if ledger.revisions[revision].batch !in ledger.batches then Refused
    else if ledger.batches[ledger.revisions[revision].batch].session != session then Refused
    else Conflict
  }

  function ConsultFailure(c: Command, view: View): (r: Outcome)
    requires c.DecideAsService?
    ensures r == Conflict || r == Refused
  {
    if DecisionTarget(c.session, c.revision, view).None? then TargetFailure(c.session, c.revision, view) else Refused
  }

  /** An acceptance of a target that names another predecessor conflicts. */
  function DecisionFailure(c: Command, view: View, verdict: Verdict): Outcome
    requires c.DecideAsHuman? || c.DecideAsService?
  {
    if DecisionTarget(c.session, c.revision, view).None? then TargetFailure(c.session, c.revision, view)
    else if verdict == Reject then Refused
    else Conflict
  }

  /** An outcome of this session whose target exists conflicts with what the target now is. */
  function OutcomeFailure(c: Command, view: View): Outcome
    requires c.GradeVerified?
  {
    var book, o := view.state.book, c.outcome;
    if o.session != c.session || o.attempt !in book.attempts ||
      book.attempts[o.attempt].presentation !in book.presentations then Refused
    else Conflict
  }

  /** What a command is told when its draft fails. */
  function DraftFailure(c: Command, view: View, receipt: Option<Receipt>): (r: Outcome)
    ensures r == Conflict || r == Refused
  {
    var book := view.state.book;
    match c
    case DecideAsHuman(_, _, _, verdict, _) => DecisionFailure(c, view, verdict)
    case DecideAsService(_, _, _, _) =>
      if receipt.None? then Refused else DecisionFailure(c, view, receipt.value.verdict)
    case Respond(session, _, shown, _, _) =>
      if shown in book.presentations && book.presentations[shown].session == session then Conflict else Refused
    case GradeVerified(_, _, _, _) => OutcomeFailure(c, view)
    case ContestGrade(session, _, g, _) =>
      if g in book.grades && book.grades[g].session == session then Conflict else Refused
    case _ => Refused
  }

  // ---------------------------------------------------------------- the steps

  /** One read or write of the store, or one computation on what was read. */
  datatype Action =
    | OpenSession | Identify | ExpectLength | ReadView | Consult | Draft | CheckRules | Ground | TryAppend | Resolve

  function Program(c: Command): seq<Action> {
    match c
    case RecordGenerated(_, _, _, _) => [Identify, ExpectLength, ReadView, Draft, TryAppend, Resolve]
    case RecordHuman(_, _, _, _, _, _, _) => [Identify, ReadView, Draft, ExpectLength, Ground, TryAppend, Resolve]
    case DecideAsHuman(_, _, _, _, _) => [Identify, ExpectLength, ReadView, Draft, TryAppend, Resolve]
    case DecideAsService(_, _, _, _) =>
      [Identify, ExpectLength, ReadView, Consult, Identify, ReadView, Draft, TryAppend, Resolve]
    case GradeExact(_, _, _, _) =>
      [OpenSession, ReadView, Draft, Identify, CheckRules, ExpectLength, TryAppend, Resolve]
    case GradeVerified(_, _, _, _) =>
      [OpenSession, ReadView, Draft, Identify, CheckRules, ExpectLength, TryAppend, Resolve]
    case _ => [OpenSession, Identify, ReadView, Draft, ExpectLength, TryAppend, Resolve]
  }

  /** What a running command remembers between its steps. */
  datatype Local = Local(view: Option<View>, receipt: Option<Receipt>, draft: Option<Payload>)

  datatype Client =
    | Running(command: Command, expected: nat, pc: nat, local: Local)
    | Done(command: Command, expected: nat, outcome: Outcome)

  datatype Identity = Fresh | Same | Different | Duplicated

  function Occurrences(stream: seq<Event>, id: EventId): seq<Event> {
    if stream == [] then []
    else Occurrences(stream[..|stream| - 1], id) + if stream[|stream| - 1].id == id then [stream[|stream| - 1]] else []
  }

  /** The recorded event is the one an assessment command would record. */
  predicate SameAssessment(c: Command, draft: Option<Payload>, found: Payload) {
    match c
    case Present(_, _, revision) => found.ItemPresented? && found.shown == revision
    case Respond(_, _, _, _, _) => FingerprintOf(found) == FingerprintOf(ResponsePayload(c))
    case ContestGrade(_, _, _, _) => FingerprintOf(found) == FingerprintOf(ContestPayload(c))
    case _ => draft.Some? && FingerprintOf(found) == FingerprintOf(draft.value)
  }

  /** Artifact commands ask the command index; assessment commands search the stream. */
  function IdentityOf(store: Store, c: Command, draft: Option<Payload>): Identity {
    if IsArtifactCommand(c) then
      var recorded := CommandFor(store.state, IdOf(c));
      if recorded.None? then Fresh else if recorded.value == CommandFingerprint(c) then Same else Different
    else
      var found := Occurrences(store.stream, IdOf(c));
      if |found| > 1 then Duplicated
      else if found == [] then Fresh
      else if SameAssessment(c, draft, found[0].payload) then Same else Different
  }

  /** After a lost race every command compares fingerprints. */
  function ResolvedIdentity(store: Store, c: Command, draft: Payload): Identity {
    if IsArtifactCommand(c) then IdentityOf(store, c, Some(draft))
    else
      var found := Occurrences(store.stream, IdOf(c));
      if |found| > 1 then Duplicated
      else if found == [] then Fresh
      else if FingerprintOf(found[0].payload) == FingerprintOf(draft) then Same else Different
  }

  function Finish(c: Client, outcome: Outcome): Client {
    Done(c.command, c.expected, outcome)
  }

  function Next(c: Client, local: Local): Client
    requires c.Running?
  {
    Running(c.command, c.expected, c.pc + 1, local)
  }

  function OutcomeOf(identity: Identity, absent: Outcome): Outcome {
    match identity
    case Fresh => absent
    case Same => Success
    case Different => Conflict
    case Duplicated => Refused
  }

  /** The steps that leave the store alone. */
  function Compute(store: Store, c: Client, action: Action, listing: seq<Entry>): Client
    requires c.Running?
  {
    match action
    case OpenSession => if c.command.session in store.state.world.sessions then Next(c, c.local) else Finish(c, Refused)
    case Identify =>
      var identity := IdentityOf(store, c.command, c.local.draft);
      if identity == Fresh then Next(c, c.local) else Finish(c, OutcomeOf(identity, Retryable))
    case ExpectLength => if |store.stream| == c.expected then Next(c, c.local) else Finish(c, Retryable)
    case ReadView => Next(c, c.local.(view := Some(View(store.state, listing))))
    case Consult =>
      if !c.command.DecideAsService? || c.local.view.None? then Finish(c, Refused)
      else
        var receipt := Consulted(c.command, c.local.view.value);
        if receipt.None? then Finish(c, ConsultFailure(c.command, c.local.view.value))
        else Next(c, c.local.(receipt := receipt))
    case Draft =>
      if c.local.view.None? then Finish(c, Refused)
      else
        var draft := DraftFor(c.command, c.local.view.value, c.local.receipt);
        if draft.None? then Finish(c, DraftFailure(c.command, c.local.view.value, c.local.receipt))
        else Next(c, c.local.(draft := draft))
    case CheckRules =>
      if (c.command.GradeExact? || c.command.GradeVerified?) && c.local.view.Some? &&
        GradeRules(c.command, c.local.view.value)
      then Next(c, c.local) else Finish(c, Conflict)
    case Ground =>
      if c.command.RecordHuman? && (c.command.session, ProvenanceOf(c.command)) in store.state.world.grounded
      then Next(c, c.local) else Finish(c, Refused)
    case Resolve =>
      if c.local.draft.None? then Finish(c, Refused)
      else Finish(c, OutcomeOf(ResolvedIdentity(store, c.command, c.local.draft.value), Retryable))
    case TryAppend => Finish(c, Refused)
  }

  /** One atomic step of a running command against the current store. */
  function Advance(store: Store, c: Client, listing: seq<Entry>): (Store, Client)
    requires c.Running? && c.pc < |Program(c.command)|
  {
    var action := Program(c.command)[c.pc];
    if action != TryAppend then (store, Compute(store, c, action, listing))
    else if c.local.draft.None? then (store, Finish(c, Refused))
    else match Append(store, c.expected, EventFor(c.command, c.local.draft.value, c.expected))
      case RaceLost => (store, Next(c, c.local))
      case Vetoed => (store, Finish(c, Refused))
      case Committed(next) => (next, Finish(c, Success))
  }
}
