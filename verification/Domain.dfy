/** Shared vocabulary of the study ledger: identities, artifact content, provenance and event envelopes.

    A SHA-256 identity is represented by the tuple it digests, so two identities are equal exactly
    when their inputs are.  Identity text that is no such digest is an `Unknown…` value.  Canonical
    JSON text is represented by what it parses to. */
module Domain {

  datatype Option<+T> = None | Some(value: T)

  type SessionId = string
  type RunId = string
  type InteractionId = string
  type Key = string

  /** Text as the codecs see it: a JSON array of texts (in canonical spelling or not), or anything else. */
  datatype Text = Plain(chars: string) | JsonArray(items: seq<Text>, canonical: bool)

  // ---------------------------------------------------------------- content

  datatype Kind = FlashcardKind | AssessmentItemKind | ExamBlueprintKind | StudyBriefKind
  datatype Format = FreeResponseFormat | SingleChoiceFormat | MultipleChoiceFormat

  datatype Item = Item(format: Format, prompt: string, options: seq<Text>, expected: Text, criteria: seq<string>)

  datatype Content =
    | Flashcard(text: string, parentOrdinal: Option<nat>)
    | AssessmentItem(item: Item)
    | ExamBlueprint(text: string)
    | StudyBrief(text: string)

  function KindOf(content: Content): Kind {
    match content
    case Flashcard(_, _) => FlashcardKind
    case AssessmentItem(_) => AssessmentItemKind
    case ExamBlueprint(_) => ExamBlueprintKind
    case StudyBrief(_) => StudyBriefKind
  }

  /** Only flashcards can name a parent, by its ordinal in the same batch. */
  function ParentOrdinal(content: Content): Option<nat> {
    if content.Flashcard? then content.parentOrdinal else None
  }

  predicate Distinct<T(==)>(s: seq<T>) {
    forall i, j :: 0 <= i < j < |s| ==> s[i] != s[j]
  }

  /** What the content codec admits, as far as the ledgers depend on it. */
  predicate ContentDecodes(content: Content) {
    content.AssessmentItem? ==>
      && Distinct(content.item.options)
      && Distinct(content.item.criteria)
      && content.item.criteria != []
      && (if content.item.format == FreeResponseFormat then content.item.options == [] else |content.item.options| >= 2)
  }

  // ------------------------------------------------------------- identities

  datatype BatchId =
    | GeneratedBatch(session: SessionId, run: RunId, key: Key)
    | HumanBatch(session: SessionId, interaction: InteractionId, key: Key)

  datatype ArtifactId = ArtifactId(batch: BatchId, ordinal: int) | UnknownArtifact(text: string)

  datatype RevisionId =
    | RevisionId(artifact: ArtifactId, kind: Kind, content: Content, provenance: Provenance, prior: Option<RevisionId>)
    | UnknownRevision(text: string)

  /** Provenance reduced to what lifecycle rules read; `detail` stands for prompts, pins, commitments and receipts. */
  datatype Provenance =
    | Generated(run: RunId, output: Content, detail: string, prior: Option<RevisionId>)
    | HumanAuthored(interaction: InteractionId, detail: string, prior: Option<RevisionId>)

  /** The coherence checks made before a revision identity is derived. */
  predicate Coherent(kind: Kind, content: Content, provenance: Provenance, prior: Option<RevisionId>) {
    && KindOf(content) == kind
    && provenance.prior == prior
    && (provenance.Generated? ==> provenance.output == content)
  }

  datatype PresentationId = PresentationId(session: SessionId, revision: RevisionId,
    key: Key) | UnknownPresentation(text: string)
  datatype AttemptId = AttemptId(session: SessionId, presentation: PresentationId,
    key: Key) | UnknownAttempt(text: string)
  datatype GradeId = GradeId(session: SessionId, attempt: AttemptId, key: Key) | UnknownGrade(text: string)

  datatype ArtifactCommand = ProposalCommand | DecisionCommand
  datatype AssessmentCommand = PresentCommand | AttemptCommand | GradeCommand | ContestCommand
  datatype EventId =
    | ArtifactEventId(session: SessionId, key: Key, command: ArtifactCommand)
    | AssessmentEventId(session: SessionId, key: Key, action: AssessmentCommand)
    | OtherEventId(text: string)

  // ----------------------------------------------------------------- events

  datatype Principal = Human | Service | Model
  datatype Origin = GeneratedOrigin | HumanOrigin
  datatype Verdict = Accept | Reject

  datatype Recorded = Recorded(
    ordinal: int, artifact: ArtifactId, revision: RevisionId, kind: Kind, content: Content,
    provenance: Provenance, prior: Option<RevisionId>, parent: Option<ArtifactId>)

  datatype Request = Request(
    id: EventId, session: SessionId, revision: RevisionId, kind: Kind, current: Option<RevisionId>)

  /** `result` is the digest of the request together with the outcome. */
  datatype Receipt = Receipt(
    requestId: EventId, verdict: Verdict, supersedes: Option<RevisionId>, policy: string, result: ResultDigest)
  datatype ResultDigest = ResultDigest(request: Request, verdict: Verdict, supersedes: Option<RevisionId>)

  datatype Response = FreeText(text: Text) | SingleChoice(option: Text) | MultipleChoice(options: seq<Text>)

  datatype GradeStatus = Graded | NeedsReview | Ungradable
  datatype CriterionStatus = Met | NotMet | Uncertain
  datatype CriterionResult = CriterionResult(criterion: string, status: CriterionStatus, rationale: string)
  datatype Score = Score(numerator: int, denominator: int)
  datatype GradeProvenance =
    | Deterministic(policy: string, rubric: seq<string>)
    | Verified(run: RunId, detail: string, rubric: seq<string>)

  predicate ScoreDecodes(score: Score) {
    0 < score.denominator && 0 <= score.numerator <= score.denominator
  }

  /** What the unmodelled reducers (courses, sessions, sources) have established. */
  datatype World = World(
    sessions: set<SessionId>,
    grounded: set<(SessionId, Provenance)>)  // provenance whose commitments, selection and interaction resolve

  datatype Payload =
    | ProposalBatch(batch: BatchId, origin: Origin, proposals: seq<Recorded>, run: Option<RunId>, proof: bool, key: Key)
    | Decision(revision: RevisionId, verdict: Verdict, supersedes: Option<RevisionId>, receipt: Option<Receipt>,
      key: Key)
    | ItemPresented(presentation: PresentationId, shown: RevisionId, fingerprint: Content, format: Format,
                    prompt: string, options: seq<Text>, key: Key)
    | AttemptRecorded(attempt: AttemptId, of: PresentationId, response: Response, latency: Option<nat>, key: Key)
    | GradeRecorded(grade: GradeId, graded: AttemptId, status: GradeStatus, criteria: seq<CriterionResult>,
      score: Score,
                    grading: GradeProvenance, predecessor: Option<GradeId>, key: Key)
    | GradeContested(contested: GradeId, reason: string, key: Key)
    | ContextRecorded(world: World)

  datatype Event = Event(id: EventId, sequence: int, session: SessionId, actor: Principal, payload: Payload)

  /** Command fingerprints: a generated batch is identified by its run alone, a service decision by its target alone. */
  datatype Fingerprint =
    | ProposalFingerprint(origin: Origin, run: Option<RunId>, proposals: seq<Portable>)
    | DecisionFingerprint(revision: RevisionId, verdict: Verdict, supersedes: Option<RevisionId>)
    | ServiceDecisionFingerprint(revision: RevisionId)
    | PayloadFingerprint(payload: Payload)
  datatype Portable = Portable(ordinal: int, artifact: ArtifactId, kind: Kind, content: Content, provenance: Provenance)

  function PortableOf(p: Recorded): Portable {
    Portable(p.ordinal, p.artifact, p.kind, p.content, p.provenance)
  }

  function FingerprintOf(payload: Payload): Fingerprint {
    match payload
    case ProposalBatch(_, origin, proposals, run, _, _) =>
      ProposalFingerprint(origin, run,
                          if origin == GeneratedOrigin then []
                            else seq(|proposals|, i requires 0 <= i < |proposals| => PortableOf(proposals[i])))
    case Decision(revision, verdict, supersedes, receipt, _) =>
      if receipt.Some? then ServiceDecisionFingerprint(revision) else DecisionFingerprint(revision, verdict, supersedes)
    case _ => PayloadFingerprint(payload)
  }
}
