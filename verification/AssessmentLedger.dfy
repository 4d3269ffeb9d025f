/** The assessment ledger: presentations of accepted items, attempts, grades with supersession, contests. */
module AssessmentLedger {
  import opened Domain
  import opened ArtifactLedger

  datatype Lifecycle = Active | Replaced

  datatype Presentation = Presentation(session: SessionId, revision: RevisionId, content: Content)
  datatype Attempt = Attempt(session: SessionId, presentation: PresentationId, response: Response, latency: Option<nat>)
  datatype Grade = Grade(
    session: SessionId, attempt: AttemptId, status: GradeStatus, criteria: seq<CriterionResult>, score: Score,
    provenance: GradeProvenance, lifecycle: Lifecycle, supersedes: Option<GradeId>, sequence: int)
  datatype Contest = Contest(grade: GradeId, session: SessionId, reason: string, sequence: int)

  datatype Assessments = Assessments(
    presentations: map<PresentationId, Presentation>,
    attempts: map<AttemptId, Attempt>,
    grades: map<GradeId, Grade>,
    contests: seq<Contest>,
    commands: map<EventId, Fingerprint>)

  const NO_ASSESSMENTS := Assessments(map[], map[], map[], [], map[])

  // ------------------------------------------------------- items and answers

  function Kept(options: seq<Text>, selected: set<Text>): seq<Text> {
    if options == [] then []
    else (if options[0] in selected then [options[0]] else []) + Kept(options[1..], selected)
  }

  function Elements(s: seq<Text>): set<Text> {
    set x | x in s
  }

  /** The answer key names listed options; a multiple-choice key is the canonical array in option order. */
  predicate ItemEncodes(item: Item) {
    match item.format
    case FreeResponseFormat => true
    case SingleChoiceFormat => item.expected in item.options
    case MultipleChoiceFormat =>
      && item.expected.JsonArray?
      && item.expected.items != []
      && Distinct(item.expected.items)
      && (forall i :: 0 <= i < |item.expected.items| ==> item.expected.items[i] in item.options)
      && item.expected == JsonArray(Kept(item.options, Elements(item.expected.items)), true)
  }

  predicate ResponseFits(item: Item, response: Response) {
    match item.format
    case FreeResponseFormat => response.FreeText?
    case SingleChoiceFormat => response.SingleChoice? && response.option in item.options
    case MultipleChoiceFormat =>
      && response.MultipleChoice?
      && (forall i :: 0 <= i < |response.options| ==> response.options[i] in item.options)
      && response.options == Kept(item.options, Elements(response.options))
  }

  predicate ResponseDecodes(response: Response) {
    response.MultipleChoice? ==> response.options != [] && Distinct(response.options)
  }

  // ---------------------------------------------------------------- decoding

  predicate PresentDecodes(e: Event)
    requires e.payload.ItemPresented?
  {
    var p := e.payload;
    && e.actor == Service
    && e.id == AssessmentEventId(e.session, p.key, PresentCommand)
    && p.presentation == PresentationId(e.session, p.shown, p.key)
  }

  predicate AttemptDecodes(e: Event)
    requires e.payload.AttemptRecorded?
  {
    var p := e.payload;
    && e.actor == Human
    && e.id == AssessmentEventId(e.session, p.key, AttemptCommand)
    && p.attempt == AttemptId(e.session, p.of, p.key)
    && ResponseDecodes(p.response)
  }

  predicate GradeDecodes(e: Event)
    requires e.payload.GradeRecorded?
  {
    var p := e.payload;
    && e.actor == Service
    && e.id == AssessmentEventId(e.session, p.key, GradeCommand)
    && p.grade == GradeId(e.session, p.graded, p.key)
    && ScoreDecodes(p.score)
  }

  predicate ContestDecodes(e: Event)
    requires e.payload.GradeContested?
  {
    && e.actor == Human
    && e.id == AssessmentEventId(e.session, e.payload.key, ContestCommand)
    && 0 < |e.payload.reason| <= 4096
  }

  // ---------------------------------------------------------------- reducers

  predicate Opens(world: World, book: Assessments, e: Event) {
    e.session in world.sessions && e.actor != Model && e.id !in book.commands
  }

  function WithCommand(book: Assessments, e: Event): map<EventId, Fingerprint> {
    book.commands[e.id := FingerprintOf(e.payload)]
  }

  predicate Presentable(ledger: Ledger, book: Assessments, e: Event)
    requires e.payload.ItemPresented?
  {
    var p := e.payload;
    && p.presentation !in book.presentations
    && p.shown in ledger.revisions
    && var r := ledger.revisions[p.shown];
    && r.batch in ledger.batches
    && ledger.batches[r.batch].session == e.session
    && r.status == Accepted
    && r.kind == AssessmentItemKind
    && r.content == p.fingerprint
    && r.content.AssessmentItem?
    && ItemEncodes(r.content.item)
    && p.format == r.content.item.format && p.prompt == r.content.item.prompt && p.options == r.content.item.options
  }

  function ReducePresented(ledger: Ledger, world: World, book: Assessments, e: Event): Option<Assessments>
    requires e.payload.ItemPresented?
  {
    var p := e.payload;
    if !Opens(world, book, e) || !Presentable(ledger, book, e) then None
    else
      Some(book.(presentations := book.presentations[p.presentation := Presentation(e.session, p.shown,
        ledger.revisions[p.shown].content)],
                 commands := WithCommand(book, e)))
  }

  predicate Answerable(book: Assessments, e: Event)
    requires e.payload.AttemptRecorded?
  {
    var p := e.payload;
    && p.attempt !in book.attempts
    && p.of in book.presentations
    && book.presentations[p.of].session == e.session
    && book.presentations[p.of].content.AssessmentItem?
    && ResponseFits(book.presentations[p.of].content.item, p.response)
  }

  function ReduceAttempt(world: World, book: Assessments, e: Event): Option<Assessments>
    requires e.payload.AttemptRecorded?
  {
    var p := e.payload;
    if !Opens(world, book, e) || !Answerable(book, e) then None
    else
      Some(book.(attempts := book.attempts[p.attempt := Attempt(e.session, p.of, p.response, p.latency)],
                 commands := WithCommand(book, e)))
  }

  function ActiveGrades(grades: map<GradeId, Grade>, attempt: AttemptId): set<GradeId> {
    set g | g in grades && grades[g].attempt == attempt && grades[g].lifecycle == Active
  }

  function CriteriaOf(results: seq<CriterionResult>): seq<string> {
    seq(|results|, i requires 0 <= i < |results| => results[i].criterion)
  }

  predicate Gradable(book: Assessments, e: Event)
    requires e.payload.GradeRecorded?
  {
    var p := e.payload;
    && p.grade !in book.grades
    && p.graded in book.attempts
    && book.attempts[p.graded].session == e.session
    && var shown := book.attempts[p.graded].presentation;
    && shown in book.presentations
    && book.presentations[shown].session == e.session
    && book.presentations[shown].content.AssessmentItem?
    && CriteriaOf(p.criteria) == book.presentations[shown].content.item.criteria
    && p.grading.rubric == book.presentations[shown].content.item.criteria
    && (match p.predecessor
        case None => ActiveGrades(book.grades, p.graded) == {}
        case Some(g) => ActiveGrades(book.grades, p.graded) == {g} && book.grades[g].session == e.session)
  }

  function GradeOf(e: Event): Grade
    requires e.payload.GradeRecorded?
  {
    var p := e.payload;
    Grade(e.session, p.graded, p.status, p.criteria, p.score, p.grading, Active, p.predecessor, e.sequence)
  }

  /** The predecessor, when there is one, is replaced; then the new grade is entered. */
  function Regraded(grades: map<GradeId, Grade>, p: Payload, grade: Grade): map<GradeId, Grade>
    requires p.GradeRecorded?
  {
    var released :=
      if p.predecessor.Some? && p.predecessor.value in grades
      then grades[p.predecessor.value := grades[p.predecessor.value].(lifecycle := Replaced)]
      else grades;
    released[p.grade := grade]
  }

  function ReduceGrade(world: World, book: Assessments, e: Event): Option<Assessments>
    requires e.payload.GradeRecorded?
  {
    if !Opens(world, book, e) || !Gradable(book, e) then None
    else Some(book.(grades := Regraded(book.grades, e.payload, GradeOf(e)), commands := WithCommand(book, e)))
  }

  function ReduceContest(world: World, book: Assessments, e: Event): Option<Assessments>
    requires e.payload.GradeContested?
  {
    var g := e.payload.contested;
    if !Opens(world, book, e) || g !in book.grades || book.grades[g].session != e.session then None
    else
      Some(book.(contests := book.contests + [Contest(g, e.session, e.payload.reason, e.sequence)],
                 commands := WithCommand(book, e)))
  }

  /** Decoder and reducer of an assessment event; other events leave the ledger alone. */
  function Assess(ledger: Ledger, world: World, book: Assessments, e: Event): Option<Assessments> {
    match e.payload
    case ItemPresented(_, _, _, _, _, _, _) =>
      if PresentDecodes(e) then ReducePresented(ledger, world, book, e) else None
    case AttemptRecorded(_, _, _, _, _) => if AttemptDecodes(e) then ReduceAttempt(world, book, e) else None
    case GradeRecorded(_, _, _, _, _, _, _, _) => if GradeDecodes(e) then ReduceGrade(world, book, e) else None
    case GradeContested(_, _, _) => if ContestDecodes(e) then ReduceContest(world, book, e) else None
    case _ => Some(book)
  }
}
