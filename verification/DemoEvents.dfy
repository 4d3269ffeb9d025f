/** The events of one concrete stream, and the reducers' answer to each of them.  Ten events that the services can
    write, then four that break, one each, the rules only the services enforce. */
module DemoEvents {
  import opened Domain
  import opened ArtifactLedger
  import opened ArtifactPrepare
  import opened Course
  import opened AssessmentLedger

  // ------------------------------------------------------------ the material

  const QUESTION := Item(FreeResponseFormat, "why?", [], Plain("because"), ["clarity"])
  const ASKED := AssessmentItem(QUESTION)
  const TYPED := HumanAuthored("note", "typed", None)
  const ITEM_BATCH := HumanBatch("s", "note", "k")
  const ITEM_ARTIFACT := ArtifactId(ITEM_BATCH, 0)
  const ITEM_REVISION := RevisionId(ITEM_ARTIFACT, AssessmentItemKind, ASKED, TYPED, None)
  const CONTEXT := World({"s"}, {("s", TYPED)})
  const CREATION := Recorded(0, ITEM_ARTIFACT, ITEM_REVISION, AssessmentItemKind, ASKED, TYPED, None, None)
  const STORED := Revision(ITEM_ARTIFACT, ITEM_BATCH, 0, AssessmentItemKind, Proposed, ASKED, TYPED, None, None)

  const E1 := Event(OtherEventId("context"), 1, "s", Service, ContextRecorded(CONTEXT))
  const E2 := HumanEvent("s", "k", "note", [CREATION], 2)
  const E3 := Event(ArtifactEventId("s", "d", DecisionCommand), 3, "s", Human,
    Decision(ITEM_REVISION, Accept, None, None, "d"))

  const PROPOSED2 := Ledger(
    map[ITEM_ARTIFACT := Artifact(AssessmentItemKind, None, [ITEM_REVISION], ITEM_REVISION)],
    map[ITEM_REVISION := STORED],
    map[ITEM_BATCH := Batch("s", HumanOrigin, [ITEM_REVISION], None)],
    [],
    map[E2.id := FingerprintOf(E2.payload)])

  const ACCEPTED3 := PROPOSED2.(
    revisions := map[ITEM_REVISION := STORED.(status := Accepted)],
    decisions := [DecisionRecord(ITEM_REVISION, Accept, None, None)],
    commands := PROPOSED2.commands[E3.id := FingerprintOf(E3.payload)])

  function PresentationOf(key: Key): PresentationId { PresentationId("s", ITEM_REVISION, key) }

  function Showing(key: Key, n: int): Event {
    Event(AssessmentEventId("s", key, PresentCommand), n, "s", Service,
          ItemPresented(PresentationOf(key), ITEM_REVISION, ASKED, FreeResponseFormat, "why?", [], key))
  }

  function Answer(shown: Key, key: Key): AttemptId { AttemptId("s", PresentationOf(shown), key) }

  function Answering(shown: Key, key: Key, n: int): Event {
    Event(AssessmentEventId("s", key, AttemptCommand), n, "s", Human,
          AttemptRecorded(Answer(shown, key), PresentationOf(shown), FreeText(Plain("text")), None, key))
  }

  function Mark(attempt: AttemptId, key: Key): GradeId { GradeId("s", attempt, key) }

  function Grading(attempt: AttemptId, key: Key, run: RunId, predecessor: Option<GradeId>, n: int): Event {
    Event(AssessmentEventId("s", key, GradeCommand), n, "s", Service,
          GradeRecorded(Mark(attempt, key), attempt, Graded, [CriterionResult("clarity", Met, "clear")], Score(1, 1),
                        Verified(run, "checked", ["clarity"]), predecessor, key))
  }

  function Contesting(g: GradeId, key: Key, n: int): Event {
    Event(AssessmentEventId("s", key, ContestCommand), n, "s", Human, GradeContested(g, "unfair", key))
  }

  const A1 := Answer("p", "a")
  const A2 := Answer("pp", "aa")
  const A3 := Answer("p", "aaa")
  const G1 := Mark(A1, "g")
  const G2 := Mark(A2, "gg")
  const G3 := Mark(A3, "ggg")
  const G4 := Mark(A2, "gggg")

  const E4 := Showing("p", 4)
  const E5 := Showing("pp", 5)
  const E6 := Answering("p", "a", 6)
  const E7 := Answering("pp", "aa", 7)
  const E8 := Grading(A1, "g", "r", None, 8)
  const E9 := Grading(A2, "gg", "rr", None, 9)
  const E10 := Contesting(G1, "c", 10)
  const E11 := Contesting(G1, "cc", 11)
  const E12 := Answering("p", "aaa", 12)
  const E13 := Grading(A3, "ggg", "r", None, 13)
  const E14 := Grading(A2, "gggg", "rrr", Some(G2), 14)

  /** Two presentations, one answer and one grade each, and the first grade contested last. */
  const HONEST: seq<Event> := [E1, E2, E3, E4, E5, E6, E7, E8, E9, E10]

  /** The same grade contested again, a second answer, a second grade of a run, an uncontested regrade. */
  const ROGUE: seq<Event> := [E11, E12, E13, E14]

  // ------------------------------------------------------ the item's own events

  const S3 := State(CONTEXT, ACCEPTED3, NO_ASSESSMENTS)

  lemma CreationReduces()
    ensures ReduceBatch(EMPTY_LEDGER, CONTEXT, E2) == Some(PROPOSED2)
  {
    var scope := ScopeOf(CONTEXT, E2);
    var start := Fold(map[], map[], map[], []);
    var next := ProposeOne(scope, start, CREATION);
    assert [] + [ITEM_REVISION] == [ITEM_REVISION];
    assert [CREATION][1..] == [];
    assert ProposeAll(scope, next.value, []) == next;
    assert ProposeAll(scope, start, [CREATION]) == next;
    assert next.value.artifacts == PROPOSED2.artifacts && next.value.revisions == PROPOSED2.revisions &&
      next.value.ids == [ITEM_REVISION];
    var closed := CloseBatch(EMPTY_LEDGER, E2, next.value);
    assert closed.batches == PROPOSED2.batches && closed.commands == PROPOSED2.commands;
  }

  lemma AcceptanceReduces()
    ensures ReduceDecision(PROPOSED2, CONTEXT, E3) == Some(ACCEPTED3)
  {
    var history := PROPOSED2.artifacts[ITEM_ARTIFACT].history;
    assert AcceptedIn(history[1..], PROPOSED2.revisions) == [];
    assert AcceptedIn(history, PROPOSED2.revisions) == [];
    assert CurrentAccepted(PROPOSED2, ITEM_ARTIFACT) == Some(None);
    assert Decided(PROPOSED2.revisions, E3.payload) == ACCEPTED3.revisions;
    assert [] + [DecisionRecord(ITEM_REVISION, Accept, None, None)] ==
      [DecisionRecord(ITEM_REVISION, Accept, None, None)];
  }

  // -------------------------------------------------------- the book, page by page

  /** What the assessment ledger holds.  Idempotency keys grow longer along the stream, so that the longest key used
      so far for each kind of command stands for all the commands recorded. */
  datatype Keys = Keys(presents: nat, answers: nat, grades: nat, contests: nat)

  datatype Page = Page(
    used: Keys, presentations: map<PresentationId, Presentation>, attempts: map<AttemptId, Attempt>,
    grades: map<GradeId, Grade>, contests: seq<Contest>)

  const BLANK := Page(Keys(0, 0, 0, 0), map[], map[], map[], [])
  const ONE_PRESENTATION := Presentation("s", ITEM_REVISION, ASKED)

  function LongestKey(used: Keys, action: AssessmentCommand): nat {
    match action
    case PresentCommand => used.presents
    case AttemptCommand => used.answers
    case GradeCommand => used.grades
    case ContestCommand => used.contests
  }

  function AnswerTo(shown: PresentationId): Attempt {
    Attempt("s", shown, FreeText(Plain("text")), None)
  }

  /** The ledger is that of the accepted item, and the book is the page. */
  ghost predicate Holds(st: State, page: Page) {
    && st.world == CONTEXT && st.ledger == ACCEPTED3
    && (forall id :: id in st.book.commands ==> id.AssessmentEventId? && |id.key| <= LongestKey(page.used, id.action))
    && st.book.presentations == page.presentations
    && st.book.attempts == page.attempts && st.book.grades == page.grades && st.book.contests == page.contests
  }

  function PageAfter(page: Page, e: Event): Page {
    var p, used := e.payload, page.used;
    match p
    case ItemPresented(_, _, _, _, _, _, _) =>
      page.(used := used.(presents := |p.key|), presentations := page.presentations[p.presentation := ONE_PRESENTATION])
    case AttemptRecorded(_, _, _, _, _) =>
      page.(used := used.(answers := |p.key|), attempts := page.attempts[p.attempt := AnswerTo(p.of)])
    case GradeRecorded(_, _, _, _, _, _, _, _) =>
      page.(used := used.(grades := |p.key|), grades := Regraded(page.grades, p, GradeOf(e)))
    case GradeContested(_, _, _) =>
      page.(used := used.(contests := |p.key|),
        contests := page.contests + [Contest(p.contested, "s", "unfair", e.sequence)])
    case _ => page
  }

  /** The event is one of this stream's kinds and the reducer accepts it on this page. */
  ghost predicate FitsPage(page: Page, e: Event) {
    var p := e.payload;
    && e.id.AssessmentEventId? && LongestKey(page.used, e.id.action) < |e.id.key|
    && match p
       case ItemPresented(_, _, _, _, _, _, _) => e == Showing(p.key, e.sequence) &&
         p.presentation !in page.presentations
       case AttemptRecorded(_, _, _, _, _) => FitsAnswer(page, e)
       case GradeRecorded(_, _, _, _, _, _, _, _) => FitsGrade(page, e)
       case GradeContested(_, _, _) =>
         e == Contesting(p.contested, p.key, e.sequence) && p.contested in page.grades &&
           page.grades[p.contested].session == "s"
       case _ => false
  }

  ghost predicate FitsAnswer(page: Page, e: Event)
    requires e.payload.AttemptRecorded?
  {
    var p := e.payload;
    && p.of.PresentationId? && e == Answering(p.of.key, p.key, e.sequence) && p.attempt !in page.attempts
    && p.of in page.presentations && page.presentations[p.of] == ONE_PRESENTATION
  }

  ghost predicate FitsGrade(page: Page, e: Event)
    requires e.payload.GradeRecorded?
  {
    var p := e.payload;
    && p.graded in page.attempts && p.grading.Verified?
    && e == Grading(p.graded, p.key, p.grading.run, p.predecessor, e.sequence) && p.grade !in page.grades
    && page.attempts[p.graded].presentation in page.presentations
    && page.attempts[p.graded] == AnswerTo(page.attempts[p.graded].presentation)
    && page.presentations[page.attempts[p.graded].presentation] == ONE_PRESENTATION
    && ActiveGrades(page.grades, p.graded) == (if p.predecessor.Some? then {p.predecessor.value} else {})
    && (p.predecessor.Some? ==> p.predecessor.value in page.grades && page.grades[p.predecessor.value].session == "s")
  }

  /** The accepted item can be shown under any new presentation. */
  lemma ItemIsPresentable(book: Assessments, key: Key, n: int)
    requires PresentationOf(key) !in book.presentations
    ensures Presentable(ACCEPTED3, book, Showing(key, n)) && PresentDecodes(Showing(key, n))
  {
  }

  lemma ShowingReduces(st: State, page: Page, e: Event) returns (next: State)
    requires Holds(st, page) && FitsPage(page, e) && e.payload.ItemPresented?
    ensures Reduce(st, e) == Some(next) && Holds(next, PageAfter(page, e))
  {
    ItemIsPresentable(st.book, e.payload.key, e.sequence);
    next := Reduce(st, e).value;
  }

  lemma AnsweringReduces(st: State, page: Page, e: Event) returns (next: State)
    requires Holds(st, page) && FitsPage(page, e) && e.payload.AttemptRecorded?
    ensures Reduce(st, e) == Some(next) && Holds(next, PageAfter(page, e))
  {
    next := Reduce(st, e).value;
  }

  lemma GradingReduces(st: State, page: Page, e: Event) returns (next: State)
    requires Holds(st, page) && FitsPage(page, e) && e.payload.GradeRecorded?
    ensures Reduce(st, e) == Some(next) && Holds(next, PageAfter(page, e))
  {
    assert CriteriaOf(e.payload.criteria) == ["clarity"];
    next := Reduce(st, e).value;
  }

  lemma ContestingReduces(st: State, page: Page, e: Event) returns (next: State)
    requires Holds(st, page) && FitsPage(page, e) && e.payload.GradeContested?
    ensures Reduce(st, e) == Some(next) && Holds(next, PageAfter(page, e))
  {
    next := Reduce(st, e).value;
  }

  /** An event that fits its page is accepted and turns the page. */
  lemma FittingReduces(st: State, page: Page, e: Event) returns (next: State)
    requires Holds(st, page) && FitsPage(page, e)
    ensures Reduce(st, e) == Some(next) && Holds(next, PageAfter(page, e))
  {
    match e.payload
    case ItemPresented(_, _, _, _, _, _, _) => next := ShowingReduces(st, page, e);
    case AttemptRecorded(_, _, _, _, _) => next := AnsweringReduces(st, page, e);
    case GradeRecorded(_, _, _, _, _, _, _, _) => next := GradingReduces(st, page, e);
    case GradeContested(_, _, _) => next := ContestingReduces(st, page, e);
  }

  // ---------------------------------------------------------- the pages themselves

  const ONE_GRADE := GradeOf(E8)
  const OTHER_GRADE := GradeOf(E9)
  const SHOWS := map[PresentationOf("p") := ONE_PRESENTATION, PresentationOf("pp") := ONE_PRESENTATION]
  const ANSWERS := map[A1 := AnswerTo(PresentationOf("p")), A2 := AnswerTo(PresentationOf("pp"))]
  const PAGE4 := Page(Keys(1, 0, 0, 0), map[PresentationOf("p") := ONE_PRESENTATION], map[], map[], [])
  const PAGE5 := Page(Keys(2, 0, 0, 0), SHOWS, map[], map[], [])
  const PAGE6 := Page(Keys(2, 1, 0, 0), SHOWS, map[A1 := AnswerTo(PresentationOf("p"))], map[], [])
  const PAGE7 := Page(Keys(2, 2, 0, 0), SHOWS, ANSWERS, map[], [])
  const PAGE8 := Page(Keys(2, 2, 1, 0), SHOWS, ANSWERS, map[G1 := ONE_GRADE], [])
  const PAGE9 := Page(Keys(2, 2, 2, 0), SHOWS, ANSWERS, map[G1 := ONE_GRADE, G2 := OTHER_GRADE], [])
  const PAGE10 := Page(Keys(2, 2, 2, 1), SHOWS, ANSWERS, map[G1 := ONE_GRADE, G2 := OTHER_GRADE], ONE_DISPUTE)
  const ONE_DISPUTE := [Contest(G1, "s", "unfair", 10)]
  const PAGES: seq<Page> := [BLANK, PAGE4, PAGE5, PAGE6, PAGE7, PAGE8, PAGE9, PAGE10]

  /** The event fits the page and leads to the next one. */
  ghost predicate Turns(page: Page, e: Event, next: Page) {
    FitsPage(page, e) && PageAfter(page, e) == next
  }

  lemma TurnTo4()
    ensures Turns(BLANK, E4, PAGE4)
  {
  }

  lemma TurnTo5()
    ensures Turns(PAGE4, E5, PAGE5)
  {
  }

  lemma TurnTo6()
    ensures Turns(PAGE5, E6, PAGE6)
  {
  }

  lemma TurnTo7()
    ensures Turns(PAGE6, E7, PAGE7)
  {
  }

  lemma TurnTo8()
    ensures Turns(PAGE7, E8, PAGE8)
  {
    assert ActiveGrades(PAGE7.grades, A1) == {};
    assert Regraded(PAGE7.grades, E8.payload, ONE_GRADE) == PAGE8.grades;
  }

  lemma TurnTo9()
    ensures Turns(PAGE8, E9, PAGE9)
  {
    assert ActiveGrades(PAGE8.grades, A2) == {};
    assert Regraded(PAGE8.grades, E9.payload, OTHER_GRADE) == PAGE9.grades;
  }

  lemma TurnTo10()
    ensures Turns(PAGE9, E10, PAGE10)
  {
  }
}
