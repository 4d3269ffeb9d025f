/** What the assessment ledger stores: exactly the records of the stream's own events, field by field.  A grade's
    lifecycle is the one thing that later events change. */
module AssessmentRecords {
  import opened Domain
  import ArtifactLedger
  import opened AssessmentLedger
  import opened Course
  import AI = AssessmentInvariants
  import AssessmentRuns

  // ------------------------------------------------------- an event's own record

  ghost predicate PresentationStored(e: Event, book: Assessments)
    requires e.payload.ItemPresented?
  {
    var p := e.payload;
    && p.presentation in book.presentations
    && var stored := book.presentations[p.presentation];
    && stored.session == e.session && stored.revision == p.shown && stored.content == p.fingerprint
    && stored.content.AssessmentItem?
    && stored.content.item.format == p.format && stored.content.item.prompt == p.prompt
    && stored.content.item.options == p.options
  }

  ghost predicate AttemptStored(e: Event, book: Assessments)
    requires e.payload.AttemptRecorded?
  {
    var p := e.payload;
    && p.attempt in book.attempts
    && var stored := book.attempts[p.attempt];
    && stored.session == e.session && stored.presentation == p.of
    && stored.response == p.response && stored.latency == p.latency
  }

  ghost predicate GradeStored(e: Event, book: Assessments)
    requires e.payload.GradeRecorded?
  {
    var p := e.payload;
    && p.grade in book.grades
    && var stored := book.grades[p.grade];
    && stored.session == e.session && stored.attempt == p.graded && stored.status == p.status
    && stored.criteria == p.criteria && stored.score == p.score && stored.provenance == p.grading
    && stored.supersedes == p.predecessor && stored.sequence == e.sequence
  }

  predicate SameContest(e: Event, c: Contest)
    requires e.payload.GradeContested?
  {
    c.grade == e.payload.contested && c.session == e.session && c.reason == e.payload.reason && c.sequence == e.sequence
  }

  ghost predicate ContestStored(e: Event, book: Assessments)
    requires e.payload.GradeContested?
  {
    exists k :: 0 <= k < |book.contests| && SameContest(e, book.contests[k])
  }

  ghost predicate RecordStored(e: Event, book: Assessments) {
    match e.payload
    case ItemPresented(_, _, _, _, _, _, _) => PresentationStored(e, book)
    case AttemptRecorded(_, _, _, _, _) => AttemptStored(e, book)
    case GradeRecorded(_, _, _, _, _, _, _, _) => GradeStored(e, book)
    case GradeContested(_, _, _) => ContestStored(e, book)
    case _ => true
  }

  // ----------------------------------------------------------- nothing else

  predicate RecordsPresentation(e: Event, p: PresentationId) {
    e.payload.ItemPresented? && e.payload.presentation == p
  }

  predicate RecordsAttempt(e: Event, a: AttemptId) {
    e.payload.AttemptRecorded? && e.payload.attempt == a
  }

  predicate RecordsGrade(e: Event, g: GradeId) {
    e.payload.GradeRecorded? && e.payload.grade == g
  }

  predicate RecordsContest(e: Event, c: Contest) {
    e.payload.GradeContested? && SameContest(e, c)
  }

  /** Every record stems from an event of the stream. */
  ghost predicate OnlyRecords(stream: seq<Event>, book: Assessments) {
    && (forall p :: p in book.presentations ==> exists i :: 0 <= i < |stream| && RecordsPresentation(stream[i], p))
    && (forall a :: a in book.attempts ==> exists i :: 0 <= i < |stream| && RecordsAttempt(stream[i], a))
    && (forall g :: g in book.grades ==> exists i :: 0 <= i < |stream| && RecordsGrade(stream[i], g))
    && (forall k :: 0 <= k < |book.contests| ==>
          exists i :: 0 <= i < |stream| && RecordsContest(stream[i], book.contests[k]))
  }

  // --------------------------------------------------------------- lifecycles

  /** An event after `i` names `g` as the grade it supersedes. */
  predicate NamedAfter(stream: seq<Event>, i: int, g: GradeId)
    requires 0 <= i < |stream|
  {
    exists j :: i < j < |stream| && Supersedes(stream[j], g)
  }

  predicate Supersedes(e: Event, g: GradeId) {
    e.payload.GradeRecorded? && e.payload.predecessor == Some(g)
  }

  ghost predicate LifecycleFollows(stream: seq<Event>, book: Assessments, i: int)
    requires 0 <= i < |stream| && stream[i].payload.GradeRecorded?
  {
    var g := stream[i].payload.grade;
    g in book.grades && (book.grades[g].lifecycle == Replaced <==> NamedAfter(stream, i, g))
  }

  ghost predicate LifecyclesFollow(stream: seq<Event>, book: Assessments) {
    forall i :: 0 <= i < |stream| && stream[i].payload.GradeRecorded? ==> LifecycleFollows(stream, book, i)
  }

  ghost predicate AllStored(stream: seq<Event>, book: Assessments) {
    forall i :: 0 <= i < |stream| ==> RecordStored(stream[i], book)
  }

  // ---------------------------------------------------------- one event more

  /** What an accepted event does to the book. */
  lemma AssessmentStep(st: State, e: Event)
    requires Reduce(st, e).Some? && !e.payload.ContextRecorded?
    ensures Assess(st.ledger, st.world, st.book, e) == Some(Reduce(st, e).value.book)
  {
  }

  lemma GradeEventSteps(world: World, book: Assessments, e: Event)
    requires e.payload.GradeRecorded? && ReduceGrade(world, book, e).Some?
    ensures var p, later := e.payload, ReduceGrade(world, book, e).value.grades;
      && later.Keys == book.grades.Keys + {p.grade} && p.grade !in book.grades
      && later[p.grade].lifecycle == Active
      && forall g :: g in book.grades ==>
        later[g].lifecycle == if p.predecessor == Some(g) then Replaced else book.grades[g].lifecycle
  {
    AI.RegradedEntries(book.grades, e.payload, GradeOf(e));
  }

  lemma GradeEventStores(world: World, book: Assessments, e: Event)
    requires e.payload.GradeRecorded? && ReduceGrade(world, book, e).Some?
    ensures GradeStored(e, ReduceGrade(world, book, e).value)
  {
    AI.RegradedEntries(book.grades, e.payload, GradeOf(e));
  }

  lemma ContestEventStores(world: World, book: Assessments, e: Event)
    requires e.payload.GradeContested? && ReduceContest(world, book, e).Some?
    ensures ContestStored(e, ReduceContest(world, book, e).value)
  {
    assert SameContest(e, ReduceContest(world, book, e).value.contests[|book.contests|]);
  }

  lemma OwnRecordStored(ledger: ArtifactLedger.Ledger, world: World, book: Assessments, e: Event)
    requires Assess(ledger, world, book, e).Some?
    ensures RecordStored(e, Assess(ledger, world, book, e).value)
  {
    if e.payload.GradeRecorded? {
      GradeEventStores(world, book, e);
    } else if e.payload.GradeContested? {
      ContestEventStores(world, book, e);
    }
  }

  /** Records stay as they are in every later book. */
  lemma RecordStays(e: Event, before: Assessments, after: Assessments)
    requires RecordStored(e, before) && AssessmentRuns.BookLater(before, after)
    ensures RecordStored(e, after)
  {
    if e.payload.GradeContested? {
      var k :| 0 <= k < |before.contests| && SameContest(e, before.contests[k]);
      assert after.contests[k] == before.contests[k];
    }
  }

  /** An event adds no record but its own. */
  ghost predicate AddsOnlyOwn(before: Assessments, after: Assessments, e: Event) {
    && (forall p :: p in after.presentations ==> p in before.presentations || RecordsPresentation(e, p))
    && (forall a :: a in after.attempts ==> a in before.attempts || RecordsAttempt(e, a))
    && (forall g :: g in after.grades ==> g in before.grades || RecordsGrade(e, g))
    && |before.contests| <= |after.contests|
    && (forall k :: 0 <= k < |before.contests| ==> after.contests[k] == before.contests[k])
    && (forall k :: |before.contests| <= k < |after.contests| ==> RecordsContest(e, after.contests[k]))
  }

  lemma GradeAddsOwn(world: World, book: Assessments, e: Event)
    requires e.payload.GradeRecorded? && ReduceGrade(world, book, e).Some?
    ensures AddsOnlyOwn(book, ReduceGrade(world, book, e).value, e)
  {
    GradeEventSteps(world, book, e);
  }

  lemma ContestAddsOwn(world: World, book: Assessments, e: Event)
    requires e.payload.GradeContested? && ReduceContest(world, book, e).Some?
    ensures AddsOnlyOwn(book, ReduceContest(world, book, e).value, e)
  {
  }

  lemma OwnRecordOnly(ledger: ArtifactLedger.Ledger, world: World, book: Assessments, e: Event)
    requires Assess(ledger, world, book, e).Some?
    ensures AddsOnlyOwn(book, Assess(ledger, world, book, e).value, e)
  {
    if e.payload.GradeRecorded? {
      GradeAddsOwn(world, book, e);
    } else if e.payload.GradeContested? {
      ContestAddsOwn(world, book, e);
    }
  }

  lemma OnlyRecordsGrow(stream: seq<Event>, before: Assessments, after: Assessments, e: Event)
    requires OnlyRecords(stream, before) && AddsOnlyOwn(before, after, e)
    ensures OnlyRecords(stream + [e], after)
  {
    var longer := stream + [e];
    assert longer[|stream|] == e && forall i :: 0 <= i < |stream| ==> longer[i] == stream[i];
    forall p | p in after.presentations ensures exists i :: 0 <= i < |longer| && RecordsPresentation(longer[i], p) {
      if p in before.presentations {
        var i :| 0 <= i < |stream| && RecordsPresentation(stream[i], p);
        assert RecordsPresentation(longer[i], p);
      }
    }
    forall a | a in after.attempts ensures exists i :: 0 <= i < |longer| && RecordsAttempt(longer[i], a) {
      if a in before.attempts {
        var i :| 0 <= i < |stream| && RecordsAttempt(stream[i], a);
        assert RecordsAttempt(longer[i], a);
      }
    }
    forall g | g in after.grades ensures exists i :: 0 <= i < |longer| && RecordsGrade(longer[i], g) {
      if g in before.grades {
        var i :| 0 <= i < |stream| && RecordsGrade(stream[i], g);
        assert RecordsGrade(longer[i], g);
      }
    }
    forall k | 0 <= k < |after.contests|
      ensures exists i :: 0 <= i < |longer| && RecordsContest(longer[i], after.contests[k])
    {
      if k < |before.contests| {
        var i :| 0 <= i < |stream| && RecordsContest(stream[i], before.contests[k]);
        assert RecordsContest(longer[i], after.contests[k]);
      }
    }
  }

  /** A grade event replaces the grade it names and no other. */
  ghost predicate LifecyclesStep(before: Assessments, after: Assessments, e: Event) {
    && (e.payload.GradeRecorded? ==>
          && e.payload.grade !in before.grades && e.payload.grade in after.grades
          && after.grades[e.payload.grade].lifecycle == Active)
    && forall g :: g in before.grades ==>
      && g in after.grades
      && after.grades[g].lifecycle == if Supersedes(e, g) then Replaced else before.grades[g].lifecycle
  }

  lemma OwnLifecycles(ledger: ArtifactLedger.Ledger, world: World, book: Assessments, e: Event)
    requires Assess(ledger, world, book, e).Some?
    ensures LifecyclesStep(book, Assess(ledger, world, book, e).value, e)
  {
    if e.payload.GradeRecorded? {
      GradeEventSteps(world, book, e);
    }
  }

  lemma NamedGrow(stream: seq<Event>, e: Event, i: int, g: GradeId)
    requires 0 <= i < |stream|
    ensures NamedAfter(stream + [e], i, g) <==> NamedAfter(stream, i, g) || Supersedes(e, g)
  {
    var longer := stream + [e];
    assert longer[|stream|] == e && forall j :: 0 <= j < |stream| ==> longer[j] == stream[j];
    if NamedAfter(stream, i, g) {
      var j :| i < j < |stream| && Supersedes(stream[j], g);
      assert Supersedes(longer[j], g);
    }
  }

  lemma LifecyclesGrow(stream: seq<Event>, before: Assessments, after: Assessments, e: Event)
    requires LifecyclesFollow(stream, before) && LifecyclesStep(before, after, e)
    ensures LifecyclesFollow(stream + [e], after)
  {
    var longer := stream + [e];
    forall i | 0 <= i < |longer| && longer[i].payload.GradeRecorded? ensures LifecycleFollows(longer, after, i) {
      if i < |stream| {
        assert LifecycleFollows(stream, before, i) && longer[i] == stream[i];
        NamedGrow(stream, e, i, stream[i].payload.grade);
      }
    }
  }

  // -------------------------------------------------------------- every stream

  /** The book holds the record of every event of the stream and nothing else, and a grade is replaced exactly when a
      later event names it. */
  ghost predicate StreamStored(stream: seq<Event>, book: Assessments) {
    AllStored(stream, book) && OnlyRecords(stream, book) && LifecyclesFollow(stream, book)
  }

  lemma OtherEventWaits(stream: seq<Event>, book: Assessments, e: Event)
    requires StreamStored(stream, book) && e.payload.ContextRecorded?
    ensures StreamStored(stream + [e], book)
  {
    OnlyRecordsGrow(stream, book, book, e);
    LifecyclesGrow(stream, book, book, e);
    assert forall i :: 0 <= i < |stream| ==> (stream + [e])[i] == stream[i];
  }

  lemma EventIsStored(stream: seq<Event>, st: State, e: Event)
    requires StreamStored(stream, st.book) && Reduce(st, e).Some?
    ensures StreamStored(stream + [e], Reduce(st, e).value.book)
  {
    if e.payload.ContextRecorded? {
      OtherEventWaits(stream, st.book, e);
    } else {
      AssessmentStep(st, e);
      AssessmentRuns.ReduceGrows(st, e);
      BookIsStored(stream, st.book, Reduce(st, e).value.book, e, st.ledger, st.world);
    }
  }

  lemma BookIsStored(
    stream: seq<Event>, before: Assessments, after: Assessments, e: Event, ledger: ArtifactLedger.Ledger, world: World)
    requires StreamStored(stream, before) && Assess(ledger, world, before, e) == Some(after)
    requires AssessmentRuns.BookLater(before, after)
    ensures StreamStored(stream + [e], after)
  {
    OwnRecordStored(ledger, world, before, e);
    OwnRecordOnly(ledger, world, before, e);
    OwnLifecycles(ledger, world, before, e);
    OnlyRecordsGrow(stream, before, after, e);
    LifecyclesGrow(stream, before, after, e);
    forall i | 0 <= i < |stream + [e]| ensures RecordStored((stream + [e])[i], after) {
      if i < |stream| {
        RecordStays(stream[i], before, after);
      }
    }
  }

  ghost predicate ReplayStored(stream: seq<Event>) {
    Replay(stream).Some? ==> StreamStored(stream, Replay(stream).value.book)
  }

  lemma NothingStored()
    ensures ReplayStored([])
  {
  }

  lemma LastIsStored(before: seq<Event>, e: Event)
    requires ReplayStored(before)
    ensures ReplayStored(before + [e])
  {
    if Replay(before + [e]).Some? {
      assert (before + [e])[..|before|] == before;
      EventIsStored(before, Replay(before).value, e);
    }
  }

  lemma {:induction false} ReplayStores(stream: seq<Event>)
    ensures ReplayStored(stream)
    decreases |stream|
  {
    if stream == [] {
      NothingStored();
    } else {
      var before := stream[..|stream| - 1];
      ReplayStores(before);
      LastIsStored(before, stream[|stream| - 1]);
      assert before + [stream[|stream| - 1]] == stream;
    }
  }

  /** On every stream that replays, the stored presentations, attempts, grades and contests are exactly those of the
      stream's events, each with all the fields of its own event however long ago it was; and a grade is replaced
      exactly when a later event of the stream names it as the one it supersedes. */
  lemma RecordsAreTheStreams(stream: seq<Event>)
    requires Replay(stream).Some?
    ensures AllStored(stream, Replay(stream).value.book)
    ensures OnlyRecords(stream, Replay(stream).value.book)
    ensures LifecyclesFollow(stream, Replay(stream).value.book)
  {
    ReplayStores(stream);
  }
}
