/** Whole-run results about the assessment ledger of any stream that replays. */
module AssessmentRuns {
  import opened Domain
  import opened ArtifactLedger
  import opened ArtifactInvariants
  import opened Course
  import opened AssessmentInvariants
  import AL = AssessmentLedger
  import ArtifactRuns

  lemma ReduceKeepsBook(st: State, e: Event, n: int)
    requires LedgerOk(st.ledger) && BookOk(st.book, st.ledger.revisions, n) && 0 <= n && e.sequence == n + 1
    requires Reduce(st, e).Some?
    ensures BookOk(Reduce(st, e).value.book, Reduce(st, e).value.ledger.revisions, n + 1)
  {
    var next := Reduce(st, e).value;
    ArtifactRuns.ReduceKeepsLedger(st, e);
    if e.payload.ContextRecorded? {
      BookWaits(st.book, st.ledger.revisions, n);
    } else {
      AssessKeeps(st.ledger, st.world, st.book, e, n);
      ShownFrame(next.book.presentations, st.ledger, next.ledger);
    }
  }

  lemma BookWaits(book: AL.Assessments, revisions: map<RevisionId, Revision>, n: int)
    requires BookOk(book, revisions, n)
    ensures BookOk(book, revisions, n + 1)
  {
  }

  lemma NothingAssessed()
    ensures BookOk(AL.NO_ASSESSMENTS, map[], 0)
  {
    forall a: AttemptId ensures HasChain(map[], a) {
      assert GradeChain(map[], a, []);
    }
  }

  /** The assessment ledger of every stream that replays is well-formed. */
  lemma {:induction false} ReplayKeepsBook(stream: seq<Event>)
    requires Replay(stream).Some?
    ensures BookOk(Replay(stream).value.book, Replay(stream).value.ledger.revisions, |stream|)
    decreases |stream|
  {
    if stream == [] {
      NothingAssessed();
    } else {
      var before := stream[..|stream| - 1];
      ReplayKeepsBook(before);
      ArtifactRuns.ReplayKeepsLedger(before);
      ReduceKeepsBook(Replay(before).value, stream[|stream| - 1], |before|);
    }
  }

  // ------------------------------------------------------------ grade chains

  lemma ChainOfAttempt(book: AL.Assessments, attempt: AttemptId) returns (chain: seq<GradeId>)
    requires Chains(book.grades) && Judged(book.grades, book.attempts, book.presentations)
    ensures GradeChain(book.grades, attempt, chain)
    ensures AL.ActiveGrades(book.grades, attempt) == if chain == [] then {} else {chain[|chain| - 1]}
    ensures forall i :: 0 <= i < |chain| ==>
      chain[i] in book.grades && attempt in book.attempts &&
      book.grades[chain[i]].session == book.attempts[attempt].session
  {
    assert HasChain(book.grades, attempt);
    chain :| GradeChain(book.grades, attempt, chain);
    ActiveIsLast(book.grades, attempt, chain);
    forall i | 0 <= i < |chain|
      ensures chain[i] in book.grades && attempt in book.attempts
      ensures book.grades[chain[i]].session == book.attempts[attempt].session
    {
      assert chain[i] in chain;
      assert Judges(book.grades[chain[i]], book.attempts, book.presentations);
    }
  }

  /** In every replayed state the grades of an attempt form one supersession chain in its session; they are
      none, or exactly one is active and it is the last. */
  lemma GradesFormOneChain(stream: seq<Event>, attempt: AttemptId) returns (chain: seq<GradeId>)
    requires Replay(stream).Some?
    ensures var book := Replay(stream).value.book;
      && GradeChain(book.grades, attempt, chain)
      && AL.ActiveGrades(book.grades, attempt) == (if chain == [] then {} else {chain[|chain| - 1]})
      && forall i :: 0 <= i < |chain| ==>
        chain[i] in book.grades && attempt in book.attempts &&
        book.grades[chain[i]].session == book.attempts[attempt].session
  {
    ReplayKeepsBook(stream);
    chain := ChainOfAttempt(Replay(stream).value.book, attempt);
  }

  // ------------------------------------------------------ books only grow

  /** Records are never removed or altered, except that an active grade may become replaced. */
  ghost predicate BookLater(before: AL.Assessments, after: AL.Assessments) {
    && (forall p :: p in before.presentations ==>
      p in after.presentations && after.presentations[p] == before.presentations[p])
    && (forall a :: a in before.attempts ==> a in after.attempts && after.attempts[a] == before.attempts[a])
    && (forall g :: g in before.grades ==>
          && g in after.grades && after.grades[g].(lifecycle := before.grades[g].lifecycle) == before.grades[g]
          && (before.grades[g].lifecycle == AL.Replaced ==> after.grades[g].lifecycle == AL.Replaced))
    && before.contests <= after.contests
    && (forall c :: c in before.commands ==> c in after.commands && after.commands[c] == before.commands[c])
  }

  lemma BookLaterJoins(first: AL.Assessments, second: AL.Assessments, third: AL.Assessments)
    requires BookLater(first, second) && BookLater(second, third)
    ensures BookLater(first, third)
  {
    forall g | g in first.grades
      ensures g in third.grades && third.grades[g].(lifecycle := first.grades[g].lifecycle) == first.grades[g]
      ensures first.grades[g].lifecycle == AL.Replaced ==> third.grades[g].lifecycle == AL.Replaced
    {
      assert g in second.grades;
    }
  }

  lemma GradesGrow(book: AL.Assessments, world: World, e: Event)
    requires e.payload.GradeRecorded? && AL.ReduceGrade(world, book, e).Some?
    ensures BookLater(book, AL.ReduceGrade(world, book, e).value)
  {
    RegradedEntries(book.grades, e.payload, AL.GradeOf(e));
  }

  lemma PresentationsGrow(ledger: Ledger, book: AL.Assessments, world: World, e: Event)
    requires e.payload.ItemPresented? && AL.ReducePresented(ledger, world, book, e).Some?
    ensures BookLater(book, AL.ReducePresented(ledger, world, book, e).value)
  {
  }

  lemma AssessGrows(ledger: Ledger, world: World, book: AL.Assessments, e: Event)
    requires AL.Assess(ledger, world, book, e).Some?
    ensures BookLater(book, AL.Assess(ledger, world, book, e).value)
  {
    if e.payload.GradeRecorded? {
      GradesGrow(book, world, e);
    } else if e.payload.ItemPresented? {
      PresentationsGrow(ledger, book, world, e);
    } else if e.payload.AttemptRecorded? || e.payload.GradeContested? {
      AnswersGrow(book, world, e);
    }
  }

  lemma AnswersGrow(book: AL.Assessments, world: World, e: Event)
    ensures e.payload.AttemptRecorded? && AL.ReduceAttempt(world, book, e).Some? ==>
      BookLater(book, AL.ReduceAttempt(world, book, e).value)
    ensures e.payload.GradeContested? && AL.ReduceContest(world, book, e).Some? ==>
      BookLater(book, AL.ReduceContest(world, book, e).value)
  {
  }

  lemma {:induction false} BooksOnlyGrow(stream: seq<Event>, n: nat)
    requires n <= |stream| && Replay(stream).Some?
    ensures Replay(stream[..n]).Some?
    ensures BookLater(Replay(stream[..n]).value.book, Replay(stream).value.book)
    decreases |stream|
  {
    if n == |stream| {
      assert stream[..n] == stream;
    } else {
      var m := |stream| - 1;
      assert stream[..m][..n] == stream[..n];
      BooksOnlyGrow(stream[..m], n);
      ReduceGrows(Replay(stream[..m]).value, stream[m]);
    }
  }

  lemma ReduceGrows(st: State, e: Event)
    requires Reduce(st, e).Some?
    ensures BookLater(st.book, Reduce(st, e).value.book)
  {
    if !e.payload.ContextRecorded? {
      AssessGrows(st.ledger, st.world, st.book, e);
    }
  }

  // ------------------------------------------------- identities and commands

  /** Every presentation, attempt and grade has the identity of a command that is indexed. */
  ghost predicate RecordsIndexed(book: AL.Assessments) {
    && (forall p :: p in book.presentations ==>
      p.PresentationId? && AssessmentEventId(p.session, p.key, PresentCommand) in book.commands)
    && (forall a :: a in book.attempts ==>
      a.AttemptId? && AssessmentEventId(a.session, a.key, AttemptCommand) in book.commands)
    && (forall g :: g in book.grades ==>
      g.GradeId? && AssessmentEventId(g.session, g.key, GradeCommand) in book.commands)
  }

  lemma GradesStayIndexed(world: World, book: AL.Assessments, e: Event)
    requires RecordsIndexed(book) && e.payload.GradeRecorded? && AL.GradeDecodes(e)
    requires AL.ReduceGrade(world, book, e).Some?
    ensures RecordsIndexed(AL.ReduceGrade(world, book, e).value)
  {
    RegradedEntries(book.grades, e.payload, AL.GradeOf(e));
  }

  lemma AssessKeepsIndex(ledger: Ledger, world: World, book: AL.Assessments, e: Event)
    requires RecordsIndexed(book) && AL.Assess(ledger, world, book, e).Some?
    ensures RecordsIndexed(AL.Assess(ledger, world, book, e).value)
  {
    if e.payload.GradeRecorded? {
      GradesStayIndexed(world, book, e);
    }
  }

  /** In every replayed state each assessment record is keyed by a command in the index, so a new command's record
      never meets an old one. */
  lemma {:induction false} ReplayKeepsIndex(stream: seq<Event>)
    requires Replay(stream).Some?
    ensures RecordsIndexed(Replay(stream).value.book)
    decreases |stream|
  {
    if stream != [] {
      var n := |stream| - 1;
      ReplayKeepsIndex(stream[..n]);
      var st := Replay(stream[..n]).value;
      if !stream[n].payload.ContextRecorded? {
        AssessKeepsIndex(st.ledger, st.world, st.book, stream[n]);
      }
    }
  }

  // ----------------------------------------------------- presented revisions

  ghost predicate PresentedIn(st: State, p: Payload, content: Content)
    requires p.ItemPresented?
  {
    && p.presentation in st.book.presentations
    && st.book.presentations[p.presentation].revision == p.shown
    && st.book.presentations[p.presentation].content == content
    && p.shown in st.ledger.revisions
    && st.ledger.revisions[p.shown].status in {Accepted, Superseded}
    && st.ledger.revisions[p.shown].content == content
  }

  ghost predicate WasAccepted(st: State, r: RevisionId, content: Content) {
    r in st.ledger.revisions && st.ledger.revisions[r].status == Accepted && st.ledger.revisions[r].content == content
  }

  lemma PresentingStep(st: State, e: Event)
    requires e.payload.ItemPresented? && Reduce(st, e).Some?
    ensures WasAccepted(st, e.payload.shown, e.payload.fingerprint)
    ensures PresentedIn(Reduce(st, e).value, e.payload, e.payload.fingerprint)
  {
  }

  lemma PresentedLater(before: State, after: State, p: Payload, content: Content)
    requires p.ItemPresented? && PresentedIn(before, p, content)
    requires BookLater(before.book, after.book) && ArtifactRuns.Later(before.ledger, after.ledger)
    ensures PresentedIn(after, p, content)
  {
  }

  lemma PresentedAtOnce(stream: seq<Event>, i: nat)
    requires Replay(stream).Some? && i < |stream| && stream[i].payload.ItemPresented?
    ensures Replay(stream[..i]).Some? && Replay(stream[..i + 1]).Some?
    ensures WasAccepted(Replay(stream[..i]).value, stream[i].payload.shown, stream[i].payload.fingerprint)
    ensures PresentedIn(Replay(stream[..i + 1]).value, stream[i].payload, stream[i].payload.fingerprint)
  {
    ReplayPrefix(stream, i);
    ReplayPrefix(stream, i + 1);
    assert stream[..i + 1][..i] == stream[..i];
    PresentingStep(Replay(stream[..i]).value, stream[i]);
  }

  lemma PresentedEverAfter(stream: seq<Event>, k: nat, p: Payload, content: Content)
    requires Replay(stream).Some? && k <= |stream| && p.ItemPresented?
    requires Replay(stream[..k]).Some? && PresentedIn(Replay(stream[..k]).value, p, content)
    ensures PresentedIn(Replay(stream).value, p, content)
  {
    BooksOnlyGrow(stream, k);
    ArtifactRuns.RunsOnlyAdd(stream, k);
    PresentedLater(Replay(stream[..k]).value, Replay(stream).value, p, content);
  }

  /** Across both ledgers: what an event presents was accepted in the state just before it, and in every later
      state it is accepted or superseded, with the content the presentation stores. */
  lemma PresentedWasAccepted(stream: seq<Event>, i: nat, n: nat)
    requires Replay(stream).Some? && i < n <= |stream| && stream[i].payload.ItemPresented?
    ensures Replay(stream[..i]).Some? && Replay(stream[..n]).Some?
    ensures WasAccepted(Replay(stream[..i]).value, stream[i].payload.shown, stream[i].payload.fingerprint)
    ensures PresentedIn(Replay(stream[..n]).value, stream[i].payload, stream[i].payload.fingerprint)
  {
    ReplayPrefix(stream, n);
    PresentedAtOnce(stream, i);
    assert stream[..n][..i + 1] == stream[..i + 1];
    PresentedEverAfter(stream[..n], i + 1, stream[i].payload, stream[i].payload.fingerprint);
  }
}
