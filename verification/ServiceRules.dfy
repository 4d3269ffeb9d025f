/** Rules that only the services enforce, as properties of every run: one attempt per presentation, one contest
    per grade, one grade per verified run, and free-response regrades only after a contest. */
module ServiceRules {
  import opened Domain
  import opened ArtifactLedger
  import opened ArtifactInvariants
  import opened ArtifactSnapshot
  import opened Course
  import opened EventStore
  import opened Commands
  import opened ServiceProtocol
  import opened AssessmentLedger
  import AI = AssessmentInvariants
  import AssessmentRuns
  import ArtifactRuns

  // ---------------------------------------------------------------- the rules

  ghost predicate OneAttempt(attempts: map<AttemptId, Attempt>) {
    forall a, b :: a in attempts && b in attempts && attempts[a].presentation == attempts[b].presentation ==> a == b
  }

  ghost predicate OneContest(contests: seq<Contest>) {
    forall i, j :: 0 <= i < j < |contests| ==> contests[i].grade != contests[j].grade
  }

  ghost predicate SameRun(g: Grade, h: Grade) {
    g.provenance.Verified? && h.provenance.Verified? && g.provenance.run == h.provenance.run
  }

  ghost predicate OneGradePerRun(grades: map<GradeId, Grade>) {
    forall g, h :: g in grades && h in grades && SameRun(grades[g], grades[h]) ==> g == h
  }

  ghost predicate IsFree(book: Assessments, attempt: AttemptId) {
    && attempt in book.attempts && book.attempts[attempt].presentation in book.presentations
    && book.presentations[book.attempts[attempt].presentation].content.AssessmentItem?
    && book.presentations[book.attempts[attempt].presentation].content.item.format == FreeResponseFormat
  }

  ghost predicate ContestedBy(contests: seq<Contest>, g: GradeId, time: int) {
    exists i :: 0 <= i < |contests| && contests[i].grade == g && contests[i].sequence < time
  }

  /** A free-response grade that supersedes another was recorded after that other was contested. */
  ghost predicate RegradesContested(book: Assessments) {
    forall g :: g in book.grades && book.grades[g].supersedes.Some? && IsFree(book, book.grades[g].attempt) ==>
      ContestedBy(book.contests, book.grades[g].supersedes.value, book.grades[g].sequence)
  }

  ghost predicate BookRules(book: Assessments) {
    OneAttempt(book.attempts) && OneContest(book.contests) && OneGradePerRun(book.grades) && RegradesContested(book)
  }

  /** What a service has checked, on the state it commits to, about the event it commits. */
  ghost predicate EventRule(book: Assessments, p: Payload) {
    match p
    case AttemptRecorded(_, of, _, _, _) => forall a :: a in book.attempts ==> book.attempts[a].presentation != of
    case GradeContested(g, _, _) => !HasContest(book.contests, g)
    case GradeRecorded(_, attempt, _, _, _, grading, predecessor, _) =>
      if IsFree(book, attempt)
      then grading.Verified? && !RunUsed(book, grading.run) &&
        (predecessor.Some? ==> HasContest(book.contests, predecessor.value))
      else grading.Deterministic?
    case _ => true
  }

  // -------------------------------------------------- a commit obeys the rules

  lemma RulesComeFirst(c: Command, n: nat)
    requires n < |Program(c)| && Program(c)[n] == TryAppend
    ensures Draft in Program(c)[..n]
    ensures c.GradeExact? || c.GradeVerified? ==> CheckRules in Program(c)[..n]
  {
    match c
    case GradeExact(_, _, _, _) =>
      assert Program(c)[..n][2] == Draft && Program(c)[..n][4] == CheckRules;
    case GradeVerified(_, _, _, _) =>
      assert Program(c)[..n][2] == Draft && Program(c)[..n][4] == CheckRules;
    case DecideAsService(_, _, _, _) => assert Program(c)[..n][6] == Draft;
    case RecordHuman(_, _, _, _, _, _, _) => assert Program(c)[..n][2] == Draft;
    case _ => assert Program(c)[..n][3] == Draft;
  }

  lemma DraftObeys(c: Command, st: State, receipt: Option<Receipt>, draft: Payload)
    requires Drafted(c, st, receipt, draft)
    requires c.GradeExact? || c.GradeVerified? ==> exists listing :: GradeRules(c, View(st, listing))
    ensures EventRule(st.book, draft)
  {
    var listing :| Lists(listing, st.ledger.revisions) && DraftFor(c, View(st, listing), receipt) == Some(draft);
  }

  lemma CommitObeys(store: Store, next: Store, c: Client)
    requires ClientOk(store, c) && c.Running? && Commits(store, next, c) && Program(c.command)[c.pc] == TryAppend
    ensures EventRule(store.state.book, c.local.draft.value)
  {
    RulesComeFirst(c.command, c.pc);
    PassedOf(store, c, Draft);
    if c.command.GradeExact? || c.command.GradeVerified? {
      PassedOf(store, c, CheckRules);
    }
    DraftObeys(c.command, store.state, c.local.receipt, c.local.draft.value);
  }

  // ------------------------------------------- the rules are kept by each event

  lemma AttemptKeepsRules(book: Assessments, id: AttemptId, a: Attempt)
    requires BookRules(book) && AI.Judged(book.grades, book.attempts, book.presentations) && id !in book.attempts
    requires forall b :: b in book.attempts ==> book.attempts[b].presentation != a.presentation
    ensures BookRules(book.(attempts := book.attempts[id := a]))
  {
    var next := book.(attempts := book.attempts[id := a]);
    forall g | g in next.grades && next.grades[g].supersedes.Some? && IsFree(next, next.grades[g].attempt)
      ensures ContestedBy(next.contests, next.grades[g].supersedes.value, next.grades[g].sequence)
    {
      assert AI.Judges(book.grades[g], book.attempts, book.presentations);
    }
  }

  lemma PresentationKeepsRules(book: Assessments, id: PresentationId, p: Presentation)
    requires BookRules(book) && AI.Judged(book.grades, book.attempts, book.presentations) && id !in book.presentations
    ensures BookRules(book.(presentations := book.presentations[id := p]))
  {
    var next := book.(presentations := book.presentations[id := p]);
    forall g | g in next.grades && next.grades[g].supersedes.Some? && IsFree(next, next.grades[g].attempt)
      ensures ContestedBy(next.contests, next.grades[g].supersedes.value, next.grades[g].sequence)
    {
      assert AI.Judges(book.grades[g], book.attempts, book.presentations);
    }
  }

  lemma ContestKeepsRules(book: Assessments, c: Contest)
    requires BookRules(book) && !HasContest(book.contests, c.grade)
    ensures BookRules(book.(contests := book.contests + [c]))
  {
    var next := book.(contests := book.contests + [c]);
    forall g | g in next.grades && next.grades[g].supersedes.Some? && IsFree(next, next.grades[g].attempt)
      ensures ContestedBy(next.contests, next.grades[g].supersedes.value, next.grades[g].sequence)
    {
      assert IsFree(book, book.grades[g].attempt);
      var i :| 0 <= i < |book.contests| && book.contests[i].grade == book.grades[g].supersedes.value &&
        book.contests[i].sequence < book.grades[g].sequence;
      assert next.contests[i] == book.contests[i];
    }
  }

  lemma RunsStayApart(grades: map<GradeId, Grade>, p: Payload, grade: Grade)
    requires p.GradeRecorded? && AI.GradeStep(grades, p, grade) && OneGradePerRun(grades)
    requires forall g :: g in grades ==> !SameRun(grades[g], grade)
    ensures OneGradePerRun(Regraded(grades, p, grade))
  {
    AI.RegradedEntries(grades, p, grade);
    var later := Regraded(grades, p, grade);
    forall g, h | g in later && h in later && SameRun(later[g], later[h]) ensures g == h {
      if g in grades && h in grades { assert SameRun(grades[g], grades[h]); }
    }
  }

  lemma RegradeStaysContested(book: Assessments, p: Payload, grade: Grade, n: int)
    requires p.GradeRecorded? && AI.GradeStep(book.grades, p, grade) && RegradesContested(book)
    requires AI.Timed(book.grades, book.contests, n) && grade.sequence == n + 1
    requires IsFree(book, p.graded) && p.predecessor.Some? ==> HasContest(book.contests, p.predecessor.value)
    ensures RegradesContested(book.(grades := Regraded(book.grades, p, grade)))
  {
    AI.RegradedEntries(book.grades, p, grade);
    var next := book.(grades := Regraded(book.grades, p, grade));
    forall g | g in next.grades && next.grades[g].supersedes.Some? && IsFree(next, next.grades[g].attempt)
      ensures ContestedBy(next.contests, next.grades[g].supersedes.value, next.grades[g].sequence)
    {
      assert IsFree(book, next.grades[g].attempt);
      if g == p.grade {
        var i :| 0 <= i < |book.contests| && book.contests[i].grade == p.predecessor.value;
        assert book.contests[i].sequence < grade.sequence;
      } else {
        assert ContestedBy(book.contests, book.grades[g].supersedes.value, book.grades[g].sequence);
      }
    }
  }

  lemma GradeKeepsRules(book: Assessments, world: World, e: Event, n: int)
    requires e.payload.GradeRecorded? && ReduceGrade(world, book, e).Some? && BookRules(book)
    requires EventRule(book, e.payload)
    requires AI.Timed(book.grades, book.contests, n) && e.sequence == n + 1
    ensures BookRules(ReduceGrade(world, book, e).value)
  {
    RunsStayApart(book.grades, e.payload, GradeOf(e));
    RegradeStaysContested(book, e.payload, GradeOf(e), n);
  }

  /** An event that obeys its service rule keeps the rules of the book. */
  lemma AssessKeepsRules(ledger: Ledger, world: World, book: Assessments, e: Event, n: int)
    requires AI.BookOk(book, ledger.revisions, n) && BookRules(book) && EventRule(book, e.payload)
    requires e.sequence == n + 1
    requires Assess(ledger, world, book, e).Some?
    ensures BookRules(Assess(ledger, world, book, e).value)
  {
    var p := e.payload;
    match p
    case ItemPresented(_, _, _, _, _, _, _) =>
      PresentationKeepsRules(book, p.presentation, Presentation(e.session, p.shown, ledger.revisions[p.shown].content));
    case AttemptRecorded(_, _, _, _, _) =>
      AttemptKeepsRules(book, p.attempt, Attempt(e.session, p.of, p.response, p.latency));
    case GradeRecorded(_, _, _, _, _, _, _, _) => GradeKeepsRules(book, world, e, n);
    case GradeContested(_, _, _) => ContestKeepsRules(book, Contest(p.contested, e.session, p.reason, e.sequence));
    case _ =>
  }

  lemma StoreFacts(store: Store)
    requires Consistent(store)
    ensures LedgerOk(store.state.ledger)
    ensures AI.BookOk(store.state.book, store.state.ledger.revisions, |store.stream|)
  {
    ArtifactRuns.ReplayKeepsLedger(store.stream);
    AssessmentRuns.ReplayKeepsBook(store.stream);
  }

  lemma RunsKeepLedger(run: seq<System>, n: nat)
    requires IsRun(run) && n < |run|
    ensures LedgerOk(run[n].store.state.ledger)
  {
    RunsKeep(run, n);
    StoreFacts(run[n].store);
  }

  lemma AppendKeepsRules(store: Store, e: Event)
    requires Consistent(store) && BookRules(store.state.book) && EventRule(store.state.book, e.payload)
    requires Append(store, |store.stream|, e).Committed?
    ensures BookRules(Append(store, |store.stream|, e).store.state.book)
  {
    StoreFacts(store);
    ReduceKeepsRules(store.state, e, |store.stream|);
  }

  lemma ReduceKeepsRules(st: State, e: Event, n: int)
    requires AI.BookOk(st.book, st.ledger.revisions, n) && BookRules(st.book) && EventRule(st.book, e.payload)
    requires e.sequence == n + 1
    requires Reduce(st, e).Some?
    ensures BookRules(Reduce(st, e).value.book)
  {
    if !e.payload.ContextRecorded? {
      AssessKeepsRules(st.ledger, st.world, st.book, e, n);
    }
  }

  lemma StepKeepsRules(s: System, client: nat, listing: seq<Entry>)
    requires SystemOk(s) && BookRules(s.store.state.book) && Enabled(s, Step(client, listing))
    ensures BookRules(Moved(s, Step(client, listing)).store.state.book)
  {
    var c, t := s.clients[client], Moved(s, Step(client, listing));
    assert ClientOk(s.store, c);
    if Program(c.command)[c.pc] == TryAppend {
      AppendStep(s.store, c, listing);
      if t.store != s.store {
        CommitObeys(s.store, t.store, c);
        AppendKeepsRules(s.store, EventFor(c.command, c.local.draft.value, c.expected));
      }
    }
  }

  lemma MoveKeepsRules(s: System, m: Move)
    requires SystemOk(s) && BookRules(s.store.state.book) && Enabled(s, m)
    ensures BookRules(Moved(s, m).store.state.book)
  {
    match m
    case Start(_, _, _) =>
    case Step(client, listing) => StepKeepsRules(s, client, listing);
    case Context(event) => AppendKeepsRules(s.store, event);
  }

  lemma FollowsKeepsRules(s: System, t: System)
    requires SystemOk(s) && BookRules(s.store.state.book) && Follows(s, t)
    ensures BookRules(t.store.state.book)
  {
    var m :| Enabled(s, m) && Moved(s, m) == t;
    MoveKeepsRules(s, m);
  }

  /** In every state of every run of the services: one attempt per presentation, one contest per grade, one grade
      per verified run, and every superseded free-response grade contested before it was superseded. */
  lemma {:induction false} ServicesKeepTheRules(run: seq<System>, n: nat)
    requires IsRun(run) && n < |run|
    ensures BookRules(run[n].store.state.book)
  {
    if n > 0 {
      ServicesKeepTheRules(run, n - 1);
      RunsKeep(run, n - 1);
      assert StepAt(run, n);
      FollowsKeepsRules(run[n - 1], run[n]);
    }
  }

  // --------------------------------------------------------- decisions commit

  lemma DecisionProgram(c: Command, n: nat)
    requires (c.DecideAsHuman? || c.DecideAsService?) && n < |Program(c)| && Program(c)[n] == TryAppend
    ensures Identify in Program(c)[..n] && Draft in Program(c)[..n]
    ensures c.DecideAsService? ==> Consult in Program(c)[..n]
  {
    var passed := Program(c)[..n];
    assert passed[0] == Identify;
    if c.DecideAsHuman? {
      assert passed[3] == Draft;
    } else {
      assert passed[3] == Consult && passed[6] == Draft;
    }
  }

  lemma PassedOf(store: Store, c: Client, action: Action)
    requires c.Running? && c.pc < |Program(c.command)| && Facts(store, c) && action in Program(c.command)[..c.pc]
    ensures Passed(store, c.command, c.local, action)
  {
    var passed := Program(c.command)[..c.pc];
    var k :| 0 <= k < |passed| && passed[k] == action;
  }

  lemma DecisionFacts(store: Store, c: Client)
    requires Logged(store) && ClientOk(store, c) && c.Running? && Program(c.command)[c.pc] == TryAppend
    requires |store.stream| == c.expected
    requires c.command.DecideAsHuman? || c.command.DecideAsService?
    ensures c.local.draft.Some? && Drafted(c.command, store.state, c.local.receipt, c.local.draft.value)
    ensures CommandFor(store.state, IdOf(c.command)).None?
    ensures c.command.DecideAsService? ==>
      c.local.receipt.Some? && PolicyAnswered(c.command, store.state, c.local.receipt.value)
  {
    DecisionProgram(c.command, c.pc);
    PassedOf(store, c, Draft);
    PassedOf(store, c, Identify);
    IndexedIffCommitted(store, IdOf(c.command));
    if c.command.DecideAsService? {
      PassedOf(store, c, Consult);
    }
  }

  /** The target lookup of a view answers what the ledger says. */
  lemma TargetIsExact(session: SessionId, revision: RevisionId, st: State, listing: seq<Entry>)
    requires Lineages(st.ledger.artifacts, st.ledger.revisions) && OneAccepted(st.ledger.revisions)
    requires Lists(listing, st.ledger.revisions) && DecisionTarget(session, revision, View(st, listing)).Some?
    ensures revision in st.ledger.revisions
    ensures var r := st.ledger.revisions[revision];
      && r.status == Proposed && r.batch in st.ledger.batches && st.ledger.batches[r.batch].session == session
      && CurrentAccepted(st.ledger, r.artifact) == DecisionTarget(session, revision, View(st, listing))
  {
    SnapshotAgreesWith(st.ledger, listing, st.ledger.revisions[revision].artifact);
  }

  /** What a decision draft and its receipt say, read against the ledger they were made from. */
  ghost predicate Ruled(c: Command, st: State, receipt: Option<Receipt>, draft: Payload)
    requires c.DecideAsHuman? || c.DecideAsService?
  {
    && draft.Decision? && draft.revision == c.revision && draft.key == c.key
    && draft.receipt == (if c.DecideAsService? then receipt else None)
    && (draft.receipt.Some? ==>
      draft.verdict == draft.receipt.value.verdict && draft.supersedes == draft.receipt.value.supersedes)
    && c.revision in st.ledger.revisions
    && var r := st.ledger.revisions[c.revision];
    && r.status == Proposed && r.batch in st.ledger.batches && st.ledger.batches[r.batch].session == c.session
    && CurrentAccepted(st.ledger, r.artifact).Some?
    && draft.supersedes == if draft.verdict == Accept then CurrentAccepted(st.ledger, r.artifact).value else None
  }

  /** A decision draft, in terms of the target lookup it was made from. */
  ghost predicate DraftedFrom(c: Command, target: Option<Option<RevisionId>>, receipt: Option<Receipt>, draft: Payload)
    requires c.DecideAsHuman? || c.DecideAsService?
  {
    && draft.Decision? && draft.revision == c.revision && draft.key == c.key
    && draft.receipt == (if c.DecideAsService? then receipt else None)
    && (draft.receipt.Some? ==>
      draft.verdict == draft.receipt.value.verdict && draft.supersedes == draft.receipt.value.supersedes)
    && target.Some? && draft.supersedes == if draft.verdict == Accept then target.value else None
  }

  lemma DraftedTarget(c: Command, st: State, receipt: Option<Receipt>, draft: Payload) returns (listing: seq<Entry>)
    requires (c.DecideAsHuman? || c.DecideAsService?) && Drafted(c, st, receipt, draft)
    ensures Lists(listing, st.ledger.revisions)
    ensures DraftedFrom(c, DecisionTarget(c.session, c.revision, View(st, listing)), receipt, draft)
  {
    listing :| Lists(listing, st.ledger.revisions) && DraftFor(c, View(st, listing), receipt) == Some(draft);
  }

  lemma DecisionDraft(c: Command, st: State, receipt: Option<Receipt>, draft: Payload)
    requires Lineages(st.ledger.artifacts, st.ledger.revisions) && OneAccepted(st.ledger.revisions)
    requires (c.DecideAsHuman? || c.DecideAsService?) && Drafted(c, st, receipt, draft)
    ensures Ruled(c, st, receipt, draft)
  {
    var listing := DraftedTarget(c, st, receipt, draft);
    TargetIsExact(c.session, c.revision, st, listing);
  }

  ghost predicate Binds(c: Command, st: State, receipt: Receipt, current: Option<RevisionId>)
    requires c.DecideAsService? && c.revision in st.ledger.revisions
  {
    && receipt.requestId == IdOf(c)
    && receipt.result == ResultOf(Request(IdOf(c), c.session, c.revision, st.ledger.revisions[c.revision].kind,
      current), receipt.verdict, receipt.supersedes)
  }

  lemma AnsweredTarget(c: Command, st: State, receipt: Receipt) returns (listing: seq<Entry>)
    requires c.DecideAsService? && PolicyAnswered(c, st, receipt)
    ensures Lists(listing, st.ledger.revisions) && c.revision in st.ledger.revisions
    ensures var target := DecisionTarget(c.session, c.revision, View(st, listing));
      target.Some? && Binds(c, st, receipt, target.value)
  {
    listing :| Lists(listing, st.ledger.revisions) && Consulted(c, View(st, listing)) == Some(receipt);
  }

  lemma AnswerIsBound(c: Command, st: State, receipt: Receipt, current: Option<RevisionId>)
    requires Lineages(st.ledger.artifacts, st.ledger.revisions) && OneAccepted(st.ledger.revisions)
    requires c.DecideAsService? && PolicyAnswered(c, st, receipt) && c.revision in st.ledger.revisions
    requires CurrentAccepted(st.ledger, st.ledger.revisions[c.revision].artifact) == Some(current)
    ensures Binds(c, st, receipt, current)
  {
    var listing := AnsweredTarget(c, st, receipt);
    TargetIsExact(c.session, c.revision, st, listing);
  }

  lemma DecisionReduces(st: State, e: Event, current: Option<RevisionId>)
    requires e.payload.Decision? && DecisionDecodes(e) && DecisionOpens(st.ledger, st.world, e)
    requires CurrentAccepted(st.ledger, st.ledger.revisions[e.payload.revision].artifact) == Some(current)
    requires e.payload.receipt.Some? ==> ReceiptBound(e, st.ledger.revisions[e.payload.revision], current)
    requires e.payload.supersedes == if e.payload.verdict == Accept then current else None
    ensures Reduce(st, e).Some?
  {
  }

  /** The receipt answers the request posed by the accepted predecessor in the state `st`. */
  ghost predicate BoundTo(st: State, e: Event) {
    && e.payload.Decision? && e.payload.receipt.Some? && e.payload.revision in st.ledger.revisions
    && var target := st.ledger.revisions[e.payload.revision];
    && CurrentAccepted(st.ledger, target.artifact).Some?
    && ReceiptBound(e, target, CurrentAccepted(st.ledger, target.artifact).value)
  }

  lemma DecisionEvent(c: Command, st: State, receipt: Option<Receipt>, draft: Payload, expected: nat)
    requires LedgerOk(st.ledger) && (c.DecideAsHuman? || c.DecideAsService?) && Drafted(c, st, receipt, draft)
    requires c.DecideAsService? ==> receipt.Some? && PolicyAnswered(c, st, receipt.value)
    requires CommandFor(st, IdOf(c)).None? && c.session in st.world.sessions && 1 <= expected
    ensures Reduce(st, EventFor(c, draft, expected)).Some?
    ensures c.DecideAsService? ==> BoundTo(st, EventFor(c, draft, expected))
  {
    DecisionDraft(c, st, receipt, draft);
    var current := CurrentAccepted(st.ledger, st.ledger.revisions[c.revision].artifact).value;
    if c.DecideAsService? {
      AnswerIsBound(c, st, receipt.value, current);
    }
    RuledReduces(c, st, receipt, draft, expected, current);
  }

  lemma RuledReduces(
    c: Command, st: State, receipt: Option<Receipt>, draft: Payload, expected: nat, current: Option<RevisionId>)
    requires (c.DecideAsHuman? || c.DecideAsService?) && Ruled(c, st, receipt, draft)
    requires CurrentAccepted(st.ledger, st.ledger.revisions[c.revision].artifact) == Some(current)
    requires c.DecideAsService? ==> receipt.Some? && Binds(c, st, receipt.value, current)
    requires CommandFor(st, IdOf(c)).None? && c.session in st.world.sessions && 1 <= expected
    ensures Reduce(st, EventFor(c, draft, expected)).Some?
    ensures c.DecideAsService? ==> BoundTo(st, EventFor(c, draft, expected))
  {
    DecisionReduces(st, EventFor(c, draft, expected), current);
  }

  lemma DecisionCommits(store: Store, c: Client)
    requires Consistent(store) && Logged(store) && ClientOk(store, c) && c.Running?
    requires Program(c.command)[c.pc] == TryAppend
    requires |store.stream| == c.expected && c.command.session in store.state.world.sessions
    requires c.command.DecideAsHuman? || c.command.DecideAsService?
    ensures c.local.draft.Some?
    ensures var e := EventFor(c.command, c.local.draft.value, c.expected);
      && Append(store, c.expected, e).Committed?
      && (c.command.DecideAsService? ==> BoundTo(store.state, e))
  {
    DecisionFacts(store, c);
    DecisionLands(store, c.command, c.local.receipt, c.local.draft.value, c.expected);
  }

  lemma DecisionLands(store: Store, c: Command, receipt: Option<Receipt>, draft: Payload, expected: nat)
    requires Consistent(store) && |store.stream| == expected && 1 <= expected
    requires (c.DecideAsHuman? || c.DecideAsService?) && Drafted(c, store.state, receipt, draft)
    requires c.DecideAsService? ==> receipt.Some? && PolicyAnswered(c, store.state, receipt.value)
    requires CommandFor(store.state, IdOf(c)).None? && c.session in store.state.world.sessions
    ensures Append(store, expected, EventFor(c, draft, expected)).Committed?
    ensures c.DecideAsService? ==> BoundTo(store.state, EventFor(c, draft, expected))
  {
    StoreFacts(store);
    DecisionEvent(c, store.state, receipt, draft, expected);
  }

  /** In every run, a decision that reaches its append before the stream moves is never vetoed, and a service
      decision then carries a receipt bound to the accepted predecessor in the state it commits to: neither the
      second read nor the skipped length check can separate them. */
  lemma ServiceDecisionsAreBound(run: seq<System>, n: nat, client: nat)
    requires IsRun(run) && n < |run| && client in run[n].clients
    requires var s, c := run[n], run[n].clients[client];
      && c.Running? && c.pc < |Program(c.command)| && Program(c.command)[c.pc] == TryAppend &&
        |s.store.stream| == c.expected
      && c.command.session in s.store.state.world.sessions && (c.command.DecideAsHuman? || c.command.DecideAsService?)
    ensures var s, c := run[n], run[n].clients[client];
      && c.local.draft.Some?
      && var e := EventFor(c.command, c.local.draft.value, c.expected);
      && Append(s.store, c.expected, e).Committed?
      && (c.command.DecideAsService? ==> BoundTo(s.store.state, e))
  {
    RunsKeep(run, n);
    DecisionCommits(run[n].store, run[n].clients[client]);
  }

  /** On every replayed stream, a committed service decision is bound to the state just before it. */
  lemma CommittedReceiptsAreBound(stream: seq<Event>, i: nat)
    requires Replay(stream).Some? && i < |stream| && stream[i].payload.Decision? && stream[i].payload.receipt.Some?
    ensures Replay(stream[..i]).Some? && BoundTo(Replay(stream[..i]).value, stream[i])
  {
    ReplayPrefix(stream, i);
    ReplayPrefix(stream, i + 1);
    assert stream[..i + 1][..i] == stream[..i];
    ReducedReceiptIsBound(Replay(stream[..i]).value, stream[i]);
  }

  lemma ReducedReceiptIsBound(st: State, e: Event)
    requires e.payload.Decision? && e.payload.receipt.Some? && Reduce(st, e).Some?
    ensures BoundTo(st, e)
  {
  }

  // ------------------------------------------------------------ grading retries

  /** A grading command builds the same payload from any later book: what it reads never changes. */
  lemma GradeDraftPersists(c: Command, before: View, after: View)
    requires c.GradeExact? || c.GradeVerified?
    requires DraftFor(c, before, None).Some? && AssessmentRuns.BookLater(before.state.book, after.state.book)
    ensures DraftFor(c, after, None) == DraftFor(c, before, None)
  {
  }

  /** A retry of a committed grading command rebuilds the committed payload and is recognised by it. */
  lemma GradingRetryIsRecognised(store: Store, c: Command, at: nat, seen: seq<Entry>, listing: seq<Entry>)
    requires Consistent(store) && Logged(store) && (c.GradeExact? || c.GradeVerified?)
    requires at < |store.stream| && store.stream[at].id == IdOf(c) && Replay(store.stream[..at]).Some?
    requires DraftFor(c, View(Replay(store.stream[..at]).value, seen), None) == Some(store.stream[at].payload)
    ensures var draft := DraftFor(c, View(store.state, listing), None);
      draft == Some(store.stream[at].payload) && IdentityOf(store, c, draft) == Same
  {
    AssessmentRuns.BooksOnlyGrow(store.stream, at);
    GradeDraftPersists(c, View(Replay(store.stream[..at]).value, seen), View(store.state, listing));
    OneOccurrence(store.stream, IdOf(c), at);
  }

  /** On every replayed stream a committed contest is listed in the book. */
  lemma CommittedContestIsListed(stream: seq<Event>, i: nat)
    requires Replay(stream).Some? && i < |stream| && stream[i].payload.GradeContested?
    ensures HasContest(Replay(stream).value.book.contests, stream[i].payload.contested)
  {
    ReplayPrefix(stream, i + 1);
    ReplayPrefix(stream, i);
    assert stream[..i + 1][..i] == stream[..i];
    ContestIsAdded(Replay(stream[..i]).value, stream[i]);
    AssessmentRuns.BooksOnlyGrow(stream, i + 1);
    ContestStays(Replay(stream[..i + 1]).value.book.contests, Replay(stream).value.book.contests,
      stream[i].payload.contested);
  }

  lemma ContestIsAdded(st: State, e: Event)
    requires e.payload.GradeContested? && Reduce(st, e).Some?
    ensures HasContest(Reduce(st, e).value.book.contests, e.payload.contested)
  {
    var later := Reduce(st, e).value.book.contests;
    assert later[|st.book.contests|].grade == e.payload.contested;
  }

  lemma ContestStays(before: seq<Contest>, after: seq<Contest>, g: GradeId)
    requires HasContest(before, g) && before <= after
    ensures HasContest(after, g)
  {
    var i :| 0 <= i < |before| && before[i].grade == g;
    assert after[i] == before[i];
  }

  /** The retry of a contest that is in the stream finds exactly the one contest it made, so the lookup behind its
      result never fails. */
  lemma RetriedContestIsFound(run: seq<System>, n: nat, session: SessionId, key: Key, grade: GradeId, reason: string)
    requires IsRun(run) && n < |run| && Fulfilled(run[n].store, ContestGrade(session, key, grade, reason))
    ensures var contests := run[n].store.state.book.contests;
      exists i :: 0 <= i < |contests| && contests[i].grade == grade
                  && forall j :: 0 <= j < |contests| && contests[j].grade == grade ==> j == i
  {
    var store, c := run[n].store, ContestGrade(session, key, grade, reason);
    RunsKeep(run, n);
    var k :| 0 <= k < |store.stream| && store.stream[k].id == IdOf(c) &&
      Fulfils(c, store.stream[k].payload, store.state.book);
    CommittedContestIsListed(store.stream, k);
    ServicesKeepTheRules(run, n);
    OnlyContest(store.state.book.contests, grade);
  }

  lemma OnlyContest(contests: seq<Contest>, grade: GradeId)
    requires OneContest(contests) && HasContest(contests, grade)
    ensures exists i :: 0 <= i < |contests| && contests[i].grade == grade
              && forall j :: 0 <= j < |contests| && contests[j].grade == grade ==> j == i
  {
    var i :| 0 <= i < |contests| && contests[i].grade == grade;
    assert forall j :: 0 <= j < |contests| && contests[j].grade == grade ==> j == i;
  }
}
