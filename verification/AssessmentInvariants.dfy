/** What every assessment event keeps: presentations that quote their revision, grades that form one supersession
    chain per attempt, and sequences that order grades before their contests. */
module AssessmentInvariants {
  import opened Domain
  import opened ArtifactLedger
  import opened ArtifactLifecycle
  import opened Collections
  import AL = AssessmentLedger

  type Presentations = map<PresentationId, AL.Presentation>
  type Attempts = map<AttemptId, AL.Attempt>
  type Grades = map<GradeId, AL.Grade>

  // ------------------------------------------------------------- invariants

  ghost predicate Quotes(p: AL.Presentation, revisions: map<RevisionId, Revision>) {
    && p.revision in revisions
    && revisions[p.revision].status in {Accepted, Superseded}
    && revisions[p.revision].content == p.content
    && p.content.AssessmentItem? && AL.ItemEncodes(p.content.item)
  }

  /** Every presentation quotes a revision that was accepted and can only have been superseded since. */
  ghost predicate Shown(presentations: Presentations, revisions: map<RevisionId, Revision>) {
    forall p :: p in presentations ==> Quotes(presentations[p], revisions)
  }

  ghost predicate Answers(a: AL.Attempt, presentations: Presentations) {
    && a.presentation in presentations
    && presentations[a.presentation].session == a.session
    && presentations[a.presentation].content.AssessmentItem?
    && AL.ResponseFits(presentations[a.presentation].content.item, a.response)
    && AL.ResponseDecodes(a.response)
  }

  ghost predicate Answered(attempts: Attempts, presentations: Presentations) {
    forall a :: a in attempts ==> Answers(attempts[a], presentations)
  }

  ghost predicate Judges(g: AL.Grade, attempts: Attempts, presentations: Presentations) {
    && g.attempt in attempts
    && attempts[g.attempt].session == g.session
    && ScoreDecodes(g.score)
    && attempts[g.attempt].presentation in presentations
    && presentations[attempts[g.attempt].presentation].content.AssessmentItem?
    && AL.CriteriaOf(g.criteria) == presentations[attempts[g.attempt].presentation].content.item.criteria
  }

  ghost predicate Judged(grades: Grades, attempts: Attempts, presentations: Presentations) {
    forall g :: g in grades ==> Judges(grades[g], attempts, presentations)
  }

  ghost predicate GradeLinked(grades: Grades, chain: seq<GradeId>, i: int)
    requires 0 <= i < |chain|
  {
    && chain[i] in grades
    && grades[chain[i]].supersedes == (if i == 0 then None else Some(chain[i - 1]))
    && grades[chain[i]].lifecycle == (if i == |chain| - 1 then AL.Active else AL.Replaced)
    && (i > 0 ==> chain[i - 1] in grades && grades[chain[i - 1]].sequence < grades[chain[i]].sequence)
  }

  /** `chain` lists the grades of an attempt, each superseding the one before it; only the last is active. */
  ghost predicate GradeChain(grades: Grades, attempt: AttemptId, chain: seq<GradeId>) {
    && (forall g :: g in chain <==> g in grades && grades[g].attempt == attempt)
    && Distinct(chain)
    && forall i :: 0 <= i < |chain| ==> GradeLinked(grades, chain, i)
  }

  ghost predicate HasChain(grades: Grades, attempt: AttemptId) {
    exists chain :: GradeChain(grades, attempt, chain)
  }

  ghost predicate Chains(grades: Grades) {
    forall a: AttemptId :: HasChain(grades, a)
  }

  ghost predicate Contested(c: AL.Contest, grades: Grades) {
    c.grade in grades && c.session == grades[c.grade].session && grades[c.grade].sequence < c.sequence
  }

  /** Each record carries the sequence of its own event. */
  ghost predicate Timed(grades: Grades, contests: seq<AL.Contest>, n: int) {
    && (forall g :: g in grades ==> 1 <= grades[g].sequence <= n)
    && (forall g, h :: g in grades && h in grades && grades[g].sequence == grades[h].sequence ==> g == h)
    && (forall i :: 0 <= i < |contests| ==> contests[i].sequence <= n && Contested(contests[i], grades))
    && (forall i, j :: 0 <= i < j < |contests| ==> contests[i].sequence < contests[j].sequence)
    && (forall i, g :: 0 <= i < |contests| && g in grades ==> contests[i].sequence != grades[g].sequence)
  }

  ghost predicate BookOk(book: AL.Assessments, revisions: map<RevisionId, Revision>, n: int) {
    && Shown(book.presentations, revisions)
    && Answered(book.attempts, book.presentations)
    && Judged(book.grades, book.attempts, book.presentations)
    && Chains(book.grades)
    && Timed(book.grades, book.contests, n)
  }

  // ------------------------------------------------------- one event at a time

  /** Later statuses of an accepted revision keep its presentations true. */
  lemma ShownFrame(presentations: Presentations, before: Ledger, after: Ledger)
    requires Shown(presentations, before.revisions) && Monotone(before, after)
    ensures Shown(presentations, after.revisions)
  {
    forall p | p in presentations ensures Quotes(presentations[p], after.revisions) {
      assert Quotes(presentations[p], before.revisions);
    }
  }

  lemma PresentationKeeps(
    book: AL.Assessments, revisions: map<RevisionId, Revision>, id: PresentationId, p: AL.Presentation, n: int)
    requires BookOk(book, revisions, n) && id !in book.presentations && Quotes(p, revisions)
    ensures BookOk(book.(presentations := book.presentations[id := p]), revisions, n + 1)
  {
    var later := book.presentations[id := p];
    forall a | a in book.attempts ensures Answers(book.attempts[a], later) {
      assert Answers(book.attempts[a], book.presentations);
    }
    forall g | g in book.grades ensures Judges(book.grades[g], book.attempts, later) {
      assert Judges(book.grades[g], book.attempts, book.presentations);
    }
  }

  lemma AttemptKeeps(book: AL.Assessments, revisions: map<RevisionId, Revision>, id: AttemptId, a: AL.Attempt, n: int)
    requires BookOk(book, revisions, n) && id !in book.attempts && Answers(a, book.presentations)
    ensures BookOk(book.(attempts := book.attempts[id := a]), revisions, n + 1)
  {
    forall g | g in book.grades ensures Judges(book.grades[g], book.attempts[id := a], book.presentations) {
      assert Judges(book.grades[g], book.attempts, book.presentations);
    }
  }

  /** The active grades of a chain are its last entry. */
  lemma ActiveIsLast(grades: Grades, attempt: AttemptId, chain: seq<GradeId>)
    requires GradeChain(grades, attempt, chain)
    ensures AL.ActiveGrades(grades, attempt) == if chain == [] then {} else {chain[|chain| - 1]}
  {
    var active := AL.ActiveGrades(grades, attempt);
    if chain != [] {
      var last := |chain| - 1;
      assert GradeLinked(grades, chain, last);
      assert chain[last] in chain;
      forall g | g in active ensures g == chain[last] {
        var i :| 0 <= i < |chain| && chain[i] == g;
        assert GradeLinked(grades, chain, i);
      }
    }
  }

  /** What a grade event does to the grades: the predecessor, if any, is the active grade and becomes replaced. */
  ghost predicate GradeStep(grades: Grades, p: Payload, grade: AL.Grade)
    requires p.GradeRecorded?
  {
    && p.grade !in grades
    && grade.attempt == p.graded && grade.lifecycle == AL.Active && grade.supersedes == p.predecessor
    && AL.ActiveGrades(grades, p.graded) == (match p.predecessor case None => {} case Some(g) => {g})
  }

  lemma RegradedEntries(grades: Grades, p: Payload, grade: AL.Grade)
    requires p.GradeRecorded? && GradeStep(grades, p, grade)
    ensures var later := AL.Regraded(grades, p, grade);
      && later.Keys == grades.Keys + {p.grade} && later[p.grade] == grade
      && (p.predecessor.Some? ==> p.predecessor.value in grades && grades[p.predecessor.value].attempt == p.graded)
      && forall g :: g in grades ==>
        later[g] == if p.predecessor == Some(g) then grades[g].(lifecycle := AL.Replaced) else grades[g]
  {
    if p.predecessor.Some? {
      assert p.predecessor.value in AL.ActiveGrades(grades, p.graded);
    }
  }

  lemma PredecessorIsLast(grades: Grades, p: Payload, grade: AL.Grade, chain: seq<GradeId>)
    requires p.GradeRecorded? && GradeStep(grades, p, grade) && GradeChain(grades, p.graded, chain)
    ensures p.predecessor == if chain == [] then None else Some(chain[|chain| - 1])
  {
    ActiveIsLast(grades, p.graded, chain);
    if chain != [] {
      assert chain[|chain| - 1] in AL.ActiveGrades(grades, p.graded);
    }
  }

  /** Appending a grade that supersedes the last one links a longer chain. */
  lemma LinksGrow(grades: Grades, later: Grades, chain: seq<GradeId>, id: GradeId, i: int)
    requires 0 <= i <= |chain| && (forall k :: 0 <= k < |chain| ==> GradeLinked(grades, chain, k))
    requires forall g :: g in grades ==>
      g in later && later[g] == if chain != [] &&
        g == chain[|chain| - 1] then grades[g].(lifecycle := AL.Replaced) else grades[g]
    requires Distinct(chain) && id in later && later[id].lifecycle == AL.Active
    requires later[id].supersedes == if chain == [] then None else Some(chain[|chain| - 1])
    requires forall g :: g in grades ==> grades[g].sequence < later[id].sequence
    ensures GradeLinked(later, chain + [id], i)
  {
    var longer := chain + [id];
    if i < |chain| {
      assert GradeLinked(grades, chain, i);
      assert longer[i] == chain[i] && (i > 0 ==> longer[i - 1] == chain[i - 1]);
    } else if i > 0 {
      assert GradeLinked(grades, chain, i - 1);
      assert longer[i] == id && longer[i - 1] == chain[i - 1];
    }
  }

  lemma MembersGrow(grades: Grades, later: Grades, attempt: AttemptId, chain: seq<GradeId>, id: GradeId)
    requires (forall g :: g in chain <==> g in grades && grades[g].attempt == attempt) && Distinct(chain)
    requires id !in grades && later.Keys == grades.Keys + {id} && later[id].attempt == attempt
    requires forall g :: g in grades ==> later[g].attempt == grades[g].attempt
    ensures forall g :: g in chain + [id] <==> g in later && later[g].attempt == attempt
    ensures Distinct(chain + [id])
  {
    assert id !in chain;
    DistinctSnoc(chain, id);
    assert forall g :: g in chain + [id] <==> g in chain || g == id;
  }

  lemma OwnChainGrows(grades: Grades, p: Payload, grade: AL.Grade, chain: seq<GradeId>)
    requires p.GradeRecorded? && GradeStep(grades, p, grade) && GradeChain(grades, p.graded, chain)
    requires forall g :: g in grades ==> grades[g].sequence < grade.sequence
    ensures GradeChain(AL.Regraded(grades, p, grade), p.graded, chain + [p.grade])
  {
    var later, longer := AL.Regraded(grades, p, grade), chain + [p.grade];
    RegradedEntries(grades, p, grade);
    PredecessorIsLast(grades, p, grade, chain);
    MembersGrow(grades, later, p.graded, chain, p.grade);
    forall i | 0 <= i < |longer| ensures GradeLinked(later, longer, i) {
      LinksGrow(grades, later, chain, p.grade, i);
    }
  }

  lemma OtherChainStays(grades: Grades, p: Payload, grade: AL.Grade, attempt: AttemptId, chain: seq<GradeId>)
    requires p.GradeRecorded? && GradeStep(grades, p, grade) && GradeChain(grades, attempt, chain)
    requires attempt != p.graded
    ensures GradeChain(AL.Regraded(grades, p, grade), attempt, chain)
  {
    var later := AL.Regraded(grades, p, grade);
    RegradedEntries(grades, p, grade);
    forall i | 0 <= i < |chain| ensures GradeLinked(later, chain, i) {
      assert chain[i] in chain;
      assert GradeLinked(grades, chain, i);
    }
  }

  lemma ChainsKeep(grades: Grades, p: Payload, grade: AL.Grade)
    requires p.GradeRecorded? && GradeStep(grades, p, grade) && Chains(grades)
    requires forall g :: g in grades ==> grades[g].sequence < grade.sequence
    ensures Chains(AL.Regraded(grades, p, grade))
  {
    var later := AL.Regraded(grades, p, grade);
    forall a: AttemptId ensures HasChain(later, a) {
      assert HasChain(grades, a);
      var chain :| GradeChain(grades, a, chain);
      if a == p.graded {
        OwnChainGrows(grades, p, grade, chain);
      } else {
        OtherChainStays(grades, p, grade, a, chain);
      }
    }
  }

  /** Grades keep their own sequences apart when one more is entered with a later one. */
  lemma SequencesKeep(grades: Grades, later: Grades, id: GradeId, n: int)
    requires (forall g :: g in grades ==> 1 <= grades[g].sequence <= n) && 0 <= n
    requires forall g, h :: g in grades && h in grades && grades[g].sequence == grades[h].sequence ==> g == h
    requires later.Keys == grades.Keys + {id} && later[id].sequence == n + 1
    requires forall g :: g in grades && g != id ==> later[g].sequence == grades[g].sequence
    ensures forall g :: g in later ==> 1 <= later[g].sequence <= n + 1
    ensures forall g, h :: g in later && h in later && later[g].sequence == later[h].sequence ==> g == h
  {
    forall g, h | g in later && h in later && later[g].sequence == later[h].sequence ensures g == h {
      assert g != id ==> g in grades;
      assert h != id ==> h in grades;
    }
  }

  lemma ContestsKeep(grades: Grades, later: Grades, contests: seq<AL.Contest>, id: GradeId, n: int)
    requires Timed(grades, contests, n) && id !in grades && later.Keys == grades.Keys + {id}
    requires later[id].sequence == n + 1
    requires forall g :: g in grades ==>
      later[g].sequence == grades[g].sequence && later[g].session == grades[g].session
    ensures forall i :: 0 <= i < |contests| ==> Contested(contests[i], later)
    ensures forall i, g :: 0 <= i < |contests| && g in later ==> contests[i].sequence != later[g].sequence
  {
    forall i | 0 <= i < |contests| ensures Contested(contests[i], later) {
      assert Contested(contests[i], grades);
    }
  }

  lemma GradeKeepsTime(grades: Grades, contests: seq<AL.Contest>, p: Payload, grade: AL.Grade, n: int)
    requires p.GradeRecorded? && GradeStep(grades, p, grade) && Timed(grades, contests, n) && grade.sequence == n + 1
    requires 0 <= n
    ensures Timed(AL.Regraded(grades, p, grade), contests, n + 1)
  {
    var later := AL.Regraded(grades, p, grade);
    RegradedEntries(grades, p, grade);
    SequencesKeep(grades, later, p.grade, n);
    ContestsKeep(grades, later, contests, p.grade, n);
  }

  lemma GradeKeeps(book: AL.Assessments, revisions: map<RevisionId, Revision>, p: Payload, grade: AL.Grade, n: int)
    requires p.GradeRecorded? && BookOk(book, revisions, n) && GradeStep(book.grades, p, grade)
    requires grade.sequence == n + 1 && 0 <= n && Judges(grade, book.attempts, book.presentations)
    ensures BookOk(book.(grades := AL.Regraded(book.grades, p, grade)), revisions, n + 1)
  {
    var later := AL.Regraded(book.grades, p, grade);
    RegradedEntries(book.grades, p, grade);
    ChainsKeep(book.grades, p, grade);
    GradeKeepsTime(book.grades, book.contests, p, grade, n);
    forall g | g in later ensures Judges(later[g], book.attempts, book.presentations) {
      if g in book.grades { assert Judges(book.grades[g], book.attempts, book.presentations); }
    }
  }

  lemma ContestKeepsTime(grades: Grades, contests: seq<AL.Contest>, c: AL.Contest, n: int)
    requires Timed(grades, contests, n) && c.grade in grades && c.session == grades[c.grade].session
    requires c.sequence == n + 1
    ensures Timed(grades, contests + [c], n + 1)
  {
    assert Contested(c, grades);
  }

  lemma ContestKeeps(book: AL.Assessments, revisions: map<RevisionId, Revision>, c: AL.Contest, n: int)
    requires BookOk(book, revisions, n) && c.grade in book.grades && c.session == book.grades[c.grade].session
    requires c.sequence == n + 1
    ensures BookOk(book.(contests := book.contests + [c]), revisions, n + 1)
  {
    ContestKeepsTime(book.grades, book.contests, c, n);
  }

  // ------------------------------------------------------------ every event

  lemma GradeEventKeeps(book: AL.Assessments, world: World, revisions: map<RevisionId, Revision>, e: Event, n: int)
    requires e.payload.GradeRecorded? && AL.GradeDecodes(e) && BookOk(book, revisions, n) && 0 <= n
    requires e.sequence == n + 1
    requires AL.ReduceGrade(world, book, e).Some?
    ensures BookOk(AL.ReduceGrade(world, book, e).value, revisions, n + 1)
  {
    GradeKeeps(book, revisions, e.payload, AL.GradeOf(e), n);
  }

  lemma AssessKeeps(ledger: Ledger, world: World, book: AL.Assessments, e: Event, n: int)
    requires BookOk(book, ledger.revisions, n) && 0 <= n && e.sequence == n + 1
    requires AL.Assess(ledger, world, book, e).Some?
    ensures BookOk(AL.Assess(ledger, world, book, e).value, ledger.revisions, n + 1)
  {
    var p := e.payload;
    match p
    case ItemPresented(_, _, _, _, _, _, _) =>
      PresentationKeeps(book, ledger.revisions, p.presentation,
        AL.Presentation(e.session, p.shown, ledger.revisions[p.shown].content), n);
    case AttemptRecorded(_, _, _, _, _) =>
      AttemptKeeps(book, ledger.revisions, p.attempt, AL.Attempt(e.session, p.of, p.response, p.latency), n);
    case GradeRecorded(_, _, _, _, _, _, _, _) => GradeEventKeeps(book, world, ledger.revisions, e, n);
    case GradeContested(_, _, _) =>
      ContestKeeps(book, ledger.revisions, AL.Contest(p.contested, e.session, p.reason, e.sequence), n);
    case _ =>
  }
}
