/** The learner-evidence projection: every grade, in event order, adds a reference to its format group and to one
    group per criterion; a contested grade adds its contest right after.  Each group must come out in event order. */
module Evidence {
  import opened Domain
  import opened AssessmentLedger
  import opened Collections

  datatype Group = FormatGroup(format: Format) | CriterionGroup(revision: RevisionId, ordinal: int, criterion: string)
  datatype Disposition = Supporting | Contradicting | Undecided | UnderContest | Outdated
  datatype Reference = Reference(grade: GradeId, sequence: int, disposition: Disposition, numerator: int,
    denominator: int)
  datatype Estimate = Estimate(numerator: int, denominator: int, evidence: seq<Reference>)

  // --------------------------------------------------------------- event order

  function TimeOf(grades: map<GradeId, Grade>, g: GradeId): int {
    if g in grades then grades[g].sequence else 0
  }

  function NotLater(grades: map<GradeId, Grade>): (GradeId, GradeId) -> bool {
    (g: GradeId, h: GradeId) => TimeOf(grades, g) <= TimeOf(grades, h)
  }

  /** The listing sorted by event sequence. */
  function ByTime(grades: map<GradeId, Grade>, listing: seq<GradeId>): seq<GradeId> {
    Sort(NotLater(grades), listing)
  }

  // ------------------------------------------------------------ one grade

  /** The lookups the projection makes for a grade succeed. */
  predicate Known(book: Assessments, g: GradeId) {
    && g in book.grades
    && book.grades[g].attempt in book.attempts
    && book.attempts[book.grades[g].attempt].presentation in book.presentations
    && book.presentations[book.attempts[book.grades[g].attempt].presentation].content.AssessmentItem?
  }

  function PresentationFor(book: Assessments, g: GradeId): Presentation
    requires Known(book, g)
  {
    book.presentations[book.attempts[book.grades[g].attempt].presentation]
  }

  function FormatOf(book: Assessments, g: GradeId): Format
    requires Known(book, g)
  {
    PresentationFor(book, g).content.item.format
  }

  /** When a grade was contested; the last contest wins. */
  function ContestTime(contests: seq<Contest>, g: GradeId): Option<int> {
    if contests == [] then None
    else
      var last := contests[|contests| - 1];
      if last.grade == g then Some(last.sequence) else ContestTime(contests[..|contests| - 1], g)
  }

  predicate Effective(book: Assessments, g: GradeId)
    requires g in book.grades
  {
    book.grades[g].lifecycle == Active && ContestTime(book.contests, g).None?
  }

  function GradeDisposition(grade: Grade): Disposition {
    if grade.lifecycle == Replaced then Outdated
    else if grade.status != Graded then Undecided
    else if grade.score.numerator == grade.score.denominator then Supporting
    else if grade.score.numerator == 0 then Contradicting
    else Undecided
  }

  function FormatReference(book: Assessments, g: GradeId): Reference
    requires g in book.grades
  {
    var grade := book.grades[g];
    Reference(g, grade.sequence, GradeDisposition(grade),
              if Effective(book, g) then grade.score.numerator else 0,
              if Effective(book, g) then grade.score.denominator else 0)
  }

  function CriterionReference(book: Assessments, g: GradeId, result: CriterionResult): Reference
    requires g in book.grades
  {
    var grade := book.grades[g];
    var counted := Effective(book, g);
    var disposition :=
      if !counted then GradeDisposition(grade)
      else if result.status == Met then Supporting
      else if result.status == NotMet then Contradicting
      else Undecided;
    Reference(g, grade.sequence, disposition, if counted &&
      result.status == Met then 1 else 0, if counted then 1 else 0)
  }

  /** The contest of a grade, as one more reference without weight. */
  function WithContest(book: Assessments, g: GradeId, reference: Reference): seq<Reference> {
    match ContestTime(book.contests, g)
    case None => [reference]
    case Some(time) => [reference, Reference(g, time, UnderContest, 0, 0)]
  }

  /** Grade `g` belongs to `group`, counting only its first `n` criteria. */
  predicate Belongs(book: Assessments, g: GradeId, group: Group, n: int)
    requires Known(book, g) && 0 <= n <= |book.grades[g].criteria|
  {
    match group
    case FormatGroup(format) => format == FormatOf(book, g)
    case CriterionGroup(revision, ordinal, criterion) =>
      revision == PresentationFor(book, g).revision && 0 <= ordinal < n &&
        criterion == book.grades[g].criteria[ordinal].criterion
  }

  predicate InGroup(book: Assessments, g: GradeId, group: Group)
    requires Known(book, g)
  {
    Belongs(book, g, group, |book.grades[g].criteria|)
  }

  function Contribution(book: Assessments, g: GradeId, group: Group, n: int): seq<Reference>
    requires Known(book, g) && 0 <= n <= |book.grades[g].criteria|
  {
    if !Belongs(book, g, group, n) then []
    else WithContest(book, g, if group.FormatGroup? then FormatReference(book, g)
      else CriterionReference(book, g, book.grades[g].criteria[group.ordinal]))
  }

  // ------------------------------------------------------------- all grades

  predicate AllKnown(book: Assessments, order: seq<GradeId>) {
    forall i :: 0 <= i < |order| ==> Known(book, order[i])
  }

  /** What a group holds once the grades of `order` have been processed. */
  function References(book: Assessments, order: seq<GradeId>, group: Group): seq<Reference>
    requires AllKnown(book, order)
  {
    if order == [] then []
    else
      var n := |order| - 1;
      References(book, order[..n], group) + Contribution(book, order[n], group, |book.grades[order[n]].criteria|)
  }

  function GroupOf(book: Assessments, g: GradeId, ordinal: int): Group
    requires Known(book, g) && 0 <= ordinal < |book.grades[g].criteria|
  {
    CriterionGroup(PresentationFor(book, g).revision, ordinal, book.grades[g].criteria[ordinal].criterion)
  }

  /** The groups of a grade, counting only its first `n` criteria. */
  function GroupsUpTo(book: Assessments, g: GradeId, n: int): set<Group>
    requires Known(book, g) && 0 <= n <= |book.grades[g].criteria|
  {
    if n == 0 then {FormatGroup(FormatOf(book, g))} else GroupsUpTo(book, g, n - 1) + {GroupOf(book, g, n - 1)}
  }

  function GroupsOf(book: Assessments, g: GradeId): set<Group>
    requires Known(book, g)
  {
    GroupsUpTo(book, g, |book.grades[g].criteria|)
  }

  function Touched(book: Assessments, order: seq<GradeId>): set<Group>
    requires AllKnown(book, order)
  {
    if order == [] then {}
    else Touched(book, order[..|order| - 1]) + GroupsOf(book, order[|order| - 1])
  }

  predicate ReferenceOk(r: Reference) {
    0 < r.sequence && 0 <= r.numerator <= r.denominator
  }

  predicate InEventOrder(refs: seq<Reference>) {
    forall i, j :: 0 <= i < j < |refs| ==> refs[i].sequence <= refs[j].sequence
  }

  predicate Admissible(refs: seq<Reference>) {
    (forall i :: 0 <= i < |refs| ==> ReferenceOk(refs[i])) && InEventOrder(refs)
  }

  function Numerators(refs: seq<Reference>): int {
    if refs == [] then 0 else Numerators(refs[..|refs| - 1]) + refs[|refs| - 1].numerator
  }

  function Denominators(refs: seq<Reference>): int {
    if refs == [] then 0 else Denominators(refs[..|refs| - 1]) + refs[|refs| - 1].denominator
  }

  function EstimateOf(refs: seq<Reference>): Estimate {
    Estimate(Numerators(refs), Denominators(refs), refs)
  }

  type Groups = map<Group, seq<Reference>>

  /** One estimate per group; `None` when a group is not in event order. */
  function Estimates(groups: Groups): Option<map<Group, Estimate>> {
    if exists k :: k in groups && !Admissible(groups[k]) then None
    else Some(map k | k in groups :: EstimateOf(groups[k]))
  }

  /** Every touched group with all its references. */
  function Assembled(book: Assessments, order: seq<GradeId>): Groups
    requires AllKnown(book, order)
  {
    map k | k in Touched(book, order) :: References(book, order, k)
  }

  /** The projection of the grades in a given order; `None` when it raises. */
  function Project(book: Assessments, order: seq<GradeId>): Option<map<Group, Estimate>> {
    if !AllKnown(book, order) then None
    else Estimates(Assembled(book, order))
  }

  function LearnerEvidence(book: Assessments, listing: seq<GradeId>): Option<map<Group, Estimate>> {
    Project(book, ByTime(book.grades, listing))
  }

  // ------------------------------------------------------------- as a loop

  function Held(groups: Groups, k: Group): seq<Reference> {
    if k in groups then groups[k] else []
  }

  function Add(groups: Groups, k: Group, refs: seq<Reference>): Groups {
    groups[k := Held(groups, k) + refs]
  }

  /** The dictionary holds the grades of `before` in full and the first `n` criteria of `g`. */
  ghost predicate Filled(book: Assessments, before: seq<GradeId>, g: GradeId, groups: Groups, n: int)
    requires AllKnown(book, before) && Known(book, g) && 0 <= n <= |book.grades[g].criteria|
  {
    && (forall k :: Held(groups, k) == References(book, before, k) + Contribution(book, g, k, n))
    && groups.Keys == Touched(book, before) + GroupsUpTo(book, g, n)
  }

  ghost predicate Complete(book: Assessments, order: seq<GradeId>, groups: Groups)
    requires AllKnown(book, order)
  {
    && (forall k :: Held(groups, k) == References(book, order, k))
    && groups.Keys == Touched(book, order)
  }

  lemma FormatAdded(book: Assessments, before: seq<GradeId>, g: GradeId, groups: Groups)
    requires AllKnown(book, before) && Known(book, g) && Complete(book, before, groups)
    ensures Filled(book, before, g,
      Add(groups, FormatGroup(FormatOf(book, g)), WithContest(book, g, FormatReference(book, g))), 0)
  {
  }

  /** Counting one more criterion adds its group's references and no others. */
  lemma ContributionStep(book: Assessments, g: GradeId, n: int, k: Group)
    requires Known(book, g) && 0 <= n < |book.grades[g].criteria|
    ensures Contribution(book, g, GroupOf(book, g, n), n) == []
    ensures Contribution(book, g, k, n + 1) ==
      if k == GroupOf(book, g, n) then WithContest(book, g, CriterionReference(book, g, book.grades[g].criteria[n]))
      else Contribution(book, g, k, n)
  {
  }

  lemma CriterionAdded(book: Assessments, before: seq<GradeId>, g: GradeId, groups: Groups, n: int)
    requires AllKnown(book, before) && Known(book, g) && 0 <= n < |book.grades[g].criteria|
    requires Filled(book, before, g, groups, n)
    ensures Filled(book, before, g,
      Add(groups, GroupOf(book, g, n), WithContest(book, g, CriterionReference(book, g, book.grades[g].criteria[n]))),
      n + 1)
  {
    var added := Add(groups, GroupOf(book, g, n),
      WithContest(book, g, CriterionReference(book, g, book.grades[g].criteria[n])));
    forall k ensures Held(added, k) == References(book, before, k) + Contribution(book, g, k, n + 1) {
      ContributionStep(book, g, n, k);
      assert Held(groups, k) == References(book, before, k) + Contribution(book, g, k, n);
      assert References(book, before, k) + [] == References(book, before, k);
    }
  }

  lemma GradeAdded(book: Assessments, before: seq<GradeId>, g: GradeId, groups: Groups)
    requires AllKnown(book, before) && Known(book, g)
    requires Filled(book, before, g, groups, |book.grades[g].criteria|)
    ensures AllKnown(book, before + [g]) && Complete(book, before + [g], groups)
  {
    var order := before + [g];
    assert order[..|order| - 1] == before && order[|order| - 1] == g;
    forall k ensures References(book, order, k) == References(book, before, k) +
      Contribution(book, g, k, |book.grades[g].criteria|) {
    }
  }

  /** The references of one grade, criterion by criterion. */
  method AddGrade(book: Assessments, before: seq<GradeId>, g: GradeId, held: Groups) returns (groups: Groups)
    requires AllKnown(book, before) && Known(book, g) && Complete(book, before, held)
    ensures AllKnown(book, before + [g]) && Complete(book, before + [g], groups)
  {
    var criteria := book.grades[g].criteria;
    FormatAdded(book, before, g, held);
    groups := Add(held, FormatGroup(FormatOf(book, g)), WithContest(book, g, FormatReference(book, g)));
    var n := 0;
    while n < |criteria|
      invariant 0 <= n <= |criteria|
      invariant Filled(book, before, g, groups, n)
    {
      CriterionAdded(book, before, g, groups, n);
      groups := Add(groups, GroupOf(book, g, n), WithContest(book, g, CriterionReference(book, g, criteria[n])));
      n := n + 1;
    }
    GradeAdded(book, before, g, groups);
  }

  lemma CompleteIsExact(book: Assessments, order: seq<GradeId>, groups: Groups)
    requires AllKnown(book, order) && Complete(book, order, groups)
    ensures groups == Assembled(book, order)
  {
    assert forall k :: k in groups ==> groups[k] == Held(groups, k);
  }

  lemma NothingAdded(book: Assessments)
    ensures Complete(book, [], map[])
  {
  }

  method Assemble(book: Assessments, order: seq<GradeId>) returns (groups: Groups)
    requires AllKnown(book, order)
    ensures groups == Assembled(book, order)
  {
    NothingAdded(book);
    groups := map[];
    var i := 0;
    assert order[..0] == [];
    while i < |order|
      invariant 0 <= i <= |order|
      invariant Complete(book, order[..i], groups)
    {
      assert order[..i] + [order[i]] == order[..i + 1];
      groups := AddGrade(book, order[..i], order[i], groups);
      i := i + 1;
    }
    assert order[..i] == order;
    CompleteIsExact(book, order, groups);
  }

  /** The projection as the loops it is. */
  method LearnerEvidenceLoop(book: Assessments, listing: seq<GradeId>) returns (r: Option<map<Group, Estimate>>)
    ensures r == LearnerEvidence(book, listing)
  {
    var order := ByTime(book.grades, listing);
    if !AllKnown(book, order) {
      return None;
    }
    var groups := Assemble(book, order);
    r := Estimates(groups);
  }
}
