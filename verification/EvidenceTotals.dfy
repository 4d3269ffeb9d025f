/** What the evidence projection holds and totals: exactly the scores of active uncontested grades, and exactly their
    criteria. */
module EvidenceTotals {
  import opened Domain
  import opened AssessmentLedger
  import opened Evidence
  import opened EvidenceOrder
  import AssessmentRuns
  import opened Course

  // ------------------------------------------------------------ counted grades

  ghost predicate IsContested(contests: seq<Contest>, g: GradeId) {
    exists i :: 0 <= i < |contests| && contests[i].grade == g
  }

  /** An active grade that nobody has contested. */
  ghost predicate Counted(book: Assessments, g: GradeId) {
    g in book.grades && book.grades[g].lifecycle == Active && !IsContested(book.contests, g)
  }

  lemma EffectiveIsCounted(book: Assessments, g: GradeId)
    requires g in book.grades
    ensures Effective(book, g) <==> Counted(book, g)
  {
    ContestTimeExactly(book.contests, g);
  }

  // ------------------------------------------------------------ format groups

  datatype Ratio = Ratio(numerator: int, denominator: int) {
    function Plus(other: Ratio): Ratio {
      Ratio(numerator + other.numerator, denominator + other.denominator)
    }
  }

  function RatioOf(refs: seq<Reference>): Ratio {
    Ratio(Numerators(refs), Denominators(refs))
  }

  /** The scores of the active uncontested grades of a format. */
  ghost function ScoresOf(book: Assessments, order: seq<GradeId>, format: Format): Ratio {
    if order == [] then Ratio(0, 0)
    else
      var n := |order| - 1;
      var before, g := ScoresOf(book, order[..n], format), order[n];
      if HasFormat(book, g, format) && Counted(book, g)
      then before.Plus(Ratio(book.grades[g].score.numerator, book.grades[g].score.denominator))
      else before
  }

  lemma SumsJoin(a: seq<Reference>, b: seq<Reference>)
    ensures Numerators(a + b) == Numerators(a) + Numerators(b)
    ensures Denominators(a + b) == Denominators(a) + Denominators(b)
  {
    if b == [] {
      assert a + b == a;
    } else {
      var n := |b| - 1;
      assert (a + b)[..|a + b| - 1] == a + b[..n];
      SumsJoin(a, b[..n]);
    }
  }

  lemma ContestWeighsNothing(book: Assessments, g: GradeId, r: Reference)
    ensures Numerators(WithContest(book, g, r)) == r.numerator && Denominators(WithContest(book, g, r)) == r.denominator
  {
    var refs := WithContest(book, g, r);
    assert [r][..0] == [] && Numerators([r]) == r.numerator && Denominators([r]) == r.denominator;
    if |refs| == 2 {
      assert refs[..1] == [r];
    }
  }

  /** Processing one more grade adds its contribution to a group. */
  lemma GroupStep(book: Assessments, order: seq<GradeId>, before: seq<GradeId>, g: GradeId, k: Group)
    requires AllKnown(book, order) && order == before + [g] && AllKnown(book, before) && Known(book, g)
    ensures RatioOf(References(book, order, k)) ==
      RatioOf(References(book, before, k)).Plus(RatioOf(Contribution(book, g, k, |book.grades[g].criteria|)))
  {
    assert order[..|order| - 1] == before && order[|order| - 1] == g;
    SumsJoin(References(book, before, k), Contribution(book, g, k, |book.grades[g].criteria|));
  }

  lemma FormatWeighs(book: Assessments, g: GradeId, format: Format)
    requires Known(book, g)
    ensures RatioOf(Contribution(book, g, FormatGroup(format), |book.grades[g].criteria|)) ==
      if HasFormat(book, g, format) && Counted(book, g)
      then Ratio(book.grades[g].score.numerator, book.grades[g].score.denominator) else Ratio(0, 0)
  {
    EffectiveIsCounted(book, g);
    ContestWeighsNothing(book, g, FormatReference(book, g));
  }

  lemma {:induction false} FormatTotals(book: Assessments, order: seq<GradeId>, format: Format)
    requires AllKnown(book, order)
    ensures RatioOf(References(book, order, FormatGroup(format))) == ScoresOf(book, order, format)
  {
    if order != [] {
      var n := |order| - 1;
      FormatTotals(book, order[..n], format);
      GroupStep(book, order, order[..n], order[n], FormatGroup(format));
      FormatWeighs(book, order[n], format);
    }
  }

  function WeightIn(estimates: map<Group, Estimate>, k: Group): Ratio {
    if k in estimates then Ratio(estimates[k].numerator, estimates[k].denominator) else Ratio(0, 0)
  }

  lemma {:induction false} UntouchedIsEmpty(book: Assessments, order: seq<GradeId>, k: Group)
    requires AllKnown(book, order) && k !in Touched(book, order)
    ensures References(book, order, k) == []
  {
    if order != [] {
      var n := |order| - 1;
      UntouchedIsEmpty(book, order[..n], k);
      GroupsBelong(book, order[n], |book.grades[order[n]].criteria|, k);
    }
  }

  lemma WeightIsSum(book: Assessments, order: seq<GradeId>, k: Group)
    requires Project(book, order).Some?
    ensures AllKnown(book, order)
    ensures WeightIn(Project(book, order).value, k) == RatioOf(References(book, order, k))
  {
    if k !in Touched(book, order) {
      UntouchedIsEmpty(book, order, k);
    }
  }

  /** When the projection succeeds, each format's ratio is exactly the total score of its active uncontested grades. */
  lemma FormatsTotalEffectiveScores(book: Assessments, order: seq<GradeId>, format: Format)
    requires Project(book, order).Some?
    ensures AllKnown(book, order)
    ensures WeightIn(Project(book, order).value, FormatGroup(format)) == ScoresOf(book, order, format)
  {
    WeightIsSum(book, order, FormatGroup(format));
    FormatTotals(book, order, format);
  }

  // --------------------------------------------------------- criterion groups

  function MetCount(criteria: seq<CriterionResult>): nat {
    if criteria == [] then 0
    else MetCount(criteria[..|criteria| - 1]) + if criteria[|criteria| - 1].status == Met then 1 else 0
  }

  /** The met criteria, and all criteria, of the active uncontested grades. */
  ghost function CriteriaCount(book: Assessments, order: seq<GradeId>): Ratio {
    if order == [] then Ratio(0, 0)
    else
      var before, g := CriteriaCount(book, order[..|order| - 1]), order[|order| - 1];
      if Counted(book, g) then before.Plus(Ratio(MetCount(book.grades[g].criteria), |book.grades[g].criteria|))
      else before
  }

  /** The sum of the first `n` ratios. */
  function SumTo(ratios: seq<Ratio>, n: nat): Ratio
    requires n <= |ratios|
  {
    if n == 0 then Ratio(0, 0) else SumTo(ratios, n - 1).Plus(ratios[n - 1])
  }

  function Sum(ratios: seq<Ratio>): Ratio {
    SumTo(ratios, |ratios|)
  }

  lemma {:induction false} SumPairs(a: seq<Ratio>, b: seq<Ratio>, c: seq<Ratio>, n: nat)
    requires n <= |a| == |b| == |c| && forall i :: 0 <= i < |a| ==> c[i] == a[i].Plus(b[i])
    ensures SumTo(c, n) == SumTo(a, n).Plus(SumTo(b, n))
  {
    if n > 0 {
      SumPairs(a, b, c, n - 1);
    }
  }

  lemma {:induction false} SumNothing(ratios: seq<Ratio>, n: nat)
    requires n <= |ratios| && forall i :: 0 <= i < |ratios| ==> ratios[i] == Ratio(0, 0)
    ensures SumTo(ratios, n) == Ratio(0, 0)
  {
    if n > 0 {
      SumNothing(ratios, n - 1);
    }
  }

  /** The first `n` keys. */
  function KeysTo(keys: seq<Group>, n: nat): set<Group>
    requires n <= |keys|
  {
    if n == 0 then {} else KeysTo(keys, n - 1) + {keys[n - 1]}
  }

  lemma {:induction false} KeysToHolds(keys: seq<Group>, n: nat, k: Group)
    requires n <= |keys|
    ensures k in KeysTo(keys, n) <==> exists i :: 0 <= i < n && keys[i] == k
  {
    if n > 0 {
      KeysToHolds(keys, n - 1, k);
    }
  }

  function OneIf(b: bool): int {
    if b then 1 else 0
  }

  lemma CountWithout(s: set<Group>, k: Group)
    ensures |s - {k}| == |s| - OneIf(k in s)
  {
  }

  /** Keys that are in `groups` weigh one each, those in `met` fully, all others nothing. */
  lemma {:induction false} SumCounts(keys: seq<Group>, groups: set<Group>, met: set<Group>, ratios: seq<Ratio>, n: nat)
    requires Distinct(keys) && n <= |ratios| == |keys| && met <= groups <= KeysTo(keys, n)
    requires forall i :: 0 <= i < n ==> ratios[i] == Ratio(OneIf(keys[i] in met), OneIf(keys[i] in groups))
    ensures SumTo(ratios, n) == Ratio(|met|, |groups|)
    decreases n
  {
    if n > 0 {
      var k := keys[n - 1];
      CountWithout(groups, k);
      CountWithout(met, k);
      SumCounts(keys, groups - {k}, met - {k}, ratios, n - 1);
    }
  }

  function RatiosOver(book: Assessments, order: seq<GradeId>, keys: seq<Group>): seq<Ratio>
    requires AllKnown(book, order)
  {
    seq(|keys|, i requires 0 <= i < |keys| => RatioOf(References(book, order, keys[i])))
  }

  function WeightsOver(book: Assessments, g: GradeId, keys: seq<Group>): seq<Ratio>
    requires Known(book, g)
  {
    seq(|keys|, i requires 0 <= i < |keys| => RatioOf(Contribution(book, g, keys[i], |book.grades[g].criteria|)))
  }

  lemma RatiosStep(book: Assessments, order: seq<GradeId>, before: seq<GradeId>, g: GradeId, keys: seq<Group>)
    requires AllKnown(book, order) && order == before + [g] && AllKnown(book, before) && Known(book, g)
    ensures Sum(RatiosOver(book, order, keys)) ==
      Sum(RatiosOver(book, before, keys)).Plus(Sum(WeightsOver(book, g, keys)))
  {
    forall i | 0 <= i < |keys| ensures RatiosOver(book, order, keys)[i] ==
      RatiosOver(book, before, keys)[i].Plus(WeightsOver(book, g, keys)[i]) {
      GroupStep(book, order, before, g, keys[i]);
    }
    SumPairs(RatiosOver(book, before, keys), WeightsOver(book, g, keys), RatiosOver(book, order, keys), |keys|);
  }

  /** The grade meets the criterion that the group is about. */
  predicate MetIn(book: Assessments, g: GradeId, k: Group)
    requires Known(book, g)
  {
    k.CriterionGroup? && InGroup(book, g, k) && book.grades[g].criteria[k.ordinal].status == Met
  }

  lemma ContributionWeighs(book: Assessments, g: GradeId, k: Group)
    requires Known(book, g) && k.CriterionGroup?
    ensures RatioOf(Contribution(book, g, k, |book.grades[g].criteria|)) ==
      if Counted(book, g) then Ratio(OneIf(MetIn(book, g, k)), OneIf(InGroup(book, g, k))) else Ratio(0, 0)
  {
    EffectiveIsCounted(book, g);
    if InGroup(book, g, k) {
      ContestWeighsNothing(book, g, CriterionReference(book, g, book.grades[g].criteria[k.ordinal]));
    }
  }

  function MetUpTo(book: Assessments, g: GradeId, n: int): set<Group>
    requires Known(book, g) && 0 <= n <= |book.grades[g].criteria|
  {
    if n == 0 then {}
    else MetUpTo(book, g, n - 1) + if book.grades[g].criteria[n - 1].status == Met then {GroupOf(book, g, n - 1)}
      else {}
  }

  lemma {:induction false} MetUpToHolds(book: Assessments, g: GradeId, n: int, k: Group)
    requires Known(book, g) && 0 <= n <= |book.grades[g].criteria|
    ensures k in MetUpTo(book, g, n) <==> MetIn(book, g, k) && k.ordinal < n
  {
    if n > 0 {
      MetUpToHolds(book, g, n - 1, k);
      assert k == GroupOf(book, g, n - 1) <==> k.CriterionGroup? && InGroup(book, g, k) && k.ordinal == n - 1;
    }
  }

  lemma {:induction false} MetUpToCount(book: Assessments, g: GradeId, n: int)
    requires Known(book, g) && 0 <= n <= |book.grades[g].criteria|
    ensures |MetUpTo(book, g, n)| == MetCount(book.grades[g].criteria[..n])
  {
    if n > 0 {
      MetUpToCount(book, g, n - 1);
      MetUpToHolds(book, g, n - 1, GroupOf(book, g, n - 1));
      assert book.grades[g].criteria[..n][..n - 1] == book.grades[g].criteria[..n - 1];
    }
  }

  function MetGroups(book: Assessments, g: GradeId): set<Group>
    requires Known(book, g)
  {
    MetUpTo(book, g, |book.grades[g].criteria|)
  }

  lemma MetGroupsExact(book: Assessments, g: GradeId)
    requires Known(book, g)
    ensures |MetGroups(book, g)| == MetCount(book.grades[g].criteria)
    ensures forall k :: k in MetGroups(book, g) <==> MetIn(book, g, k)
  {
    var criteria := book.grades[g].criteria;
    MetUpToCount(book, g, |criteria|);
    assert criteria[..|criteria|] == criteria;
    forall k ensures k in MetGroups(book, g) <==> MetIn(book, g, k) {
      MetUpToHolds(book, g, |criteria|, k);
    }
  }

  function CriterionGroups(book: Assessments, g: GradeId): set<Group>
    requires Known(book, g)
  {
    GroupsOf(book, g) - {FormatGroup(FormatOf(book, g))}
  }

  lemma {:induction false} GroupCount(book: Assessments, g: GradeId, n: int)
    requires Known(book, g) && 0 <= n <= |book.grades[g].criteria|
    ensures |GroupsUpTo(book, g, n)| == n + 1
  {
    if n > 0 {
      GroupCount(book, g, n - 1);
      GroupsBelong(book, g, n - 1, GroupOf(book, g, n - 1));
    }
  }

  lemma CriterionGroupsExact(book: Assessments, g: GradeId)
    requires Known(book, g)
    ensures |CriterionGroups(book, g)| == |book.grades[g].criteria|
    ensures forall k :: k in CriterionGroups(book, g) <==> k.CriterionGroup? && InGroup(book, g, k)
  {
    var n := |book.grades[g].criteria|;
    GroupCount(book, g, n);
    GroupsBelong(book, g, n, FormatGroup(FormatOf(book, g)));
    forall k ensures k in CriterionGroups(book, g) <==> k.CriterionGroup? && InGroup(book, g, k) {
      GroupsBelong(book, g, n, k);
    }
  }

  ghost predicate CoversCriteria(book: Assessments, order: seq<GradeId>, keys: seq<Group>)
    requires AllKnown(book, order)
  {
    && Distinct(keys) && (forall i :: 0 <= i < |keys| ==> keys[i].CriterionGroup?)
    && forall i :: 0 <= i < |order| ==> CriterionGroups(book, order[i]) <= set k | k in keys
  }

  /** One grade's weight over the listing is its met criteria over its criteria. */
  lemma GradeTotals(book: Assessments, g: GradeId, keys: seq<Group>)
    requires Known(book, g) && Distinct(keys) && (forall i :: 0 <= i < |keys| ==> keys[i].CriterionGroup?)
    requires CriterionGroups(book, g) <= set k | k in keys
    ensures Sum(WeightsOver(book, g, keys)) ==
      if Counted(book, g) then Ratio(MetCount(book.grades[g].criteria), |book.grades[g].criteria|) else Ratio(0, 0)
  {
    var weights := WeightsOver(book, g, keys);
    CriterionGroupsExact(book, g);
    MetGroupsExact(book, g);
    forall i | 0 <= i < |keys|
      ensures weights[i] == if Counted(book, g)
                            then Ratio(OneIf(keys[i] in MetGroups(book, g)),
                              OneIf(keys[i] in CriterionGroups(book, g))) else Ratio(0, 0)
    {
      ContributionWeighs(book, g, keys[i]);
    }
    if Counted(book, g) {
      forall k | k in CriterionGroups(book, g) ensures k in KeysTo(keys, |keys|) {
        assert k in keys;
        KeysToHolds(keys, |keys|, k);
      }
      SumCounts(keys, CriterionGroups(book, g), MetGroups(book, g), weights, |keys|);
    } else {
      SumNothing(weights, |keys|);
    }
  }

  lemma {:induction false} CriterionTotals(book: Assessments, order: seq<GradeId>, keys: seq<Group>)
    requires AllKnown(book, order) && CoversCriteria(book, order, keys)
    ensures Sum(RatiosOver(book, order, keys)) == CriteriaCount(book, order)
    decreases |order|
  {
    if order == [] {
      SumNothing(RatiosOver(book, order, keys), |keys|);
    } else {
      var n := |order| - 1;
      CriterionTotals(book, order[..n], keys);
      RatiosStep(book, order, order[..n], order[n], keys);
      assert CriterionGroups(book, order[n]) <= set k | k in keys;
      GradeTotals(book, order[n], keys);
    }
  }

  /** The total of a listing of estimates. */
  function TotalWeight(estimates: map<Group, Estimate>, keys: seq<Group>): Ratio {
    Sum(seq(|keys|, i requires 0 <= i < |keys| => WeightIn(estimates, keys[i])))
  }

  lemma TotalIsOver(book: Assessments, order: seq<GradeId>, keys: seq<Group>)
    requires Project(book, order).Some?
    ensures AllKnown(book, order)
    ensures TotalWeight(Project(book, order).value, keys) == Sum(RatiosOver(book, order, keys))
  {
    WeightIsSum(book, order, FormatGroup(FreeResponseFormat));
    var estimates := Project(book, order).value;
    var weights := seq(|keys|, i requires 0 <= i < |keys| => WeightIn(estimates, keys[i]));
    forall i | 0 <= i < |keys| ensures weights[i] == RatiosOver(book, order, keys)[i] {
      WeightIsSum(book, order, keys[i]);
    }
    assert weights == RatiosOver(book, order, keys);
  }

  /** `keys` lists the criterion groups of the estimates once each, in any order. */
  ghost predicate ListsCriteria(estimates: map<Group, Estimate>, keys: seq<Group>) {
    Distinct(keys) && forall k :: k in keys <==> k in estimates && k.CriterionGroup?
  }

  /** When the projection succeeds, its criterion groups total exactly the met criteria over the criteria of the
      active uncontested grades. */
  lemma CriteriaTotalEffectiveCriteria(book: Assessments, order: seq<GradeId>, keys: seq<Group>)
    requires Project(book, order).Some? && ListsCriteria(Project(book, order).value, keys)
    ensures AllKnown(book, order)
    ensures TotalWeight(Project(book, order).value, keys) == CriteriaCount(book, order)
  {
    TotalIsOver(book, order, keys);
    CriteriaCovered(book, order, keys);
    CriterionTotals(book, order, keys);
  }

  lemma CriteriaCovered(book: Assessments, order: seq<GradeId>, keys: seq<Group>)
    requires AllKnown(book, order) && Distinct(keys)
    requires forall k :: k in keys <==> k in Touched(book, order) && k.CriterionGroup?
    ensures CoversCriteria(book, order, keys)
  {
    forall i | 0 <= i < |keys| ensures keys[i].CriterionGroup? {
      assert keys[i] in keys;
    }
    forall i, k | 0 <= i < |order| && k in CriterionGroups(book, order[i]) ensures k in keys {
      CriterionGroupsExact(book, order[i]);
      TouchedExactly(book, order, k);
    }
  }

  // --------------------------------------------------------- replayed states

  /** In every replayed state where the projection succeeds, for every listing of the grades: the format estimates
      are the total scores, and the criterion estimates the met criteria over the criteria, of exactly the active
      uncontested grades. */
  lemma EvidenceTotalsEffectiveGrades(stream: seq<Event>, listing: seq<GradeId>, format: Format, keys: seq<Group>)
    requires Replay(stream).Some? && Enumerates(listing, Replay(stream).value.book.grades)
    requires LearnerEvidence(Replay(stream).value.book, listing).Some?
    requires ListsCriteria(LearnerEvidence(Replay(stream).value.book, listing).value, keys)
    ensures var book := Replay(stream).value.book;
      var order, estimates := ByTime(book.grades, listing), LearnerEvidence(book, listing).value;
      && Enumerates(order, book.grades) && AllKnown(book, order)
      && WeightIn(estimates, FormatGroup(format)) == ScoresOf(book, order, format)
      && TotalWeight(estimates, keys) == CriteriaCount(book, order)
  {
    var st := Replay(stream).value;
    AssessmentRuns.ReplayKeepsBook(stream);
    BookIsClocked(st.book, st.ledger.revisions, |stream|, listing);
    TotalsOf(st.book, ByTime(st.book.grades, listing), format, keys);
  }

  lemma TotalsOf(book: Assessments, order: seq<GradeId>, format: Format, keys: seq<Group>)
    requires Project(book, order).Some? && ListsCriteria(Project(book, order).value, keys)
    ensures AllKnown(book, order)
    ensures WeightIn(Project(book, order).value, FormatGroup(format)) == ScoresOf(book, order, format)
    ensures TotalWeight(Project(book, order).value, keys) == CriteriaCount(book, order)
  {
    FormatsTotalEffectiveScores(book, order, format);
    CriteriaTotalEffectiveCriteria(book, order, keys);
  }

  /** In every replayed state an attempt counts through at most one grade. */
  lemma AttemptCountsOnce(stream: seq<Event>, g: GradeId, h: GradeId)
    requires Replay(stream).Some?
    requires var book := Replay(stream).value.book;
      g in book.grades && h in book.grades && book.grades[g].attempt == book.grades[h].attempt &&
        Counted(book, g) && Counted(book, h)
    ensures g == h
  {
    var book := Replay(stream).value.book;
    var chain := AssessmentRuns.GradesFormOneChain(stream, book.grades[g].attempt);
    assert g in ActiveGrades(book.grades, book.grades[g].attempt) &&
      h in ActiveGrades(book.grades, book.grades[g].attempt);
  }

  // ------------------------------------------------------- what references say

  /** The grade answers an item of the group's format, or one of the group's revision with that criterion there. */
  ghost predicate MemberOf(book: Assessments, g: GradeId, group: Group) {
    match group
    case FormatGroup(format) => HasFormat(book, g, format)
    case CriterionGroup(revision, ordinal, criterion) =>
      && g in book.grades
      && book.grades[g].attempt in book.attempts
      && book.attempts[book.grades[g].attempt].presentation in book.presentations
      && book.presentations[book.attempts[book.grades[g].attempt].presentation].revision == revision
      && 0 <= ordinal < |book.grades[g].criteria| && book.grades[g].criteria[ordinal].criterion == criterion
  }

  /** What a grade as a whole is evidence for. */
  ghost predicate GradeSays(grade: Grade, disposition: Disposition) {
    && (disposition == Outdated <==> grade.lifecycle == Replaced)
    && (disposition == Supporting <==>
          grade.lifecycle == Active && grade.status == Graded && grade.score.numerator == grade.score.denominator)
    && (disposition == Contradicting <==>
          grade.lifecycle == Active && grade.status == Graded && grade.score.numerator == 0)
    && disposition != UnderContest
  }

  /** The reference of a grade in a format group: its own score when it counts, nothing otherwise. */
  ghost predicate FormatSays(book: Assessments, r: Reference)
    requires r.grade in book.grades
  {
    var grade := book.grades[r.grade];
    && r.sequence == grade.sequence && GradeSays(grade, r.disposition)
    && (if Counted(book, r.grade)
        then r.numerator == grade.score.numerator && r.denominator == grade.score.denominator
        else r.numerator == 0 && r.denominator == 0)
  }

  /** The reference of a grade in a criterion group: the criterion's own status when the grade counts, nothing
      otherwise. */
  ghost predicate CriterionSays(book: Assessments, r: Reference, status: CriterionStatus)
    requires r.grade in book.grades
  {
    && r.sequence == book.grades[r.grade].sequence
    && (if Counted(book, r.grade)
        then
          && r.denominator == 1 && r.numerator == (if status == Met then 1 else 0)
          && r.disposition == (match status
                               case Met => Supporting
                               case NotMet => Contradicting
                               case Uncertain => Undecided)
        else r.numerator == 0 && r.denominator == 0 && GradeSays(book.grades[r.grade], r.disposition))
  }

  /** The reference of a contest: the last one of its grade, without weight. */
  ghost predicate ContestSays(book: Assessments, r: Reference) {
    && r.disposition == UnderContest && r.numerator == 0 && r.denominator == 0
    && exists i :: LastContest(book.contests, r.grade, i) && book.contests[i].sequence == r.sequence
  }

  ghost predicate ReferenceSays(book: Assessments, group: Group, r: Reference) {
    && MemberOf(book, r.grade, group)
    && (if r.disposition == UnderContest then ContestSays(book, r)
        else match group
          case FormatGroup(_) => FormatSays(book, r)
          case CriterionGroup(_, ordinal, _) => CriterionSays(book, r, book.grades[r.grade].criteria[ordinal].status))
  }

  ghost predicate AllSay(book: Assessments, group: Group, refs: seq<Reference>) {
    forall i :: 0 <= i < |refs| ==> ReferenceSays(book, group, refs[i])
  }

  /** The reference is of the grade, and of its contest exactly when `contest`. */
  predicate RefersTo(r: Reference, g: GradeId, contest: bool) {
    r.grade == g && (r.disposition == UnderContest <==> contest)
  }

  ghost predicate OnlyAt(refs: seq<Reference>, k: int, g: GradeId, contest: bool) {
    0 <= k < |refs| && RefersTo(refs[k], g, contest) &&
      forall l :: 0 <= l < |refs| && RefersTo(refs[l], g, contest) ==> l == k
  }

  /** One reference of the grade, and one of its contest exactly when it is contested. */
  ghost predicate ReferredOnce(book: Assessments, refs: seq<Reference>, g: GradeId) {
    && (exists k :: OnlyAt(refs, k, g, false))
    && (if IsContested(book.contests, g) then exists k :: OnlyAt(refs, k, g, true)
        else forall k :: 0 <= k < |refs| ==> !RefersTo(refs[k], g, true))
  }

  lemma GradeReferenceSays(book: Assessments, g: GradeId, group: Group)
    requires Known(book, g) && ScoreDecodes(book.grades[g].score) && InGroup(book, g, group)
    ensures ReferenceSays(book, group,
      if group.FormatGroup? then FormatReference(book, g)
      else CriterionReference(book, g, book.grades[g].criteria[group.ordinal]))
  {
    EffectiveIsCounted(book, g);
  }

  lemma ContributionSays(book: Assessments, g: GradeId, group: Group)
    requires Known(book, g) && ScoreDecodes(book.grades[g].score)
    ensures AllSay(book, group, Contribution(book, g, group, |book.grades[g].criteria|))
  {
    if InGroup(book, g, group) {
      GradeReferenceSays(book, g, group);
      ContestTimeExactly(book.contests, g);
    }
  }

  lemma AllSayJoin(book: Assessments, group: Group, a: seq<Reference>, b: seq<Reference>)
    requires AllSay(book, group, a) && AllSay(book, group, b)
    ensures AllSay(book, group, a + b)
  {
  }

  lemma {:induction false} ReferencesSay(book: Assessments, order: seq<GradeId>, group: Group)
    requires AllKnown(book, order) && forall i :: 0 <= i < |order| ==> Weighed(book, order[i])
    ensures AllSay(book, group, References(book, order, group))
  {
    if order != [] {
      var n := |order| - 1;
      ReferencesSay(book, order[..n], group);
      assert Weighed(book, order[n]);
      ContributionSays(book, order[n], group);
      AllSayJoin(book, group, References(book, order[..n], group),
        Contribution(book, order[n], group, |book.grades[order[n]].criteria|));
    }
  }

  lemma ContributionRefersOnce(book: Assessments, g: GradeId, group: Group)
    requires Known(book, g) && ScoreDecodes(book.grades[g].score) && InGroup(book, g, group)
    ensures ReferredOnce(book, Contribution(book, g, group, |book.grades[g].criteria|), g)
  {
    var refs := Contribution(book, g, group, |book.grades[g].criteria|);
    GradeReferenceSays(book, g, group);
    ContestTimeExactly(book.contests, g);
    assert OnlyAt(refs, 0, g, false);
    if IsContested(book.contests, g) {
      assert OnlyAt(refs, 1, g, true);
    }
  }

  /** No reference of `refs` is of the grade. */
  ghost predicate Unmentioned(refs: seq<Reference>, g: GradeId) {
    forall k :: 0 <= k < |refs| ==> refs[k].grade != g
  }

  lemma OnceBefore(book: Assessments, a: seq<Reference>, b: seq<Reference>, g: GradeId)
    requires ReferredOnce(book, a, g) && Unmentioned(b, g)
    ensures ReferredOnce(book, a + b, g)
  {
    var k :| OnlyAt(a, k, g, false);
    assert OnlyAt(a + b, k, g, false);
    if IsContested(book.contests, g) {
      var l :| OnlyAt(a, l, g, true);
      assert OnlyAt(a + b, l, g, true);
    }
  }

  lemma OnceAfter(book: Assessments, a: seq<Reference>, b: seq<Reference>, g: GradeId)
    requires Unmentioned(a, g) && ReferredOnce(book, b, g)
    ensures ReferredOnce(book, a + b, g)
  {
    var k :| OnlyAt(b, k, g, false);
    assert OnlyAt(a + b, |a| + k, g, false);
    if IsContested(book.contests, g) {
      var l :| OnlyAt(b, l, g, true);
      assert OnlyAt(a + b, |a| + l, g, true);
    }
  }

  lemma {:induction false} OthersUnmentioned(book: Assessments, order: seq<GradeId>, group: Group, g: GradeId)
    requires AllKnown(book, order) && g !in order
    ensures Unmentioned(References(book, order, group), g)
  {
    if order != [] {
      OthersUnmentioned(book, order[..|order| - 1], group, g);
    }
  }

  /** Every grade of the group has one reference in it, and its contest another. */
  lemma {:induction false} MembersReferredOnce(book: Assessments, order: seq<GradeId>, group: Group, i: int)
    requires AllKnown(book, order) && Distinct(order) && 0 <= i < |order|
    requires Weighed(book, order[i]) && InGroup(book, order[i], group)
    ensures ReferredOnce(book, References(book, order, group), order[i])
    decreases |order|
  {
    var n := |order| - 1;
    var before, last := References(book, order[..n], group),
      Contribution(book, order[n], group, |book.grades[order[n]].criteria|);
    if i == n {
      OthersUnmentioned(book, order[..n], group, order[n]);
      ContributionRefersOnce(book, order[n], group);
      OnceAfter(book, before, last, order[n]);
    } else {
      MembersReferredOnce(book, order[..n], group, i);
      OnceBefore(book, before, last, order[i]);
    }
  }

  lemma MembersAreListed(book: Assessments, order: seq<GradeId>, group: Group, g: GradeId)
    requires Enumerates(order, book.grades) && AllKnown(book, order) && MemberOf(book, g, group)
    requires forall i :: 0 <= i < |order| ==> Weighed(book, order[i])
    ensures ReferredOnce(book, References(book, order, group), g)
  {
    assert g in order;
    var i :| 0 <= i < |order| && order[i] == g;
    MembersReferredOnce(book, order, group, i);
  }

  /** What a group must hold: a reference for each of its grades and each of their contests, once, and nothing else. */
  ghost predicate GroupExact(book: Assessments, group: Group, refs: seq<Reference>) {
    && AllSay(book, group, refs)
    && forall g :: MemberOf(book, g, group) ==> ReferredOnce(book, refs, g)
  }

  lemma ReferencesAreExact(book: Assessments, order: seq<GradeId>, group: Group)
    requires Enumerates(order, book.grades) && AllKnown(book, order)
    requires forall i :: 0 <= i < |order| ==> Weighed(book, order[i])
    ensures GroupExact(book, group, References(book, order, group))
  {
    ReferencesSay(book, order, group);
    forall g | MemberOf(book, g, group) ensures ReferredOnce(book, References(book, order, group), g) {
      MembersAreListed(book, order, group, g);
    }
  }

  /** The estimates hold a group exactly when it has a member, and then exactly the references of its members. */
  ghost predicate EstimateExact(book: Assessments, group: Group, estimates: map<Group, Estimate>) {
    && (group in estimates <==> exists g :: MemberOf(book, g, group))
    && (group in estimates ==> GroupExact(book, group, estimates[group].evidence))
  }

  lemma TouchedHasMember(book: Assessments, order: seq<GradeId>, group: Group)
    requires Enumerates(order, book.grades) && AllKnown(book, order)
    ensures group in Touched(book, order) <==> exists g :: MemberOf(book, g, group)
  {
    TouchedExactly(book, order, group);
    if group in Touched(book, order) {
      var i :| 0 <= i < |order| && InGroup(book, order[i], group);
      assert MemberOf(book, order[i], group);
    }
    if g :| MemberOf(book, g, group) {
      assert g in order;
      var i :| 0 <= i < |order| && order[i] == g;
      assert InGroup(book, order[i], group);
    }
  }

  lemma ProjectedAreExact(book: Assessments, order: seq<GradeId>, group: Group)
    requires Enumerates(order, book.grades) && Project(book, order).Some?
    requires forall i :: 0 <= i < |order| ==> Weighed(book, order[i])
    ensures EstimateExact(book, group, Project(book, order).value)
  {
    ReferencesAreExact(book, order, group);
    TouchedHasMember(book, order, group);
  }

  /** In every replayed state every group collects exactly the evidence of its grades: each grade once, with its own
      score or criterion as weight when it is active and uncontested and with none otherwise, and the last contest of
      each contested grade, without weight; every disposition is the one that lifecycle, status and score call for.
      When the projection succeeds, its estimates are exactly the groups with a grade, each with that evidence. */
  lemma EvidenceSaysWhatItWeighs(stream: seq<Event>, listing: seq<GradeId>, group: Group)
    requires Replay(stream).Some? && Enumerates(listing, Replay(stream).value.book.grades)
    ensures var book := Replay(stream).value.book;
      && AllKnown(book, ByTime(book.grades, listing))
      && GroupExact(book, group, References(book, ByTime(book.grades, listing), group))
      && (LearnerEvidence(book, listing).Some? ==> EstimateExact(book, group, LearnerEvidence(book, listing).value))
  {
    var st := Replay(stream).value;
    AssessmentRuns.ReplayKeepsBook(stream);
    BookIsClocked(st.book, st.ledger.revisions, |stream|, listing);
    ReferencesAreExact(st.book, ByTime(st.book.grades, listing), group);
    if LearnerEvidence(st.book, listing).Some? {
      ProjectedAreExact(st.book, ByTime(st.book.grades, listing), group);
    }
  }
}
