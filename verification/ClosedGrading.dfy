/** Exact closed-answer grading.  The policy compares canonical text; on every item and response the ledger admits,
    that comparison is equality of the selected and expected option sets. */
module ClosedGrading {
  import opened Domain
  import opened AssessmentLedger
  import opened Collections

  datatype Closed = Closed(results: seq<CriterionResult>, score: Score)

  const MET_RATIONALE := "Exact response matched the immutable expected answer."
  const UNCERTAIN_RATIONALE := "Response selected only expected options but omitted at least one expected option."
  const NOT_MET_RATIONALE := "Response had no expected overlap or selected at least one unexpected option."

  function RationaleOf(status: CriterionStatus): string {
    match status
    case Met => MET_RATIONALE
    case Uncertain => UNCERTAIN_RATIONALE
    case NotMet => NOT_MET_RATIONALE
  }

  function ResultsFor(criteria: seq<string>, status: CriterionStatus): seq<CriterionResult> {
    seq(|criteria|, i requires 0 <= i < |criteria| => CriterionResult(criteria[i], status, RationaleOf(status)))
  }

  /** The canonical text of a selection. */
  function CanonicalChoice(options: seq<Text>): Text {
    JsonArray(options, true)
  }

  function GradeSelection(expected: Text, selected: seq<Text>): (CriterionStatus, Score)
    requires expected.JsonArray?
  {
    var chosen, wanted := Elements(selected), Elements(expected.items);
    var overlap := |chosen * wanted|;
    if CanonicalChoice(selected) == expected then (Met, Score(1, 1))
    else if overlap != 0 && chosen - wanted == {} then (Uncertain, Score(overlap, |expected.items|))
    else (NotMet, Score(0, |expected.items|))
  }

  /** The policy; `None` when it raises. */
  function GradeClosed(item: Item, response: Response): Option<Closed> {
    match item.format
    case FreeResponseFormat => None
    case SingleChoiceFormat =>
      if !response.SingleChoice? then None
      else
        var status := if response.option == item.expected then Met else NotMet;
        Some(Closed(ResultsFor(item.criteria, status), Score(if status == Met then 1 else 0, 1)))
    case MultipleChoiceFormat =>
      if !response.MultipleChoice? || !item.expected.JsonArray? || item.expected.items == [] ||
        !Distinct(item.expected.items) then None
      else
        var graded := GradeSelection(item.expected, response.options);
        Some(Closed(ResultsFor(item.criteria, graded.0), graded.1))
  }

  lemma {:induction false} DistinctCount(s: seq<Text>)
    requires Distinct(s)
    ensures |Elements(s)| == |s|
  {
    if s != [] {
      var n := |s| - 1;
      DistinctCount(s[..n]);
      assert s == s[..n] + [s[n]];
      assert Elements(s) == Elements(s[..n]) + {s[n]};
    }
  }

  lemma SubsetCount(a: set<Text>, b: set<Text>)
    requires a < b
    ensures |a| < |b|
  {
    var x := Member(b - a);
    assert |b| == |a| + |b - a|;
  }

  /** What a status says about the selected and the expected options. */
  ghost predicate Compares(status: CriterionStatus, score: Score, chosen: set<Text>, wanted: set<Text>) {
    && (status == Met <==> chosen == wanted)
    && (status == Uncertain <==> {} < chosen < wanted)
    && (status == NotMet <==> exists x :: x in chosen && x !in wanted)
    && (status == Uncertain <==> 0 < score.numerator < score.denominator)
    && score == (match status
                 case Met => Score(1, 1)
                 case Uncertain => Score(|chosen|, |wanted|)
                 case NotMet => Score(0, |wanted|))
  }

  lemma SelectionIsSetComparison(item: Item, response: Response)
    requires item.format == MultipleChoiceFormat && ItemEncodes(item) && ResponseFits(item, response)
    requires ResponseDecodes(response)
    ensures var graded := GradeSelection(item.expected, response.options);
      && Compares(graded.0, graded.1, Elements(response.options), Elements(item.expected.items))
      && ScoreDecodes(graded.1)
  {
    var chosen, wanted := Elements(response.options), Elements(item.expected.items);
    DistinctCount(item.expected.items);
    assert response.options[0] in chosen && item.expected.items[0] in wanted;
    assert chosen == wanted <==> CanonicalChoice(response.options) == item.expected;
    if chosen < wanted {
      assert chosen * wanted == chosen && chosen - wanted == {};
      SubsetCount(chosen, wanted);
    } else if chosen != wanted {
      var x :| x in chosen && x !in wanted;
      assert x in chosen - wanted;
    }
  }

  ghost predicate CriterionMeans(item: Item, response: Response, status: CriterionStatus, score: Score) {
    match item.format
    case FreeResponseFormat => false
    case SingleChoiceFormat =>
      response.SingleChoice?
      && (if response.option == item.expected
          then status == Met && score == Score(1, 1)
          else status == NotMet && score == Score(0, 1))
    case MultipleChoiceFormat =>
      response.MultipleChoice? && item.expected.JsonArray?
      && Compares(status, score, Elements(response.options), Elements(item.expected.items))
  }

  /** Each status has its own fixed rationale. */
  ghost predicate SaysWhy(result: CriterionResult) {
    match result.status
    case Met => result.rationale == MET_RATIONALE
    case Uncertain => result.rationale == UNCERTAIN_RATIONALE
    case NotMet => result.rationale == NOT_MET_RATIONALE
  }

  lemma ResultsSayWhy(criteria: seq<string>, status: CriterionStatus)
    ensures forall i :: 0 <= i < |ResultsFor(criteria, status)| ==> SaysWhy(ResultsFor(criteria, status)[i])
  {
    forall i | 0 <= i < |criteria| ensures SaysWhy(ResultsFor(criteria, status)[i]) {
      assert ResultsFor(criteria, status)[i] == CriterionResult(criteria[i], status, RationaleOf(status));
    }
  }

  /** The grade of a response: every criterion of the item, in order, with the one status, and the score, that
      comparing selected and expected options gives. */
  ghost predicate GradedAs(
    item: Item, response: Response, status: CriterionStatus, results: seq<CriterionResult>, score: Score) {
    && CriterionMeans(item, response, status, score)
    && |results| == |item.criteria|
    && forall i :: 0 <= i < |results| ==>
      results[i].criterion == item.criteria[i] && results[i].status == status && SaysWhy(results[i])
  }

  ghost predicate ClosedResults(item: Item, response: Response, results: seq<CriterionResult>, score: Score) {
    exists status :: GradedAs(item, response, status, results, score)
  }

  lemma ResultsAre(item: Item, response: Response, status: CriterionStatus, score: Score)
    requires CriterionMeans(item, response, status, score)
    ensures ClosedResults(item, response, ResultsFor(item.criteria, status), score)
  {
    ResultsSayWhy(item.criteria, status);
    assert GradedAs(item, response, status, ResultsFor(item.criteria, status), score);
  }

  /** Whatever closed item and response the ledger admits, the policy decides, grades every criterion of the
      rubric alike, and decides by set comparison of selected and expected options. */
  lemma ClosedGradingIsSetComparison(item: Item, response: Response)
    requires item.format != FreeResponseFormat && ItemEncodes(item) && ResponseFits(item, response)
    requires ResponseDecodes(response)
    ensures GradeClosed(item, response).Some?
    ensures var closed := GradeClosed(item, response).value;
      ClosedResults(item, response, closed.results, closed.score) && ScoreDecodes(closed.score)
  {
    var closed := GradeClosed(item, response).value;
    if item.format == MultipleChoiceFormat {
      SelectionIsSetComparison(item, response);
      ResultsAre(item, response, GradeSelection(item.expected, response.options).0, closed.score);
    } else {
      ResultsAre(item, response, if response.option == item.expected then Met else NotMet, closed.score);
    }
  }

  /** The comparison leaves no choice of status or score. */
  lemma ComparisonDecides(item: Item, response: Response, s: CriterionStatus, x: Score, t: CriterionStatus, y: Score)
    requires CriterionMeans(item, response, s, x) && CriterionMeans(item, response, t, y)
    ensures s == t && x == y
  {
  }

  /** One response has one grade. */
  lemma ClosedResultsAreUnique(
    item: Item, response: Response, a: seq<CriterionResult>, x: Score, b: seq<CriterionResult>, y: Score)
    requires ClosedResults(item, response, a, x) && ClosedResults(item, response, b, y)
    ensures a == b && x == y
  {
    var s :| GradedAs(item, response, s, a, x);
    var t :| GradedAs(item, response, t, b, y);
    ComparisonDecides(item, response, s, x, t, y);
  }
}
