/** Verified grading: the integrity validator derives a grade from a drafted list of criterion judgements, and
    recovery re-derives it from the recorded output before the grade may be committed. */
module VerifiedGrading {
  import opened Domain
  import AL = AssessmentLedger

  datatype Judgement = Judgement(
    criterion: string, status: CriterionStatus, rationale: string, evidence: seq<string>, confidence: real,
      insufficient: bool)

  /** The recorded output of a grading run. */
  datatype Output = Output(status: GradeStatus, criteria: seq<Judgement>, score: Score)

  datatype Recovered = Recovered(status: GradeStatus, results: seq<CriterionResult>, score: Score)

  const MAX_CRITERIA := 64

  // --------------------------------------------------------------- deriving

  /** White space, as text is stripped of it. */
  predicate IsSpace(c: char) {
    var n := c as int;
    9 <= n <= 13 || 28 <= n <= 32 || n in {133, 160, 5760, 8232, 8233, 8239, 8287, 12288} || 8192 <= n <= 8202
  }

  /** Non-empty text without surrounding white space, within a length. */
  predicate Trimmed(s: string, maximum: nat) {
    0 < |s| <= maximum && !IsSpace(s[0]) && !IsSpace(s[|s| - 1])
  }

  /** Bounded texts and a confidence in range.  Insufficient evidence means uncertain without handles; anything else
      needs evidence. */
  predicate JudgementFits(j: Judgement) {
    && Trimmed(j.criterion, 1024) && Trimmed(j.rationale, 2048) && 0.0 <= j.confidence <= 1.0
    && |j.evidence| <= 32 && Distinct(j.evidence)
    && (if j.insufficient then j.status == Uncertain && j.evidence == [] else j.evidence != [])
  }

  ghost predicate DraftOk(draft: seq<Judgement>) {
    1 <= |draft| <= MAX_CRITERIA && forall i :: 0 <= i < |draft| ==> JudgementFits(draft[i])
  }

  method ParseDraft(draft: seq<Judgement>) returns (r: Option<seq<Judgement>>)
    ensures r == if DraftOk(draft) then Some(draft) else None
  {
    if !(1 <= |draft| <= MAX_CRITERIA) {
      return None;
    }
    var parsed: seq<Judgement> := [];
    for n := 0 to |draft|
      invariant parsed == draft[..n]
      invariant forall i :: 0 <= i < n ==> JudgementFits(draft[i])
    {
      if !JudgementFits(draft[n]) {
        return None;
      }
      parsed := parsed + [draft[n]];
    }
    assert parsed == draft;
    r := Some(parsed);
  }

  function MetJudgements(criteria: seq<Judgement>): nat {
    if criteria == [] then 0
    else MetJudgements(criteria[..|criteria| - 1]) + if criteria[|criteria| - 1].status == Met then 1 else 0
  }

  predicate AllInsufficient(criteria: seq<Judgement>) {
    forall i :: 0 <= i < |criteria| ==> criteria[i].insufficient
  }

  function FinalGrade(criteria: seq<Judgement>): Output {
    var status :=
      if AllInsufficient(criteria) then Ungradable
      else if exists i :: 0 <= i < |criteria| && criteria[i].status == Uncertain then NeedsReview
      else Graded;
    Output(status, criteria, Score(MetJudgements(criteria), |criteria|))
  }

  // --------------------------------------------------------------- recovering

  function CriterionResultOf(j: Judgement): CriterionResult {
    CriterionResult(j.criterion, j.status, j.rationale)
  }

  function ResultsOf(criteria: seq<Judgement>): seq<CriterionResult> {
    seq(|criteria|, i requires 0 <= i < |criteria| => CriterionResultOf(criteria[i]))
  }

  function MetResults(results: seq<CriterionResult>): nat {
    if results == [] then 0
    else MetResults(results[..|results| - 1]) + if results[|results| - 1].status == Met then 1 else 0
  }

  /** `texts` are the texts the criterion record accepts. */
  predicate Guarded(texts: set<string>, j: Judgement) {
    j.criterion in texts && j.rationale in texts
  }

  /** Recovery re-derives rubric, score and status; `None` when it raises. */
  function Recover(output: Output, rubric: seq<string>, texts: set<string>): Option<Recovered> {
    var results := ResultsOf(output.criteria);
    var expected :=
      if AllInsufficient(output.criteria) then Ungradable
      else if exists i :: 0 <= i < |results| && results[i].status == Uncertain then NeedsReview
      else Graded;
    if exists i :: 0 <= i < |output.criteria| && !Guarded(texts, output.criteria[i]) then None
    else if AL.CriteriaOf(results) != rubric then None
    else if !ScoreDecodes(output.score) then None
    else if output.score.denominator != |results| || output.score.numerator != MetResults(results) then None
    else if output.status != expected then None
    else Some(Recovered(output.status, results, output.score))
  }

  method RecoverLoop(output: Output, rubric: seq<string>, texts: set<string>) returns (r: Option<Recovered>)
    ensures r == Recover(output, rubric, texts)
  {
    var results: seq<CriterionResult> := [];
    for n := 0 to |output.criteria|
      invariant |results| == n
      invariant forall i :: 0 <= i < n ==>
        results[i] == CriterionResultOf(output.criteria[i]) && Guarded(texts, output.criteria[i])
    {
      if !Guarded(texts, output.criteria[n]) {
        return None;
      }
      results := results + [CriterionResultOf(output.criteria[n])];
    }
    assert results == ResultsOf(output.criteria);
    if AL.CriteriaOf(results) != rubric || !ScoreDecodes(output.score) {
      return None;
    }
    if output.score.denominator != |results| || output.score.numerator != MetResults(results) {
      return None;
    }
    var expected :=
      if AllInsufficient(output.criteria) then Ungradable
      else if exists i :: 0 <= i < |results| && results[i].status == Uncertain then NeedsReview
      else Graded;
    if output.status != expected {
      return None;
    }
    r := Some(Recovered(output.status, results, output.score));
  }

  // ------------------------------------------------------------- round trip

  lemma {:induction false} MetCountsAgree(criteria: seq<Judgement>)
    ensures MetResults(ResultsOf(criteria)) == MetJudgements(criteria) <= |criteria|
  {
    if criteria != [] {
      var n := |criteria| - 1;
      MetCountsAgree(criteria[..n]);
      assert ResultsOf(criteria)[..n] == ResultsOf(criteria[..n]);
    }
  }

  lemma UncertaintyAgrees(criteria: seq<Judgement>)
    ensures (exists i :: 0 <= i < |criteria| && criteria[i].status == Uncertain)
       <==> (exists i :: 0 <= i < |ResultsOf(criteria)| && ResultsOf(criteria)[i].status == Uncertain)
  {
    var results := ResultsOf(criteria);
    if i :| 0 <= i < |criteria| && criteria[i].status == Uncertain {
      assert results[i].status == Uncertain;
    }
  }

  /** For drafted judgements of the rubric whose texts are recordable: recovery accepts an output for them
      exactly when its status and score are the derived ones, and then returns them unchanged. */
  lemma RecoveryAcceptsExactlyTheDerivedGrade(
    draft: seq<Judgement>, texts: set<string>, status: GradeStatus, score: Score)
    requires DraftOk(draft) && forall i :: 0 <= i < |draft| ==> Guarded(texts, draft[i])
    ensures var rubric := AL.CriteriaOf(ResultsOf(draft));
      Recover(Output(status, draft, score), rubric, texts) ==
        if Output(status, draft, score) == FinalGrade(draft) then Some(Recovered(status, ResultsOf(draft), score))
          else None
  {
    MetCountsAgree(draft);
    UncertaintyAgrees(draft);
  }

  // -------------------------------------------------- judgement by judgement

  /** The positions of the met criteria. */
  ghost function MetAt(criteria: seq<Judgement>): set<int> {
    set i | 0 <= i < |criteria| && criteria[i].status == Met
  }

  lemma {:induction false} MetAtCounts(criteria: seq<Judgement>)
    ensures |MetAt(criteria)| == MetJudgements(criteria)
  {
    if criteria != [] {
      var n := |criteria| - 1;
      MetAtCounts(criteria[..n]);
      assert MetAt(criteria) == MetAt(criteria[..n]) + if criteria[n].status == Met then {n} else {};
    }
  }

  /** Ungradable exactly when all evidence is insufficient; otherwise under review exactly when some criterion is
      uncertain. */
  ghost predicate StatusFollows(criteria: seq<Judgement>, status: GradeStatus) {
    var insufficient := forall i :: 0 <= i < |criteria| ==> criteria[i].insufficient;
    var uncertain := exists i :: 0 <= i < |criteria| && criteria[i].status == Uncertain;
    && (status == Ungradable <==> insufficient)
    && (status == NeedsReview <==> !insufficient && uncertain)
    && (status == Graded <==> !insufficient && !uncertain)
  }

  /** A derived grade keeps the judgements, scores one per met criterion out of one per criterion, and has the status
      they call for. */
  lemma DerivedGradeFollowsJudgements(draft: seq<Judgement>)
    ensures var g := FinalGrade(draft);
      g.criteria == draft && g.score == Score(|MetAt(draft)|, |draft|) && StatusFollows(draft, g.status)
  {
    MetAtCounts(draft);
  }

  /** The result of each judgement is its criterion, status and rationale. */
  ghost predicate ResultsFollow(criteria: seq<Judgement>, results: seq<CriterionResult>) {
    && |results| == |criteria|
    && forall i :: 0 <= i < |criteria| ==>
      && results[i].criterion == criteria[i].criterion
      && results[i].status == criteria[i].status
      && results[i].rationale == criteria[i].rationale
  }

  /** Recovery accepts an output exactly when every text is recordable, the criteria are the rubric's in order, the
      score counts the met criteria of a non-empty list, and the status follows; it returns the judgements as
      results. */
  lemma RecoveryExactly(output: Output, rubric: seq<string>, texts: set<string>)
    ensures Recover(output, rubric, texts).Some? <==>
      && output.criteria != [] && |rubric| == |output.criteria|
      && (forall i :: 0 <= i < |rubric| ==>
            && output.criteria[i].criterion == rubric[i]
            && output.criteria[i].criterion in texts && output.criteria[i].rationale in texts)
      && output.score == Score(|MetAt(output.criteria)|, |output.criteria|)
      && StatusFollows(output.criteria, output.status)
    ensures var r := Recover(output, rubric, texts);
      r.Some? ==>
        && r.value.status == output.status && r.value.score == output.score
        && ResultsFollow(output.criteria, r.value.results)
  {
    var results := ResultsOf(output.criteria);
    MetAtCounts(output.criteria);
    MetCountsAgree(output.criteria);
    UncertaintyAgrees(output.criteria);
    if |rubric| == |results| && forall i :: 0 <= i < |rubric| ==> output.criteria[i].criterion == rubric[i] {
      assert AL.CriteriaOf(results) == rubric;
    }
  }

  lemma {:induction false} NoneMet(criteria: seq<Judgement>)
    requires forall i :: 0 <= i < |criteria| ==> criteria[i].status != Met
    ensures MetJudgements(criteria) == 0
  {
    if criteria != [] {
      NoneMet(criteria[..|criteria| - 1]);
    }
  }

  /** A derived grade is recordable, and its status says what its criteria do: ungradable scores nothing, graded
      leaves nothing uncertain. */
  lemma DerivedGradeIsSound(draft: seq<Judgement>)
    requires DraftOk(draft)
    ensures var g := FinalGrade(draft);
      && ScoreDecodes(g.score)
      && (g.status == Ungradable ==> g.score.numerator == 0 && forall i :: 0 <= i < |draft| ==>
        draft[i].status == Uncertain)
      && (g.status == Graded ==> forall i :: 0 <= i < |draft| ==> draft[i].status != Uncertain)
      && (g.status == NeedsReview ==> g.score.numerator < g.score.denominator)
  {
    MetCountsAgree(draft);
    if AllInsufficient(draft) {
      forall i | 0 <= i < |draft| ensures draft[i].status == Uncertain {
        assert JudgementFits(draft[i]);
      }
      NoneMet(draft);
    } else if i :| 0 <= i < |draft| && draft[i].status == Uncertain {
      SomeUnmet(draft, i);
    }
  }

  lemma {:induction false} SomeUnmet(criteria: seq<Judgement>, i: int)
    requires 0 <= i < |criteria| && criteria[i].status != Met
    ensures MetJudgements(criteria) < |criteria|
  {
    var n := |criteria| - 1;
    if i < n {
      SomeUnmet(criteria[..n], i);
    } else {
      MetCountsAgree(criteria[..n]);
    }
  }
}
