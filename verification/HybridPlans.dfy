/** The checker of hybrid flashcard drafts, as the loops it is: topic plans and public omissions in bijection, every
    card within its topics' evidence, sections over details in a two-level forest, no card contained in another. */
module HybridPlans {
  import opened Domain
  import opened Collections
  import opened Candidates

  datatype TopicDisposition = Generate | OmitScaffolding | Omit
  datatype TopicPlan = TopicPlan(topic: string, disposition: TopicDisposition, keys: seq<string>,
    reason: Option<string>)
  datatype HybridDraft = HybridDraft(plans: seq<TopicPlan>, batch: CandidateBatch, details: seq<string>)

  // ------------------------------------------------------ plans and omissions

  /** A generating topic has cards or a reason, not both; any other topic has no cards. */
  predicate PlanOk(cards: set<string>, plan: TopicPlan) {
    && (forall i :: 0 <= i < |plan.keys| ==> plan.keys[i] in cards)
    && (if plan.disposition == Generate then (plan.keys != []) != plan.reason.Some? else plan.keys == [])
  }

  /** Omission `m` states the plan's reason with exactly its topic's evidence. */
  predicate Explains(scope: TopicScope, plan: TopicPlan, omission: Omission) {
    plan.reason == Some(omission.reason) && (set h | h in omission.evidence) == Handles(scope, plan.topic)
  }

  function Explaining(scope: TopicScope, plan: TopicPlan, omissions: seq<Omission>): (r: seq<int>)
    ensures forall m :: m in r <==> 0 <= m < |omissions| && Explains(scope, plan, omissions[m])
    ensures Distinct(r)
  {
    if omissions == [] then []
    else
      var n := |omissions| - 1;
      var before := Explaining(scope, plan, omissions[..n]);
      assert forall m :: 0 <= m < n ==> omissions[..n][m] == omissions[m];
      assert n !in before;
      DistinctSnoc(before, n);
      if Explains(scope, plan, omissions[n]) then before + [n] else before
  }

  /** Plan `p` is explained by omission `m`. */
  ghost predicate Paired(scope: TopicScope, plans: seq<TopicPlan>, omissions: seq<Omission>, p: int, m: int) {
    0 <= p < |plans| && 0 <= m < |omissions| && plans[p].reason.Some? && Explains(scope, plans[p], omissions[m])
  }

  ghost predicate HasOmission(scope: TopicScope, plans: seq<TopicPlan>, omissions: seq<Omission>, p: int) {
    exists m :: Paired(scope, plans, omissions, p, m)
  }

  ghost predicate HasPlan(scope: TopicScope, plans: seq<TopicPlan>, omissions: seq<Omission>, m: int) {
    exists p :: Paired(scope, plans, omissions, p, m)
  }

  /** Pairing is one to one between the reason-bearing plans and the public omissions, and total on both sides. */
  ghost predicate Bijective(scope: TopicScope, plans: seq<TopicPlan>, omissions: seq<Omission>) {
    && Injective(scope, plans, omissions)
    && (forall p :: 0 <= p < |plans| && plans[p].reason.Some? ==> HasOmission(scope, plans, omissions, p))
    && (forall m :: 0 <= m < |omissions| ==> HasPlan(scope, plans, omissions, m))
  }

  ghost predicate Injective(scope: TopicScope, plans: seq<TopicPlan>, omissions: seq<Omission>) {
    && (forall p, m, n :: Paired(scope, plans, omissions, p, m) && Paired(scope, plans, omissions, p, n) ==> m == n)
    && (forall p, q, m :: Paired(scope, plans, omissions, p, m) && Paired(scope, plans, omissions, q, m) ==> p == q)
  }

  // -------------------------------------------------------------- assignments

  type Assignments = map<string, set<string>>

  /** Card `k` is assigned topic `t` by one of the first `n` plans. */
  ghost predicate AssignedBy(plans: seq<TopicPlan>, n: int, k: string, t: string)
    requires 0 <= n <= |plans|
  {
    exists p :: 0 <= p < n && k in plans[p].keys && plans[p].topic == t
  }

  ghost predicate Assigns(assignments: Assignments, plans: seq<TopicPlan>, n: int)
    requires 0 <= n <= |plans|
  {
    forall k, t :: k in assignments ==> (t in assignments[k] <==> AssignedBy(plans, n, k, t))
  }

  method AssignAll(before: Assignments, keys: seq<string>, topic: string) returns (assignments: Assignments)
    requires forall i :: 0 <= i < |keys| ==> keys[i] in before
    ensures assignments.Keys == before.Keys
    ensures forall k, t :: k in before ==> (t in assignments[k] <==> t in before[k] || (t == topic && k in keys))
  {
    assignments := before;
    for n := 0 to |keys|
      invariant assignments.Keys == before.Keys
      invariant forall k, t :: k in before ==>
        (t in assignments[k] <==> t in before[k] || (t == topic && k in keys[..n]))
    {
      assert keys[..n + 1] == keys[..n] + [keys[n]];
      assignments := assignments[keys[n] := assignments[keys[n]] + {topic}];
    }
    assert keys[..|keys|] == keys;
  }

  lemma AssignsStep(before: Assignments, after: Assignments, plans: seq<TopicPlan>, n: nat)
    requires n < |plans| && Assigns(before, plans, n) && after.Keys == before.Keys
    requires forall k, t :: k in before ==>
      (t in after[k] <==> t in before[k] || (t == plans[n].topic && k in plans[n].keys))
    ensures Assigns(after, plans, n + 1)
  {
    forall k, t | k in after ensures t in after[k] <==> AssignedBy(plans, n + 1, k, t) {
      assert AssignedBy(plans, n + 1, k, t) <==>
        AssignedBy(plans, n, k, t) || (k in plans[n].keys && plans[n].topic == t);
    }
  }

  // ---------------------------------------------------------- the topic loop

  ghost predicate UsedBy(scope: TopicScope, plans: seq<TopicPlan>, omissions: seq<Omission>, n: int, m: int) {
    exists p :: p < n && Paired(scope, plans, omissions, p, m)
  }

  /** What the loop has established about the first `n` plans. */
  ghost predicate PairedUpTo(
    scope: TopicScope, plans: seq<TopicPlan>, omissions: seq<Omission>, uses: set<int>, n: int) {
    && (forall m :: m in uses <==> UsedBy(scope, plans, omissions, n, m))
    && (forall p :: 0 <= p < n && p < |plans| && plans[p].reason.Some? ==> HasOmission(scope, plans, omissions, p))
    && (forall p, m, k :: p < n && Paired(scope, plans, omissions, p, m) && Paired(scope, plans, omissions, p, k) ==>
      m == k)
    && (forall p, q, m ::
          && p < n && q < n
          && Paired(scope, plans, omissions, p, m) && Paired(scope, plans, omissions, q, m)
          ==> p == q)
  }

  lemma PairedStep(scope: TopicScope, plans: seq<TopicPlan>, omissions: seq<Omission>, uses: set<int>, n: nat, m: int)
    requires n < |plans| && PairedUpTo(scope, plans, omissions, uses, n) && plans[n].reason.Some?
    requires m !in uses && (forall k :: Paired(scope, plans, omissions, n, k) <==> k == m)
    ensures PairedUpTo(scope, plans, omissions, uses + {m}, n + 1)
  {
    assert Paired(scope, plans, omissions, n, m);
    assert HasOmission(scope, plans, omissions, n);
    forall k ensures UsedBy(scope, plans, omissions, n + 1, k) <==> UsedBy(scope, plans, omissions, n, k) || k == m {
      if k == m { assert UsedBy(scope, plans, omissions, n + 1, k); }
    }
    forall p, q, k | p < n + 1 && q < n + 1 && Paired(scope, plans, omissions, p, k) &&
      Paired(scope, plans, omissions, q, k) ensures p == q {
      assert p < n || q < n ==> UsedBy(scope, plans, omissions, n, k);
    }
  }

  lemma PairedSkip(scope: TopicScope, plans: seq<TopicPlan>, omissions: seq<Omission>, uses: set<int>, n: nat)
    requires n < |plans| && PairedUpTo(scope, plans, omissions, uses, n) && plans[n].reason.None?
    ensures PairedUpTo(scope, plans, omissions, uses, n + 1)
  {
    forall k ensures UsedBy(scope, plans, omissions, n + 1, k) <==> UsedBy(scope, plans, omissions, n, k) {
    }
  }

  /** The matching indices of a plan are its pairs. */
  lemma ExplainingPairs(scope: TopicScope, plans: seq<TopicPlan>, omissions: seq<Omission>, p: nat)
    requires p < |plans| && plans[p].reason.Some?
    ensures var found := Explaining(scope, plans[p], omissions);
      && (forall m :: m in found <==> Paired(scope, plans, omissions, p, m))
      && (|found| == 1 ==> forall k :: Paired(scope, plans, omissions, p, k) <==> k == found[0])
      && (|found| != 1 ==> !(HasOmission(scope, plans, omissions, p) && Injective(scope, plans, omissions)))
  {
    var found := Explaining(scope, plans[p], omissions);
    if |found| > 1 {
      assert Paired(scope, plans, omissions, p, found[0]) && Paired(scope, plans, omissions, p, found[1]) &&
        found[0] != found[1] by {
        assert found[0] in found && found[1] in found;
      }
    } else if found == [] {
      assert forall m :: Paired(scope, plans, omissions, p, m) ==> m in found;
    }
  }

  /** A used index shows that two plans share an omission. */
  lemma SharedBreaks(scope: TopicScope, plans: seq<TopicPlan>, omissions: seq<Omission>, uses: set<int>, n: nat, m: int)
    requires n < |plans| && PairedUpTo(scope, plans, omissions, uses, n) && m in uses
    requires Paired(scope, plans, omissions, n, m)
    ensures !Injective(scope, plans, omissions)
  {
    var p :| p < n && Paired(scope, plans, omissions, p, m);
  }

  lemma PairedAll(scope: TopicScope, plans: seq<TopicPlan>, omissions: seq<Omission>, uses: set<int>)
    requires PairedUpTo(scope, plans, omissions, uses, |plans|)
    ensures uses == Range(|omissions|) <==> Bijective(scope, plans, omissions)
  {
    forall m ensures UsedBy(scope, plans, omissions, |plans|, m) <==> HasPlan(scope, plans, omissions, m) {
    }
    forall m | m in uses ensures m in Range(|omissions|) {
      assert UsedBy(scope, plans, omissions, |plans|, m);
    }
  }

  /** The loop over topic plans. */
  method WalkTopics(scope: TopicScope, cards: set<string>, plans: seq<TopicPlan>, omissions: seq<Omission>)
    returns (ok: bool, assignments: Assignments, uses: set<int>)
    ensures ok ==> forall p :: 0 <= p < |plans| ==> PlanOk(cards, plans[p])
    ensures ok ==> PairedUpTo(scope, plans, omissions, uses, |plans|)
    ensures ok ==> assignments.Keys == cards && Assigns(assignments, plans, |plans|)
    ensures !ok ==> (exists p :: 0 <= p < |plans| && !PlanOk(cards, plans[p])) || !Bijective(scope, plans, omissions)
  {
    assignments := map k | k in cards :: {};
    uses := {};
    for n := 0 to |plans|
      invariant forall p :: 0 <= p < n ==> PlanOk(cards, plans[p])
      invariant PairedUpTo(scope, plans, omissions, uses, n)
      invariant assignments.Keys == cards && Assigns(assignments, plans, n)
    {
      var plan := plans[n];
      if !PlanOk(cards, plan) {
        ok := false;
        return;
      }
      ghost var before := assignments;
      assignments := AssignAll(assignments, plan.keys, plan.topic);
      AssignsStep(before, assignments, plans, n);
      if plan.reason.Some? {
        var matching := Explaining(scope, plan, omissions);
        ExplainingPairs(scope, plans, omissions, n);
        if |matching| != 1 {
          ok := false;
          return;
        }
        if matching[0] in uses {
          SharedBreaks(scope, plans, omissions, uses, n, matching[0]);
          ok := false;
          return;
        }
        PairedStep(scope, plans, omissions, uses, n, matching[0]);
        uses := uses + {matching[0]};
      } else {
        PairedSkip(scope, plans, omissions, uses, n);
      }
    }
    ok := true;
  }

  // ----------------------------------------------------------------- evidence

  function KeySet(candidates: seq<Candidate>): set<string> {
    set k | k in KeysOf(candidates)
  }

  /** Some plan that lists the card is about a topic with this handle. */
  ghost predicate Permits(scope: TopicScope, plans: seq<TopicPlan>, k: string, h: string) {
    exists p :: 0 <= p < |plans| && k in plans[p].keys && h in Handles(scope, plans[p].topic)
  }

  ghost predicate Planned(plans: seq<TopicPlan>, k: string) {
    exists p :: 0 <= p < |plans| && k in plans[p].keys
  }

  /** The card belongs to a topic and cites only its topics' evidence. */
  ghost predicate CardGrounded(scope: TopicScope, plans: seq<TopicPlan>, c: Candidate) {
    Planned(plans, c.key) && forall i :: 0 <= i < |c.evidence| ==> Permits(scope, plans, c.key, c.evidence[i])
  }

  function Permitted(scope: TopicScope, topics: set<string>): set<string> {
    set t, h | t in topics && h in Handles(scope, t) :: h
  }

  lemma PermittedExactly(scope: TopicScope, plans: seq<TopicPlan>, assignments: Assignments, k: string, h: string)
    requires Assigns(assignments, plans, |plans|) && k in assignments
    ensures h in Permitted(scope, assignments[k]) <==> Permits(scope, plans, k, h)
    ensures assignments[k] != {} <==> Planned(plans, k)
  {
    if Permits(scope, plans, k, h) {
      var p :| 0 <= p < |plans| && k in plans[p].keys && h in Handles(scope, plans[p].topic);
      assert AssignedBy(plans, |plans|, k, plans[p].topic);
    }
    if Planned(plans, k) {
      var p :| 0 <= p < |plans| && k in plans[p].keys;
      assert AssignedBy(plans, |plans|, k, plans[p].topic);
    }
    if h in Permitted(scope, assignments[k]) {
      var t :| t in assignments[k] && h in Handles(scope, t);
      assert AssignedBy(plans, |plans|, k, t);
    }
    if assignments[k] != {} {
      var t :| t in assignments[k];
      assert AssignedBy(plans, |plans|, k, t);
    }
  }

  method CheckEvidence(
    scope: TopicScope, plans: seq<TopicPlan>, candidates: seq<Candidate>, assignments: Assignments) returns (ok: bool)
    requires Assigns(assignments, plans, |plans|) && assignments.Keys == KeySet(candidates)
    ensures ok <==> forall i :: 0 <= i < |candidates| ==> CardGrounded(scope, plans, candidates[i])
  {
    for n := 0 to |candidates|
      invariant forall i :: 0 <= i < n ==> CardGrounded(scope, plans, candidates[i])
    {
      var c := candidates[n];
      assert KeysOf(candidates)[n] == c.key;
      forall h ensures h in Permitted(scope, assignments[c.key]) <==> Permits(scope, plans, c.key, h) {
        PermittedExactly(scope, plans, assignments, c.key, h);
      }
      PermittedExactly(scope, plans, assignments, c.key, "");
      var permitted := Permitted(scope, assignments[c.key]);
      if assignments[c.key] == {} || exists i :: 0 <= i < |c.evidence| && c.evidence[i] !in permitted {
        assert !CardGrounded(scope, plans, candidates[n]);
        return false;
      }
    }
    ok := true;
  }

  // ---------------------------------------------------------------- hierarchy

  function Rank(role: Role): int {
    if role == SectionRole then 0 else 1
  }

  function Ranks(candidates: seq<Candidate>): seq<int> {
    seq(|candidates|, i requires 0 <= i < |candidates| => Rank(candidates[i].role))
  }

  /** A section is a root; a detail hangs from an earlier section. */
  ghost predicate Placed(candidates: seq<Candidate>, i: int)
    requires 0 <= i < |candidates|
  {
    var c := candidates[i];
    && c.directRecall && !c.morphology && c.media == []
    && match c.role
       case SectionRole => c.parent == None
       case DetailRole =>
         && c.parent.Some?
         && exists j :: 0 <= j < i && candidates[j].key == c.parent.value && candidates[j].role == SectionRole
       case _ => false
  }

  /** Sections first, then details, each detail under a section: a forest of two levels. */
  ghost predicate TwoLevels(candidates: seq<Candidate>) {
    && (forall i :: 0 <= i < |candidates| ==> Placed(candidates, i))
    && SectionsFirst(candidates)
  }

  ghost predicate SectionsFirst(candidates: seq<Candidate>) {
    forall i, j :: 0 <= i < j < |candidates| ==> Rank(candidates[i].role) <= Rank(candidates[j].role)
  }

  ghost predicate HasSeenRoles(seen: map<string, Role>, candidates: seq<Candidate>, n: int)
    requires 0 <= n <= |candidates|
  {
    && (forall k :: k in seen ==> exists j :: 0 <= j < n && candidates[j].key == k && candidates[j].role == seen[k])
    && (forall j :: 0 <= j < n ==> candidates[j].key in seen && seen[candidates[j].key] == candidates[j].role)
  }

  method CheckPlaces(candidates: seq<Candidate>) returns (ok: bool)
    requires Distinct(KeysOf(candidates))
    ensures ok <==> forall i :: 0 <= i < |candidates| ==> Placed(candidates, i)
  {
    var seen: map<string, Role> := map[];
    for n := 0 to |candidates|
      invariant forall i :: 0 <= i < n ==> Placed(candidates, i)
      invariant HasSeenRoles(seen, candidates, n)
    {
      var c := candidates[n];
      if c.role !in {SectionRole, DetailRole} || !c.directRecall || c.morphology || c.media != [] {
        assert !Placed(candidates, n);
        return false;
      }
      if c.role == SectionRole {
        if c.parent.Some? {
          assert !Placed(candidates, n);
          return false;
        }
      } else if c.parent.None? || c.parent.value !in seen || seen[c.parent.value] != SectionRole {
        assert !Placed(candidates, n);
        return false;
      }
      assert Placed(candidates, n);
      RememberNext(seen, candidates, n);
      seen := seen[c.key := c.role];
    }
    ok := true;
  }

  lemma RememberNext(seen: map<string, Role>, candidates: seq<Candidate>, n: nat)
    requires n < |candidates| && Distinct(KeysOf(candidates)) && HasSeenRoles(seen, candidates, n)
    ensures HasSeenRoles(seen[candidates[n].key := candidates[n].role], candidates, n + 1)
  {
    var keys := KeysOf(candidates);
    forall j | 0 <= j < n ensures candidates[j].key != candidates[n].key {
      assert keys[j] != keys[n];
    }
  }

  lemma RanksAscend(candidates: seq<Candidate>)
    ensures Ascending(Ranks(candidates)) <==> SectionsFirst(candidates)
  {
    var ranks := Ranks(candidates);
    if Ascending(ranks) {
      forall i, j | 0 <= i < j < |candidates| ensures Rank(candidates[i].role) <= Rank(candidates[j].role) {
        assert ranks[i] <= ranks[j];
      }
    }
  }

  method CheckHierarchy(candidates: seq<Candidate>) returns (ok: bool)
    requires Distinct(KeysOf(candidates))
    ensures ok <==> TwoLevels(candidates)
  {
    var ranks := Ranks(candidates);
    SortedIffAscending(ranks);
    RanksAscend(candidates);
    if ranks != Sort(AtMost, ranks) {
      return false;
    }
    ok := CheckPlaces(candidates);
  }

  // -------------------------------------------------------------- the checker

  function DetailKeys(candidates: seq<Candidate>): set<string> {
    set i | 0 <= i < |candidates| && candidates[i].role == DetailRole :: candidates[i].key
  }

  function TopicsOf(plans: seq<TopicPlan>): seq<string> {
    seq(|plans|, p requires 0 <= p < |plans| => plans[p].topic)
  }

  // ------------------------------------------------------------------- texts

  predicate StartsAt(part: string, whole: string, i: int) {
    0 <= i <= |whole| - |part| && whole[i..i + |part|] == part
  }

  predicate Within(part: string, whole: string) {
    exists i :: 0 <= i <= |whole| && StartsAt(part, whole, i)
  }

  /** One card's prompt and answer are both contained in the other's. */
  predicate SaysLess(c: Candidate, d: Candidate) {
    Within(c.prompt, d.prompt) && Within(c.answer, d.answer)
  }

  /** Texts are present and distinct, and no card is contained in another. */
  ghost predicate TextsApart(candidates: seq<Candidate>) {
    && NoneEmpty(PromptsOf(candidates)) && NoneEmpty(AnswersOf(candidates))
    && Distinct(PromptsOf(candidates)) && Distinct(AnswersOf(candidates)) && Distinct(ContentsOf(candidates))
    && forall i, j :: 0 <= i < |candidates| && 0 <= j < |candidates| && i != j ==>
      !SaysLess(candidates[i], candidates[j])
  }

  /** The containment check, over every pair once. */
  method CheckContainment(candidates: seq<Candidate>) returns (ok: bool)
    ensures ok <==> forall i, j :: 0 <= i < |candidates| && 0 <= j < |candidates| && i != j ==>
      !SaysLess(candidates[i], candidates[j])
  {
    for n := 0 to |candidates|
      invariant forall i, j :: 0 <= i < n && 0 <= j < |candidates| && i != j ==>
        !SaysLess(candidates[i], candidates[j]) && !SaysLess(candidates[j], candidates[i])
    {
      for m := n + 1 to |candidates|
        invariant forall j :: n < j < m ==>
          !SaysLess(candidates[n], candidates[j]) && !SaysLess(candidates[j], candidates[n])
      {
        if SaysLess(candidates[n], candidates[m]) || SaysLess(candidates[m], candidates[n]) {
          return false;
        }
      }
    }
    ok := true;
  }

  method CheckTexts(candidates: seq<Candidate>) returns (ok: bool)
    ensures ok <==> TextsApart(candidates)
  {
    if !NoneEmpty(PromptsOf(candidates)) || !NoneEmpty(AnswersOf(candidates)) {
      return false;
    }
    if !Distinct(PromptsOf(candidates)) || !Distinct(AnswersOf(candidates)) || !Distinct(ContentsOf(candidates)) {
      return false;
    }
    ok := CheckContainment(candidates);
  }

  /** What an accepted hybrid draft is. */
  ghost predicate Accepts(scope: TopicScope, ports: Ports, ceiling: int, draft: HybridDraft) {
    var batch := draft.batch;
    && |batch.candidates| <= ceiling && |batch.candidates| <= 24
    && TopicsOf(draft.plans) == scope.active
    && (forall p :: 0 <= p < |draft.plans| ==> PlanOk(KeySet(batch.candidates), draft.plans[p]))
    && Bijective(scope, draft.plans, batch.omissions)
    && (forall i :: 0 <= i < |batch.candidates| ==> CardGrounded(scope, draft.plans, batch.candidates[i]))
    && TwoLevels(batch.candidates)
    && (set k | k in draft.details) == DetailKeys(batch.candidates)
    && TextsApart(batch.candidates)
    && EvidenceResolves(scope, ports, batch)
  }

  method CheckTopicsAndCards(scope: TopicScope, draft: HybridDraft) returns (ok: bool)
    ensures ok <==>
      && (forall p :: 0 <= p < |draft.plans| ==> PlanOk(KeySet(draft.batch.candidates), draft.plans[p]))
      && Bijective(scope, draft.plans, draft.batch.omissions)
      && (forall i :: 0 <= i < |draft.batch.candidates| ==> CardGrounded(scope, draft.plans, draft.batch.candidates[i]))
  {
    var batch := draft.batch;
    var assignments, uses;
    ok, assignments, uses := WalkTopics(scope, KeySet(batch.candidates), draft.plans, batch.omissions);
    if !ok {
      return;
    }
    PairedAll(scope, draft.plans, batch.omissions, uses);
    if uses != Range(|batch.omissions|) {
      ok := false;
      return;
    }
    ok := CheckEvidence(scope, draft.plans, batch.candidates, assignments);
  }

  /** The checker accepts exactly the drafts described. */
  method Validate(scope: TopicScope, ports: Ports, ceiling: int, draft: HybridDraft) returns (ok: bool)
    requires WellFormed(draft.batch)
    ensures ok <==> Accepts(scope, ports, ceiling, draft)
  {
    var batch := draft.batch;
    if |batch.candidates| > ceiling || |batch.candidates| > 24 || TopicsOf(draft.plans) != scope.active {
      return false;
    }
    ok := CheckTopicsAndCards(scope, draft);
    if !ok {
      return;
    }
    ok := CheckHierarchy(batch.candidates);
    if !ok || (set k | k in draft.details) != DetailKeys(batch.candidates) {
      return false;
    }
    ok := CheckTexts(batch.candidates);
    ok := ok && EvidenceResolves(scope, ports, batch);
  }
}
