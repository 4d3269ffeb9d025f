/** The checker of morphology flashcard drafts, as the loops it is, against what it is for: topics and candidates
    partitioned by plans that are one-macro stars, omissions matched one to one, cards within their evidence. */
module MorphologyPlans {
  import opened Domain
  import opened Collections
  import opened Candidates

  datatype ObjectPlan = ObjectPlan(topics: seq<string>, macro: string, atomics: seq<string>)
  datatype Exclusion = Exclusion(topic: string, index: int)
  datatype MorphologyDraft = MorphologyDraft(plans: seq<ObjectPlan>, batch: CandidateBatch, exclusions: seq<Exclusion>)

  /** What parsing a draft has already established. */
  ghost predicate Parsed(draft: MorphologyDraft) {
    && WellFormed(draft.batch)
    && forall p :: 0 <= p < |draft.plans| ==>
      draft.plans[p].topics != [] && Distinct(draft.plans[p].topics) && Distinct(draft.plans[p].atomics)
  }

  // ----------------------------------------------------------------- topics

  function Flatten(plans: seq<ObjectPlan>): seq<string> {
    if plans == [] then [] else Flatten(plans[..|plans| - 1]) + plans[|plans| - 1].topics
  }

  function ExcludedTopics(exclusions: seq<Exclusion>): seq<string> {
    seq(|exclusions|, i requires 0 <= i < |exclusions| => exclusions[i].topic)
  }

  predicate Disjoint(a: seq<string>, b: seq<string>) {
    forall i, j :: 0 <= i < |a| && 0 <= j < |b| ==> a[i] != b[j]
  }

  /** Every active topic belongs to exactly one plan or one exclusion, and nothing else is named. */
  ghost predicate TopicsPartitioned(active: seq<string>, plans: seq<ObjectPlan>, excluded: seq<string>) {
    && (forall p, q :: 0 <= p < q < |plans| ==> Disjoint(plans[p].topics, plans[q].topics))
    && (forall p :: 0 <= p < |plans| ==> Disjoint(plans[p].topics, excluded))
    && Distinct(excluded)
    && (forall t :: t in active <==> t in excluded || PlannedTopic(plans, t))
  }

  ghost predicate PlannedTopic(plans: seq<ObjectPlan>, t: string) {
    exists p :: 0 <= p < |plans| && t in plans[p].topics
  }

  lemma {:induction false} FlattenHolds(plans: seq<ObjectPlan>, t: string)
    ensures t in Flatten(plans) <==> PlannedTopic(plans, t)
  {
    if plans != [] {
      var n := |plans| - 1;
      FlattenHolds(plans[..n], t);
      assert forall p :: 0 <= p < n ==> plans[..n][p] == plans[p];
    }
  }

  lemma DistinctJoin(a: seq<string>, b: seq<string>)
    ensures Distinct(a + b) <==> Distinct(a) && Distinct(b) && Disjoint(a, b)
  {
    var all := a + b;
    if Distinct(all) {
      assert forall i :: 0 <= i < |a| ==> all[i] == a[i];
      assert forall j :: 0 <= j < |b| ==> all[|a| + j] == b[j];
    }
  }

  lemma {:induction false} FlattenDistinct(plans: seq<ObjectPlan>)
    requires forall p :: 0 <= p < |plans| ==> Distinct(plans[p].topics)
    ensures Distinct(Flatten(plans)) <==> forall p, q :: 0 <= p < q < |plans| ==>
      Disjoint(plans[p].topics, plans[q].topics)
  {
    if plans != [] {
      var n := |plans| - 1;
      FlattenDistinct(plans[..n]);
      DistinctJoin(Flatten(plans[..n]), plans[n].topics);
      FlattenDisjoint(plans[..n], plans[n].topics);
      assert forall p :: 0 <= p < n ==> plans[..n][p] == plans[p];
    }
  }

  lemma FlattenDisjoint(plans: seq<ObjectPlan>, b: seq<string>)
    ensures Disjoint(Flatten(plans), b) <==> forall p :: 0 <= p < |plans| ==> Disjoint(plans[p].topics, b)
  {
    var flat := Flatten(plans);
    if Disjoint(flat, b) {
      forall p, i, j | 0 <= p < |plans| && 0 <= i < |plans[p].topics| &&
        0 <= j < |b| ensures plans[p].topics[i] != b[j] {
        FlattenHolds(plans, plans[p].topics[i]);
        var k :| 0 <= k < |flat| && flat[k] == plans[p].topics[i];
      }
    } else {
      var k, j :| 0 <= k < |flat| && 0 <= j < |b| && flat[k] == b[j];
      FlattenHolds(plans, flat[k]);
      var p :| 0 <= p < |plans| && flat[k] in plans[p].topics;
      var i :| 0 <= i < |plans[p].topics| && plans[p].topics[i] == flat[k];
      assert !Disjoint(plans[p].topics, b);
    }
  }

  /** The check on the concatenated topics is the partition. */
  predicate TopicsChecked(active: seq<string>, plans: seq<ObjectPlan>, excluded: seq<string>) {
    var named := Flatten(plans) + excluded;
    Distinct(named) && (set t | t in named) == (set t | t in active)
  }

  lemma TopicsCheckedIsPartition(active: seq<string>, plans: seq<ObjectPlan>, excluded: seq<string>)
    requires forall p :: 0 <= p < |plans| ==> Distinct(plans[p].topics)
    ensures TopicsChecked(active, plans, excluded) <==> TopicsPartitioned(active, plans, excluded)
  {
    var named := Flatten(plans) + excluded;
    DistinctJoin(Flatten(plans), excluded);
    FlattenDistinct(plans);
    FlattenDisjoint(plans, excluded);
    forall t ensures t in named <==> t in excluded || PlannedTopic(plans, t) {
      FlattenHolds(plans, t);
    }
    var names, actives := set t | t in named, set t | t in active;
    assert names == actives <==> forall t :: t in named <==> t in active by {
      if names == actives {
        forall t ensures t in named <==> t in active {
          assert t in names <==> t in actives;
        }
      }
    }
  }

  // ------------------------------------------------------------------- order

  function PositionOf(active: seq<string>, t: string): int
    ensures t in active ==> 0 <= PositionOf(active, t) < |active| && active[PositionOf(active, t)] == t
  {
    if active == [] then 0 else if active[0] == t then 0 else 1 + PositionOf(active[1..], t)
  }

  function FirstPosition(active: seq<string>, topics: seq<string>): (r: int)
    requires topics != []
    ensures exists i :: 0 <= i < |topics| && r == PositionOf(active, topics[i])
    ensures forall i :: 0 <= i < |topics| ==> r <= PositionOf(active, topics[i])
  {
    var last := PositionOf(active, topics[|topics| - 1]);
    if |topics| == 1 then last
    else
      var before := FirstPosition(active, topics[..|topics| - 1]);
      assert forall i :: 0 <= i < |topics| - 1 ==> topics[..|topics| - 1][i] == topics[i];
      if before <= last then before else last
  }

  function Firsts(active: seq<string>, plans: seq<ObjectPlan>): seq<int>
    requires forall p :: 0 <= p < |plans| ==> plans[p].topics != []
  {
    seq(|plans|, p requires 0 <= p < |plans| => FirstPosition(active, plans[p].topics))
  }

  /** Plans follow the order of their first topics. */
  ghost predicate PlansInOrder(active: seq<string>, plans: seq<ObjectPlan>)
    requires forall p :: 0 <= p < |plans| ==> plans[p].topics != []
  {
    forall p, q :: 0 <= p < q < |plans| ==>
      FirstPosition(active, plans[p].topics) <= FirstPosition(active, plans[q].topics)
  }

  // ------------------------------------------------------------------- stars

  function ByKey(candidates: seq<Candidate>): map<string, Candidate> {
    Keyed(KeysOf(candidates), candidates)
  }

  function PlanKeys(plan: ObjectPlan): set<string> {
    {plan.macro} + set k | k in plan.atomics
  }

  /** One root macro with at most three atomics under it. */
  predicate IsStar(cards: map<string, Candidate>, plan: ObjectPlan) {
    && |plan.atomics| <= 3
    && PlanKeys(plan) <= cards.Keys
    && cards[plan.macro].role == MacroRole && cards[plan.macro].parent == None
    && forall i :: 0 <= i < |plan.atomics| ==>
      plan.atomics[i] in cards && cards[plan.atomics[i]].role == AtomicRole &&
        cards[plan.atomics[i]].parent == Some(plan.macro)
  }

  ghost predicate Owned(plans: seq<ObjectPlan>, k: string) {
    exists p :: 0 <= p < |plans| && k in PlanKeys(plans[p])
  }

  /** Every plan is a star and the plans partition the candidates. */
  ghost predicate StarsPartition(cards: map<string, Candidate>, plans: seq<ObjectPlan>) {
    && (forall p :: 0 <= p < |plans| ==> IsStar(cards, plans[p]))
    && (forall p, q :: 0 <= p < q < |plans| ==> PlanKeys(plans[p]) !! PlanKeys(plans[q]))
    && (forall k :: k in cards <==> Owned(plans, k))
  }

  /** What the loop has established about the first `n` plans. */
  ghost predicate StarsUpTo(cards: map<string, Candidate>, plans: seq<ObjectPlan>, owned: set<string>, n: int)
    requires 0 <= n <= |plans|
  {
    && (forall p :: 0 <= p < n ==> IsStar(cards, plans[p]))
    && (forall p, q :: 0 <= p < q < n ==> PlanKeys(plans[p]) !! PlanKeys(plans[q]))
    && (forall k :: k in owned <==> Owned(plans[..n], k))
  }

  lemma StarsStep(cards: map<string, Candidate>, plans: seq<ObjectPlan>, owned: set<string>, n: nat)
    requires n < |plans| && StarsUpTo(cards, plans, owned, n) && IsStar(cards, plans[n]) && owned !! PlanKeys(plans[n])
    ensures StarsUpTo(cards, plans, owned + PlanKeys(plans[n]), n + 1)
  {
    OwnedSnoc(plans, n);
    NewPlanIsApart(plans, owned, n);
  }

  lemma NewPlanIsApart(plans: seq<ObjectPlan>, owned: set<string>, n: nat)
    requires n < |plans| && (forall k :: k in owned <==> Owned(plans[..n], k)) && owned !! PlanKeys(plans[n])
    ensures forall p :: 0 <= p < n ==> PlanKeys(plans[p]) !! PlanKeys(plans[n])
  {
    forall p | 0 <= p < n ensures PlanKeys(plans[p]) !! PlanKeys(plans[n]) {
      OwnedBy(plans, n, p);
    }
  }

  /** A key owned twice shows that two plans overlap. */
  lemma SharedKeyBreaks(cards: map<string, Candidate>, plans: seq<ObjectPlan>, owned: set<string>, n: nat)
    requires n < |plans| && StarsUpTo(cards, plans, owned, n) && !(owned !! PlanKeys(plans[n]))
    ensures !StarsPartition(cards, plans)
  {
    var k :| k in owned && k in PlanKeys(plans[n]);
    assert Owned(plans[..n], k);
    var p :| 0 <= p < n && k in PlanKeys(plans[..n][p]);
    assert plans[..n][p] == plans[p] && !(PlanKeys(plans[p]) !! PlanKeys(plans[n]));
  }

  lemma OwnedIsAll(cards: map<string, Candidate>, plans: seq<ObjectPlan>, owned: set<string>)
    requires forall k :: k in owned <==> Owned(plans, k)
    ensures owned == cards.Keys <==> forall k :: k in cards <==> Owned(plans, k)
  {
    if forall k :: k in cards <==> Owned(plans, k) {
      assert forall k :: k in owned <==> k in cards.Keys;
    }
  }

  lemma StarsAll(cards: map<string, Candidate>, plans: seq<ObjectPlan>, owned: set<string>)
    requires StarsUpTo(cards, plans, owned, |plans|)
    ensures owned == cards.Keys <==> StarsPartition(cards, plans)
  {
    assert plans[..|plans|] == plans;
    OwnedIsAll(cards, plans, owned);
  }

  /** Every card of the first `n` plans is owned by its plan's topics. */
  ghost predicate OwnersUpTo(plans: seq<ObjectPlan>, owners: map<string, seq<string>>, n: int)
    requires 0 <= n <= |plans|
  {
    forall p, k :: 0 <= p < n && k in PlanKeys(plans[p]) ==> k in owners && owners[k] == plans[p].topics
  }

  lemma OwnersStep(plans: seq<ObjectPlan>, owners: map<string, seq<string>>, owned: set<string>, n: nat)
    requires n < |plans| && OwnersUpTo(plans, owners, n) && owned !! PlanKeys(plans[n])
    requires forall k :: k in owned <==> Owned(plans[..n], k)
    ensures OwnersUpTo(plans, owners + map k | k in PlanKeys(plans[n]) :: plans[n].topics, n + 1)
  {
    var later := owners + map k | k in PlanKeys(plans[n]) :: plans[n].topics;
    forall p, k | 0 <= p < n + 1 && k in PlanKeys(plans[p]) ensures k in later && later[k] == plans[p].topics {
      if p < n {
        OwnedBy(plans, n, p);
        assert k in owned;
      }
    }
  }

  method CheckStars(
    cards: map<string, Candidate>, plans: seq<ObjectPlan>) returns (ok: bool, owners: map<string, seq<string>>)
    ensures ok <==> StarsPartition(cards, plans)
    ensures ok ==> OwnersUpTo(plans, owners, |plans|)
  {
    var owned: set<string> := {};
    owners := map[];
    ok := false;
    for n := 0 to |plans|
      invariant StarsUpTo(cards, plans, owned, n) && OwnersUpTo(plans, owners, n) && !ok
    {
      var plan := plans[n];
      if !IsStar(cards, plan) {
        return;
      }
      if !(owned !! PlanKeys(plan)) {
        SharedKeyBreaks(cards, plans, owned, n);
        return;
      }
      StarsStep(cards, plans, owned, n);
      OwnersStep(plans, owners, owned, n);
      owned := owned + PlanKeys(plan);
      owners := owners + map k | k in PlanKeys(plan) :: plan.topics;
    }
    StarsAll(cards, plans, owned);
    ok := owned == cards.Keys;
  }

  lemma OwnedSnoc(plans: seq<ObjectPlan>, n: nat)
    requires n < |plans|
    ensures forall k :: Owned(plans[..n + 1], k) <==> Owned(plans[..n], k) || k in PlanKeys(plans[n])
  {
    assert forall p :: 0 <= p < n ==> plans[..n][p] == plans[p] && plans[..n + 1][p] == plans[p];
    assert plans[..n + 1][n] == plans[n];
    forall k | Owned(plans[..n], k) ensures Owned(plans[..n + 1], k) {
      var p :| 0 <= p < n && k in PlanKeys(plans[..n][p]);
      assert k in PlanKeys(plans[..n + 1][p]);
    }
    forall k | Owned(plans[..n + 1], k) ensures Owned(plans[..n], k) || k in PlanKeys(plans[n]) {
      var p :| 0 <= p < n + 1 && k in PlanKeys(plans[..n + 1][p]);
      if p < n { assert k in PlanKeys(plans[..n][p]); }
    }
  }

  lemma OwnedBy(plans: seq<ObjectPlan>, n: nat, p: nat)
    requires p < n <= |plans|
    ensures forall k :: k in PlanKeys(plans[p]) ==> Owned(plans[..n], k)
  {
    assert plans[..n][p] == plans[p];
  }

  // --------------------------------------------------------------- omissions

  ghost predicate IndexNamed(exclusions: seq<Exclusion>, n: int, m: int)
    requires 0 <= n <= |exclusions|
  {
    exists i :: 0 <= i < n && exclusions[i].index == m
  }

  /** The exclusions name each public omission exactly once, with exactly their topic's evidence. */
  ghost predicate OmissionsMatched(scope: TopicScope, exclusions: seq<Exclusion>, omissions: seq<Omission>) {
    && (forall i :: 0 <= i < |exclusions| ==> Matches(scope, exclusions[i], omissions))
    && (forall i, j :: 0 <= i < j < |exclusions| ==> exclusions[i].index != exclusions[j].index)
    && (forall m :: 0 <= m < |omissions| ==> IndexNamed(exclusions, |exclusions|, m))
  }

  predicate Matches(scope: TopicScope, x: Exclusion, omissions: seq<Omission>) {
    0 <= x.index < |omissions| && (set h | h in omissions[x.index].evidence) == Handles(scope, x.topic)
  }

  method CheckOmissions(scope: TopicScope, exclusions: seq<Exclusion>, omissions: seq<Omission>) returns (ok: bool)
    ensures ok <==> OmissionsMatched(scope, exclusions, omissions)
  {
    var used: set<int> := {};
    for n := 0 to |exclusions|
      invariant forall i :: 0 <= i < n ==> Matches(scope, exclusions[i], omissions)
      invariant forall i, j :: 0 <= i < j < n ==> exclusions[i].index != exclusions[j].index
      invariant forall m :: m in used <==> IndexNamed(exclusions, n, m)
    {
      var x := exclusions[n];
      if !(0 <= x.index < |omissions|) || x.index in used {
        assert x.index in used ==> IndexNamed(exclusions, n, x.index);
        assert !Matches(scope, exclusions[n], omissions) || x.index in used;
        return false;
      }
      used := used + {x.index};
      if (set h | h in omissions[x.index].evidence) != Handles(scope, x.topic) {
        assert !Matches(scope, exclusions[n], omissions);
        return false;
      }
      IndexNamedSnoc(exclusions, n);
    }
    forall m | m in used ensures m in Range(|omissions|) {
      var i :| 0 <= i < |exclusions| && exclusions[i].index == m;
      assert Matches(scope, exclusions[i], omissions);
    }
    ok := used == Range(|omissions|);
  }

  lemma IndexNamedSnoc(exclusions: seq<Exclusion>, n: nat)
    requires n < |exclusions|
    ensures forall m :: IndexNamed(exclusions, n + 1, m) <==> IndexNamed(exclusions, n, m) || m == exclusions[n].index
  {
  }

  // ------------------------------------------------------------ texts and cards

  /** Prompts are present and distinct, and no two candidates say the same. */
  predicate TextsDistinct(candidates: seq<Candidate>) {
    NoneEmpty(PromptsOf(candidates)) && Distinct(PromptsOf(candidates)) && Distinct(ContentsOf(candidates))
  }

  function HandlesOf(scope: TopicScope, topics: seq<string>): (r: set<string>)
    ensures forall h :: h in r <==> exists i :: 0 <= i < |topics| && h in Handles(scope, topics[i])
  {
    if topics == [] then {}
    else
      var n := |topics| - 1;
      assert forall i :: 0 <= i < n ==> topics[..n][i] == topics[i];
      HandlesOf(scope, topics[..n]) + Handles(scope, topics[n])
  }

  /** A media item linked to evidence of the card, under the trusted citation. */
  predicate MediaLinked(scope: TopicScope, ports: Ports, c: Candidate, m: string) {
    && m in ports.media && ports.media[m].handle == m
    && ports.media[m].evidence in c.evidence
    && ports.media[m].evidence in scope.trusted &&
      scope.trusted[ports.media[m].evidence].citation == ports.media[m].citation
  }

  predicate CitesWithin(scope: TopicScope, ports: Ports, topics: seq<string>, c: Candidate) {
    && c.evidence != []
    && (forall i :: 0 <= i < |c.evidence| ==> c.evidence[i] in HandlesOf(scope, topics))
    && (forall i :: 0 <= i < |c.media| ==> MediaLinked(scope, ports, c, c.media[i]))
  }

  /** The card cites only evidence of the topics of the plan it belongs to, and media linked to that evidence. */
  ghost predicate CardGrounded(scope: TopicScope, ports: Ports, plans: seq<ObjectPlan>, c: Candidate) {
    exists p :: 0 <= p < |plans| && c.key in PlanKeys(plans[p]) && CitesWithin(scope, ports, plans[p].topics, c)
  }

  lemma GroundedByOwner(
    scope: TopicScope, ports: Ports, plans: seq<ObjectPlan>, owners: map<string, seq<string>>, c: Candidate)
    requires Owned(plans, c.key) && OwnersUpTo(plans, owners, |plans|)
    ensures c.key in owners && (CitesWithin(scope, ports, owners[c.key], c) <==> CardGrounded(scope, ports, plans, c))
  {
    var p :| 0 <= p < |plans| && c.key in PlanKeys(plans[p]);
    assert owners[c.key] == plans[p].topics;
  }

  lemma CandidatesOwned(candidates: seq<Candidate>, plans: seq<ObjectPlan>)
    requires StarsPartition(ByKey(candidates), plans) && Distinct(KeysOf(candidates))
    ensures forall i :: 0 <= i < |candidates| ==> Owned(plans, candidates[i].key)
  {
    forall i | 0 <= i < |candidates| ensures Owned(plans, candidates[i].key) {
      CardAt(candidates, i);
    }
  }

  method CheckCards(
    scope: TopicScope, ports: Ports, candidates: seq<Candidate>, plans: seq<ObjectPlan>,
    owners: map<string, seq<string>>) returns (ok: bool)
    requires OwnersUpTo(plans, owners, |plans|) && forall i :: 0 <= i < |candidates| ==> Owned(plans, candidates[i].key)
    ensures ok <==> forall i :: 0 <= i < |candidates| ==> CardGrounded(scope, ports, plans, candidates[i])
  {
    for n := 0 to |candidates|
      invariant forall i :: 0 <= i < n ==> CardGrounded(scope, ports, plans, candidates[i])
    {
      GroundedByOwner(scope, ports, plans, owners, candidates[n]);
      if !CitesWithin(scope, ports, owners[candidates[n].key], candidates[n]) {
        return false;
      }
    }
    ok := true;
  }

  // -------------------------------------------------------------- the checker

  /** What an accepted morphology draft is. */
  ghost predicate Accepts(scope: TopicScope, ports: Ports, ceiling: int, draft: MorphologyDraft)
    requires Parsed(draft)
  {
    && |draft.batch.candidates| <= ceiling
    && TopicsPartitioned(scope.active, draft.plans, ExcludedTopics(draft.exclusions))
    && PlansInOrder(scope.active, draft.plans)
    && StarsPartition(ByKey(draft.batch.candidates), draft.plans)
    && TextsDistinct(draft.batch.candidates)
    && OmissionsMatched(scope, draft.exclusions, draft.batch.omissions)
    && (forall i :: 0 <= i < |draft.batch.candidates| ==>
      CardGrounded(scope, ports, draft.plans, draft.batch.candidates[i]))
    && EvidenceResolves(scope, ports, draft.batch)
  }

  method CheckTopics(scope: TopicScope, plans: seq<ObjectPlan>, excluded: seq<string>) returns (ok: bool)
    requires forall p :: 0 <= p < |plans| ==> plans[p].topics != [] && Distinct(plans[p].topics)
    ensures ok <==> TopicsPartitioned(scope.active, plans, excluded) && PlansInOrder(scope.active, plans)
  {
    TopicsCheckedIsPartition(scope.active, plans, excluded);
    var firsts := Firsts(scope.active, plans);
    SortedIffAscending(firsts);
    FirstsAscend(scope.active, plans);
    ok := TopicsChecked(scope.active, plans, excluded) && firsts == Sort(AtMost, firsts);
  }

  lemma FirstsAscend(active: seq<string>, plans: seq<ObjectPlan>)
    requires forall p :: 0 <= p < |plans| ==> plans[p].topics != []
    ensures Ascending(Firsts(active, plans)) <==> PlansInOrder(active, plans)
  {
    var firsts := Firsts(active, plans);
    assert forall p :: 0 <= p < |plans| ==> firsts[p] == FirstPosition(active, plans[p].topics);
  }

  /** The checker accepts exactly the drafts described. */
  method Validate(scope: TopicScope, ports: Ports, ceiling: int, draft: MorphologyDraft) returns (ok: bool)
    requires Parsed(draft)
    ensures ok <==> Accepts(scope, ports, ceiling, draft)
  {
    if |draft.batch.candidates| > ceiling {
      return false;
    }
    ok := CheckTopics(scope, draft.plans, ExcludedTopics(draft.exclusions));
    if !ok {
      return;
    }
    var owners;
    ok, owners := CheckStars(ByKey(draft.batch.candidates), draft.plans);
    if !ok {
      return;
    }
    if !TextsDistinct(draft.batch.candidates) {
      return false;
    }
    ok := CheckOmissions(scope, draft.exclusions, draft.batch.omissions);
    if !ok {
      return;
    }
    CandidatesOwned(draft.batch.candidates, draft.plans);
    ok := CheckCards(scope, ports, draft.batch.candidates, draft.plans, owners);
    ok := ok && EvidenceResolves(scope, ports, draft.batch);
  }

  lemma RoleInStar(cards: map<string, Candidate>, plan: ObjectPlan, k: string)
    requires IsStar(cards, plan) && k in PlanKeys(plan)
    ensures k in cards
    ensures if k == plan.macro then cards[k].role == MacroRole && cards[k].parent == None
            else cards[k].role == AtomicRole && cards[k].parent == Some(plan.macro)
  {
    if k != plan.macro {
      var i :| 0 <= i < |plan.atomics| && plan.atomics[i] == k;
    }
  }

  lemma OneOwner(plans: seq<ObjectPlan>, p: int, q: int, k: string)
    requires forall i, j :: 0 <= i < j < |plans| ==> PlanKeys(plans[i]) !! PlanKeys(plans[j])
    requires 0 <= p < |plans| && 0 <= q < |plans| && k in PlanKeys(plans[p]) && k in PlanKeys(plans[q])
    ensures p == q
  {
  }

  lemma StarOf(cards: map<string, Candidate>, plans: seq<ObjectPlan>, k: string) returns (p: int)
    requires StarsPartition(cards, plans) && k in cards
    ensures 0 <= p < |plans| && k in PlanKeys(plans[p])
    ensures forall q :: 0 <= q < |plans| && k in PlanKeys(plans[q]) ==> q == p
    ensures if k == plans[p].macro then cards[k].role == MacroRole && cards[k].parent == None
            else cards[k].role == AtomicRole && cards[k].parent == Some(plans[p].macro)
  {
    assert Owned(plans, k);
    p :| 0 <= p < |plans| && k in PlanKeys(plans[p]);
    RoleInStar(cards, plans[p], k);
    forall q | 0 <= q < |plans| && k in PlanKeys(plans[q]) ensures q == p {
      OneOwner(plans, p, q, k);
    }
  }

  /** In an accepted draft every candidate belongs to one plan, and is either that plan's parentless macro or an
      atomic whose parent is that macro: the parent relation is exactly the stars. */
  lemma CandidatesFormStars(
    scope: TopicScope, ports: Ports, ceiling: int, draft: MorphologyDraft, i: int) returns (p: int)
    requires Parsed(draft) && Accepts(scope, ports, ceiling, draft) && 0 <= i < |draft.batch.candidates|
    ensures 0 <= p < |draft.plans|
    ensures var c, plan := draft.batch.candidates[i], draft.plans[p];
      && c.key in PlanKeys(plan)
      && (forall q :: 0 <= q < |draft.plans| && c.key in PlanKeys(draft.plans[q]) ==> q == p)
      && (if c.key == plan.macro
          then c.role == MacroRole && c.parent == None
          else c.role == AtomicRole && c.parent == Some(plan.macro))
  {
    CardAt(draft.batch.candidates, i);
    p := StarOf(ByKey(draft.batch.candidates), draft.plans, draft.batch.candidates[i].key);
  }

  lemma CardAt(candidates: seq<Candidate>, i: int)
    requires Distinct(KeysOf(candidates)) && 0 <= i < |candidates|
    ensures candidates[i].key in ByKey(candidates) && ByKey(candidates)[candidates[i].key] == candidates[i]
  {
    KeyedExact(KeysOf(candidates), candidates);
    assert KeysOf(candidates)[i] == candidates[i].key;
  }
}
