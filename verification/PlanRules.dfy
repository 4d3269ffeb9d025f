/** The two plan checkers once more: what an accepted draft is, spelled out on its cards, plans and omissions. */
module PlanRules {
  import opened Domain
  import opened Collections
  import opened Candidates
  import M = MorphologyPlans
  import H = HybridPlans

  // ------------------------------------------------------------------ evidence

  /** The topic has the evidence handle. */
  ghost predicate HasHandle(scope: TopicScope, topic: string, h: string) {
    topic in scope.handles && h in scope.handles[topic]
  }

  /** The handle is trusted, and its citation resolves to the very passage that is trusted. */
  ghost predicate Resolves(scope: TopicScope, ports: Ports, h: string) {
    && h in scope.trusted && scope.trusted[h].citation in ports.content
    && ports.content[scope.trusted[h].citation] == scope.trusted[h]
  }

  ghost predicate AllResolve(scope: TopicScope, ports: Ports, batch: CandidateBatch) {
    && (forall i, h :: 0 <= i < |batch.candidates| && h in batch.candidates[i].evidence ==> Resolves(scope, ports, h))
    && (forall i, h :: 0 <= i < |batch.omissions| && h in batch.omissions[i].evidence ==> Resolves(scope, ports, h))
  }

  lemma CitedExactly(batch: CandidateBatch, h: string)
    ensures h in CitedBy(batch.candidates) <==>
      exists i :: 0 <= i < |batch.candidates| && h in batch.candidates[i].evidence
    ensures h in OmittedBy(batch.omissions) <==>
      exists i :: 0 <= i < |batch.omissions| && h in batch.omissions[i].evidence
  {
    if i :| 0 <= i < |batch.candidates| && h in batch.candidates[i].evidence {
      var j :| 0 <= j < |batch.candidates[i].evidence| && batch.candidates[i].evidence[j] == h;
    }
    if i :| 0 <= i < |batch.omissions| && h in batch.omissions[i].evidence {
      var j :| 0 <= j < |batch.omissions[i].evidence| && batch.omissions[i].evidence[j] == h;
    }
  }

  lemma EvidenceExactly(scope: TopicScope, ports: Ports, batch: CandidateBatch)
    ensures EvidenceResolves(scope, ports, batch) <==> AllResolve(scope, ports, batch)
  {
    if EvidenceResolves(scope, ports, batch) {
      forall i, h | 0 <= i < |batch.candidates| && h in batch.candidates[i].evidence ensures Resolves(scope, ports, h) {
        CitedExactly(batch, h);
        assert Canonical(scope, ports, h);
      }
      forall i, h | 0 <= i < |batch.omissions| && h in batch.omissions[i].evidence ensures Resolves(scope, ports, h) {
        CitedExactly(batch, h);
        assert Canonical(scope, ports, h);
      }
    }
    if AllResolve(scope, ports, batch) {
      forall h | h in CitedBy(batch.candidates) + OmittedBy(batch.omissions) ensures Canonical(scope, ports, h) {
        CitedExactly(batch, h);
        assert Resolves(scope, ports, h);
      }
    }
  }

  /** The omission states exactly the topic's evidence. */
  ghost predicate StatesEvidence(scope: TopicScope, topic: string, omission: Omission) {
    forall h :: h in omission.evidence <==> HasHandle(scope, topic, h)
  }

  lemma EvidenceStated(scope: TopicScope, topic: string, omission: Omission)
    ensures (set h | h in omission.evidence) == Handles(scope, topic) <==> StatesEvidence(scope, topic, omission)
  {
    var stated := set h | h in omission.evidence;
    if stated == Handles(scope, topic) {
      forall h ensures h in omission.evidence <==> HasHandle(scope, topic, h) {
        assert h in stated <==> h in Handles(scope, topic);
      }
    }
  }

  ghost predicate PromptsApart(candidates: seq<Candidate>) {
    && (forall i :: 0 <= i < |candidates| ==> candidates[i].prompt != "")
    && (forall i, j :: 0 <= i < j < |candidates| ==>
          candidates[i].prompt != candidates[j].prompt && candidates[i].content != candidates[j].content)
  }

  lemma PromptsExactly(candidates: seq<Candidate>)
    ensures M.TextsDistinct(candidates) <==> PromptsApart(candidates)
  {
    var prompts, contents := PromptsOf(candidates), ContentsOf(candidates);
    forall i | 0 <= i < |candidates|
      ensures prompts[i] == candidates[i].prompt && contents[i] == candidates[i].content
    {
    }
    if M.TextsDistinct(candidates) {
      forall i, j | 0 <= i < j < |candidates|
        ensures candidates[i].prompt != candidates[j].prompt && candidates[i].content != candidates[j].content
      {
        assert prompts[i] != prompts[j] && contents[i] != contents[j];
      }
      forall i | 0 <= i < |candidates| ensures candidates[i].prompt != "" {
        assert prompts[i] != "";
      }
    }
  }

  // -------------------------------------------------------- morphology: topics

  ghost predicate Excluded(exclusions: seq<M.Exclusion>, t: string) {
    exists x :: 0 <= x < |exclusions| && exclusions[x].topic == t
  }

  ghost predicate InPlan(plans: seq<M.ObjectPlan>, t: string) {
    exists p :: 0 <= p < |plans| && t in plans[p].topics
  }

  /** Every active topic is in one plan or excluded once, and nothing else is named. */
  ghost predicate TopicsDivided(active: seq<string>, plans: seq<M.ObjectPlan>, exclusions: seq<M.Exclusion>) {
    && (forall p, q, t :: 0 <= p < q < |plans| && t in plans[p].topics ==> t !in plans[q].topics)
    && (forall p, x :: 0 <= p < |plans| && 0 <= x < |exclusions| ==> exclusions[x].topic !in plans[p].topics)
    && (forall x, y :: 0 <= x < y < |exclusions| ==> exclusions[x].topic != exclusions[y].topic)
    && (forall t :: t in active <==> Excluded(exclusions, t) || InPlan(plans, t))
  }

  lemma DisjointExactly(a: seq<string>, b: seq<string>)
    ensures M.Disjoint(a, b) <==> forall t :: t in a ==> t !in b
  {
    if forall t :: t in a ==> t !in b {
      forall i, j | 0 <= i < |a| && 0 <= j < |b| ensures a[i] != b[j] {
        assert a[i] in a;
      }
    }
  }

  lemma ExcludedExactly(exclusions: seq<M.Exclusion>, t: string)
    ensures t in M.ExcludedTopics(exclusions) <==> Excluded(exclusions, t)
  {
    var topics := M.ExcludedTopics(exclusions);
    if x :| 0 <= x < |exclusions| && exclusions[x].topic == t {
      assert topics[x] == t;
    }
  }

  lemma TopicsExactly(active: seq<string>, plans: seq<M.ObjectPlan>, exclusions: seq<M.Exclusion>)
    ensures M.TopicsPartitioned(active, plans, M.ExcludedTopics(exclusions)) <==>
      TopicsDivided(active, plans, exclusions)
  {
    var excluded := M.ExcludedTopics(exclusions);
    forall t ensures t in excluded <==> Excluded(exclusions, t) {
      ExcludedExactly(exclusions, t);
    }
    forall t ensures M.PlannedTopic(plans, t) <==> InPlan(plans, t) {
    }
    forall p, q | 0 <= p < |plans| && 0 <= q < |plans|
      ensures M.Disjoint(plans[p].topics, plans[q].topics) <==>
        forall t :: t in plans[p].topics ==> t !in plans[q].topics
    {
      DisjointExactly(plans[p].topics, plans[q].topics);
    }
    forall p | 0 <= p < |plans|
      ensures M.Disjoint(plans[p].topics, excluded) <==>
        forall x :: 0 <= x < |exclusions| ==> exclusions[x].topic !in plans[p].topics
    {
      ApartFromExcluded(plans[p].topics, exclusions);
    }
    assert forall x :: 0 <= x < |exclusions| ==> excluded[x] == exclusions[x].topic;
  }

  lemma ApartFromExcluded(topics: seq<string>, exclusions: seq<M.Exclusion>)
    ensures M.Disjoint(topics, M.ExcludedTopics(exclusions)) <==>
      forall x :: 0 <= x < |exclusions| ==> exclusions[x].topic !in topics
  {
    var excluded := M.ExcludedTopics(exclusions);
    if M.Disjoint(topics, excluded) {
      forall x | 0 <= x < |exclusions| ensures exclusions[x].topic !in topics {
        assert excluded[x] == exclusions[x].topic;
      }
    }
    if forall x :: 0 <= x < |exclusions| ==> exclusions[x].topic !in topics {
      forall i, j | 0 <= i < |topics| && 0 <= j < |excluded| ensures topics[i] != excluded[j] {
        assert excluded[j] == exclusions[j].topic && topics[i] in topics;
      }
    }
  }

  /** A topic of plan `p` comes no later among the active topics than any of plan `q`. */
  ghost predicate ComesFirst(active: seq<string>, plans: seq<M.ObjectPlan>, p: int, q: int)
    requires 0 <= p < |plans| && 0 <= q < |plans|
  {
    exists a :: 0 <= a < |active| && active[a] in plans[p].topics &&
      forall b :: 0 <= b < a ==> active[b] !in plans[q].topics
  }

  lemma {:induction false} PositionIsFirst(active: seq<string>, b: int)
    requires 0 <= b < |active|
    ensures M.PositionOf(active, active[b]) <= b
  {
    if b > 0 && active[0] != active[b] {
      PositionIsFirst(active[1..], b - 1);
    }
  }

  lemma FirstsExactly(active: seq<string>, plans: seq<M.ObjectPlan>, p: int, q: int)
    requires 0 <= p < |plans| && 0 <= q < |plans| && plans[p].topics != [] && plans[q].topics != []
    requires forall t :: t in plans[p].topics || t in plans[q].topics ==> t in active
    ensures M.FirstPosition(active, plans[p].topics) <= M.FirstPosition(active, plans[q].topics) <==>
      ComesFirst(active, plans, p, q)
  {
    var x, y := M.FirstPosition(active, plans[p].topics), M.FirstPosition(active, plans[q].topics);
    var i :| 0 <= i < |plans[p].topics| && x == M.PositionOf(active, plans[p].topics[i]);
    var j :| 0 <= j < |plans[q].topics| && y == M.PositionOf(active, plans[q].topics[j]);
    assert active[x] == plans[p].topics[i] && active[y] == plans[q].topics[j];
    if x <= y {
      forall b | 0 <= b < x ensures active[b] !in plans[q].topics {
        PositionIsFirst(active, b);
      }
      assert active[x] in plans[p].topics;
    }
    if ComesFirst(active, plans, p, q) {
      var a :| 0 <= a < |active| && active[a] in plans[p].topics &&
        forall b :: 0 <= b < a ==> active[b] !in plans[q].topics;
      PositionIsFirst(active, a);
      assert active[y] in plans[q].topics;
    }
  }

  // --------------------------------------------------------- morphology: stars

  /** The card with the key has the role and hangs from `parent`. */
  ghost predicate HasCard(candidates: seq<Candidate>, key: string, role: Role, parent: Option<string>) {
    exists i :: 0 <= i < |candidates| && candidates[i].key == key && candidates[i].role == role &&
      candidates[i].parent == parent
  }

  ghost predicate Names(plan: M.ObjectPlan, key: string) {
    key == plan.macro || key in plan.atomics
  }

  /** One root macro and at most three atomics under it. */
  ghost predicate StarShaped(candidates: seq<Candidate>, plan: M.ObjectPlan) {
    && |plan.atomics| <= 3 && HasCard(candidates, plan.macro, MacroRole, None)
    && forall k :: k in plan.atomics ==> HasCard(candidates, k, AtomicRole, Some(plan.macro))
  }

  /** Every plan is a star, and every card is named by exactly one plan. */
  ghost predicate StarsDivide(candidates: seq<Candidate>, plans: seq<M.ObjectPlan>) {
    AllStars(candidates, plans) && NamedOnce(plans) && AllNamed(candidates, plans)
  }

  lemma CardsByKey(candidates: seq<Candidate>, k: string)
    requires Distinct(KeysOf(candidates))
    ensures k in M.ByKey(candidates) <==> exists i :: 0 <= i < |candidates| && candidates[i].key == k
    ensures k in M.ByKey(candidates) ==> exists i ::
      0 <= i < |candidates| && candidates[i].key == k && M.ByKey(candidates)[k] == candidates[i]
  {
    KeyedExact(KeysOf(candidates), candidates);
    if k in M.ByKey(candidates) {
      var i :| 0 <= i < |KeysOf(candidates)| && KeysOf(candidates)[i] == k;
      M.CardAt(candidates, i);
    }
    if i :| 0 <= i < |candidates| && candidates[i].key == k {
      M.CardAt(candidates, i);
    }
  }

  lemma HasCardExactly(candidates: seq<Candidate>, k: string, role: Role, parent: Option<string>)
    requires Distinct(KeysOf(candidates))
    ensures HasCard(candidates, k, role, parent) <==>
      k in M.ByKey(candidates) && M.ByKey(candidates)[k].role == role && M.ByKey(candidates)[k].parent == parent
  {
    CardsByKey(candidates, k);
    if HasCard(candidates, k, role, parent) {
      var i :| 0 <= i < |candidates| && candidates[i].key == k && candidates[i].role == role &&
        candidates[i].parent == parent;
      M.CardAt(candidates, i);
    }
  }

  lemma StarExactly(candidates: seq<Candidate>, plan: M.ObjectPlan)
    requires Distinct(KeysOf(candidates))
    ensures M.IsStar(M.ByKey(candidates), plan) <==> StarShaped(candidates, plan)
  {
    HasCardExactly(candidates, plan.macro, MacroRole, None);
    forall k ensures HasCard(candidates, k, AtomicRole, Some(plan.macro)) <==>
      (k in M.ByKey(candidates) && M.ByKey(candidates)[k].role == AtomicRole &&
       M.ByKey(candidates)[k].parent == Some(plan.macro)) {
      HasCardExactly(candidates, k, AtomicRole, Some(plan.macro));
    }
    if StarShaped(candidates, plan) {
      forall k | k in M.PlanKeys(plan) ensures k in M.ByKey(candidates) {
      }
    }
  }

  lemma NamesExactly(plan: M.ObjectPlan, k: string)
    ensures k in M.PlanKeys(plan) <==> Names(plan, k)
  {
  }

  /** No key is named by two plans. */
  ghost predicate NamedOnce(plans: seq<M.ObjectPlan>) {
    forall p, q, k :: 0 <= p < q < |plans| && Names(plans[p], k) ==> !Names(plans[q], k)
  }

  ghost predicate KeysDisjoint(plans: seq<M.ObjectPlan>) {
    forall p, q :: 0 <= p < q < |plans| ==> M.PlanKeys(plans[p]) !! M.PlanKeys(plans[q])
  }

  ghost predicate AreStars(candidates: seq<Candidate>, plans: seq<M.ObjectPlan>) {
    forall p :: 0 <= p < |plans| ==> M.IsStar(M.ByKey(candidates), plans[p])
  }

  ghost predicate AllOwned(candidates: seq<Candidate>, plans: seq<M.ObjectPlan>) {
    forall k :: k in M.ByKey(candidates) <==> M.Owned(plans, k)
  }

  lemma NamedOnceExactly(plans: seq<M.ObjectPlan>)
    ensures NamedOnce(plans) <==> KeysDisjoint(plans)
  {
    forall p, q | 0 <= p < q < |plans|
      ensures M.PlanKeys(plans[p]) !! M.PlanKeys(plans[q]) <==> forall k :: Names(plans[p], k) ==> !Names(plans[q], k)
    {
      KeysApart(plans[p], plans[q]);
    }
  }

  lemma KeysApart(x: M.ObjectPlan, y: M.ObjectPlan)
    ensures M.PlanKeys(x) !! M.PlanKeys(y) <==> forall k :: Names(x, k) ==> !Names(y, k)
  {
    forall k ensures (k in M.PlanKeys(x) <==> Names(x, k)) && (k in M.PlanKeys(y) <==> Names(y, k)) {
      NamesExactly(x, k);
      NamesExactly(y, k);
    }
    if forall k :: Names(x, k) ==> !Names(y, k) {
      forall k | k in M.PlanKeys(x) ensures k !in M.PlanKeys(y) {
        assert Names(x, k);
      }
    }
  }

  ghost predicate NamedIn(plans: seq<M.ObjectPlan>, k: string) {
    exists p :: 0 <= p < |plans| && Names(plans[p], k)
  }

  ghost predicate AllNamed(candidates: seq<Candidate>, plans: seq<M.ObjectPlan>) {
    forall i :: 0 <= i < |candidates| ==> NamedIn(plans, candidates[i].key)
  }

  lemma OwnedIsNamed(plans: seq<M.ObjectPlan>, k: string)
    ensures M.Owned(plans, k) <==> NamedIn(plans, k)
  {
    if p :| 0 <= p < |plans| && k in M.PlanKeys(plans[p]) {
      NamesExactly(plans[p], k);
    }
    if p :| 0 <= p < |plans| && Names(plans[p], k) {
      NamesExactly(plans[p], k);
    }
  }

  lemma OwnedIsCard(candidates: seq<Candidate>, plans: seq<M.ObjectPlan>, k: string)
    requires M.Owned(plans, k) && AreStars(candidates, plans)
    ensures k in M.ByKey(candidates)
  {
    var p :| 0 <= p < |plans| && k in M.PlanKeys(plans[p]);
    assert M.IsStar(M.ByKey(candidates), plans[p]);
  }

  lemma AllNamedExactly(candidates: seq<Candidate>, plans: seq<M.ObjectPlan>)
    requires Distinct(KeysOf(candidates)) && AreStars(candidates, plans)
    ensures AllNamed(candidates, plans) <==> AllOwned(candidates, plans)
  {
    if AllNamed(candidates, plans) {
      forall k ensures k in M.ByKey(candidates) <==> M.Owned(plans, k) {
        CardsByKey(candidates, k);
        OwnedIsNamed(plans, k);
        if M.Owned(plans, k) {
          OwnedIsCard(candidates, plans, k);
        }
      }
    }
    if AllOwned(candidates, plans) {
      forall i | 0 <= i < |candidates| ensures NamedIn(plans, candidates[i].key) {
        M.CardAt(candidates, i);
        OwnedIsNamed(plans, candidates[i].key);
      }
    }
  }

  ghost predicate AllStars(candidates: seq<Candidate>, plans: seq<M.ObjectPlan>) {
    forall p :: 0 <= p < |plans| ==> StarShaped(candidates, plans[p])
  }

  lemma AllStarsExactly(candidates: seq<Candidate>, plans: seq<M.ObjectPlan>)
    requires Distinct(KeysOf(candidates))
    ensures AllStars(candidates, plans) <==> AreStars(candidates, plans)
  {
    forall p | 0 <= p < |plans|
      ensures M.IsStar(M.ByKey(candidates), plans[p]) <==> StarShaped(candidates, plans[p])
    {
      StarExactly(candidates, plans[p]);
    }
  }

  lemma PartitionIs(candidates: seq<Candidate>, plans: seq<M.ObjectPlan>)
    ensures M.StarsPartition(M.ByKey(candidates), plans) <==>
      AreStars(candidates, plans) && KeysDisjoint(plans) && AllOwned(candidates, plans)
  {
  }

  lemma StarsExactly(candidates: seq<Candidate>, plans: seq<M.ObjectPlan>)
    requires Distinct(KeysOf(candidates))
    ensures M.StarsPartition(M.ByKey(candidates), plans) <==> StarsDivide(candidates, plans)
  {
    PartitionIs(candidates, plans);
    AllStarsExactly(candidates, plans);
    NamedOnceExactly(plans);
    if AllStars(candidates, plans) {
      AllNamedExactly(candidates, plans);
    }
  }

  // ----------------------------------------------- morphology: omissions, cards

  /** The exclusions name each public omission once, with their topics' evidence. */
  ghost predicate ExclusionsStated(scope: TopicScope, exclusions: seq<M.Exclusion>, omissions: seq<Omission>) {
    && (forall x :: 0 <= x < |exclusions| ==> StatedBy(scope, exclusions[x], omissions))
    && (forall x, y :: 0 <= x < y < |exclusions| ==> exclusions[x].index != exclusions[y].index)
    && (forall m :: 0 <= m < |omissions| ==> OmissionNamed(exclusions, m))
  }

  ghost predicate StatedBy(scope: TopicScope, x: M.Exclusion, omissions: seq<Omission>) {
    0 <= x.index < |omissions| && StatesEvidence(scope, x.topic, omissions[x.index])
  }

  ghost predicate OmissionNamed(exclusions: seq<M.Exclusion>, m: int) {
    exists x :: 0 <= x < |exclusions| && exclusions[x].index == m
  }

  lemma ExclusionsExactly(scope: TopicScope, exclusions: seq<M.Exclusion>, omissions: seq<Omission>)
    ensures M.OmissionsMatched(scope, exclusions, omissions) <==> ExclusionsStated(scope, exclusions, omissions)
  {
    forall x | 0 <= x < |exclusions|
      ensures M.Matches(scope, exclusions[x], omissions) <==> StatedBy(scope, exclusions[x], omissions)
    {
      if 0 <= exclusions[x].index < |omissions| {
        EvidenceStated(scope, exclusions[x].topic, omissions[exclusions[x].index]);
      }
    }
    forall m ensures M.IndexNamed(exclusions, |exclusions|, m) <==> OmissionNamed(exclusions, m) {
    }
  }

  /** Media that the port resolves, under the trusted citation of evidence that the card cites. */
  ghost predicate LinkedTo(scope: TopicScope, ports: Ports, c: Candidate, m: string) {
    && m in ports.media && ports.media[m].handle == m && ports.media[m].evidence in c.evidence
    && ports.media[m].evidence in scope.trusted
    && scope.trusted[ports.media[m].evidence].citation == ports.media[m].citation
  }

  /** The card cites evidence, all of topics of one plan that names it, and media linked to that evidence. */
  ghost predicate CitesOwn(scope: TopicScope, ports: Ports, plans: seq<M.ObjectPlan>, c: Candidate) {
    && c.evidence != [] && (forall m :: m in c.media ==> LinkedTo(scope, ports, c, m))
    && exists p :: 0 <= p < |plans| && Names(plans[p], c.key) && CitesOnly(scope, plans[p].topics, c)
  }

  ghost predicate CitesOnly(scope: TopicScope, topics: seq<string>, c: Candidate) {
    forall h :: h in c.evidence ==> exists t :: t in topics && HasHandle(scope, t, h)
  }

  lemma CitesExactly(scope: TopicScope, ports: Ports, topics: seq<string>, c: Candidate)
    ensures M.CitesWithin(scope, ports, topics, c) <==>
      c.evidence != [] && CitesOnly(scope, topics, c) && forall m :: m in c.media ==> LinkedTo(scope, ports, c, m)
  {
    forall h ensures h in M.HandlesOf(scope, topics) <==> exists t :: t in topics && HasHandle(scope, t, h) {
      if h in M.HandlesOf(scope, topics) {
        var i :| 0 <= i < |topics| && h in Handles(scope, topics[i]);
        assert topics[i] in topics && HasHandle(scope, topics[i], h);
      }
    }
    if M.CitesWithin(scope, ports, topics, c) {
      forall m | m in c.media ensures LinkedTo(scope, ports, c, m) {
        var i :| 0 <= i < |c.media| && c.media[i] == m;
        assert M.MediaLinked(scope, ports, c, c.media[i]);
      }
    }
    if CitesOnly(scope, topics, c) {
      forall i | 0 <= i < |c.evidence| ensures c.evidence[i] in M.HandlesOf(scope, topics) {
        assert c.evidence[i] in c.evidence;
        var t :| t in topics && HasHandle(scope, t, c.evidence[i]);
        var j :| 0 <= j < |topics| && topics[j] == t;
      }
    }
    if forall m :: m in c.media ==> LinkedTo(scope, ports, c, m) {
      forall i | 0 <= i < |c.media| ensures M.MediaLinked(scope, ports, c, c.media[i]) {
        assert c.media[i] in c.media;
      }
    }
  }

  lemma GroundedExactly(scope: TopicScope, ports: Ports, plans: seq<M.ObjectPlan>, c: Candidate)
    ensures M.CardGrounded(scope, ports, plans, c) <==> CitesOwn(scope, ports, plans, c)
  {
    forall p | 0 <= p < |plans| ensures c.key in M.PlanKeys(plans[p]) <==> Names(plans[p], c.key) {
      NamesExactly(plans[p], c.key);
    }
    forall p | 0 <= p < |plans|
      ensures M.CitesWithin(scope, ports, plans[p].topics, c) <==>
        (c.evidence != [] && CitesOnly(scope, plans[p].topics, c) &&
         forall m :: m in c.media ==> LinkedTo(scope, ports, c, m))
    {
      CitesExactly(scope, ports, plans[p].topics, c);
    }
  }

  ghost predicate AllCiteOwn(
    scope: TopicScope, ports: Ports, plans: seq<M.ObjectPlan>, candidates: seq<Candidate>) {
    forall i :: 0 <= i < |candidates| ==> CitesOwn(scope, ports, plans, candidates[i])
  }

  lemma AllGroundedExactly(scope: TopicScope, ports: Ports, plans: seq<M.ObjectPlan>, candidates: seq<Candidate>)
    ensures AllCiteOwn(scope, ports, plans, candidates) <==>
      forall i :: 0 <= i < |candidates| ==> M.CardGrounded(scope, ports, plans, candidates[i])
  {
    forall i | 0 <= i < |candidates|
      ensures M.CardGrounded(scope, ports, plans, candidates[i]) <==> CitesOwn(scope, ports, plans, candidates[i])
    {
      GroundedExactly(scope, ports, plans, candidates[i]);
    }
  }

  /** Plans follow the order of their first topics. */
  ghost predicate PlansFollow(active: seq<string>, plans: seq<M.ObjectPlan>) {
    forall p, q :: 0 <= p < q < |plans| ==> ComesFirst(active, plans, p, q)
  }

  /** A morphology draft as it should be. */
  ghost predicate MorphologyDraftOk(scope: TopicScope, ports: Ports, ceiling: int, draft: M.MorphologyDraft) {
    && |draft.batch.candidates| <= ceiling
    && TopicsDivided(scope.active, draft.plans, draft.exclusions)
    && PlansFollow(scope.active, draft.plans)
    && StarsDivide(draft.batch.candidates, draft.plans)
    && PromptsApart(draft.batch.candidates)
    && ExclusionsStated(scope, draft.exclusions, draft.batch.omissions)
    && AllCiteOwn(scope, ports, draft.plans, draft.batch.candidates)
    && AllResolve(scope, ports, draft.batch)
  }

  lemma OrderExactly(scope: TopicScope, draft: M.MorphologyDraft)
    requires M.Parsed(draft) && TopicsDivided(scope.active, draft.plans, draft.exclusions)
    ensures M.PlansInOrder(scope.active, draft.plans) <==> PlansFollow(scope.active, draft.plans)
  {
    forall p, q | 0 <= p < q < |draft.plans|
      ensures ComesFirst(scope.active, draft.plans, p, q) <==>
        M.FirstPosition(scope.active, draft.plans[p].topics) <= M.FirstPosition(scope.active, draft.plans[q].topics)
    {
      forall t | t in draft.plans[p].topics || t in draft.plans[q].topics ensures t in scope.active {
        assert InPlan(draft.plans, t);
      }
      FirstsExactly(scope.active, draft.plans, p, q);
    }
  }

  /** The morphology checker accepts exactly the drafts that are as they should be. */
  lemma MorphologyAcceptsExactly(scope: TopicScope, ports: Ports, ceiling: int, draft: M.MorphologyDraft)
    requires M.Parsed(draft)
    ensures M.Accepts(scope, ports, ceiling, draft) <==> MorphologyDraftOk(scope, ports, ceiling, draft)
  {
    TopicsExactly(scope.active, draft.plans, draft.exclusions);
    if TopicsDivided(scope.active, draft.plans, draft.exclusions) {
      OrderExactly(scope, draft);
    }
    StarsExactly(draft.batch.candidates, draft.plans);
    PromptsExactly(draft.batch.candidates);
    ExclusionsExactly(scope, draft.exclusions, draft.batch.omissions);
    AllGroundedExactly(scope, ports, draft.plans, draft.batch.candidates);
    EvidenceExactly(scope, ports, draft.batch);
  }

  // ------------------------------------------------------ hybrid: plans, omissions

  ghost predicate IsKey(candidates: seq<Candidate>, k: string) {
    exists i :: 0 <= i < |candidates| && candidates[i].key == k
  }

  /** A generating topic has cards or a reason, not both; any other has no cards; all its keys are cards. */
  ghost predicate PlanStands(candidates: seq<Candidate>, plan: H.TopicPlan) {
    && (forall k :: k in plan.keys ==> IsKey(candidates, k))
    && (if plan.disposition == H.Generate then (plan.keys != [] <==> plan.reason == None) else plan.keys == [])
  }

  /** The omission gives the plan's reason and states its topic's evidence. */
  ghost predicate Omits(scope: TopicScope, plan: H.TopicPlan, omission: Omission) {
    plan.reason == Some(omission.reason) && StatesEvidence(scope, plan.topic, omission)
  }

  ghost predicate OmitsAt(scope: TopicScope, plans: seq<H.TopicPlan>, omissions: seq<Omission>, p: int, m: int) {
    0 <= p < |plans| && 0 <= m < |omissions| && Omits(scope, plans[p], omissions[m])
  }

  /** Each plan with a reason has one public omission, and each public omission one plan. */
  ghost predicate OmissionsPaired(scope: TopicScope, plans: seq<H.TopicPlan>, omissions: seq<Omission>) {
    && (forall p, m, n :: OmitsAt(scope, plans, omissions, p, m) && OmitsAt(scope, plans, omissions, p, n) ==> m == n)
    && (forall p, q, m :: OmitsAt(scope, plans, omissions, p, m) && OmitsAt(scope, plans, omissions, q, m) ==> p == q)
    && (forall p :: 0 <= p < |plans| && plans[p].reason.Some? ==> PlanOmits(scope, plans, omissions, p))
    && (forall m :: 0 <= m < |omissions| ==> OmittedForPlan(scope, plans, omissions, m))
  }

  ghost predicate PlanOmits(scope: TopicScope, plans: seq<H.TopicPlan>, omissions: seq<Omission>, p: int) {
    exists m :: OmitsAt(scope, plans, omissions, p, m)
  }

  ghost predicate OmittedForPlan(scope: TopicScope, plans: seq<H.TopicPlan>, omissions: seq<Omission>, m: int) {
    exists p :: OmitsAt(scope, plans, omissions, p, m)
  }

  lemma PlanExactly(candidates: seq<Candidate>, plan: H.TopicPlan)
    ensures H.PlanOk(H.KeySet(candidates), plan) <==> PlanStands(candidates, plan)
  {
    forall k ensures k in H.KeySet(candidates) <==> IsKey(candidates, k) {
      if IsKey(candidates, k) {
        var i :| 0 <= i < |candidates| && candidates[i].key == k;
        assert KeysOf(candidates)[i] == k;
      }
    }
    if forall k :: k in plan.keys ==> IsKey(candidates, k) {
      forall i | 0 <= i < |plan.keys| ensures plan.keys[i] in H.KeySet(candidates) {
        assert plan.keys[i] in plan.keys;
      }
    }
  }

  lemma PairedExactly(scope: TopicScope, plans: seq<H.TopicPlan>, omissions: seq<Omission>, p: int, m: int)
    ensures H.Paired(scope, plans, omissions, p, m) <==> OmitsAt(scope, plans, omissions, p, m)
  {
    if 0 <= p < |plans| && 0 <= m < |omissions| {
      EvidenceStated(scope, plans[p].topic, omissions[m]);
    }
  }

  lemma OmissionsExactly(scope: TopicScope, plans: seq<H.TopicPlan>, omissions: seq<Omission>)
    ensures H.Bijective(scope, plans, omissions) <==> OmissionsPaired(scope, plans, omissions)
  {
    forall p, m ensures H.Paired(scope, plans, omissions, p, m) <==> OmitsAt(scope, plans, omissions, p, m) {
      PairedExactly(scope, plans, omissions, p, m);
    }
    forall p ensures H.HasOmission(scope, plans, omissions, p) <==> PlanOmits(scope, plans, omissions, p) {
    }
    forall m ensures H.HasPlan(scope, plans, omissions, m) <==> OmittedForPlan(scope, plans, omissions, m) {
    }
  }

  // ------------------------------------------------------------- hybrid: cards

  /** Some plan that lists the card is about a topic with the handle. */
  ghost predicate AllowedBy(scope: TopicScope, plans: seq<H.TopicPlan>, key: string, h: string) {
    exists p :: 0 <= p < |plans| && key in plans[p].keys && HasHandle(scope, plans[p].topic, h)
  }

  ghost predicate CitesTopics(scope: TopicScope, plans: seq<H.TopicPlan>, c: Candidate) {
    && (exists p :: 0 <= p < |plans| && c.key in plans[p].keys)
    && forall h :: h in c.evidence ==> AllowedBy(scope, plans, c.key, h)
  }

  lemma TopicsCitedExactly(scope: TopicScope, plans: seq<H.TopicPlan>, c: Candidate)
    ensures H.CardGrounded(scope, plans, c) <==> CitesTopics(scope, plans, c)
  {
    forall h ensures H.Permits(scope, plans, c.key, h) <==> AllowedBy(scope, plans, c.key, h) {
    }
    if CitesTopics(scope, plans, c) {
      forall i | 0 <= i < |c.evidence| ensures H.Permits(scope, plans, c.key, c.evidence[i]) {
        assert c.evidence[i] in c.evidence;
      }
    }
  }

  ghost predicate AllCiteTopics(scope: TopicScope, plans: seq<H.TopicPlan>, candidates: seq<Candidate>) {
    forall i :: 0 <= i < |candidates| ==> CitesTopics(scope, plans, candidates[i])
  }

  ghost predicate AllPlansStand(candidates: seq<Candidate>, plans: seq<H.TopicPlan>) {
    forall p :: 0 <= p < |plans| ==> PlanStands(candidates, plans[p])
  }

  lemma PlansAndCardsExactly(scope: TopicScope, plans: seq<H.TopicPlan>, candidates: seq<Candidate>)
    ensures AllPlansStand(candidates, plans) <==>
      forall p :: 0 <= p < |plans| ==> H.PlanOk(H.KeySet(candidates), plans[p])
    ensures AllCiteTopics(scope, plans, candidates) <==>
      forall i :: 0 <= i < |candidates| ==> H.CardGrounded(scope, plans, candidates[i])
  {
    forall p | 0 <= p < |plans| ensures H.PlanOk(H.KeySet(candidates), plans[p]) <==> PlanStands(candidates, plans[p]) {
      PlanExactly(candidates, plans[p]);
    }
    forall i | 0 <= i < |candidates|
      ensures H.CardGrounded(scope, plans, candidates[i]) <==> CitesTopics(scope, plans, candidates[i])
    {
      TopicsCitedExactly(scope, plans, candidates[i]);
    }
  }

  /** Card `i` asks for direct recall and is a section without parent, or a detail under an earlier section. */
  ghost predicate InPlace(candidates: seq<Candidate>, i: int)
    requires 0 <= i < |candidates|
  {
    var c := candidates[i];
    && c.directRecall && !c.morphology && c.media == []
    && (|| (c.role == SectionRole && c.parent == None)
        || (c.role == DetailRole && exists j ::
              0 <= j < i && candidates[j].role == SectionRole && c.parent == Some(candidates[j].key)))
  }

  /** All cards in place, and no section after a card of another role. */
  ghost predicate SectionsOverDetails(candidates: seq<Candidate>) {
    && (forall i :: 0 <= i < |candidates| ==> InPlace(candidates, i))
    && (forall i, j :: 0 <= i < j < |candidates| && candidates[j].role == SectionRole ==>
          candidates[i].role == SectionRole)
  }

  lemma LevelsExactly(candidates: seq<Candidate>)
    ensures H.TwoLevels(candidates) <==> SectionsOverDetails(candidates)
  {
    forall i | 0 <= i < |candidates| ensures H.Placed(candidates, i) <==> InPlace(candidates, i) {
    }
    forall i, j | 0 <= i < j < |candidates|
      ensures H.Rank(candidates[i].role) <= H.Rank(candidates[j].role) <==>
        (candidates[j].role == SectionRole ==> candidates[i].role == SectionRole)
    {
    }
  }

  /** `part` is a piece of `whole`. */
  ghost predicate Contains(whole: string, part: string) {
    exists before: string, behind: string :: whole == before + part + behind
  }

  lemma ContainsExactly(part: string, whole: string)
    ensures H.Within(part, whole) <==> Contains(whole, part)
  {
    if H.Within(part, whole) {
      var i :| 0 <= i <= |whole| && H.StartsAt(part, whole, i);
      assert whole == whole[..i] + part + whole[i + |part|..];
    }
    if Contains(whole, part) {
      var before: string, behind: string :| whole == before + part + behind;
      assert whole[|before|..|before| + |part|] == part;
      assert H.StartsAt(part, whole, |before|);
    }
  }

  /** Prompt and answer of the one are contained in those of the other. */
  ghost predicate Covers(d: Candidate, c: Candidate) {
    Contains(d.prompt, c.prompt) && Contains(d.answer, c.answer)
  }

  ghost predicate CardsApart(candidates: seq<Candidate>) {
    && PromptsApart(candidates)
    && (forall i :: 0 <= i < |candidates| ==> candidates[i].answer != "")
    && (forall i, j :: 0 <= i < j < |candidates| ==> candidates[i].answer != candidates[j].answer)
    && (forall i, j :: 0 <= i < |candidates| && 0 <= j < |candidates| && i != j ==>
          !Covers(candidates[j], candidates[i]))
  }

  lemma AnswersExactly(candidates: seq<Candidate>)
    ensures NoneEmpty(AnswersOf(candidates)) && Distinct(AnswersOf(candidates)) <==>
      && (forall i :: 0 <= i < |candidates| ==> candidates[i].answer != "")
      && (forall i, j :: 0 <= i < j < |candidates| ==> candidates[i].answer != candidates[j].answer)
  {
    var answers := AnswersOf(candidates);
    forall i | 0 <= i < |candidates| ensures answers[i] == candidates[i].answer {
    }
    if NoneEmpty(answers) && Distinct(answers) {
      forall i, j | 0 <= i < j < |candidates| ensures candidates[i].answer != candidates[j].answer {
        assert answers[i] != answers[j];
      }
      forall i | 0 <= i < |candidates| ensures candidates[i].answer != "" {
        assert answers[i] != "";
      }
    }
  }

  lemma TextsExactly(candidates: seq<Candidate>)
    ensures H.TextsApart(candidates) <==> CardsApart(candidates)
  {
    PromptsExactly(candidates);
    AnswersExactly(candidates);
    forall i, j | 0 <= i < |candidates| && 0 <= j < |candidates|
      ensures H.SaysLess(candidates[i], candidates[j]) <==> Covers(candidates[j], candidates[i])
    {
      ContainsExactly(candidates[i].prompt, candidates[j].prompt);
      ContainsExactly(candidates[i].answer, candidates[j].answer);
    }
  }

  /** Exactly the details have a basis. */
  ghost predicate DetailsListed(details: seq<string>, candidates: seq<Candidate>) {
    forall k :: k in details <==>
      exists i :: 0 <= i < |candidates| && candidates[i].role == DetailRole && candidates[i].key == k
  }

  lemma DetailsExactly(details: seq<string>, candidates: seq<Candidate>)
    ensures (set k | k in details) == H.DetailKeys(candidates) <==> DetailsListed(details, candidates)
  {
    var listed := set k | k in details;
    if listed == H.DetailKeys(candidates) {
      forall k ensures k in details <==>
        exists i :: 0 <= i < |candidates| && candidates[i].role == DetailRole && candidates[i].key == k {
        assert k in listed <==> k in H.DetailKeys(candidates);
      }
    }
  }

  ghost predicate TopicsInOrder(active: seq<string>, plans: seq<H.TopicPlan>) {
    |plans| == |active| && forall p :: 0 <= p < |plans| ==> plans[p].topic == active[p]
  }

  lemma TopicsOfExactly(active: seq<string>, plans: seq<H.TopicPlan>)
    ensures H.TopicsOf(plans) == active <==> TopicsInOrder(active, plans)
  {
    if H.TopicsOf(plans) == active {
      forall p | 0 <= p < |plans| ensures plans[p].topic == active[p] {
        assert H.TopicsOf(plans)[p] == plans[p].topic;
      }
    }
  }

  /** A hybrid draft as it should be. */
  ghost predicate HybridDraftOk(scope: TopicScope, ports: Ports, ceiling: int, draft: H.HybridDraft) {
    && |draft.batch.candidates| <= ceiling && |draft.batch.candidates| <= 24
    && TopicsInOrder(scope.active, draft.plans)
    && AllPlansStand(draft.batch.candidates, draft.plans)
    && OmissionsPaired(scope, draft.plans, draft.batch.omissions)
    && AllCiteTopics(scope, draft.plans, draft.batch.candidates)
    && SectionsOverDetails(draft.batch.candidates)
    && DetailsListed(draft.details, draft.batch.candidates)
    && CardsApart(draft.batch.candidates)
    && AllResolve(scope, ports, draft.batch)
  }

  /** The hybrid checker accepts exactly the drafts that are as they should be. */
  lemma HybridAcceptsExactly(scope: TopicScope, ports: Ports, ceiling: int, draft: H.HybridDraft)
    ensures H.Accepts(scope, ports, ceiling, draft) <==> HybridDraftOk(scope, ports, ceiling, draft)
  {
    TopicsOfExactly(scope.active, draft.plans);
    PlansAndCardsExactly(scope, draft.plans, draft.batch.candidates);
    OmissionsExactly(scope, draft.plans, draft.batch.omissions);
    LevelsExactly(draft.batch.candidates);
    DetailsExactly(draft.details, draft.batch.candidates);
    TextsExactly(draft.batch.candidates);
    EvidenceExactly(scope, ports, draft.batch);
  }
}
