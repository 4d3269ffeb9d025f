/** From candidates to proposals to recorded proposals to artifacts: the candidate forest survives every change of
    identity, from keys to ordinals to artifact ids. */
module Pipeline {
  import opened Domain
  import opened Collections
  import opened Candidates
  import opened ArtifactLedger
  import opened ArtifactInvariants
  import opened ArtifactSnapshot
  import opened ArtifactPrepare
  import opened ArtifactPlacement
  import opened Course
  import ArtifactLifecycle
  import ArtifactRuns

  /** What the verified run fixes for all its proposals. */
  datatype Recovery = Recovery(run: RunId, trusted: set<string>)

  function Positions(n: nat): seq<int> {
    seq(n, i => i)
  }

  function KeyOrdinals(candidates: seq<Candidate>): map<string, int> {
    Keyed(KeysOf(candidates), Positions(|candidates|))
  }

  predicate Convertible(recovery: Recovery, c: Candidate) {
    && c.media == []
    && (forall i :: 0 <= i < |c.evidence| ==> c.evidence[i] in recovery.trusted)
    && (c.role in {OverviewRole, SectionRole, DetailRole} || c.morphology)
  }

  function ContentOf(ordinals: map<string, int>, c: Candidate): Option<Content> {
    if c.parent.None? then Some(Flashcard(c.text, None))
    else if c.parent.value !in ordinals || ordinals[c.parent.value] < 0 then None
    else Some(Flashcard(c.text, Some(ordinals[c.parent.value])))
  }

  function ProposalOf(recovery: Recovery, ordinals: map<string, int>, c: Candidate, ordinal: int): Option<Proposal> {
    match ContentOf(ordinals, c)
    case None => None
    case Some(content) =>
      if Convertible(recovery, c)
        then Some(Proposal(ordinal, content, Generated(recovery.run, content, c.text, None), None)) else None
  }

  predicate AllConvert(recovery: Recovery, candidates: seq<Candidate>) {
    forall i :: 0 <= i < |candidates| ==> ProposalOf(recovery, KeyOrdinals(candidates), candidates[i], i).Some?
  }

  /** The proposals of a verified page; `None` when the conversion raises. */
  function LessonProposals(recovery: Recovery, candidates: seq<Candidate>): Option<seq<Proposal>> {
    if candidates == [] || !AllConvert(recovery, candidates) then None
    else Some(seq(|candidates|, i requires 0 <= i < |candidates| =>
      ProposalOf(recovery, KeyOrdinals(candidates), candidates[i], i).value))
  }

  // ------------------------------------------------------- keys to ordinals

  /** The ordinal of candidate `i`'s parent. */
  ghost predicate ParentAt(candidates: seq<Candidate>, i: int, parent: Option<nat>)
    requires 0 <= i < |candidates|
  {
    match candidates[i].parent
    case None => parent == None
    case Some(key) => parent.Some? && parent.value < i && candidates[parent.value].key == key
  }

  lemma OrdinalsFollowKeys(candidates: seq<Candidate>, i: int)
    requires Distinct(KeysOf(candidates)) && 0 <= i < |candidates| && ParentEarlier(candidates, i)
    ensures ContentOf(KeyOrdinals(candidates), candidates[i]).Some?
    ensures ParentAt(candidates, i, ParentOrdinal(ContentOf(KeyOrdinals(candidates), candidates[i]).value))
  {
    var keys, positions := KeysOf(candidates), Positions(|candidates|);
    KeyedExact(keys, positions);
    if candidates[i].parent.Some? {
      var j :| 0 <= j < i && candidates[j].key == candidates[i].parent.value;
      assert keys[j] == candidates[i].parent.value && positions[j] == j;
      assert KeyOrdinals(candidates)[keys[j]] == j;
    }
  }

  // --------------------------------------------------- what is converted to what

  /** A card without media whose evidence is all trusted, and that has a lesson role or its morphology filled in. */
  ghost predicate Supported(recovery: Recovery, c: Candidate) {
    && c.media == []
    && (forall h :: h in c.evidence ==> h in recovery.trusted)
    && (c.role == OverviewRole || c.role == SectionRole || c.role == DetailRole || c.morphology)
  }

  /** The proposal of candidate `i`: a new flashcard with its text, under its parent's position, generated by the run
      with that very content as output. */
  ghost predicate ConvertedAs(recovery: Recovery, candidates: seq<Candidate>, i: int, item: Proposal)
    requires 0 <= i < |candidates|
  {
    && item.ordinal == i && item.target == None
    && item.content.Flashcard? && item.content.text == candidates[i].text
    && ParentAt(candidates, i, item.content.parentOrdinal)
    && item.provenance.Generated? && item.provenance.run == recovery.run
    && item.provenance.output == item.content && item.provenance.prior == None
  }

  lemma CandidateConverts(recovery: Recovery, candidates: seq<Candidate>, i: int)
    requires Distinct(KeysOf(candidates)) && 0 <= i < |candidates| && ParentEarlier(candidates, i)
    ensures var item := ProposalOf(recovery, KeyOrdinals(candidates), candidates[i], i);
      && (item.Some? <==> Supported(recovery, candidates[i]))
      && (item.Some? ==> ConvertedAs(recovery, candidates, i, item.value))
  {
    OrdinalsFollowKeys(candidates, i);
  }

  /** What every admitted page is: distinct keys, each parent key an earlier candidate's. */
  ghost predicate KeyForest(candidates: seq<Candidate>) {
    Distinct(KeysOf(candidates)) && forall i :: 0 <= i < |candidates| ==> ParentEarlier(candidates, i)
  }

  ghost predicate AllSupported(recovery: Recovery, candidates: seq<Candidate>) {
    forall i :: 0 <= i < |candidates| ==> Supported(recovery, candidates[i])
  }

  ghost predicate AllConvertedAs(recovery: Recovery, candidates: seq<Candidate>, items: seq<Proposal>) {
    |items| == |candidates| && forall i :: 0 <= i < |items| ==> ConvertedAs(recovery, candidates, i, items[i])
  }

  /** An admitted page converts exactly when it has a candidate and all its candidates are supported; and then each
      candidate becomes the proposal of its own text. */
  lemma PageConvertsExactly(recovery: Recovery, candidates: seq<Candidate>)
    requires KeyForest(candidates)
    ensures var items := LessonProposals(recovery, candidates);
      && (items.Some? <==> candidates != [] && AllSupported(recovery, candidates))
      && (items.Some? ==> AllConvertedAs(recovery, candidates, items.value))
  {
    forall i | 0 <= i < |candidates|
      ensures var item := ProposalOf(recovery, KeyOrdinals(candidates), candidates[i], i);
        && (item.Some? <==> Supported(recovery, candidates[i]))
        && (item.Some? ==> ConvertedAs(recovery, candidates, i, item.value))
    {
      CandidateConverts(recovery, candidates, i);
    }
  }

  /** The conversion as the loop it is: the candidates' own texts under their parents' positions, or nothing. */
  method LessonProposalsLoop(recovery: Recovery, candidates: seq<Candidate>) returns (r: Option<seq<Proposal>>)
    ensures r == LessonProposals(recovery, candidates)
    ensures KeyForest(candidates) ==>
      && (r.Some? <==> candidates != [] && AllSupported(recovery, candidates))
      && (r.Some? ==> AllConvertedAs(recovery, candidates, r.value))
  {
    if KeyForest(candidates) {
      PageConvertsExactly(recovery, candidates);
    }
    if candidates == [] {
      return None;
    }
    var ordinals := KeyOrdinals(candidates);
    var proposals: seq<Proposal> := [];
    for n := 0 to |candidates|
      invariant |proposals| == n
      invariant forall i :: 0 <= i < n ==> ProposalOf(recovery, ordinals, candidates[i], i) == Some(proposals[i])
    {
      var next := ProposalOf(recovery, ordinals, candidates[n], n);
      if next.None? {
        return None;
      }
      proposals := proposals + [next.value];
    }
    assert AllConvert(recovery, candidates);
    r := Some(proposals);
    assert r.value == LessonProposals(recovery, candidates).value;
  }

  // ------------------------------------------------ ordinals to artifact ids

  /** A proposal for a new artifact whose parent, if any, comes earlier in the batch. */
  ghost predicate ForNewArtifact(item: Proposal) {
    && item.target.None? && item.provenance.prior.None?
    && (item.provenance.Generated? ==> item.provenance.output == item.content)
    && (ParentOrdinal(item.content).Some? ==> ParentOrdinal(item.content).value < item.ordinal)
  }

  ghost predicate ResolvedTo(batch: BatchId, seen: set<ArtifactId>, resolved: map<int, ArtifactId>, n: int) {
    && ResolvedBelow(resolved, n)
    && (forall k :: k in resolved ==> resolved[k] == ArtifactId(batch, k))
    && (forall a :: a in seen ==> a.ArtifactId? && a.ordinal < n)
  }

  function ParentId(batch: BatchId, content: Content): Option<ArtifactId> {
    match ParentOrdinal(content) case None => None case Some(k) => Some(ArtifactId(batch, k))
  }

  /** Fresh proposals always prepare, each under its own ordinal's artifact and its parent ordinal's artifact. */
  lemma {:induction false} FreshPrepares(
    batch: BatchId, listing: seq<Entry>, seen: set<ArtifactId>, resolved: map<int, ArtifactId>, items: seq<Proposal>,
    first: int)
    requires 0 <= first && Numbered(items, first) && ResolvedTo(batch, seen, resolved, first)
    requires forall i :: 0 <= i < |items| ==> ForNewArtifact(items[i])
    ensures PrepareAll(batch, listing, seen, resolved, items).Some?
    ensures var all := PrepareAll(batch, listing, seen, resolved, items).value;
      |all| == |items| && forall i :: 0 <= i < |all| ==>
        all[i].artifact == ArtifactId(batch, first + i) && all[i].parent == ParentId(batch, items[i].content)
    decreases |items|
  {
    if items != [] {
      var item, tail := items[0], items[1..];
      assert ForNewArtifact(item);
      var p := PrepareOne(batch, listing, seen, resolved, item).value;
      assert p.artifact == ArtifactId(batch, first) && p.parent == ParentId(batch, item.content);
      assert forall i :: 0 <= i < |tail| ==> tail[i] == items[i + 1];
      FreshPrepares(batch, listing, seen + {p.artifact}, resolved[p.ordinal := p.artifact], tail, first + 1);
      var rest := PrepareAll(batch, listing, seen + {p.artifact}, resolved[p.ordinal := p.artifact], tail).value;
      assert PrepareAll(batch, listing, seen, resolved, items).value == [p] + rest;
      forall i | 0 <= i < |items|
        ensures ([p] + rest)[i].artifact == ArtifactId(batch, first + i)
        ensures ([p] + rest)[i].parent == ParentId(batch, items[i].content)
      {
        if i > 0 {
          assert ([p] + rest)[i] == rest[i - 1] && items[i] == tail[i - 1];
        }
      }
    }
  }

  lemma ConvertedIsFresh(recovery: Recovery, candidates: seq<Candidate>, i: int)
    requires Distinct(KeysOf(candidates)) && 0 <= i < |candidates| && ParentEarlier(candidates, i)
    requires ProposalOf(recovery, KeyOrdinals(candidates), candidates[i], i).Some?
    ensures var item := ProposalOf(recovery, KeyOrdinals(candidates), candidates[i], i).value;
      ForNewArtifact(item) && item.ordinal == i && ParentAt(candidates, i, ParentOrdinal(item.content)) &&
        ContentDecodes(item.content)
  {
    OrdinalsFollowKeys(candidates, i);
  }

  // ------------------------------------------- artifact ids to the projection

  /** A reduced batch projects each recorded proposal's parent. */
  lemma ProjectedParent(ledger: Ledger, world: World, e: Event, i: int)
    requires e.payload.ProposalBatch? && Lineages(ledger.artifacts, ledger.revisions)
    requires ReduceBatch(ledger, world, e).Some?
    requires 0 <= i < |e.payload.proposals|
    ensures var next, p := ReduceBatch(ledger, world, e).value, e.payload.proposals[i];
      p.artifact in next.artifacts && next.artifacts[p.artifact].parent == p.parent
  {
    var next, p := ReduceBatch(ledger, world, e).value, e.payload.proposals[i];
    ArtifactLifecycle.BatchEffect(ledger, world, e);
    ArtifactLifecycle.BatchLineages(ledger, world, e);
    ParentOfAdded(ledger, next, e, i);
  }

  lemma ParentOfAdded(ledger: Ledger, next: Ledger, e: Event, i: int)
    requires e.payload.ProposalBatch? && ArtifactLifecycle.BatchStep(ledger, next, e)
    requires Lineages(next.artifacts, next.revisions)
    requires 0 <= i < |e.payload.proposals|
    ensures var p := e.payload.proposals[i];
      p.artifact in next.artifacts && next.artifacts[p.artifact].parent == p.parent
  {
    var p := e.payload.proposals[i];
    AddedEntries(e.payload.batch, ledger.revisions, e.payload.proposals);
    assert next.revisions[p.revision] == RecordOf(e.payload.batch, p);
    var art := next.artifacts[p.artifact];
    assert ChainOk(p.artifact, art, next.revisions);
    var k :| 0 <= k < |art.history| && art.history[k] == p.revision;
    assert Linked(p.artifact, art, next.revisions, k);
  }

  /** Candidate `i`'s artifact has as parent the artifact of the candidate it names, or none. */
  ghost predicate ForestKept(candidates: seq<Candidate>, batch: BatchId, artifacts: map<ArtifactId, Artifact>, i: int)
    requires 0 <= i < |candidates|
  {
    && ArtifactId(batch, i) in artifacts
    && match candidates[i].parent
       case None => artifacts[ArtifactId(batch, i)].parent == None
       case Some(key) =>
         exists j ::
           && 0 <= j < i && candidates[j].key == key
           && artifacts[ArtifactId(batch, i)].parent == Some(ArtifactId(batch, j))
  }

  lemma {:induction false} ConvertedItems(recovery: Recovery, candidates: seq<Candidate>)
    requires Distinct(KeysOf(candidates)) && |candidates| <= 24 && LessonProposals(recovery, candidates).Some?
    requires forall i :: 0 <= i < |candidates| ==> ParentEarlier(candidates, i)
    ensures var items := LessonProposals(recovery, candidates).value;
      && |items| == |candidates| && Numbered(items, 0)
      && (forall i :: 0 <= i < |items| ==>
        ForNewArtifact(items[i]) && ContentDecodes(items[i].content) && items[i].provenance.Generated? &&
        items[i].provenance.run == recovery.run)
      && (forall i :: 0 <= i < |items| ==> ParentAt(candidates, i, ParentOrdinal(items[i].content)))
  {
    var items := LessonProposals(recovery, candidates).value;
    forall i | 0 <= i < |items|
      ensures items[i].ordinal == i && ForNewArtifact(items[i]) && ContentDecodes(items[i].content)
      ensures items[i].provenance.Generated? && items[i].provenance.run == recovery.run
      ensures ParentAt(candidates, i, ParentOrdinal(items[i].content))
    {
      ConvertedIsFresh(recovery, candidates, i);
    }
  }

  lemma ForestProjected(
    candidates: seq<Candidate>, items: seq<Proposal>, batch: BatchId, artifacts: map<ArtifactId, Artifact>, i: int)
    requires 0 <= i < |candidates| == |items| && ParentAt(candidates, i, ParentOrdinal(items[i].content))
    requires ArtifactId(batch, i) in artifacts
    requires artifacts[ArtifactId(batch, i)].parent == ParentId(batch, items[i].content)
    ensures ForestKept(candidates, batch, artifacts, i)
  {
    if candidates[i].parent.Some? {
      assert candidates[ParentOrdinal(items[i].content).value].key == candidates[i].parent.value;
    }
  }

  /** The items of one generated command, ready to be prepared. */
  ghost predicate ReadyToRecord(
    ledger: Ledger, world: World, session: SessionId, key: Key, run: RunId, items: seq<Proposal>)
  {
    && 1 <= |items| <= 24 && Numbered(items, 0)
    && ArtifactEventId(session, key, ProposalCommand) !in ledger.commands && session in world.sessions
    && (forall i :: 0 <= i < |items| ==>
      ForNewArtifact(items[i]) && ContentDecodes(items[i].content) && items[i].provenance.Generated? &&
      items[i].provenance.run == run)
    && (forall i :: 0 <= i < |items| ==> (session, items[i].provenance) in world.grounded)
  }

  lemma ItemsPrepare(listing: seq<Entry>, batch: BatchId, items: seq<Proposal>)
    requires 1 <= |items| <= 24 && Numbered(items, 0) && forall i :: 0 <= i < |items| ==> ForNewArtifact(items[i])
    ensures Prepare(batch, items, listing).Some?
    ensures var all := Prepare(batch, items, listing).value;
      |all| == |items| && forall i :: 0 <= i < |all| ==>
        all[i].artifact == ArtifactId(batch, i) && all[i].parent == ParentId(batch, items[i].content)
  {
    FreshPrepares(batch, listing, {}, map[], items, 0);
  }

  lemma ProjectedForest(ledger: Ledger, world: World, e: Event, items: seq<Proposal>)
    requires e.payload.ProposalBatch? && Lineages(ledger.artifacts, ledger.revisions)
    requires ReduceBatch(ledger, world, e).Some?
    requires |e.payload.proposals| == |items|
    requires forall i :: 0 <= i < |items| ==>
      e.payload.proposals[i].artifact == ArtifactId(e.payload.batch, i) &&
        e.payload.proposals[i].parent == ParentId(e.payload.batch, items[i].content)
    ensures var artifacts := ReduceBatch(ledger, world, e).value.artifacts;
      forall i :: 0 <= i < |items| ==>
        ArtifactId(e.payload.batch, i) in artifacts &&
          artifacts[ArtifactId(e.payload.batch, i)].parent == ParentId(e.payload.batch, items[i].content)
  {
    forall i | 0 <= i < |items|
      ensures var artifacts := ReduceBatch(ledger, world, e).value.artifacts;
        ArtifactId(e.payload.batch, i) in artifacts &&
          artifacts[ArtifactId(e.payload.batch, i)].parent == ParentId(e.payload.batch, items[i].content)
    {
      ProjectedParent(ledger, world, e, i);
    }
  }

  lemma ItemsReachLedger(
    ledger: Ledger, world: World, listing: seq<Entry>, items: seq<Proposal>, session: SessionId, key: Key, run: RunId,
    sequence: int)
    requires LedgerOk(ledger) && Lists(listing, ledger.revisions)
    requires ReadyToRecord(ledger, world, session, key, run, items)
    ensures var id := GeneratedBatch(session, run, key);
      var recorded := Prepare(id, items, listing);
      && recorded.Some?
      && var next := ReduceBatch(ledger, world, GeneratedEvent(session, key, run, recorded.value, sequence));
      && next.Some?
      && forall i :: 0 <= i < |items| ==>
        ArtifactId(id, i) in next.value.artifacts &&
        next.value.artifacts[ArtifactId(id, i)].parent == ParentId(id, items[i].content)
  {
    var id := GeneratedBatch(session, run, key);
    ItemsPrepare(listing, id, items);
    var e := GeneratedEvent(session, key, run, Prepare(id, items, listing).value, sequence);
    FreshReduces(ledger, world, listing, items, e);
    ProjectedForest(ledger, world, e, items);
  }

  /** A verified page that converts is prepared and reduced on every well-formed ledger, and the candidates' key forest
      is the projected artifacts' parent forest. */
  lemma CandidateForestReduces(
    ledger: Ledger, world: World, listing: seq<Entry>, batch: CandidateBatch, recovery: Recovery, session: SessionId,
    key: Key, sequence: int)
    requires LedgerOk(ledger) && Lists(listing, ledger.revisions) && WellFormed(batch)
    requires LessonProposals(recovery, batch.candidates).Some?
    requires ArtifactEventId(session, key, ProposalCommand) !in ledger.commands && session in world.sessions
    requires var items := LessonProposals(recovery, batch.candidates).value; forall i :: 0 <= i < |items| ==>
      (session, items[i].provenance) in world.grounded
    ensures var id := GeneratedBatch(session, recovery.run, key);
      var recorded := Prepare(id, LessonProposals(recovery, batch.candidates).value, listing);
      && recorded.Some?
      && var next := ReduceBatch(ledger, world, GeneratedEvent(session, key, recovery.run, recorded.value, sequence));
      && next.Some?
      && forall i :: 0 <= i < |batch.candidates| ==> ForestKept(batch.candidates, id, next.value.artifacts, i)
  {
    var id, items := GeneratedBatch(session, recovery.run, key), LessonProposals(recovery, batch.candidates).value;
    ConvertedItems(recovery, batch.candidates);
    ItemsReachLedger(ledger, world, listing, items, session, key, recovery.run, sequence);
    var next := ReduceBatch(ledger, world,
      GeneratedEvent(session, key, recovery.run, Prepare(id, items, listing).value, sequence)).value;
    forall i | 0 <= i < |batch.candidates| ensures ForestKept(batch.candidates, id, next.artifacts, i) {
      ForestProjected(batch.candidates, items, id, next.artifacts, i);
    }
  }

  lemma FreshReduces(ledger: Ledger, world: World, listing: seq<Entry>, items: seq<Proposal>, e: Event)
    requires LedgerOk(ledger) && Lists(listing, ledger.revisions) && Commanded(e, items)
    requires Prepare(e.payload.batch, items, listing) == Some(e.payload.proposals)
    requires e.id !in ledger.commands && e.session in world.sessions
    requires forall i :: 0 <= i < |items| ==> ForNewArtifact(items[i])
    requires forall i :: 0 <= i < |items| ==> (e.session, items[i].provenance) in world.grounded
    ensures ReduceBatch(ledger, world, e).Some?
  {
    PreparedBatchReduces(ledger, world, listing, items, e);
  }

  /** What a generated command of the page needs: a started course, a new command, an open session and provenance that
      resolves. */
  ghost predicate PageFits(st: State, session: SessionId, key: Key, items: seq<Proposal>) {
    && ArtifactEventId(session, key, ProposalCommand) !in st.ledger.commands && session in st.world.sessions
    && forall i :: 0 <= i < |items| ==> (session, items[i].provenance) in st.world.grounded
  }

  /** The whole key forest, as the parent forest of the batch's artifacts. */
  ghost predicate ForestIn(candidates: seq<Candidate>, batch: BatchId, ledger: Ledger) {
    forall i :: 0 <= i < |candidates| ==> ForestKept(candidates, batch, ledger.artifacts, i)
  }

  lemma PageDecodes(
    ledger: Ledger, listing: seq<Entry>, batch: CandidateBatch, recovery: Recovery, e: Event)
    requires LedgerOk(ledger) && Lists(listing, ledger.revisions) && WellFormed(batch) && e.sequence >= 2
    requires LessonProposals(recovery, batch.candidates).Some? && e.payload.ProposalBatch?
    requires e == GeneratedEvent(e.session, e.payload.key, recovery.run, e.payload.proposals, e.sequence)
    requires Prepare(e.payload.batch, LessonProposals(recovery, batch.candidates).value, listing) ==
      Some(e.payload.proposals)
    ensures BatchDecodes(e)
  {
    ConvertedItems(recovery, batch.candidates);
    CommandDecodes(ledger, listing, LessonProposals(recovery, batch.candidates).value, e);
  }

  /** The ledger holds candidate `i` as the first revision of its artifact: its text, generated by the run. */
  ghost predicate CardStored(candidates: seq<Candidate>, run: RunId, batch: BatchId, ledger: Ledger, i: int)
    requires 0 <= i < |candidates|
  {
    exists r :: r in ledger.revisions && IsCard(ledger.revisions[r], candidates[i].text, run, batch, i)
  }

  ghost predicate IsCard(v: Revision, text: string, run: RunId, batch: BatchId, i: int) {
    && v.artifact == ArtifactId(batch, i) && v.batch == batch && v.ordinal == i && v.prior == None
    && v.content.Flashcard? && v.content.text == text
    && v.provenance.Generated? && v.provenance.run == run && v.provenance.output == v.content
  }

  ghost predicate CardsIn(candidates: seq<Candidate>, run: RunId, batch: BatchId, ledger: Ledger) {
    forall i :: 0 <= i < |candidates| ==> CardStored(candidates, run, batch, ledger, i)
  }

  lemma CardProjected(
    ledger: Ledger, world: World, recovery: Recovery, candidates: seq<Candidate>, items: seq<Proposal>, e: Event,
    i: int)
    requires e.payload.ProposalBatch? && Lineages(ledger.artifacts, ledger.revisions)
    requires ReduceBatch(ledger, world, e).Some? && |items| == |candidates|
    requires AllPlaced(ledger, e.payload.batch, items, e.payload.proposals)
    requires 0 <= i < |candidates| && ConvertedAs(recovery, candidates, i, items[i])
    ensures CardStored(candidates, recovery.run, e.payload.batch, ReduceBatch(ledger, world, e).value, i)
  {
    var next, p := ReduceBatch(ledger, world, e).value, e.payload.proposals[i];
    ArtifactLifecycle.BatchEffect(ledger, world, e);
    AddedEntries(e.payload.batch, ledger.revisions, e.payload.proposals);
    assert PlacedAs(ledger, e.payload.batch, items, i, p);
    assert next.revisions[p.revision] == RecordOf(e.payload.batch, p);
    assert IsCard(next.revisions[p.revision], candidates[i].text, recovery.run, e.payload.batch, i);
  }

  lemma CardsReduce(
    ledger: Ledger, world: World, listing: seq<Entry>, batch: CandidateBatch, recovery: Recovery, e: Event)
    requires LedgerOk(ledger) && Lists(listing, ledger.revisions) && WellFormed(batch)
    requires LessonProposals(recovery, batch.candidates).Some? && e.payload.ProposalBatch?
    requires Prepare(e.payload.batch, LessonProposals(recovery, batch.candidates).value, listing) ==
      Some(e.payload.proposals)
    requires ReduceBatch(ledger, world, e).Some?
    ensures CardsIn(batch.candidates, recovery.run, e.payload.batch, ReduceBatch(ledger, world, e).value)
  {
    var items := LessonProposals(recovery, batch.candidates).value;
    PageConvertsExactly(recovery, batch.candidates);
    PreparesExactly(ledger, listing, e.payload.batch, items);
    forall i | 0 <= i < |batch.candidates|
      ensures CardStored(batch.candidates, recovery.run, e.payload.batch, ReduceBatch(ledger, world, e).value, i)
    {
      CardProjected(ledger, world, recovery, batch.candidates, items, e, i);
    }
  }

  /** Immutable fields never change afterwards. */
  lemma CardsStay(candidates: seq<Candidate>, run: RunId, batch: BatchId, before: Ledger, after: Ledger)
    requires CardsIn(candidates, run, batch, before) && ArtifactRuns.Later(before, after)
    ensures CardsIn(candidates, run, batch, after)
  {
    forall i | 0 <= i < |candidates| ensures CardStored(candidates, run, batch, after, i) {
      assert CardStored(candidates, run, batch, before, i);
      var r :| r in before.revisions && IsCard(before.revisions[r], candidates[i].text, run, batch, i);
      assert IsCard(after.revisions[r], candidates[i].text, run, batch, i);
    }
  }

  /** Parents never change afterwards. */
  lemma ForestStays(candidates: seq<Candidate>, batch: BatchId, before: Ledger, after: Ledger)
    requires ForestIn(candidates, batch, before) && ArtifactRuns.Later(before, after)
    ensures ForestIn(candidates, batch, after)
  {
    forall i | 0 <= i < |candidates| ensures ForestKept(candidates, batch, after.artifacts, i) {
      assert ForestKept(candidates, batch, before.artifacts, i);
    }
  }

  /** The whole page: its key forest and its cards. */
  ghost predicate PageIn(candidates: seq<Candidate>, run: RunId, batch: BatchId, ledger: Ledger) {
    ForestIn(candidates, batch, ledger) && CardsIn(candidates, run, batch, ledger)
  }

  lemma PageLasts(candidates: seq<Candidate>, run: RunId, batch: BatchId, stream: seq<Event>, later: seq<Event>)
    requires Replay(stream).Some? && PageIn(candidates, run, batch, Replay(stream).value.ledger)
    requires stream <= later && Replay(later).Some?
    ensures PageIn(candidates, run, batch, Replay(later).value.ledger)
  {
    assert later[..|stream|] == stream;
    ArtifactRuns.RunsOnlyAdd(later, |stream|);
    ForestStays(candidates, batch, Replay(stream).value.ledger, Replay(later).value.ledger);
    CardsStay(candidates, run, batch, Replay(stream).value.ledger, Replay(later).value.ledger);
  }

  /** The event a generated command appends for the page. */
  function PageEvent(
    recovery: Recovery, batch: CandidateBatch, listing: seq<Entry>, session: SessionId, key: Key, sequence: int): Event
    requires LessonProposals(recovery, batch.candidates).Some?
    requires Prepare(GeneratedBatch(session, recovery.run, key), LessonProposals(recovery, batch.candidates).value,
               listing).Some?
  {
    var recorded := Prepare(GeneratedBatch(session, recovery.run, key),
      LessonProposals(recovery, batch.candidates).value, listing);
    GeneratedEvent(session, key, recovery.run, recorded.value, sequence)
  }

  /** The event of a converted page extends every replayed stream it fits, and projects the forest. */
  lemma PageReplays(
    stream: seq<Event>, listing: seq<Entry>, batch: CandidateBatch, recovery: Recovery, session: SessionId, key: Key)
    returns (e: Event)
    requires Replay(stream).Some? && stream != [] && WellFormed(batch)
    requires LessonProposals(recovery, batch.candidates).Some?
    requires Lists(listing, Replay(stream).value.ledger.revisions)
    requires PageFits(Replay(stream).value, session, key, LessonProposals(recovery, batch.candidates).value)
    ensures Prepare(GeneratedBatch(session, recovery.run, key), LessonProposals(recovery, batch.candidates).value,
      listing).Some?
    ensures e == PageEvent(recovery, batch, listing, session, key, |stream| + 1)
    ensures Replay(stream + [e]).Some?
    ensures PageIn(batch.candidates, recovery.run, GeneratedBatch(session, recovery.run, key),
      Replay(stream + [e]).value.ledger)
  {
    var st := Replay(stream).value;
    ArtifactRuns.ReplayKeepsLedger(stream);
    CandidateForestReduces(st.ledger, st.world, listing, batch, recovery, session, key, |stream| + 1);
    e := PageEvent(recovery, batch, listing, session, key, |stream| + 1);
    CardsReduce(st.ledger, st.world, listing, batch, recovery, e);
    PageDecodes(st.ledger, listing, batch, recovery, e);
    ReplaySnoc(stream, e);
    BatchLedger(st, e);
  }

  lemma BatchLedger(st: State, e: Event)
    requires e.payload.ProposalBatch? && BatchDecodes(e) && ReduceBatch(st.ledger, st.world, e).Some?
    ensures Reduce(st, e).Some? && Reduce(st, e).value.ledger == ReduceBatch(st.ledger, st.world, e).value
  {
  }

  /** On every replayed stream, a verified page that converts is prepared, its event decodes and replays (new command,
      open session, grounded provenance), and in every later state of the stream the candidates' key forest is the
      parent forest of the projected artifacts, and each candidate's text is that of its artifact's first revision. */
  lemma CandidateForestReachesLedger(
    stream: seq<Event>, listing: seq<Entry>, batch: CandidateBatch, recovery: Recovery, session: SessionId, key: Key)
    requires Replay(stream).Some? && stream != [] && WellFormed(batch)
    requires LessonProposals(recovery, batch.candidates).Some?
    requires Lists(listing, Replay(stream).value.ledger.revisions)
    requires PageFits(Replay(stream).value, session, key, LessonProposals(recovery, batch.candidates).value)
    ensures Prepare(GeneratedBatch(session, recovery.run, key), LessonProposals(recovery, batch.candidates).value,
      listing).Some?
    ensures var e, id := PageEvent(recovery, batch, listing, session, key, |stream| + 1),
        GeneratedBatch(session, recovery.run, key);
      && Replay(stream + [e]).Some?
      && forall later :: stream + [e] <= later && Replay(later).Some? ==>
        && ForestIn(batch.candidates, id, Replay(later).value.ledger)
        && CardsIn(batch.candidates, recovery.run, id, Replay(later).value.ledger)
  {
    var e := PageReplays(stream, listing, batch, recovery, session, key);
    var id := GeneratedBatch(session, recovery.run, key);
    forall later | stream + [e] <= later && Replay(later).Some?
      ensures PageIn(batch.candidates, recovery.run, id, Replay(later).value.ledger)
    {
      PageLasts(batch.candidates, recovery.run, id, stream + [e], later);
    }
  }
}
