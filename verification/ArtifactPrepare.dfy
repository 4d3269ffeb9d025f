/** The command side of a proposal batch: how the service turns proposals into the recorded batch it appends,
    and exactly when the reducer accepts what the service prepared. */
module ArtifactPrepare {
  import opened Domain
  import opened ArtifactLedger
  import opened ArtifactInvariants
  import opened ArtifactSnapshot

  datatype Proposal = Proposal(ordinal: int, content: Content, provenance: Provenance, target: Option<ArtifactId>)

  datatype Placement = Placement(artifact: ArtifactId, prior: Option<RevisionId>, parent: Option<ArtifactId>)

  /** A revision goes to the head of its target.  An ordinal that resolves to nothing is compared with the
      target's parent like any other, so it matches a target that has none. */
  function PlacementAtTarget(
    listing: seq<Entry>, resolved: map<int, ArtifactId>, item: Proposal, target: ArtifactId): Option<Placement> {
    var head := CurrentHead(listing, target);
    var parent := ParentOrdinal(item.content);
    if History(listing, target) == [] || head.None? then None
    else if head.value.revision.kind != KindOf(item.content) then None
    else if parent.Some? && Lookup(resolved, parent.value) != head.value.revision.parent then None
    else Some(Placement(head.value.revision.artifact, Some(head.value.id), head.value.revision.parent))
  }

  function PlacementOfNew(batch: BatchId, resolved: map<int, ArtifactId>, item: Proposal): Option<Placement> {
    var parent := ParentOrdinal(item.content);
    if parent.None? then Some(Placement(ArtifactId(batch, item.ordinal), None, None))
    else if parent.value >= item.ordinal || parent.value !in resolved then None
    else Some(Placement(ArtifactId(batch, item.ordinal), None, Some(resolved[parent.value])))
  }

  function PlacementOf(
    batch: BatchId, listing: seq<Entry>, resolved: map<int, ArtifactId>, item: Proposal): Option<Placement> {
    if item.target.Some? then PlacementAtTarget(listing, resolved, item, item.target.value)
    else PlacementOfNew(batch, resolved, item)
  }

  function RecordIn(item: Proposal, slot: Placement): Recorded {
    var kind := KindOf(item.content);
    Recorded(item.ordinal, slot.artifact, RevisionId(slot.artifact, kind, item.content, item.provenance, slot.prior),
             kind, item.content, item.provenance, slot.prior, slot.parent)
  }

  function PrepareOne(
    batch: BatchId, listing: seq<Entry>, seen: set<ArtifactId>, resolved: map<int, ArtifactId>,
      item: Proposal): Option<Recorded> {
    match PlacementOf(batch, listing, resolved, item)
    case None => None
    case Some(slot) =>
      if slot.artifact in seen || item.provenance.prior != slot.prior then None
      else if !Coherent(KindOf(item.content), item.content, item.provenance, slot.prior) then None
      else Some(RecordIn(item, slot))
  }

  function PrepareAll(
    batch: BatchId, listing: seq<Entry>, seen: set<ArtifactId>, resolved: map<int, ArtifactId>,
      items: seq<Proposal>): Option<seq<Recorded>>
    decreases |items|
  {
    if items == [] then Some([])
    else match PrepareOne(batch, listing, seen, resolved, items[0])
      case None => None
      case Some(p) =>
        Prefixed([p], PrepareAll(batch, listing, seen + {p.artifact}, resolved[p.ordinal := p.artifact], items[1..]))
  }

  predicate Numbered(items: seq<Proposal>, first: int) {
    forall i :: 0 <= i < |items| ==> items[i].ordinal == first + i
  }

  /** The recorded proposals of a command; `None` when the service raises. */
  function Prepare(batch: BatchId, items: seq<Proposal>, listing: seq<Entry>): Option<seq<Recorded>> {
    if 1 <= |items| <= 24 && Numbered(items, 0) then PrepareAll(batch, listing, {}, map[], items) else None
  }

  function Prefixed(prepared: seq<Recorded>, rest: Option<seq<Recorded>>): Option<seq<Recorded>> {
    if rest.None? then None else Some(prepared + rest.value)
  }

  lemma PrefixedEmpty(rest: Option<seq<Recorded>>)
    ensures Prefixed([], rest) == rest
  {
    if rest.Some? {
      assert [] + rest.value == rest.value;
    }
  }

  lemma PrefixedAgain(prepared: seq<Recorded>, p: Recorded, rest: Option<seq<Recorded>>)
    ensures Prefixed(prepared, Prefixed([p], rest)) == Prefixed(prepared + [p], rest)
  {
    if rest.Some? {
      assert prepared + ([p] + rest.value) == prepared + [p] + rest.value;
    }
  }

  /** The preparation as the loop it is, filling `prepared`, `seen` and `resolved`. */
  method PrepareLoop(batch: BatchId, items: seq<Proposal>, listing: seq<Entry>) returns (r: Option<seq<Recorded>>)
    ensures r == Prepare(batch, items, listing)
  {
    if !(1 <= |items| <= 24) || !Numbered(items, 0) {
      return None;
    }
    var prepared: seq<Recorded>, seen: set<ArtifactId>, resolved: map<int, ArtifactId> := [], {}, map[];
    var i := 0;
    ghost var whole := PrepareAll(batch, listing, seen, resolved, items);
    assert items[0..] == items;
    PrefixedEmpty(whole);
    while i < |items|
      invariant 0 <= i <= |items|
      invariant whole == Prefixed(prepared, PrepareAll(batch, listing, seen, resolved, items[i..]))
    {
      var item := items[i];
      assert items[i..][0] == item && items[i..][1..] == items[i + 1..];
      var step := PrepareOne(batch, listing, seen, resolved, item);
      if step.None? {
        return None;
      }
      var p := step.value;
      PrefixedAgain(prepared, p,
        PrepareAll(batch, listing, seen + {p.artifact}, resolved[p.ordinal := p.artifact], items[i + 1..]));
      prepared := prepared + [p];
      seen := seen + {p.artifact};
      resolved := resolved[item.ordinal := p.artifact];
      i := i + 1;
    }
    assert prepared + [] == prepared;
    r := Some(prepared);
  }

  // ----------------------------------------- the batch against the reducer

  /** The one shape the service lets through and the reducer refuses: a revision that names a parent ordinal
      not resolved before it, of an artifact without a durable parent. */
  ghost predicate NamesMissingParent(ledger: Ledger, item: Proposal) {
    && item.target.Some? && item.target.value in ledger.artifacts
    && ledger.artifacts[item.target.value].parent.None?
    && ParentOrdinal(item.content).Some? && ParentOrdinal(item.content).value >= item.ordinal
  }

  /** The reducer's working maps hold the ledger plus the artifacts already prepared. */
  ghost predicate Synced(ledger: Ledger, seen: set<ArtifactId>, resolved: map<int, ArtifactId>, fold: Fold) {
    && fold.resolved == resolved
    && fold.artifacts.Keys == ledger.artifacts.Keys + seen
    && (forall a :: a in ledger.artifacts && a !in seen ==> fold.artifacts[a] == ledger.artifacts[a])
    && (forall r :: r in fold.revisions && r !in ledger.revisions ==> r.RevisionId? && r.artifact in seen)
    && (forall r :: r in ledger.revisions ==> r in fold.revisions)
  }

  ghost predicate ResolvedBelow(resolved: map<int, ArtifactId>, n: int) {
    forall k :: k in resolved <==> 0 <= k < n
  }

  /** The part of the ledger invariant that placing a proposal depends on. */
  ghost predicate Chained(ledger: Ledger) {
    Lineages(ledger.artifacts, ledger.revisions) && OneAccepted(ledger.revisions) && Identified(ledger.revisions)
  }

  /** A head has no successor, so a revision identity built on it is new. */
  lemma SuccessorIsNew(ledger: Ledger, r: RevisionId)
    requires Chained(ledger)
    requires r.RevisionId? && r.artifact in ledger.artifacts && r.prior == Some(ledger.artifacts[r.artifact].head)
    ensures r !in ledger.revisions
  {
    var a, art := r.artifact, ledger.artifacts[r.artifact];
    assert ChainOk(a, art, ledger.revisions);
    forall k | 0 <= k < |art.history| ensures art.history[k] != r {
      assert Linked(a, art, ledger.revisions, k);
    }
  }

  lemma TargetIsKnown(ledger: Ledger, listing: seq<Entry>, a: ArtifactId)
    requires Lineages(ledger.artifacts, ledger.revisions) && Lists(listing, ledger.revisions)
    requires History(listing, a) != []
    ensures a in ledger.artifacts
  {
    HistoryExact(listing, ledger.revisions, a);
    assert History(listing, a)[0] in History(listing, a);
  }

  lemma HeadRevision(ledger: Ledger, a: ArtifactId)
    requires Lineages(ledger.artifacts, ledger.revisions) && a in ledger.artifacts
    ensures var art := ledger.artifacts[a];
      && art.head in ledger.revisions && ledger.revisions[art.head].artifact == a
      && ledger.revisions[art.head].kind == art.kind && ledger.revisions[art.head].parent == art.parent
  {
    assert ChainOk(a, ledger.artifacts[a], ledger.revisions);
    assert Linked(a, ledger.artifacts[a], ledger.revisions, |ledger.artifacts[a].history| - 1);
  }

  lemma TargetPlacement(
    ledger: Ledger, listing: seq<Entry>, resolved: map<int, ArtifactId>, item: Proposal, a: ArtifactId)
    requires Chained(ledger) && Lists(listing, ledger.revisions)
    requires PlacementAtTarget(listing, resolved, item, a).Some?
    ensures a in ledger.artifacts
    ensures var art := ledger.artifacts[a];
      && PlacementAtTarget(listing, resolved, item, a) == Some(Placement(a, Some(art.head), art.parent))
      && KindOf(item.content) == art.kind
      && (ParentOrdinal(item.content).Some? ==> Lookup(resolved, ParentOrdinal(item.content).value) == art.parent)
  {
    TargetIsKnown(ledger, listing, a);
    HeadRevision(ledger, a);
    SnapshotAgreesWith(ledger, listing, a);
  }

  /** What one prepared proposal looks like in ledger terms. */
  ghost predicate Fits(ledger: Ledger, batch: BatchId, resolved: map<int, ArtifactId>, item: Proposal, p: Recorded) {
    && p == RecordIn(item, Placement(p.artifact, p.prior, p.parent))
    && Coherent(p.kind, p.content, p.provenance, p.prior)
    && (match item.target
        case None =>
          && p.artifact == ArtifactId(batch, item.ordinal) && p.prior == None
          && (match ParentOrdinal(item.content)
              case None => p.parent == None
              case Some(k) => k < item.ordinal && k in resolved && p.parent == Some(resolved[k]))
        case Some(a) =>
          && a in ledger.artifacts && p.artifact == a
          && p.prior == Some(ledger.artifacts[a].head) && p.parent == ledger.artifacts[a].parent
          && p.kind == ledger.artifacts[a].kind
          && (match ParentOrdinal(item.content)
              case None => true
              case Some(k) => Lookup(resolved, k) == ledger.artifacts[a].parent))
  }

  lemma PreparedFits(
    ledger: Ledger, listing: seq<Entry>, batch: BatchId, seen: set<ArtifactId>, resolved: map<int, ArtifactId>,
    item: Proposal)
    requires Chained(ledger) && Lists(listing, ledger.revisions)
    requires PrepareOne(batch, listing, seen, resolved, item).Some?
    ensures var p := PrepareOne(batch, listing, seen, resolved, item).value;
      p.artifact !in seen && Fits(ledger, batch, resolved, item, p)
  {
    if item.target.Some? {
      TargetPlacement(ledger, listing, resolved, item, item.target.value);
    }
  }

  /** The reducer places a prepared proposal unless it has the one refused shape. */
  lemma PlacedExactly(
    ledger: Ledger, seen: set<ArtifactId>, resolved: map<int, ArtifactId>, fold: Fold, batch: BatchId, item: Proposal,
    p: Recorded)
    requires Synced(ledger, seen, resolved, fold) && ResolvedBelow(resolved, item.ordinal) && p.artifact !in seen
    requires Fits(ledger, batch, resolved, item, p)
    requires item.target.None? ==> p.artifact !in ledger.artifacts
    ensures var history := if item.target.Some? then ledger.artifacts[p.artifact].history else [];
      PlaceOf(fold, p) == if NamesMissingParent(ledger, item) then None else Some(Place(p.prior, history, p.parent))
  {
  }

  lemma PreparedIsNew(
    ledger: Ledger, seen: set<ArtifactId>, resolved: map<int, ArtifactId>, fold: Fold, batch: BatchId, item: Proposal,
    p: Recorded)
    requires Chained(ledger)
    requires Synced(ledger, seen, resolved, fold) && p.artifact !in seen && Fits(ledger, batch, resolved, item, p)
    requires item.target.None? ==> p.artifact !in ledger.artifacts
    ensures p.revision !in fold.revisions
  {
    if item.target.Some? {
      SuccessorIsNew(ledger, p.revision);
    }
  }

  ghost predicate Groundable(scope: Scope, item: Proposal) {
    && (scope.session, item.provenance) in scope.world.grounded
    && (item.provenance.Generated? ==> scope.run == Some(item.provenance.run))
  }

  lemma ProposeOneExactly(
    ledger: Ledger, scope: Scope, seen: set<ArtifactId>, resolved: map<int, ArtifactId>, fold: Fold, item: Proposal,
    p: Recorded)
    requires Chained(ledger)
    requires Synced(ledger, seen, resolved, fold) && ResolvedBelow(resolved, item.ordinal) && p.artifact !in seen
    requires Fits(ledger, scope.batch, resolved, item, p) && Groundable(scope, item)
    requires item.target.None? ==> p.artifact !in ledger.artifacts
    ensures ProposeOne(scope, fold, p).Some? <==> !NamesMissingParent(ledger, item)
    ensures ProposeOne(scope, fold, p).Some? ==>
      Synced(ledger, seen + {p.artifact}, resolved[p.ordinal := p.artifact], ProposeOne(scope, fold, p).value)
  {
    PlacedExactly(ledger, seen, resolved, fold, scope.batch, item, p);
    PreparedIsNew(ledger, seen, resolved, fold, scope.batch, item, p);
    if ProposeOne(scope, fold, p).Some? {
      ProposeOneEffect(scope, fold, p);
    }
  }

  ghost predicate BatchUnused(ledger: Ledger, batch: BatchId) {
    forall a :: a in ledger.artifacts ==> a.ArtifactId? && a.batch != batch
  }

  ghost predicate NoneNamesMissing(ledger: Ledger, items: seq<Proposal>) {
    forall i :: 0 <= i < |items| ==> !NamesMissingParent(ledger, items[i])
  }

  lemma NoneNamesMissingCons(ledger: Ledger, items: seq<Proposal>)
    requires items != []
    ensures NoneNamesMissing(ledger, items) <==>
      !NamesMissingParent(ledger, items[0]) && NoneNamesMissing(ledger, items[1..])
  {
    assert forall i :: 0 < i < |items| ==> items[i] == items[1..][i - 1];
    assert forall i :: 0 <= i < |items| - 1 ==> items[1..][i] == items[i + 1];
  }

  /** The first item prepares to a proposal that fits; the rest prepares after it. */
  lemma PreparedHead(
    ledger: Ledger, listing: seq<Entry>, batch: BatchId, seen: set<ArtifactId>, resolved: map<int, ArtifactId>,
    items: seq<Proposal>)
    requires Chained(ledger) && Lists(listing, ledger.revisions) && BatchUnused(ledger, batch)
    requires items != [] && PrepareAll(batch, listing, seen, resolved, items).Some?
    ensures PrepareOne(batch, listing, seen, resolved, items[0]).Some?
    ensures var p := PrepareOne(batch, listing, seen, resolved, items[0]).value;
      var rest := PrepareAll(batch, listing, seen + {p.artifact}, resolved[p.ordinal := p.artifact], items[1..]);
      && Fits(ledger, batch, resolved, items[0], p) && p.artifact !in seen && p.ordinal == items[0].ordinal
      && (items[0].target.None? ==> p.artifact !in ledger.artifacts)
      && rest.Some? && PrepareAll(batch, listing, seen, resolved, items).value == [p] + rest.value
  {
    PreparedFits(ledger, listing, batch, seen, resolved, items[0]);
  }

  lemma ProposeAllCons(scope: Scope, fold: Fold, p: Recorded, rest: seq<Recorded>)
    ensures ProposeAll(scope, fold, [p] + rest).Some? <==>
      ProposeOne(scope, fold, p).Some? && ProposeAll(scope, ProposeOne(scope, fold, p).value, rest).Some?
  {
    assert ([p] + rest)[1..] == rest;
  }

  /** Everything the loop relies on before it comes to `items`. */
  ghost predicate Aligned(
    ledger: Ledger, scope: Scope, seen: set<ArtifactId>, resolved: map<int, ArtifactId>, fold: Fold,
    items: seq<Proposal>, first: int) {
    && Synced(ledger, seen, resolved, fold) && ResolvedBelow(resolved, first) && 0 <= first && Numbered(items, first)
    && forall i :: 0 <= i < |items| ==> Groundable(scope, items[i])
  }

  /** The reducer takes the first prepared proposal exactly when it lacks the refused shape, and is then aligned with
      the rest. */
  lemma AlignedStep(
    ledger: Ledger, scope: Scope, seen: set<ArtifactId>, resolved: map<int, ArtifactId>, fold: Fold,
    items: seq<Proposal>, first: int, p: Recorded)
    requires Chained(ledger) && Aligned(ledger, scope, seen, resolved, fold, items, first) && items != []
    requires Fits(ledger, scope.batch, resolved, items[0], p) && p.artifact !in seen && p.ordinal == items[0].ordinal
    requires items[0].target.None? ==> p.artifact !in ledger.artifacts
    ensures ProposeOne(scope, fold, p).Some? <==> !NamesMissingParent(ledger, items[0])
    ensures ProposeOne(scope, fold, p).Some? ==>
      Aligned(ledger, scope, seen + {p.artifact}, resolved[p.ordinal := p.artifact], ProposeOne(scope, fold, p).value,
        items[1..], first + 1)
  {
    assert items[0].ordinal == first && Groundable(scope, items[0]);
    ProposeOneExactly(ledger, scope, seen, resolved, fold, items[0], p);
    assert forall i :: 0 <= i < |items| - 1 ==> items[1..][i] == items[i + 1];
  }

  /** The reducer's loop accepts exactly the prepared proposals without the refused shape. */
  lemma {:induction false} ProposeAllExactly(
    ledger: Ledger, scope: Scope, listing: seq<Entry>, seen: set<ArtifactId>, resolved: map<int, ArtifactId>,
    fold: Fold, items: seq<Proposal>, first: int)
    requires Chained(ledger) && Lists(listing, ledger.revisions) && BatchUnused(ledger, scope.batch)
    requires Aligned(ledger, scope, seen, resolved, fold, items, first)
    requires PrepareAll(scope.batch, listing, seen, resolved, items).Some?
    ensures ProposeAll(scope, fold, PrepareAll(scope.batch, listing, seen, resolved, items).value).Some? <==>
      NoneNamesMissing(ledger, items)
    decreases |items|
  {
    if items != [] {
      PreparedHead(ledger, listing, scope.batch, seen, resolved, items);
      var p := PrepareOne(scope.batch, listing, seen, resolved, items[0]).value;
      var later := resolved[p.ordinal := p.artifact];
      NoneNamesMissingCons(ledger, items);
      ProposeAllCons(scope, fold, p, PrepareAll(scope.batch, listing, seen + {p.artifact}, later, items[1..]).value);
      AlignedStep(ledger, scope, seen, resolved, fold, items, first, p);
      if ProposeOne(scope, fold, p).Some? {
        ProposeAllExactly(ledger, scope, listing, seen + {p.artifact}, later, ProposeOne(scope, fold, p).value,
          items[1..], first + 1);
      }
    }
  }

  /** What the decoder asks of each prepared proposal and of the batch as a whole. */
  lemma {:induction false} PreparedDecodes(
    ledger: Ledger, listing: seq<Entry>, batch: BatchId, seen: set<ArtifactId>, resolved: map<int, ArtifactId>,
    items: seq<Proposal>)
    requires Chained(ledger) && Lists(listing, ledger.revisions)
    requires PrepareAll(batch, listing, seen, resolved, items).Some?
    requires forall i :: 0 <= i < |items| ==> ContentDecodes(items[i].content)
    ensures var all := PrepareAll(batch, listing, seen, resolved, items).value;
      && |all| == |items|
      && (forall i :: 0 <= i < |all| ==> all[i].ordinal == items[i].ordinal && all[i].provenance == items[i].provenance)
      && (forall i :: 0 <= i < |all| ==> all[i].artifact !in seen && ProposalIdentity(batch, all[i]))
      && ArtifactsDistinct(all)
    decreases |items|
  {
    if items != [] {
      var item, tail := items[0], items[1..];
      PreparedFits(ledger, listing, batch, seen, resolved, item);
      var p := PrepareOne(batch, listing, seen, resolved, item).value;
      assert forall i :: 0 <= i < |tail| ==> items[i + 1] == tail[i];
      PreparedDecodes(ledger, listing, batch, seen + {p.artifact}, resolved[p.ordinal := p.artifact], tail);
      var all := PrepareAll(batch, listing, seen, resolved, items).value;
      assert all[0] == p && ProposalIdentity(batch, p);
      assert all[1..] == PrepareAll(batch, listing, seen + {p.artifact}, resolved[p.ordinal := p.artifact], tail).value;
      assert forall i :: 0 < i < |all| ==> all[i] == all[1..][i - 1];
    }
  }

  /** A prepared proposal carries the content and the provenance it was prepared from. */
  lemma {:induction false} PreparedQuotes(
    batch: BatchId, listing: seq<Entry>, seen: set<ArtifactId>, resolved: map<int, ArtifactId>, items: seq<Proposal>)
    requires PrepareAll(batch, listing, seen, resolved, items).Some?
    ensures var all := PrepareAll(batch, listing, seen, resolved, items).value;
      |all| == |items| && forall i :: 0 <= i < |all| ==>
        all[i].content == items[i].content && all[i].provenance == items[i].provenance
    decreases |items|
  {
    if items != [] {
      var p := PrepareOne(batch, listing, seen, resolved, items[0]).value;
      PreparedQuotes(batch, listing, seen + {p.artifact}, resolved[p.ordinal := p.artifact], items[1..]);
      var rest := PrepareAll(batch, listing, seen + {p.artifact}, resolved[p.ordinal := p.artifact], items[1..]).value;
      assert PrepareAll(batch, listing, seen, resolved, items).value == [p] + rest;
    }
  }

  /** The reducer's loop admits every proposal it accepts. */
  lemma {:induction false} AcceptedAreAdmitted(scope: Scope, fold: Fold, proposals: seq<Recorded>)
    requires ProposeAll(scope, fold, proposals).Some?
    ensures forall i :: 0 <= i < |proposals| ==> Admitted(scope, proposals[i])
    decreases |proposals|
  {
    if proposals != [] {
      AcceptedAreAdmitted(scope, ProposeOne(scope, fold, proposals[0]).value, proposals[1..]);
      assert forall i :: 0 < i < |proposals| ==> proposals[i] == proposals[1..][i - 1];
    }
  }

  // ------------------------------------------------------------ the commands

  /** The event a generated command appends. */
  function GeneratedEvent(session: SessionId, key: Key, run: RunId, proposals: seq<Recorded>, sequence: int): Event {
    Event(ArtifactEventId(session, key, ProposalCommand), sequence, session, Service,
          ProposalBatch(GeneratedBatch(session, run, key), GeneratedOrigin, proposals, Some(run), true, key))
  }

  /** The event a human revision command appends. */
  function HumanEvent(
    session: SessionId, key: Key, interaction: InteractionId, proposals: seq<Recorded>, sequence: int): Event {
    Event(ArtifactEventId(session, key, ProposalCommand), sequence, session, Human,
          ProposalBatch(HumanBatch(session, interaction, key), HumanOrigin, proposals, None, false, key))
  }

  /** The command builds `e` for `items`: a generated batch of one run, or one proposal of a human interaction. */
  ghost predicate Commanded(e: Event, items: seq<Proposal>) {
    && e.payload.ProposalBatch?
    && (forall i :: 0 <= i < |items| ==> ContentDecodes(items[i].content))
    && (match e.payload.origin
        case GeneratedOrigin =>
          && e.payload.run.Some?
          && e == GeneratedEvent(e.session, e.payload.key, e.payload.run.value, e.payload.proposals, e.sequence)
          && (forall i :: 0 <= i < |items| ==>
            items[i].provenance.Generated? && Some(items[i].provenance.run) == e.payload.run)
        case HumanOrigin =>
          && |items| == 1 && items[0].provenance.HumanAuthored?
          && e == HumanEvent(e.session, e.payload.key, items[0].provenance.interaction, e.payload.proposals,
            e.sequence))
  }

  /** What decoder and reducer ask of one item beyond its lineage. */
  ghost predicate Recordable(world: World, e: Event, item: Proposal)
    requires e.payload.ProposalBatch?
  {
    && ContentDecodes(item.content)
    && (e.session, item.provenance) in world.grounded
    && (e.payload.origin == GeneratedOrigin ==>
      item.provenance.Generated? && Some(item.provenance.run) == e.payload.run)
  }

  /** The command builds `e` for `items`, whatever the items hold. */
  ghost predicate BuiltFor(e: Event, items: seq<Proposal>) {
    && e.payload.ProposalBatch?
    && (match e.payload.origin
        case GeneratedOrigin =>
          && e.payload.run.Some?
          && e == GeneratedEvent(e.session, e.payload.key, e.payload.run.value, e.payload.proposals, e.sequence)
        case HumanOrigin =>
          && |items| == 1 && items[0].provenance.HumanAuthored?
          && e == HumanEvent(e.session, e.payload.key, items[0].provenance.interaction, e.payload.proposals,
            e.sequence))
  }

  lemma CommandDecodes(ledger: Ledger, listing: seq<Entry>, items: seq<Proposal>, e: Event)
    requires LedgerOk(ledger) && Lists(listing, ledger.revisions) && Commanded(e, items) && e.sequence >= 2
    requires Prepare(e.payload.batch, items, listing) == Some(e.payload.proposals)
    ensures BatchDecodes(e)
  {
    PreparedDecodes(ledger, listing, e.payload.batch, {}, map[], items);
  }

  /** Every batch the service prepares decodes, and the reducer accepts it exactly when no proposal has the
      refused shape: all lineage, kind, parent and identity checks agree otherwise. */
  lemma PreparedBatchReduces(ledger: Ledger, world: World, listing: seq<Entry>, items: seq<Proposal>, e: Event)
    requires LedgerOk(ledger) && Lists(listing, ledger.revisions) && Commanded(e, items)
    requires Prepare(e.payload.batch, items, listing) == Some(e.payload.proposals)
    requires e.id !in ledger.commands && e.session in world.sessions
    requires forall i :: 0 <= i < |items| ==> (e.session, items[i].provenance) in world.grounded
    ensures ReduceBatch(ledger, world, e).Some? <==> NoneNamesMissing(ledger, items)
  {
    var scope := ScopeOf(world, e);
    assert e.payload.batch !in ledger.batches;
    assert BatchUnused(ledger, scope.batch);
    assert forall i :: 0 <= i < |items| ==> Groundable(scope, items[i]);
    ProposeAllExactly(ledger, scope, listing, {}, map[], Fold(ledger.artifacts, ledger.revisions, map[], []), items, 0);
  }

  lemma RecordableIsCommanded(world: World, e: Event, items: seq<Proposal>)
    requires BuiltFor(e, items) && forall i :: 0 <= i < |items| ==> Recordable(world, e, items[i])
    ensures Commanded(e, items)
  {
  }

  lemma AcceptedIsRecordable(ledger: Ledger, world: World, listing: seq<Entry>, items: seq<Proposal>, e: Event)
    requires BuiltFor(e, items) && Prepare(e.payload.batch, items, listing) == Some(e.payload.proposals)
    requires BatchDecodes(e) && ReduceBatch(ledger, world, e).Some?
    ensures e.session in world.sessions && forall i :: 0 <= i < |items| ==> Recordable(world, e, items[i])
  {
    var proposals := e.payload.proposals;
    PreparedQuotes(e.payload.batch, listing, {}, map[], items);
    AcceptedAreAdmitted(ScopeOf(world, e), Fold(ledger.artifacts, ledger.revisions, map[], []), proposals);
    forall i | 0 <= i < |items| ensures Recordable(world, e, items[i]) {
      assert Admitted(ScopeOf(world, e), proposals[i]) && ProposalIdentity(e.payload.batch, proposals[i]);
      assert ProvenanceMatchesOrigin(e.payload.origin, proposals[i].provenance);
    }
  }

  /** A prepared batch of a new command passes decoder and reducer exactly when its session is open, every item
      decodes, is grounded and, in a generated batch, of the run, and no item has the refused shape. */
  lemma BuiltBatchReduces(ledger: Ledger, world: World, listing: seq<Entry>, items: seq<Proposal>, e: Event)
    requires LedgerOk(ledger) && Lists(listing, ledger.revisions) && BuiltFor(e, items) && e.sequence >= 2
    requires Prepare(e.payload.batch, items, listing) == Some(e.payload.proposals) && e.id !in ledger.commands
    ensures BatchDecodes(e) && ReduceBatch(ledger, world, e).Some? <==>
      && e.session in world.sessions
      && (forall i :: 0 <= i < |items| ==> Recordable(world, e, items[i]))
      && NoneNamesMissing(ledger, items)
  {
    if BatchDecodes(e) && ReduceBatch(ledger, world, e).Some? {
      AcceptedIsRecordable(ledger, world, listing, items, e);
    }
    if e.session in world.sessions && forall i :: 0 <= i < |items| ==> Recordable(world, e, items[i]) {
      RecordableIsCommanded(world, e, items);
      CommandDecodes(ledger, listing, items, e);
      PreparedBatchReduces(ledger, world, listing, items, e);
    }
  }
}
