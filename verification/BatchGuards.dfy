/** When a proposal batch is admitted: decoder and reducer together, as one condition per proposal on the ledger before
    the batch and on the proposals before it. */
module BatchGuards {
  import opened Domain
  import opened ArtifactLedger
  import opened ArtifactInvariants
  import opened ArtifactPrepare

  /** The proposal's own identity and ground. */
  ghost predicate ProposalStands(world: World, session: SessionId, payload: Payload, p: Recorded)
    requires payload.ProposalBatch?
  {
    && ContentDecodes(p.content) && p.kind == KindOf(p.content)
    && p.revision == RevisionId(p.artifact, p.kind, p.content, p.provenance, p.prior)
    && p.provenance.prior == p.prior
    && (session, p.provenance) in world.grounded
    && (match payload.origin
        case GeneratedOrigin =>
          p.provenance.Generated? && p.provenance.output == p.content && Some(p.provenance.run) == payload.run
        case HumanOrigin => p.provenance.HumanAuthored?)
  }

  /** Proposal `i` is at its place: a new artifact under an earlier proposal's artifact, or the next revision of an
      artifact, of its kind, after its head and under its parent, which an ordinal must name. */
  ghost predicate ProposalPlaced(ledger: Ledger, batch: BatchId, proposals: seq<Recorded>, i: int)
    requires 0 <= i < |proposals|
  {
    var p, parent := proposals[i], ParentOrdinal(proposals[i].content);
    && p.ordinal == i
    && (forall j :: 0 <= j < i ==> proposals[j].artifact != p.artifact)
    && (parent.Some? ==> parent.value < i && p.parent == Some(proposals[parent.value].artifact))
    && (if p.artifact in ledger.artifacts
        then
          && p.kind == ledger.artifacts[p.artifact].kind
          && p.prior == Some(ledger.artifacts[p.artifact].head)
          && p.parent == ledger.artifacts[p.artifact].parent
        else
          p.artifact == ArtifactId(batch, i) && p.prior == None && (parent.None? ==> p.parent == None))
  }

  ghost predicate BatchGuarded(ledger: Ledger, world: World, e: Event)
    requires e.payload.ProposalBatch?
  {
    var p := e.payload;
    && e.id == ArtifactEventId(e.session, p.key, ProposalCommand) && e.id !in ledger.commands && e.sequence >= 2
    && p.batch !in ledger.batches && 1 <= |p.proposals| <= 24
    && (match p.origin
        case GeneratedOrigin =>
          e.actor == Service && p.proof && p.run.Some? && p.batch == GeneratedBatch(e.session, p.run.value, p.key)
        case HumanOrigin =>
          && e.actor == Human && !p.proof && p.run == None && |p.proposals| == 1
          && p.proposals[0].provenance.HumanAuthored?
          && p.batch == HumanBatch(e.session, p.proposals[0].provenance.interaction, p.key))
    && (forall i :: 0 <= i < |p.proposals| ==> ProposalStands(world, e.session, p, p.proposals[i]))
    && (forall i :: 0 <= i < |p.proposals| ==> ProposalPlaced(ledger, p.batch, p.proposals, i))
  }

  // -------------------------------------------------------------- one proposal

  /** The loop has come to proposal `n`. */
  ghost predicate ReachedProposal(
    ledger: Ledger, proposals: seq<Recorded>, n: int, seen: set<ArtifactId>, resolved: map<int, ArtifactId>,
    fold: Fold) {
    && 0 <= n <= |proposals| && Synced(ledger, seen, resolved, fold)
    && SeenUpTo(proposals, n, seen) && ResolvedUpTo(proposals, n, resolved)
  }

  ghost predicate SeenUpTo(proposals: seq<Recorded>, n: int, seen: set<ArtifactId>)
    requires 0 <= n <= |proposals|
  {
    forall a :: a in seen <==> exists j :: 0 <= j < n && proposals[j].artifact == a
  }

  ghost predicate ResolvedUpTo(proposals: seq<Recorded>, n: int, resolved: map<int, ArtifactId>)
    requires 0 <= n <= |proposals|
  {
    ResolvedBelow(resolved, n) && forall k :: 0 <= k < n ==> resolved[k] == proposals[k].artifact
  }

  /** What the decoder has established about every proposal. */
  ghost predicate Decoded(batch: BatchId, proposals: seq<Recorded>) {
    && OrdinalsContiguous(proposals) && ArtifactsDistinct(proposals)
    && forall i :: 0 <= i < |proposals| ==> ProposalIdentity(batch, proposals[i])
  }

  lemma PlacesExactly(
    ledger: Ledger, batch: BatchId, proposals: seq<Recorded>, n: int, seen: set<ArtifactId>,
    resolved: map<int, ArtifactId>, fold: Fold)
    requires ReachedProposal(ledger, proposals, n, seen, resolved, fold) && n < |proposals|
    requires Decoded(batch, proposals)
    ensures PlaceOf(fold, proposals[n]).Some? <==> ProposalPlaced(ledger, batch, proposals, n)
    ensures PlaceOf(fold, proposals[n]).Some? ==> PlaceOf(fold, proposals[n]).value.prior == proposals[n].prior
  {
    var p := proposals[n];
    assert ProposalIdentity(batch, p);
    assert p.artifact !in seen;
  }

  /** A placed proposal is a revision that the ledger does not hold yet. */
  lemma PlacedIsNew(
    ledger: Ledger, batch: BatchId, proposals: seq<Recorded>, n: int, seen: set<ArtifactId>,
    resolved: map<int, ArtifactId>, fold: Fold)
    requires Chained(ledger)
    requires ReachedProposal(ledger, proposals, n, seen, resolved, fold) && n < |proposals|
    requires Decoded(batch, proposals) && ProposalPlaced(ledger, batch, proposals, n)
    ensures proposals[n].revision !in fold.revisions
  {
    var p := proposals[n];
    assert ProposalIdentity(batch, p);
    if p.artifact in ledger.artifacts {
      SuccessorIsNew(ledger, p.revision);
    }
  }

  lemma ProposesExactly(
    ledger: Ledger, scope: Scope, proposals: seq<Recorded>, n: int, seen: set<ArtifactId>,
    resolved: map<int, ArtifactId>, fold: Fold)
    requires Chained(ledger)
    requires ReachedProposal(ledger, proposals, n, seen, resolved, fold) && n < |proposals|
    requires Decoded(scope.batch, proposals)
    ensures ProposeOne(scope, fold, proposals[n]).Some? <==>
      Admitted(scope, proposals[n]) && ProposalPlaced(ledger, scope.batch, proposals, n)
  {
    PlacesExactly(ledger, scope.batch, proposals, n, seen, resolved, fold);
    assert ProposalIdentity(scope.batch, proposals[n]);
    if ProposalPlaced(ledger, scope.batch, proposals, n) {
      PlacedIsNew(ledger, scope.batch, proposals, n, seen, resolved, fold);
    }
  }

  /** What an accepted proposal leaves in the working maps. */
  ghost predicate FoldStep(fold: Fold, next: Fold, p: Recorded) {
    && next.artifacts.Keys == fold.artifacts.Keys + {p.artifact}
    && (forall a :: a in fold.artifacts && a != p.artifact ==> next.artifacts[a] == fold.artifacts[a])
    && next.revisions.Keys == fold.revisions.Keys + {p.revision}
    && next.resolved == fold.resolved[p.ordinal := p.artifact]
  }

  lemma ProposeOneSteps(scope: Scope, fold: Fold, p: Recorded)
    requires ProposeOne(scope, fold, p).Some?
    ensures FoldStep(fold, ProposeOne(scope, fold, p).value, p)
  {
  }

  lemma SyncedNext(
    ledger: Ledger, seen: set<ArtifactId>, resolved: map<int, ArtifactId>, fold: Fold, next: Fold, p: Recorded)
    requires Synced(ledger, seen, resolved, fold) && FoldStep(fold, next, p)
    requires p.revision.RevisionId? && p.revision.artifact == p.artifact
    ensures Synced(ledger, seen + {p.artifact}, resolved[p.ordinal := p.artifact], next)
  {
  }

  lemma SeenNext(proposals: seq<Recorded>, n: int, seen: set<ArtifactId>)
    requires 0 <= n < |proposals| && SeenUpTo(proposals, n, seen)
    ensures SeenUpTo(proposals, n + 1, seen + {proposals[n].artifact})
  {
    forall a ensures a in seen + {proposals[n].artifact} <==>
      exists j :: 0 <= j < n + 1 && proposals[j].artifact == a {
      if a == proposals[n].artifact {
        assert proposals[n].artifact == a;
      }
    }
  }

  lemma ResolvedNext(proposals: seq<Recorded>, n: int, resolved: map<int, ArtifactId>)
    requires 0 <= n < |proposals| && ResolvedUpTo(proposals, n, resolved)
    ensures ResolvedUpTo(proposals, n + 1, resolved[n := proposals[n].artifact])
  {
  }

  lemma ReachesNext(
    ledger: Ledger, scope: Scope, proposals: seq<Recorded>, n: int, seen: set<ArtifactId>,
    resolved: map<int, ArtifactId>, fold: Fold, next: Fold)
    requires ReachedProposal(ledger, proposals, n, seen, resolved, fold) && n < |proposals|
    requires Decoded(scope.batch, proposals) && FoldStep(fold, next, proposals[n])
    ensures ReachedProposal(ledger, proposals, n + 1, seen + {proposals[n].artifact},
      resolved[n := proposals[n].artifact], next)
  {
    assert ProposalIdentity(scope.batch, proposals[n]);
    SyncedNext(ledger, seen, resolved, fold, next, proposals[n]);
    SeenNext(proposals, n, seen);
    ResolvedNext(proposals, n, resolved);
  }

  // ------------------------------------------------------------- all proposals

  lemma {:induction false} RestProposesExactly(
    ledger: Ledger, scope: Scope, proposals: seq<Recorded>, n: int, seen: set<ArtifactId>,
    resolved: map<int, ArtifactId>, fold: Fold)
    requires Chained(ledger)
    requires ReachedProposal(ledger, proposals, n, seen, resolved, fold) && Decoded(scope.batch, proposals)
    ensures ProposeAll(scope, fold, proposals[n..]).Some? <==> forall i :: n <= i < |proposals| ==>
      Admitted(scope, proposals[i]) && ProposalPlaced(ledger, scope.batch, proposals, i)
    decreases |proposals| - n
  {
    if n < |proposals| {
      assert proposals[n..][0] == proposals[n] && proposals[n..][1..] == proposals[n + 1..];
      ProposesExactly(ledger, scope, proposals, n, seen, resolved, fold);
      if ProposeOne(scope, fold, proposals[n]).Some? {
        var next := ProposeOne(scope, fold, proposals[n]).value;
        ProposeOneSteps(scope, fold, proposals[n]);
        ReachesNext(ledger, scope, proposals, n, seen, resolved, fold, next);
        RestProposesExactly(ledger, scope, proposals, n + 1, seen + {proposals[n].artifact},
          resolved[n := proposals[n].artifact], next);
      }
    }
  }

  lemma BatchReducesExactly(ledger: Ledger, world: World, e: Event)
    requires Chained(ledger) && e.payload.ProposalBatch? && Decoded(e.payload.batch, e.payload.proposals)
    ensures ReduceBatch(ledger, world, e).Some? <==>
      && BatchOpens(ledger, world, e)
      && forall i :: 0 <= i < |e.payload.proposals| ==>
        Admitted(ScopeOf(world, e), e.payload.proposals[i]) &&
        ProposalPlaced(ledger, e.payload.batch, e.payload.proposals, i)
  {
    var proposals := e.payload.proposals;
    assert proposals[0..] == proposals;
    RestProposesExactly(ledger, ScopeOf(world, e), proposals, 0, {}, map[],
      Fold(ledger.artifacts, ledger.revisions, map[], []));
  }

  lemma GuardedDecodes(ledger: Ledger, world: World, e: Event)
    requires e.payload.ProposalBatch? && BatchGuarded(ledger, world, e)
    ensures BatchDecodes(e)
  {
    var p := e.payload;
    forall i | 0 <= i < |p.proposals|
      ensures p.proposals[i].ordinal == i && ProposalIdentity(p.batch, p.proposals[i])
      ensures ProvenanceMatchesOrigin(p.origin, p.proposals[i].provenance)
    {
      assert ProposalStands(world, e.session, p, p.proposals[i]);
      assert ProposalPlaced(ledger, p.batch, p.proposals, i);
    }
    forall i, j | 0 <= i < j < |p.proposals| ensures p.proposals[i].artifact != p.proposals[j].artifact {
      assert ProposalPlaced(ledger, p.batch, p.proposals, j);
    }
  }

  lemma ProposalStandsExactly(world: World, e: Event, i: int)
    requires e.payload.ProposalBatch? && BatchDecodes(e) && 0 <= i < |e.payload.proposals|
    ensures Admitted(ScopeOf(world, e), e.payload.proposals[i]) <==>
      ProposalStands(world, e.session, e.payload, e.payload.proposals[i])
  {
    assert ProposalIdentity(e.payload.batch, e.payload.proposals[i]);
    assert ProvenanceMatchesOrigin(e.payload.origin, e.payload.proposals[i].provenance);
  }

  /** A batch passes decoder and reducer exactly when its session is open and its guard holds. */
  lemma BatchAdmitted(ledger: Ledger, world: World, e: Event)
    requires Chained(ledger) && e.payload.ProposalBatch?
    ensures BatchDecodes(e) && ReduceBatch(ledger, world, e).Some? <==>
      e.session in world.sessions && BatchGuarded(ledger, world, e)
  {
    if e.session in world.sessions && BatchGuarded(ledger, world, e) {
      GuardedDecodes(ledger, world, e);
    }
    if BatchDecodes(e) {
      BatchReducesExactly(ledger, world, e);
      forall i | 0 <= i < |e.payload.proposals|
        ensures Admitted(ScopeOf(world, e), e.payload.proposals[i]) <==>
          ProposalStands(world, e.session, e.payload, e.payload.proposals[i])
      {
        ProposalStandsExactly(world, e, i);
      }
    }
  }
}
