/** The durable parent relation is an acyclic forest, ordered by artifact creation. */
module ArtifactForest {
  import opened Domain
  import opened ArtifactLedger
  import opened ArtifactInvariants
  import opened Course

  function CreatedByOne(p: Recorded): seq<ArtifactId> {
    if p.prior.None? then [p.artifact] else []
  }

  /** The artifacts a batch creates, in proposal order: exactly its proposals without a prior revision. */
  function CreatedBy(proposals: seq<Recorded>): seq<ArtifactId>
    decreases |proposals|
  {
    if proposals == [] then []
    else CreatedByOne(proposals[0]) + CreatedBy(proposals[1..])
  }

  /** All artifacts in creation order. */
  function CreationOrder(stream: seq<Event>): seq<ArtifactId>
    decreases |stream|
  {
    if stream == [] then []
    else
      var n := |stream| - 1;
      CreationOrder(stream[..n]) +
        (if stream[n].payload.ProposalBatch? then CreatedBy(stream[n].payload.proposals) else [])
  }

  /** `order` lists exactly the artifacts, once each, every parent strictly before its children. */
  ghost predicate Forest(artifacts: map<ArtifactId, Artifact>, order: seq<ArtifactId>) {
    && Distinct(order)
    && (forall a :: a in artifacts <==> a in order)
    && (forall i :: 0 <= i < |order| && artifacts[order[i]].parent.Some? ==>
      artifacts[order[i]].parent.value in order[..i])
  }

  ghost predicate ResolvedExist(fold: Fold) {
    forall k :: k in fold.resolved ==> fold.resolved[k] in fold.artifacts
  }

  lemma ProposeOneGrowsForest(scope: Scope, fold: Fold, p: Recorded, order: seq<ArtifactId>)
    requires Forest(fold.artifacts, order) && ResolvedExist(fold) && ProposeOne(scope, fold, p).Some?
    ensures var next := ProposeOne(scope, fold, p).value;
      ResolvedExist(next) && Forest(next.artifacts, order + CreatedByOne(p))
  {
    ProposeOneEffect(scope, fold, p);
    var next := ProposeOne(scope, fold, p).value;
    if p.prior.None? {
      assert next.artifacts[p.artifact].parent.Some? ==> next.artifacts[p.artifact].parent.value in fold.artifacts;
      ForestSnoc(fold.artifacts, next.artifacts, order, p.artifact);
    } else {
      assert order + [] == order;
    }
  }

  lemma ForestSnoc(
    artifacts: map<ArtifactId, Artifact>, next: map<ArtifactId, Artifact>, order: seq<ArtifactId>, a: ArtifactId)
    requires Forest(artifacts, order) && a !in artifacts && next.Keys == artifacts.Keys + {a}
    requires forall b :: b in artifacts ==> next[b].parent == artifacts[b].parent
    requires next[a].parent.Some? ==> next[a].parent.value in artifacts
    ensures Forest(next, order + [a])
  {
    var grown := order + [a];
    forall i | 0 <= i < |grown| && next[grown[i]].parent.Some? ensures next[grown[i]].parent.value in grown[..i] {
      if i < |order| {
        assert artifacts[order[i]].parent.value in order[..i];
        assert grown[..i] == order[..i];
      } else {
        assert grown[..i] == order;
      }
    }
    forall b ensures b in next <==> b in grown {
      assert b in grown <==> b in order || b == a;
    }
  }

  lemma CreatedInTurn(order: seq<ArtifactId>, proposals: seq<Recorded>)
    requires proposals != []
    ensures order + CreatedBy(proposals) == order + CreatedByOne(proposals[0]) + CreatedBy(proposals[1..])
  {
  }

  lemma {:induction false} ProposeAllGrowsForest(
    scope: Scope, fold: Fold, proposals: seq<Recorded>, order: seq<ArtifactId>)
    requires Forest(fold.artifacts, order) && ResolvedExist(fold) && ProposeAll(scope, fold, proposals).Some?
    ensures Forest(ProposeAll(scope, fold, proposals).value.artifacts, order + CreatedBy(proposals))
    decreases |proposals|
  {
    if proposals == [] {
      assert order + [] == order;
    } else {
      var first := CreatedByOne(proposals[0]);
      CreatedInTurn(order, proposals);
      ProposeOneGrowsForest(scope, fold, proposals[0], order);
      ProposeAllGrowsForest(scope, ProposeOne(scope, fold, proposals[0]).value, proposals[1..], order + first);
    }
  }

  lemma BatchGrowsForest(ledger: Ledger, world: World, e: Event, order: seq<ArtifactId>)
    requires e.payload.ProposalBatch? && Forest(ledger.artifacts, order) && ReduceBatch(ledger, world, e).Some?
    ensures Forest(ReduceBatch(ledger, world, e).value.artifacts, order + CreatedBy(e.payload.proposals))
  {
    ProposeAllGrowsForest(ScopeOf(world, e), Fold(ledger.artifacts, ledger.revisions, map[], []), e.payload.proposals,
      order);
  }

  lemma ReduceGrowsForest(st: State, e: Event, order: seq<ArtifactId>)
    requires Forest(st.ledger.artifacts, order) && Reduce(st, e).Some?
    ensures Forest(Reduce(st, e).value.ledger.artifacts,
      order + (if e.payload.ProposalBatch? then CreatedBy(e.payload.proposals) else []))
  {
    if e.payload.ProposalBatch? {
      BatchGrowsForest(st.ledger, st.world, e, order);
    } else {
      assert order + [] == order;
    }
  }

  /** In every replayed state the parent relation is a forest over existing artifacts, ordered by creation. */
  lemma {:induction false} ParentsFormForest(stream: seq<Event>)
    requires Replay(stream).Some?
    ensures Forest(Replay(stream).value.ledger.artifacts, CreationOrder(stream))
    decreases |stream|
  {
    if stream != [] {
      var n := |stream| - 1;
      ParentsFormForest(stream[..n]);
      ReduceGrowsForest(Replay(stream[..n]).value, stream[n], CreationOrder(stream[..n]));
    }
  }

  /** A path from child to parent, parent to grandparent, and so on. */
  ghost predicate AncestorPath(artifacts: map<ArtifactId, Artifact>, path: seq<ArtifactId>) {
    && (forall i :: 0 <= i < |path| ==> path[i] in artifacts)
    && (forall i :: 0 <= i < |path| - 1 ==> artifacts[path[i]].parent == Some(path[i + 1]))
  }

  lemma {:induction false} AncestorsAreOlder(
    artifacts: map<ArtifactId, Artifact>, order: seq<ArtifactId>, path: seq<ArtifactId>, k: nat)
    requires Forest(artifacts, order) && AncestorPath(artifacts, path) && |path| >= 2
    requires k < |order| && order[k] == path[0]
    ensures path[|path| - 1] in order[..k]
    decreases |path|
  {
    var parent := path[1];
    assert artifacts[path[0]].parent == Some(parent);
    assert parent in order[..k];
    var j :| 0 <= j < k && order[..k][j] == parent;
    if |path| > 2 {
      AncestorsAreOlder(artifacts, order, path[1..], j);
      assert path[1..][|path| - 2] == path[|path| - 1];
      var m :| 0 <= m < j && order[..j][m] == path[|path| - 1];
      assert order[..k][m] == path[|path| - 1];
    }
  }

  /** No artifact is its own ancestor, in any replayed state. */
  lemma NoParentCycle(stream: seq<Event>, path: seq<ArtifactId>)
    requires Replay(stream).Some? && |path| >= 2
    requires AncestorPath(Replay(stream).value.ledger.artifacts, path)
    ensures path[0] != path[|path| - 1]
  {
    ParentsFormForest(stream);
    NoCycle(Replay(stream).value.ledger.artifacts, CreationOrder(stream), path);
  }

  lemma NoCycle(artifacts: map<ArtifactId, Artifact>, order: seq<ArtifactId>, path: seq<ArtifactId>)
    requires Forest(artifacts, order) && AncestorPath(artifacts, path) && |path| >= 2
    ensures path[0] != path[|path| - 1]
  {
    assert path[0] in order;
    var k :| 0 <= k < |order| && order[k] == path[0];
    AncestorsAreOlder(artifacts, order, path, k);
    var m :| 0 <= m < k && order[..k][m] == path[|path| - 1];
    assert order[m] != order[k];
  }
}
