/** Exactly when the service prepares a batch, and what it prepares, read from the ledger instead of the listing. */
module ArtifactPlacement {
  import opened Domain
  import opened ArtifactLedger
  import opened ArtifactInvariants
  import opened ArtifactSnapshot
  import opened ArtifactPrepare

  /** The artifact of item `i`: its target, or the new artifact under its position. */
  function GoesTo(batch: BatchId, items: seq<Proposal>, i: int): ArtifactId
    requires 0 <= i < |items|
  {
    match items[i].target case Some(a) => a case None => ArtifactId(batch, i)
  }

  /** What the service asks of item `i`: an artifact of its own, output that is its content, and either a new artifact
      under an earlier parent, or an existing one of the same kind whose head the provenance names and whose parent is
      the one the content names.  A position not before `i` names no artifact. */
  ghost predicate Placeable(ledger: Ledger, batch: BatchId, items: seq<Proposal>, i: int)
    requires 0 <= i < |items|
  {
    var item := items[i];
    && item.ordinal == i
    && (forall j :: 0 <= j < i ==> GoesTo(batch, items, j) != GoesTo(batch, items, i))
    && (item.provenance.Generated? ==> item.provenance.output == item.content)
    && (match item.target
        case None =>
          && item.provenance.prior == None
          && (ParentOrdinal(item.content).Some? ==> ParentOrdinal(item.content).value < i)
        case Some(a) =>
          && a in ledger.artifacts
          && ledger.artifacts[a].kind == KindOf(item.content)
          && item.provenance.prior == Some(ledger.artifacts[a].head)
          && (ParentOrdinal(item.content).Some? ==>
                ledger.artifacts[a].parent == NamedParent(batch, items, ParentOrdinal(item.content).value, i)))
  }

  /** The artifact that position `k` names for item `i`. */
  function NamedParent(batch: BatchId, items: seq<Proposal>, k: nat, i: int): Option<ArtifactId>
    requires 0 <= i < |items|
  {
    if k < i then Some(GoesTo(batch, items, k)) else None
  }

  /** What is recorded for item `i`. */
  ghost predicate PlacedAs(ledger: Ledger, batch: BatchId, items: seq<Proposal>, i: int, p: Recorded)
    requires 0 <= i < |items|
  {
    var item := items[i];
    && p.ordinal == i && p.artifact == GoesTo(batch, items, i)
    && p.content == item.content && p.provenance == item.provenance && p.kind == KindOf(item.content)
    && p.revision == RevisionId(p.artifact, p.kind, p.content, p.provenance, p.prior)
    && (match item.target
        case None =>
          && p.prior == None
          && p.parent == (match ParentOrdinal(item.content)
                          case None => None
                          case Some(k) => NamedParent(batch, items, k, i))
        case Some(a) =>
          a in ledger.artifacts && p.prior == Some(ledger.artifacts[a].head) && p.parent == ledger.artifacts[a].parent)
  }

  ghost predicate AllPlaceable(ledger: Ledger, batch: BatchId, items: seq<Proposal>) {
    1 <= |items| <= 24 && forall i :: 0 <= i < |items| ==> Placeable(ledger, batch, items, i)
  }

  ghost predicate AllPlaced(ledger: Ledger, batch: BatchId, items: seq<Proposal>, proposals: seq<Recorded>) {
    |proposals| == |items| && forall i :: 0 <= i < |items| ==> PlacedAs(ledger, batch, items, i, proposals[i])
  }

  // ------------------------------------------------------------------ one item

  lemma KnownHasHistory(ledger: Ledger, listing: seq<Entry>, a: ArtifactId)
    requires Chained(ledger) && Lists(listing, ledger.revisions)
    ensures History(listing, a) != [] <==> a in ledger.artifacts
  {
    if a in ledger.artifacts {
      HeadRevision(ledger, a);
      HistoryExact(listing, ledger.revisions, a);
      var head := ledger.artifacts[a].head;
      assert Entry(head, ledger.revisions[head]) in History(listing, a);
    } else if History(listing, a) != [] {
      TargetIsKnown(ledger, listing, a);
    }
  }

  /** A target is placed exactly when it is an artifact of the item's kind under the parent the item names. */
  lemma TargetPlacesExactly(
    ledger: Ledger, listing: seq<Entry>, resolved: map<int, ArtifactId>, item: Proposal, a: ArtifactId)
    requires Chained(ledger) && Lists(listing, ledger.revisions)
    ensures PlacementAtTarget(listing, resolved, item, a) ==
      if a in ledger.artifacts && ledger.artifacts[a].kind == KindOf(item.content)
        && (ParentOrdinal(item.content).Some? ==>
          Lookup(resolved, ParentOrdinal(item.content).value) == ledger.artifacts[a].parent)
      then Some(Placement(a, Some(ledger.artifacts[a].head), ledger.artifacts[a].parent)) else None
  {
    KnownHasHistory(ledger, listing, a);
    if a in ledger.artifacts {
      HeadRevision(ledger, a);
      SnapshotAgreesWith(ledger, listing, a);
    }
  }

  /** The loop has come to item `n`. */
  ghost predicate ReachedItem(
    batch: BatchId, items: seq<Proposal>, n: int, seen: set<ArtifactId>, resolved: map<int, ArtifactId>) {
    && 0 <= n <= |items|
    && (forall a :: a in seen <==> exists j :: 0 <= j < n && GoesTo(batch, items, j) == a)
    && ResolvedBelow(resolved, n)
    && (forall k :: 0 <= k < n ==> resolved[k] == GoesTo(batch, items, k))
  }

  lemma TargetedItem(
    ledger: Ledger, listing: seq<Entry>, batch: BatchId, seen: set<ArtifactId>, resolved: map<int, ArtifactId>,
    items: seq<Proposal>, n: int)
    requires Chained(ledger) && Lists(listing, ledger.revisions) && Numbered(items, 0) && n < |items|
    requires ReachedItem(batch, items, n, seen, resolved) && items[n].target.Some?
    ensures var p := PrepareOne(batch, listing, seen, resolved, items[n]);
      && (p.Some? <==> Placeable(ledger, batch, items, n))
      && (p.Some? ==> PlacedAs(ledger, batch, items, n, p.value))
  {
    TargetPlacesExactly(ledger, listing, resolved, items[n], items[n].target.value);
  }

  lemma NewItem(
    ledger: Ledger, listing: seq<Entry>, batch: BatchId, seen: set<ArtifactId>, resolved: map<int, ArtifactId>,
    items: seq<Proposal>, n: int)
    requires Numbered(items, 0) && n < |items|
    requires ReachedItem(batch, items, n, seen, resolved) && items[n].target.None?
    ensures var p := PrepareOne(batch, listing, seen, resolved, items[n]);
      && (p.Some? <==> Placeable(ledger, batch, items, n))
      && (p.Some? ==> PlacedAs(ledger, batch, items, n, p.value))
  {
  }

  lemma ItemPlacesExactly(
    ledger: Ledger, listing: seq<Entry>, batch: BatchId, seen: set<ArtifactId>, resolved: map<int, ArtifactId>,
    items: seq<Proposal>, n: int)
    requires Chained(ledger) && Lists(listing, ledger.revisions) && Numbered(items, 0) && n < |items|
    requires ReachedItem(batch, items, n, seen, resolved)
    ensures var p := PrepareOne(batch, listing, seen, resolved, items[n]);
      && (p.Some? <==> Placeable(ledger, batch, items, n))
      && (p.Some? ==> PlacedAs(ledger, batch, items, n, p.value))
  {
    if items[n].target.Some? {
      TargetedItem(ledger, listing, batch, seen, resolved, items, n);
    } else {
      NewItem(ledger, listing, batch, seen, resolved, items, n);
    }
  }

  // ----------------------------------------------------------------- all items

  lemma ReachedNext(
    batch: BatchId, items: seq<Proposal>, n: int, seen: set<ArtifactId>, resolved: map<int, ArtifactId>, p: Recorded)
    requires ReachedItem(batch, items, n, seen, resolved) && n < |items|
    requires p.ordinal == n && p.artifact == GoesTo(batch, items, n)
    ensures ReachedItem(batch, items, n + 1, seen + {p.artifact}, resolved[p.ordinal := p.artifact])
  {
    forall a ensures a in seen + {p.artifact} <==> exists j :: 0 <= j < n + 1 && GoesTo(batch, items, j) == a {
      if a == p.artifact {
        assert GoesTo(batch, items, n) == a;
      }
    }
  }

  lemma {:induction false} RestPreparesExactly(
    ledger: Ledger, listing: seq<Entry>, batch: BatchId, seen: set<ArtifactId>, resolved: map<int, ArtifactId>,
    items: seq<Proposal>, n: int)
    requires Chained(ledger) && Lists(listing, ledger.revisions) && Numbered(items, 0)
    requires ReachedItem(batch, items, n, seen, resolved)
    ensures var all := PrepareAll(batch, listing, seen, resolved, items[n..]);
      && (all.Some? <==> forall i :: n <= i < |items| ==> Placeable(ledger, batch, items, i))
      && (all.Some? ==>
            |all.value| == |items| - n && PlacedFrom(ledger, batch, items, n, all.value))
    decreases |items| - n
  {
    if n < |items| {
      var rest := items[n..];
      assert rest[0] == items[n] && rest[1..] == items[n + 1..];
      ItemPlacesExactly(ledger, listing, batch, seen, resolved, items, n);
      var p := PrepareOne(batch, listing, seen, resolved, items[n]);
      if p.Some? {
        var later := resolved[p.value.ordinal := p.value.artifact];
        ReachedNext(batch, items, n, seen, resolved, p.value);
        RestPreparesExactly(ledger, listing, batch, seen + {p.value.artifact}, later, items, n + 1);
        var others := PrepareAll(batch, listing, seen + {p.value.artifact}, later, items[n + 1..]);
        if others.Some? {
          PlacedFirst(ledger, batch, items, n, p.value, others.value);
        }
      }
    }
  }

  ghost predicate PlacedFrom(ledger: Ledger, batch: BatchId, items: seq<Proposal>, n: int, proposals: seq<Recorded>)
    requires 0 <= n && n + |proposals| <= |items|
  {
    forall k :: 0 <= k < |proposals| ==> PlacedAs(ledger, batch, items, n + k, proposals[k])
  }

  lemma PlacedFirst(
    ledger: Ledger, batch: BatchId, items: seq<Proposal>, n: int, p: Recorded, rest: seq<Recorded>)
    requires 0 <= n < |items| && PlacedAs(ledger, batch, items, n, p)
    requires |rest| == |items| - n - 1 && PlacedFrom(ledger, batch, items, n + 1, rest)
    ensures PlacedFrom(ledger, batch, items, n, [p] + rest)
  {
    var all := [p] + rest;
    forall k | 0 <= k < |all| ensures PlacedAs(ledger, batch, items, n + k, all[k]) {
      if k > 0 {
        assert all[k] == rest[k - 1] && n + k == n + 1 + (k - 1);
      }
    }
  }

  /** The service prepares a batch exactly when it has 1 to 24 items, each of them placeable; and then it records each
      item with its content and provenance at its artifact, after that artifact's head and under its parent. */
  lemma PreparesExactly(ledger: Ledger, listing: seq<Entry>, batch: BatchId, items: seq<Proposal>)
    requires Chained(ledger) && Lists(listing, ledger.revisions)
    ensures Prepare(batch, items, listing).Some? <==> AllPlaceable(ledger, batch, items)
    ensures Prepare(batch, items, listing).Some? ==>
      AllPlaced(ledger, batch, items, Prepare(batch, items, listing).value)
  {
    if Numbered(items, 0) {
      assert items[0..] == items;
      RestPreparesExactly(ledger, listing, batch, {}, map[], items, 0);
    } else {
      var i :| 0 <= i < |items| && items[i].ordinal != i;
      assert !Placeable(ledger, batch, items, i);
    }
  }
}
