/** The typed snapshot recomputes heads and accepted revisions from an unordered listing of revisions.
    These queries agree with what the reducers store, whatever the listing order. */
module ArtifactSnapshot {
  import opened Domain
  import opened ArtifactLedger
  import opened ArtifactInvariants
  import opened Course
  import ArtifactRuns

  datatype Entry = Entry(id: RevisionId, revision: Revision)

  /** `listing` holds every stored revision exactly once, in any order. */
  ghost predicate Lists(listing: seq<Entry>, revisions: map<RevisionId, Revision>) {
    && (forall i, j :: 0 <= i < j < |listing| ==> listing[i].id != listing[j].id)
    && (forall i :: 0 <= i < |listing| ==>
      listing[i].id in revisions && revisions[listing[i].id] == listing[i].revision)
    && (forall r :: r in revisions ==> exists i :: 0 <= i < |listing| && listing[i].id == r)
  }

  function Select(listing: seq<Entry>, keep: Entry -> bool): seq<Entry> {
    if listing == [] then []
    else (if keep(listing[0]) then [listing[0]] else []) + Select(listing[1..], keep)
  }

  function History(listing: seq<Entry>, a: ArtifactId): seq<Entry> {
    Select(listing, (x: Entry) => x.revision.artifact == a)
  }

  function Priors(history: seq<Entry>): set<RevisionId> {
    set i | 0 <= i < |history| && history[i].revision.prior.Some? :: history[i].revision.prior.value
  }

  /** The entry no other entry of the history names as its prior; `None` when there is not exactly one. */
  function CurrentHead(listing: seq<Entry>, a: ArtifactId): Option<Entry> {
    var history := History(listing, a);
    var heads := Select(history, (x: Entry) => x.id !in Priors(history));
    if |heads| == 1 then Some(heads[0]) else None
  }

  /** The service's accepted predecessor; `None` when more than one revision is accepted. */
  function AcceptedEntry(listing: seq<Entry>, a: ArtifactId): Option<Option<RevisionId>> {
    var accepted := Select(History(listing, a), (x: Entry) => x.revision.status == Accepted);
    if |accepted| > 1 then None else Some(if accepted == [] then None else Some(accepted[0].id))
  }

  lemma {:induction false} SelectMembers(listing: seq<Entry>, keep: Entry -> bool, x: Entry)
    ensures x in Select(listing, keep) <==> x in listing && keep(x)
  {
    if listing != [] {
      SelectMembers(listing[1..], keep, x);
      assert listing == [listing[0]] + listing[1..];
    }
  }

  ghost predicate IdsDistinct(listing: seq<Entry>) {
    forall i, j :: 0 <= i < j < |listing| ==> listing[i].id != listing[j].id
  }

  lemma {:induction false} SelectDistinct(listing: seq<Entry>, keep: Entry -> bool)
    requires IdsDistinct(listing)
    ensures IdsDistinct(Select(listing, keep))
  {
    if listing != [] {
      var rest := Select(listing[1..], keep);
      SelectDistinct(listing[1..], keep);
      forall j | 0 <= j < |rest| ensures rest[j].id != listing[0].id {
        SelectMembers(listing[1..], keep, rest[j]);
        var k :| 0 <= k < |listing[1..]| && listing[1..][k] == rest[j];
        assert listing[k + 1] == rest[j];
      }
    }
  }

  /** A duplicate-free listing all of whose entries carry one id, and that has that entry, is a singleton. */
  lemma Singleton(listing: seq<Entry>, x: Entry)
    requires IdsDistinct(listing) && x in listing
    requires forall i :: 0 <= i < |listing| ==> listing[i].id == x.id
    ensures listing == [x]
  {
    assert listing[0].id == x.id && listing[|listing| - 1].id == x.id;
  }

  lemma HistoryExact(listing: seq<Entry>, revisions: map<RevisionId, Revision>, a: ArtifactId)
    requires Lists(listing, revisions)
    ensures IdsDistinct(History(listing, a))
    ensures forall x :: x in History(listing, a) <==>
      x.id in revisions && revisions[x.id] == x.revision && x.revision.artifact == a
  {
    SelectDistinct(listing, (x: Entry) => x.revision.artifact == a);
    forall x ensures x in History(listing, a) <==>
      x.id in revisions && revisions[x.id] == x.revision && x.revision.artifact == a {
      SelectMembers(listing, (x: Entry) => x.revision.artifact == a, x);
      if x.id in revisions && revisions[x.id] == x.revision {
        var i :| 0 <= i < |listing| && listing[i].id == x.id;
        assert listing[i] == x;
      }
    }
  }

  /** Within a chain, a revision is named as a prior exactly when it is not the head. */
  lemma PriorsAreNonHeads(
    artifacts: map<ArtifactId, Artifact>, revisions: map<RevisionId, Revision>, a: ArtifactId, history: seq<Entry>,
    r: RevisionId)
    requires Lineages(artifacts, revisions) && a in artifacts
    requires forall x :: x in history <==>
      x.id in revisions && revisions[x.id] == x.revision && x.revision.artifact == a
    requires r in revisions && revisions[r].artifact == a
    ensures r in Priors(history) <==> r != artifacts[a].head
  {
    var art := artifacts[a];
    assert ChainOk(a, art, revisions);
    var n := |art.history|;
    var k :| 0 <= k < n && art.history[k] == r;
    if r != art.head {
      var next := art.history[k + 1];
      assert Linked(a, art, revisions, k + 1);
      assert Entry(next, revisions[next]) in history;
    }
    if r in Priors(history) {
      var i :| 0 <= i < |history| && history[i].revision.prior == Some(r);
      assert history[i] in history;
      var m :| 0 <= m < n && art.history[m] == history[i].id;
      assert Linked(a, art, revisions, m);
      assert art.history[m - 1] == r && m - 1 == k;
    }
  }

  lemma HeadExact(listing: seq<Entry>, ledger: Ledger, a: ArtifactId)
    requires Lineages(ledger.artifacts, ledger.revisions) && Lists(listing, ledger.revisions) && a in ledger.artifacts
    ensures var head := ledger.artifacts[a].head;
      head in ledger.revisions && CurrentHead(listing, a) == Some(Entry(head, ledger.revisions[head]))
  {
    var history, head := History(listing, a), ledger.artifacts[a].head;
    HistoryExact(listing, ledger.revisions, a);
    assert ChainOk(a, ledger.artifacts[a], ledger.revisions);
    assert Linked(a, ledger.artifacts[a], ledger.revisions, |ledger.artifacts[a].history| - 1);
    var keep := (x: Entry) => x.id !in Priors(history);
    var heads, top := Select(history, keep), Entry(head, ledger.revisions[head]);
    SelectDistinct(history, keep);
    SelectMembers(history, keep, top);
    PriorsAreNonHeads(ledger.artifacts, ledger.revisions, a, history, head);
    forall i | 0 <= i < |heads| ensures heads[i].id == head {
      SelectMembers(history, keep, heads[i]);
      assert heads[i] in heads;
      PriorsAreNonHeads(ledger.artifacts, ledger.revisions, a, history, heads[i].id);
    }
    Singleton(heads, top);
  }

  lemma AcceptedEntryExact(listing: seq<Entry>, ledger: Ledger, a: ArtifactId)
    requires Lineages(ledger.artifacts, ledger.revisions) && OneAccepted(ledger.revisions)
    requires Lists(listing, ledger.revisions) && a in ledger.artifacts
    ensures AcceptedEntry(listing, a) == CurrentAccepted(ledger, a)
  {
    var history := History(listing, a);
    var keep := (x: Entry) => x.revision.status == Accepted;
    var accepted := Select(history, keep);
    HistoryExact(listing, ledger.revisions, a);
    SelectDistinct(history, keep);
    CurrentAcceptedExact(ledger, a);
    forall i | 0 <= i < |accepted| ensures CurrentAccepted(ledger, a).value == Some(accepted[i].id) {
      SelectMembers(history, keep, accepted[i]);
      assert accepted[i] in accepted;
    }
    assert accepted != [] ==> CurrentAccepted(ledger, a).value == Some(accepted[0].id);
    if CurrentAccepted(ledger, a).value.Some? {
      var r := CurrentAccepted(ledger, a).value.value;
      SelectMembers(history, keep, Entry(r, ledger.revisions[r]));
      Singleton(accepted, Entry(r, ledger.revisions[r]));
    }
  }

  /** In every replayed state, for every listing order: the head found by set difference is the stored head,
      and the service and the reducer compute the same accepted predecessor. */
  lemma SnapshotAgrees(stream: seq<Event>, listing: seq<Entry>, a: ArtifactId)
    requires Replay(stream).Some? && Lists(listing, Replay(stream).value.ledger.revisions)
    requires a in Replay(stream).value.ledger.artifacts
    ensures var ledger := Replay(stream).value.ledger;
      && ledger.artifacts[a].head in ledger.revisions
      && CurrentHead(listing, a) == Some(Entry(ledger.artifacts[a].head, ledger.revisions[ledger.artifacts[a].head]))
      && AcceptedEntry(listing, a) == CurrentAccepted(ledger, a)
      && AcceptedEntry(listing, a).Some?
  {
    ArtifactRuns.ReplayKeepsLedger(stream);
    SnapshotAgreesWith(Replay(stream).value.ledger, listing, a);
  }

  lemma SnapshotAgreesWith(ledger: Ledger, listing: seq<Entry>, a: ArtifactId)
    requires Lineages(ledger.artifacts, ledger.revisions) && OneAccepted(ledger.revisions)
    requires Lists(listing, ledger.revisions) && a in ledger.artifacts
    ensures ledger.artifacts[a].head in ledger.revisions
    ensures CurrentHead(listing, a) == Some(Entry(ledger.artifacts[a].head, ledger.revisions[ledger.artifacts[a].head]))
    ensures AcceptedEntry(listing, a) == CurrentAccepted(ledger, a) && AcceptedEntry(listing, a).Some?
  {
    HeadExact(listing, ledger, a);
    AcceptedEntryExact(listing, ledger, a);
    CurrentAcceptedExact(ledger, a);
  }
}
