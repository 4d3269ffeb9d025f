/** What every artifact event keeps: linear lineages of constant kind and parent, decisions that agree with
    statuses, at most one accepted revision, and an index of commands behind every batch. */
module ArtifactInvariants {
  import opened Domain
  import opened ArtifactLedger
  import opened Collections

  // --------------------------------------------------------------- lineages

  /** Entry `i` of an artifact's history is its own revision and names the entry before it. */
  ghost predicate Linked(a: ArtifactId, art: Artifact, revisions: map<RevisionId, Revision>, i: int)
    requires 0 <= i < |art.history|
  {
    var r := art.history[i];
    && r in revisions
    && revisions[r].artifact == a
    && revisions[r].kind == art.kind
    && revisions[r].parent == art.parent
    && revisions[r].prior == (if i == 0 then None else Some(art.history[i - 1]))
  }

  /** The history of `a` is a duplicate-free chain of its own revisions, ending at the stored head. */
  ghost predicate ChainOk(a: ArtifactId, art: Artifact, revisions: map<RevisionId, Revision>) {
    && 0 < |art.history|
    && art.head == art.history[|art.history| - 1]
    && Distinct(art.history)
    && forall i :: 0 <= i < |art.history| ==> Linked(a, art, revisions, i)
  }

  ghost predicate Lineages(artifacts: map<ArtifactId, Artifact>, revisions: map<RevisionId, Revision>) {
    && (forall a :: a in artifacts ==> ChainOk(a, artifacts[a], revisions))
    && (forall r :: r in revisions ==>
          && revisions[r].artifact in artifacts
          && r in artifacts[revisions[r].artifact].history)
  }

  /** A stored revision's identity is derived from its immutable fields. */
  ghost predicate Identified(revisions: map<RevisionId, Revision>) {
    forall r :: r in revisions ==>
      && r == RevisionId(revisions[r].artifact, revisions[r].kind, revisions[r].content, revisions[r].provenance,
        revisions[r].prior)
      && ContentDecodes(revisions[r].content)
      && KindOf(revisions[r].content) == revisions[r].kind
  }

  ghost predicate BothAccepted(x: Revision, y: Revision) {
    x.status == Accepted && y.status == Accepted && x.artifact == y.artifact
  }

  ghost predicate OneAccepted(revisions: map<RevisionId, Revision>) {
    forall r, s :: r in revisions && s in revisions && BothAccepted(revisions[r], revisions[s]) ==> r == s
  }

  /** `later` holds every revision of `earlier` with the same immutable fields. */
  ghost predicate Extends(earlier: map<RevisionId, Revision>, later: map<RevisionId, Revision>) {
    forall r :: r in earlier ==> r in later && later[r].(status := earlier[r].status) == earlier[r]
  }

  function RecordOf(batch: BatchId, p: Recorded): Revision {
    Revision(p.artifact, batch, p.ordinal, p.kind, Proposed, p.content, p.provenance, p.prior, p.parent)
  }

  /** One accepted proposal adds exactly its own revision, at the end of its artifact's chain. */
  lemma ProposeOneEffect(scope: Scope, fold: Fold, p: Recorded)
    requires ProposeOne(scope, fold, p).Some?
    ensures var next := ProposeOne(scope, fold, p).value;
      && p.revision !in fold.revisions
      && next.revisions == fold.revisions[p.revision := RecordOf(scope.batch, p)]
      && next.artifacts.Keys == fold.artifacts.Keys + {p.artifact}
      && (p.prior.None? <==> p.artifact !in fold.artifacts)
      && next.ids == fold.ids + [p.revision]
      && next.resolved == fold.resolved[p.ordinal := p.artifact]
      && (forall a :: a in fold.artifacts ==>
        next.artifacts[a].parent == fold.artifacts[a].parent && next.artifacts[a].kind == fold.artifacts[a].kind)
  {
  }

  lemma ChainFrame(a: ArtifactId, art: Artifact, revisions: map<RevisionId, Revision>, later: map<RevisionId, Revision>)
    requires ChainOk(a, art, revisions) && Extends(revisions, later)
    ensures ChainOk(a, art, later)
  {
    forall i | 0 <= i < |art.history| ensures Linked(a, art, later, i) {
      assert Linked(a, art, revisions, i);
    }
  }

  lemma ChainExtends(
    a: ArtifactId, was: Artifact, art: Artifact, revisions: map<RevisionId, Revision>, id: RevisionId, rev: Revision)
    requires ChainOk(a, was, revisions) && id !in revisions
    requires art == Artifact(was.kind, was.parent, was.history + [id], id)
    requires rev.artifact == a && rev.kind == art.kind && rev.parent == art.parent && rev.prior == Some(was.head)
    ensures ChainOk(a, art, revisions[id := rev])
  {
    var n := |was.history|;
    forall i | 0 <= i < n ensures Linked(a, art, revisions[id := rev], i) && was.history[i] != id {
      assert Linked(a, was, revisions, i);
      assert art.history[i] == was.history[i] && (i > 0 ==> art.history[i - 1] == was.history[i - 1]);
    }
    assert Linked(a, art, revisions[id := rev], n);
    DistinctSnoc(was.history, id);
  }

  /** Appending one revision to a chain, or starting a chain with it, keeps every lineage. */
  lemma ChainGrows(
    artifacts: map<ArtifactId, Artifact>, revisions: map<RevisionId, Revision>, art: Artifact, id: RevisionId,
    rev: Revision)
    requires Lineages(artifacts, revisions) && id !in revisions
    requires rev.kind == art.kind && rev.parent == art.parent && art.head == id
    requires rev.artifact !in artifacts ==> art.history == [id] && rev.prior == None
    requires rev.artifact in artifacts ==>
      var was := artifacts[rev.artifact];
      art.kind == was.kind && art.parent == was.parent && art.history == was.history + [id] &&
        rev.prior == Some(was.head)
    ensures Lineages(artifacts[rev.artifact := art], revisions[id := rev])
  {
    var a, next := rev.artifact, revisions[id := rev];
    if a in artifacts {
      ChainExtends(a, artifacts[a], art, revisions, id, rev);
    } else {
      assert Linked(a, art, next, 0);
    }
    forall b | b in artifacts && b != a ensures ChainOk(b, artifacts[b], next) {
      ChainFrame(b, artifacts[b], revisions, next);
    }
    assert art.history[|art.history| - 1] == id;
    forall r | r in revisions && revisions[r].artifact == a ensures r in art.history {
      assert r in artifacts[a].history;
    }
  }

  lemma ProposeOneKeepsLineages(scope: Scope, fold: Fold, p: Recorded)
    requires Lineages(fold.artifacts, fold.revisions)
    requires ProposeOne(scope, fold, p).Some?
    ensures var next := ProposeOne(scope, fold, p).value; Lineages(next.artifacts, next.revisions)
  {
    var next := ProposeOne(scope, fold, p).value;
    ProposeOneEffect(scope, fold, p);
    ChainGrows(fold.artifacts, fold.revisions, next.artifacts[p.artifact], p.revision, RecordOf(scope.batch, p));
    assert next.artifacts == fold.artifacts[p.artifact := next.artifacts[p.artifact]];
  }

  /** Proposed revisions by identity, as a batch leaves them. */
  function Added(
    batch: BatchId, revisions: map<RevisionId, Revision>, proposals: seq<Recorded>): map<RevisionId, Revision>
    decreases |proposals|
  {
    if proposals == [] then revisions
    else Added(batch, revisions[proposals[0].revision := RecordOf(batch, proposals[0])], proposals[1..])
  }

  function RevisionIds(proposals: seq<Recorded>): seq<RevisionId> {
    seq(|proposals|, i requires 0 <= i < |proposals| => proposals[i].revision)
  }

  ghost predicate FreshIds(revisions: map<RevisionId, Revision>, proposals: seq<Recorded>) {
    && (forall i :: 0 <= i < |proposals| ==> proposals[i].revision !in revisions)
    && (forall i, j :: 0 <= i < j < |proposals| ==> proposals[i].revision != proposals[j].revision)
  }

  /** Everything the proposal loop keeps, for any number of proposals. */
  lemma {:induction false} ProposeAllKeeps(scope: Scope, fold: Fold, proposals: seq<Recorded>)
    requires Lineages(fold.artifacts, fold.revisions)
    requires ProposeAll(scope, fold, proposals).Some?
    ensures var next := ProposeAll(scope, fold, proposals).value; Lineages(next.artifacts, next.revisions)
    decreases |proposals|
  {
    if proposals != [] {
      ProposeOneKeepsLineages(scope, fold, proposals[0]);
      ProposeAllKeeps(scope, ProposeOne(scope, fold, proposals[0]).value, proposals[1..]);
    }
  }

  /** The loop adds exactly the proposed revisions, each new, each as recorded, in proposal order. */
  lemma {:induction false} ProposeAllEffect(scope: Scope, fold: Fold, proposals: seq<Recorded>)
    requires ProposeAll(scope, fold, proposals).Some?
    ensures var next := ProposeAll(scope, fold, proposals).value;
      && next.ids == fold.ids + RevisionIds(proposals)
      && next.revisions == Added(scope.batch, fold.revisions, proposals)
      && FreshIds(fold.revisions, proposals)
    decreases |proposals|
  {
    if proposals != [] {
      var first, rest := proposals[0], proposals[1..];
      ProposeOneEffect(scope, fold, first);
      ProposeAllEffect(scope, ProposeOne(scope, fold, first).value, rest);
      assert RevisionIds(proposals) == [first.revision] + RevisionIds(rest);
      assert forall i :: 0 < i < |proposals| ==> proposals[i] == rest[i - 1];
    }
  }

  /** Artifacts are only added, by the proposals, and keep their kind and parent. */
  lemma {:induction false} ProposeAllArtifacts(scope: Scope, fold: Fold, proposals: seq<Recorded>)
    requires ProposeAll(scope, fold, proposals).Some?
    ensures var next := ProposeAll(scope, fold, proposals).value;
      && (forall a :: a in fold.artifacts ==>
        a in next.artifacts && next.artifacts[a].parent == fold.artifacts[a].parent)
      && (forall a :: a in next.artifacts ==>
        || a in fold.artifacts
        || exists i :: 0 <= i < |proposals| && proposals[i].artifact == a && proposals[i].prior.None?)
    decreases |proposals|
  {
    if proposals != [] {
      var first, rest := proposals[0], proposals[1..];
      ProposeOneEffect(scope, fold, first);
      ProposeAllArtifacts(scope, ProposeOne(scope, fold, first).value, rest);
      assert forall i :: 0 <= i < |rest| ==> proposals[i + 1] == rest[i];
      assert proposals[0] == first;
    }
  }

  /** `Added` read back: old entries unchanged, one entry per proposal, nothing else. */
  lemma {:induction false} AddedEntries(batch: BatchId, revisions: map<RevisionId, Revision>, proposals: seq<Recorded>)
    requires FreshIds(revisions, proposals)
    ensures var next := Added(batch, revisions, proposals);
      && (forall r :: r in revisions ==> r in next && next[r] == revisions[r])
      && (forall i :: 0 <= i < |proposals| ==>
        proposals[i].revision in next && next[proposals[i].revision] == RecordOf(batch, proposals[i]))
      && (forall r :: r in next && r !in revisions ==> exists i :: 0 <= i < |proposals| && proposals[i].revision == r)
      && |next| == |revisions| + |proposals|
    decreases |proposals|
  {
    if proposals != [] {
      var first, rest := proposals[0], proposals[1..];
      var mid := revisions[first.revision := RecordOf(batch, first)];
      assert forall i :: 0 <= i < |rest| ==> proposals[i + 1] == rest[i];
      AddedEntries(batch, mid, rest);
      assert |mid| == |revisions| + 1 by {
        assert mid.Keys == revisions.Keys + {first.revision};
      }
      var next := Added(batch, revisions, proposals);
      forall r | r in next && r !in revisions ensures exists i :: 0 <= i < |proposals| && proposals[i].revision == r {
        if r in mid {
          assert proposals[0].revision == r;
        } else {
          var k :| 0 <= k < |rest| && rest[k].revision == r;
          assert proposals[k + 1].revision == r;
        }
      }
      forall i | 0 <= i < |proposals| ensures proposals[i].revision in next &&
        next[proposals[i].revision] == RecordOf(batch, proposals[i]) {
        if i > 0 { assert rest[i - 1] == proposals[i]; }
      }
    }
  }

  // -------------------------------------------------------------- decisions

  ghost predicate DecisionOk(d: DecisionRecord, revisions: map<RevisionId, Revision>) {
    && d.revision in revisions
    && (match d.verdict
        case Reject => d.supersedes.None? && revisions[d.revision].status == Rejected
        case Accept =>
          && revisions[d.revision].status in {Accepted, Superseded}
          && (d.supersedes.Some? ==>
                && d.supersedes.value != d.revision
                && d.supersedes.value in revisions
                && revisions[d.supersedes.value].status == Superseded
                && revisions[d.supersedes.value].artifact == revisions[d.revision].artifact))
  }

  ghost predicate HasDecision(decisions: seq<DecisionRecord>, r: RevisionId) {
    exists i :: 0 <= i < |decisions| && decisions[i].revision == r
  }

  function Targets(decisions: seq<DecisionRecord>): seq<RevisionId> {
    seq(|decisions|, i requires 0 <= i < |decisions| => decisions[i].revision)
  }

  ghost predicate HasSuccessor(decisions: seq<DecisionRecord>, r: RevisionId) {
    exists i :: 0 <= i < |decisions| && decisions[i].supersedes == Some(r)
  }

  ghost predicate HasAccepted(revisions: map<RevisionId, Revision>, a: ArtifactId) {
    exists r :: r in revisions && revisions[r].status == Accepted && revisions[r].artifact == a
  }

  /** Decisions and statuses tell the same story: every decided revision has one decision that explains its
      status, and every superseded revision is named by exactly one accept. */
  ghost predicate DecisionsAgree(decisions: seq<DecisionRecord>, revisions: map<RevisionId, Revision>) {
    && (forall i :: 0 <= i < |decisions| ==> DecisionOk(decisions[i], revisions))
    && (forall i, j :: 0 <= i < j < |decisions| ==> decisions[i].revision != decisions[j].revision)
    && (forall i, j :: 0 <= i < j < |decisions| ==>
      decisions[i].supersedes.None? || decisions[i].supersedes != decisions[j].supersedes)
    && (forall r :: r in revisions && revisions[r].status != Proposed ==> HasDecision(decisions, r))
    && (forall r :: r in revisions && revisions[r].status == Superseded ==>
      HasSuccessor(decisions, r) && HasAccepted(revisions, revisions[r].artifact))
  }

  ghost predicate Indexed(ledger: Ledger) {
    && (forall r :: r in ledger.revisions ==> ledger.revisions[r].batch in ledger.batches)
    && (forall b :: b in ledger.batches ==>
      ledger.batches[b].session == b.session && ArtifactEventId(b.session, b.key, ProposalCommand) in ledger.commands)
    && (forall a :: a in ledger.artifacts ==> a.ArtifactId? && a.batch in ledger.batches)
  }

  ghost predicate LedgerOk(ledger: Ledger) {
    && Lineages(ledger.artifacts, ledger.revisions)
    && Identified(ledger.revisions)
    && OneAccepted(ledger.revisions)
    && DecisionsAgree(ledger.decisions, ledger.revisions)
    && Indexed(ledger)
  }

  lemma {:induction false} AcceptedInExact(
    history: seq<RevisionId>, revisions: map<RevisionId, Revision>, r: RevisionId)
    ensures r in AcceptedIn(history, revisions) <==> r in history && r in revisions && revisions[r].status == Accepted
  {
    if history != [] {
      AcceptedInExact(history[1..], revisions, r);
      assert history == [history[0]] + history[1..];
    }
  }

  lemma {:induction false} AcceptedInAtMostOne(
    history: seq<RevisionId>, revisions: map<RevisionId, Revision>, a: ArtifactId)
    requires Distinct(history) && OneAccepted(revisions)
    requires forall i :: 0 <= i < |history| ==> history[i] in revisions && revisions[history[i]].artifact == a
    ensures |AcceptedIn(history, revisions)| <= 1
  {
    if history != [] {
      AcceptedInAtMostOne(history[1..], revisions, a);
      var tail := AcceptedIn(history[1..], revisions);
      if tail != [] {
        AcceptedInExact(history[1..], revisions, tail[0]);
        assert tail[0] in history[1..] && tail[0] != history[0];
        assert BothAccepted(revisions[tail[0]], revisions[history[0]]) ==> false;
      }
    }
  }

  lemma AtMostOneMember(s: seq<RevisionId>)
    requires |s| <= 1
    ensures forall r :: r in s <==> s != [] && s[0] == r
  {
  }

  /** In a well-formed ledger the reducer's accepted-predecessor computation never raises, and is exact. */
  lemma CurrentAcceptedExact(ledger: Ledger, a: ArtifactId)
    requires Lineages(ledger.artifacts, ledger.revisions) && OneAccepted(ledger.revisions) && a in ledger.artifacts
    ensures CurrentAccepted(ledger, a).Some?
    ensures forall r :: CurrentAccepted(ledger, a).value == Some(r) <==>
              r in ledger.revisions && ledger.revisions[r].artifact == a && ledger.revisions[r].status == Accepted
  {
    var history, accepted := ledger.artifacts[a].history, AcceptedIn(ledger.artifacts[a].history, ledger.revisions);
    assert ChainOk(a, ledger.artifacts[a], ledger.revisions);
    forall i | 0 <= i < |history| ensures history[i] in ledger.revisions && ledger.revisions[history[i]].artifact == a {
      assert Linked(a, ledger.artifacts[a], ledger.revisions, i);
    }
    AcceptedInAtMostOne(history, ledger.revisions, a);
    forall r ensures r in accepted <==>
      r in ledger.revisions && ledger.revisions[r].artifact == a && ledger.revisions[r].status == Accepted {
      AcceptedInExact(history, ledger.revisions, r);
    }
    AtMostOneMember(accepted);
  }
}
