/** Whole-run results about the artifact ledger of any stream that replays. */
module ArtifactRuns {
  import opened Domain
  import opened ArtifactLedger
  import opened ArtifactInvariants
  import opened ArtifactLifecycle
  import opened Course
  import opened Collections

  lemma ReduceKeepsLedger(st: State, e: Event)
    requires LedgerOk(st.ledger) && Reduce(st, e).Some?
    ensures LedgerOk(Reduce(st, e).value.ledger) && Monotone(st.ledger, Reduce(st, e).value.ledger)
  {
    if !e.payload.ContextRecorded? {
      ApplyKeeps(st.ledger, st.world, e);
      ApplyIsMonotone(st.ledger, st.world, e);
    }
  }

  /** The ledger of every stream that replays is well-formed. */
  lemma {:induction false} ReplayKeepsLedger(stream: seq<Event>)
    requires Replay(stream).Some?
    ensures LedgerOk(Replay(stream).value.ledger)
    decreases |stream|
  {
    if stream != [] {
      var n := |stream| - 1;
      ReplayKeepsLedger(stream[..n]);
      ReduceKeepsLedger(Replay(stream[..n]).value, stream[n]);
    }
  }

  // ----------------------------------------------------- histories over time

  /** Statuses a revision can reach from another over any number of events. */
  predicate StatusReaches(before: Status, after: Status) {
    || StatusMoves(before, after)
    || (before == Proposed && after == Superseded)
  }

  /** Between any two points of a run nothing is lost: revisions keep their immutable fields, rejected and
      superseded revisions stay so, artifacts keep the parent they were created with, commands stay indexed. */
  ghost predicate Later(before: Ledger, after: Ledger) {
    && Extends(before.revisions, after.revisions)
    && (forall r :: r in before.revisions ==> StatusReaches(before.revisions[r].status, after.revisions[r].status))
    && (forall a :: a in before.artifacts ==>
      a in after.artifacts && after.artifacts[a].parent == before.artifacts[a].parent)
    && (forall c :: c in before.commands ==> c in after.commands && after.commands[c] == before.commands[c])
  }

  lemma LaterStep(first: Ledger, before: Ledger, after: Ledger)
    requires Later(first, before) && Monotone(before, after)
    ensures Later(first, after)
  {
    forall r | r in first.revisions
      ensures r in after.revisions && after.revisions[r].(status := first.revisions[r].status) == first.revisions[r]
      ensures StatusReaches(first.revisions[r].status, after.revisions[r].status)
    {
      assert r in before.revisions && StatusMoves(before.revisions[r].status, after.revisions[r].status);
    }
  }

  lemma LastStepIsMonotone(stream: seq<Event>)
    requires stream != [] && Replay(stream).Some?
    ensures Replay(stream[..|stream| - 1]).Some?
    ensures Monotone(Replay(stream[..|stream| - 1]).value.ledger, Replay(stream).value.ledger)
  {
    ReplayKeepsLedger(stream[..|stream| - 1]);
    ReduceKeepsLedger(Replay(stream[..|stream| - 1]).value, stream[|stream| - 1]);
  }

  lemma {:induction false} RunsOnlyAdd(stream: seq<Event>, n: nat)
    requires n <= |stream| && Replay(stream).Some?
    ensures Replay(stream[..n]).Some?
    ensures Later(Replay(stream[..n]).value.ledger, Replay(stream).value.ledger)
    decreases |stream|
  {
    if n == |stream| {
      assert stream[..n] == stream;
    } else {
      var m := |stream| - 1;
      LastStepIsMonotone(stream);
      assert stream[..m][..n] == stream[..n];
      RunsOnlyAdd(stream[..m], n);
      LaterStep(Replay(stream[..n]).value.ledger, Replay(stream[..m]).value.ledger, Replay(stream).value.ledger);
    }
  }

  // ------------------------------------------------------ accept conservation

  /** Positions of the accept decisions on revisions of `a`. */
  function AcceptsOf(ledger: Ledger, a: ArtifactId): set<int> {
    set i: int | 0 <= i < |ledger.decisions| && IsAcceptOf(ledger.decisions[i], ledger.revisions, a)
  }

  predicate IsAcceptOf(d: DecisionRecord, revisions: map<RevisionId, Revision>, a: ArtifactId) {
    d.verdict == Accept && d.revision in revisions && revisions[d.revision].artifact == a
  }

  function WithStatus(revisions: map<RevisionId, Revision>, a: ArtifactId, status: Status): set<RevisionId> {
    set r | r in revisions && revisions[r].artifact == a && revisions[r].status == status
  }

  lemma AcceptTargets(ledger: Ledger, a: ArtifactId)
    requires DecisionsAgree(ledger.decisions, ledger.revisions)
    ensures var targets := Targets(ledger.decisions);
      (set i | i in AcceptsOf(ledger, a) :: targets[i]) == WithStatus(ledger.revisions, a, Accepted) +
        WithStatus(ledger.revisions, a, Superseded)
  {
    var targets := Targets(ledger.decisions);
    var image := set i | i in AcceptsOf(ledger, a) :: targets[i];
    var both := WithStatus(ledger.revisions, a, Accepted) + WithStatus(ledger.revisions, a, Superseded);
    forall i | i in AcceptsOf(ledger, a) ensures targets[i] in both {
      assert DecisionOk(ledger.decisions[i], ledger.revisions);
    }
    forall r | r in both ensures r in image {
      assert HasDecision(ledger.decisions, r);
      var i :| 0 <= i < |ledger.decisions| && ledger.decisions[i].revision == r;
      assert DecisionOk(ledger.decisions[i], ledger.revisions);
      assert i in AcceptsOf(ledger, a) && targets[i] == r;
    }
  }

  lemma OneAcceptedOnceAny(revisions: map<RevisionId, Revision>, a: ArtifactId)
    requires OneAccepted(revisions)
    requires forall r :: r in revisions && revisions[r].status == Superseded ==>
      HasAccepted(revisions, revisions[r].artifact)
    ensures |WithStatus(revisions, a, Accepted)| ==
      (if WithStatus(revisions, a, Accepted) + WithStatus(revisions, a, Superseded) == {} then 0 else 1)
  {
    var accepted, superseded := WithStatus(revisions, a, Accepted), WithStatus(revisions, a, Superseded);
    assert superseded != {} ==> accepted != {} by {
      if superseded != {} {
        var s := Member(superseded);
        assert HasAccepted(revisions, a);
        var r :| r in revisions && revisions[r].status == Accepted && revisions[r].artifact == a;
        assert r in accepted;
      }
    }
    if accepted != {} {
      var r := Member(accepted);
      forall s | s in accepted ensures s == r {
        assert BothAccepted(revisions[r], revisions[s]);
      }
      assert accepted == {r};
    }
  }

  lemma LedgerConserves(ledger: Ledger, a: ArtifactId)
    requires DecisionsAgree(ledger.decisions, ledger.revisions) && OneAccepted(ledger.revisions)
    ensures |AcceptsOf(ledger, a)| == |WithStatus(ledger.revisions, a, Superseded)| +
      |WithStatus(ledger.revisions, a, Accepted)|
    ensures |WithStatus(ledger.revisions, a, Accepted)| == (if AcceptsOf(ledger, a) == {} then 0 else 1)
  {
    var accepted, superseded := WithStatus(ledger.revisions, a, Accepted), WithStatus(ledger.revisions, a, Superseded);
    AcceptTargets(ledger, a);
    ImageCount(Targets(ledger.decisions), AcceptsOf(ledger, a));
    assert |accepted + superseded| == |accepted| + |superseded| by { assert accepted !! superseded; }
    OneAcceptedOnceAny(ledger.revisions, a);
  }

  /** Conservation: per artifact, accept decisions are the superseded and accepted revisions, and exactly one
      revision is accepted once any accept exists. */
  lemma AcceptsAreConserved(stream: seq<Event>, a: ArtifactId)
    requires Replay(stream).Some?
    ensures var ledger := Replay(stream).value.ledger;
      && |AcceptsOf(ledger, a)| == |WithStatus(ledger.revisions, a, Superseded)| +
        |WithStatus(ledger.revisions, a, Accepted)|
      && |WithStatus(ledger.revisions, a, Accepted)| == (if AcceptsOf(ledger, a) == {} then 0 else 1)
  {
    ReplayKeepsLedger(stream);
    LedgerConserves(Replay(stream).value.ledger, a);
  }

  /** No revision is superseded twice, and none by a decision on another artifact. */
  lemma SupersededOnce(stream: seq<Event>, i: nat, j: nat, r: RevisionId)
    requires Replay(stream).Some?
    requires i < |Replay(stream).value.ledger.decisions| && j < |Replay(stream).value.ledger.decisions|
    requires Replay(stream).value.ledger.decisions[i].supersedes == Some(r)
    requires Replay(stream).value.ledger.decisions[j].supersedes == Some(r)
    ensures i == j
    ensures var ledger := Replay(stream).value.ledger;
      && r in ledger.revisions && ledger.revisions[r].status == Superseded
      && ledger.decisions[i].revision in ledger.revisions
      && ledger.revisions[ledger.decisions[i].revision].artifact == ledger.revisions[r].artifact
      && ledger.decisions[i].revision != r
  {
    ReplayKeepsLedger(stream);
    var ledger := Replay(stream).value.ledger;
    assert DecisionOk(ledger.decisions[i], ledger.revisions);
  }
}
