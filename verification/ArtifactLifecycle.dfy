/** Every accepted artifact event keeps the ledger well-formed and changes only what its kind may change. */
module ArtifactLifecycle {
  import opened Domain
  import opened ArtifactLedger
  import opened ArtifactInvariants

  /** Decoder and reducer of an artifact event; other events leave the ledger alone. */
  function Apply(ledger: Ledger, world: World, e: Event): Option<Ledger> {
    match e.payload
    case ProposalBatch(_, _, _, _, _, _) => if BatchDecodes(e) then ReduceBatch(ledger, world, e) else None
    case Decision(_, _, _, _, _) => if DecisionDecodes(e) then ReduceDecision(ledger, world, e) else None
    case _ => Some(ledger)
  }

  /** Statuses only move forward: a proposal is decided once, an accepted revision may be superseded, and
      rejected and superseded revisions never change again. */
  predicate StatusMoves(before: Status, after: Status) {
    || before == after
    || (before == Proposed && after in {Accepted, Rejected})
    || (before == Accepted && after == Superseded)
  }

  // ------------------------------------------------------------------ batch

  /** What a batch event adds, in terms of the event alone. */
  ghost predicate BatchStep(ledger: Ledger, next: Ledger, e: Event)
    requires e.payload.ProposalBatch?
  {
    var p := e.payload;
    && FreshIds(ledger.revisions, p.proposals)
    && next.revisions == Added(p.batch, ledger.revisions, p.proposals)
    && next.batches == ledger.batches[p.batch := Batch(e.session, p.origin, RevisionIds(p.proposals), p.run)]
    && next.decisions == ledger.decisions
    && next.commands == ledger.commands[e.id := FingerprintOf(p)]
    && e.id !in ledger.commands && p.batch !in ledger.batches
  }

  ghost predicate ArtifactsStep(ledger: Ledger, next: Ledger, proposals: seq<Recorded>) {
    && (forall a :: a in ledger.artifacts ==>
      a in next.artifacts && next.artifacts[a].parent == ledger.artifacts[a].parent)
    && (forall a :: a in next.artifacts ==> a in ledger.artifacts || Creates(proposals, a))
  }

  ghost predicate Creates(proposals: seq<Recorded>, a: ArtifactId) {
    exists i :: 0 <= i < |proposals| && proposals[i].artifact == a && proposals[i].prior.None?
  }

  lemma BatchEffect(ledger: Ledger, world: World, e: Event)
    requires e.payload.ProposalBatch? && ReduceBatch(ledger, world, e).Some?
    ensures BatchStep(ledger, ReduceBatch(ledger, world, e).value, e)
  {
    ProposeAllEffect(ScopeOf(world, e), Fold(ledger.artifacts, ledger.revisions, map[], []), e.payload.proposals);
    assert [] + RevisionIds(e.payload.proposals) == RevisionIds(e.payload.proposals);
  }

  lemma BatchArtifacts(ledger: Ledger, world: World, e: Event)
    requires e.payload.ProposalBatch? && ReduceBatch(ledger, world, e).Some?
    ensures ArtifactsStep(ledger, ReduceBatch(ledger, world, e).value, e.payload.proposals)
  {
    ProposeAllArtifacts(ScopeOf(world, e), Fold(ledger.artifacts, ledger.revisions, map[], []), e.payload.proposals);
  }

  lemma BatchLineages(ledger: Ledger, world: World, e: Event)
    requires e.payload.ProposalBatch? && ReduceBatch(ledger, world, e).Some?
    requires Lineages(ledger.artifacts, ledger.revisions)
    ensures var next := ReduceBatch(ledger, world, e).value; Lineages(next.artifacts, next.revisions)
  {
    ProposeAllKeeps(ScopeOf(world, e), Fold(ledger.artifacts, ledger.revisions, map[], []), e.payload.proposals);
  }

  /** The part of decoding that ties recorded identities to their batch. */
  ghost predicate IdentitiesDecode(e: Event)
    requires e.payload.ProposalBatch?
  {
    && e.id == ArtifactEventId(e.payload.batch.session, e.payload.batch.key, ProposalCommand)
    && e.session == e.payload.batch.session
    && forall i :: 0 <= i < |e.payload.proposals| ==> ProposalIdentity(e.payload.batch, e.payload.proposals[i])
  }

  lemma DecisionsFrame(
    decisions: seq<DecisionRecord>, revisions: map<RevisionId, Revision>, later: map<RevisionId, Revision>)
    requires DecisionsAgree(decisions, revisions)
    requires forall r :: r in revisions ==> r in later && later[r] == revisions[r]
    requires forall r :: r in later && r !in revisions ==> later[r].status == Proposed
    ensures DecisionsAgree(decisions, later)
  {
    forall i | 0 <= i < |decisions| ensures DecisionOk(decisions[i], later) {
      assert DecisionOk(decisions[i], revisions);
    }
    forall r | r in later && later[r].status == Superseded
      ensures HasSuccessor(decisions, r) && HasAccepted(later, later[r].artifact)
    {
      var q :| q in revisions && revisions[q].status == Accepted && revisions[q].artifact == revisions[r].artifact;
      assert later[q].status == Accepted && later[q].artifact == later[r].artifact;
    }
  }

  lemma IdentifiedGrows(batch: BatchId, proposals: seq<Recorded>, revisions: map<RevisionId, Revision>)
    requires Identified(revisions) && FreshIds(revisions, proposals)
    requires forall i :: 0 <= i < |proposals| ==> ProposalIdentity(batch, proposals[i])
    ensures Identified(Added(batch, revisions, proposals))
  {
    var next := Added(batch, revisions, proposals);
    AddedEntries(batch, revisions, proposals);
    forall r | r in next && r !in revisions
      ensures r == RevisionId(next[r].artifact, next[r].kind, next[r].content, next[r].provenance, next[r].prior)
      ensures ContentDecodes(next[r].content) && KindOf(next[r].content) == next[r].kind
    {
      var i :| 0 <= i < |proposals| && proposals[i].revision == r;
      assert ProposalIdentity(batch, proposals[i]);
    }
  }

  lemma CreatedAreIndexed(e: Event, a: ArtifactId)
    requires e.payload.ProposalBatch? && IdentitiesDecode(e) && Creates(e.payload.proposals, a)
    ensures a.ArtifactId? && a.batch == e.payload.batch
  {
    var ps := e.payload.proposals;
    var i :| 0 <= i < |ps| && ps[i].artifact == a && ps[i].prior.None?;
    assert ProposalIdentity(e.payload.batch, ps[i]);
  }

  lemma AddedAreIndexed(ledger: Ledger, next: Ledger, e: Event, r: RevisionId)
    requires e.payload.ProposalBatch? && Indexed(ledger) && BatchStep(ledger, next, e) && r in next.revisions
    ensures next.revisions[r].batch in next.batches
  {
    AddedEntries(e.payload.batch, ledger.revisions, e.payload.proposals);
  }

  lemma IndexGrows(ledger: Ledger, next: Ledger, e: Event)
    requires e.payload.ProposalBatch? && IdentitiesDecode(e) && Indexed(ledger)
    requires BatchStep(ledger, next, e) && ArtifactsStep(ledger, next, e.payload.proposals)
    ensures Indexed(next)
  {
    forall r | r in next.revisions ensures next.revisions[r].batch in next.batches {
      AddedAreIndexed(ledger, next, e, r);
    }
    forall a | a in next.artifacts && a !in ledger.artifacts ensures a.ArtifactId? && a.batch in next.batches {
      CreatedAreIndexed(e, a);
    }
  }

  lemma StatusesGrow(ledger: Ledger, next: Ledger, e: Event)
    requires e.payload.ProposalBatch? && BatchStep(ledger, next, e)
    requires OneAccepted(ledger.revisions) && DecisionsAgree(ledger.decisions, ledger.revisions)
    ensures OneAccepted(next.revisions) && DecisionsAgree(next.decisions, next.revisions)
  {
    AddedEntries(e.payload.batch, ledger.revisions, e.payload.proposals);
    DecisionsFrame(ledger.decisions, ledger.revisions, next.revisions);
  }

  lemma BatchKeeps(ledger: Ledger, world: World, e: Event)
    requires e.payload.ProposalBatch? && IdentitiesDecode(e) && LedgerOk(ledger) && ReduceBatch(ledger, world, e).Some?
    ensures LedgerOk(ReduceBatch(ledger, world, e).value)
  {
    var next := ReduceBatch(ledger, world, e).value;
    BatchEffect(ledger, world, e);
    BatchArtifacts(ledger, world, e);
    BatchLineages(ledger, world, e);
    IdentifiedGrows(e.payload.batch, e.payload.proposals, ledger.revisions);
    IndexGrows(ledger, next, e);
    StatusesGrow(ledger, next, e);
  }

  // --------------------------------------------------------------- decision

  /** A decision changes the status of its target and, when accepting, of the accepted predecessor it names. */
  ghost predicate DecisionStep(revisions: map<RevisionId, Revision>, later: map<RevisionId, Revision>, p: Payload)
    requires p.Decision?
  {
    && p.revision in revisions && revisions[p.revision].status == Proposed
    && later.Keys == revisions.Keys
    && (forall r :: r in revisions ==> later[r] == revisions[r].(status := StatusAfter(p, r, revisions[r].status)))
    && (p.verdict == Reject ==> p.supersedes.None?)
    && (p.verdict == Accept ==>
          forall r :: r in revisions && revisions[r].artifact == revisions[p.revision].artifact ==>
            (revisions[r].status == Accepted <==> p.supersedes == Some(r)))
    && (p.supersedes.Some? ==>
          p.supersedes.value in revisions && revisions[p.supersedes.value].status == Accepted
          && revisions[p.supersedes.value].artifact == revisions[p.revision].artifact)
  }

  function StatusAfter(p: Payload, r: RevisionId, status: Status): Status
    requires p.Decision?
  {
    if r == p.revision then (if p.verdict == Accept then Accepted else Rejected)
    else if p.supersedes == Some(r) then Superseded
    else status
  }

  function DecisionRecordOf(p: Payload): DecisionRecord
    requires p.Decision?
  {
    DecisionRecord(p.revision, p.verdict, p.supersedes, p.receipt)
  }

  /** The accepted revision of the target's artifact, as the acceptance rule sees it. */
  ghost predicate Predecessor(revisions: map<RevisionId, Revision>, target: RevisionId, current: Option<RevisionId>)
    requires target in revisions
  {
    forall r :: current == Some(r) <==>
      r in revisions && revisions[r].artifact == revisions[target].artifact && revisions[r].status == Accepted
  }

  lemma DecidedEntries(revisions: map<RevisionId, Revision>, p: Payload, current: Option<RevisionId>)
    requires p.Decision? && p.revision in revisions && revisions[p.revision].status == Proposed
    requires Predecessor(revisions, p.revision, current)
    requires p.supersedes == (if p.verdict == Accept then current else None)
    ensures DecisionStep(revisions, Decided(revisions, p), p)
  {
    if p.supersedes.Some? {
      var s := p.supersedes.value;
      assert current == Some(s);
    }
    forall r | r in revisions && revisions[r].artifact == revisions[p.revision].artifact
      ensures revisions[r].status == Accepted <==> current == Some(r)
    {
    }
  }

  lemma DecisionEffect(ledger: Ledger, world: World, e: Event)
    requires e.payload.Decision? && ReduceDecision(ledger, world, e).Some?
    requires Lineages(ledger.artifacts, ledger.revisions) && OneAccepted(ledger.revisions)
    ensures DecisionStep(ledger.revisions, ReduceDecision(ledger, world, e).value.revisions, e.payload)
  {
    var a := ledger.revisions[e.payload.revision].artifact;
    CurrentAcceptedExact(ledger, a);
    DecidedEntries(ledger.revisions, e.payload, CurrentAccepted(ledger, a).value);
  }

  lemma StatusFrame(
    artifacts: map<ArtifactId, Artifact>, revisions: map<RevisionId, Revision>, later: map<RevisionId, Revision>)
    requires Lineages(artifacts, revisions) && later.Keys == revisions.Keys && Extends(revisions, later)
    ensures Lineages(artifacts, later)
  {
    forall a | a in artifacts ensures ChainOk(a, artifacts[a], later) {
      ChainFrame(a, artifacts[a], revisions, later);
    }
  }

  lemma AgreementStep(
    revisions: map<RevisionId, Revision>, later: map<RevisionId, Revision>, decisions: seq<DecisionRecord>,
    p: Payload)
    requires p.Decision? && DecisionStep(revisions, later, p) && DecisionsAgree(decisions, revisions)
    requires OneAccepted(revisions)
    ensures OneAccepted(later)
    ensures DecisionsAgree(decisions + [DecisionRecordOf(p)], later)
  {
    var d := DecisionRecordOf(p);
    var all := decisions + [d];
    forall i | 0 <= i < |decisions|
      ensures DecisionOk(decisions[i], later)
      ensures decisions[i].revision != d.revision && (d.supersedes.None? || decisions[i].supersedes != d.supersedes)
    {
      EarlierDecision(revisions, later, decisions[i], p);
    }
    assert DecisionOk(d, later);
    forall r | r in later && later[r].status != Proposed ensures HasDecision(all, r) {
      if r == p.revision { assert all[|decisions|].revision == r; }
      else {
        var i :| 0 <= i < |decisions| && decisions[i].revision == r;
        assert all[i].revision == r;
      }
    }
    forall r | r in later && later[r].status == Superseded ensures HasSuccessor(all, r) &&
      HasAccepted(later, later[r].artifact) {
      SupersededStep(revisions, later, decisions, p, r);
    }
  }

  /** A decision leaves every earlier decision true, and repeats neither its target nor its predecessor. */
  lemma EarlierDecision(
    revisions: map<RevisionId, Revision>, later: map<RevisionId, Revision>, was: DecisionRecord, p: Payload)
    requires p.Decision? && DecisionStep(revisions, later, p) && DecisionOk(was, revisions)
    ensures DecisionOk(was, later)
    ensures was.revision != p.revision && (p.supersedes.None? || was.supersedes != p.supersedes)
  {
  }

  lemma SupersededStep(
    revisions: map<RevisionId, Revision>, later: map<RevisionId, Revision>, decisions: seq<DecisionRecord>,
    p: Payload, r: RevisionId)
    requires p.Decision? && DecisionStep(revisions, later, p) && DecisionsAgree(decisions, revisions)
    requires r in later && later[r].status == Superseded
    ensures HasSuccessor(decisions + [DecisionRecordOf(p)], r)
    ensures HasAccepted(later, later[r].artifact)
  {
    var all := decisions + [DecisionRecordOf(p)];
    if p.supersedes == Some(r) {
      assert all[|decisions|].supersedes == Some(r);
      assert later[p.revision].status == Accepted;
    } else {
      var i :| 0 <= i < |decisions| && decisions[i].supersedes == Some(r);
      assert all[i].supersedes == Some(r);
      var q :| q in revisions && revisions[q].status == Accepted && revisions[q].artifact == revisions[r].artifact;
      if p.supersedes == Some(q) {
        assert later[p.revision].status == Accepted && later[p.revision].artifact == later[r].artifact;
      } else {
        assert later[q].status == Accepted && later[q].artifact == later[r].artifact;
      }
    }
  }

  lemma DecisionKeeps(ledger: Ledger, world: World, e: Event)
    requires e.payload.Decision? && LedgerOk(ledger) && ReduceDecision(ledger, world, e).Some?
    ensures LedgerOk(ReduceDecision(ledger, world, e).value)
  {
    var next := ReduceDecision(ledger, world, e).value;
    DecisionEffect(ledger, world, e);
    AgreementStep(ledger.revisions, next.revisions, ledger.decisions, e.payload);
    StatusFrame(ledger.artifacts, ledger.revisions, next.revisions);
  }

  /** The ledger invariant holds across every accepted event. */
  lemma ApplyKeeps(ledger: Ledger, world: World, e: Event)
    requires LedgerOk(ledger) && Apply(ledger, world, e).Some?
    ensures LedgerOk(Apply(ledger, world, e).value)
  {
    if e.payload.ProposalBatch? {
      BatchKeeps(ledger, world, e);
    } else if e.payload.Decision? {
      DecisionKeeps(ledger, world, e);
    }
  }

  /** Nothing is lost between two ledgers: no revision removed or altered but in status, no terminal status
      reopened, no artifact re-parented, no command forgotten. */
  ghost predicate Monotone(ledger: Ledger, next: Ledger) {
    && Extends(ledger.revisions, next.revisions)
    && (forall r :: r in ledger.revisions ==> StatusMoves(ledger.revisions[r].status, next.revisions[r].status))
    && (forall a :: a in ledger.artifacts ==>
      a in next.artifacts && next.artifacts[a].parent == ledger.artifacts[a].parent)
    && (forall c :: c in ledger.commands ==> c in next.commands && next.commands[c] == ledger.commands[c])
  }

  lemma BatchIsMonotone(ledger: Ledger, next: Ledger, e: Event)
    requires e.payload.ProposalBatch? && BatchStep(ledger, next, e) && ArtifactsStep(ledger, next, e.payload.proposals)
    ensures Monotone(ledger, next)
  {
    AddedEntries(e.payload.batch, ledger.revisions, e.payload.proposals);
  }

  lemma DecisionIsMonotone(ledger: Ledger, next: Ledger, p: Payload)
    requires p.Decision? && DecisionStep(ledger.revisions, next.revisions, p) && next.artifacts == ledger.artifacts
    requires forall c :: c in ledger.commands ==> c in next.commands && next.commands[c] == ledger.commands[c]
    ensures Monotone(ledger, next)
  {
  }

  lemma BatchMonotone(ledger: Ledger, world: World, e: Event)
    requires e.payload.ProposalBatch? && ReduceBatch(ledger, world, e).Some?
    ensures Monotone(ledger, ReduceBatch(ledger, world, e).value)
  {
    BatchEffect(ledger, world, e);
    BatchArtifacts(ledger, world, e);
    BatchIsMonotone(ledger, ReduceBatch(ledger, world, e).value, e);
  }

  lemma DecisionMonotone(ledger: Ledger, world: World, e: Event)
    requires e.payload.Decision? && ReduceDecision(ledger, world, e).Some?
    requires Lineages(ledger.artifacts, ledger.revisions) && OneAccepted(ledger.revisions)
    ensures Monotone(ledger, ReduceDecision(ledger, world, e).value)
  {
    DecisionEffect(ledger, world, e);
    DecisionIsMonotone(ledger, ReduceDecision(ledger, world, e).value, e.payload);
  }

  lemma ApplyIsMonotone(ledger: Ledger, world: World, e: Event)
    requires LedgerOk(ledger) && Apply(ledger, world, e).Some?
    ensures Monotone(ledger, Apply(ledger, world, e).value)
  {
    if e.payload.ProposalBatch? {
      BatchMonotone(ledger, world, e);
    } else if e.payload.Decision? {
      DecisionMonotone(ledger, world, e);
    }
  }
}
