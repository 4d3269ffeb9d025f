/** On every stream that replays, none of the export's cross-checks can fire. */
module ExportAgreement {
  import opened Domain
  import opened ArtifactLedger
  import opened ArtifactInvariants
  import opened ArtifactLifecycle
  import opened ArtifactExport
  import opened Course
  import opened ArtifactRuns
  import opened Collections

  /** All proposals of a stream, in stream order. */
  function ProposalOrder(stream: seq<Event>): seq<Slot>
    decreases |stream|
  {
    if stream == [] then []
    else
      var n := |stream| - 1;
      ProposalOrder(stream[..n]) + (if stream[n].payload.ProposalBatch? then SlotsOf(stream[n]) else [])
  }

  function RulingsIn(stream: seq<Event>): seq<Ruling>
    decreases |stream|
  {
    if stream == [] then []
    else
      var n := |stream| - 1;
      RulingsIn(stream[..n]) + (if stream[n].payload.Decision? then [RulingOf(stream[n])] else [])
  }

  function Records(rulings: seq<Ruling>): seq<DecisionRecord> {
    seq(|rulings|, i requires 0 <= i < |rulings| => rulings[i].record)
  }

  // ------------------------------------------- what replay keeps about the stream

  ghost predicate SlotsStored(slots: seq<Slot>, ledger: Ledger) {
    && |slots| == |ledger.revisions|
    && (forall i :: 0 <= i < |slots| ==> SlotStored(slots[i], ledger))
    && (forall i, j :: 0 <= i < j < |slots| ==> slots[i].proposal.revision != slots[j].proposal.revision)
  }

  ghost predicate SlotStored(slot: Slot, ledger: Ledger) {
    && slot.proposal.revision in ledger.revisions
    && SlotMatches(slot, ledger.revisions[slot.proposal.revision])
    && slot.batch in ledger.batches
    && slot.origin == ledger.batches[slot.batch].origin
    && (slot.origin == GeneratedOrigin ==> slot.proof)
  }

  ghost predicate EventStored(e: Event, ledger: Ledger) {
    && (e.payload.ProposalBatch? ==> BatchMatches(ledger, e))
    && (e.payload.Decision? ==> DecisionDecodes(e))
  }

  /** The ledger is exactly what the stream's proposals and decisions say. */
  ghost predicate Traced(stream: seq<Event>, ledger: Ledger) {
    && (forall i :: 0 <= i < |stream| ==> EventStored(stream[i], ledger))
    && ledger.decisions == Records(RulingsIn(stream))
    && (forall i :: 0 <= i < |RulingsIn(stream)| ==> AuthorityMatches(RulingsIn(stream)[i]))
    && SlotsStored(ProposalOrder(stream), ledger)
  }

  lemma OldSlots(slots: seq<Slot>, ledger: Ledger, next: Ledger)
    requires forall i :: 0 <= i < |slots| ==> SlotStored(slots[i], ledger)
    requires forall r :: r in ledger.revisions ==> r in next.revisions && next.revisions[r] == ledger.revisions[r]
    requires forall b :: b in ledger.batches ==> b in next.batches && next.batches[b] == ledger.batches[b]
    ensures forall i :: 0 <= i < |slots| ==>
      SlotStored(slots[i], next) && slots[i].proposal.revision in ledger.revisions
  {
    forall i | 0 <= i < |slots| ensures SlotStored(slots[i], next) && slots[i].proposal.revision in ledger.revisions {
      assert SlotStored(slots[i], ledger);
    }
  }

  lemma NewSlots(next: Ledger, e: Event)
    requires e.payload.ProposalBatch? && e.payload.batch in next.batches
    requires next.batches[e.payload.batch].origin == e.payload.origin
    requires e.payload.origin == GeneratedOrigin ==> e.payload.proof
    requires forall i :: 0 <= i < |e.payload.proposals| ==>
      e.payload.proposals[i].revision in next.revisions &&
        next.revisions[e.payload.proposals[i].revision] == RecordOf(e.payload.batch, e.payload.proposals[i])
    ensures forall k :: 0 <= k < |SlotsOf(e)| ==> SlotStored(SlotsOf(e)[k], next)
  {
  }

  lemma NewIds(e: Event, revisions: map<RevisionId, Revision>)
    requires e.payload.ProposalBatch? && FreshIds(revisions, e.payload.proposals)
    ensures forall i, j :: 0 <= i < j < |SlotsOf(e)| ==>
      SlotsOf(e)[i].proposal.revision != SlotsOf(e)[j].proposal.revision
    ensures forall i :: 0 <= i < |SlotsOf(e)| ==> SlotsOf(e)[i].proposal.revision !in revisions.Keys
  {
  }

  lemma SlotsGrow(slots: seq<Slot>, ledger: Ledger, next: Ledger, e: Event)
    requires SlotsStored(slots, ledger) && e.payload.ProposalBatch? && BatchStep(ledger, next, e)
    requires e.payload.origin == GeneratedOrigin ==> e.payload.proof
    ensures SlotsStored(slots + SlotsOf(e), next)
  {
    AddedEntries(e.payload.batch, ledger.revisions, e.payload.proposals);
    OldSlots(slots, ledger, next);
    NewSlots(next, e);
    NewIds(e, ledger.revisions);
    DistinctGrow(slots, SlotsOf(e), ledger.revisions.Keys);
  }

  lemma DistinctGrow(slots: seq<Slot>, more: seq<Slot>, stored: set<RevisionId>)
    requires forall i, j :: 0 <= i < j < |slots| ==> slots[i].proposal.revision != slots[j].proposal.revision
    requires forall i, j :: 0 <= i < j < |more| ==> more[i].proposal.revision != more[j].proposal.revision
    requires forall i :: 0 <= i < |slots| ==> slots[i].proposal.revision in stored
    requires forall i :: 0 <= i < |more| ==> more[i].proposal.revision !in stored
    ensures var all := slots + more; forall i, j :: 0 <= i < j < |all| ==>
      all[i].proposal.revision != all[j].proposal.revision
  {
  }

  lemma SlotsFrame(slots: seq<Slot>, ledger: Ledger, next: Ledger)
    requires SlotsStored(slots, ledger) && Extends(ledger.revisions, next.revisions)
    requires next.revisions.Keys == ledger.revisions.Keys && next.batches == ledger.batches
    ensures SlotsStored(slots, next)
  {
    assert |next.revisions| == |next.revisions.Keys| == |ledger.revisions|;
    forall i | 0 <= i < |slots| ensures SlotStored(slots[i], next) {
      assert SlotStored(slots[i], ledger);
      var r := slots[i].proposal.revision;
      assert next.revisions[r].(status := ledger.revisions[r].status) == ledger.revisions[r];
    }
  }

  lemma TraceBatch(stream: seq<Event>, ledger: Ledger, next: Ledger, e: Event)
    requires Traced(stream, ledger) && e.payload.ProposalBatch? && BatchDecodes(e) && BatchStep(ledger, next, e)
    ensures Traced(stream + [e], next)
  {
    var longer := stream + [e];
    assert longer[..|stream|] == stream && longer[|stream|] == e;
    SlotsGrow(ProposalOrder(stream), ledger, next, e);
    forall i | 0 <= i < |longer| ensures EventStored(longer[i], next) {
      if i < |stream| { assert EventStored(stream[i], ledger); }
    }
    assert RulingsIn(longer) == RulingsIn(stream);
  }

  lemma TraceDecision(stream: seq<Event>, ledger: Ledger, next: Ledger, e: Event)
    requires Traced(stream, ledger) && e.payload.Decision? && DecisionDecodes(e)
    requires DecisionStep(ledger.revisions, next.revisions, e.payload) && next.batches == ledger.batches
    requires next.decisions == ledger.decisions + [DecisionRecordOf(e.payload)]
    ensures Traced(stream + [e], next)
  {
    var longer := stream + [e];
    assert longer[..|stream|] == stream && longer[|stream|] == e;
    SlotsFrame(ProposalOrder(stream), ledger, next);
    assert ProposalOrder(longer) == ProposalOrder(stream);
    forall i | 0 <= i < |longer| ensures EventStored(longer[i], next) {
      if i < |stream| { assert EventStored(stream[i], ledger); }
    }
    assert RulingsIn(longer) == RulingsIn(stream) + [RulingOf(e)];
    assert Records(RulingsIn(longer)) == Records(RulingsIn(stream)) + [RulingOf(e).record];
  }

  lemma TraceOther(stream: seq<Event>, ledger: Ledger, e: Event)
    requires Traced(stream, ledger) && !e.payload.ProposalBatch? && !e.payload.Decision?
    ensures Traced(stream + [e], ledger)
  {
    var longer := stream + [e];
    assert longer[..|stream|] == stream && longer[|stream|] == e;
    assert ProposalOrder(longer) == ProposalOrder(stream) && RulingsIn(longer) == RulingsIn(stream);
    forall i | 0 <= i < |longer| ensures EventStored(longer[i], ledger) {
      if i < |stream| { assert EventStored(stream[i], ledger); }
    }
  }

  lemma TraceStep(stream: seq<Event>, st: State, e: Event)
    requires Traced(stream, st.ledger) && LedgerOk(st.ledger) && Reduce(st, e).Some?
    ensures Traced(stream + [e], Reduce(st, e).value.ledger)
  {
    var next := Reduce(st, e).value.ledger;
    if e.payload.ProposalBatch? {
      BatchEffect(st.ledger, st.world, e);
      TraceBatch(stream, st.ledger, next, e);
    } else if e.payload.Decision? {
      DecisionEffect(st.ledger, st.world, e);
      TraceDecision(stream, st.ledger, next, e);
    } else {
      TraceOther(stream, st.ledger, e);
    }
  }

  lemma NothingTraced()
    ensures Traced([], EMPTY_LEDGER)
  {
  }

  lemma {:induction false} ReplayIsTraced(stream: seq<Event>)
    requires Replay(stream).Some?
    ensures Traced(stream, Replay(stream).value.ledger)
    decreases |stream|
  {
    if stream == [] {
      NothingTraced();
    } else {
      var before, e := stream[..|stream| - 1], stream[|stream| - 1];
      assert stream == before + [e];
      ReplayIsTraced(before);
      ReplayKeepsLedger(before);
      TraceStep(before, Replay(before).value, e);
    }
  }

  // ------------------------------------------------------- the checks one by one

  function RulingTargets(rulings: seq<Ruling>): seq<RevisionId> {
    Targets(Records(rulings))
  }

  /** Scanning a prefix of the stream against the final ledger never stops. */
  lemma {:induction false} ScanSucceeds(ledger: Ledger, stream: seq<Event>)
    requires forall i :: 0 <= i < |stream| ==> EventStored(stream[i], ledger)
    requires Distinct(RulingTargets(RulingsIn(stream)))
    ensures ScanAll(ledger, stream) ==
      Some(Scan(ProposalOrder(stream), Keyed(RulingTargets(RulingsIn(stream)), RulingsIn(stream))))
    decreases |stream|
  {
    if stream != [] {
      var n := |stream| - 1;
      var before, e := stream[..n], stream[n];
      var earlier, all := RulingsIn(before), RulingsIn(stream);
      assert ProposalOrder(before) + [] == ProposalOrder(before);
      assert EventStored(e, ledger);
      if e.payload.Decision? {
        RulingSnoc(earlier, RulingOf(e));
      } else {
        assert all == earlier;
      }
      ScanSucceeds(ledger, before);
    }
  }

  lemma RulingSnoc(earlier: seq<Ruling>, ruling: Ruling)
    requires Distinct(RulingTargets(earlier + [ruling]))
    ensures Distinct(RulingTargets(earlier))
    ensures ruling.record.revision !in Keyed(RulingTargets(earlier), earlier)
    ensures Keyed(RulingTargets(earlier + [ruling]), earlier + [ruling]) ==
      Keyed(RulingTargets(earlier), earlier)[ruling.record.revision := ruling]
  {
    var all := earlier + [ruling];
    var targets := RulingTargets(all);
    assert targets == RulingTargets(earlier) + [ruling.record.revision];
    DistinctSnoc(RulingTargets(earlier), ruling.record.revision);
    assert targets[..|earlier|] == RulingTargets(earlier) && all[..|earlier|] == earlier;
    KeyedExact(RulingTargets(earlier), earlier);
  }

  /** The decision index of a well-formed ledger: one entry per decision, found by its target. */
  lemma DecisionIndex(ledger: Ledger)
    requires DecisionsAgree(ledger.decisions, ledger.revisions)
    ensures Distinct(Targets(ledger.decisions)) && DecisionsUnique(ledger.decisions)
    ensures forall r :: r in DecisionMap(ledger.decisions) <==> HasDecision(ledger.decisions, r)
    ensures forall i :: 0 <= i < |ledger.decisions| ==>
      Find(DecisionMap(ledger.decisions), ledger.decisions[i].revision) == Some(ledger.decisions[i])
  {
    var targets := Targets(ledger.decisions);
    KeyedExact(targets, ledger.decisions);
    forall i | 0 <= i < |ledger.decisions| ensures Find(DecisionMap(ledger.decisions),
      ledger.decisions[i].revision) == Some(ledger.decisions[i]) {
      assert targets[i] == ledger.decisions[i].revision;
    }
    forall r ensures r in targets <==> HasDecision(ledger.decisions, r) {
      if HasDecision(ledger.decisions, r) {
        var i :| 0 <= i < |ledger.decisions| && ledger.decisions[i].revision == r;
        assert targets[i] == r;
      }
    }
  }

  lemma NamedIsStored(ledger: Ledger, s: RevisionId)
    requires DecisionsAgree(ledger.decisions, ledger.revisions) && s in NamedSuperseded(DecisionMap(ledger.decisions))
    ensures s in StoredSuperseded(ledger.revisions)
  {
    DecisionIndex(ledger);
    var index := DecisionMap(ledger.decisions);
    var r :| r in index && index[r].supersedes == Some(s);
    var i :| 0 <= i < |ledger.decisions| && ledger.decisions[i].revision == r;
    assert Find(index, ledger.decisions[i].revision) == Some(ledger.decisions[i]);
    assert DecisionOk(ledger.decisions[i], ledger.revisions);
  }

  lemma StoredIsNamed(ledger: Ledger, s: RevisionId)
    requires DecisionsAgree(ledger.decisions, ledger.revisions) && s in StoredSuperseded(ledger.revisions)
    ensures s in NamedSuperseded(DecisionMap(ledger.decisions))
  {
    DecisionIndex(ledger);
    assert HasSuccessor(ledger.decisions, s);
    var i :| 0 <= i < |ledger.decisions| && ledger.decisions[i].supersedes == Some(s);
    assert Find(DecisionMap(ledger.decisions), ledger.decisions[i].revision) == Some(ledger.decisions[i]);
  }

  lemma SupersededSetsAgree(ledger: Ledger)
    requires DecisionsAgree(ledger.decisions, ledger.revisions)
    ensures NamedSuperseded(DecisionMap(ledger.decisions)) == StoredSuperseded(ledger.revisions)
  {
    forall s ensures s in NamedSuperseded(DecisionMap(ledger.decisions)) <==> s in StoredSuperseded(ledger.revisions) {
      if s in NamedSuperseded(DecisionMap(ledger.decisions)) {
        NamedIsStored(ledger, s);
      } else if s in StoredSuperseded(ledger.revisions) {
        StoredIsNamed(ledger, s);
      }
    }
  }

  lemma StatusesAreTerminal(ledger: Ledger, r: RevisionId)
    requires DecisionsAgree(ledger.decisions, ledger.revisions) && r in ledger.revisions
    ensures TerminalState(ledger.revisions[r].status, Find(DecisionMap(ledger.decisions), r))
  {
    DecisionIndex(ledger);
    if HasDecision(ledger.decisions, r) {
      var i :| 0 <= i < |ledger.decisions| && ledger.decisions[i].revision == r;
      assert Find(DecisionMap(ledger.decisions), ledger.decisions[i].revision) == Some(ledger.decisions[i]);
      assert DecisionOk(ledger.decisions[i], ledger.revisions);
    }
  }

  lemma RulingMatches(targets: seq<RevisionId>, rulings: seq<Ruling>, r: RevisionId)
    requires targets == RulingTargets(rulings) && Distinct(targets) && r in targets
    requires forall i :: 0 <= i < |rulings| ==> AuthorityMatches(rulings[i])
    ensures r in Keyed(targets, rulings) && r in Keyed(targets, Records(rulings))
    ensures Keyed(targets, Records(rulings))[r] == Keyed(targets, rulings)[r].record
    ensures AuthorityMatches(Keyed(targets, rulings)[r])
  {
    KeyedExact(targets, rulings);
    KeyedExact(targets, Records(rulings));
    var i :| 0 <= i < |targets| && targets[i] == r;
    assert Keyed(targets, rulings)[targets[i]] == rulings[i];
  }

  /** The rulings read from the stream are the recorded decisions, each with a matching authority. */
  lemma RulingsMatch(ledger: Ledger, rulings: seq<Ruling>)
    requires ledger.decisions == Records(rulings) && Distinct(Targets(ledger.decisions))
    requires forall i :: 0 <= i < |rulings| ==> AuthorityMatches(rulings[i])
    ensures DecisionsMatch(DecisionMap(ledger.decisions), Keyed(RulingTargets(rulings), rulings))
    ensures forall r :: r in DecisionMap(ledger.decisions) ==>
      r in Keyed(RulingTargets(rulings), rulings) && AuthorityMatches(Keyed(RulingTargets(rulings), rulings)[r])
  {
    var targets := RulingTargets(rulings);
    KeyedExact(targets, rulings);
    KeyedExact(targets, Records(rulings));
    forall r | r in targets
      ensures Keyed(targets, Records(rulings))[r] == Keyed(targets, rulings)[r].record
      ensures AuthorityMatches(Keyed(targets, rulings)[r])
    {
      RulingMatches(targets, rulings, r);
    }
    assert Keyed(targets, rulings).Keys == Keyed(targets, Records(rulings)).Keys;
  }

  // ---------------------------------------------------------------- ordering

  lemma {:induction false} StreamOrderIsSorted(stream: seq<Event>)
    requires forall i :: 0 <= i < |stream| ==> stream[i].sequence == i + 1
    requires forall i :: 0 <= i < |stream| && stream[i].payload.ProposalBatch? ==>
      OrdinalsContiguous(stream[i].payload.proposals)
    ensures InOrder(Before, ProposalOrder(stream))
    ensures forall i :: 0 <= i < |ProposalOrder(stream)| ==> ProposalOrder(stream)[i].sequence <= |stream|
    decreases |stream|
  {
    if stream != [] {
      var n := |stream| - 1;
      StreamOrderIsSorted(stream[..n]);
    }
  }

  lemma LastIsNumbered(stream: seq<Event>)
    requires stream != [] && Replay(stream).Some?
    ensures stream[|stream| - 1].sequence == |stream| && Replay(stream[..|stream| - 1]).Some?
  {
  }

  lemma {:induction false} EachIsNumbered(stream: seq<Event>, i: nat)
    requires Replay(stream).Some? && i < |stream|
    ensures stream[i].sequence == i + 1
    decreases |stream|
  {
    LastIsNumbered(stream);
    if i < |stream| - 1 {
      EachIsNumbered(stream[..|stream| - 1], i);
    }
  }

  lemma ReplayIsContiguous(stream: seq<Event>)
    requires Replay(stream).Some?
    ensures forall i :: 0 <= i < |stream| ==> stream[i].sequence == i + 1
  {
    forall i: nat | i < |stream| ensures stream[i].sequence == i + 1 {
      EachIsNumbered(stream, i);
    }
  }

  // ------------------------------------------------------------------- rows

  ghost predicate SlotPasses(ledger: Ledger, rulings: map<RevisionId, Ruling>, slot: Slot) {
    && SlotStored(slot, ledger)
    && TerminalState(ledger.revisions[slot.proposal.revision].status,
      Find(DecisionMap(ledger.decisions), slot.proposal.revision))
    && (slot.proposal.revision in DecisionMap(ledger.decisions) ==>
          slot.proposal.revision in rulings && AuthorityMatches(rulings[slot.proposal.revision]))
  }

  ghost predicate SlotsLinked(ledger: Ledger, links: set<Provenance>, slots: seq<Slot>) {
    forall i :: 0 <= i < |slots| ==>
      slots[i].proposal.revision in ledger.revisions && ledger.revisions[slots[i].proposal.revision].provenance in links
  }

  lemma {:induction false} RenderExact(
    ledger: Ledger, rulings: map<RevisionId, Ruling>, links: set<Provenance>, seen: set<RevisionId>, slots: seq<Slot>)
    requires forall i :: 0 <= i < |slots| ==>
      SlotPasses(ledger, rulings, slots[i]) && slots[i].proposal.revision !in seen
    requires forall i, j :: 0 <= i < j < |slots| ==> slots[i].proposal.revision != slots[j].proposal.revision
    ensures Render(ledger, rulings, links, seen, slots).Some? <==> SlotsLinked(ledger, links, slots)
    ensures Render(ledger, rulings, links, seen, slots).Some? ==>
      var rows := Render(ledger, rulings, links, seen, slots).value;
      |rows| == |slots| && forall i :: 0 <= i < |rows| ==>
        SlotStored(slots[i], ledger) && rows[i] == RowOf(ledger, rulings, slots[i])
    decreases |slots|
  {
    if slots != [] {
      var first, rest := slots[0], slots[1..];
      assert SlotPasses(ledger, rulings, first);
      assert forall i :: 0 <= i < |rest| ==> rest[i] == slots[i + 1];
      RenderExact(ledger, rulings, links, seen + {first.proposal.revision}, rest);
      assert SlotsLinked(ledger, links, slots) <==>
        SlotsLinked(ledger, links, rest) && ledger.revisions[first.proposal.revision].provenance in links by {
        assert forall i :: 0 < i < |slots| ==> slots[i] == rest[i - 1];
      }
    }
  }

  // ------------------------------------------------------------ main results

  lemma SlotsCover(slots: seq<Slot>, ledger: Ledger, r: RevisionId)
    requires SlotsStored(slots, ledger) && r in ledger.revisions
    ensures exists i :: 0 <= i < |slots| && slots[i].proposal.revision == r
  {
    var ids := seq(|slots|, i requires 0 <= i < |slots| => slots[i].proposal.revision);
    forall i | 0 <= i < |ids| ensures ids[i] in ledger.revisions.Keys {
      assert SlotStored(slots[i], ledger);
    }
    DistinctCovers(ids, ledger.revisions.Keys);
    var i :| 0 <= i < |ids| && ids[i] == r;
    assert slots[i].proposal.revision == r;
  }

  /** Every link and read dependency an exported revision needs is present. */
  ghost predicate AllLinked(ledger: Ledger, links: set<Provenance>) {
    forall r :: r in ledger.revisions ==> ledger.revisions[r].provenance in links
  }

  lemma LinkedIsAllLinked(slots: seq<Slot>, ledger: Ledger, links: set<Provenance>)
    requires SlotsStored(slots, ledger)
    ensures SlotsLinked(ledger, links, slots) <==> AllLinked(ledger, links)
  {
    if SlotsLinked(ledger, links, slots) {
      forall r | r in ledger.revisions ensures ledger.revisions[r].provenance in links {
        SlotsCover(slots, ledger, r);
        var i :| 0 <= i < |slots| && slots[i].proposal.revision == r;
      }
    }
    if AllLinked(ledger, links) {
      forall i | 0 <= i < |slots| ensures slots[i].proposal.revision in ledger.revisions {
        assert SlotStored(slots[i], ledger);
      }
    }
  }

  /** The decision shown is what the decision event of the revision says, under the actor of that event. */
  ghost predicate ShowsEvent(shown: RowDecision, e: Event, r: RevisionId) {
    && e.payload.Decision? && e.payload.revision == r
    && shown.authority == e.actor
    && shown.verdict == e.payload.verdict && shown.supersedes == e.payload.supersedes
    && shown.receipt == e.payload.receipt
  }

  ghost predicate DecidedAt(stream: seq<Event>, i: int, r: RevisionId)
    requires 0 <= i < |stream|
  {
    stream[i].payload.Decision? && stream[i].payload.revision == r
  }

  ghost predicate NeverDecided(stream: seq<Event>, r: RevisionId) {
    forall i :: 0 <= i < |stream| ==> !DecidedAt(stream, i, r)
  }

  /** A row shows no decision exactly when the stream has none on its revision; a human's has no receipt, a service's
      has one. */
  ghost predicate RowDecisionFor(shown: Option<RowDecision>, stream: seq<Event>, r: RevisionId) {
    && (shown.None? ==> NeverDecided(stream, r))
    && (shown.Some? ==>
          && shown.value.authority == (if shown.value.receipt.Some? then Service else Human)
          && exists i :: 0 <= i < |stream| && ShowsEvent(shown.value, stream[i], r))
  }

  lemma {:induction false} RulingIsEvent(stream: seq<Event>, k: int) returns (i: int)
    requires 0 <= k < |RulingsIn(stream)|
    ensures 0 <= i < |stream| && stream[i].payload.Decision? && RulingsIn(stream)[k] == RulingOf(stream[i])
    decreases |stream|
  {
    var n := |stream| - 1;
    if k < |RulingsIn(stream[..n])| {
      i := RulingIsEvent(stream[..n], k);
    } else {
      i := n;
    }
  }

  lemma {:induction false} EventIsRuling(stream: seq<Event>, i: int) returns (k: int)
    requires 0 <= i < |stream| && stream[i].payload.Decision?
    ensures 0 <= k < |RulingsIn(stream)| && RulingsIn(stream)[k] == RulingOf(stream[i])
    decreases |stream|
  {
    var n := |stream| - 1;
    if i < n {
      k := EventIsRuling(stream[..n], i);
    } else {
      k := |RulingsIn(stream[..n])|;
    }
  }

  ghost predicate RuledBy(stream: seq<Event>, ruling: Ruling, r: RevisionId) {
    exists i :: 0 <= i < |stream| && DecidedAt(stream, i, r) && ruling == RulingOf(stream[i])
  }

  lemma IndexedIsDecided(stream: seq<Event>, rulings: seq<Ruling>, targets: seq<RevisionId>, r: RevisionId)
    requires rulings == RulingsIn(stream) && targets == RulingTargets(rulings) && Distinct(targets) && r in targets
    ensures r in Keyed(targets, rulings) && RuledBy(stream, Keyed(targets, rulings)[r], r)
  {
    KeyedExact(targets, rulings);
    var k :| 0 <= k < |targets| && targets[k] == r;
    var i := RulingIsEvent(stream, k);
    assert Keyed(targets, rulings)[targets[k]] == rulings[k];
    assert DecidedAt(stream, i, r);
  }

  lemma DecidedIsIndexed(stream: seq<Event>, targets: seq<RevisionId>, i: int, r: RevisionId)
    requires targets == RulingTargets(RulingsIn(stream)) && 0 <= i < |stream| && DecidedAt(stream, i, r)
    ensures r in targets
  {
    var k := EventIsRuling(stream, i);
    assert targets[k] == r;
  }

  lemma UnlistedIsNeverDecided(stream: seq<Event>, targets: seq<RevisionId>, r: RevisionId)
    requires targets == RulingTargets(RulingsIn(stream)) && r !in targets
    ensures NeverDecided(stream, r)
  {
    forall i | 0 <= i < |stream| ensures !DecidedAt(stream, i, r) {
      if DecidedAt(stream, i, r) {
        DecidedIsIndexed(stream, targets, i, r);
      }
    }
  }

  /** The index of a stream's rulings holds exactly its decided revisions, each with the ruling of one event. */
  lemma RulingIndex(stream: seq<Event>, rulings: seq<Ruling>, targets: seq<RevisionId>, r: RevisionId)
    requires rulings == RulingsIn(stream) && targets == RulingTargets(rulings) && Distinct(targets)
    ensures if r in Keyed(targets, rulings) then RuledBy(stream, Keyed(targets, rulings)[r], r)
            else NeverDecided(stream, r)
  {
    KeyedExact(targets, rulings);
    if r in targets {
      IndexedIsDecided(stream, rulings, targets, r);
    } else {
      UnlistedIsNeverDecided(stream, targets, r);
    }
  }

  /** The decision that a row of `r` shows. */
  function ShownOf(ledger: Ledger, rulings: map<RevisionId, Ruling>, r: RevisionId): Option<RowDecision> {
    var index := DecisionMap(ledger.decisions);
    if r in index && r in rulings
    then Some(RowDecision(rulings[r].actor, index[r].verdict, index[r].supersedes, index[r].receipt)) else None
  }

  lemma RowDecisionExact(stream: seq<Event>, ledger: Ledger, r: RevisionId)
    requires Distinct(RulingTargets(RulingsIn(stream)))
    requires var rulings := Keyed(RulingTargets(RulingsIn(stream)), RulingsIn(stream));
      && DecisionsMatch(DecisionMap(ledger.decisions), rulings)
      && (r in DecisionMap(ledger.decisions) ==> AuthorityMatches(rulings[r]))
    ensures RowDecisionFor(ShownOf(ledger, Keyed(RulingTargets(RulingsIn(stream)), RulingsIn(stream)), r), stream, r)
  {
    var rulings := Keyed(RulingTargets(RulingsIn(stream)), RulingsIn(stream));
    RulingIndex(stream, RulingsIn(stream), RulingTargets(RulingsIn(stream)), r);
    var shown := ShownOf(ledger, rulings, r);
    if shown.Some? {
      var i :| 0 <= i < |stream| && DecidedAt(stream, i, r) && rulings[r] == RulingOf(stream[i]);
      assert ShowsEvent(shown.value, stream[i], r);
    }
  }

  /** A row repeats the stored revision, at the place its proposal has in the stream. */
  ghost predicate RowFor(row: Row, stream: seq<Event>, ledger: Ledger, slot: Slot) {
    && row.revision == slot.proposal.revision
    && row.revision in ledger.revisions
    && var v := ledger.revisions[row.revision];
    && row.artifact == v.artifact && row.batch == v.batch && row.ordinal == v.ordinal && row.kind == v.kind
    && row.status == v.status && row.prior == v.prior && row.parent == v.parent
    && row.content == v.content && row.provenance == v.provenance
    && v.batch in ledger.batches && row.session == ledger.batches[v.batch].session &&
      row.origin == ledger.batches[v.batch].origin
    && RowDecisionFor(row.decision, stream, row.revision)
  }

  ghost predicate RowsFor(rows: seq<Row>, stream: seq<Event>, ledger: Ledger, slots: seq<Slot>) {
    |rows| == |slots| && forall i :: 0 <= i < |rows| ==> RowFor(rows[i], stream, ledger, slots[i])
  }

  lemma RowExact(stream: seq<Event>, ledger: Ledger, slot: Slot)
    requires SlotStored(slot, ledger) && Distinct(RulingTargets(RulingsIn(stream)))
    requires var rulings := Keyed(RulingTargets(RulingsIn(stream)), RulingsIn(stream));
      && DecisionsMatch(DecisionMap(ledger.decisions), rulings)
      && forall r :: r in DecisionMap(ledger.decisions) ==> AuthorityMatches(rulings[r])
    ensures RowFor(RowOf(ledger, Keyed(RulingTargets(RulingsIn(stream)), RulingsIn(stream)), slot), stream, ledger,
      slot)
  {
    RowDecisionExact(stream, ledger, slot.proposal.revision);
  }

  lemma RowsExact(stream: seq<Event>, ledger: Ledger, links: set<Provenance>, slots: seq<Slot>)
    requires DecisionsAgree(ledger.decisions, ledger.revisions) && SlotsStored(slots, ledger)
    requires Distinct(RulingTargets(RulingsIn(stream)))
    requires var rulings := Keyed(RulingTargets(RulingsIn(stream)), RulingsIn(stream));
      && DecisionsMatch(DecisionMap(ledger.decisions), rulings)
      && forall r :: r in DecisionMap(ledger.decisions) ==> r in rulings && AuthorityMatches(rulings[r])
    ensures var rows := Render(ledger, Keyed(RulingTargets(RulingsIn(stream)), RulingsIn(stream)), links, {}, slots);
      && (rows.Some? <==> AllLinked(ledger, links))
      && (rows.Some? ==> RowsFor(rows.value, stream, ledger, slots))
  {
    var rulings := Keyed(RulingTargets(RulingsIn(stream)), RulingsIn(stream));
    forall i | 0 <= i < |slots| ensures SlotPasses(ledger, rulings, slots[i]) {
      assert SlotStored(slots[i], ledger);
      StatusesAreTerminal(ledger, slots[i].proposal.revision);
    }
    RenderExact(ledger, rulings, links, {}, slots);
    LinkedIsAllLinked(slots, ledger, links);
    forall i | 0 <= i < |slots|
      ensures SlotStored(slots[i], ledger) && RowFor(RowOf(ledger, rulings, slots[i]), stream, ledger, slots[i])
    {
      RowExact(stream, ledger, slots[i]);
    }
  }

  /** Given a ledger that traces its stream, the export fails only on a missing link. */
  lemma TracedExport(stream: seq<Event>, ledger: Ledger, links: set<Provenance>)
    requires Traced(stream, ledger) && DecisionsAgree(ledger.decisions, ledger.revisions)
    requires InOrder(Before, ProposalOrder(stream))
    ensures ArtifactRows(stream, ledger, links).Some? <==> AllLinked(ledger, links)
    ensures ArtifactRows(stream, ledger, links).Some? ==>
      RowsFor(ArtifactRows(stream, ledger, links).value, stream, ledger, ProposalOrder(stream))
  {
    DecisionIndex(ledger);
    ScanSucceeds(ledger, stream);
    RulingsMatch(ledger, RulingsIn(stream));
    SupersededSetsAgree(ledger);
    SortedIsFixed(Before, ProposalOrder(stream));
    RowsExact(stream, ledger, links, ProposalOrder(stream));
  }

  lemma TracedIsOrdered(stream: seq<Event>, ledger: Ledger)
    requires Traced(stream, ledger)
    requires forall i :: 0 <= i < |stream| ==> stream[i].sequence == i + 1
    ensures InOrder(Before, ProposalOrder(stream))
  {
    forall i | 0 <= i < |stream| &&
      stream[i].payload.ProposalBatch? ensures OrdinalsContiguous(stream[i].payload.proposals) {
      assert EventStored(stream[i], ledger);
    }
    StreamOrderIsSorted(stream);
  }

  /** For every stream that replays: the export succeeds exactly when all links resolve, and then it emits one
      row per revision, each equal to the stored revision and with the decision event on it, in stream order (the sort
      moves nothing). */
  lemma ExportAgrees(stream: seq<Event>, links: set<Provenance>)
    requires Replay(stream).Some?
    ensures var ledger := Replay(stream).value.ledger;
      && (ArtifactRows(stream, ledger, links).Some? <==> AllLinked(ledger, links))
      && SlotsStored(ProposalOrder(stream), ledger)
      && Sort(Before, ProposalOrder(stream)) == ProposalOrder(stream)
      && (ArtifactRows(stream, ledger, links).Some? ==>
        RowsFor(ArtifactRows(stream, ledger, links).value, stream, ledger, ProposalOrder(stream)))
  {
    ReplayKeepsLedger(stream);
    ReplayIsTraced(stream);
    ReplayIsContiguous(stream);
    TracedIsOrdered(stream, Replay(stream).value.ledger);
    SortedIsFixed(Before, ProposalOrder(stream));
    TracedExport(stream, Replay(stream).value.ledger, links);
  }
}
