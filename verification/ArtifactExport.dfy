/** Export v2: artifact rows re-derived from the raw stream and cross-checked against the snapshot. */
module ArtifactExport {
  import opened Domain
  import opened ArtifactLedger
  import opened ArtifactInvariants
  import opened Collections

  /** One proposal in the stream, with the envelope facts a row needs. */
  datatype Slot = Slot(sequence: int, batch: BatchId, origin: Origin, proof: bool, proposal: Recorded)
  datatype Ruling = Ruling(record: DecisionRecord, actor: Principal)
  datatype Scan = Scan(order: seq<Slot>, rulings: map<RevisionId, Ruling>)

  datatype RowDecision = RowDecision(authority: Principal, verdict: Verdict, supersedes: Option<RevisionId>,
    receipt: Option<Receipt>)
  datatype Row = Row(
    artifact: ArtifactId, revision: RevisionId, batch: BatchId, session: SessionId, ordinal: int, kind: Kind,
    origin: Origin, status: Status, prior: Option<RevisionId>, parent: Option<ArtifactId>, content: Content,
    provenance: Provenance, decision: Option<RowDecision>)

  // ------------------------------------------------------------ reading the stream

  function SlotsOf(e: Event): seq<Slot>
    requires e.payload.ProposalBatch?
  {
    var p := e.payload;
    seq(|p.proposals|, i requires 0 <= i < |p.proposals| =>
      Slot(e.sequence, p.batch, p.origin, p.proof, p.proposals[i]))
  }

  function RulingOf(e: Event): Ruling
    requires e.payload.Decision?
  {
    Ruling(DecisionRecord(e.payload.revision, e.payload.verdict, e.payload.supersedes, e.payload.receipt), e.actor)
  }

  predicate BatchMatches(ledger: Ledger, e: Event)
    requires e.payload.ProposalBatch?
  {
    var p := e.payload;
    && BatchDecodes(e)
    && p.batch in ledger.batches
    && ledger.batches[p.batch].origin == p.origin
    && ledger.batches[p.batch].session == e.session
    && ledger.batches[p.batch].run == p.run
    && ledger.batches[p.batch].revisions == RevisionIds(p.proposals)
  }

  function ScanOne(ledger: Ledger, scan: Scan, e: Event): Option<Scan> {
    match e.payload
    case ProposalBatch(_, _, _, _, _, _) =>
      if BatchMatches(ledger, e) then Some(scan.(order := scan.order + SlotsOf(e))) else None
    case Decision(r, _, _, _, _) =>
      if DecisionDecodes(e) && r !in scan.rulings then Some(scan.(rulings := scan.rulings[r := RulingOf(e)])) else None
    case _ => Some(scan)
  }

  function ScanAll(ledger: Ledger, stream: seq<Event>): Option<Scan>
    decreases |stream|
  {
    if stream == [] then Some(Scan([], map[]))
    else
      var n := |stream| - 1;
      match ScanAll(ledger, stream[..n])
      case None => None
      case Some(scan) => ScanOne(ledger, scan, stream[n])
  }

  lemma {:induction false} ScanPrefix(ledger: Ledger, stream: seq<Event>, n: nat)
    requires n <= |stream| && ScanAll(ledger, stream).Some?
    ensures ScanAll(ledger, stream[..n]).Some?
    decreases |stream|
  {
    if n < |stream| {
      assert stream[..|stream| - 1][..n] == stream[..n];
      ScanPrefix(ledger, stream[..|stream| - 1], n);
    } else {
      assert stream[..n] == stream;
    }
  }

  // ---------------------------------------------------------- cross-checks

  /** Decisions by revision; a later entry for the same revision would replace an earlier one. */
  function DecisionMap(decisions: seq<DecisionRecord>): map<RevisionId, DecisionRecord> {
    Keyed(Targets(decisions), decisions)
  }

  function NamedSuperseded(decisions: map<RevisionId, DecisionRecord>): set<RevisionId> {
    set r | r in decisions && decisions[r].supersedes.Some? :: decisions[r].supersedes.value
  }

  function StoredSuperseded(revisions: map<RevisionId, Revision>): set<RevisionId> {
    set r | r in revisions && revisions[r].status == Superseded
  }

  predicate DecisionsMatch(decisions: map<RevisionId, DecisionRecord>, rulings: map<RevisionId, Ruling>) {
    && rulings.Keys == decisions.Keys
    && forall r :: r in decisions ==> decisions[r] == rulings[r].record.(revision := decisions[r].revision)
  }

  predicate TerminalState(status: Status, decision: Option<DecisionRecord>) {
    match status
    case Proposed => decision.None?
    case Rejected => decision.Some? && decision.value.verdict == Reject
    case _ => decision.Some? && decision.value.verdict == Accept
  }

  predicate AuthorityMatches(ruling: Ruling) {
    ruling.actor != Model && (ruling.actor == Service <==> ruling.record.receipt.Some?)
  }

  // ------------------------------------------------------------------ rows

  function Find(decisions: map<RevisionId, DecisionRecord>, r: RevisionId): Option<DecisionRecord> {
    if r in decisions then Some(decisions[r]) else None
  }

  predicate SlotMatches(slot: Slot, revision: Revision) {
    revision.(status := Proposed) == RecordOf(slot.batch, slot.proposal)
  }

  /** Every check made on one proposal before its row is written. */
  predicate SlotOk(
    ledger: Ledger, rulings: map<RevisionId, Ruling>, links: set<Provenance>, seen: set<RevisionId>, slot: Slot) {
    var r := slot.proposal.revision;
    && r in ledger.revisions && r !in seen
    && SlotMatches(slot, ledger.revisions[r])
    && slot.batch in ledger.batches
    && ledger.revisions[r].provenance in links
    && TerminalState(ledger.revisions[r].status, Find(DecisionMap(ledger.decisions), r))
    && (slot.origin == GeneratedOrigin ==> slot.proof)
    && (r in DecisionMap(ledger.decisions) ==> r in rulings && AuthorityMatches(rulings[r]))
  }

  function RowOf(ledger: Ledger, rulings: map<RevisionId, Ruling>, slot: Slot): Row
    requires slot.proposal.revision in ledger.revisions && slot.batch in ledger.batches
  {
    var r := slot.proposal.revision;
    var v := ledger.revisions[r];
    Row(v.artifact, r, v.batch, ledger.batches[slot.batch].session, v.ordinal, v.kind, slot.origin, v.status, v.prior,
      v.parent,
        v.content, v.provenance,
        if r in DecisionMap(ledger.decisions) && r in rulings
        then Some(RowDecision(rulings[r].actor, DecisionMap(ledger.decisions)[r].verdict,
          DecisionMap(ledger.decisions)[r].supersedes,
                              DecisionMap(ledger.decisions)[r].receipt))
        else None)
  }

  function Render(
    ledger: Ledger, rulings: map<RevisionId, Ruling>, links: set<Provenance>, seen: set<RevisionId>,
      slots: seq<Slot>): Option<seq<Row>>
    decreases |slots|
  {
    if slots == [] then Some([])
    else if !SlotOk(ledger, rulings, links, seen, slots[0]) then None
    else match Render(ledger, rulings, links, seen + {slots[0].proposal.revision}, slots[1..])
      case None => None
      case Some(rows) => Some([RowOf(ledger, rulings, slots[0])] + rows)
  }

  /** Rows are sorted by sequence, then ordinal. */
  predicate Before(x: Slot, y: Slot) {
    x.sequence < y.sequence || (x.sequence == y.sequence && x.proposal.ordinal <= y.proposal.ordinal)
  }

  predicate DecisionsUnique(decisions: seq<DecisionRecord>) {
    |DecisionMap(decisions)| == |decisions|
  }

  /** The whole export; `None` is an export error. */
  function ArtifactRows(stream: seq<Event>, ledger: Ledger, links: set<Provenance>): Option<seq<Row>> {
    if !DecisionsUnique(ledger.decisions) then None
    else match ScanAll(ledger, stream)
      case None => None
      case Some(scan) =>
        if |scan.order| != |ledger.revisions| then None
        else if !DecisionsMatch(DecisionMap(ledger.decisions), scan.rulings) then None
        else if NamedSuperseded(DecisionMap(ledger.decisions)) != StoredSuperseded(ledger.revisions) then None
        else Render(ledger, scan.rulings, links, {}, Sort(Before, scan.order))
  }

  /** The stream loop: it stops at the first event that disagrees with the snapshot. */
  method ScanLoop(ledger: Ledger, stream: seq<Event>) returns (r: Option<Scan>)
    ensures r == ScanAll(ledger, stream)
  {
    var scan, i := Scan([], map[]), 0;
    while i < |stream|
      invariant 0 <= i <= |stream|
      invariant ScanAll(ledger, stream[..i]) == Some(scan)
    {
      var next := ScanOne(ledger, scan, stream[i]);
      assert stream[..i + 1][..i] == stream[..i] && stream[..i + 1][i] == stream[i];
      if next.None? {
        if ScanAll(ledger, stream).Some? { ScanPrefix(ledger, stream, i + 1); }
        return None;
      }
      scan, i := next.value, i + 1;
    }
    assert stream[..i] == stream;
    r := Some(scan);
  }

  /** The row loop over proposals already in order. */
  method RenderLoop(
    ledger: Ledger, rulings: map<RevisionId, Ruling>, links: set<Provenance>, slots: seq<Slot>)
    returns (r: Option<seq<Row>>)
    ensures r == Render(ledger, rulings, links, {}, slots)
  {
    ghost var whole := Render(ledger, rulings, links, {}, slots);
    var rows: seq<Row>, seen: set<RevisionId> := [], {};
    var k := 0;
    assert slots[0..] == slots && (whole.Some? ==> [] + whole.value == whole.value);
    while k < |slots|
      invariant 0 <= k <= |slots|
      invariant var rest := Render(ledger, rulings, links, seen, slots[k..]);
        whole == if rest.None? then None else Some(rows + rest.value)
    {
      assert slots[k..][0] == slots[k] && slots[k..][1..] == slots[k + 1..];
      if !SlotOk(ledger, rulings, links, seen, slots[k]) {
        return None;
      }
      var row, id := RowOf(ledger, rulings, slots[k]), slots[k].proposal.revision;
      ghost var rest := Render(ledger, rulings, links, seen + {id}, slots[k + 1..]);
      assert rest.Some? ==> rows + ([row] + rest.value) == rows + [row] + rest.value;
      rows, seen, k := rows + [row], seen + {id}, k + 1;
    }
    assert slots[k..] == [] && rows + [] == rows;
    r := Some(rows);
  }

  /** The export as the loops it is. */
  method ArtifactRowsLoop(stream: seq<Event>, ledger: Ledger, links: set<Provenance>) returns (r: Option<seq<Row>>)
    ensures r == ArtifactRows(stream, ledger, links)
  {
    var decisions := DecisionMap(ledger.decisions);
    if |decisions| != |ledger.decisions| {
      return None;
    }
    var scan := ScanLoop(ledger, stream);
    if scan.None? || |scan.value.order| != |ledger.revisions| || !DecisionsMatch(decisions, scan.value.rulings)
       || NamedSuperseded(decisions) != StoredSuperseded(ledger.revisions) {
      return None;
    }
    r := RenderLoop(ledger, scan.value.rulings, links, Sort(Before, scan.value.order));
  }
}
