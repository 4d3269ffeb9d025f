/** The artifact lifecycle ledger: decoders' guards and the two reducers. */
module ArtifactLedger {
  import opened Domain

  datatype Status = Proposed | Accepted | Rejected | Superseded

  datatype Artifact = Artifact(kind: Kind, parent: Option<ArtifactId>, history: seq<RevisionId>, head: RevisionId)

  datatype Revision = Revision(
    artifact: ArtifactId, batch: BatchId, ordinal: int, kind: Kind, status: Status, content: Content,
    provenance: Provenance, prior: Option<RevisionId>, parent: Option<ArtifactId>)

  datatype Batch = Batch(session: SessionId, origin: Origin, revisions: seq<RevisionId>, run: Option<RunId>)

  datatype DecisionRecord = DecisionRecord(
    revision: RevisionId, verdict: Verdict, supersedes: Option<RevisionId>, receipt: Option<Receipt>)

  datatype Ledger = Ledger(
    artifacts: map<ArtifactId, Artifact>,
    revisions: map<RevisionId, Revision>,
    batches: map<BatchId, Batch>,
    decisions: seq<DecisionRecord>,
    commands: map<EventId, Fingerprint>)

  const EMPTY_LEDGER := Ledger(map[], map[], map[], [], map[])

  // --------------------------------------------------------------- decoding

  predicate ProvenanceMatchesOrigin(origin: Origin, provenance: Provenance) {
    if origin == GeneratedOrigin then provenance.Generated? else provenance.HumanAuthored?
  }

  predicate BatchIdentity(session: SessionId, payload: Payload)
    requires payload.ProposalBatch?
  {
    match payload.origin
    case GeneratedOrigin =>
      payload.run.Some? && payload.batch == GeneratedBatch(session, payload.run.value, payload.key)
    case HumanOrigin =>
      && |payload.proposals| == 1
      && payload.proposals[0].provenance.HumanAuthored?
      && payload.batch == HumanBatch(session, payload.proposals[0].provenance.interaction, payload.key)
  }

  predicate ProposalIdentity(batch: BatchId, p: Recorded) {
    && ContentDecodes(p.content)
    && (p.prior.None? ==> p.artifact == ArtifactId(batch, p.ordinal))
    && Coherent(p.kind, p.content, p.provenance, p.prior)
    && p.revision == RevisionId(p.artifact, p.kind, p.content, p.provenance, p.prior)
  }

  predicate ArtifactsDistinct(proposals: seq<Recorded>) {
    forall i, j :: 0 <= i < j < |proposals| ==> proposals[i].artifact != proposals[j].artifact
  }

  predicate OrdinalsContiguous(proposals: seq<Recorded>) {
    forall i :: 0 <= i < |proposals| ==> proposals[i].ordinal == i
  }

  predicate BatchDecodes(e: Event)
    requires e.payload.ProposalBatch?
  {
    var p := e.payload;
    && e.sequence >= 2
    && e.id == ArtifactEventId(e.session, p.key, ProposalCommand)
    && (if p.origin == GeneratedOrigin
        then e.actor == Service && p.run.Some? && p.proof
        else e.actor == Human && p.run.None? && !p.proof)
    && (forall i :: 0 <= i < |p.proposals| ==> ProvenanceMatchesOrigin(p.origin, p.proposals[i].provenance))
    && 1 <= |p.proposals| <= 24
    && OrdinalsContiguous(p.proposals)
    && ArtifactsDistinct(p.proposals)
    && BatchIdentity(e.session, p)
    && (forall i :: 0 <= i < |p.proposals| ==> ProposalIdentity(p.batch, p.proposals[i]))
  }

  predicate DecisionDecodes(e: Event)
    requires e.payload.Decision?
  {
    var p := e.payload;
    && e.sequence >= 2
    && e.id == ArtifactEventId(e.session, p.key, DecisionCommand)
    && (match e.actor
        case Human => p.receipt.None?
        case Service =>
          && p.receipt.Some?
          && p.receipt.value.requestId == e.id
          && p.receipt.value.verdict == p.verdict
          && p.receipt.value.supersedes == p.supersedes
        case Model => false)
    && (p.verdict == Reject ==> p.supersedes.None?)
  }

  // --------------------------------------------------- proposals, one by one

  /** The working maps of the proposal loop. */
  datatype Fold = Fold(
    artifacts: map<ArtifactId, Artifact>,
    revisions: map<RevisionId, Revision>,
    resolved: map<int, ArtifactId>,
    ids: seq<RevisionId>)

  /** What the loop reads besides the working maps. */
  datatype Scope = Scope(world: World, session: SessionId, batch: BatchId, run: Option<RunId>)

  predicate Admitted(scope: Scope, p: Recorded) {
    && KindOf(p.content) == p.kind
    && (scope.session, p.provenance) in scope.world.grounded
    && (p.provenance.Generated? ==> scope.run == Some(p.provenance.run))
  }

  function Lookup(resolved: map<int, ArtifactId>, ordinal: int): Option<ArtifactId> {
    if ordinal in resolved then Some(resolved[ordinal]) else None
  }

  datatype Place = Place(prior: Option<RevisionId>, history: seq<RevisionId>, parent: Option<ArtifactId>)

  /** A new artifact: its parent ordinal must resolve to an earlier proposal of the batch. */
  function PlaceNew(fold: Fold, p: Recorded): Option<Place> {
    var parent := ParentOrdinal(p.content);
    var resolved := if parent.Some? then Lookup(fold.resolved, parent.value) else None;
    if p.prior.Some? then None
    else if parent.Some? && (parent.value >= p.ordinal || resolved.None?) then None
    else if p.parent != resolved then None
    else Some(Place(None, [], resolved))
  }

  /** A revision: same kind, prior is the head, durable parent unchanged.  When the content names a parent
      ordinal, the recorded parent is compared as text, and the text of an absent parent equals no parent. */
  function PlaceRevision(fold: Fold, a: Artifact, p: Recorded): Option<Place> {
    var parent := ParentOrdinal(p.content);
    if a.kind != p.kind then None
    else if p.prior != Some(a.head) || p.provenance.prior != Some(a.head) then None
    else if parent.Some? && (Lookup(fold.resolved, parent.value) != a.parent || a.parent.None? || p.parent != a.parent)
      then None
    else if parent.None? && p.parent != a.parent then None
    else Some(Place(Some(a.head), a.history, a.parent))
  }

  function PlaceOf(fold: Fold, p: Recorded): Option<Place> {
    if p.artifact in fold.artifacts then PlaceRevision(fold, fold.artifacts[p.artifact], p) else PlaceNew(fold, p)
  }

  function ProposeOne(scope: Scope, fold: Fold, p: Recorded): Option<Fold> {
    if !Admitted(scope, p) then None
    else match PlaceOf(fold, p)
      case None => None
      case Some(place) =>
        var id := RevisionId(p.artifact, p.kind, p.content, p.provenance, place.prior);
        if !Coherent(p.kind, p.content, p.provenance, place.prior) || p.revision != id || id in fold.revisions then None
        else
          Some(Fold(
                 fold.artifacts[p.artifact := Artifact(p.kind, place.parent, place.history + [id], id)],
                 fold.revisions[id := Revision(p.artifact, scope.batch, p.ordinal, p.kind, Proposed, p.content,
                                               p.provenance, place.prior, place.parent)],
                 fold.resolved[p.ordinal := p.artifact],
                 fold.ids + [id]))
  }

  function ProposeAll(scope: Scope, fold: Fold, proposals: seq<Recorded>): Option<Fold>
    decreases |proposals|
  {
    if proposals == [] then Some(fold)
    else match ProposeOne(scope, fold, proposals[0])
      case None => None
      case Some(next) => ProposeAll(scope, next, proposals[1..])
  }

  // ---------------------------------------------------------------- reducers

  function ScopeOf(world: World, e: Event): Scope
    requires e.payload.ProposalBatch?
  {
    Scope(world, e.session, e.payload.batch, e.payload.run)
  }

  predicate BatchOpens(ledger: Ledger, world: World, e: Event)
    requires e.payload.ProposalBatch?
  {
    && e.session in world.sessions
    && e.id !in ledger.commands
    && e.payload.batch !in ledger.batches
    && e.actor == (if e.payload.origin == GeneratedOrigin then Service else Human)
  }

  function CloseBatch(ledger: Ledger, e: Event, fold: Fold): Ledger
    requires e.payload.ProposalBatch?
  {
    Ledger(
      fold.artifacts,
      fold.revisions,
      ledger.batches[e.payload.batch := Batch(e.session, e.payload.origin, fold.ids, e.payload.run)],
      ledger.decisions,
      ledger.commands[e.id := FingerprintOf(e.payload)])
  }

  /** The proposal reducer; `None` is a refused event. */
  function ReduceBatch(ledger: Ledger, world: World, e: Event): Option<Ledger>
    requires e.payload.ProposalBatch?
  {
    if !BatchOpens(ledger, world, e) then None
    else match ProposeAll(ScopeOf(world, e), Fold(ledger.artifacts, ledger.revisions, map[], []), e.payload.proposals)
      case None => None
      case Some(fold) => Some(CloseBatch(ledger, e, fold))
  }

  /** The same reducer as the loop it is, updating copies of the artifact and revision maps. */
  method ReduceBatchLoop(ledger: Ledger, world: World, e: Event) returns (r: Option<Ledger>)
    requires e.payload.ProposalBatch?
    ensures r == ReduceBatch(ledger, world, e)
  {
    if !BatchOpens(ledger, world, e) {
      return None;
    }
    var scope := ScopeOf(world, e);
    var artifacts, revisions := ledger.artifacts, ledger.revisions;
    var resolved: map<int, ArtifactId>, ids: seq<RevisionId> := map[], [];
    var proposals := e.payload.proposals;
    ghost var whole := ProposeAll(scope, Fold(artifacts, revisions, resolved, ids), proposals);
    var i := 0;
    while i < |proposals|
      invariant 0 <= i <= |proposals|
      invariant ProposeAll(scope, Fold(artifacts, revisions, resolved, ids), proposals[i..]) == whole
    {
      var p := proposals[i];
      assert proposals[i..][0] == p && proposals[i..][1..] == proposals[i + 1..];
      var place := PlaceOf(Fold(artifacts, revisions, resolved, ids), p);
      if !Admitted(scope, p) || place.None? || !Coherent(p.kind, p.content, p.provenance, place.value.prior) {
        return None;
      }
      var id := RevisionId(p.artifact, p.kind, p.content, p.provenance, place.value.prior);
      if p.revision != id || id in revisions {
        return None;
      }
      revisions := revisions[id := Revision(p.artifact, scope.batch, p.ordinal, p.kind, Proposed, p.content,
                                            p.provenance, place.value.prior, place.value.parent)];
      artifacts := artifacts[p.artifact := Artifact(p.kind, place.value.parent, place.value.history + [id], id)];
      resolved := resolved[p.ordinal := p.artifact];
      ids := ids + [id];
      i := i + 1;
    }
    assert proposals[i..] == [];
    r := Some(CloseBatch(ledger, e, Fold(artifacts, revisions, resolved, ids)));
  }

  /** The accepted revisions of a history, in history order. */
  function AcceptedIn(history: seq<RevisionId>, revisions: map<RevisionId, Revision>): seq<RevisionId> {
    if history == [] then []
    else
      (if history[0] in revisions && revisions[history[0]].status == Accepted then [history[0]] else [])
      + AcceptedIn(history[1..], revisions)
  }

  /** `None` when the artifact is missing, a listed revision is missing, or more than one revision is accepted. */
  function CurrentAccepted(ledger: Ledger, artifact: ArtifactId): Option<Option<RevisionId>> {
    if artifact !in ledger.artifacts then None
    else
      var history := ledger.artifacts[artifact].history;
      var accepted := AcceptedIn(history, ledger.revisions);
      if (exists i :: 0 <= i < |history| && history[i] !in ledger.revisions) || |accepted| > 1 then None
      else Some(if accepted == [] then None else Some(accepted[0]))
  }

  function ResultOf(request: Request, verdict: Verdict, supersedes: Option<RevisionId>): ResultDigest {
    ResultDigest(request, verdict, supersedes)
  }

  /** The receipt answers exactly the request that canonical state poses. */
  predicate ReceiptBound(e: Event, target: Revision, current: Option<RevisionId>)
    requires e.payload.Decision? && e.payload.receipt.Some?
  {
    var p, receipt := e.payload, e.payload.receipt.value;
    var request := Request(e.id, e.session, p.revision, target.kind, current);
    && receipt.requestId == request.id
    && receipt.verdict == p.verdict
    && receipt.supersedes == p.supersedes
    && receipt.result == ResultOf(request, p.verdict, p.supersedes)
  }

  predicate DecisionOpens(ledger: Ledger, world: World, e: Event)
    requires e.payload.Decision?
  {
    var p := e.payload;
    && e.session in world.sessions
    && e.id !in ledger.commands
    && p.revision in ledger.revisions
    && ledger.revisions[p.revision].status == Proposed
    && ledger.revisions[p.revision].batch in ledger.batches
    && ledger.batches[ledger.revisions[p.revision].batch].session == e.session
    && (match e.actor case Human => p.receipt.None? case Service => p.receipt.Some? case Model => false)
  }

  function SetStatus(revisions: map<RevisionId, Revision>, id: RevisionId, status: Status): map<RevisionId, Revision> {
    if id in revisions then revisions[id := revisions[id].(status := status)] else revisions
  }

  function Decided(revisions: map<RevisionId, Revision>, p: Payload): map<RevisionId, Revision>
    requires p.Decision?
  {
    var released := if p.supersedes.Some? then SetStatus(revisions, p.supersedes.value, Superseded) else revisions;
    SetStatus(released, p.revision, if p.verdict == Accept then Accepted else Rejected)
  }

  /** The decision reducer; `None` is a refused event. */
  function ReduceDecision(ledger: Ledger, world: World, e: Event): Option<Ledger>
    requires e.payload.Decision?
  {
    var p := e.payload;
    if !DecisionOpens(ledger, world, e) then None
    else match CurrentAccepted(ledger, ledger.revisions[p.revision].artifact)
      case None => None
      case Some(current) =>
        if p.receipt.Some? && !ReceiptBound(e, ledger.revisions[p.revision], current) then None
        else if p.supersedes != (if p.verdict == Accept then current else None) then None
        else
          Some(ledger.(revisions := Decided(ledger.revisions, p),
                       decisions := ledger.decisions + [DecisionRecord(p.revision, p.verdict, p.supersedes, p.receipt)],
                       commands := ledger.commands[e.id := FingerprintOf(p)]))
  }
}
