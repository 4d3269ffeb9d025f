/** What the services commit, in every run: a committed event says what its command, the ledger and the book say, and a
    command commits only when it is eligible; what success and a taken identity mean for the recorded event. */
module CommandEvents {
  import opened Domain
  import opened ArtifactSnapshot
  import opened AssessmentLedger
  import opened ClosedGrading
  import opened Course
  import opened EventStore
  import opened Commands
  import opened CommandDrafts
  import opened ServiceProtocol
  import opened ServiceVerdicts
  import AI = AssessmentInvariants
  import ServiceRules

  // ------------------------------------------------------------------ the event

  /** The event that records the command on a state: identity, author and content. */
  ghost predicate EventSays(st: State, c: Command, e: Event) {
    && e.session == c.session && PayloadSays(st, c, e.payload)
    && match c
       case RecordGenerated(session, key, _, _) =>
         e.actor == Service && e.id == ArtifactEventId(session, key, ProposalCommand)
       case RecordHuman(session, key, _, _, _, _, _) =>
         e.actor == Human && e.id == ArtifactEventId(session, key, ProposalCommand)
       case DecideAsHuman(session, key, _, _, _) =>
         e.actor == Human && e.id == ArtifactEventId(session, key, DecisionCommand)
       case DecideAsService(session, key, _, _) =>
         e.actor == Service && e.id == ArtifactEventId(session, key, DecisionCommand)
       case Present(session, key, _) =>
         e.actor == Service && e.id == AssessmentEventId(session, key, PresentCommand)
       case Respond(session, key, _, _, _) =>
         e.actor == Human && e.id == AssessmentEventId(session, key, AttemptCommand)
       case GradeExact(session, key, _, _) =>
         e.actor == Service && e.id == AssessmentEventId(session, key, GradeCommand)
       case GradeVerified(session, key, _, _) =>
         e.actor == Service && e.id == AssessmentEventId(session, key, GradeCommand)
       case ContestGrade(session, key, _, _) =>
         e.actor == Human && e.id == AssessmentEventId(session, key, ContestCommand)
  }

  lemma EventForSays(st: State, c: Command, payload: Payload, n: nat)
    requires PayloadSays(st, c, payload)
    ensures EventSays(st, c, EventFor(c, payload, n))
  {
  }

  /** What a command needs on a store for its service to bring it to the append. */
  ghost predicate Eligible(store: Store, c: Command) {
    && !InStream(store.stream, IdOf(c))
    && (if IsArtifactCommand(c) then store.stream != [] else c.session in store.state.world.sessions)
    && Draftable(store.state, c)
    && (c.GradeExact? || c.GradeVerified? ==> MayGrade(store.state.book, c))
    && (c.RecordHuman? ==> (c.session, HumanItem(c).provenance) in store.state.world.grounded)
  }

  // ------------------------------------------------------- from checks to facts

  lemma ReceiptIsAnswer(st: State, c: Command, receipt: Option<Receipt>, listing: seq<Entry>, n: int)
    requires Sound(st, n) && Lists(listing, st.ledger.revisions)
    requires c.DecideAsService? && receipt.Some? && PolicyAnswered(c, st, receipt.value)
    ensures receipt == Consulted(c, View(st, listing)) && Draftable(st, c)
  {
    var other :| Lists(other, st.ledger.revisions) && Consulted(c, View(st, other)) == Some(receipt.value);
    ConsultsExactly(st, c, other);
    ConsultsExactly(st, c, listing);
  }

  /** Only a service decision reads the receipt. */
  lemma DraftIgnoresReceipt(c: Command, view: View, receipt: Option<Receipt>)
    requires !c.DecideAsService?
    ensures DraftFor(c, view, receipt) == DraftFor(c, view, None)
  {
  }

  /** Checked facts mean that the command is draftable and that its payload says what it must. */
  lemma ClearedSays(st: State, c: Command, receipt: Option<Receipt>, payload: Payload, n: int)
    requires Sound(st, n) && Cleared(st, c, receipt, payload)
    ensures Draftable(st, c) && PayloadSays(st, c, payload)
  {
    var listing :| Lists(listing, st.ledger.revisions) && DraftFor(c, View(st, listing), receipt) == Some(payload);
    if c.DecideAsService? {
      ReceiptIsAnswer(st, c, receipt, listing, n);
    } else {
      DraftIgnoresReceipt(c, View(st, listing), receipt);
    }
    DraftsExactly(st, c, listing, n);
  }

  lemma ClearedMayGrade(st: State, c: Command, receipt: Option<Receipt>, payload: Payload)
    requires Cleared(st, c, receipt, payload) && (c.GradeExact? || c.GradeVerified?)
    ensures MayGrade(st.book, c)
  {
    var listing :| GradeRules(c, View(st, listing));
    RulesExactly(c, View(st, listing));
  }

  lemma ClearedIsEligible(store: Store, c: Command, receipt: Option<Receipt>, payload: Payload)
    requires Consistent(store) && Logged(store) && Cleared(store.state, c, receipt, payload)
    requires IsArtifactCommand(c) ==> store.stream != []
    ensures Eligible(store, c) && PayloadSays(store.state, c, payload)
  {
    StoreIsSound(store);
    ClearedSays(store.state, c, receipt, payload, |store.stream|);
    IndexedIffCommitted(store, IdOf(c));
    if c.GradeExact? || c.GradeVerified? {
      ClearedMayGrade(store.state, c, receipt, payload);
    }
  }

  /** One more event, which says what the command says on the store before it. */
  ghost predicate AddsEventOf(before: Store, after: Store, c: Command) {
    exists e: Event ::
      e.sequence == |before.stream| + 1 && EventSays(before.state, c, e) && after.stream == before.stream + [e]
  }

  lemma RecordedBy(before: Store, after: Store, c: Command, payload: Payload)
    requires PayloadSays(before.state, c, payload)
    requires after.stream == before.stream + [EventFor(c, payload, |before.stream|)]
    ensures AddsEventOf(before, after, c)
  {
    EventForSays(before.state, c, payload, |before.stream|);
  }

  // ---------------------------------------------------------------- in every run

  lemma CommittedClient(store: Store, c: Client, listing: seq<Entry>)
    requires Consistent(store) && Logged(store) && ClientOk(store, c) && c.Running?
    requires Program(c.command)[c.pc] == TryAppend && Advance(store, c, listing).0 != store
    ensures Eligible(store, c.command) && Lands(store.state, c.command)
    ensures AddsEventOf(store, Advance(store, c, listing).0, c.command)
  {
    AppendStep(store, c, listing);
    FactsAreCleared(store, c);
    ClearedIsEligible(store, c.command, c.local.receipt, c.local.draft.value);
    AppendVerdict(store, c.command, c.local.receipt, c.local.draft.value);
    RecordedBy(store, Advance(store, c, listing).0, c.command, c.local.draft.value);
  }

  /** In every run, a step that changes the store appends exactly one event, under an identity that was new, which says
      what the client's command says on the ledger and the book it commits to; and the command was eligible and landed
      on them. */
  lemma CommittedEventSays(run: seq<System>, n: nat, client: nat, listing: seq<Entry>)
    requires IsRun(run) && n < |run| && Enabled(run[n], Step(client, listing))
    requires Moved(run[n], Step(client, listing)).store != run[n].store
    ensures var c, next := run[n].clients[client].command, Moved(run[n], Step(client, listing)).store;
      Eligible(run[n].store, c) && Lands(run[n].store.state, c) && AddsEventOf(run[n].store, next, c)
  {
    RunsKeep(run, n);
    assert ClientOk(run[n].store, run[n].clients[client]);
    CommittedClient(run[n].store, run[n].clients[client], listing);
  }

  // ------------------------------------------------------------- recorded before

  /** The recorded event is of this very command.  A generated batch is known by its run, a service decision by its
      target and a presentation by its revision; anything else by all that it says. */
  ghost predicate Repeats(c: Command, p: Payload, book: Assessments) {
    match c
    case RecordGenerated(_, _, run, _) => p.ProposalBatch? && p.origin == GeneratedOrigin && p.run == Some(run)
    case RecordHuman(session, key, content, interaction, _, _, target) =>
      && p.ProposalBatch? && p.origin == HumanOrigin && p.run == None && |p.proposals| == 1
      && p.proposals[0].ordinal == 0
      && p.proposals[0].artifact == (match target
                                     case Some(a) => a
                                     case None => ArtifactId(HumanBatch(session, interaction, key), 0))
      && p.proposals[0].kind == KindOf(content) && p.proposals[0].content == content
      && p.proposals[0].provenance == HumanItem(c).provenance
    case DecideAsHuman(_, _, r, verdict, supersedes) =>
      p.Decision? && p.receipt == None && p.revision == r && p.verdict == verdict && p.supersedes == supersedes
    case DecideAsService(_, _, r, _) => p.Decision? && p.receipt.Some? && p.revision == r
    case Present(_, _, r) => p.ItemPresented? && p.shown == r
    case Respond(session, key, shown, response, latency) => AttemptSays(session, key, shown, response, latency, p)
    case GradeExact(session, key, attempt, predecessor) =>
      && OwnAttempt(book, session, attempt)
      && GradeIsOf(session, key, attempt, predecessor, p) && ExactGradeSays(book, attempt, p)
    case GradeVerified(session, key, o, predecessor) =>
      GradeIsOf(session, key, o.attempt, predecessor, p) && VerifiedGradeSays(o, p)
    case ContestGrade(_, key, g, reason) => ContestIsOf(g, reason, key, p)
  }

  /** An exact grade that says what the comparison gives is the one the service computes. */
  lemma ExactRepeats(st: State, c: Command, p: Payload)
    requires AI.Shown(st.book.presentations, st.ledger.revisions)
    requires AI.Answered(st.book.attempts, st.book.presentations) && c.GradeExact?
    ensures ExactPayload(c, st.book) == Some(p) <==> Repeats(c, p, st.book)
  {
    ExactDrafts(st, c);
    if Repeats(c, p, st.book) {
      FormatIsClosed(st.book, c.attempt, p);
      var q := ExactPayload(c, st.book).value;
      var attempt := st.book.attempts[c.attempt];
      ClosedResultsAreUnique(st.book.presentations[attempt.presentation].content.item, attempt.response, p.criteria,
        p.score, q.criteria, q.score);
    }
  }

  lemma FormatIsClosed(book: Assessments, attempt: AttemptId, p: Payload)
    requires p.GradeRecorded? && ExactGradeSays(book, attempt, p)
    ensures book.presentations[book.attempts[attempt].presentation].content.item.format != FreeResponseFormat
  {
    var item := book.presentations[book.attempts[attempt].presentation].content.item;
    var status :| GradedAs(item, book.attempts[attempt].response, status, p.criteria, p.score);
  }

  lemma HumanRepeats(c: Command, p: Payload)
    requires c.RecordHuman?
    ensures FingerprintOf(p) == CommandFingerprint(c) <==> Repeats(c, p, NO_ASSESSMENTS)
  {
    if p.ProposalBatch? && p.origin == HumanOrigin {
      var portable := FingerprintOf(p).proposals;
      assert |p.proposals| == 1 ==> portable == [PortableOf(p.proposals[0])];
      assert |portable| == |p.proposals|;
    }
  }

  lemma ArtifactRepeats(c: Command, p: Payload, book: Assessments)
    requires IsArtifactCommand(c)
    ensures FingerprintOf(p) == CommandFingerprint(c) <==> Repeats(c, p, book)
  {
    if c.RecordHuman? {
      HumanRepeats(c, p);
    }
  }

  /** What a successful command finds in the stream is an event of this very command. */
  lemma FulfilsExactly(st: State, c: Command, p: Payload, n: int)
    requires Sound(st, n)
    ensures Fulfils(c, p, st.book) <==> Repeats(c, p, st.book)
  {
    if IsArtifactCommand(c) {
      ArtifactRepeats(c, p, st.book);
    } else if c.GradeExact? {
      ExactRepeats(st, c, p);
    }
  }

  /** In every state of every run, a client that has reported success has an event of its very command in the stream. */
  lemma SuccessIsRecorded(run: seq<System>, n: nat, client: nat) returns (at: nat)
    requires IsRun(run) && n < |run| && client in run[n].clients
    requires run[n].clients[client].Done? && run[n].clients[client].outcome == Success
    ensures at < |run[n].store.stream| && run[n].store.stream[at].id == IdOf(run[n].clients[client].command)
    ensures Repeats(run[n].clients[client].command, run[n].store.stream[at].payload, run[n].store.state.book)
  {
    var store, c := run[n].store, run[n].clients[client].command;
    RunsKeep(run, n);
    assert ClientOk(store, run[n].clients[client]);
    StoreIsSound(store);
    at :| 0 <= at < |store.stream| && store.stream[at].id == IdOf(c) &&
      Fulfils(c, store.stream[at].payload, store.state.book);
    FulfilsExactly(store.state, c, store.stream[at].payload, |store.stream|);
  }

  lemma IdentityAnswers(store: Store, c: Client, at: nat)
    requires Consistent(store) && Logged(store) && ClientOk(store, c) && c.Running?
    requires at < |store.stream| && store.stream[at].id == IdOf(c.command)
    requires c.command.GradeExact? || c.command.GradeVerified? ==> c.local.draft.Some?
    ensures IdentityOf(store, c.command, c.local.draft) ==
      if Repeats(c.command, store.stream[at].payload, store.state.book) then Same else Different
  {
    StoreIsSound(store);
    FulfilsExactly(store.state, c.command, store.stream[at].payload, |store.stream|);
    IdentityByEvent(store, c, at);
  }

  lemma IdentityIsAnswered(store: Store, c: Client, at: nat)
    requires Consistent(store) && Logged(store) && ClientOk(store, c) && c.Running? && KeepsDraft(c)
    requires Program(c.command)[c.pc] == Identify
    requires at < |store.stream| && store.stream[at].id == IdOf(c.command)
    ensures IdentityOf(store, c.command, c.local.draft) ==
      if Repeats(c.command, store.stream[at].payload, store.state.book) then Same else Different
  {
    if c.command.GradeExact? || c.command.GradeVerified? {
      GradeIsDraftedFirst(c.command, c.pc);
    }
    IdentityAnswers(store, c, at);
  }

  lemma IdentityByEvent(store: Store, c: Client, at: nat)
    requires Logged(store) && ClientOk(store, c) && c.Running?
    requires at < |store.stream| && store.stream[at].id == IdOf(c.command)
    requires c.command.GradeExact? || c.command.GradeVerified? ==> c.local.draft.Some?
    ensures IdentityOf(store, c.command, c.local.draft) ==
      if Fulfils(c.command, store.stream[at].payload, store.state.book) then Same else Different
  {
    if !IsArtifactCommand(c.command) {
      OneOccurrence(store.stream, IdOf(c.command), at);
    }
  }

  /** A client past its draft step remembers a draft. */
  ghost predicate KeepsDraft(c: Client) {
    c.Running? && c.pc < |Program(c.command)| && Draft in Program(c.command)[..c.pc] ==> c.local.draft.Some?
  }

  /** A check that lets the client go on leaves a draft where there was one, and the draft step makes one. */
  lemma ComputeKeepsDraft(store: Store, c: Client, action: Action, listing: seq<Entry>)
    requires c.Running?
    ensures var next := Compute(store, c, action, listing);
      next.Running? && (c.local.draft.Some? || action == Draft) ==> next.local.draft.Some?
  {
    ComputeWrites(store, c, action, listing);
  }

  lemma NextKeepsDraft(c: Client, next: Client, action: Action)
    requires KeepsDraft(c) && c.Running? && c.pc < |Program(c.command)| && action == Program(c.command)[c.pc]
    requires next.Running? ==>
      && next.command == c.command && next.pc == c.pc + 1
      && (c.local.draft.Some? || action == Draft ==> next.local.draft.Some?)
    ensures KeepsDraft(next)
  {
    if next.Running? && next.pc < |Program(next.command)| {
      assert Program(c.command)[..c.pc + 1] == Program(c.command)[..c.pc] + [action];
    }
  }

  lemma StepKeepsDraft(store: Store, c: Client, listing: seq<Entry>)
    requires KeepsDraft(c) && c.Running? && c.pc < |Program(c.command)|
    ensures KeepsDraft(Advance(store, c, listing).1)
  {
    var action := Program(c.command)[c.pc];
    if action != TryAppend {
      ComputeKeepsDraft(store, c, action, listing);
      ComputeContinues(store, c, action, listing);
    }
    NextKeepsDraft(c, Advance(store, c, listing).1, action);
  }

  lemma MoveKeepsDrafts(s: System, m: ServiceProtocol.Move)
    requires Enabled(s, m) && forall i :: i in s.clients ==> KeepsDraft(s.clients[i])
    ensures forall i :: i in Moved(s, m).clients ==> KeepsDraft(Moved(s, m).clients[i])
  {
    match m
    case Start(_, command, _) => assert Program(command)[..0] == [];
    case Step(client, listing) => StepKeepsDraft(s.store, s.clients[client], listing);
    case Context(_) =>
  }

  lemma {:induction false} RunsKeepDrafts(run: seq<System>, n: nat)
    requires IsRun(run) && n < |run|
    ensures forall i :: i in run[n].clients ==> KeepsDraft(run[n].clients[i])
  {
    if n > 0 {
      RunsKeepDrafts(run, n - 1);
      assert StepAt(run, n);
      var m :| Enabled(run[n - 1], m) && Moved(run[n - 1], m) == run[n];
      MoveKeepsDrafts(run[n - 1], m);
    }
  }

  /** The grading commands draft before they ask for their identity. */
  lemma GradeIsDraftedFirst(c: Command, n: nat)
    requires (c.GradeExact? || c.GradeVerified?) && n < |Program(c)| && Program(c)[n] == Identify
    ensures Draft in Program(c)[..n]
  {
    assert Program(c)[..n][2] == Draft;
  }

  /** In every run, an identity check that finds its identity taken ends the call: with success when the recorded event
      is of this very command, with a conflict when it is of another. */
  lemma TakenIdentityEndsTheCall(run: seq<System>, n: nat, client: nat, listing: seq<Entry>, at: nat)
    requires IsRun(run) && n < |run| && Enabled(run[n], Step(client, listing))
    requires var c := run[n].clients[client];
      Program(c.command)[c.pc] == Identify
    requires at < |run[n].store.stream| && run[n].store.stream[at].id == IdOf(run[n].clients[client].command)
    ensures var c, next := run[n].clients[client], Moved(run[n], Step(client, listing));
      && next.store == run[n].store && next.clients[client].Done?
      && next.clients[client].outcome ==
        if Repeats(c.command, run[n].store.stream[at].payload, run[n].store.state.book) then Success else Conflict
  {
    RunsKeep(run, n);
    assert ClientOk(run[n].store, run[n].clients[client]);
    RunsKeepDrafts(run, n);
    IdentityIsAnswered(run[n].store, run[n].clients[client], at);
  }

  // ------------------------------------------------------------ retried grades

  lemma GradePayloadIsDetermined(st: State, c: Command, p: Payload, q: Payload)
    requires (c.GradeExact? || c.GradeVerified?) && PayloadSays(st, c, p) && PayloadSays(st, c, q)
    ensures p == q
  {
    if c.GradeExact? {
      var attempt := st.book.attempts[c.attempt];
      ClosedResultsAreUnique(st.book.presentations[attempt.presentation].content.item, attempt.response, p.criteria,
        p.score, q.criteria, q.score);
    }
  }

  lemma GradeWasDrafted(st: State, c: Command, p: Payload, listing: seq<Entry>, n: int)
    requires Sound(st, n) && (c.GradeExact? || c.GradeVerified?) && Draftable(st, c) && PayloadSays(st, c, p)
    ensures DraftFor(c, View(st, listing), None) == Some(p)
  {
    AssessmentDrafts(st, c, listing, n);
    GradePayloadIsDetermined(st, c, DraftFor(c, View(st, listing), None).value, p);
  }

  lemma ReplayIsSound(stream: seq<Event>)
    requires Replay(stream).Some?
    ensures Sound(Replay(stream).value, |stream|)
  {
    StoreIsSound(Store(stream, Replay(stream).value));
  }

  /** A grading command whose grade was committed, saying what the command says on the state it was committed to,
      drafts that very grade again on every later store, and is recognised by it. */
  lemma RetriedGradeIsRecognised(store: Store, c: Command, at: nat, listing: seq<Entry>)
    requires Consistent(store) && Logged(store) && (c.GradeExact? || c.GradeVerified?)
    requires at < |store.stream| && store.stream[at].id == IdOf(c) && Replay(store.stream[..at]).Some?
    requires Draftable(Replay(store.stream[..at]).value, c)
    requires PayloadSays(Replay(store.stream[..at]).value, c, store.stream[at].payload)
    ensures var draft := DraftFor(c, View(store.state, listing), None);
      draft == Some(store.stream[at].payload) && IdentityOf(store, c, draft) == Same
  {
    ReplayIsSound(store.stream[..at]);
    GradeWasDrafted(Replay(store.stream[..at]).value, c, store.stream[at].payload, listing, at);
    ServiceRules.GradingRetryIsRecognised(store, c, at, listing, listing);
  }
}
