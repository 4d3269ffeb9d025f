/** Clients interleaving their command steps over one store.  Whatever a client checked still holds when it
    commits: its reads all happened at the expected length, because the stream only grows. */
module ServiceProtocol {
  import opened Domain
  import opened ArtifactSnapshot
  import opened Course
  import opened EventStore
  import opened Commands
  import opened AssessmentLedger
  import AssessmentRuns
  import ExportAgreement

  // -------------------------------------------------------------- the machine

  datatype System = System(store: Store, clients: map<nat, Client>)

  const BOOT := System(EMPTY_STORE, map[])

  const NO_LOCAL := Local(None, None, None)

  datatype Move =
    | Start(client: nat, command: Command, expected: nat)
    | Step(client: nat, listing: seq<Entry>)
    | Context(event: Event)

  ghost predicate Enabled(s: System, m: Move) {
    match m
    case Start(client, command, expected) =>
      && (client in s.clients ==> s.clients[client].Done?)
      && expected <= |s.store.stream|
      && (IsArtifactCommand(command) ==> 1 <= expected)
    case Step(client, listing) =>
      && client in s.clients && s.clients[client].Running? &&
        s.clients[client].pc < |Program(s.clients[client].command)|
      && Lists(listing, s.store.state.ledger.revisions)
    case Context(event) =>
      event.payload.ContextRecorded? && Append(s.store, |s.store.stream|, event).Committed?
  }

  ghost function Moved(s: System, m: Move): System
    requires Enabled(s, m)
  {
    match m
    case Start(client, command, expected) => s.(clients := s.clients[client := Running(command, expected, 0, NO_LOCAL)])
    case Step(client, listing) =>
      var next := Advance(s.store, s.clients[client], listing);
      System(next.0, s.clients[client := next.1])
    case Context(event) => s.(store := Append(s.store, |s.store.stream|, event).store)
  }

  /** `run` is a run of the system: it starts empty and every state follows by one enabled move. */
  ghost predicate IsRun(run: seq<System>) {
    && 0 < |run| && run[0] == BOOT
    && forall i :: 0 < i < |run| ==> StepAt(run, i)
  }

  ghost predicate StepAt(run: seq<System>, i: int)
    requires 0 < i < |run|
  {
    Follows(run[i - 1], run[i])
  }

  ghost predicate Follows(s: System, t: System) {
    exists m :: Enabled(s, m) && Moved(s, m) == t
  }

  // ------------------------------------------------- what a client can rely on

  /** The event carries out the command: it is the event the command records.  A presentation is known by its
      revision and an artifact command by its fingerprint; an exact grade is computed from the book. */
  ghost predicate Fulfils(c: Command, p: Payload, book: Assessments) {
    match c
    case Present(_, _, revision) => p.ItemPresented? && p.shown == revision
    case Respond(_, _, _, _, _) => p == ResponsePayload(c)
    case ContestGrade(_, _, _, _) => p == ContestPayload(c)
    case GradeExact(_, _, _, _) => ExactPayload(c, book) == Some(p)
    case GradeVerified(_, _, _, _) => p == VerifiedGrade(c)
    case _ => FingerprintOf(p) == CommandFingerprint(c)
  }

  ghost predicate Drafted(c: Command, st: State, receipt: Option<Receipt>, draft: Payload) {
    exists listing :: Lists(listing, st.ledger.revisions) && DraftFor(c, View(st, listing), receipt) == Some(draft)
  }

  ghost predicate PolicyAnswered(c: Command, st: State, receipt: Receipt)
    requires c.DecideAsService?
  {
    exists listing :: Lists(listing, st.ledger.revisions) && Consulted(c, View(st, listing)) == Some(receipt)
  }

  /** What each step established, as a fact about the store the client has been reading. */
  ghost predicate Passed(store: Store, c: Command, local: Local, action: Action) {
    match action
    case OpenSession => c.session in store.state.world.sessions
    case Identify => !InStream(store.stream, IdOf(c))
    case ReadView => local.view.Some? && local.view.value.state == store.state &&
      Lists(local.view.value.listing, store.state.ledger.revisions)
    case Consult => c.DecideAsService? && local.receipt.Some? && PolicyAnswered(c, store.state, local.receipt.value)
    case Draft => local.draft.Some? && Drafted(c, store.state, local.receipt, local.draft.value)
    case CheckRules => (c.GradeExact? || c.GradeVerified?) &&
      exists listing :: GradeRules(c, View(store.state, listing))
    case Ground => c.RecordHuman? && (c.session, ProvenanceOf(c)) in store.state.world.grounded
    case TryAppend => false
    case _ => true
  }

  ghost predicate Facts(store: Store, c: Client)
    requires c.Running? && c.pc < |Program(c.command)|
  {
    PassedAll(store, c.command, c.local, Program(c.command)[..c.pc])
  }

  ghost predicate PassedAll(store: Store, c: Command, local: Local, actions: seq<Action>) {
    forall k :: 0 <= k < |actions| ==> Passed(store, c, local, actions[k])
  }

  ghost predicate Fulfilled(store: Store, c: Command) {
    exists i :: 0 <= i < |store.stream| && store.stream[i].id == IdOf(c) &&
      Fulfils(c, store.stream[i].payload, store.state.book)
  }

  /** Every client's standing: a running one has observed its expected length, and while the stream still has
      that length its checks hold; one that succeeded finds its command in the stream. */
  ghost predicate ClientOk(store: Store, c: Client) {
    match c
    case Running(command, expected, pc, local) =>
      && pc < |Program(command)|
      && expected <= |store.stream|
      && (IsArtifactCommand(command) ==> 1 <= expected)
      && LocalOk(store.state.book, command, local)
      && (|store.stream| == expected ==> Facts(store, c))
    case Done(command, expected, outcome) => outcome == Success ==> Fulfilled(store, command)
  }

  /** A remembered view is of an earlier book, and a draft is the event the command records. */
  ghost predicate LocalOk(book: Assessments, c: Command, local: Local) {
    && (local.view.Some? ==> AssessmentRuns.BookLater(local.view.value.state.book, book))
    && (local.draft.Some? ==> Fulfils(c, local.draft.value, book))
  }

  /** What an exact grade is computed from never changes, so an event that carries out a command goes on doing so. */
  lemma FulfilsPersists(c: Command, p: Payload, before: Assessments, after: Assessments)
    requires Fulfils(c, p, before) && AssessmentRuns.BookLater(before, after)
    ensures Fulfils(c, p, after)
  {
  }

  lemma LocalPersists(c: Command, local: Local, before: Assessments, after: Assessments)
    requires LocalOk(before, c, local) && AssessmentRuns.BookLater(before, after)
    ensures LocalOk(after, c, local)
  {
    if local.view.Some? {
      AssessmentRuns.BookLaterJoins(local.view.value.state.book, before, after);
    }
    if local.draft.Some? {
      FulfilsPersists(c, local.draft.value, before, after);
    }
  }

  ghost predicate SystemOk(s: System) {
    && Consistent(s.store) && Logged(s.store)
    && forall i :: i in s.clients ==> ClientOk(s.store, s.clients[i])
  }

  // ---------------------------------------------------------- identity checks

  lemma {:induction false} OccurrencesExact(stream: seq<Event>, id: EventId)
    ensures Occurrences(stream, id) == [] <==> !InStream(stream, id)
    ensures forall e :: e in Occurrences(stream, id) ==> e in stream && e.id == id
  {
    if stream != [] {
      var n := |stream| - 1;
      OccurrencesExact(stream[..n], id);
      assert forall i :: 0 <= i < n ==> stream[..n][i] == stream[i];
      assert InStream(stream, id) <==> InStream(stream[..n], id) || stream[n].id == id;
    }
  }

  lemma FreshMeansAbsent(store: Store, c: Command, draft: Option<Payload>)
    requires Logged(store) && IdentityOf(store, c, draft) == Fresh
    ensures !InStream(store.stream, IdOf(c))
  {
    OccurrencesExact(store.stream, IdOf(c));
    IndexedIffCommitted(store, IdOf(c));
  }

  lemma SameMeansFulfilled(store: Store, c: Command, draft: Option<Payload>)
    requires Logged(store) && IdentityOf(store, c, draft) == Same
    requires draft.Some? ==> Fulfils(c, draft.value, store.state.book)
    ensures Fulfilled(store, c)
  {
    if IsArtifactCommand(c) {
      IndexedIffCommitted(store, IdOf(c));
      var i :| 0 <= i < |store.stream| && store.stream[i].id == IdOf(c);
      assert Fulfils(c, store.stream[i].payload, store.state.book);
    } else {
      OccurrencesExact(store.stream, IdOf(c));
      var e := Occurrences(store.stream, IdOf(c))[0];
      assert e in Occurrences(store.stream, IdOf(c));
      SamePayload(c, draft, e.payload, store.state.book);
      var i :| 0 <= i < |store.stream| && store.stream[i] == e;
    }
  }

  lemma SamePayload(c: Command, draft: Option<Payload>, found: Payload, book: Assessments)
    requires !IsArtifactCommand(c) && SameAssessment(c, draft, found)
    requires draft.Some? ==> Fulfils(c, draft.value, book)
    ensures Fulfils(c, found, book)
  {
  }

  lemma ResolvedSameMeansFulfilled(store: Store, c: Command, draft: Payload)
    requires Logged(store) && ResolvedIdentity(store, c, draft) == Same && Fulfils(c, draft, store.state.book)
    ensures Fulfilled(store, c)
  {
    if IsArtifactCommand(c) {
      SameMeansFulfilled(store, c, Some(draft));
    } else {
      OccurrencesExact(store.stream, IdOf(c));
      var e := Occurrences(store.stream, IdOf(c))[0];
      assert e in Occurrences(store.stream, IdOf(c));
      assert Fulfils(c, e.payload, store.state.book);
      var i :| 0 <= i < |store.stream| && store.stream[i] == e;
    }
  }

  // ------------------------------------------------------ one client's own step

  lemma DraftFulfils(c: Command, view: View, receipt: Option<Receipt>)
    requires DraftFor(c, view, receipt).Some?
    ensures Fulfils(c, DraftFor(c, view, receipt).value, view.state.book)
  {
  }

  /** A program drafts once, after any consultation, and resolves last, right after its append. */
  lemma ProgramShape(c: Command, k: nat, n: nat)
    requires n < |Program(c)|
    ensures k < n && Program(c)[k] == Draft ==> Program(c)[n] != Draft && Program(c)[n] != Consult
    ensures Program(c)[n] == Resolve <==> n == |Program(c)| - 1
    ensures n < |Program(c)| - 1 && Program(c)[n] != TryAppend ==> Program(c)[n + 1] != Resolve
  {
  }

  lemma PassedFrame(store: Store, c: Command, before: Local, after: Local, action: Action)
    requires Passed(store, c, before, action)
    requires after.view != before.view ==> Passed(store, c, after, ReadView)
    requires after.receipt != before.receipt ==> Passed(store, c, after, Consult)
    requires after.receipt != before.receipt || after.draft != before.draft ==> action != Draft
    ensures Passed(store, c, after, action)
  {
  }

  /** What a step changes of the client's memory leaves what earlier steps established. */
  lemma FactsFrame(store: Store, c: Command, program: seq<Action>, n: nat, before: Local, after: Local)
    requires n < |program| && PassedAll(store, c, before, program[..n])
    requires after.view != before.view ==> Passed(store, c, after, ReadView)
    requires after.receipt != before.receipt ==> Passed(store, c, after, Consult)
    requires after.receipt != before.receipt || after.draft != before.draft ==> Draft !in program[..n]
    requires Passed(store, c, after, program[n])
    ensures PassedAll(store, c, after, program[..n + 1])
  {
    forall k | 0 <= k < n ensures Passed(store, c, after, program[k]) {
      assert program[..n][k] == program[k];
      PassedFrame(store, c, before, after, program[k]);
    }
  }

  lemma DraftComesOnce(c: Command, n: nat)
    requires n < |Program(c)| && Program(c)[n] in {Draft, Consult}
    ensures Draft !in Program(c)[..n]
  {
    forall k | 0 <= k < n ensures Program(c)[k] != Draft {
      ProgramShape(c, k, n);
    }
  }

  lemma ViewPassed(store: Store, c: Client)
    requires c.Running? && c.pc < |Program(c.command)| && Facts(store, c)
    requires Program(c.command)[c.pc] in {Draft, Consult, CheckRules}
    ensures Passed(store, c.command, c.local, ReadView)
  {
    ViewComesFirst(c.command, c.pc);
    var k :| 0 <= k < c.pc && Program(c.command)[k] == ReadView;
    assert Program(c.command)[..c.pc][k] == ReadView;
  }

  lemma ViewComesFirst(c: Command, n: nat)
    requires n < |Program(c)| && Program(c)[n] in {Draft, Consult, CheckRules}
    ensures exists k :: 0 <= k < n && Program(c)[k] == ReadView
  {
    assert Program(c)[1] == ReadView || Program(c)[2] == ReadView;
  }

  /** While the stream has the expected length, the next step's fact holds too. */
  lemma StepEstablishes(store: Store, c: Client, listing: seq<Entry>)
    requires Logged(store) && c.Running? && c.pc < |Program(c.command)| && Facts(store, c)
    requires Program(c.command)[c.pc] !in {TryAppend, Resolve} && Lists(listing, store.state.ledger.revisions)
    ensures var action := Program(c.command)[c.pc];
      var next := Compute(store, c, action, listing);
      next.Running? ==> Passed(store, c.command, next.local, action)
  {
    var action := Program(c.command)[c.pc];
    match action
    case Identify =>
      if IdentityOf(store, c.command, c.local.draft) == Fresh {
        FreshMeansAbsent(store, c.command, c.local.draft);
      }
    case Consult => ViewPassed(store, c);
    case Draft => ViewPassed(store, c);
    case CheckRules => ViewPassed(store, c);
    case _ =>
  }

  /** A step that continues moves on by one and changes only what its action writes. */
  lemma ComputeWrites(store: Store, c: Client, action: Action, listing: seq<Entry>)
    requires c.Running?
    ensures var next := Compute(store, c, action, listing);
      next.Running? ==>
        && next == Next(c, next.local)
        && (next.local.view != c.local.view ==> action == ReadView)
        && (next.local.receipt != c.local.receipt ==> action == Consult)
        && (next.local.draft != c.local.draft ==> action == Draft)
  {
  }

  lemma NextKeepsFacts(store: Store, c: Client, action: Action, local: Local)
    requires c.Running? && c.pc + 1 < |Program(c.command)| && Facts(store, c) && action == Program(c.command)[c.pc]
    requires Passed(store, c.command, local, action)
    requires local.view != c.local.view ==> action == ReadView
    requires local.receipt != c.local.receipt ==> action == Consult
    requires local.draft != c.local.draft ==> action == Draft
    ensures Facts(store, Next(c, local))
  {
    if action == Draft || action == Consult {
      DraftComesOnce(c.command, c.pc);
    }
    FactsFrame(store, c.command, Program(c.command), c.pc, c.local, local);
  }

  lemma ComputeKeepsFacts(store: Store, c: Client, listing: seq<Entry>)
    requires Logged(store) && c.Running? && c.pc < |Program(c.command)| && Facts(store, c)
    requires Program(c.command)[c.pc] != TryAppend && Lists(listing, store.state.ledger.revisions)
    ensures var next := Compute(store, c, Program(c.command)[c.pc], listing);
      next.Running? ==> next.pc < |Program(c.command)| && Facts(store, next)
  {
    var action := Program(c.command)[c.pc];
    ProgramShape(c.command, 0, c.pc);
    if action != Resolve {
      StepEstablishes(store, c, listing);
      ComputeWrites(store, c, action, listing);
      var next := Compute(store, c, action, listing);
      if next.Running? {
        NextKeepsFacts(store, c, action, next.local);
      }
    }
  }

  lemma IdentityFinishes(store: Store, c: Client, listing: seq<Entry>)
    requires Logged(store) && ClientOk(store, c) && c.Running? && Program(c.command)[c.pc] in {Identify, Resolve}
    ensures var next := Compute(store, c, Program(c.command)[c.pc], listing);
      next.Done? && next.outcome == Success ==> Fulfilled(store, c.command)
  {
    if Program(c.command)[c.pc] == Identify {
      if IdentityOf(store, c.command, c.local.draft) == Same {
        SameMeansFulfilled(store, c.command, c.local.draft);
      }
    } else if c.local.draft.Some? && ResolvedIdentity(store, c.command, c.local.draft.value) == Same {
      ResolvedSameMeansFulfilled(store, c.command, c.local.draft.value);
    }
  }

  lemma OnlyIdentitySucceeds(store: Store, c: Client, action: Action, listing: seq<Entry>)
    requires c.Running? && action !in {Identify, Resolve}
    ensures var next := Compute(store, c, action, listing); next.Done? ==> next.outcome != Success
  {
  }

  lemma ComputeKeepsLocal(store: Store, c: Client, action: Action, listing: seq<Entry>)
    requires c.Running? && LocalOk(store.state.book, c.command, c.local)
    ensures var next := Compute(store, c, action, listing);
      next.Running? ==> LocalOk(store.state.book, c.command, next.local)
  {
    if action == Draft && c.local.view.Some? {
      var draft := DraftFor(c.command, c.local.view.value, c.local.receipt);
      if draft.Some? {
        DraftFulfils(c.command, c.local.view.value, c.local.receipt);
        FulfilsPersists(c.command, draft.value, c.local.view.value.state.book, store.state.book);
      }
    }
  }

  lemma ComputeFinishes(store: Store, c: Client, listing: seq<Entry>)
    requires Logged(store) && ClientOk(store, c) && c.Running? && Program(c.command)[c.pc] != TryAppend
    ensures var next := Compute(store, c, Program(c.command)[c.pc], listing);
      next.Done? && next.outcome == Success ==> Fulfilled(store, c.command)
  {
    if Program(c.command)[c.pc] in {Identify, Resolve} {
      IdentityFinishes(store, c, listing);
    } else {
      OnlyIdentitySucceeds(store, c, Program(c.command)[c.pc], listing);
    }
  }

  lemma ComputeContinues(store: Store, c: Client, action: Action, listing: seq<Entry>)
    requires c.Running? && c.pc < |Program(c.command)| && action == Program(c.command)[c.pc]
    ensures var next := Compute(store, c, action, listing);
      && next.command == c.command && next.expected == c.expected
      && (next.Running? ==> next.pc == c.pc + 1 && next.pc < |Program(c.command)|)
  {
    ProgramShape(c.command, 0, c.pc);
  }

  lemma ComputeKeeps(store: Store, c: Client, listing: seq<Entry>)
    requires Logged(store) && ClientOk(store, c) && c.Running? && Program(c.command)[c.pc] != TryAppend
    requires Lists(listing, store.state.ledger.revisions)
    ensures ClientOk(store, Compute(store, c, Program(c.command)[c.pc], listing))
  {
    ComputeContinues(store, c, Program(c.command)[c.pc], listing);
    ComputeFinishes(store, c, listing);
    ComputeKeepsLocal(store, c, Program(c.command)[c.pc], listing);
    if |store.stream| == c.expected {
      ComputeKeepsFacts(store, c, listing);
    }
  }

  // --------------------------------------------------------- the whole system

  lemma AppendGrows(store: Store, expected: int, e: Event)
    requires Append(store, expected, e).Committed?
    ensures Append(store, expected, e).store.stream == store.stream + [e]
    ensures AssessmentRuns.BookLater(store.state.book, Append(store, expected, e).store.state.book)
  {
    AssessmentRuns.ReduceGrows(store.state, e);
  }

  lemma FulfilledPersists(store: Store, next: Store, c: Command)
    requires store.stream <= next.stream && AssessmentRuns.BookLater(store.state.book, next.state.book)
    requires Fulfilled(store, c)
    ensures Fulfilled(next, c)
  {
    var i :| 0 <= i < |store.stream| && store.stream[i].id == IdOf(c) &&
      Fulfils(c, store.stream[i].payload, store.state.book);
    assert next.stream[i] == store.stream[i];
    FulfilsPersists(c, store.stream[i].payload, store.state.book, next.state.book);
  }

  /** Any append makes the other clients' expectations stale, never false. */
  lemma OthersKeep(store: Store, next: Store, e: Event, c: Client)
    requires next.stream == store.stream + [e] && AssessmentRuns.BookLater(store.state.book, next.state.book)
    requires ClientOk(store, c)
    ensures ClientOk(next, c)
  {
    if c.Running? {
      LocalPersists(c.command, c.local, store.state.book, next.state.book);
    } else if c.outcome == Success {
      FulfilledPersists(store, next, c.command);
    }
  }

  /** What a client can do to the store: nothing, or append its own event when its identity is new. */
  ghost predicate Commits(store: Store, next: Store, c: Client)
    requires c.Running?
  {
    && |store.stream| == c.expected && c.local.draft.Some?
    && !InStream(store.stream, IdOf(c.command))
    && Append(store, c.expected, EventFor(c.command, c.local.draft.value, c.expected)) == EventStore.Committed(next)
  }

  lemma IdentityComesFirst(c: Command, n: nat)
    requires n < |Program(c)| && Program(c)[n] == TryAppend
    ensures exists k :: 0 <= k < n && Program(c)[k] == Identify
    ensures n < |Program(c)| - 1 && Program(c)[n + 1] == Resolve
  {
    assert Program(c)[0] == Identify || Program(c)[1] == Identify || Program(c)[3] == Identify;
  }

  lemma OwnCommitFulfils(store: Store, c: Client, e: Event)
    requires ClientOk(store, c) && c.Running? && c.local.draft.Some?
    requires e == EventFor(c.command, c.local.draft.value, c.expected)
    requires Append(store, c.expected, e).Committed?
    ensures Fulfilled(Append(store, c.expected, e).store, c.command)
  {
    var next := Append(store, c.expected, e).store;
    AppendGrows(store, c.expected, e);
    FulfilsPersists(c.command, c.local.draft.value, store.state.book, next.state.book);
    assert next.stream[|store.stream|] == e;
  }

  lemma AppendStep(store: Store, c: Client, listing: seq<Entry>)
    requires Logged(store) && ClientOk(store, c) && c.Running? && Program(c.command)[c.pc] == TryAppend
    ensures var next := Advance(store, c, listing);
      && ClientOk(next.0, next.1)
      && (next.0 == store || Commits(store, next.0, c))
      && (next.0 != store ==> next.0.stream == store.stream + [EventFor(c.command, c.local.draft.value, c.expected)])
  {
    IdentityComesFirst(c.command, c.pc);
    if c.local.draft.Some? {
      var e := EventFor(c.command, c.local.draft.value, c.expected);
      var result := Append(store, c.expected, e);
      if result.Committed? {
        var k :| 0 <= k < c.pc && Program(c.command)[k] == Identify;
        assert Program(c.command)[..c.pc][k] == Identify;
        OwnCommitFulfils(store, c, e);
      }
    }
  }

  lemma StepKeeps(s: System, client: nat, listing: seq<Entry>)
    requires SystemOk(s) && Enabled(s, Step(client, listing))
    ensures SystemOk(Moved(s, Step(client, listing)))
    ensures var next := Moved(s, Step(client, listing));
      next.store == s.store || Commits(s.store, next.store, s.clients[client])
  {
    var c := s.clients[client];
    assert ClientOk(s.store, c);
    var t := Moved(s, Step(client, listing));
    if Program(c.command)[c.pc] == TryAppend {
      AppendStep(s.store, c, listing);
      if t.store != s.store {
        var e := EventFor(c.command, c.local.draft.value, c.expected);
        AppendKeepsConsistent(s.store, c.expected, e);
        AppendKeepsLog(s.store, c.expected, e);
        AppendGrows(s.store, c.expected, e);
        forall i | i in s.clients ensures ClientOk(t.store, s.clients[i]) {
          OthersKeep(s.store, t.store, e, s.clients[i]);
        }
      }
    } else {
      ComputeKeeps(s.store, c, listing);
    }
  }

  lemma MoveKeeps(s: System, m: Move)
    requires SystemOk(s) && Enabled(s, m)
    ensures SystemOk(Moved(s, m))
  {
    match m
    case Start(client, command, expected) =>
      StartKeeps(s.store, command, expected);
    case Step(client, listing) => StepKeeps(s, client, listing);
    case Context(event) =>
      var next := Moved(s, m).store;
      AppendKeepsConsistent(s.store, |s.store.stream|, event);
      AppendKeepsLog(s.store, |s.store.stream|, event);
      AppendGrows(s.store, |s.store.stream|, event);
      forall i | i in s.clients ensures ClientOk(next, s.clients[i]) {
        OthersKeep(s.store, next, event, s.clients[i]);
      }
  }

  lemma StartKeeps(store: Store, command: Command, expected: nat)
    requires expected <= |store.stream| && (IsArtifactCommand(command) ==> 1 <= expected)
    ensures ClientOk(store, Running(command, expected, 0, NO_LOCAL))
  {
    assert Program(command)[..0] == [];
  }

  lemma FollowsKeeps(s: System, t: System)
    requires SystemOk(s) && Follows(s, t)
    ensures SystemOk(t)
  {
    var m :| Enabled(s, m) && Moved(s, m) == t;
    MoveKeeps(s, m);
  }

  lemma BootIsOk()
    ensures SystemOk(BOOT)
  {
  }

  /** Every state of every run of any number of clients is well-formed. */
  lemma {:induction false} RunsKeep(run: seq<System>, n: nat)
    requires IsRun(run) && n < |run|
    ensures SystemOk(run[n])
  {
    if n == 0 {
      BootIsOk();
    } else {
      RunsKeep(run, n - 1);
      assert StepAt(run, n);
      FollowsKeeps(run[n - 1], run[n]);
    }
  }

  lemma RunsLog(run: seq<System>, n: nat)
    requires IsRun(run) && n < |run|
    ensures Logged(run[n].store)
  {
    RunsKeep(run, n);
  }

  // ---------------------------------------------------------------- idempotency

  /** In every state of every run: the stream is contiguous, its projection is its replay, each command identity
      occurs at most once, and a command that reported success is in the stream. */
  lemma StreamIsContiguousAndIdempotent(run: seq<System>, n: nat)
    requires IsRun(run) && n < |run|
    ensures Replay(run[n].store.stream) == Some(run[n].store.state)
    ensures var stream := run[n].store.stream;
      && (forall i :: 0 <= i < |stream| ==> stream[i].sequence == i + 1)
      && (forall i, j :: 0 <= i < j < |stream| && stream[i].id == stream[j].id ==> stream[i].id.OtherEventId?)
    ensures forall c :: c in run[n].clients && run[n].clients[c].Done? && run[n].clients[c].outcome == Success ==>
      Fulfilled(run[n].store, run[n].clients[c].command)
  {
    RunsKeep(run, n);
    ExportAgreement.ReplayIsContiguous(run[n].store.stream);
    forall c | c in run[n].clients && run[n].clients[c].Done? && run[n].clients[c].outcome == Success
      ensures Fulfilled(run[n].store, run[n].clients[c].command)
    {
      assert ClientOk(run[n].store, run[n].clients[c]);
    }
  }

  lemma RetryStep(s: System, client: nat, listing: seq<Entry>, at: nat)
    requires SystemOk(s) && Enabled(s, Step(client, listing))
    requires at < |s.store.stream| && s.store.stream[at].id == IdOf(s.clients[client].command)
    ensures Moved(s, Step(client, listing)).store == s.store
  {
    StepKeeps(s, client, listing);
    assert InStream(s.store.stream, IdOf(s.clients[client].command));
  }

  lemma StepKeepsCommand(store: Store, c: Client, listing: seq<Entry>)
    requires c.Running? && c.pc < |Program(c.command)|
    ensures Advance(store, c, listing).1.command == c.command
  {
  }

  /** A command whose identity is already committed adds nothing, whichever step it is at; and when the committed
      event does not carry it out, it never reports success. */
  lemma CommittedIdentityNeverCommitsAgain(run: seq<System>, n: nat, client: nat, listing: seq<Entry>, at: nat)
    requires IsRun(run) && n < |run| && Enabled(run[n], Step(client, listing))
    requires at < |run[n].store.stream| && run[n].store.stream[at].id == IdOf(run[n].clients[client].command)
    ensures var next := Moved(run[n], Step(client, listing));
      && next.store == run[n].store
      && (next.clients[client].Done? && next.clients[client].outcome == Success ==>
            Fulfils(run[n].clients[client].command, run[n].store.stream[at].payload, run[n].store.state.book))
  {
    RunsKeep(run, n);
    RetryOutcome(run[n], client, listing, at);
  }

  lemma RetryOutcome(s: System, client: nat, listing: seq<Entry>, at: nat)
    requires SystemOk(s) && Enabled(s, Step(client, listing))
    requires at < |s.store.stream| && s.store.stream[at].id == IdOf(s.clients[client].command)
    ensures var next := Moved(s, Step(client, listing));
      && next.store == s.store
      && (next.clients[client].Done? && next.clients[client].outcome == Success ==>
        Fulfils(s.clients[client].command, s.store.stream[at].payload, s.store.state.book))
  {
    RetryStep(s, client, listing, at);
    StepKeeps(s, client, listing);
    StepKeepsCommand(s.store, s.clients[client], listing);
    var next := Moved(s, Step(client, listing));
    assert ClientOk(next.store, next.clients[client]);
    if next.clients[client].Done? && next.clients[client].outcome == Success {
      SuccessIsThatEvent(s.store, s.clients[client].command, at);
    }
  }

  lemma SuccessIsThatEvent(store: Store, c: Command, at: nat)
    requires Logged(store) && Fulfilled(store, c) && at < |store.stream| && store.stream[at].id == IdOf(c)
    ensures Fulfils(c, store.stream[at].payload, store.state.book)
  {
    var i :| 0 <= i < |store.stream| && store.stream[i].id == IdOf(c) &&
      Fulfils(c, store.stream[i].payload, store.state.book);
    assert i == at;
  }

  /** A step that extends the stream appends exactly the client's own event, under an identity that was new. */
  lemma CommitIsFresh(run: seq<System>, n: nat, client: nat, listing: seq<Entry>)
    requires IsRun(run) && n < |run| && Enabled(run[n], Step(client, listing))
    requires Moved(run[n], Step(client, listing)).store != run[n].store
    ensures var c, next := run[n].clients[client], Moved(run[n], Step(client, listing));
      && !InStream(run[n].store.stream, IdOf(c.command))
      && c.local.draft.Some? && Fulfils(c.command, c.local.draft.value, run[n].store.state.book)
      && next.store.stream == run[n].store.stream + [EventFor(c.command, c.local.draft.value, c.expected)]
  {
    RunsKeep(run, n);
    StepKeeps(run[n], client, listing);
    assert ClientOk(run[n].store, run[n].clients[client]);
  }

  /** Commands known by a fingerprint before any state is read. */
  predicate StableFingerprint(c: Command) {
    !c.GradeExact? && !c.GradeVerified?
  }

  /** An exact retry of a committed command is recognised at its first identity check, from any state. */
  lemma ExactRetryIsRecognised(store: Store, c: Command, draft: Option<Payload>)
    requires Logged(store) && StableFingerprint(c) && Fulfilled(store, c)
    ensures IdentityOf(store, c, draft) == Same
  {
    var i :| 0 <= i < |store.stream| && store.stream[i].id == IdOf(c) &&
      Fulfils(c, store.stream[i].payload, store.state.book);
    if !IsArtifactCommand(c) {
      OneOccurrence(store.stream, IdOf(c), i);
    }
  }

  lemma {:induction false} OneOccurrence(stream: seq<Event>, id: EventId, i: nat)
    requires i < |stream| && stream[i].id == id && forall j :: 0 <= j < |stream| && stream[j].id == id ==> j == i
    ensures Occurrences(stream, id) == [stream[i]]
  {
    var n := |stream| - 1;
    assert forall j :: 0 <= j < n ==> stream[..n][j] == stream[j];
    if i == n {
      OccurrencesExact(stream[..n], id);
    } else {
      OneOccurrence(stream[..n], id, i);
    }
  }

  /** After a lost race: success exactly when the stream holds this command, conflict exactly when its identity
      is taken by another, retry exactly when the command did not commit. */
  lemma LostRaceIsResolved(store: Store, c: Client, listing: seq<Entry>)
    requires Logged(store) && ClientOk(store, c) && c.Running? && Program(c.command)[c.pc] == Resolve
    requires c.local.draft.Some?
    ensures var next := Advance(store, c, listing);
      && next.0 == store && next.1.Done?
      && (!InStream(store.stream, IdOf(c.command)) ==> next.1.outcome == Retryable)
      && (forall i :: 0 <= i < |store.stream| && store.stream[i].id == IdOf(c.command) ==>
            next.1.outcome == if FingerprintOf(store.stream[i].payload) == FingerprintOf(c.local.draft.value)
              then Success else Conflict)
  {
    var id := IdOf(c.command);
    if !InStream(store.stream, id) {
      OccurrencesExact(store.stream, id);
      IndexedIffCommitted(store, id);
    }
    forall i | 0 <= i < |store.stream| && store.stream[i].id == id
      ensures ResolvedIdentity(store, c.command, c.local.draft.value) ==
        if FingerprintOf(store.stream[i].payload) == FingerprintOf(c.local.draft.value) then Same else Different
    {
      ResolvedByEvent(store, c.command, c.local.draft.value, i);
    }
  }

  lemma ResolvedByEvent(store: Store, c: Command, draft: Payload, i: nat)
    requires Logged(store) && Fulfils(c, draft, store.state.book) && i < |store.stream| && store.stream[i].id == IdOf(c)
    ensures ResolvedIdentity(store, c, draft) ==
      if FingerprintOf(store.stream[i].payload) == FingerprintOf(draft) then Same else Different
  {
    if !IsArtifactCommand(c) {
      OneOccurrence(store.stream, IdOf(c), i);
    }
  }
}
