/** What a call that meets no interference ends with, for every command and every store: which of its checks fails
    first decides, and success, conflict and refusal are told accordingly. */
module CommandOutcomes {
  import opened Domain
  import opened ArtifactSnapshot
  import opened EventStore
  import opened Commands
  import opened CommandDrafts
  import opened CommandEvents
  import opened ServiceProtocol
  import opened ServiceVerdicts
  import opened ServiceProgress

  // --------------------------------------------------------------- the outcome

  predicate IsGrading(c: Command) {
    c.GradeExact? || c.GradeVerified?
  }

  /** An event of this very command is in the stream, under its identity. */
  ghost predicate IsRecorded(store: Store, c: Command) {
    exists at :: 0 <= at < |store.stream| && store.stream[at].id == IdOf(c) &&
      Repeats(c, store.stream[at].payload, store.state.book)
  }

  ghost predicate Grounded(store: Store, c: Command) {
    c.RecordHuman? ==> (c.session, HumanItem(c).provenance) in store.state.world.grounded
  }

  /** An assessment command first needs its session; a grading command then drafts before it asks for its identity,
      any other asks first.  A taken identity is success or conflict, a broken rule of grading a conflict; a draft that
      fails is told its obstacle; anything else that is missing is a refusal. */
  ghost function ExpectedOutcome(store: Store, c: Command): Outcome {
    var taken, draftable := InStream(store.stream, IdOf(c)), Draftable(store.state, c);
    if !IsArtifactCommand(c) && c.session !in store.state.world.sessions then Refused
    else if IsGrading(c) && !draftable then Obstacle(store.state, c)
    else if taken then if IsRecorded(store, c) then Success else Conflict
    else if !draftable then Obstacle(store.state, c)
    else if IsGrading(c) && !MayGrade(store.state.book, c) then Conflict
    else if Grounded(store, c) && Lands(store.state, c) then Success
    else Refused
  }

  // ------------------------------------------------------------ check by check

  ghost predicate Passes(store: Store, c: Command, action: Action) {
    match action
    case OpenSession => c.session in store.state.world.sessions
    case Identify => !InStream(store.stream, IdOf(c))
    case Consult => Draftable(store.state, c)
    case Draft => Draftable(store.state, c)
    case CheckRules => IsGrading(c) && MayGrade(store.state.book, c)
    case Ground => c.RecordHuman? && Grounded(store, c)
    case _ => true
  }

  /** What a failed check ends the call with. */
  ghost function FailureOutcome(store: Store, c: Command, action: Action): Outcome {
    match action
    case Identify => if IsRecorded(store, c) then Success else Conflict
    case CheckRules => Conflict
    case Consult => Obstacle(store.state, c)
    case Draft => Obstacle(store.state, c)
    case _ => Refused
  }

  /** What the client remembers after the actions. */
  ghost predicate Recalls(store: Store, c: Command, passed: seq<Action>, local: Local, listing: seq<Entry>) {
    var view := View(store.state, listing);
    && (ReadView in passed ==> local.view == Some(view))
    && local.receipt == (if Consult in passed then ReceiptFor(c, view) else None)
    && (Draft in passed ==> local.draft.Some? && local.draft == DraftFor(c, view, ReceiptFor(c, view)))
  }

  ghost predicate PassedBefore(store: Store, c: Command, n: nat)
    requires n <= |Program(c)|
  {
    forall k :: 0 <= k < n ==> Passes(store, c, Program(c)[k])
  }

  /** A client at a check: it expects the current length and has passed all checks before. */
  ghost predicate AtCheck(store: Store, c: Client, listing: seq<Entry>) {
    && c.Running? && c.expected == |store.stream| && c.pc < |Program(c.command)|
    && Program(c.command)[c.pc] != Resolve
    && PassedBefore(store, c.command, c.pc)
    && Recalls(store, c.command, Program(c.command)[..c.pc], c.local, listing)
  }

  lemma RecordedAt(store: Store, c: Command, at: nat)
    requires Logged(store) && at < |store.stream| && store.stream[at].id == IdOf(c)
    ensures IsRecorded(store, c) <==> Repeats(c, store.stream[at].payload, store.state.book)
  {
  }

  lemma RecallsDraft(store: Store, c: Client, listing: seq<Entry>)
    requires AtCheck(store, c, listing)
    ensures KeepsDraft(c)
  {
  }

  lemma AbsentIsNew(store: Store, c: Command)
    requires Logged(store) && !InStream(store.stream, IdOf(c))
    ensures CommandFor(store.state, IdOf(c)).None?
  {
    IndexedIffCommitted(store, IdOf(c));
  }

  lemma IdentityPasses(store: Store, c: Client, listing: seq<Entry>)
    requires Consistent(store) && Logged(store) && ClientOk(store, c) && AtCheck(store, c, listing)
    requires Program(c.command)[c.pc] == Identify
    ensures IdentityOf(store, c.command, c.local.draft) ==
      if Passes(store, c.command, Identify) then Fresh else if IsRecorded(store, c.command) then Same else Different
  {
    if InStream(store.stream, IdOf(c.command)) {
      var at :| 0 <= at < |store.stream| && store.stream[at].id == IdOf(c.command);
      RecallsDraft(store, c, listing);
      IdentityIsAnswered(store, c, at);
      RecordedAt(store, c.command, at);
    } else {
      AbsentIsNew(store, c.command);
      AbsentMeansFresh(store, c.command, c.local.draft);
    }
  }

  lemma ViewRecalled(store: Store, c: Client, listing: seq<Entry>)
    requires AtCheck(store, c, listing) && Program(c.command)[c.pc] in {Draft, Consult, CheckRules}
    ensures c.local.view == Some(View(store.state, listing))
    ensures Program(c.command)[c.pc] == Draft ==> c.local.receipt == ReceiptFor(c.command, View(store.state, listing))
  {
    ProgramOrder(c.command, c.pc);
  }

  /** What passing leaves in the client's memory. */
  ghost function Remembering(store: Store, c: Command, action: Action, local: Local, listing: seq<Entry>): Local {
    var view := View(store.state, listing);
    match action
    case ReadView => local.(view := Some(view))
    case Consult => local.(receipt := ReceiptFor(c, view))
    case Draft => local.(draft := DraftFor(c, view, ReceiptFor(c, view)))
    case _ => local
  }

  ghost predicate Decides(store: Store, c: Client, action: Action, listing: seq<Entry>)
    requires c.Running?
  {
    Compute(store, c, action, listing) ==
      if Passes(store, c.command, action) then Next(c, Remembering(store, c.command, action, c.local, listing))
      else Finish(c, FailureOutcome(store, c.command, action))
  }

  lemma IdentityDecides(store: Store, c: Client, listing: seq<Entry>)
    requires Consistent(store) && Logged(store) && ClientOk(store, c) && AtCheck(store, c, listing)
    requires Program(c.command)[c.pc] == Identify
    ensures Decides(store, c, Identify, listing)
  {
    IdentityPasses(store, c, listing);
  }

  /** A service decision that has been consulted is drafted from the same view. */
  lemma ConsultedIsDraftable(store: Store, c: Client, listing: seq<Entry>)
    requires AtCheck(store, c, listing) && Program(c.command)[c.pc] == Draft && c.command.DecideAsService?
    ensures Draftable(store.state, c.command)
  {
    ProgramOrder(c.command, c.pc);
    PassedIn(store, c.command, c.pc, Consult);
  }

  lemma DraftDecides(store: Store, c: Client, listing: seq<Entry>)
    requires Consistent(store) && Lists(listing, store.state.ledger.revisions) && AtCheck(store, c, listing)
    requires Program(c.command)[c.pc] == Draft
    ensures Decides(store, c, Draft, listing)
  {
    ViewRecalled(store, c, listing);
    DraftsByFacts(store, c.command, listing);
    if c.command.DecideAsService? {
      ConsultedIsDraftable(store, c, listing);
    }
  }

  lemma DraftsByFacts(store: Store, c: Command, listing: seq<Entry>)
    requires Consistent(store) && Lists(listing, store.state.ledger.revisions)
    ensures var view := View(store.state, listing);
      && (DraftFor(c, view, ReceiptFor(c, view)).Some? <==> Draftable(store.state, c))
      && (c.DecideAsService? ==> (ReceiptFor(c, view).Some? <==> Draftable(store.state, c)))
      && ObstacleTold(store.state, c, view)
  {
    StoreIsSound(store);
    ObstaclesAreTold(store.state, c, listing);
    DraftsExactly(store.state, c, listing, |store.stream|);
    if c.DecideAsService? {
      ConsultsExactly(store.state, c, listing);
    }
  }

  lemma ConsultDecides(store: Store, c: Client, listing: seq<Entry>)
    requires Consistent(store) && Lists(listing, store.state.ledger.revisions) && AtCheck(store, c, listing)
    requires Program(c.command)[c.pc] == Consult
    ensures Decides(store, c, Consult, listing)
  {
    ProgramOrder(c.command, c.pc);
    ViewRecalled(store, c, listing);
    DraftsByFacts(store, c.command, listing);
  }

  lemma RulesDecide(store: Store, c: Client, listing: seq<Entry>)
    requires AtCheck(store, c, listing) && Program(c.command)[c.pc] == CheckRules
    ensures Decides(store, c, CheckRules, listing)
  {
    ProgramOrder(c.command, c.pc);
    ViewRecalled(store, c, listing);
    RulesExactly(c.command, View(store.state, listing));
  }

  lemma OthersDecide(store: Store, c: Client, action: Action, listing: seq<Entry>)
    requires c.Running? && c.expected == |store.stream|
    requires action in {OpenSession, ExpectLength, ReadView, Ground}
    ensures Decides(store, c, action, listing)
  {
  }

  lemma CheckDecides(store: Store, c: Client, listing: seq<Entry>)
    requires Consistent(store) && Logged(store) && ClientOk(store, c) && AtCheck(store, c, listing)
    requires Lists(listing, store.state.ledger.revisions) && Program(c.command)[c.pc] != TryAppend
    ensures Decides(store, c, Program(c.command)[c.pc], listing)
  {
    var action := Program(c.command)[c.pc];
    if action == Identify {
      IdentityDecides(store, c, listing);
    } else if action == Draft {
      DraftDecides(store, c, listing);
    } else if action == Consult {
      ConsultDecides(store, c, listing);
    } else if action == CheckRules {
      RulesDecide(store, c, listing);
    } else {
      OthersDecide(store, c, action, listing);
    }
  }

  lemma RecallsMore(store: Store, c: Command, n: nat, local: Local, listing: seq<Entry>)
    requires n < |Program(c)| && Recalls(store, c, Program(c)[..n], local, listing)
    requires Program(c)[n] == Draft ==> DraftFor(c, View(store.state, listing),
                ReceiptFor(c, View(store.state, listing))).Some?
    ensures Recalls(store, c, Program(c)[..n + 1], Remembering(store, c, Program(c)[n], local, listing), listing)
  {
    assert Program(c)[..n + 1] == Program(c)[..n] + [Program(c)[n]];
  }

  lemma NextRecalls(store: Store, c: Command, n: nat, local: Local, listing: seq<Entry>)
    requires Consistent(store) && Lists(listing, store.state.ledger.revisions)
    requires n < |Program(c)| && Recalls(store, c, Program(c)[..n], local, listing) && Passes(store, c, Program(c)[n])
    ensures Recalls(store, c, Program(c)[..n + 1], Remembering(store, c, Program(c)[n], local, listing), listing)
  {
    DraftsByFacts(store, c, listing);
    RecallsMore(store, c, n, local, listing);
  }

  lemma NextCheck(store: Store, c: Client, listing: seq<Entry>, local: Local)
    requires AtCheck(store, c, listing) && Program(c.command)[c.pc] != TryAppend
    requires Passes(store, c.command, Program(c.command)[c.pc])
    requires Recalls(store, c.command, Program(c.command)[..c.pc + 1], local, listing)
    ensures AtCheck(store, Next(c, local), listing)
  {
    ProgramOrder(c.command, c.pc);
  }

  // ------------------------------------------------------- from checks to outcome

  lemma PassedIn(store: Store, c: Command, n: nat, action: Action)
    requires n <= |Program(c)| && PassedBefore(store, c, n) && action in Program(c)[..n]
    ensures Passes(store, c, action)
  {
    var k :| 0 <= k < n && Program(c)[..n][k] == action;
  }

  /** Which checks come before which. */
  lemma CheckOrder(c: Command, n: nat)
    requires n < |Program(c)|
    ensures !IsArtifactCommand(c) && Program(c)[n] != OpenSession ==> OpenSession in Program(c)[..n]
    ensures Program(c)[n] == OpenSession ==> !IsArtifactCommand(c)
    ensures IsGrading(c) && Program(c)[n] in {Identify, CheckRules} ==> Draft in Program(c)[..n]
    ensures !IsGrading(c) && Program(c)[n] in {Draft, Consult, Ground} ==> Identify in Program(c)[..n]
    ensures Program(c)[n] == Consult ==> !IsGrading(c)
    ensures Program(c)[n] == CheckRules ==> IsGrading(c) && Identify in Program(c)[..n]
    ensures Program(c)[n] == Ground ==> c.RecordHuman?
  {
    if !IsArtifactCommand(c) && Program(c)[n] != OpenSession {
      assert Program(c)[..n][0] == OpenSession;
    }
    if IsGrading(c) && Program(c)[n] in {Identify, CheckRules} {
      assert Program(c)[..n][2] == Draft;
      assert Program(c)[n] == CheckRules ==> Program(c)[..n][3] == Identify;
    }
    if !IsGrading(c) && Program(c)[n] in {Draft, Consult, Ground} {
      assert Program(c)[..n][0] == Identify || Program(c)[..n][1] == Identify;
    }
  }

  /** The first check that fails gives the outcome. */
  lemma FirstFailure(store: Store, c: Command, n: nat)
    requires n < |Program(c)| && Program(c)[n] !in {TryAppend, Resolve}
    requires PassedBefore(store, c, n) && !Passes(store, c, Program(c)[n])
    ensures ExpectedOutcome(store, c) == FailureOutcome(store, c, Program(c)[n]) && !Eligible(store, c)
  {
    CheckOrder(c, n);
    if !IsArtifactCommand(c) && Program(c)[n] != OpenSession {
      PassedIn(store, c, n, OpenSession);
    }
    if IsGrading(c) && Program(c)[n] in {Identify, CheckRules} {
      PassedIn(store, c, n, Draft);
    }
    if Program(c)[n] == CheckRules || (!IsGrading(c) && Program(c)[n] in {Draft, Consult, Ground}) {
      PassedIn(store, c, n, Identify);
    }
  }

  lemma NoFailure(store: Store, c: Command, n: nat)
    requires n < |Program(c)| && Program(c)[n] == TryAppend && (IsArtifactCommand(c) ==> store.stream != [])
    requires PassedBefore(store, c, n)
    ensures Eligible(store, c) && ExpectedOutcome(store, c) == if Lands(store.state, c) then Success else Refused
  {
    ChecksComeFirst(c, n);
    PassedIn(store, c, n, Identify);
    PassedIn(store, c, n, Draft);
    if c.RecordHuman? {
      PassedIn(store, c, n, Ground);
    } else if !IsArtifactCommand(c) {
      PassedIn(store, c, n, OpenSession);
      if IsGrading(c) {
        PassedIn(store, c, n, CheckRules);
      }
    }
  }

  // ------------------------------------------------------------------ in a run

  /** An idle client that starts the command and is not interrupted ends with `outcome` and leaves `after`; every other
      client is where it was. */
  ghost predicate EndsWith(
    run: seq<System>, longer: seq<System>, client: nat, c: Command, after: Store, outcome: Outcome)
    requires run != []
  {
    && IsRun(longer) && run <= longer
    && Last(longer) == System(after, Last(run).clients[client := Done(c, |Last(run).store.stream|, outcome)])
  }

  /** The store that the call leaves: one event more when the command was eligible and landed, else the same. */
  ghost predicate Leaves(before: Store, c: Command, after: Store) {
    if Eligible(before, c) && Lands(before.state, c) then AddsEventOf(before, after, c) else after == before
  }

  ghost predicate EndsAsExpected(run: seq<System>, longer: seq<System>, client: nat, c: Command)
    requires run != []
  {
    && longer != []
    && EndsWith(run, longer, client, c, Last(longer).store, ExpectedOutcome(Last(run).store, c))
    && Leaves(Last(run).store, c, Last(longer).store)
  }

  lemma AppendEnds(store: Store, c: Client, listing: seq<Entry>)
    requires Consistent(store) && Logged(store) && ClientOk(store, c) && AtCheck(store, c, listing)
    requires Program(c.command)[c.pc] == TryAppend
    ensures var next := Advance(store, c, listing);
      next.1 == Finish(c, ExpectedOutcome(store, c.command)) && Leaves(store, c.command, next.0)
  {
    NoFailure(store, c.command, c.pc);
    StoreDecides(store, c, listing);
    if Lands(store.state, c.command) {
      CommittedClient(store, c, listing);
    }
  }

  lemma StoreDecides(store: Store, c: Client, listing: seq<Entry>)
    requires Consistent(store) && Logged(store) && ClientOk(store, c) && c.Running?
    requires Program(c.command)[c.pc] == TryAppend && c.expected == |store.stream|
    ensures DecidedAtAppend(store, c, Advance(store, c, listing))
  {
    FactsAreCleared(store, c);
    AppendVerdict(store, c.command, c.local.receipt, c.local.draft.value);
  }

  /** One step of a client at a check, short of the append: on to the next check, or done as expected. */
  lemma CheckStep(store: Store, c: Client, listing: seq<Entry>)
    requires Consistent(store) && Logged(store) && ClientOk(store, c) && AtCheck(store, c, listing)
    requires Lists(listing, store.state.ledger.revisions) && Program(c.command)[c.pc] != TryAppend
    ensures var next := Advance(store, c, listing);
      && next.0 == store
      && (if next.1.Running?
          then AtCheck(store, next.1, listing) && next.1.command == c.command && next.1.pc == c.pc + 1
          else next.1 == Finish(c, ExpectedOutcome(store, c.command)) && !Eligible(store, c.command))
  {
    var action := Program(c.command)[c.pc];
    CheckDecides(store, c, listing);
    if Passes(store, c.command, action) {
      NextRecalls(store, c.command, c.pc, c.local, listing);
      NextCheck(store, c, listing, Remembering(store, c.command, action, c.local, listing));
    } else {
      FirstFailure(store, c.command, c.pc);
    }
  }

  lemma RunStep(run: seq<System>, client: nat, listing: seq<Entry>) returns (one: seq<System>)
    requires IsRun(run) && client in Last(run).clients && AtCheck(Last(run).store, Last(run).clients[client], listing)
    requires Lists(listing, Last(run).store.state.ledger.revisions)
    ensures var next := Advance(Last(run).store, Last(run).clients[client], listing);
      IsRun(one) && run <= one && Last(one) == System(next.0, Last(run).clients[client := next.1])
  {
    one := Extended(run, Step(client, listing));
  }

  lemma ClientStands(run: seq<System>, client: nat)
    requires IsRun(run) && client in Last(run).clients
    ensures Consistent(Last(run).store) && Logged(Last(run).store)
    ensures ClientOk(Last(run).store, Last(run).clients[client])
  {
    RunsKeep(run, |run| - 1);
  }

  lemma {:induction false} ChecksEnd(run: seq<System>, client: nat, listing: seq<Entry>) returns (longer: seq<System>)
    requires IsRun(run) && client in Last(run).clients && AtCheck(Last(run).store, Last(run).clients[client], listing)
    requires Lists(listing, Last(run).store.state.ledger.revisions)
    ensures EndsAsExpected(run, longer, client, Last(run).clients[client].command)
    decreases |Program(Last(run).clients[client].command)| - Last(run).clients[client].pc
  {
    var store, c := Last(run).store, Last(run).clients[client];
    ClientStands(run, client);
    var one := RunStep(run, client, listing);
    if Program(c.command)[c.pc] == TryAppend {
      AppendEnds(store, c, listing);
      longer := one;
    } else {
      CheckStep(store, c, listing);
      var next := Advance(store, c, listing).1;
      if next.Running? {
        longer := ChecksEnd(one, client, listing);
        EndsJoined(run, one, longer, client, next, c.command);
      } else {
        longer := one;
      }
    }
  }

  lemma EndsJoined(run: seq<System>, one: seq<System>, longer: seq<System>, client: nat, x: Client, c: Command)
    requires run != [] && run <= one && Last(one) == System(Last(run).store, Last(run).clients[client := x])
    requires EndsAsExpected(one, longer, client, c)
    ensures EndsAsExpected(run, longer, client, c)
  {
    var done := Done(c, |Last(run).store.stream|, ExpectedOutcome(Last(run).store, c));
    assert Last(run).clients[client := x][client := done] == Last(run).clients[client := done];
  }

  lemma StartsAtCheck(store: Store, c: Command, listing: seq<Entry>)
    ensures AtCheck(store, Running(c, |store.stream|, 0, NO_LOCAL), listing)
  {
    assert Program(c)[..0] == [];
  }

  /** From any state of any run, for every command and for every listing it may read: the call that an idle client
      starts, and that is not interrupted, ends with the expected outcome, adds exactly the command's own event when the
      command is eligible and lands, and otherwise changes nothing; every other client is where it was. */
  lemma CallEndsAsExpected(run: seq<System>, client: nat, c: Command, listing: seq<Entry>) returns (longer: seq<System>)
    requires IsRun(run) && (client in Last(run).clients ==> Last(run).clients[client].Done?)
    requires Lists(listing, Last(run).store.state.ledger.revisions)
    requires IsArtifactCommand(c) ==> Last(run).store.stream != []
    ensures EndsAsExpected(run, longer, client, c)
  {
    var store := Last(run).store;
    var one := Extended(run, Start(client, c, |store.stream|));
    StartsAtCheck(store, c, listing);
    longer := ChecksEnd(one, client, listing);
    EndsJoined(run, one, longer, client, Running(c, |store.stream|, 0, NO_LOCAL), c);
  }
}
