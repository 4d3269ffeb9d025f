/** One call from its start to its outcome, inside any run: what a retry can end with, and exactly when "retry"
    means that the command is not in the stream. */
module ServiceCalls {
  import opened Domain
  import opened ArtifactSnapshot
  import opened EventStore
  import opened Commands
  import opened ServiceProtocol
  import opened AssessmentLedger
  import opened Course
  import AssessmentRuns

  // ------------------------------------------------------------- append only

  ghost predicate Grows(before: Store, after: Store) {
    before.stream <= after.stream && AssessmentRuns.BookLater(before.state.book, after.state.book)
  }

  lemma MoveGrows(s: System, m: Move)
    requires Enabled(s, m)
    ensures Grows(s.store, Moved(s, m).store)
  {
    match m
    case Start(_, _, _) =>
    case Step(client, listing) => AdvanceGrows(s.store, s.clients[client], listing);
    case Context(event) => AppendGrows(s.store, |s.store.stream|, event);
  }

  lemma AdvanceGrows(store: Store, c: Client, listing: seq<Entry>)
    requires c.Running? && c.pc < |Program(c.command)|
    ensures Grows(store, Advance(store, c, listing).0)
  {
    if Program(c.command)[c.pc] == TryAppend && c.local.draft.Some? {
      var e := EventFor(c.command, c.local.draft.value, c.expected);
      if Append(store, c.expected, e).Committed? {
        AppendGrows(store, c.expected, e);
      }
    }
  }

  lemma FollowsGrows(s: System, t: System)
    requires Follows(s, t)
    ensures Grows(s.store, t.store)
  {
    var m :| Enabled(s, m) && Moved(s, m) == t;
    MoveGrows(s, m);
  }

  lemma GrowsJoins(first: Store, second: Store, third: Store)
    requires Grows(first, second) && Grows(second, third)
    ensures Grows(first, third)
  {
    AssessmentRuns.BookLaterJoins(first.state.book, second.state.book, third.state.book);
  }

  /** Across a run the stream is append-only: every earlier stream is a prefix of every later one, and every earlier
      assessment record is in every later book. */
  lemma {:induction false} StreamIsAppendOnly(run: seq<System>, i: nat, j: nat)
    requires IsRun(run) && i <= j < |run|
    ensures Grows(run[i].store, run[j].store)
    decreases j
  {
    if i < j {
      StreamIsAppendOnly(run, i, j - 1);
      assert StepAt(run, j);
      FollowsGrows(run[j - 1], run[j]);
      GrowsJoins(run[i].store, run[j - 1].store, run[j].store);
    }
  }

  lemma StaysInStream(before: seq<Event>, after: seq<Event>, id: EventId)
    requires before <= after && InStream(before, id)
    ensures InStream(after, id)
  {
    var i :| 0 <= i < |before| && before[i].id == id;
    assert after[i].id == id;
  }

  // --------------------------------------------------------------------- calls

  /** Client `c` starts a call at `run[i]` and is still running it at `run[n]`. */
  ghost predicate InCall(run: seq<System>, c: nat, i: nat, n: nat) {
    && i <= n < |run|
    && (forall k :: i <= k <= n ==> c in run[k].clients && run[k].clients[c].Running?)
    && run[i].clients[c].pc == 0
  }

  ghost predicate Stepped(s: System, t: System, c: nat) {
    exists listing :: Enabled(s, Step(c, listing)) && Moved(s, Step(c, listing)) == t
  }

  lemma StillOrStepped(s: System, t: System, c: nat)
    requires Follows(s, t) && c in s.clients && s.clients[c].Running? && c in t.clients
    ensures t.clients[c] == s.clients[c] || Stepped(s, t, c)
  {
    var m :| Enabled(s, m) && Moved(s, m) == t;
    if m.Step? && m.client == c {
      assert Enabled(s, Step(c, m.listing)) && Moved(s, Step(c, m.listing)) == t;
    }
  }

  /** A step that leaves its call running moves it on by one. */
  lemma AdvanceContinues(store: Store, c: Client, listing: seq<Entry>)
    requires c.Running? && c.pc < |Program(c.command)|
    ensures var next := Advance(store, c, listing).1;
      && next.command == c.command && next.expected == c.expected
      && (next.Running? ==> next.pc == c.pc + 1)
  {
    if Program(c.command)[c.pc] != TryAppend {
      ComputeContinues(store, c, Program(c.command)[c.pc], listing);
    }
  }

  /** Between two states of a call the client stands still or moves on by one step of the same command. */
  lemma CallStep(s: System, t: System, c: nat)
    requires Follows(s, t) && c in s.clients && s.clients[c].Running? && c in t.clients && t.clients[c].Running?
    ensures t.clients[c].command == s.clients[c].command
    ensures t.clients[c] == s.clients[c] || t.clients[c].pc == s.clients[c].pc + 1
  {
    StillOrStepped(s, t, c);
    if t.clients[c] != s.clients[c] {
      var listing :| Enabled(s, Step(c, listing)) && Moved(s, Step(c, listing)) == t;
      AdvanceContinues(s.store, s.clients[c], listing);
    }
  }

  lemma {:induction false} CallKeepsCommand(run: seq<System>, c: nat, i: nat, n: nat)
    requires IsRun(run) && InCall(run, c, i, n)
    ensures run[n].clients[c].command == run[i].clients[c].command
    decreases n
  {
    if i < n {
      CallKeepsCommand(run, c, i, n - 1);
      assert StepAt(run, n);
      CallStep(run[n - 1], run[n], c);
    }
  }

  // --------------------------------------------------- a retry of a done command

  /** A call with a stable fingerprint, on a store that holds its command, gets no further than its first identity
      check. */
  ghost predicate AtEntry(c: Client) {
    c.Running? && (c.pc == 0 || (c.pc == 1 && !IsArtifactCommand(c.command)))
  }

  lemma EntryStep(store: Store, c: Client, listing: seq<Entry>)
    requires Logged(store) && AtEntry(c) && StableFingerprint(c.command) && Fulfilled(store, c.command)
    ensures c.pc < |Program(c.command)|
    ensures var next := Advance(store, c, listing);
      && next.0 == store
      && (next.1.Running? ==> AtEntry(next.1))
      && (next.1.Done? ==>
            next.1.outcome == Success ||
              (next.1.outcome == Refused && c.command.session !in store.state.world.sessions))
  {
    ExactRetryIsRecognised(store, c.command, c.local.draft);
    EntryActions(c);
    if Program(c.command)[c.pc] == OpenSession {
      OpenStep(store, c, listing);
    }
  }

  lemma EntryActions(c: Client)
    requires AtEntry(c) && StableFingerprint(c.command)
    ensures c.pc < |Program(c.command)|
    ensures Program(c.command)[c.pc] == if c.pc == 0 && !IsArtifactCommand(c.command) then OpenSession else Identify
  {
  }

  lemma OpenStep(store: Store, c: Client, listing: seq<Entry>)
    requires c.Running?
    ensures Compute(store, c, OpenSession, listing) ==
      if c.command.session in store.state.world.sessions then Next(c, c.local) else Finish(c, Refused)
  {
  }

  /** A retried verified grade recovers an outcome that still matches the attempt it grades. */
  ghost predicate OutcomeStands(st: State, c: Command) {
    c.GradeVerified? ==> OutcomeHolds(c, View(st, []))
  }

  /** A retried grading call rebuilds its payload, which it can when its outcome `stands`, and gets no further than
      its identity check. */
  ghost predicate AtGradeEntry(c: Client, stands: bool) {
    && c.Running? && !StableFingerprint(c.command) && c.pc <= 3
    && (2 <= c.pc ==> c.local.view.Some?)
    && (2 <= c.pc && stands ==> DraftFor(c.command, c.local.view.value, c.local.receipt).Some?)
    && (c.pc == 3 ==> c.local.draft.Some?)
  }

  /** A step of a retried call changes nothing, and ends the call with success unless the session is closed or the
      outcome does not stand. */
  ghost predicate RetryAnswers(store: Store, c: Client, next: (Store, Client), stands: bool)
    requires c.Running?
  {
    && next.0 == store
    && (next.1.Done? ==>
          || next.1.outcome == Success
          || (next.1.outcome == Refused && c.command.session !in store.state.world.sessions)
          || (next.1.outcome in {Refused, Conflict} && !stands))
  }

  lemma GradeIsRebuilt(store: Store, c: Command, listing: seq<Entry>, receipt: Option<Receipt>)
    requires !StableFingerprint(c) && Fulfilled(store, c) && OutcomeStands(store.state, c)
    ensures DraftFor(c, View(store.state, listing), receipt).Some?
  {
  }

  lemma GradeIsRecognised(store: Store, c: Command, draft: Option<Payload>)
    requires Logged(store) && !StableFingerprint(c) && Fulfilled(store, c)
    requires draft.Some? && Fulfils(c, draft.value, store.state.book)
    ensures IdentityOf(store, c, draft) == Same
  {
    var i :| 0 <= i < |store.stream| && store.stream[i].id == IdOf(c) &&
      Fulfils(c, store.stream[i].payload, store.state.book);
    OneOccurrence(store.stream, IdOf(c), i);
  }

  lemma GradeEntryActions(c: Command, n: nat)
    requires !StableFingerprint(c) && n <= 3
    ensures n < |Program(c)| && Program(c)[n] == [OpenSession, ReadView, Draft, Identify][n] != TryAppend
  {
  }

  lemma GradeComputes(store: Store, c: Client, action: Action, listing: seq<Entry>, stands: bool)
    requires c.Running? && c.pc <= 3 && action == [OpenSession, ReadView, Draft, Identify][c.pc]
    requires Logged(store) && AtGradeEntry(c, stands) && LocalOk(store.state.book, c.command, c.local)
    requires Fulfilled(store, c.command) && (stands ==> OutcomeStands(store.state, c.command))
    ensures var next := Compute(store, c, action, listing);
      RetryAnswers(store, c, (store, next), stands) && (next.Running? ==> AtGradeEntry(next, stands))
  {
    if c.pc == 1 && stands {
      GradeIsRebuilt(store, c.command, listing, c.local.receipt);
    } else if c.pc == 3 {
      GradeIsRecognised(store, c.command, c.local.draft);
    }
  }

  lemma GradeEntryStep(store: Store, c: Client, listing: seq<Entry>, stands: bool)
    requires Logged(store) && AtGradeEntry(c, stands) && LocalOk(store.state.book, c.command, c.local)
    requires Fulfilled(store, c.command) && (stands ==> OutcomeStands(store.state, c.command))
    ensures c.pc < |Program(c.command)|
    ensures RetryAnswers(store, c, Advance(store, c, listing), stands)
    ensures Advance(store, c, listing).1.Running? ==> AtGradeEntry(Advance(store, c, listing).1, stands)
  {
    GradeEntryActions(c.command, c.pc);
    GradeComputes(store, c, Program(c.command)[c.pc], listing, stands);
  }

  /** A retried call that has not got past its identity check. */
  ghost predicate Rechecking(c: Client, stands: bool) {
    c.Running? && if StableFingerprint(c.command) then AtEntry(c) else AtGradeEntry(c, stands)
  }

  lemma RecheckStep(store: Store, c: Client, listing: seq<Entry>, stands: bool)
    requires Logged(store) && Rechecking(c, stands) && LocalOk(store.state.book, c.command, c.local)
    requires Fulfilled(store, c.command) && (stands ==> OutcomeStands(store.state, c.command))
    ensures c.pc < |Program(c.command)|
    ensures RetryAnswers(store, c, Advance(store, c, listing), stands)
    ensures Advance(store, c, listing).1.Running? ==> Rechecking(Advance(store, c, listing).1, stands)
  {
    if StableFingerprint(c.command) {
      EntryStep(store, c, listing);
    } else {
      GradeEntryStep(store, c, listing, stands);
    }
    AdvanceContinues(store, c, listing);
  }

  lemma RecheckMove(s: System, t: System, c: nat, stands: bool)
    requires Logged(s.store) && Follows(s, t) && c in s.clients && c in t.clients && t.clients[c].Running?
    requires Rechecking(s.clients[c], stands) && LocalOk(s.store.state.book, s.clients[c].command, s.clients[c].local)
    requires Fulfilled(s.store, s.clients[c].command)
    requires stands ==> OutcomeStands(s.store.state, s.clients[c].command)
    ensures Rechecking(t.clients[c], stands)
  {
    StillOrStepped(s, t, c);
    if t.clients[c] != s.clients[c] {
      var listing :| Enabled(s, Step(c, listing)) && Moved(s, Step(c, listing)) == t;
      RecheckStep(s.store, s.clients[c], listing, stands);
    }
  }

  lemma OutcomeKeepsStanding(before: State, after: State, c: Command)
    requires OutcomeStands(before, c) && AssessmentRuns.BookLater(before.book, after.book)
    ensures OutcomeStands(after, c)
  {
  }

  /** Client `c` started a call at `run[i]`, when its command was in the stream. */
  ghost predicate Retries(run: seq<System>, c: nat, i: nat, n: nat) {
    InCall(run, c, i, n) && Fulfilled(run[i].store, run[i].clients[c].command)
  }

  lemma RetryStaysFulfilled(run: seq<System>, c: nat, i: nat, n: nat)
    requires IsRun(run) && Retries(run, c, i, n)
    ensures run[n].clients[c].command == run[i].clients[c].command && Fulfilled(run[n].store, run[n].clients[c].command)
    ensures OutcomeStands(run[i].store.state, run[i].clients[c].command) ==>
      OutcomeStands(run[n].store.state, run[n].clients[c].command)
  {
    CallKeepsCommand(run, c, i, n);
    StreamIsAppendOnly(run, i, n);
    FulfilledPersists(run[i].store, run[n].store, run[i].clients[c].command);
    if OutcomeStands(run[i].store.state, run[i].clients[c].command) {
      OutcomeKeepsStanding(run[i].store.state, run[n].store.state, run[i].clients[c].command);
    }
  }

  lemma ClientRemembers(run: seq<System>, c: nat, n: nat)
    requires IsRun(run) && n < |run| && c in run[n].clients && run[n].clients[c].Running?
    ensures Logged(run[n].store)
    ensures LocalOk(run[n].store.state.book, run[n].clients[c].command, run[n].clients[c].local)
  {
    RunsKeep(run, n);
    assert ClientOk(run[n].store, run[n].clients[c]);
  }

  lemma LastMove(run: seq<System>, n: nat)
    requires IsRun(run) && 0 < n < |run|
    ensures Follows(run[n - 1], run[n])
  {
    assert StepAt(run, n);
  }

  lemma RetryNext(run: seq<System>, c: nat, i: nat, n: nat, stands: bool)
    requires IsRun(run) && Retries(run, c, i, n) && i < n && Rechecking(run[n - 1].clients[c], stands)
    requires stands ==> OutcomeStands(run[i].store.state, run[i].clients[c].command)
    ensures Rechecking(run[n].clients[c], stands)
  {
    RetryStaysFulfilled(run, c, i, n - 1);
    ClientRemembers(run, c, n - 1);
    LastMove(run, n);
    RecheckMove(run[n - 1], run[n], c, stands);
  }

  lemma {:induction false} RetryKeepsRechecking(run: seq<System>, c: nat, i: nat, n: nat, stands: bool)
    requires IsRun(run) && Retries(run, c, i, n)
    requires stands ==> OutcomeStands(run[i].store.state, run[i].clients[c].command)
    ensures Rechecking(run[n].clients[c], stands)
    decreases n
  {
    if i < n {
      RetryKeepsRechecking(run, c, i, n - 1, stands);
      RetryNext(run, c, i, n, stands);
    }
  }

  /** In every run, a call of any command that starts when the command is already in the stream changes nothing and
      can finish only with success, or refused because its session is closed, or, for a verified grade, refused or
      in conflict because the outcome it recovers does not match the attempt. */
  lemma RetriedCallSucceeds(run: seq<System>, c: nat, i: nat, n: nat, listing: seq<Entry>)
    requires IsRun(run) && InCall(run, c, i, n) && Enabled(run[n], Step(c, listing))
    requires Fulfilled(run[i].store, run[i].clients[c].command)
    ensures var next, command := Moved(run[n], Step(c, listing)), run[i].clients[c].command;
      && next.store == run[n].store
      && (next.clients[c].Done? ==>
            || next.clients[c].outcome == Success
            || (next.clients[c].outcome == Refused && command.session !in run[n].store.state.world.sessions)
            || (next.clients[c].outcome in {Refused, Conflict} && !OutcomeStands(run[i].store.state, command)))
  {
    var stands := OutcomeStands(run[i].store.state, run[i].clients[c].command);
    RetryKeepsRechecking(run, c, i, n, stands);
    RetryStaysFulfilled(run, c, i, n);
    ClientRemembers(run, c, n);
    RecheckStep(run[n].store, run[n].clients[c], listing, stands);
  }

  // ------------------------------------------------------- what "retry" means

  /** The two places a call is told to retry: a length check that finds the stream moved on, whoever moved it, and
      a lost race whose resolution does not find the command. */
  lemma RetryableSteps(store: Store, c: Client, listing: seq<Entry>)
    requires Logged(store) && ClientOk(store, c) && c.Running?
    ensures var next, action := Advance(store, c, listing).1, Program(c.command)[c.pc];
      (next.Done? && next.outcome == Retryable) <==>
        || (action == ExpectLength && |store.stream| != c.expected)
        || (action == Resolve && c.local.draft.Some? && !InStream(store.stream, IdOf(c.command)))
  {
    var action := Program(c.command)[c.pc];
    if action == Identify {
      IdentifyNeverRetries(store, c, listing);
    } else if action == Resolve && c.local.draft.Some? {
      ResolveRetries(store, c, listing);
    }
  }

  lemma IdentifyNeverRetries(store: Store, c: Client, listing: seq<Entry>)
    requires c.Running?
    ensures var next := Compute(store, c, Identify, listing); next.Done? ==> next.outcome != Retryable
  {
  }

  lemma ResolveRetries(store: Store, c: Client, listing: seq<Entry>)
    requires Logged(store) && ClientOk(store, c) && c.Running? && Program(c.command)[c.pc] == Resolve
    requires c.local.draft.Some?
    ensures Advance(store, c, listing).1.Done?
    ensures Advance(store, c, listing).1.outcome == Retryable <==> !InStream(store.stream, IdOf(c.command))
  {
    LostRaceIsResolved(store, c, listing);
    if InStream(store.stream, IdOf(c.command)) {
      var i :| 0 <= i < |store.stream| && store.stream[i].id == IdOf(c.command);
      assert store.stream[i].id == IdOf(c.command);
    }
  }

  /** Some other client, running a command of the same identity, commits between `run[k]` and `run[k + 1]`. */
  ghost predicate TwinCommits(run: seq<System>, c: nat, id: EventId, k: nat, d: nat)
    requires k + 1 < |run|
  {
    d != c && CommitsAs(run[k], run[k + 1], id, d)
  }

  /** Client `d` finishes a command of this identity with success, and the stream gains one event of this identity. */
  ghost predicate CommitsAs(s: System, t: System, id: EventId, d: nat) {
    && d in s.clients && s.clients[d].Running? && IdOf(s.clients[d].command) == id
    && d in t.clients && t.clients[d] == Finish(s.clients[d], Success)
    && |t.store.stream| == |s.store.stream| + 1 && t.store.stream[|s.store.stream|].id == id
  }

  ghost predicate TwinCommitted(run: seq<System>, c: nat, id: EventId, i: nat, n: nat)
    requires n < |run|
  {
    exists k: nat, d: nat :: i <= k < n && TwinCommits(run, c, id, k, d)
  }

  /** Only a client's step brings a command identity into the stream. */
  lemma ArrivalIsStep(s: System, m: Move, id: EventId)
    requires Enabled(s, m) && !id.OtherEventId?
    ensures !InStream(s.store.stream, id) && InStream(Moved(s, m).store.stream, id) ==> m.Step?
  {
    if m.Context? && InStream(Moved(s, m).store.stream, id) {
      var i :| 0 <= i < |Moved(s, m).store.stream| && Moved(s, m).store.stream[i].id == id;
      AppendGrows(s.store, |s.store.stream|, m.event);
      assert m.event.id.OtherEventId?;
      assert i < |s.store.stream| && s.store.stream[i].id == id;
    }
  }

  /** A move that brings a command identity into the stream is the commit of a client running that command. */
  lemma ArrivalIsCommit(s: System, t: System, id: EventId) returns (d: nat)
    requires Follows(s, t) && !id.OtherEventId? && !InStream(s.store.stream, id) && InStream(t.store.stream, id)
    ensures CommitsAs(s, t, id, d)
  {
    var m :| Enabled(s, m) && Moved(s, m) == t;
    ArrivalIsStep(s, m, id);
    d := m.client;
    CommitAddsOwn(s.store, s.clients[d], m.listing, id);
  }

  lemma CommitAddsOwn(store: Store, c: Client, listing: seq<Entry>, id: EventId)
    requires c.Running? && c.pc < |Program(c.command)|
    requires !InStream(store.stream, id) && InStream(Advance(store, c, listing).0.stream, id)
    ensures var next := Advance(store, c, listing);
      && IdOf(c.command) == id && next.1 == Finish(c, Success)
      && |next.0.stream| == |store.stream| + 1 && next.0.stream[|store.stream|].id == id
  {
    var next := Advance(store, c, listing).0;
    assert forall j :: 0 <= j < |store.stream| ==> next.stream[j] == store.stream[j];
    var i :| 0 <= i < |next.stream| && next.stream[i].id == id;
    assert i == |store.stream|;
  }

  /** An identity absent at the start and present at the end of a stretch of a call was committed by a twin. */
  lemma {:induction false} ArrivalIsTwin(run: seq<System>, c: nat, i: nat, n: nat, id: EventId)
    requires IsRun(run) && InCall(run, c, i, n) && !id.OtherEventId?
    requires !InStream(run[i].store.stream, id) && InStream(run[n].store.stream, id)
    ensures TwinCommitted(run, c, id, i, n)
    decreases n
  {
    if InStream(run[n - 1].store.stream, id) {
      ArrivalIsTwin(run, c, i, n - 1, id);
      var k: nat, d: nat :| i <= k < n - 1 && TwinCommits(run, c, id, k, d);
      assert TwinCommits(run, c, id, k, d);
    } else {
      assert StepAt(run, n);
      var d := ArrivalIsCommit(run[n - 1], run[n], id);
      assert d != c;
      assert TwinCommits(run, c, id, n - 1, d);
    }
  }

  lemma ArrivedStays(run: seq<System>, k: nat, n: nat, id: EventId)
    requires IsRun(run) && k <= n < |run| && InStream(run[k].store.stream, id)
    ensures InStream(run[n].store.stream, id)
  {
    StreamIsAppendOnly(run, k, n);
    StaysInStream(run[k].store.stream, run[n].store.stream, id);
  }

  lemma TwinIsInStream(run: seq<System>, c: nat, i: nat, n: nat, id: EventId)
    requires IsRun(run) && i <= n < |run| && TwinCommitted(run, c, id, i, n)
    ensures InStream(run[n].store.stream, id)
  {
    var k: nat, d: nat :| i <= k < n && TwinCommits(run, c, id, k, d);
    assert InStream(run[k + 1].store.stream, id);
    ArrivedStays(run, k + 1, n, id);
  }

  lemma FreshStep(store: Store, c: Client, listing: seq<Entry>)
    requires Logged(store) && c.Running? && c.pc < |Program(c.command)| && Program(c.command)[c.pc] == Identify
    requires Advance(store, c, listing).1.Running?
    ensures !InStream(store.stream, IdOf(c.command))
  {
    FreshMeansAbsent(store, c.command, c.local.draft);
  }

  /** Where a program first checks its identity. */
  function IdentifyAt(c: Command): (n: nat)
    ensures n < |Program(c)| && Program(c)[n] == Identify
  {
    if IsArtifactCommand(c) then 0 else if c.GradeExact? || c.GradeVerified? then 3 else 1
  }

  ghost predicate PastIdentify(c: Client)
    requires c.Running?
  {
    IdentifyAt(c.command) < c.pc
  }

  lemma PassingStep(store: Store, c: Client, listing: seq<Entry>)
    requires Logged(store) && c.Running? && c.pc < |Program(c.command)| && !PastIdentify(c)
    requires Advance(store, c, listing).1.Running? && PastIdentify(Advance(store, c, listing).1)
    ensures !InStream(store.stream, IdOf(c.command))
  {
    AdvanceContinues(store, c, listing);
    FreshStep(store, c, listing);
  }

  lemma PassingMove(s: System, t: System, c: nat)
    requires Logged(s.store) && Follows(s, t) && c in s.clients && s.clients[c].Running? && c in t.clients
    requires t.clients[c].Running?
    requires PastIdentify(t.clients[c]) && !PastIdentify(s.clients[c])
    ensures !InStream(s.store.stream, IdOf(s.clients[c].command))
  {
    StillOrStepped(s, t, c);
    var listing :| Enabled(s, Step(c, listing)) && Moved(s, Step(c, listing)) == t;
    PassingStep(s.store, s.clients[c], listing);
  }

  lemma AbsentInStep(run: seq<System>, c: nat, n: nat)
    requires IsRun(run) && 0 < n < |run| && Logged(run[n - 1].store)
    requires c in run[n - 1].clients && run[n - 1].clients[c].Running? && c in run[n].clients
    requires run[n].clients[c].Running?
    requires PastIdentify(run[n].clients[c]) && !PastIdentify(run[n - 1].clients[c])
    ensures !InStream(run[n - 1].store.stream, IdOf(run[n - 1].clients[c].command))
  {
    assert StepAt(run, n);
    PassingMove(run[n - 1], run[n], c);
  }

  lemma AbsentWhenPassing(run: seq<System>, c: nat, n: nat)
    requires IsRun(run) && 0 < n < |run|
    requires c in run[n - 1].clients && run[n - 1].clients[c].Running? && c in run[n].clients
    requires run[n].clients[c].Running?
    requires PastIdentify(run[n].clients[c]) && !PastIdentify(run[n - 1].clients[c])
    ensures !InStream(run[n - 1].store.stream, IdOf(run[n - 1].clients[c].command))
  {
    RunsLog(run, n - 1);
    AbsentInStep(run, c, n);
  }

  lemma AbsentBefore(run: seq<System>, i: nat, k: nat, id: EventId)
    requires IsRun(run) && i <= k < |run| && !InStream(run[k].store.stream, id)
    ensures !InStream(run[i].store.stream, id)
  {
    StreamIsAppendOnly(run, i, k);
    NotEarlier(run[i].store.stream, run[k].store.stream, id);
  }

  lemma PassedJustNow(run: seq<System>, c: nat, i: nat, n: nat)
    requires IsRun(run) && InCall(run, c, i, n) && i < n && PastIdentify(run[n].clients[c])
    requires !PastIdentify(run[n - 1].clients[c])
    ensures !InStream(run[i].store.stream, IdOf(run[n - 1].clients[c].command))
  {
    AbsentWhenPassing(run, c, n);
    AbsentBefore(run, i, n - 1, IdOf(run[n - 1].clients[c].command));
  }

  lemma SameCommand(run: seq<System>, c: nat, i: nat, n: nat)
    requires IsRun(run) && InCall(run, c, i, n) && i < n
    ensures run[n].clients[c].command == run[n - 1].clients[c].command
  {
    CallKeepsCommand(run, c, i, n);
    CallKeepsCommand(run, c, i, n - 1);
  }

  /** A call past its identity check started when its identity was not in the stream. */
  lemma {:induction false} PassedIdentity(run: seq<System>, c: nat, i: nat, n: nat)
    requires IsRun(run) && InCall(run, c, i, n) && PastIdentify(run[n].clients[c])
    ensures !InStream(run[i].store.stream, IdOf(run[n].clients[c].command))
    decreases n
  {
    if i < n {
      SameCommand(run, c, i, n);
      if PastIdentify(run[n - 1].clients[c]) {
        PassedIdentity(run, c, i, n - 1);
      } else {
        PassedJustNow(run, c, i, n);
      }
    }
  }

  lemma NotEarlier(before: seq<Event>, after: seq<Event>, id: EventId)
    requires before <= after
    ensures InStream(before, id) ==> InStream(after, id)
  {
    if InStream(before, id) {
      StaysInStream(before, after, id);
    }
  }

  lemma RetryIsPastIdentify(c: Client)
    requires c.Running? && c.pc < |Program(c.command)| && Program(c.command)[c.pc] in {ExpectLength, Resolve}
    ensures PastIdentify(c)
  {
  }

  // --------------------------------------------------- the twin's own command

  /** The event a commit between `run[k]` and `run[k + 1]` adds. */
  function AddedEvent(run: seq<System>, k: nat): Event
    requires k + 1 < |run| && |run[k].store.stream| < |run[k + 1].store.stream|
  {
    run[k + 1].store.stream[|run[k].store.stream|]
  }

  /** Two commands under one identity ask for the same event; what an exact grade asks for is read from the book. */
  ghost predicate SameRequest(c: Command, d: Command, book: Assessments) {
    match c
    case Present(_, _, revision) => d.Present? && d.revision == revision
    case Respond(_, _, _, _, _) => d.Respond? && ResponsePayload(d) == ResponsePayload(c)
    case ContestGrade(_, _, _, _) => d.ContestGrade? && ContestPayload(d) == ContestPayload(c)
    case GradeExact(_, _, _, _) => d.GradeExact? && ExactPayload(d, book) == ExactPayload(c, book)
    case GradeVerified(_, _, _, _) => d.GradeVerified? && VerifiedGrade(d) == VerifiedGrade(c)
    case _ => IsArtifactCommand(d) && CommandFingerprint(d) == CommandFingerprint(c)
  }

  lemma SameRequestFulfils(c: Command, d: Command, p: Payload, book: Assessments)
    requires IdOf(c) == IdOf(d) && Fulfils(d, p, book)
    ensures Fulfils(c, p, book) <==> SameRequest(c, d, book)
  {
  }

  /** A twin commits an event that carries out `command`. */
  ghost predicate TwinFulfilled(run: seq<System>, c: nat, command: Command, i: nat, n: nat)
    requires n < |run|
  {
    exists k: nat, d: nat ::
      && i <= k < n && TwinCommits(run, c, IdOf(command), k, d)
      && Fulfils(command, AddedEvent(run, k).payload, run[n].store.state.book)
  }

  /** A twin commits the same command. */
  ghost predicate TwinAgreed(run: seq<System>, c: nat, command: Command, i: nat, n: nat)
    requires n < |run|
  {
    exists k: nat, d: nat ::
      && i <= k < n && TwinCommits(run, c, IdOf(command), k, d)
      && SameRequest(command, run[k].clients[d].command, run[n].store.state.book)
  }

  lemma TwinEventStays(run: seq<System>, c: nat, id: EventId, k: nat, d: nat, n: nat)
    requires IsRun(run) && k < n < |run| && TwinCommits(run, c, id, k, d)
    ensures |run[k].store.stream| < |run[n].store.stream|
    ensures run[n].store.stream[|run[k].store.stream|] == AddedEvent(run, k) && AddedEvent(run, k).id == id
  {
    StreamIsAppendOnly(run, k + 1, n);
  }

  /** The command is in the stream exactly when the event its twin committed carries it out. */
  lemma TwinEventDecides(run: seq<System>, c: nat, command: Command, k: nat, d: nat, n: nat)
    requires IsRun(run) && k < n < |run| && TwinCommits(run, c, IdOf(command), k, d)
    ensures Fulfilled(run[n].store, command) <==>
      Fulfils(command, AddedEvent(run, k).payload, run[n].store.state.book)
  {
    TwinEventStays(run, c, IdOf(command), k, d, n);
    RunsLog(run, n);
    if Fulfilled(run[n].store, command) {
      SuccessIsThatEvent(run[n].store, command, |run[k].store.stream|);
    }
  }

  lemma TwinFulfilsOwn(run: seq<System>, c: nat, id: EventId, k: nat, d: nat, n: nat)
    requires IsRun(run) && k < n < |run| && TwinCommits(run, c, id, k, d)
    ensures Fulfilled(run[n].store, run[k].clients[d].command)
  {
    RunsKeep(run, k + 1);
    assert ClientOk(run[k + 1].store, run[k + 1].clients[d]);
    StreamIsAppendOnly(run, k + 1, n);
    FulfilledPersists(run[k + 1].store, run[n].store, run[k].clients[d].command);
  }

  /** The event a twin committed carries a command out exactly when the twin ran the same command. */
  lemma TwinCommandDecides(run: seq<System>, c: nat, command: Command, k: nat, d: nat, n: nat)
    requires IsRun(run) && k < n < |run| && TwinCommits(run, c, IdOf(command), k, d)
    ensures Fulfilled(run[n].store, command) <==>
      SameRequest(command, run[k].clients[d].command, run[n].store.state.book)
  {
    var twin := run[k].clients[d].command;
    TwinFulfilsOwn(run, c, IdOf(command), k, d, n);
    TwinEventDecides(run, c, twin, k, d, n);
    TwinEventDecides(run, c, command, k, d, n);
    SameRequestFulfils(command, twin, AddedEvent(run, k).payload, run[n].store.state.book);
  }

  lemma FulfilledIsInStream(store: Store, c: Command)
    requires Fulfilled(store, c)
    ensures InStream(store.stream, IdOf(c))
  {
  }

  lemma TwinShows(run: seq<System>, c: nat, command: Command, i: nat, n: nat)
    requires IsRun(run) && i <= n < |run| && TwinCommitted(run, c, IdOf(command), i, n)
    requires Fulfilled(run[n].store, command)
    ensures TwinFulfilled(run, c, command, i, n) && TwinAgreed(run, c, command, i, n)
  {
    var k: nat, d: nat :| i <= k < n && TwinCommits(run, c, IdOf(command), k, d);
    TwinEventDecides(run, c, command, k, d, n);
    TwinCommandDecides(run, c, command, k, d, n);
  }

  lemma TwinFulfils(run: seq<System>, c: nat, command: Command, i: nat, n: nat)
    requires IsRun(run) && i <= n < |run| && TwinFulfilled(run, c, command, i, n)
    ensures Fulfilled(run[n].store, command)
  {
    var k: nat, d: nat :| i <= k < n && TwinCommits(run, c, IdOf(command), k, d)
      && Fulfils(command, AddedEvent(run, k).payload, run[n].store.state.book);
    TwinEventDecides(run, c, command, k, d, n);
  }

  lemma TwinAgrees(run: seq<System>, c: nat, command: Command, i: nat, n: nat)
    requires IsRun(run) && i <= n < |run| && TwinAgreed(run, c, command, i, n)
    ensures Fulfilled(run[n].store, command)
  {
    var k: nat, d: nat :| i <= k < n && TwinCommits(run, c, IdOf(command), k, d)
      && SameRequest(command, run[k].clients[d].command, run[n].store.state.book);
    TwinCommandDecides(run, c, command, k, d, n);
  }

  lemma TwinDecides(run: seq<System>, c: nat, command: Command, i: nat, n: nat)
    requires IsRun(run) && i <= n < |run|
    requires InStream(run[n].store.stream, IdOf(command)) ==> TwinCommitted(run, c, IdOf(command), i, n)
    ensures Fulfilled(run[n].store, command) <==> TwinFulfilled(run, c, command, i, n)
    ensures Fulfilled(run[n].store, command) <==> TwinAgreed(run, c, command, i, n)
  {
    if Fulfilled(run[n].store, command) {
      FulfilledIsInStream(run[n].store, command);
      TwinShows(run, c, command, i, n);
    } else {
      if TwinFulfilled(run, c, command, i, n) {
        TwinFulfils(run, c, command, i, n);
      }
      if TwinAgreed(run, c, command, i, n) {
        TwinAgrees(run, c, command, i, n);
      }
    }
  }

  /** In every run, a call told to retry committed nothing.  Its identity is in the stream nevertheless exactly when
      another client committed under the same identity during the call; then it was a length check that answered,
      since the resolution of a lost race would have found the event. */
  lemma RetriedIdentityExactly(run: seq<System>, c: nat, i: nat, n: nat, listing: seq<Entry>)
    requires IsRun(run) && InCall(run, c, i, n) && Enabled(run[n], Step(c, listing))
    requires Moved(run[n], Step(c, listing)).clients[c].Done?
    requires Moved(run[n], Step(c, listing)).clients[c].outcome == Retryable
    ensures Moved(run[n], Step(c, listing)).store == run[n].store
    ensures var id := IdOf(run[n].clients[c].command);
      && (InStream(run[n].store.stream, id) <==> TwinCommitted(run, c, id, i, n))
      && (InStream(run[n].store.stream, id) ==>
        Program(run[n].clients[c].command)[run[n].clients[c].pc] == ExpectLength)
  {
    var client := run[n].clients[c];
    var id := IdOf(client.command);
    RunsKeep(run, n);
    assert ClientOk(run[n].store, client);
    RetryableSteps(run[n].store, client, listing);
    RetryIsPastIdentify(client);
    PassedIdentity(run, c, i, n);
    if InStream(run[n].store.stream, id) {
      ArrivalIsTwin(run, c, i, n, id);
    }
    if TwinCommitted(run, c, id, i, n) {
      TwinIsInStream(run, c, i, n, id);
    }
  }

  /** In every run, a call told to retry did not commit its command; the command is in the stream nevertheless exactly
      when another client, running the same command, committed it during the call, that is, when the event another
      client committed under this identity carries the command out. */
  lemma RetryMeansNotCommittedExactly(run: seq<System>, c: nat, i: nat, n: nat, listing: seq<Entry>)
    requires IsRun(run) && InCall(run, c, i, n) && Enabled(run[n], Step(c, listing))
    requires Moved(run[n], Step(c, listing)).clients[c].Done?
    requires Moved(run[n], Step(c, listing)).clients[c].outcome == Retryable
    ensures Moved(run[n], Step(c, listing)).store == run[n].store
    ensures var command := run[n].clients[c].command;
      && (Fulfilled(run[n].store, command) <==> TwinFulfilled(run, c, command, i, n))
      && (Fulfilled(run[n].store, command) <==> TwinAgreed(run, c, command, i, n))
      && (Fulfilled(run[n].store, command) ==> Program(command)[run[n].clients[c].pc] == ExpectLength)
  {
    RetriedIdentityExactly(run, c, i, n, listing);
    TwinDecides(run, c, run[n].clients[c].command, i, n);
    if Fulfilled(run[n].store, run[n].clients[c].command) {
      FulfilledIsInStream(run[n].store, run[n].clients[c].command);
    }
  }
}
