/** The protocol does not only refuse: from any state of any run, a command whose checks hold and that meets no
    interference is decided, whatever the other clients are in the middle of.  It commits exactly when its event
    lands. */
module ServiceProgress {
  import opened Domain
  import opened ArtifactSnapshot
  import opened Course
  import opened EventStore
  import opened Commands
  import opened ServiceProtocol
  import opened ServiceVerdicts
  import ServiceRules

  /** What the command checks, on the current store, and what it would append. */
  ghost predicate Ready(store: Store, c: Command, listing: seq<Entry>, receipt: Option<Receipt>, payload: Payload) {
    var view := View(store.state, listing);
    && Lists(listing, store.state.ledger.revisions)
    && (!IsArtifactCommand(c) ==> c.session in store.state.world.sessions)
    && CommandFor(store.state, IdOf(c)).None?
    && receipt == (if c.DecideAsService? then Consulted(c, view) else None)
    && DraftFor(c, view, receipt) == Some(payload)
    && (c.GradeExact? || c.GradeVerified? ==> GradeRules(c, view))
    && (c.RecordHuman? ==> (c.session, ProvenanceOf(c)) in store.state.world.grounded)
    && (IsArtifactCommand(c) ==> 1 <= |store.stream|)
  }

  lemma ReadyIsCleared(store: Store, c: Command, listing: seq<Entry>, receipt: Option<Receipt>, payload: Payload)
    requires Ready(store, c, listing, receipt, payload)
    ensures Cleared(store.state, c, receipt, payload)
  {
    if c.DecideAsService? {
      ConsultedIsSome(c, View(store.state, listing), receipt, payload);
    }
  }

  /** A client on its way: it expects the current length and remembers what it has read and built so far. */
  ghost predicate OnTrack(store: Store, c: Client, listing: seq<Entry>, receipt: Option<Receipt>, payload: Payload) {
    && c.Running? && c.expected == |store.stream|
    && c.pc < |Program(c.command)| && Program(c.command)[c.pc] != Resolve
    && Remembers(store.state, c.command, Program(c.command)[..c.pc], c.local, listing, receipt, payload)
  }

  ghost predicate Remembers(
    st: State, c: Command, passed: seq<Action>, local: Local, listing: seq<Entry>, receipt: Option<Receipt>,
    payload: Payload) {
    && (ReadView in passed ==> local.view == Some(View(st, listing)))
    && local.receipt == (if Consult in passed then receipt else None)
    && (Draft in passed ==> local.draft == Some(payload))
  }

  lemma AbsentMeansFresh(store: Store, c: Command, draft: Option<Payload>)
    requires Logged(store) && CommandFor(store.state, IdOf(c)).None?
    ensures IdentityOf(store, c, draft) == Fresh
  {
    IndexedIffCommitted(store, IdOf(c));
    OccurrencesExact(store.stream, IdOf(c));
  }

  /** Views precede what is computed from them, and a service decision consults before it drafts. */
  lemma ProgramOrder(c: Command, n: nat)
    requires n < |Program(c)|
    ensures Program(c)[n] in {Draft, Consult, CheckRules} ==> ReadView in Program(c)[..n]
    ensures Program(c)[n] == Draft ==> (Consult in Program(c)[..n] <==> c.DecideAsService?)
    ensures Program(c)[n] == Consult ==> c.DecideAsService?
    ensures Program(c)[n] == CheckRules ==> c.GradeExact? || c.GradeVerified?
    ensures Program(c)[n] == Ground ==> c.RecordHuman?
    ensures Program(c)[n] == OpenSession ==> !IsArtifactCommand(c)
    ensures Program(c)[n] != Resolve && Program(c)[n] != TryAppend ==>
      n + 1 < |Program(c)| && Program(c)[n + 1] != Resolve
  {
    if Program(c)[n] in {Draft, Consult, CheckRules} {
      ViewComesFirst(c, n);
      var k :| 0 <= k < n && Program(c)[k] == ReadView;
      assert Program(c)[..n][k] == ReadView;
    }
    if c.DecideAsService? && Program(c)[n] == Draft {
      assert Program(c)[..n][3] == Consult;
    }
  }

  lemma RememberMore(
    st: State, c: Command, program: seq<Action>, n: nat, before: Local, after: Local, listing: seq<Entry>,
    receipt: Option<Receipt>, payload: Payload)
    requires n < |program| && Remembers(st, c, program[..n], before, listing, receipt, payload)
    requires after == match program[n]
                      case ReadView => before.(view := Some(View(st, listing)))
                      case Consult => before.(receipt := receipt)
                      case Draft => before.(draft := Some(payload))
                      case _ => before
    ensures Remembers(st, c, program[..n + 1], after, listing, receipt, payload)
  {
    assert program[..n + 1] == program[..n] + [program[n]];
  }

  /** The memory after one action of a ready command. */
  function After(
    st: State, action: Action, local: Local, listing: seq<Entry>, receipt: Option<Receipt>, payload: Payload): Local {
    match action
    case ReadView => local.(view := Some(View(st, listing)))
    case Consult => local.(receipt := receipt)
    case Draft => local.(draft := Some(payload))
    case _ => local
  }

  lemma ReadyComputes(
    store: Store, c: Client, action: Action, listing: seq<Entry>, receipt: Option<Receipt>, payload: Payload)
    requires Logged(store) && Ready(store, c.command, listing, receipt, payload) && c.Running?
    requires c.expected == |store.stream|
    requires action !in {TryAppend, Resolve}
    requires action in {Draft, Consult, CheckRules} ==> c.local.view == Some(View(store.state, listing))
    requires action == Draft ==> c.local.receipt == receipt
    requires action == Consult ==> c.command.DecideAsService?
    requires action == CheckRules ==> c.command.GradeExact? || c.command.GradeVerified?
    requires action == Ground ==> c.command.RecordHuman?
    requires action == OpenSession ==> !IsArtifactCommand(c.command)
    ensures Compute(store, c, action, listing) ==
      Next(c, After(store.state, action, c.local, listing, receipt, payload))
  {
    if action == Identify {
      AbsentMeansFresh(store, c.command, c.local.draft);
    } else if action == Consult {
      ConsultedIsSome(c.command, View(store.state, listing), receipt, payload);
    }
  }

  lemma ConsultedIsSome(c: Command, view: View, receipt: Option<Receipt>, payload: Payload)
    requires c.DecideAsService? && receipt == Consulted(c, view) && DraftFor(c, view, receipt) == Some(payload)
    ensures receipt.Some?
  {
  }

  lemma TrackStep(store: Store, c: Client, listing: seq<Entry>, receipt: Option<Receipt>, payload: Payload)
    requires Logged(store) && Ready(store, c.command, listing, receipt, payload)
    requires OnTrack(store, c, listing, receipt, payload)
    requires Program(c.command)[c.pc] != TryAppend
    ensures var next := Advance(store, c, listing);
      && next.0 == store && OnTrack(store, next.1, listing, receipt, payload)
      && next.1.command == c.command && next.1.pc == c.pc + 1 && next.1.expected == c.expected
  {
    var program := Program(c.command);
    var action := program[c.pc];
    ProgramOrder(c.command, c.pc);
    ReadyComputes(store, c, action, listing, receipt, payload);
    RememberMore(store.state, c.command, program, c.pc, c.local,
      After(store.state, action, c.local, listing, receipt, payload), listing, receipt, payload);
  }

  /** How a ready command ends. */
  datatype Ending = Ending(store: Store, outcome: Outcome)

  /** Committed with exactly its event when it lands, refused with nothing changed otherwise. */
  ghost function EndingOf(store: Store, c: Command, payload: Payload): Ending {
    if Lands(store.state, c) then Ending(Committing(store, c, payload), Success) else Ending(store, Refused)
  }

  /** The store that the append of a command's event leaves. */
  function Committing(store: Store, c: Command, payload: Payload): Store {
    match Append(store, |store.stream|, EventFor(c, payload, |store.stream|))
    case Committed(next) => next
    case _ => store
  }

  /** What the append of a remembered event comes to at the expected length. */
  lemma TryStep(store: Store, c: Client, listing: seq<Entry>, payload: Payload)
    requires c.Running? && c.pc < |Program(c.command)| && Program(c.command)[c.pc] == TryAppend
    requires c.expected == |store.stream| && c.local.draft == Some(payload)
    ensures var answer := Append(store, |store.stream|, EventFor(c.command, payload, |store.stream|));
      answer != RaceLost && Advance(store, c, listing) ==
        (Committing(store, c.command, payload), Finish(c, if answer.Committed? then Success else Refused))
  {
  }

  lemma TrackDraft(store: Store, c: Client, listing: seq<Entry>, receipt: Option<Receipt>, payload: Payload)
    requires OnTrack(store, c, listing, receipt, payload) && Program(c.command)[c.pc] == TryAppend
    ensures c.local.draft == Some(payload)
  {
    ServiceRules.RulesComeFirst(c.command, c.pc);
  }

  lemma TrackEnds(store: Store, c: Client, listing: seq<Entry>, receipt: Option<Receipt>, payload: Payload)
    requires Consistent(store)
    requires Ready(store, c.command, listing, receipt, payload) && OnTrack(store, c, listing, receipt, payload)
    requires Program(c.command)[c.pc] == TryAppend
    ensures var ending := EndingOf(store, c.command, payload);
      Advance(store, c, listing) == (ending.store, Finish(c, ending.outcome))
  {
    TrackDraft(store, c, listing, receipt, payload);
    TryStep(store, c, listing, payload);
    ReadyIsCleared(store, c.command, listing, receipt, payload);
    AppendVerdict(store, c.command, receipt, payload);
  }

  // ---------------------------------------------------------------- run by run

  lemma RunGrows(run: seq<System>, m: Move)
    requires IsRun(run) && Enabled(run[|run| - 1], m)
    ensures IsRun(run + [Moved(run[|run| - 1], m)])
  {
    var last := run[|run| - 1];
    var longer := run + [Moved(last, m)];
    assert Follows(last, Moved(last, m));
    forall i | 0 < i < |longer| ensures StepAt(longer, i) {
      if i < |run| {
        assert StepAt(run, i) && longer[i] == run[i] && longer[i - 1] == run[i - 1];
      }
    }
  }

  function Last(run: seq<System>): System
    requires run != []
  {
    run[|run| - 1]
  }

  /** The longer run ends as `ending` says, with the client done and every other client where it was. */
  ghost predicate Reaches(run: seq<System>, longer: seq<System>, client: nat, c: Command, ending: Ending)
    requires run != []
  {
    && IsRun(longer) && run <= longer
    && Last(longer) == System(ending.store,
      Last(run).clients[client := Done(c, |Last(run).store.stream|, ending.outcome)])
  }

  lemma TrackMove(
    s: System, client: nat, listing: seq<Entry>, receipt: Option<Receipt>, payload: Payload) returns (next: Client)
    requires Logged(s.store) && client in s.clients
    requires Ready(s.store, s.clients[client].command, listing, receipt, payload)
    requires OnTrack(s.store, s.clients[client], listing, receipt, payload)
    requires Program(s.clients[client].command)[s.clients[client].pc] != TryAppend
    ensures Enabled(s, Step(client, listing))
    ensures Moved(s, Step(client, listing)) == System(s.store, s.clients[client := next])
    ensures OnTrack(s.store, next, listing, receipt, payload)
    ensures next.command == s.clients[client].command && next.pc == s.clients[client].pc + 1
  {
    TrackStep(s.store, s.clients[client], listing, receipt, payload);
    next := Advance(s.store, s.clients[client], listing).1;
  }

  /** One uninterrupted step of a client on its way, short of the append. */
  lemma TrackOne(
    run: seq<System>, s: System, client: nat, listing: seq<Entry>, receipt: Option<Receipt>, payload: Payload)
    returns (one: seq<System>, next: Client)
    requires IsRun(run) && s == Last(run) && client in s.clients
    requires Ready(s.store, s.clients[client].command, listing, receipt, payload)
    requires OnTrack(s.store, s.clients[client], listing, receipt, payload)
    requires Program(s.clients[client].command)[s.clients[client].pc] != TryAppend
    ensures IsRun(one) && run <= one && Last(one) == System(s.store, s.clients[client := next])
    ensures OnTrack(s.store, next, listing, receipt, payload)
    ensures next.command == s.clients[client].command && next.pc == s.clients[client].pc + 1
  {
    LastLogs(run);
    next := TrackMove(s, client, listing, receipt, payload);
    one := Extended(run, Step(client, listing));
  }

  lemma LastLogs(run: seq<System>)
    requires IsRun(run)
    ensures Logged(Last(run).store) && Consistent(Last(run).store)
  {
    RunsKeep(run, |run| - 1);
  }

  /** A run with one more move. */
  lemma Extended(run: seq<System>, m: Move) returns (longer: seq<System>)
    requires IsRun(run) && Enabled(Last(run), m)
    ensures IsRun(longer) && run <= longer && Last(longer) == Moved(Last(run), m)
  {
    RunGrows(run, m);
    longer := run + [Moved(Last(run), m)];
  }

  lemma TrackLast(
    run: seq<System>, client: nat, listing: seq<Entry>, receipt: Option<Receipt>, payload: Payload)
    returns (longer: seq<System>)
    requires IsRun(run) && client in Last(run).clients
    requires Ready(Last(run).store, Last(run).clients[client].command, listing, receipt, payload)
    requires OnTrack(Last(run).store, Last(run).clients[client], listing, receipt, payload)
    requires Program(Last(run).clients[client].command)[Last(run).clients[client].pc] == TryAppend
    ensures Reaches(run, longer, client, Last(run).clients[client].command,
      EndingOf(Last(run).store, Last(run).clients[client].command, payload))
  {
    LastLogs(run);
    TrackEnds(Last(run).store, Last(run).clients[client], listing, receipt, payload);
    longer := Extended(run, Step(client, listing));
  }

  lemma {:induction false} TrackIsDecided(
    run: seq<System>, client: nat, listing: seq<Entry>, receipt: Option<Receipt>, payload: Payload)
    returns (longer: seq<System>)
    requires IsRun(run) && client in Last(run).clients
    requires Ready(Last(run).store, Last(run).clients[client].command, listing, receipt, payload)
    requires OnTrack(Last(run).store, Last(run).clients[client], listing, receipt, payload)
    ensures Reaches(run, longer, client, Last(run).clients[client].command,
      EndingOf(Last(run).store, Last(run).clients[client].command, payload))
    decreases |Program(Last(run).clients[client].command)| - Last(run).clients[client].pc
  {
    var c := Last(run).clients[client];
    if Program(c.command)[c.pc] == TryAppend {
      longer := TrackLast(run, client, listing, receipt, payload);
    } else {
      var one, next := TrackOne(run, Last(run), client, listing, receipt, payload);
      longer := TrackIsDecided(one, client, listing, receipt, payload);
      Joined(run, one, longer, client, next, c.command, EndingOf(Last(run).store, c.command, payload));
    }
  }

  lemma Joined(
    run: seq<System>, one: seq<System>, longer: seq<System>, client: nat, x: Client, c: Command, ending: Ending)
    requires run != [] && run <= one && Last(one) == System(Last(run).store, Last(run).clients[client := x])
    requires Reaches(one, longer, client, c, ending)
    ensures Reaches(run, longer, client, c, ending)
  {
    var done := Done(c, |Last(run).store.stream|, ending.outcome);
    assert Last(run).clients[client := x][client := done] == Last(run).clients[client := done];
  }

  lemma CommittingAdds(store: Store, c: Command, payload: Payload)
    requires Append(store, |store.stream|, EventFor(c, payload, |store.stream|)).Committed?
    ensures Committing(store, c, payload).stream == store.stream + [EventFor(c, payload, |store.stream|)]
  {
  }

  lemma ReadyVerdict(
    run: seq<System>, c: Command, listing: seq<Entry>, receipt: Option<Receipt>, payload: Payload)
    requires IsRun(run) && Ready(Last(run).store, c, listing, receipt, payload)
    ensures Append(Last(run).store, |Last(run).store.stream|, EventFor(c, payload, |Last(run).store.stream|)).Committed?
      <==> Lands(Last(run).store.state, c)
  {
    LastLogs(run);
    ReadyIsCleared(Last(run).store, c, listing, receipt, payload);
    AppendVerdict(Last(run).store, c, receipt, payload);
  }

  lemma StartOnTrack(store: Store, c: Command, listing: seq<Entry>, receipt: Option<Receipt>, payload: Payload)
    ensures OnTrack(store, Running(c, |store.stream|, 0, NO_LOCAL), listing, receipt, payload)
  {
    assert Program(c)[..0] == [];
  }

  /** From any state of any run: an idle client that starts a ready command and is not interrupted commits exactly
      that command's event when the command lands, and is refused with nothing changed when it does not; every other
      client is where it was. */
  lemma ReadyCommandIsDecided(
    run: seq<System>, client: nat, c: Command, listing: seq<Entry>, receipt: Option<Receipt>, payload: Payload)
    returns (longer: seq<System>)
    requires IsRun(run) && (client in Last(run).clients ==> Last(run).clients[client].Done?)
    requires Ready(Last(run).store, c, listing, receipt, payload)
    ensures Reaches(run, longer, client, c, EndingOf(Last(run).store, c, payload))
    ensures Lands(Last(run).store.state, c) ==>
      Last(longer).store.stream == Last(run).store.stream + [EventFor(c, payload, |Last(run).store.stream|)]
  {
    var s := Last(run);
    var one := Extended(run, Start(client, c, |s.store.stream|));
    StartOnTrack(s.store, c, listing, receipt, payload);
    longer := TrackIsDecided(one, client, listing, receipt, payload);
    Joined(run, one, longer, client, Running(c, |s.store.stream|, 0, NO_LOCAL), c, EndingOf(s.store, c, payload));
    ReadyVerdict(run, c, listing, receipt, payload);
    if Lands(s.store.state, c) {
      CommittingAdds(s.store, c, payload);
    }
  }
}
