/** A service command run to completion against the mutable store, without interference. */
module ServiceExecution {
  import opened ArtifactSnapshot
  import opened EventStore
  import opened Commands
  import opened ServiceProtocol

  /** Without a lost race a command never reaches the resolution of one. */
  lemma NoRaceNoRetry(store: Store, c: Client, listing: seq<Entry>)
    requires c.Running? && c.pc < |Program(c.command)| && |store.stream| == c.expected
    requires Program(c.command)[c.pc] != TryAppend && Program(c.command)[c.pc] != Resolve
    ensures var next := Compute(store, c, Program(c.command)[c.pc], listing);
      && (next.Done? ==> next.outcome != Retryable)
      && (next.Running? ==>
            && next.pc == c.pc + 1 && next.pc < |Program(c.command)|
            && Program(c.command)[next.pc] != Resolve)
  {
    ProgramShape(c.command, 0, c.pc);
  }

  lemma StepAdvances(store: Store, c: Client, action: Action, listing: seq<Entry>)
    requires c.Running?
    ensures var next := Compute(store, c, action, listing); next.Running? ==> next.pc == c.pc + 1
    ensures Compute(store, c, action, listing).command == c.command
    ensures Compute(store, c, action, listing).expected == c.expected
  {
  }

  /** Runs a command's steps in order.  It commits at most its own event, only under a new identity; success means
      the stream holds an event that carries the command out; a current expectation is never answered with retry. */
  method Execute(store: CourseStore, command: Command, expected: nat, listing: seq<Entry>) returns (outcome: Outcome)
    requires store.Valid() && expected <= |store.stream| && (IsArtifactCommand(command) ==> 1 <= expected)
    requires Lists(listing, store.state.ledger.revisions)
    modifies store
    ensures store.Valid()
    ensures store.Contents() == old(store.Contents())
         || (|store.stream| == expected + 1 && store.stream[..expected] == old(store.stream) &&
           store.stream[expected].id == IdOf(command))
    ensures store.Contents() != old(store.Contents()) ==>
      outcome == Success && !InStream(old(store.stream), IdOf(command))
    ensures outcome == Success ==> Fulfilled(store.Contents(), command)
    ensures expected == |old(store.stream)| ==> outcome != Retryable
  {
    var client := Running(command, expected, 0, NO_LOCAL);
    StartKeeps(store.Contents(), command, expected);
    ProgramShape(command, 0, 0);
    while client.Running?
      invariant store.Valid() && ClientOk(store.Contents(), client)
      invariant client.command == command && client.expected == expected
      invariant client.Running? ==> store.Contents() == old(store.Contents())
      invariant store.Contents() == old(store.Contents())
             || (|store.stream| == expected + 1 && store.stream[..expected] == old(store.stream) &&
               store.stream[expected].id == IdOf(command))
      invariant store.Contents() != old(store.Contents()) ==>
        client.Done? && client.outcome == Success && !InStream(old(store.stream), IdOf(command))
      invariant expected == |old(store.stream)| ==>
        (if client.Running? then Program(command)[client.pc] != Resolve else client.outcome != Retryable)
      decreases if client.Running? then 1 + |Program(command)| - client.pc else 0
    {
      var action := Program(command)[client.pc];
      ghost var before := store.Contents();
      if action == TryAppend {
        client := AppendDraft(store, client, listing);
      } else {
        ComputeKeeps(before, client, listing);
        StepAdvances(before, client, action, listing);
        if expected == |store.stream| {
          NoRaceNoRetry(before, client, listing);
        }
        client := Compute(Store(store.stream, store.state), client, action, listing);
      }
    }
    outcome := client.outcome;
  }

  /** The append step on the mutable store. */
  method AppendDraft(store: CourseStore, client: Client, listing: seq<Entry>) returns (next: Client)
    requires store.Valid() && ClientOk(store.Contents(), client) && client.Running?
    requires Program(client.command)[client.pc] == TryAppend
    modifies store
    ensures store.Valid()
    ensures (store.Contents(), next) == Advance(old(store.Contents()), client, listing)
    ensures ClientOk(store.Contents(), next)
    ensures next.command == client.command && next.expected == client.expected
    ensures store.Contents() == old(store.Contents())
         || (|store.stream| == client.expected + 1 && store.stream[..client.expected] == old(store.stream) &&
           store.stream[client.expected].id == IdOf(client.command))
    ensures store.Contents() != old(store.Contents()) ==>
      next.Done? && next.outcome == Success && !InStream(old(store.stream), IdOf(client.command))
    ensures next.Running? ==>
      next.pc == client.pc + 1 && store.Contents() == old(store.Contents()) && |old(store.stream)| != client.expected
    ensures next.Done? ==> next.outcome != Retryable
  {
    AppendStep(store.Contents(), client, listing);
    if client.local.draft.None? {
      return Finish(client, Refused);
    }
    var e := EventFor(client.command, client.local.draft.value, client.expected);
    var result := store.AppendEvent(client.expected, e);
    match result
    case RaceLost => next := Next(client, client.local);
    case Vetoed => next := Finish(client, Refused);
    case Committed(_) => next := Finish(client, Success);
  }
}
