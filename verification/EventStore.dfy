/** The course event store: one stream with its projection, extended by compare-and-append. */
module EventStore {
  import opened Domain
  import opened ArtifactLedger
  import opened Course
  import AL = AssessmentLedger
  import ArtifactLifecycle

  /** The stored stream and the projection kept beside it. */
  datatype Store = Store(stream: seq<Event>, state: State)

  const EMPTY_STORE := Store([], INITIAL)

  datatype Appended = RaceLost | Vetoed | Committed(store: Store)

  /** Commits one event when the stream has the expected length and decoder and reducer accept the event. */
  function Append(store: Store, expected: int, e: Event): Appended {
    if e.sequence != expected + 1 then Vetoed
    else if |store.stream| != expected then RaceLost
    else match Reduce(store.state, e)
      case None => Vetoed
      case Some(next) => Committed(Store(store.stream + [e], next))
  }

  /** The projection is the replay of the stream. */
  ghost predicate Consistent(store: Store) {
    Replay(store.stream) == Some(store.state)
  }

  lemma AppendKeepsConsistent(store: Store, expected: int, e: Event)
    requires Consistent(store) && Append(store, expected, e).Committed?
    ensures Consistent(Append(store, expected, e).store)
    ensures Append(store, expected, e).store.stream == store.stream + [e]
  {
    ReplaySnoc(store.stream, e);
  }

  // ---------------------------------------------------------- command index

  /** The recorded fingerprint of a command identity. */
  function CommandFor(st: State, id: EventId): Option<Fingerprint> {
    match id
    case ArtifactEventId(_, _, _) => if id in st.ledger.commands then Some(st.ledger.commands[id]) else None
    case AssessmentEventId(_, _, _) => if id in st.book.commands then Some(st.book.commands[id]) else None
    case OtherEventId(_) => None
  }

  ghost predicate InStream(stream: seq<Event>, id: EventId) {
    exists i :: 0 <= i < |stream| && stream[i].id == id
  }

  /** The command index is exactly the stream's command events, and no command identity occurs twice. */
  ghost predicate Logged(store: Store) {
    && (forall i :: 0 <= i < |store.stream| && !store.stream[i].id.OtherEventId? ==>
          CommandFor(store.state, store.stream[i].id) == Some(FingerprintOf(store.stream[i].payload)))
    && (forall id :: CommandFor(store.state, id).Some? ==> InStream(store.stream, id))
    && (forall i, j :: 0 <= i < j < |store.stream| && store.stream[i].id == store.stream[j].id ==>
      store.stream[i].id.OtherEventId?)
  }

  /** An accepted event enters its own identity, which was new, and no other. */
  lemma ReduceLogs(st: State, e: Event, id: EventId)
    requires Reduce(st, e).Some?
    ensures var next := Reduce(st, e).value;
      CommandFor(next, id) == if id == e.id &&
        !e.id.OtherEventId? then Some(FingerprintOf(e.payload)) else CommandFor(st, id)
    ensures CommandFor(st, e.id).None?
  {
    if e.payload.ProposalBatch? || e.payload.Decision? {
      ArtifactLogs(st.ledger, st.world, e);
    } else if !e.payload.ContextRecorded? {
      AssessmentLogs(st.ledger, st.world, st.book, e);
    }
  }

  lemma ArtifactLogs(ledger: Ledger, world: World, e: Event)
    requires e.payload.ProposalBatch? || e.payload.Decision?
    requires ArtifactLifecycle.Apply(ledger, world, e).Some?
    ensures ArtifactLifecycle.Apply(ledger, world, e).value.commands ==
      ledger.commands[e.id := FingerprintOf(e.payload)]
    ensures e.id !in ledger.commands && e.id.ArtifactEventId?
  {
  }

  lemma AssessmentLogs(ledger: Ledger, world: World, book: AL.Assessments, e: Event)
    requires !(e.payload.ProposalBatch? || e.payload.Decision? || e.payload.ContextRecorded?)
    requires AL.Assess(ledger, world, book, e).Some?
    ensures AL.Assess(ledger, world, book, e).value.commands == book.commands[e.id := FingerprintOf(e.payload)]
    ensures e.id !in book.commands && e.id.AssessmentEventId?
  {
  }

  lemma LogSnoc(store: Store, next: Store, e: Event)
    requires Logged(store) && next.stream == store.stream + [e]
    requires CommandFor(store.state, e.id).None?
    requires forall id :: CommandFor(next.state, id) == if id == e.id &&
      !e.id.OtherEventId? then Some(FingerprintOf(e.payload)) else CommandFor(store.state, id)
    ensures Logged(next)
  {
    forall id | CommandFor(next.state, id).Some? ensures InStream(next.stream, id) {
      if id == e.id && !e.id.OtherEventId? {
        assert next.stream[|store.stream|].id == id;
      } else {
        var i :| 0 <= i < |store.stream| && store.stream[i].id == id;
        assert next.stream[i].id == id;
      }
    }
  }

  lemma AppendKeepsLog(store: Store, expected: int, e: Event)
    requires Logged(store) && Append(store, expected, e).Committed?
    ensures Logged(Append(store, expected, e).store)
    ensures CommandFor(store.state, e.id).None?
  {
    var next := Append(store, expected, e).store;
    forall id ensures CommandFor(next.state, id) == if id == e.id &&
      !e.id.OtherEventId? then Some(FingerprintOf(e.payload)) else CommandFor(store.state, id) {
      ReduceLogs(store.state, e, id);
    }
    ReduceLogs(store.state, e, e.id);
    LogSnoc(store, next, e);
  }

  /** A command identity is indexed exactly when its event is in the stream. */
  lemma IndexedIffCommitted(store: Store, id: EventId)
    requires Logged(store) && !id.OtherEventId?
    ensures CommandFor(store.state, id).Some? <==> InStream(store.stream, id)
  {
  }

  // ------------------------------------------------------- the mutable store

  /** The store itself, shared by all services of a course. */
  class CourseStore {
    var stream: seq<Event>
    var state: State

    ghost predicate Valid()
      reads this
    {
      Consistent(Contents()) && Logged(Contents())
    }

    ghost function Contents(): Store
      reads this
    {
      Store(stream, state)
    }

    constructor ()
      ensures Valid() && Contents() == EMPTY_STORE
    {
      stream, state := [], INITIAL;
    }

    /** Compare-and-append: `true` exactly when the event was committed; otherwise nothing changes. */
    method AppendEvent(expected: int, e: Event) returns (result: Appended)
      requires Valid()
      modifies this
      ensures Valid()
      ensures result == Append(old(Contents()), expected, e)
      ensures Contents() == if result.Committed? then result.store else old(Contents())
    {
      if e.sequence != expected + 1 {
        return Vetoed;
      }
      if |stream| != expected {
        return RaceLost;
      }
      var next := Reduce(state, e);
      if next.None? {
        return Vetoed;
      }
      AppendKeepsConsistent(Contents(), expected, e);
      AppendKeepsLog(Contents(), expected, e);
      stream, state := stream + [e], next.value;
      result := Committed(Store(stream, state));
    }
  }
}
