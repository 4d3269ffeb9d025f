/** The course projection: the fold of every registered reducer over one contiguous event stream. */
module Course {
  import opened Domain
  import opened ArtifactLedger
  import ArtifactLifecycle
  import opened AssessmentLedger

  datatype State = State(world: World, ledger: Ledger, book: Assessments)

  const INITIAL := State(World({}, {}), EMPTY_LEDGER, NO_ASSESSMENTS)

  /** One event, decoded and reduced; `None` is a refused event. */
  function Reduce(st: State, e: Event): Option<State> {
    match e.payload
    case ContextRecorded(world) => if e.id.OtherEventId? then Some(st.(world := world)) else None
    case _ =>
      var ledger := ArtifactLifecycle.Apply(st.ledger, st.world, e);
      var book := Assess(st.ledger, st.world, st.book, e);
      if ledger.None? || book.None? then None else Some(State(st.world, ledger.value, book.value))
  }

  /** The projection of a stream, defined when its sequence is contiguous from 1 and every event is accepted. */
  function Replay(stream: seq<Event>): Option<State>
    decreases |stream|
  {
    if stream == [] then Some(INITIAL)
    else
      var n := |stream| - 1;
      var before := Replay(stream[..n]);
      if before.None? || stream[n].sequence != n + 1 then None else Reduce(before.value, stream[n])
  }

  lemma ReplayPrefix(stream: seq<Event>, n: nat)
    requires n <= |stream| && Replay(stream).Some?
    ensures Replay(stream[..n]).Some?
    decreases |stream|
  {
    if n < |stream| {
      assert stream[..|stream| - 1][..n] == stream[..n];
      ReplayPrefix(stream[..|stream| - 1], n);
    } else {
      assert stream[..n] == stream;
    }
  }

  lemma ReplaySnoc(stream: seq<Event>, e: Event)
    requires Replay(stream).Some? && e.sequence == |stream| + 1
    ensures Replay(stream + [e]) == Reduce(Replay(stream).value, e)
  {
    assert (stream + [e])[..|stream|] == stream;
  }

  /** Replay as the loop it is: it stops at the first gap or refused event. */
  method ReplayLoop(stream: seq<Event>) returns (r: Option<State>)
    ensures r == Replay(stream)
  {
    var state, i := INITIAL, 0;
    while i < |stream|
      invariant 0 <= i <= |stream|
      invariant Replay(stream[..i]) == Some(state)
    {
      var next := if stream[i].sequence == i + 1 then Reduce(state, stream[i]) else None;
      assert stream[..i + 1][..i] == stream[..i] && stream[..i + 1][i] == stream[i];
      if next.None? {
        if Replay(stream).Some? { ReplayPrefix(stream, i + 1); }
        return None;
      }
      state := next.value;
      i := i + 1;
    }
    assert stream[..i] == stream;
    r := Some(state);
  }
}
