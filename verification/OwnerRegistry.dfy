/** Write-once owner slots: a run is bound to the first owner created for it, and every creator and loader that
    succeeds, in any interleaving, gets that owner. */
module OwnerRegistry {
  import opened Domain

  /** An owner receipt, identified by its canonical bytes. */
  datatype Owner = Owner(run: RunId, body: string)

  type Slots = map<RunId, Owner>

  /** Create-if-absent on the durable store. */
  function Claimed(slots: Slots, owner: Owner): Slots {
    if owner.run in slots then slots else slots[owner.run := owner]
  }

  datatype Call = CreateOwner(owner: Owner) | LoadOwner(run: RunId)

  /** A call before its first store access, after losing the claim, and finished (`None` when it raised). */
  datatype Caller = Waiting(call: Call) | Beaten(owner: Owner) | Finished(run: RunId, result: Option<Owner>)

  datatype Registry = Registry(slots: Slots, callers: map<nat, Caller>)

  function LoadResult(slots: Slots, run: RunId): Option<Owner> {
    if run in slots && slots[run].run == run then Some(slots[run]) else None
  }

  /** One atomic store access of a caller. */
  function Access(slots: Slots, c: Caller): (Slots, Caller) {
    match c
    case Waiting(CreateOwner(owner)) =>
      if owner.run in slots then (slots, Beaten(owner))
        else (slots[owner.run := owner], Finished(owner.run, Some(owner)))
    case Waiting(LoadOwner(run)) => (slots, Finished(run, LoadResult(slots, run)))
    case Beaten(owner) =>
      var existing := LoadResult(slots, owner.run);
      (slots, Finished(owner.run, if existing == Some(owner) then existing else None))
    case Finished(_, _) => (slots, c)
  }

  datatype Move = Begin(caller: nat, call: Call) | Continue(caller: nat)

  predicate Enabled(r: Registry, m: Move) {
    match m
    case Begin(c, _) => c in r.callers ==> r.callers[c].Finished?
    case Continue(c) => c in r.callers
  }

  function Moved(r: Registry, m: Move): Registry
    requires Enabled(r, m)
  {
    match m
    case Begin(c, call) => r.(callers := r.callers[c := Waiting(call)])
    case Continue(c) => var next := Access(r.slots, r.callers[c]); Registry(next.0, r.callers[c := next.1])
  }

  ghost predicate Follows(r: Registry, s: Registry) {
    exists m :: Enabled(r, m) && Moved(r, m) == s
  }

  ghost predicate IsRun(run: seq<Registry>) {
    && 0 < |run| && run[0] == Registry(map[], map[])
    && forall i :: 0 < i < |run| ==> StepAt(run, i)
  }

  ghost predicate StepAt(run: seq<Registry>, i: int)
    requires 0 < i < |run|
  {
    Follows(run[i - 1], run[i])
  }

  // -------------------------------------------------------------- invariants

  ghost predicate CallerOk(slots: Slots, c: Caller) {
    match c
    case Waiting(_) => true
    case Beaten(owner) => owner.run in slots
    case Finished(run, result) => result.Some? ==> run in slots && slots[run] == result.value
  }

  ghost predicate RegistryOk(r: Registry) {
    && (forall run :: run in r.slots ==> r.slots[run].run == run)
    && forall c :: c in r.callers ==> CallerOk(r.slots, r.callers[c])
  }

  /** No slot is ever emptied or rewritten. */
  ghost predicate Keeps(before: Slots, after: Slots) {
    forall run :: run in before ==> run in after && after[run] == before[run]
  }

  lemma StepKeeps(r: Registry, m: Move)
    requires RegistryOk(r) && Enabled(r, m)
    ensures RegistryOk(Moved(r, m)) && Keeps(r.slots, Moved(r, m).slots)
  {
    var s := Moved(r, m);
    if m.Continue? {
      assert CallerOk(r.slots, r.callers[m.caller]);
    }
    forall d | d in s.callers ensures CallerOk(s.slots, s.callers[d]) {
      if d != m.caller { assert CallerOk(r.slots, r.callers[d]); }
    }
  }

  lemma {:induction false} RunsKeep(run: seq<Registry>, i: nat, j: nat)
    requires IsRun(run) && i <= j < |run|
    ensures RegistryOk(run[i]) && RegistryOk(run[j]) && Keeps(run[i].slots, run[j].slots)
    decreases j
  {
    if j > 0 {
      assert StepAt(run, j);
      RunsKeep(run, if i < j then i else j - 1, j - 1);
      var m :| Enabled(run[j - 1], m) && Moved(run[j - 1], m) == run[j];
      StepKeeps(run[j - 1], m);
    }
  }

  /** All successful creators and loaders of a run agree, whenever in the run each of them finished. */
  lemma SuccessfulCallersAgree(run: seq<Registry>, i: nat, j: nat, c: nat, d: nat)
    requires IsRun(run) && i <= j < |run| && c in run[i].callers && d in run[j].callers
    requires run[i].callers[c].Finished? && run[j].callers[d].Finished?
    requires run[i].callers[c].run == run[j].callers[d].run
    requires run[i].callers[c].result.Some? && run[j].callers[d].result.Some?
    ensures run[i].callers[c].result == run[j].callers[d].result
    ensures run[j].callers[d].run in run[j].slots
    ensures run[j].slots[run[j].callers[d].run] == run[i].callers[c].result.value
  {
    RunsKeep(run, i, j);
    assert CallerOk(run[i].slots, run[i].callers[c]) && CallerOk(run[j].slots, run[j].callers[d]);
  }

  /** What one access of a caller leaves in its place, and in the slots, read off the slots before it. */
  ghost predicate AccessSays(before: Slots, c: Caller, after: Slots, next: Caller) {
    match c
    case Waiting(CreateOwner(owner)) =>
      if owner.run in before then next == Beaten(owner) && after == before
      else next == Finished(owner.run, Some(owner)) && after == before[owner.run := owner]
    case Waiting(LoadOwner(run)) =>
      next == Finished(run, if run in before then Some(before[run]) else None) && after == before
    case Beaten(owner) =>
      && owner.run in before && after == before
      && next == Finished(owner.run, if before[owner.run] == owner then Some(owner) else None)
    case Finished(_, _) => next == c && after == before
  }

  /** In every state of every interleaving: a loader gets the owner of its run, or raises exactly when the run has
      none; a creator that lost the claim gets its own owner, or raises exactly when the run is another's. */
  lemma EveryAccessAnswers(run: seq<Registry>, n: nat, c: nat)
    requires IsRun(run) && n < |run| && c in run[n].callers
    ensures var next := Moved(run[n], Continue(c));
      AccessSays(run[n].slots, run[n].callers[c], next.slots, next.callers[c])
  {
    RunsKeep(run, n, n);
    assert CallerOk(run[n].slots, run[n].callers[c]);
  }

  /** A creator that succeeds gets its own owner; one whose run belongs to another owner raises. */
  lemma CreatorGetsItsOwn(slots: Slots, owner: Owner)
    requires forall run :: run in slots ==> slots[run].run == run
    ensures var first := Access(slots, Waiting(CreateOwner(owner)));
      var last := if first.1.Beaten? then Access(first.0, first.1) else first;
      && last.1 == Finished(owner.run, if owner.run in slots && slots[owner.run] != owner then None else Some(owner))
      && last.0 == Claimed(slots, owner)
  {
  }

  // -------------------------------------------------------- the mutable store

  /** The registry over its durable slots, without interference. */
  class OwnerStore {
    var slots: Slots

    ghost predicate Valid()
      reads this
    {
      forall run :: run in slots ==> slots[run].run == run
    }

    constructor ()
      ensures Valid() && slots == map[]
    {
      slots := map[];
    }

    method CreateSlot(owner: Owner) returns (created: bool)
      requires Valid()
      modifies this
      ensures Valid() && slots == Claimed(old(slots), owner)
      ensures created <==> owner.run !in old(slots)
    {
      created := owner.run !in slots;
      if created {
        slots := slots[owner.run := owner];
      }
    }

    method Load(run: RunId) returns (r: Option<Owner>)
      requires Valid()
      ensures r.Some? <==> run in slots
      ensures r.Some? ==> r.value == slots[run] && r.value.run == run
    {
      if run !in slots || slots[run].run != run {
        return None;
      }
      r := Some(slots[run]);
    }

    method Create(owner: Owner) returns (r: Option<Owner>)
      requires Valid()
      modifies this
      ensures Valid() && slots == Claimed(old(slots), owner)
      ensures r == if owner.run in old(slots) && old(slots)[owner.run] != owner then None else Some(owner)
    {
      var created := CreateSlot(owner);
      if created {
        return Some(owner);
      }
      var existing := Load(owner.run);
      if existing != Some(owner) {
        return None;
      }
      r := existing;
    }
  }
}
