/** Small facts about sequences and sets that several ledger proofs share. */
module Collections {
  import opened Domain

  lemma Member<T>(s: set<T>) returns (x: T)
    requires s != {}
    ensures x in s
  {
    x :| x in s;
  }

  lemma DistinctSnoc<T>(s: seq<T>, x: T)
    ensures Distinct(s + [x]) <==> Distinct(s) && x !in s
  {
    var all := s + [x];
    if Distinct(all) {
      forall i, j | 0 <= i < j < |s| ensures s[i] != s[j] {
        assert all[i] == s[i] && all[j] == s[j];
      }
      forall i | 0 <= i < |s| ensures s[i] != x {
        assert all[i] == s[i] && all[|s|] == x;
      }
    }
  }

  /** Distinct positions of a duplicate-free sequence hold as many values. */
  lemma {:induction false} ImageCount<T>(s: seq<T>, indices: set<int>)
    requires Distinct(s)
    requires forall i :: i in indices ==> 0 <= i < |s|
    ensures |set i | i in indices :: s[i]| == |indices|
  {
    var image := set k | k in indices :: s[k];
    if indices != {} {
      var i := Member(indices);
      var rest := set k | k in indices - {i} :: s[k];
      ImageCount(s, indices - {i});
      assert s[i] !in rest;
      assert image == rest + {s[i]};
    } else {
      assert image == {};
    }
  }

  /** A dictionary filled in order: a later entry under the same key replaces an earlier one. */
  function Keyed<K, V>(keys: seq<K>, values: seq<V>): map<K, V>
    requires |keys| == |values|
  {
    if keys == [] then map[]
    else var n := |keys| - 1; Keyed(keys[..n], values[..n])[keys[n] := values[n]]
  }

  lemma {:induction false} KeyedExact<K, V>(keys: seq<K>, values: seq<V>)
    requires |keys| == |values| && Distinct(keys)
    ensures |Keyed(keys, values)| == |keys|
    ensures forall k :: k in Keyed(keys, values) <==> k in keys
    ensures forall i :: 0 <= i < |keys| ==> keys[i] in Keyed(keys, values) && Keyed(keys, values)[keys[i]] == values[i]
  {
    if keys != [] {
      var n := |keys| - 1;
      var before := Keyed(keys[..n], values[..n]);
      KeyedExact(keys[..n], values[..n]);
      assert keys == keys[..n] + [keys[n]];
      assert keys[n] !in keys[..n];
      assert |Keyed(keys, values)| == |before| + 1 by {
        assert Keyed(keys, values).Keys == before.Keys + {keys[n]};
      }
      forall i | 0 <= i < n ensures keys[i] in before && before[keys[i]] == values[i] {
        assert keys[..n][i] == keys[i] && values[..n][i] == values[i];
      }
    }
  }

  /** As many distinct members as a set has are all of its members. */
  lemma {:induction false} DistinctCovers<T>(s: seq<T>, all: set<T>)
    requires Distinct(s) && |s| == |all|
    requires forall i :: 0 <= i < |s| ==> s[i] in all
    ensures forall x :: x in all ==> x in s
  {
    if s != [] {
      var n := |s| - 1;
      DistinctCovers(s[..n], all - {s[n]});
      assert s == s[..n] + [s[n]];
    }
  }

  function Range(n: nat): (r: set<int>)
    ensures forall m :: m in r <==> 0 <= m < n
  {
    if n == 0 then {} else Range(n - 1) + {n - 1}
  }

  // ------------------------------------------------------------------ sorting

  function Insert<T>(le: (T, T) -> bool, x: T, sorted: seq<T>): seq<T> {
    if sorted == [] || le(x, sorted[0]) then [x] + sorted else [sorted[0]] + Insert(le, x, sorted[1..])
  }

  /** Stable insertion sort. */
  function Sort<T>(le: (T, T) -> bool, s: seq<T>): seq<T> {
    if s == [] then [] else Insert(le, s[0], Sort(le, s[1..]))
  }

  ghost predicate InOrder<T(!new)>(le: (T, T) -> bool, s: seq<T>) {
    forall i, j :: 0 <= i < j < |s| ==> le(s[i], s[j])
  }

  ghost predicate Preorder<T(!new)>(le: (T, T) -> bool) {
    && (forall x, y :: le(x, y) || le(y, x))
    && (forall x, y, z :: le(x, y) && le(y, z) ==> le(x, z))
  }

  /** Sorting what is already in order changes nothing. */
  lemma {:induction false} SortedIsFixed<T(!new)>(le: (T, T) -> bool, s: seq<T>)
    requires InOrder(le, s)
    ensures Sort(le, s) == s
  {
    if s != [] {
      SortedIsFixed(le, s[1..]);
      assert |s| > 1 ==> le(s[0], s[1]);
      assert s == [s[0]] + s[1..];
    }
  }

  lemma {:induction false} InsertMembers<T>(le: (T, T) -> bool, x: T, sorted: seq<T>)
    ensures forall y :: y in Insert(le, x, sorted) <==> y == x || y in sorted
  {
    if sorted != [] && !le(x, sorted[0]) {
      InsertMembers(le, x, sorted[1..]);
      assert sorted == [sorted[0]] + sorted[1..];
    }
  }

  lemma {:induction false} InsertInOrder<T(!new)>(le: (T, T) -> bool, x: T, sorted: seq<T>)
    requires Preorder(le) && InOrder(le, sorted)
    ensures InOrder(le, Insert(le, x, sorted))
  {
    if sorted != [] && !le(x, sorted[0]) {
      InsertInOrder(le, x, sorted[1..]);
      InsertMembers(le, x, sorted[1..]);
      var tail := Insert(le, x, sorted[1..]);
      forall i | 0 <= i < |tail| ensures le(sorted[0], tail[i]) {
        assert tail[i] in tail;
      }
    } else if sorted != [] {
      forall i | 0 <= i < |sorted| ensures le(x, sorted[i]) {
        assert i > 0 ==> le(sorted[0], sorted[i]);
      }
    }
  }

  lemma {:induction false} SortMembers<T>(le: (T, T) -> bool, s: seq<T>)
    ensures forall x :: x in Sort(le, s) <==> x in s
  {
    if s != [] {
      SortMembers(le, s[1..]);
      InsertMembers(le, s[0], Sort(le, s[1..]));
      assert s == [s[0]] + s[1..];
    }
  }

  lemma {:induction false} SortInOrder<T(!new)>(le: (T, T) -> bool, s: seq<T>)
    requires Preorder(le)
    ensures InOrder(le, Sort(le, s))
  {
    if s != [] {
      SortInOrder(le, s[1..]);
      InsertInOrder(le, s[0], Sort(le, s[1..]));
    }
  }

  lemma {:induction false} InsertDistinct<T>(le: (T, T) -> bool, x: T, sorted: seq<T>)
    requires Distinct(sorted) && x !in sorted
    ensures Distinct(Insert(le, x, sorted))
  {
    if sorted != [] && !le(x, sorted[0]) {
      InsertDistinct(le, x, sorted[1..]);
      InsertMembers(le, x, sorted[1..]);
      var tail := Insert(le, x, sorted[1..]);
      forall i | 0 <= i < |tail| ensures sorted[0] != tail[i] {
        assert tail[i] in tail;
      }
    }
  }

  lemma {:induction false} SortDistinct<T>(le: (T, T) -> bool, s: seq<T>)
    requires Distinct(s)
    ensures Distinct(Sort(le, s))
  {
    if s != [] {
      SortDistinct(le, s[1..]);
      SortMembers(le, s[1..]);
      InsertDistinct(le, s[0], Sort(le, s[1..]));
    }
  }

  predicate AtMost(x: int, y: int) {
    x <= y
  }

  predicate Ascending(s: seq<int>) {
    forall i, j :: 0 <= i < j < |s| ==> s[i] <= s[j]
  }

  /** A list of integers equals its sorted form exactly when it ascends. */
  lemma SortedIffAscending(s: seq<int>)
    ensures s == Sort(AtMost, s) <==> Ascending(s)
  {
    SortInOrder(AtMost, s);
    if Ascending(s) {
      SortedIsFixed(AtMost, s);
    }
    if s == Sort(AtMost, s) {
      forall i, j | 0 <= i < j < |s| ensures s[i] <= s[j] {
        assert AtMost(s[i], s[j]);
      }
    }
  }
}
