/** A canonical selection of options: what filtering the options keeps is exactly what lists them in their own order. */
module Selections {
  import opened Domain
  import opened AssessmentLedger

  /** The selection lists options only, each once, in the order in which the item does. */
  ghost predicate Selects(options: seq<Text>, selection: seq<Text>) {
    && (forall i :: 0 <= i < |selection| ==> selection[i] in options)
    && (forall i, j :: 0 <= i < j < |selection| ==> ListedBefore(options, selection[i], selection[j]))
  }

  /** Wherever the options list the two, they list `x` first. */
  ghost predicate ListedBefore(options: seq<Text>, x: Text, y: Text) {
    forall p, q :: 0 <= p < |options| && 0 <= q < |options| && options[p] == x && options[q] == y ==> p < q
  }

  lemma {:induction false} KeptMembers(options: seq<Text>, selected: set<Text>, x: Text)
    ensures x in Kept(options, selected) <==> x in options && x in selected
  {
    if options != [] {
      KeptMembers(options[1..], selected, x);
      assert options == [options[0]] + options[1..];
    }
  }

  /** Of two options other than the first, the order is that among the later ones. */
  lemma LaterListed(options: seq<Text>, x: Text, y: Text)
    requires options != [] && x != options[0] && y != options[0]
    ensures ListedBefore(options, x, y) <==> ListedBefore(options[1..], x, y)
  {
    if ListedBefore(options[1..], x, y) {
      forall p, q | 0 <= p < |options| && 0 <= q < |options| && options[p] == x && options[q] == y ensures p < q {
        assert options[1..][p - 1] == x && options[1..][q - 1] == y;
      }
    }
    if ListedBefore(options, x, y) {
      forall p, q | 0 <= p < |options[1..]| && 0 <= q < |options[1..]| && options[1..][p] == x && options[1..][q] == y
        ensures p < q
      {
        assert options[p + 1] == x && options[q + 1] == y;
      }
    }
  }

  lemma FirstListed(options: seq<Text>, y: Text)
    requires options != [] && Distinct(options) && y != options[0]
    ensures ListedBefore(options, options[0], y)
  {
  }

  /** A selection from the later options is one from all of them. */
  lemma SelectsMore(options: seq<Text>, selection: seq<Text>)
    requires options != [] && Distinct(options) && Selects(options[1..], selection)
    ensures Selects(options, selection)
  {
    forall i | 0 <= i < |selection| ensures selection[i] in options && selection[i] != options[0] {
      var k :| 0 <= k < |options[1..]| && options[1..][k] == selection[i];
      assert options[k + 1] == selection[i];
    }
    forall i, j | 0 <= i < j < |selection| ensures ListedBefore(options, selection[i], selection[j]) {
      assert ListedBefore(options[1..], selection[i], selection[j]);
      LaterListed(options, selection[i], selection[j]);
    }
  }

  lemma SelectsFirst(options: seq<Text>, selection: seq<Text>)
    requires options != [] && Distinct(options) && Selects(options, selection)
    requires options[0] !in selection
    ensures Selects(options, [options[0]] + selection)
  {
    var longer := [options[0]] + selection;
    forall i, j | 0 <= i < j < |longer| ensures ListedBefore(options, longer[i], longer[j]) {
      assert longer[j] == selection[j - 1];
      if i == 0 {
        FirstListed(options, longer[j]);
      } else {
        assert longer[i] == selection[i - 1];
      }
    }
  }

  lemma {:induction false} KeptSelects(options: seq<Text>, selected: set<Text>)
    requires Distinct(options)
    ensures Selects(options, Kept(options, selected))
  {
    if options != [] {
      var rest := Kept(options[1..], selected);
      KeptSelects(options[1..], selected);
      SelectsMore(options, rest);
      if options[0] in selected {
        FirstIsNotLater(options, selected);
        SelectsFirst(options, rest);
      }
    }
  }

  lemma FirstIsNotLater(options: seq<Text>, selected: set<Text>)
    requires options != [] && Distinct(options)
    ensures options[0] !in Kept(options[1..], selected)
  {
    KeptMembers(options[1..], selected, options[0]);
  }

  /** If the first option is selected at all, it is selected first. */
  lemma FirstIsSelectedFirst(options: seq<Text>, selection: seq<Text>)
    requires options != [] && Selects(options, selection) && options[0] in selection
    ensures selection[0] == options[0] && options[0] !in selection[1..]
  {
    forall k | 0 < k < |selection| ensures selection[k] != options[0] {
      assert ListedBefore(options, selection[0], selection[k]);
      assert selection[0] in options;
    }
  }

  /** A selection without the first option is one from the later options. */
  lemma LaterSelects(options: seq<Text>, selection: seq<Text>)
    requires options != [] && Selects(options, selection) && options[0] !in selection
    ensures Selects(options[1..], selection)
  {
    forall i | 0 <= i < |selection| ensures selection[i] in options[1..] {
      assert options == [options[0]] + options[1..];
      assert selection[i] in selection && selection[i] in options;
    }
    forall i, j | 0 <= i < j < |selection| ensures ListedBefore(options[1..], selection[i], selection[j]) {
      assert selection[i] in selection && selection[j] in selection;
      LaterListed(options, selection[i], selection[j]);
    }
  }

  lemma RestSelects(options: seq<Text>, selection: seq<Text>)
    requires selection != [] && Selects(options, selection)
    ensures Selects(options, selection[1..])
  {
    var rest := selection[1..];
    forall i, j | 0 <= i < j < |rest| ensures ListedBefore(options, rest[i], rest[j]) {
      assert rest[i] == selection[i + 1] && rest[j] == selection[j + 1];
    }
  }

  /** A selection is what keeping its elements gives. */
  lemma {:induction false} SelectionIsKept(options: seq<Text>, selection: seq<Text>)
    requires Distinct(options) && Selects(options, selection)
    ensures Kept(options, Elements(selection)) == selection
    decreases |options|
  {
    if selection == [] {
      KeptNothing(options);
    } else {
      assert selection[0] in options;
      if options[0] in selection {
        FirstIsSelectedFirst(options, selection);
        RestSelects(options, selection);
        LaterSelects(options, selection[1..]);
        FirstIsUnique(options);
        SelectionIsKept(options[1..], selection[1..]);
        KeptIgnores(options[1..], Elements(selection[1..]), options[0]);
        assert selection == [options[0]] + selection[1..];
        assert Elements(selection) == Elements(selection[1..]) + {options[0]};
      } else {
        LaterSelects(options, selection);
        SelectionIsKept(options[1..], selection);
      }
    }
  }

  lemma {:induction false} KeptNothing(options: seq<Text>)
    ensures Kept(options, Elements([])) == []
  {
    if options != [] {
      KeptNothing(options[1..]);
    }
  }

  lemma FirstIsUnique(options: seq<Text>)
    requires options != [] && Distinct(options)
    ensures options[0] !in options[1..] && Distinct(options[1..])
  {
  }

  /** Selecting what is no option keeps nothing more. */
  lemma {:induction false} KeptIgnores(options: seq<Text>, selected: set<Text>, x: Text)
    requires x !in options
    ensures Kept(options, selected + {x}) == Kept(options, selected)
  {
    if options != [] {
      KeptIgnores(options[1..], selected, x);
    }
  }

  /** Text is canonical, its own filtered options, exactly when it selects. */
  lemma SelectsExactly(options: seq<Text>, selection: seq<Text>)
    requires Distinct(options)
    ensures selection == Kept(options, Elements(selection)) <==> Selects(options, selection)
  {
    if selection == Kept(options, Elements(selection)) {
      KeptSelects(options, Elements(selection));
    } else if Selects(options, selection) {
      SelectionIsKept(options, selection);
    }
  }
}
