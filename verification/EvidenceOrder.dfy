/** Exactly when the evidence projection succeeds: no grade of the same format lies strictly between a grade and
    its contest.  Criterion groups never decide. */
module EvidenceOrder {
  import opened Domain
  import opened AssessmentLedger
  import opened Evidence
  import opened Collections
  import AI = AssessmentInvariants
  import AssessmentRuns
  import ArtifactLedger
  import opened Course

  // ------------------------------------------------------------- sorted order

  ghost predicate Enumerates(listing: seq<GradeId>, grades: map<GradeId, Grade>) {
    Distinct(listing) && forall g :: g in listing <==> g in grades
  }

  ghost predicate Rising(grades: map<GradeId, Grade>, order: seq<GradeId>) {
    forall i, j :: 0 <= i < j < |order| ==> TimeOf(grades, order[i]) < TimeOf(grades, order[j])
  }

  /** Sorting by distinct event sequences lists the same grades in strictly rising order. */
  lemma ByTimeRises(grades: map<GradeId, Grade>, listing: seq<GradeId>)
    requires Distinct(listing)
    requires forall g, h :: g in listing && h in listing && TimeOf(grades, g) == TimeOf(grades, h) ==> g == h
    ensures Rising(grades, ByTime(grades, listing)) && Distinct(ByTime(grades, listing))
    ensures forall x :: x in ByTime(grades, listing) <==> x in listing
  {
    var order := ByTime(grades, listing);
    SortInOrder(NotLater(grades), listing);
    SortMembers(NotLater(grades), listing);
    SortDistinct(NotLater(grades), listing);
    forall i, j | 0 <= i < j < |order| ensures TimeOf(grades, order[i]) < TimeOf(grades, order[j]) {
      assert NotLater(grades)(order[i], order[j]);
      assert order[i] in order && order[j] in order && order[i] != order[j];
    }
  }

  // ------------------------------------------------------ one group in order

  /** The facts about grades and contests that ordering depends on. */
  ghost predicate Clocked(book: Assessments, order: seq<GradeId>) {
    && AllKnown(book, order) && Rising(book.grades, order)
    && (forall i :: 0 <= i < |order| ==> ContestFollows(book, order[i]))
    && (forall i, j :: 0 <= i < |order| && 0 <= j < |order| ==>
      ContestTime(book.contests, order[i]) != Some(TimeOf(book.grades, order[j])))
  }

  ghost predicate ContestFollows(book: Assessments, g: GradeId) {
    match ContestTime(book.contests, g) case None => true case Some(t) => TimeOf(book.grades, g) < t
  }

  /** Grade `h` was recorded strictly between `g` and the contest of `g`. */
  ghost predicate Crosses(book: Assessments, g: GradeId, h: GradeId) {
    && TimeOf(book.grades, g) < TimeOf(book.grades, h)
    && ContestTime(book.contests, g).Some? && TimeOf(book.grades, h) < ContestTime(book.contests, g).value
  }

  /** Two grades of the group at positions `i` and `j` cross. */
  ghost predicate CrossedAt(book: Assessments, order: seq<GradeId>, group: Group, i: int, j: int)
    requires AllKnown(book, order) && 0 <= i < |order| && 0 <= j < |order|
  {
    InGroup(book, order[i], group) && InGroup(book, order[j], group) && Crosses(book, order[i], order[j])
  }

  ghost predicate Crossed(book: Assessments, order: seq<GradeId>, group: Group)
    requires AllKnown(book, order)
  {
    exists i, j :: 0 <= i < |order| && 0 <= j < |order| && CrossedAt(book, order, group, i, j)
  }

  /** A reference of a group stems from one of its grades, at the time of the grade or of its contest. */
  lemma {:induction false} ReferenceSource(
    book: Assessments, order: seq<GradeId>, group: Group, k: int) returns (i: int)
    requires AllKnown(book, order) && 0 <= k < |References(book, order, group)|
    ensures 0 <= i < |order| && InGroup(book, order[i], group)
    ensures var r := References(book, order, group)[k];
      r.sequence == TimeOf(book.grades, order[i]) || ContestTime(book.contests, order[i]) == Some(r.sequence)
  {
    var n := |order| - 1;
    var before := References(book, order[..n], group);
    if k < |before| {
      i := ReferenceSource(book, order[..n], group, k);
    } else {
      i := n;
    }
  }

  /** A contested grade's contest appears in each of its groups. */
  lemma {:induction false} ContestListed(book: Assessments, order: seq<GradeId>, group: Group, i: int) returns (k: int)
    requires AllKnown(book, order) && 0 <= i < |order| && InGroup(book, order[i], group)
    requires ContestTime(book.contests, order[i]).Some?
    ensures 0 <= k < |References(book, order, group)|
    ensures References(book, order, group)[k].sequence == ContestTime(book.contests, order[i]).value
  {
    var n := |order| - 1;
    var before := References(book, order[..n], group);
    if i < n {
      assert order[..n][i] == order[i];
      k := ContestListed(book, order[..n], group, i);
    } else {
      k := |before| + 1;
    }
  }

  /** Appending the next grade keeps a group in order exactly when no earlier contest of the group comes later. */
  lemma NextInOrder(book: Assessments, order: seq<GradeId>, group: Group)
    requires Clocked(book, order) && order != [] && InGroup(book, order[|order| - 1], group)
    ensures var n := |order| - 1;
      var before := References(book, order[..n], group);
      (forall k :: 0 <= k < |before| ==> before[k].sequence <= TimeOf(book.grades, order[n]))
      <==> !exists i :: 0 <= i < n && CrossedAt(book, order, group, i, n)
  {
    var n := |order| - 1;
    var before := References(book, order[..n], group);
    if k :| 0 <= k < |before| && before[k].sequence > TimeOf(book.grades, order[n]) {
      var i := ReferenceSource(book, order[..n], group, k);
      assert order[..n][i] == order[i];
      assert CrossedAt(book, order, group, i, n);
    }
    if i :| 0 <= i < n && CrossedAt(book, order, group, i, n) {
      assert order[..n][i] == order[i];
      var k := ContestListed(book, order[..n], group, i);
    }
  }

  lemma JoinInOrder(a: seq<Reference>, b: seq<Reference>, time: int)
    requires b != [] ==> b[0].sequence == time
    requires InEventOrder(b)
    ensures InEventOrder(a + b) <==> InEventOrder(a) && (b != [] ==> forall k :: 0 <= k < |a| ==> a[k].sequence <= time)
  {
    var all := a + b;
    if InEventOrder(all) {
      assert forall k :: 0 <= k < |a| ==> all[k] == a[k];
      assert b != [] ==> all[|a|] == b[0];
    }
  }

  lemma ContributionInOrder(book: Assessments, g: GradeId, group: Group)
    requires Known(book, g) && ContestFollows(book, g)
    ensures var added := Contribution(book, g, group, |book.grades[g].criteria|);
      && (added != [] <==> InGroup(book, g, group))
      && (added != [] ==> added[0].sequence == TimeOf(book.grades, g))
      && InEventOrder(added)
  {
  }

  lemma StepInOrder(book: Assessments, order: seq<GradeId>, group: Group)
    requires Clocked(book, order) && order != []
    ensures var n := |order| - 1;
      InEventOrder(References(book, order, group)) <==>
        && InEventOrder(References(book, order[..n], group))
        && !exists i :: 0 <= i < n && CrossedAt(book, order, group, i, n)
  {
    var n := |order| - 1;
    var added := Contribution(book, order[n], group, |book.grades[order[n]].criteria|);
    assert ContestFollows(book, order[n]);
    ContributionInOrder(book, order[n], group);
    JoinInOrder(References(book, order[..n], group), added, TimeOf(book.grades, order[n]));
    if InGroup(book, order[n], group) {
      NextInOrder(book, order, group);
    }
  }

  /** A group is in event order exactly when no two of its grades cross. */
  lemma {:induction false} GroupInOrder(book: Assessments, order: seq<GradeId>, group: Group)
    requires Clocked(book, order)
    ensures InEventOrder(References(book, order, group)) <==> !Crossed(book, order, group)
  {
    if order != [] {
      GroupInOrder(book, order[..|order| - 1], group);
      CrossedSnoc(book, order, group);
      StepInOrder(book, order, group);
    }
  }

  lemma CrossedSnoc(book: Assessments, order: seq<GradeId>, group: Group)
    requires Clocked(book, order) && order != []
    ensures var n := |order| - 1;
      Crossed(book, order, group) <==>
        Crossed(book, order[..n], group) || exists i :: 0 <= i < n && CrossedAt(book, order, group, i, n)
  {
    var n := |order| - 1;
    forall i, j | 0 <= i < n && 0 <= j < n ensures CrossedAt(book, order, group, i, j) <==>
      CrossedAt(book, order[..n], group, i, j) {
    }
    forall i | 0 <= i <= n ensures !CrossedAt(book, order, group, n, i) {
    }
  }

  // ------------------------------------------------------- all groups at once

  /** The grade answers an item of the format. */
  ghost predicate HasFormat(book: Assessments, g: GradeId, format: Format) {
    && g in book.grades
    && book.grades[g].attempt in book.attempts
    && book.attempts[book.grades[g].attempt].presentation in book.presentations
    && var content := book.presentations[book.attempts[book.grades[g].attempt].presentation].content;
    && content.AssessmentItem? && content.item.format == format
  }

  /** Contest `i` is the last one of the grade. */
  ghost predicate LastContest(contests: seq<Contest>, g: GradeId, i: int) {
    && 0 <= i < |contests| && contests[i].grade == g
    && forall j :: i < j < |contests| ==> contests[j].grade != g
  }

  ghost predicate CrossesAt(book: Assessments, format: Format, g: GradeId, h: GradeId, i: int) {
    && HasFormat(book, g, format) && HasFormat(book, h, format) && LastContest(book.contests, g, i)
    && book.grades[g].sequence < book.grades[h].sequence < book.contests[i].sequence
  }

  /** Some grade of the same format lies strictly between a grade and its contest. */
  ghost predicate FormatsCross(book: Assessments) {
    exists format, g, h, i :: CrossesAt(book, format, g, h, i)
  }

  /** The contest lookup answers with the last contest of the grade, or nothing when it has none. */
  lemma {:induction false} ContestTimeExactly(contests: seq<Contest>, g: GradeId)
    ensures ContestTime(contests, g).None? <==> forall i :: 0 <= i < |contests| ==> contests[i].grade != g
    ensures ContestTime(contests, g).Some? ==> exists i ::
      LastContest(contests, g, i) && contests[i].sequence == ContestTime(contests, g).value
  {
    if contests != [] {
      var n := |contests| - 1;
      ContestTimeExactly(contests[..n], g);
      if contests[n].grade == g {
        assert LastContest(contests, g, n);
      } else if ContestTime(contests, g).Some? {
        var i :| LastContest(contests[..n], g, i) && contests[..n][i].sequence == ContestTime(contests, g).value;
        assert LastContest(contests, g, i);
      }
    }
  }

  lemma LastContestTime(contests: seq<Contest>, g: GradeId, i: int)
    requires LastContest(contests, g, i)
    ensures ContestTime(contests, g) == Some(contests[i].sequence)
  {
    ContestTimeExactly(contests, g);
  }

  /** Two known grades of one format that cross, as the projection looks them up. */
  ghost predicate KnownCross(book: Assessments, g: GradeId, h: GradeId) {
    Known(book, g) && Known(book, h) && FormatOf(book, g) == FormatOf(book, h) && Crosses(book, g, h)
  }

  lemma CrossIsKnown(book: Assessments, format: Format, g: GradeId, h: GradeId, i: int)
    requires CrossesAt(book, format, g, h, i)
    ensures KnownCross(book, g, h)
  {
    LastContestTime(book.contests, g, i);
  }

  lemma KnownIsCross(book: Assessments, g: GradeId, h: GradeId)
    requires KnownCross(book, g, h)
    ensures FormatsCross(book)
  {
    ContestTimeExactly(book.contests, g);
    var i :| LastContest(book.contests, g, i) && book.contests[i].sequence == ContestTime(book.contests, g).value;
    assert CrossesAt(book, FormatOf(book, g), g, h, i);
  }

  /** Presentations of one revision show one content. */
  ghost predicate OneContent(book: Assessments) {
    forall p, q ::
      && p in book.presentations && q in book.presentations
      && book.presentations[p].revision == book.presentations[q].revision
      ==> book.presentations[p].content == book.presentations[q].content
  }

  /** Crossing grades in any group cross in their format group. */
  lemma CrossingIsByFormat(book: Assessments, order: seq<GradeId>, group: Group)
    requires AllKnown(book, order) && OneContent(book) && Crossed(book, order, group)
    ensures FormatsCross(book)
    ensures exists f :: Crossed(book, order, FormatGroup(f))
  {
    var i, j :| 0 <= i < |order| && 0 <= j < |order| && CrossedAt(book, order, group, i, j);
    var g, h := order[i], order[j];
    assert FormatOf(book, g) == FormatOf(book, h) by {
      assert group.CriterionGroup? ==> PresentationFor(book, g).revision == PresentationFor(book, h).revision;
    }
    assert CrossedAt(book, order, FormatGroup(FormatOf(book, g)), i, j);
    KnownIsCross(book, g, h);
  }

  lemma FormatCrossingIsListed(book: Assessments, order: seq<GradeId>)
    requires AllKnown(book, order) && Enumerates(order, book.grades) && FormatsCross(book)
    ensures exists f :: Crossed(book, order, FormatGroup(f))
  {
    var format, g, h, c :| CrossesAt(book, format, g, h, c);
    CrossIsKnown(book, format, g, h, c);
    assert g in order && h in order;
    var i :| 0 <= i < |order| && order[i] == g;
    var j :| 0 <= j < |order| && order[j] == h;
    assert CrossedAt(book, order, FormatGroup(FormatOf(book, g)), i, j);
  }

  lemma {:induction false} GroupsBelong(book: Assessments, g: GradeId, n: int, k: Group)
    requires Known(book, g) && 0 <= n <= |book.grades[g].criteria|
    ensures k in GroupsUpTo(book, g, n) <==> Belongs(book, g, k, n)
  {
    if n > 0 {
      GroupsBelong(book, g, n - 1, k);
    }
  }

  lemma {:induction false} TouchedExactly(book: Assessments, order: seq<GradeId>, k: Group)
    requires AllKnown(book, order)
    ensures k in Touched(book, order) <==> exists i :: 0 <= i < |order| && InGroup(book, order[i], k)
  {
    if order != [] {
      var n := |order| - 1;
      TouchedExactly(book, order[..n], k);
      GroupsBelong(book, order[n], |book.grades[order[n]].criteria|, k);
      assert forall i :: 0 <= i < n ==> order[..n][i] == order[i];
    }
  }

  ghost predicate Weighed(book: Assessments, g: GradeId) {
    g in book.grades && ScoreDecodes(book.grades[g].score) && 0 < book.grades[g].sequence && ContestFollows(book, g)
  }

  lemma {:induction false} ReferencesAreSound(book: Assessments, order: seq<GradeId>, group: Group)
    requires AllKnown(book, order) && forall i :: 0 <= i < |order| ==> Weighed(book, order[i])
    ensures forall k :: 0 <= k < |References(book, order, group)| ==> ReferenceOk(References(book, order, group)[k])
  {
    if order != [] {
      ReferencesAreSound(book, order[..|order| - 1], group);
      assert Weighed(book, order[|order| - 1]);
    }
  }

  lemma AdmissibleExactly(book: Assessments, order: seq<GradeId>, k: Group)
    requires Clocked(book, order) && forall i :: 0 <= i < |order| ==> Weighed(book, order[i])
    ensures Admissible(References(book, order, k)) <==> !Crossed(book, order, k)
  {
    ReferencesAreSound(book, order, k);
    GroupInOrder(book, order, k);
  }

  lemma RefusedMeansCrossed(book: Assessments, order: seq<GradeId>)
    requires Clocked(book, order) && OneContent(book) && Project(book, order).None?
    requires forall i :: 0 <= i < |order| ==> Weighed(book, order[i])
    ensures FormatsCross(book)
  {
    var groups := Assembled(book, order);
    var k :| k in groups && !Admissible(groups[k]);
    AdmissibleExactly(book, order, k);
    CrossingIsByFormat(book, order, k);
  }

  lemma CrossedMeansRefused(book: Assessments, order: seq<GradeId>)
    requires Clocked(book, order) && Enumerates(order, book.grades) && FormatsCross(book)
    requires forall i :: 0 <= i < |order| ==> Weighed(book, order[i])
    ensures Project(book, order).None?
  {
    FormatCrossingIsListed(book, order);
    var f :| Crossed(book, order, FormatGroup(f));
    var k := FormatGroup(f);
    TouchedExactly(book, order, k);
    AdmissibleExactly(book, order, k);
    assert k in Assembled(book, order) && !Admissible(Assembled(book, order)[k]);
  }

  /** The projection of a well-formed book succeeds exactly when no two grades of one format cross. */
  lemma ProjectSucceedsExactly(book: Assessments, order: seq<GradeId>)
    requires Clocked(book, order) && Enumerates(order, book.grades) && OneContent(book)
    requires forall i :: 0 <= i < |order| ==> Weighed(book, order[i])
    ensures Project(book, order).Some? <==> !FormatsCross(book)
  {
    if Project(book, order).None? {
      RefusedMeansCrossed(book, order);
    } else if FormatsCross(book) {
      CrossedMeansRefused(book, order);
    }
  }

  // ------------------------------------------------------------ replayed books

  lemma {:induction false} ContestTimeSource(contests: seq<Contest>, g: GradeId) returns (i: int)
    requires ContestTime(contests, g).Some?
    ensures 0 <= i < |contests| && contests[i].grade == g && ContestTime(contests, g) == Some(contests[i].sequence)
  {
    var n := |contests| - 1;
    if contests[n].grade == g { i := n; } else { i := ContestTimeSource(contests[..n], g); }
  }

  lemma BookContests(book: Assessments, n: int, g: GradeId)
    requires AI.Timed(book.grades, book.contests, n) && g in book.grades
    ensures ContestFollows(book, g)
    ensures forall h :: h in book.grades ==> ContestTime(book.contests, g) != Some(TimeOf(book.grades, h))
  {
    if ContestTime(book.contests, g).Some? {
      var i := ContestTimeSource(book.contests, g);
      assert AI.Contested(book.contests[i], book.grades);
    }
  }

  lemma BookKnows(book: Assessments, g: GradeId)
    requires AI.Judged(book.grades, book.attempts, book.presentations) && g in book.grades
    ensures Known(book, g) && ScoreDecodes(book.grades[g].score)
  {
    assert AI.Judges(book.grades[g], book.attempts, book.presentations);
  }

  lemma BookIsClocked(
    book: Assessments, revisions: map<RevisionId, ArtifactLedger.Revision>, n: int, listing: seq<GradeId>)
    requires AI.BookOk(book, revisions, n) && Enumerates(listing, book.grades)
    ensures var order := ByTime(book.grades, listing);
      Clocked(book, order) && Enumerates(order, book.grades) && forall i :: 0 <= i < |order| ==> Weighed(book, order[i])
  {
    var order := ByTime(book.grades, listing);
    ByTimeRises(book.grades, listing);
    forall i | 0 <= i < |order|
      ensures Known(book, order[i]) && Weighed(book, order[i])
      ensures forall h :: h in book.grades ==> ContestTime(book.contests, order[i]) != Some(TimeOf(book.grades, h))
    {
      assert order[i] in order;
      BookKnows(book, order[i]);
      BookContests(book, n, order[i]);
    }
  }

  lemma BookHasOneContent(book: Assessments, revisions: map<RevisionId, ArtifactLedger.Revision>)
    requires AI.Shown(book.presentations, revisions)
    ensures OneContent(book)
  {
    forall p, q | p in book.presentations && q in book.presentations &&
      book.presentations[p].revision == book.presentations[q].revision
      ensures book.presentations[p].content == book.presentations[q].content
    {
      assert AI.Quotes(book.presentations[p], revisions) && AI.Quotes(book.presentations[q], revisions);
    }
  }

  /** In every replayed state, for every listing of the grades: the evidence projection succeeds exactly when no
      grade of the same format lies strictly between a grade and its contest. */
  lemma EvidenceSucceedsExactly(stream: seq<Event>, listing: seq<GradeId>)
    requires Replay(stream).Some? && Enumerates(listing, Replay(stream).value.book.grades)
    ensures LearnerEvidence(Replay(stream).value.book, listing).Some? <==> !FormatsCross(Replay(stream).value.book)
  {
    var st := Replay(stream).value;
    AssessmentRuns.ReplayKeepsBook(stream);
    BookIsClocked(st.book, st.ledger.revisions, |stream|, listing);
    BookHasOneContent(st.book, st.ledger.revisions);
    ProjectSucceedsExactly(st.book, ByTime(st.book.grades, listing));
  }

  /** In every replayed state a criterion group out of event order puts a format group out of event order. */
  lemma CriterionViolationIsFormatViolation(stream: seq<Event>, listing: seq<GradeId>, k: Group) returns (f: Format)
    requires Replay(stream).Some? && Enumerates(listing, Replay(stream).value.book.grades)
    requires var book := Replay(stream).value.book;
      AllKnown(book, ByTime(book.grades, listing)) && !InEventOrder(References(book, ByTime(book.grades, listing), k))
    ensures var book := Replay(stream).value.book;
      !InEventOrder(References(book, ByTime(book.grades, listing), FormatGroup(f)))
  {
    var st := Replay(stream).value;
    AssessmentRuns.ReplayKeepsBook(stream);
    BookIsClocked(st.book, st.ledger.revisions, |stream|, listing);
    BookHasOneContent(st.book, st.ledger.revisions);
    f := OutOfOrderByFormat(st.book, ByTime(st.book.grades, listing), k);
  }

  lemma OutOfOrderByFormat(book: Assessments, order: seq<GradeId>, k: Group) returns (f: Format)
    requires Clocked(book, order) && OneContent(book) && !InEventOrder(References(book, order, k))
    ensures !InEventOrder(References(book, order, FormatGroup(f)))
  {
    GroupInOrder(book, order, k);
    CrossingIsByFormat(book, order, k);
    f :| Crossed(book, order, FormatGroup(f));
    GroupInOrder(book, order, FormatGroup(f));
  }
}
