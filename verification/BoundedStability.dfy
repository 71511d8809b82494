/** Exactly which captures may be taken away from a bounded reading, and so which may be added to
    it, without disturbing it. */
module BoundedStability {
  import opened Outcomes
  import opened Lists
  import opened TransitionCells
  import opened Transitions
  import opened BoundedReading

  // ---- the captures held per gameweek ----

  /** Capture `j` comes before `i`, by instant and then by place. */
  predicate Before(all: seq<Capture>, j: nat, i: nat)
    requires j < |all| && i < |all|
  {
    all[j].at < all[i].at || (all[j].at == all[i].at && j < i)
  }

  predicate Decides(all: seq<Capture>, keep: Capture -> bool, gameweek: int, i: int) {
    0 <= i < |all| && keep(all[i]) && IsDecisionOf(all[i], gameweek)
  }

  /** Capture `i` comes last among the kept ones that decide a gameweek. */
  ghost predicate LastKept(all: seq<Capture>, keep: Capture -> bool, gameweek: int, i: int) {
    && Decides(all, keep, gameweek, i)
    && forall j | Decides(all, keep, gameweek, j) :: j == i || Before(all, j, i)
  }

  function Kept(all: seq<Capture>, keep: Capture -> bool): map<int, DecisionCapture> {
    Chosen(Filter(all, keep))
  }

  lemma FilterLast<T>(items: seq<T>, x: T, keep: T -> bool)
    ensures Filter(items + [x], keep) == if keep(x) then Filter(items, keep) + [x] else Filter(items, keep)
  {
    FilterAppend(items, [x], keep);
    assert Filter([x], keep) == if keep(x) then [x] else [];
  }

  lemma LastKeptNext(front: seq<Capture>, c: Capture, keep: Capture -> bool, gameweek: int, i: int)
    requires LastKept(front, keep, gameweek, i)
    ensures LastKept(front + [c], keep, gameweek,
                     if keep(c) && IsDecisionOf(c, gameweek) && c.at >= front[i].at then |front| else i)
  {
    var all := front + [c];
    assert forall j | 0 <= j < |front| :: all[j] == front[j];
    assert all[|front|] == c;
    forall j | Decides(all, keep, gameweek, j) && j < |front|
      ensures j == i || Before(all, j, i)
    {
      assert Decides(front, keep, gameweek, j);
    }
  }

  /** What is held after the kept captures of a listing is the last of them in the listing. */
  lemma {:induction false} KeptIsLast(all: seq<Capture>, keep: Capture -> bool, gameweek: int)
    ensures gameweek !in Kept(all, keep) ==> forall i :: !Decides(all, keep, gameweek, i)
    ensures gameweek in Kept(all, keep) ==>
              exists i :: LastKept(all, keep, gameweek, i) && Candidate(all[i]) == Done(Kept(all, keep)[gameweek])
  {
    if all != [] {
      var (front, last) := (all[..|all| - 1], all[|all| - 1]);
      assert all == front + [last];
      KeptIsLast(front, keep, gameweek);
      FilterLast(front, last, keep);
      ChosenNext(Filter(front, keep), last, gameweek);
      if gameweek in Kept(front, keep) {
        var i :| LastKept(front, keep, gameweek, i) && Candidate(front[i]) == Done(Kept(front, keep)[gameweek]);
        LastKeptNext(front, last, keep, gameweek, i);
      } else {
        OnlyDecision(front, last, keep, gameweek);
      }
    }
  }

  lemma OnlyDecision(front: seq<Capture>, c: Capture, keep: Capture -> bool, gameweek: int)
    requires forall i :: !Decides(front, keep, gameweek, i)
    ensures keep(c) && IsDecisionOf(c, gameweek) ==> LastKept(front + [c], keep, gameweek, |front|)
    ensures !(keep(c) && IsDecisionOf(c, gameweek)) ==> forall i :: !Decides(front + [c], keep, gameweek, i)
  {
    var all := front + [c];
    forall i | Decides(all, keep, gameweek, i)
      ensures i == |front|
    {
      assert i < |front| ==> Decides(front, keep, gameweek, i);
    }
  }

  /** Two captures with one decision are one capture. */
  lemma CandidateInjective(c: Capture, d: Capture)
    requires Candidate(c).Done? && Candidate(c) == Candidate(d)
    ensures c == d
  {
  }

  /** A kept capture that decides the same gameweek comes after capture `i`. */
  ghost predicate Beaten(all: seq<Capture>, keep: Capture -> bool, i: nat)
    requires i < |all| && Candidate(all[i]).Done?
  {
    exists h :: Decides(all, keep, Candidate(all[i]).value.gameweek, h) && Before(all, i, h)
  }

  /** Every dropped capture that decides one gameweek is beaten. */
  ghost predicate BeatenAt(all: seq<Capture>, keep: Capture -> bool, gameweek: int) {
    forall i | 0 <= i < |all| && !keep(all[i]) && IsDecisionOf(all[i], gameweek) :: Beaten(all, keep, i)
  }

  /** Every dropped capture that decides a gameweek up to the bound is beaten. */
  ghost predicate AllBeaten(all: seq<Capture>, keep: Capture -> bool, bound: int) {
    forall i | 0 <= i < |all| && !keep(all[i]) && Candidate(all[i]).Done? && Candidate(all[i]).value.gameweek <= bound ::
      Beaten(all, keep, i)
  }

  ghost predicate SameWeek(a: map<int, DecisionCapture>, b: map<int, DecisionCapture>, gameweek: int) {
    (gameweek in a <==> gameweek in b) && (gameweek in a ==> a[gameweek] == b[gameweek])
  }

  lemma LastIsNotBeaten(all: seq<Capture>, keep: Capture -> bool, gameweek: int, m: nat, d: DecisionCapture)
    requires Holds(all, gameweek, m, d)
    ensures !Beaten(all, keep, m)
  {
    forall h | Decides(all, keep, gameweek, h)
      ensures !Before(all, m, h)
    {
      assert IsDecisionOf(all[h], gameweek);
    }
  }

  lemma BeatenKeepsWeek(all: seq<Capture>, keep: Capture -> bool, gameweek: int)
    requires BeatenAt(all, keep, gameweek)
    ensures SameWeek(Chosen(all), Kept(all, keep), gameweek)
  {
    ChosenIsLast(all, gameweek);
    KeptIsLast(all, keep, gameweek);
    if gameweek in Chosen(all) {
      var m :| Holds(all, gameweek, m, Chosen(all)[gameweek]);
      LastIsNotBeaten(all, keep, gameweek, m, Chosen(all)[gameweek]);
      assert Decides(all, keep, gameweek, m);
      var h :| LastKept(all, keep, gameweek, h) && Candidate(all[h]) == Done(Kept(all, keep)[gameweek]);
      assert m == h;
    } else {
      assert forall i :: !Decides(all, keep, gameweek, i);
    }
  }

  lemma SameWeekIsBeaten(all: seq<Capture>, keep: Capture -> bool, gameweek: int)
    requires SameWeek(Chosen(all), Kept(all, keep), gameweek)
    ensures BeatenAt(all, keep, gameweek)
  {
    forall i | 0 <= i < |all| && !keep(all[i]) && IsDecisionOf(all[i], gameweek)
      ensures Beaten(all, keep, i)
    {
      ChosenIsLast(all, gameweek);
      KeptIsLast(all, keep, gameweek);
      var m :| Holds(all, gameweek, m, Chosen(all)[gameweek]);
      var h :| LastKept(all, keep, gameweek, h) && Candidate(all[h]) == Done(Kept(all, keep)[gameweek]);
      CandidateInjective(all[m], all[h]);
      assert Decides(all, keep, gameweek, m);
      assert i != m;
    }
  }

  lemma SameUpTo(a: map<int, DecisionCapture>, b: map<int, DecisionCapture>, bound: int)
    ensures UpTo(a, bound) == UpTo(b, bound) <==> forall g | g <= bound :: SameWeek(a, b, g)
  {
    if UpTo(a, bound) == UpTo(b, bound) {
      forall g | g <= bound
        ensures SameWeek(a, b, g)
      {
        assert g in a <==> g in UpTo(a, bound);
        assert g in b <==> g in UpTo(b, bound);
        assert g in a ==> UpTo(a, bound)[g] == a[g] && UpTo(b, bound)[g] == b[g];
      }
    }
    if forall g | g <= bound :: SameWeek(a, b, g) {
      forall g
        ensures g in UpTo(a, bound) <==> g in UpTo(b, bound)
        ensures g in UpTo(a, bound) ==> UpTo(a, bound)[g] == UpTo(b, bound)[g]
      {
        assert g <= bound ==> SameWeek(a, b, g);
      }
    }
  }

  /** Dropping captures from a listing leaves the decision captures up to the bound exactly when
      each dropped capture that decides one of those weeks comes before a kept one that decides
      the same week. */
  lemma DecisionsKeptExactlyWhen(all: seq<Capture>, keep: Capture -> bool, bound: int)
    ensures UpTo(Chosen(all), bound) == UpTo(Chosen(Filter(all, keep)), bound) <==> AllBeaten(all, keep, bound)
  {
    SameUpTo(Chosen(all), Kept(all, keep), bound);
    if AllBeaten(all, keep, bound) {
      forall g | g <= bound
        ensures SameWeek(Chosen(all), Kept(all, keep), g)
      {
        BeatenKeepsWeek(all, keep, g);
      }
    }
    if forall g | g <= bound :: SameWeek(Chosen(all), Kept(all, keep), g) {
      forall g | g <= bound
        ensures BeatenAt(all, keep, g)
      {
        SameWeekIsBeaten(all, keep, g);
      }
      assert AllBeaten(all, keep, bound) by {
        forall i | 0 <= i < |all| && !keep(all[i]) && Candidate(all[i]).Done? && Candidate(all[i]).value.gameweek <= bound
          ensures Beaten(all, keep, i)
        {
          assert BeatenAt(all, keep, Candidate(all[i]).value.gameweek);
        }
      }
    }
  }

  // ---- the inventory and the skipped captures ----

  ghost predicate DroppedAfter(all: seq<Capture>, keep: Capture -> bool, horizon: int) {
    forall c | c in all :: !keep(c) ==> c.at > horizon
  }

  function SeenIn(listing: seq<Capture>, horizon: int): seq<Seen> {
    Filter(Inventory(listing), SeenBy(horizon))
  }

  lemma SeenNext(listing: seq<Capture>, c: Capture, horizon: int)
    ensures SeenIn(listing + [c], horizon)
         == SeenIn(listing, horizon) + if c.at <= horizon then [Seen(c.id, c.at)] else []
  {
    InventoryNext(listing, c);
    FilterLast(Inventory(listing), Seen(c.id, c.at), SeenBy(horizon));
    assert SeenIn(listing, horizon) + [] == SeenIn(listing, horizon);
  }

  /** The captures seen by the horizon are as many exactly when none of them was dropped, and
      then they are the same. */
  lemma {:induction false} SameInventory(all: seq<Capture>, keep: Capture -> bool, horizon: int)
    ensures |SeenIn(all, horizon)| >= |SeenIn(Filter(all, keep), horizon)|
    ensures |SeenIn(all, horizon)| == |SeenIn(Filter(all, keep), horizon)| <==> DroppedAfter(all, keep, horizon)
    ensures DroppedAfter(all, keep, horizon) ==> SeenIn(all, horizon) == SeenIn(Filter(all, keep), horizon)
  {
    if all != [] {
      var (front, last) := (all[..|all| - 1], all[|all| - 1]);
      assert all == front + [last];
      SameInventory(front, keep, horizon);
      FilterLast(front, last, keep);
      SeenNext(front, last, horizon);
      SeenNext(Filter(front, keep), last, horizon);
      assert forall c :: c in all <==> c in front || c == last;
      assert SeenIn(front, horizon) + [] == SeenIn(front, horizon);
    }
  }

  lemma InventoryNext(listing: seq<Capture>, c: Capture)
    ensures Inventory(listing + [c]) == Inventory(listing) + [Seen(c.id, c.at)]
    ensures SkippedIn(listing + [c])
         == SkippedIn(listing) + if Candidate(c).Done? then [] else [Skipped(c.id, c.at, Candidate(c).error)]
  {
    assert (listing + [c])[..|listing + [c]| - 1] == listing;
  }

  lemma SkippedNext(listing: seq<Capture>, c: Capture, horizon: int)
    ensures Filter(SkippedIn(listing + [c]), SkippedBy(horizon))
         == Filter(SkippedIn(listing), SkippedBy(horizon))
          + if Candidate(c).Raised? && c.at <= horizon then [Skipped(c.id, c.at, Candidate(c).error)] else []
  {
    InventoryNext(listing, c);
    assert SkippedIn(listing) + [] == SkippedIn(listing);
    assert Filter(SkippedIn(listing), SkippedBy(horizon)) + [] == Filter(SkippedIn(listing), SkippedBy(horizon));
    if Candidate(c).Raised? {
      FilterLast(SkippedIn(listing), Skipped(c.id, c.at, Candidate(c).error), SkippedBy(horizon));
    }
  }

  lemma {:induction false} SameSkipped(all: seq<Capture>, keep: Capture -> bool, horizon: int)
    requires DroppedAfter(all, keep, horizon)
    ensures Filter(SkippedIn(all), SkippedBy(horizon)) == Filter(SkippedIn(Filter(all, keep)), SkippedBy(horizon))
  {
    if all != [] {
      var (front, last) := (all[..|all| - 1], all[|all| - 1]);
      assert all == front + [last] && last in all;
      SameSkipped(front, keep, horizon);
      FilterLast(front, last, keep);
      SkippedNext(front, last, horizon);
      SkippedNext(Filter(front, keep), last, horizon);
    }
  }

  // ---- the reading ----

  /** The deadline of the last week that a bounded reading keeps. */
  ghost function Horizon(listing: seq<Capture>, bound: int): int
    requires UpTo(Chosen(listing), bound).Keys != {}
  {
    var kept := UpTo(Chosen(listing), bound);
    kept[Greatest(kept.Keys)].deadline
  }

  /** What may be dropped: captures taken after the horizon, and beaten where they decide a week
      up to the bound. */
  ghost predicate Harmless(all: seq<Capture>, keep: Capture -> bool, bound: int)
    requires UpTo(Chosen(Filter(all, keep)), bound).Keys != {}
  {
    && DroppedAfter(all, keep, Horizon(Filter(all, keep), bound))
    && AllBeaten(all, keep, bound)
  }

  /** A bounded reading is stable: what is harmless to it may be dropped, or added, and every
      field of the reading stays. */
  lemma BoundedReadingIsStable(all: seq<Capture>, keep: Capture -> bool, merged: int, bound: int)
    requires UpTo(Chosen(Filter(all, keep)), bound).Keys != {}
    requires Harmless(all, keep, bound)
    ensures MeasureSpec(Some(all), merged, Some(bound)) == MeasureSpec(Some(Filter(all, keep)), merged, Some(bound))
  {
    var base := Filter(all, keep);
    DecisionsKeptExactlyWhen(all, keep, bound);
    SameInventory(all, keep, Horizon(base, bound));
    SameSkipped(all, keep, Horizon(base, bound));
    assert base != [];
    FilterMembers(all, keep);
    assert base[0] in base;
    assert BoundView(ViewOf(all), bound) == BoundView(ViewOf(base), bound);
  }

  /** No two captures of a listing have one id. */
  ghost predicate IdsDiffer(listing: seq<Capture>) {
    forall c, d | c in listing && d in listing && c.id == d.id :: c == d
  }

  lemma HeldIsListed(listing: seq<Capture>, gameweek: int) returns (c: Capture)
    requires gameweek in Chosen(listing)
    ensures c in listing && Candidate(c) == Done(Chosen(listing)[gameweek]) && c.id == Chosen(listing)[gameweek].id
  {
    ChosenIsLast(listing, gameweek);
    var i :| Holds(listing, gameweek, i, Chosen(listing)[gameweek]);
    c := listing[i];
  }

  /** Where ids differ, the identities of the decision captures tell them apart. */
  lemma SameIdentitiesSameCaptures(all: seq<Capture>, keep: Capture -> bool, bound: int, v: View, w: View)
    requires IdsDiffer(all)
    requires v.captures == UpTo(Chosen(all), bound) && w.captures == UpTo(Chosen(Filter(all, keep)), bound)
    requires Identities(v.captures, WeeksOf(v)) == Identities(w.captures, WeeksOf(w))
    ensures v.captures == w.captures
  {
    ChosenKeys(all);
    ChosenKeys(Filter(all, keep));
    SameWeeks(v, w);
    FilterMembers(all, keep);
    forall g | g in v.captures
      ensures v.captures[g] == w.captures[g]
    {
      var c := HeldIsListed(all, g);
      var d := HeldIsListed(Filter(all, keep), g);
      assert IdentityOf(v.captures[g]) == IdentityOf(w.captures[g]);
    }
  }

  lemma SameWeeks(v: View, w: View)
    requires forall g | g in v.captures :: v.captures[g].gameweek == g
    requires forall g | g in w.captures :: w.captures[g].gameweek == g
    requires Identities(v.captures, WeeksOf(v)) == Identities(w.captures, WeeksOf(w))
    ensures v.captures.Keys == w.captures.Keys
    ensures forall g | g in v.captures :: IdentityOf(v.captures[g]) == IdentityOf(w.captures[g])
  {
    var (x, y) := (WeeksOf(v), WeeksOf(w));
    SameIdentities(v.captures, x, w.captures, y);
    AscendingMeans(v.captures.Keys);
    AscendingMeans(w.captures.Keys);
    forall g
      ensures g in v.captures.Keys <==> g in w.captures.Keys
    {
      assert g in v.captures.Keys <==> g in x;
      assert g in w.captures.Keys <==> g in y;
    }
    forall g | g in v.captures
      ensures IdentityOf(v.captures[g]) == IdentityOf(w.captures[g])
    {
      assert g in v.captures.Keys && g in x;
    }
  }

  lemma SameIdentities(a: map<int, DecisionCapture>, x: seq<int>, b: map<int, DecisionCapture>, y: seq<int>)
    requires forall i | 0 <= i < |x| :: x[i] in a && a[x[i]].gameweek == x[i]
    requires forall i | 0 <= i < |y| :: y[i] in b && b[y[i]].gameweek == y[i]
    requires Identities(a, x) == Identities(b, y)
    ensures x == y
    ensures forall g | g in x :: g in a && g in b && IdentityOf(a[g]) == IdentityOf(b[g])
  {
    assert |x| == |Identities(a, x)| == |Identities(b, y)| == |y|;
    forall i | 0 <= i < |x|
      ensures x[i] == y[i] && IdentityOf(a[x[i]]) == IdentityOf(b[x[i]])
    {
      assert Identities(a, x)[i] == IdentityOf(a[x[i]]) && Identities(b, y)[i] == IdentityOf(b[y[i]]);
    }
  }

  /** A bounded reading that completes tells a listing from the same one with captures dropped
      exactly when some dropped capture is not harmless: taken by the horizon, or deciding a week
      up to the bound that no kept capture decides later. */
  lemma ReadingKeptExactlyWhen(all: seq<Capture>, keep: Capture -> bool, merged: int, bound: int)
    requires IdsDiffer(all)
    requires MeasureSpec(Some(Filter(all, keep)), merged, Some(bound)).Done?
    ensures UpTo(Chosen(Filter(all, keep)), bound).Keys != {}
    ensures MeasureSpec(Some(all), merged, Some(bound)) == MeasureSpec(Some(Filter(all, keep)), merged, Some(bound))
       <==> Harmless(all, keep, bound)
  {
    var base := Filter(all, keep);
    assert BoundView(ViewOf(base), bound).Done?;
    if Harmless(all, keep, bound) {
      BoundedReadingIsStable(all, keep, merged, bound);
    }
    if MeasureSpec(Some(all), merged, Some(bound)) == MeasureSpec(Some(base), merged, Some(bound)) {
      var (v, w) := (BoundView(ViewOf(all), bound).value, BoundView(ViewOf(base), bound).value);
      SameReadings(v, w, merged);
      SameIdentitiesSameCaptures(all, keep, bound, v, w);
      DecisionsKeptExactlyWhen(all, keep, bound);
      SameInventory(all, keep, Horizon(base, bound));
    }
  }

  lemma SameReadings(v: View, w: View, merged: int)
    requires ReadView(v, merged).Done? && ReadView(v, merged) == ReadView(w, merged)
    ensures Identities(v.captures, WeeksOf(v)) == Identities(w.captures, WeeksOf(w))
    ensures |v.inventory| == |w.inventory|
  {
  }

  /** Captures that agree on deadlines which increase with the gameweek. */
  ghost predicate AgreedDeadlines(listing: seq<Capture>, agreed: int -> int) {
    && (forall g, h | g < h :: agreed(g) < agreed(h))
    && forall c, d | c in listing && c.content.Bootstrap? && d in c.content.deadlines :: d.at == agreed(d.gameweek)
  }

  lemma CandidateDeadline(c: Capture)
    ensures Candidate(c).Done? ==>
              && c.content.Bootstrap?
              && Deadline(Candidate(c).value.gameweek, Candidate(c).value.deadline) in c.content.deadlines
              && Candidate(c).value.deadline > c.at
  {
  }

  /** Where captures agree on deadlines, a week's deadline is the agreed one. */
  lemma HeldDeadline(all: seq<Capture>, keep: Capture -> bool, gameweek: int, agreed: int -> int)
    requires AgreedDeadlines(all, agreed) && gameweek in Chosen(Filter(all, keep))
    ensures Chosen(Filter(all, keep))[gameweek].deadline == agreed(gameweek)
  {
    var base := Filter(all, keep);
    var c := HeldIsListed(base, gameweek);
    FilterMembers(all, keep);
    ChosenKeys(base);
    CandidateDeadline(c);
  }

  /** When captures agree on increasing deadlines, every capture taken after the bound week's
      deadline may be added without disturbing the reading. */
  lemma LaterCapturesDoNotDisturb(all: seq<Capture>, keep: Capture -> bool, merged: int, bound: int, agreed: int -> int)
    requires AgreedDeadlines(all, agreed)
    requires bound in Chosen(Filter(all, keep))
    requires forall c | c in all :: !keep(c) ==> c.at > Chosen(Filter(all, keep))[bound].deadline
    ensures MeasureSpec(Some(all), merged, Some(bound)) == MeasureSpec(Some(Filter(all, keep)), merged, Some(bound))
  {
    var kept := UpTo(Chosen(Filter(all, keep)), bound);
    HeldDeadline(all, keep, bound, agreed);
    assert bound in kept;
    assert Greatest(kept.Keys) == bound;
    LaterDecideLater(all, keep, bound, agreed);
    BoundedReadingIsStable(all, keep, merged, bound);
  }

  lemma LaterDecideLater(all: seq<Capture>, keep: Capture -> bool, bound: int, agreed: int -> int)
    requires AgreedDeadlines(all, agreed) && DroppedAfter(all, keep, agreed(bound))
    ensures AllBeaten(all, keep, bound)
  {
    forall j | 0 <= j < |all| && !keep(all[j]) && Candidate(all[j]).Done?
      ensures Candidate(all[j]).value.gameweek > bound
    {
      CandidateDeadline(all[j]);
      assert all[j] in all;
    }
  }

  /** Without agreement it fails: a later capture that moves the bound week's deadline takes
      that week over. */
  lemma MovedDeadlineDisturbs()
    ensures var early := Capture("a", 0, Bootstrap([Deadline(1, 10)], Some([])));
            var late := Capture("b", 15, Bootstrap([Deadline(1, 20)], Some([])));
            && late.at > Chosen([early])[1].deadline
            && MeasureSpec(Some([early, late]), 0, Some(1)) != MeasureSpec(Some([early]), 0, Some(1))
  {
    var early := Capture("a", 0, Bootstrap([Deadline(1, 10)], Some([])));
    var late := Capture("b", 15, Bootstrap([Deadline(1, 20)], Some([])));
    var one := DecisionCapture(1, "a", 0, 10, [Deadline(1, 10)], Some([]));
    var two := DecisionCapture(1, "b", 15, 20, [Deadline(1, 20)], Some([]));
    assert Candidate(early) == Done(one) && Candidate(late) == Done(two);
    assert [early, late][..1] == [early];
    assert Chosen([early]) == map[1 := one];
    assert Chosen([early, late]) == map[1 := two];
    OneWeek([early], one);
    OneWeek([early, late], two);
  }

  /** A listing whose only decision is at gameweek 1 reads as that one gameweek, alone. */
  lemma OneWeek(listing: seq<Capture>, d: DecisionCapture)
    requires listing != [] && Chosen(listing) == map[1 := d]
    ensures MeasureSpec(Some(listing), 0, Some(1)).Done?
    ensures MeasureSpec(Some(listing), 0, Some(1)).value.decisions == [IdentityOf(d)]
  {
    var v := ViewOf(listing);
    var kept := UpTo(v.captures, 1);
    assert kept == map[1 := d];
    assert kept.Keys == {1};
    var b := BoundView(v, 1).value;
    assert b.captures == kept;
    AscendingMeans({1});
    var weeks := WeeksOf(b);
    assert weeks == [1] by {
      assert Least({1}) == 1;
      assert {1} - {1} == {};
    }
    assert weeks[..0] == [];
    assert Verdicts(kept, 0, []) == Done([]);
    assert VerdictOn(kept, 0, 1) == Done([Alone(1)]);
    assert [] + [Alone(1)] == [Alone(1)];
    assert Verdicts(kept, 0, weeks) == Then(Verdicts(kept, 0, weeks[..0]), VerdictOn(kept, 0, weeks[0]));
  }
}
