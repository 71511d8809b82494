/** The distributions that the export writes beside its table. */
module OofSidecar {
  import opened Outcomes
  import opened Lists
  import opened Sorting
  import opened OofKeys
  import opened OofWalk
  import opened OofWalkMeaning
  import R = OofRounding

  // ---- a stable sort and a comprehension ----

  /** At most one value for an item, and under the item's key. */
  ghost predicate Keyed<A(!new), B(!new)>(f: A -> seq<B>, a: A -> Key, b: B -> Key) {
    forall x :: |f(x)| <= 1 && (f(x) != [] ==> b(f(x)[0]) == a(x))
  }

  lemma {:induction false} FromLater<A(!new), B(!new)>(items: seq<A>, f: A -> seq<B>, a: A -> Key, b: B -> Key, x: Key)
    requires Keyed(f, a, b) && forall y | y in items :: KeyLeq(x, a(y))
    ensures FlatMap(items, f) != [] ==> KeyLeq(x, b(FlatMap(items, f)[0]))
  {
    if items != [] {
      assert items[0] in items;
      FromLater(items[1..], f, a, b, x);
    }
  }

  lemma {:induction false} InsertOne<A(!new), B(!new)>(x: A, y: B, items: seq<A>, f: A -> seq<B>, a: A -> Key, b: B -> Key)
    requires Keyed(f, a, b) && f(x) == [y] && Sorted(items, ByKey(a))
    ensures FlatMap(Insert(x, items, ByKey(a)), f) == Insert(y, FlatMap(items, f), ByKey(b))
  {
    if items == [] {
      FlatMapOne(x, f);
    } else if ByKey(a)(x, items[0]) {
      AllAfter(x, items, a);
      FromLater(items, f, a, b, a(x));
      FlatMapFirst(x, items, f);
    } else {
      var (z, rest) := (items[0], items[1..]);
      InsertOne(x, y, rest, f, a, b);
      FlatMapFirst(z, Insert(x, rest, ByKey(a)), f);
      InsertPast(y, f(z), FlatMap(rest, f), ByKey(b));
    }
  }

  lemma AllAfter<A(!new)>(x: A, items: seq<A>, a: A -> Key)
    requires items != [] && Sorted(items, ByKey(a)) && KeyLeq(a(x), a(items[0]))
    ensures forall y | y in items :: KeyLeq(a(x), a(y))
  {
    forall i | 0 < i < |items|
      ensures KeyLeq(a(x), a(items[i]))
    {
      assert ByKey(a)(items[0], items[i]);
      KeyLeqTransitive(a(x), a(items[0]), a(items[i]));
    }
  }

  lemma FlatMapFirst<A, B>(x: A, items: seq<A>, f: A -> seq<B>)
    ensures FlatMap([x] + items, f) == f(x) + FlatMap(items, f)
  {
    assert ([x] + items)[1..] == items;
  }

  lemma InsertPast<B>(y: B, few: seq<B>, rest: seq<B>, leq: (B, B) -> bool)
    requires |few| <= 1 && (few != [] ==> !leq(y, few[0]))
    ensures Insert(y, few + rest, leq) == few + Insert(y, rest, leq)
  {
    if few == [] {
      assert few + rest == rest;
    } else {
      assert (few + rest)[1..] == rest && few == [few[0]];
    }
  }

  lemma {:induction false} InsertNone<A(!new), B(!new)>(x: A, items: seq<A>, f: A -> seq<B>, a: A -> Key)
    requires f(x) == []
    ensures FlatMap(Insert(x, items, ByKey(a)), f) == FlatMap(items, f)
  {
    if items == [] {
      FlatMapOne(x, f);
    } else if ByKey(a)(x, items[0]) {
      FlatMapFirst(x, items, f);
    } else {
      InsertNone(x, items[1..], f, a);
      FlatMapFirst(items[0], Insert(x, items[1..], ByKey(a)), f);
    }
  }

  /** Sorting what a comprehension gives is the comprehension over the sorted items: the sort is
      stable. */
  lemma {:induction false} SortFlatMap<A(!new), B(!new)>(items: seq<A>, f: A -> seq<B>, a: A -> Key, b: B -> Key)
    requires Keyed(f, a, b)
    ensures Sort(FlatMap(items, f), ByKey(b)) == FlatMap(Sort(items, ByKey(a)), f)
  {
    if items != [] {
      var (x, rest) := (items[0], items[1..]);
      SortFlatMap(rest, f, a, b);
      ByKeyIsTotal(a);
      SortSorted(rest, ByKey(a));
      if f(x) == [] {
        InsertNone(x, Sort(rest, ByKey(a)), f, a);
        assert FlatMap(items, f) == FlatMap(rest, f);
      } else {
        var y := f(x)[0];
        assert f(x) == [y];
        InsertOne(x, y, Sort(rest, ByKey(a)), f, a, b);
        SortFirst(y, FlatMap(rest, f), ByKey(b));
      }
    }
  }

  lemma SortFirst<B>(y: B, rest: seq<B>, leq: (B, B) -> bool)
    ensures Sort([y] + rest, leq) == Insert(y, Sort(rest, leq), leq)
  {
    assert ([y] + rest)[1..] == rest;
  }

  // ---- one distribution per row of the table ----

  /** The distribution that a row's out-of-fold model gives for it, if the arm declares one. */
  ghost function Beside(arm: Arm, frame: seq<Row>): Scored -> seq<Parameters> {
    (s: Scored) =>
      if arm.development then ParametersOf(arm, ModelAt(arm, frame, WeekOf(s.row)), Label(WeekOf(s.row)))(s.row) else []
  }

  ghost function RoundedBeside(arm: Arm, frame: seq<Row>): Scored -> seq<Parameters> {
    (s: Scored) => AllRounded(Beside(arm, frame)(s))
  }

  lemma {:induction false} PredictedBeside(
    arm: Arm, frame: seq<Row>, model: Option<Model>, w: Week, rows: seq<Row>)
    requires model == ModelAt(arm, frame, w) && forall row | row in rows :: WeekOf(row) == w
    ensures FlatMap(Predicted(arm, model, rows, Label(w)), Beside(arm, frame))
         == if arm.development then Distributed(arm, model, rows, Label(w)) else []
  {
    if rows != [] {
      var rest := rows[1..];
      PredictedBeside(arm, frame, model, w, rest);
      assert rows[0] in rows;
      assert Predicted(arm, model, rows, Label(w))[1..] == Predicted(arm, model, rest, Label(w));
    }
  }

  lemma PieceBeside(arm: Arm, frame: seq<Row>, w: Week)
    requires Visit(arm, frame, w).Done?
    ensures FlatMap(AllRows(Visit(arm, frame, w).value), Beside(arm, frame)) == AllParameters(Visit(arm, frame, w).value)
  {
    var v := Visit(arm, frame, w).value;
    VisitOutcomes(arm, frame, w);
    RowsAtWeek(frame, w);
    if v != [] {
      GuardNeverFires(arm.order, frame, w);
      assert v == [v[0]];
      OnePieceRows(v[0]);
      FlatMapOne(v[0], ParametersOfPiece());
      PredictedBeside(arm, frame, ModelAt(arm, frame, w), w, RowsAt(frame, w));
    }
  }

  lemma {:induction false} WalkBeside(arm: Arm, frame: seq<Row>, decisions: seq<Week>)
    requires Each(decisions, Visitor(arm, frame)).Done?
    ensures var pieces := Each(decisions, Visitor(arm, frame)).value;
            FlatMap(AllRows(pieces), Beside(arm, frame)) == AllParameters(pieces)
  {
    if decisions != [] {
      var (a, b) := (Visit(arm, frame, decisions[0]).value, Each(decisions[1..], Visitor(arm, frame)).value);
      WalkBeside(arm, frame, decisions[1..]);
      PieceBeside(arm, frame, decisions[0]);
      FlatMapAppend(a, b, ParametersOfPiece());
      FlatMapAppend(a, b, RowsOfPiece());
      FlatMapAppend(AllRows(a), AllRows(b), Beside(arm, frame));
    }
  }

  lemma {:induction false} RoundingKeepsBeside(arm: Arm, frame: seq<Row>, rows: seq<Scored>)
    ensures FlatMap(Rounded(rows), Beside(arm, frame)) == FlatMap(rows, Beside(arm, frame))
  {
    if rows != [] {
      RoundingKeepsBeside(arm, frame, rows[1..]);
      assert Rounded(rows)[1..] == Rounded(rows[1..]);
      assert Rounded(rows)[0].row == rows[0].row;
    }
  }

  lemma {:induction false} RoundedFlatMap(arm: Arm, frame: seq<Row>, rows: seq<Scored>)
    ensures FlatMap(rows, RoundedBeside(arm, frame)) == AllRounded(FlatMap(rows, Beside(arm, frame)))
  {
    if rows != [] {
      RoundedFlatMap(arm, frame, rows[1..]);
    }
  }

  /** A table with rows, or none. */
  function WhenAny(rows: seq<Parameters>): Option<seq<Parameters>> {
    if rows == [] then None else Some(rows)
  }

  /** Row by row and in the table's order, the rounded distributions of the table's rows are all
      that stands beside it: each row of the table that has one has it there once. */
  lemma SidecarIsTheTables(arm: Arm, frame: seq<Row>, decisions: seq<Week>, built: Built)
    requires Table(arm, frame, decisions) == Done(built)
    ensures built.distribution == WhenAny(FlatMap(built.table, RoundedBeside(arm, frame)))
  {
    var pieces := TableIsAssembled(arm, frame, decisions, built);
    WalkBeside(arm, frame, decisions);
    AssembledBeside(arm, frame, pieces);
  }

  lemma OneAtMost(arm: Arm, model: Option<Model>, fold: string, row: Row)
    ensures var few := ParametersOf(arm, model, fold)(row);
            |few| <= 1 && (few != [] ==> few[0].key == KeyOf(row))
  {
    match arm.distribute(model, row.features)
    case None =>
    case Some(d) =>
  }

  lemma BesideIsKeyed(arm: Arm, frame: seq<Row>)
    ensures Keyed(Beside(arm, frame), ScoredKey(), ParametersKey())
  {
    forall s
      ensures var few := Beside(arm, frame)(s);
              |few| <= 1 && (few != [] ==> ParametersKey()(few[0]) == ScoredKey()(s))
    {
      var w := WeekOf(s.row);
      OneAtMost(arm, ModelAt(arm, frame, w), Label(w), s.row);
      assert Beside(arm, frame)(s) == if arm.development then ParametersOf(arm, ModelAt(arm, frame, w), Label(w))(s.row) else [];
    }
  }

  lemma AssembledBeside(arm: Arm, frame: seq<Row>, pieces: seq<Piece>)
    requires FlatMap(AllRows(pieces), Beside(arm, frame)) == AllParameters(pieces)
    ensures Assemble(pieces).distribution == WhenAny(FlatMap(Assemble(pieces).table, RoundedBeside(arm, frame)))
  {
    var rows := Rounded(AllRows(pieces));
    RoundingKeepsBeside(arm, frame, AllRows(pieces));
    BesideIsKeyed(arm, frame);
    SortFlatMap(rows, Beside(arm, frame), ScoredKey(), ParametersKey());
    RoundedFlatMap(arm, frame, SortedRows(rows));
  }

  // ---- which distributions stand beside the table ----

  /** The distribution row of a frame row, when its out-of-fold model gives one. */
  ghost predicate HasParameters(arm: Arm, frame: seq<Row>, row: Row, p: Parameters) {
    var w := WeekOf(row);
    var d := arm.distribute(ModelAt(arm, frame, w), row.features);
    d.Some? && p == Parameters(KeyOf(row), Label(w), d.value)
  }

  ghost predicate ParametersAt(arm: Arm, frame: seq<Row>, w: Week, p: Parameters) {
    arm.development && exists row :: row in frame && WeekOf(row) == w && HasParameters(arm, frame, row, p)
  }

  lemma DistributedMembers(arm: Arm, model: Option<Model>, rows: seq<Row>, fold: string, p: Parameters)
    ensures p in Distributed(arm, model, rows, fold)
       <==> exists row :: row in rows && var d := arm.distribute(model, row.features);
                          d.Some? && p == Parameters(KeyOf(row), fold, d.value)
  {
    FlatMapMembers(rows, ParametersOf(arm, model, fold));
    forall row
      ensures p in ParametersOf(arm, model, fold)(row)
         <==> arm.distribute(model, row.features).Some?
              && p == Parameters(KeyOf(row), fold, arm.distribute(model, row.features).value)
    {
    }
  }

  lemma PieceParameters(arm: Arm, frame: seq<Row>, w: Week, p: Parameters)
    requires Visit(arm, frame, w).Done?
    ensures p in AllParameters(Visit(arm, frame, w).value) <==> ParametersAt(arm, frame, w, p)
  {
    var v := Visit(arm, frame, w).value;
    var (model, scoring) := (ModelAt(arm, frame, w), RowsAt(frame, w));
    VisitOutcomes(arm, frame, w);
    RowsAtWeek(frame, w);
    DistributedMembers(arm, model, scoring, Label(w), p);
    if v != [] {
      GuardNeverFires(arm.order, frame, w);
      assert v == [v[0]];
      FlatMapOne(v[0], ParametersOfPiece());
      assert v[0].parameters == if arm.development then Distributed(arm, model, scoring, Label(w)) else [];
    }
  }

  lemma {:induction false} WalkParameters(arm: Arm, frame: seq<Row>, decisions: seq<Week>, p: Parameters)
    requires Each(decisions, Visitor(arm, frame)).Done?
    ensures p in AllParameters(Each(decisions, Visitor(arm, frame)).value)
       <==> exists w | w in decisions :: ParametersAt(arm, frame, w, p)
  {
    if decisions != [] {
      var (first, rest) := (decisions[0], decisions[1..]);
      WalkParameters(arm, frame, rest, p);
      PieceParameters(arm, frame, first, p);
      FlatMapAppend(Visit(arm, frame, first).value, Each(rest, Visitor(arm, frame)).value, ParametersOfPiece());
      assert forall w :: w in decisions <==> w == first || w in rest;
    }
  }

  lemma SidecarMembers(rows: seq<Parameters>)
    ensures Sidecar(rows).None? <==> rows == []
    ensures Sidecar(rows).Some? ==>
              && |Sidecar(rows).value| == |rows|
              && (forall q :: q in Sidecar(rows).value <==> RoundedAmong(rows, q))
              && forall i, j | 0 <= i < j < |rows| :: KeyLeq(Sidecar(rows).value[i].key, Sidecar(rows).value[j].key)
  {
    if rows != [] {
      var sorted := Sort(rows, ByKey(ParametersKey()));
      var side := Sidecar(rows).value;
      SortMembers(rows, ByKey(ParametersKey()));
      ByKeyIsTotal(ParametersKey());
      SortSorted(rows, ByKey(ParametersKey()));
      forall q
        ensures q in side <==> RoundedAmong(rows, q)
      {
        if q in side {
          var i :| 0 <= i < |sorted| && side[i] == q;
          assert sorted[i] in sorted;
        }
        if p :| p in rows && q == RoundedParameters(p) {
          assert p in sorted;
          var i :| 0 <= i < |sorted| && sorted[i] == p;
          assert side[i] == q;
        }
      }
      forall i, j | 0 <= i < j < |rows|
        ensures KeyLeq(side[i].key, side[j].key)
      {
        assert ByKey(ParametersKey())(sorted[i], sorted[j]);
      }
    }
  }

  /** A row of the frame whose week is decided by a development arm, and its distribution. */
  ghost predicate Declares(arm: Arm, frame: seq<Row>, decisions: seq<Week>, row: Row, p: Parameters) {
    arm.development && row in frame && WeekOf(row) in decisions && HasParameters(arm, frame, row, p)
  }

  ghost predicate ExportsParameters(arm: Arm, frame: seq<Row>, decisions: seq<Week>, q: Parameters) {
    exists row, p :: Declares(arm, frame, decisions, row, p) && q == RoundedParameters(p)
  }

  ghost predicate RoundedAmong(rows: seq<Parameters>, q: Parameters) {
    exists p | p in rows :: q == RoundedParameters(p)
  }

  lemma AllDeclared(arm: Arm, frame: seq<Row>, decisions: seq<Week>, p: Parameters)
    requires Each(decisions, Visitor(arm, frame)).Done?
    ensures p in AllParameters(Each(decisions, Visitor(arm, frame)).value)
       <==> exists row :: Declares(arm, frame, decisions, row, p)
  {
    WalkParameters(arm, frame, decisions, p);
    if w :| w in decisions && ParametersAt(arm, frame, w, p) {
      var row :| row in frame && WeekOf(row) == w && HasParameters(arm, frame, row, p);
      assert Declares(arm, frame, decisions, row, p);
    }
    if row :| Declares(arm, frame, decisions, row, p) {
      assert ParametersAt(arm, frame, WeekOf(row), p);
    }
  }

  /** Beside the table stand exactly the rounded distributions that the same out-of-fold models
      give for the rows of decided weeks, one for each such row of the table and in its order;
      nothing stands there exactly when a development arm declares none. */
  lemma SidecarIsOutOfFold(arm: Arm, frame: seq<Row>, decisions: seq<Week>, built: Built)
    requires Table(arm, frame, decisions) == Done(built)
    ensures built.distribution == WhenAny(FlatMap(built.table, RoundedBeside(arm, frame)))
    ensures built.distribution.None? <==> forall row, p :: !Declares(arm, frame, decisions, row, p)
    ensures built.distribution.Some? ==>
              var side := built.distribution.value;
              && (forall q :: q in side <==> ExportsParameters(arm, frame, decisions, q))
              && forall i, j | 0 <= i < j < |side| :: KeyLeq(side[i].key, side[j].key)
  {
    SidecarIsTheTables(arm, frame, decisions, built);
    var pieces := TableIsAssembled(arm, frame, decisions, built);
    var rows := AllParameters(pieces);
    SidecarMembers(rows);
    forall p
      ensures p in rows <==> exists row :: Declares(arm, frame, decisions, row, p)
    {
      AllDeclared(arm, frame, decisions, p);
    }
    SidecarDeclared(arm, frame, decisions, rows);
  }

  lemma SidecarDeclared(arm: Arm, frame: seq<Row>, decisions: seq<Week>, rows: seq<Parameters>)
    requires forall p :: p in rows <==> exists row :: Declares(arm, frame, decisions, row, p)
    ensures rows == [] <==> forall row, p :: !Declares(arm, frame, decisions, row, p)
    ensures forall q :: RoundedAmong(rows, q) <==> ExportsParameters(arm, frame, decisions, q)
  {
    if rows != [] {
      assert rows[0] in rows;
      var row :| Declares(arm, frame, decisions, row, rows[0]);
    }
    forall row, p | Declares(arm, frame, decisions, row, p)
      ensures p in rows
    {
    }
    forall q
      ensures RoundedAmong(rows, q) <==> ExportsParameters(arm, frame, decisions, q)
    {
      if p :| p in rows && q == RoundedParameters(p) {
        var row :| Declares(arm, frame, decisions, row, p);
      }
      if row, p :| Declares(arm, frame, decisions, row, p) && q == RoundedParameters(p) {
        assert p in rows;
      }
    }
  }
}
