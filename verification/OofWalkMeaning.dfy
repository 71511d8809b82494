/** What the walk promises about its table: every prediction is out of fold. */
module OofWalkMeaning {
  import opened Outcomes
  import opened Lists
  import opened Sorting
  import opened OofKeys
  import opened OofWalk
  import R = OofRounding

  // ---- the training folds of one decision ----

  lemma WeekOrderIsTotal(order: seq<string>)
    ensures TotalPreorder(InOrder(order))
  {
  }

  lemma OnceThenSorted(order: seq<string>, once: seq<Week>)
    requires Distinct(once) && forall w | w in once :: w.season in order
    ensures forall w :: w in Sort(once, InOrder(order)) <==> w in once
    ensures forall i, j | 0 <= i < j < |Sort(once, InOrder(order))| ::
              Earlier(order, Sort(once, InOrder(order))[i], Sort(once, InOrder(order))[j])
  {
    var weeks := Sort(once, InOrder(order));
    SortMembers(once, InOrder(order));
    WeekOrderIsTotal(order);
    SortSorted(once, InOrder(order));
    DistinctCounts(once);
    DistinctCounts(weeks);
    forall i, j | 0 <= i < j < |weeks|
      ensures Earlier(order, weeks[i], weeks[j])
    {
      assert InOrder(order)(weeks[i], weeks[j]) && weeks[i] != weeks[j];
      assert weeks[i] in once && weeks[j] in once;
    }
  }

  /** Distinct weeks of ranked seasons, sorted by season rank and gameweek, strictly increase. */
  lemma TrainingWeeksIncrease(order: seq<string>, training: seq<Row>)
    requires forall i | 0 <= i < |training| :: training[i].season in order
    ensures forall w :: w in TrainingWeeks(order, training) <==> w in Weeks(training)
    ensures forall i, j | 0 <= i < j < |TrainingWeeks(order, training)| ::
              Earlier(order, TrainingWeeks(order, training)[i], TrainingWeeks(order, training)[j])
  {
    DedupeMembers(Weeks(training));
    OnceThenSorted(order, Dedupe(Weeks(training)));
  }

  lemma EarlierRows(order: seq<string>, frame: seq<Row>, w: Week)
    requires Covers(order, frame)
    ensures forall v :: v in Weeks(RowsBefore(order, frame, w)) <==> v in Weeks(frame) && Earlier(order, v, w)
    ensures forall row | row in RowsBefore(order, frame, w) :: row in frame && row.season in order
  {
    var training := RowsBefore(order, frame, w);
    FilterMembers(frame, IsBefore(order, w));
    forall row | row in training
      ensures row in frame && row.season in order
    {
      var k :| 0 <= k < |frame| && frame[k] == row;
    }
    forall v
      ensures v in Weeks(training) <==> v in Weeks(frame) && Earlier(order, v, w)
    {
      if v in Weeks(training) {
        var i :| 0 <= i < |training| && WeekOf(training[i]) == v;
        assert training[i] in training;
        var k :| 0 <= k < |frame| && frame[k] == training[i];
        assert Weeks(frame)[k] == v;
      }
      if v in Weeks(frame) && Earlier(order, v, w) {
        var k :| 0 <= k < |frame| && WeekOf(frame[k]) == v;
        assert frame[k] in training;
        var i :| 0 <= i < |training| && training[i] == frame[k];
        assert Weeks(training)[i] == v;
      }
    }
  }

  lemma LabelMembers(weeks: seq<Week>, w: Week)
    ensures Label(w) in Labels(weeks) <==> w in weeks
  {
    if w in weeks {
      var i :| 0 <= i < |weeks| && weeks[i] == w;
      assert Labels(weeks)[i] == Label(w);
    }
    forall i | 0 <= i < |weeks|
      ensures Labels(weeks)[i] == Label(w) <==> weeks[i] == w
    {
      FoldIdInjective(weeks[i].season, weeks[i].gameweek, w.season, w.gameweek);
    }
  }

  /** The label the guard looks for is never there: the rows before a week hold no row of it. */
  lemma GuardNeverFires(order: seq<string>, frame: seq<Row>, w: Week)
    requires Covers(order, frame)
    ensures Label(w) !in Labels(TrainingWeeks(order, RowsBefore(order, frame, w)))
  {
    EarlierRows(order, frame, w);
    TrainingWeeksIncrease(order, RowsBefore(order, frame, w));
    LabelMembers(TrainingWeeks(order, RowsBefore(order, frame, w)), w);
  }

  /** The training rows of an earlier decision are among those of a later one, in order. */
  lemma {:induction false} TrainingSetsNest(order: seq<string>, frame: seq<Row>, a: Week, b: Week)
    requires !Earlier(order, b, a)
    ensures RowsBefore(order, frame, a) == RowsBefore(order, RowsBefore(order, frame, b), a)
  {
    if frame != [] {
      TrainingSetsNest(order, frame[1..], a, b);
      var rest := RowsBefore(order, frame[1..], b);
      if IsBefore(order, b)(frame[0]) {
        assert RowsBefore(order, frame, b)[1..] == rest;
      } else {
        assert RowsBefore(order, frame, b) == rest;
      }
    }
  }

  // ---- one turn of the walk ----

  /** The model a decision is scored by: the fit of the rows strictly before it. */
  function ModelAt(arm: Arm, frame: seq<Row>, w: Week): Option<Model> {
    ModelOf(arm.fit(RowsBefore(arm.order, frame, w), w.season))
  }

  ghost predicate OutOfFold(arm: Arm, frame: seq<Row>, s: Scored) {
    var w := WeekOf(s.row);
    && s.row in frame
    && s.fold == Label(w)
    && s.prediction == arm.predict(ModelAt(arm, frame, w), s.row.features)
  }

  /** The prediction as the table carries it: rounded, with its two derived columns. */
  ghost predicate ExportsOutOfFold(arm: Arm, frame: seq<Row>, s: Scored) {
    var p := arm.predict(ModelAt(arm, frame, WeekOf(s.row)), s.row.features);
    && s.row in frame
    && s.fold == Label(WeekOf(s.row))
    && s.prediction == Prediction(R.RoundAndDerive(p.columns), p.route, p.evidence)
  }

  ghost predicate Honest(arm: Arm, frame: seq<Row>, r: Record) {
    var weeks := TrainingWeeks(arm.order, RowsBefore(arm.order, frame, r.week));
    && r.fold == Label(r.week)
    && r.trainingFolds == Labels(weeks)
    && (forall v :: v in weeks <==> v in Weeks(frame) && Earlier(arm.order, v, r.week))
    && (forall i, j | 0 <= i < j < |weeks| :: Earlier(arm.order, weeks[i], weeks[j]))
    && r.fold !in r.trainingFolds
    && r.cutoff == (if weeks == [] then None else Some(Label(weeks[|weeks| - 1])))
    && r.trainingRows == |RowsBefore(arm.order, frame, r.week)|
    && r.scoredRows == |RowsAt(frame, r.week)| > 0
    && (r.fitted <==> arm.fit(RowsBefore(arm.order, frame, r.week), r.week.season).Some?)
  }

  /** What fitting and predicting gives, once its guard is out of the way. */
  lemma FitAndPredictOutcomes(arm: Arm, w: Week, training: seq<Row>, scoring: seq<Row>)
    requires Label(w) !in Labels(TrainingWeeks(arm.order, training))
    ensures var r := FitAndPredict(arm, w, training, scoring);
            var fit := arm.fit(training, w.season);
            && r != Raised(NotOutOfFold) && r != Raised(NoPopulation) && r != Raised(ConfigurationError)
            && (r.Done? ==>
                  && |r.value| == 1
                  && r.value[0].record == RecordOf(arm, w, training, scoring, fit.Some?)
                  && r.value[0].rows == Predicted(arm, ModelOf(fit), scoring, Label(w)))
  {
    FitProblems(arm.fit(training, w.season), arm.version, DeclaredWeights(arm, training, w.season));
  }

  lemma RowsAtWeek(frame: seq<Row>, w: Week)
    ensures forall row :: row in RowsAt(frame, w) <==> row in frame && WeekOf(row) == w
    ensures RowsAt(frame, w) != [] ==> w in Weeks(frame)
  {
    FilterMembers(frame, IsAt(w));
    if RowsAt(frame, w) != [] {
      assert RowsAt(frame, w)[0] in RowsAt(frame, w);
      var k :| 0 <= k < |frame| && frame[k] == RowsAt(frame, w)[0];
      assert Weeks(frame)[k] == w;
    }
  }

  lemma VisitOutcomes(arm: Arm, frame: seq<Row>, w: Week)
    ensures var v := Visit(arm, frame, w);
            && (v == Done([]) <==> RowsAt(frame, w) == [])
            && (v == Raised(ConfigurationError) <==> RowsAt(frame, w) != [] && !Covers(arm.order, frame))
            && v != Raised(NotOutOfFold) && v != Raised(NoPopulation)
            && (v.Done? && v.value != [] ==>
                  && |v.value| == 1
                  && Covers(arm.order, frame)
                  && v == FitAndPredict(arm, w, RowsBefore(arm.order, frame, w), RowsAt(frame, w)))
  {
    RowsAtWeek(frame, w);
    if Covers(arm.order, frame) {
      GuardNeverFires(arm.order, frame, w);
      FitAndPredictOutcomes(arm, w, RowsBefore(arm.order, frame, w), RowsAt(frame, w));
    }
  }

  lemma FitProblems(fit: Option<Fit>, version: string, declared: map<string, real>)
    ensures FitProblem(fit, version, declared) in {None, Some(WrongWeights), Some(UnknownSeason)}
  {
    if fit.Some? {
      WeightProblems(fit.value.weights, declared);
    }
  }

  lemma {:induction false} WeightProblems(fitted: seq<(string, real)>, declared: map<string, real>)
    ensures WeightProblem(fitted, declared) in {None, Some(WrongWeights), Some(UnknownSeason)}
  {
    if fitted != [] {
      WeightProblems(fitted[1..], declared);
    }
  }

  lemma RecordIsHonest(arm: Arm, frame: seq<Row>, w: Week, fitted: bool)
    requires Covers(arm.order, frame) && RowsAt(frame, w) != []
    requires fitted == arm.fit(RowsBefore(arm.order, frame, w), w.season).Some?
    ensures Honest(arm, frame, RecordOf(arm, w, RowsBefore(arm.order, frame, w), RowsAt(frame, w), fitted))
  {
    var training := RowsBefore(arm.order, frame, w);
    EarlierRows(arm.order, frame, w);
    TrainingWeeksIncrease(arm.order, training);
    GuardNeverFires(arm.order, frame, w);
  }

  lemma PieceIsHonest(arm: Arm, frame: seq<Row>, w: Week)
    requires Visit(arm, frame, w).Done? && Visit(arm, frame, w).value != []
    ensures var p := Visit(arm, frame, w).value[0];
            && p.record.week == w
            && Honest(arm, frame, p.record)
            && p.record.scoredRows == |p.rows|
            && p.rows == Predicted(arm, ModelAt(arm, frame, w), RowsAt(frame, w), Label(w))
  {
    VisitOutcomes(arm, frame, w);
    GuardNeverFires(arm.order, frame, w);
    FitAndPredictOutcomes(arm, w, RowsBefore(arm.order, frame, w), RowsAt(frame, w));
    RecordIsHonest(arm, frame, w, arm.fit(RowsBefore(arm.order, frame, w), w.season).Some?);
  }

  lemma PieceIsOutOfFold(arm: Arm, frame: seq<Row>, w: Week)
    requires Visit(arm, frame, w).Done? && Visit(arm, frame, w).value != []
    ensures forall s | s in Visit(arm, frame, w).value[0].rows :: OutOfFold(arm, frame, s) && WeekOf(s.row) == w
  {
    PieceIsHonest(arm, frame, w);
    FilterMembers(frame, IsAt(w));
    var scoring := RowsAt(frame, w);
    forall s | s in Visit(arm, frame, w).value[0].rows
      ensures OutOfFold(arm, frame, s) && WeekOf(s.row) == w
    {
      var i :| 0 <= i < |scoring| && s == Predicted(arm, ModelAt(arm, frame, w), scoring, Label(w))[i];
      assert s.row == scoring[i] && scoring[i] in scoring;
    }
  }

  // ---- the whole table ----

  ghost function IsRow(row: Row): Scored -> bool {
    (s: Scored) => s.row == row
  }

  /** How often a row is scored. */
  ghost function Times(scored: seq<Scored>, row: Row): nat {
    |Filter(scored, IsRow(row))|
  }

  lemma TimesOfPermutation(a: seq<Scored>, b: seq<Scored>, row: Row)
    requires multiset(a) == multiset(b)
    ensures Times(a, row) == Times(b, row)
  {
    var (x, y) := (Filter(a, IsRow(row)), Filter(b, IsRow(row)));
    forall s
      ensures multiset(x)[s] == multiset(y)[s]
    {
      FilterCount(a, IsRow(row), s);
      FilterCount(b, IsRow(row), s);
    }
    assert multiset(x) == multiset(y);
    assert |multiset(x)| == |x| && |multiset(y)| == |y|;
  }

  lemma {:induction false} TimesPredicted(
    arm: Arm, model: Option<Model>, rows: seq<Row>, fold: string, row: Row)
    ensures Times(Predicted(arm, model, rows, fold), row) == multiset(rows)[row]
  {
    if rows != [] {
      TimesPredicted(arm, model, rows[1..], fold, row);
      assert Predicted(arm, model, rows, fold)[1..] == Predicted(arm, model, rows[1..], fold);
      assert rows == [rows[0]] + rows[1..];
    }
  }

  lemma TimesInPiece(arm: Arm, frame: seq<Row>, w: Week, row: Row)
    requires Visit(arm, frame, w).Done?
    ensures Times(AllRows(Visit(arm, frame, w).value), row) == if WeekOf(row) == w then multiset(frame)[row] else 0
  {
    var v := Visit(arm, frame, w).value;
    VisitOutcomes(arm, frame, w);
    FilterCount(frame, IsAt(w), row);
    if v != [] {
      PieceIsHonest(arm, frame, w);
      OnePieceRows(v[0]);
      assert v == [v[0]];
      TimesPredicted(arm, ModelAt(arm, frame, w), RowsAt(frame, w), Label(w), row);
    }
  }

  lemma OnePieceRows(p: Piece)
    ensures AllRows([p]) == p.rows
  {
    FlatMapOne(p, RowsOfPiece());
  }

  lemma TimesAppend(a: seq<Piece>, b: seq<Piece>, row: Row)
    ensures Times(AllRows(a + b), row) == Times(AllRows(a), row) + Times(AllRows(b), row)
  {
    FlatMapAppend(a, b, RowsOfPiece());
    FilterAppend(AllRows(a), AllRows(b), IsRow(row));
  }

  lemma Distributes(n: nat, c: nat, d: nat)
    ensures n * (c + d) == n * c + n * d
  {
  }

  /** When each step adds `n` to a tally at one item and nothing at the others, the pass adds
      `n` for each time that item is listed. */
  lemma {:induction false} StepsTally<T, U(!new), E>(
    items: seq<T>, step: T -> Outcome<seq<U>, E>, tally: seq<U> -> nat, x: T, n: nat)
    requires forall a, b :: tally(a + b) == tally(a) + tally(b)
    requires forall y | y in items && step(y).Done? :: tally(step(y).value) == if y == x then n else 0
    requires Each(items, step).Done?
    ensures tally(Each(items, step).value) == n * multiset(items)[x]
  {
    if items == [] {
      var none: seq<U> := [];
      assert none + none == none;
      assert tally(none + none) == tally(none) + tally(none);
    } else {
      var (first, rest) := (items[0], items[1..]);
      StepsTally(rest, step, tally, x, n);
      assert Each(items, step).value == step(first).value + Each(rest, step).value;
      assert items == [first] + rest;
      Distributes(n, if first == x then 1 else 0, multiset(rest)[x]);
    }
  }

  ghost function TimesIn(row: Row): seq<Piece> -> nat {
    (pieces: seq<Piece>) => Times(AllRows(pieces), row)
  }

  /** How often a row must be scored: each time it is in the frame, for each time its week is
      decided. */
  ghost function TimesDue(frame: seq<Row>, decisions: seq<Week>, row: Row): nat {
    multiset(frame)[row] * multiset(decisions)[WeekOf(row)]
  }

  lemma WalkTimes(arm: Arm, frame: seq<Row>, decisions: seq<Week>, row: Row)
    requires Each(decisions, Visitor(arm, frame)).Done?
    ensures Times(AllRows(Each(decisions, Visitor(arm, frame)).value), row) == TimesDue(frame, decisions, row)
  {
    forall w | w in decisions && Visitor(arm, frame)(w).Done?
      ensures TimesIn(row)(Visitor(arm, frame)(w).value) == if w == WeekOf(row) then multiset(frame)[row] else 0
    {
      TimesInPiece(arm, frame, w, row);
    }
    forall a, b
      ensures TimesIn(row)(a + b) == TimesIn(row)(a) + TimesIn(row)(b)
    {
      TimesAppend(a, b, row);
    }
    StepsTally(decisions, Visitor(arm, frame), TimesIn(row), WeekOf(row), multiset(frame)[row]);
  }

  lemma {:induction false} TimesRounded(rows: seq<Scored>, row: Row)
    ensures Times(Rounded(rows), row) == Times(rows, row)
  {
    if rows != [] {
      TimesRounded(rows[1..], row);
      assert Rounded(rows)[1..] == Rounded(rows[1..]);
    }
  }

  lemma AssembledTimes(pieces: seq<Piece>, row: Row)
    ensures Times(Assemble(pieces).table, row) == Times(AllRows(pieces), row)
  {
    Closing(pieces);
    TimesOfPermutation(Assemble(pieces).table, Rounded(AllRows(pieces)), row);
    TimesRounded(AllRows(pieces), row);
  }

  lemma TableIsAssembled(arm: Arm, frame: seq<Row>, decisions: seq<Week>, built: Built) returns (pieces: seq<Piece>)
    requires Table(arm, frame, decisions) == Done(built)
    ensures Each(decisions, Visitor(arm, frame)) == Done(pieces) && built == Assemble(pieces)
  {
    pieces := Each(decisions, Visitor(arm, frame)).value;
  }

  /** Every row is scored exactly as often as its own week is decided. */
  lemma ScoredOncePerDecision(arm: Arm, frame: seq<Row>, decisions: seq<Week>, row: Row, built: Built)
    requires Table(arm, frame, decisions) == Done(built)
    ensures Times(built.table, row) == TimesDue(frame, decisions, row)
  {
    var pieces := TableIsAssembled(arm, frame, decisions, built);
    WalkTimes(arm, frame, decisions, row);
    AssembledTimes(pieces, row);
  }

  /** With distinct decisions and distinct rows, every row of a decided week is scored exactly
      once, and no other row is. */
  lemma ScoredExactlyOnce(arm: Arm, frame: seq<Row>, decisions: seq<Week>, row: Row, built: Built)
    requires Table(arm, frame, decisions) == Done(built) && Distinct(frame) && Distinct(decisions)
    ensures Times(built.table, row) == if row in frame && WeekOf(row) in decisions then 1 else 0
  {
    ScoredOncePerDecision(arm, frame, decisions, row, built);
    CountOfDistinct(frame, row);
    CountOfDistinct(decisions, WeekOf(row));
  }

  /** A turn's pieces are out of fold and honestly recorded. */
  ghost predicate Sound(arm: Arm, frame: seq<Row>, decisions: seq<Week>, pieces: seq<Piece>) {
    && (forall s | s in AllRows(pieces) :: OutOfFold(arm, frame, s) && WeekOf(s.row) in decisions)
    && (forall r | r in Records(pieces) :: Honest(arm, frame, r) && r.week in decisions)
    && ScoredRows(Records(pieces)) == |AllRows(pieces)|
    && |Records(pieces)| == |pieces|
  }

  lemma PieceIsSound(arm: Arm, frame: seq<Row>, w: Week)
    requires Visit(arm, frame, w).Done?
    ensures Sound(arm, frame, [w], Visit(arm, frame, w).value)
  {
    var v := Visit(arm, frame, w).value;
    VisitOutcomes(arm, frame, w);
    if v == [] {
      NothingIsSound(arm, frame, [w], v);
    } else {
      PieceIsHonest(arm, frame, w);
      PieceIsOutOfFold(arm, frame, w);
      OnePieceIsSound(arm, frame, w, v[0]);
      assert v == [v[0]];
    }
  }

  lemma NothingIsSound(arm: Arm, frame: seq<Row>, decisions: seq<Week>, none: seq<Piece>)
    requires none == []
    ensures Sound(arm, frame, decisions, none)
  {
  }

  lemma OnePieceIsSound(arm: Arm, frame: seq<Row>, w: Week, p: Piece)
    requires p.record.week == w && Honest(arm, frame, p.record) && p.record.scoredRows == |p.rows|
    requires forall s | s in p.rows :: OutOfFold(arm, frame, s) && WeekOf(s.row) == w
    ensures Sound(arm, frame, [w], [p])
  {
    AssembleNext([], p);
    assert [] + [p] == [p];
  }

  lemma {:induction false} SoundTogether(
    arm: Arm, frame: seq<Row>, d: seq<Week>, a: seq<Piece>, e: seq<Week>, b: seq<Piece>)
    requires Sound(arm, frame, d, a) && Sound(arm, frame, e, b)
    ensures Sound(arm, frame, d + e, a + b)
  {
    FlatMapAppend(a, b, RowsOfPiece());
    FlatMapAppend(a, b, RecordOfPiece());
    ScoredRowsAppend(Records(a), Records(b));
  }

  lemma {:induction false} ScoredRowsAppend(a: seq<Record>, b: seq<Record>)
    ensures ScoredRows(a + b) == ScoredRows(a) + ScoredRows(b)
  {
    if b == [] {
      assert a + b == a;
    } else {
      ScoredRowsAppend(a, b[..|b| - 1]);
      assert (a + b)[..|a + b| - 1] == a + b[..|b| - 1];
    }
  }

  ghost function Soundness(arm: Arm, frame: seq<Row>): (seq<Week>, seq<Piece>) -> bool {
    (decisions: seq<Week>, pieces: seq<Piece>) => Sound(arm, frame, decisions, pieces)
  }

  lemma WalkIsOutOfFold(arm: Arm, frame: seq<Row>, decisions: seq<Week>)
    requires Each(decisions, Visitor(arm, frame)).Done?
    ensures Soundness(arm, frame)(decisions, Each(decisions, Visitor(arm, frame)).value)
  {
    var holds := Soundness(arm, frame);
    NothingIsSound(arm, frame, [], []);
    forall w | w in decisions && Visitor(arm, frame)(w).Done?
      ensures holds([w], Visitor(arm, frame)(w).value)
    {
      PieceIsSound(arm, frame, w);
    }
    forall d, x, e, y | holds(d, x) && holds(e, y)
      ensures holds(d + e, x + y)
    {
      SoundTogether(arm, frame, d, x, e, y);
    }
    EachHolds(decisions, Visitor(arm, frame), holds);
  }

  /** The property the table rests on. Every entry is the rounded prediction, for its own row, of
      the model fitted on exactly the rows strictly before that row's week; every record names
      those weeks in strictly increasing order with the cutoff last and its own fold absent;
      and the records account for the whole table. */
  lemma TableIsOutOfFold(arm: Arm, frame: seq<Row>, decisions: seq<Week>)
    requires Table(arm, frame, decisions).Done?
    ensures var built := Table(arm, frame, decisions).value;
            && (forall s | s in built.table :: ExportsOutOfFold(arm, frame, s) && WeekOf(s.row) in decisions)
            && (forall r | r in built.folds :: Honest(arm, frame, r) && r.week in decisions)
            && ScoredRows(built.folds) == |built.table|
            && built.scoredFolds == |built.folds| > 0
  {
    var pieces := Each(decisions, Visitor(arm, frame)).value;
    WalkIsOutOfFold(arm, frame, decisions);
    Closing(pieces);
    forall s | s in Assemble(pieces).table
      ensures ExportsOutOfFold(arm, frame, s) && WeekOf(s.row) in decisions
    {
      var raw :| raw in AllRows(pieces) && s == RoundedRow(raw);
      assert OutOfFold(arm, frame, raw);
    }
  }

  /** The table is sorted by season, gameweek and player; the refused folds are those of the
      records whose fit was refused. */
  lemma TableIsSorted(arm: Arm, frame: seq<Row>, decisions: seq<Week>)
    requires Table(arm, frame, decisions).Done?
    ensures var built := Table(arm, frame, decisions).value;
            && (forall i, j | 0 <= i < j < |built.table| :: KeyLeq(KeyOf(built.table[i].row), KeyOf(built.table[j].row)))
            && (forall fold :: fold in built.refused <==> exists r | r in built.folds :: !r.fitted && r.fold == fold)
  {
    var pieces := Each(decisions, Visitor(arm, frame)).value;
    Closing(pieces);
    SortedByKey(Rounded(AllRows(pieces)));
    RefusedMembers(Records(pieces));
  }

  lemma SortedByKey(rows: seq<Scored>)
    ensures forall i, j | 0 <= i < j < |SortedRows(rows)| ::
              KeyLeq(KeyOf(SortedRows(rows)[i].row), KeyOf(SortedRows(rows)[j].row))
  {
    ByKeyIsTotal(ScoredKey());
    SortSorted(rows, ByKey(ScoredKey()));
    var sorted := SortedRows(rows);
    forall i, j | 0 <= i < j < |sorted|
      ensures KeyLeq(KeyOf(sorted[i].row), KeyOf(sorted[j].row))
    {
      assert ByKey(ScoredKey())(sorted[i], sorted[j]);
    }
  }

  lemma {:induction false} RefusedMembers(records: seq<Record>)
    ensures forall fold :: fold in Refused(records) <==> exists r | r in records :: !r.fitted && r.fold == fold
  {
    if records != [] {
      var (front, last) := (records[..|records| - 1], records[|records| - 1]);
      RefusedMembers(front);
      assert forall r :: r in records <==> r in front || r == last;
    }
  }

  // ---- what the rows of a week and after cannot do ----

  /** Two frames that differ only in what came out of week `w` and later ones. */
  ghost predicate SameBefore(order: seq<string>, f: seq<Row>, g: seq<Row>, w: Week) {
    && |f| == |g|
    && forall i | 0 <= i < |f| ::
         && KeyOf(f[i]) == KeyOf(g[i])
         && f[i].features == g[i].features
         && (Earlier(order, WeekOf(f[i]), w) ==> f[i] == g[i])
  }

  lemma {:induction false} SameRows(order: seq<string>, f: seq<Row>, g: seq<Row>, w: Week)
    requires SameBefore(order, f, g, w)
    ensures RowsBefore(order, f, w) == RowsBefore(order, g, w)
    ensures |RowsAt(f, w)| == |RowsAt(g, w)|
    ensures forall i | 0 <= i < |RowsAt(f, w)| ::
              KeyOf(RowsAt(f, w)[i]) == KeyOf(RowsAt(g, w)[i]) && RowsAt(f, w)[i].features == RowsAt(g, w)[i].features
  {
    if f != [] {
      SameRows(order, f[1..], g[1..], w);
      assert KeyOf(f[0]) == KeyOf(g[0]);
      assert WeekOf(f[0]) == WeekOf(g[0]);
    }
  }

  /** The same record, the same distributions, and the same prediction for the same player at
      every place. */
  ghost predicate SamePiece(p: Piece, q: Piece) {
    && p.record == q.record
    && p.parameters == q.parameters
    && |p.rows| == |q.rows|
    && forall i | 0 <= i < |p.rows| ::
         KeyOf(p.rows[i].row) == KeyOf(q.rows[i].row) && p.rows[i].prediction == q.rows[i].prediction
  }

  ghost predicate SamePieces(x: Outcome<seq<Piece>, WalkError>, y: Outcome<seq<Piece>, WalkError>) {
    && (x.Done? <==> y.Done?)
    && (x.Done? ==>
          && |x.value| == |y.value|
          && forall k | 0 <= k < |x.value| :: SamePiece(x.value[k], y.value[k]))
  }

  /** No outcome of a week or of a later one reaches the predictions of that week, its
      distributions or its record: rewriting those outcomes changes none of them. */
  lemma OutcomesCannotLeak(arm: Arm, f: seq<Row>, g: seq<Row>, w: Week)
    requires SameBefore(arm.order, f, g, w)
    ensures SamePieces(Visit(arm, f, w), Visit(arm, g, w))
  {
    SameRows(arm.order, f, g, w);
    SameCover(arm.order, f, g, w);
    if RowsAt(f, w) != [] && Covers(arm.order, f) {
      VisitIsATurn(arm, f, w);
      VisitIsATurn(arm, g, w);
      SameTurn(arm, w, RowsBefore(arm.order, f, w), RowsAt(f, w), RowsAt(g, w));
    }
  }

  lemma VisitIsATurn(arm: Arm, frame: seq<Row>, w: Week)
    requires Covers(arm.order, frame) && RowsAt(frame, w) != []
    ensures Visit(arm, frame, w) == FitAndPredict(arm, w, RowsBefore(arm.order, frame, w), RowsAt(frame, w))
  {
    RowsAtWeek(frame, w);
  }

  lemma SameCover(order: seq<string>, f: seq<Row>, g: seq<Row>, w: Week)
    requires SameBefore(order, f, g, w)
    ensures Covers(order, f) <==> Covers(order, g)
  {
    assert forall i | 0 <= i < |f| :: KeyOf(f[i]) == KeyOf(g[i]) && f[i].season == g[i].season;
  }

  lemma SameTurn(arm: Arm, w: Week, training: seq<Row>, a: seq<Row>, b: seq<Row>)
    requires |a| == |b|
    requires forall i | 0 <= i < |a| :: KeyOf(a[i]) == KeyOf(b[i]) && a[i].features == b[i].features
    ensures SamePieces(FitAndPredict(arm, w, training, a), FitAndPredict(arm, w, training, b))
  {
    SamePieceOf(arm, w, training, a, b, arm.fit(training, w.season));
  }

  lemma SamePieceOf(arm: Arm, w: Week, training: seq<Row>, a: seq<Row>, b: seq<Row>, fit: Option<Fit>)
    requires |a| == |b|
    requires forall i | 0 <= i < |a| :: KeyOf(a[i]) == KeyOf(b[i]) && a[i].features == b[i].features
    ensures SamePiece(PieceOf(arm, w, training, a, fit), PieceOf(arm, w, training, b, fit))
  {
    SameDistributed(arm, ModelOf(fit), a, b, Label(w));
    SamePredicted(arm, ModelOf(fit), a, b, Label(w));
  }

  lemma SamePredicted(arm: Arm, model: Option<Model>, a: seq<Row>, b: seq<Row>, fold: string)
    requires |a| == |b|
    requires forall i | 0 <= i < |a| :: KeyOf(a[i]) == KeyOf(b[i]) && a[i].features == b[i].features
    ensures var (x, y) := (Predicted(arm, model, a, fold), Predicted(arm, model, b, fold));
            forall i | 0 <= i < |a| :: KeyOf(x[i].row) == KeyOf(y[i].row) && x[i].prediction == y[i].prediction
  {
  }

  lemma {:induction false} SameDistributed(arm: Arm, model: Option<Model>, a: seq<Row>, b: seq<Row>, fold: string)
    requires |a| == |b|
    requires forall i | 0 <= i < |a| :: KeyOf(a[i]) == KeyOf(b[i]) && a[i].features == b[i].features
    ensures Distributed(arm, model, a, fold) == Distributed(arm, model, b, fold)
  {
    if a != [] {
      assert KeyOf(a[0]) == KeyOf(b[0]);
      SameDistributed(arm, model, a[1..], b[1..], fold);
      assert ParametersOf(arm, model, fold)(a[0]) == ParametersOf(arm, model, fold)(b[0]);
    }
  }

  // ---- when the walk is refused ----

  /** A pass that stops for one reason only stops at the first step that gives it. */
  lemma {:induction false} EachRaises<T, U, E>(items: seq<T>, step: T -> Outcome<seq<U>, E>)
    ensures Each(items, step).Raised? <==> exists x | x in items :: step(x).Raised?
    ensures Each(items, step).Raised? ==> exists x | x in items :: step(x) == Raised(Each(items, step).error)
    ensures Each(items, step) == Done([]) <==> forall x | x in items :: step(x) == Done([])
  {
    EachFindsNothing(items, step);
    if items != [] {
      EachRaises(items[1..], step);
      assert items[0] in items && forall x | x in items :: x == items[0] || x in items[1..];
    }
  }

  /** The walk finds no population exactly when no decided week has rows, and is refused for
      its season order exactly when a week has rows and the order does not rank every season
      once; the guard against a week in its own training set never fires. */
  lemma WalkRefusals(arm: Arm, frame: seq<Row>, decisions: seq<Week>)
    ensures var r := Table(arm, frame, decisions);
            && (r == Raised(NoPopulation) <==> forall w | w in decisions :: RowsAt(frame, w) == [])
            && (r == Raised(ConfigurationError) <==>
                  !Covers(arm.order, frame) && exists w | w in decisions :: RowsAt(frame, w) != [])
            && r != Raised(NotOutOfFold)
  {
    var step := Visitor(arm, frame);
    forall w
      ensures var v := step(w);
              && (v == Done([]) <==> RowsAt(frame, w) == [])
              && (v == Raised(ConfigurationError) <==> RowsAt(frame, w) != [] && !Covers(arm.order, frame))
              && v != Raised(NotOutOfFold) && v != Raised(NoPopulation)
              && (v.Done? && v.value != [] ==> Covers(arm.order, frame))
    {
      VisitOutcomes(arm, frame, w);
    }
    EachRaises(decisions, step);
  }
}
