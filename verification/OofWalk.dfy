/** The walk-forward export: each decision is scored by a model fitted on what came before it.
    A frame row carries what a model may read and what came out of the week; fitting and
    predicting are arbitrary functions of their inputs. */
module OofWalk {
  import opened Outcomes
  import opened Lists
  import opened Sorting
  import opened OofKeys
  import opened OofDigest
  import R = OofRounding

  type Features(==, !new)
  type Truth(==, !new)
  type Model(!new)

  datatype Row = Row(season: string, gameweek: int, player: int, features: Features, outcome: Truth)

  datatype Week = Week(season: string, gameweek: int)

  datatype Prediction = Prediction(columns: R.Columns, route: string, evidence: string)

  /** A fit records the version of its model, the rows it used and the weights it applied. */
  datatype Fit = Fit(model: Model, version: string, appearanceRows: nat, weights: seq<(string, real)>)

  datatype Arm = Arm(
    order: seq<string>,
    fit: (seq<Row>, string) -> Option<Fit>,
    predict: (Option<Model>, Features) -> Prediction,
    distribute: (Option<Model>, Features) -> Option<R.Distribution>,
    weight: (string, string) -> real,
    version: string,
    development: bool,
    sha: string -> string
  )

  datatype WalkError = ConfigurationError | NotOutOfFold | WrongWeights | UnknownSeason | NoPopulation

  datatype Record = Record(
    fold: string,
    week: Week,
    cutoff: Option<string>,
    trainingFolds: seq<string>,
    digest: string,
    trainingRows: nat,
    scoredRows: nat,
    fitted: bool,
    version: string,
    weights: Option<map<string, real>>
  )

  datatype Scored = Scored(row: Row, prediction: Prediction, fold: string)

  datatype Parameters = Parameters(key: Key, fold: string, distribution: R.Distribution)

  datatype Piece = Piece(record: Record, rows: seq<Scored>, parameters: seq<Parameters>, appearanceRows: nat)

  datatype Built = Built(
    table: seq<Scored>,
    refused: seq<string>,
    trainingRows: nat,
    scoredFolds: nat,
    folds: seq<Record>,
    distribution: Option<seq<Parameters>>
  )

  function WeekOf(row: Row): Week {
    Week(row.season, row.gameweek)
  }

  function KeyOf(row: Row): Key {
    Key(row.season, row.gameweek, row.player)
  }

  function Label(w: Week): string {
    FoldId(w.season, w.gameweek)
  }

  /** The place of a season in the declared order. */
  function Rank(order: seq<string>, season: string): (rank: nat)
    ensures season in order ==> rank < |order| && order[rank] == season
  {
    if order == [] || order[0] == season then 0 else 1 + Rank(order[1..], season)
  }

  predicate Earlier(order: seq<string>, a: Week, b: Week) {
    Rank(order, a.season) < Rank(order, b.season)
    || (Rank(order, a.season) == Rank(order, b.season) && a.gameweek < b.gameweek)
  }

  predicate Covers(order: seq<string>, frame: seq<Row>) {
    order != [] && Distinct(order) && forall i | 0 <= i < |frame| :: frame[i].season in order
  }

  function IsAt(w: Week): Row -> bool {
    (row: Row) => WeekOf(row) == w
  }

  function IsBefore(order: seq<string>, w: Week): Row -> bool {
    (row: Row) => Earlier(order, WeekOf(row), w)
  }

  function RowsAt(frame: seq<Row>, w: Week): seq<Row> {
    Filter(frame, IsAt(w))
  }

  function RowsBefore(order: seq<string>, frame: seq<Row>, w: Week): seq<Row> {
    Filter(frame, IsBefore(order, w))
  }

  /** `rows_strictly_before`, which refuses an order that does not rank every season. */
  function RowsStrictlyBefore(order: seq<string>, frame: seq<Row>, w: Week)
    : Outcome<seq<Row>, WalkError>
  {
    if Covers(order, frame) && w.season in order then Done(RowsBefore(order, frame, w))
    else Raised(ConfigurationError)
  }

  function Weeks(rows: seq<Row>): seq<Week> {
    seq(|rows|, i requires 0 <= i < |rows| => WeekOf(rows[i]))
  }

  function Keys(rows: seq<Row>): seq<Key> {
    seq(|rows|, i requires 0 <= i < |rows| => KeyOf(rows[i]))
  }

  function InOrder(order: seq<string>): (Week, Week) -> bool {
    (a: Week, b: Week) => !Earlier(order, b, a)
  }

  /** The distinct weeks of the training rows, first to last. */
  function TrainingWeeks(order: seq<string>, training: seq<Row>): seq<Week> {
    Sort(Dedupe(Weeks(training)), InOrder(order))
  }

  function Labels(weeks: seq<Week>): seq<string> {
    seq(|weeks|, i requires 0 <= i < |weeks| => Label(weeks[i]))
  }

  function DeclaredWeights(arm: Arm, training: seq<Row>, target: string)
    : map<string, real>
  {
    map season | season in (set w | w in Weeks(training) :: w.season) :: arm.weight(target, season)
  }

  /** The weights a fit used against the declared ones, season by season. */
  function WeightProblem(fitted: seq<(string, real)>, declared: map<string, real>): Option<WalkError> {
    if fitted == [] then None
    else if fitted[0].0 !in declared then Some(UnknownSeason)
    else if fitted[0].1 != declared[fitted[0].0] then Some(WrongWeights)
    else WeightProblem(fitted[1..], declared)
  }

  function FitProblem(fit: Option<Fit>, version: string, declared: map<string, real>): Option<WalkError> {
    if fit.None? then None
    else if fit.value.version != version then Some(WrongWeights)
    else WeightProblem(fit.value.weights, declared)
  }

  function ModelOf(fit: Option<Fit>): Option<Model> {
    if fit.None? then None else Some(fit.value.model)
  }

  function Predicted(arm: Arm, model: Option<Model>, rows: seq<Row>, fold: string)
    : (r: seq<Scored>)
    ensures |r| == |rows|
  {
    seq(|rows|, i requires 0 <= i < |rows| => Scored(rows[i], arm.predict(model, rows[i].features), fold))
  }

  /** The distributions behind the predictions, for the rows that have one. */
  function Distributed(arm: Arm, model: Option<Model>, rows: seq<Row>, fold: string): seq<Parameters> {
    FlatMap(rows, ParametersOf(arm, model, fold))
  }

  function ParametersOf(arm: Arm, model: Option<Model>, fold: string): Row -> seq<Parameters> {
    (row: Row) =>
      match arm.distribute(model, row.features)
      case None => []
      case Some(d) => [Parameters(KeyOf(row), fold, d)]
  }

  function RecordOf(
    arm: Arm, w: Week, training: seq<Row>, scoring: seq<Row>, fitted: bool)
    : Record
  {
    var folds := Labels(TrainingWeeks(arm.order, training));
    Record(Label(w), w, if folds == [] then None else Some(folds[|folds| - 1]), folds,
           arm.sha(KeyText(Keys(training))), |training|, |scoring|, fitted, arm.version,
           if arm.development then Some(DeclaredWeights(arm, training, w.season)) else None)
  }

  function PieceOf(arm: Arm, w: Week, training: seq<Row>, scoring: seq<Row>, fit: Option<Fit>): Piece {
    Piece(RecordOf(arm, w, training, scoring, fit.Some?),
          Predicted(arm, ModelOf(fit), scoring, Label(w)),
          if arm.development then Distributed(arm, ModelOf(fit), scoring, Label(w)) else [],
          if fit.Some? then fit.value.appearanceRows else 0)
  }

  /** Fitting before a decision and predicting at it. */
  function FitAndPredict(arm: Arm, w: Week, training: seq<Row>, scoring: seq<Row>): Outcome<seq<Piece>, WalkError> {
    if Label(w) in Labels(TrainingWeeks(arm.order, training)) then Raised(NotOutOfFold)
    else
      var fit := arm.fit(training, w.season);
      var problem := FitProblem(fit, arm.version, DeclaredWeights(arm, training, w.season));
      if problem.Some? then Raised(problem.value)
      else
        Done([PieceOf(arm, w, training, scoring, fit)])
  }

  /** One turn of the walk. */
  function Visit(arm: Arm, frame: seq<Row>, w: Week): Outcome<seq<Piece>, WalkError> {
    var scoring := RowsAt(frame, w);
    if scoring == [] then Done([])
    else
      var training :- RowsStrictlyBefore(arm.order, frame, w);
      FitAndPredict(arm, w, training, scoring)
  }

  function Visitor(arm: Arm, frame: seq<Row>)
    : Week -> Outcome<seq<Piece>, WalkError>
  {
    (w: Week) => Visit(arm, frame, w)
  }

  function ScoredKey(): Scored -> Key { (s: Scored) => KeyOf(s.row) }

  function RowsOfPiece(): Piece -> seq<Scored> { (p: Piece) => p.rows }

  function ParametersOfPiece(): Piece -> seq<Parameters> { (p: Piece) => p.parameters }

  function RecordOfPiece(): Piece -> seq<Record> { (p: Piece) => [p.record] }

  function AllRows(pieces: seq<Piece>): seq<Scored> {
    FlatMap(pieces, RowsOfPiece())
  }

  function AllParameters(pieces: seq<Piece>): seq<Parameters> {
    FlatMap(pieces, ParametersOfPiece())
  }

  function Records(pieces: seq<Piece>): seq<Record> {
    FlatMap(pieces, RecordOfPiece())
  }

  function Refused(records: seq<Record>): seq<string> {
    if records == [] then []
    else
      var last := records[|records| - 1];
      Refused(records[..|records| - 1]) + if last.fitted then [] else [last.fold]
  }

  function AppearanceRows(pieces: seq<Piece>): nat {
    if pieces == [] then 0 else AppearanceRows(pieces[..|pieces| - 1]) + pieces[|pieces| - 1].appearanceRows
  }

  function ScoredRows(records: seq<Record>): nat {
    if records == [] then 0 else ScoredRows(records[..|records| - 1]) + records[|records| - 1].scoredRows
  }

  function Assemble(pieces: seq<Piece>): Built {
    Built(SortedRows(Rounded(AllRows(pieces))), Refused(Records(pieces)), AppearanceRows(pieces), |pieces|,
          Records(pieces), Sidecar(AllParameters(pieces)))
  }

  /** What the walk over a list of decisions gives back. */
  function Table(arm: Arm, frame: seq<Row>, decisions: seq<Week>)
    : Outcome<Built, WalkError>
  {
    Close(Each(decisions, Visitor(arm, frame)))
  }

  function Close(walked: Outcome<seq<Piece>, WalkError>): Outcome<Built, WalkError> {
    if walked.Raised? then Raised(walked.error)
    else if walked.value == [] then Raised(NoPopulation)
    else Done(Assemble(walked.value))
  }

  lemma Closing(pieces: seq<Piece>)
    ensures var built := Assemble(pieces);
            && built.table == SortedRows(Rounded(AllRows(pieces)))
            && built.distribution == Sidecar(AllParameters(pieces))
            && built.folds == Records(pieces)
            && built.refused == Refused(Records(pieces))
            && built.trainingRows == AppearanceRows(pieces)
            && built.scoredFolds == |pieces|
    ensures multiset(Assemble(pieces).table) == multiset(Rounded(AllRows(pieces)))
    ensures |Assemble(pieces).table| == |AllRows(pieces)|
    ensures forall s :: s in Assemble(pieces).table <==> exists raw | raw in AllRows(pieces) :: s == RoundedRow(raw)
  {
    var rows := AllRows(pieces);
    SortMembers(Rounded(rows), ByKey(ScoredKey()));
    RoundedMembers(rows);
  }

  lemma RoundedMembers(rows: seq<Scored>)
    ensures forall s :: s in Rounded(rows) <==> exists raw | raw in rows :: s == RoundedRow(raw)
  {
    forall s
      ensures s in Rounded(rows) <==> exists raw | raw in rows :: s == RoundedRow(raw)
    {
      if s in Rounded(rows) {
        var i :| 0 <= i < |rows| && Rounded(rows)[i] == s;
        assert rows[i] in rows;
      }
      if raw :| raw in rows && s == RoundedRow(raw) {
        var i :| 0 <= i < |rows| && rows[i] == raw;
        assert Rounded(rows)[i] == s;
      }
    }
  }

  function SortedRows(rows: seq<Scored>): seq<Scored> {
    Sort(rows, ByKey(ScoredKey()))
  }

  /** A row as the table carries it. */
  function RoundedRow(s: Scored): Scored {
    s.(prediction := s.prediction.(columns := R.RoundAndDerive(s.prediction.columns)))
  }

  function Rounded(rows: seq<Scored>): (r: seq<Scored>)
    ensures |r| == |rows|
  {
    seq(|rows|, i requires 0 <= i < |rows| => RoundedRow(rows[i]))
  }

  function ParametersKey(): Parameters -> Key { (p: Parameters) => p.key }

  function RoundedParameters(p: Parameters): Parameters {
    p.(distribution := R.RoundParameters(p.distribution))
  }

  /** The table beside the predictions, when any row has a distribution. */
  function Sidecar(rows: seq<Parameters>): Option<seq<Parameters>> {
    if rows == [] then None
    else
      Some(AllRounded(Sort(rows, ByKey(ParametersKey()))))
  }

  function AllRounded(rows: seq<Parameters>): seq<Parameters> {
    seq(|rows|, i requires 0 <= i < |rows| => RoundedParameters(rows[i]))
  }

  lemma AssembleNext(pieces: seq<Piece>, p: Piece)
    ensures AllRows(pieces + [p]) == AllRows(pieces) + p.rows
    ensures AllParameters(pieces + [p]) == AllParameters(pieces) + p.parameters
    ensures Records(pieces + [p]) == Records(pieces) + [p.record]
    ensures Refused(Records(pieces + [p])) == Refused(Records(pieces)) + if p.record.fitted then [] else [p.record.fold]
    ensures AppearanceRows(pieces + [p]) == AppearanceRows(pieces) + p.appearanceRows
    ensures ScoredRows(Records(pieces + [p])) == ScoredRows(Records(pieces)) + p.record.scoredRows
  {
    FlatMapAppend(pieces, [p], RowsOfPiece());
    FlatMapAppend(pieces, [p], RecordOfPiece());
    FlatMapAppend(pieces, [p], ParametersOfPiece());
    FlatMapOne(p, RowsOfPiece());
    FlatMapOne(p, ParametersOfPiece());
    FlatMapOne(p, RecordOfPiece());
    assert (pieces + [p])[..|pieces + [p]| - 1] == pieces;
    var records := Records(pieces);
    assert (records + [p.record])[..|records + [p.record]| - 1] == records;
  }

  /** Where the walk stands after some decisions: what it has gathered so far. */
  ghost predicate SoFar(arm: Arm, frame: seq<Row>, decisions: seq<Week>, done: seq<Piece>) {
    Each(decisions, Visitor(arm, frame)) == Done(done)
  }

  lemma WalkOn(arm: Arm, frame: seq<Row>, decisions: seq<Week>, i: nat, done: seq<Piece>)
    requires i < |decisions| && SoFar(arm, frame, decisions[..i], done)
    ensures var v := Visit(arm, frame, decisions[i]);
            && (v.Done? ==> SoFar(arm, frame, decisions[..i + 1], done + v.value))
            && (v.Raised? ==> Table(arm, frame, decisions) == Raised(v.error))
  {
    EachNext(decisions, i, Visitor(arm, frame));
  }

  lemma WalkOver(arm: Arm, frame: seq<Row>, decisions: seq<Week>, done: seq<Piece>)
    requires SoFar(arm, frame, decisions, done)
    ensures Table(arm, frame, decisions) == if done == [] then Raised(NoPopulation) else Done(Assemble(done))
  {
  }

  lemma VisitIsOnePiece(arm: Arm, frame: seq<Row>, w: Week)
    requires Visit(arm, frame, w).Done? && Visit(arm, frame, w).value != []
    ensures var v := Visit(arm, frame, w).value;
            |v| == 1 && v == [v[0]] && (!v[0].record.fitted ==> v[0].appearanceRows == 0)
  {
  }

  /** What the loop holds once it has gathered some pieces. */
  datatype Sums = Sums(
    rows: seq<Scored>,
    parameters: seq<Parameters>,
    refused: seq<string>,
    records: seq<Record>,
    trainingRows: nat,
    pieces: nat
  )

  ghost predicate Gathered(sums: Sums, done: seq<Piece>) {
    && sums.rows == AllRows(done) && sums.parameters == AllParameters(done)
    && sums.records == Records(done) && sums.refused == Refused(sums.records)
    && sums.trainingRows == AppearanceRows(done) && sums.pieces == |done|
  }

  lemma GatherNext(sums: Sums, done: seq<Piece>, p: Piece, after: Sums)
    requires Gathered(sums, done) && (!p.record.fitted ==> p.appearanceRows == 0)
    requires after.rows == sums.rows + p.rows && after.parameters == sums.parameters + p.parameters
    requires after.records == sums.records + [p.record] && after.pieces == sums.pieces + 1
    requires after.refused == if p.record.fitted then sums.refused else sums.refused + [p.record.fold]
    requires after.trainingRows == if p.record.fitted then sums.trainingRows + p.appearanceRows else sums.trainingRows
    ensures Gathered(after, done + [p])
  {
    AssembleNext(done, p);
  }

  /** `build_oof_table`: the loop over the decisions. */
  method BuildOofTable(arm: Arm, frame: seq<Row>, decisions: seq<Week>) returns (r: Outcome<Built, WalkError>)
    ensures r == Table(arm, frame, decisions)
  {
    ghost var done: seq<Piece> := [];
    var s := Sums([], [], [], [], 0, 0);
    assert decisions[..0] == [];
    for i := 0 to |decisions|
      invariant SoFar(arm, frame, decisions[..i], done) && Gathered(s, done)
    {
      WalkOn(arm, frame, decisions, i, done);
      var turn := Visit(arm, frame, decisions[i]);
      if turn.Raised? {
        return Raised(turn.error);
      }
      if turn.value == [] {
        assert done + [] == done;
        continue;
      }
      VisitIsOnePiece(arm, frame, decisions[i]);
      var piece := turn.value[0];
      ghost var before := s;
      if piece.record.fitted {
        s := s.(trainingRows := s.trainingRows + piece.appearanceRows);
      } else {
        s := s.(refused := s.refused + [piece.record.fold]);
      }
      s := s.(records := s.records + [piece.record], rows := s.rows + piece.rows,
              parameters := s.parameters + piece.parameters, pieces := s.pieces + 1);
      GatherNext(before, done, piece, s);
      done := done + [piece];
    }
    assert decisions[..|decisions|] == decisions;
    WalkOver(arm, frame, decisions, done);
    if s.pieces == 0 {
      return Raised(NoPopulation);
    }
    return Done(Built(SortedRows(Rounded(s.rows)), s.refused, s.trainingRows, s.pieces, s.records, Sidecar(s.parameters)));
  }
}
