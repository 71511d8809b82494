/** Where the Top 100 check reads the tree, in order, and so when it raises. */
module Top100Raising {
  import opened Outcomes
  import opened Lists
  import opened Decimals
  import opened Json
  import opened AdviceIndex
  import opened Pricing
  import opened Raising
  import opened Top100
  import V = Variants
  import W = VariantsRaising

  // ---- the sites, in the order the check comes to them ----

  function UnsolvedSites(menu: Json): seq<Site> {
    if Truthy(At(menu, "unavailable")) then [Loops(At(menu, "unavailable"))] else []
  }

  function BaselineSites(env: Env, read: Reader, entry: Json): seq<Site> {
    var base := W.Value(read(V.BaselinePath(env, entry)));
    [Reads(read(V.BaselinePath(env, entry)))]
    + if base.Null? then [] else [Keys(base, "payload")] + [Searches(At(base, "payload"))]
  }

  function WordSites(index: Json): seq<Site> {
    if Truthy(At(index, "evidence")) then [Gets(At(index, "evidence"))] else []
  }

  function PathListsSites(index: Json): seq<Site> {
    var menu := At(index, "top100");
    WordSites(index) + ([Keys(menu, "paths")] + [Keys(menu, "word_paths")])
  }

  function StatedSites(p: Json): seq<Site> {
    [Gets(p)] + if Truthy(At(p, "top100")) then [Gets(At(p, "top100"))] else []
  }

  function MoveSites(): Json -> seq<Site> {
    (move: Json) => [Gets(move), Hashes(At(move, "reason_code"))]
  }

  function MovesOf(p: Json): seq<Json> {
    var moves := Moves(p);
    if moves.Done? then moves.value else []
  }

  function CountSites(p: Json): seq<Site> {
    (if Has(p, "moves") then [Loops(At(p, "moves"))] else [])
    + (FlatMap(MovesOf(p), MoveSites()) + [Hashes(At(p, "solver_status"))])
  }

  function PayloadSites(p: Json): seq<Site> {
    StatedSites(p) + ([Prices(p)] + ([Ends(At(p, "stated_limits"))] + CountSites(p)))
  }

  function DocumentSites(read: Reader, path: string): seq<Site> {
    var document := W.Value(read(path));
    [Reads(read(path))] + if document.Null? then [] else [Keys(document, "payload")] + PayloadSites(At(document, "payload"))
  }

  function PathSites(read: Reader, path: Json): seq<Site> {
    if path.Null? then [] else if !path.Str? then [Opens(path)] else DocumentSites(read, path.s)
  }

  function WeightSites(read: Reader, list: PathList): int -> seq<Site> {
    (weight: int) => [Gets(list.paths)] + PathSites(read, At(list.paths, Decimal(weight)))
  }

  function OneListSites(read: Reader, list: PathList): seq<Site> {
    FlatMap(list.weights, WeightSites(read, list))
  }

  function ListsSites(read: Reader, index: Json, unsolved: set<(Val, bool)>): seq<Site> {
    var lists := PathLists(index, unsolved);
    PathListsSites(index)
    + if lists.Raised? then [] else OneListSites(read, lists.value.0) + OneListSites(read, lists.value.1)
  }

  function MenuSites(env: Env, read: Reader, entry: Json, index: Json): seq<Site> {
    var rows := UnsolvedRows(At(index, "top100"));
    UnsolvedSites(At(index, "top100"))
    + (BaselineSites(env, read, entry) + ListsSites(read, index, if rows.Done? then Unsolved(rows.value) else {}))
  }

  function IndexSites(env: Env, read: Reader, entry: Json, index: Json): seq<Site> {
    if Refusal(index).None? && V.MenuAvailable(index) then MenuSites(env, read, entry, index) else []
  }

  function EntrySites(env: Env, read: Reader): Json -> seq<Site> {
    (entry: Json) =>
      var found := ReadMemberIndex(env, read, entry);
      [Reads(read(AdvicePath(env, entry, "index.json")))]
      + if found.Done? && found.value.Readable? then IndexSites(env, read, entry, found.value.index) else []
  }

  function MembersSites(env: Env, read: Reader, rows: seq<Json>): seq<Site> {
    FlatMap(rows, W.RowSites()) + FlatMap(FlatMap(rows, W.HumanOf()), EntrySites(env, read))
  }

  function LineSites(costs: seq<Cost>): int -> seq<Site> {
    (weight: int) => [Averages(CostsOf(costs, weight))]
  }

  function PrintSites(costs: seq<Cost>): seq<Site> {
    FlatMap(MENU_WEIGHTS, LineSites(costs))
  }

  /** Every place of the tree the check reads, in order. */
  function Top100Sites(env: Env, read: Reader): seq<Site> {
    W.ListSites(read) + (MembersSites(env, read, W.RowsOf(read)) + PrintSites(Costs(env, read, W.RowsOf(read))))
  }

  // ---- the check raises where its sites fail ----

  lemma UnsolvedTraces(env: Env, menu: Json)
    ensures Traces(env, UnsolvedRows(menu), UnsolvedSites(menu))
  {
    OneSite(env, Loops(At(menu, "unavailable")));
  }

  lemma BaselineTraces(env: Env, read: Reader, entry: Json)
    ensures Traces(env, BaselineProblems(env, read, entry), BaselineSites(env, read, entry))
  {
    var first := Reads(read(V.BaselinePath(env, entry)));
    var base := W.Value(read(V.BaselinePath(env, entry)));
    OneSite(env, first);
    if base.Null? {
      assert [first] + [] == [first];
    } else {
      OneSite(env, Searches(At(base, "payload")));
      W.FirstOf(env, Keys(base, "payload"), [Searches(At(base, "payload"))]);
      W.FirstOf(env, first, [Keys(base, "payload")] + [Searches(At(base, "payload"))]);
    }
  }

  lemma PathListsTrace(env: Env, index: Json, unsolved: set<(Val, bool)>)
    ensures Traces(env, PathLists(index, unsolved), PathListsSites(index))
  {
    var menu := At(index, "top100");
    OneSite(env, Gets(At(index, "evidence")));
    OneSite(env, Keys(menu, "word_paths"));
    W.FirstOf(env, Keys(menu, "paths"), [Keys(menu, "word_paths")]);
    FirstFailureAppend(env, WordSites(index), [Keys(menu, "paths")] + [Keys(menu, "word_paths")]);
  }

  lemma StatedTraces(env: Env, p: Json)
    ensures Traces(env, StatedWeight(p), StatedSites(p))
  {
    OneSite(env, Gets(p));
    OneSite(env, Gets(At(p, "top100")));
    W.FirstOf(env, Gets(p), [Gets(At(p, "top100"))]);
    assert [Gets(p)] + [] == [Gets(p)];
  }

  lemma MoveTraces(env: Env, move: Json)
    ensures Traces(env, MoveReason(move), MoveSites()(move))
  {
    OneSite(env, Hashes(At(move, "reason_code")));
    W.FirstOf(env, Gets(move), [Hashes(At(move, "reason_code"))]);
    assert [Gets(move)] + [Hashes(At(move, "reason_code"))] == [Gets(move), Hashes(At(move, "reason_code"))];
  }

  lemma CountTraces(env: Env, p: Json)
    ensures Traces(env, Counted(p), CountSites(p))
  {
    var last := [Hashes(At(p, "solver_status"))];
    OneSite(env, last[0]);
    OneSite(env, Loops(At(p, "moves")));
    forall move | move in MovesOf(p)
      ensures Traces(env, MoveReason(move), MoveSites()(move))
    {
      MoveTraces(env, move);
    }
    TracesEach(env, MovesOf(p), MoveReason, MoveSites());
    var listed := if Has(p, "moves") then [Loops(At(p, "moves"))] else [];
    FirstFailureAppend(env, FlatMap(MovesOf(p), MoveSites()), last);
    TracesAfter(env, Moves(p), listed, Counted(p), FlatMap(MovesOf(p), MoveSites()) + last);
  }

  lemma PayloadTraces(env: Env, entry: Json, path: string, p: Json, word: bool, weight: int)
    ensures Traces(env, PayloadProblems(env, entry, path, p, word, weight), PayloadSites(p))
  {
    var r := PayloadProblems(env, entry, path, p, word, weight);
    CountTraces(env, p);
    W.FirstOf(env, Ends(At(p, "stated_limits")), CountSites(p));
    PriceMeaning(env, p);
    W.FirstOf(env, Prices(p), [Ends(At(p, "stated_limits"))] + CountSites(p));
    StatedTraces(env, p);
    TracesAfter(env, StatedWeight(p), StatedSites(p), r, [Prices(p)] + ([Ends(At(p, "stated_limits"))] + CountSites(p)));
  }

  lemma DocumentTraces(env: Env, read: Reader, entry: Json, path: string, word: bool, weight: int)
    ensures Traces(env, DocumentProblems(env, read, entry, path, word, weight), DocumentSites(read, path))
  {
    var document := W.Value(read(path));
    OneSite(env, Reads(read(path)));
    if document.Null? {
      assert [Reads(read(path))] + [] == [Reads(read(path))];
    } else {
      var inside := PayloadSites(At(document, "payload"));
      PayloadTraces(env, entry, path, At(document, "payload"), word, weight);
      W.FirstOf(env, Keys(document, "payload"), inside);
      W.FirstOf(env, Reads(read(path)), [Keys(document, "payload")] + inside);
    }
  }

  lemma WeightTraces(env: Env, read: Reader, entry: Json, list: PathList, weight: int)
    ensures Traces(env, WeightProblems(env, read, entry, list, weight), WeightSites(read, list)(weight))
  {
    var path := At(list.paths, Decimal(weight));
    W.FirstOf(env, Gets(list.paths), PathSites(read, path));
    if path.Str? {
      DocumentTraces(env, read, entry, path.s, list.word, weight);
      PathTraces(env, read, entry, list, weight, path.s);
    } else {
      OneSite(env, Opens(path));
    }
  }

  lemma PathTraces(env: Env, read: Reader, entry: Json, list: PathList, weight: int, path: string)
    requires Traces(env, DocumentProblems(env, read, entry, path, list.word, weight), DocumentSites(read, path))
    requires list.paths.Obj? && At(list.paths, Decimal(weight)) == Str(path)
    ensures Traces(env, WeightProblems(env, read, entry, list, weight), DocumentSites(read, path))
  {
  }

  lemma OneListTraces(env: Env, read: Reader, entry: Json, list: PathList)
    ensures Traces(env, ListProblems(env, read, entry, list), OneListSites(read, list))
  {
    forall weight | weight in list.weights
      ensures Traces(env, WeightCheck(env, read, entry, list)(weight), WeightSites(read, list)(weight))
    {
      WeightTraces(env, read, entry, list, weight);
    }
    TracesEach(env, list.weights, WeightCheck(env, read, entry, list), WeightSites(read, list));
  }

  lemma ListsTrace(env: Env, read: Reader, entry: Json, index: Json, unsolved: set<(Val, bool)>)
    ensures Traces(env, ListsProblems(env, read, entry, index, unsolved), ListsSites(read, index, unsolved))
  {
    var lists := PathLists(index, unsolved);
    PathListsTrace(env, index, unsolved);
    if lists.Done? {
      var (a, b) := (OneListSites(read, lists.value.0), OneListSites(read, lists.value.1));
      OneListTraces(env, read, entry, lists.value.0);
      OneListTraces(env, read, entry, lists.value.1);
      TracesThen(env, ListProblems(env, read, entry, lists.value.0), a, ListProblems(env, read, entry, lists.value.1), b);
      TracesAfter(env, lists, PathListsSites(index), ListsProblems(env, read, entry, index, unsolved), a + b);
    } else {
      assert PathListsSites(index) + [] == PathListsSites(index);
    }
  }

  lemma RowsRunThrough(entry: Json, rows: seq<Json>)
    ensures Each(rows, RowCheck(entry)).Done?
  {
    EachMembers(rows, RowCheck(entry));
  }

  lemma MenuTraces(env: Env, read: Reader, entry: Json, index: Json)
    ensures Traces(env, MenuProblems(env, read, entry, index), MenuSites(env, read, entry, index))
  {
    var r := MenuProblems(env, read, entry, index);
    var rows := UnsolvedRows(At(index, "top100"));
    var unsolved := if rows.Done? then Unsolved(rows.value) else {};
    UnsolvedTraces(env, At(index, "top100"));
    BaselineTraces(env, read, entry);
    ListsTrace(env, read, entry, index, unsolved);
    var rest := BaselineSites(env, read, entry) + ListsSites(read, index, unsolved);
    TracesThen(env, BaselineProblems(env, read, entry), BaselineSites(env, read, entry),
               ListsProblems(env, read, entry, index, unsolved), ListsSites(read, index, unsolved));
    if rows.Done? {
      RowsRunThrough(entry, rows.value);
    }
    TracesAfter(env, rows, UnsolvedSites(At(index, "top100")), r, rest);
  }

  lemma IndexTraces(env: Env, read: Reader, entry: Json, index: Json)
    ensures Traces(env, IndexProblems(env, read, entry, index), IndexSites(env, read, entry, index))
  {
    if Refusal(index).None? && V.MenuAvailable(index) {
      MenuTraces(env, read, entry, index);
    }
  }

  lemma EntryTraces(env: Env, read: Reader, entry: Json)
    ensures Traces(env, MemberProblems(env, read, entry), EntrySites(env, read)(entry))
  {
    var found := ReadMemberIndex(env, read, entry);
    var first := Reads(read(AdvicePath(env, entry, "index.json")));
    OneSite(env, first);
    if found.Done? && found.value.Readable? {
      IndexTraces(env, read, entry, found.value.index);
      W.FirstOf(env, first, IndexSites(env, read, entry, found.value.index));
    } else {
      assert [first] + [] == [first];
    }
  }

  lemma RowsProblemsTrace(env: Env, read: Reader, rows: seq<Json>)
    ensures Traces(env, RowsProblems(env, read, rows), MembersSites(env, read, rows))
  {
    W.RowsTrace(env, rows);
    var entries := FlatMap(rows, W.HumanOf());
    forall entry | entry in entries
      ensures Traces(env, MemberCheck(env, read)(entry), EntrySites(env, read)(entry))
    {
      EntryTraces(env, read, entry);
    }
    TracesEach(env, entries, MemberCheck(env, read), EntrySites(env, read));
    TracesAfter(env, Outcomes.Each(rows, V.HumanEntry), FlatMap(rows, W.RowSites()), RowsProblems(env, read, rows),
                FlatMap(entries, EntrySites(env, read)));
  }

  lemma SummaryTraces(env: Env, costs: seq<Cost>)
    ensures Traces(env, Summary(env, costs), PrintSites(costs))
  {
    forall weight | weight in MENU_WEIGHTS
      ensures Traces(env, WeightLine(env, costs)(weight), LineSites(costs)(weight))
    {
      OneSite(env, Averages(CostsOf(costs, weight)));
    }
    TracesEach(env, MENU_WEIGHTS, WeightLine(env, costs), LineSites(costs));
  }

  lemma RunTraces(env: Env, read: Reader, rows: seq<Json>)
    ensures Traces(env, Then(RowsProblems(env, read, rows), Summary(env, Costs(env, read, rows))),
                   MembersSites(env, read, rows) + PrintSites(Costs(env, read, rows)))
  {
    RowsProblemsTrace(env, read, rows);
    SummaryTraces(env, Costs(env, read, rows));
    TracesThen(env, RowsProblems(env, read, rows), MembersSites(env, read, rows),
               Summary(env, Costs(env, read, rows)), PrintSites(Costs(env, read, rows)));
  }

  /** The check raises exactly where the first of its sites fails, with that site's error. */
  lemma Top100Trace(env: Env, read: Reader)
    ensures Traces(env, TreeProblems(env, read), Top100Sites(env, read))
  {
    W.ListTraces(env, read);
    var rows := W.RowsOf(read);
    RunTraces(env, read, rows);
    TracesAfter(env, V.MemberRows(read), W.ListSites(read), TreeProblems(env, read),
                MembersSites(env, read, rows) + PrintSites(Costs(env, read, rows)));
  }

  /** The Top 100 check ends with an error the release check does not catch exactly when the
      first site that fails is one that escapes. */
  lemma Top100Escapes(env: Env, read: Reader)
    ensures TreeProblems(env, read).Raised? && TreeProblems(env, read).error in {AttributeError, ArithmeticError}
       <==> EscapesFirst(env, Top100Sites(env, read))
  {
    Top100Trace(env, read);
    EscapesFirstMeans(env, TreeProblems(env, read), Top100Sites(env, read));
  }
}
