/** The Top 100 check: every weight of a member's menu is a document of its own, or stated
    unsolved; and the check as it runs, appending to one list of problems. */
module Top100 {
  import opened Outcomes
  import opened Json
  import opened AdviceIndex
  import opened Lists
  import opened Walk
  import opened Pricing
  import opened Decimals
  import V = Variants

  datatype Problem =
    | MemberWithoutIndex(entry: Json)
    | IndexThePageRefuses(entry: Json, field: string)
    | NoTop100Entry(entry: Json)
    | EntryMalformed(entry: Json)
    | RowMalformed(entry: Json)
    | BaselineWrong(entry: Json)
    | WordPathsWithoutWord(entry: Json)
    | WeightMissing(entry: Json, word: bool, weight: int)
    | AtAnotherPath(entry: Json, word: bool, weight: int)
    | NotPublished(entry: Json, path: string)
    | Forbidden(hit: Hit)
    | WrongWeight(entry: Json, path: string)
    | WrongEvidence(entry: Json, path: string)
    | WrongPrice(entry: Json, path: string)
    | WrongLimit(entry: Json, path: string)
    | PrivateKey(entry: Json, path: string)

  type Problems = Outcome<seq<Problem>, PyError>

  /* ---------- the menu ---------- */

  /** One of the two lists of paths, with the weights it is read for: the plain weights, or the weights with the manager's word. */
  datatype PathList = PathList(weights: seq<int>, word: bool, wordOn: bool, paths: Json, unsolved: set<(Val, bool)>)

  function WeightVals(): set<Val> {
    set w | w in MENU_WEIGHTS :: VNum(w as real)
  }

  /** A row in the producer's shape: a weight, with or without the word, and why. */
  predicate StatesUnsolved(row: Json) {
    && row.Obj?
    && Canon(At(row, "weight")) in WeightVals()
    && At(row, "word").Bool?
    && At(row, "reason").Str?
  }

  function UnsolvedRows(menu: Json): Outcome<seq<Json>, PyError> {
    var rows := At(menu, "unavailable");
    if Truthy(rows) then Iterate(rows) else Done([])
  }

  function Unsolved(rows: seq<Json>): set<(Val, bool)> {
    set row | row in rows && StatesUnsolved(row) :: (Canon(At(row, "weight")), At(row, "word").b)
  }

  function RowCheck(entry: Json): Json -> Problems {
    row => Done(Unless(StatesUnsolved(row), RowMalformed(entry)))
  }

  /** `text in j` */
  function Contains(j: Json, text: string): Outcome<bool, PyError> {
    match j
    case Obj(fields) => Done(HasField(fields, text))
    case Arr(items) => Done(Str(text) in items)
    case Str(s) => Done(exists i | 0 <= i <= |s| :: text <= s[i..])
    case _ => Raised(TypeError)
  }

  function BaselineProblems(env: Env, read: Reader, entry: Json): Problems {
    var base :- read(V.BaselinePath(env, entry));
    if base.Null? then Done([BaselineWrong(entry)])
    else
      var payload :- Subscript(base, "payload");
      var weighted :- Contains(payload, "top100");
      Done(Unless(!weighted, BaselineWrong(entry)))
  }

  /** `(index.get("evidence") or {}).get("available") is True` */
  function WordOn(index: Json): Outcome<bool, PyError> {
    if !Truthy(At(index, "evidence")) then Done(false)
    else
      var available :- Get(At(index, "evidence"), "available");
      Done(available == Bool(true))
  }

  function WeightPath(env: Env, entry: Json, word: bool, weight: int): string {
    AdvicePath(env, entry, PURE + "/1/top100-" + Decimal(weight) + (if word then "-hoca-sozu" else "") + ".json")
  }

  /* ---------- one document ---------- */

  const LIMIT_HEAD := "The plan was chosen with the Top 100 influence at "
  const LIMIT_TAIL := "; every expected-points number in this document is the base model's, without it."

  /** The limit pattern matches and names this weight; its end may stand before a last newline. */
  predicate StatesLimit(text: string, weight: int) {
    var stated := LIMIT_HEAD + Decimal(weight) + LIMIT_TAIL;
    text == stated || text == stated + "\n"
  }

  /** The last stated limit, matched against the pattern. */
  function LimitAgrees(p: Json, weight: int): Outcome<bool, PyError> {
    var limits := At(p, "stated_limits");
    if !Truthy(limits) then Done(false)
    else match limits
      case Arr(items) =>
        var last := items[|items| - 1];
        if last.Str? then Done(StatesLimit(last.s, weight)) else Raised(TypeError)
      case Str(s) => Done(StatesLimit(s[|s| - 1..], weight))
      case Obj(_) => Raised(KeyError)
      case _ => Raised(TypeError)
  }

  /** `(payload.get("top100") or {})["weight"]`, null where it is absent. */
  function StatedWeight(p: Json): Outcome<Json, PyError> {
    var menu :- Get(p, "top100");
    if !Truthy(menu) then Done(Null) else Get(menu, "weight")
  }

  /** A reason code that can be counted. */
  function MoveReason(move: Json): Outcome<seq<Json>, PyError> {
    var reason :- Get(move, "reason_code");
    if Hashable(reason) then Done([reason]) else Raised(TypeError)
  }

  function Moves(p: Json): Outcome<seq<Json>, PyError> {
    if Has(p, "moves") then Iterate(At(p, "moves")) else Done([])
  }

  /** Counting the moves and the status; it can only fail. */
  function Counted(p: Json): Outcome<(), PyError> {
    var moves :- Moves(p);
    var reasons :- Outcomes.Each(moves, MoveReason);
    if Hashable(At(p, "solver_status")) then Done(()) else Raised(TypeError)
  }

  function HitProblems(hits: seq<Hit>): seq<Problem> {
    seq(|hits|, i requires 0 <= i < |hits| => Forbidden(hits[i]))
  }

  function PayloadProblems(env: Env, entry: Json, path: string, p: Json, word: bool, weight: int): Problems {
    var stated :- StatedWeight(p);
    var price :- PriceAgrees(env, p);
    var limit :- LimitAgrees(p, weight);
    var counted :- Counted(p);
    Done(HitProblems(Hits(env, p, path))
         + Unless(PyEq(stated, Int(weight)), WrongWeight(entry, path))
         + Unless(Has(p, "evidence") == word, WrongEvidence(entry, path))
         + Unless(price, WrongPrice(entry, path))
         + Unless(limit, WrongLimit(entry, path))
         + Unless(!V.HasPrivateKey(p), PrivateKey(entry, path)))
  }

  function DocumentProblems(env: Env, read: Reader, entry: Json, path: string, word: bool, weight: int): Problems {
    var document :- read(path);
    if document.Null? then Done([NotPublished(entry, path)])
    else
      var p :- Subscript(document, "payload");
      PayloadProblems(env, entry, path, p, word, weight)
  }

  /* ---------- one weight, one list, one member ---------- */

  function WeightProblems(env: Env, read: Reader, entry: Json, list: PathList, weight: int): Problems {
    var path :- Get(list.paths, Decimal(weight));
    if path.Null? then
      Done(Unless((VNum(weight as real), list.word) in list.unsolved || (list.word && !list.wordOn),
                  WeightMissing(entry, list.word, weight)))
    else if !path.Str? then Raised(TypeError)
    else
      Then(Done(Unless(path.s == WeightPath(env, entry, list.word, weight), AtAnotherPath(entry, list.word, weight))),
           DocumentProblems(env, read, entry, path.s, list.word, weight))
  }

  function WeightCheck(env: Env, read: Reader, entry: Json, list: PathList): int -> Problems {
    (weight: int) => WeightProblems(env, read, entry, list, weight)
  }

  function ListProblems(env: Env, read: Reader, entry: Json, list: PathList): Problems {
    Then(Done(Unless(!(list.word && !list.wordOn && Truthy(list.paths)), WordPathsWithoutWord(entry))),
         Each(list.weights, WeightCheck(env, read, entry, list)))
  }

  /** The two lists of a menu, plain first. */
  function PathLists(index: Json, unsolved: set<(Val, bool)>): Outcome<(PathList, PathList), PyError> {
    var menu := At(index, "top100");
    var wordOn :- WordOn(index);
    var plain :- Subscript(menu, "paths");
    var worded :- Subscript(menu, "word_paths");
    Done((PathList(MENU_WEIGHTS, false, wordOn, plain, unsolved), PathList(MENU_WEIGHTS, true, wordOn, worded, unsolved)))
  }

  function ListsProblems(env: Env, read: Reader, entry: Json, index: Json, unsolved: set<(Val, bool)>): Problems {
    var lists :- PathLists(index, unsolved);
    Then(ListProblems(env, read, entry, lists.0), ListProblems(env, read, entry, lists.1))
  }

  function MenuProblems(env: Env, read: Reader, entry: Json, index: Json): Problems {
    var rows :- UnsolvedRows(At(index, "top100"));
    Then(Each(rows, RowCheck(entry)),
    Then(BaselineProblems(env, read, entry),
         ListsProblems(env, read, entry, index, Unsolved(rows))))
  }

  function IndexProblems(env: Env, read: Reader, entry: Json, index: Json): Problems {
    var menu := At(index, "top100");
    if Refusal(index).Some? then Done([])
    else if menu.Null? then Done([NoTop100Entry(entry)])
    else if !V.MenuAvailable(index) then Done(Unless(MenuAbsence(menu).Some?, EntryMalformed(entry)))
    else MenuProblems(env, read, entry, index)
  }

  function MemberProblems(env: Env, read: Reader, entry: Json): Problems {
    var found :- ReadMemberIndex(env, read, entry);
    match found
    case NoIndex => Done([MemberWithoutIndex(entry)])
    case PageRefuses(field) => Done([IndexThePageRefuses(entry, field)])
    case Readable(index) => IndexProblems(env, read, entry, index)
  }

  function MemberCheck(env: Env, read: Reader): Json -> Problems {
    entry => MemberProblems(env, read, entry)
  }

  function RowsProblems(env: Env, read: Reader, rows: seq<Json>): Problems {
    var entries :- Outcomes.Each(rows, V.HumanEntry);
    Each(entries, MemberCheck(env, read))
  }

  /* ---------- the summary ---------- */

  /** A price that enters the summary, under the weight of its document. */
  type Cost = (int, Json)

  /** The price of a plain document that was read to its end. */
  function DocumentCosts(read: Reader, path: string, word: bool, weight: int): seq<Cost> {
    if word || !read(path).Done? || read(path).value.Null? then []
    else [(weight, At(At(read(path).value, "payload"), "expected_points_cost"))]
  }

  function WeightCosts(read: Reader, list: PathList, weight: int): seq<Cost> {
    var path := At(list.paths, Decimal(weight));
    if path.Str? then DocumentCosts(read, path.s, list.word, weight) else []
  }

  function KeptCosts(read: Reader, list: PathList): int -> seq<Cost> {
    (weight: int) => WeightCosts(read, list, weight)
  }

  function ListCosts(read: Reader, list: PathList): seq<Cost> {
    FlatMap(list.weights, KeptCosts(read, list))
  }

  function ListsCosts(read: Reader, lists: (PathList, PathList)): seq<Cost> {
    ListCosts(read, lists.0) + ListCosts(read, lists.1)
  }

  function MenuCosts(read: Reader, index: Json, unsolved: set<(Val, bool)>): seq<Cost> {
    var lists := PathLists(index, unsolved);
    if lists.Raised? then [] else ListsCosts(read, lists.value)
  }

  function AvailableCosts(read: Reader, index: Json): seq<Cost> {
    var rows := UnsolvedRows(At(index, "top100"));
    if rows.Raised? then [] else MenuCosts(read, index, Unsolved(rows.value))
  }

  function MemberCosts(env: Env, read: Reader): Json -> seq<Cost> {
    (entry: Json) =>
      var found := ReadMemberIndex(env, read, entry);
      if found.Done? && found.value.Readable? && Refusal(found.value.index).None? && V.MenuAvailable(found.value.index)
      then AvailableCosts(read, found.value.index)
      else []
  }

  /** The prices of the members' plain documents, in the order they are kept. */
  function Costs(env: Env, read: Reader, rows: seq<Json>): seq<Cost> {
    var entries := Outcomes.Each(rows, V.HumanEntry);
    if entries.Raised? then [] else FlatMap(entries.value, MemberCosts(env, read))
  }

  function CostsOf(costs: seq<Cost>, weight: int): seq<Json> {
    if costs == [] then []
    else (if costs[0].0 == weight then [costs[0].1] else []) + CostsOf(costs[1..], weight)
  }

  /** One line of the summary: the mean and the greatest price of a weight. */
  function WeightLine(env: Env, costs: seq<Cost>): int -> Problems {
    (weight: int) =>
      var values := CostsOf(costs, weight);
      if values == [] then Done([])
      else
        var printed :- Average(env, values);
        Done([])
  }

  /** What printing the summary gives: nothing, or the error of an average. */
  function Summary(env: Env, costs: seq<Cost>): Problems {
    Each(MENU_WEIGHTS, WeightLine(env, costs))
  }

  /** What `check_top100` returns. */
  function TreeProblems(env: Env, read: Reader): Problems {
    var rows :- V.MemberRows(read);
    Then(RowsProblems(env, read, rows), Summary(env, Costs(env, read, rows)))
  }

  /* ---------- the check as it runs ---------- */

  method CheckTop100(env: Env, read: Reader) returns (r: Problems)
    ensures r == TreeProblems(env, read)
  {
    var rows :- V.MemberRows(read);
    var entries :- Outcomes.Each(rows, V.HumanEntry);
    var problems: seq<Problem> := [];
    var costs: seq<Cost> := [];
    ghost var step := MemberCheck(env, read);
    FlatMapNone(MemberCosts(env, read), entries);
    for i := 0 to |entries|
      invariant Each(entries[..i], step) == Done(problems)
      invariant costs == FlatMap(entries[..i], MemberCosts(env, read))
    {
      EachNext(entries, i, step);
      FlatMapNext(entries, i, MemberCosts(env, read));
      problems, costs :- CheckMember(env, read, entries[i], problems, costs);
    }
    assert entries[..|entries|] == entries;
    var printed :- PrintSummary(env, costs);
    assert problems + [] == problems;
    return Done(problems);
  }

  /** The lines of the summary, weight by weight. */
  method PrintSummary(env: Env, costs: seq<Cost>) returns (r: Problems)
    ensures r == Summary(env, costs)
    ensures r.Done? ==> r.value == []
  {
    var step := WeightLine(env, costs);
    for i := 0 to |MENU_WEIGHTS|
      invariant Each(MENU_WEIGHTS[..i], step) == Done([])
    {
      EachNext(MENU_WEIGHTS, i, step);
      var line :- step(MENU_WEIGHTS[i]);
      assert [] + line == line;
    }
    assert MENU_WEIGHTS[..|MENU_WEIGHTS|] == MENU_WEIGHTS;
    return Done([]);
  }

  method CheckMember(env: Env, read: Reader, entry: Json, before: seq<Problem>, kept: seq<Cost>)
    returns (r: Problems, costs: seq<Cost>)
    ensures r == After(before, MemberProblems(env, read, entry))
    ensures r.Done? ==> costs == kept + MemberCosts(env, read)(entry)
  {
    costs := kept;
    assert kept + [] == kept;
    var found :- ReadMemberIndex(env, read, entry);
    match found
    case NoIndex => r := Done(before + [MemberWithoutIndex(entry)]);
    case PageRefuses(field) => r := Done(before + [IndexThePageRefuses(entry, field)]);
    case Readable(index) =>
      if Refusal(index).None? && V.MenuAvailable(index) {
        r, costs := CheckMenu(env, read, entry, index, before, kept);
      } else {
        r := CheckIndex(env, read, entry, index, before);
      }
  }

  /** A refused member, or one whose menu is not available. */
  method CheckIndex(env: Env, read: Reader, entry: Json, index: Json, before: seq<Problem>) returns (r: Problems)
    requires Refusal(index).Some? || !V.MenuAvailable(index)
    ensures r == After(before, IndexProblems(env, read, entry, index))
  {
    var menu := At(index, "top100");
    if Refusal(index).Some? {
      return Done(before + []);
    }
    if menu.Null? {
      return Done(before + [NoTop100Entry(entry)]);
    }
    return Done(before + Unless(MenuAbsence(menu).Some?, EntryMalformed(entry)));
  }

  method CheckMenu(env: Env, read: Reader, entry: Json, index: Json, before: seq<Problem>, kept: seq<Cost>)
    returns (r: Problems, costs: seq<Cost>)
    ensures r == After(before, MenuProblems(env, read, entry, index))
    ensures r.Done? ==> costs == kept + AvailableCosts(read, index)
  {
    costs := kept;
    var rows :- UnsolvedRows(At(index, "top100"));
    ghost var lists := ListsProblems(env, read, entry, index, Unsolved(rows));
    AfterThen(before, Each(rows, RowCheck(entry)), Then(BaselineProblems(env, read, entry), lists));
    var problems, unsolved := CheckRows(entry, rows, before);
    AfterThen(problems, BaselineProblems(env, read, entry), lists);
    problems :- CheckBaseline(env, read, entry, problems);
    r, costs := CheckLists(env, read, entry, index, unsolved, problems, kept);
  }

  /** The rows of weights stated unsolved, gathered while malformed ones are reported. */
  method CheckRows(entry: Json, rows: seq<Json>, before: seq<Problem>)
    returns (problems: seq<Problem>, unsolved: set<(Val, bool)>)
    ensures Done(problems) == After(before, Each(rows, RowCheck(entry)))
    ensures unsolved == Unsolved(rows)
  {
    problems, unsolved := before, {};
    ghost var step := RowCheck(entry);
    EachEnds(before, rows, step);
    for i := 0 to |rows|
      invariant After(before, Each(rows[..i], step)) == Done(problems)
      invariant unsolved == Unsolved(rows[..i])
    {
      EachFrom(before, rows, i, step);
      assert rows[..i + 1] == rows[..i] + [rows[i]];
      if StatesUnsolved(rows[i]) {
        unsolved := unsolved + {(Canon(At(rows[i], "weight")), At(rows[i], "word").b)};
        problems := problems + [];
      } else {
        problems := problems + [RowMalformed(entry)];
      }
    }
  }

  method CheckBaseline(env: Env, read: Reader, entry: Json, before: seq<Problem>) returns (r: Problems)
    ensures r == After(before, BaselineProblems(env, read, entry))
  {
    var base :- read(V.BaselinePath(env, entry));
    if base.Null? {
      return Done(before + [BaselineWrong(entry)]);
    }
    var payload :- Subscript(base, "payload");
    var weighted :- Contains(payload, "top100");
    return Done(before + Unless(!weighted, BaselineWrong(entry)));
  }

  method CheckLists(
    env: Env, read: Reader, entry: Json, index: Json, unsolved: set<(Val, bool)>, before: seq<Problem>, kept: seq<Cost>)
    returns (r: Problems, costs: seq<Cost>)
    ensures r == After(before, ListsProblems(env, read, entry, index, unsolved))
    ensures r.Done? ==> costs == kept + MenuCosts(read, index, unsolved)
  {
    costs := kept;
    var lists :- PathLists(index, unsolved);
    AfterThen(before, ListProblems(env, read, entry, lists.0), ListProblems(env, read, entry, lists.1));
    r, costs := CheckBoth(env, read, entry, lists, before, kept);
  }

  method CheckBoth(env: Env, read: Reader, entry: Json, lists: (PathList, PathList), before: seq<Problem>, kept: seq<Cost>)
    returns (r: Problems, costs: seq<Cost>)
    ensures r == Then(After(before, ListProblems(env, read, entry, lists.0)), ListProblems(env, read, entry, lists.1))
    ensures r.Done? ==> costs == kept + ListsCosts(read, lists)
  {
    ghost var (a, b) := (ListCosts(read, lists.0), ListCosts(read, lists.1));
    r, costs := CheckList(env, read, entry, lists.0, before, kept);
    if r.Done? {
      r, costs := CheckList(env, read, entry, lists.1, r.value, costs);
    }
    assert kept + a + b == kept + (a + b);
  }

  /** Where the loop over a list stands after its first `i` weights. */
  ghost predicate ListSoFar(
    env: Env, read: Reader, entry: Json, list: PathList, start: seq<Problem>, kept: seq<Cost>,
    i: nat, problems: seq<Problem>, costs: seq<Cost>)
    requires i <= |list.weights|
  {
    && After(start, Each(list.weights[..i], WeightCheck(env, read, entry, list))) == Done(problems)
    && costs == kept + FlatMap(list.weights[..i], KeptCosts(read, list))
  }

  lemma ListStarts(env: Env, read: Reader, entry: Json, list: PathList, start: seq<Problem>, kept: seq<Cost>)
    ensures ListSoFar(env, read, entry, list, start, kept, 0, start, kept)
  {
    EachEnds(start, list.weights, WeightCheck(env, read, entry, list));
    FlatMapNone(KeptCosts(read, list), list.weights);
    assert kept + [] == kept;
  }

  lemma ListStep(
    env: Env, read: Reader, entry: Json, list: PathList, start: seq<Problem>, kept: seq<Cost>,
    i: nat, problems: seq<Problem>, costs: seq<Cost>, r: Problems, next: seq<Cost>)
    requires i < |list.weights| && ListSoFar(env, read, entry, list, start, kept, i, problems, costs)
    requires r == After(problems, WeightProblems(env, read, entry, list, list.weights[i]))
    requires r.Done? ==> next == costs + WeightCosts(read, list, list.weights[i])
    ensures if r.Done? then ListSoFar(env, read, entry, list, start, kept, i + 1, r.value, next)
            else After(start, Each(list.weights, WeightCheck(env, read, entry, list))) == r
  {
    EachFrom(start, list.weights, i, WeightCheck(env, read, entry, list));
    FlatMapNext(list.weights, i, KeptCosts(read, list));
  }

  method CheckList(env: Env, read: Reader, entry: Json, list: PathList, before: seq<Problem>, kept: seq<Cost>)
    returns (r: Problems, costs: seq<Cost>)
    ensures r == After(before, ListProblems(env, read, entry, list))
    ensures r.Done? ==> costs == kept + ListCosts(read, list)
  {
    var first := Unless(!(list.word && !list.wordOn && Truthy(list.paths)), WordPathsWithoutWord(entry));
    var problems := before + first;
    costs := kept;
    ghost var start := problems;
    AfterThen(before, Done(first), Each(list.weights, WeightCheck(env, read, entry, list)));
    ListStarts(env, read, entry, list, start, kept);
    for i := 0 to |list.weights|
      invariant ListSoFar(env, read, entry, list, start, kept, i, problems, costs)
    {
      ghost var (was, had) := (problems, costs);
      r, costs := CheckWeight(env, read, entry, list, list.weights[i], problems, costs);
      ListStep(env, read, entry, list, start, kept, i, was, had, r, costs);
      if r.Raised? {
        return;
      }
      problems := r.value;
    }
    assert list.weights[..|list.weights|] == list.weights;
    return Done(problems), costs;
  }

  method CheckWeight(
    env: Env, read: Reader, entry: Json, list: PathList, weight: int, before: seq<Problem>, kept: seq<Cost>)
    returns (r: Problems, costs: seq<Cost>)
    ensures r == After(before, WeightProblems(env, read, entry, list, weight))
    ensures r.Done? ==> costs == kept + WeightCosts(read, list, weight)
  {
    costs := kept;
    assert kept + [] == kept;
    var path :- Get(list.paths, Decimal(weight));
    if path.Null? {
      var accounted := (VNum(weight as real), list.word) in list.unsolved || (list.word && !list.wordOn);
      return Done(before + Unless(accounted, WeightMissing(entry, list.word, weight))), kept;
    }
    if !path.Str? {
      return Raised(TypeError), kept;
    }
    var there := Unless(path.s == WeightPath(env, entry, list.word, weight), AtAnotherPath(entry, list.word, weight));
    AfterThen(before, Done(there), DocumentProblems(env, read, entry, path.s, list.word, weight));
    r, costs := CheckDocument(env, read, entry, path.s, list.word, weight, before + there, kept);
  }

  method CheckDocument(
    env: Env, read: Reader, entry: Json, path: string, word: bool, weight: int, before: seq<Problem>, kept: seq<Cost>)
    returns (r: Problems, costs: seq<Cost>)
    ensures r == After(before, DocumentProblems(env, read, entry, path, word, weight))
    ensures r.Done? ==> costs == kept + DocumentCosts(read, path, word, weight)
  {
    costs := kept;
    assert kept + [] == kept;
    var document :- read(path);
    if document.Null? {
      return Done(before + [NotPublished(entry, path)]), kept;
    }
    var p :- Subscript(document, "payload");
    var hits := WalkInto(env, p, path, []);
    assert hits == Hits(env, p, path);
    var stated :- StatedWeight(p);
    var found := HitProblems(hits);
    found := found + Unless(PyEq(stated, Int(weight)), WrongWeight(entry, path));
    found := found + Unless(Has(p, "evidence") == word, WrongEvidence(entry, path));
    var price :- PriceAgrees(env, p);
    found := found + Unless(price, WrongPrice(entry, path));
    var limit :- LimitAgrees(p, weight);
    found := found + Unless(limit, WrongLimit(entry, path));
    found := found + Unless(!V.HasPrivateKey(p), PrivateKey(entry, path));
    var counted :- Counted(p);
    if !word {
      costs := kept + [(weight, At(p, "expected_points_cost"))];
    }
    return Done(before + found), costs;
  }
}
