/** What a clean Top 100 check means, said without the check; and when all four checks pass. */
module Top100Meaning {
  import opened Outcomes
  import opened Decimals
  import opened Json
  import opened AdviceIndex
  import opened Walk
  import opened Pricing
  import opened Top100
  import RefusedIndex
  import V = Variants
  import M = VariantsMeaning

  /** The moves and the status can be counted. */
  ghost predicate Countable(p: Json) {
    && Moves(p).Done?
    && (forall move | move in Moves(p).value :: move.Obj? && Hashable(At(move, "reason_code")))
    && Hashable(At(p, "solver_status"))
  }

  /** The last stated limit names the weight. */
  ghost predicate LimitIsStated(p: Json, weight: int) {
    var limits := At(p, "stated_limits");
    || (limits.Arr? && limits.items != []
        && exists text :: limits.items[|limits.items| - 1] == Str(text) && StatesLimit(text, weight))
    || (limits.Str? && limits.s != "" && StatesLimit(limits.s[|limits.s| - 1..], weight))
  }

  /** A weighted document: its weight, the word where there is one, a price that agrees, the
      limit the page shows, and nothing the page must not. */
  ghost predicate DocumentIsWeighted(env: Env, p: Json, word: bool, weight: int) {
    && p.Obj?
    && At(p, "top100").Obj? && Canon(At(At(p, "top100"), "weight")) == VNum(weight as real)
    && (Has(p, "evidence") <==> word)
    && PriceIsRight(env, p)
    && LimitIsStated(p, weight)
    && !V.HasPrivateKey(p)
    && Countable(p)
    && CleanThroughout(env, p)
  }

  /** A weight of a list is its document at its one path, or its absence is accounted for. */
  ghost predicate WeightIsBacked(env: Env, read: Reader, entry: Json, list: PathList, weight: int) {
    var path := At(list.paths, Decimal(weight));
    if path.Null? then (VNum(weight as real), list.word) in list.unsolved || (list.word && !list.wordOn)
    else
      && path == Str(WeightPath(env, entry, list.word, weight))
      && M.Holds(read, WeightPath(env, entry, list.word, weight))
      && var document := read(WeightPath(env, entry, list.word, weight)).value;
      && Has(document, "payload")
      && DocumentIsWeighted(env, At(document, "payload"), list.word, weight)
  }

  ghost predicate ListIsBacked(env: Env, read: Reader, entry: Json, list: PathList) {
    && list.paths.Obj?
    && (list.word && !list.wordOn ==> list.paths.fields == [])
    && forall weight | weight in list.weights :: WeightIsBacked(env, read, entry, list, weight)
  }

  /** The one-week plan is there and carries no weight. */
  ghost predicate BaselineIsPlain(env: Env, read: Reader, entry: Json) {
    && M.Holds(read, V.BaselinePath(env, entry))
    && Has(read(V.BaselinePath(env, entry)).value, "payload")
    && Contains(At(read(V.BaselinePath(env, entry)).value, "payload"), "top100") == Done(false)
  }

  ghost predicate MenuIsBacked(env: Env, read: Reader, entry: Json, index: Json) {
    var menu := At(index, "top100");
    && UnsolvedRows(menu).Done?
    && (forall row | row in UnsolvedRows(menu).value :: StatesUnsolved(row))
    && BaselineIsPlain(env, read, entry)
    && WordOn(index).Done?
    && Has(menu, "paths") && Has(menu, "word_paths")
    && var (wordOn, unsolved) := (WordOn(index).value, Unsolved(UnsolvedRows(menu).value));
    && ListIsBacked(env, read, entry, PathList(MENU_WEIGHTS, false, wordOn, At(menu, "paths"), unsolved))
    && ListIsBacked(env, read, entry, PathList(MENU_WEIGHTS, true, wordOn, At(menu, "word_paths"), unsolved))
  }

  /** A stated refusal, a menu stated absent, or a menu backed by its documents. */
  ghost predicate IndexIsBacked(env: Env, read: Reader, entry: Json, index: Json) {
    || Refusal(index).Some?
    || (if V.MenuAvailable(index) then MenuIsBacked(env, read, entry, index)
        else MenuAbsence(At(index, "top100")).Some?)
  }

  ghost predicate MemberIsBacked(env: Env, read: Reader, entry: Json) {
    M.PageAccepts(env, read, entry) && IndexIsBacked(env, read, entry, M.IndexOf(env, read, entry))
  }

  ghost predicate RowsAreBacked(env: Env, read: Reader, rows: seq<Json>) {
    forall m | m in rows ::
      m.Obj? && (At(m, "member_kind") == Str("human") ==> Has(m, "entry_id") && MemberIsBacked(env, read, At(m, "entry_id")))
  }

  /** Every human member's Top 100 menu is backed, and the summary of their prices can be printed. */
  ghost predicate TreeIsBacked(env: Env, read: Reader) {
    && M.MembersAreListed(read)
    && RowsAreBacked(env, read, M.Listed(read))
    && CostsAverage(env, Costs(env, read, M.Listed(read)))
  }

  /** The prices kept under each weight have a mean and a greatest that can be printed. */
  ghost predicate CostsAverage(env: Env, costs: seq<Cost>) {
    forall weight | weight in MENU_WEIGHTS && CostsOf(costs, weight) != [] :: Averageable(env, CostsOf(costs, weight))
  }

  // ---- one document ----

  lemma CountedMeaning(p: Json)
    ensures Counted(p).Done? <==> Countable(p)
  {
    if Moves(p).Done? {
      EachMembers(Moves(p).value, MoveReason);
    }
  }

  lemma LimitMeaning(p: Json, weight: int)
    ensures LimitAgrees(p, weight) == Done(true) <==> LimitIsStated(p, weight)
  {
    var limits := At(p, "stated_limits");
    if limits.Arr? && limits.items != [] && limits.items[|limits.items| - 1].Str? {
      var text := limits.items[|limits.items| - 1].s;
      assert limits.items[|limits.items| - 1] == Str(text);
    }
  }

  lemma StatedWeightMeaning(p: Json, weight: int)
    requires weight in MENU_WEIGHTS
    ensures (StatedWeight(p).Done? && PyEq(StatedWeight(p).value, Int(weight)))
       <==> p.Obj? && At(p, "top100").Obj? && Canon(At(At(p, "top100"), "weight")) == VNum(weight as real)
  {
    if p.Obj? && At(p, "top100") == Obj([]) {
      assert At(Obj([]), "weight") == Null;
    }
  }

  lemma PayloadMeaning(env: Env, entry: Json, path: string, p: Json, word: bool, weight: int)
    requires weight in MENU_WEIGHTS
    ensures PayloadProblems(env, entry, path, p, word, weight) == Done([]) <==> DocumentIsWeighted(env, p, word, weight)
  {
    SilentExactlyWhenClean(env, p, path);
    StatedWeightMeaning(p, weight);
    LimitMeaning(p, weight);
    CountedMeaning(p);
    PriceMeaning(env, p);
    if PayloadProblems(env, entry, path, p, word, weight).Done? {
      var hits := HitProblems(Hits(env, p, path));
      var (right, limit) := (PyEq(StatedWeight(p).value, Int(weight)), LimitAgrees(p, weight).value);
      assert hits == [] <==> Hits(env, p, path) == [];
      FivePasses(hits, right, Has(p, "evidence") == word, PriceAgrees(env, p).value, limit, !V.HasPrivateKey(p), entry, path);
    }
  }

  lemma FivePasses(hits: seq<Problem>, a: bool, b: bool, c: bool, d: bool, e: bool, entry: Json, path: string)
    ensures hits
            + Unless(a, WrongWeight(entry, path)) + Unless(b, WrongEvidence(entry, path))
            + Unless(c, WrongPrice(entry, path)) + Unless(d, WrongLimit(entry, path))
            + Unless(e, PrivateKey(entry, path)) == []
       <==> hits == [] && a && b && c && d && e
  {
    var x := hits + Unless(a, WrongWeight(entry, path));
    var y := x + Unless(b, WrongEvidence(entry, path));
    var z := y + Unless(c, WrongPrice(entry, path));
    var w := z + Unless(d, WrongLimit(entry, path));
    UnlessNothing(hits, a, WrongWeight(entry, path));
    UnlessNothing(x, b, WrongEvidence(entry, path));
    UnlessNothing(y, c, WrongPrice(entry, path));
    UnlessNothing(z, d, WrongLimit(entry, path));
    UnlessNothing(w, e, PrivateKey(entry, path));
  }

  lemma DocumentMeaning(env: Env, read: Reader, entry: Json, path: string, word: bool, weight: int)
    requires weight in MENU_WEIGHTS
    ensures DocumentProblems(env, read, entry, path, word, weight) == Done([])
       <==> M.Holds(read, path) && Has(read(path).value, "payload")
            && DocumentIsWeighted(env, At(read(path).value, "payload"), word, weight)
  {
    if M.Holds(read, path) && Has(read(path).value, "payload") {
      PayloadMeaning(env, entry, path, At(read(path).value, "payload"), word, weight);
    }
  }

  // ---- one list, one menu ----

  lemma WeightMeaning(env: Env, read: Reader, entry: Json, list: PathList, weight: int)
    requires weight in MENU_WEIGHTS && list.paths.Obj?
    ensures WeightProblems(env, read, entry, list, weight) == Done([]) <==> WeightIsBacked(env, read, entry, list, weight)
  {
    var path := At(list.paths, Decimal(weight));
    if path.Str? {
      var there: Problems := Done(Unless(path.s == WeightPath(env, entry, list.word, weight), AtAnotherPath(entry, list.word, weight)));
      ThenNothing(there, DocumentProblems(env, read, entry, path.s, list.word, weight));
      DocumentMeaning(env, read, entry, path.s, list.word, weight);
    }
  }

  lemma ListMeaning(env: Env, read: Reader, entry: Json, list: PathList)
    requires list.weights == MENU_WEIGHTS
    ensures ListProblems(env, read, entry, list) == Done([]) <==> ListIsBacked(env, read, entry, list)
  {
    var first: Problems := Done(Unless(!(list.word && !list.wordOn && Truthy(list.paths)), WordPathsWithoutWord(entry)));
    ThenNothing(first, Each(list.weights, WeightCheck(env, read, entry, list)));
    WeightsMeaning(env, read, entry, list);
  }

  /** The weights of a list, all of them; paths that are no object cannot be looked up. */
  lemma WeightsMeaning(env: Env, read: Reader, entry: Json, list: PathList)
    requires list.weights == MENU_WEIGHTS
    ensures Each(list.weights, WeightCheck(env, read, entry, list)) == Done([])
       <==> list.paths.Obj? && forall weight | weight in list.weights :: WeightIsBacked(env, read, entry, list, weight)
  {
    var step := WeightCheck(env, read, entry, list);
    EachFindsNothing(list.weights, step);
    if list.paths.Obj? {
      forall weight | weight in list.weights
        ensures step(weight) == Done([]) <==> WeightIsBacked(env, read, entry, list, weight)
      {
        WeightMeaning(env, read, entry, list, weight);
      }
    } else {
      assert list.weights[0] in list.weights;
      assert step(list.weights[0]).Raised?;
    }
  }

  lemma BaselineMeaning(env: Env, read: Reader, entry: Json)
    ensures BaselineProblems(env, read, entry) == Done([]) <==> BaselineIsPlain(env, read, entry)
  {
  }

  lemma RowsStated(entry: Json, rows: seq<Json>)
    ensures Each(rows, RowCheck(entry)) == Done([]) <==> forall row | row in rows :: StatesUnsolved(row)
  {
    EachFindsNothing(rows, RowCheck(entry));
  }

  lemma ListsMeaning(env: Env, read: Reader, entry: Json, index: Json, unsolved: set<(Val, bool)>)
    ensures ListsProblems(env, read, entry, index, unsolved) == Done([])
       <==> && WordOn(index).Done?
            && Has(At(index, "top100"), "paths") && Has(At(index, "top100"), "word_paths")
            && ListIsBacked(env, read, entry, PathList(MENU_WEIGHTS, false, WordOn(index).value, At(At(index, "top100"), "paths"), unsolved))
            && ListIsBacked(env, read, entry, PathList(MENU_WEIGHTS, true, WordOn(index).value, At(At(index, "top100"), "word_paths"), unsolved))
  {
    BothLists(index, unsolved);
    if PathLists(index, unsolved).Done? {
      BothMeaning(env, read, entry, PathLists(index, unsolved).value.0, PathLists(index, unsolved).value.1);
    }
  }

  lemma BothLists(index: Json, unsolved: set<(Val, bool)>)
    ensures var (menu, lists) := (At(index, "top100"), PathLists(index, unsolved));
            && (lists.Done? <==> WordOn(index).Done? && Has(menu, "paths") && Has(menu, "word_paths"))
            && (lists.Done? ==>
                  && lists.value.0 == PathList(MENU_WEIGHTS, false, WordOn(index).value, At(menu, "paths"), unsolved)
                  && lists.value.1 == PathList(MENU_WEIGHTS, true, WordOn(index).value, At(menu, "word_paths"), unsolved))
  {
  }

  lemma BothMeaning(env: Env, read: Reader, entry: Json, plain: PathList, worded: PathList)
    requires plain.weights == MENU_WEIGHTS && worded.weights == MENU_WEIGHTS
    ensures Then(ListProblems(env, read, entry, plain), ListProblems(env, read, entry, worded)) == Done([])
       <==> ListIsBacked(env, read, entry, plain) && ListIsBacked(env, read, entry, worded)
  {
    ThenNothing(ListProblems(env, read, entry, plain), ListProblems(env, read, entry, worded));
    ListMeaning(env, read, entry, plain);
    ListMeaning(env, read, entry, worded);
  }

  lemma MenuMeaning(env: Env, read: Reader, entry: Json, index: Json)
    ensures MenuProblems(env, read, entry, index) == Done([]) <==> MenuIsBacked(env, read, entry, index)
  {
    if UnsolvedRows(At(index, "top100")).Done? {
      var rows := UnsolvedRows(At(index, "top100")).value;
      var lists := ListsProblems(env, read, entry, index, Unsolved(rows));
      ThenNothing(BaselineProblems(env, read, entry), lists);
      ThenNothing(Each(rows, RowCheck(entry)), Then(BaselineProblems(env, read, entry), lists));
      RowsStated(entry, rows);
      BaselineMeaning(env, read, entry);
      ListsMeaning(env, read, entry, index, Unsolved(rows));
    }
  }

  lemma IndexMeaning(env: Env, read: Reader, entry: Json, index: Json)
    ensures IndexProblems(env, read, entry, index) == Done([]) <==> IndexIsBacked(env, read, entry, index)
  {
    MenuMeaning(env, read, entry, index);
  }

  lemma MemberMeaning(env: Env, read: Reader, entry: Json)
    ensures MemberProblems(env, read, entry) == Done([]) <==> MemberIsBacked(env, read, entry)
  {
    if M.PageAccepts(env, read, entry) {
      IndexMeaning(env, read, entry, M.IndexOf(env, read, entry));
    }
  }

  lemma EveryMember(env: Env, read: Reader, entries: seq<Json>)
    ensures Each(entries, MemberCheck(env, read)) == Done([]) <==> forall entry | entry in entries :: MemberIsBacked(env, read, entry)
  {
    EachFindsNothing(entries, MemberCheck(env, read));
    forall entry
      ensures MemberCheck(env, read)(entry) == Done([]) <==> MemberIsBacked(env, read, entry)
    {
      MemberMeaning(env, read, entry);
    }
  }

  lemma RowsBacked(env: Env, read: Reader, rows: seq<Json>)
    ensures RowsProblems(env, read, rows) == Done([]) <==> RowsAreBacked(env, read, rows)
  {
    M.HumansMeaning(rows);
    if Outcomes.Each(rows, V.HumanEntry).Done? {
      var entries := Outcomes.Each(rows, V.HumanEntry).value;
      EveryMember(env, read, entries);
      if forall entry | entry in entries :: MemberIsBacked(env, read, entry) {
        forall m | m in rows && At(m, "member_kind") == Str("human")
          ensures MemberIsBacked(env, read, At(m, "entry_id"))
        {
          assert At(m, "entry_id") in entries;
        }
      }
    }
  }

  /** The Top 100 check runs without error and finds nothing exactly on the backed trees. */
  lemma SilentExactlyOnBackedTrees(env: Env, read: Reader)
    ensures TreeProblems(env, read) == Done([]) <==> TreeIsBacked(env, read)
  {
    M.RowsRead(read);
    if V.MemberRows(read).Done? {
      var rows := V.MemberRows(read).value;
      RowsBacked(env, read, rows);
      SummaryMeaning(env, Costs(env, read, rows));
      ThenNothing(RowsProblems(env, read, rows), Summary(env, Costs(env, read, rows)));
    }
  }

  /** The summary is printed exactly when every weight's prices can be averaged. */
  lemma SummaryMeaning(env: Env, costs: seq<Cost>)
    ensures Summary(env, costs) == Done([]) <==> CostsAverage(env, costs)
  {
    var step := WeightLine(env, costs);
    EachFindsNothing(MENU_WEIGHTS, step);
    forall weight | CostsOf(costs, weight) != []
      ensures step(weight) == Done([]) <==> Averageable(env, CostsOf(costs, weight))
    {
      AverageMeaning(env, CostsOf(costs, weight));
    }
  }

  /** A member whose index is the one produced for a refused member adds no finding. */
  lemma RefusedMemberAddsNothing(env: Env, read: Reader, t: RefusedIndex.Task, reason: string)
    requires RefusedIndex.ValidTask(t)
    requires read(AdvicePath(env, t.entry, "index.json")).Done?
    requires At(read(AdvicePath(env, t.entry, "index.json")).value, "payload") == RefusedIndex.Produce(t, reason)
    ensures MemberProblems(env, read, t.entry) == Done([])
  {
    RefusedIndex.ProducedRoundTrip(env, t, reason);
  }
}
