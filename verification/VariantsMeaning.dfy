/** What a clean variants check means, said without the check: which documents the tree holds
    and what they say. The check is silent exactly on those trees. */
module VariantsMeaning {
  import opened Outcomes
  import opened Lists
  import opened Sorting
  import opened Json
  import opened AdviceIndex
  import opened Walk
  import opened Pricing
  import opened Variants
  import RefusedIndex

  /** The tree holds a document at this path. */
  predicate Holds(read: Reader, path: string) {
    read(path).Done? && !read(path).value.Null?
  }

  /** The tree was read at this path and holds nothing there. */
  predicate Lacks(read: Reader, path: string) {
    read(path) == Done(Null)
  }

  ghost predicate NamesFifteen(block: Json) {
    && At(block, "held").Arr?
    && (forall p | p in At(block, "held").items :: Hashable(p))
    && |DifferentPlayers(At(block, "held").items)| == 15
  }

  ghost predicate InputsAgree(entry: Json, index: Json, payload: Json) {
    && PyEq(At(payload, "source_snapshot_id"), At(index, "source_snapshot_id"))
    && PyEq(At(payload, "chips"), At(index, "chip_states"))
    && (Has(payload, "entry") ==> At(payload, "entry").Obj?)
    && PyEq(At(At(payload, "entry"), "entry_id"), entry)
    && PyEq(At(payload, "league_id"), At(index, "league_id"))
    && PyEq(At(payload, "gameweek"), At(index, "gameweek"))
    && PyEq(At(payload, "season"), At(index, "season"))
  }

  /** The member's squad document matches the index, and no baseline is published. */
  ghost predicate DeviceMenuIsBacked(env: Env, read: Reader, entry: Json, index: Json) {
    && Holds(read, SquadPath(env, entry))
    && Lacks(read, BaselinePath(env, entry))
    && var payload := At(read(SquadPath(env, entry)).value, "payload");
    && NamesFifteen(At(payload, "device_plan"))
    && InputsAgree(entry, index, payload)
  }

  ghost predicate PureWindowsAreThere(env: Env, read: Reader, entry: Json, index: Json) {
    && (exists w | w in WindowsFor(index, PURE) :: Canon(w) == VNum(1.0))
    && (forall w | w in WindowsFor(index, PURE) :: Holds(read, WindowPath(env, entry, w)))
  }

  ghost predicate ChipsAreThere(env: Env, read: Reader, entry: Json, index: Json) {
    ChipsAvailable(index) ==>
      && var paths := At(At(index, "chips"), "paths");
      && paths.Obj? && paths.fields != []
      && forall e | e in paths.fields :: ChipIsThere(env, read, entry, e)
  }

  /** The chip is named at the one path the page builds for it, and its document is there. */
  ghost predicate ChipIsThere(env: Env, read: Reader, entry: Json, e: Entry) {
    e.value == Str(ChipDocumentPath(env, entry, e.key)) && Holds(read, ChipDocumentPath(env, entry, e.key))
  }

  /** A window the index names for a strategy; the one-week window always counts as named. */
  ghost predicate Names(index: Json, strategy: Json, window: Json) {
    || Canon(window) == VNum(1.0)
    || (strategy.Str? && exists v | v in WindowsFor(index, strategy.s) :: Canon(v) == Canon(window))
  }

  /** A rival strategy the index offers against its default rival. */
  predicate Offers(index: Json, strategy: Json) {
    && !At(index, "default_rival_entry_id").Null?
    && At(index, "strategies").Arr? && strategy in At(index, "strategies").items
    && strategy != Str(PURE)
  }

  /** A rival strategy's window is on the menu, or the index states why it is not. */
  ghost predicate Covered(index: Json, strategy: Json, w: Json) {
    Names(index, strategy, w) || Stated(index, strategy, w)
  }

  ghost predicate LongerWindowsAreAccounted(index: Json) {
    forall strategy, w | Offers(index, strategy) && w in WindowsFor(index, PURE) :: Covered(index, strategy, w)
  }

  function KeyOf(strategy: Json, w: Json, rival: Json, weight: int): Key {
    (Canon(strategy), Canon(w), Canon(rival), VNum(weight as real))
  }

  /** The key a row of the menu names its document under. */
  function KeyAt(d: Json): Key {
    (Canon(At(d, "strategy")), Canon(At(d, "window")), Canon(At(d, "rival_entry_id")), Canon(At(d, "weight")))
  }

  function TargetAt(d: Json): Target {
    Target(At(d, "path"), At(d, "strategy"), At(d, "window"), At(d, "rival_entry_id"), At(d, "weight"))
  }

  predicate KeyIsReadable(d: Json) {
    && Has(d, "strategy") && Has(d, "window") && Has(d, "rival_entry_id") && Has(d, "weight")
    && Hashable(At(d, "strategy")) && Hashable(At(d, "window"))
    && Hashable(At(d, "rival_entry_id")) && Hashable(At(d, "weight"))
  }

  ghost predicate DocumentNamed(documents: seq<Json>, strategy: Json, window: Json, rival: Json, weight: int) {
    exists d | d in documents :: KeyOf(strategy, window, rival, weight) == KeyAt(d)
  }

  ghost predicate AllWeightsNamed(documents: seq<Json>, strategy: Json, window: Json, rival: Json) {
    forall k | k in MENU_WEIGHTS :: DocumentNamed(documents, strategy, window, rival, k)
  }

  /** Every weight of every longer pure window is named. */
  ghost predicate PureIsNamed(index: Json, documents: seq<Json>) {
    forall w | w in WindowsFor(index, PURE) && Canon(w) != VNum(1.0) :: AllWeightsNamed(documents, Str(PURE), w, Null)
  }

  /** Every weight of every window of a rival strategy not stated unavailable is named. */
  ghost predicate StrategyIsNamed(index: Json, documents: seq<Json>, strategy: Json) {
    forall w | w in RivalWindows(index, strategy) && !Stated(index, strategy, w) ::
      AllWeightsNamed(documents, strategy, w, At(index, "default_rival_entry_id"))
  }

  /** Every weight of every longer pure window, and of every rival strategy, is named. */
  ghost predicate WeightsAreNamed(index: Json, documents: seq<Json>) {
    MenuAvailable(index) ==>
      && PureIsNamed(index, documents)
      && (forall strategy | Offers(index, strategy) :: StrategyIsNamed(index, documents, strategy))
  }

  /** The document of a row is there, is the one the row names, and passes every check. */
  ghost predicate RowIsBacked(env: Env, read: Reader, t: Target) {
    && t.path.Str?
    && Holds(read, t.path.s)
    && PayloadIsRight(env, t, At(read(t.path.s).value, "payload"))
  }


  /** The payload is the row's own (mode, window, rival, weight), with its price, its weeks and
      nothing the page must not show. */
  ghost predicate PayloadIsRight(env: Env, t: Target, p: Json) {
    && p.Obj?
    && Hashable(At(p, "solver_status"))
    && Has(p, "mode") && Canon(At(p, "mode")) == Canon(t.strategy)
    && Has(p, "window") && Canon(At(p, "window")) == Canon(t.window)
    && Canon(At(p, "rival_entry_id")) == Canon(t.rival)
    && PublishedWeight(p).Done? && Canon(PublishedWeight(p).value) == Canon(t.weight)
    && NumberOrBool(t.window)
    && (Less(Int(1), t.window) ==> HasPlanWeeks(p, t.window))
    && PriceIsRight(env, p)
    && (Truthy(t.weight) ==> At(p, "optimality_gap").Null?)
    && !HasPrivateKey(p)
    && CleanThroughout(env, p)
  }

  /** As many plan weeks as the window has. */
  predicate HasPlanWeeks(p: Json, window: Json) {
    var weeks := At(p, "plan_weeks");
    Truthy(weeks) && Length(weeks).Done? && PyEq(window, Int(Length(weeks).value))
  }

  ghost predicate DocumentsAreBacked(env: Env, read: Reader, index: Json) {
    Documents(index).Done? && NamesAreBacked(env, read, index, Documents(index).value)
  }

  ghost predicate MenuIsBacked(env: Env, read: Reader, entry: Json, index: Json) {
    && PureWindowsAreThere(env, read, entry, index)
    && ChipsAreThere(env, read, entry, index)
    && LongerWindowsAreAccounted(index)
    && (MenuAvailable(index) || MenuAbsence(At(index, "top100")).Some?)
    && DocumentsAreBacked(env, read, index)
  }

  /** A stated refusal, a device menu backed by its squad inputs, or a full menu backed by its
      documents. */
  ghost predicate IndexIsClean(env: Env, read: Reader, entry: Json, index: Json) {
    || Refusal(index).Some?
    || if At(index, "menu") == Str("device") then DeviceMenuIsBacked(env, read, entry, index)
       else MenuIsBacked(env, read, entry, index)
  }

  function IndexOf(env: Env, read: Reader, entry: Json): Json
    requires read(AdvicePath(env, entry, "index.json")).Done?
  {
    At(read(AdvicePath(env, entry, "index.json")).value, "payload")
  }

  predicate PageAccepts(env: Env, read: Reader, entry: Json) {
    && Holds(read, AdvicePath(env, entry, "index.json"))
    && PageRefusal(env, IndexOf(env, read, entry), entry) == None
  }

  ghost predicate MemberIsClean(env: Env, read: Reader, entry: Json) {
    PageAccepts(env, read, entry) && IndexIsClean(env, read, entry, IndexOf(env, read, entry))
  }

  ghost predicate RowsAreClean(env: Env, read: Reader, rows: seq<Json>) {
    forall m | m in rows ::
      m.Obj? && (At(m, "member_kind") == Str("human") ==> Has(m, "entry_id") && MemberIsClean(env, read, At(m, "entry_id")))
  }

  /** Every human member of the tree is clean, and the summary of their ceilings can be printed. */
  ghost predicate TreeIsClean(env: Env, read: Reader) {
    && MembersAreListed(read)
    && RowsAreClean(env, read, Listed(read))
    && CeilingsAverage(env, Ceilings(env, read, Listed(read)))
  }

  /** The rows of the members document. */
  function Listed(read: Reader): seq<Json>
    requires MembersAreListed(read)
  {
    Iterate(At(At(read("members.json").value, "payload"), "members")).value
  }

  /** The ceilings kept under each window have a mean and a greatest that can be printed. */
  ghost predicate CeilingsAverage(env: Env, ceilings: seq<Ceiling>) {
    forall window :: Under(ceilings, window) != [] ==> Averageable(env, Under(ceilings, window))
  }

  /* ---------- the phases of a full menu ---------- */

  lemma OneWeek(w: Json)
    ensures IsOne(w) <==> Canon(w) == VNum(1.0)
  {
  }

  lemma PureMeaning(env: Env, read: Reader, entry: Json, index: Json)
    ensures PureFindings(env, read, entry, index) == Done([]) <==> PureWindowsAreThere(env, read, entry, index)
  {
    var windows := WindowsFor(index, PURE);
    var first: Findings := Done(Unless(exists w | w in windows :: IsOne(w), NoOneWeekWindow(entry)));
    ThenNothing(first, Each(windows, WindowCheck(env, read, entry)));
    WindowsHeld(env, read, entry, windows);
    assert forall w :: IsOne(w) <==> Canon(w) == VNum(1.0);
  }

  lemma WindowsHeld(env: Env, read: Reader, entry: Json, windows: seq<Json>)
    ensures Each(windows, WindowCheck(env, read, entry)) == Done([])
       <==> forall w | w in windows :: Holds(read, WindowPath(env, entry, w))
  {
    var step := WindowCheck(env, read, entry);
    EachFindsNothing(windows, step);
    forall w
      ensures step(w) == Done([]) <==> Holds(read, WindowPath(env, entry, w))
    {
    }
  }

  lemma ChipMeaning(env: Env, read: Reader, entry: Json, e: Entry)
    ensures ChipCheck(env, read, entry)(e) == Done([]) <==> ChipIsThere(env, read, entry, e)
  {
  }

  lemma ChipsMeaning(env: Env, read: Reader, entry: Json, index: Json)
    ensures ChipFindings(env, read, entry, index) == Done([]) <==> ChipsAreThere(env, read, entry, index)
  {
    var paths := At(At(index, "chips"), "paths");
    if ChipsAvailable(index) && paths.Obj? && paths.fields != [] {
      var sorted := Sort(paths.fields, ByKey);
      SortMembers(paths.fields, ByKey);
      EachFindsNothing(sorted, ChipCheck(env, read, entry));
      forall e
        ensures ChipCheck(env, read, entry)(e) == Done([]) <==> ChipIsThere(env, read, entry, e)
      {
        ChipMeaning(env, read, entry, e);
      }
      assert (forall e | e in sorted :: ChipIsThere(env, read, entry, e))
        <==> (forall e | e in paths.fields :: ChipIsThere(env, read, entry, e));
    }
  }

  lemma RivalStrategyMembers(index: Json)
    ensures forall strategy :: strategy in RivalStrategies(index) <==> Offers(index, strategy)
  {
    if At(index, "strategies").Arr? {
      FilterMembers(At(index, "strategies").items, NotPure);
    }
  }

  lemma RivalWindowMembers(index: Json, strategy: Json)
    ensures forall v :: v in RivalWindows(index, strategy)
              <==> v == Int(1) || (strategy.Str? && v in WindowsFor(index, strategy.s) && NotOne(v))
  {
    if strategy.Str? {
      FilterMembers(WindowsFor(index, strategy.s), NotOne);
    }
  }

  lemma AccountedMeaning(index: Json, strategy: Json, w: Json)
    requires NotOne(w)
    ensures Accounted(index, strategy, w) <==> Names(index, strategy, w) || Stated(index, strategy, w)
  {
    RivalWindowMembers(index, strategy);
    OneWeek(w);
    if strategy.Str? && exists v | v in WindowsFor(index, strategy.s) :: Canon(v) == Canon(w) {
      var v :| v in WindowsFor(index, strategy.s) && Canon(v) == Canon(w);
      OneWeek(v);
      assert v in RivalWindows(index, strategy);
    }
    if exists v | v in RivalWindows(index, strategy) :: Canon(v) == Canon(w) {
      var v :| v in RivalWindows(index, strategy) && Canon(v) == Canon(w);
      OneWeek(v);
    }
  }

  lemma StrategyMeaning(entry: Json, index: Json, strategy: Json)
    ensures StrategyCheck(entry, index)(strategy) == Done([])
       <==> forall w | w in WindowsFor(index, PURE) :: Covered(index, strategy, w)
  {
    LongerSteps(entry, index, strategy);
    FilterMembers(WindowsFor(index, PURE), NotOne);
    forall w | w in WindowsFor(index, PURE)
      ensures Covered(index, strategy, w) <==> (NotOne(w) ==> Accounted(index, strategy, w))
    {
      CoveredMeaning(index, strategy, w);
    }
  }

  lemma LongerSteps(entry: Json, index: Json, strategy: Json)
    ensures StrategyCheck(entry, index)(strategy) == Done([])
       <==> forall w | w in LongerWindows(index) :: Accounted(index, strategy, w)
  {
    var step := LongerWindowCheck(entry, index, strategy);
    EachFindsNothing(LongerWindows(index), step);
    assert forall w :: step(w) == Done([]) <==> Accounted(index, strategy, w);
  }

  /** The one-week window is always covered; a longer one is when it is accounted for. */
  lemma CoveredMeaning(index: Json, strategy: Json, w: Json)
    ensures Covered(index, strategy, w) <==> (NotOne(w) ==> Accounted(index, strategy, w))
  {
    OneWeek(w);
    if NotOne(w) {
      AccountedMeaning(index, strategy, w);
    }
  }

  lemma LongerMeaning(entry: Json, index: Json)
    ensures Each(RivalStrategies(index), StrategyCheck(entry, index)) == Done([]) <==> LongerWindowsAreAccounted(index)
  {
    RivalStrategyMembers(index);
    EachFindsNothing(RivalStrategies(index), StrategyCheck(entry, index));
    forall strategy
      ensures StrategyCheck(entry, index)(strategy) == Done([])
         <==> forall w | w in WindowsFor(index, PURE) :: Covered(index, strategy, w)
    {
      StrategyMeaning(entry, index, strategy);
    }
  }

  /* ---------- the documents ---------- */

  lemma PlanWeeksMeaning(p: Json, window: Json)
    ensures PlanWeeksAgree(p, window) == Done(true)
       <==> NumberOrBool(window) && (Less(Int(1), window) ==> HasPlanWeeks(p, window))
  {
    if Less(Int(1), window) && !Truthy(At(p, "plan_weeks")) {
      assert !PyEq(window, Int(0));
    }
  }

  lemma PayloadMeaning(env: Env, entry: Json, t: Target, path: string, p: Json)
    ensures PayloadFindings(env, entry, t, path, p) == Done([]) <==> PayloadIsRight(env, t, p)
  {
    SilentExactlyWhenClean(env, p, path);
    PlanWeeksMeaning(p, t.window);
    PriceMeaning(env, p);
    if PayloadFindings(env, entry, t, path, p).Done? {
      var hits := HitFindings(Hits(env, p, path));
      assert hits == [] <==> Hits(env, p, path) == [];
      var same := SameIdentity(t, At(p, "mode"), At(p, "window"), At(p, "rival_entry_id"), PublishedWeight(p).value);
      var weeks := PlanWeeksAgree(p, t.window).value;
      var price := PriceAgrees(env, p).value;
      var gap := !(Truthy(t.weight) && !At(p, "optimality_gap").Null?);
      var a := hits + Unless(same, IdentityMismatch(entry, path));
      var b := a + Unless(price, WrongPrice(entry, path));
      var c := b + Unless(weeks, WrongPlanWeeks(entry, path));
      var d := c + Unless(gap, WeightedGap(entry, path));
      UnlessNothing(hits, same, IdentityMismatch(entry, path));
      UnlessNothing(a, price, WrongPrice(entry, path));
      UnlessNothing(b, weeks, WrongPlanWeeks(entry, path));
      UnlessNothing(c, gap, WeightedGap(entry, path));
      UnlessNothing(d, !HasPrivateKey(p), PrivateKey(entry, path));
    }
  }

  lemma RowMeaning(env: Env, read: Reader, entry: Json, t: Target)
    ensures TargetFindings(env, read, entry, t) == Done([]) <==> RowIsBacked(env, read, t)
  {
    if t.path.Str? && Holds(read, t.path.s) {
      var document := read(t.path.s).value;
      PayloadMeaning(env, entry, t, t.path.s, At(document, "payload"));
      AbsentIsNull(document, "payload");
    }
  }

  lemma AbsentIsNull(j: Json, key: string)
    ensures !Has(j, key) ==> At(j, key) == Null
  {
    if j.Obj? {
      CanonFieldsAgree(j.fields);
    }
  }

  /** A list of keys that all have a document. */
  ghost predicate AllGot(keys: seq<Key>, got: seq<Key>) {
    forall key | key in keys :: key in got
  }

  /** Every weight of one window has a document. */
  ghost predicate AllWeightsGot(strategy: Json, w: Json, rival: Json, got: seq<Key>) {
    forall k | k in MENU_WEIGHTS :: KeyOf(strategy, w, rival, k) in got
  }

  lemma WeightKeysGot(strategy: Json, rival: Json, w: Json, got: seq<Key>)
    ensures AllGot(WeightKeys(strategy, rival)(w), got)
       <==> AllWeightsGot(strategy, w, rival, got)
  {
    var keys := WeightKeys(strategy, rival)(w);
    assert forall i | 0 <= i < |MENU_WEIGHTS| :: keys[i] == KeyOf(strategy, w, rival, MENU_WEIGHTS[i]);
    if AllGot(keys, got) {
      forall k | k in MENU_WEIGHTS
        ensures KeyOf(strategy, w, rival, k) in got
      {
        var i :| 0 <= i < |MENU_WEIGHTS| && MENU_WEIGHTS[i] == k;
        assert keys[i] in keys;
      }
    }
  }

  lemma {:induction false} KeysGot(strategy: Json, rival: Json, windows: seq<Json>, got: seq<Key>)
    ensures AllGot(FlatMap(windows, WeightKeys(strategy, rival)), got)
       <==> forall w | w in windows :: AllWeightsGot(strategy, w, rival, got)
  {
    if windows != [] {
      var first, rest := WeightKeys(strategy, rival)(windows[0]), FlatMap(windows[1..], WeightKeys(strategy, rival));
      KeysGot(strategy, rival, windows[1..], got);
      WeightKeysGot(strategy, rival, windows[0], got);
      AllGotBoth(first, rest, got);
      assert forall w :: w in windows <==> w == windows[0] || w in windows[1..];
    }
  }

  lemma AllGotBoth(a: seq<Key>, b: seq<Key>, got: seq<Key>)
    ensures AllGot(a + b, got) <==> AllGot(a, got) && AllGot(b, got)
  {
    assert forall key :: key in a + b <==> key in a || key in b;
  }

  lemma PureKeysNamed(index: Json, got: seq<Key>)
    ensures AllGot(FlatMap(LongerWindows(index), WeightKeys(Str(PURE), Null)), got)
       <==> forall w | w in WindowsFor(index, PURE) && Canon(w) != VNum(1.0) :: AllWeightsGot(Str(PURE), w, Null, got)
  {
    KeysGot(Str(PURE), Null, LongerWindows(index), got);
    FilterMembers(WindowsFor(index, PURE), NotOne);
    forall w
      ensures w in LongerWindows(index) <==> w in WindowsFor(index, PURE) && Canon(w) != VNum(1.0)
    {
      OneWeek(w);
    }
  }

  lemma RivalKeysNamed(index: Json, strategy: Json, got: seq<Key>)
    ensures AllGot(RivalKeys(index)(strategy), got)
       <==> forall w | w in RivalWindows(index, strategy) && !Stated(index, strategy, w) ::
              AllWeightsGot(strategy, w, At(index, "default_rival_entry_id"), got)
  {
    var windows := Filter(RivalWindows(index, strategy), Unstated(index, strategy));
    FilterMembers(RivalWindows(index, strategy), Unstated(index, strategy));
    KeysGot(strategy, At(index, "default_rival_entry_id"), windows, got);
  }

  lemma {:induction false} AllRivalKeysNamed(index: Json, strategies: seq<Json>, got: seq<Key>)
    ensures AllGot(FlatMap(strategies, RivalKeys(index)), got)
       <==> forall strategy | strategy in strategies :: AllGot(RivalKeys(index)(strategy), got)
  {
    if strategies != [] {
      AllRivalKeysNamed(index, strategies[1..], got);
      AllGotBoth(RivalKeys(index)(strategies[0]), FlatMap(strategies[1..], RivalKeys(index)), got);
      assert forall s :: s in strategies <==> s == strategies[0] || s in strategies[1..];
    }
  }

  lemma MissingMember(env: Env, expected: seq<Key>, got: seq<Key>, key: Key)
    ensures key in MissingKeys(env, expected, got) <==> key in expected && key !in got
  {
    SortedDistinctMembers(expected, NotAmong(got), ByText(env));
    assert NotAmong(got)(key) <==> key !in got;
    assert key in Sort(Dedupe(Filter(expected, NotAmong(got))), ByText(env)) <==> key in expected && NotAmong(got)(key);
  }

  /** Nothing is reported missing exactly when every expected key has a document. */
  lemma MissingMeaning(env: Env, entry: Json, expected: seq<Key>, got: seq<Key>)
    ensures MissingFindings(env, entry, expected, got) == [] <==> AllGot(expected, got)
  {
    var keys := MissingKeys(env, expected, got);
    assert |MissingFindings(env, entry, expected, got)| == |keys|;
    forall key
      ensures key in keys <==> key in expected && key !in got
    {
      MissingMember(env, expected, got, key);
    }
    assert keys != [] ==> keys[0] in keys;
  }

  /** The keys in hand are the keys of these documents. */
  ghost predicate KeysOfDocuments(got: seq<Key>, documents: seq<Json>) {
    forall key :: key in got <==> exists d | d in documents :: key == KeyAt(d)
  }

  lemma NamedMeaning(documents: seq<Json>, got: seq<Key>)
    requires KeysOfDocuments(got, documents)
    ensures forall strategy, w, rival ::
              AllWeightsGot(strategy, w, rival, got) <==> AllWeightsNamed(documents, strategy, w, rival)
  {
    forall strategy, w, rival, k
      ensures KeyOf(strategy, w, rival, k) in got <==> DocumentNamed(documents, strategy, w, rival, k)
    {
    }
  }

  lemma PureMeaningOfKeys(index: Json, documents: seq<Json>, got: seq<Key>)
    requires KeysOfDocuments(got, documents)
    ensures AllGot(FlatMap(LongerWindows(index), WeightKeys(Str(PURE), Null)), got) <==> PureIsNamed(index, documents)
  {
    PureKeysNamed(index, got);
    NamedMeaning(documents, got);
  }

  lemma RivalMeaningOfKeys(index: Json, documents: seq<Json>, got: seq<Key>, strategy: Json)
    requires KeysOfDocuments(got, documents)
    ensures AllGot(RivalKeys(index)(strategy), got) <==> StrategyIsNamed(index, documents, strategy)
  {
    RivalKeysNamed(index, strategy, got);
    NamedMeaning(documents, got);
  }

  lemma AllRivalsMeaningOfKeys(index: Json, documents: seq<Json>, got: seq<Key>)
    requires KeysOfDocuments(got, documents)
    ensures AllGot(FlatMap(RivalStrategies(index), RivalKeys(index)), got)
       <==> forall strategy | Offers(index, strategy) :: StrategyIsNamed(index, documents, strategy)
  {
    AllRivalKeysNamed(index, RivalStrategies(index), got);
    RivalStrategyMembers(index);
    forall strategy
      ensures AllGot(RivalKeys(index)(strategy), got) <==> StrategyIsNamed(index, documents, strategy)
    {
      RivalMeaningOfKeys(index, documents, got, strategy);
    }
  }

  lemma ExpectedMeaning(index: Json, documents: seq<Json>, got: seq<Key>)
    requires KeysOfDocuments(got, documents)
    ensures AllGot(ExpectedKeys(index), got) <==> WeightsAreNamed(index, documents)
  {
    if MenuAvailable(index) {
      AllGotBoth(FlatMap(LongerWindows(index), WeightKeys(Str(PURE), Null)),
                 FlatMap(RivalStrategies(index), RivalKeys(index)), got);
      PureMeaningOfKeys(index, documents, got);
      AllRivalsMeaningOfKeys(index, documents, got);
    }
  }

  lemma DocumentKeyMeaning(d: Json)
    ensures DocumentKey(d).Done? <==> KeyIsReadable(d)
    ensures DocumentKey(d).Done? ==> DocumentKey(d).value == [KeyAt(d)]
    ensures DocumentTarget(d).Done? && DocumentKey(d).Done? <==> KeyIsReadable(d) && Has(d, "path")
    ensures DocumentTarget(d).Done? ==> DocumentTarget(d).value == [TargetAt(d)]
  {
  }

  lemma KeysMeaning(documents: seq<Json>)
    ensures Each(documents, DocumentKey).Done? <==> forall d | d in documents :: KeyIsReadable(d)
    ensures Each(documents, DocumentKey).Done? ==> KeysOfDocuments(Each(documents, DocumentKey).value, documents)
  {
    EachMembers(documents, DocumentKey);
    forall d
      ensures DocumentKey(d).Done? <==> KeyIsReadable(d)
      ensures DocumentKey(d).Done? ==> DocumentKey(d).value == [KeyAt(d)]
    {
      DocumentKeyMeaning(d);
    }
  }

  lemma TargetsMeaning(env: Env, read: Reader, documents: seq<Json>)
    requires forall d | d in documents :: KeyIsReadable(d)
    ensures Each(documents, DocumentTarget).Done? <==> forall d | d in documents :: Has(d, "path")
    ensures Each(documents, DocumentTarget).Done? ==>
              ((forall t | t in Each(documents, DocumentTarget).value :: RowIsBacked(env, read, t))
               <==> forall d | d in documents :: RowIsBacked(env, read, TargetAt(d)))
  {
    EachMembers(documents, DocumentTarget);
    forall d | d in documents
      ensures DocumentTarget(d).Done? <==> Has(d, "path")
      ensures DocumentTarget(d).Done? ==> DocumentTarget(d).value == [TargetAt(d)]
    {
      DocumentKeyMeaning(d);
    }
    if Each(documents, DocumentTarget).Done? {
      var targets := Each(documents, DocumentTarget).value;
      forall d | d in documents
        ensures TargetAt(d) in targets
      {
        assert TargetAt(d) in DocumentTarget(d).value;
      }
    }
  }

  lemma NamedFindingsMeaning(env: Env, read: Reader, entry: Json, expected: seq<Key>, got: seq<Key>, targets: seq<Target>)
    ensures NamedFindings(env, read, entry, expected, got, targets) == Done([])
       <==> AllGot(expected, got) && forall t | t in targets :: RowIsBacked(env, read, t)
  {
    MissingMeaning(env, entry, expected, got);
    RowsMeaning(env, read, entry, targets);
    ThenNothing<Finding, PyError>(
      Done(MissingFindings(env, entry, expected, got)), Each(targets, TargetCheck(env, read, entry)));
  }

  /** The rows of the menu and of `computed` together. */
  lemma BothListsMeaning(env: Env, read: Reader, documents: seq<Json>, named: seq<Target>, computed: seq<Target>)
    requires forall d | d in documents :: KeyIsReadable(d)
    requires Each(documents, DocumentTarget) == Done(named)
    ensures (forall t | t in named + computed :: RowIsBacked(env, read, t))
       <==> (forall d | d in documents :: RowIsBacked(env, read, TargetAt(d)))
            && (forall t | t in computed :: RowIsBacked(env, read, t))
  {
    TargetsMeaning(env, read, documents);
    assert forall t :: t in named + computed <==> t in named || t in computed;
  }

  /** What the index names is backed: its documents, its weights and its computed rows. */
  ghost predicate NamesAreBacked(env: Env, read: Reader, index: Json, documents: seq<Json>) {
    && (forall d | d in documents :: KeyIsReadable(d) && Has(d, "path") && RowIsBacked(env, read, TargetAt(d)))
    && WeightsAreNamed(index, documents)
    && (forall t | t in ComputedTargets(index) :: RowIsBacked(env, read, t))
  }

  lemma ReadableDocuments(env: Env, read: Reader, entry: Json, index: Json, documents: seq<Json>, got: seq<Key>, named: seq<Target>)
    requires Each(documents, DocumentKey) == Done(got)
    requires Each(documents, DocumentTarget) == Done(named)
    ensures NamedFindings(env, read, entry, ExpectedKeys(index), got, named + ComputedTargets(index)) == Done([])
       <==> NamesAreBacked(env, read, index, documents)
  {
    KeysMeaning(documents);
    TargetsMeaning(env, read, documents);
    ExpectedMeaning(index, documents, got);
    NamedFindingsMeaning(env, read, entry, ExpectedKeys(index), got, named + ComputedTargets(index));
    BothListsMeaning(env, read, documents, named, ComputedTargets(index));
  }

  lemma NamesMeaning(env: Env, read: Reader, entry: Json, index: Json, documents: seq<Json>)
    ensures NamesFindings(env, read, entry, index, documents) == Done([]) <==> NamesAreBacked(env, read, index, documents)
  {
    var got, named := Each(documents, DocumentKey), Each(documents, DocumentTarget);
    if got.Done? && named.Done? {
      ReadableDocuments(env, read, entry, index, documents, got.value, named.value);
    } else {
      UnreadableDocuments(documents);
    }
  }

  lemma UnreadableDocuments(documents: seq<Json>)
    requires Each(documents, DocumentKey).Raised? || Each(documents, DocumentTarget).Raised?
    ensures exists d | d in documents :: !(KeyIsReadable(d) && Has(d, "path"))
  {
    EachMembers(documents, DocumentKey);
    EachMembers(documents, DocumentTarget);
    forall d
      ensures DocumentKey(d).Done? && DocumentTarget(d).Done? <==> KeyIsReadable(d) && Has(d, "path")
    {
      DocumentKeyMeaning(d);
    }
  }

  lemma DocumentsMeaning(env: Env, read: Reader, entry: Json, index: Json)
    ensures DocumentsFindings(env, read, entry, index) == Done([]) <==> DocumentsAreBacked(env, read, index)
  {
    if Documents(index).Done? {
      NamesMeaning(env, read, entry, index, Documents(index).value);
    }
  }

  lemma RowsMeaning(env: Env, read: Reader, entry: Json, targets: seq<Target>)
    ensures Each(targets, TargetCheck(env, read, entry)) == Done([])
       <==> forall t | t in targets :: RowIsBacked(env, read, t)
  {
    EachFindsNothing(targets, TargetCheck(env, read, entry));
    forall t
      ensures TargetCheck(env, read, entry)(t) == Done([]) <==> RowIsBacked(env, read, t)
    {
      RowMeaning(env, read, entry, t);
    }
  }

  /* ---------- one member, the whole tree ---------- */

  lemma FifteenMeaning(block: Json)
    ensures HoldsFifteen(block) == Done(true) <==> NamesFifteen(block)
  {
  }

  lemma InputsMeaning(entry: Json, index: Json, payload: Json)
    ensures SameInputs(entry, index, payload) == Done(true) <==> InputsAgree(entry, index, payload)
  {
    AbsentIsNull(payload, "entry");
    assert At(Obj([]), "entry_id") == Null;
  }

  lemma DeviceInputsMeaning(entry: Json, index: Json, payload: Json, block: Json)
    ensures DeviceInputsMatch(entry, index, payload, block) == Done(true)
       <==> NamesFifteen(block) && InputsAgree(entry, index, payload)
  {
    FifteenMeaning(block);
    InputsMeaning(entry, index, payload);
  }

  /** Without a squad document there is nothing to match. */
  lemma SquadPayloadMeaning(squad: Json)
    ensures !Has(squad, "payload") ==> !NamesFifteen(At(SquadPayload(squad), "device_plan"))
    ensures !Has(squad, "payload") ==> !NamesFifteen(At(At(squad, "payload"), "device_plan"))
  {
    if squad.Obj? {
      CanonFieldsAgree(squad.fields);
    }
  }

  lemma DeviceMeaning(env: Env, read: Reader, entry: Json, index: Json)
    ensures DeviceFindings(env, read, entry, index) == Done([]) <==> DeviceMenuIsBacked(env, read, entry, index)
  {
    if read(SquadPath(env, entry)).Done? {
      var squad := read(SquadPath(env, entry)).value;
      var payload := SquadPayload(squad);
      SquadPayloadMeaning(squad);
      DeviceInputsMeaning(entry, index, payload, At(payload, "device_plan"));
      var matches := DeviceInputsMatch(entry, index, payload, At(payload, "device_plan"));
      if matches.Done? {
        UnlessNothing(Unless(matches.value, DeviceWithoutInputs(entry)),
                      Lacks(read, BaselinePath(env, entry)), DeviceWithBaseline(entry));
      }
    }
  }

  lemma MenuMeaning(env: Env, read: Reader, entry: Json, index: Json)
    ensures MenuFindings(env, read, entry, index) == Done([]) <==> MenuIsBacked(env, read, entry, index)
  {
    var pure, chips := PureFindings(env, read, entry, index), ChipFindings(env, read, entry, index);
    var longer := Each(RivalStrategies(index), StrategyCheck(entry, index));
    var menu: Findings := Done(MenuEntryFindings(entry, index));
    var documents := DocumentsFindings(env, read, entry, index);
    ThenNothing(menu, documents);
    ThenNothing(longer, Then(menu, documents));
    ThenNothing(chips, Then(longer, Then(menu, documents)));
    ThenNothing(pure, Then(chips, Then(longer, Then(menu, documents))));
    PureMeaning(env, read, entry, index);
    ChipsMeaning(env, read, entry, index);
    LongerMeaning(entry, index);
    DocumentsMeaning(env, read, entry, index);
  }

  lemma IndexMeaning(env: Env, read: Reader, entry: Json, index: Json)
    ensures IndexFindings(env, read, entry, index) == Done([]) <==> IndexIsClean(env, read, entry, index)
  {
    if At(index, "menu") == Str("device") {
      DeviceMeaning(env, read, entry, index);
    } else {
      MenuMeaning(env, read, entry, index);
    }
  }

  lemma MemberMeaning(env: Env, read: Reader, entry: Json)
    ensures MemberFindings(env, read, entry) == Done([]) <==> MemberIsClean(env, read, entry)
  {
    if PageAccepts(env, read, entry) {
      IndexMeaning(env, read, entry, IndexOf(env, read, entry));
    }
  }

  /** The entries the check visits are those of the human members. */
  lemma HumansMeaning(rows: seq<Json>)
    ensures Each(rows, HumanEntry).Done?
       <==> forall m | m in rows :: m.Obj? && (At(m, "member_kind") == Str("human") ==> Has(m, "entry_id"))
    ensures Each(rows, HumanEntry).Done? ==>
              forall entry :: entry in Each(rows, HumanEntry).value
                <==> exists m | m in rows :: At(m, "member_kind") == Str("human") && entry == At(m, "entry_id")
  {
    EachMembers(rows, HumanEntry);
    forall m
      ensures HumanEntry(m).Done? <==> m.Obj? && (At(m, "member_kind") == Str("human") ==> Has(m, "entry_id"))
      ensures HumanEntry(m).Done? ==>
                HumanEntry(m).value == if At(m, "member_kind") == Str("human") then [At(m, "entry_id")] else []
    {
    }
  }

  lemma EveryMember(env: Env, read: Reader, entries: seq<Json>)
    ensures Each(entries, MemberCheck(env, read)) == Done([]) <==> forall entry | entry in entries :: MemberIsClean(env, read, entry)
  {
    EachFindsNothing(entries, MemberCheck(env, read));
    forall entry
      ensures MemberCheck(env, read)(entry) == Done([]) <==> MemberIsClean(env, read, entry)
    {
      MemberMeaning(env, read, entry);
    }
  }

  lemma RowsClean(env: Env, read: Reader, rows: seq<Json>)
    ensures RowsFindings(env, read, rows) == Done([]) <==> RowsAreClean(env, read, rows)
  {
    HumansMeaning(rows);
    if Each(rows, HumanEntry).Done? {
      var entries := Each(rows, HumanEntry).value;
      EveryMember(env, read, entries);
      if forall entry | entry in entries :: MemberIsClean(env, read, entry) {
        forall m | m in rows && At(m, "member_kind") == Str("human")
          ensures MemberIsClean(env, read, At(m, "entry_id"))
        {
          assert At(m, "entry_id") in entries;
        }
      }
    }
  }

  /** The variants check runs without error and finds nothing exactly on the clean trees. */
  lemma SilentExactlyOnCleanTrees(env: Env, read: Reader)
    ensures VariantFindings(env, read) == Done([]) <==> TreeIsClean(env, read)
  {
    RowsRead(read);
    if MemberRows(read).Done? {
      var rows := MemberRows(read).value;
      RowsClean(env, read, rows);
      SummaryMeaning(env, Ceilings(env, read, rows));
      ThenNothing(RowsFindings(env, read, rows), Summary(env, Ceilings(env, read, rows)));
    }
  }

  lemma {:induction false} UnderMembers(ceilings: seq<Ceiling>, window: Val)
    ensures Under(ceilings, window) != [] <==> exists c | c in ceilings :: c.0 == window
  {
    if ceilings != [] {
      UnderMembers(ceilings[1..], window);
      assert forall c :: c in ceilings <==> c == ceilings[0] || c in ceilings[1..];
    }
  }

  lemma WindowsMembers(ceilings: seq<Ceiling>)
    ensures forall window :: window in WindowsIn(ceilings) <==> Under(ceilings, window) != []
  {
    var windows := seq(|ceilings|, i requires 0 <= i < |ceilings| => ceilings[i].0);
    DedupeMembers(windows);
    forall window
      ensures window in windows <==> Under(ceilings, window) != []
    {
      UnderMembers(ceilings, window);
      if window in windows {
        var i :| 0 <= i < |windows| && windows[i] == window;
        assert ceilings[i] in ceilings;
      }
      if Under(ceilings, window) != [] {
        var c :| c in ceilings && c.0 == window;
        var i :| 0 <= i < |ceilings| && ceilings[i] == c;
        assert windows[i] == window;
      }
    }
  }

  /** The summary is printed exactly when every window's ceilings can be averaged. */
  lemma SummaryMeaning(env: Env, ceilings: seq<Ceiling>)
    ensures Summary(env, ceilings) == Done([]) <==> CeilingsAverage(env, ceilings)
  {
    var step := WindowLine(env, ceilings);
    EachFindsNothing(WindowsIn(ceilings), step);
    WindowsMembers(ceilings);
    forall window | Under(ceilings, window) != []
      ensures step(window) == Done([]) <==> Averageable(env, Under(ceilings, window))
    {
      AverageMeaning(env, Under(ceilings, window));
    }
  }

  predicate MembersAreListed(read: Reader) {
    && read("members.json").Done?
    && Has(read("members.json").value, "payload")
    && Has(At(read("members.json").value, "payload"), "members")
    && Iterate(At(At(read("members.json").value, "payload"), "members")).Done?
  }

  lemma RowsRead(read: Reader)
    ensures MemberRows(read).Done? <==> MembersAreListed(read)
    ensures MembersAreListed(read) ==>
              MemberRows(read).value == Listed(read)
  {
  }

  /** Two lists of members are checked one after the other, and nothing else happens. */
  lemma MemberListsConcatenate(env: Env, read: Reader, a: seq<Json>, b: seq<Json>)
    ensures Each(a + b, MemberCheck(env, read))
         == Then(Each(a, MemberCheck(env, read)), Each(b, MemberCheck(env, read)))
  {
    EachAppend(a, b, MemberCheck(env, read));
  }

  /** A member whose index is the one produced for a refused member adds no finding. */
  lemma RefusedMemberAddsNothing(env: Env, read: Reader, t: RefusedIndex.Task, reason: string)
    requires RefusedIndex.ValidTask(t)
    requires read(AdvicePath(env, t.entry, "index.json")).Done?
    requires At(read(AdvicePath(env, t.entry, "index.json")).value, "payload") == RefusedIndex.Produce(t, reason)
    ensures MemberFindings(env, read, t.entry) == Done([])
  {
    RefusedIndex.ProducedRoundTrip(env, t, reason);
  }
}
