/** The variants check: what every member's index names, and whether the tree holds it. */
module Variants {
  import opened Outcomes
  import opened Lists
  import opened Sorting
  import opened Json
  import opened AdviceIndex
  import opened Walk
  import opened Pricing

  datatype Finding =
    | MemberWithoutIndex(entry: Json)
    | IndexThePageRefuses(entry: Json, field: string)
    | DeviceWithoutInputs(entry: Json)
    | DeviceWithBaseline(entry: Json)
    | NoOneWeekWindow(entry: Json)
    | NotPublished(entry: Json, path: string)
    | ChipsWithoutPaths(entry: Json)
    | ChipAtAnotherPath(entry: Json, chip: string)
    | WindowUnaccounted(entry: Json, strategy: Json, window: Json)
    | NoTop100Entry(entry: Json)
    | Top100Malformed(entry: Json)
    | NoDocumentFor(entry: Json, key: Key)
    | Forbidden(hit: Hit)
    | IdentityMismatch(entry: Json, path: string)
    | WrongPrice(entry: Json, path: string)
    | WrongPlanWeeks(entry: Json, path: string)
    | WeightedGap(entry: Json, path: string)
    | PrivateKey(entry: Json, path: string)

  type Findings = Outcome<seq<Finding>, PyError>

  /* ---------- the members ---------- */

  function HumanEntry(m: Json): Outcome<seq<Json>, PyError> {
    var kind :- Get(m, "member_kind");
    if kind != Str("human") then Done([])
    else
      var entry :- Subscript(m, "entry_id");
      Done([entry])
  }

  function MemberRows(read: Reader): Outcome<seq<Json>, PyError> {
    var document :- read("members.json");
    var payload :- Subscript(document, "payload");
    var members :- Subscript(payload, "members");
    Iterate(members)
  }

  /* ---------- a device menu ---------- */

  function DifferentPlayers(held: seq<Json>): set<Val> {
    set p | p in held :: Canon(p)
  }

  /** The block names fifteen different players. */
  function HoldsFifteen(block: Json): Outcome<bool, PyError> {
    if !block.Obj? || !At(block, "held").Arr? then Done(false)
    else
      var held := At(block, "held").items;
      if exists p | p in held :: !Hashable(p) then Raised(TypeError)
      else Done(|DifferentPlayers(held)| == 15)
  }

  /** The squad document is of the index's own capture, chips, member, league and week. */
  function SameInputs(entry: Json, index: Json, payload: Json): Outcome<bool, PyError> {
    if !PyEq(At(payload, "source_snapshot_id"), At(index, "source_snapshot_id"))
       || !PyEq(At(payload, "chips"), At(index, "chip_states"))
    then Done(false)
    else
      var id :- Get(if Has(payload, "entry") then At(payload, "entry") else Obj([]), "entry_id");
      Done(PyEq(id, entry)
           && PyEq(At(payload, "league_id"), At(index, "league_id"))
           && PyEq(At(payload, "gameweek"), At(index, "gameweek"))
           && PyEq(At(payload, "season"), At(index, "season")))
  }

  function DeviceInputsMatch(entry: Json, index: Json, payload: Json, block: Json): Outcome<bool, PyError> {
    var fifteen :- HoldsFifteen(block);
    if fifteen then SameInputs(entry, index, payload) else Done(false)
  }

  function SquadPayload(squad: Json): Json {
    if Has(squad, "payload") then At(squad, "payload") else Obj([])
  }

  function SquadPath(env: Env, entry: Json): string {
    "entries/" + env.Show(entry) + ".json"
  }

  function BaselinePath(env: Env, entry: Json): string {
    AdvicePath(env, entry, PURE + "/1.json")
  }

  function DeviceFindings(env: Env, read: Reader, entry: Json, index: Json): Findings {
    var squad :- read(SquadPath(env, entry));
    var block :- Get(SquadPayload(squad), "device_plan");
    var matches :- DeviceInputsMatch(entry, index, SquadPayload(squad), block);
    var baseline :- read(BaselinePath(env, entry));
    Done(Unless(matches, DeviceWithoutInputs(entry)) + Unless(baseline.Null?, DeviceWithBaseline(entry)))
  }

  /* ---------- the windows and chips of a full menu ---------- */

  function WindowsFor(index: Json, strategy: string): seq<Json> {
    var windows := At(At(index, "windows"), strategy);
    if windows.Arr? then windows.items else []
  }

  predicate IsOne(w: Json) {
    PyEq(w, Int(1))
  }

  predicate NotOne(w: Json) {
    !IsOne(w)
  }

  function LongerWindows(index: Json): seq<Json> {
    Filter(WindowsFor(index, PURE), NotOne)
  }

  predicate NotPure(strategy: Json) {
    strategy != Str(PURE)
  }

  /** The rival strategies, when the index names a default rival. */
  function RivalStrategies(index: Json): seq<Json> {
    var strategies := At(index, "strategies");
    if At(index, "default_rival_entry_id").Null? || !strategies.Arr? then []
    else Filter(strategies.items, NotPure)
  }

  function RivalWindows(index: Json, strategy: Json): seq<Json> {
    [Int(1)] + (if strategy.Str? then Filter(WindowsFor(index, strategy.s), NotOne) else [])
  }

  function WindowPath(env: Env, entry: Json, w: Json): string {
    AdvicePath(env, entry, PURE + "/" + env.Show(w) + ".json")
  }

  function Published(read: Reader, entry: Json, path: string): Findings {
    var document :- read(path);
    Done(Unless(!document.Null?, NotPublished(entry, path)))
  }

  function WindowCheck(env: Env, read: Reader, entry: Json): Json -> Findings {
    w => Published(read, entry, WindowPath(env, entry, w))
  }

  function PureFindings(env: Env, read: Reader, entry: Json, index: Json): Findings {
    var windows := WindowsFor(index, PURE);
    Then(Done(Unless(exists w | w in windows :: IsOne(w), NoOneWeekWindow(entry))),
         Each(windows, WindowCheck(env, read, entry)))
  }

  function ChipDocumentPath(env: Env, entry: Json, chip: string): string {
    AdvicePath(env, entry, PURE + "/1/chip-" + chip + ".json")
  }

  function ChipCheck(env: Env, read: Reader, entry: Json): Entry -> Findings {
    (e: Entry) =>
      var path := ChipDocumentPath(env, entry, e.key);
      if e.value != Str(path) then Done([ChipAtAnotherPath(entry, e.key)]) else Published(read, entry, path)
  }

  predicate ChipsAvailable(index: Json) {
    At(index, "chips").Obj? && At(At(index, "chips"), "available") == Bool(true)
  }

  predicate ByKey(a: Entry, b: Entry) {
    TextLeq(a.key, b.key)
  }

  function ChipFindings(env: Env, read: Reader, entry: Json, index: Json): Findings {
    var paths := At(At(index, "chips"), "paths");
    if !ChipsAvailable(index) then Done([])
    else if !paths.Obj? || paths.fields == [] then Done([ChipsWithoutPaths(entry)])
    else Each(Sort(paths.fields, ByKey), ChipCheck(env, read, entry))
  }

  /** A rival strategy's window is on the menu, or the index says why it is not. */
  predicate Stated(index: Json, strategy: Json, window: Json) {
    (Canon(strategy), Canon(window), Canon(At(index, "default_rival_entry_id"))) in StatedUnavailable(index)
  }

  predicate Accounted(index: Json, strategy: Json, window: Json) {
    (exists v | v in RivalWindows(index, strategy) :: Canon(v) == Canon(window))
    || Stated(index, strategy, window)
  }

  function LongerWindowCheck(entry: Json, index: Json, strategy: Json): Json -> Findings {
    w => Done(Unless(Accounted(index, strategy, w), WindowUnaccounted(entry, strategy, w)))
  }

  function StrategyCheck(entry: Json, index: Json): Json -> Findings {
    strategy => Each(LongerWindows(index), LongerWindowCheck(entry, index, strategy))
  }

  /* ---------- the Top 100 documents ---------- */

  predicate MenuAvailable(index: Json) {
    At(index, "top100").Obj? && At(At(index, "top100"), "available") == Bool(true)
  }

  function MenuEntryFindings(entry: Json, index: Json): seq<Finding> {
    var menu := At(index, "top100");
    if MenuAvailable(index) || MenuAbsence(menu).Some? then []
    else if menu.Null? then [NoTop100Entry(entry)]
    else [Top100Malformed(entry)]
  }

  function Documents(index: Json): Outcome<seq<Json>, PyError> {
    var documents := At(At(index, "top100"), "documents");
    if !MenuAvailable(index) || !Truthy(documents) then Done([]) else Iterate(documents)
  }

  function WeightKeys(strategy: Json, rival: Json): Json -> seq<Key> {
    w => seq(|MENU_WEIGHTS|, i requires 0 <= i < |MENU_WEIGHTS| =>
               (Canon(strategy), Canon(w), Canon(rival), VNum(MENU_WEIGHTS[i] as real)))
  }

  function Unstated(index: Json, strategy: Json): Json -> bool {
    w => !Stated(index, strategy, w)
  }

  function RivalKeys(index: Json): Json -> seq<Key> {
    strategy =>
      FlatMap(Filter(RivalWindows(index, strategy), Unstated(index, strategy)),
              WeightKeys(strategy, At(index, "default_rival_entry_id")))
  }

  function ExpectedKeys(index: Json): seq<Key> {
    if !MenuAvailable(index) then []
    else
      FlatMap(LongerWindows(index), WeightKeys(Str(PURE), Null))
      + FlatMap(RivalStrategies(index), RivalKeys(index))
  }

  function DocumentKey(d: Json): Outcome<seq<Key>, PyError> {
    var strategy :- Subscript(d, "strategy");
    var window :- Subscript(d, "window");
    var rival :- Subscript(d, "rival_entry_id");
    var weight :- Subscript(d, "weight");
    if Hashable(strategy) && Hashable(window) && Hashable(rival) && Hashable(weight)
    then Done([(Canon(strategy), Canon(window), Canon(rival), Canon(weight))])
    else Raised(TypeError)
  }

  function NotAmong(got: seq<Key>): Key -> bool {
    key => key !in got
  }

  function ByText(env: Env): (Key, Key) -> bool {
    (a, b) => TextLeq(env.keyText(a), env.keyText(b))
  }

  /** The expected keys that no document carries, each once, in the order of their text. */
  function MissingKeys(env: Env, expected: seq<Key>, got: seq<Key>): seq<Key> {
    Sort(Dedupe(Filter(expected, NotAmong(got))), ByText(env))
  }

  function MissingFindings(env: Env, entry: Json, expected: seq<Key>, got: seq<Key>): seq<Finding> {
    var keys := MissingKeys(env, expected, got);
    seq(|keys|, i requires 0 <= i < |keys| => NoDocumentFor(entry, keys[i]))
  }

  /* ---------- every named document ---------- */

  datatype Target = Target(path: Json, strategy: Json, window: Json, rival: Json, weight: Json)

  function DocumentTarget(d: Json): Outcome<seq<Target>, PyError> {
    var path :- Subscript(d, "path");
    var strategy :- Subscript(d, "strategy");
    var window :- Subscript(d, "window");
    var rival :- Subscript(d, "rival_entry_id");
    var weight :- Subscript(d, "weight");
    Done([Target(path, strategy, window, rival, weight)])
  }

  function ComputedTargets(index: Json): seq<Target> {
    var rows := At(index, "computed");
    if !rows.Arr? then []
    else seq(|rows.items|, i requires 0 <= i < |rows.items| =>
               var row := rows.items[i];
               Target(At(row, "path"), At(row, "strategy"), WindowOf(row), At(row, "rival_entry_id"), Int(0)))
  }

  /** `(p.get("top100") or {}).get("weight", 0)` */
  function PublishedWeight(p: Json): Outcome<Json, PyError> {
    var menu := At(p, "top100");
    if !Truthy(menu) then Done(Int(0))
    else
      var weight :- Get(menu, "weight");
      Done(if Has(menu, "weight") then weight else Int(0))
  }

  /** `not (window > 1 and len(p.get("plan_weeks") or []) != window)` */
  function PlanWeeksAgree(p: Json, window: Json): Outcome<bool, PyError> {
    if !NumberOrBool(window) then Raised(TypeError)
    else if !Less(Int(1), window) then Done(true)
    else
      var weeks := At(p, "plan_weeks");
      var count :- if Truthy(weeks) then Length(weeks) else Done(0);
      Done(PyEq(window, Int(count)))
  }

  predicate HasPrivateKey(p: Json) {
    p.Obj? && exists key | key in KeysOf(p.fields) :: key != "" && key[0] == '_'
  }

  function HitFindings(hits: seq<Hit>): seq<Finding> {
    seq(|hits|, i requires 0 <= i < |hits| => Forbidden(hits[i]))
  }

  function SameIdentity(t: Target, mode: Json, window: Json, rival: Json, weight: Json): bool {
    && Canon(mode) == Canon(t.strategy)
    && Canon(window) == Canon(t.window)
    && Canon(rival) == Canon(t.rival)
    && Canon(weight) == Canon(t.weight)
  }

  /** What is wrong with the document a row names. */
  function PayloadFindings(env: Env, entry: Json, t: Target, path: string, p: Json): Findings {
    var status :- Get(p, "solver_status");
    if !Hashable(status) then Raised(TypeError)
    else
      var mode :- Subscript(p, "mode");
      var window :- Subscript(p, "window");
      var weight :- PublishedWeight(p);
      var price :- PriceAgrees(env, p);
      var weeks :- PlanWeeksAgree(p, t.window);
      Done(HitFindings(Hits(env, p, path))
           + Unless(SameIdentity(t, mode, window, At(p, "rival_entry_id"), weight), IdentityMismatch(entry, path))
           + Unless(price, WrongPrice(entry, path))
           + Unless(weeks, WrongPlanWeeks(entry, path))
           + Unless(!(Truthy(t.weight) && !At(p, "optimality_gap").Null?), WeightedGap(entry, path))
           + Unless(!HasPrivateKey(p), PrivateKey(entry, path)))
  }

  function TargetFindings(env: Env, read: Reader, entry: Json, t: Target): Findings {
    if !t.path.Str? then Raised(TypeError)
    else
      var document :- read(t.path.s);
      if document.Null? then Done([NotPublished(entry, t.path.s)])
      else
        var p :- Subscript(document, "payload");
        PayloadFindings(env, entry, t, t.path.s, p)
  }

  function TargetCheck(env: Env, read: Reader, entry: Json): Target -> Findings {
    t => TargetFindings(env, read, entry, t)
  }

  function NamedFindings(env: Env, read: Reader, entry: Json, expected: seq<Key>, got: seq<Key>, targets: seq<Target>): Findings {
    Then(Done(MissingFindings(env, entry, expected, got)), Each(targets, TargetCheck(env, read, entry)))
  }

  function DocumentsFindings(env: Env, read: Reader, entry: Json, index: Json): Findings {
    var documents :- Documents(index);
    NamesFindings(env, read, entry, index, documents)
  }

  function NamesFindings(env: Env, read: Reader, entry: Json, index: Json, documents: seq<Json>): Findings {
    var got :- Each(documents, DocumentKey);
    var named :- Each(documents, DocumentTarget);
    NamedFindings(env, read, entry, ExpectedKeys(index), got, named + ComputedTargets(index))
  }

  /* ---------- one member, every member ---------- */

  function MenuFindings(env: Env, read: Reader, entry: Json, index: Json): Findings {
    Then(PureFindings(env, read, entry, index),
    Then(ChipFindings(env, read, entry, index),
    Then(Each(RivalStrategies(index), StrategyCheck(entry, index)),
    Then(Done(MenuEntryFindings(entry, index)),
         DocumentsFindings(env, read, entry, index)))))
  }

  function IndexFindings(env: Env, read: Reader, entry: Json, index: Json): Findings {
    if Refusal(index).Some? then Done([])
    else if At(index, "menu") == Str("device") then DeviceFindings(env, read, entry, index)
    else MenuFindings(env, read, entry, index)
  }

  function MemberFindings(env: Env, read: Reader, entry: Json): Findings {
    var found :- ReadMemberIndex(env, read, entry);
    match found
    case NoIndex => Done([MemberWithoutIndex(entry)])
    case PageRefuses(field) => Done([IndexThePageRefuses(entry, field)])
    case Readable(index) => IndexFindings(env, read, entry, index)
  }

  function MemberCheck(env: Env, read: Reader): Json -> Findings {
    entry => MemberFindings(env, read, entry)
  }

  function RowsFindings(env: Env, read: Reader, rows: seq<Json>): Findings {
    var entries :- Each(rows, HumanEntry);
    Each(entries, MemberCheck(env, read))
  }

  /* ---------- the summary ---------- */

  /** A ceiling that enters the summary, under the window of its row. */
  type Ceiling = (Val, Json)

  /** An agreeing price with a ceiling is kept for the summary. */
  function PayloadCeiling(env: Env, t: Target, p: Json): seq<Ceiling> {
    if PriceAgrees(env, p) == Done(true) && !At(p, "expected_points_cost_ceiling").Null?
    then [(Canon(t.window), At(p, "expected_points_cost_ceiling"))]
    else []
  }

  function TargetCeilings(env: Env, read: Reader): Target -> seq<Ceiling> {
    (t: Target) =>
      if t.path.Str? && read(t.path.s).Done? && !read(t.path.s).value.Null?
      then PayloadCeiling(env, t, At(read(t.path.s).value, "payload"))
      else []
  }

  /** The rows of a menu, in the order their documents are read. */
  function MenuTargets(index: Json): seq<Target> {
    var documents := Documents(index);
    if documents.Raised? then []
    else
      var named := Each(documents.value, DocumentTarget);
      if named.Raised? then [] else named.value + ComputedTargets(index)
  }

  function IndexCeilings(env: Env, read: Reader, index: Json): seq<Ceiling> {
    if Refusal(index).Some? || At(index, "menu") == Str("device") then []
    else FlatMap(MenuTargets(index), TargetCeilings(env, read))
  }

  function MemberCeilings(env: Env, read: Reader): Json -> seq<Ceiling> {
    (entry: Json) =>
      var found := ReadMemberIndex(env, read, entry);
      if found.Done? && found.value.Readable? then IndexCeilings(env, read, found.value.index) else []
  }

  /** The ceilings of the members, in the order they are kept. */
  function Ceilings(env: Env, read: Reader, rows: seq<Json>): seq<Ceiling> {
    var entries := Each(rows, HumanEntry);
    if entries.Raised? then [] else FlatMap(entries.value, MemberCeilings(env, read))
  }

  function Under(ceilings: seq<Ceiling>, window: Val): seq<Json> {
    if ceilings == [] then []
    else (if ceilings[0].0 == window then [ceilings[0].1] else []) + Under(ceilings[1..], window)
  }

  function WindowsIn(ceilings: seq<Ceiling>): seq<Val> {
    Dedupe(seq(|ceilings|, i requires 0 <= i < |ceilings| => ceilings[i].0))
  }

  /** One line of the summary: the mean and the greatest ceiling of a window. */
  function WindowLine(env: Env, ceilings: seq<Ceiling>): Val -> Findings {
    (window: Val) =>
      var values := Under(ceilings, window);
      if values == [] then Done([])
      else
        var printed :- Average(env, values);
        Done([])
  }

  /** What printing the summary gives: nothing, or the error of an average. */
  function Summary(env: Env, ceilings: seq<Ceiling>): Findings {
    Each(WindowsIn(ceilings), WindowLine(env, ceilings))
  }

  /** What `check_variants` returns. */
  function VariantFindings(env: Env, read: Reader): Findings {
    var rows :- MemberRows(read);
    Then(RowsFindings(env, read, rows), Summary(env, Ceilings(env, read, rows)))
  }
}
