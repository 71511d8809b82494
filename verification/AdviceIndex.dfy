/** A member's advice index: what the page refuses in it, and what it states. */
module AdviceIndex {
  import opened Outcomes
  import opened Decimals
  import opened Json

  /** The pure-points strategy, whose longer windows need no rival. */
  const PURE := "saf-puan"
  const MENU_WEIGHTS: seq<int> := [5, 10, 20, 30, 40, 50]
  const MAX_SAFE_INTEGER := 0x1F_FFFF_FFFF_FFFF
  const REFUSED_INDEX_KEYS: set<string> := {
    "league_id", "season", "gameweek", "entry_id", "window", "windows", "strategies",
    "rival_entry_ids", "default_rival_entry_id", "suggested_strategy", "computed", "unavailable"
  }

  /** A (strategy, window, rival, weight) triple or quadruple, up to Python's `==`. */
  type Key = (Val, Val, Val, Val)

  /** What the checker takes from the language and the catalogue: the text of a value that is
      neither an integer nor a string, the text of a tuple, the two forbidden patterns, and
      whether an integer fits a float. */
  datatype Env = Env(
    otherText: Json -> string,
    keyText: Key -> string,
    forbiddenKey: string -> bool,
    forbiddenText: string -> bool,
    fitsFloat: real -> bool
  ) {
    /** Whether a number rounds to a finite float; every safe integer does. */
    predicate Fits(x: real) {
      -(MAX_SAFE_INTEGER as real) <= x <= MAX_SAFE_INTEGER as real || fitsFloat(x)
    }

    /** `f"{j}"` */
    function Show(j: Json): string {
      match j
      case Int(n) => Decimal(n)
      case Str(s) => s
      case _ => otherText(j)
    }
  }

  /** `read(path)`: the parsed document, null where there is none, or the reader's exception. */
  type Reader = string -> Outcome<Json, PyError>

  function AdvicePath(env: Env, entry: Json, rest: string): string {
    "advice/" + env.Show(entry) + "/" + rest
  }

  /** `_positive`: a safe integer above zero, however it is written. */
  predicate Positive(j: Json) {
    match j
    case Int(n) => 0 < n <= MAX_SAFE_INTEGER
    case Dec(r) => r == r.Floor as real && 0.0 < r <= MAX_SAFE_INTEGER as real
    case _ => false
  }

  predicate Window(j: Json) {
    Number(j) && Canon(j) in {VNum(1.0), VNum(3.0), VNum(5.0)}
  }

  predicate Finite(env: Env, j: Json) {
    j.Dec? || (j.Int? && env.Fits(j.n as real))
  }

  /** `int(j)` of a number that is one. */
  function Truncated(j: Json): int {
    match j
    case Int(n) => n
    case Dec(r) => r.Floor
    case _ => 0
  }

  /** `row.get("window", 1)` */
  function WindowOf(row: Json): Json {
    if Has(row, "window") then At(row, "window") else Int(1)
  }

  predicate ListOf(j: Json, item: Json -> bool) {
    j.Arr? && forall x | x in j.items :: item(x)
  }

  predicate Text(j: Json) {
    j.Str?
  }

  predicate NullOrPositive(j: Json) {
    j.Null? || Positive(j)
  }

  function RivalDocumentPath(env: Env, entry: Json, row: Json): string {
    AdvicePath(env, entry,
               env.Show(At(row, "strategy")) + "/" + Decimal(Truncated(WindowOf(row)))
               + "/vs-" + Decimal(Truncated(At(row, "rival_entry_id"))) + ".json")
  }

  predicate ComputedRow(env: Env, entry: Json, row: Json) {
    && row.Obj?
    && At(row, "strategy").Str?
    && Positive(At(row, "rival_entry_id"))
    && (Has(row, "window") ==> Window(At(row, "window")))
    && At(row, "path") == Str(RivalDocumentPath(env, entry, row))
  }

  predicate UnavailableRow(row: Json) {
    && row.Obj?
    && At(row, "strategy").Str?
    && At(row, "reason").Str?
    && Has(row, "rival_entry_id")
    && NullOrPositive(At(row, "rival_entry_id"))
    && (Has(row, "window") ==> Window(At(row, "window")))
  }

  predicate WindowsTable(index: Json) {
    !Has(index, "windows") ||
    (var table := At(index, "windows");
     table.Obj? && forall e | e in table.fields :: ListOf(e.value, Window))
  }

  /** The two spellings of an absence the device menu states. */
  function OnDevice(): Json {
    Obj([Entry("available", Bool(false)), Entry("reason", Str("on_device"))])
  }

  predicate DeviceMenuShape(index: Json) {
    var strategies := At(index, "strategies");
    var rivals := At(index, "rival_entry_ids");
    var fallback := At(index, "default_rival_entry_id");
    var chips := At(index, "chip_states");
    && At(index, "computed") == Arr([])
    && At(index, "unavailable") == Arr([])
    && Has(index, "windows")
    && At(index, "windows").Obj?
    && (forall e | e in At(index, "windows").fields :: !Truthy(e.value))
    && strategies.Arr? && strategies.items != [] && strategies.items[0] == Str(PURE)
    && At(index, "source_snapshot_id").Str? && At(index, "source_snapshot_id") != Str("")
    && chips.Obj?
    && At(chips, "known").Bool?
    && PyEq(At(chips, "gameweek"), At(index, "gameweek"))
    && At(chips, "states").Obj?
    && (fallback.Null? || (rivals.Arr? && exists r | r in rivals.items :: PyEq(fallback, r)))
    && (forall key | key in ["chips", "top100", "evidence"] :: PyEq(At(index, key), OnDevice()))
  }

  predicate SuggestionShape(env: Env, suggestion: Json) {
    && suggestion.Obj?
    && At(suggestion, "strategy") in [Str("saf-puan"), Str("ortak-koru"), Str("fark-yarat")]
    && At(suggestion, "rule_id").Str?
    && At(suggestion, "band") in [Str("behind"), Str("level"), Str("ahead")]
    && Positive(At(suggestion, "rival_entry_id"))
    && Finite(env, At(suggestion, "points_ahead_of_rival"))
    && Positive(At(suggestion, "scored_gameweek"))
    && Finite(env, At(suggestion, "gameweeks_remaining"))
    && Finite(env, At(suggestion, "band_edge_points"))
  }

  /** `page_refusal`: the first field the page throws on, or none. */
  function PageRefusal(env: Env, index: Json, entry: Json): Option<string> {
    if !index.Obj? then Some("not an object")
    else if !(Number(At(index, "entry_id")) && PyEq(At(index, "entry_id"), entry)) then Some("entry_id")
    else if !Positive(At(index, "league_id")) then Some("league_id")
    else if !Positive(At(index, "gameweek")) then Some("gameweek")
    else if !At(index, "season").Str? then Some("season")
    else if !Window(At(index, "window")) then Some("window")
    else if !ListOf(At(index, "strategies"), Text) then Some("strategies")
    else if !ListOf(At(index, "rival_entry_ids"), Positive) then Some("rival_entry_ids")
    else if !(Has(index, "default_rival_entry_id") && NullOrPositive(At(index, "default_rival_entry_id")))
    then Some("default_rival_entry_id")
    else if !(At(index, "computed").Arr?
              && forall row | row in At(index, "computed").items :: ComputedRow(env, entry, row))
    then Some("computed")
    else if !ListOf(At(index, "unavailable"), UnavailableRow) then Some("unavailable")
    else if !WindowsTable(index) then Some("windows")
    else if Has(index, "menu") && At(index, "menu") !in [Str("full"), Str("device")] then Some("menu")
    else if At(index, "menu") == Str("device") && !DeviceMenuShape(index) then Some("device menu")
    else if !At(index, "suggested_strategy").Null? && !SuggestionShape(env, At(index, "suggested_strategy"))
    then Some("suggested_strategy")
    else None
  }

  /** `_refused_member_index` and `refusal`'s list of rows. */
  function RefusedRow(strategy: Json, reason: string): Json {
    Obj([Entry("strategy", strategy), Entry("rival_entry_id", Null), Entry("reason", Str(reason))])
  }

  function RefusedRows(strategies: seq<Json>, reason: string): Json {
    Arr(seq(|strategies|, i requires 0 <= i < |strategies| => RefusedRow(strategies[i], reason)))
  }

  function EmptyWindows(strategies: seq<Json>): Json {
    Obj(seq(|strategies|, i requires 0 <= i < |strategies| =>
          Entry(if strategies[i].Str? then strategies[i].s else "", Arr([]))))
  }

  predicate Distinct(items: seq<Json>) {
    forall i, j | 0 <= i < j < |items| :: Canon(items[i]) != Canon(items[j])
  }

  /** `refusal`: the reason a refused member's index states, or none when it is not one. */
  function Refusal(index: Json): Option<string> {
    var strategies, rows := At(index, "strategies"), At(index, "unavailable");
    if !index.Obj?
       || (set key | key in KeysOf(index.fields)) != REFUSED_INDEX_KEYS
       || !strategies.Arr? || strategies.items == [] || strategies.items[0] != Str(PURE)
       || !Distinct(strategies.items)
       || !rows.Arr? || rows.items == [] || !rows.items[0].Obj?
    then None
    else
      var reason := At(rows.items[0], "reason");
      if !reason.Str?
         || !PyEq(At(index, "window"), Int(1))
         || !PyEq(At(index, "windows"), EmptyWindows(strategies.items))
         || At(index, "computed") != Arr([])
         || !At(index, "suggested_strategy").Null?
         || !PyEq(rows, RefusedRows(strategies.items, reason.s))
      then None
      else Some(reason.s)
  }

  /** `member_index`: the index every check reads, or the finding that keeps it from being read. */
  datatype MemberIndex = Readable(index: Json) | NoIndex | PageRefuses(field: string)

  function ReadMemberIndex(env: Env, read: Reader, entry: Json): Outcome<MemberIndex, PyError> {
    var envelope :- read(AdvicePath(env, entry, "index.json"));
    if envelope.Null? then Done(NoIndex)
    else
      var index := At(envelope, "payload");
      match PageRefusal(env, index, entry)
      case Some(field) => Done(PageRefuses(field))
      case None => Done(Readable(index))
  }

  /** The key of a stated (strategy, window, rival). */
  function StatedKey(row: Json): (Val, Val, Val) {
    (Canon(At(row, "strategy")), Canon(WindowOf(row)), Canon(At(row, "rival_entry_id")))
  }

  /** `stated_unavailable`, as the set of its keys: every row has its reason once the page
      accepts the index. */
  function StatedUnavailable(index: Json): set<(Val, Val, Val)> {
    var rows := At(index, "unavailable");
    if rows.Arr? then set row | row in rows.items :: StatedKey(row) else {}
  }

  function MenuAbsence(menu: Json): Option<string> {
    if menu.Obj? && At(menu, "available") == Bool(false) && At(menu, "reason").Str?
    then Some(At(menu, "reason").s)
    else None
  }
}
