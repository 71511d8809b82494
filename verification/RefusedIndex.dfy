/** The index the producer writes for a member it could not advise, and the recogniser of it:
    each undoes the other. */
module RefusedIndex {
  import opened Outcomes
  import opened Json
  import opened AdviceIndex

  /** The identity a member is rendered under. The entry id is the directory's own number. */
  datatype Task = Task(
    leagueId: int,
    season: string,
    gameweek: int,
    entry: Json,
    rivals: seq<int>,
    defaultRival: Option<int>,
    rivalStrategies: seq<string>
  ) {
    function Strategies(): seq<string> { [PURE] + rivalStrategies }
  }

  predicate SafeId(n: int) {
    0 < n <= MAX_SAFE_INTEGER
  }

  predicate ValidTask(t: Task) {
    && SafeId(t.leagueId)
    && SafeId(t.gameweek)
    && Number(t.entry) && !t.entry.NaN?
    && (forall r | r in t.rivals :: SafeId(r))
    && (t.defaultRival.Some? ==> SafeId(t.defaultRival.value))
    && Distinct(Strings(t.Strategies()))
  }

  function Ints(ns: seq<int>): seq<Json> {
    seq(|ns|, i requires 0 <= i < |ns| => Int(ns[i]))
  }

  function DefaultRival(t: Task): Json {
    match t.defaultRival
    case None => Null
    case Some(r) => Int(r)
  }

  /** The producer's keys, in the order it writes them. */
  const KEYS: seq<string> := [
    "league_id", "season", "gameweek", "entry_id", "window", "windows", "strategies",
    "rival_entry_ids", "default_rival_entry_id", "suggested_strategy", "computed", "unavailable"
  ]

  function Keyed(values: seq<Json>): seq<Entry>
    requires |values| == |KEYS|
  {
    seq(|KEYS|, i requires 0 <= i < |KEYS| => Entry(KEYS[i], values[i]))
  }

  function Values(t: Task, reason: string): seq<Json> {
    var strategies := Strings(t.Strategies());
    [
      Int(t.leagueId), Str(t.season), Int(t.gameweek), t.entry, Int(1), EmptyWindows(strategies),
      Arr(strategies), Arr(Ints(t.rivals)), DefaultRival(t), Null, Arr([]),
      RefusedRows(strategies, reason)
    ]
  }

  /** `_refused_member_index` */
  function Produce(t: Task, reason: string): Json {
    Obj(Keyed(Values(t, reason)))
  }

  lemma {:induction false} FieldOfEntry(fields: seq<Entry>, i: nat)
    requires i < |fields|
    requires forall j | 0 <= j < i :: fields[j].key != fields[i].key
    ensures HasField(fields, fields[i].key) && Field(fields, fields[i].key) == fields[i].value
  {
    if i > 0 {
      FieldOfEntry(fields[1..], i - 1);
    }
  }

  lemma KeysDistinct(i: nat, j: nat)
    requires i < j < |KEYS|
    ensures KEYS[i] != KEYS[j]
  {
    assert |KEYS[i]| == [9, 6, 8, 8, 6, 7, 10, 15, 22, 18, 8, 11][i];
    assert |KEYS[j]| == [9, 6, 8, 8, 6, 7, 10, 15, 22, 18, 8, 11][j];
    assert KEYS[i][0] == ['l', 's', 'g', 'e', 'w', 'w', 's', 'r', 'd', 's', 'c', 'u'][i];
    assert KEYS[j][0] == ['l', 's', 'g', 'e', 'w', 'w', 's', 'r', 'd', 's', 'c', 'u'][j];
  }

  /** Every field, read back by its name. */
  lemma KeyedFields(values: seq<Json>)
    requires |values| == |KEYS|
    ensures forall i | 0 <= i < |KEYS| ::
              HasField(Keyed(values), KEYS[i]) && Field(Keyed(values), KEYS[i]) == values[i]
    ensures KeysOf(Keyed(values)) == KEYS
  {
    forall i | 0 <= i < |KEYS|
      ensures HasField(Keyed(values), KEYS[i]) && Field(Keyed(values), KEYS[i]) == values[i]
    {
      forall j | 0 <= j < i
        ensures Keyed(values)[j].key != Keyed(values)[i].key
      {
        KeysDistinct(j, i);
      }
      FieldOfEntry(Keyed(values), i);
    }
  }

  lemma KeySet()
    ensures (set key | key in KEYS) == REFUSED_INDEX_KEYS
  {
    forall key | key in REFUSED_INDEX_KEYS
      ensures key in KEYS
    {
      KeyIn(key);
    }
    forall key | key in KEYS
      ensures key in REFUSED_INDEX_KEYS
    {
      var i :| 0 <= i < |KEYS| && KEYS[i] == key;
    }
  }

  lemma KeyIn(key: string)
    requires key in REFUSED_INDEX_KEYS
    ensures key in KEYS
  {
    assert KEYS[0] in KEYS && KEYS[1] in KEYS && KEYS[2] in KEYS && KEYS[3] in KEYS;
    assert KEYS[4] in KEYS && KEYS[5] in KEYS && KEYS[6] in KEYS && KEYS[7] in KEYS;
    assert KEYS[8] in KEYS && KEYS[9] in KEYS && KEYS[10] in KEYS && KEYS[11] in KEYS;
  }

  /** The rows and windows the recogniser expects, for strategies that are all texts. */
  lemma RowsArePageValid(strategies: seq<string>, reason: string)
    ensures ListOf(RefusedRows(Strings(strategies), reason), UnavailableRow)
    ensures forall i | 0 <= i < |strategies| ::
              At(RefusedRows(Strings(strategies), reason).items[i], "reason") == Str(reason)
  {
    forall i | 0 <= i < |strategies|
      ensures UnavailableRow(RefusedRow(Str(strategies[i]), reason))
      ensures At(RefusedRow(Str(strategies[i]), reason), "reason") == Str(reason)
    {
      var fields := RefusedRow(Str(strategies[i]), reason).fields;
      FieldOfEntry(fields, 0);
      FieldOfEntry(fields, 1);
      FieldOfEntry(fields, 2);
      assert fields[2] == Entry("reason", Str(reason));
      assert !HasField(fields[3..], "window");
      assert !HasField(fields[2..], "window");
      assert !HasField(fields[1..], "window");
      assert !HasField(fields, "window");
    }
  }

  lemma {:induction false} NotAKey(fields: seq<Entry>, key: string)
    requires key !in KeysOf(fields)
    ensures !HasField(fields, key) && Field(fields, key) == Null
  {
    if fields != [] {
      assert KeysOf(fields) == [fields[0].key] + KeysOf(fields[1..]);
      NotAKey(fields[1..], key);
    }
  }

  lemma MenuIsNoKey()
    ensures "menu" !in KEYS
  {
    forall i | 0 <= i < |KEYS|
      ensures KEYS[i] != "menu"
    {
      assert |KEYS[i]| == [9, 6, 8, 8, 6, 7, 10, 15, 22, 18, 8, 11][i];
    }
  }

  lemma NoMenuField(values: seq<Json>)
    requires |values| == |KEYS|
    ensures !HasField(Keyed(values), "menu") && Field(Keyed(values), "menu") == Null
  {
    MenuIsNoKey();
    assert KeysOf(Keyed(values)) == KEYS;
    NotAKey(Keyed(values), "menu");
  }

  /** What a reader finds in an index produced for a task. */
  ghost predicate ReadsAs(index: Json, t: Task, reason: string) {
    var strategies := Strings(t.Strategies());
    && index.Obj?
    && (set key | key in KeysOf(index.fields)) == REFUSED_INDEX_KEYS
    && At(index, "league_id") == Int(t.leagueId)
    && At(index, "season") == Str(t.season)
    && At(index, "gameweek") == Int(t.gameweek)
    && At(index, "entry_id") == t.entry
    && At(index, "window") == Int(1)
    && Has(index, "windows") && At(index, "windows") == EmptyWindows(strategies)
    && At(index, "strategies") == Arr(strategies)
    && At(index, "rival_entry_ids") == Arr(Ints(t.rivals))
    && Has(index, "default_rival_entry_id") && At(index, "default_rival_entry_id") == DefaultRival(t)
    && At(index, "suggested_strategy") == Null
    && At(index, "computed") == Arr([])
    && At(index, "unavailable") == RefusedRows(strategies, reason)
    && !Has(index, "menu") && At(index, "menu") == Null
  }

  lemma ProducedReadsAs(t: Task, reason: string)
    ensures ReadsAs(Produce(t, reason), t, reason)
  {
    var values := Values(t, reason);
    var fields := Keyed(values);
    KeyedFields(values);
    NoMenuField(values);
    KeySet();
    assert Field(fields, KEYS[0]) == values[0] && Field(fields, KEYS[1]) == values[1];
    assert Field(fields, KEYS[2]) == values[2] && Field(fields, KEYS[3]) == values[3];
    assert Field(fields, KEYS[4]) == values[4] && Field(fields, KEYS[5]) == values[5] && HasField(fields, KEYS[5]);
    assert Field(fields, KEYS[6]) == values[6] && Field(fields, KEYS[7]) == values[7];
    assert Field(fields, KEYS[8]) == values[8] && HasField(fields, KEYS[8]);
    assert Field(fields, KEYS[9]) == values[9];
    assert Field(fields, KEYS[10]) == values[10] && Field(fields, KEYS[11]) == values[11];
  }

  /** The page accepts it. */
  lemma PageAccepts(env: Env, index: Json, t: Task, reason: string)
    requires ValidTask(t) && ReadsAs(index, t, reason)
    ensures PageRefusal(env, index, t.entry) == None
  {
    RowsArePageValid(t.Strategies(), reason);
    forall x | x in Ints(t.rivals)
      ensures Positive(x)
    {
      var i :| 0 <= i < |t.rivals| && x == Int(t.rivals[i]);
      assert t.rivals[i] in t.rivals;
    }
    assert WindowsTable(index);
  }

  /** The recogniser reads back exactly the reason that was written. */
  lemma Recognised(index: Json, t: Task, reason: string)
    requires ValidTask(t) && ReadsAs(index, t, reason)
    ensures Refusal(index) == Some(reason)
  {
    RowsArePageValid(t.Strategies(), reason);
    assert At(At(index, "unavailable").items[0], "reason") == Str(reason);
  }

  lemma ProducedRoundTrip(env: Env, t: Task, reason: string)
    requires ValidTask(t)
    ensures PageRefusal(env, Produce(t, reason), t.entry) == None
    ensures Refusal(Produce(t, reason)) == Some(reason)
  {
    ProducedReadsAs(t, reason);
    PageAccepts(env, Produce(t, reason), t, reason);
    Recognised(Produce(t, reason), t, reason);
  }

  /** The task a recognised index was produced for. */
  function TaskOf(index: Json): Task {
    var rivals := At(index, "rival_entry_ids");
    var fallback := At(index, "default_rival_entry_id");
    var strategies := At(index, "strategies");
    Task(
      Truncated(At(index, "league_id")),
      if At(index, "season").Str? then At(index, "season").s else "",
      Truncated(At(index, "gameweek")),
      At(index, "entry_id"),
      if rivals.Arr? then seq(|rivals.items|, i requires 0 <= i < |rivals.items| => Truncated(rivals.items[i])) else [],
      if fallback.Null? then None else Some(Truncated(fallback)),
      if strategies.Arr? && strategies.items != []
      then seq(|strategies.items| - 1, i requires 0 <= i < |strategies.items| - 1 =>
                 if strategies.items[i + 1].Str? then strategies.items[i + 1].s else "")
      else []
    )
  }

  /** A number the page reads as an id is the integer it truncates to. */
  lemma PositiveIsItsInteger(j: Json)
    requires Positive(j)
    ensures SafeId(Truncated(j)) && Canon(j) == Canon(Int(Truncated(j)))
  {
  }

  lemma StrategiesReadBack(index: Json)
    requires ListOf(At(index, "strategies"), Text)
    requires At(index, "strategies").items != [] && At(index, "strategies").items[0] == Str(PURE)
    ensures Strings(TaskOf(index).Strategies()) == At(index, "strategies").items
  {
    var items := At(index, "strategies").items;
    var read := TaskOf(index).Strategies();
    assert |read| == |items|;
    forall i | 0 <= i < |items|
      ensures Str(read[i]) == items[i]
    {
      assert items[i] in items && Text(items[i]);
    }
  }

  /** The converse: an index the page accepts and the recogniser reads a reason from is, up to
      `==`, the index the producer writes for one valid task and that reason. */
  lemma RecognisedIsProduced(env: Env, index: Json, entry: Json)
    requires PageRefusal(env, index, entry) == None
    requires Refusal(index).Some?
    ensures ValidTask(TaskOf(index))
    ensures Canon(index) == Canon(Produce(TaskOf(index), Refusal(index).value))
  {
    PageHolds(env, index, entry);
    RecogniserHolds(index);
    RecognisedTask(index, Refusal(index).value);
    RecognisedReadsLike(index, Refusal(index).value);
    SameKeys(index);
    LikeIsProduced(index, TaskOf(index), Refusal(index).value);
  }

  lemma LikeIsProduced(index: Json, t: Task, reason: string)
    requires index.Obj? && (set key | key in KeysOf(index.fields)) == (set key | key in KEYS)
    requires ReadsLike(index, t, reason)
    ensures Canon(index) == Canon(Produce(t, reason))
  {
    forall i | 0 <= i < |KEYS|
      ensures Canon(Field(index.fields, KEYS[i])) == Canon(Values(t, reason)[i])
    {
      SameValue(index, t, reason, i);
    }
    SameAsKeyed(index.fields, Values(t, reason));
  }

  lemma SameAsKeyed(fields: seq<Entry>, values: seq<Json>)
    requires |values| == |KEYS| && (set key | key in KeysOf(fields)) == (set key | key in KEYS)
    requires forall i | 0 <= i < |KEYS| :: Canon(Field(fields, KEYS[i])) == Canon(values[i])
    ensures Canon(Obj(fields)) == Canon(Obj(Keyed(values)))
  {
    KeyedFields(values);
    CanonObj(Keyed(values), fields);
  }

  lemma SameKeys(index: Json)
    requires Refusal(index).Some?
    ensures index.Obj? && (set key | key in KeysOf(index.fields)) == (set key | key in KEYS)
  {
    KeySet();
  }

  /** What the page has checked of the fields a task is read from. */
  ghost predicate PageFacts(index: Json) {
    && Positive(At(index, "league_id")) && Positive(At(index, "gameweek"))
    && At(index, "season").Str?
    && Number(At(index, "entry_id")) && !At(index, "entry_id").NaN?
    && ListOf(At(index, "strategies"), Text)
    && ListOf(At(index, "rival_entry_ids"), Positive)
    && NullOrPositive(At(index, "default_rival_entry_id"))
  }

  /** And what the recogniser has checked of the others. */
  ghost predicate RecogniserFacts(index: Json, reason: string) {
    && At(index, "strategies").Arr? && At(index, "strategies").items != []
    && At(index, "strategies").items[0] == Str(PURE)
    && Distinct(At(index, "strategies").items)
    && PyEq(At(index, "window"), Int(1))
    && PyEq(At(index, "windows"), EmptyWindows(At(index, "strategies").items))
    && At(index, "computed") == Arr([])
    && At(index, "suggested_strategy").Null?
    && PyEq(At(index, "unavailable"), RefusedRows(At(index, "strategies").items, reason))
  }

  lemma PageHolds(env: Env, index: Json, entry: Json)
    requires PageRefusal(env, index, entry) == None
    ensures PageFacts(index)
  {
  }

  lemma RecogniserHolds(index: Json)
    requires Refusal(index).Some?
    ensures RecogniserFacts(index, Refusal(index).value)
  {
  }

  lemma RecognisedTask(index: Json, reason: string)
    requires PageFacts(index) && RecogniserFacts(index, reason)
    ensures ValidTask(TaskOf(index))
  {
    StrategiesReadBack(index);
    PositiveIsItsInteger(At(index, "league_id"));
    PositiveIsItsInteger(At(index, "gameweek"));
    RivalsReadBack(index);
  }

  lemma RivalsReadBack(index: Json)
    requires ListOf(At(index, "rival_entry_ids"), Positive)
    ensures Canon(At(index, "rival_entry_ids")) == Canon(Arr(Ints(TaskOf(index).rivals)))
    ensures forall r | r in TaskOf(index).rivals :: SafeId(r)
  {
    var items := At(index, "rival_entry_ids").items;
    forall i | 0 <= i < |items|
      ensures SafeId(Truncated(items[i])) && Canon(items[i]) == Canon(Int(Truncated(items[i])))
    {
      PositiveIsItsInteger(items[i]);
    }
    CanonArr(items, Ints(TaskOf(index).rivals));
  }

  /** What the page and the recogniser have checked, read as a task, field by field up to `==`. */
  ghost predicate ReadsLike(index: Json, t: Task, reason: string) {
    var strategies := Strings(t.Strategies());
    && Canon(At(index, "league_id")) == Canon(Int(t.leagueId))
    && At(index, "season") == Str(t.season)
    && Canon(At(index, "gameweek")) == Canon(Int(t.gameweek))
    && At(index, "entry_id") == t.entry
    && Canon(At(index, "window")) == Canon(Int(1))
    && Canon(At(index, "windows")) == Canon(EmptyWindows(strategies))
    && At(index, "strategies") == Arr(strategies)
    && Canon(At(index, "rival_entry_ids")) == Canon(Arr(Ints(t.rivals)))
    && Canon(At(index, "default_rival_entry_id")) == Canon(DefaultRival(t))
    && At(index, "suggested_strategy") == Null
    && At(index, "computed") == Arr([])
    && Canon(At(index, "unavailable")) == Canon(RefusedRows(strategies, reason))
  }

  lemma RecognisedReadsLike(index: Json, reason: string)
    requires PageFacts(index) && RecogniserFacts(index, reason)
    ensures ReadsLike(index, TaskOf(index), reason)
  {
    StrategiesReadBack(index);
    PositiveIsItsInteger(At(index, "league_id"));
    PositiveIsItsInteger(At(index, "gameweek"));
    RivalsReadBack(index);
    if !At(index, "default_rival_entry_id").Null? {
      PositiveIsItsInteger(At(index, "default_rival_entry_id"));
    }
  }

  lemma SameValue(index: Json, t: Task, reason: string, i: nat)
    requires i < |KEYS| && ReadsLike(index, t, reason)
    ensures Canon(At(index, KEYS[i])) == Canon(Values(t, reason)[i])
  {
    if i < 3 {
      SameMember(index, t, reason, i);
    } else if i < 6 {
      SameWindows(index, t, reason, i);
    } else if i < 9 {
      SameLists(index, t, reason, i);
    } else {
      SameRest(index, t, reason, i);
    }
  }

  lemma SameMember(index: Json, t: Task, reason: string, i: nat)
    requires i < 3 && ReadsLike(index, t, reason)
    ensures Canon(At(index, KEYS[i])) == Canon(Values(t, reason)[i])
  {
    assert KEYS[0] == "league_id" && KEYS[1] == "season" && KEYS[2] == "gameweek";
  }

  lemma SameWindows(index: Json, t: Task, reason: string, i: nat)
    requires 3 <= i < 6 && ReadsLike(index, t, reason)
    ensures Canon(At(index, KEYS[i])) == Canon(Values(t, reason)[i])
  {
    assert KEYS[3] == "entry_id" && KEYS[4] == "window" && KEYS[5] == "windows";
  }

  lemma SameLists(index: Json, t: Task, reason: string, i: nat)
    requires 6 <= i < 9 && ReadsLike(index, t, reason)
    ensures Canon(At(index, KEYS[i])) == Canon(Values(t, reason)[i])
  {
    assert KEYS[6] == "strategies" && KEYS[7] == "rival_entry_ids" && KEYS[8] == "default_rival_entry_id";
  }

  lemma SameRest(index: Json, t: Task, reason: string, i: nat)
    requires 9 <= i < |KEYS| && ReadsLike(index, t, reason)
    ensures Canon(At(index, KEYS[i])) == Canon(Values(t, reason)[i])
  {
    assert KEYS[9] == "suggested_strategy" && KEYS[10] == "computed" && KEYS[11] == "unavailable";
  }
}
