/** Where the variants check reads the tree, in order, and so when it raises. */
module VariantsRaising {
  import opened Outcomes
  import opened Lists
  import opened Sorting
  import opened Json
  import opened AdviceIndex
  import opened Pricing
  import opened Raising
  import opened Variants

  /** A document that was read, or null where the reader raised. */
  function Value(r: Outcome<Json, PyError>): Json {
    if r.Done? then r.value else Null
  }

  // ---- the members ----

  function ListSites(read: Reader): seq<Site> {
    var document := Value(read("members.json"));
    var payload := At(document, "payload");
    [Reads(read("members.json")), Keys(document, "payload"), Keys(payload, "members"), Loops(At(payload, "members"))]
  }

  function RowSites(): Json -> seq<Site> {
    (m: Json) => if At(m, "member_kind") == Str("human") then [Gets(m), Keys(m, "entry_id")] else [Gets(m)]
  }

  function HumanOf(): Json -> seq<Json> {
    (m: Json) => if At(m, "member_kind") == Str("human") then [At(m, "entry_id")] else []
  }

  /** The rows of the members document, where they can be listed. */
  function RowsOf(read: Reader): seq<Json> {
    var rows := MemberRows(read);
    if rows.Done? then rows.value else []
  }

  // ---- a device menu ----

  function HashSites(items: seq<Json>): seq<Site> {
    seq(|items|, i requires 0 <= i < |items| => Hashes(items[i]))
  }

  function FifteenSites(block: Json): seq<Site> {
    if block.Obj? && At(block, "held").Arr? then HashSites(At(block, "held").items) else []
  }

  /** The squad document is asked for its own member once its capture and chips agree. */
  function OwnSites(index: Json, payload: Json): seq<Site> {
    if PyEq(At(payload, "source_snapshot_id"), At(index, "source_snapshot_id"))
       && PyEq(At(payload, "chips"), At(index, "chip_states"))
    then [Gets(if Has(payload, "entry") then At(payload, "entry") else Obj([]))]
    else []
  }

  function AgreeSites(index: Json, payload: Json, block: Json): seq<Site> {
    if HoldsFifteen(block) == Done(true) then OwnSites(index, payload) else []
  }

  function DeviceSites(env: Env, read: Reader, entry: Json, index: Json): seq<Site> {
    var payload := SquadPayload(Value(read(SquadPath(env, entry))));
    var block := At(payload, "device_plan");
    [Reads(read(SquadPath(env, entry)))]
    + ([Gets(payload)]
    + ((FifteenSites(block) + AgreeSites(index, payload, block))
    + [Reads(read(BaselinePath(env, entry)))]))
  }

  // ---- a full menu ----

  function WindowSites(env: Env, read: Reader, entry: Json): Json -> seq<Site> {
    (w: Json) => [Reads(read(WindowPath(env, entry, w)))]
  }

  function ChipSites(env: Env, read: Reader, entry: Json): Entry -> seq<Site> {
    (e: Entry) =>
      if e.value == Str(ChipDocumentPath(env, entry, e.key)) then [Reads(read(ChipDocumentPath(env, entry, e.key)))] else []
  }

  function ChipsSites(env: Env, read: Reader, entry: Json, index: Json): seq<Site> {
    var paths := At(At(index, "chips"), "paths");
    if !ChipsAvailable(index) || !paths.Obj? || paths.fields == [] then []
    else FlatMap(Sort(paths.fields, ByKey), ChipSites(env, read, entry))
  }

  /** The Top 100 documents a menu names, where they can be listed. */
  function DocumentsOf(index: Json): seq<Json> {
    var documents := Documents(index);
    if documents.Done? then documents.value else []
  }

  function LoopSites(index: Json): seq<Site> {
    var documents := At(At(index, "top100"), "documents");
    if MenuAvailable(index) && Truthy(documents) then [Loops(documents)] else []
  }

  function FieldHashes(d: Json): seq<Site> {
    HashSites([At(d, "strategy"), At(d, "window"), At(d, "rival_entry_id"), At(d, "weight")])
  }

  function KeySites(): Json -> seq<Site> {
    (d: Json) =>
      [Keys(d, "strategy")] + ([Keys(d, "window")] + ([Keys(d, "rival_entry_id")] + ([Keys(d, "weight")]
      + FieldHashes(d))))
  }

  function TargetSites(): Json -> seq<Site> {
    (d: Json) => [Keys(d, "path"), Keys(d, "strategy"), Keys(d, "window"), Keys(d, "rival_entry_id"), Keys(d, "weight")]
  }

  function WeightSites(p: Json): seq<Site> {
    if Truthy(At(p, "top100")) then [Gets(At(p, "top100"))] else []
  }

  function WeeksSites(p: Json, window: Json): seq<Site> {
    if NumberOrBool(window) && Less(Int(1), window) && Truthy(At(p, "plan_weeks"))
    then [Compares(window), Counts(At(p, "plan_weeks"))]
    else [Compares(window)]
  }

  function PayloadSites(t: Target, p: Json): seq<Site> {
    [Gets(p)] + ([Hashes(At(p, "solver_status"))] + ([Keys(p, "mode")] + ([Keys(p, "window")]
    + (WeightSites(p) + ([Prices(p)] + WeeksSites(p, t.window))))))
  }

  function ReadSites(read: Reader): Target -> seq<Site> {
    (t: Target) =>
      if !t.path.Str? then [Opens(t.path)]
      else
        var document := Value(read(t.path.s));
        [Reads(read(t.path.s))]
        + if document.Null? then [] else [Keys(document, "payload")] + PayloadSites(t, At(document, "payload"))
  }

  function MenuSites(env: Env, read: Reader, entry: Json, index: Json): seq<Site> {
    FlatMap(WindowsFor(index, PURE), WindowSites(env, read, entry))
    + (ChipsSites(env, read, entry, index) + DocumentsSites(read, index))
  }

  /** The named documents: the loop over them, their keys, their targets, and each one read. */
  function DocumentsSites(read: Reader, index: Json): seq<Site> {
    LoopSites(index)
    + (FlatMap(DocumentsOf(index), KeySites())
    + (FlatMap(DocumentsOf(index), TargetSites())
    + FlatMap(MenuTargets(index), ReadSites(read))))
  }

  // ---- every member, and the summary ----

  function IndexSites(env: Env, read: Reader, entry: Json, index: Json): seq<Site> {
    if Refusal(index).Some? then []
    else if At(index, "menu") == Str("device") then DeviceSites(env, read, entry, index)
    else MenuSites(env, read, entry, index)
  }

  function EntrySites(env: Env, read: Reader): Json -> seq<Site> {
    (entry: Json) =>
      var found := ReadMemberIndex(env, read, entry);
      [Reads(read(AdvicePath(env, entry, "index.json")))]
      + if found.Done? && found.value.Readable? then IndexSites(env, read, entry, found.value.index) else []
  }

  function SummarySites(ceilings: seq<Ceiling>): Val -> seq<Site> {
    (window: Val) => [Averages(Under(ceilings, window))]
  }

  /** The places read for the members, and for the summary. */
  function MembersSites(env: Env, read: Reader, rows: seq<Json>): seq<Site> {
    FlatMap(rows, RowSites()) + FlatMap(FlatMap(rows, HumanOf()), EntrySites(env, read))
  }

  function PrintSites(ceilings: seq<Ceiling>): seq<Site> {
    FlatMap(WindowsIn(ceilings), SummarySites(ceilings))
  }

  /** Every place of the tree the check reads, in order. */
  function VariantSites(env: Env, read: Reader): seq<Site> {
    ListSites(read)
    + (MembersSites(env, read, RowsOf(read)) + PrintSites(Ceilings(env, read, RowsOf(read))))
  }

  // ---- the check raises where its sites fail ----

  lemma FirstOf(env: Env, site: Site, rest: seq<Site>)
    ensures FirstFailure(env, [site] + rest) == if Failure(env, site).Some? then Failure(env, site) else FirstFailure(env, rest)
  {
    assert ([site] + rest)[1..] == rest;
  }

  lemma ListTraces(env: Env, read: Reader)
    ensures Traces(env, MemberRows(read), ListSites(read))
  {
    var document := Value(read("members.json"));
    var payload := At(document, "payload");
    var last := Loops(At(payload, "members"));
    OneSite(env, last);
    FirstOf(env, Keys(payload, "members"), [last]);
    FirstOf(env, Keys(document, "payload"), [Keys(payload, "members"), last]);
    FirstOf(env, Reads(read("members.json")), [Keys(document, "payload"), Keys(payload, "members"), last]);
    assert ListSites(read) == [Reads(read("members.json"))] + [Keys(document, "payload"), Keys(payload, "members"), last];
    assert [Keys(document, "payload"), Keys(payload, "members"), last]
        == [Keys(document, "payload")] + [Keys(payload, "members"), last];
    assert [Keys(payload, "members"), last] == [Keys(payload, "members")] + [last];
  }

  lemma RowTraces(env: Env, m: Json)
    ensures Traces(env, HumanEntry(m), RowSites()(m))
    ensures HumanEntry(m).Done? ==> HumanEntry(m).value == HumanOf()(m)
  {
    OneSite(env, Gets(m));
    OneSite(env, Keys(m, "entry_id"));
    FirstOf(env, Gets(m), [Keys(m, "entry_id")]);
    assert [Gets(m)] + [Keys(m, "entry_id")] == [Gets(m), Keys(m, "entry_id")];
    if m.Obj? {
    } else {
      assert At(m, "member_kind") == Null;
    }
  }

  lemma {:induction false} RowsTrace(env: Env, rows: seq<Json>)
    ensures Traces(env, Each(rows, HumanEntry), FlatMap(rows, RowSites()))
    ensures Each(rows, HumanEntry).Done? ==> Each(rows, HumanEntry).value == FlatMap(rows, HumanOf())
  {
    if rows != [] {
      RowsTrace(env, rows[1..]);
      RowTraces(env, rows[0]);
      TracesThen(env, HumanEntry(rows[0]), RowSites()(rows[0]), Each(rows[1..], HumanEntry), FlatMap(rows[1..], RowSites()));
    }
  }

  lemma {:induction false} HashesTrace(env: Env, items: seq<Json>)
    ensures FirstFailure(env, HashSites(items)) == if exists p | p in items :: !Hashable(p) then Some(TypeError) else None
  {
    if items != [] {
      HashesTrace(env, items[1..]);
      assert HashSites(items) == [Hashes(items[0])] + HashSites(items[1..]);
      FirstOf(env, Hashes(items[0]), HashSites(items[1..]));
      assert forall p :: p in items <==> p == items[0] || p in items[1..];
    }
  }

  lemma FifteenTraces(env: Env, block: Json)
    ensures Traces(env, HoldsFifteen(block), FifteenSites(block))
  {
    if block.Obj? && At(block, "held").Arr? {
      HashesTrace(env, At(block, "held").items);
    }
  }

  lemma OwnTraces(env: Env, entry: Json, index: Json, payload: Json)
    ensures Traces(env, SameInputs(entry, index, payload), OwnSites(index, payload))
  {
    OneSite(env, Gets(if Has(payload, "entry") then At(payload, "entry") else Obj([])));
  }

  lemma InputsTrace(env: Env, entry: Json, index: Json, payload: Json, block: Json)
    ensures Traces(env, DeviceInputsMatch(entry, index, payload, block), FifteenSites(block) + AgreeSites(index, payload, block))
  {
    FifteenTraces(env, block);
    OwnTraces(env, entry, index, payload);
    TracesAfter(env, HoldsFifteen(block), FifteenSites(block), DeviceInputsMatch(entry, index, payload, block),
                AgreeSites(index, payload, block));
  }

  lemma DeviceTraces(env: Env, read: Reader, entry: Json, index: Json)
    ensures Traces(env, DeviceFindings(env, read, entry, index), DeviceSites(env, read, entry, index))
  {
    var r := DeviceFindings(env, read, entry, index);
    var payload := SquadPayload(Value(read(SquadPath(env, entry))));
    var block := At(payload, "device_plan");
    var inputs := FifteenSites(block) + AgreeSites(index, payload, block);
    var last := [Reads(read(BaselinePath(env, entry)))];
    OneSite(env, last[0]);
    InputsTrace(env, entry, index, payload, block);
    FirstFailureAppend(env, inputs, last);
    FirstOf(env, Gets(payload), inputs + last);
    FirstOf(env, Reads(read(SquadPath(env, entry))), [Gets(payload)] + (inputs + last));
  }

  lemma WindowsTrace(env: Env, read: Reader, entry: Json, windows: seq<Json>)
    ensures Traces(env, Each(windows, WindowCheck(env, read, entry)), FlatMap(windows, WindowSites(env, read, entry)))
  {
    forall w | w in windows
      ensures Traces(env, WindowCheck(env, read, entry)(w), WindowSites(env, read, entry)(w))
    {
      OneSite(env, Reads(read(WindowPath(env, entry, w))));
    }
    TracesEach(env, windows, WindowCheck(env, read, entry), WindowSites(env, read, entry));
  }

  lemma PureTraces(env: Env, read: Reader, entry: Json, index: Json)
    ensures Traces(env, PureFindings(env, read, entry, index), FlatMap(WindowsFor(index, PURE), WindowSites(env, read, entry)))
  {
    WindowsTrace(env, read, entry, WindowsFor(index, PURE));
  }

  lemma ChipsReadTrace(env: Env, read: Reader, entry: Json, chips: seq<Entry>)
    ensures Traces(env, Each(chips, ChipCheck(env, read, entry)), FlatMap(chips, ChipSites(env, read, entry)))
  {
    forall e | e in chips
      ensures Traces(env, ChipCheck(env, read, entry)(e), ChipSites(env, read, entry)(e))
    {
      OneSite(env, Reads(read(ChipDocumentPath(env, entry, e.key))));
    }
    TracesEach(env, chips, ChipCheck(env, read, entry), ChipSites(env, read, entry));
  }

  lemma ChipsTrace(env: Env, read: Reader, entry: Json, index: Json)
    ensures Traces(env, ChipFindings(env, read, entry, index), ChipsSites(env, read, entry, index))
  {
    var paths := At(At(index, "chips"), "paths");
    if ChipsAvailable(index) && paths.Obj? && paths.fields != [] {
      ChipsReadTrace(env, read, entry, Sort(paths.fields, ByKey));
    }
  }

  lemma LongerRunsThrough(entry: Json, index: Json)
    ensures Each(RivalStrategies(index), StrategyCheck(entry, index)).Done?
  {
    forall strategy
      ensures StrategyCheck(entry, index)(strategy).Done?
    {
      EachMembers(LongerWindows(index), LongerWindowCheck(entry, index, strategy));
    }
    EachMembers(RivalStrategies(index), StrategyCheck(entry, index));
  }

  lemma DocumentsTrace(env: Env, index: Json)
    ensures Traces(env, Documents(index), LoopSites(index))
  {
    OneSite(env, Loops(At(At(index, "top100"), "documents")));
  }

  lemma KeyTraces(env: Env, d: Json)
    ensures Traces(env, DocumentKey(d), KeySites()(d))
  {
    FieldsHash(env, d);
    FirstOfFour(env, Keys(d, "strategy"), Keys(d, "window"), Keys(d, "rival_entry_id"), Keys(d, "weight"), FieldHashes(d));
  }

  lemma FieldsHash(env: Env, d: Json)
    ensures FirstFailure(env, FieldHashes(d))
         == if Hashable(At(d, "strategy")) && Hashable(At(d, "window")) && Hashable(At(d, "rival_entry_id")) && Hashable(At(d, "weight"))
            then None else Some(TypeError)
  {
    HashesTrace(env, [At(d, "strategy"), At(d, "window"), At(d, "rival_entry_id"), At(d, "weight")]);
  }

  lemma FirstOfFour(env: Env, a: Site, b: Site, c: Site, d: Site, rest: seq<Site>)
    ensures FirstFailure(env, [a] + ([b] + ([c] + ([d] + rest))))
         == if Failure(env, a).Some? then Failure(env, a)
            else if Failure(env, b).Some? then Failure(env, b)
            else if Failure(env, c).Some? then Failure(env, c)
            else if Failure(env, d).Some? then Failure(env, d)
            else FirstFailure(env, rest)
  {
    FirstOf(env, d, rest);
    FirstOf(env, c, [d] + rest);
    FirstOf(env, b, [c] + ([d] + rest));
    FirstOf(env, a, [b] + ([c] + ([d] + rest)));
  }

  lemma TargetTraces(env: Env, d: Json)
    ensures Traces(env, DocumentTarget(d), TargetSites()(d))
  {
    OneSite(env, Keys(d, "weight"));
    FirstOf(env, Keys(d, "rival_entry_id"), [Keys(d, "weight")]);
    FirstOf(env, Keys(d, "window"), [Keys(d, "rival_entry_id")] + [Keys(d, "weight")]);
    FirstOf(env, Keys(d, "strategy"), [Keys(d, "window")] + ([Keys(d, "rival_entry_id")] + [Keys(d, "weight")]));
    FirstOf(env, Keys(d, "path"),
            [Keys(d, "strategy")] + ([Keys(d, "window")] + ([Keys(d, "rival_entry_id")] + [Keys(d, "weight")])));
    assert TargetSites()(d)
        == [Keys(d, "path")] + ([Keys(d, "strategy")] + ([Keys(d, "window")] + ([Keys(d, "rival_entry_id")] + [Keys(d, "weight")])));
  }

  lemma WeightTraces(env: Env, p: Json)
    ensures Traces(env, PublishedWeight(p), WeightSites(p))
  {
    OneSite(env, Gets(At(p, "top100")));
  }

  lemma WeeksTrace(env: Env, p: Json, window: Json)
    ensures Traces(env, PlanWeeksAgree(p, window), WeeksSites(p, window))
  {
    OneSite(env, Compares(window));
    OneSite(env, Counts(At(p, "plan_weeks")));
    FirstOf(env, Compares(window), [Counts(At(p, "plan_weeks"))]);
    assert [Compares(window)] + [Counts(At(p, "plan_weeks"))] == [Compares(window), Counts(At(p, "plan_weeks"))];
  }

  lemma PayloadTraces(env: Env, entry: Json, t: Target, path: string, p: Json)
    ensures Traces(env, PayloadFindings(env, entry, t, path, p), PayloadSites(t, p))
  {
    var weeks := WeeksSites(p, t.window);
    WeeksTrace(env, p, t.window);
    PriceMeaning(env, p);
    FirstOf(env, Prices(p), weeks);
    WeightTraces(env, p);
    FirstFailureAppend(env, WeightSites(p), [Prices(p)] + weeks);
    var weighted := WeightSites(p) + ([Prices(p)] + weeks);
    FirstOf(env, Keys(p, "window"), weighted);
    FirstOf(env, Keys(p, "mode"), [Keys(p, "window")] + weighted);
    FirstOf(env, Hashes(At(p, "solver_status")), [Keys(p, "mode")] + ([Keys(p, "window")] + weighted));
    FirstOf(env, Gets(p), [Hashes(At(p, "solver_status"))] + ([Keys(p, "mode")] + ([Keys(p, "window")] + weighted)));
  }

  lemma ReadTraces(env: Env, read: Reader, entry: Json, t: Target)
    ensures Traces(env, TargetFindings(env, read, entry, t), ReadSites(read)(t))
  {
    if !t.path.Str? {
      OneSite(env, Opens(t.path));
    } else {
      var document := Value(read(t.path.s));
      OneSite(env, Reads(read(t.path.s)));
      if !document.Null? {
        var inside := PayloadSites(t, At(document, "payload"));
        PayloadTraces(env, entry, t, t.path.s, At(document, "payload"));
        FirstOf(env, Keys(document, "payload"), inside);
        FirstOf(env, Reads(read(t.path.s)), [Keys(document, "payload")] + inside);
      } else {
        assert [Reads(read(t.path.s))] + [] == [Reads(read(t.path.s))];
      }
    }
  }

  lemma NamesTrace(env: Env, read: Reader, entry: Json, index: Json, documents: seq<Json>)
    requires Documents(index) == Done(documents)
    ensures Traces(env, NamesFindings(env, read, entry, index, documents),
                   FlatMap(documents, KeySites())
                   + (FlatMap(documents, TargetSites()) + FlatMap(MenuTargets(index), ReadSites(read))))
  {
    var r := NamesFindings(env, read, entry, index, documents);
    var (keys, named) := (Each(documents, DocumentKey), Each(documents, DocumentTarget));
    forall d | d in documents
      ensures Traces(env, DocumentKey(d), KeySites()(d)) && Traces(env, DocumentTarget(d), TargetSites()(d))
    {
      KeyTraces(env, d);
      TargetTraces(env, d);
    }
    TracesEach(env, documents, DocumentKey, KeySites());
    TracesEach(env, documents, DocumentTarget, TargetSites());
    var rest := FlatMap(MenuTargets(index), ReadSites(read));
    if keys.Done? {
      if named.Done? {
        RowsReadTrace(env, read, entry, index, keys.value, named.value);
      }
      TracesAfter(env, named, FlatMap(documents, TargetSites()), r, rest);
    }
    TracesAfter(env, keys, FlatMap(documents, KeySites()), r, FlatMap(documents, TargetSites()) + rest);
  }

  lemma RowsReadTrace(env: Env, read: Reader, entry: Json, index: Json, got: seq<Key>, named: seq<Target>)
    ensures Traces(env, NamedFindings(env, read, entry, ExpectedKeys(index), got, named + ComputedTargets(index)),
                   FlatMap(named + ComputedTargets(index), ReadSites(read)))
  {
    var targets := named + ComputedTargets(index);
    forall t | t in targets
      ensures Traces(env, TargetCheck(env, read, entry)(t), ReadSites(read)(t))
    {
      ReadTraces(env, read, entry, t);
    }
    TracesEach(env, targets, TargetCheck(env, read, entry), ReadSites(read));
  }

  lemma DocumentsFindingsTrace(env: Env, read: Reader, entry: Json, index: Json)
    ensures Traces(env, DocumentsFindings(env, read, entry, index), DocumentsSites(read, index))
  {
    DocumentsTrace(env, index);
    if Documents(index).Done? {
      NamesTrace(env, read, entry, index, Documents(index).value);
    }
    TracesAfter(env, Documents(index), LoopSites(index), DocumentsFindings(env, read, entry, index),
                FlatMap(DocumentsOf(index), KeySites())
                + (FlatMap(DocumentsOf(index), TargetSites()) + FlatMap(MenuTargets(index), ReadSites(read))));
  }

  lemma MenuTraces(env: Env, read: Reader, entry: Json, index: Json)
    ensures Traces(env, MenuFindings(env, read, entry, index), MenuSites(env, read, entry, index))
  {
    var (pure, chips) := (PureFindings(env, read, entry, index), ChipFindings(env, read, entry, index));
    var longer := Each(RivalStrategies(index), StrategyCheck(entry, index));
    var menu: Findings := Done(MenuEntryFindings(entry, index));
    var documents := DocumentsFindings(env, read, entry, index);
    var last := DocumentsSites(read, index);
    DocumentsFindingsTrace(env, read, entry, index);
    LongerRunsThrough(entry, index);
    ChipsTrace(env, read, entry, index);
    PureTraces(env, read, entry, index);
    assert Traces(env, Then(longer, Then(menu, documents)), last);
    TracesThen(env, chips, ChipsSites(env, read, entry, index), Then(longer, Then(menu, documents)), last);
    TracesThen(env, pure, FlatMap(WindowsFor(index, PURE), WindowSites(env, read, entry)),
               Then(chips, Then(longer, Then(menu, documents))), ChipsSites(env, read, entry, index) + last);
  }

  lemma IndexTraces(env: Env, read: Reader, entry: Json, index: Json)
    ensures Traces(env, IndexFindings(env, read, entry, index), IndexSites(env, read, entry, index))
  {
    if Refusal(index).None? {
      if At(index, "menu") == Str("device") {
        DeviceTraces(env, read, entry, index);
      } else {
        MenuTraces(env, read, entry, index);
      }
    }
  }

  lemma EntryTraces(env: Env, read: Reader, entry: Json)
    ensures Traces(env, MemberFindings(env, read, entry), EntrySites(env, read)(entry))
  {
    var found := ReadMemberIndex(env, read, entry);
    var first := Reads(read(AdvicePath(env, entry, "index.json")));
    OneSite(env, first);
    if found.Done? && found.value.Readable? {
      IndexTraces(env, read, entry, found.value.index);
      FirstOf(env, first, IndexSites(env, read, entry, found.value.index));
    } else {
      assert [first] + [] == [first];
    }
  }

  lemma RowsFindingsTrace(env: Env, read: Reader, rows: seq<Json>)
    ensures Traces(env, RowsFindings(env, read, rows), MembersSites(env, read, rows))
  {
    RowsTrace(env, rows);
    var entries := FlatMap(rows, HumanOf());
    forall entry | entry in entries
      ensures Traces(env, MemberCheck(env, read)(entry), EntrySites(env, read)(entry))
    {
      EntryTraces(env, read, entry);
    }
    TracesEach(env, entries, MemberCheck(env, read), EntrySites(env, read));
    TracesAfter(env, Each(rows, HumanEntry), FlatMap(rows, RowSites()), RowsFindings(env, read, rows),
                FlatMap(entries, EntrySites(env, read)));
  }

  lemma LineTraces(env: Env, ceilings: seq<Ceiling>, window: Val)
    ensures Traces(env, WindowLine(env, ceilings)(window), SummarySites(ceilings)(window))
  {
    OneSite(env, Averages(Under(ceilings, window)));
  }

  lemma SummaryTraces(env: Env, ceilings: seq<Ceiling>)
    ensures Traces(env, Summary(env, ceilings), PrintSites(ceilings))
  {
    forall window | window in WindowsIn(ceilings)
      ensures Traces(env, WindowLine(env, ceilings)(window), SummarySites(ceilings)(window))
    {
      LineTraces(env, ceilings, window);
    }
    TracesEach(env, WindowsIn(ceilings), WindowLine(env, ceilings), SummarySites(ceilings));
  }

  lemma RunTraces(env: Env, read: Reader, rows: seq<Json>)
    ensures Traces(env, Then(RowsFindings(env, read, rows), Summary(env, Ceilings(env, read, rows))),
                   MembersSites(env, read, rows) + PrintSites(Ceilings(env, read, rows)))
  {
    RowsFindingsTrace(env, read, rows);
    SummaryTraces(env, Ceilings(env, read, rows));
    TracesThen(env, RowsFindings(env, read, rows), MembersSites(env, read, rows),
               Summary(env, Ceilings(env, read, rows)), PrintSites(Ceilings(env, read, rows)));
  }

  /** The check raises exactly where the first of its sites fails, with that site's error. */
  lemma VariantsTrace(env: Env, read: Reader)
    ensures Traces(env, VariantFindings(env, read), VariantSites(env, read))
  {
    ListTraces(env, read);
    var rows := RowsOf(read);
    RunTraces(env, read, rows);
    TracesAfter(env, MemberRows(read), ListSites(read), VariantFindings(env, read),
                MembersSites(env, read, rows) + PrintSites(Ceilings(env, read, rows)));
  }

  /** The variants check ends with an error the release check does not catch exactly when the
      first site that fails is one that escapes. */
  lemma VariantsEscape(env: Env, read: Reader)
    ensures VariantFindings(env, read).Raised? && VariantFindings(env, read).error in {AttributeError, ArithmeticError}
       <==> EscapesFirst(env, VariantSites(env, read))
  {
    VariantsTrace(env, read);
    EscapesFirstMeans(env, VariantFindings(env, read), VariantSites(env, read));
  }

  /** A document whose price is an integer past every float, with a decimal ceiling: the price
      check raises on it instead of reporting it. */
  lemma HugePriceRaises(env: Env, entry: Json, t: Target, path: string, p: Json, n: nat, ceiling: real)
    requires !env.Fits(n as real) && p.Obj?
    requires At(p, "expected_points_cost") == Int(n) && At(p, "expected_points_cost_ceiling") == Dec(ceiling)
    requires Anchor(p) == Str("OPTIMAL") && Has(p, "mode") && Has(p, "window")
    requires At(p, "solver_status") == Str("OPTIMAL") && At(p, "top100") == Null
    ensures PayloadFindings(env, entry, t, path, p) == Raised(ArithmeticError)
  {
    assert PriceOverflows(env, p);
  }
}
