/** The variants check as it runs: one list of problems, appended to in nested loops. */
module VariantsRun {
  import opened Outcomes
  import opened Lists
  import opened Sorting
  import opened Pricing
  import opened Json
  import opened AdviceIndex
  import opened Walk
  import opened Variants

  method CheckVariants(env: Env, read: Reader) returns (r: Findings)
    ensures r == VariantFindings(env, read)
  {
    var rows :- MemberRows(read);
    var entries :- Each(rows, HumanEntry);
    var problems: seq<Finding> := [];
    var ceilings: seq<Ceiling> := [];
    FlatMapNone(MemberCeilings(env, read), entries);
    for i := 0 to |entries|
      invariant Each(entries[..i], MemberCheck(env, read)) == Done(problems)
      invariant ceilings == FlatMap(entries[..i], MemberCeilings(env, read))
    {
      EachNext(entries, i, MemberCheck(env, read));
      FlatMapNext(entries, i, MemberCeilings(env, read));
      problems, ceilings :- CheckMember(env, read, entries[i], problems, ceilings);
    }
    assert entries[..|entries|] == entries;
    var printed :- PrintSummary(env, ceilings);
    assert problems + [] == problems;
    return Done(problems);
  }

  /** The lines of the summary, window by window. */
  method PrintSummary(env: Env, ceilings: seq<Ceiling>) returns (r: Findings)
    ensures r == Summary(env, ceilings)
    ensures r.Done? ==> r.value == []
  {
    var windows := WindowsIn(ceilings);
    var step := WindowLine(env, ceilings);
    for i := 0 to |windows|
      invariant Each(windows[..i], step) == Done([])
    {
      EachNext(windows, i, step);
      var line :- step(windows[i]);
      assert [] + line == line;
    }
    assert windows[..|windows|] == windows;
    return Done([]);
  }

  method CheckMember(env: Env, read: Reader, entry: Json, before: seq<Finding>, kept: seq<Ceiling>)
    returns (r: Findings, ceilings: seq<Ceiling>)
    ensures r == After(before, MemberFindings(env, read, entry))
    ensures r.Done? ==> ceilings == kept + MemberCeilings(env, read)(entry)
  {
    ceilings := kept;
    assert kept + [] == kept;
    var found :- ReadMemberIndex(env, read, entry);
    match found
    case NoIndex => r := Done(before + [MemberWithoutIndex(entry)]);
    case PageRefuses(field) => r := Done(before + [IndexThePageRefuses(entry, field)]);
    case Readable(index) =>
      if Refusal(index).Some? {
        r := Done(before + []);
      } else if At(index, "menu") == Str("device") {
        r := CheckDevice(env, read, entry, index, before);
      } else {
        r, ceilings := CheckMenu(env, read, entry, index, before, kept);
      }
  }

  method CheckDevice(env: Env, read: Reader, entry: Json, index: Json, before: seq<Finding>) returns (r: Findings)
    ensures r == After(before, DeviceFindings(env, read, entry, index))
  {
    var problems := before;
    var squad :- read(SquadPath(env, entry));
    var block :- Get(SquadPayload(squad), "device_plan");
    var matches :- DeviceInputsMatch(entry, index, SquadPayload(squad), block);
    problems := problems + Unless(matches, DeviceWithoutInputs(entry));
    var baseline :- read(BaselinePath(env, entry));
    problems := problems + Unless(baseline.Null?, DeviceWithBaseline(entry));
    assert problems == before + (Unless(matches, DeviceWithoutInputs(entry)) + Unless(baseline.Null?, DeviceWithBaseline(entry)));
    return Done(problems);
  }

  method CheckMenu(env: Env, read: Reader, entry: Json, index: Json, before: seq<Finding>, kept: seq<Ceiling>)
    returns (r: Findings, ceilings: seq<Ceiling>)
    ensures r == After(before, MenuFindings(env, read, entry, index))
    ensures r.Done? ==> ceilings == kept + FlatMap(MenuTargets(index), TargetCeilings(env, read))
  {
    MenuInOrder(env, read, entry, index, before);
    var problems := before;
    ceilings := kept;
    problems :- CheckPureWindows(env, read, entry, index, problems);
    problems :- CheckChips(env, read, entry, index, problems);
    problems := CheckLongerWindows(entry, index, problems);
    problems := problems + MenuEntryFindings(entry, index);
    r, ceilings := CheckDocuments(env, read, entry, index, problems, kept);
  }

  lemma MenuInOrder(env: Env, read: Reader, entry: Json, index: Json, before: seq<Finding>)
    ensures After(before, MenuFindings(env, read, entry, index))
         == Then(Then(Then(Then(After(before,
              PureFindings(env, read, entry, index)),
              ChipFindings(env, read, entry, index)),
              Each(RivalStrategies(index), StrategyCheck(entry, index))),
              Done(MenuEntryFindings(entry, index))),
              DocumentsFindings(env, read, entry, index))
  {
    var pure := PureFindings(env, read, entry, index);
    var chips := ChipFindings(env, read, entry, index);
    var longer := Each(RivalStrategies(index), StrategyCheck(entry, index));
    var menu: Findings := Done(MenuEntryFindings(entry, index));
    var documents := DocumentsFindings(env, read, entry, index);
    AfterThen(before, pure, Then(chips, Then(longer, Then(menu, documents))));
    ThenAssociates(After(before, pure), chips, Then(longer, Then(menu, documents)));
    ThenAssociates(Then(After(before, pure), chips), longer, Then(menu, documents));
    ThenAssociates(Then(Then(After(before, pure), chips), longer), menu, documents);
  }

  method CheckPureWindows(env: Env, read: Reader, entry: Json, index: Json, before: seq<Finding>) returns (r: Findings)
    ensures r == After(before, PureFindings(env, read, entry, index))
  {
    var windows := WindowsFor(index, PURE);
    var problems := before + Unless(exists w | w in windows :: IsOne(w), NoOneWeekWindow(entry));
    ghost var step, first := WindowCheck(env, read, entry), problems;
    AfterThen(before, Done(Unless(exists w | w in windows :: IsOne(w), NoOneWeekWindow(entry))), Each(windows, step));
    EachEnds(first, windows, step);
    for i := 0 to |windows|
      invariant Ran(first, windows, step, i, problems)
    {
      r := CheckPublished(read, entry, WindowPath(env, entry, windows[i]), problems);
      RanNext(first, windows, step, i, problems, r);
      if r.Raised? {
        return;
      }
      problems := r.value;
    }
    return Done(problems);
  }

  /** A document must be there. */
  method CheckPublished(read: Reader, entry: Json, path: string, before: seq<Finding>) returns (r: Findings)
    ensures r == After(before, Published(read, entry, path))
  {
    var document :- read(path);
    return Done(before + Unless(!document.Null?, NotPublished(entry, path)));
  }

  method CheckChips(env: Env, read: Reader, entry: Json, index: Json, before: seq<Finding>) returns (r: Findings)
    ensures r == After(before, ChipFindings(env, read, entry, index))
  {
    var problems := before;
    if !ChipsAvailable(index) {
      return Done(problems + []);
    }
    var paths := At(At(index, "chips"), "paths");
    if !paths.Obj? || paths.fields == [] {
      return Done(problems + [ChipsWithoutPaths(entry)]);
    }
    var chips := Sort(paths.fields, ByKey);
    ghost var step := ChipCheck(env, read, entry);
    EachEnds(before, chips, step);
    for i := 0 to |chips|
      invariant After(before, Each(chips[..i], step)) == Done(problems)
    {
      EachFrom(before, chips, i, step);
      var path := ChipDocumentPath(env, entry, chips[i].key);
      if chips[i].value != Str(path) {
        problems := problems + [ChipAtAnotherPath(entry, chips[i].key)];
      } else {
        var document :- read(path);
        problems := problems + Unless(!document.Null?, NotPublished(entry, path));
      }
    }
    return Done(problems);
  }

  method CheckLongerWindows(entry: Json, index: Json, before: seq<Finding>) returns (problems: seq<Finding>)
    ensures Done(problems) == After(before, Each(RivalStrategies(index), StrategyCheck(entry, index)))
  {
    problems := before;
    var strategies := RivalStrategies(index);
    ghost var step := StrategyCheck(entry, index);
    EachEnds(before, strategies, step);
    for i := 0 to |strategies|
      invariant After(before, Each(strategies[..i], step)) == Done(problems)
    {
      EachFrom(before, strategies, i, step);
      problems := CheckStrategy(entry, index, strategies[i], problems);
    }
  }

  method CheckStrategy(entry: Json, index: Json, strategy: Json, before: seq<Finding>) returns (problems: seq<Finding>)
    ensures Done(problems) == After(before, StrategyCheck(entry, index)(strategy))
  {
    problems := before;
    var longer := LongerWindows(index);
    ghost var step := LongerWindowCheck(entry, index, strategy);
    EachEnds(before, longer, step);
    for i := 0 to |longer|
      invariant After(before, Each(longer[..i], step)) == Done(problems)
    {
      EachFrom(before, longer, i, step);
      problems := problems + Unless(Accounted(index, strategy, longer[i]), WindowUnaccounted(entry, strategy, longer[i]));
    }
  }

  method CheckDocuments(env: Env, read: Reader, entry: Json, index: Json, before: seq<Finding>, kept: seq<Ceiling>)
    returns (r: Findings, ceilings: seq<Ceiling>)
    ensures r == After(before, DocumentsFindings(env, read, entry, index))
    ensures r.Done? ==> ceilings == kept + FlatMap(MenuTargets(index), TargetCeilings(env, read))
  {
    ceilings := kept;
    var documents :- Documents(index);
    var got :- Each(documents, DocumentKey);
    var named :- Each(documents, DocumentTarget);
    var targets := named + ComputedTargets(index);
    assert MenuTargets(index) == targets;
    NamesInOrder(env, read, entry, index, documents, before, got, named);
    var problems := ReportMissing(entry, MissingKeys(env, ExpectedKeys(index), got), before);
    r, ceilings := CheckTargets(env, read, entry, targets, problems, kept);
  }

  lemma NamesInOrder(
    env: Env, read: Reader, entry: Json, index: Json, documents: seq<Json>, before: seq<Finding>, got: seq<Key>, named: seq<Target>)
    requires Each(documents, DocumentKey) == Done(got) && Each(documents, DocumentTarget) == Done(named)
    ensures After(before, NamesFindings(env, read, entry, index, documents))
         == After(before + MissingFindings(env, entry, ExpectedKeys(index), got),
                  Each(named + ComputedTargets(index), TargetCheck(env, read, entry)))
  {
    AfterThen(before, Done(MissingFindings(env, entry, ExpectedKeys(index), got)),
              Each(named + ComputedTargets(index), TargetCheck(env, read, entry)));
  }

  method ReportMissing(entry: Json, missing: seq<Key>, before: seq<Finding>) returns (problems: seq<Finding>)
    ensures problems == before + seq(|missing|, i requires 0 <= i < |missing| => NoDocumentFor(entry, missing[i]))
  {
    problems := before;
    for i := 0 to |missing|
      invariant problems == before + seq(i, k requires 0 <= k < i => NoDocumentFor(entry, missing[k]))
    {
      problems := problems + [NoDocumentFor(entry, missing[i])];
    }
  }

  method CheckTargets(env: Env, read: Reader, entry: Json, targets: seq<Target>, before: seq<Finding>, kept: seq<Ceiling>)
    returns (r: Findings, ceilings: seq<Ceiling>)
    ensures r == After(before, Each(targets, TargetCheck(env, read, entry)))
    ensures r.Done? ==> ceilings == kept + FlatMap(targets, TargetCeilings(env, read))
  {
    var problems := before;
    ceilings := kept;
    ghost var step, keeps := TargetCheck(env, read, entry), TargetCeilings(env, read);
    EachEnds(before, targets, step);
    FlatMapNone(keeps, targets);
    assert kept + [] == kept;
    for i := 0 to |targets|
      invariant After(before, Each(targets[..i], step)) == Done(problems)
      invariant ceilings == kept + FlatMap(targets[..i], keeps)
    {
      EachFrom(before, targets, i, step);
      FlatMapNext(targets, i, keeps);
      problems, ceilings :- CheckTarget(env, read, entry, targets[i], problems, ceilings);
    }
    return Done(problems), ceilings;
  }

  method CheckTarget(env: Env, read: Reader, entry: Json, t: Target, before: seq<Finding>, kept: seq<Ceiling>)
    returns (r: Findings, ceilings: seq<Ceiling>)
    ensures r == After(before, TargetFindings(env, read, entry, t))
    ensures r.Done? ==> ceilings == kept + TargetCeilings(env, read)(t)
  {
    ceilings := kept;
    assert kept + [] == kept;
    if !t.path.Str? {
      return Raised(TypeError), kept;
    }
    var path := t.path.s;
    var document :- read(path);
    if document.Null? {
      return Done(before + [NotPublished(entry, path)]), kept;
    }
    var p :- Subscript(document, "payload");
    r, ceilings := CheckPayload(env, entry, t, path, p, before, kept);
  }

  method CheckPayload(env: Env, entry: Json, t: Target, path: string, p: Json, before: seq<Finding>, kept: seq<Ceiling>)
    returns (r: Findings, ceilings: seq<Ceiling>)
    ensures r == After(before, PayloadFindings(env, entry, t, path, p))
    ensures r.Done? ==> ceilings == kept + PayloadCeiling(env, t, p)
  {
    ceilings := kept;
    var hits := WalkInto(env, p, path, []);
    assert hits == Hits(env, p, path);
    var status :- Get(p, "solver_status");
    if !Hashable(status) {
      return Raised(TypeError), kept;
    }
    var mode :- Subscript(p, "mode");
    var window :- Subscript(p, "window");
    var weight :- PublishedWeight(p);
    var found := HitFindings(hits);
    found := found + Unless(SameIdentity(t, mode, window, At(p, "rival_entry_id"), weight), IdentityMismatch(entry, path));
    var price :- PriceAgrees(env, p);
    found := found + Unless(price, WrongPrice(entry, path));
    ceilings := kept + PayloadCeiling(env, t, p);
    var weeks :- PlanWeeksAgree(p, t.window);
    found := found + Unless(weeks, WrongPlanWeeks(entry, path));
    found := found + Unless(!(Truthy(t.weight) && !At(p, "optimality_gap").Null?), WeightedGap(entry, path));
    found := found + Unless(!HasPrivateKey(p), PrivateKey(entry, path));
    return Done(before + found), ceilings;
  }
}
