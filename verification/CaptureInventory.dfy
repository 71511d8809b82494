/** Which capture of a gameweek counts: the writer's "newest" and the reader's "scored". */
module CaptureInventory {
  import opened Outcomes
  import opened Lists
  import opened Sorting

  const FPL_LIVE_SOURCE := "fpl-live"

  /** A stored capture, with what `read_inputs` reads in it. Instants are integers. */
  datatype Capture = Capture(
    id: string,
    source: string,
    hasBootstrap: bool,
    season: string,
    gameweek: int,
    capturedAt: int,
    deadline: int
  )

  datatype Row = Row(id: string, capturedAt: int)

  datatype InventoryError = ForeignSource | DecisionCaptureAbsent

  predicate SameWeek(inputs: Capture, c: Capture) {
    c.hasBootstrap && c.season == inputs.season && c.gameweek == inputs.gameweek
  }

  function RowOf(c: Capture): Row {
    Row(c.id, c.capturedAt)
  }

  predicate RowLeq(a: Row, b: Row) {
    a.capturedAt < b.capturedAt || (a.capturedAt == b.capturedAt && TextLeq(a.id, b.id))
  }

  /** The rows `_gameweek_captures` collects, in listing order. */
  function WeekRows(inventory: seq<Capture>, inputs: Capture): seq<Row> {
    if inventory == [] then []
    else (if SameWeek(inputs, inventory[0]) then [RowOf(inventory[0])] else []) + WeekRows(inventory[1..], inputs)
  }

  function SkippedIds(inventory: seq<Capture>): seq<string> {
    if inventory == [] then []
    else (if inventory[0].hasBootstrap then [] else [inventory[0].id]) + SkippedIds(inventory[1..])
  }

  lemma {:induction false} WeekRowsNext(inventory: seq<Capture>, i: nat, inputs: Capture)
    requires i < |inventory|
    ensures WeekRows(inventory[..i + 1], inputs)
         == WeekRows(inventory[..i], inputs) + if SameWeek(inputs, inventory[i]) then [RowOf(inventory[i])] else []
    ensures SkippedIds(inventory[..i + 1])
         == SkippedIds(inventory[..i]) + if inventory[i].hasBootstrap then [] else [inventory[i].id]
  {
    if i > 0 {
      WeekRowsNext(inventory[1..], i - 1, inputs);
      assert inventory[..i + 1][1..] == inventory[1..][..i] && inventory[..i][1..] == inventory[1..][..i - 1];
    }
  }

  lemma {:induction false} WeekRowMembers(inventory: seq<Capture>, inputs: Capture)
    ensures forall row :: row in WeekRows(inventory, inputs)
              <==> exists c | c in inventory :: SameWeek(inputs, c) && row == RowOf(c)
  {
    if inventory != [] {
      WeekRowMembers(inventory[1..], inputs);
      assert forall c :: c in inventory <==> c == inventory[0] || c in inventory[1..];
    }
  }

  /** `_gameweek_captures`: every capture of the decision capture's own season and gameweek. */
  method GameweekCaptures(inventory: seq<Capture>, inputs: Capture)
    returns (r: Outcome<(seq<Row>, seq<string>), InventoryError>)
    ensures r == Raised(ForeignSource) <==> exists c | c in inventory :: c.source != FPL_LIVE_SOURCE
    ensures r == Raised(DecisionCaptureAbsent) <==>
              && (forall c | c in inventory :: c.source == FPL_LIVE_SOURCE)
              && !exists row | row in WeekRows(inventory, inputs) :: row.id == inputs.id
    ensures r.Done? ==> r.value == (Sort(WeekRows(inventory, inputs), RowLeq), Sort(SkippedIds(inventory), TextLeq))
  {
    var captures: seq<Row> := [];
    var skipped: seq<string> := [];
    for i := 0 to |inventory|
      invariant captures == WeekRows(inventory[..i], inputs)
      invariant skipped == SkippedIds(inventory[..i])
      invariant forall k | 0 <= k < i :: inventory[k].source == FPL_LIVE_SOURCE
    {
      WeekRowsNext(inventory, i, inputs);
      var c := inventory[i];
      if c.source != FPL_LIVE_SOURCE {
        return Raised(ForeignSource);
      }
      if !c.hasBootstrap {
        skipped := skipped + [c.id];
      } else if c.season == inputs.season && c.gameweek == inputs.gameweek {
        captures := captures + [RowOf(c)];
      }
    }
    assert inventory[..|inventory|] == inventory;
    if !exists row | row in captures :: row.id == inputs.id {
      return Raised(DecisionCaptureAbsent);
    }
    return Done((Sort(captures, RowLeq), Sort(skipped, TextLeq)));
  }

  function Latest(rows: seq<Row>): int
    requires rows != []
  {
    if |rows| == 1 then rows[0].capturedAt
    else
      var rest := Latest(rows[1..]);
      if rows[0].capturedAt > rest then rows[0].capturedAt else rest
  }

  lemma {:induction false} LatestIsMax(rows: seq<Row>)
    requires rows != []
    ensures forall row | row in rows :: row.capturedAt <= Latest(rows)
    ensures exists row | row in rows :: row.capturedAt == Latest(rows)
  {
    if |rows| > 1 {
      LatestIsMax(rows[1..]);
      var row :| row in rows[1..] && row.capturedAt == Latest(rows[1..]);
      assert row in rows && rows[0] in rows;
    } else {
      assert rows[0] in rows;
    }
  }

  /** How many rows share an instant. */
  function AtInstant(rows: seq<Row>, instant: int): nat {
    if rows == [] then 0
    else (if rows[0].capturedAt == instant then 1 else 0) + AtInstant(rows[1..], instant)
  }

  /** `ambiguous_latest` and `newest_for_gameweek` as `build_shadow` computes them. */
  predicate AmbiguousLatest(rows: seq<Row>)
    requires rows != []
  {
    AtInstant(rows, Latest(rows)) > 1
  }

  predicate NewestForGameweek(rows: seq<Row>, inputs: Capture)
    requires rows != []
  {
    !AmbiguousLatest(rows) && inputs.capturedAt == Latest(rows)
  }

  lemma {:induction false} InsertedAtInstant(x: Row, rows: seq<Row>, instant: int)
    ensures AtInstant(Insert(x, rows, RowLeq), instant) == AtInstant([x] + rows, instant)
  {
    if rows != [] && !RowLeq(x, rows[0]) {
      InsertedAtInstant(x, rows[1..], instant);
      assert ([x] + rows)[1..] == rows && ([x] + rows[1..])[1..] == rows[1..];
    }
  }

  lemma {:induction false} SortedAtInstant(rows: seq<Row>, instant: int)
    ensures AtInstant(Sort(rows, RowLeq), instant) == AtInstant(rows, instant)
  {
    if rows != [] {
      SortedAtInstant(rows[1..], instant);
      InsertedAtInstant(rows[0], Sort(rows[1..], RowLeq), instant);
    }
  }

  lemma {:induction false} SameLatest(a: seq<Row>, b: seq<Row>)
    requires a != [] && b != [] && forall row :: row in a <==> row in b
    ensures Latest(a) == Latest(b)
  {
    LatestIsMax(a);
    LatestIsMax(b);
  }

  /** The rows the writer reads are sorted; what it concludes is the same as in listing order. */
  lemma {:induction false} SortedRowsConcludeTheSame(rows: seq<Row>, inputs: Capture)
    requires rows != []
    ensures NewestForGameweek(Sort(rows, RowLeq), inputs) <==> NewestForGameweek(rows, inputs)
  {
    var sorted := Sort(rows, RowLeq);
    SortMembers(rows, RowLeq);
    SameLatest(rows, sorted);
    SortedAtInstant(rows, Latest(rows));
  }

  /* ---------- the reading side ---------- */

  datatype ScoredCapture = Scored(inputs: Capture) | NoOwnTargetCapture | AmbiguousLatestCapture

  predicate OfWeek(gameweek: int, c: Capture) {
    c.gameweek == gameweek
  }

  function LatestOf(captures: seq<Capture>): int
    requires captures != []
  {
    if |captures| == 1 then captures[0].capturedAt
    else
      var rest := LatestOf(captures[1..]);
      if captures[0].capturedAt > rest then captures[0].capturedAt else rest
  }

  function Score(captures: seq<Capture>, gameweek: int): ScoredCapture {
    var eligible := Filter(captures, c => OfWeek(gameweek, c));
    if eligible == [] then NoOwnTargetCapture
    else
      var latest := LatestOf(eligible);
      var selected := Filter(eligible, (c: Capture) => c.capturedAt == latest);
      if |selected| != 1 then AmbiguousLatestCapture else Scored(selected[0])
  }

  /** The captures of the writer's inventory that the reader is given: those of the season it
      can read. */
  function ReadingInventory(inventory: seq<Capture>, season: string): seq<Capture> {
    Filter(inventory, (c: Capture) => c.hasBootstrap && c.season == season)
  }

  ghost predicate UniqueIds(inventory: seq<Capture>) {
    forall i, j | 0 <= i < j < |inventory| :: inventory[i].id != inventory[j].id
  }

  /** The capture every other capture of its week was taken strictly before. */
  ghost predicate StrictlyLast(inventory: seq<Capture>, inputs: Capture) {
    && inputs in inventory
    && inputs.hasBootstrap
    && forall c | c in inventory && SameWeek(inputs, c) && c != inputs :: c.capturedAt < inputs.capturedAt
  }

  /** A capture of the decision's own week, taken at an instant. */
  predicate AtWeek(inputs: Capture, c: Capture, instant: int) {
    SameWeek(inputs, c) && c.capturedAt == instant
  }

  ghost predicate NoneAt(inventory: seq<Capture>, inputs: Capture, instant: int) {
    forall c | c in inventory :: !AtWeek(inputs, c, instant)
  }

  ghost predicate AtMostOneAt(inventory: seq<Capture>, inputs: Capture, instant: int) {
    forall a, b | a in inventory && b in inventory && AtWeek(inputs, a, instant) && AtWeek(inputs, b, instant) :: a == b
  }

  lemma {:induction false} CountsAtInstant(inventory: seq<Capture>, inputs: Capture, instant: int)
    requires UniqueIds(inventory)
    ensures AtInstant(WeekRows(inventory, inputs), instant) == 0 <==> NoneAt(inventory, inputs, instant)
    ensures AtInstant(WeekRows(inventory, inputs), instant) <= 1 <==> AtMostOneAt(inventory, inputs, instant)
  {
    if inventory != [] {
      var first, rest := inventory[0], inventory[1..];
      CountsAtInstant(rest, inputs, instant);
      assert inventory == [first] + rest;
      forall i | 0 <= i < |rest|
        ensures rest[i] != first
      {
        assert inventory[0].id != inventory[i + 1].id;
      }
      var rows := WeekRows(inventory, inputs);
      if SameWeek(inputs, first) {
        assert rows[0] == RowOf(first) && rows[1..] == WeekRows(rest, inputs);
      } else {
        assert rows == WeekRows(rest, inputs);
      }
      if AtWeek(inputs, first, instant) && !NoneAt(rest, inputs, instant) {
        var c :| c in rest && AtWeek(inputs, c, instant);
        assert c in inventory && first in inventory && c != first;
      }
    }
  }

  /** The writer calls a capture newest exactly when it is strictly the last of its week. */
  lemma {:induction false} NewestMeansStrictlyLast(inventory: seq<Capture>, inputs: Capture)
    requires UniqueIds(inventory) && inputs in inventory && inputs.hasBootstrap
    ensures WeekRows(inventory, inputs) != []
    ensures NewestForGameweek(WeekRows(inventory, inputs), inputs) <==> StrictlyLast(inventory, inputs)
  {
    var rows := WeekRows(inventory, inputs);
    WeekRowMembers(inventory, inputs);
    assert RowOf(inputs) in rows;
    LatestIsMax(rows);
    CountsAtInstant(inventory, inputs, Latest(rows));
    if StrictlyLast(inventory, inputs) {
      var row :| row in rows && row.capturedAt == Latest(rows);
      var c :| c in inventory && SameWeek(inputs, c) && row == RowOf(c);
    }
    if NewestForGameweek(rows, inputs) {
      forall c | c in inventory && SameWeek(inputs, c) && c != inputs
        ensures c.capturedAt < inputs.capturedAt
      {
        assert RowOf(c) in rows;
      }
    }
  }

  lemma {:induction false} LatestOfIsMax(captures: seq<Capture>)
    requires captures != []
    ensures forall c | c in captures :: c.capturedAt <= LatestOf(captures)
    ensures exists c | c in captures :: c.capturedAt == LatestOf(captures)
  {
    assert captures[0] in captures;
    if |captures| > 1 {
      LatestOfIsMax(captures[1..]);
      var c :| c in captures[1..] && c.capturedAt == LatestOf(captures[1..]);
      assert c in captures;
    }
  }

  lemma {:induction false} FilterKeepsUnique(inventory: seq<Capture>, keep: Capture -> bool)
    requires UniqueIds(inventory)
    ensures UniqueIds(Filter(inventory, keep))
  {
    if inventory != [] {
      var rest := Filter(inventory[1..], keep);
      FilterKeepsUnique(inventory[1..], keep);
      FilterMembers(inventory[1..], keep);
      forall c | c in rest
        ensures c.id != inventory[0].id
      {
        var i :| 0 <= i < |inventory| - 1 && inventory[1..][i] == c;
        assert inventory[0].id != inventory[i + 1].id;
      }
      if keep(inventory[0]) {
        assert Filter(inventory, keep) == [inventory[0]] + rest;
      }
    }
  }

  /** A list without repeats has one element exactly when it holds some element and no other. */
  lemma {:induction false} OneElement(captures: seq<Capture>, c: Capture)
    requires UniqueIds(captures)
    ensures captures == [c] <==> c in captures && forall d | d in captures :: d == c
  {
    if c in captures && forall d | d in captures :: d == c {
      assert captures[0] in captures;
      if |captures| > 1 {
        assert captures[1] in captures && captures[0].id != captures[1].id;
      }
    }
  }

  /** The reader scores a capture exactly when it is strictly the last of its week. */
  lemma {:induction false} ScoredMeansStrictlyLast(inventory: seq<Capture>, inputs: Capture)
    requires UniqueIds(inventory)
    ensures Score(ReadingInventory(inventory, inputs.season), inputs.gameweek) == Scored(inputs)
       <==> StrictlyLast(inventory, inputs)
  {
    var reading := ReadingInventory(inventory, inputs.season);
    var eligible := Filter(reading, c => OfWeek(inputs.gameweek, c));
    EligibleMembers(inventory, inputs);
    if eligible != [] {
      var latest := LatestOf(eligible);
      LatestOfIsMax(eligible);
      SelectedMembers(inventory, inputs, latest);
      var selected := Filter(eligible, (c: Capture) => c.capturedAt == latest);
      OneElement(selected, inputs);
      var last :| last in eligible && last.capturedAt == latest;
      assert last in selected;
      if StrictlyLast(inventory, inputs) {
        assert inputs in eligible;
        forall d | d in selected
          ensures d == inputs
        {
          assert d in inventory && SameWeek(inputs, d);
        }
        assert last == inputs;
      }
      if selected == [inputs] {
        forall c | c in inventory && SameWeek(inputs, c) && c != inputs
          ensures c.capturedAt < inputs.capturedAt
        {
          assert c in eligible && c !in selected;
        }
      }
    }
  }

  lemma {:induction false} EligibleMembers(inventory: seq<Capture>, inputs: Capture)
    requires UniqueIds(inventory)
    ensures var eligible := Filter(ReadingInventory(inventory, inputs.season), c => OfWeek(inputs.gameweek, c));
            && UniqueIds(eligible)
            && forall c :: c in eligible <==> c in inventory && SameWeek(inputs, c)
  {
    var reading := ReadingInventory(inventory, inputs.season);
    FilterKeepsUnique(inventory, (c: Capture) => c.hasBootstrap && c.season == inputs.season);
    FilterMembers(inventory, (c: Capture) => c.hasBootstrap && c.season == inputs.season);
    FilterKeepsUnique(reading, c => OfWeek(inputs.gameweek, c));
    FilterMembers(reading, c => OfWeek(inputs.gameweek, c));
  }

  lemma {:induction false} SelectedMembers(inventory: seq<Capture>, inputs: Capture, latest: int)
    requires UniqueIds(inventory)
    ensures var eligible := Filter(ReadingInventory(inventory, inputs.season), c => OfWeek(inputs.gameweek, c));
            var selected := Filter(eligible, (c: Capture) => c.capturedAt == latest);
            && UniqueIds(selected)
            && forall c :: c in selected <==> c in inventory && SameWeek(inputs, c) && c.capturedAt == latest
  {
    var eligible := Filter(ReadingInventory(inventory, inputs.season), c => OfWeek(inputs.gameweek, c));
    EligibleMembers(inventory, inputs);
    FilterKeepsUnique(eligible, (c: Capture) => c.capturedAt == latest);
    FilterMembers(eligible, (c: Capture) => c.capturedAt == latest);
  }

  /** "Newest" on the writing side is "scored" on the reading side. */
  lemma {:induction false} NewestIsScored(inventory: seq<Capture>, inputs: Capture)
    requires UniqueIds(inventory) && inputs in inventory && inputs.hasBootstrap
    ensures WeekRows(inventory, inputs) != []
    ensures NewestForGameweek(WeekRows(inventory, inputs), inputs)
       <==> Score(ReadingInventory(inventory, inputs.season), inputs.gameweek) == Scored(inputs)
  {
    NewestMeansStrictlyLast(inventory, inputs);
    ScoredMeansStrictlyLast(inventory, inputs);
  }

  /** At most one capture of a week is newest, in whatever order the inventory lists them. */
  lemma {:induction false} OneNewestInAnyOrder(a: seq<Capture>, b: seq<Capture>, x: Capture, y: Capture)
    requires UniqueIds(a) && UniqueIds(b) && forall c :: c in a <==> c in b
    requires x in a && x.hasBootstrap && y in a && y.hasBootstrap && SameWeek(x, y)
    ensures WeekRows(a, x) != [] && WeekRows(b, x) != [] && WeekRows(b, y) != []
    ensures NewestForGameweek(WeekRows(a, x), x) <==> NewestForGameweek(WeekRows(b, x), x)
    ensures NewestForGameweek(WeekRows(a, x), x) && NewestForGameweek(WeekRows(b, y), y) ==> x == y
  {
    NewestMeansStrictlyLast(a, x);
    NewestMeansStrictlyLast(b, x);
    NewestMeansStrictlyLast(b, y);
  }
}
