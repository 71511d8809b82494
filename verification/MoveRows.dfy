/** The move rows of a published plan: swaps applied in row order, each row the change of the
    squad's value, and their reconciliation with the totals. Points are reals. */
module MoveRows {
  import opened Outcomes
  import opened Lists

  /** One row; a leftover of the pairing has one side missing. */
  datatype Row = Row(out: Option<int>, arriving: Option<int>)

  const TOLERANCE: real := 0.000001

  /** The first place of a value in a list. */
  function IndexOf(squad: seq<int>, player: int): (k: nat)
    requires player in squad
    ensures k < |squad| && squad[k] == player
    ensures forall j | 0 <= j < k :: squad[j] != player
  {
    if squad[0] == player then 0 else 1 + IndexOf(squad[1..], player)
  }

  predicate Playable(squad: seq<int>, row: Row) {
    row.out.Some? && row.arriving.Some? && row.out.value in squad && row.arriving.value !in squad
  }

  function Swapped(squad: seq<int>, row: Row): seq<int>
    requires Playable(squad, row)
  {
    squad[IndexOf(squad, row.out.value) := row.arriving.value]
  }

  /** The squad after each row in turn, or `None` when a row cannot be played. */
  function Walk(squad: seq<int>, rows: seq<Row>): Option<seq<int>> {
    if rows == [] then Some(squad)
    else
      var before := Walk(squad, rows[..|rows| - 1]);
      var row := rows[|rows| - 1];
      if before.None? || !Playable(before.value, row) then None else Some(Swapped(before.value, row))
  }

  /** The gains of the rows, or `None` when a row cannot be played or a squad has no value. */
  function RowGains(squad: seq<int>, rows: seq<Row>, valueOf: seq<int> -> Option<real>): Option<seq<real>> {
    if rows == [] then (if valueOf(squad).None? then None else Some([]))
    else
      var (front, row) := (rows[..|rows| - 1], rows[|rows| - 1]);
      var gains := RowGains(squad, front, valueOf);
      var (before, after) := (Walk(squad, front), Walk(squad, rows));
      if gains.None? || after.None? || valueOf(after.value).None? || before.None? || valueOf(before.value).None? then None
      else Some(gains.value + [valueOf(after.value).value - valueOf(before.value).value])
  }

  function Gap(x: real, y: real): real {
    if x < y then y - x else x - y
  }

  function Sum(gains: seq<real>): real {
    if gains == [] then 0.0 else Sum(gains[..|gains| - 1]) + gains[|gains| - 1]
  }

  /** `_gains_on_chip_basis`: none when the chain does not end at the published total. */
  function Gains(rows: seq<Row>, held: seq<int>, valueOf: seq<int> -> Option<real>, total: real): Option<seq<real>> {
    var gains := RowGains(held, rows, valueOf);
    if gains.None? then None
    else
      WalkValued(held, rows, valueOf);
      if Gap(valueOf(Walk(held, rows).value).value, total) > TOLERANCE then None else gains
  }

  lemma {:induction false} WalkValued(squad: seq<int>, rows: seq<Row>, valueOf: seq<int> -> Option<real>)
    requires RowGains(squad, rows, valueOf).Some?
    ensures Walk(squad, rows).Some? && valueOf(Walk(squad, rows).value).Some?
  {
  }

  lemma {:induction false} WalkStops(squad: seq<int>, rows: seq<Row>, valueOf: seq<int> -> Option<real>, i: nat)
    requires i <= |rows| && RowGains(squad, rows[..i], valueOf).None?
    ensures RowGains(squad, rows, valueOf).None?
    decreases |rows|
  {
    if i == |rows| {
      assert rows[..i] == rows;
    } else {
      assert rows[..|rows| - 1][..i] == rows[..i];
      WalkStops(squad, rows[..|rows| - 1], valueOf, i);
    }
  }

  method Swap(squad: array<int>, row: Row)
    requires Playable(squad[..], row)
    modifies squad
    ensures Playable(old(squad[..]), row) && squad[..] == Swapped(old(squad[..]), row)
  {
    squad[IndexOf(squad[..], row.out.value)] := row.arriving.value;
  }

  /** The loop of `_gains_on_chip_basis`: the working squad is a list changed in place. */
  method GainsOnChipBasis(paired: seq<Row>, held: seq<int>, valueOf: seq<int> -> Option<real>, expectedTotal: real)
    returns (r: Option<seq<real>>)
    ensures r == Gains(paired, held, valueOf, expectedTotal)
  {
    var squad := new int[|held|];
    for k := 0 to |held|
      invariant squad[..k] == held[..k]
    {
      squad[k] := held[k];
    }
    assert squad[..] == held;
    var worth := valueOf(held);
    if worth.None? {
      WalkStops(held, paired, valueOf, 0);
      return None;
    }
    var previous := worth.value;
    var gains: seq<real> := [];
    assert paired[..0] == [];
    for i := 0 to |paired|
      invariant Played(held, paired[..i], valueOf, squad[..], previous, gains)
    {
      var row := paired[i];
      assert paired[..i + 1] == paired[..i] + [row];
      PlayOne(held, paired[..i], row, valueOf, squad[..], previous, gains);
      if !Playable(squad[..], row) {
        WalkStops(held, paired, valueOf, i + 1);
        return None;
      }
      Swap(squad, row);
      worth := valueOf(squad[..]);
      if worth.None? {
        WalkStops(held, paired, valueOf, i + 1);
        return None;
      }
      gains := gains + [worth.value - previous];
      previous := worth.value;
    }
    assert paired[..|paired|] == paired;
    if Gap(previous, expectedTotal) > TOLERANCE {
      return None;
    }
    return Some(gains);
  }

  /** Where the loop stands after some rows. */
  ghost predicate Played(
    held: seq<int>, rows: seq<Row>, valueOf: seq<int> -> Option<real>, squad: seq<int>, previous: real, gains: seq<real>)
  {
    Walk(held, rows) == Some(squad) && valueOf(squad) == Some(previous) && RowGains(held, rows, valueOf) == Some(gains)
  }

  lemma PlayOne(
    held: seq<int>, rows: seq<Row>, row: Row, valueOf: seq<int> -> Option<real>,
    squad: seq<int>, previous: real, gains: seq<real>)
    requires Played(held, rows, valueOf, squad, previous, gains)
    ensures if Playable(squad, row) && valueOf(Swapped(squad, row)).Some?
            then var worth := valueOf(Swapped(squad, row)).value;
                 Played(held, rows + [row], valueOf, Swapped(squad, row), worth, gains + [worth - previous])
            else RowGains(held, rows + [row], valueOf).None?
  {
    assert (rows + [row])[..|rows|] == rows;
  }

  // ---- the gains telescope ----

  lemma {:induction false} GainsTelescope(squad: seq<int>, rows: seq<Row>, valueOf: seq<int> -> Option<real>)
    requires RowGains(squad, rows, valueOf).Some?
    ensures valueOf(squad).Some? && Walk(squad, rows).Some? && valueOf(Walk(squad, rows).value).Some?
    ensures |RowGains(squad, rows, valueOf).value| == |rows|
    ensures Sum(RowGains(squad, rows, valueOf).value)
         == valueOf(Walk(squad, rows).value).value - valueOf(squad).value
  {
    if rows != [] {
      var front := rows[..|rows| - 1];
      GainsTelescope(squad, front, valueOf);
      var gains := RowGains(squad, front, valueOf).value;
      var last := RowGains(squad, rows, valueOf).value[|rows| - 1];
      assert (gains + [last])[..|gains + [last]| - 1] == gains;
    }
  }

  /** Whenever rows are published, holding plus the rows is the plan's total, to the declared
      tolerance. */
  lemma RowsReconcile(rows: seq<Row>, held: seq<int>, valueOf: seq<int> -> Option<real>, total: real)
    requires Gains(rows, held, valueOf, total).Some?
    ensures valueOf(held).Some? && |Gains(rows, held, valueOf, total).value| == |rows|
    ensures -TOLERANCE <= valueOf(held).value + Sum(Gains(rows, held, valueOf, total).value) - total <= TOLERANCE
  {
    GainsTelescope(held, rows, valueOf);
  }

  // ---- the working squad ----

  lemma SwapMeans(squad: seq<int>, row: Row)
    requires Playable(squad, row)
    ensures |Swapped(squad, row)| == |squad|
    ensures multiset(Swapped(squad, row)) == multiset(squad) - multiset{row.out.value} + multiset{row.arriving.value}
    ensures Distinct(squad) ==> Distinct(Swapped(squad, row))
  {
  }

  /** At every row the squad keeps its size and holds no player twice. */
  lemma {:induction false} SquadStaysLegal(squad: seq<int>, rows: seq<Row>, i: nat)
    requires i <= |rows| && Walk(squad, rows).Some?
    ensures Walk(squad, rows[..i]).Some?
    ensures |Walk(squad, rows[..i]).value| == |squad|
    ensures Distinct(squad) ==> Distinct(Walk(squad, rows[..i]).value)
    decreases |rows|
  {
    if i == |rows| {
      assert rows[..i] == rows;
      if rows != [] {
        SquadStaysLegal(squad, rows[..|rows| - 1], |rows| - 1);
        assert rows[..|rows| - 1][..|rows| - 1] == rows[..|rows| - 1];
        SwapMeans(Walk(squad, rows[..|rows| - 1]).value, rows[|rows| - 1]);
      }
    } else {
      assert rows[..|rows| - 1][..i] == rows[..i];
      SquadStaysLegal(squad, rows[..|rows| - 1], i);
    }
  }

  // ---- the order of the rows ----

  function Outs(rows: seq<Row>): multiset<int> {
    if rows == [] then multiset{}
    else
      Outs(rows[..|rows| - 1])
      + if rows[|rows| - 1].out.Some? then multiset{rows[|rows| - 1].out.value} else multiset{}
  }

  function Ins(rows: seq<Row>): multiset<int> {
    if rows == [] then multiset{}
    else
      Ins(rows[..|rows| - 1])
      + if rows[|rows| - 1].arriving.Some? then multiset{rows[|rows| - 1].arriving.value} else multiset{}
  }

  /** Complete rows that take out players of the held squad, each once, and bring in new ones,
      each once. */
  ghost predicate PlainRows(held: seq<int>, rows: seq<Row>) {
    && (forall row | row in rows :: row.out.Some? && row.arriving.Some?)
    && Outs(rows) <= multiset(held)
    && (forall p | p in Ins(rows) :: p !in held && Ins(rows)[p] == 1)
  }

  lemma OutsAndInsNext(rows: seq<Row>)
    requires rows != []
    ensures var (front, row) := (rows[..|rows| - 1], rows[|rows| - 1]);
            && (row.out.Some? ==> Outs(rows) == Outs(front) + multiset{row.out.value})
            && (row.arriving.Some? ==> Ins(rows) == Ins(front) + multiset{row.arriving.value})
  {
  }

  /** Such rows can be played in the order given, and end at the held squad without the outs
      and with the ins. */
  lemma {:induction false} PlainRowsWalk(held: seq<int>, rows: seq<Row>)
    requires PlainRows(held, rows)
    ensures Walk(held, rows).Some?
    ensures multiset(Walk(held, rows).value) == multiset(held) - Outs(rows) + Ins(rows)
  {
    if rows != [] {
      var (front, row) := (rows[..|rows| - 1], rows[|rows| - 1]);
      assert row in rows && forall r | r in front :: r in rows;
      OutsAndInsNext(rows);
      PlainRowsShrink(held, front, rows, row);
      PlainRowsWalk(held, front);
      LastRowPlayable(held, Outs(front), Ins(front), row, Walk(held, front).value);
    }
  }

  lemma PlainRowsShrink(held: seq<int>, front: seq<Row>, rows: seq<Row>, row: Row)
    requires PlainRows(held, rows) && row.out.Some? && row.arriving.Some?
    requires Outs(rows) == Outs(front) + multiset{row.out.value}
    requires Ins(rows) == Ins(front) + multiset{row.arriving.value}
    requires forall r | r in front :: r in rows
    ensures PlainRows(held, front)
    ensures Outs(front)[row.out.value] < multiset(held)[row.out.value]
    ensures row.arriving.value !in Ins(front) && row.arriving.value !in held
  {
    FewerOuts(Outs(front), Outs(rows), row.out.value, multiset(held));
    FewerIns(Ins(front), Ins(rows), row.arriving.value, held);
  }

  lemma FewerOuts(outs: multiset<int>, all: multiset<int>, x: int, held: multiset<int>)
    requires all == outs + multiset{x} && all <= held
    ensures outs <= held && outs[x] < held[x]
  {
    assert all[x] == outs[x] + 1;
  }

  lemma FewerIns(ins: multiset<int>, all: multiset<int>, x: int, held: seq<int>)
    requires all == ins + multiset{x}
    requires forall p | p in all :: p !in held && all[p] == 1
    ensures x !in ins && x !in held
    ensures forall p | p in ins :: p !in held && ins[p] == 1
  {
    assert x in all && all[x] == ins[x] + 1;
    assert forall p | p in ins :: p in all && ins[p] <= all[p];
  }

  /** One more plain row can be played where the ones before it led. */
  lemma LastRowPlayable(held: seq<int>, outs: multiset<int>, ins: multiset<int>, row: Row, squad: seq<int>)
    requires row.out.Some? && row.arriving.Some? && outs <= multiset(held)
    requires multiset(squad) == multiset(held) - outs + ins
    requires outs[row.out.value] < multiset(held)[row.out.value]
    requires row.arriving.value !in ins && row.arriving.value !in held
    ensures Playable(squad, row)
    ensures multiset(Swapped(squad, row))
         == multiset(held) - (outs + multiset{row.out.value}) + (ins + multiset{row.arriving.value})
  {
    assert row.arriving.value !in multiset(held);
    assert row.out.value in multiset(squad) && row.arriving.value !in multiset(squad);
    SwapMeans(squad, row);
    Rebalance(multiset(held), outs, ins, row.out.value, row.arriving.value);
  }

  lemma Rebalance(held: multiset<int>, outs: multiset<int>, ins: multiset<int>, out: int, arriving: int)
    requires outs <= held && outs[out] < held[out]
    ensures held - outs + ins - multiset{out} + multiset{arriving}
         == held - (outs + multiset{out}) + (ins + multiset{arriving})
  {
  }

  ghost predicate OrderBlind(valueOf: seq<int> -> Option<real>) {
    forall a, b | multiset(a) == multiset(b) :: valueOf(a) == valueOf(b)
  }

  /** Rows published in two orders of the same swaps have the same sum: with an order-blind
      value, only the split between the rows depends on their order. */
  lemma AnyOrderSameSum(
    rows: seq<Row>, other: seq<Row>, held: seq<int>, valueOf: seq<int> -> Option<real>, total: real)
    requires PlainRows(held, rows) && PlainRows(held, other)
    requires Outs(rows) == Outs(other) && Ins(rows) == Ins(other)
    requires OrderBlind(valueOf)
    requires Gains(rows, held, valueOf, total).Some?
    ensures RowGains(held, other, valueOf).Some? ==> Gains(other, held, valueOf, total).Some?
    ensures Gains(other, held, valueOf, total).Some? ==>
              Sum(Gains(other, held, valueOf, total).value) == Sum(Gains(rows, held, valueOf, total).value)
  {
    PlainRowsWalk(held, rows);
    PlainRowsWalk(held, other);
    GainsTelescope(held, rows, valueOf);
    if RowGains(held, other, valueOf).Some? {
      GainsTelescope(held, other, valueOf);
    }
  }

  lemma {:induction false} OutsInsCount(rows: seq<Row>, p: int)
    ensures Outs(rows)[p] == |Naming(rows, p, true)| && Ins(rows)[p] == |Naming(rows, p, false)|
  {
    if rows != [] {
      OutsInsCount(rows[..|rows| - 1], p);
    }
  }

  /** The rows that name a player on one side. */
  function Naming(rows: seq<Row>, p: int, leaving: bool): multiset<Row> {
    if rows == [] then multiset{}
    else
      var row := rows[|rows| - 1];
      Naming(rows[..|rows| - 1], p, leaving)
      + if (if leaving then row.out else row.arriving) == Some(p) then multiset{row} else multiset{}
  }

  lemma {:induction false} NamingCounts(rows: seq<Row>, p: int, leaving: bool, row: Row)
    ensures Naming(rows, p, leaving)[row]
         == if (if leaving then row.out else row.arriving) == Some(p) then multiset(rows)[row] else 0
  {
    if rows != [] {
      NamingCounts(rows[..|rows| - 1], p, leaving, row);
      assert rows == rows[..|rows| - 1] + [rows[|rows| - 1]];
    }
  }

  /** A permutation of the rows takes out and brings in the same players. */
  lemma PermutedRows(rows: seq<Row>, other: seq<Row>, held: seq<int>)
    requires multiset(rows) == multiset(other) && PlainRows(held, rows)
    ensures Outs(rows) == Outs(other) && Ins(rows) == Ins(other) && PlainRows(held, other)
  {
    forall p
      ensures Outs(rows)[p] == Outs(other)[p] && Ins(rows)[p] == Ins(other)[p]
    {
      OutsInsCount(rows, p);
      OutsInsCount(other, p);
      forall row, leaving
        ensures Naming(rows, p, leaving)[row] == Naming(other, p, leaving)[row]
      {
        NamingCounts(rows, p, leaving, row);
        NamingCounts(other, p, leaving, row);
      }
      assert Naming(rows, p, true) == Naming(other, p, true);
      assert Naming(rows, p, false) == Naming(other, p, false);
    }
    assert Outs(rows) == Outs(other);
    assert Ins(rows) == Ins(other);
    forall row | row in other
      ensures row in rows
    {
      assert row in multiset(other);
    }
  }

  /** Every permutation of the published rows, where it can be valued at all, publishes the
      same total. */
  lemma PermutationSameSum(
    rows: seq<Row>, other: seq<Row>, held: seq<int>, valueOf: seq<int> -> Option<real>, total: real)
    requires multiset(rows) == multiset(other) && PlainRows(held, rows) && OrderBlind(valueOf)
    requires Gains(rows, held, valueOf, total).Some?
    ensures RowGains(held, other, valueOf).Some? <==> Gains(other, held, valueOf, total).Some?
    ensures Gains(other, held, valueOf, total).Some? ==>
              Sum(Gains(other, held, valueOf, total).value) == Sum(Gains(rows, held, valueOf, total).value)
  {
    PermutedRows(rows, other, held);
    AnyOrderSameSum(rows, other, held, valueOf, total);
  }
}
