/** A whole reading of the captures, unbounded or bounded at a gameweek. */
module BoundedReading {
  import opened Outcomes
  import opened Lists
  import opened TransitionCells
  import opened Transitions

  /** What a reading is taken from: the captures it pairs, the skipped ones, the inventory. */
  datatype View = View(captures: map<int, DecisionCapture>, skipped: seq<Skipped>, inventory: seq<Seen>)

  function Greatest(keys: set<int>): (k: int)
    requires keys != {}
    ensures k in keys && forall j | j in keys :: j <= k
  {
    AscendingMeans(keys);
    var weeks := Ascending(keys);
    assert Least(keys) in weeks;
    weeks[|weeks| - 1]
  }

  function UpTo(chosen: map<int, DecisionCapture>, bound: int): map<int, DecisionCapture> {
    map g | g in chosen && g <= bound :: chosen[g]
  }

  function SkippedBy(horizon: int): Skipped -> bool {
    (s: Skipped) => s.at <= horizon
  }

  function SeenBy(horizon: int): Seen -> bool {
    (s: Seen) => s.at <= horizon
  }

  function BoundView(v: View, bound: int): Outcome<View, Refusal> {
    var kept := UpTo(v.captures, bound);
    if kept.Keys == {} then Raised(NothingBeforeBound)
    else
      var horizon := kept[Greatest(kept.Keys)].deadline;
      Done(View(kept, Filter(v.skipped, SkippedBy(horizon)), Filter(v.inventory, SeenBy(horizon))))
  }

  function ViewOf(listing: seq<Capture>): View {
    View(Chosen(listing), SkippedIn(listing), Inventory(listing))
  }

  function Identities(captures: map<int, DecisionCapture>, weeks: seq<int>): seq<Identity>
    requires forall i | 0 <= i < |weeks| :: weeks[i] in captures
  {
    seq(|weeks|, i requires 0 <= i < |weeks| => IdentityOf(captures[weeks[i]]))
  }

  function WeeksOf(v: View): (weeks: seq<int>)
    ensures forall g | g in weeks :: g in v.captures
  {
    AscendingMeans(v.captures.Keys);
    Ascending(v.captures.Keys)
  }

  function ReadingFrom(v: View, verdicts: seq<Verdict>): Reading {
    var pairs := PairsIn(verdicts);
    Reading(|v.inventory|, v.skipped, Identities(v.captures, WeeksOf(v)), pairs, RefusalsIn(verdicts),
            |Filter(pairs, IsProspective())|, PooledProspective(pairs), AloneIn(verdicts))
  }

  function ReadView(v: View, merged: int): Outcome<Reading, Refusal> {
    var verdicts := Verdicts(v.captures, merged, WeeksOf(v));
    if verdicts.Raised? then Raised(verdicts.error) else Done(ReadingFrom(v, verdicts.value))
  }

  function Bounded(v: View, bound: Option<int>): Outcome<View, Refusal> {
    if bound.None? then Done(v) else BoundView(v, bound.value)
  }

  function MeasureSpec(root: Option<seq<Capture>>, merged: int, bound: Option<int>): Outcome<Reading, Refusal> {
    if bound.Some? && !(1 <= bound.value <= 38) then Raised(BoundOutOfRange)
    else if root.None? then Raised(NoDirectory)
    else if root.value == [] then Raised(NoCaptures)
    else
      var v := Bounded(ViewOf(root.value), bound);
      if v.Raised? then Raised(v.error) else ReadView(v.value, merged)
  }

  /** One more gameweek's verdict: when it raises, so do the verdicts on all. */
  lemma {:induction false} VerdictsStop(captures: map<int, DecisionCapture>, merged: int, weeks: seq<int>, i: nat)
    requires i < |weeks| && forall g | g in weeks :: g in captures
    requires forall g | g in weeks[..i + 1] :: g in captures
    requires Verdicts(captures, merged, weeks[..i + 1]).Raised?
    ensures Verdicts(captures, merged, weeks) == Verdicts(captures, merged, weeks[..i + 1])
  {
    if i + 1 < |weeks| {
      assert weeks[..|weeks| - 1][..i + 1] == weeks[..i + 1];
      VerdictsStop(captures, merged, weeks[..|weeks| - 1], i);
    } else {
      assert weeks[..i + 1] == weeks;
    }
  }

  /** `measure`. */
  method Measure(root: Option<seq<Capture>>, merged: int, bound: Option<int>) returns (r: Outcome<Reading, Refusal>)
    ensures r == MeasureSpec(root, merged, bound)
  {
    if bound.Some? && !(1 <= bound.value <= 38) {
      return Raised(BoundOutOfRange);
    }
    var found := DecisionCaptures(root);
    if found.Raised? {
      return Raised(found.error);
    }
    var (chosen, skipped, inventory) := found.value;
    var view := Bounded(View(chosen, skipped, inventory), bound);
    if view.Raised? {
      return Raised(view.error);
    }
    var v := view.value;
    r := MeasureView(v, merged);
  }

  /** The loop over the gameweeks of a view. */
  method MeasureView(v: View, merged: int) returns (r: Outcome<Reading, Refusal>)
    ensures r == ReadView(v, merged)
  {
    var weeks := WeeksOf(v);
    var pairs: seq<Pair> := [];
    var refused: seq<RefusedPair> := [];
    var withoutPartner: seq<int> := [];
    ghost var verdicts: seq<Verdict> := [];
    for i := 0 to |weeks|
      invariant forall g | g in weeks[..i] :: g in v.captures
      invariant Verdicts(v.captures, merged, weeks[..i]) == Done(verdicts)
      invariant pairs == PairsIn(verdicts) && refused == RefusalsIn(verdicts) && withoutPartner == AloneIn(verdicts)
    {
      var gameweek := weeks[i];
      assert weeks[..i + 1][..i] == weeks[..i];
      var turn := VerdictOn(v.captures, merged, gameweek);
      assert Verdicts(v.captures, merged, weeks[..i + 1]) == Then(Done(verdicts), turn);
      if turn.Raised? {
        VerdictsStop(v.captures, merged, weeks, i);
        return Raised(turn.error);
      }
      VerdictIsOne(v.captures, merged, gameweek);
      var verdict := turn.value[0];
      VerdictsNext(verdicts, verdict);
      match verdict {
        case Alone(g) => withoutPartner := withoutPartner + [g];
        case PairRefused(refusal) => refused := refused + [refusal];
        case Paired(pair) => pairs := pairs + [pair];
      }
      verdicts := verdicts + [verdict];
    }
    assert weeks[..|weeks|] == weeks;
    return Done(Reading(|v.inventory|, v.skipped, Identities(v.captures, weeks), pairs, refused,
                        |Filter(pairs, IsProspective())|, PooledProspective(pairs), withoutPartner));
  }

  lemma VerdictIsOne(captures: map<int, DecisionCapture>, merged: int, gameweek: int)
    requires gameweek in captures && VerdictOn(captures, merged, gameweek).Done?
    ensures VerdictOn(captures, merged, gameweek).value == [VerdictOn(captures, merged, gameweek).value[0]]
  {
  }

  // ---- what a reading accounts for ----

  /** A pair of two consecutive captures, the later one taken no earlier than the deadline
      they agree on, each listing its players once; its cells are read off those lists. */
  ghost predicate GoodPair(captures: map<int, DecisionCapture>, merged: int, p: Pair) {
    var g := p.earlier.gameweek;
    && g in captures && g + 1 in captures
    && p.earlier == IdentityOf(captures[g]) && p.later == IdentityOf(captures[g + 1])
    && p.later.at >= p.earlier.deadline
    && Published(captures[g + 1].deadlines, g) == Some(p.earlier.deadline)
    && (p.prospective <==> p.earlier.deadline > merged)
    && captures[g].players.Some? && captures[g + 1].players.Some?
    && !Repeats(captures[g].players.value) && !Repeats(captures[g + 1].players.value)
    && p.cells == PairCells(captures[g].players.value, captures[g + 1].players.value)
    && WellCounted([p])
  }

  /** Verdicts on some gameweeks: one each, and every pair is a good one. */
  ghost predicate Accounted(captures: map<int, DecisionCapture>, merged: int, n: nat, verdicts: seq<Verdict>) {
    && |PairsIn(verdicts)| + |RefusalsIn(verdicts)| + |AloneIn(verdicts)| == n
    && forall p | p in PairsIn(verdicts) :: GoodPair(captures, merged, p)
  }

  lemma {:induction false} VerdictsAccount(captures: map<int, DecisionCapture>, merged: int, weeks: seq<int>)
    requires forall g | g in weeks :: g in captures
    requires forall g | g in captures :: captures[g].gameweek == g
    requires Verdicts(captures, merged, weeks).Done?
    ensures Accounted(captures, merged, |weeks|, Verdicts(captures, merged, weeks).value)
  {
    if weeks != [] {
      var (front, g) := (weeks[..|weeks| - 1], weeks[|weeks| - 1]);
      VerdictsAccount(captures, merged, front);
      VerdictIsGood(captures, merged, g);
      OneMoreVerdict(captures, merged, |front|, Verdicts(captures, merged, front).value,
                     VerdictOn(captures, merged, g).value[0]);
    }
  }

  lemma OneMoreVerdict(captures: map<int, DecisionCapture>, merged: int, n: nat, verdicts: seq<Verdict>, v: Verdict)
    requires Accounted(captures, merged, n, verdicts)
    requires v.Paired? ==> GoodPair(captures, merged, v.pair)
    ensures Accounted(captures, merged, n + 1, verdicts + [v])
  {
    VerdictsNext(verdicts, v);
  }

  lemma VerdictIsGood(captures: map<int, DecisionCapture>, merged: int, g: int)
    requires g in captures && captures[g].gameweek == g
    requires g + 1 in captures ==> captures[g + 1].gameweek == g + 1
    requires VerdictOn(captures, merged, g).Done?
    ensures var vs := VerdictOn(captures, merged, g).value;
            && vs == [vs[0]]
            && (vs[0].Paired? ==> GoodPair(captures, merged, vs[0].pair))
  {
    VerdictIsOne(captures, merged, g);
    if VerdictOn(captures, merged, g).value[0].Paired? {
      var p := VerdictOn(captures, merged, g).value[0].pair;
      var (before, after) := (captures[g].players.value, captures[g + 1].players.value);
      forall k | 0 <= k < 4
        ensures CountsOf(p.cells[k].players) == p.cells[k].counts
      {
        CellSharesAreShares(CellChance(k), TallyOf(StatedIn(before, k), after));
      }
    }
  }

  /** Every decision capture of a reading is in one pair as its earlier half, in one refused
      pair, or without a partner; and the pooled figure sums the prospective pairs. */
  lemma ReadingAccountsForEveryWeek(listing: seq<Capture>, merged: int, bound: Option<int>)
    requires MeasureSpec(Some(listing), merged, bound).Done?
    ensures var r := MeasureSpec(Some(listing), merged, bound).value;
            && |r.decisions| == |r.pairs| + |r.refused| + |r.withoutPartner|
            && Bounded(ViewOf(listing), bound).Done?
            && (forall p | p in r.pairs ::
                  && GoodPair(Bounded(ViewOf(listing), bound).value.captures, merged, p)
                  && p.later.gameweek == p.earlier.gameweek + 1)
            && r.prospectivePairs == r.pooled.pairs
            && |r.pooled.cells| == 4
            && forall k | 0 <= k < 4 :: r.pooled.cells[k].counts == SumCounts(Filter(r.pairs, IsProspective()), k)
  {
    var v := Bounded(ViewOf(listing), bound).value;
    ChosenKeys(listing);
    VerdictsAccount(v.captures, merged, WeeksOf(v));
    var pairs := PairsIn(Verdicts(v.captures, merged, WeeksOf(v)).value);
    assert forall p | p in pairs :: GoodPair(v.captures, merged, p) && p in [p];
    PooledIsTheSumOfProspectivePairs(PairsIn(Verdicts(v.captures, merged, WeeksOf(v)).value));
  }

  lemma {:induction false} ChosenKeys(listing: seq<Capture>)
    ensures forall g | g in Chosen(listing) :: Chosen(listing)[g].gameweek == g
  {
    if listing != [] {
      ChosenKeys(listing[..|listing| - 1]);
    }
  }
}
