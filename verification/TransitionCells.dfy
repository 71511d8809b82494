/** How stated playing chances resolved: the classes and the counts of one cell. */
module TransitionCells {
  import opened Outcomes
  import opened Sorting

  /** A stated chance as a number: absent, not finite, or finite. */
  datatype Chance = Unstated | NotFinite | Finite(value: real)

  datatype Player = Player(code: int, status: string, chance: Option<int>)

  datatype Class = Available | Doubtful | Out | Absent | Unknown

  /** The player codes of each class, in reading order. */
  datatype Tally = Tally(available: seq<int>, doubtful: seq<int>, out: seq<int>, absent: seq<int>, unknown: seq<int>) {
    function Of(c: Class): seq<int> {
      match c
      case Available => available
      case Doubtful => doubtful
      case Out => out
      case Absent => absent
      case Unknown => unknown
    }

    function With(c: Class, codes: seq<int>): Tally {
      match c
      case Available => this.(available := codes)
      case Doubtful => this.(doubtful := codes)
      case Out => this.(out := codes)
      case Absent => this.(absent := codes)
      case Unknown => this.(unknown := codes)
    }

    function Total(): nat {
      |available| + |doubtful| + |out| + |absent| + |unknown|
    }

    function Codes(): multiset<int> {
      multiset(available) + multiset(doubtful) + multiset(out) + multiset(absent) + multiset(unknown)
    }
  }

  const EMPTY := Tally([], [], [], [], [])

  const STATED_CHANCES := [25, 50, 75]
  const SMALL_SAMPLE: nat := 10

  const AVAILABLE := "a"
  const DOUBTFUL := "d"
  const UNAVAILABLE := ["i", "s", "u", "n"]

  function Resolve(status: string, chance: Chance): Class {
    if status != AVAILABLE && status != DOUBTFUL && status !in UNAVAILABLE then Unknown
    else match chance
      case NotFinite => Unknown
      case Finite(x) =>
        if x == 100.0 then Available
        else if x == 0.0 then Out
        else if 0.0 < x < 100.0 then Doubtful
        else Unknown
      case Unstated =>
        if status == AVAILABLE then Available
        else if status == DOUBTFUL then Doubtful
        else Out
  }

  /** The precedence in one table: an unknown status is never guessed at, then a stated chance
      wins over the status, and the status decides only without one. */
  lemma ResolveTable(status: string, chance: Chance)
    ensures var known := status in [AVAILABLE, DOUBTFUL] + UNAVAILABLE;
            && (Resolve(status, chance) == Available <==>
                  known && (chance == Finite(100.0) || (chance.Unstated? && status == AVAILABLE)))
            && (Resolve(status, chance) == Out <==>
                  known && (chance == Finite(0.0) || (chance.Unstated? && status in UNAVAILABLE)))
            && (Resolve(status, chance) == Doubtful <==>
                  known && ((chance.Finite? && 0.0 < chance.value < 100.0) || (chance.Unstated? && status == DOUBTFUL)))
            && Resolve(status, chance) != Absent
  {
    assert AVAILABLE != DOUBTFUL;
    assert AVAILABLE !in UNAVAILABLE && DOUBTFUL !in UNAVAILABLE;
  }

  function ChanceOf(chance: Option<int>): Chance {
    if chance.None? then Unstated else Finite(chance.value as real)
  }

  function Find(players: seq<Player>, code: int): (r: Option<Player>)
    ensures r.Some? ==> r.value in players && r.value.code == code
    ensures r.None? ==> forall p | p in players :: p.code != code
  {
    if players == [] then None
    else if players[0].code == code then Some(players[0])
    else Find(players[1..], code)
  }

  /** The class one player falls in at the later capture. */
  function ClassOf(later: seq<Player>, code: int): Class {
    var found := Find(later, code);
    if found.None? then Absent else Resolve(found.value.status, ChanceOf(found.value.chance))
  }

  function TallyOf(codes: seq<int>, later: seq<Player>): Tally {
    if codes == [] then EMPTY
    else
      var (before, code) := (TallyOf(codes[..|codes| - 1], later), codes[|codes| - 1]);
      before.With(ClassOf(later, code), before.Of(ClassOf(later, code)) + [code])
  }

  /** `_outcomes`: each code goes into one class, in order. */
  method ReadOutcomes(codes: seq<int>, later: seq<Player>) returns (outcomes: Tally)
    ensures outcomes == TallyOf(codes, later)
  {
    outcomes := EMPTY;
    for i := 0 to |codes|
      invariant outcomes == TallyOf(codes[..i], later)
    {
      var code := codes[i];
      assert codes[..i + 1][..i] == codes[..i];
      var found := Find(later, code);
      if found.None? {
        outcomes := outcomes.(absent := outcomes.absent + [code]);
        continue;
      }
      var c := Resolve(found.value.status, ChanceOf(found.value.chance));
      outcomes := outcomes.With(c, outcomes.Of(c) + [code]);
    }
    assert codes[..|codes|] == codes;
  }

  lemma WithMeans(t: Tally, c: Class, code: int)
    ensures var u := t.With(c, t.Of(c) + [code]);
            && u.Total() == t.Total() + 1
            && (forall d :: u.Of(d) == if d == c then t.Of(d) + [code] else t.Of(d))
  {
  }

  lemma WithCodes(t: Tally, c: Class, code: int)
    ensures t.With(c, t.Of(c) + [code]).Codes() == t.Codes() + multiset{code}
  {
    assert multiset(t.Of(c) + [code]) == multiset(t.Of(c)) + multiset{code};
    match c
    case Available =>
    case Doubtful =>
    case Out =>
    case Absent =>
    case Unknown =>
  }

  lemma OneMoreCode(codes: seq<int>, code: int)
    ensures multiset(codes + [code]) == multiset(codes) + multiset{code}
  {
  }

  ghost predicate Partitioned(codes: seq<int>, later: seq<Player>) {
    TallyOf(codes, later).Codes() == multiset(codes)
  }

  lemma {:induction false} AllPartitioned(codes: seq<int>, later: seq<Player>)
    ensures Partitioned(codes, later)
  {
    if codes == [] {
      NoCodes(later);
    } else {
      var (front, code) := (codes[..|codes| - 1], codes[|codes| - 1]);
      AllPartitioned(front, later);
      PartitionNext(front, code, later);
      assert front + [code] == codes;
    }
  }

  /** The classes partition the codes: each code is counted once. */
  lemma {:induction false} ClassesPartition(codes: seq<int>, later: seq<Player>)
    ensures TallyOf(codes, later).Codes() == multiset(codes)
  {
    AllPartitioned(codes, later);
  }

  lemma NoCodes(later: seq<Player>)
    ensures Partitioned([], later)
  {
  }

  lemma PartitionNext(front: seq<int>, code: int, later: seq<Player>)
    requires Partitioned(front, later)
    ensures Partitioned(front + [code], later)
  {
    assert (front + [code])[..|front|] == front;
    TallyNext(front + [code], later);
    WithCodes(TallyOf(front, later), ClassOf(later, code), code);
    OneMoreCode(front, code);
  }

  lemma TallyNext(codes: seq<int>, later: seq<Player>)
    requires codes != []
    ensures var (t, code) := (TallyOf(codes[..|codes| - 1], later), codes[|codes| - 1]);
            TallyOf(codes, later) == t.With(ClassOf(later, code), t.Of(ClassOf(later, code)) + [code])
  {
  }

  /** Each code is in its own class and in no other. */
  lemma {:induction false} ClassMembers(codes: seq<int>, later: seq<Player>, c: Class)
    ensures forall code :: code in TallyOf(codes, later).Of(c) <==> code in codes && ClassOf(later, code) == c
  {
    if codes != [] {
      var (front, code) := (codes[..|codes| - 1], codes[|codes| - 1]);
      ClassMembers(front, later, c);
      WithMeans(TallyOf(front, later), ClassOf(later, code), code);
      assert forall x :: x in codes <==> x in front || x == code;
    }
  }

  datatype Counts = Counts(available: nat, doubtful: nat, out: nat, absent: nat, unknown: nat)

  function CountsOf(t: Tally): Counts {
    Counts(|t.available|, |t.doubtful|, |t.out|, |t.absent|, |t.unknown|)
  }

  function Plus(a: Counts, b: Counts): Counts {
    Counts(a.available + b.available, a.doubtful + b.doubtful, a.out + b.out, a.absent + b.absent, a.unknown + b.unknown)
  }

  /** A cell; the shares and their intervals are read off its counts. */
  datatype Cell = Cell(
    stated: Option<int>,
    playersStated: nat,
    distinctPlayers: nat,
    smallSample: bool,
    smallResolved: bool,
    counts: Counts,
    players: Tally
  )

  function CodeLeq(): (int, int) -> bool {
    (a: int, b: int) => a <= b
  }

  function Sorted5(t: Tally): Tally {
    Tally(Sort(t.available, CodeLeq()), Sort(t.doubtful, CodeLeq()), Sort(t.out, CodeLeq()),
          Sort(t.absent, CodeLeq()), Sort(t.unknown, CodeLeq()))
  }

  function CodeSet(t: Tally): set<int> {
    set code | code in t.available + t.doubtful + t.out + t.absent + t.unknown
  }

  /** `cell_from_outcomes`. */
  function CellFrom(stated: Option<int>, t: Tally): Cell {
    var resolved := |t.available| + |t.out|;
    Cell(stated, t.Total(), |CodeSet(t)|, t.Total() < SMALL_SAMPLE, resolved < SMALL_SAMPLE, CountsOf(t), Sorted5(t))
  }

  lemma SetOfSeq(codes: seq<int>)
    ensures |set code | code in codes| <= |codes|
  {
    if codes != [] {
      SetOfSeq(codes[1..]);
      assert (set code | code in codes) == (set code | code in codes[1..]) + {codes[0]};
    }
  }

  /** The shares of a cell are shares: no count exceeds its trials, so no interval is refused. */
  lemma CellSharesAreShares(stated: Option<int>, t: Tally)
    ensures var c := CellFrom(stated, t);
            var n := c.counts;
            && n.available + n.doubtful + n.out + n.absent + n.unknown == c.playersStated
            && n.available <= n.available + n.out <= c.playersStated
            && c.distinctPlayers <= c.playersStated
            && CountsOf(c.players) == n
            && c.players.Codes() == t.Codes()
            && (c.smallSample ==> c.smallResolved)
  {
    SetOfSeq(t.available + t.doubtful + t.out + t.absent + t.unknown);
  }

  /** Codes of the players stated at one chance, or at any of the three. */
  function StatedAt(players: seq<Player>, chance: int): seq<int> {
    if players == [] then []
    else
      StatedAt(players[..|players| - 1], chance)
      + if players[|players| - 1].chance == Some(chance) then [players[|players| - 1].code] else []
  }

  function StatedAtAny(players: seq<Player>): seq<int> {
    if players == [] then []
    else
      var last := players[|players| - 1];
      StatedAtAny(players[..|players| - 1])
      + if last.chance.Some? && last.chance.value in STATED_CHANCES then [last.code] else []
  }

  /** The chance of the `k`-th cell; the fourth cell takes all three. */
  function CellChance(k: nat): Option<int>
    requires k < 4
  {
    if k < 3 then Some(STATED_CHANCES[k]) else None
  }

  function StatedIn(players: seq<Player>, k: nat): seq<int>
    requires k < 4
  {
    if k < 3 then StatedAt(players, STATED_CHANCES[k]) else StatedAtAny(players)
  }

  /** A cell reads the players stated at its chance, and the fourth those stated at any. */
  lemma {:induction false} StatedMeans(players: seq<Player>, k: nat, code: int)
    requires k < 4
    ensures code in StatedIn(players, k)
       <==> exists p | p in players ::
              p.code == code && p.chance.Some? && (if k < 3 then p.chance.value == STATED_CHANCES[k] else p.chance.value in STATED_CHANCES)
  {
    if players != [] {
      var (front, last) := (players[..|players| - 1], players[|players| - 1]);
      StatedMeans(front, k, code);
      assert forall p :: p in players <==> p in front || p == last;
    }
  }

  /** The four cells of a pair: one per stated chance, then all three together. */
  function PairCells(before: seq<Player>, after: seq<Player>): (cells: seq<Cell>)
    ensures |cells| == 4
  {
    seq(4, k requires 0 <= k < 4 => CellFrom(CellChance(k), TallyOf(StatedIn(before, k), after)))
  }

  lemma CountOne(codes: seq<int>, code: int, later: seq<Player>, c: Class)
    ensures |TallyOf(codes + [code], later).Of(c)|
         == |TallyOf(codes, later).Of(c)| + if ClassOf(later, code) == c then 1 else 0
  {
    assert (codes + [code])[..|codes + [code]| - 1] == codes;
    WithMeans(TallyOf(codes, later), ClassOf(later, code), code);
  }

  /** A class of the pooled cell counts what the three chances count in it together. */
  lemma {:induction false} ChancesAddUp(before: seq<Player>, after: seq<Player>, c: Class)
    ensures |TallyOf(StatedAtAny(before), after).Of(c)|
         == |TallyOf(StatedAt(before, 25), after).Of(c)|
          + |TallyOf(StatedAt(before, 50), after).Of(c)|
          + |TallyOf(StatedAt(before, 75), after).Of(c)|
  {
    if before != [] {
      var (front, last) := (before[..|before| - 1], before[|before| - 1]);
      ChancesAddUp(front, after, c);
      CountOne(StatedAtAny(front), last.code, after, c);
      CountOne(StatedAt(front, 25), last.code, after, c);
      CountOne(StatedAt(front, 50), last.code, after, c);
      CountOne(StatedAt(front, 75), last.code, after, c);
      StatedNext(before, 25);
      StatedNext(before, 50);
      StatedNext(before, 75);
      StatedAnyNext(before);
    }
  }

  lemma StatedNext(players: seq<Player>, chance: int)
    requires players != []
    ensures var (front, last) := (players[..|players| - 1], players[|players| - 1]);
            StatedAt(players, chance)
            == if last.chance == Some(chance) then StatedAt(front, chance) + [last.code] else StatedAt(front, chance)
  {
  }

  lemma StatedAnyNext(players: seq<Player>)
    requires players != []
    ensures var (front, last) := (players[..|players| - 1], players[|players| - 1]);
            StatedAtAny(players)
            == if last.chance in {Some(25), Some(50), Some(75)} then StatedAtAny(front) + [last.code]
               else StatedAtAny(front)
  {
  }

  /** The pooled cell of a pair counts exactly what its three stated chances count together. */
  lemma PooledCellAddsUp(before: seq<Player>, after: seq<Player>)
    ensures var cells := PairCells(before, after);
            && cells[3].counts == Plus(Plus(cells[0].counts, cells[1].counts), cells[2].counts)
            && cells[3].playersStated == cells[0].playersStated + cells[1].playersStated + cells[2].playersStated
  {
    ChancesAddUp(before, after, Available);
    ChancesAddUp(before, after, Doubtful);
    ChancesAddUp(before, after, Out);
    ChancesAddUp(before, after, Absent);
    ChancesAddUp(before, after, Unknown);
    CountsAdd(TallyOf(StatedAtAny(before), after), TallyOf(StatedAt(before, 25), after),
              TallyOf(StatedAt(before, 50), after), TallyOf(StatedAt(before, 75), after));
  }

  lemma CountsAdd(all: Tally, a: Tally, b: Tally, c: Tally)
    requires |all.Of(Available)| == |a.Of(Available)| + |b.Of(Available)| + |c.Of(Available)|
    requires |all.Of(Doubtful)| == |a.Of(Doubtful)| + |b.Of(Doubtful)| + |c.Of(Doubtful)|
    requires |all.Of(Out)| == |a.Of(Out)| + |b.Of(Out)| + |c.Of(Out)|
    requires |all.Of(Absent)| == |a.Of(Absent)| + |b.Of(Absent)| + |c.Of(Absent)|
    requires |all.Of(Unknown)| == |a.Of(Unknown)| + |b.Of(Unknown)| + |c.Of(Unknown)|
    ensures CountsOf(all) == Plus(Plus(CountsOf(a), CountsOf(b)), CountsOf(c))
    ensures all.Total() == a.Total() + b.Total() + c.Total()
  {
  }
}
