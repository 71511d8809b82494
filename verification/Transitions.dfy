/** Counting transitions over the stored captures: one decision capture per gameweek, pairs of
    consecutive ones, and a reading bounded at a gameweek. Instants are integers. */
module Transitions {
  import opened Outcomes
  import opened Lists
  import opened TransitionCells

  datatype Deadline = Deadline(gameweek: int, at: int)

  /** What a capture's payload holds; its players may be unreadable. */
  datatype Content =
    | NoBootstrap
    | DeadlinesUnreadable
    | Bootstrap(deadlines: seq<Deadline>, players: Option<seq<Player>>)

  datatype Capture = Capture(id: string, at: int, content: Content)

  datatype DecisionCapture = DecisionCapture(
    gameweek: int,
    id: string,
    at: int,
    deadline: int,
    deadlines: seq<Deadline>,
    players: Option<seq<Player>>
  )

  datatype Identity = Identity(gameweek: int, id: string, at: int, deadline: int)

  datatype SkipReason = NoBootstrapPayload | UnreadableDeadlines | AfterEveryDeadline

  datatype Skipped = Skipped(id: string, at: int, reason: SkipReason)

  datatype Seen = Seen(id: string, at: int)

  datatype PairRefusal = NotConsecutive | TakenTooEarly | MovedDeadline | EarlierRepeats | LaterRepeats

  datatype Pair = Pair(earlier: Identity, later: Identity, cells: seq<Cell>, prospective: bool)

  datatype RefusedPair = RefusedPair(earlier: Identity, later: Identity, reason: PairRefusal)

  datatype Refusal = NoDirectory | NoCaptures | BoundOutOfRange | NothingBeforeBound | PlayersUnreadable

  datatype Pooled = Pooled(pairs: nat, cells: seq<Cell>)

  datatype Reading = Reading(
    capturesRead: nat,
    skipped: seq<Skipped>,
    decisions: seq<Identity>,
    pairs: seq<Pair>,
    refused: seq<RefusedPair>,
    prospectivePairs: nat,
    pooled: Pooled,
    withoutPartner: seq<int>
  )

  function IdentityOf(d: DecisionCapture): Identity {
    Identity(d.gameweek, d.id, d.at, d.deadline)
  }

  /** The deadlines as `gameweek_deadlines` gives them: in strictly increasing gameweek order. */
  predicate InWeekOrder(deadlines: seq<Deadline>) {
    forall i, j | 0 <= i < j < |deadlines| :: deadlines[i].gameweek < deadlines[j].gameweek
  }

  /** `next_open_deadline`: a deadline at the instant itself has closed. */
  function NextOpen(deadlines: seq<Deadline>, at: int): (r: Option<Deadline>)
    ensures r.Some? ==> r.value in deadlines && r.value.at > at
    ensures r.None? <==> forall d | d in deadlines :: d.at <= at
    ensures InWeekOrder(deadlines) && r.Some? ==>
              forall d | d in deadlines && d.at > at :: r.value.gameweek <= d.gameweek
  {
    if deadlines == [] then None
    else if deadlines[0].at > at then Some(deadlines[0])
    else NextOpen(deadlines[1..], at)
  }

  /** What one capture is: a decision, or the reason it is none. */
  function Candidate(c: Capture): Outcome<DecisionCapture, SkipReason> {
    match c.content
    case NoBootstrap => Raised(NoBootstrapPayload)
    case DeadlinesUnreadable => Raised(UnreadableDeadlines)
    case Bootstrap(deadlines, players) =>
      var open := NextOpen(deadlines, c.at);
      if open.None? then Raised(AfterEveryDeadline)
      else Done(DecisionCapture(open.value.gameweek, c.id, c.at, open.value.at, deadlines, players))
  }

  predicate Replaces(chosen: map<int, DecisionCapture>, d: DecisionCapture) {
    d.gameweek in chosen ==> d.at >= chosen[d.gameweek].at
  }

  /** The captures held per gameweek after a listing. */
  function Chosen(listing: seq<Capture>): map<int, DecisionCapture> {
    if listing == [] then map[]
    else
      var (before, d) := (Chosen(listing[..|listing| - 1]), Candidate(listing[|listing| - 1]));
      if d.Done? && Replaces(before, d.value) then before[d.value.gameweek := d.value] else before
  }

  function SkippedIn(listing: seq<Capture>): seq<Skipped> {
    if listing == [] then []
    else
      var last := listing[|listing| - 1];
      SkippedIn(listing[..|listing| - 1])
      + if Candidate(last).Done? then [] else [Skipped(last.id, last.at, Candidate(last).error)]
  }

  function Inventory(listing: seq<Capture>): seq<Seen> {
    if listing == [] then []
    else Inventory(listing[..|listing| - 1]) + [Seen(listing[|listing| - 1].id, listing[|listing| - 1].at)]
  }

  /** `decision_captures` over a listing that is already in order. */
  method DecisionCaptures(root: Option<seq<Capture>>)
    returns (r: Outcome<(map<int, DecisionCapture>, seq<Skipped>, seq<Seen>), Refusal>)
    ensures root.None? ==> r == Raised(NoDirectory)
    ensures root == Some([]) ==> r == Raised(NoCaptures)
    ensures root.Some? && root.value != [] ==>
              r == Done((Chosen(root.value), SkippedIn(root.value), Inventory(root.value)))
  {
    if root.None? {
      return Raised(NoDirectory);
    }
    var listing := root.value;
    if listing == [] {
      return Raised(NoCaptures);
    }
    var chosen: map<int, DecisionCapture> := map[];
    var skipped: seq<Skipped> := [];
    var inventory: seq<Seen> := [];
    for i := 0 to |listing|
      invariant chosen == Chosen(listing[..i])
      invariant skipped == SkippedIn(listing[..i])
      invariant inventory == Inventory(listing[..i])
    {
      assert listing[..i + 1][..i] == listing[..i];
      var c := listing[i];
      inventory := inventory + [Seen(c.id, c.at)];
      var candidate := Candidate(c);
      if candidate.Raised? {
        skipped := skipped + [Skipped(c.id, c.at, candidate.error)];
        continue;
      }
      var d := candidate.value;
      if d.gameweek !in chosen || d.at >= chosen[d.gameweek].at {
        chosen := chosen[d.gameweek := d];
      }
    }
    assert listing[..|listing|] == listing;
    return Done((chosen, skipped, inventory));
  }

  predicate IsDecisionOf(c: Capture, gameweek: int) {
    Candidate(c).Done? && Candidate(c).value.gameweek == gameweek
  }

  /** Capture `i` comes last among a gameweek's captures, by instant and then by place. */
  predicate IsLast(listing: seq<Capture>, gameweek: int, i: int)
    requires 0 <= i < |listing|
  {
    && IsDecisionOf(listing[i], gameweek)
    && forall j | 0 <= j < |listing| && IsDecisionOf(listing[j], gameweek) ::
         listing[j].at < listing[i].at || (listing[j].at == listing[i].at && j <= i)
  }

  predicate Holds(listing: seq<Capture>, gameweek: int, i: int, d: DecisionCapture) {
    0 <= i < |listing| && IsLast(listing, gameweek, i) && Candidate(listing[i]) == Done(d)
  }

  lemma ChosenNext(listing: seq<Capture>, c: Capture, gameweek: int)
    ensures var (before, after) := (Chosen(listing), Chosen(listing + [c]));
            if IsDecisionOf(c, gameweek) && (gameweek in before ==> c.at >= before[gameweek].at)
            then gameweek in after && Candidate(c) == Done(after[gameweek])
            else (gameweek in after <==> gameweek in before)
                 && (gameweek in before ==> after[gameweek] == before[gameweek])
  {
    assert (listing + [c])[..|listing + [c]| - 1] == listing;
  }

  lemma HoldsNext(listing: seq<Capture>, c: Capture, gameweek: int, i: int, d: DecisionCapture)
    requires Holds(listing, gameweek, i, d)
    ensures !(IsDecisionOf(c, gameweek) && c.at >= d.at) ==> Holds(listing + [c], gameweek, i, d)
    ensures IsDecisionOf(c, gameweek) && c.at >= d.at ==>
              Holds(listing + [c], gameweek, |listing|, Candidate(c).value)
  {
    assert forall j | 0 <= j < |listing| :: (listing + [c])[j] == listing[j];
    assert (listing + [c])[|listing|] == c;
    assert listing[i].at == d.at;
  }

  /** A gameweek has a decision capture exactly when some capture decides it, and then it is
      the one that comes last by instant and place in the listing. */
  lemma {:induction false} ChosenIsLast(listing: seq<Capture>, gameweek: int)
    ensures gameweek in Chosen(listing) <==> exists i | 0 <= i < |listing| :: IsDecisionOf(listing[i], gameweek)
    ensures gameweek in Chosen(listing) ==> exists i :: Holds(listing, gameweek, i, Chosen(listing)[gameweek])
  {
    if listing != [] {
      var (front, last) := (listing[..|listing| - 1], listing[|listing| - 1]);
      assert listing == front + [last];
      ChosenIsLast(front, gameweek);
      ChosenNext(front, last, gameweek);
      assert forall i | 0 <= i < |front| :: listing[i] == front[i];
      if gameweek in Chosen(front) {
        var i :| Holds(front, gameweek, i, Chosen(front)[gameweek]);
        HoldsNext(front, last, gameweek, i, Chosen(front)[gameweek]);
      } else if IsDecisionOf(last, gameweek) {
        assert Holds(listing, gameweek, |front|, Candidate(last).value);
      }
    }
  }

  /** Every capture read is in the inventory, in order, and is skipped with its reason exactly
      when it is no decision. */
  lemma {:induction false} InventoryNamesEveryCapture(listing: seq<Capture>)
    ensures |Inventory(listing)| == |listing|
    ensures forall i | 0 <= i < |listing| :: Inventory(listing)[i] == Seen(listing[i].id, listing[i].at)
    ensures forall s :: s in SkippedIn(listing)
              <==> exists c | c in listing :: Candidate(c) == Raised(s.reason) && s.id == c.id && s.at == c.at
  {
    if listing != [] {
      var (front, last) := (listing[..|listing| - 1], listing[|listing| - 1]);
      InventoryNamesEveryCapture(front);
      assert forall c :: c in listing <==> c in front || c == last;
    }
  }

  // ---- pairs ----

  predicate Repeats(players: seq<Player>) {
    exists i, j | 0 <= i < j < |players| :: players[i].code == players[j].code
  }

  /** The deadline a capture publishes for a gameweek. */
  function Published(deadlines: seq<Deadline>, gameweek: int): Option<int> {
    if deadlines == [] then None
    else if deadlines[0].gameweek == gameweek then Some(deadlines[0].at)
    else Published(deadlines[1..], gameweek)
  }

  datatype PairProblem = Refuse(reason: PairRefusal) | Escape

  /** `pair_transitions`. An unreadable player list is an error of its own, not a refusal. */
  function PairCellsOf(earlier: DecisionCapture, later: DecisionCapture): Outcome<seq<Cell>, PairProblem> {
    if later.gameweek != earlier.gameweek + 1 then Raised(Refuse(NotConsecutive))
    else if later.at < earlier.deadline then Raised(Refuse(TakenTooEarly))
    else if Published(later.deadlines, earlier.gameweek) != Some(earlier.deadline) then Raised(Refuse(MovedDeadline))
    else if earlier.players.None? then Raised(Escape)
    else if Repeats(earlier.players.value) then Raised(Refuse(EarlierRepeats))
    else if later.players.None? then Raised(Escape)
    else if Repeats(later.players.value) then Raised(Refuse(LaterRepeats))
    else Done(PairCells(earlier.players.value, later.players.value))
  }

  /** When two captures pair, and which refusal comes first when they do not. */
  lemma PairTable(earlier: DecisionCapture, later: DecisionCapture)
    requires later.gameweek == earlier.gameweek + 1
    ensures var r := PairCellsOf(earlier, later);
            var timely := later.at >= earlier.deadline;
            var agreed := Published(later.deadlines, earlier.gameweek) == Some(earlier.deadline);
            var (once, again) := (earlier.players.Some? && !Repeats(earlier.players.value),
                                  later.players.Some? && !Repeats(later.players.value));
            && (r.Done? <==> timely && agreed && once && again)
            && (r == Raised(Refuse(TakenTooEarly)) <==> !timely)
            && (r == Raised(Refuse(MovedDeadline)) <==> timely && !agreed)
            && (r == Raised(Refuse(EarlierRepeats)) <==> timely && agreed && earlier.players.Some? && !once)
            && (r == Raised(Refuse(LaterRepeats)) <==> timely && agreed && once && later.players.Some? && !again)
            && (r == Raised(Escape) <==> timely && agreed && (earlier.players.None? || (once && later.players.None?)))
  {
  }

  /** What becomes of one gameweek's capture in a reading. */
  datatype Verdict = Paired(pair: Pair) | PairRefused(refusal: RefusedPair) | Alone(gameweek: int)

  function VerdictOn(captures: map<int, DecisionCapture>, merged: int, gameweek: int): Outcome<seq<Verdict>, Refusal>
    requires gameweek in captures
  {
    if gameweek + 1 !in captures then Done([Alone(gameweek)])
    else
      var (earlier, later) := (captures[gameweek], captures[gameweek + 1]);
      match PairCellsOf(earlier, later)
      case Done(cells) => Done([Paired(Pair(IdentityOf(earlier), IdentityOf(later), cells, earlier.deadline > merged))])
      case Raised(Escape) => Raised(PlayersUnreadable)
      case Raised(Refuse(reason)) => Done([PairRefused(RefusedPair(IdentityOf(earlier), IdentityOf(later), reason))])
  }

  lemma SomeKey(keys: set<int>)
    requires keys != {}
    ensures exists k :: k in keys
  {
    assert (forall k :: k !in keys) ==> keys == {};
  }

  lemma {:induction false} LeastExists(keys: set<int>)
    requires keys != {}
    ensures exists k | k in keys :: forall j | j in keys :: k <= j
  {
    SomeKey(keys);
    var x :| x in keys;
    if keys - {x} != {} {
      LeastExists(keys - {x});
      var k :| k in keys - {x} && forall j | j in keys - {x} :: k <= j;
      assert (if x < k then x else k) in keys;
      assert forall j | j in keys :: j == x || j in keys - {x};
    } else {
      assert forall j | j in keys :: j == x || j in keys - {x};
    }
  }

  function Least(keys: set<int>): (k: int)
    requires keys != {}
    ensures k in keys && forall j | j in keys :: k <= j
  {
    LeastExists(keys);
    var k :| k in keys && forall j | j in keys :: k <= j;
    k
  }

  /** `sorted` of a dictionary's keys. */
  function Ascending(keys: set<int>): seq<int> {
    if keys == {} then [] else [Least(keys)] + Ascending(keys - {Least(keys)})
  }

  lemma {:induction false} AscendingMeans(keys: set<int>)
    ensures forall k :: k in Ascending(keys) <==> k in keys
    ensures forall i, j | 0 <= i < j < |Ascending(keys)| :: Ascending(keys)[i] < Ascending(keys)[j]
  {
    if keys != {} {
      var k := Least(keys);
      var rest := Ascending(keys - {k});
      AscendingMeans(keys - {k});
      assert Ascending(keys) == [k] + rest;
      assert forall j :: j in keys <==> j == k || j in keys - {k};
      forall i | 0 <= i < |rest|
        ensures k < rest[i]
      {
        assert rest[i] in rest;
      }
    }
  }

  /** The verdicts on some gameweeks, in order; an unreadable player list stops them. */
  function Verdicts(captures: map<int, DecisionCapture>, merged: int, weeks: seq<int>): Outcome<seq<Verdict>, Refusal>
    requires forall g | g in weeks :: g in captures
  {
    if weeks == [] then Done([])
    else
      var front := Verdicts(captures, merged, weeks[..|weeks| - 1]);
      Then(front, VerdictOn(captures, merged, weeks[|weeks| - 1]))
  }

  function PairsIn(verdicts: seq<Verdict>): seq<Pair> {
    if verdicts == [] then []
    else
      var last := verdicts[|verdicts| - 1];
      PairsIn(verdicts[..|verdicts| - 1]) + if last.Paired? then [last.pair] else []
  }

  function RefusalsIn(verdicts: seq<Verdict>): seq<RefusedPair> {
    if verdicts == [] then []
    else
      var last := verdicts[|verdicts| - 1];
      RefusalsIn(verdicts[..|verdicts| - 1]) + if last.PairRefused? then [last.refusal] else []
  }

  function AloneIn(verdicts: seq<Verdict>): seq<int> {
    if verdicts == [] then []
    else
      var last := verdicts[|verdicts| - 1];
      AloneIn(verdicts[..|verdicts| - 1]) + if last.Alone? then [last.gameweek] else []
  }

  lemma VerdictsNext(verdicts: seq<Verdict>, v: Verdict)
    ensures PairsIn(verdicts + [v]) == PairsIn(verdicts) + if v.Paired? then [v.pair] else []
    ensures RefusalsIn(verdicts + [v]) == RefusalsIn(verdicts) + if v.PairRefused? then [v.refusal] else []
    ensures AloneIn(verdicts + [v]) == AloneIn(verdicts) + if v.Alone? then [v.gameweek] else []
  {
    assert (verdicts + [v])[..|verdicts + [v]| - 1] == verdicts;
  }

  // ---- the pooled figure ----

  function IsProspective(): Pair -> bool {
    (p: Pair) => p.prospective
  }

  /** All codes of one class in the `k`-th cells of some pairs. */
  function Extended(pairs: seq<Pair>, k: nat): Tally {
    if pairs == [] || k >= |pairs[|pairs| - 1].cells| then EMPTY
    else
      var (t, u) := (Extended(pairs[..|pairs| - 1], k), pairs[|pairs| - 1].cells[k].players);
      Tally(t.available + u.available, t.doubtful + u.doubtful, t.out + u.out, t.absent + u.absent, t.unknown + u.unknown)
  }

  function PooledProspective(pairs: seq<Pair>): Pooled {
    var kept := Filter(pairs, IsProspective());
    Pooled(|kept|, seq(4, k requires 0 <= k < 4 => CellFrom(CellChance(k), Extended(kept, k))))
  }

  /** The sum of one cell's counts over some pairs. */
  function SumCounts(pairs: seq<Pair>, k: nat): Counts {
    if pairs == [] || k >= |pairs[|pairs| - 1].cells| then Counts(0, 0, 0, 0, 0)
    else Plus(SumCounts(pairs[..|pairs| - 1], k), pairs[|pairs| - 1].cells[k].counts)
  }

  predicate WellCounted(pairs: seq<Pair>) {
    forall p | p in pairs :: |p.cells| == 4 && forall k | 0 <= k < 4 :: CountsOf(p.cells[k].players) == p.cells[k].counts
  }

  lemma {:induction false} ExtendedCounts(pairs: seq<Pair>, k: nat)
    requires WellCounted(pairs) && k < 4
    ensures CountsOf(Extended(pairs, k)) == SumCounts(pairs, k)
  {
    if pairs != [] {
      ExtendedCounts(pairs[..|pairs| - 1], k);
      assert pairs[|pairs| - 1] in pairs;
    }
  }

  /** The pooled figure counts exactly what the prospective pairs count; retrospective pairs
      never enter it. */
  lemma PooledIsTheSumOfProspectivePairs(pairs: seq<Pair>)
    requires WellCounted(pairs)
    ensures var kept := Filter(pairs, IsProspective());
            && PooledProspective(pairs).pairs == |kept|
            && (forall p :: p in kept <==> p in pairs && p.prospective)
            && forall k | 0 <= k < 4 :: PooledProspective(pairs).cells[k].counts == SumCounts(kept, k)
  {
    var kept := Filter(pairs, IsProspective());
    FilterMembers(pairs, IsProspective());
    forall k | 0 <= k < 4
      ensures PooledProspective(pairs).cells[k].counts == SumCounts(kept, k)
    {
      ExtendedCounts(kept, k);
    }
  }
}
