/** Drawing a fifteen by rejection: shuffled pools, position quotas, at most three per club. */
module LegalFifteen {
  import opened Outcomes
  import opened Lists
  import opened Sorting

  datatype Position = GK | DEF | MID | FWD

  datatype Player = Player(id: int, club: string, position: Position, expected: real)

  /** The quota, in the order the positions are drawn. */
  const QUOTA: seq<(Position, nat)> := [(GK, 2), (DEF, 5), (MID, 5), (FWD, 3)]

  const MAX_PER_CLUB := 3

  function PlaysAt(p: Position): Player -> bool {
    (x: Player) => x.position == p
  }

  function Cheaper(): (Player, Player) -> bool {
    (a: Player, b: Player) => a.expected <= b.expected
  }

  function IdLeq(): (int, int) -> bool {
    (a: int, b: int) => a <= b
  }

  /** The rows a position is drawn from; a weak draw keeps the lower half by points. */
  function PoolOf(table: seq<Player>, p: Position, weak: bool): seq<Player> {
    var rows := Filter(table, PlaysAt(p));
    if weak then Sort(rows, Cheaper())[..|rows| / 2] else rows
  }

  function Ids(picked: seq<Player>): seq<int> {
    seq(|picked|, i requires 0 <= i < |picked| => picked[i].id)
  }

  function InClub(picked: seq<Player>, club: string): nat {
    if picked == [] then 0
    else InClub(picked[..|picked| - 1], club) + if picked[|picked| - 1].club == club then 1 else 0
  }

  function AtPosition(picked: seq<Player>, p: Position): nat {
    if picked == [] then 0
    else AtPosition(picked[..|picked| - 1], p) + if picked[|picked| - 1].position == p then 1 else 0
  }

  lemma PickNext(picked: seq<Player>, x: Player, club: string)
    ensures InClub(picked + [x], club) == InClub(picked, club) + if x.club == club then 1 else 0
  {
    assert (picked + [x])[..|picked + [x]| - 1] == picked;
  }

  lemma {:induction false} PositionsAppend(picked: seq<Player>, added: seq<Player>, p: Position, q: Position)
    requires forall x | x in added :: x.position == p
    ensures AtPosition(picked + added, q) == AtPosition(picked, q) + if p == q then |added| else 0
  {
    if added == [] {
      assert picked + added == picked;
    } else {
      PositionsAppend(picked, added[..|added| - 1], p, q);
      assert (picked + added)[..|picked + added| - 1] == picked + added[..|added| - 1];
    }
  }

  /** The dictionary of club counts says what the picks say. */
  ghost predicate TrueClubs(clubs: map<string, int>, picked: seq<Player>) {
    forall club :: (if club in clubs then clubs[club] else 0) == InClub(picked, club) <= MAX_PER_CLUB
  }

  ghost predicate ClubsLegal(picked: seq<Player>) {
    forall club :: InClub(picked, club) <= MAX_PER_CLUB
  }

  /** The picks after a pool is walked for at most `count` more: a player of a full club is
      passed over. */
  function Take(pool: seq<Player>, count: nat, picked: seq<Player>): seq<Player>
    decreases |pool|
  {
    if pool == [] || count == 0 then picked
    else if InClub(picked, pool[0].club) >= MAX_PER_CLUB then Take(pool[1..], count, picked)
    else Take(pool[1..], count - 1, picked + [pool[0]])
  }

  /** What one position adds: players of its own pool, each at most as often as it is there. */
  ghost predicate Drawn(added: seq<Player>, pool: seq<Player>, p: Position) {
    multiset(added) <= multiset(pool) && forall x | x in added :: x.position == p
  }

  /** What a pool's walk has seen it has picked, or its club is full. */
  ghost predicate SeenOrFull(picked: seq<Player>, added: seq<Player>, seen: seq<Player>) {
    forall x | x in seen :: x in added || InClub(picked, x.club) == MAX_PER_CLUB
  }

  lemma {:induction false} ClubOnlyGrows(picked: seq<Player>, added: seq<Player>, club: string)
    ensures InClub(picked, club) <= InClub(picked + added, club)
  {
    if added == [] {
      assert picked + added == picked;
    } else {
      ClubOnlyGrows(picked, added[..|added| - 1], club);
      PickNext(picked + added[..|added| - 1], added[|added| - 1], club);
      assert picked + added == picked + added[..|added| - 1] + [added[|added| - 1]];
    }
  }

  /** Walking a pool keeps the picks and the club limit, adds at most the quota, and leaves a
      quota unfilled only when every player not added belongs to a full club. */
  lemma {:induction false} TakeMeans(pool: seq<Player>, count: nat, picked: seq<Player>, p: Position)
    returns (added: seq<Player>)
    requires ClubsLegal(picked) && forall x | x in pool :: x.position == p
    ensures Take(pool, count, picked) == picked + added && |added| <= count
    ensures Drawn(added, pool, p) && ClubsLegal(picked + added)
    ensures |added| < count ==> SeenOrFull(picked + added, added, pool)
    decreases |pool|
  {
    added := [];
    assert picked + added == picked;
    if pool != [] && count > 0 {
      var (x, rest) := (pool[0], pool[1..]);
      assert pool == [x] + rest;
      if InClub(picked, x.club) >= MAX_PER_CLUB {
        added := TakeMeans(rest, count, picked, p);
        ClubOnlyGrows(picked, added, x.club);
      } else {
        OneMoreLegal(picked, x);
        var more := TakeMeans(rest, count - 1, picked + [x], p);
        added := [x] + more;
        assert picked + added == picked + [x] + more;
      }
    }
  }

  lemma OneMoreLegal(picked: seq<Player>, x: Player)
    requires ClubsLegal(picked) && InClub(picked, x.club) < MAX_PER_CLUB
    ensures ClubsLegal(picked + [x])
  {
    forall club
      ensures InClub(picked + [x], club) <= MAX_PER_CLUB
    {
      PickNext(picked, x, club);
    }
  }

  /** One position's pool, walked until its quota is filled: the counts per club stay true. */
  method DrawPosition(
    pool: seq<Player>, quota: nat, chosen: seq<int>, clubs: map<string, int>, ghost picked: seq<Player>)
    returns (chosen': seq<int>, clubs': map<string, int>, count: nat)
    requires chosen == Ids(picked) && TrueClubs(clubs, picked)
    ensures chosen' == Ids(Take(pool, quota, picked)) && TrueClubs(clubs', Take(pool, quota, picked))
    ensures count + |chosen'| == quota + |chosen|
  {
    chosen', clubs', count := chosen, clubs, quota;
    ghost var now := picked;
    for k := 0 to |pool|
      invariant chosen' == Ids(now) && TrueClubs(clubs', now)
      invariant Take(pool[k..], count, now) == Take(pool, quota, picked)
      invariant count + |chosen'| == quota + |chosen|
    {
      var row := pool[k];
      assert pool[k..][1..] == pool[k + 1..];
      if count == 0 {
        return;
      }
      var held := if row.club in clubs' then clubs'[row.club] else 0;
      if held >= 3 {
        continue;
      }
      IdsNext(now, row);
      ClubsNext(clubs', now, row, held);
      chosen' := chosen' + [row.id];
      clubs' := clubs'[row.club := held + 1];
      now := now + [row];
      count := count - 1;
    }
  }

  lemma IdsNext(picked: seq<Player>, x: Player)
    ensures Ids(picked + [x]) == Ids(picked) + [x.id]
  {
  }

  lemma ClubsNext(clubs: map<string, int>, picked: seq<Player>, x: Player, held: int)
    requires TrueClubs(clubs, picked) && held == (if x.club in clubs then clubs[x.club] else 0) < 3
    ensures TrueClubs(clubs[x.club := held + 1], picked + [x])
  {
    assert held == InClub(picked, x.club);
    forall club
      ensures InClub(picked + [x], club) == InClub(picked, club) + if x.club == club then 1 else 0
    {
      PickNext(picked, x, club);
    }
  }

  /** What a fifteen's rows are: the quotas met, no club over three, no row used twice over. */
  ghost predicate LegalRows(table: seq<Player>, picked: seq<Player>) {
    && |picked| == 15
    && AtPosition(picked, GK) == 2 && AtPosition(picked, DEF) == 5
    && AtPosition(picked, MID) == 5 && AtPosition(picked, FWD) == 3
    && (forall club :: InClub(picked, club) <= MAX_PER_CLUB)
    && multiset(picked) <= multiset(table)
  }

  ghost predicate Legal(table: seq<Player>, squad: seq<int>) {
    exists picked :: LegalRows(table, picked) && squad == Sort(Ids(picked), IdLeq())
  }

  /** A pool in any order holds rows of its position only, none more often than the table. */
  lemma PoolIsOfPosition(table: seq<Player>, p: Position, weak: bool, pool: seq<Player>)
    requires multiset(pool) == multiset(PoolOf(table, p, weak))
    ensures forall x | x in pool :: x.position == p
    ensures forall x :: multiset(pool)[x] <= if x.position == p then multiset(table)[x] else 0
  {
    var rows := Filter(table, PlaysAt(p));
    var sorted := Sort(rows, Cheaper());
    assert sorted == sorted[..|rows| / 2] + sorted[|rows| / 2..];
    forall x
      ensures multiset(pool)[x] <= if x.position == p then multiset(table)[x] else 0
    {
      FilterCount(table, PlaysAt(p), x);
    }
    forall x | x in pool
      ensures x.position == p
    {
      assert x in multiset(pool);
    }
  }

  /** The rows picked so far come from the table's own rows of the positions drawn. */
  ghost predicate FromTable(table: seq<Player>, picked: seq<Player>, done: nat)
    requires done <= 4
  {
    && (forall x :: multiset(picked)[x] <= multiset(table)[x])
    && (forall i | 0 <= i < done :: AtPosition(picked, QUOTA[i].0) == QUOTA[i].1)
    && (forall i | done <= i < 4 :: AtPosition(picked, QUOTA[i].0) == 0)
    && |picked| == (if done > 0 then 2 else 0) + (if done > 1 then 5 else 0)
                 + (if done > 2 then 5 else 0) + (if done > 3 then 3 else 0)
  }

  lemma {:induction false} NoneThere(picked: seq<Player>, p: Position, x: Player)
    requires AtPosition(picked, p) == 0 && x.position == p
    ensures multiset(picked)[x] == 0
  {
    if picked != [] {
      NoneThere(picked[..|picked| - 1], p, x);
      assert picked == picked[..|picked| - 1] + [picked[|picked| - 1]];
    }
  }

  lemma NextPosition(table: seq<Player>, picked: seq<Player>, added: seq<Player>, pool: seq<Player>, done: nat)
    requires done < 4 && FromTable(table, picked, done)
    requires var p := QUOTA[done].0;
             && Drawn(added, pool, p)
             && |added| == QUOTA[done].1
             && forall x :: multiset(pool)[x] <= if x.position == p then multiset(table)[x] else 0
    ensures FromTable(table, picked + added, done + 1)
  {
    var p := QUOTA[done].0;
    forall x
      ensures multiset(picked + added)[x] <= multiset(table)[x]
    {
      if x.position == p {
        NoneThere(picked, p, x);
      }
      assert multiset(added)[x] <= multiset(pool)[x];
    }
    forall i | 0 <= i < 4
      ensures AtPosition(picked + added, QUOTA[i].0)
           == AtPosition(picked, QUOTA[i].0) + if i == done then |added| else 0
    {
      PositionsAppend(picked, added, p, QUOTA[i].0);
    }
  }

  /** A shuffle orders a pool in any way. */
  type Shuffle = (Position, seq<Player>) -> seq<Player>

  /** The positions from the `done`-th on, drawn in turn; none when one cannot be filled. */
  function DrawFrom(table: seq<Player>, weak: bool, shuffle: Shuffle, done: nat, picked: seq<Player>): Option<seq<Player>>
    requires done <= 4
    decreases 4 - done
  {
    if done == 4 then Some(picked)
    else
      var (p, quota) := QUOTA[done];
      var next := Take(shuffle(p, PoolOf(table, p, weak)), quota, picked);
      if |next| < |picked| + quota then None else DrawFrom(table, weak, shuffle, done + 1, next)
  }

  /** What one attempt gives. */
  function Drawing(table: seq<Player>, weak: bool, shuffle: Shuffle): Option<seq<int>> {
    var picked := DrawFrom(table, weak, shuffle, 0, []);
    if picked.None? then None else Some(Sort(Ids(picked.value), IdLeq()))
  }

  /** One attempt of the draw: a fifteen, or nothing when a position could not be filled. */
  method Attempt(table: seq<Player>, weak: bool, shuffle: Shuffle) returns (r: Option<seq<int>>)
    ensures r == Drawing(table, weak, shuffle)
  {
    var chosen: seq<int> := [];
    var clubs: map<string, int> := map[];
    ghost var picked: seq<Player> := [];
    assert Ids(picked) == [];
    for i := 0 to 4
      invariant chosen == Ids(picked) && TrueClubs(clubs, picked)
      invariant DrawFrom(table, weak, shuffle, i, picked) == DrawFrom(table, weak, shuffle, 0, [])
    {
      var (p, quota) := QUOTA[i];
      var pool := shuffle(p, PoolOf(table, p, weak));
      var count;
      chosen, clubs, count := DrawPosition(pool, quota, chosen, clubs, picked);
      if count > 0 {
        return None;
      }
      picked := Take(pool, quota, picked);
    }
    return Some(Sort(chosen, IdLeq()));
  }

  ghost predicate Shuffles(shuffle: Shuffle) {
    forall p, rows :: multiset(shuffle(p, rows)) == multiset(rows)
  }

  /** Whatever the remaining positions draw completes legal picks to a legal fifteen. */
  lemma {:induction false} DrawFromIsLegal(table: seq<Player>, weak: bool, shuffle: Shuffle, done: nat, picked: seq<Player>)
    requires done <= 4 && Shuffles(shuffle)
    requires FromTable(table, picked, done) && ClubsLegal(picked)
    requires DrawFrom(table, weak, shuffle, done, picked).Some?
    ensures LegalRows(table, DrawFrom(table, weak, shuffle, done, picked).value)
    decreases 4 - done
  {
    if done == 4 {
      assert QUOTA[0] == (GK, 2) && QUOTA[1] == (DEF, 5) && QUOTA[2] == (MID, 5) && QUOTA[3] == (FWD, 3);
    } else {
      var (p, quota) := QUOTA[done];
      var pool := shuffle(p, PoolOf(table, p, weak));
      PoolIsOfPosition(table, p, weak, pool);
      var added := TakeMeans(pool, quota, picked, p);
      NextPosition(table, picked, added, pool, done);
      DrawFromIsLegal(table, weak, shuffle, done + 1, picked + added);
    }
  }

  /** Whatever an attempt gives is legal, for every table and every shuffle. */
  lemma DrawingIsLegal(table: seq<Player>, weak: bool, shuffle: Shuffle)
    requires Shuffles(shuffle) && Drawing(table, weak, shuffle).Some?
    ensures Legal(table, Drawing(table, weak, shuffle).value)
  {
    assert FromTable(table, [], 0);
    DrawFromIsLegal(table, weak, shuffle, 0, []);
  }

  /** The first attempt that gives a fifteen, among some. */
  function FirstDrawn(table: seq<Player>, weak: bool, shuffle: nat -> Shuffle, attempts: nat): Option<seq<int>> {
    if attempts == 0 then None
    else
      var before := FirstDrawn(table, weak, shuffle, attempts - 1);
      if before.Some? then before else Drawing(table, weak, shuffle(attempts - 1))
  }

  lemma {:induction false} FirstStays(table: seq<Player>, weak: bool, shuffle: nat -> Shuffle, k: nat, attempts: nat)
    requires k <= attempts && FirstDrawn(table, weak, shuffle, k).Some?
    ensures FirstDrawn(table, weak, shuffle, attempts) == FirstDrawn(table, weak, shuffle, k)
  {
    if k < attempts {
      FirstStays(table, weak, shuffle, k, attempts - 1);
    }
  }

  /** `_legal_fifteen` over its first attempts. The source tries until one succeeds. */
  method DrawFifteen(table: seq<Player>, weak: bool, shuffle: nat -> Shuffle, attempts: nat) returns (r: Option<seq<int>>)
    ensures r == FirstDrawn(table, weak, shuffle, attempts)
  {
    for k := 0 to attempts
      invariant FirstDrawn(table, weak, shuffle, k) == None
    {
      r := Attempt(table, weak, shuffle(k));
      if r.Some? {
        FirstStays(table, weak, shuffle, k + 1, attempts);
        return;
      }
    }
    return None;
  }

  /** Every fifteen the loop returns is legal, for every table and every sequence of shuffles. */
  lemma {:induction false} EveryFifteenIsLegal(table: seq<Player>, weak: bool, shuffle: nat -> Shuffle, attempts: nat)
    requires forall k :: Shuffles(shuffle(k))
    requires FirstDrawn(table, weak, shuffle, attempts).Some?
    ensures Legal(table, FirstDrawn(table, weak, shuffle, attempts).value)
  {
    if FirstDrawn(table, weak, shuffle, attempts - 1).Some? {
      EveryFifteenIsLegal(table, weak, shuffle, attempts - 1);
    } else {
      DrawingIsLegal(table, weak, shuffle(attempts - 1));
    }
  }

  // ---- what a drawn fifteen is ----

  ghost predicate DistinctIds(table: seq<Player>) {
    forall i, j | 0 <= i < j < |table| :: table[i].id != table[j].id
  }

  lemma SamePlayer(table: seq<Player>, x: Player, y: Player)
    requires DistinctIds(table) && x in table && y in table && x.id == y.id
    ensures x == y && multiset(table)[x] == 1
  {
    var i :| 0 <= i < |table| && table[i] == x;
    var j :| 0 <= j < |table| && table[j] == y;
    assert table == table[..i] + [x] + table[i + 1..];
    assert x !in table[..i] && x !in table[i + 1..];
    assert multiset(table) == multiset(table[..i]) + multiset{x} + multiset(table[i + 1..]);
  }

  lemma TwiceCounts(picked: seq<Player>, i: nat, j: nat)
    requires i < j < |picked| && picked[i] == picked[j]
    ensures multiset(picked)[picked[i]] >= 2
  {
    assert picked == picked[..j] + picked[j..];
    assert picked[i] in picked[..j] && picked[i] in picked[j..];
  }

  /** A drawn fifteen is sorted, has fifteen distinct players of the table, two, five, five and
      three by position, and at most three of any club. */
  lemma DrawnFifteenIsLegal(table: seq<Player>, squad: seq<int>) returns (picked: seq<Player>)
    requires Legal(table, squad) && DistinctIds(table)
    ensures LegalRows(table, picked)
    ensures multiset(squad) == multiset(Ids(picked)) && |squad| == 15
    ensures forall i, j | 0 <= i < j < |squad| :: squad[i] < squad[j]
  {
    picked :| LegalRows(table, picked) && squad == Sort(Ids(picked), IdLeq());
    forall i, j | 0 <= i < j < |picked|
      ensures Ids(picked)[i] != Ids(picked)[j]
    {
      assert picked[i] in multiset(picked) && picked[j] in multiset(picked);
      if picked[i].id == picked[j].id {
        SamePlayer(table, picked[i], picked[j]);
        TwiceCounts(picked, i, j);
      }
    }
    SortSorted(Ids(picked), IdLeq());
    DistinctSorted(Ids(picked), squad);
  }

  lemma DistinctSorted(ids: seq<int>, sorted: seq<int>)
    requires Distinct(ids)
    requires multiset(sorted) == multiset(ids) && Sorted(sorted, IdLeq())
    ensures forall i, j | 0 <= i < j < |sorted| :: sorted[i] < sorted[j]
  {
    forall i, j | 0 <= i < j < |sorted|
      ensures sorted[i] < sorted[j]
    {
      assert IdLeq()(sorted[i], sorted[j]);
      CountOfDistinct(ids, sorted[i]);
      assert sorted == sorted[..j] + sorted[j..];
      assert sorted[i] in sorted[..j];
      assert sorted[j] in sorted[j..];
      assert multiset(sorted)[sorted[i]] == multiset(sorted[..j])[sorted[i]] + multiset(sorted[j..])[sorted[i]];
    }
  }
}
