/** What an amendment keeps, and why an interrupted one converges. */
module AmendmentMeaning {
  import opened Outcomes
  import opened Sorting
  import opened Amendment

  // ---- one entry changes in one field ----

  function BareFile(file: EntryFile): EntryFile {
    if file.Unreadable? then file else Document(file.entry.(plan := Missing))
  }

  function Bare(n: Named): Named {
    Named(n.name, BareFile(n.file))
  }

  /** Amending reads every field but the one it writes, and writes that one alone. */
  lemma AmendReadsNoPlan(job: Job, a: Sources, x: Named, y: Named)
    requires Bare(x) == Bare(y)
    ensures AmendFile(job, a, x.file) == AmendFile(job, a, y.file)
    ensures Bare(AmendNamed(job, a, x)) == Bare(x)
    ensures Amendable(job, a, x) ==> AmendNamed(job, a, x) == AmendNamed(job, a, y)
  {
    if x.file.Document? {
      var (e, f) := (x.file.entry, y.file.entry);
      assert e.(plan := Missing) == f.(plan := Missing);
      assert f == e.(plan := f.plan);
      assert HeldFromEntry(e, a.prices(job.members.season, job.members.gameweek))
          == HeldFromEntry(f, a.prices(job.members.season, job.members.gameweek));
    }
  }

  ghost predicate SameButPlans(x: seq<Named>, y: seq<Named>) {
    |x| == |y| && forall i | 0 <= i < |x| :: Bare(x[i]) == Bare(y[i])
  }

  lemma AmendedSameButPlans(job: Job, a: Sources, entries: seq<Named>, k: nat)
    ensures SameButPlans(entries, Amended(job, a, entries, k))
  {
    forall i | 0 <= i < |entries|
      ensures Bare(entries[i]) == Bare(Amended(job, a, entries, k)[i])
    {
      AmendReadsNoPlan(job, a, entries[i], entries[i]);
    }
  }

  lemma {:induction false} SameAccepted(job: Job, a: Sources, x: seq<Named>, y: seq<Named>)
    requires SameButPlans(x, y)
    ensures Accepted(job, a, x) == Accepted(job, a, y)
    ensures Amended(job, a, x, Accepted(job, a, x))[..Accepted(job, a, x)]
         == Amended(job, a, y, Accepted(job, a, x))[..Accepted(job, a, x)]
    ensures Accepted(job, a, x) < |x| ==>
              AmendFile(job, a, x[Accepted(job, a, x)].file) == AmendFile(job, a, y[Accepted(job, a, x)].file)
  {
    forall i | 0 <= i < |x|
      ensures Amendable(job, a, x[i]) <==> Amendable(job, a, y[i])
      ensures AmendFile(job, a, x[i].file) == AmendFile(job, a, y[i].file)
      ensures Amendable(job, a, x[i]) ==> AmendNamed(job, a, x[i]) == AmendNamed(job, a, y[i])
    {
      AmendReadsNoPlan(job, a, x[i], y[i]);
    }
    var (k, l) := (Accepted(job, a, x), Accepted(job, a, y));
    assert k <= l && l <= k;
  }

  // ---- the directory ----

  function LeagueOf(): Line -> int { (l: Line) => l.league }

  function PathOf(): Line -> string { (l: Line) => l.path }

  ghost predicate Once<T(!new), K(!new)>(items: seq<T>, key: T -> K) {
    forall i, j | 0 <= i < j < |items| :: key(items[i]) != key(items[j])
  }

  lemma {:induction false} OnceCounts<T(!new), K(!new)>(items: seq<T>, key: T -> K, x: T)
    requires Once(items, key)
    ensures multiset(items)[x] <= 1
  {
    if items != [] {
      OnceCounts(items[1..], key, x);
      assert items == [items[0]] + items[1..];
      assert items[0] !in items[1..];
    }
  }

  lemma OncePermuted<T(!new), K(!new)>(a: seq<T>, b: seq<T>, key: T -> K)
    requires multiset(a) == multiset(b) && Once(a, key)
    ensures Once(b, key)
  {
    forall i, j | 0 <= i < j < |b|
      ensures key(b[i]) != key(b[j])
    {
      assert b[i] in multiset(b) && b[j] in multiset(b);
      var p :| 0 <= p < |a| && a[p] == b[i];
      var q :| 0 <= q < |a| && a[q] == b[j];
      OnceCounts(a, key, b[i]);
      AtMostOnceDiffers(b, i, j);
    }
  }

  lemma AtMostOnceDiffers<T>(b: seq<T>, i: nat, j: nat)
    requires i < j < |b| && multiset(b)[b[i]] <= 1
    ensures b[i] != b[j]
  {
    assert b == b[..j] + b[j..];
    assert b[i] in b[..j] && b[j] in b[j..];
    assert multiset(b)[b[i]] == multiset(b[..j])[b[i]] + multiset(b[j..])[b[i]];
  }

  lemma {:induction false} SortOfSorted<T(!new)>(s: seq<T>, leq: (T, T) -> bool)
    requires Sorted(s, leq)
    ensures Sort(s, leq) == s
  {
    if s != [] {
      SortOfSorted(s[1..], leq);
      assert |s| > 1 ==> leq(s[0], s[1]);
    }
  }

  ghost predicate ListsAt(lines: seq<Line>, league: int, path: string) {
    exists l | l in lines :: l.league == league && l.path == path
  }

  /** A directory and its rewrite list the same leagues at the same paths, once each. */
  ghost predicate SameLeagues(x: seq<Line>, y: seq<Line>) {
    && |x| == |y|
    && (LeaguesOnce(x) <==> LeaguesOnce(y))
    && (PathsOnce(x) <==> PathsOnce(y))
    && forall league, path :: ListsAt(x, league, path) <==> ListsAt(y, league, path)
  }

  lemma RenamedSameLeagues(lines: seq<Line>, league: int, capture: string, digest: string)
    ensures SameLeagues(lines, RenamedLines(lines, league, capture, digest))
  {
    var r := RenamedLines(lines, league, capture, digest);
    assert forall i | 0 <= i < |lines| :: r[i].league == lines[i].league && r[i].path == lines[i].path;
    forall g, path
      ensures ListsAt(lines, g, path) <==> ListsAt(r, g, path)
    {
      if l :| l in lines && l.league == g && l.path == path {
        var i :| 0 <= i < |lines| && lines[i] == l;
        assert r[i] in r;
      }
      if l :| l in r && l.league == g && l.path == path {
        var i :| 0 <= i < |r| && r[i] == l;
        assert lines[i] in lines;
      }
    }
  }

  lemma SortedSameLeagues(lines: seq<Line>)
    ensures SameLeagues(lines, Sort(lines, ByLeague()))
  {
    var sorted := Sort(lines, ByLeague());
    SortMembers(lines, ByLeague());
    SortedOnce(lines, sorted);
    assert forall g, path :: ListsAt(lines, g, path) <==> ListsAt(sorted, g, path);
  }

  lemma SortedOnce(lines: seq<Line>, sorted: seq<Line>)
    requires multiset(lines) == multiset(sorted)
    ensures LeaguesOnce(lines) <==> LeaguesOnce(sorted)
    ensures PathsOnce(lines) <==> PathsOnce(sorted)
  {
    assert LeaguesOnce(lines) <==> Once(lines, LeagueOf());
    assert PathsOnce(lines) <==> Once(lines, PathOf());
    assert LeaguesOnce(sorted) <==> Once(sorted, LeagueOf());
    assert PathsOnce(sorted) <==> Once(sorted, PathOf());
    if Once(lines, LeagueOf()) {
      OncePermuted(lines, sorted, LeagueOf());
    }
    if Once(sorted, LeagueOf()) {
      OncePermuted(sorted, lines, LeagueOf());
    }
    if Once(lines, PathOf()) {
      OncePermuted(lines, sorted, PathOf());
    }
    if Once(sorted, PathOf()) {
      OncePermuted(sorted, lines, PathOf());
    }
  }

  lemma {:induction false} FindLineMeans(lines: seq<Line>, league: int)
    requires LeaguesOnce(lines)
    ensures forall path :: FindLine(lines, league) == Some(path) <==> ListsAt(lines, league, path)
  {
    if lines != [] {
      FindLineMeans(lines[1..], league);
      assert lines[0] in lines && forall l :: l in lines <==> l == lines[0] || l in lines[1..];
      assert forall i | 0 <= i < |lines[1..]| :: lines[1..][i] == lines[i + 1] && lines[i + 1].league != lines[0].league;
    }
  }

  lemma SameTreePath(x: seq<Line>, y: seq<Line>, league: Option<int>)
    requires SameLeagues(x, y) && LeaguesOnce(x)
    ensures TreePath(x, league) == TreePath(y, league)
  {
    if league.Some? {
      FindLineMeans(x, league.value);
      FindLineMeans(y, league.value);
      var (p, q) := (FindLine(x, league.value), FindLine(y, league.value));
      assert p.Some? ==> q == Some(p.value);
      assert q.Some? ==> p == Some(q.value);
    } else if |x| == 1 {
      assert x[0] in x && ListsAt(x, x[0].league, x[0].path);
      var l :| l in y && l.league == x[0].league && l.path == x[0].path;
      assert l == y[0];
    }
  }

  lemma RewriteSameLeagues(d: DirectoryFile, job: Job, a: Sources, table: TableFile)
    requires d.Directory?
    ensures SameLeagues(d.lines, DirectoryFor(d, job, a, table).lines)
  {
    var renamed := RenamedLines(d.lines, job.members.league, a.capture, a.sha(table));
    RenamedSameLeagues(d.lines, job.members.league, a.capture, a.sha(table));
    SortedSameLeagues(renamed);
  }

  /** Rewriting the directory twice is rewriting it once. */
  lemma RewriteTwice(d: DirectoryFile, job: Job, a: Sources, table: TableFile)
    requires d.Directory?
    ensures DirectoryFor(DirectoryFor(d, job, a, table), job, a, table) == DirectoryFor(d, job, a, table)
  {
    var (league, digest) := (job.members.league, a.sha(table));
    var renamed := RenamedLines(d.lines, league, a.capture, digest);
    var sorted := Sort(renamed, ByLeague());
    SortMembers(renamed, ByLeague());
    forall i | 0 <= i < |sorted|
      ensures Renamed(sorted[i], league, a.capture, digest) == sorted[i]
    {
      assert sorted[i] in sorted;
    }
    assert RenamedLines(sorted, league, a.capture, digest) == sorted;
    SortSorted(renamed, ByLeague());
    SortOfSorted(sorted, ByLeague());
  }

  // ---- a site somewhere inside a run ----

  /** Site `t` may have been left by a run that started on `s`: the documents of the tree may
      hold any device-plan fields, and the capture's table and the directory may already be
      what the run writes. */
  ghost predicate Between(s: State, t: State, job: Job, a: Sources)
    requires job.path in s.trees
  {
    && t.trees.Keys == s.trees.Keys
    && (forall path | path in s.trees && path != job.path :: t.trees[path] == s.trees[path])
    && t.trees[job.path].members == s.trees[job.path].members
    && SameButPlans(s.trees[job.path].entries, t.trees[job.path].entries)
    && (t.tables == s.tables || t.tables == s.tables[a.capture := TableOf(s.tables, job, a)])
    && (t.directory == s.directory
        || (s.directory.Some? && s.directory.value.Directory?
            && s.directory.value.lines != []
            && t.directory == Some(DirectoryFor(s.directory.value, job, a, TableOf(s.tables, job, a)))))
  }

  lemma BetweenDirectories(s: State, t: State, job: Job, a: Sources)
    requires job.path in s.trees && Between(s, t, job, a) && Lines(s.directory).Done?
    ensures Lines(t.directory).Done?
    ensures SameLeagues(Lines(s.directory).value, Lines(t.directory).value)
  {
    if t.directory != s.directory {
      RewriteSameLeagues(s.directory.value, job, a, TableOf(s.tables, job, a));
    }
  }

  lemma BetweenTables(s: State, t: State, job: Job, a: Sources)
    requires job.path in s.trees && Between(s, t, job, a)
    ensures TableOf(t.tables, job, a) == TableOf(s.tables, job, a)
    ensures TableFits(s.tables, a.capture, a.captureTable(job.members.season, job.members.gameweek))
       <==> TableFits(t.tables, a.capture, a.captureTable(job.members.season, job.members.gameweek))
  {
  }

  lemma BetweenPrepares(s: State, t: State, job: Job, a: Sources)
    requires Prepare(s, a) == Done(job) && Between(s, t, job, a)
    ensures Prepare(t, a) == Done(job)
  {
    BetweenDirectories(s, t, job, a);
    BetweenTables(s, t, job, a);
    SameTreePath(Lines(s.directory).value, Lines(t.directory).value, a.league);
  }

  /** A run that starts inside an earlier one ends as that one does: with the same outcome,
      and if it completes with the same site. */
  lemma RunFromBetween(s: State, t: State, job: Job, a: Sources)
    requires Prepare(s, a) == Done(job) && Between(s, t, job, a)
    ensures Run(t, a).outcome == Run(s, a).outcome
    ensures Run(s, a).outcome.Done? ==> Run(t, a).state == Run(s, a).state
    ensures Accepted(job, a, s.trees[job.path].entries) == |s.trees[job.path].entries| && t.directory == s.directory ==>
              Run(t, a) == Run(s, a)
  {
    BetweenPrepares(s, t, job, a);
    var (x, y) := (s.trees[job.path].entries, t.trees[job.path].entries);
    SameAccepted(job, a, x, y);
    if Accepted(job, a, x) == |x| {
      assert Amended(job, a, x, |x|) == Amended(job, a, y, |x|) by {
        assert Amended(job, a, x, |x|)[..|x|] == Amended(job, a, x, |x|);
        assert Amended(job, a, y, |x|)[..|x|] == Amended(job, a, y, |x|);
      }
      FinishFromBetween(s, t, job, a, Amended(job, a, x, |x|));
    }
  }

  lemma FinishFromBetween(s: State, t: State, job: Job, a: Sources, entries: seq<Named>)
    requires Prepare(s, a) == Done(job) && Between(s, t, job, a)
    requires Lines(t.directory).Done?
    ensures Finish(WithEntries(t, job, entries), job, a).outcome == Finish(WithEntries(s, job, entries), job, a).outcome
    ensures Finish(WithEntries(s, job, entries), job, a).outcome.Done? ==>
              Finish(WithEntries(t, job, entries), job, a) == Finish(WithEntries(s, job, entries), job, a)
    ensures t.directory == s.directory ==>
              Finish(WithEntries(t, job, entries), job, a) == Finish(WithEntries(s, job, entries), job, a)
  {
    BetweenDirectories(s, t, job, a);
    SameWritten(s, t, job, a, entries);
    if t.directory != s.directory {
      RewriteTwice(s.directory.value, job, a, TableOf(s.tables, job, a));
    }
  }

  /** The documents and tables a run writes do not depend on where inside it started. */
  lemma SameWritten(s: State, t: State, job: Job, a: Sources, entries: seq<Named>)
    requires Prepare(s, a) == Done(job) && Between(s, t, job, a)
    ensures WithPlan(WithEntries(s, job, entries), job, a).trees == WithPlan(WithEntries(t, job, entries), job, a).trees
    ensures s.tables[a.capture := TableOf(s.tables, job, a)] == t.tables[a.capture := TableOf(t.tables, job, a)]
    ensures TableOf(s.tables, job, a) == TableOf(t.tables, job, a)
  {
    BetweenTables(s, t, job, a);
  }

  /** The site after the first `k` writes of a run that is then cut off. */
  function AfterWrites(s: State, a: Sources, k: nat): State {
    var prepared := Prepare(s, a);
    if prepared.Raised? then s
    else
      var job := prepared.value;
      var entries := s.trees[job.path].entries;
      var n := Accepted(job, a, entries);
      var amended := WithEntries(s, job, Amended(job, a, entries, if k < n then k else n));
      if n < |entries| || k <= n then amended
      else if k == n + 1 then WithPlan(amended, job, a)
      else if k == n + 2 then WithTable(WithPlan(amended, job, a), job, a)
      else Run(s, a).state
  }

  lemma MoreWritesBetween(s: State, t: State, job: Job, a: Sources)
    requires job.path in s.trees && Between(s, t, job, a)
    ensures Between(s, WithPlan(t, job, a), job, a)
    ensures Between(s, WithTable(t, job, a), job, a)
  {
    BetweenTables(s, t, job, a);
  }

  lemma FinishIsBetween(s: State, t: State, job: Job, a: Sources)
    requires Prepare(s, a) == Done(job) && Between(s, t, job, a) && t.directory == s.directory
    ensures Between(s, Finish(t, job, a).state, job, a)
  {
    MoreWritesBetween(s, t, job, a);
    MoreWritesBetween(s, WithPlan(t, job, a), job, a);
    BetweenTables(s, t, job, a);
  }

  lemma AmendedIsBetween(s: State, job: Job, a: Sources, k: nat)
    requires Prepare(s, a) == Done(job)
    ensures Between(s, WithEntries(s, job, Amended(job, a, s.trees[job.path].entries, k)), job, a)
  {
    AmendedSameButPlans(job, a, s.trees[job.path].entries, k);
  }

  lemma AfterWritesIsBetween(s: State, a: Sources, k: nat)
    requires Prepare(s, a).Done?
    ensures Between(s, AfterWrites(s, a, k), Prepare(s, a).value, a)
  {
    var job := Prepare(s, a).value;
    var entries := s.trees[job.path].entries;
    var n := Accepted(job, a, entries);
    var amended := WithEntries(s, job, Amended(job, a, entries, if k < n then k else n));
    AmendedIsBetween(s, job, a, if k < n then k else n);
    MoreWritesBetween(s, amended, job, a);
    MoreWritesBetween(s, WithPlan(amended, job, a), job, a);
    FinishIsBetween(s, amended, job, a);
  }

  /** An interrupted run converges. Cut a run off after any number of writes; run again with
      the same inputs, and the outcome is that of the uninterrupted run, and when it completes
      so is the whole site. */
  lemma InterruptedRunConverges(s: State, a: Sources, k: nat)
    ensures Run(AfterWrites(s, a, k), a).outcome == Run(s, a).outcome
    ensures Run(s, a).outcome.Done? ==> Run(AfterWrites(s, a, k), a).state == Run(s, a).state
  {
    if Prepare(s, a).Done? {
      AfterWritesIsBetween(s, a, k);
      RunFromBetween(s, AfterWrites(s, a, k), Prepare(s, a).value, a);
    }
  }

  /** A second run after a completed one changes nothing. */
  lemma SecondRunChangesNothing(s: State, a: Sources)
    requires Run(s, a).outcome.Done?
    ensures Run(Run(s, a).state, a) == Run(s, a)
  {
    var job := Prepare(s, a).value;
    var n := Accepted(job, a, s.trees[job.path].entries);
    assert AfterWrites(s, a, n + 3) == Run(s, a).state;
    InterruptedRunConverges(s, a, n + 3);
  }

  // ---- what a run keeps ----

  /** Whatever becomes of a run, the other trees, the other captures' tables, the members
      document and every field of an entry but its device plan are what they were. */
  lemma OthersKeepEverything(s: State, a: Sources)
    requires Prepare(s, a).Done?
    ensures var (t, path) := (Run(s, a).state, Prepare(s, a).value.path);
            && t.trees.Keys == s.trees.Keys
            && (forall p | p in s.trees && p != path :: t.trees[p] == s.trees[p])
            && t.trees[path].members == s.trees[path].members
            && SameButPlans(s.trees[path].entries, t.trees[path].entries)
            && (forall c | c != a.capture :: c in t.tables <==> c in s.tables)
            && (forall c | c != a.capture && c in s.tables :: t.tables[c] == s.tables[c])
            && (a.capture in s.tables ==> a.capture in t.tables && t.tables[a.capture] == s.tables[a.capture])
  {
    var job := Prepare(s, a).value;
    var n := Accepted(job, a, s.trees[job.path].entries);
    assert AfterWrites(s, a, n + 3) == Run(s, a).state;
    AfterWritesIsBetween(s, a, n + 3);
  }

  /** The directory keeps every other league's line, and this league's but for its table. */
  lemma OtherLinesKeep(s: State, a: Sources)
    requires Run(s, a).outcome.Done? && s.directory.Some?
    ensures var t := Run(s, a).state;
            var league := Prepare(s, a).value.members.league;
            && t.directory.Some? && t.directory.value.Directory?
            && t.directory.value.stamp == s.directory.value.stamp
            && (forall l: Line | l.league != league :: l in t.directory.value.lines <==> l in s.directory.value.lines)
            && (forall l | l in t.directory.value.lines && l.league == league ::
                  && l.plan == Some(PlanPath(a.capture))
                  && a.capture in t.tables && l.digest == Some(a.sha(t.tables[a.capture])))
            && |t.directory.value.lines| == |s.directory.value.lines|
  {
    var job := Prepare(s, a).value;
    var lines := s.directory.value.lines;
    var digest := a.sha(TableOf(s.tables, job, a));
    var renamed := RenamedLines(lines, job.members.league, a.capture, digest);
    SortMembers(renamed, ByLeague());
    forall l: Line
      ensures l.league != job.members.league ==> (l in renamed <==> l in lines)
      ensures l in renamed && l.league == job.members.league ==> l.plan == Some(PlanPath(a.capture)) && l.digest == Some(digest)
    {
      if l in lines {
        var i :| 0 <= i < |lines| && lines[i] == l;
        assert renamed[i] == Renamed(l, job.members.league, a.capture, digest);
      }
      if l in renamed {
        var i :| 0 <= i < |renamed| && renamed[i] == l;
        assert lines[i] in lines;
      }
    }
  }

  /** A run that completes leaves every entry with the block of its own held side, and the
      league's and the capture's tables in place. */
  lemma CompletedRunMeans(s: State, a: Sources)
    requires Run(s, a).outcome.Done?
    ensures var t := Run(s, a).state;
            var job := Prepare(s, a).value;
            var m := job.members;
            && (forall i | 0 <= i < |t.trees[job.path].entries| ::
                  var file := t.trees[job.path].entries[i].file;
                  && file.Document?
                  && HeldFromEntry(file.entry, a.prices(m.season, m.gameweek)).Done?
                  && file.entry.plan
                     == Present(a.plan(m.season, m.gameweek, HeldFromEntry(file.entry, a.prices(m.season, m.gameweek)).value)))
            && t.trees[job.path].plan == Some(TableDocument(Envelope(m.stamp, a.leagueTable(m.season, m.gameweek, m.league))))
            && a.capture in t.tables && TableFits(t.tables, a.capture, a.captureTable(m.season, m.gameweek))
  {
    var job := Prepare(s, a).value;
    var entries := s.trees[job.path].entries;
    forall i | 0 <= i < |entries|
      ensures var file := AmendNamed(job, a, entries[i]).file;
              && file.Document?
              && HeldFromEntry(file.entry, a.prices(job.members.season, job.members.gameweek)).Done?
              && file.entry.plan == Present(a.plan(job.members.season, job.members.gameweek,
                   HeldFromEntry(file.entry, a.prices(job.members.season, job.members.gameweek)).value))
    {
      assert Amendable(job, a, entries[i]);
    }
  }

  /** A run completes exactly when nothing checked first refuses it, every entry can be
      amended, and no two leagues share a tree. */
  lemma CompletesExactlyWhen(s: State, a: Sources)
    ensures Run(s, a).outcome.Done?
       <==> && Prepare(s, a).Done?
            && (forall n | n in s.trees[Prepare(s, a).value.path].entries :: Amendable(Prepare(s, a).value, a, n))
            && PathsOnce(Lines(s.directory).value)
  {
    if Prepare(s, a).Done? {
      var entries := s.trees[Prepare(s, a).value.path].entries;
      var k := Accepted(Prepare(s, a).value, a, entries);
      assert k < |entries| ==> entries[k] in entries;
    }
  }

  // ---- a refusal and the tree ----

  /** An entry that already carries the block of its own held side. */
  predicate AlreadyAmended(job: Job, a: Sources, n: Named) {
    var (season, gameweek) := (job.members.season, job.members.gameweek);
    && n.file.Document?
    && HeldFromEntry(n.file.entry, a.prices(season, gameweek)).Done?
    && n.file.entry.plan == Present(a.plan(season, gameweek, HeldFromEntry(n.file.entry, a.prices(season, gameweek)).value))
  }

  lemma WrittenBackUnchanged(job: Job, a: Sources, n: Named)
    requires Amendable(job, a, n)
    ensures AmendNamed(job, a, n) == n <==> AlreadyAmended(job, a, n)
  {
    var e := n.file.entry;
    assert n == Named(n.name, Document(e)) && e == e.(plan := e.plan);
  }

  /** A run refused at an entry has written the entries before it and nothing else. */
  lemma RefusedAtAnEntry(s: State, a: Sources)
    requires Prepare(s, a).Done? && Run(s, a).outcome.Raised? && Run(s, a).outcome.error != TreeShared
    ensures var job := Prepare(s, a).value;
            var entries := s.trees[job.path].entries;
            var k := Accepted(job, a, entries);
            && k < |entries|
            && Run(s, a).outcome.error == AmendFile(job, a, entries[k].file).error
            && Run(s, a).state == WithEntries(s, job, Amended(job, a, entries, k))
            && Run(Run(s, a).state, a) == Run(s, a)
  {
    var job := Prepare(s, a).value;
    var entries := s.trees[job.path].entries;
    var k := Accepted(job, a, entries);
    var amended := Amended(job, a, entries, k);
    AmendedIsBetween(s, job, a, k);
    BetweenPrepares(s, WithEntries(s, job, amended), job, a);
    AmendedSameButPlans(job, a, entries, k);
    SameAccepted(job, a, entries, amended);
    AmendedTwice(job, a, entries, k);
  }

  lemma AmendedTwice(job: Job, a: Sources, entries: seq<Named>, k: nat)
    requires k <= Accepted(job, a, entries)
    ensures Amended(job, a, Amended(job, a, entries, k), k) == Amended(job, a, entries, k)
  {
    forall i | 0 <= i < |entries| && i < k
      ensures AmendNamed(job, a, AmendNamed(job, a, entries[i])) == AmendNamed(job, a, entries[i])
    {
      AmendReadsNoPlan(job, a, AmendNamed(job, a, entries[i]), entries[i]);
    }
  }

  /** A refused run leaves the site untouched exactly when it is refused before the loop, or
      every entry before the refused one already was what the run writes; and, when it is the
      directory that is refused, when the league's and the capture's tables were too. */
  lemma UntouchedExactlyWhen(s: State, a: Sources)
    requires Run(s, a).outcome.Raised?
    ensures Run(s, a).state == s
       <==> (Prepare(s, a).Done? ==>
               var job := Prepare(s, a).value;
               var entries := s.trees[job.path].entries;
               var k := Accepted(job, a, entries);
               && (forall i | 0 <= i < k :: AlreadyAmended(job, a, entries[i]))
               && (k == |entries| ==>
                     && a.capture in s.tables
                     && s.trees[job.path].plan == Some(TableDocument(Envelope(job.members.stamp,
                          a.leagueTable(job.members.season, job.members.gameweek, job.members.league))))))
  {
    if Prepare(s, a).Done? {
      var job := Prepare(s, a).value;
      var entries := s.trees[job.path].entries;
      var k := Accepted(job, a, entries);
      var amended := Amended(job, a, entries, k);
      assert amended == entries <==> forall i | 0 <= i < k :: AlreadyAmended(job, a, entries[i]) by {
        assert forall i | 0 <= i < |entries| :: amended[i] == if i < k then AmendNamed(job, a, entries[i]) else entries[i];
        forall i | 0 <= i < k
          ensures amended[i] == entries[i] <==> AlreadyAmended(job, a, entries[i])
        {
          WrittenBackUnchanged(job, a, entries[i]);
        }
      }
      var t := Run(s, a).state;
      assert t.trees[job.path].entries == amended;
      if amended == entries {
        assert WithEntries(s, job, amended).trees == s.trees;
      }
    }
  }

  /** A tree with a good entry before one of another capture: the run is refused, and the
      tree is not untouched. */
  lemma RefusedAfterAWrite(a: Sources, other: Other, block: Option<Block>)
    requires a.capture == "c" && a.handoffCapture == "c" && a.handoffGameweek == 5 && a.league == None
    requires forall season, week :: a.prices(season, week) == map[]
    requires forall season, week, held :: a.plan(season, week, held) == block
    ensures var good := Entry(Some(CONTRACT), Some("t"), Some("c"), "s", 5, [], false, Some(0), 0, 1, map[], Missing, other);
            var foreign := good.(capture := Some("d"));
            var tree := Tree(Some(Members("t", "s", 5, 1)),
                             [Named("1.json", Document(good)), Named("2.json", Document(foreign))], None);
            var s := State(map[LEGACY_TREE := tree], None, map[]);
            && Run(s, a).outcome == Raised(OtherCapture)
            && Run(s, a).state.trees[LEGACY_TREE].entries[0].file == Document(good.(plan := Present(block)))
            && Run(s, a).state != s
  {
    var good := Entry(Some(CONTRACT), Some("t"), Some("c"), "s", 5, [], false, Some(0), 0, 1, map[], Missing, other);
    var foreign := good.(capture := Some("d"));
    var entries := [Named("1.json", Document(good)), Named("2.json", Document(foreign))];
    var tree := Tree(Some(Members("t", "s", 5, 1)), entries, None);
    var s := State(map[LEGACY_TREE := tree], None, map[]);
    var job := Job(LEGACY_TREE, Members("t", "s", 5, 1));
    assert Prepare(s, a) == Done(job);
    assert AmendFile(job, a, entries[0].file) == Done(Document(good.(plan := Present(block))));
    assert AmendFile(job, a, entries[1].file) == Raised(OtherCapture);
    assert Accepted(job, a, entries) == 1;
    var t := Run(s, a).state;
    assert t.trees[LEGACY_TREE].entries == Amended(job, a, entries, 1);
    assert t.trees[LEGACY_TREE].entries[0] == Named("1.json", Document(good.(plan := Present(block))));
    assert s.trees[LEGACY_TREE].entries[0] == Named("1.json", Document(good));
  }
}
