/** A run cut off inside a write. The files are written in place, so the one being written is
    left as text that does not read. */
module AmendmentTorn {
  import opened Outcomes
  import opened Amendment
  import opened AmendmentMeaning

  /** The write that is cut. */
  datatype Cut = InEntry(i: nat) | InLeagueTable | InCaptureTable | InDirectory

  ghost predicate AllAccepted(s: State, a: Sources)
    requires Prepare(s, a).Done?
  {
    var job := Prepare(s, a).value;
    Accepted(job, a, s.trees[job.path].entries) == |s.trees[job.path].entries|
  }

  /** A run from `s` gets to that write. */
  ghost predicate Reached(s: State, a: Sources, cut: Cut)
    requires Prepare(s, a).Done?
  {
    var job := Prepare(s, a).value;
    match cut
    case InEntry(i) => i < Accepted(job, a, s.trees[job.path].entries)
    case InLeagueTable => AllAccepted(s, a)
    case InCaptureTable => AllAccepted(s, a) && a.capture !in s.tables
    case InDirectory => AllAccepted(s, a) && Lines(s.directory).value != [] && PathsOnce(Lines(s.directory).value)
  }

  /** The site as it is left: the writes before the cut, and the cut file as `text`. */
  function Torn(s: State, a: Sources, cut: Cut, text: string): State
    requires Prepare(s, a).Done? && Reached(s, a, cut)
  {
    var job := Prepare(s, a).value;
    var n := |s.trees[job.path].entries|;
    match cut
    case InEntry(i) =>
      var t := AfterWrites(s, a, i);
      var entries := t.trees[job.path].entries;
      WithEntries(t, job, entries[i := Named(entries[i].name, Unreadable(text))])
    case InLeagueTable =>
      var t := AfterWrites(s, a, n);
      t.(trees := t.trees[job.path := t.trees[job.path].(plan := Some(NotATable(text)))])
    case InCaptureTable =>
      var t := AfterWrites(s, a, n + 1);
      t.(tables := t.tables[a.capture := NotATable(text)])
    case InDirectory => AfterWrites(s, a, n + 2).(directory := Some(Broken))
  }

  /** The site after some whole runs, of whatever leagues and captures. */
  function AfterRuns(t: State, runs: seq<Sources>): State {
    if runs == [] then t else Run(AfterRuns(t, runs[..|runs| - 1]), runs[|runs| - 1]).state
  }

  /** What a cut write leaves that no run puts right. */
  ghost predicate Stuck(t: State, a: Sources, path: string, cut: Cut) {
    match cut
    case InEntry(i) =>
      && Lines(t.directory).Done? && TreePath(Lines(t.directory).value, a.league) == Done(path)
      && path in t.trees && i < |t.trees[path].entries| && t.trees[path].entries[i].file.Unreadable?
    case InLeagueTable => false
    case InCaptureTable => a.capture in t.tables && t.tables[a.capture].NotATable?
    case InDirectory => t.directory == Some(Broken)
  }

  lemma TornIsStuck(s: State, a: Sources, cut: Cut, text: string)
    requires Prepare(s, a).Done? && Reached(s, a, cut) && !cut.InLeagueTable?
    ensures Stuck(Torn(s, a, cut, text), a, Prepare(s, a).value.path, cut)
  {
  }

  /** A refused or completed run of any kind leaves it there. */
  lemma RunKeepsStuck(t: State, b: Sources, a: Sources, path: string, cut: Cut)
    requires Stuck(t, a, path, cut)
    ensures Stuck(Run(t, b).state, a, path, cut)
  {
    if Prepare(t, b).Done? {
      OthersKeepEverything(t, b);
      if cut.InEntry? {
        RunKeepsEntry(t, b, path, cut.i);
        RunKeepsPaths(t, b, a.league);
      }
    }
  }

  lemma RunKeepsEntry(t: State, b: Sources, path: string, i: nat)
    requires Prepare(t, b).Done? && path in t.trees && i < |t.trees[path].entries| && t.trees[path].entries[i].file.Unreadable?
    ensures var u := Run(t, b).state;
            path in u.trees && i < |u.trees[path].entries| && u.trees[path].entries[i].file.Unreadable?
  {
    OthersKeepEverything(t, b);
    var (u, own) := (Run(t, b).state, Prepare(t, b).value.path);
    assert path in u.trees.Keys;
    if path == own {
      assert Bare(t.trees[path].entries[i]) == Bare(u.trees[path].entries[i]);
    }
  }

  lemma RunKeepsPaths(t: State, b: Sources, league: Option<int>)
    requires Prepare(t, b).Done?
    ensures Lines(Run(t, b).state.directory).Done?
    ensures TreePath(Lines(Run(t, b).state.directory).value, league) == TreePath(Lines(t.directory).value, league)
  {
    var job := Prepare(t, b).value;
    var n := Accepted(job, b, t.trees[job.path].entries);
    assert AfterWrites(t, b, n + 3) == Run(t, b).state;
    AfterWritesIsBetween(t, b, n + 3);
    BetweenDirectories(t, Run(t, b).state, job, b);
    SameTreePath(Lines(t.directory).value, Lines(Run(t, b).state.directory).value, league);
  }

  lemma {:induction false} RunsKeepStuck(t: State, runs: seq<Sources>, a: Sources, path: string, cut: Cut)
    requires Stuck(t, a, path, cut)
    ensures Stuck(AfterRuns(t, runs), a, path, cut)
  {
    if runs != [] {
      RunsKeepStuck(t, runs[..|runs| - 1], a, path, cut);
      RunKeepsStuck(AfterRuns(t, runs[..|runs| - 1]), runs[|runs| - 1], a, path, cut);
    }
  }

  lemma StuckIsRefused(t: State, a: Sources, path: string, cut: Cut)
    requires Stuck(t, a, path, cut)
    ensures Run(t, a).outcome.Raised?
  {
    if cut.InEntry? && Prepare(t, a).Done? {
      var job := Prepare(t, a).value;
      assert !Amendable(job, a, t.trees[path].entries[cut.i]);
    }
  }

  /** Whatever is run in between, the same run is refused for ever once one of its writes was cut
      inside an entry, the capture's table or the directory. */
  lemma NeverCompletes(s: State, a: Sources, cut: Cut, text: string, runs: seq<Sources>)
    requires Prepare(s, a).Done? && Reached(s, a, cut) && !cut.InLeagueTable?
    ensures Run(AfterRuns(Torn(s, a, cut, text), runs), a).outcome.Raised?
  {
    var path := Prepare(s, a).value.path;
    TornIsStuck(s, a, cut, text);
    RunsKeepStuck(Torn(s, a, cut, text), runs, a, path, cut);
    StuckIsRefused(AfterRuns(Torn(s, a, cut, text), runs), a, path, cut);
  }

  /** The league's own table is never read back: cut inside it, the next run ends as the cut one
      would have ended. */
  lemma LeagueTableConverges(s: State, a: Sources, text: string)
    requires Prepare(s, a).Done? && Reached(s, a, InLeagueTable)
    ensures Run(Torn(s, a, InLeagueTable, text), a) == Run(s, a)
  {
    var job := Prepare(s, a).value;
    AfterWritesIsBetween(s, a, |s.trees[job.path].entries|);
    RunFromBetween(s, Torn(s, a, InLeagueTable, text), job, a);
  }

  ghost predicate CanComplete(t: State, a: Sources) {
    exists runs :: Run(AfterRuns(t, runs), a).outcome.Done?
  }

  /** A run that would have completed but was cut inside a write can still be completed by runs
      alone exactly when the write was that of the league's table, and then the next run leaves
      the site as the whole run would have. */
  lemma TornRunConvergesExactlyWhen(s: State, a: Sources, cut: Cut, text: string)
    requires Run(s, a).outcome.Done? && Reached(s, a, cut)
    ensures CanComplete(Torn(s, a, cut, text), a) <==> cut.InLeagueTable?
    ensures cut.InLeagueTable? <==> Run(Torn(s, a, cut, text), a) == Run(s, a)
  {
    var t := Torn(s, a, cut, text);
    if cut.InLeagueTable? {
      LeagueTableConverges(s, a, text);
      assert AfterRuns(t, []) == t;
    } else {
      forall runs
        ensures Run(AfterRuns(t, runs), a).outcome.Raised?
      {
        NeverCompletes(s, a, cut, text, runs);
      }
      NeverCompletes(s, a, cut, text, []);
    }
  }
}
