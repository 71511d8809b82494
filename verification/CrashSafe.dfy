/** Checkpoints on a disk where processes crash, replaces are refused and files are left partial:
    every such history is one of module Checkpoints, whose saves are single steps. */
module CrashSafe {
  import opened Outcomes
  import opened Json
  import opened PythonJson
  import W = AtomicWrites
  import C = Checkpoints

  /** The directory with the processes that write to it, and the run each process carries out. */
  datatype System = System(disk: W.System, runs: map<nat, C.Run>)

  datatype Event =
    | Open(run: nat, identity: Value, pools: map<string, string>, names: seq<string>)
    | ScanNext(run: nat)
    | SetOut(run: nat, title: string, work: C.Work)
    | Write(e: W.Event)
    | Crash(run: nat)

  function JsonNames(files: map<string, W.Content>): set<string> {
    set name | name in files && W.MatchesJson(name)
  }

  /** The complete documents among the files a listing gives. */
  function Listed(files: map<string, W.Content>): map<string, Val> {
    map name | name in files && W.MatchesJson(name) && files[name].Whole? :: files[name].document
  }

  /** What a whole write is made of, once it has begun. */
  predicate IsWriteStep(e: W.Event) {
    e.WritePart? || e.WriteAll? || e.Replace? || e.Refuse? || e.ReplaceFails?
  }

  function OnDisk(s: System, e: W.Event, runs: map<nat, C.Run>): Option<System> {
    var disk := W.Step(s.disk, e);
    if disk.None? then None else Some(System(disk.value, runs))
  }

  /** One step of one run, of one of its writes, or of the machine. A file that does not read is
      refused as foreign work is. */
  function Step(s: System, e: Event): Option<System> {
    match e
    case Open(run, identity, pools, names) =>
      if run in s.runs || !C.SameIdentities(s.runs, identity)
         || (set name | name in names) != JsonNames(s.disk.files)
      then None
      else OnDisk(s, W.Start(run), s.runs[run := C.Scanned(C.Scanning(identity, pools, names))])
    case ScanNext(run) =>
      if run !in s.runs || !s.runs[run].Scanning? || s.runs[run].remaining == [] then None
      else
        var r := s.runs[run];
        var (files, name) := (s.disk.files, r.remaining[0]);
        if name in files && files[name].Whole? && C.Admits(files[name].document, r.identity, r.pools)
        then Some(s.(runs := s.runs[run := C.Scanned(r.(remaining := r.remaining[1..]))]))
        else OnDisk(s, W.Crash(run), s.runs - {run})
    case SetOut(run, title, work) =>
      if run !in s.runs || !s.runs[run].Working? then None
      else
        var document := C.Checkpoint(s.runs[run].identity, title, work);
        if !Encodable(document) then None
        else OnDisk(s, W.Begin(run, C.FileOf(title), Encode(document)), s.runs)
    case Write(step) => if IsWriteStep(step) then OnDisk(s, step, s.runs) else None
    case Crash(run) => OnDisk(s, W.Crash(run), s.runs - {run})
  }

  function RunAll(s: System, events: seq<Event>): Option<System> {
    if events == [] then Some(s)
    else match RunAll(s, events[..|events| - 1])
      case None => None
      case Some(t) => Step(t, events[|events| - 1])
  }

  // ---- what every step keeps ----

  /** What a process is writing is a checkpoint of its own run, at its label's file. */
  ghost predicate Saves(run: C.Run, phase: W.Phase) {
    !phase.Idle? ==>
      && run.Working?
      && exists title, work :: IsCheckpoint(run.identity, phase.path, phase.document, title, work)
  }

  predicate IsCheckpoint(identity: Value, path: string, document: Val, title: string, work: C.Work) {
    && path == C.FileOf(title)
    && Encodable(C.Checkpoint(identity, title, work))
    && document == Encode(C.Checkpoint(identity, title, work))
  }

  ghost predicate Inv(s: System) {
    && W.Inv(s.disk)
    && s.runs.Keys == s.disk.processes.Keys
    && (forall r | r in s.runs :: Saves(s.runs[r], s.disk.processes[r]))
    && (forall r | r in s.runs && s.runs[r].Scanning? :: ScansJson(s.runs[r]))
  }

  ghost predicate ScansJson(run: C.Run)
    requires run.Scanning?
  {
    forall name | name in run.remaining :: W.MatchesJson(name)
  }

  /** The same moment, as a history of whole saves sees it. */
  function Seen(s: System): C.State {
    C.State(Listed(s.disk.files), s.runs)
  }

  /** Nothing, or one step of a whole-save history. */
  ghost predicate Simulated(a: C.State, b: C.State) {
    b == a || exists e :: C.Step(a, e) == Some(b)
  }

  lemma FileOfIsJson(title: string)
    ensures W.MatchesJson(C.FileOf(title))
  {
    assert C.FileOf(title)[|title|..] == ".json";
  }

  lemma ListedNames(files: map<string, W.Content>)
    requires W.NoPartialJson(files)
    ensures Listed(files).Keys == JsonNames(files)
  {
  }

  lemma OpenSimulates(s: System, e: Event, t: System)
    requires Inv(s) && e.Open? && Step(s, e) == Some(t)
    ensures Inv(t) && Simulated(Seen(s), Seen(t))
  {
    W.StepKeepsInv(s.disk, W.Start(e.run), t.disk);
    ListedNames(s.disk.files);
    assert C.Step(Seen(s), C.Open(e.run, e.identity, e.pools, e.names)) == Some(Seen(t));
    forall name | name in e.names
      ensures W.MatchesJson(name)
    {
      assert name in (set n | n in e.names);
      assert name in JsonNames(s.disk.files);
    }
  }

  lemma ScanSimulates(s: System, e: Event, t: System)
    requires Inv(s) && e.ScanNext? && Step(s, e) == Some(t)
    ensures Inv(t) && Simulated(Seen(s), Seen(t))
  {
    var r := s.runs[e.run];
    assert r.remaining[0] in r.remaining;
    assert forall name | name in r.remaining[1..] :: name in r.remaining;
    if t.disk != s.disk {
      W.StepKeepsInv(s.disk, W.Crash(e.run), t.disk);
    }
    assert C.Step(Seen(s), C.ScanNext(e.run)) == Some(Seen(t));
  }

  lemma SetOutSimulates(s: System, e: Event, t: System)
    requires Inv(s) && e.SetOut? && Step(s, e) == Some(t)
    ensures Inv(t) && Seen(t) == Seen(s)
  {
    var document := C.Checkpoint(s.runs[e.run].identity, e.title, e.work);
    W.StepKeepsInv(s.disk, W.Begin(e.run, C.FileOf(e.title), Encode(document)), t.disk);
    assert IsCheckpoint(s.runs[e.run].identity, C.FileOf(e.title), Encode(document), e.title, e.work);
  }

  lemma CrashSimulates(s: System, e: Event, t: System)
    requires Inv(s) && e.Crash? && Step(s, e) == Some(t)
    ensures Inv(t) && Simulated(Seen(s), Seen(t))
  {
    W.StepKeepsInv(s.disk, W.Crash(e.run), t.disk);
    assert C.Step(Seen(s), C.Close(e.run)) == Some(Seen(t));
  }

  /** A write that does not replace touches no file that is listed. */
  lemma UnlistedWrite(s: W.System, e: W.Event, t: W.System)
    requires W.Inv(s) && IsWriteStep(e) && !e.Replace? && W.Step(s, e) == Some(t)
    ensures Listed(t.files) == Listed(s.files)
  {
    forall name | W.MatchesJson(name)
      ensures W.SameAt(s.files, t.files, name)
    {
      W.OldOrNew(s, e, t, name);
    }
    SameListed(s.files, t.files);
  }

  lemma SameListed(before: map<string, W.Content>, after: map<string, W.Content>)
    requires forall name | W.MatchesJson(name) :: W.SameAt(before, after, name)
    ensures Listed(after) == Listed(before)
  {
    assert forall name :: name in Listed(after) <==> name in Listed(before);
  }

  lemma ListedAfter(files: map<string, W.Content>, path: string, temp: string, document: Val)
    requires W.MatchesJson(path) && !W.MatchesJson(temp)
    ensures Listed(files[path := W.Whole(document)] - {temp}) == Listed(files)[path := document]
  {
    var (x, y) := (Listed(files[path := W.Whole(document)] - {temp}), Listed(files)[path := document]);
    assert forall name :: name in x <==> name in y;
    assert forall name | name in x :: x[name] == y[name];
  }

  /** A replace puts the whole document it was for in the place of its path. */
  lemma ReplacedFiles(s: W.System, pid: nat, t: W.System)
    requires W.Inv(s) && W.Step(s, W.Replace(pid)) == Some(t)
    ensures s.processes[pid].Replacing? && W.MatchesJson(s.processes[pid].path)
    ensures var phase := s.processes[pid];
            t.files == s.files[phase.path := W.Whole(phase.document)] - {W.TempName(phase.path, pid)}
  {
    assert W.PhaseHolds(s.files, pid, s.processes[pid]);
  }

  /** Among the listed files a replace changes that one alone. */
  lemma ListedReplace(s: W.System, pid: nat, t: W.System)
    requires W.Inv(s) && W.Step(s, W.Replace(pid)) == Some(t)
    ensures s.processes[pid].Replacing?
    ensures Listed(t.files) == Listed(s.files)[s.processes[pid].path := s.processes[pid].document]
  {
    ReplacedFiles(s, pid, t);
    var phase := s.processes[pid];
    W.TempIsNotJson(phase.path, pid);
    ListedAfter(s.files, phase.path, W.TempName(phase.path, pid), phase.document);
  }

  lemma SaveStep(a: C.State, run: nat, path: string, document: Val)
    requires run in a.runs && a.runs[run].Working?
    requires exists title, work :: IsCheckpoint(a.runs[run].identity, path, document, title, work)
    ensures Simulated(a, a.(files := a.files[path := document]))
  {
    var title, work :| IsCheckpoint(a.runs[run].identity, path, document, title, work);
    assert C.Step(a, C.SaveWork(run, title, work)) == Some(a.(files := a.files[path := document]));
  }

  lemma ReplaceSimulates(s: System, pid: nat, t: System)
    requires Inv(s) && Step(s, Write(W.Replace(pid))) == Some(t)
    ensures Simulated(Seen(s), Seen(t))
  {
    ListedReplace(s.disk, pid, t.disk);
    var phase := s.disk.processes[pid];
    assert pid in s.disk.processes.Keys && Saves(s.runs[pid], phase);
    SaveStep(Seen(s), pid, phase.path, phase.document);
  }

  /** A step of a write leaves the process writing what it wrote, or idle. */
  lemma WriteKeepsPhases(s: W.System, e: W.Event, t: W.System)
    requires IsWriteStep(e) && W.Step(s, e) == Some(t)
    ensures t.processes.Keys == s.processes.Keys
    ensures forall p | p in t.processes && !t.processes[p].Idle? ::
              && !s.processes[p].Idle?
              && t.processes[p].path == s.processes[p].path
              && t.processes[p].document == s.processes[p].document
  {
  }

  lemma WriteSimulates(s: System, e: Event, t: System)
    requires Inv(s) && e.Write? && Step(s, e) == Some(t)
    ensures Inv(t) && Simulated(Seen(s), Seen(t))
  {
    W.StepKeepsInv(s.disk, e.e, t.disk);
    WriteKeepsPhases(s.disk, e.e, t.disk);
    forall r | r in t.runs
      ensures Saves(t.runs[r], t.disk.processes[r])
    {
      assert Saves(s.runs[r], s.disk.processes[r]);
    }
    if e.e.Replace? {
      ReplaceSimulates(s, e.e.pid, t);
    } else {
      UnlistedWrite(s.disk, e.e, t.disk);
    }
  }

  /** Every step is, to a reader, nothing or one step of a history whose saves are single steps:
      a save happens at its replace, and a crash is a run that closes. */
  lemma StepSimulates(s: System, e: Event, t: System)
    requires Inv(s) && Step(s, e) == Some(t)
    ensures Inv(t) && Simulated(Seen(s), Seen(t))
  {
    match e
    case Open(_, _, _, _) => OpenSimulates(s, e, t);
    case ScanNext(_) => ScanSimulates(s, e, t);
    case SetOut(_, _, _) => SetOutSimulates(s, e, t);
    case Write(_) => WriteSimulates(s, e, t);
    case Crash(_) => CrashSimulates(s, e, t);
  }

  lemma {:induction false} HistorySimulates(s: System, events: seq<Event>, t: System) returns (whole: seq<C.Event>)
    requires Inv(s) && RunAll(s, events) == Some(t)
    ensures Inv(t) && C.RunAll(Seen(s), whole) == Some(Seen(t))
    decreases |events|
  {
    whole := [];
    if events != [] {
      var u := RunAll(s, events[..|events| - 1]).value;
      whole := HistorySimulates(s, events[..|events| - 1], u);
      StepSimulates(u, events[|events| - 1], t);
      if Seen(t) != Seen(u) {
        var e :| C.Step(Seen(u), e) == Some(Seen(t));
        assert (whole + [e])[..|whole + [e]| - 1] == whole;
        whole := whole + [e];
      }
    }
  }

  // ---- the directory over such histories ----

  /** A directory without checkpoints, on a machine where nothing runs; what crashed writes left
      earlier may lie in it. */
  ghost predicate NoCheckpoints(s: System) {
    s.disk.processes == map[] && s.runs == map[] && JsonNames(s.disk.files) == {}
  }

  lemma StartsEmpty(s: System)
    requires NoCheckpoints(s)
    ensures Inv(s) && Seen(s) == C.EMPTY
  {
    assert forall name | name in s.disk.files && W.MatchesJson(name) :: name in JsonNames(s.disk.files);
    assert forall name :: name !in Listed(s.disk.files);
    assert Listed(s.disk.files) == map[];
  }

  /** One directory, one identity, whatever crashes: over every history of runs, partial writes,
      refused and failed replaces and crashes, every checkpoint a reader lists is a complete
      document, carries the identity that every checkpoint listed at any later time carries, is
      named by its label, and is never lost. */
  lemma OneIdentityWhateverCrashes(start: System, before: seq<Event>, s: System, after: seq<Event>, t: System)
    requires NoCheckpoints(start) && RunAll(start, before) == Some(s) && RunAll(s, after) == Some(t)
    ensures forall b | b in t.disk.files && W.MatchesJson(b) ::
              && t.disk.files[b].Whole?
              && var title := C.Entry(t.disk.files[b].document, "label");
                 title.VStr? && b == C.FileOf(title.s)
    ensures forall a | a in s.disk.files && W.MatchesJson(a) :: s.disk.files[a].Whole? && a in t.disk.files
    ensures forall a, b | a in s.disk.files && W.MatchesJson(a) && b in t.disk.files && W.MatchesJson(b) ::
              C.Entry(s.disk.files[a].document, "run_identity") == C.Entry(t.disk.files[b].document, "run_identity")
  {
    StartsEmpty(start);
    var first := HistorySimulates(start, before, s);
    var second := HistorySimulates(s, after, t);
    C.OneDirectoryOneIdentity(first, Seen(s), second, Seen(t));
    ReadsAsListed(s.disk.files);
    ReadsAsListed(t.disk.files);
  }

  lemma ReadsAsListed(files: map<string, W.Content>)
    requires W.NoPartialJson(files)
    ensures forall a | a in files && W.MatchesJson(a) ::
              files[a].Whole? && a in Listed(files) && Listed(files)[a] == files[a].document
    ensures forall a | a in Listed(files) :: a in files && W.MatchesJson(a)
  {
  }

  /** Over such histories too, a working run loads its directory's work exactly when its identity
      survives a round trip. */
  lemma WorkingRunsLoadWhateverCrashes(start: System, events: seq<Event>, s: System, r: nat, title: string)
    requires NoCheckpoints(start) && RunAll(start, events) == Some(s)
    requires r in s.runs && s.runs[r].Working? && C.FileOf(title) in s.disk.files
    ensures s.disk.files[C.FileOf(title)].Whole?
    ensures C.Load(Listed(s.disk.files), s.runs[r].identity, title, None).Loaded? <==> Stable(s.runs[r].identity)
  {
    StartsEmpty(start);
    var whole := HistorySimulates(start, events, s);
    FileOfIsJson(title);
    ReadsAsListed(s.disk.files);
    C.WorkingRunsLoad(whole, Seen(s), r, title);
  }
}
