/** Crash-safe JSON writes: a private temporary file, then an atomic replace that is retried. */
module AtomicWrites {
  import opened Outcomes
  import opened Decimals
  import opened Json

  const REPLACE_ATTEMPTS: nat := 40

  /** A file's content: a complete document, or what an unfinished write left. */
  datatype Content = Whole(document: Val) | Partial

  /** Where a process is in `write_json_atomic`. */
  datatype Phase =
    | Idle
    | Writing(path: string, document: Val)
    | Replacing(path: string, document: Val, refusals: nat)

  datatype System = System(files: map<string, Content>, processes: map<nat, Phase>)

  datatype Event =
    | Start(pid: nat)
    | Begin(pid: nat, path: string, document: Val)
    | WritePart(pid: nat)
    | WriteAll(pid: nat)
    | Replace(pid: nat)
    | Refuse(pid: nat)
    | ReplaceFails(pid: nat)
    | Crash(pid: nat)

  function TempName(path: string, pid: nat): string {
    path + "." + Decimal(pid) + ".tmp"
  }

  /** `glob("*.json")` */
  predicate MatchesJson(name: string) {
    |name| >= 5 && name[|name| - 5..] == ".json"
  }

  function With(s: System, pid: nat, phase: Phase): System {
    s.(processes := s.processes[pid := phase])
  }

  /** One step of one process, or of the machine under it. */
  function Step(s: System, e: Event): Option<System> {
    if e.Start? then
      if e.pid in s.processes then None else Some(With(s, e.pid, Idle))
    else if e.pid !in s.processes then None
    else
      var phase := s.processes[e.pid];
      match e
      case Begin(pid, path, document) =>
        if phase.Idle? && MatchesJson(path) then Some(With(s, pid, Writing(path, document))) else None
      case WritePart(pid) =>
        if phase.Writing? then Some(s.(files := s.files[TempName(phase.path, pid) := Partial])) else None
      case WriteAll(pid) =>
        if phase.Writing?
        then Some(With(s.(files := s.files[TempName(phase.path, pid) := Whole(phase.document)]),
                       pid, Replacing(phase.path, phase.document, 0)))
        else None
      case Replace(pid) =>
        if phase.Replacing? && TempName(phase.path, pid) in s.files
        then
          var temp := TempName(phase.path, pid);
          Some(With(s.(files := s.files[phase.path := s.files[temp]] - {temp}), pid, Idle))
        else None
      case Refuse(pid) =>
        if !phase.Replacing? then None
        else if phase.refusals + 1 < REPLACE_ATTEMPTS
        then Some(With(s, pid, phase.(refusals := phase.refusals + 1)))
        else Some(With(s.(files := s.files - {TempName(phase.path, pid)}), pid, Idle))
      case ReplaceFails(pid) =>
        if phase.Idle? then None else Some(With(s, pid, Idle))
      case Crash(pid) => Some(s.(processes := s.processes - {pid}))
  }

  /** A whole history, when every step of it can happen. */
  function Run(s: System, events: seq<Event>): Option<System> {
    if events == [] then Some(s)
    else match Run(s, events[..|events| - 1])
      case None => None
      case Some(t) => Step(t, events[|events| - 1])
  }

  lemma RunNext(s: System, events: seq<Event>, e: Event)
    ensures Run(s, events).Some? ==> Run(s, events + [e]) == Step(Run(s, events).value, e)
  {
    assert (events + [e])[..|events + [e]| - 1] == events;
  }

  lemma {:induction false} RunAppend(s: System, a: seq<Event>, b: seq<Event>)
    ensures Run(s, a + b) == match Run(s, a) case None => None case Some(t) => Run(t, b)
    decreases |b|
  {
    if b == [] {
      assert a + b == a;
    } else {
      var rest := b[..|b| - 1];
      assert (a + b)[..|a + b| - 1] == a + rest;
      RunAppend(s, a, rest);
    }
  }

  /* ---------- names ---------- */

  lemma TempIsNotJson(path: string, pid: nat)
    ensures !MatchesJson(TempName(path, pid))
  {
    var name := TempName(path, pid);
    assert |name| >= 5 && name[|name| - 5..][4] == 'p';
  }

  lemma DotIsNoDigit(n: nat)
    ensures '.' !in Decimal(n)
  {
  }

  lemma NoDotWithin(name: string, low: nat, high: nat)
    requires low <= high <= |name| && '.' !in name[low..high]
    ensures forall i | low <= i < high :: name[i] != '.'
  {
    forall i | low <= i < high
      ensures name[i] != '.'
    {
      assert name[i] == name[low..high][i - low];
    }
  }

  /** Temporary names of different processes, or of different paths, differ. */
  lemma TempNamesDiffer(p: string, a: nat, q: string, b: nat)
    requires TempName(p, a) == TempName(q, b)
    ensures p == q && a == b
  {
    var name, m, n := TempName(p, a), |Decimal(a)|, |Decimal(b)|;
    DotIsNoDigit(a);
    DotIsNoDigit(b);
    var end := |name| - 4;
    assert name[end - m..end] == Decimal(a) && name[end - m - 1] == '.';
    assert name[end - n..end] == Decimal(b) && name[end - n - 1] == '.';
    NoDotWithin(name, end - m, end);
    NoDotWithin(name, end - n, end);
    assert m == n;
    DecimalInjective(a, b);
    assert name[..end - m - 1] == p && name[..end - n - 1] == q;
  }

  /* ---------- what every step keeps ---------- */

  ghost predicate NoPartialJson(files: map<string, Content>) {
    forall name | name in files && MatchesJson(name) :: files[name].Whole?
  }

  ghost predicate PhaseHolds(files: map<string, Content>, pid: nat, phase: Phase) {
    match phase
    case Idle => true
    case Writing(path, _) => MatchesJson(path)
    case Replacing(path, document, refusals) =>
      && MatchesJson(path)
      && refusals < REPLACE_ATTEMPTS
      && TempName(path, pid) in files && files[TempName(path, pid)] == Whole(document)
  }

  ghost predicate Inv(s: System) {
    && NoPartialJson(s.files)
    && forall pid | pid in s.processes :: PhaseHolds(s.files, pid, s.processes[pid])
  }

  /** The temporary file a process writes, when it is writing one. */
  function TempOf(pid: nat, phase: Phase): Option<string> {
    if phase.Idle? then None else Some(TempName(phase.path, pid))
  }

  /** A step writes nothing but the stepping process's own temporary file and, by a replace,
      its target. */
  lemma StepWrites(s: System, e: Event, t: System)
    requires Step(s, e) == Some(t)
    ensures forall name | name in s.files || name in t.files ::
              || (name in s.files && name in t.files && s.files[name] == t.files[name])
              || (e.pid in s.processes && TempOf(e.pid, s.processes[e.pid]) == Some(name))
              || (e.Replace? && s.processes[e.pid].path == name)
    ensures forall pid | pid != e.pid :: (pid in s.processes <==> pid in t.processes)
                                         && (pid in s.processes ==> s.processes[pid] == t.processes[pid])
  {
  }

  /** Another process's temporary file is not touched. */
  lemma OthersKeepTheirFiles(s: System, e: Event, t: System, pid: nat)
    requires Step(s, e) == Some(t)
    requires pid != e.pid && pid in s.processes && PhaseHolds(s.files, pid, s.processes[pid])
    requires e.pid in s.processes ==> PhaseHolds(s.files, e.pid, s.processes[e.pid])
    ensures pid in t.processes && PhaseHolds(t.files, pid, t.processes[pid])
  {
    StepWrites(s, e, t);
    var phase := s.processes[pid];
    if phase.Replacing? && e.pid in s.processes && !s.processes[e.pid].Idle? {
      var other := s.processes[e.pid].path;
      TempIsNotJson(phase.path, pid);
      if TempName(other, e.pid) == TempName(phase.path, pid) {
        TempNamesDiffer(other, e.pid, phase.path, pid);
      }
    }
  }

  lemma StepKeepsInv(s: System, e: Event, t: System)
    requires Inv(s) && Step(s, e) == Some(t)
    ensures Inv(t)
  {
    StepKeepsDocuments(s, e, t);
    StepWrites(s, e, t);
    forall pid | pid in t.processes
      ensures PhaseHolds(t.files, pid, t.processes[pid])
    {
      if pid != e.pid {
        OthersKeepTheirFiles(s, e, t, pid);
      } else {
        OwnPhaseHolds(s, e, t);
      }
    }
  }

  lemma StepKeepsDocuments(s: System, e: Event, t: System)
    requires Inv(s) && Step(s, e) == Some(t)
    ensures NoPartialJson(t.files)
  {
    if e.pid in s.processes && !s.processes[e.pid].Idle? {
      assert PhaseHolds(s.files, e.pid, s.processes[e.pid]);
      TempIsNotJson(s.processes[e.pid].path, e.pid);
    }
  }

  lemma OwnPhaseHolds(s: System, e: Event, t: System)
    requires Inv(s) && Step(s, e) == Some(t) && e.pid in t.processes
    ensures PhaseHolds(t.files, e.pid, t.processes[e.pid])
  {
    if e.pid in s.processes {
      assert PhaseHolds(s.files, e.pid, s.processes[e.pid]);
    }
  }

  ghost predicate SameAt(before: map<string, Content>, after: map<string, Content>, name: string) {
    (name in before <==> name in after) && (name in before ==> after[name] == before[name])
  }

  /** At every step a JSON file is left as it was, or becomes the complete document that the
      replacing process set out to save there. */
  lemma OldOrNew(s: System, e: Event, t: System, name: string)
    requires Inv(s) && Step(s, e) == Some(t) && MatchesJson(name)
    ensures || SameAt(s.files, t.files, name)
            || (e.Replace? && name in t.files && s.processes[e.pid].Replacing?
                && s.processes[e.pid].path == name && t.files[name] == Whole(s.processes[e.pid].document))
  {
    if e.pid in s.processes && !s.processes[e.pid].Idle? {
      TempIsNotJson(s.processes[e.pid].path, e.pid);
    }
  }

  /** A machine on which nothing runs yet. */
  ghost predicate Quiet(s: System) {
    s.processes == map[] && NoPartialJson(s.files)
  }

  /** The document a file holds is the one it held at first, or one that some process set out
      to save at exactly that path. */
  ghost predicate Accounted(before: map<string, Content>, events: seq<Event>, after: map<string, Content>, name: string)
    requires name in after
  {
    || (name in before && after[name] == before[name])
    || exists pid, document :: Begin(pid, name, document) in events && after[name] == Whole(document)
  }

  ghost predicate Asked(events: seq<Event>, pid: nat, phase: Phase) {
    !phase.Idle? ==> Begin(pid, phase.path, phase.document) in events
  }

  /** Every history, from any quiet machine: whatever replaces fail and wherever processes
      crash, no JSON file is ever partial, none is lost, and each holds an accounted document. */
  lemma {:induction false} EveryHistoryIsSafe(s: System, events: seq<Event>, t: System)
    requires Quiet(s) && Run(s, events) == Some(t)
    ensures Inv(t)
    ensures forall pid | pid in t.processes :: Asked(events, pid, t.processes[pid])
    ensures forall name | name in t.files && MatchesJson(name) :: Accounted(s.files, events, t.files, name)
    ensures forall name | name in s.files && MatchesJson(name) :: name in t.files
    decreases |events|
  {
    if events != [] {
      var rest, e := events[..|events| - 1], events[|events| - 1];
      var u := Run(s, rest).value;
      EveryHistoryIsSafe(s, rest, u);
      StepKeepsInv(u, e, t);
      assert events == rest + [e];
      forall name | name in t.files && MatchesJson(name)
        ensures Accounted(s.files, events, t.files, name)
      {
        OldOrNew(u, e, t, name);
        if name in u.files && t.files[name] == u.files[name] {
          assert Accounted(s.files, rest, u.files, name);
        }
      }
      forall name | name in s.files && MatchesJson(name)
        ensures name in t.files
      {
        OldOrNew(u, e, t, name);
      }
      StepWrites(u, e, t);
    }
  }

  /* ---------- the retries ---------- */

  predicate Attempts(e: Event, pid: nat) {
    e.pid == pid && (e.Replace? || e.Refuse?)
  }

  /** How many replaces a process tried since it last set out to save. */
  function Tries(events: seq<Event>, pid: nat): nat {
    if events == [] then 0
    else
      var rest, e := events[..|events| - 1], events[|events| - 1];
      if e.Begin? && e.pid == pid then 0
      else Tries(rest, pid) + if Attempts(e, pid) then 1 else 0
  }

  /** At most forty replaces are tried for one save. */
  lemma {:induction false} BoundedRetries(s: System, events: seq<Event>, t: System, pid: nat)
    requires Quiet(s) && Run(s, events) == Some(t)
    ensures Tries(events, pid) <= REPLACE_ATTEMPTS
    ensures CountsTries(t, pid, Tries(events, pid))
    decreases |events|
  {
    if events != [] {
      var rest, e := events[..|events| - 1], events[|events| - 1];
      var u := Run(s, rest).value;
      BoundedRetries(s, rest, u, pid);
      EveryHistoryIsSafe(s, rest, u);
      TriesStep(u, e, t, pid, Tries(rest, pid));
    }
  }

  /** What a count of tries says of the process it counts for. */
  ghost predicate CountsTries(s: System, pid: nat, tries: nat) {
    && tries <= REPLACE_ATTEMPTS
    && (pid in s.processes && s.processes[pid].Writing? ==> tries == 0)
    && (pid in s.processes && s.processes[pid].Replacing? ==> tries == s.processes[pid].refusals)
  }

  lemma TriesStep(u: System, e: Event, t: System, pid: nat, tries: nat)
    requires Inv(u) && Step(u, e) == Some(t) && CountsTries(u, pid, tries)
    ensures CountsTries(t, pid, if e.Begin? && e.pid == pid then 0 else tries + if Attempts(e, pid) then 1 else 0)
  {
    assert pid in u.processes ==> PhaseHolds(u.files, pid, u.processes[pid]);
  }

  /** The fortieth refusal removes the temporary file and changes nothing else. */
  lemma ExhaustionCleansUp(s: System, pid: nat, t: System)
    requires pid in s.processes && s.processes[pid].Replacing? && s.processes[pid].refusals == REPLACE_ATTEMPTS - 1
    requires Step(s, Refuse(pid)) == Some(t)
    ensures TempName(s.processes[pid].path, pid) !in t.files
    ensures forall name | MatchesJson(name) :: SameAt(s.files, t.files, name)
  {
    TempIsNotJson(s.processes[pid].path, pid);
  }

  /* ---------- what a save leaves ---------- */

  /** A save that is over, wherever in it: replaced, given up, raised or crashed. */
  predicate Ends(s: System, e: Event) {
    && e.pid in s.processes && !s.processes[e.pid].Idle?
    && (e.Replace? || e.ReplaceFails? || e.Crash?
        || (e.Refuse? && s.processes[e.pid].Replacing? && s.processes[e.pid].refusals == REPLACE_ATTEMPTS - 1))
  }

  predicate Writes(e: Event, pid: nat) {
    e.pid == pid && (e.WritePart? || e.WriteAll?)
  }

  predicate SetsOut(e: Event, pid: nat) {
    e.pid == pid && e.Begin?
  }

  /** A process has written something since it last set out to save. */
  predicate Wrote(events: seq<Event>, pid: nat) {
    if events == [] then false
    else
      var rest, e := events[..|events| - 1], events[|events| - 1];
      !SetsOut(e, pid) && (Writes(e, pid) || Wrote(rest, pid))
  }

  /** A file of the temporary name was there when a process last set out to save. */
  predicate FoundOne(s: System, events: seq<Event>, pid: nat)
    requires Run(s, events).Some?
  {
    if events == [] then false
    else
      var rest, e := events[..|events| - 1], events[|events| - 1];
      if SetsOut(e, pid) then TempName(e.path, pid) in Run(s, rest).value.files else FoundOne(s, rest, pid)
  }

  ghost predicate TempThereIff(s: System, pid: nat, there: bool) {
    pid in s.processes && !s.processes[pid].Idle? ==> (TempName(s.processes[pid].path, pid) in s.files <==> there)
  }

  lemma TempStep(u: System, e: Event, t: System, pid: nat, there: bool)
    requires Inv(u) && Step(u, e) == Some(t) && TempThereIff(u, pid, there)
    ensures TempThereIff(t, pid, if SetsOut(e, pid) then TempName(e.path, pid) in u.files else Writes(e, pid) || there)
  {
    if e.pid != pid && pid in u.processes && !u.processes[pid].Idle? {
      OthersKeepMyTemp(u, e, t, pid);
    }
  }

  lemma OthersKeepMyTemp(u: System, e: Event, t: System, pid: nat)
    requires Inv(u) && Step(u, e) == Some(t) && e.pid != pid
    requires pid in u.processes && !u.processes[pid].Idle?
    ensures pid in t.processes && t.processes[pid] == u.processes[pid]
    ensures SameAt(u.files, t.files, TempName(u.processes[pid].path, pid))
  {
    StepWrites(u, e, t);
    var mine := u.processes[pid].path;
    TempIsNotJson(mine, pid);
    if e.pid in u.processes && !u.processes[e.pid].Idle? {
      assert PhaseHolds(u.files, e.pid, u.processes[e.pid]);
      if TempName(u.processes[e.pid].path, e.pid) == TempName(mine, pid) {
        TempNamesDiffer(u.processes[e.pid].path, e.pid, mine, pid);
      }
    }
  }

  /** While a process saves, its temporary file is there exactly when it wrote some of it or
      found it there. */
  lemma {:induction false} TempThereExactlyWhen(s: System, events: seq<Event>, t: System, pid: nat)
    requires Quiet(s) && Run(s, events) == Some(t)
    ensures TempThereIff(t, pid, Wrote(events, pid) || FoundOne(s, events, pid))
    decreases |events|
  {
    if events != [] {
      var rest, e := events[..|events| - 1], events[|events| - 1];
      var u := Run(s, rest).value;
      TempThereExactlyWhen(s, rest, u, pid);
      EveryHistoryIsSafe(s, rest, u);
      TempStep(u, e, t, pid, Wrote(rest, pid) || FoundOne(s, rest, pid));
    }
  }

  /** However a save ends, and wherever in it, its temporary file is left exactly when it ended
      in a crash or in an error other than the fortieth refusal, and by then it had been written
      to or had been there before. */
  lemma LeftoverExactlyWhen(s: System, events: seq<Event>, t: System, e: Event, u: System)
    requires Quiet(s) && Run(s, events) == Some(t) && Ends(t, e) && Step(t, e) == Some(u)
    ensures TempName(t.processes[e.pid].path, e.pid) in u.files
       <==> (e.Crash? || e.ReplaceFails?) && (Wrote(events, e.pid) || FoundOne(s, events, e.pid))
  {
    EveryHistoryIsSafe(s, events, t);
    TempThereExactlyWhen(s, events, t, e.pid);
    TempIsNotJson(t.processes[e.pid].path, e.pid);
    assert PhaseHolds(t.files, e.pid, t.processes[e.pid]);
  }

  /** A process that is trying to replace has written: from then on a crash or another error
      always leaves the file. */
  lemma {:induction false} ReplacingHasWritten(s: System, events: seq<Event>, t: System, pid: nat)
    requires Run(s, events) == Some(t) && s.processes == map[]
    requires pid in t.processes && t.processes[pid].Replacing?
    ensures Wrote(events, pid)
    decreases |events|
  {
    if events != [] {
      var rest, e := events[..|events| - 1], events[|events| - 1];
      var u := Run(s, rest).value;
      if pid in u.processes && u.processes[pid].Replacing? {
        ReplacingHasWritten(s, rest, u, pid);
      }
    }
  }

  /* ---------- the loop itself ---------- */

  /** What the operating system answers a replace with. */
  datatype Answer = Granted | Denied | OtherError

  datatype WriteResult = Written | GaveUp | Failed

  /** The first answer that is not a denial. */
  ghost predicate FirstAnswer(answer: nat -> Answer, k: nat, a: Answer) {
    && answer(k) == a
    && forall i: nat | i < k :: answer(i) == Denied
  }

  /** What a finished save leaves on the disk. */
  function Left(files: map<string, Content>, path: string, document: Val, pid: nat, r: WriteResult): map<string, Content> {
    match r
    case Written => files[path := Whole(document)] - {TempName(path, pid)}
    case GaveUp => files - {TempName(path, pid)}
    case Failed => files[TempName(path, pid) := Whole(document)]
  }

  class Disk {
    var files: map<string, Content>

    /** `write_json_atomic`: the result, and how many replaces were tried. */
    method WriteJsonAtomic(path: string, document: Val, pid: nat, answer: nat -> Answer)
      returns (r: WriteResult, tried: nat)
      modifies this
      ensures files == Left(old(files), path, document, pid, r)
      ensures 1 <= tried <= REPLACE_ATTEMPTS
      ensures r == GaveUp ==> tried == REPLACE_ATTEMPTS && forall k: nat | k < REPLACE_ATTEMPTS :: answer(k) == Denied
      ensures r == Written ==> FirstAnswer(answer, tried - 1, Granted)
      ensures r == Failed ==> FirstAnswer(answer, tried - 1, OtherError)
    {
      var temp := TempName(path, pid);
      TempIsNotItsPath(path, pid);
      files := files[temp := Partial];
      files := files[temp := Whole(document)];
      tried := 0;
      while true
        invariant tried < REPLACE_ATTEMPTS
        invariant files == old(files)[temp := Whole(document)]
        invariant forall k: nat | k < tried :: answer(k) == Denied
        decreases REPLACE_ATTEMPTS - tried
      {
        tried := tried + 1;
        match answer(tried - 1)
        case Granted =>
          files := files[path := files[temp]] - {temp};
          return Written, tried;
        case OtherError =>
          return Failed, tried;
        case Denied =>
          if tried == REPLACE_ATTEMPTS {
            files := files - {temp};
            return GaveUp, tried;
          }
      }
    }
  }

  lemma TempIsNotItsPath(path: string, pid: nat)
    ensures TempName(path, pid) != path
  {
    assert |TempName(path, pid)| > |path|;
  }

  function Refusals(pid: nat, n: nat): seq<Event> {
    if n == 0 then [] else Refusals(pid, n - 1) + [Refuse(pid)]
  }

  function FirstSteps(pid: nat, path: string, document: Val): seq<Event> {
    [Begin(pid, path, document), WritePart(pid), WriteAll(pid)]
  }

  /** The steps one call of `write_json_atomic` takes when it tries `tried` replaces. */
  function CallSteps(pid: nat, path: string, document: Val, r: WriteResult, tried: nat): seq<Event>
    requires tried >= 1
  {
    FirstSteps(pid, path, document) + Refusals(pid, tried - 1) + [LastStep(pid, r)]
  }

  function Sole(files: map<string, Content>, pid: nat, phase: Phase): System {
    System(files, map[pid := phase])
  }

  lemma RefusedOnce(files: map<string, Content>, pid: nat, path: string, document: Val, n: nat)
    requires n + 1 < REPLACE_ATTEMPTS && TempName(path, pid) in files
    ensures Step(Sole(files, pid, Replacing(path, document, n)), Refuse(pid))
         == Some(Sole(files, pid, Replacing(path, document, n + 1)))
  {
    SoleSteps(files, pid, path, document, n);
  }

  lemma OneMore(s: System, events: seq<Event>, e: Event, t: System, u: System)
    requires Run(s, events) == Some(t) && Step(t, e) == Some(u)
    ensures Run(s, events + [e]) == Some(u)
  {
    RunNext(s, events, e);
  }

  lemma {:induction false} RefusedSteps(files: map<string, Content>, pid: nat, path: string, document: Val, n: nat)
    requires n < REPLACE_ATTEMPTS && TempName(path, pid) in files
    ensures Run(Sole(files, pid, Replacing(path, document, 0)), Refusals(pid, n))
         == Some(Sole(files, pid, Replacing(path, document, n)))
  {
    if n > 0 {
      RefusedSteps(files, pid, path, document, n - 1);
      RefusedOnce(files, pid, path, document, n - 1);
      OneMore(Sole(files, pid, Replacing(path, document, 0)), Refusals(pid, n - 1), Refuse(pid),
              Sole(files, pid, Replacing(path, document, n - 1)), Sole(files, pid, Replacing(path, document, n)));
    }
  }

  function LastStep(pid: nat, r: WriteResult): Event {
    match r case Written => Replace(pid) case GaveUp => Refuse(pid) case Failed => ReplaceFails(pid)
  }

  lemma LastStepLeaves(files: map<string, Content>, pid: nat, path: string, document: Val, r: WriteResult, n: nat)
    requires n < REPLACE_ATTEMPTS && (r == GaveUp ==> n == REPLACE_ATTEMPTS - 1)
    ensures Step(Sole(files[TempName(path, pid) := Whole(document)], pid, Replacing(path, document, n)), LastStep(pid, r))
         == Some(Sole(Left(files, path, document, pid, r), pid, Idle))
  {
    var temp := TempName(path, pid);
    TempIsNotItsPath(path, pid);
    SoleSteps(files[temp := Whole(document)], pid, path, document, n);
    assert files[temp := Whole(document)] - {temp} == files - {temp};
    assert files[temp := Whole(document)][path := Whole(document)] - {temp} == files[path := Whole(document)] - {temp};
  }

  /** A call of the loop is one history of the protocol: what it leaves is what its steps leave. */
  lemma CallIsAHistory(files: map<string, Content>, pid: nat, path: string, document: Val, r: WriteResult, tried: nat)
    requires MatchesJson(path) && 1 <= tried <= REPLACE_ATTEMPTS
    requires r == GaveUp ==> tried == REPLACE_ATTEMPTS
    ensures Run(Sole(files, pid, Idle), CallSteps(pid, path, document, r, tried))
         == Some(Sole(Left(files, path, document, pid, r), pid, Idle))
  {
    var written := files[TempName(path, pid) := Whole(document)];
    StepsToRefusals(files, pid, path, document, tried - 1);
    LastStepLeaves(files, pid, path, document, r, tried - 1);
    OneMore(Sole(files, pid, Idle), FirstSteps(pid, path, document) + Refusals(pid, tried - 1), LastStep(pid, r),
            Sole(written, pid, Replacing(path, document, tried - 1)), Sole(Left(files, path, document, pid, r), pid, Idle));
  }

  /** The steps of a call up to its last one. */
  lemma StepsToRefusals(files: map<string, Content>, pid: nat, path: string, document: Val, n: nat)
    requires MatchesJson(path) && n < REPLACE_ATTEMPTS
    ensures Run(Sole(files, pid, Idle), FirstSteps(pid, path, document) + Refusals(pid, n))
         == Some(Sole(files[TempName(path, pid) := Whole(document)], pid, Replacing(path, document, n)))
  {
    var (start, written) := (Sole(files, pid, Idle), files[TempName(path, pid) := Whole(document)]);
    ThreeSteps(start, pid, path, document);
    RefusedSteps(written, pid, path, document, n);
    Chained(start, FirstSteps(pid, path, document), Sole(written, pid, Replacing(path, document, 0)),
            Refusals(pid, n), Sole(written, pid, Replacing(path, document, n)));
  }

  lemma Chained(s: System, a: seq<Event>, t: System, b: seq<Event>, u: System)
    requires Run(s, a) == Some(t) && Run(t, b) == Some(u)
    ensures Run(s, a + b) == Some(u)
  {
    RunAppend(s, a, b);
  }

  /** The steps of a process that runs alone. */
  lemma SoleSteps(files: map<string, Content>, pid: nat, path: string, document: Val, refusals: nat)
    requires TempName(path, pid) in files
    ensures var s := System(files, map[pid := Replacing(path, document, refusals)]);
            var temp := TempName(path, pid);
            && Step(s, Replace(pid)) == Some(System(files[path := files[temp]] - {temp}, map[pid := Idle]))
            && Step(s, ReplaceFails(pid)) == Some(System(files, map[pid := Idle]))
            && (refusals + 1 < REPLACE_ATTEMPTS ==>
                  Step(s, Refuse(pid)) == Some(System(files, map[pid := Replacing(path, document, refusals + 1)])))
            && (refusals + 1 >= REPLACE_ATTEMPTS ==>
                  Step(s, Refuse(pid)) == Some(System(files - {temp}, map[pid := Idle])))
  {
    SolePhase(pid, Replacing(path, document, refusals), Idle);
    SolePhase(pid, Replacing(path, document, refusals), Replacing(path, document, refusals + 1));
  }

  lemma SolePhase(pid: nat, was: Phase, now: Phase)
    ensures map[pid := was][pid := now] == map[pid := now]
  {
  }

  lemma ThreeSteps(start: System, pid: nat, path: string, document: Val)
    requires MatchesJson(path) && start.processes == map[pid := Idle]
    ensures Run(start, [Begin(pid, path, document), WritePart(pid), WriteAll(pid)])
         == Some(System(start.files[TempName(path, pid) := Whole(document)], map[pid := Replacing(path, document, 0)]))
  {
    var (files, temp) := (start.files, TempName(path, pid));
    var begun := Sole(files, pid, Writing(path, document));
    var half := Sole(files[temp := Partial], pid, Writing(path, document));
    var whole := Sole(files[temp := Partial][temp := Whole(document)], pid, Replacing(path, document, 0));
    SolePhase(pid, Idle, Writing(path, document));
    SolePhase(pid, Writing(path, document), Writing(path, document));
    SolePhase(pid, Writing(path, document), Replacing(path, document, 0));
    OneMore(start, [], Begin(pid, path, document), start, begun);
    OneMore(start, [] + [Begin(pid, path, document)], WritePart(pid), begun, half);
    OneMore(start, [] + [Begin(pid, path, document)] + [WritePart(pid)], WriteAll(pid), half, whole);
    assert [] + [Begin(pid, path, document)] + [WritePart(pid)] + [WriteAll(pid)]
        == [Begin(pid, path, document), WritePart(pid), WriteAll(pid)];
    assert whole.files == files[temp := Whole(document)];
  }
}
