/** Identity-bound checkpoints: one directory belongs to one run identity. Every document here is
    complete and every save one step; module CrashSafe carries what is proved here over to
    histories in which writes are cut short. */
module Checkpoints {
  import opened Outcomes
  import opened Json
  import opened PythonJson

  const CHECKPOINT_CONTRACT := "phase_e_probe_checkpoint_v1"

  function FileOf(title: string): string {
    title + ".json"
  }

  /** `document.get(key)` */
  function Entry(document: Val, key: string): Val {
    if document.VDict? && key in document.entries then document.entries[key] else VNull
  }

  /** What a caller saves beside the store's own fields. */
  datatype Work = Work(kind: string, counts: Value, record: Value, pool: Option<string>, stamp: string)

  function PoolValue(pool: Option<string>): Value {
    match pool case None => None_ case Some(p) => Text(p)
  }

  const FIELDS: set<Key> := {
    KStr("contract_version"), KStr("run_identity"), KStr("label"), KStr("kind"), KStr("pool_sha256"),
    KStr("completed_counts"), KStr("record"), KStr("updated_at_utc")
  }

  function FieldOf(field: Key, identity: Value, title: string, w: Work): Value {
    if field == KStr("contract_version") then Text(CHECKPOINT_CONTRACT)
    else if field == KStr("run_identity") then identity
    else if field == KStr("label") then Text(title)
    else if field == KStr("kind") then Text(w.kind)
    else if field == KStr("pool_sha256") then PoolValue(w.pool)
    else if field == KStr("completed_counts") then w.counts
    else if field == KStr("record") then w.record
    else Text(w.stamp)
  }

  /** The document `save` writes for a label. */
  function Checkpoint(identity: Value, title: string, w: Work): Value {
    Dict(map field | field in FIELDS :: FieldOf(field, identity, title, w))
  }

  /** `_verify` */
  predicate Verifies(document: Val, identity: Value) {
    && document.VDict?
    && Entry(document, "contract_version") == VStr(CHECKPOINT_CONTRACT)
    && Decode(Entry(document, "run_identity")) == identity
  }

  /** `_verify_pool` */
  predicate SamePool(document: Val, pool: string) {
    Entry(document, "pool_sha256") == VStr(pool)
  }

  /** What `refuse_foreign_work` demands of one file. */
  predicate Admits(document: Val, identity: Value, pools: map<string, string>) {
    && Verifies(document, identity)
    && var title := Entry(document, "label");
    && (title.VStr? && title.s in pools ==> SamePool(document, pools[title.s]))
  }

  datatype LoadResult = NeverWritten | Loaded(document: Value) | Refused

  function Load(files: map<string, Val>, identity: Value, title: string, pool: Option<string>): LoadResult {
    if FileOf(title) !in files then NeverWritten
    else
      var document := files[FileOf(title)];
      if !Verifies(document, identity) || (pool.Some? && !SamePool(document, pool.value)) then Refused
      else Loaded(Decode(document))
  }

  /** `save`: nothing is written when the document cannot be serialised. */
  function Save(files: map<string, Val>, identity: Value, title: string, w: Work): map<string, Val> {
    if Encodable(Checkpoint(identity, title, w))
    then files[FileOf(title) := Encode(Checkpoint(identity, title, w))]
    else files
  }

  /** The store's methods over one directory. */
  class Directory {
    var files: map<string, Val>

    /** `refuse_foreign_work`, over the names a sorted listing gives. */
    method RefuseForeignWork(identity: Value, pools: map<string, string>, names: seq<string>) returns (refused: bool)
      requires forall name :: name in names <==> name in files
      ensures refused <==> exists name | name in files :: !Admits(files[name], identity, pools)
    {
      for i := 0 to |names|
        invariant forall k | 0 <= k < i :: Admits(files[names[k]], identity, pools)
      {
        assert names[i] in names;
        if !Admits(files[names[i]], identity, pools) {
          return true;
        }
      }
      return false;
    }

    method LoadCheckpoint(identity: Value, title: string, pool: Option<string>) returns (r: LoadResult)
      ensures r == Load(files, identity, title, pool)
    {
      if FileOf(title) !in files {
        return NeverWritten;
      }
      var document := files[FileOf(title)];
      if !Verifies(document, identity) {
        return Refused;
      }
      if pool.Some? && !SamePool(document, pool.value) {
        return Refused;
      }
      return Loaded(Decode(document));
    }

    method SaveCheckpoint(identity: Value, title: string, w: Work) returns (saved: bool)
      modifies this
      ensures saved <==> Encodable(Checkpoint(identity, title, w))
      ensures files == Save(old(files), identity, title, w)
    {
      var document := Checkpoint(identity, title, w);
      saved := Encodable(document);
      if saved {
        files := files[FileOf(title) := Encode(document)];
      }
    }
  }

  /* ---------- what a saved checkpoint carries ---------- */

  lemma CheckpointEntries(identity: Value, title: string, w: Work)
    ensures Encodable(Checkpoint(identity, title, w)) <==> Encodable(identity) && Encodable(w.counts) && Encodable(w.record)
  {
    var entries := Checkpoint(identity, title, w).entries;
    assert entries[KStr("run_identity")] == identity;
    assert entries[KStr("completed_counts")] == w.counts;
    assert entries[KStr("record")] == w.record;
  }

  /** A field of the written document is its encoded value. */
  lemma SavedField(identity: Value, title: string, w: Work, key: string)
    requires Encodable(Checkpoint(identity, title, w)) && KStr(key) in FIELDS
    ensures Encode(Checkpoint(identity, title, w)).VDict?
    ensures Encodable(FieldOf(KStr(key), identity, title, w))
    ensures Entry(Encode(Checkpoint(identity, title, w)), key) == Encode(FieldOf(KStr(key), identity, title, w))
  {
    var entries := Checkpoint(identity, title, w).entries;
    EncodedEntries(entries);
    assert KStr(key) in entries && KeyText(KStr(key)) == key;
  }

  lemma NamedFields(identity: Value, title: string, w: Work)
    ensures FieldOf(KStr("contract_version"), identity, title, w) == Text(CHECKPOINT_CONTRACT)
    ensures FieldOf(KStr("run_identity"), identity, title, w) == identity
    ensures FieldOf(KStr("label"), identity, title, w) == Text(title)
    ensures FieldOf(KStr("pool_sha256"), identity, title, w) == PoolValue(w.pool)
  {
  }

  function PoolEntry(pool: Option<string>): Val {
    match pool case None => VNull case Some(p) => VStr(p)
  }

  /** The fields a reader checks. */
  ghost predicate Carries(written: Val, j: Val, title: string, pool: Option<string>) {
    && written.VDict?
    && Entry(written, "contract_version") == VStr(CHECKPOINT_CONTRACT)
    && Entry(written, "run_identity") == j
    && Entry(written, "label") == VStr(title)
    && Entry(written, "pool_sha256") == PoolEntry(pool)
  }

  lemma SavedFields(identity: Value, title: string, w: Work)
    requires Encodable(Checkpoint(identity, title, w))
    ensures Encodable(identity)
    ensures Carries(Encode(Checkpoint(identity, title, w)), Encode(identity), title, w.pool)
  {
    NamedFields(identity, title, w);
    CheckpointEntries(identity, title, w);
    forall key | KStr(key) in FIELDS
      ensures Encode(Checkpoint(identity, title, w)).VDict?
      ensures Encodable(FieldOf(KStr(key), identity, title, w))
      ensures Entry(Encode(Checkpoint(identity, title, w)), key) == Encode(FieldOf(KStr(key), identity, title, w))
    {
      SavedField(identity, title, w, key);
    }
    assert KStr("contract_version") in FIELDS && KStr("run_identity") in FIELDS;
    assert KStr("label") in FIELDS && KStr("pool_sha256") in FIELDS;
  }

  /** After a save, the same identity loads its document back exactly when the identity
      survives a JSON round trip and the pool asked for, if any, is the one saved. */
  lemma LoadAfterSave(files: map<string, Val>, identity: Value, title: string, w: Work, pool: Option<string>)
    requires Encodable(Checkpoint(identity, title, w))
    ensures Load(Save(files, identity, title, w), identity, title, pool)
         == if Stable(identity) && (pool.Some? ==> w.pool == pool)
            then Loaded(Decode(Encode(Checkpoint(identity, title, w)))) else Refused
  {
    SavedFields(identity, title, w);
    RoundTripsExactlyWhenStable(identity);
  }

  /** And what it loads is what it saved, when its counts and record survive a round trip too. */
  lemma LoadedIsSaved(identity: Value, title: string, w: Work)
    requires Stable(identity) && Stable(w.counts) && Stable(w.record)
    ensures Encodable(Checkpoint(identity, title, w))
    ensures Decode(Encode(Checkpoint(identity, title, w))) == Checkpoint(identity, title, w)
  {
    assert Stable(Checkpoint(identity, title, w));
    StableReturns(Checkpoint(identity, title, w));
  }

  /* ---------- histories of runs over one directory ---------- */

  datatype Run =
    | Scanning(identity: Value, pools: map<string, string>, remaining: seq<string>)
    | Working(identity: Value)

  datatype State = State(files: map<string, Val>, runs: map<nat, Run>)

  datatype Event =
    | Open(run: nat, identity: Value, pools: map<string, string>, names: seq<string>)
    | ScanNext(run: nat)
    | SaveWork(run: nat, title: string, work: Work)
    | LoadWork(run: nat, title: string, pool: Option<string>)
    | Close(run: nat)

  const EMPTY := State(map[], map[])

  predicate SameIdentities(runs: map<nat, Run>, identity: Value) {
    forall r | r in runs :: runs[r].identity == identity
  }

  function Scanned(run: Run): Run
    requires run.Scanning?
  {
    if run.remaining == [] then Working(run.identity) else run
  }

  /** One step of one run. A run opens only beside runs of its own identity, and reads the
      listing file by file while the others go on. */
  function Step(s: State, e: Event): Option<State> {
    match e
    case Open(run, identity, pools, names) =>
      if run in s.runs || !SameIdentities(s.runs, identity)
         || (set name | name in names) != s.files.Keys
      then None
      else Some(s.(runs := s.runs[run := Scanned(Scanning(identity, pools, names))]))
    case ScanNext(run) =>
      if run !in s.runs || !s.runs[run].Scanning? || s.runs[run].remaining == [] then None
      else
        var r := s.runs[run];
        var name := r.remaining[0];
        if name in s.files && Admits(s.files[name], r.identity, r.pools)
        then Some(s.(runs := s.runs[run := Scanned(r.(remaining := r.remaining[1..]))]))
        else Some(s.(runs := s.runs - {run}))
    case SaveWork(run, title, work) =>
      if run !in s.runs || !s.runs[run].Working? then None
      else Some(s.(files := Save(s.files, s.runs[run].identity, title, work)))
    case LoadWork(run, title, pool) =>
      if run !in s.runs || !s.runs[run].Working? then None else Some(s)
    case Close(run) => Some(s.(runs := s.runs - {run}))
  }

  function RunAll(s: State, events: seq<Event>): Option<State> {
    if events == [] then Some(s)
    else match RunAll(s, events[..|events| - 1])
      case None => None
      case Some(t) => Step(t, events[|events| - 1])
  }

  ghost predicate FileBelongs(name: string, document: Val, j: Val) {
    && document.VDict?
    && Entry(document, "contract_version") == VStr(CHECKPOINT_CONTRACT)
    && Entry(document, "run_identity") == j
    && Entry(document, "label").VStr? && name == FileOf(Entry(document, "label").s)
  }

  ghost predicate Writes(identity: Value, j: Val) {
    Encodable(identity) && Encode(identity) == j
  }

  /** A run that is past its scan, or has already read a file, writes the directory's identity. */
  ghost predicate RunBelongs(files: map<string, Val>, run: Run, j: Val) {
    (exists name | name in files :: run.Working? || name !in run.remaining) ==> Writes(run.identity, j)
  }

  ghost predicate IsWritten(j: Val) {
    exists v :: Encodable(v) && Encode(v) == j
  }

  ghost predicate Inv(s: State, j: Val) {
    && (forall name | name in s.files :: FileBelongs(name, s.files[name], j))
    && (forall r | r in s.runs :: RunBelongs(s.files, s.runs[r], j))
    && (forall a, b | a in s.runs && b in s.runs :: s.runs[a].identity == s.runs[b].identity)
    && (forall r | r in s.runs && s.runs[r].Scanning? :: s.runs[r].remaining != [])
    && (s.files != map[] ==> IsWritten(j))
  }

  /** A file that passed the scan fixes what its reader would write. */
  lemma AdmittedWrites(document: Val, identity: Value, pools: map<string, string>, j: Val)
    requires Admits(document, identity, pools) && Entry(document, "run_identity") == j && IsWritten(j)
    ensures Writes(identity, j)
  {
    var v :| Encodable(v) && Encode(v) == j;
    WrittenTwice(v);
  }

  lemma OpenKeeps(s: State, e: Event, t: State, j: Val)
    requires Inv(s, j) && e.Open? && Step(s, e) == Some(t)
    ensures Inv(t, j)
  {
    var run := t.runs[e.run];
    forall name | name in s.files
      ensures name in e.names
    {
      assert name in (set n | n in e.names);
    }
    if e.names == [] {
      assert s.files.Keys == {};
    }
    assert RunBelongs(t.files, run, j);
  }

  lemma ScanKeeps(s: State, e: Event, t: State, j: Val)
    requires Inv(s, j) && e.ScanNext? && Step(s, e) == Some(t)
    ensures Inv(t, j)
  {
    var r := s.runs[e.run];
    var name := r.remaining[0];
    if name in s.files && Admits(s.files[name], r.identity, r.pools) {
      AdmittedWrites(s.files[name], r.identity, r.pools, j);
      assert RunBelongs(t.files, t.runs[e.run], j);
    }
  }

  lemma SavedBelongs(identity: Value, title: string, w: Work)
    requires Encodable(Checkpoint(identity, title, w))
    ensures Encodable(identity) && FileBelongs(FileOf(title), Encode(Checkpoint(identity, title, w)), Encode(identity))
  {
    SavedFields(identity, title, w);
  }

  lemma SaveKeeps(s: State, e: Event, t: State, j: Val) returns (now: Val)
    requires Inv(s, j) && e.SaveWork? && Step(s, e) == Some(t)
    ensures Inv(t, now)
    ensures s.files != map[] ==> now == j
  {
    now := j;
    var identity := s.runs[e.run].identity;
    if Encodable(Checkpoint(identity, e.title, e.work)) {
      CheckpointEntries(identity, e.title, e.work);
      if s.files == map[] {
        now := Encode(identity);
      } else {
        var name :| name in s.files;
        assert RunBelongs(s.files, s.runs[e.run], j);
      }
      SavedBelongs(identity, e.title, e.work);
      assert Writes(identity, now);
    }
  }

  lemma StepKeeps(s: State, e: Event, t: State, j: Val) returns (now: Val)
    requires Inv(s, j) && Step(s, e) == Some(t)
    ensures Inv(t, now)
    ensures s.files != map[] ==> now == j
  {
    now := j;
    match e
    case Open(_, _, _, _) => OpenKeeps(s, e, t, j);
    case ScanNext(_) => ScanKeeps(s, e, t, j);
    case SaveWork(_, _, _) => now := SaveKeeps(s, e, t, j);
    case LoadWork(_, _, _) =>
    case Close(_) =>
  }

  lemma StepKeepsFiles(s: State, e: Event, t: State)
    requires Step(s, e) == Some(t)
    ensures forall name | name in s.files :: name in t.files
  {
  }

  lemma {:induction false} HistoryKeeps(s: State, j: Val, events: seq<Event>, t: State) returns (now: Val)
    requires Inv(s, j) && RunAll(s, events) == Some(t)
    ensures Inv(t, now)
    ensures s.files != map[] ==> now == j
    ensures forall name | name in s.files :: name in t.files
    decreases |events|
  {
    now := j;
    if events != [] {
      var u := RunAll(s, events[..|events| - 1]).value;
      now := HistoryKeeps(s, j, events[..|events| - 1], u);
      now := StepKeeps(u, events[|events| - 1], t, now);
      StepKeepsFiles(u, events[|events| - 1], t);
    }
  }

  /** One directory, one identity: from an empty directory, over every history, every checkpoint
      present at any time carries the same identity as every checkpoint present at any later
      time, and the label its file is named by. */
  lemma OneDirectoryOneIdentity(before: seq<Event>, s: State, after: seq<Event>, t: State)
    requires RunAll(EMPTY, before) == Some(s) && RunAll(s, after) == Some(t)
    ensures forall a, b | a in s.files && b in t.files ::
              Entry(s.files[a], "run_identity") == Entry(t.files[b], "run_identity")
    ensures forall b | b in t.files ::
              Entry(t.files[b], "label").VStr? && b == FileOf(Entry(t.files[b], "label").s)
    ensures forall a | a in s.files :: a in t.files
  {
    var j := HistoryKeeps(EMPTY, VNull, before, s);
    var now := HistoryKeeps(s, j, after, t);
    forall a, b | a in s.files && b in t.files
      ensures Entry(s.files[a], "run_identity") == Entry(t.files[b], "run_identity")
    {
      assert FileBelongs(a, s.files[a], j) && FileBelongs(b, t.files[b], now);
    }
    forall b | b in t.files
      ensures Entry(t.files[b], "label").VStr? && b == FileOf(Entry(t.files[b], "label").s)
    {
      assert FileBelongs(b, t.files[b], now);
    }
  }

  /** A working run is never refused its own directory's work, unless its identity changes in a
      round trip (or it asks for another pool). */
  lemma WorkingRunsLoad(events: seq<Event>, s: State, r: nat, title: string)
    requires RunAll(EMPTY, events) == Some(s)
    requires r in s.runs && s.runs[r].Working? && FileOf(title) in s.files
    ensures Load(s.files, s.runs[r].identity, title, None).Loaded? <==> Stable(s.runs[r].identity)
  {
    var j := HistoryKeeps(EMPTY, VNull, events, s);
    assert FileBelongs(FileOf(title), s.files[FileOf(title)], j);
    assert RunBelongs(s.files, s.runs[r], j);
    RoundTripsExactlyWhenStable(s.runs[r].identity);
  }

  /** `save` checks nothing itself: outside such histories it overwrites foreign work. */
  lemma SaveAloneOverwrites(files: map<string, Val>, identity: Value, title: string, w: Work)
    requires Encodable(Checkpoint(identity, title, w)) && FileOf(title) in files
    requires !Verifies(files[FileOf(title)], identity) && Stable(identity)
    ensures Verifies(Save(files, identity, title, w)[FileOf(title)], identity)
  {
    SavedFields(identity, title, w);
    RoundTripsExactlyWhenStable(identity);
  }
}
