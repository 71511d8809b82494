/** The unserved football arm: building it before the deadline, its create-once receipt, and the
    reader that checks the receipt against the artifact. */
module ShadowReceipts {
  import opened Outcomes
  import opened Json
  import opened CaptureInventory

  const SHADOW_RECEIPT_CONTRACT := "football_shadow_receipt_v1"
  const FOOTBALL_MODEL_VERSION := "football_team_share_v1"

  const RECEIPT_KEYS: set<string> := {
    "contract_version", "snapshot_id", "captured_at_utc", "season", "gameweek", "deadline_utc",
    "model_version", "fingerprint", "artifact_sha256", "artifact_write_utc",
    "written_before_deadline", "repository_commit", "repository_tree_clean", "wall_seconds",
    "archive_hashes", "gameweek_captures", "newest_for_gameweek", "served"
  }
  const RECEIPT_ADDITIVE_KEYS: set<string> := {
    "skipped_captures", "ambiguous_latest", "python_version", "library_versions"
  }

  datatype Forecast = Forecast(fingerprint: string, modelVersion: string)

  /** What the writer and the reader share: the digest, the JSON parser, the forecast reader
      (none when it raises), and the stored captures. */
  datatype World = World(
    sha: string -> string,
    parse: string -> Json,
    readForecast: (string, Capture) -> Option<Forecast>,
    captures: map<string, Capture>
  ) {
    ghost predicate Valid() {
      && (forall a, b :: sha(a) == sha(b) ==> a == b)
      && (forall id | id in captures :: captures[id].id == id)
    }
  }

  datatype Artifact = Artifact(bytes: string, writtenAt: int)

  type Fields = map<string, Json>

  /** What a receipt states; `other` is its provenance, which no property here reads. */
  datatype Facts = Facts(capture: Capture, forecast: Forecast, artifact: Artifact, newest: bool, other: Fields)

  function ReceiptField(w: World, key: string, f: Facts): Json {
    if key == "contract_version" then Str(SHADOW_RECEIPT_CONTRACT)
    else if key == "snapshot_id" then Str(f.capture.id)
    else if key == "artifact_sha256" then Str(w.sha(f.artifact.bytes))
    else if key == "fingerprint" then Str(f.forecast.fingerprint)
    else if key == "served" then Bool(false)
    else if key == "written_before_deadline" then Bool(f.artifact.writtenAt < f.capture.deadline)
    else if key == "newest_for_gameweek" then Bool(f.newest)
    else if key == "season" then Str(f.capture.season)
    else if key == "gameweek" then Int(f.capture.gameweek)
    else if key == "model_version" then Str(f.forecast.modelVersion)
    else if key in f.other then f.other[key]
    else Null
  }

  /** The receipt `build_shadow` writes. */
  function ReceiptOf(w: World, f: Facts): Fields {
    map key | key in RECEIPT_KEYS + RECEIPT_ADDITIVE_KEYS :: ReceiptField(w, key, f)
  }

  function FieldIn(fields: Fields, key: string): Json {
    if key in fields then fields[key] else Null
  }

  /** `read_shadow_receipt` accepts the document. */
  predicate ReceiptAccepted(fields: Fields) {
    && FieldIn(fields, "contract_version") == Str(SHADOW_RECEIPT_CONTRACT)
    && fields.Keys in {RECEIPT_KEYS, RECEIPT_KEYS + RECEIPT_ADDITIVE_KEYS}
  }

  lemma {:induction false} ReceiptSays(w: World, f: Facts)
    ensures var r := ReceiptOf(w, f);
            && FieldIn(r, "contract_version") == Str(SHADOW_RECEIPT_CONTRACT)
            && FieldIn(r, "snapshot_id") == Str(f.capture.id)
            && FieldIn(r, "artifact_sha256") == Str(w.sha(f.artifact.bytes))
            && FieldIn(r, "fingerprint") == Str(f.forecast.fingerprint)
            && FieldIn(r, "served") == Bool(false)
            && FieldIn(r, "written_before_deadline") == Bool(f.artifact.writtenAt < f.capture.deadline)
            && FieldIn(r, "newest_for_gameweek") == Bool(f.newest)
            && FieldIn(r, "model_version") == Str(f.forecast.modelVersion)
    ensures ReceiptAccepted(ReceiptOf(w, f))
  {
    assert ReceiptOf(w, f).Keys == RECEIPT_KEYS + RECEIPT_ADDITIVE_KEYS;
  }

  /* ---------- the reader ---------- */

  datatype ReceiptFile = Document(fields: Fields) | OtherJson | Unparsable

  datatype ReceiptStatus =
    | Absent | Unreadable | NotAReceipt | ServedNotRecorded
    | OtherCapture | ArtifactInvalid | Sha256Mismatch | FingerprintMismatch | Served | Matches

  datatype Checked = Checked(status: ReceiptStatus, matches: bool, served: Option<bool>)

  /** `_read_receipt` and `_receipt_status`; no fingerprint stands for a refused artifact. */
  function CheckReceipt(receipt: Option<ReceiptFile>, id: string, sha: string, fingerprint: Option<string>): Checked {
    match receipt
    case None => Checked(Absent, false, None)
    case Some(Unparsable) => Checked(Unreadable, false, None)
    case Some(OtherJson) => Checked(NotAReceipt, false, None)
    case Some(Document(fields)) =>
      if FieldIn(fields, "contract_version") != Str(SHADOW_RECEIPT_CONTRACT) then Checked(NotAReceipt, false, None)
      else if !FieldIn(fields, "served").Bool? then Checked(ServedNotRecorded, false, None)
      else
        var served := FieldIn(fields, "served").b;
        if FieldIn(fields, "snapshot_id") != Str(id) then Checked(OtherCapture, false, Some(served))
        else if fingerprint.None? then Checked(ArtifactInvalid, false, Some(served))
        else if FieldIn(fields, "artifact_sha256") != Str(sha) then Checked(Sha256Mismatch, false, Some(served))
        else if FieldIn(fields, "fingerprint") != Str(fingerprint.value) then Checked(FingerprintMismatch, false, Some(served))
        else if served then Checked(Served, false, Some(served))
        else Checked(Matches, true, Some(served))
  }

  datatype ArtifactStatus = Usable | Late | Missing | Invalid

  datatype ShadowArtifact = ShadowArtifact(status: ArtifactStatus, forecast: Option<Forecast>, receipt: Checked)

  /** `shadow_artifact` */
  function ReadShadow(w: World, artifact: Option<Artifact>, receipt: Option<ReceiptFile>, capture: Capture, asOf: Option<int>): ShadowArtifact {
    match artifact
    case None => ShadowArtifact(Missing, None, Checked(Absent, false, None))
    case Some(a) =>
      var forecast := w.readForecast(a.bytes, capture);
      if forecast.None? || forecast.value.modelVersion != FOOTBALL_MODEL_VERSION then
        ShadowArtifact(Invalid, None, CheckReceipt(receipt, capture.id, w.sha(a.bytes), None))
      else
        var late := a.writtenAt >= capture.deadline || (asOf.Some? && a.writtenAt > asOf.value);
        ShadowArtifact(if late then Late else Usable, forecast,
                       CheckReceipt(receipt, capture.id, w.sha(a.bytes), Some(forecast.value.fingerprint)))
  }

  /* ---------- the protocol: interleaved runs, a monotone clock, crashes anywhere ---------- */

  datatype Filed = Filed(facts: Facts, start: int, fit: int)

  datatype Run =
    | Began(capture: Capture, start: int)
    | Fitting(capture: Capture, start: int, newest: bool)
    | Ready(capture: Capture, start: int, newest: bool, fit: int, bytes: string)
    | Published(capture: Capture, start: int, newest: bool, fit: int)

  datatype State = State(clock: int, artifacts: map<string, Artifact>, receipts: map<string, Filed>, runs: map<nat, Run>)

  datatype Event =
    | Tick(now: int)
    | Begin(run: nat, id: string)
    | Check(run: nat, inventory: seq<Capture>)
    | Fit(run: nat, bytes: string)
    | Publish(run: nat)
    | File(run: nat, other: Fields)
    | Crash(run: nat)

  /** The producer's document names the frozen model. */
  predicate OwnModel(w: World, bytes: string) {
    At(w.parse(bytes), "model_version") == Str(FOOTBALL_MODEL_VERSION)
  }

  function Ended(s: State, run: nat): State {
    s.(runs := s.runs - {run})
  }

  function Goes(s: State, run: nat, to: Run): State {
    s.(runs := s.runs[run := to])
  }

  /** The run is refused at its checks: a receipt exists, the start was not before the
      deadline, or the inventory does not hold the capture. */
  predicate RefusedAtStart(s: State, r: Run, inventory: seq<Capture>) {
    || r.capture.id in s.receipts
    || r.start >= r.capture.deadline
    || (exists c | c in inventory :: c.source != FPL_LIVE_SOURCE)
    || !exists row | row in WeekRows(inventory, r.capture) :: row.id == r.capture.id
  }

  function CheckStep(s: State, run: nat, r: Run, inventory: seq<Capture>): State {
    if RefusedAtStart(s, r, inventory) then Ended(s, run)
    else
      var rows := WeekRows(inventory, r.capture);
      Goes(s, run, Fitting(r.capture, r.start, rows != [] && NewestForGameweek(rows, r.capture)))
  }

  function PublishStep(w: World, s: State, run: nat, r: Run): State
    requires r.Ready?
  {
    var id, next := r.capture.id, Published(r.capture, r.start, r.newest, r.fit);
    if w.readForecast(r.bytes, r.capture).None? then Ended(s, run)
    else if id !in s.artifacts then Goes(s.(artifacts := s.artifacts[id := Artifact(r.bytes, s.clock)]), run, next)
    else if w.parse(s.artifacts[id].bytes) == w.parse(r.bytes) then Goes(s, run, next)
    else Ended(s, run)
  }

  function FileStep(w: World, s: State, run: nat, r: Run, other: Fields): State
    requires r.Published?
  {
    var id := r.capture.id;
    if id !in s.artifacts then Ended(s, run)
    else
      var forecast := w.readForecast(s.artifacts[id].bytes, r.capture);
      if forecast.None? || forecast.value.modelVersion != FOOTBALL_MODEL_VERSION || id in s.receipts then Ended(s, run)
      else
        var facts := Facts(r.capture, forecast.value, s.artifacts[id], r.newest, other);
        Ended(s.(receipts := s.receipts[id := Filed(facts, r.start, r.fit)]), run)
  }

  function Step(w: World, s: State, e: Event): Option<State> {
    match e
    case Tick(now) => if now < s.clock then None else Some(s.(clock := now))
    case Begin(run, id) =>
      if run in s.runs || id !in w.captures then None
      else Some(Goes(s, run, Began(w.captures[id], s.clock)))
    case Check(run, inventory) =>
      if run !in s.runs || !s.runs[run].Began? then None
      else Some(CheckStep(s, run, s.runs[run], inventory))
    case Fit(run, bytes) =>
      if run !in s.runs || !s.runs[run].Fitting? then None
      else
        var r := s.runs[run];
        if !OwnModel(w, bytes) || s.clock >= r.capture.deadline then Some(Ended(s, run))
        else Some(Goes(s, run, Ready(r.capture, r.start, r.newest, s.clock, bytes)))
    case Publish(run) =>
      if run !in s.runs || !s.runs[run].Ready? then None else Some(PublishStep(w, s, run, s.runs[run]))
    case File(run, other) =>
      if run !in s.runs || !s.runs[run].Published? then None else Some(FileStep(w, s, run, s.runs[run], other))
    case Crash(run) => Some(Ended(s, run))
  }

  function History(w: World, s: State, events: seq<Event>): Option<State> {
    if events == [] then Some(s)
    else match History(w, s, events[..|events| - 1])
      case None => None
      case Some(t) => Step(w, t, events[|events| - 1])
  }

  ghost predicate RunInv(w: World, s: State, r: Run) {
    && r.capture.id in w.captures && w.captures[r.capture.id] == r.capture
    && r.start <= s.clock
    && (!r.Began? ==> r.start < r.capture.deadline)
    && (r.Ready? || r.Published? ==> r.start <= r.fit < r.capture.deadline && r.fit <= s.clock)
  }

  /** A receipt was filed by a run that read the clock before the deadline at its start and
      again after fitting, and it states the artifact that is there. */
  ghost predicate FiledInTime(w: World, s: State, id: string, f: Filed) {
    && f.facts.capture.id == id
    && id in w.captures && w.captures[id] == f.facts.capture
    && f.start <= f.fit < f.facts.capture.deadline
    && id in s.artifacts && f.facts.artifact == s.artifacts[id]
    && w.readForecast(f.facts.artifact.bytes, f.facts.capture) == Some(f.facts.forecast)
    && f.facts.forecast.modelVersion == FOOTBALL_MODEL_VERSION
  }

  ghost predicate Inv(w: World, s: State) {
    && (forall run | run in s.runs :: RunInv(w, s, s.runs[run]))
    && (forall id | id in s.receipts :: FiledInTime(w, s, id, s.receipts[id]))
  }

  /** Nothing on the root is ever replaced. */
  ghost predicate Kept(s: State, t: State) {
    && (forall id | id in s.artifacts :: id in t.artifacts && t.artifacts[id] == s.artifacts[id])
    && (forall id | id in s.receipts :: id in t.receipts && t.receipts[id] == s.receipts[id])
  }

  lemma {:induction false} EndedKeeps(w: World, s: State, run: nat)
    requires Inv(w, s)
    ensures Inv(w, Ended(s, run)) && Kept(s, Ended(s, run))
  {
    forall r | r in Ended(s, run).runs
      ensures RunInv(w, Ended(s, run), Ended(s, run).runs[r])
    {
      assert RunInv(w, s, s.runs[r]);
    }
    forall id | id in s.receipts
      ensures FiledInTime(w, Ended(s, run), id, s.receipts[id])
    {
      assert FiledInTime(w, s, id, s.receipts[id]);
    }
  }

  lemma {:induction false} GoesKeeps(w: World, s: State, run: nat, to: Run)
    requires Inv(w, s) && RunInv(w, s, to)
    ensures Inv(w, Goes(s, run, to)) && Kept(s, Goes(s, run, to))
  {
    var t := Goes(s, run, to);
    forall r | r in t.runs
      ensures RunInv(w, t, t.runs[r])
    {
      if r != run {
        assert RunInv(w, s, s.runs[r]);
      }
    }
    forall id | id in s.receipts
      ensures FiledInTime(w, t, id, s.receipts[id])
    {
      assert FiledInTime(w, s, id, s.receipts[id]);
    }
  }

  /** A later clock, or an artifact where there was none, keeps everything. */
  lemma {:induction false} GrowsKeeps(w: World, s: State, t: State)
    requires Inv(w, s) && t.runs == s.runs && t.receipts == s.receipts && s.clock <= t.clock
    requires forall id | id in s.artifacts :: id in t.artifacts && t.artifacts[id] == s.artifacts[id]
    ensures Inv(w, t) && Kept(s, t)
  {
    forall r | r in t.runs
      ensures RunInv(w, t, t.runs[r])
    {
      assert RunInv(w, s, s.runs[r]);
    }
    forall id | id in t.receipts
      ensures FiledInTime(w, t, id, t.receipts[id])
    {
      assert FiledInTime(w, s, id, s.receipts[id]);
    }
  }

  lemma {:induction false} PublishKeeps(w: World, s: State, run: nat)
    requires Inv(w, s) && run in s.runs && s.runs[run].Ready?
    ensures Inv(w, PublishStep(w, s, run, s.runs[run])) && Kept(s, PublishStep(w, s, run, s.runs[run]))
  {
    var r := s.runs[run];
    var id, next := r.capture.id, Published(r.capture, r.start, r.newest, r.fit);
    assert RunInv(w, s, r);
    EndedKeeps(w, s, run);
    if id in s.artifacts {
      GoesKeeps(w, s, run, next);
    } else {
      var grown := s.(artifacts := s.artifacts[id := Artifact(r.bytes, s.clock)]);
      GrowsKeeps(w, s, grown);
      GoesKeeps(w, grown, run, next);
    }
  }

  lemma {:induction false} FileKeeps(w: World, s: State, run: nat, other: Fields)
    requires Inv(w, s) && run in s.runs && s.runs[run].Published?
    ensures Inv(w, FileStep(w, s, run, s.runs[run], other)) && Kept(s, FileStep(w, s, run, s.runs[run], other))
  {
    var r := s.runs[run];
    var id, t := r.capture.id, FileStep(w, s, run, r, other);
    assert RunInv(w, s, r);
    EndedKeeps(w, s, run);
    if t.receipts != s.receipts {
      forall k | k in t.runs
        ensures RunInv(w, t, t.runs[k])
      {
        assert RunInv(w, s, s.runs[k]);
      }
      forall k | k in t.receipts
        ensures FiledInTime(w, t, k, t.receipts[k])
      {
        if k != id {
          assert FiledInTime(w, s, k, s.receipts[k]);
        }
      }
    }
  }

  lemma {:induction false} StepKeeps(w: World, s: State, e: Event, t: State)
    requires w.Valid() && Inv(w, s) && Step(w, s, e) == Some(t)
    ensures Inv(w, t) && Kept(s, t)
  {
    match e
    case Tick(now) => GrowsKeeps(w, s, t);
    case Begin(run, id) => GoesKeeps(w, s, run, Began(w.captures[id], s.clock));
    case Check(run, inventory) => CheckKeeps(w, s, run, inventory);
    case Fit(run, bytes) => FitKeeps(w, s, run, bytes, t);
    case Publish(run) => PublishKeeps(w, s, run);
    case File(run, other) => FileKeeps(w, s, run, other);
    case Crash(run) => EndedKeeps(w, s, run);
  }

  lemma {:induction false} CheckKeeps(w: World, s: State, run: nat, inventory: seq<Capture>)
    requires Inv(w, s) && run in s.runs && s.runs[run].Began?
    ensures Inv(w, CheckStep(s, run, s.runs[run], inventory)) && Kept(s, CheckStep(s, run, s.runs[run], inventory))
  {
    var r := s.runs[run];
    assert RunInv(w, s, r);
    if RefusedAtStart(s, r, inventory) {
      EndedKeeps(w, s, run);
    } else {
      var rows := WeekRows(inventory, r.capture);
      GoesKeeps(w, s, run, Fitting(r.capture, r.start, rows != [] && NewestForGameweek(rows, r.capture)));
    }
  }

  lemma {:induction false} FitKeeps(w: World, s: State, run: nat, bytes: string, t: State)
    requires Inv(w, s) && Step(w, s, Fit(run, bytes)) == Some(t)
    ensures Inv(w, t) && Kept(s, t)
  {
    var r := s.runs[run];
    assert RunInv(w, s, r);
    if !OwnModel(w, bytes) || s.clock >= r.capture.deadline {
      EndedKeeps(w, s, run);
    } else {
      GoesKeeps(w, s, run, Ready(r.capture, r.start, r.newest, s.clock, bytes));
    }
  }

  lemma {:induction false} HistoryKeeps(w: World, s: State, events: seq<Event>, t: State)
    requires w.Valid() && Inv(w, s) && History(w, s, events) == Some(t)
    ensures Inv(w, t) && Kept(s, t)
    decreases |events|
  {
    if events != [] {
      var u := History(w, s, events[..|events| - 1]).value;
      HistoryKeeps(w, s, events[..|events| - 1], u);
      StepKeeps(w, u, events[|events| - 1], t);
    }
  }

  function Fresh(clock: int): State {
    State(clock, map[], map[], map[])
  }

  /** Every receipt ever present: gated by both clock readings, says it was not served, says
      truly whether its artifact was written in time, and is one the reader accepts. */
  lemma {:induction false} EveryReceiptIsGated(w: World, clock: int, events: seq<Event>, s: State, id: string)
    requires w.Valid() && History(w, Fresh(clock), events) == Some(s) && id in s.receipts
    ensures var f := s.receipts[id];
            var receipt := ReceiptOf(w, f.facts);
            && id in w.captures && f.facts.capture == w.captures[id]
            && f.start < w.captures[id].deadline && f.fit < w.captures[id].deadline
            && ReceiptAccepted(receipt)
            && FieldIn(receipt, "snapshot_id") == Str(id)
            && FieldIn(receipt, "served") == Bool(false)
            && id in s.artifacts
            && FieldIn(receipt, "written_before_deadline") == Bool(s.artifacts[id].writtenAt < w.captures[id].deadline)
            && FieldIn(receipt, "artifact_sha256") == Str(w.sha(s.artifacts[id].bytes))
  {
    HistoryKeeps(w, Fresh(clock), events, s);
    assert FiledInTime(w, s, id, s.receipts[id]);
    ReceiptSays(w, s.receipts[id].facts);
  }

  /** Once filed, a receipt and its artifact are the same in every later state. */
  lemma {:induction false} ReceiptsNeverChange(w: World, clock: int, before: seq<Event>, s: State, after: seq<Event>, t: State)
    requires w.Valid() && History(w, Fresh(clock), before) == Some(s) && History(w, s, after) == Some(t)
    ensures Kept(s, t)
  {
    HistoryKeeps(w, Fresh(clock), before, s);
    HistoryKeeps(w, s, after, t);
  }

  /** The reader on an unchanged root: the receipt matches and says the arm was not served; the
      artifact is usable exactly when it was written before the deadline and not after `asOf`. */
  lemma {:induction false} WriterAndReaderAgree(w: World, clock: int, events: seq<Event>, s: State, id: string, asOf: Option<int>)
    requires w.Valid() && History(w, Fresh(clock), events) == Some(s) && id in s.receipts
    ensures id in s.artifacts && id in w.captures
    ensures var read := ReadShadow(w, Some(s.artifacts[id]), Some(Document(ReceiptOf(w, s.receipts[id].facts))), w.captures[id], asOf);
            && read.receipt == Checked(Matches, true, Some(false))
            && read.forecast == Some(s.receipts[id].facts.forecast)
            && (read.status == Usable <==> s.artifacts[id].writtenAt < w.captures[id].deadline
                                           && (asOf.Some? ==> s.artifacts[id].writtenAt <= asOf.value))
            && (read.status != Usable ==> read.status == Late)
  {
    HistoryKeeps(w, Fresh(clock), events, s);
    assert FiledInTime(w, s, id, s.receipts[id]);
    FiledReads(w, s.receipts[id].facts, asOf);
  }

  /** A receipt of a readable artifact is read back as matching it. */
  lemma FiledReads(w: World, facts: Facts, asOf: Option<int>)
    requires w.readForecast(facts.artifact.bytes, facts.capture) == Some(facts.forecast)
    requires facts.forecast.modelVersion == FOOTBALL_MODEL_VERSION
    ensures var read := ReadShadow(w, Some(facts.artifact), Some(Document(ReceiptOf(w, facts))), facts.capture, asOf);
            && read.receipt == Checked(Matches, true, Some(false))
            && read.forecast == Some(facts.forecast)
            && (read.status == Usable <==> facts.artifact.writtenAt < facts.capture.deadline
                                           && (asOf.Some? ==> facts.artifact.writtenAt <= asOf.value))
            && (read.status != Usable ==> read.status == Late)
  {
    ReceiptSays(w, facts);
  }

  /** After any change to the artifact's bytes the receipt never matches again, whoever reads
      it and whatever the new bytes parse as. */
  lemma {:induction false} ChangedBytesNeverMatch(w: World, facts: Facts, changed: Artifact, capture: Capture, asOf: Option<int>)
    requires w.Valid() && changed.bytes != facts.artifact.bytes
    ensures !ReadShadow(w, Some(changed), Some(Document(ReceiptOf(w, facts))), capture, asOf).receipt.matches
  {
    ReceiptSays(w, facts);
    assert w.sha(changed.bytes) != w.sha(facts.artifact.bytes);
  }
}
