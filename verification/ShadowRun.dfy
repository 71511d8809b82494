/** One run of the shadow command from start to end, and the history it is. */
module ShadowRun {
  import opened Outcomes
  import opened CaptureInventory
  import opened ShadowReceipts
  import Sorting
  import Json

  datatype BuildError =
    | ReceiptExists | NotALiveCapture | DeadlineClosed | InventoryRefused | DeadlineClosedWhileFitting
    | ArtifactRefused | WrongModel

  /** The clock readings one run takes, in order. */
  datatype Readings = Readings(start: int, fit: int, publish: int)

  /** What is on disk: artifacts and receipts by capture. */
  datatype Root = Root(artifacts: map<string, Artifact>, receipts: map<string, Fields>)

  datatype Built = Built(root: Root, outcome: Outcome<Fields, BuildError>)

  predicate InventoryRefuses(inventory: seq<Capture>, capture: Capture) {
    || (exists c | c in inventory :: c.source != FPL_LIVE_SOURCE)
    || !exists row | row in WeekRows(inventory, capture) :: row.id == capture.id
  }

  /** The checks before the fit, in order. */
  function BeforeFit(root: Root, capture: Capture, inventory: seq<Capture>, start: int): Option<BuildError> {
    if capture.id in root.receipts then Some(ReceiptExists)
    else if capture.source != FPL_LIVE_SOURCE then Some(NotALiveCapture)
    else if start >= capture.deadline then Some(DeadlineClosed)
    else if InventoryRefuses(inventory, capture) then Some(InventoryRefused)
    else None
  }

  /** The artifact left by publishing: create-once, and only over a document that says the same. */
  function Publishing(w: World, root: Root, capture: Capture, bytes: string, publish: int): Option<Root> {
    if w.readForecast(bytes, capture).None? then None
    else if capture.id !in root.artifacts then
      Some(root.(artifacts := root.artifacts[capture.id := Artifact(bytes, publish)]))
    else if w.parse(root.artifacts[capture.id].bytes) == w.parse(bytes) then Some(root)
    else None
  }

  /** Reading the artifact back and filing the receipt beside it. */
  function Filing(w: World, root: Root, capture: Capture, newest: bool, other: Fields): Built
    requires capture.id in root.artifacts
  {
    var artifact := root.artifacts[capture.id];
    var forecast := w.readForecast(artifact.bytes, capture);
    if forecast.None? || forecast.value.modelVersion != FOOTBALL_MODEL_VERSION then Built(root, Raised(WrongModel))
    else
      var receipt := ReceiptOf(w, Facts(capture, forecast.value, artifact, newest, other));
      Built(root.(receipts := root.receipts[capture.id := receipt]), Done(receipt))
  }

  /** What the root is after one run, and what the run gives back. */
  function Build(
    w: World, root: Root, capture: Capture, inventory: seq<Capture>, readings: Readings, bytes: string, other: Fields): Built
  {
    var refused := BeforeFit(root, capture, inventory, readings.start);
    if refused.Some? then Built(root, Raised(refused.value))
    else if !OwnModel(w, bytes) then Built(root, Raised(WrongModel))
    else if readings.fit >= capture.deadline then Built(root, Raised(DeadlineClosedWhileFitting))
    else
      var published := Publishing(w, root, capture, bytes, readings.publish);
      if published.None? then Built(root, Raised(ArtifactRefused))
      else
        var rows := WeekRows(inventory, capture);
        Filing(w, published.value, capture, rows != [] && NewestForGameweek(rows, capture), other)
  }

  class ShadowRoot {
    var artifacts: map<string, Artifact>
    var receipts: map<string, Fields>

    function Now(): Root
      reads this
    {
      Root(artifacts, receipts)
    }

    /** `build_shadow`, from the run's clock readings and the bytes its fit produced. */
    method BuildShadow(w: World, capture: Capture, inventory: seq<Capture>, readings: Readings, bytes: string, other: Fields)
      returns (r: Outcome<Fields, BuildError>)
      modifies this
      ensures Built(Now(), r) == Build(w, old(Now()), capture, inventory, readings, bytes, other)
    {
      if capture.id in receipts {
        return Raised(ReceiptExists);
      }
      if capture.source != FPL_LIVE_SOURCE {
        return Raised(NotALiveCapture);
      }
      if readings.start >= capture.deadline {
        return Raised(DeadlineClosed);
      }
      var listed := GameweekCaptures(inventory, capture);
      if listed.Raised? {
        assert listed.error.ForeignSource? || listed.error.DecisionCaptureAbsent?;
        return Raised(InventoryRefused);
      }
      var rows := listed.value.0;
      InventoryRows(inventory, capture, rows);
      var newest := NewestForGameweek(rows, capture);
      if !OwnModel(w, bytes) {
        return Raised(WrongModel);
      }
      if readings.fit >= capture.deadline {
        return Raised(DeadlineClosedWhileFitting);
      }
      r := PublishAndFile(w, capture, newest, readings.publish, bytes, other);
    }

    method PublishAndFile(w: World, capture: Capture, newest: bool, publish: int, bytes: string, other: Fields)
      returns (r: Outcome<Fields, BuildError>)
      modifies this
      ensures var published := Publishing(w, old(Now()), capture, bytes, publish);
              Built(Now(), r) == if published.None? then Built(old(Now()), Raised(ArtifactRefused))
                                 else Filing(w, published.value, capture, newest, other)
    {
      if w.readForecast(bytes, capture).None? {
        return Raised(ArtifactRefused);
      }
      if capture.id !in artifacts {
        artifacts := artifacts[capture.id := Artifact(bytes, publish)];
      } else if w.parse(artifacts[capture.id].bytes) != w.parse(bytes) {
        return Raised(ArtifactRefused);
      }
      var artifact := artifacts[capture.id];
      var forecast := w.readForecast(artifact.bytes, capture);
      if forecast.None? || forecast.value.modelVersion != FOOTBALL_MODEL_VERSION {
        return Raised(WrongModel);
      }
      var receipt := ReceiptOf(w, Facts(capture, forecast.value, artifact, newest, other));
      receipts := receipts[capture.id := receipt];
      return Done(receipt);
    }
  }

  /** The rows the inventory gives are the week's rows, sorted; the conclusion is the same. */
  lemma {:induction false} InventoryRows(inventory: seq<Capture>, capture: Capture, rows: seq<Row>)
    requires rows == Sorting.Sort(WeekRows(inventory, capture), RowLeq)
    requires exists row | row in WeekRows(inventory, capture) :: row.id == capture.id
    ensures rows != [] && WeekRows(inventory, capture) != []
    ensures NewestForGameweek(rows, capture) <==> NewestForGameweek(WeekRows(inventory, capture), capture)
  {
    Sorting.SortMembers(WeekRows(inventory, capture), RowLeq);
    SortedRowsConcludeTheSame(WeekRows(inventory, capture), capture);
  }

  // ---- a run alone is a history of the protocol ----

  function RootOf(w: World, s: State): Root {
    Root(s.artifacts, Receipts(w, s.receipts))
  }

  lemma OneMore(w: World, s: State, events: seq<Event>, t: State, e: Event)
    requires History(w, s, events) == Some(t)
    ensures History(w, s, events + [e]) == Step(w, t, e)
  {
    assert (events + [e])[..|events + [e]| - 1] == events;
  }

  lemma TwoMore(w: World, s: State, events: seq<Event>, t: State, now: int, e: Event)
    requires History(w, s, events) == Some(t) && t.clock <= now
    ensures History(w, s, events + [Tick(now)] + [e]) == Step(w, t.(clock := now), e)
  {
    OneMore(w, s, events, t, Tick(now));
    OneMore(w, s, events + [Tick(now)], t.(clock := now), e);
  }

  /** Up to the check: where a run stands that has looked at the inventory. */
  lemma Started(w: World, s: State, run: nat, capture: Capture, inventory: seq<Capture>, start: int)
    returns (events: seq<Event>)
    requires run !in s.runs && capture.id in w.captures && w.captures[capture.id] == capture && s.clock <= start
    ensures History(w, s, events)
         == Some(CheckStep(Goes(s.(clock := start), run, Began(capture, start)), run, Began(capture, start), inventory))
  {
    var ticked := s.(clock := start);
    var begun := Goes(ticked, run, Began(capture, start));
    assert History(w, s, []) == Some(s);
    TwoMore(w, s, [], s, start, Begin(run, capture.id));
    BeginStep(w, ticked, run, capture);
    var opening := [] + [Tick(start)] + [Begin(run, capture.id)];
    OneMore(w, s, opening, begun, Check(run, inventory));
    events := opening + [Check(run, inventory)];
  }

  lemma BeginStep(w: World, s: State, run: nat, capture: Capture)
    requires run !in s.runs && capture.id in w.captures && w.captures[capture.id] == capture
    ensures Step(w, s, Begin(run, capture.id)) == Some(Goes(s, run, Began(capture, s.clock)))
  {
  }

  /** The command, run alone on a root the protocol reached, is itself a history of the
      protocol: what it leaves on disk is what its steps leave. */
  lemma RunIsAHistory(
    w: World, s: State, run: nat, capture: Capture, inventory: seq<Capture>, readings: Readings, bytes: string, other: Fields)
    returns (events: seq<Event>, t: State)
    requires run !in s.runs && capture.id in w.captures && w.captures[capture.id] == capture
    requires capture.source == FPL_LIVE_SOURCE
    requires s.clock <= readings.start <= readings.fit <= readings.publish
    ensures History(w, s, events) == Some(t)
    ensures RootOf(w, t) == Build(w, RootOf(w, s), capture, inventory, readings, bytes, other).root
  {
    var began := Began(capture, readings.start);
    var launched := Goes(s.(clock := readings.start), run, began);
    events := Started(w, s, run, capture, inventory, readings.start);
    t := CheckStep(launched, run, began, inventory);
    var refused := BeforeFit(RootOf(w, s), capture, inventory, readings.start);
    assert refused.Some? <==> RefusedAtStart(launched, began, inventory);
    if refused.None? {
      var rows := WeekRows(inventory, capture);
      var newest := rows != [] && NewestForGameweek(rows, capture);
      TwoMore(w, s, events, t, readings.fit, Fit(run, bytes));
      events := events + [Tick(readings.fit)] + [Fit(run, bytes)];
      if !OwnModel(w, bytes) || readings.fit >= capture.deadline {
        t := Ended(t.(clock := readings.fit), run);
      } else {
        t := Goes(t.(clock := readings.fit), run, Ready(capture, readings.start, newest, readings.fit, bytes));
        events, t := PublishedAndFiled(w, s, events, t, run, readings.publish, other);
      }
    }
  }

  function Receipts(w: World, filed: map<string, Filed>): map<string, Fields> {
    map id | id in filed :: ReceiptOf(w, filed[id].facts)
  }

  lemma OneMoreReceipt(w: World, filed: map<string, Filed>, id: string, f: Filed)
    ensures Receipts(w, filed[id := f]) == Receipts(w, filed)[id := ReceiptOf(w, f.facts)]
  {
  }

  /** Publishing on the root is the publishing step. */
  lemma PublishIsAStep(w: World, s: State, run: nat)
    requires run in s.runs && s.runs[run].Ready?
    ensures var (r, t) := (s.runs[run], PublishStep(w, s, run, s.runs[run]));
            var published := Publishing(w, RootOf(w, s), r.capture, r.bytes, s.clock);
            && (published.None? ==> RootOf(w, t) == RootOf(w, s))
            && (published.Some? ==>
                  && RootOf(w, t) == published.value && t.receipts == s.receipts
                  && r.capture.id in t.artifacts
                  && run in t.runs && t.runs[run] == Published(r.capture, r.start, r.newest, r.fit))
  {
  }

  /** Filing on the root is the filing step. */
  lemma FileIsAStep(w: World, s: State, run: nat, other: Fields)
    requires run in s.runs && s.runs[run].Published?
    requires var id := s.runs[run].capture.id; id in s.artifacts && id !in s.receipts
    ensures var r := s.runs[run];
            RootOf(w, FileStep(w, s, run, r, other)) == Filing(w, RootOf(w, s), r.capture, r.newest, other).root
  {
    var r := s.runs[run];
    var forecast := w.readForecast(s.artifacts[r.capture.id].bytes, r.capture);
    if forecast.Some? {
      var facts := Facts(r.capture, forecast.value, s.artifacts[r.capture.id], r.newest, other);
      OneMoreReceipt(w, s.receipts, r.capture.id, Filed(facts, r.start, r.fit));
    }
  }

  lemma PublishedAndFiled(w: World, s: State, before: seq<Event>, u: State, run: nat, publish: int, other: Fields)
    returns (events: seq<Event>, t: State)
    requires History(w, s, before) == Some(u) && run in u.runs && u.runs[run].Ready? && u.clock <= publish
    requires u.runs[run].capture.id !in u.receipts
    ensures History(w, s, events) == Some(t)
    ensures var r := u.runs[run];
            var published := Publishing(w, RootOf(w, u), r.capture, r.bytes, publish);
            RootOf(w, t) == if published.None? then RootOf(w, u)
                            else Filing(w, published.value, r.capture, r.newest, other).root
  {
    var r := u.runs[run];
    var ready := u.(clock := publish);
    TwoMore(w, s, before, u, publish, Publish(run));
    events := before + [Tick(publish)] + [Publish(run)];
    t := PublishStep(w, ready, run, r);
    PublishIsAStep(w, ready, run);
    if Publishing(w, RootOf(w, u), r.capture, r.bytes, publish).Some? {
      var v := t;
      OneMore(w, s, events, v, File(run, other));
      FileIsAStep(w, v, run, other);
      events := events + [File(run, other)];
      t := FileStep(w, v, run, v.runs[run], other);
    }
  }

  lemma NewestIsStated(w: World, f: Facts)
    ensures FieldIn(ReceiptOf(w, f), "newest_for_gameweek") == Json.Bool(f.newest)
  {
    ReceiptSays(w, f);
  }

  /** What filing a receipt does to a root. */
  lemma FilingMeans(w: World, root: Root, capture: Capture, newest: bool, other: Fields)
    requires capture.id in root.artifacts
    ensures var built := Filing(w, root, capture, newest, other);
            && built.root.artifacts == root.artifacts
            && (built.outcome.Raised? ==> built.root == root)
            && (built.outcome.Done? ==>
                  && built.root.receipts == root.receipts[capture.id := built.outcome.value]
                  && FieldIn(built.outcome.value, "newest_for_gameweek") == Json.Bool(newest))
  {
    var forecast := w.readForecast(root.artifacts[capture.id].bytes, capture);
    if forecast.Some? {
      NewestIsStated(w, Facts(capture, forecast.value, root.artifacts[capture.id], newest, other));
    }
  }

  /** What a run that passed its checks leaves. */
  lemma BuiltAfterChecks(
    w: World, root: Root, capture: Capture, inventory: seq<Capture>, readings: Readings, bytes: string, other: Fields)
    requires BeforeFit(root, capture, inventory, readings.start).None?
    requires Build(w, root, capture, inventory, readings, bytes, other).outcome.Done?
    ensures var published := Publishing(w, root, capture, bytes, readings.publish);
            && published.Some? && published.value.receipts == root.receipts && capture.id in published.value.artifacts
            && readings.fit < capture.deadline
            && WeekRows(inventory, capture) != []
            && Build(w, root, capture, inventory, readings, bytes, other)
               == Filing(w, published.value, capture, NewestForGameweek(WeekRows(inventory, capture), capture), other)
  {
    var rows := WeekRows(inventory, capture);
    assert exists row | row in rows :: row.id == capture.id;
    assert rows != [];
  }

  /** A completed run read the clock before the deadline both times and its receipt, the first
      of its capture, says whether the capture was the newest. */
  lemma CompletedRunIsGated(
    w: World, root: Root, capture: Capture, inventory: seq<Capture>, readings: Readings, bytes: string, other: Fields)
    requires Build(w, root, capture, inventory, readings, bytes, other).outcome.Done?
    ensures var built := Build(w, root, capture, inventory, readings, bytes, other);
            && readings.start < capture.deadline && readings.fit < capture.deadline
            && capture.id !in root.receipts
            && built.root.receipts == root.receipts[capture.id := built.outcome.value]
            && WeekRows(inventory, capture) != []
            && FieldIn(built.outcome.value, "newest_for_gameweek")
               == Json.Bool(NewestForGameweek(WeekRows(inventory, capture), capture))
  {
    BuiltAfterChecks(w, root, capture, inventory, readings, bytes, other);
    var published := Publishing(w, root, capture, bytes, readings.publish);
    FilingMeans(w, published.value, capture, NewestForGameweek(WeekRows(inventory, capture), capture), other);
  }
}
