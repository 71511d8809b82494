/** Adding the device-plan inputs to a published site: every entry document of one league's tree
    is amended in turn, then the league's table, the capture's table and the directory. What is
    computed from the capture and the handoff is an arbitrary function of its inputs. */
module Amendment {
  import opened Outcomes
  import opened Sorting

  /** One member's side of the problem, a table, and the rest of a document. */
  type Block(==, !new)
  type Table(==, !new)
  type Other(==, !new)

  const CONTRACT := "provisional_league_ui_v1"
  const LEGACY_TREE := "league"

  /** The `device_plan` field of an entry: not there, or there with a block or null. */
  datatype PlanField = Missing | Present(block: Option<Block>)

  datatype Entry = Entry(
    contract: Option<string>,
    stamp: Option<string>,
    capture: Option<string>,
    season: string,
    gameweek: int,
    squad: seq<int>,
    purchasePricesKnown: bool,
    sellValue: Option<int>,
    bank: int,
    freeTransfers: int,
    chips: map<string, seq<int>>,
    plan: PlanField,
    other: Other
  )

  /** A file among the entries: a document, or text that does not read as one. */
  datatype EntryFile = Unreadable(text: string) | Document(entry: Entry)

  datatype Named = Named(name: string, file: EntryFile)

  datatype Members = Members(stamp: string, season: string, gameweek: int, league: int)

  datatype Envelope = Envelope(stamp: string, payload: Table)

  /** A table on disk, a league's or a capture's: an envelope, or text that is not one. */
  datatype TableFile = NotATable(text: string) | TableDocument(envelope: Envelope)

  /** A league's tree; its entries in the sorted order of their paths. */
  datatype Tree = Tree(members: Option<Members>, entries: seq<Named>, plan: Option<TableFile>)

  datatype Line = Line(
    league: int, name: string, season: string, gameweek: int, path: string,
    plan: Option<string>, digest: Option<string>)

  datatype DirectoryFile = Broken | Directory(stamp: string, kind: Option<string>, lines: seq<Line>)

  /** The site's data: trees by path, the directory if there is one, tables by capture. */
  datatype State = State(trees: map<string, Tree>, directory: Option<DirectoryFile>, tables: map<string, TableFile>)

  datatype Held = Held(
    season: string, decidedGameweek: int, squad: seq<int>, purchasePrices: map<int, int>,
    bank: int, freeTransfers: int, chips: map<string, seq<int>>, sellValue: int)

  /** The arguments: the capture, the league asked for, the handoff's own capture and gameweek,
      and what the library computes from them for a season and gameweek. */
  datatype Sources = Sources(
    capture: string,
    league: Option<int>,
    handoffCapture: string,
    handoffGameweek: int,
    prices: (string, int) -> map<int, int>,
    plan: (string, int, Held) -> Option<Block>,
    leagueTable: (string, int, int) -> Table,
    captureTable: (string, int) -> Table,
    sha: TableFile -> string
  )

  datatype Refusal =
    | DirectoryUnusable | NotPublished | SeveralLeagues | MembersUnreadable
    | WrongHandoff | TableDiffers
    | EntryUnreadable | NotAnEntry | OtherCapture | OtherDeadline | OtherStamp
    | NoPrice | PricesPublished | NoSellValue
    | TreeShared

  // ---- what is read before anything is written ----

  predicate LeaguesOnce(lines: seq<Line>) {
    forall i, j | 0 <= i < j < |lines| :: lines[i].league != lines[j].league
  }

  predicate PathsOnce(lines: seq<Line>) {
    forall i, j | 0 <= i < j < |lines| :: lines[i].path != lines[j].path
  }

  /** `read_league_directory`: no lines where there is no directory. */
  function Lines(directory: Option<DirectoryFile>): Outcome<seq<Line>, Refusal> {
    match directory
    case None => Done([])
    case Some(Broken) => Raised(DirectoryUnusable)
    case Some(Directory(_, _, lines)) => if LeaguesOnce(lines) then Done(lines) else Raised(DirectoryUnusable)
  }

  function FindLine(lines: seq<Line>, league: int): Option<string> {
    if lines == [] then None
    else if lines[0].league == league then Some(lines[0].path)
    else FindLine(lines[1..], league)
  }

  /** `single_league_tree`. */
  function TreePath(lines: seq<Line>, league: Option<int>): Outcome<string, Refusal> {
    if lines == [] then Done(LEGACY_TREE)
    else if league.Some? then
      var path := FindLine(lines, league.value);
      if path.None? then Raised(NotPublished) else Done(path.value)
    else if |lines| > 1 then Raised(SeveralLeagues)
    else Done(lines[0].path)
  }

  datatype Job = Job(path: string, members: Members)

  /** `check_device_plan_table`: a table on disk must be the one this would write. */
  predicate TableFits(tables: map<string, TableFile>, capture: string, table: Table) {
    capture in tables ==> tables[capture].TableDocument? && tables[capture].envelope.payload == table
  }

  /** Everything checked before the first write. */
  function Prepare(s: State, a: Sources): Outcome<Job, Refusal> {
    var lines :- Lines(s.directory);
    var path :- TreePath(lines, a.league);
    if path !in s.trees || s.trees[path].members.None? then Raised(MembersUnreadable)
    else
      var m := s.trees[path].members.value;
      if a.handoffCapture != a.capture || a.handoffGameweek != m.gameweek then Raised(WrongHandoff)
      else if !TableFits(s.tables, a.capture, a.captureTable(m.season, m.gameweek)) then Raised(TableDiffers)
      else Done(Job(path, m))
  }

  // ---- one entry ----

  predicate Priced(squad: seq<int>, prices: map<int, int>) {
    forall p | p in squad :: p in prices
  }

  /** `_held_from_entry`. */
  function HeldFromEntry(e: Entry, prices: map<int, int>): Outcome<Held, Refusal> {
    if !Priced(e.squad, prices) then Raised(NoPrice)
    else if e.purchasePricesKnown then Raised(PricesPublished)
    else if e.sellValue.None? then Raised(NoSellValue)
    else
      Done(Held(e.season, e.gameweek - 1, e.squad, map p | p in e.squad :: prices[p],
                e.bank, e.freeTransfers, e.chips, e.sellValue.value))
  }

  /** One turn of the loop: the file as it is written back. */
  function AmendFile(job: Job, a: Sources, file: EntryFile): Outcome<EntryFile, Refusal> {
    if file.Unreadable? then Raised(EntryUnreadable)
    else
      var e := file.entry;
      var m := job.members;
      if e.contract != Some(CONTRACT) then Raised(NotAnEntry)
      else if e.capture != Some(a.capture) then Raised(OtherCapture)
      else if e.gameweek != m.gameweek || e.season != m.season then Raised(OtherDeadline)
      else if e.stamp != Some(m.stamp) then Raised(OtherStamp)
      else
        var held :- HeldFromEntry(e, a.prices(m.season, m.gameweek));
        Done(Document(e.(plan := Present(a.plan(m.season, m.gameweek, held)))))
  }

  predicate Amendable(job: Job, a: Sources, n: Named) {
    AmendFile(job, a, n.file).Done?
  }

  function AmendNamed(job: Job, a: Sources, n: Named): Named {
    if Amendable(job, a, n) then Named(n.name, AmendFile(job, a, n.file).value) else n
  }

  /** The entries once the first `k` have been written. */
  function Amended(job: Job, a: Sources, entries: seq<Named>, k: nat): (r: seq<Named>)
    ensures |r| == |entries|
  {
    seq(|entries|, i requires 0 <= i < |entries| => if i < k then AmendNamed(job, a, entries[i]) else entries[i])
  }

  /** How many entries are written before one is refused. */
  function Accepted(job: Job, a: Sources, entries: seq<Named>): (k: nat)
    ensures k <= |entries|
    ensures forall i | 0 <= i < k :: Amendable(job, a, entries[i])
    ensures k < |entries| ==> !Amendable(job, a, entries[k])
  {
    if entries == [] || !Amendable(job, a, entries[0]) then 0 else 1 + Accepted(job, a, entries[1..])
  }

  // ---- the writes ----

  function WithEntries(s: State, job: Job, entries: seq<Named>): State
    requires job.path in s.trees
  {
    s.(trees := s.trees[job.path := s.trees[job.path].(entries := entries)])
  }

  function WithPlan(s: State, job: Job, a: Sources): State
    requires job.path in s.trees
  {
    var m := job.members;
    var document := Envelope(m.stamp, a.leagueTable(m.season, m.gameweek, m.league));
    s.(trees := s.trees[job.path := s.trees[job.path].(plan := Some(TableDocument(document)))])
  }

  /** The capture's table is written once: one already there keeps its own stamp. */
  function TableOf(tables: map<string, TableFile>, job: Job, a: Sources): TableFile {
    if a.capture in tables then tables[a.capture]
    else TableDocument(Envelope(job.members.stamp, a.captureTable(job.members.season, job.members.gameweek)))
  }

  function WithTable(s: State, job: Job, a: Sources): State {
    s.(tables := s.tables[a.capture := TableOf(s.tables, job, a)])
  }

  function PlanPath(capture: string): string {
    "device/" + capture + "/device-plan.json"
  }

  function Renamed(line: Line, league: int, capture: string, digest: string): Line {
    if line.league == league then line.(plan := Some(PlanPath(capture)), digest := Some(digest)) else line
  }

  function RenamedLines(lines: seq<Line>, league: int, capture: string, digest: string): (r: seq<Line>)
    ensures |r| == |lines|
  {
    seq(|lines|, i requires 0 <= i < |lines| => Renamed(lines[i], league, capture, digest))
  }

  function ByLeague(): (Line, Line) -> bool {
    (x: Line, y: Line) => x.league <= y.league
  }

  /** The directory as it is rewritten: every line kept, this league's naming its table. */
  function DirectoryFor(directory: DirectoryFile, job: Job, a: Sources, table: TableFile): DirectoryFile
    requires directory.Directory?
  {
    Directory(directory.stamp, Some(if directory.kind.None? then "live" else directory.kind.value),
              Sort(RenamedLines(directory.lines, job.members.league, a.capture, a.sha(table)), ByLeague()))
  }

  datatype Result = Result(state: State, outcome: Outcome<(), Refusal>)

  /** The whole run: what the site is afterwards, and whether the run was refused. */
  function Run(s: State, a: Sources): Result {
    var prepared := Prepare(s, a);
    if prepared.Raised? then Result(s, Raised(prepared.error))
    else
      var job := prepared.value;
      var entries := s.trees[job.path].entries;
      var k := Accepted(job, a, entries);
      var amended := WithEntries(s, job, Amended(job, a, entries, k));
      if k < |entries| then Result(amended, Raised(AmendFile(job, a, entries[k].file).error))
      else Finish(amended, job, a)
  }

  /** What follows the last entry. */
  function Finish(s: State, job: Job, a: Sources): Result
    requires job.path in s.trees && Lines(s.directory).Done?
  {
    var written := WithTable(WithPlan(s, job, a), job, a);
    var lines := Lines(s.directory).value;
    if lines == [] then Result(written, Done(()))
    else if !PathsOnce(lines) then Result(written, Raised(TreeShared))
    else Result(written.(directory := Some(DirectoryFor(s.directory.value, job, a, TableOf(s.tables, job, a)))), Done(()))
  }

  /** The site's data directory, changed in place by one call. */
  class Site {
    var trees: map<string, Tree>
    var directory: Option<DirectoryFile>
    var tables: map<string, TableFile>

    function Now(): State
      reads this
    {
      State(trees, directory, tables)
    }

    constructor (s: State)
      ensures Now() == s
    {
      trees, directory, tables := s.trees, s.directory, s.tables;
    }

    /** `add_device_plan_inputs`, without its optional solve of what it wrote. */
    method AddDevicePlanInputs(a: Sources) returns (r: Outcome<(), Refusal>)
      modifies this
      ensures Result(Now(), r) == Run(old(Now()), a)
    {
      var prepared := Prepare(Now(), a);
      if prepared.Raised? {
        return Raised(prepared.error);
      }
      var job := prepared.value;
      var entries := trees[job.path].entries;
      assert Amended(job, a, entries, 0) == entries;
      assert trees == trees[job.path := trees[job.path].(entries := entries)];
      for i := 0 to |entries|
        invariant i <= Accepted(job, a, entries)
        invariant directory == old(directory) && tables == old(tables)
        invariant trees == old(trees)[job.path := old(trees)[job.path].(entries := Amended(job, a, entries, i))]
      {
        var amended := AmendFile(job, a, entries[i].file);
        if amended.Raised? {
          assert i == Accepted(job, a, entries);
          return Raised(amended.error);
        }
        var here := trees[job.path];
        assert Amended(job, a, entries, i)[i := Named(entries[i].name, amended.value)] == Amended(job, a, entries, i + 1);
        trees := trees[job.path := here.(entries := here.entries[i := Named(entries[i].name, amended.value)])];
      }
      ghost var before := Now();
      assert before == WithEntries(old(Now()), job, Amended(job, a, entries, |entries|));
      var m := job.members;
      var document := Envelope(m.stamp, a.leagueTable(m.season, m.gameweek, m.league));
      trees := trees[job.path := trees[job.path].(plan := Some(TableDocument(document)))];
      if a.capture !in tables {
        tables := tables[a.capture := TableDocument(Envelope(m.stamp, a.captureTable(m.season, m.gameweek)))];
      }
      assert Now() == WithTable(WithPlan(before, job, a), job, a);
      var lines := Lines(directory).value;
      if lines != [] {
        if !PathsOnce(lines) {
          return Raised(TreeShared);
        }
        directory := Some(DirectoryFor(directory.value, job, a, tables[a.capture]));
      }
      return Done(());
    }
  }
}
