/** The weekly scorecard: a text file that gains one row per settled gameweek. */
module Scorecard {
  import opened Outcomes
  import opened Decimals

  // ---- lines of a text, as `str.splitlines` gives them ----

  /** The characters a line ends at. */
  predicate IsBreak(c: char) {
    var code := c as int;
    10 <= code <= 13 || 28 <= code <= 30 || code == 133 || code == 8232 || code == 8233
  }

  predicate OneLine(text: string) {
    forall c | c in text :: !IsBreak(c)
  }

  /** What follows a break; a carriage return takes the newline after it. */
  function AfterBreak(text: string): (rest: string)
    requires text != []
    ensures |rest| < |text|
  {
    if text[0] == '\r' && |text| > 1 && text[1] == '\n' then text[2..] else text[1..]
  }

  /** The lines of a text whose first line has already begun. */
  function Split(begun: string, text: string): seq<string>
    decreases |text|
  {
    if text == [] then (if begun == [] then [] else [begun])
    else if IsBreak(text[0]) then [begun] + Split([], AfterBreak(text))
    else Split(begun + [text[0]], text[1..])
  }

  function Lines(text: string): seq<string> {
    Split([], text)
  }

  /** What `read_text` gives for a file's text: every line end it knows is one newline. */
  function AsRead(text: string): string
    decreases |text|
  {
    if text == [] then []
    else if text[0] == '\r' then "\n" + AsRead(AfterBreak(text))
    else [text[0]] + AsRead(text[1..])
  }

  // ---- a row ----

  /** The text of a formatted number. */
  type Numeral = s: string | forall c | c in s :: c in "+-.0123456789%naif" witness "0"

  /** Python's number formats, each some function to numerals. */
  datatype Formats = Formats(two: real -> Numeral, whole: real -> Numeral, signed: real -> Numeral, percent: real -> Numeral)

  datatype Decision = Unusable | Decision(gameweek: int, version: string, projected: real)

  /** The captain's points are absent when the outcome does not list the captain. */
  datatype Settled = Unsettled | Settled(realized: real, net: Option<real>, captain: Option<real>)

  datatype Ledger = Ledger(decision: Option<Decision>, outcome: Option<Settled>)

  function Marker(gameweek: int): string {
    "| " + Decimal(gameweek) + " | "
  }

  function Tail(d: Decision, o: Settled, f: Formats): string
    requires d.Decision? && o.Settled?
  {
    var doubled := (if o.captain.None? then 0.0 else o.captain.value) * 2.0;
    Cell(f.two(d.projected))
    + Cell(f.whole(o.realized))
    + Cell(f.whole(if o.net.None? then o.realized else o.net.value))
    + Cell(f.signed(o.realized - d.projected))
    + Cell(f.whole(doubled))
    + Cell(f.percent(if o.realized != 0.0 then doubled / o.realized else 0.0))
    + " |"
  }

  function Cell(n: Numeral): string {
    " | " + n
  }

  function Row(d: Decision, o: Settled, f: Formats): string
    requires d.Decision? && o.Settled?
  {
    Marker(d.gameweek) + Cells(d, o, f)
  }

  /** What follows the marker. */
  function Cells(d: Decision, o: Settled, f: Formats): string
    requires d.Decision? && o.Settled?
  {
    d.version + Tail(d, o, f) + "\n"
  }

  // ---- one run ----

  datatype Status = Written | NoDecision | NoOutcome | AlreadyThere | Failed

  predicate StartsWith(line: string, prefix: string) {
    prefix <= line
  }

  /** How many lines of a text start with a gameweek's marker. */
  function Marked(lines: seq<string>, gameweek: int): nat {
    if lines == [] then 0
    else Marked(lines[..|lines| - 1], gameweek) + if StartsWith(lines[|lines| - 1], Marker(gameweek)) then 1 else 0
  }

  lemma {:induction false} MarkedMeans(lines: seq<string>, gameweek: int)
    ensures Marked(lines, gameweek) > 0 <==> exists line | line in lines :: StartsWith(line, Marker(gameweek))
  {
    if lines != [] {
      MarkedMeans(lines[..|lines| - 1], gameweek);
      assert lines[|lines| - 1] in lines;
      assert forall line :: line in lines <==> line in lines[..|lines| - 1] || line == lines[|lines| - 1];
    }
  }

  /** The text of a file before the row; a missing file starts from the header. */
  function Before(file: Option<string>, header: string): string {
    if file.None? then header else AsRead(file.value)
  }

  predicate Usable(ledger: Ledger) {
    && ledger.decision.Some? && ledger.outcome.Some?
    && ledger.decision.value.Decision? && ledger.outcome.value.Settled?
  }

  function StatusOf(file: Option<string>, ledger: Ledger): Status {
    if ledger.decision.None? then NoDecision
    else if ledger.outcome.None? then NoOutcome
    else if !Usable(ledger) then Failed
    else if file.Some? && Marked(Lines(AsRead(file.value)), ledger.decision.value.gameweek) > 0 then AlreadyThere
    else Written
  }

  function FileAfter(file: Option<string>, header: string, ledger: Ledger, f: Formats): Option<string> {
    if StatusOf(file, ledger) != Written then file
    else Some(Before(file, header) + Row(ledger.decision.value, ledger.outcome.value, f))
  }

  class Card {
    const header: string
    var file: Option<string>

    constructor (header: string)
      ensures file == None && this.header == header
    {
      this.header := header;
      file := None;
    }

    /** `main`, after its arguments are parsed. */
    method AppendRow(ledger: Ledger, f: Formats) returns (status: Status)
      modifies this
      ensures status == StatusOf(old(file), ledger)
      ensures file == FileAfter(old(file), header, ledger, f)
    {
      if ledger.decision.None? {
        return NoDecision;
      }
      if ledger.outcome.None? {
        return NoOutcome;
      }
      var (d, o) := (ledger.decision.value, ledger.outcome.value);
      if d.Unusable? || o.Unsettled? {
        return Failed;
      }
      var row := Row(d, o, f);
      var text: string;
      if file.Some? {
        text := AsRead(file.value);
        var lines := Lines(text);
        MarkedMeans(lines, d.gameweek);
        if exists line | line in lines :: StartsWith(line, Marker(d.gameweek)) {
          return AlreadyThere;
        }
      } else {
        text := header;
      }
      file := Some(text + row);
      return Written;
    }
  }
}
