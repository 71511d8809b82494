/** The scorecard as a log: it only grows, and each gameweek is written once. */
module ScorecardMeaning {
  import opened Outcomes
  import opened Decimals
  import opened Scorecard

  // ---- lines of joined texts ----

  predicate Ended(text: string) {
    text != [] && text[|text| - 1] == '\n'
  }

  /** A text that ends its last line can be followed by any other without touching its lines. */
  lemma {:induction false} SplitAppend(begun: string, a: string, b: string)
    requires Ended(a)
    ensures Split(begun, a + b) == Split(begun, a) + Lines(b)
    decreases |a|
  {
    var (head, rest) := (a[0], if IsBreak(a[0]) then AfterBreak(a) else a[1..]);
    RestAppend(a, b);
    if rest == [] {
      assert rest + b == b;
      assert Split(begun, a) == [begun];
    } else {
      SplitAppend(if IsBreak(head) then [] else begun + [head], rest, b);
    }
  }

  /** Taking the first character, or the first break, off a text that goes on. */
  lemma RestAppend(a: string, b: string)
    requires Ended(a)
    ensures (a + b)[0] == a[0] && (a + b)[1..] == a[1..] + b
    ensures AfterBreak(a + b) == AfterBreak(a) + b
    ensures AfterBreak(a) == [] || Ended(AfterBreak(a))
    ensures |a| > 1 ==> Ended(a[1..])
  {
    Shift(a, b, 1);
    if |a| > 1 {
      assert (a + b)[1] == a[1];
      Shift(a, b, 2);
    }
  }

  lemma Shift(a: string, b: string, k: nat)
    requires k <= |a|
    ensures (a + b)[k..] == a[k..] + b
    ensures Ended(a) && k < |a| ==> Ended(a[k..])
  {
  }

  lemma LinesAppend(a: string, b: string)
    requires a == [] || Ended(a)
    ensures Lines(a + b) == Lines(a) + Lines(b)
  {
    if a == [] {
      assert a + b == b;
    } else {
      SplitAppend([], a, b);
    }
  }

  lemma {:induction false} SplitOn(begun: string, line: string, rest: string)
    requires OneLine(line)
    ensures Split(begun, line + rest) == Split(begun + line, rest)
    decreases |line|
  {
    if line == [] {
      assert line + rest == rest && begun + line == begun;
    } else {
      assert line[0] in line && (line + rest)[1..] == line[1..] + rest;
      SplitOn(begun + [line[0]], line[1..], rest);
      assert begun + [line[0]] + line[1..] == begun + line;
    }
  }

  lemma OneMoreLine(line: string, rest: string)
    requires OneLine(line)
    ensures Lines(line + ("\n" + rest)) == [line] + Lines(rest)
  {
    SplitOn([], line, "\n" + rest);
    assert [] + line == line;
    assert ("\n" + rest)[1..] == rest;
  }

  /** The first line of a text that has begun starts with what it has begun with. */
  lemma {:induction false} FirstLineStarts(begun: string, text: string)
    requires text != [] || begun != []
    ensures Split(begun, text) != [] && begun <= Split(begun, text)[0]
    decreases |text|
  {
    if text != [] && !IsBreak(text[0]) {
      FirstLineStarts(begun + [text[0]], text[1..]);
    }
  }

  /** Reading a text back changes line ends, not lines. */
  lemma {:induction false} SplitAsRead(begun: string, text: string)
    ensures Split(begun, AsRead(text)) == Split(begun, text)
    decreases |text|
  {
    if text != [] {
      if IsBreak(text[0]) {
        SplitAsRead([], AfterBreak(text));
        assert AsRead(text)[1..] == AsRead(AfterBreak(text));
      } else {
        SplitAsRead(begun + [text[0]], text[1..]);
        assert AsRead(text)[1..] == AsRead(text[1..]);
      }
    }
  }

  lemma {:induction false} EndedAsRead(text: string)
    requires Ended(text)
    ensures Ended(AsRead(text))
    decreases |text|
  {
    var rest := if text[0] == '\r' then AfterBreak(text) else text[1..];
    if rest != [] {
      EndedAsRead(rest);
    }
  }

  lemma LinesAsRead(text: string)
    ensures Lines(AsRead(text)) == Lines(text)
    ensures Ended(text) ==> Ended(AsRead(text))
  {
    SplitAsRead([], text);
    if Ended(text) {
      EndedAsRead(text);
    }
  }

  lemma {:induction false} AsReadIdentity(text: string)
    ensures AsRead(text) == text <==> '\r' !in text
  {
    if text != [] {
      if text[0] != '\r' {
        AsReadIdentity(text[1..]);
        assert text == [text[0]] + text[1..];
      } else {
        assert AsRead(text)[0] == '\n';
      }
    }
  }

  lemma {:induction false} MarkedAppend(a: seq<string>, b: seq<string>, gameweek: int)
    ensures Marked(a + b, gameweek) == Marked(a, gameweek) + Marked(b, gameweek)
  {
    if b == [] {
      assert a + b == a;
    } else {
      MarkedAppend(a, b[..|b| - 1], gameweek);
      assert (a + b)[..|a + b| - 1] == a + b[..|b| - 1];
    }
  }

  // ---- markers ----

  lemma HeadsAgree(a: string, b: string, s: string, t: string)
    requires a + [' '] + s == b + [' '] + t
    requires ' ' !in a && ' ' !in b
    ensures a == b
  {
    var text := a + [' '] + s;
    assert text[|a|] == ' ' && text[|b|] == ' ';
    assert forall k | 0 <= k < |a| :: text[k] == a[k];
    assert forall k | 0 <= k < |b| :: text[k] == b[k];
    assert a == text[..|a|] && b == text[..|b|];
  }

  /** No line carries the markers of two gameweeks. */
  lemma MarkersDiffer(line: string, g: int, h: int)
    requires StartsWith(line, Marker(g)) && StartsWith(line, Marker(h))
    ensures g == h
  {
    DecimalCharacters(g);
    DecimalCharacters(h);
    SameCellOf(line, Decimal(g), Decimal(h));
    DecimalInjective(g, h);
  }

  lemma SameCellOf(line: string, a: string, b: string)
    requires "| " + a + " | " <= line && "| " + b + " | " <= line
    requires ' ' !in a && ' ' !in b
    ensures a == b
  {
    SameCell(a, b, line[|"| " + a + " | "|..], line[|"| " + b + " | "|..]);
  }

  lemma SameCell(a: string, b: string, s: string, t: string)
    requires ("| " + a + " | ") + s == ("| " + b + " | ") + t
    requires ' ' !in a && ' ' !in b
    ensures a == b
  {
    var line := ("| " + a + " | ") + s;
    assert line[2..] == a + [' '] + ("| " + s);
    assert line[2..] == b + [' '] + ("| " + t);
    HeadsAgree(a, b, "| " + s, "| " + t);
  }

  lemma MarkerIsOneLine(g: int)
    ensures OneLine(Marker(g))
  {
    DecimalCharacters(g);
  }

  // ---- the header ----

  lemma {:induction false} LinesOfJoined(lines: seq<string>)
    requires forall line | line in lines :: OneLine(line)
    ensures Lines(Joined(lines)) == lines
    ensures lines != [] ==> Ended(Joined(lines))
  {
    if lines != [] {
      LinesOfJoined(lines[1..]);
      OneMoreLine(lines[0], Joined(lines[1..]));
      assert Joined(lines) == lines[0] + ("\n" + Joined(lines[1..]));
    }
  }

  /** A header ends its last line, and none of its lines starts as a gameweek's row does. */
  ghost predicate PlainHeader(header: string) {
    Ended(header) && forall g :: Marked(Lines(header), g) == 0
  }

  function Joined(lines: seq<string>): string {
    if lines == [] then "" else lines[0] + "\n" + Joined(lines[1..])
  }

  /** A line that no row starts like: too short, not a table line, or a table line whose first
      cell starts with a letter or two dashes, as the header's own two do. */
  predicate NoRow(line: string) {
    || |line| < 4
    || line[0] != '|'
    || !(line[2] == '-' || '0' <= line[2] <= '9')
    || (line[2] == '-' && line[3] == '-')
  }

  lemma NoRowUnmarked(line: string, g: int)
    requires NoRow(line)
    ensures !StartsWith(line, Marker(g))
  {
    DecimalCharacters(g);
    DecimalSign(g);
    var d := Decimal(g);
    assert Marker(g)[2] == d[0] && d[0] in d;
    if g < 0 {
      assert d == "-" + DecimalNat(-g);
      assert Marker(g)[3] == DecimalNat(-g)[0] && DecimalNat(-g)[0] in DecimalNat(-g);
    }
  }

  /** A header of such lines, each on its own line, is plain. */
  lemma HeaderOfSuchLines(lines: seq<string>)
    requires lines != [] && forall line | line in lines :: OneLine(line) && NoRow(line)
    ensures PlainHeader(Joined(lines)) && Lines(Joined(lines)) == lines
  {
    LinesOfJoined(lines);
    forall g
      ensures Marked(lines, g) == 0
    {
      MarkedMeans(lines, g);
      forall line | line in lines
        ensures !StartsWith(line, Marker(g))
      {
        NoRowUnmarked(line, g);
      }
    }
  }

  // ---- one row ----

  lemma TailIsOneLine(d: Decision, o: Settled, f: Formats)
    requires d.Decision? && o.Settled?
    ensures OneLine(Tail(d, o, f))
  {
    CellsAreOneLine();
    assert OneLine(" |");
  }

  lemma CellsAreOneLine()
    ensures forall n: Numeral :: OneLine(Cell(n))
  {
    assert forall c | c in "+-.0123456789%naif" :: !IsBreak(c);
    assert OneLine(" | ");
  }

  lemma BeginsWith(m: string, rest: string)
    requires OneLine(m) && m != []
    ensures Lines(m + rest) != [] && StartsWith(Lines(m + rest)[0], m)
  {
    SplitOn([], m, rest);
    assert [] + m == m;
    FirstLineStarts(m, rest);
  }

  /** A row's first line is marked as its own gameweek's. */
  lemma RowStarts(d: Decision, o: Settled, f: Formats)
    requires d.Decision? && o.Settled?
    ensures Ended(Row(d, o, f)) && Lines(Row(d, o, f)) != []
    ensures StartsWith(Lines(Row(d, o, f))[0], Marker(d.gameweek))
  {
    MarkerIsOneLine(d.gameweek);
    BeginsWith(Marker(d.gameweek), Cells(d, o, f));
  }

  /** The lines a broken model version adds below its row's first. */
  function ExtraLines(d: Decision, o: Settled, f: Formats): seq<string>
    requires d.Decision? && o.Settled?
  {
    var lines := Lines(Row(d, o, f));
    if lines == [] then [] else lines[1..]
  }

  lemma FirstLineMarks(lines: seq<string>, own: int, g: int)
    requires lines != [] && StartsWith(lines[0], Marker(own))
    ensures Marked(lines, g) == (if g == own then 1 else 0) + Marked(lines[1..], g)
  {
    assert lines == [lines[0]] + lines[1..];
    MarkedAppend([lines[0]], lines[1..], g);
    if StartsWith(lines[0], Marker(g)) {
      MarkersDiffer(lines[0], g, own);
    }
    assert [lines[0]][..0] == [];
  }

  lemma RowMarks(d: Decision, o: Settled, f: Formats, g: int)
    requires d.Decision? && o.Settled?
    ensures Marked(Lines(Row(d, o, f)), g)
         == (if g == d.gameweek then 1 else 0) + Marked(ExtraLines(d, o, f), g)
  {
    RowStarts(d, o, f);
    FirstLineMarks(Lines(Row(d, o, f)), d.gameweek, g);
  }

  // ---- one run ----

  /** The lines of the file, or of the header it would start from. */
  function CardLines(file: Option<string>, header: string): seq<string> {
    if file.None? then Lines(header) else Lines(file.value)
  }

  ghost predicate Sound(file: Option<string>, header: string) {
    PlainHeader(header) && (file.Some? ==> Ended(file.value))
  }

  /** A run that writes adds its row's lines below every line already there, and any other run
      leaves the file as it was. */
  lemma RunAppends(file: Option<string>, header: string, ledger: Ledger, f: Formats)
    requires Sound(file, header)
    ensures var after := FileAfter(file, header, ledger, f);
            if StatusOf(file, ledger) == Written
            then && after.Some? && Ended(after.value)
                 && Lines(after.value) == CardLines(file, header)
                    + Lines(Row(ledger.decision.value, ledger.outcome.value, f))
            else after == file
  {
    if StatusOf(file, ledger) == Written {
      var row := Row(ledger.decision.value, ledger.outcome.value, f);
      RowStarts(ledger.decision.value, ledger.outcome.value, f);
      if file.Some? {
        LinesAsRead(file.value);
      }
      LinesAppend(Before(file, header), row);
    }
  }

  /** The old file is, to the byte, the start of the new one exactly when it holds no carriage
      return: one would be read back as a newline. */
  lemma OldTextIsPrefix(file: Option<string>, header: string, ledger: Ledger, f: Formats)
    requires StatusOf(file, ledger) == Written && file.Some?
    ensures file.value <= FileAfter(file, header, ledger, f).value <==> '\r' !in file.value
  {
    var row := Row(ledger.decision.value, ledger.outcome.value, f);
    AsReadIdentity(file.value);
    if file.value <= AsRead(file.value) + row {
      FirstDifference(file.value, row);
    }
  }

  lemma {:induction false} FirstDifference(text: string, more: string)
    requires text <= AsRead(text) + more
    ensures AsRead(text) == text
  {
    if text != [] {
      var read := AsRead(text);
      AsReadHead(text);
      assert text[0] == (read + more)[0] == read[0];
      assert read == [text[0]] + AsRead(text[1..]);
      assert read + more == [text[0]] + (AsRead(text[1..]) + more);
      assert text == [text[0]] + text[1..];
      DropHead(text[0], text[1..], AsRead(text[1..]) + more);
      FirstDifference(text[1..], more);
    }
  }

  lemma AsReadHead(text: string)
    requires text != []
    ensures AsRead(text) != [] && (AsRead(text)[0] == text[0] <==> text[0] != '\r')
  {
  }

  lemma DropHead(c: char, x: string, y: string)
    requires [c] + x <= [c] + y
    ensures x <= y
  {
    assert ([c] + x)[1..] == x && ([c] + y)[1..] == y;
  }

  lemma CountAfter(file: Option<string>, header: string, ledger: Ledger, f: Formats, g: int)
    requires Sound(file, header) && StatusOf(file, ledger) == Written
    ensures FileAfter(file, header, ledger, f).Some?
    ensures Marked(Lines(FileAfter(file, header, ledger, f).value), g)
         == Marked(CardLines(file, header), g) + (if g == ledger.decision.value.gameweek then 1 else 0)
          + Marked(ExtraLines(ledger.decision.value, ledger.outcome.value, f), g)
  {
    var (d, o) := (ledger.decision.value, ledger.outcome.value);
    RunAppends(file, header, ledger, f);
    MarkedAppend(CardLines(file, header), Lines(Row(d, o, f)), g);
    RowMarks(d, o, f, g);
  }

  ghost predicate OneRowEach(lines: seq<string>) {
    forall g :: Marked(lines, g) <= 1
  }

  /** One written row keeps every gameweek to one row exactly when no further line of it is
      marked as its own gameweek, as one already on the card, or twice as any other. */
  lemma KeepsOneRowEachExactlyWhen(file: Option<string>, header: string, ledger: Ledger, f: Formats)
    requires Sound(file, header) && StatusOf(file, ledger) == Written && OneRowEach(CardLines(file, header))
    ensures FileAfter(file, header, ledger, f).Some?
    ensures OneRowEach(Lines(FileAfter(file, header, ledger, f).value))
       <==> NoClash(CardLines(file, header), ExtraLines(ledger.decision.value, ledger.outcome.value, f),
                    ledger.decision.value.gameweek)
  {
    var (d, o) := (ledger.decision.value, ledger.outcome.value);
    NotYetThere(file, header, ledger);
    RunAppends(file, header, ledger, f);
    RowStarts(d, o, f);
    ClashOrNot(CardLines(file, header), Lines(Row(d, o, f)), d.gameweek);
  }

  /** A gameweek may be marked once more only when it is neither the row's own nor on the card. */
  predicate FitsBelow(extra: nat, card: nat, own: bool) {
    extra <= if own || card > 0 then 0 else 1
  }

  lemma KeepsAt(card: seq<string>, row: seq<string>, own: int, g: int)
    requires Marked(card, g) <= 1 && Marked(card, own) == 0
    requires row != [] && StartsWith(row[0], Marker(own))
    ensures Marked(card + row, g) <= 1 <==> FitsBelow(Marked(row[1..], g), Marked(card, g), g == own)
  {
    MarkedAppend(card, row, g);
    FirstLineMarks(row, own, g);
  }

  ghost predicate NoClash(card: seq<string>, extra: seq<string>, own: int) {
    forall g :: FitsBelow(Marked(extra, g), Marked(card, g), g == own)
  }

  lemma ClashOrNot(card: seq<string>, row: seq<string>, own: int)
    requires OneRowEach(card) && Marked(card, own) == 0
    requires row != [] && StartsWith(row[0], Marker(own))
    ensures OneRowEach(card + row) <==> NoClash(card, row[1..], own)
  {
    if OneRowEach(card + row) {
      forall g
        ensures FitsBelow(Marked(row[1..], g), Marked(card, g), g == own)
      {
        KeepsAt(card, row, own, g);
      }
    }
    if NoClash(card, row[1..], own) {
      NoClashKeeps(card, row, own);
    }
  }

  lemma NoClashKeeps(card: seq<string>, row: seq<string>, own: int)
    requires OneRowEach(card) && Marked(card, own) == 0
    requires row != [] && StartsWith(row[0], Marker(own))
    requires NoClash(card, row[1..], own)
    ensures OneRowEach(card + row)
  {
    forall g
      ensures Marked(card + row, g) <= 1
    {
      assert FitsBelow(Marked(row[1..], g), Marked(card, g), g == own);
      KeepsAt(card, row, own, g);
    }
  }

  lemma NotYetThere(file: Option<string>, header: string, ledger: Ledger)
    requires Sound(file, header) && StatusOf(file, ledger) == Written
    ensures Marked(CardLines(file, header), ledger.decision.value.gameweek) == 0
  {
    if file.Some? {
      LinesAsRead(file.value);
    }
  }

  // ---- every sequence of runs ----

  function AfterRuns(header: string, runs: seq<Ledger>, f: Formats): Option<string> {
    if runs == [] then None
    else FileAfter(AfterRuns(header, runs[..|runs| - 1], f), header, runs[|runs| - 1], f)
  }

  /** The gameweeks of the runs that wrote, in order. */
  function Weeks(header: string, runs: seq<Ledger>, f: Formats): seq<int> {
    if runs == [] then []
    else
      var (front, last) := (runs[..|runs| - 1], runs[|runs| - 1]);
      Weeks(header, front, f)
      + if StatusOf(AfterRuns(header, front, f), last) == Written then [last.decision.value.gameweek] else []
  }

  /** The model version in the last row that was written. */
  function LastVersion(header: string, runs: seq<Ledger>, f: Formats): string {
    if runs == [] then ""
    else
      var (front, last) := (runs[..|runs| - 1], runs[|runs| - 1]);
      if StatusOf(AfterRuns(header, front, f), last) == Written then last.decision.value.version
      else LastVersion(header, front, f)
  }

  lemma {:induction false} AsReadPlain(text: string)
    ensures '\r' !in AsRead(text)
    decreases |text|
  {
    if text != [] {
      AsReadPlain(if text[0] == '\r' then AfterBreak(text) else text[1..]);
    }
  }

  lemma {:induction false} AsReadAfterPlain(a: string, b: string)
    requires '\r' !in a
    ensures AsRead(a + b) == a + AsRead(b)
  {
    if a == [] {
      assert a + b == b;
    } else {
      assert (a + b)[0] == a[0] && (a + b)[1..] == a[1..] + b;
      AsReadAfterPlain(a[1..], b);
    }
  }

  lemma RowReturns(d: Decision, o: Settled, f: Formats)
    requires d.Decision? && o.Settled?
    ensures '\r' in Row(d, o, f) <==> '\r' in d.version
  {
    MarkerIsOneLine(d.gameweek);
    TailIsOneLine(d, o, f);
  }

  /** After any runs that wrote, the card holds a carriage return exactly when the last row does,
      or it is the only row and the header does: what is older was read back first. */
  lemma {:induction false} ReturnsExactlyWhen(header: string, runs: seq<Ledger>, f: Formats)
    requires AfterRuns(header, runs, f).Some?
    ensures Weeks(header, runs, f) != []
    ensures '\r' in AfterRuns(header, runs, f).value
       <==> '\r' in LastVersion(header, runs, f) || (|Weeks(header, runs, f)| == 1 && '\r' in header)
  {
    var (front, last) := (runs[..|runs| - 1], runs[|runs| - 1]);
    var file := AfterRuns(header, front, f);
    if file.Some? {
      ReturnsExactlyWhen(header, front, f);
      AsReadPlain(file.value);
    } else {
      NothingWritten(header, front, f);
    }
    if StatusOf(file, last) == Written {
      RowReturns(last.decision.value, last.outcome.value, f);
    }
  }

  lemma {:induction false} NothingWritten(header: string, runs: seq<Ledger>, f: Formats)
    requires AfterRuns(header, runs, f).None?
    ensures Weeks(header, runs, f) == []
  {
    if runs != [] {
      NothingWritten(header, runs[..|runs| - 1], f);
    }
  }

  /** Once something was written after it, a text stands on the card as it reads. */
  lemma {:induction false} StandsAsRead(header: string, runs: seq<Ledger>, more: seq<Ledger>, f: Formats)
    requires AfterRuns(header, runs, f).Some?
    ensures AfterRuns(header, runs + more, f).Some?
    ensures |Weeks(header, runs + more, f)| >= |Weeks(header, runs, f)|
    ensures var (text, after) := (AfterRuns(header, runs, f).value, AfterRuns(header, runs + more, f).value);
            if |Weeks(header, runs + more, f)| == |Weeks(header, runs, f)| then after == text else AsRead(text) <= after
  {
    if more == [] {
      assert runs + more == runs;
    } else {
      var (front, last) := (more[..|more| - 1], more[|more| - 1]);
      StandsAsRead(header, runs, front, f);
      assert (runs + more)[..|runs + more| - 1] == runs + front;
      var (text, file) := (AfterRuns(header, runs, f).value, AfterRuns(header, runs + front, f));
      if StatusOf(file, last) == Written {
        ReadKeepsPrefix(text, file.value);
      }
    }
  }

  lemma ReadKeepsPrefix(text: string, now: string)
    requires now == text || AsRead(text) <= now
    ensures AsRead(text) <= AsRead(now)
  {
    if now != text {
      AsReadPlain(text);
      AsReadAfterPlain(AsRead(text), now[|AsRead(text)|..]);
      assert now == AsRead(text) + now[|AsRead(text)|..];
    }
  }

  /** Over every sequence of runs: a card once written is, to the byte, the start of the card
      after any further runs exactly when it holds no carriage return or nothing was written
      since. */
  lemma GrowsExactlyWhen(header: string, runs: seq<Ledger>, more: seq<Ledger>, f: Formats)
    requires AfterRuns(header, runs, f).Some?
    ensures AfterRuns(header, runs + more, f).Some?
    ensures AfterRuns(header, runs, f).value <= AfterRuns(header, runs + more, f).value
       <==> '\r' !in AfterRuns(header, runs, f).value || Weeks(header, runs + more, f) == Weeks(header, runs, f)
  {
    StandsAsRead(header, runs, more, f);
    var (text, after) := (AfterRuns(header, runs, f).value, AfterRuns(header, runs + more, f).value);
    WeeksGrow(header, runs, more, f);
    AsReadIdentity(text);
    if |Weeks(header, runs + more, f)| > |Weeks(header, runs, f)| && text <= after {
      assert after == AsRead(text) + after[|AsRead(text)|..];
      FirstDifference(text, after[|AsRead(text)|..]);
    }
  }

  lemma {:induction false} WeeksGrow(header: string, runs: seq<Ledger>, more: seq<Ledger>, f: Formats)
    ensures Weeks(header, runs, f) <= Weeks(header, runs + more, f)
  {
    if more == [] {
      assert runs + more == runs;
    } else {
      WeeksGrow(header, runs, more[..|more| - 1], f);
      assert (runs + more)[..|runs + more| - 1] == runs + more[..|more| - 1];
    }
  }

  /** When neither the header nor a model version holds a carriage return, the card only grows:
      its text after any runs is the start of its text after any further ones. */
  lemma CardOnlyGrows(header: string, runs: seq<Ledger>, more: seq<Ledger>, f: Formats)
    requires '\r' !in header
    requires forall ledger | ledger in runs && Usable(ledger) :: '\r' !in ledger.decision.value.version
    requires AfterRuns(header, runs, f).Some?
    ensures AfterRuns(header, runs + more, f).Some?
    ensures AfterRuns(header, runs, f).value <= AfterRuns(header, runs + more, f).value
  {
    ReturnsExactlyWhen(header, runs, f);
    LastVersionIsOne(header, runs, f);
    GrowsExactlyWhen(header, runs, more, f);
  }

  lemma {:induction false} LastVersionIsOne(header: string, runs: seq<Ledger>, f: Formats)
    requires forall ledger | ledger in runs && Usable(ledger) :: '\r' !in ledger.decision.value.version
    ensures '\r' !in LastVersion(header, runs, f)
  {
    if runs != [] {
      assert runs[|runs| - 1] in runs && forall ledger | ledger in runs[..|runs| - 1] :: ledger in runs;
      LastVersionIsOne(header, runs[..|runs| - 1], f);
    }
  }

  /** After any runs the card ends its last line, every week written has its row, and no week
      was written twice; this holds for every model version, line breaks and all. */
  lemma {:induction false} EveryWeekIsWrittenOnce(header: string, runs: seq<Ledger>, f: Formats)
    requires PlainHeader(header)
    ensures Sound(AfterRuns(header, runs, f), header)
    ensures AfterRuns(header, runs, f).None? <==> Weeks(header, runs, f) == []
    ensures forall g | g in Weeks(header, runs, f) :: Marked(CardLines(AfterRuns(header, runs, f), header), g) > 0
    ensures forall i, j | 0 <= i < j < |Weeks(header, runs, f)| :: Weeks(header, runs, f)[i] != Weeks(header, runs, f)[j]
  {
    if runs != [] {
      var (front, last) := (runs[..|runs| - 1], runs[|runs| - 1]);
      var file := AfterRuns(header, front, f);
      EveryWeekIsWrittenOnce(header, front, f);
      RunAppends(file, header, last, f);
      if StatusOf(file, last) == Written {
        var (d, o) := (last.decision.value, last.outcome.value);
        NotYetThere(file, header, last);
        forall g | g in Weeks(header, runs, f)
          ensures Marked(CardLines(AfterRuns(header, runs, f), header), g) > 0
        {
          MarkedAppend(CardLines(file, header), Lines(Row(d, o, f)), g);
          RowMarks(d, o, f, g);
        }
      }
    }
  }
}
