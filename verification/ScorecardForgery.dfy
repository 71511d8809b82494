/** Rows that no run wrote: exactly when a line break in a model version puts another row's start
    on the card, and what that does to later runs. */
module ScorecardForgery {
  import opened Outcomes
  import opened Decimals
  import opened Scorecard
  import opened ScorecardMeaning

  // ---- the lines a version adds below its row's first ----

  /** The lines a text ends, and the one it leaves begun. */
  datatype Parts = Parts(ended: seq<string>, begun: string)

  function Cut(begun: string, text: string): Parts
    decreases |text|
  {
    if text == [] then Parts([], begun)
    else if IsBreak(text[0]) then
      var rest := Cut([], AfterBreak(text));
      Parts([begun] + rest.ended, rest.begun)
    else Cut(begun + [text[0]], text[1..])
  }

  function Closed(parts: Parts, end: string): seq<string> {
    parts.ended + [parts.begun + end]
  }

  lemma AfterBreakAppend(text: string, more: string)
    requires text != [] && (more != [] ==> more[0] != '\n')
    ensures (text + more)[0] == text[0] && (text + more)[1..] == text[1..] + more
    ensures AfterBreak(text + more) == AfterBreak(text) + more
  {
    if |text| > 1 {
      assert (text + more)[1] == text[1];
      assert (text + more)[2..] == text[2..] + more;
    }
  }

  /** A text followed by the end of its last line has the lines it ends, and that one. */
  lemma {:induction false} SplitIsCut(begun: string, text: string, end: string, tail: string)
    requires OneLine(end) && end != [] && (tail == "" || tail == "\n")
    ensures Split(begun, text + (end + tail)) == Closed(Cut(begun, text), end)
    decreases |text|
  {
    if text == [] {
      assert text + (end + tail) == end + tail;
      SplitOn(begun, end, tail);
      assert tail == "\n" ==> AfterBreak(tail) == [];
    } else {
      assert (end + tail)[0] == end[0] && end[0] in end;
      AfterBreakAppend(text, end + tail);
      if IsBreak(text[0]) {
        SplitIsCut([], AfterBreak(text), end, tail);
      } else {
        SplitIsCut(begun + [text[0]], text[1..], end, tail);
      }
    }
  }

  /** What the first line began with does not reach the lines after it. */
  lemma {:induction false} CutBegun(a: string, b: string, text: string, end: string)
    ensures Closed(Cut(a, text), end)[1..] == Closed(Cut(b, text), end)[1..]
    decreases |text|
  {
    if text != [] {
      if IsBreak(text[0]) {
        var rest := Cut([], AfterBreak(text));
        assert ([a] + rest.ended + [rest.begun + end])[1..] == rest.ended + [rest.begun + end];
        assert ([b] + rest.ended + [rest.begun + end])[1..] == rest.ended + [rest.begun + end];
      } else {
        CutBegun(a + [text[0]], b + [text[0]], text[1..], end);
      }
    }
  }

  /** The lines of a version after its first, with the cell border that follows it in a row. */
  function Below(version: string): seq<string> {
    var lines := Lines(version + " | ");
    if lines == [] then [] else lines[1..]
  }

  lemma BelowIsCut(version: string)
    ensures Below(version) == Closed(Cut([], version), " | ")[1..]
  {
    assert " | " + "" == " | ";
    SplitIsCut([], version, " | ", "");
  }

  lemma ExtraIsCut(d: Decision, o: Settled, f: Formats)
    requires d.Decision? && o.Settled?
    ensures ExtraLines(d, o, f) == Closed(Cut([], d.version), Tail(d, o, f))[1..]
  {
    MarkerIsOneLine(d.gameweek);
    TailIsOneLine(d, o, f);
    TailBegins(d, o, f);
    RowIsCut(Marker(d.gameweek), d.version, Tail(d, o, f));
  }

  lemma RowIsCut(m: string, v: string, t: string)
    requires OneLine(m) && OneLine(t) && t != []
    ensures Lines(m + (v + t + "\n")) != []
    ensures Lines(m + (v + t + "\n"))[1..] == Closed(Cut([], v), t)[1..]
  {
    SplitOn([], m, v + (t + "\n"));
    assert m + (v + (t + "\n")) == m + (v + t + "\n") && [] + m == m;
    SplitIsCut(m, v, t, "\n");
    CutBegun(m, [], v, t);
  }

  /** A marker holds its second border only at its end. */
  lemma MarkerBorder(g: int, k: nat)
    requires 1 <= k < |Marker(g)| && Marker(g)[k] == '|'
    ensures k == |Marker(g)| - 2
  {
    DecimalCharacters(g);
    var d := Decimal(g);
    assert forall i | 2 <= i < 2 + |d| :: Marker(g)[i] == d[i - 2] && d[i - 2] in d;
  }

  /** A marker at the start of a line ends with the line's first cell border, or before it. */
  lemma MarkerEnds(begun: string, cells: string, g: int)
    ensures StartsWith(begun + (" | " + cells), Marker(g)) <==> StartsWith(begun + " | ", Marker(g))
  {
    var (m, line, n) := (Marker(g), begun + (" | " + cells), |begun|);
    assert line == begun + " | " + cells;
    if StartsWith(line, m) && |m| > n + 3 {
      assert m[n + 1] == line[n + 1] == '|';
      MarkerBorder(g, n + 1);
    }
  }

  lemma MarkedOne(lines: seq<string>, line: string, g: int)
    ensures Marked(lines + [line], g) == Marked(lines, g) + if StartsWith(line, Marker(g)) then 1 else 0
  {
    assert (lines + [line])[..|lines|] == lines;
  }

  /** How often a row marks a gameweek below its first line is a matter of its version alone. */
  lemma ForgeriesOfARow(d: Decision, o: Settled, f: Formats, g: int)
    requires d.Decision? && o.Settled?
    ensures Marked(ExtraLines(d, o, f), g) == Marked(Below(d.version), g)
  {
    ExtraIsCut(d, o, f);
    BelowIsCut(d.version);
    TailBegins(d, o, f);
    CellsMarkNothing(Cut([], d.version), Tail(d, o, f)[3..], g);
  }

  lemma CellsMarkNothing(parts: Parts, cells: string, g: int)
    ensures Marked(Closed(parts, " | " + cells)[1..], g) == Marked(Closed(parts, " | ")[1..], g)
  {
    if parts.ended != [] {
      MarkerEnds(parts.begun, cells, g);
      MarkedAfterFirst(parts, " | " + cells, g);
      MarkedAfterFirst(parts, " | ", g);
    }
  }

  lemma MarkedAfterFirst(parts: Parts, end: string, g: int)
    requires parts.ended != []
    ensures Marked(Closed(parts, end)[1..], g)
         == Marked(parts.ended[1..], g) + if StartsWith(parts.begun + end, Marker(g)) then 1 else 0
  {
    MarkedOne(parts.ended[1..], parts.begun + end, g);
    assert Closed(parts, end)[1..] == parts.ended[1..] + [parts.begun + end];
  }

  lemma TailBegins(d: Decision, o: Settled, f: Formats)
    requires d.Decision? && o.Settled?
    ensures |Tail(d, o, f)| > 3 && Tail(d, o, f) == " | " + Tail(d, o, f)[3..]
  {
    assert Cell(f.two(d.projected))[..3] == " | ";
  }

  // ---- every sequence of runs ----

  predicate Writes(header: string, runs: seq<Ledger>, f: Formats, i: int) {
    0 <= i < |runs| && StatusOf(AfterRuns(header, runs[..i], f), runs[i]) == Written
  }

  /** A version forges a row of a gameweek: a line after its first, with the cell border after the
      last one, starts as that row does. */
  predicate Forges(version: string, g: int) {
    exists line | line in Below(version) :: StartsWith(line, Marker(g))
  }

  /** Some run that wrote has forged a row of a gameweek. */
  ghost predicate Forged(header: string, runs: seq<Ledger>, f: Formats, g: int) {
    exists i :: Writes(header, runs, f, i) && Forges(runs[i].decision.value.version, g)
  }

  function Forgeries(header: string, runs: seq<Ledger>, f: Formats, g: int): nat {
    if runs == [] then 0
    else
      var (front, last) := (runs[..|runs| - 1], runs[|runs| - 1]);
      Forgeries(header, front, f, g)
      + if Writes(header, runs, f, |runs| - 1) then Marked(Below(last.decision.value.version), g) else 0
  }

  lemma {:induction false} ForgeriesMean(header: string, runs: seq<Ledger>, f: Formats, g: int)
    ensures Forgeries(header, runs, f, g) > 0 <==> Forged(header, runs, f, g)
  {
    if runs != [] {
      var (front, last) := (runs[..|runs| - 1], runs[|runs| - 1]);
      assert runs == front + [last];
      ForgeriesMean(header, front, f, g);
      ForgeriesNext(header, front, last, f, g);
      ForgedNext(header, front, last, f, g);
    }
  }

  lemma ForgeriesNext(header: string, front: seq<Ledger>, last: Ledger, f: Formats, g: int)
    ensures Forgeries(header, front + [last], f, g) > 0
       <==> || Forgeries(header, front, f, g) > 0
            || (Writes(header, front + [last], f, |front|) && Forges(last.decision.value.version, g))
  {
    assert (front + [last])[..|front|] == front;
    if Writes(header, front + [last], f, |front|) {
      MarkedMeans(Below(last.decision.value.version), g);
    }
  }

  lemma ForgedNext(header: string, front: seq<Ledger>, last: Ledger, f: Formats, g: int)
    ensures Forged(header, front + [last], f, g)
       <==> || Forged(header, front, f, g)
            || (Writes(header, front + [last], f, |front|) && Forges(last.decision.value.version, g))
  {
    var runs := front + [last];
    forall i | 0 <= i < |front|
      ensures runs[i] == front[i] && (Writes(header, runs, f, i) <==> Writes(header, front, f, i))
    {
      assert front[..i] == runs[..i];
    }
    assert runs[|front|] == last;
  }

  /** After any runs, whatever their versions hold, the card marks a gameweek once if it was
      written, and once more for each row of it that was forged. */
  lemma {:induction false} CardCounts(header: string, runs: seq<Ledger>, f: Formats, g: int)
    requires PlainHeader(header)
    ensures Marked(CardLines(AfterRuns(header, runs, f), header), g)
         == (if g in Weeks(header, runs, f) then 1 else 0) + Forgeries(header, runs, f, g)
  {
    if runs != [] {
      var (front, last) := (runs[..|runs| - 1], runs[|runs| - 1]);
      var file := AfterRuns(header, front, f);
      CardCounts(header, front, f, g);
      EveryWeekIsWrittenOnce(header, front, f);
      if StatusOf(file, last) == Written {
        NotYetThere(file, header, last);
        CountAfter(file, header, last, f, g);
        ForgeriesOfARow(last.decision.value, last.outcome.value, f, g);
      }
    }
  }

  /** After any runs, the card has one row for a gameweek that was written and none for one that
      was not, exactly when no row of that gameweek was forged. */
  lemma OneRowExactlyWhen(header: string, runs: seq<Ledger>, f: Formats, g: int)
    requires PlainHeader(header)
    ensures Marked(CardLines(AfterRuns(header, runs, f), header), g) == (if g in Weeks(header, runs, f) then 1 else 0)
       <==> !Forged(header, runs, f, g)
  {
    CardCounts(header, runs, f, g);
    ForgeriesMean(header, runs, f, g);
  }

  /** After any runs, a settled gameweek is refused as already there exactly when it was written
      or a row of it was forged. */
  lemma RefusedExactlyWhen(header: string, runs: seq<Ledger>, f: Formats, ledger: Ledger)
    requires PlainHeader(header) && Usable(ledger)
    ensures StatusOf(AfterRuns(header, runs, f), ledger) == AlreadyThere
       <==> || ledger.decision.value.gameweek in Weeks(header, runs, f)
            || Forged(header, runs, f, ledger.decision.value.gameweek)
  {
    var file := AfterRuns(header, runs, f);
    CardCounts(header, runs, f, ledger.decision.value.gameweek);
    ForgeriesMean(header, runs, f, ledger.decision.value.gameweek);
    if file.Some? {
      LinesAsRead(file.value);
    }
  }

  lemma OneLineForgesNothing(version: string, g: int)
    requires OneLine(version)
    ensures !Forges(version, g)
  {
    SplitOn([], version + " | ", "");
    assert version + " | " + "" == version + " | ";
    assert Below(version) == [];
  }

  /** When no model version that was written holds a line break, the card has exactly one row
      for each week written and none for any other. */
  lemma OneRowPerWeek(header: string, runs: seq<Ledger>, f: Formats, g: int)
    requires PlainHeader(header)
    requires forall ledger | ledger in runs && Usable(ledger) :: OneLine(ledger.decision.value.version)
    ensures Marked(CardLines(AfterRuns(header, runs, f), header), g) == if g in Weeks(header, runs, f) then 1 else 0
  {
    forall i | Writes(header, runs, f, i)
      ensures !Forges(runs[i].decision.value.version, g)
    {
      assert runs[i] in runs;
      OneLineForgesNothing(runs[i].decision.value.version, g);
    }
    OneRowExactlyWhen(header, runs, f, g);
  }

  /** A model version with a line break can carry another week's marker to the start of a line:
      that week is then refused though it was never written. */
  lemma BrokenVersionBlocksAWeek(header: string, ledger: Ledger, f: Formats, other: Ledger)
    requires PlainHeader(header) && Usable(ledger) && Usable(other)
    requires ledger.decision.value.version == "v\n" + Marker(other.decision.value.gameweek)
    requires other.decision.value.gameweek != ledger.decision.value.gameweek
    ensures StatusOf(AfterRuns(header, [], f), ledger) == Written
    ensures AfterRuns(header, [ledger], f) == FileAfter(None, header, ledger, f)
    ensures other.decision.value.gameweek !in Weeks(header, [ledger], f)
    ensures StatusOf(FileAfter(None, header, ledger, f), other) == AlreadyThere
  {
    var g := other.decision.value.gameweek;
    assert [ledger][..0] == [];
    SecondLineForges(g);
    assert Writes(header, [ledger], f, 0);
    RefusedExactlyWhen(header, [ledger], f, other);
  }

  lemma SecondLineForges(g: int)
    ensures Forges("v\n" + Marker(g), g)
  {
    var line := Marker(g) + " | ";
    MarkerIsOneLine(g);
    assert "v" + "\n" + Marker(g) == "v\n" + Marker(g);
    BelowBreak("v", Marker(g));
    assert line in [line];
  }

  lemma Regroup(a: string, b: string, c: string, d: string)
    ensures a + b + c + d == a + (b + (c + d))
  {
  }

  lemma BelowBreak(first: string, second: string)
    requires OneLine(first) && OneLine(second)
    ensures Below(first + "\n" + second) == [second + " | "]
  {
    var line := second + " | ";
    Regroup(first, "\n", second, " | ");
    OneMoreLine(first, line);
    SplitOn([], line, "");
    assert line + "" == line && [] + line == line;
  }

  /** A line break alone forges nothing. */
  lemma BreakAloneForgesNothing(g: int)
    ensures !OneLine("a\nb") && !Forges("a\nb", g)
  {
    BelowBreak("a", "b");
    assert "a" + "\n" + "b" == "a\nb";
    assert "a\nb"[1] == '\n' && "a\nb"[1] in "a\nb";
  }
}
