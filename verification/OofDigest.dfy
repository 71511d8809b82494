/** The text `_training_key_digest` is taken over, and exactly when it names its rows. */
module OofDigest {
  import opened Decimals
  import opened OofKeys

  /** The last two fields of a line. */
  function Cells(gameweek: int, player: int): string {
    "|" + Decimal(gameweek) + "|" + Decimal(player)
  }

  /** One line: the season, the gameweek and the player. */
  function Line(k: Key): string {
    k.season + Cells(k.gameweek, k.player)
  }

  /** The text the digest is taken over: the lines of the training rows in order, with a newline
      between each two. */
  function KeyText(keys: seq<Key>): string {
    if keys == [] then "" else
    var line := Line(keys[|keys| - 1]);
    if |keys| == 1 then line else KeyText(keys[..|keys| - 1]) + "\n" + line
  }

  /** What the text of some rows holds before the last row's two fields. */
  function Head(keys: seq<Key>): string
    requires keys != []
  {
    var season := keys[|keys| - 1].season;
    if |keys| == 1 then season else KeyText(keys[..|keys| - 1]) + "\n" + season
  }

  lemma HeadThenCells(keys: seq<Key>)
    requires keys != []
    ensures KeyText(keys) == Head(keys) + Cells(keys[|keys| - 1].gameweek, keys[|keys| - 1].player)
  {
    var last := keys[|keys| - 1];
    if |keys| > 1 {
      Regroup(KeyText(keys[..|keys| - 1]), "\n", last.season, Cells(last.gameweek, last.player));
    }
  }

  lemma Regroup(a: string, b: string, c: string, d: string)
    ensures a + b + (c + d) == a + b + c + d
  {
  }

  lemma CellsPlain(gameweek: int, player: int)
    ensures '\n' !in Cells(gameweek, player) && Cells(gameweek, player) != ""
  {
    DecimalCharacters(gameweek);
    DecimalCharacters(player);
  }

  /** The two fields at the end of a text come off in one way, whatever stands before them. */
  lemma CellsAgree(x: string, y: string, g: int, h: int, p: int, q: int)
    requires x + Cells(g, p) == y + Cells(h, q)
    ensures x == y && g == h && p == q
  {
    DecimalCharacters(g);
    DecimalCharacters(h);
    DecimalCharacters(p);
    DecimalCharacters(q);
    FieldsAgree(x, y, Decimal(g), Decimal(h), Decimal(p), Decimal(q));
    DecimalInjective(g, h);
    DecimalInjective(p, q);
  }

  lemma FieldsAgree(x: string, y: string, a: string, b: string, c: string, d: string)
    requires x + ("|" + a + "|" + c) == y + ("|" + b + "|" + d)
    requires '|' !in a && '|' !in b && '|' !in c && '|' !in d
    ensures x == y && a == b && c == d
  {
    assert x + ("|" + a + "|" + c) == (x + ['|'] + a) + ['|'] + c;
    assert y + ("|" + b + "|" + d) == (y + ['|'] + b) + ['|'] + d;
    TailsAgree(x + ['|'] + a, y + ['|'] + b, c, d, '|');
    TailsAgree(x, y, a, b, '|');
  }

  /** The row whose one line is the whole text of some rows. */
  function Merged(keys: seq<Key>): Key
    requires keys != []
  {
    Key(Head(keys), keys[|keys| - 1].gameweek, keys[|keys| - 1].player)
  }

  /** Some rows have the text of one row, the one they are merged into. */
  lemma MergedText(keys: seq<Key>)
    requires keys != []
    ensures KeyText([Merged(keys)]) == KeyText(keys) && KeyText(keys) != ""
  {
    HeadThenCells(keys);
    CellsPlain(keys[|keys| - 1].gameweek, keys[|keys| - 1].player);
  }

  /** Two training sets have one text exactly when they merge into one row. */
  lemma SameTextSameMerged(a: seq<Key>, b: seq<Key>)
    requires a != [] && b != []
    ensures KeyText(a) == KeyText(b) <==> Merged(a) == Merged(b)
  {
    MergedText(a);
    MergedText(b);
    if KeyText(a) == KeyText(b) {
      HeadThenCells(a);
      HeadThenCells(b);
      var (x, y) := (a[|a| - 1], b[|b| - 1]);
      CellsAgree(Head(a), Head(b), x.gameweek, y.gameweek, x.player, y.player);
    }
  }

  /** A season name with a line break just after what reads as the two last fields of a line. */
  ghost predicate Splits(season: string) {
    exists before, after, g, p :: SplitAt(season, before, after, g, p)
  }

  predicate SplitAt(season: string, before: string, after: string, g: int, p: int) {
    season == before + Cells(g, p) + "\n" + after
  }

  /** The rows before the last make the last row's season, as one row, a splitting one. */
  lemma MergedSplits(keys: seq<Key>)
    requires |keys| > 1
    ensures Splits(Head(keys))
  {
    var front := keys[..|keys| - 1];
    var last := front[|front| - 1];
    HeadThenCells(front);
    assert SplitAt(Head(keys), Head(front), keys[|keys| - 1].season, last.gameweek, last.player);
  }

  lemma TextOfTwo(one: Key, two: Key)
    ensures KeyText([one, two]) == Line(one) + "\n" + Line(two)
  {
    assert [one, two][..1] == [one];
    assert KeyText([one]) == Line(one);
  }

  /** A row with a splitting season has the text of two. */
  lemma SplitRow(k: Key) returns (two: seq<Key>)
    requires Splits(k.season)
    ensures |two| == 2 && KeyText(two) == KeyText([k])
  {
    var before, after, g, p :| SplitAt(k.season, before, after, g, p);
    var (x, y) := (Key(before, g, p), Key(after, k.gameweek, k.player));
    two := [x, y];
    TextOfTwo(x, y);
    Regroup(Line(x), "\n", after, Cells(k.gameweek, k.player));
  }

  ghost predicate SharesItsText(a: seq<Key>) {
    exists b :: b != a && KeyText(b) == KeyText(a)
  }

  /** The text of some rows is the text of others too exactly when they are two rows or more, or
      one row whose season splits. */
  lemma AnotherListExactlyWhen(a: seq<Key>)
    ensures SharesItsText(a) <==> |a| > 1 || (|a| == 1 && Splits(a[0].season))
  {
    if |a| > 1 {
      MergedText(a);
      Differs(a, [Merged(a)]);
    } else if |a| == 1 && Splits(a[0].season) {
      var two := SplitRow(a[0]);
      assert a == [a[0]];
      Differs(a, two);
    }
    if SharesItsText(a) && |a| <= 1 {
      var b :| b != a && KeyText(b) == KeyText(a);
      OneOrNone(a, b);
    }
  }

  lemma Differs(a: seq<Key>, b: seq<Key>)
    requires |a| != |b| && KeyText(b) == KeyText(a)
    ensures SharesItsText(a)
  {
    assert b != a;
  }

  lemma OneOrNone(a: seq<Key>, b: seq<Key>)
    requires |a| <= 1 && b != a && KeyText(b) == KeyText(a)
    ensures |a| == 1 && Splits(a[0].season)
  {
    if b != [] {
      MergedText(b);
    }
    if a != [] {
      MergedText(a);
      SameTextSameMerged(a, b);
      assert a == [Merged(a)];
      if |b| > 1 {
        MergedSplits(b);
      }
    }
  }

  /** One row alone is named by its text exactly when its season does not split. */
  lemma OneRowIsNamedExactlyWhen(k: Key)
    ensures SharesItsText([k]) <==> Splits(k.season)
  {
    AnotherListExactlyWhen([k]);
  }

  ghost predicate NoneSplits(keys: seq<Key>) {
    forall k | k in keys :: !Splits(k.season)
  }

  /** Where one text is cut at two line breaks, and none lies just before the later one, what
      follows the earlier break runs through the later. */
  lemma CutTwice(before: string, cells: string, s: string, other: string, t: string) returns (gap: string)
    requires before + cells + ['\n'] + s == other + ['\n'] + t
    requires |s| < |t| && '\n' !in cells
    ensures t == gap + cells + ['\n'] + s
  {
    var text := before + cells + ['\n'] + s;
    var n := |text| - |t| - 1;
    assert n == |other| && text[n] == '\n';
    assert forall i | |before| <= i < |before| + |cells| :: text[i] == cells[i - |before|] && text[i] in cells;
    assert n < |before|;
    assert t == text[n + 1..];
    gap := before[n + 1..];
    assert before == before[..n + 1] + gap;
    assert text == before[..n + 1] + (gap + cells + ['\n'] + s);
  }

  lemma LongerSeasonSplits(before: string, g: int, p: int, s: string, other: string, t: string)
    requires before + Cells(g, p) + ['\n'] + s == other + ['\n'] + t
    requires |s| < |t|
    ensures Splits(t)
  {
    CellsPlain(g, p);
    var gap := CutTwice(before, Cells(g, p), s, other, t);
    assert SplitAt(t, gap, s, g, p);
  }

  /** Training sets none of whose seasons split have one text exactly when they are the same rows
      in the same order. */
  lemma {:induction false} KeyTextInjective(a: seq<Key>, b: seq<Key>)
    requires NoneSplits(a) && NoneSplits(b)
    ensures KeyText(a) == KeyText(b) <==> a == b
    decreases |a|
  {
    if KeyText(a) == KeyText(b) {
      if a != [] {
        MergedText(a);
      }
      if b != [] {
        MergedText(b);
      }
      if a != [] && b != [] {
        SameTextSameMerged(a, b);
        SameRows(a, b);
      }
    }
  }

  lemma {:induction false} SameRows(a: seq<Key>, b: seq<Key>)
    requires a != [] && b != [] && NoneSplits(a) && NoneSplits(b) && Merged(a) == Merged(b)
    ensures a == b
    decreases |a|
  {
    LastOnes(a);
    LastOnes(b);
    if |a| > 1 && |b| > 1 {
      var (fa, fb) := (a[..|a| - 1], b[..|b| - 1]);
      SameFronts(a, b);
      SameTextSameMerged(fa, fb);
      SameRows(fa, fb);
      SameLast(a, b);
    } else {
      assert |a| == 1 && |b| == 1;
      assert a == [Merged(a)] && b == [Merged(b)];
    }
  }

  /** What the last row's season and the rows before it have from a list none of whose seasons
      split. */
  lemma LastOnes(a: seq<Key>)
    requires a != [] && NoneSplits(a)
    ensures !Splits(a[|a| - 1].season) && NoneSplits(a[..|a| - 1])
    ensures |a| == 1 <==> !Splits(Head(a))
  {
    assert a[|a| - 1] in a;
    assert forall k | k in a[..|a| - 1] :: k in a;
    if |a| > 1 {
      MergedSplits(a);
    }
  }

  lemma SameLast(a: seq<Key>, b: seq<Key>)
    requires a != [] && b != [] && Merged(a) == Merged(b)
    requires a[|a| - 1].season == b[|b| - 1].season && a[..|a| - 1] == b[..|b| - 1]
    ensures a == b
  {
    assert a == a[..|a| - 1] + [a[|a| - 1]];
    assert b == b[..|b| - 1] + [b[|b| - 1]];
  }

  lemma SameFronts(a: seq<Key>, b: seq<Key>)
    requires |a| > 1 && |b| > 1 && Head(a) == Head(b)
    requires !Splits(a[|a| - 1].season) && !Splits(b[|b| - 1].season)
    ensures a[|a| - 1].season == b[|b| - 1].season && KeyText(a[..|a| - 1]) == KeyText(b[..|b| - 1])
  {
    var (fa, fb) := (a[..|a| - 1], b[..|b| - 1]);
    var (s, t) := (a[|a| - 1].season, b[|b| - 1].season);
    var (x, y) := (fa[|fa| - 1], fb[|fb| - 1]);
    var (one, two) := (KeyText(fa), KeyText(fb));
    HeadThenCells(fa);
    HeadThenCells(fb);
    if |s| < |t| {
      LongerSeasonSplits(Head(fa), x.gameweek, x.player, s, two, t);
    }
    if |t| < |s| {
      LongerSeasonSplits(Head(fb), y.gameweek, y.player, t, one, s);
    }
    SameSplit(one, s, two, t);
  }

  lemma SameSplit(one: string, s: string, two: string, t: string)
    requires one + ['\n'] + s == two + ['\n'] + t && |s| == |t|
    ensures one == two && s == t
  {
    var text := one + ['\n'] + s;
    assert one == text[..|one|] && s == text[|one| + 1..];
    assert two == text[..|two|] && t == text[|two| + 1..];
  }

  /** With a line break in a season name, one row can pass for two. */
  lemma BrokenSeasonCollides()
    ensures Splits("A|1|2\nB")
    ensures var one := [Key("A|1|2\nB", 3, 4)];
            var two := [Key("A", 1, 2), Key("B", 3, 4)];
            KeyText(one) == KeyText(two) && one != two
  {
    var (one, two) := ([Key("A|1|2\nB", 3, 4)], [Key("A", 1, 2), Key("B", 3, 4)]);
    assert Decimal(1) == "1" && Decimal(2) == "2";
    assert SplitAt("A|1|2\nB", "A", "B", 1, 2);
    TextOfTwo(two[0], two[1]);
    assert |one| != |two|;
  }
}
