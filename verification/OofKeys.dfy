/** The texts the out-of-fold export names folds by, and the order of its tables. */
module OofKeys {
  import opened Decimals
  import opened Sorting

  datatype Key = Key(season: string, gameweek: int, player: int)

  /** The order of the exported tables: season text, then gameweek, then player. */
  predicate KeyLeq(a: Key, b: Key) {
    if a.season != b.season then TextLeq(a.season, b.season)
    else if a.gameweek != b.gameweek then a.gameweek < b.gameweek
    else a.player <= b.player
  }

  lemma KeyLeqTotal(a: Key, b: Key)
    ensures KeyLeq(a, b) || KeyLeq(b, a)
  {
    TextLeqTotal(a.season, b.season);
  }

  lemma KeyLeqTransitive(a: Key, b: Key, c: Key)
    requires KeyLeq(a, b) && KeyLeq(b, c)
    ensures KeyLeq(a, c)
  {
    if a.season != b.season && b.season != c.season {
      TextLeqTransitive(a.season, b.season, c.season);
      TextLeqTotal(a.season, b.season);
    }
  }

  /** Anything that carries a key, ordered by it. */
  function ByKey<T(!new)>(key: T -> Key): (T, T) -> bool {
    (a: T, b: T) => KeyLeq(key(a), key(b))
  }

  lemma ByKeyIsTotal<T(!new)>(key: T -> Key)
    ensures TotalPreorder(ByKey(key))
  {
    forall a, b
      ensures ByKey(key)(a, b) || ByKey(key)(b, a)
    {
      KeyLeqTotal(key(a), key(b));
    }
    forall a, b, c | ByKey(key)(a, b) && ByKey(key)(b, c)
      ensures ByKey(key)(a, c)
    {
      KeyLeqTransitive(key(a), key(b), key(c));
    }
  }

  /** Two digits at least, as the format `02d` writes an integer. */
  function TwoDigits(n: int): string {
    if 0 <= n < 10 then "0" + Decimal(n) else Decimal(n)
  }

  /** `DecisionPoint.fold_id`. */
  function FoldId(season: string, gameweek: int): string {
    season + "-gw" + TwoDigits(gameweek)
  }

  predicate Plain(text: string) {
    forall c | c in text :: c == '-' || '0' <= c <= '9'
  }

  lemma TwoDigitsPlain(n: int)
    ensures Plain(TwoDigits(n))
  {
    DecimalCharacters(n);
  }

  /** A text that ends in `mark` and a tail without it comes apart in one way only. */
  lemma TailsAgree(a: string, b: string, s: string, t: string, mark: char)
    requires a + [mark] + s == b + [mark] + t
    requires mark !in s && mark !in t
    ensures a == b && s == t
  {
    var text := a + [mark] + s;
    assert text[|a|] == mark && text[|b|] == mark;
    assert forall k | |a| < k < |text| :: text[k] == s[k - |a| - 1];
    assert forall k | |b| < k < |text| :: text[k] == t[k - |b| - 1];
    assert |a| == |b|;
    assert a == text[..|a|] && s == text[|a| + 1..];
    assert b == text[..|b|] && t == text[|b| + 1..];
  }

  /** The text of a small non-negative number is one digit, and no other number's is. */
  lemma TwoDigitsInjective(a: int, b: int)
    requires TwoDigits(a) == TwoDigits(b)
    ensures a == b
  {
    DecimalSign(a);
    DecimalSign(b);
    PaddingIsNotDecimal(a);
    PaddingIsNotDecimal(b);
    if 0 <= a < 10 && 0 <= b < 10 {
      assert Decimal(a) == TwoDigits(a)[1..] && Decimal(b) == TwoDigits(b)[1..];
    }
    DecimalInjective(a, b);
  }

  lemma {:induction false} LeadingDigit(n: nat)
    requires n > 0
    ensures DecimalNat(n)[0] != '0'
  {
    if n >= 10 {
      LeadingDigit(n / 10);
    }
  }

  lemma PaddingIsNotDecimal(n: int)
    ensures TwoDigits(n)[0] == '0' <==> 0 <= n < 10
  {
    DecimalSign(n);
    if n > 0 {
      LeadingDigit(n);
    }
  }

  /** A fold's label names its season and gameweek, whatever the season is called. */
  lemma FoldIdInjective(s1: string, g1: int, s2: string, g2: int)
    ensures FoldId(s1, g1) == FoldId(s2, g2) <==> s1 == s2 && g1 == g2
  {
    if FoldId(s1, g1) == FoldId(s2, g2) {
      TwoDigitsPlain(g1);
      TwoDigitsPlain(g2);
      assert FoldId(s1, g1) == (s1 + "-g") + ['w'] + TwoDigits(g1);
      assert FoldId(s2, g2) == (s2 + "-g") + ['w'] + TwoDigits(g2);
      TailsAgree(s1 + "-g", s2 + "-g", TwoDigits(g1), TwoDigits(g2), 'w');
      assert s1 == (s1 + "-g")[..|s1|] && s2 == (s2 + "-g")[..|s2|];
      TwoDigitsInjective(g1, g2);
    }
  }
}
