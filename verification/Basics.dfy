/** Results that may be absent or may be raised instead of returned. */
module Outcomes {

  datatype Option<+T> = None | Some(value: T)

  /** What a call gives back: a value, or the exception it raised. */
  datatype Outcome<+T, +E> = Done(value: T) | Raised(error: E) {
    predicate IsFailure() { Raised? }

    function PropagateFailure<U>(): Outcome<U, E>
      requires Raised?
    {
      Raised(error)
    }

    function Extract(): T
      requires Done?
    {
      value
    }
  }

  /** Two steps that each append to a list of findings; the first exception stops both. */
  function Then<F, E>(first: Outcome<seq<F>, E>, second: Outcome<seq<F>, E>): Outcome<seq<F>, E> {
    if first.Raised? then first
    else if second.Raised? then second
    else Done(first.value + second.value)
  }

  /** One step per item, in order. */
  function Each<T, F, E>(items: seq<T>, step: T -> Outcome<seq<F>, E>): Outcome<seq<F>, E> {
    if items == [] then Done([]) else Then(step(items[0]), Each(items[1..], step))
  }

  lemma ThenAssociates<F, E>(a: Outcome<seq<F>, E>, b: Outcome<seq<F>, E>, c: Outcome<seq<F>, E>)
    ensures Then(a, Then(b, c)) == Then(Then(a, b), c)
  {
    if a.Done? && b.Done? && c.Done? {
      assert a.value + (b.value + c.value) == (a.value + b.value) + c.value;
    }
  }

  lemma {:induction false} EachAppend<T, F, E>(a: seq<T>, b: seq<T>, step: T -> Outcome<seq<F>, E>)
    ensures Each(a + b, step) == Then(Each(a, step), Each(b, step))
  {
    if a == [] {
      assert a + b == b;
      assert Each(b, step).Done? ==> [] + Each(b, step).value == Each(b, step).value;
    } else {
      assert (a + b)[0] == a[0];
      assert (a + b)[1..] == a[1..] + b;
      EachAppend(a[1..], b, step);
      ThenAssociates(step(a[0]), Each(a[1..], step), Each(b, step));
    }
  }

  lemma EachSingle<T, F, E>(x: T, step: T -> Outcome<seq<F>, E>)
    ensures Each([x], step) == step(x)
  {
    assert Each([x][1..], step) == Done([]);
    assert step(x).Done? ==> step(x).value + [] == step(x).value;
  }

  /** A loop that ran `step` on the first `i` items and now runs it on the next: when that
      raises, so does the whole pass. */
  lemma EachNext<T, F, E>(items: seq<T>, i: nat, step: T -> Outcome<seq<F>, E>)
    requires i < |items|
    ensures Each(items[..i + 1], step) == Then(Each(items[..i], step), step(items[i]))
    ensures Each(items[..i], step).Done? && step(items[i]).Raised? ==> Each(items, step) == step(items[i])
  {
    assert items[..i + 1] == items[..i] + [items[i]];
    EachAppend(items[..i], [items[i]], step);
    EachSingle(items[i], step);
    assert items == items[..i + 1] + items[i + 1..];
    EachAppend(items[..i + 1], items[i + 1..], step);
  }

  /** A finding when the condition fails. */
  function Unless<F>(ok: bool, finding: F): seq<F> {
    if ok then [] else [finding]
  }

  lemma UnlessNothing<F>(a: seq<F>, ok: bool, finding: F)
    ensures a + Unless(ok, finding) == [] <==> a == [] && ok
  {
    assert |a + Unless(ok, finding)| == |a| + |Unless(ok, finding)|;
  }

  /** Findings that follow the ones already in the list. */
  function After<F, E>(before: seq<F>, step: Outcome<seq<F>, E>): Outcome<seq<F>, E> {
    Then(Done(before), step)
  }

  /** A loop that starts from `before` and has not yet run, or has run to the end. */
  lemma EachEnds<T, F, E>(before: seq<F>, items: seq<T>, step: T -> Outcome<seq<F>, E>)
    ensures After(before, Each(items[..0], step)) == Done(before)
    ensures items[..|items|] == items
  {
    assert items[..0] == [];
    assert before + [] == before;
  }

  /** A loop that starts from `before` and runs its step on item `i`. */
  lemma EachFrom<T, F, E>(before: seq<F>, items: seq<T>, i: nat, step: T -> Outcome<seq<F>, E>)
    requires i < |items|
    ensures var sofar := After(before, Each(items[..i], step));
            && After(before, Each(items[..i + 1], step)) == Then(sofar, step(items[i]))
            && (sofar.Done? && step(items[i]).Raised? ==> After(before, Each(items, step)) == step(items[i]))
  {
    EachNext(items, i, step);
    ThenAssociates(Done(before), Each(items[..i], step), step(items[i]));
  }

  /** Where a loop that starts from `start` stands after its first `i` items. */
  ghost predicate Ran<T, F, E>(start: seq<F>, items: seq<T>, step: T -> Outcome<seq<F>, E>, i: nat, sofar: seq<F>)
    requires i <= |items|
  {
    After(start, Each(items[..i], step)) == Done(sofar)
  }

  lemma RanNext<T, F, E>(
    start: seq<F>, items: seq<T>, step: T -> Outcome<seq<F>, E>, i: nat, sofar: seq<F>, r: Outcome<seq<F>, E>)
    requires i < |items| && Ran(start, items, step, i, sofar) && r == After(sofar, step(items[i]))
    ensures if r.Done? then Ran(start, items, step, i + 1, r.value) else After(start, Each(items, step)) == r
  {
    EachFrom(start, items, i, step);
  }

  lemma AfterThen<F, E>(before: seq<F>, a: Outcome<seq<F>, E>, b: Outcome<seq<F>, E>)
    ensures After(before, Then(a, b)) == Then(After(before, a), b)
  {
    ThenAssociates(Done(before), a, b);
  }

  lemma ThenNothing<F, E>(a: Outcome<seq<F>, E>, b: Outcome<seq<F>, E>)
    ensures Then(a, b) == Done([]) <==> a == Done([]) && b == Done([])
  {
    assert a.Done? && b.Done? ==> |a.value + b.value| == |a.value| + |b.value|;
  }

  /** A pass over a list completes exactly when every step does, and what it collects is what
      the steps give. */
  lemma {:induction false} EachMembers<T, F, E>(items: seq<T>, step: T -> Outcome<seq<F>, E>)
    ensures Each(items, step).Done? <==> forall x | x in items :: step(x).Done?
    ensures Each(items, step).Done? ==>
              forall y :: y in Each(items, step).value <==> exists x | x in items :: y in step(x).value
  {
    if items != [] {
      EachMembers(items[1..], step);
      assert items[0] in items;
      assert forall x :: x in items <==> x == items[0] || x in items[1..];
    }
  }

  /** What holds of each step's findings, and of any two lists of findings together once it
      holds of both, holds of what a pass collects. */
  lemma {:induction false} EachHolds<T(!new), F(!new), E>(
    items: seq<T>, step: T -> Outcome<seq<F>, E>, holds: (seq<T>, seq<F>) -> bool)
    requires holds([], [])
    requires forall a, x, b, y :: holds(a, x) && holds(b, y) ==> holds(a + b, x + y)
    requires forall x | x in items && step(x).Done? :: holds([x], step(x).value)
    requires Each(items, step).Done?
    ensures holds(items, Each(items, step).value)
  {
    if items != [] {
      var (first, rest) := (items[0], items[1..]);
      EachHolds(rest, step, holds);
      assert items == [first] + rest && first in items;
      assert Each(items, step).value == step(first).value + Each(rest, step).value;
      assert holds([first] + rest, step(first).value + Each(rest, step).value);
    }
  }

  /** A pass over a list finds nothing exactly when every item alone finds nothing. */
  lemma {:induction false} EachFindsNothing<T, F, E>(items: seq<T>, step: T -> Outcome<seq<F>, E>)
    ensures Each(items, step) == Done([]) <==> forall x | x in items :: step(x) == Done([])
  {
    if items != [] {
      EachFindsNothing(items[1..], step);
      assert forall x :: x in items <==> x == items[0] || x in items[1..];
      ThenNothing(step(items[0]), Each(items[1..], step));
    }
  }
}

/** Decimal text of an integer, as `str(int)` writes it. */
module Decimals {

  function Digit(d: nat): (c: char)
    requires d < 10
    ensures '0' <= c <= '9'
  {
    '0' + d as char
  }

  function DecimalNat(n: nat): (text: string)
    ensures text != [] && forall c | c in text :: '0' <= c <= '9'
  {
    if n < 10 then [Digit(n)] else DecimalNat(n / 10) + [Digit(n % 10)]
  }

  function Decimal(n: int): string {
    if n < 0 then "-" + DecimalNat(-n) else DecimalNat(n)
  }

  /** The value a run of digits spells. */
  function Value(text: string): int {
    if text == [] then 0
    else 10 * Value(text[..|text| - 1]) + (text[|text| - 1] as int - '0' as int)
  }

  lemma {:induction false} ValueOfDecimalNat(n: nat)
    ensures Value(DecimalNat(n)) == n
  {
    if n >= 10 {
      ValueOfDecimalNat(n / 10);
      assert DecimalNat(n)[..|DecimalNat(n)| - 1] == DecimalNat(n / 10);
    } else {
      assert DecimalNat(n)[..0] == [];
    }
  }

  lemma DecimalSign(n: int)
    ensures Decimal(n) != [] && (Decimal(n)[0] == '-' <==> n < 0)
  {
    if n >= 0 {
      assert Decimal(n)[0] in DecimalNat(n);
    }
  }

  /** Two integers with the same decimal text are the same integer. */
  lemma DecimalInjective(a: int, b: int)
    requires Decimal(a) == Decimal(b)
    ensures a == b
  {
    DecimalSign(a);
    DecimalSign(b);
    if a < 0 {
      assert DecimalNat(-a) == Decimal(a)[1..];
      assert DecimalNat(-b) == Decimal(b)[1..];
      ValueOfDecimalNat(-a);
      ValueOfDecimalNat(-b);
    } else {
      ValueOfDecimalNat(a);
      ValueOfDecimalNat(b);
    }
  }

  /** The decimal text of an integer holds digits and a sign only. */
  lemma DecimalCharacters(n: int)
    ensures Decimal(n) != []
    ensures forall c | c in Decimal(n) :: c == '-' || '0' <= c <= '9'
  {
  }
}

/** `sorted(...)`: a stable insertion sort under a total preorder. */
module Sorting {

  ghost predicate TotalPreorder<T(!new)>(leq: (T, T) -> bool) {
    && (forall a, b :: leq(a, b) || leq(b, a))
    && (forall a, b, c :: leq(a, b) && leq(b, c) ==> leq(a, c))
  }

  ghost predicate Sorted<T>(s: seq<T>, leq: (T, T) -> bool) {
    forall i, j | 0 <= i < j < |s| :: leq(s[i], s[j])
  }

  function Insert<T>(x: T, s: seq<T>, leq: (T, T) -> bool): (r: seq<T>)
    ensures multiset(r) == multiset{x} + multiset(s)
  {
    if s == [] then [x]
    else if leq(x, s[0]) then [x] + s
    else
      assert s == [s[0]] + s[1..];
      [s[0]] + Insert(x, s[1..], leq)
  }

  function Sort<T>(s: seq<T>, leq: (T, T) -> bool): (r: seq<T>)
    ensures multiset(r) == multiset(s)
    ensures |r| == |s|
  {
    if s == [] then []
    else
      var r := Insert(s[0], Sort(s[1..], leq), leq);
      assert s == [s[0]] + s[1..];
      assert |r| == |multiset(r)| == |multiset(s)|;
      r
  }

  lemma SortMembers<T>(s: seq<T>, leq: (T, T) -> bool)
    ensures forall x :: x in Sort(s, leq) <==> x in s
  {
    forall x
      ensures x in Sort(s, leq) <==> x in s
    {
      assert x in Sort(s, leq) <==> x in multiset(Sort(s, leq));
      assert x in s <==> x in multiset(s);
    }
  }

  lemma {:induction false} InsertSorted<T(!new)>(x: T, s: seq<T>, leq: (T, T) -> bool)
    requires TotalPreorder(leq) && Sorted(s, leq)
    ensures Sorted(Insert(x, s, leq), leq)
  {
    if s != [] && !leq(x, s[0]) {
      InsertSorted(x, s[1..], leq);
      var rest := Insert(x, s[1..], leq);
      forall y | y in rest
        ensures leq(s[0], y)
      {
        assert y in multiset(rest);
        if y != x {
          assert y in multiset(s[1..]);
        }
      }
    }
  }

  lemma {:induction false} SortSorted<T(!new)>(s: seq<T>, leq: (T, T) -> bool)
    requires TotalPreorder(leq)
    ensures Sorted(Sort(s, leq), leq)
  {
    if s != [] {
      SortSorted(s[1..], leq);
      InsertSorted(s[0], Sort(s[1..], leq), leq);
    }
  }

  /** Text order, character by character. */
  predicate TextLeq(a: string, b: string) {
    a == [] || (b != [] && (a[0] < b[0] || (a[0] == b[0] && TextLeq(a[1..], b[1..]))))
  }

  lemma {:induction false} TextLeqTotal(a: string, b: string)
    ensures TextLeq(a, b) || TextLeq(b, a)
    ensures TextLeq(a, b) && TextLeq(b, a) ==> a == b
  {
    if a != [] && b != [] && a[0] == b[0] {
      TextLeqTotal(a[1..], b[1..]);
      assert a == [a[0]] + a[1..] && b == [b[0]] + b[1..];
    }
  }

  lemma {:induction false} TextLeqTransitive(a: string, b: string, c: string)
    requires TextLeq(a, b) && TextLeq(b, c)
    ensures TextLeq(a, c)
  {
    if a != [] && b != [] && c != [] && a[0] == b[0] && b[0] == c[0] {
      TextLeqTransitive(a[1..], b[1..], c[1..]);
    }
  }
}

/** Comprehensions over lists. */
module Lists {
  import Sorting

  function Filter<T>(items: seq<T>, keep: T -> bool): seq<T> {
    if items == [] then []
    else (if keep(items[0]) then [items[0]] else []) + Filter(items[1..], keep)
  }

  lemma {:induction false} FilterMembers<T>(items: seq<T>, keep: T -> bool)
    ensures forall x :: x in Filter(items, keep) <==> x in items && keep(x)
  {
    if items != [] {
      FilterMembers(items[1..], keep);
    }
  }

  lemma {:induction false} FilterCount<T>(items: seq<T>, keep: T -> bool, x: T)
    ensures multiset(Filter(items, keep))[x] == if keep(x) then multiset(items)[x] else 0
  {
    if items != [] {
      FilterCount(items[1..], keep, x);
      assert items == [items[0]] + items[1..];
    }
  }

  /** No value twice. */
  predicate Distinct<T(==)>(items: seq<T>) {
    forall i, j | 0 <= i < j < |items| :: items[i] != items[j]
  }

  lemma DistinctHead<T>(items: seq<T>)
    requires items != []
    ensures Distinct(items) <==> items[0] !in items[1..] && Distinct(items[1..])
  {
    var rest := items[1..];
    assert forall j | 0 <= j < |rest| :: rest[j] == items[j + 1];
    if items[0] !in rest && Distinct(rest) {
      forall i, j | 0 <= i < j < |items|
        ensures items[i] != items[j]
      {
        assert items[j] == rest[j - 1];
      }
    }
  }

  /** Distinct values are those counted at most once. */
  lemma {:induction false} DistinctCounts<T>(items: seq<T>)
    ensures Distinct(items) <==> forall x :: multiset(items)[x] <= 1
  {
    if items != [] {
      var (first, rest) := (items[0], items[1..]);
      DistinctCounts(rest);
      assert items == [first] + rest;
      DistinctHead(items);
      assert first !in rest <==> multiset(items)[first] == 1;
      assert forall x | x != first :: multiset(items)[x] == multiset(rest)[x];
    }
  }

  lemma CountOfDistinct<T>(items: seq<T>, x: T)
    requires Distinct(items)
    ensures multiset(items)[x] == if x in items then 1 else 0
  {
    DistinctCounts(items);
    assert x in items <==> x in multiset(items);
  }

  lemma FilterFirst<T>(x: T, rest: seq<T>, keep: T -> bool)
    ensures Filter([x] + rest, keep) == (if keep(x) then [x] else []) + Filter(rest, keep)
  {
    assert ([x] + rest)[1..] == rest;
  }

  lemma JoinAssociates<T>(a: seq<T>, b: seq<T>, c: seq<T>)
    ensures a + (b + c) == a + b + c
  {
  }

  lemma {:induction false} FilterAppend<T>(a: seq<T>, b: seq<T>, keep: T -> bool)
    ensures Filter(a + b, keep) == Filter(a, keep) + Filter(b, keep)
  {
    if a == [] {
      assert a + b == b;
    } else {
      var (x, rest) := (a[0], a[1..]);
      assert a == [x] + rest;
      JoinAssociates([x], rest, b);
      FilterAppend(rest, b, keep);
      FilterFirst(x, rest, keep);
      FilterFirst(x, rest + b, keep);
      JoinAssociates(if keep(x) then [x] else [], Filter(rest, keep), Filter(b, keep));
    }
  }

  function FlatMap<T, U>(items: seq<T>, f: T -> seq<U>): seq<U> {
    if items == [] then [] else f(items[0]) + FlatMap(items[1..], f)
  }

  lemma {:induction false} FlatMapMembers<T, U>(items: seq<T>, f: T -> seq<U>)
    ensures forall y :: y in FlatMap(items, f) <==> exists x | x in items :: y in f(x)
  {
    if items != [] {
      FlatMapMembers(items[1..], f);
      forall y
        ensures y in FlatMap(items, f) <==> exists x | x in items :: y in f(x)
      {
        if y in f(items[0]) {
          assert items[0] in items;
        }
      }
    }
  }

  lemma {:induction false} FlatMapAppend<T, U>(a: seq<T>, b: seq<T>, f: T -> seq<U>)
    ensures FlatMap(a + b, f) == FlatMap(a, f) + FlatMap(b, f)
  {
    if a == [] {
      assert a + b == b;
      assert FlatMap(a, f) == [];
    } else {
      assert (a + b)[1..] == a[1..] + b;
      FlatMapAppend(a[1..], b, f);
    }
  }

  lemma FlatMapNone<T, U>(f: T -> seq<U>, items: seq<T>)
    ensures FlatMap(items[..0], f) == [] && items[..|items|] == items
  {
  }

  /** A loop that gathers `f` of each item has gathered one more. */
  lemma FlatMapNext<T, U>(items: seq<T>, i: nat, f: T -> seq<U>)
    requires i < |items|
    ensures FlatMap(items[..i + 1], f) == FlatMap(items[..i], f) + f(items[i])
  {
    assert items[..i + 1] == items[..i] + [items[i]];
    FlatMapAppend(items[..i], [items[i]], f);
    FlatMapOne(items[i], f);
  }

  lemma FlatMapOne<T, U>(x: T, f: T -> seq<U>)
    ensures FlatMap([x], f) == f(x)
  {
    assert FlatMap([x][1..], f) == [];
  }

  /** Each value once, at its last place. */
  function Dedupe<T(==)>(items: seq<T>): seq<T> {
    if items == [] then []
    else (if items[0] in items[1..] then [] else [items[0]]) + Dedupe(items[1..])
  }

  lemma {:induction false} DedupeMembers<T>(items: seq<T>)
    ensures forall x :: x in Dedupe(items) <==> x in items
    ensures forall i, j | 0 <= i < j < |Dedupe(items)| :: Dedupe(items)[i] != Dedupe(items)[j]
  {
    if items != [] {
      DedupeMembers(items[1..]);
    }
  }

  /** `sorted({x for x in items if keep(x)})` holds the kept values and nothing else. */
  lemma SortedDistinctMembers<T>(items: seq<T>, keep: T -> bool, leq: (T, T) -> bool)
    ensures forall x :: x in Sorting.Sort(Dedupe(Filter(items, keep)), leq) <==> x in items && keep(x)
  {
    FilterMembers(items, keep);
    DedupeMembers(Filter(items, keep));
    Sorting.SortMembers(Dedupe(Filter(items, keep)), leq);
  }
}
