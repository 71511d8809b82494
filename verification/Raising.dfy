/** The places of a tree where a check can raise, in the order it comes to them. */
module Raising {
  import opened Outcomes
  import opened Lists
  import opened Json
  import opened AdviceIndex
  import opened Pricing

  /** One read of a value that not every value allows. */
  datatype Site =
    | Reads(document: Outcome<Json, PyError>)
    | Gets(value: Json)
    | Keys(value: Json, key: string)
    | Loops(value: Json)
    | Hashes(value: Json)
    | Opens(path: Json)
    | Compares(value: Json)
    | Counts(value: Json)
    | Searches(value: Json)
    | Ends(value: Json)
    | Prices(payload: Json)
    | Averages(values: seq<Json>)

  function ErrorOf<T>(r: Outcome<T, PyError>): Option<PyError> {
    if r.Raised? then Some(r.error) else None
  }

  /** The error a site raises, if its value does not allow the read. */
  function Failure(env: Env, site: Site): Option<PyError> {
    match site
    case Reads(document) => ErrorOf(document)
    case Gets(j) => if j.Obj? then None else Some(AttributeError)
    case Keys(j, key) => if !j.Obj? then Some(TypeError) else if HasField(j.fields, key) then None else Some(KeyError)
    case Loops(j) => if j.Arr? || j.Obj? || j.Str? then None else Some(TypeError)
    case Hashes(j) => if Hashable(j) then None else Some(TypeError)
    case Opens(path) => if path.Str? then None else Some(TypeError)
    case Compares(j) => if NumberOrBool(j) then None else Some(TypeError)
    case Counts(j) => if j.Arr? || j.Obj? || j.Str? then None else Some(TypeError)
    case Searches(j) => if j.Arr? || j.Obj? || j.Str? then None else Some(TypeError)
    case Ends(j) =>
      if !Truthy(j) || j.Str? || (j.Arr? && j.items[|j.items| - 1].Str?) then None
      else if j.Obj? then Some(KeyError)
      else Some(TypeError)
    case Prices(p) => if PriceOverflows(env, p) then Some(ArithmeticError) else None
    case Averages(values) => if values == [] then None else ErrorOf(Average(env, values))
  }

  /** An attribute read on a value that is no object, a price or an average past every float, or
      a reader's own error of those kinds: what the release check does not catch. */
  predicate Escapes(env: Env, site: Site) {
    match site
    case Reads(document) => document.Raised? && document.error in {AttributeError, ArithmeticError}
    case Gets(j) => !j.Obj?
    case Prices(p) => PriceOverflows(env, p)
    case Averages(values) => values != [] && AverageOverflows(env, values)
    case _ => false
  }

  lemma EscapesMeaning(env: Env, site: Site)
    ensures Escapes(env, site) <==> Failure(env, site) in {Some(AttributeError), Some(ArithmeticError)}
  {
    if site.Averages? && site.values != [] {
      AverageErrors(env, site.values);
    }
  }

  function FirstFailure(env: Env, sites: seq<Site>): Option<PyError> {
    if sites == [] then None
    else if Failure(env, sites[0]).Some? then Failure(env, sites[0])
    else FirstFailure(env, sites[1..])
  }

  /** A computation raises exactly the error of the first site that fails. */
  ghost predicate Traces<T>(env: Env, r: Outcome<T, PyError>, sites: seq<Site>) {
    ErrorOf(r) == FirstFailure(env, sites)
  }

  lemma {:induction false} FirstFailureAppend(env: Env, a: seq<Site>, b: seq<Site>)
    ensures FirstFailure(env, a + b) == if FirstFailure(env, a).Some? then FirstFailure(env, a) else FirstFailure(env, b)
  {
    if a == [] {
      assert a + b == b;
    } else {
      assert (a + b)[1..] == a[1..] + b;
      FirstFailureAppend(env, a[1..], b);
    }
  }

  lemma OneSite(env: Env, site: Site)
    ensures FirstFailure(env, [site]) == Failure(env, site)
  {
    assert [site][1..] == [];
  }

  /** A step, and what follows it when it does not raise. */
  lemma TracesAfter<T, U>(env: Env, a: Outcome<T, PyError>, sa: seq<Site>, r: Outcome<U, PyError>, sb: seq<Site>)
    requires Traces(env, a, sa)
    requires a.Raised? ==> r == Raised(a.error)
    requires a.Done? ==> Traces(env, r, sb)
    ensures Traces(env, r, sa + sb)
  {
    FirstFailureAppend(env, sa, sb);
  }

  lemma TracesThen<F>(env: Env, a: Outcome<seq<F>, PyError>, sa: seq<Site>, b: Outcome<seq<F>, PyError>, sb: seq<Site>)
    requires Traces(env, a, sa) && (a.Done? ==> Traces(env, b, sb))
    ensures Traces(env, Then(a, b), sa + sb)
  {
    FirstFailureAppend(env, sa, sb);
  }

  lemma {:induction false} TracesEach<T, F>(
    env: Env, items: seq<T>, step: T -> Outcome<seq<F>, PyError>, sites: T -> seq<Site>)
    requires forall x | x in items :: Traces(env, step(x), sites(x))
    ensures Traces(env, Each(items, step), FlatMap(items, sites))
  {
    if items != [] {
      assert items[0] in items;
      TracesEach(env, items[1..], step, sites);
      TracesThen(env, step(items[0]), sites(items[0]), Each(items[1..], step), FlatMap(items[1..], sites));
    }
  }

  /** No site of a list fails. */
  predicate AllHold(env: Env, sites: seq<Site>) {
    forall site | site in sites :: Failure(env, site).None?
  }

  /** A tree makes a check end with an error of its own: some site escapes, and none before it
      fails. */
  ghost predicate EscapesFirst(env: Env, sites: seq<Site>) {
    exists i | 0 <= i < |sites| :: Escapes(env, sites[i]) && AllHold(env, sites[..i])
  }

  lemma HoldsTogether(env: Env, site: Site, rest: seq<Site>)
    ensures AllHold(env, [site] + rest) <==> Failure(env, site).None? && AllHold(env, rest)
  {
    assert forall x :: x in [site] + rest <==> x == site || x in rest;
  }

  lemma EscapesHead(env: Env, sites: seq<Site>)
    requires sites != []
    ensures EscapesFirst(env, sites)
       <==> Escapes(env, sites[0]) || (Failure(env, sites[0]).None? && EscapesFirst(env, sites[1..]))
  {
    var rest := sites[1..];
    forall i | 0 <= i < |rest|
      ensures rest[i] == sites[i + 1]
      ensures AllHold(env, sites[..i + 1]) <==> Failure(env, sites[0]).None? && AllHold(env, rest[..i])
    {
      assert sites[..i + 1] == [sites[0]] + rest[..i];
      HoldsTogether(env, sites[0], rest[..i]);
    }
    assert sites[..0] == [];
    if EscapesFirst(env, sites) {
      var i :| 0 <= i < |sites| && Escapes(env, sites[i]) && AllHold(env, sites[..i]);
      if i > 0 {
        assert Escapes(env, rest[i - 1]) && AllHold(env, rest[..i - 1]);
      }
    }
    if Failure(env, sites[0]).None? && EscapesFirst(env, rest) {
      var i :| 0 <= i < |rest| && Escapes(env, rest[i]) && AllHold(env, rest[..i]);
      assert Escapes(env, sites[i + 1]) && AllHold(env, sites[..i + 1]);
    }
  }

  lemma {:induction false} FirstFailureEscapes(env: Env, sites: seq<Site>)
    ensures FirstFailure(env, sites) in {Some(AttributeError), Some(ArithmeticError)} <==> EscapesFirst(env, sites)
  {
    if sites != [] {
      EscapesMeaning(env, sites[0]);
      FirstFailureEscapes(env, sites[1..]);
      EscapesHead(env, sites);
    }
  }

  /** A check that traces its sites ends with an uncaught error exactly when some site escapes
      and none before it fails. */
  lemma EscapesFirstMeans<T>(env: Env, r: Outcome<T, PyError>, sites: seq<Site>)
    requires Traces(env, r, sites)
    ensures r.Raised? && r.error in {AttributeError, ArithmeticError} <==> EscapesFirst(env, sites)
  {
    FirstFailureEscapes(env, sites);
  }
}
