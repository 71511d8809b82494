/** The release check: four checks in turn, where the errors of an unreadable tree become
    findings. The identity and the word check are taken as what they give back. */
module ReleaseCheck {
  import opened Outcomes
  import opened Json
  import opened AdviceIndex
  import V = Variants
  import VariantsRun
  import VariantsMeaning
  import T = Top100
  import Top100Meaning
  import opened Raising
  import VariantsRaising
  import Top100Raising

  datatype CheckFinding =
    | OfIdentity(text: string)
    | OfVariants(finding: V.Finding)
    | OfTop100(problem: T.Problem)
    | OfWord(text: string)
    | Unreadable(check: string, error: PyError)

  type Checked = Outcome<seq<CheckFinding>, PyError>

  function Tagged<T>(r: Outcome<seq<T>, PyError>, tag: T -> CheckFinding): Checked {
    if r.Raised? then Raised(r.error)
    else Done(seq(|r.value|, i requires 0 <= i < |r.value| => tag(r.value[i])))
  }

  /** One check of the four: its name, and what it gives back when it is run. */
  datatype Check = Check(name: string, result: Checked)

  /** `except (OSError, ValueError, KeyError, TypeError)`: neither an attribute read on a value
      that has none nor an arithmetic error is among them. */
  predicate IsCaught(error: PyError) {
    match error
    case ReadError => true
    case KeyError => true
    case TypeError => true
    case AttributeError => false
    case ArithmeticError => false
  }

  function Caught(c: Check): Checked {
    if c.result.Raised? && IsCaught(c.result.error) then Done([Unreadable(c.name, c.result.error)]) else c.result
  }

  function Catching(): Check -> Checked { (c: Check) => Caught(c) }

  function IdentityTag(): string -> CheckFinding { (text: string) => OfIdentity(text) }

  function VariantTag(): V.Finding -> CheckFinding { (finding: V.Finding) => OfVariants(finding) }

  function Top100Tag(): T.Problem -> CheckFinding { (problem: T.Problem) => OfTop100(problem) }

  function WordTag(): string -> CheckFinding { (text: string) => OfWord(text) }

  function Checks(
    identity: Outcome<seq<string>, PyError>, variants: V.Findings, weights: T.Problems, word: Outcome<seq<string>, PyError>)
    : seq<Check>
  {
    [ Check("publication identity", Tagged(identity, IdentityTag())),
      Check("variants", Tagged(variants, VariantTag())),
      Check("top100", Tagged(weights, Top100Tag())),
      Check("word", Tagged(word, WordTag())) ]
  }

  /** What `run_checks` returns. */
  function AllFindings(
    env: Env, read: Reader, identity: Outcome<seq<string>, PyError>, word: Outcome<seq<string>, PyError>): Checked
  {
    Each(Checks(identity, V.VariantFindings(env, read), T.TreeProblems(env, read), word), Catching())
  }

  method RunChecks(
    env: Env, read: Reader, identity: Outcome<seq<string>, PyError>, word: Outcome<seq<string>, PyError>)
    returns (r: Checked)
    ensures r == AllFindings(env, read, identity, word)
  {
    var variants := VariantsRun.CheckVariants(env, read);
    var weights := T.CheckTop100(env, read);
    r := RunInTurn(Checks(identity, variants, weights, word));
  }

  /** The loop: findings are extended by each check's, and an error it does not catch ends it. */
  method RunInTurn(checks: seq<Check>) returns (r: Checked)
    ensures r == Each(checks, Catching())
  {
    var findings: seq<CheckFinding> := [];
    ghost var step := Catching();
    for i := 0 to |checks|
      invariant Each(checks[..i], step) == Done(findings)
    {
      EachNext(checks, i, step);
      var c := checks[i];
      if c.result.Done? {
        findings := findings + c.result.value;
      } else if IsCaught(c.result.error) {
        findings := findings + [Unreadable(c.name, c.result.error)];
      } else {
        return Raised(c.result.error);
      }
    }
    assert checks[..|checks|] == checks;
    return Done(findings);
  }

  /** A check ended with an error that is not caught. */
  predicate Uncaught<X>(r: Outcome<seq<X>, PyError>) {
    r.Raised? && !IsCaught(r.error)
  }

  lemma CaughtNothing<X>(name: string, r: Outcome<seq<X>, PyError>, tag: X -> CheckFinding)
    ensures Caught(Check(name, Tagged(r, tag))) == Done([]) <==> r == Done([])
    ensures Caught(Check(name, Tagged(r, tag))).Raised? <==> Uncaught(r)
  {
    if r.Done? {
      assert Tagged(r, tag).Done? && |Tagged(r, tag).value| == |r.value|;
    }
  }

  /** The release check passes exactly when the other two checks find nothing and every human
      member of the tree has the documents the index names and the weights the menu offers. */
  lemma PassesExactlyOnCompleteTrees(
    env: Env, read: Reader, identity: Outcome<seq<string>, PyError>, word: Outcome<seq<string>, PyError>)
    ensures AllFindings(env, read, identity, word) == Done([])
       <==> && identity == Done([]) && word == Done([])
            && VariantsMeaning.TreeIsClean(env, read)
            && Top100Meaning.TreeIsBacked(env, read)
  {
    FourInTurn(identity, V.VariantFindings(env, read), T.TreeProblems(env, read), word);
    VariantsMeaning.SilentExactlyOnCleanTrees(env, read);
    Top100Meaning.SilentExactlyOnBackedTrees(env, read);
  }

  lemma FourInTurn(
    identity: Outcome<seq<string>, PyError>, variants: V.Findings, weights: T.Problems, word: Outcome<seq<string>, PyError>)
    ensures Each(Checks(identity, variants, weights, word), Catching()) == Done([])
       <==> identity == Done([]) && variants == Done([]) && weights == Done([]) && word == Done([])
    ensures Each(Checks(identity, variants, weights, word), Catching()).Raised?
       <==> Uncaught(identity) || Uncaught(variants) || Uncaught(weights) || Uncaught(word)
  {
    var checks := Checks(identity, variants, weights, word);
    CaughtNothing("publication identity", identity, IdentityTag());
    CaughtNothing("variants", variants, VariantTag());
    CaughtNothing("top100", weights, Top100Tag());
    CaughtNothing("word", word, WordTag());
    EachFindsNothing(checks, Catching());
    EachMembers(checks, Catching());
    assert checks[0] in checks && checks[1] in checks && checks[2] in checks && checks[3] in checks;
    assert forall c :: Catching()(c) == Caught(c);
  }

  /** Two checks that raise where their sites fail, run among the four. */
  lemma EscapesInTurn(
    env: Env, identity: Outcome<seq<string>, PyError>, variants: V.Findings, vs: seq<Site>,
    weights: T.Problems, ts: seq<Site>, word: Outcome<seq<string>, PyError>)
    requires Traces(env, variants, vs) && Traces(env, weights, ts)
    ensures Each(Checks(identity, variants, weights, word), Catching()).Raised?
       <==> Uncaught(identity) || Uncaught(word) || EscapesFirst(env, vs) || EscapesFirst(env, ts)
  {
    FourInTurn(identity, variants, weights, word);
    EscapesFirstMeans(env, variants, vs);
    EscapesFirstMeans(env, weights, ts);
  }

  /** The check ends with an error of its own, instead of a finding, exactly when one of the
      other two checks does, or on a tree where the first read of the variants or of the Top 100
      check that fails is an attribute read on a value that is no object, or a price or a mean
      past every float. */
  lemma EscapesExactlyWhen(
    env: Env, read: Reader, identity: Outcome<seq<string>, PyError>, word: Outcome<seq<string>, PyError>)
    ensures AllFindings(env, read, identity, word).Raised?
       <==> || Uncaught(identity) || Uncaught(word)
            || EscapesFirst(env, VariantsRaising.VariantSites(env, read))
            || EscapesFirst(env, Top100Raising.Top100Sites(env, read))
  {
    VariantsRaising.VariantsTrace(env, read);
    Top100Raising.Top100Trace(env, read);
    EscapesInTurn(env, identity, V.VariantFindings(env, read), VariantsRaising.VariantSites(env, read),
                  T.TreeProblems(env, read), Top100Raising.Top100Sites(env, read), word);
  }

  /** A members document that lists a text instead of a member makes the check end with an
      error rather than a finding. */
  lemma TextAmongMembersEscapes(
    env: Env, read: Reader, identity: Outcome<seq<string>, PyError>, word: Outcome<seq<string>, PyError>)
    requires read("members.json")
          == Done(Obj([Entry("payload", Obj([Entry("members", Arr([Str("x")]))]))]))
    ensures AllFindings(env, read, identity, word).Raised?
  {
    var rows := [Str("x")];
    assert V.MemberRows(read) == Done(rows);
    assert V.HumanEntry(rows[0]) == Raised(AttributeError);
    assert Each(rows, V.HumanEntry) == Raised(AttributeError);
    assert V.VariantFindings(env, read) == Raised(AttributeError);
    FourInTurn(identity, V.VariantFindings(env, read), T.TreeProblems(env, read), word);
  }
}
