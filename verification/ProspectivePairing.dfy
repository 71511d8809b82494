/** Default 1 of the prospective protocol: which handoff a scored capture's current arm is
    paired with. */
module ProspectivePairing {
  import opened Outcomes

  /** A producer's handoff, with the identity it names. */
  datatype Handoff = Handoff(snapshot: string, season: string, gameweek: int, fingerprint: string, model: string)

  /** Reading a handoff file: absent, malformed or edited files are skipped; a file that exists
      and cannot be read refuses the run. */
  datatype HandoffFile = Skipped | Readable(handoff: Handoff) | OSError

  /** One file of the root, with its write instant. */
  datatype FileAt = FileAt(path: string, file: HandoffFile, writtenAt: int)

  /** The alias of the week, then the capture's retained copies in name order. */
  datatype Root = Root(aliasFile: FileAt, retained: seq<FileAt>)

  /** The identity being paired. */
  datatype Target = Target(snapshot: string, season: string, gameweek: int, deadline: int)

  datatype PairError = HandoffUnreadable | RecordRefused

  datatype Found = Found(path: string, handoff: Handoff, writtenAt: int)

  predicate Matches(t: Target, h: Handoff) {
    h.snapshot == t.snapshot && h.season == t.season && h.gameweek == t.gameweek
  }

  function FoundIn(t: Target, f: FileAt): seq<Found> {
    if f.file.Readable? && Matches(t, f.file.handoff) then [Found(f.path, f.file.handoff, f.writtenAt)] else []
  }

  function FilesOf(root: Root): seq<FileAt> {
    [root.aliasFile] + root.retained
  }

  function AllFound(t: Target, files: seq<FileAt>): seq<Found> {
    if files == [] then [] else FoundIn(t, files[0]) + AllFound(t, files[1..])
  }

  predicate NoneUnreadable(files: seq<FileAt>) {
    forall f | f in files :: !f.file.OSError?
  }

  lemma {:induction false} AllFoundNext(t: Target, files: seq<FileAt>, i: nat)
    requires i < |files|
    ensures AllFound(t, files[..i + 1]) == AllFound(t, files[..i]) + FoundIn(t, files[i])
  {
    if i > 0 {
      AllFoundNext(t, files[1..], i - 1);
      assert files[..i + 1][1..] == files[1..][..i] && files[..i][1..] == files[1..][..i - 1];
    }
  }

  /** `_matching_handoffs` */
  method MatchingHandoffs(root: Root, t: Target) returns (r: Outcome<seq<Found>, PairError>)
    ensures r == if NoneUnreadable(FilesOf(root)) then Done(AllFound(t, FilesOf(root))) else Raised(HandoffUnreadable)
  {
    var files, found := FilesOf(root), [];
    for i := 0 to |files|
      invariant found == AllFound(t, files[..i])
      invariant NoneUnreadable(files[..i])
    {
      AllFoundNext(t, files, i);
      assert files[..i + 1] == files[..i] + [files[i]];
      match files[i].file
      case OSError => return Raised(HandoffUnreadable);
      case Skipped =>
      case Readable(handoff) =>
        if Matches(t, handoff) {
          found := found + [Found(files[i].path, handoff, files[i].writtenAt)];
        }
    }
    assert files[..|files|] == files;
    return Done(found);
  }

  /** The alias, when it names the target. */
  function AliasFound(root: Root, t: Target): seq<Found> {
    FoundIn(t, root.aliasFile)
  }

  function RetainedFound(root: Root, t: Target): seq<Found> {
    AllFound(t, root.retained)
  }

  /** A well-formed root: the retained copies are other files than the alias. */
  predicate ValidRoot(root: Root) {
    forall f | f in root.retained :: f.path != root.aliasFile.path
  }

  function Fingerprints(found: seq<Found>): set<string> {
    set f | f in found :: f.handoff.fingerprint
  }

  /** Branch b's rule: the matching alias wins; otherwise one retained fingerprint is required,
      and its first copy is taken. */
  function BackendRule(root: Root, t: Target): Option<Found> {
    if AliasFound(root, t) != [] then Some(AliasFound(root, t)[0])
    else if |Fingerprints(RetainedFound(root, t))| == 1 then Some(RetainedFound(root, t)[0])
    else None
  }

  lemma {:induction false} AllFoundMembers(t: Target, files: seq<FileAt>)
    ensures forall x :: x in AllFound(t, files) <==> exists f | f in files :: x in FoundIn(t, f)
  {
    if files != [] {
      AllFoundMembers(t, files[1..]);
      assert forall f :: f in files <==> f == files[0] || f in files[1..];
    }
  }

  /** The matching files are the alias's, then the retained ones; only the first has its path. */
  lemma {:induction false} FoundSplits(root: Root, t: Target)
    requires ValidRoot(root)
    ensures AllFound(t, FilesOf(root)) == AliasFound(root, t) + RetainedFound(root, t)
    ensures forall x | x in RetainedFound(root, t) :: x.path != root.aliasFile.path
    ensures forall x | x in AliasFound(root, t) :: x.path == root.aliasFile.path
  {
    assert FilesOf(root)[1..] == root.retained;
    AllFoundMembers(t, root.retained);
  }

  lemma {:induction false} SingletonUnique(s: set<string>)
    requires |s| == 1
    ensures exists f :: f in s
    ensures forall a, b | a in s && b in s :: a == b
  {
    var f :| f in s;
    assert |s - {f}| == 0;
    assert s - {f} == {};
    assert s == {f};
  }

  lemma {:induction false} FingerprintsNext(found: seq<Found>, i: nat)
    requires i < |found|
    ensures Fingerprints(found[..i + 1]) == Fingerprints(found[..i]) + {found[i].handoff.fingerprint}
  {
    assert found[..i + 1] == found[..i] + [found[i]];
  }

  /** The first copy of each fingerprint, kept over a walk that met no alias. */
  ghost predicate FirstCopies(found: seq<Found>, matches: map<string, Found>) {
    && matches.Keys == Fingerprints(found)
    && (found != [] ==> found[0].handoff.fingerprint in matches && matches[found[0].handoff.fingerprint] == found[0])
  }

  lemma {:induction false} WalkEnds(root: Root, t: Target, matches: map<string, Found>, only: string)
    requires AliasFound(root, t) == [] && FirstCopies(RetainedFound(root, t), matches)
    ensures |matches| != 1 ==> BackendRule(root, t) == None
    ensures |matches| == 1 && only in matches ==> BackendRule(root, t) == Some(matches[only])
  {
    var found := RetainedFound(root, t);
    assert |matches| == |matches.Keys|;
    if |matches| == 1 && only in matches {
      RetainedNotEmpty(root, t);
      SingletonUnique(matches.Keys);
      assert only == found[0].handoff.fingerprint;
    }
  }

  /** `backend_rule_handoff`: the walk over the matching files, keeping the first copy of each
      fingerprint. */
  method BackendRuleHandoff(root: Root, t: Target) returns (r: Outcome<Option<Found>, PairError>)
    requires ValidRoot(root)
    ensures r == if NoneUnreadable(FilesOf(root)) then Done(BackendRule(root, t)) else Raised(HandoffUnreadable)
  {
    var found :- MatchingHandoffs(root, t);
    FoundSplits(root, t);
    var matches: map<string, Found> := map[];
    for i := 0 to |found|
      invariant FirstCopies(found[..i], matches)
      invariant i > 0 ==> AliasFound(root, t) == []
    {
      if found[i].path == root.aliasFile.path {
        return Done(Some(found[i]));
      }
      FingerprintsNext(found, i);
      if found[i].handoff.fingerprint !in matches {
        matches := matches[found[i].handoff.fingerprint := found[i]];
      }
    }
    assert found[..|found|] == found;
    assert AliasFound(root, t) == [] by {
      if found == [] {
        assert |AliasFound(root, t)| + |RetainedFound(root, t)| == 0;
      }
    }
    assert found == RetainedFound(root, t);
    if |matches| == 1 {
      SingletonUnique(matches.Keys);
      var only :| only in matches;
      WalkEnds(root, t, matches, only);
      return Done(Some(matches[only]));
    }
    WalkEnds(root, t, matches, "");
    return Done(None);
  }

  /* ---------- the advice records ---------- */

  /** A record as it is loaded; none of its files may fail its own digest. */
  datatype RecordFile =
    | Untrusted
    | Record(snapshot: string, season: string, gameweek: int, publishedAt: Option<int>, named: Option<string>)

  /** A sorted entry of the week's directory. */
  datatype Member = NotAMember | WithoutCapture | Recorded(record: RecordFile)

  datatype Counting = Counting(counted: nat, named: set<string>)

  predicate IsRecordOf(t: Target, r: RecordFile) {
    r.Record? && r.snapshot == t.snapshot && r.season == t.season && r.gameweek == t.gameweek
  }

  /** A trusted record of the target, published at or after the deadline. */
  predicate LateRecord(t: Target, m: Member) {
    m.Recorded? && IsRecordOf(t, m.record) && m.record.publishedAt.Some? && m.record.publishedAt.value >= t.deadline
  }

  /** One published before it, naming a fingerprint. */
  predicate Eligible(t: Target, m: Member) {
    && m.Recorded? && IsRecordOf(t, m.record) && m.record.publishedAt.Some? && m.record.publishedAt.value < t.deadline
    && m.record.named.Some? && m.record.named.value != ""
  }

  /** Any other record is a person's question: reading it raises. */
  predicate Refuses(t: Target, m: Member) {
    m.Recorded? && !LateRecord(t, m) && !Eligible(t, m)
  }

  function CountRecords(t: Target, members: seq<Member>): Counting {
    if members == [] then Counting(0, {})
    else
      var rest := CountRecords(t, members[..|members| - 1]);
      var last := members[|members| - 1];
      if Eligible(t, last) then Counting(rest.counted + 1, rest.named + {last.record.named.value}) else rest
  }

  /** `_counted_record_fingerprints` */
  method CountedRecordFingerprints(t: Target, members: seq<Member>) returns (r: Outcome<Counting, PairError>)
    ensures r == if exists m | m in members :: Refuses(t, m) then Raised(RecordRefused) else Done(CountRecords(t, members))
  {
    var counted: nat, fingerprints: set<string> := 0, {};
    for i := 0 to |members|
      invariant Counting(counted, fingerprints) == CountRecords(t, members[..i])
      invariant forall m | m in members[..i] :: !Refuses(t, m)
    {
      assert members[..i + 1] == members[..i] + [members[i]];
      assert members[..i + 1][..i] == members[..i];
      assert members[i] in members;
      match members[i]
      case NotAMember =>
      case WithoutCapture =>
      case Recorded(record) =>
        if !IsRecordOf(t, record) {
          return Raised(RecordRefused);
        }
        if record.publishedAt.None? {
          return Raised(RecordRefused);
        }
        if record.publishedAt.value < t.deadline {
          if record.named.None? || record.named.value == "" {
            return Raised(RecordRefused);
          }
          counted := counted + 1;
          fingerprints := fingerprints + {record.named.value};
        }
    }
    assert members[..|members|] == members;
    return Done(Counting(counted, fingerprints));
  }

  /** What is counted: every fingerprint an eligible record names, and nothing else. */
  lemma {:induction false} CountedMeans(t: Target, members: seq<Member>)
    ensures forall f :: f in CountRecords(t, members).named
              <==> exists m | m in members :: Eligible(t, m) && m.record.named.value == f
    ensures CountRecords(t, members).counted == 0 <==> forall m | m in members :: !Eligible(t, m)
  {
    if members != [] {
      var rest, last := members[..|members| - 1], members[|members| - 1];
      CountedMeans(t, rest);
      assert members == rest + [last];
      assert forall m :: m in members <==> m == last || m in rest;
    }
  }

  /* ---------- the pairing ---------- */

  datatype Branch = PublishedRecord | BackendBranch | MissingWeek

  datatype Detail = RecordsDisagree | NoFileCarries | RuleFindsNoneOrTwo

  datatype Pairing = Pairing(
    branch: Branch,
    selected: Option<Found>,
    replay: bool,
    detail: Option<Detail>,
    counted: nat,
    named: set<string>,
    backend: Option<string>,
    backendDiffers: bool
  )

  function Carrying(found: seq<Found>, wanted: string): seq<Found> {
    if found == [] then []
    else (if found[0].handoff.fingerprint == wanted then [found[0]] else []) + Carrying(found[1..], wanted)
  }

  lemma {:induction false} CarryingMembers(found: seq<Found>, wanted: string)
    ensures forall x :: x in Carrying(found, wanted) <==> x in found && x.handoff.fingerprint == wanted
  {
    if found != [] {
      CarryingMembers(found[1..], wanted);
    }
  }

  lemma {:induction false} CarryingAppend(a: seq<Found>, b: seq<Found>, wanted: string)
    ensures Carrying(a + b, wanted) == Carrying(a, wanted) + Carrying(b, wanted)
  {
    if a == [] {
      assert a + b == b;
    } else {
      var (head, rest) := (a[0], a[1..]);
      assert (a + b)[0] == head && (a + b)[1..] == rest + b;
      CarryingAppend(rest, b, wanted);
      assert Carrying(a, wanted) == (if head.handoff.fingerprint == wanted then [head] else []) + Carrying(rest, wanted);
    }
  }

  function Missing(detail: Detail, c: Counting, backend: Option<string>): Pairing {
    Pairing(MissingWeek, None, false, Some(detail), c.counted, c.named, backend, false)
  }

  function OnlyName(named: set<string>): string
    requires |named| == 1
  {
    SingletonUnique(named);
    var f :| f in named;
    f
  }

  /** The pairing of one capture, from what the two readings found. */
  function Pair(root: Root, t: Target, c: Counting): Pairing {
    var rule := BackendRule(root, t);
    var backend := if rule.None? then None else Some(rule.value.handoff.fingerprint);
    if c.counted > 0 then
      if |c.named| != 1 then Missing(RecordsDisagree, c, backend)
      else
        var wanted := OnlyName(c.named);
        var carrying := Carrying(AllFound(t, FilesOf(root)), wanted);
        if carrying == [] then Missing(NoFileCarries, c, backend)
        else Pairing(PublishedRecord, Some(carrying[|carrying| - 1]), false, None, c.counted, c.named, backend, backend != Some(wanted))
    else if rule.None? then Missing(RuleFindsNoneOrTwo, Counting(0, {}), backend)
    else Pairing(BackendBranch, rule, rule.value.writtenAt >= t.deadline, None, 0, {}, backend, false)
  }

  /** `pair_current`; without a record root no record is read. */
  method PairCurrent(root: Root, t: Target, records: Option<seq<Member>>) returns (r: Outcome<Pairing, PairError>)
    requires ValidRoot(root)
    ensures r == if !NoneUnreadable(FilesOf(root)) then Raised(HandoffUnreadable)
                 else if records.Some? && exists m | m in records.value :: Refuses(t, m) then Raised(RecordRefused)
                 else Done(Pair(root, t, if records.None? then Counting(0, {}) else CountRecords(t, records.value)))
  {
    var rule :- BackendRuleHandoff(root, t);
    var backend := if rule.None? then None else Some(rule.value.handoff.fingerprint);
    var c := Counting(0, {});
    if records.Some? {
      c :- CountedRecordFingerprints(t, records.value);
    }
    if c.counted > 0 {
      if |c.named| != 1 {
        return Done(Missing(RecordsDisagree, c, backend));
      }
      var wanted := OnlyName(c.named);
      var found := MatchingHandoffs(root, t);
      var carrying := Carrying(found.value, wanted);
      if carrying == [] {
        return Done(Missing(NoFileCarries, c, backend));
      }
      return Done(Pairing(PublishedRecord, Some(carrying[|carrying| - 1]), false, None, c.counted, c.named, backend, backend != Some(wanted)));
    }
    if rule.None? {
      return Done(Missing(RuleFindsNoneOrTwo, Counting(0, {}), backend));
    }
    return Done(Pairing(BackendBranch, rule, rule.value.writtenAt >= t.deadline, None, 0, {}, backend, false));
  }

  /* ---------- the declared table ---------- */

  ghost predicate RetainedCarries(root: Root, t: Target, wanted: string) {
    exists x | x in RetainedFound(root, t) :: x.handoff.fingerprint == wanted
  }

  /** What was selected names the target, and under branch a carries the recorded fingerprint. */
  lemma {:induction false} SelectedIsTheTarget(root: Root, t: Target, c: Counting)
    requires ValidRoot(root)
    ensures var p := Pair(root, t, c);
            p.selected.Some? ==>
              && p.selected.value in AllFound(t, FilesOf(root))
              && Matches(t, p.selected.value.handoff)
              && (p.branch == PublishedRecord ==> {p.selected.value.handoff.fingerprint} == c.named)
  {
    FoundSplits(root, t);
    AllFoundMembers(t, FilesOf(root));
    if c.counted > 0 && |c.named| == 1 {
      var wanted := OnlyName(c.named);
      SingletonUnique(c.named);
      CarryingMembers(AllFound(t, FilesOf(root)), wanted);
      assert c.named == {wanted};
      var carrying := Carrying(AllFound(t, FilesOf(root)), wanted);
      if carrying != [] {
        assert carrying[|carrying| - 1] in carrying;
      }
    } else if BackendRule(root, t).Some? {
      RuleIsFound(root, t);
    }
  }

  lemma {:induction false} RuleIsFound(root: Root, t: Target)
    requires ValidRoot(root) && BackendRule(root, t).Some?
    ensures BackendRule(root, t).value in AllFound(t, FilesOf(root))
  {
    FoundSplits(root, t);
    if AliasFound(root, t) != [] {
      assert AliasFound(root, t)[0] in AliasFound(root, t);
    } else {
      RetainedNotEmpty(root, t);
      assert RetainedFound(root, t)[0] in RetainedFound(root, t);
    }
  }

  lemma {:induction false} RetainedNotEmpty(root: Root, t: Target)
    requires |Fingerprints(RetainedFound(root, t))| >= 1
    ensures RetainedFound(root, t) != []
  {
    var f :| f in Fingerprints(RetainedFound(root, t));
  }

  /** No handoff exactly on a missing week; a replay only under branch b, exactly for a file
      written at or after the deadline. */
  lemma {:induction false} BranchTable(root: Root, t: Target, c: Counting)
    ensures var p := Pair(root, t, c);
            && (p.selected.None? <==> p.branch == MissingWeek)
            && (p.detail.Some? <==> p.branch == MissingWeek)
            && (p.replay <==> p.branch == BackendBranch && p.selected.value.writtenAt >= t.deadline)
            && (p.branch != MissingWeek ==> (p.branch == BackendBranch <==> c.counted == 0))
            && (p.branch == BackendBranch ==> p.selected == BackendRule(root, t))
  {
  }

  /** Under branch a the alias is reported only when no retained copy carries the fingerprint. */
  lemma {:induction false} RetainedCopyIsPreferred(root: Root, t: Target, c: Counting)
    requires ValidRoot(root) && Pair(root, t, c).branch == PublishedRecord
    ensures var p := Pair(root, t, c);
            p.selected.value.path == root.aliasFile.path
            <==> !RetainedCarries(root, t, p.selected.value.handoff.fingerprint)
  {
    var wanted := OnlyName(c.named);
    var retained := Carrying(RetainedFound(root, t), wanted);
    var both := Carrying(AllFound(t, FilesOf(root)), wanted);
    FoundSplits(root, t);
    CarryingAppend(AliasFound(root, t), RetainedFound(root, t), wanted);
    CarryingMembers(AliasFound(root, t), wanted);
    CarryingMembers(RetainedFound(root, t), wanted);
    CarryingMembers(AllFound(t, FilesOf(root)), wanted);
    assert both[|both| - 1] in both;
    if retained != [] {
      assert both[|both| - 1] == retained[|retained| - 1];
      assert retained[|retained| - 1] in retained;
    } else {
      assert both == Carrying(AliasFound(root, t), wanted);
    }
  }

  /** The backend rule differs exactly when a matching alias carries another fingerprint, or no
      alias matches and the retained copies carry two or more. */
  lemma {:induction false} DiffersTable(root: Root, t: Target, c: Counting)
    requires ValidRoot(root)
    ensures var p := Pair(root, t, c);
            p.backendDiffers <==>
              && p.branch == PublishedRecord
              && if AliasFound(root, t) != []
                 then AliasFound(root, t)[0].handoff.fingerprint != p.selected.value.handoff.fingerprint
                 else |Fingerprints(RetainedFound(root, t))| >= 2
  {
    var p := Pair(root, t, c);
    if p.branch == PublishedRecord {
      var wanted := OnlyName(c.named);
      FoundSplits(root, t);
      CarryingMembers(AllFound(t, FilesOf(root)), wanted);
      var both := Carrying(AllFound(t, FilesOf(root)), wanted);
      assert both[|both| - 1] in both;
      if AliasFound(root, t) == [] {
        assert p.selected.value in RetainedFound(root, t);
        var names := Fingerprints(RetainedFound(root, t));
        assert wanted in names;
        if |names| == 1 {
          SingletonUnique(names);
          RetainedNotEmpty(root, t);
          assert RetainedFound(root, t)[0] in RetainedFound(root, t);
          assert RetainedFound(root, t)[0].handoff.fingerprint in names;
        }
        assert |names| == 0 ==> names == {};
      }
    }
  }

  lemma {:induction false} CountAppend(t: Target, a: seq<Member>, b: seq<Member>)
    ensures CountRecords(t, a + b)
         == Counting(CountRecords(t, a).counted + CountRecords(t, b).counted, CountRecords(t, a).named + CountRecords(t, b).named)
    decreases |b|
  {
    if b == [] {
      assert a + b == a;
    } else {
      var rest := b[..|b| - 1];
      assert (a + b)[..|a + b| - 1] == a + rest;
      CountAppend(t, a, rest);
    }
  }

  /** A valid record stamped at or after the deadline, wherever it is listed, changes nothing. */
  lemma {:induction false} LateRecordChangesNothing(root: Root, t: Target, before: seq<Member>, late: Member, after: seq<Member>)
    requires LateRecord(t, late)
    ensures CountRecords(t, before + [late] + after) == CountRecords(t, before + after)
    ensures Pair(root, t, CountRecords(t, before + [late] + after)) == Pair(root, t, CountRecords(t, before + after))
    ensures (exists m | m in before + [late] + after :: Refuses(t, m)) <==> (exists m | m in before + after :: Refuses(t, m))
  {
    CountAppend(t, before + [late], after);
    CountAppend(t, before, [late]);
    CountAppend(t, before, after);
    assert CountRecords(t, [late][..0]) == Counting(0, {});
    assert CountRecords(t, [late]) == Counting(0, {});
    assert forall m :: m in before + [late] + after <==> m == late || m in before + after;
  }
}
