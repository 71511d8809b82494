/** The roster of exactly the rows the out-of-fold table scored. */
module OofRoster {
  import opened Outcomes
  import opened Lists
  import opened Sorting
  import opened OofKeys

  datatype PanelRow = PanelRow(key: Key, name: Option<string>, team: int, position: string, priceTenths: int)

  datatype ScoredRow = ScoredRow(key: Key, fold: string)

  datatype RosterRow = RosterRow(key: Key, fold: string, player: PanelRow)

  datatype RosterError = KeysRepeat | Unresolved

  function PanelKeys(panel: seq<PanelRow>): seq<Key> {
    seq(|panel|, i requires 0 <= i < |panel| => panel[i].key)
  }

  function ScoredKeys(scored: seq<ScoredRow>): seq<Key> {
    seq(|scored|, i requires 0 <= i < |scored| => scored[i].key)
  }

  function Lookup(panel: seq<PanelRow>, key: Key): (r: Option<PanelRow>)
    ensures r.Some? ==> r.value in panel && r.value.key == key
    ensures r.None? <==> key !in PanelKeys(panel)
  {
    if panel == [] then None
    else if panel[0].key == key then
      assert PanelKeys(panel)[0] == key;
      Some(panel[0])
    else
      assert PanelKeys(panel) == [panel[0].key] + PanelKeys(panel[1..]);
      Lookup(panel[1..], key)
  }

  /** A row with no panel record, or with a record that has no name. */
  predicate Resolved(panel: seq<PanelRow>, key: Key) {
    Lookup(panel, key).Some? && Lookup(panel, key).value.name.Some?
  }

  function Joined(panel: seq<PanelRow>, scored: seq<ScoredRow>): seq<RosterRow>
    requires forall s | s in scored :: Lookup(panel, s.key).Some?
  {
    seq(|scored|, i requires 0 <= i < |scored| =>
      RosterRow(scored[i].key, scored[i].fold, Lookup(panel, scored[i].key).value))
  }

  function RosterKey(): RosterRow -> Key { (r: RosterRow) => r.key }

  /** `build_decision_roster`: a one-to-one join on the key, refused when a row finds no player. */
  function BuildRoster(panel: seq<PanelRow>, scored: seq<ScoredRow>): Outcome<seq<RosterRow>, RosterError> {
    if !Distinct(ScoredKeys(scored)) || !Distinct(PanelKeys(panel)) then Raised(KeysRepeat)
    else if exists s | s in scored :: !Resolved(panel, s.key) then Raised(Unresolved)
    else Done(Sort(Joined(panel, scored), ByKey(RosterKey())))
  }

  lemma {:induction false} LookupFinds(panel: seq<PanelRow>, row: PanelRow)
    requires Distinct(PanelKeys(panel)) && row in panel
    ensures Lookup(panel, row.key) == Some(row)
  {
    if panel[0] != row {
      var keys := PanelKeys(panel);
      var k :| 0 <= k < |panel| && panel[k] == row;
      assert keys[0] != keys[k];
      assert PanelKeys(panel[1..]) == keys[1..];
      LookupFinds(panel[1..], row);
    }
  }

  /** The roster holds one row for each scored row and nothing else: its key, its fold, and the
      one panel record of that key. */
  lemma RosterIsTheScoredPopulation(panel: seq<PanelRow>, scored: seq<ScoredRow>)
    requires BuildRoster(panel, scored).Done?
    ensures |BuildRoster(panel, scored).value| == |scored|
    ensures forall r :: r in BuildRoster(panel, scored).value
              <==> ScoredRow(r.key, r.fold) in scored && r.player in panel && r.player.key == r.key
    ensures forall r | r in BuildRoster(panel, scored).value :: r.player.name.Some?
    ensures Sorted(BuildRoster(panel, scored).value, ByKey(RosterKey()))
  {
    var joined := Joined(panel, scored);
    SortMembers(joined, ByKey(RosterKey()));
    ByKeyIsTotal(RosterKey());
    SortSorted(joined, ByKey(RosterKey()));
    forall r
      ensures r in joined <==> ScoredRow(r.key, r.fold) in scored && r.player in panel && r.player.key == r.key
    {
      if r in joined {
        var i :| 0 <= i < |scored| && joined[i] == r;
        assert scored[i] in scored;
      }
      if ScoredRow(r.key, r.fold) in scored && r.player in panel && r.player.key == r.key {
        var i :| 0 <= i < |scored| && scored[i] == ScoredRow(r.key, r.fold);
        LookupFinds(panel, r.player);
        assert joined[i] == r;
      }
    }
  }

  /** The join is refused exactly when a key repeats on either side or a scored row has no
      named record in the panel. */
  lemma RosterRefusals(panel: seq<PanelRow>, scored: seq<ScoredRow>)
    ensures BuildRoster(panel, scored) == Raised(KeysRepeat)
       <==> !(Distinct(ScoredKeys(scored)) && Distinct(PanelKeys(panel)))
    ensures Distinct(ScoredKeys(scored)) && Distinct(PanelKeys(panel)) ==>
              (BuildRoster(panel, scored) == Raised(Unresolved) <==>
                 exists s | s in scored :: forall p | p in panel :: p.key == s.key ==> p.name.None?)
  {
    if Distinct(ScoredKeys(scored)) && Distinct(PanelKeys(panel)) {
      forall s | s in scored
        ensures !Resolved(panel, s.key) <==> forall p | p in panel :: p.key == s.key ==> p.name.None?
      {
        if Lookup(panel, s.key).None? {
          forall p | p in panel
            ensures p.key != s.key
          {
            var i :| 0 <= i < |panel| && panel[i] == p;
            assert PanelKeys(panel)[i] == p.key;
          }
        } else {
          forall p | p in panel && p.key == s.key
            ensures Lookup(panel, s.key) == Some(p)
          {
            LookupFinds(panel, p);
          }
        }
      }
    }
  }
}
