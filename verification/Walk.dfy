/** The forbidden-text walk over one published document. */
module Walk {
  import opened Decimals
  import opened Json
  import opened AdviceIndex

  datatype Hit = ForbiddenKey(where: string, key: string) | ForbiddenText(where: string)

  /** What `walk` appends for a node: a hit per forbidden key, a hit per forbidden text. */
  function Hits(env: Env, node: Json, where: string): seq<Hit>
    decreases node, 0
  {
    match node
    case Obj(fields) => FieldHits(env, fields, where)
    case Arr(items) => ItemHits(env, items, where, 0)
    case Str(s) => if env.forbiddenText(s) then [ForbiddenText(where)] else []
    case _ => []
  }

  function FieldHits(env: Env, fields: seq<Entry>, where: string): seq<Hit>
    decreases fields, 1
  {
    if fields == [] then []
    else
      var e := fields[0];
      (if env.forbiddenKey(e.key) then [ForbiddenKey(where, e.key)] else [])
      + Hits(env, e.value, where + "." + e.key)
      + FieldHits(env, fields[1..], where)
  }

  function ItemHits(env: Env, items: seq<Json>, where: string, index: nat): seq<Hit>
    decreases items, 1
  {
    if items == [] then []
    else
      Hits(env, items[0], where + "[" + Decimal(index) + "]")
      + ItemHits(env, items[1..], where, index + 1)
  }

  /** The walk itself: hits are appended to the list it is given. */
  method WalkInto(env: Env, node: Json, where: string, problems: seq<Hit>) returns (r: seq<Hit>)
    ensures r == problems + Hits(env, node, where)
    decreases node, 0
  {
    r := problems;
    match node
    case Obj(fields) => r := WalkFields(env, fields, where, problems);
    case Arr(items) => r := WalkItems(env, items, where, problems);
    case Str(s) =>
      if env.forbiddenText(s) {
        r := r + [ForbiddenText(where)];
      }
    case _ =>
  }

  method WalkFields(env: Env, fields: seq<Entry>, where: string, problems: seq<Hit>) returns (r: seq<Hit>)
    ensures r == problems + FieldHits(env, fields, where)
    decreases fields, 1
  {
    r := problems;
    for i := 0 to |fields|
      invariant r + FieldHits(env, fields[i..], where) == problems + FieldHits(env, fields, where)
    {
      var e := fields[i];
      assert fields[i..][1..] == fields[i + 1..];
      assert e in fields;
      ghost var key := if env.forbiddenKey(e.key) then [ForbiddenKey(where, e.key)] else [];
      ghost var below, rest := Hits(env, e.value, where + "." + e.key), FieldHits(env, fields[i + 1..], where);
      assert ((r + key) + below) + rest == r + (key + below + rest);
      if env.forbiddenKey(e.key) {
        r := r + [ForbiddenKey(where, e.key)];
      }
      r := WalkInto(env, e.value, where + "." + e.key, r);
    }
  }

  method WalkItems(env: Env, items: seq<Json>, where: string, problems: seq<Hit>) returns (r: seq<Hit>)
    ensures r == problems + ItemHits(env, items, where, 0)
    decreases items, 1
  {
    r := problems;
    for i := 0 to |items|
      invariant r + ItemHits(env, items[i..], where, i) == problems + ItemHits(env, items, where, 0)
    {
      assert items[i..][1..] == items[i + 1..];
      ghost var below := Hits(env, items[i], where + "[" + Decimal(i) + "]");
      ghost var rest := ItemHits(env, items[i + 1..], where, i + 1);
      assert (r + below) + rest == r + (below + rest);
      r := WalkInto(env, items[i], where + "[" + Decimal(i) + "]", r);
    }
  }

  /** The node a path of child positions leads to. */
  ghost predicate Reaches(node: Json, path: seq<nat>, target: Json)
    decreases |path|
  {
    if path == [] then node == target
    else match node
      case Obj(fields) => path[0] < |fields| && Reaches(fields[path[0]].value, path[1..], target)
      case Arr(items) => path[0] < |items| && Reaches(items[path[0]], path[1..], target)
      case _ => false
  }

  /** A node that is itself a forbidden text or carries a forbidden key. */
  predicate Offends(env: Env, node: Json) {
    match node
    case Str(s) => env.forbiddenText(s)
    case Obj(fields) => exists e | e in fields :: env.forbiddenKey(e.key)
    case _ => false
  }

  /** No node anywhere in the document offends. */
  ghost predicate CleanThroughout(env: Env, node: Json) {
    forall path, target | Reaches(node, path, target) :: !Offends(env, target)
  }

  lemma {:induction false} HitsOnlyWhereOffends(env: Env, node: Json, where: string)
    requires CleanThroughout(env, node)
    ensures Hits(env, node, where) == []
    decreases node, 1
  {
    assert Reaches(node, [], node);
    match node
    case Obj(fields) =>
      forall i | 0 <= i < |fields|
        ensures !env.forbiddenKey(fields[i].key) && CleanThroughout(env, fields[i].value)
      {
        assert fields[i] in fields;
        forall path, target | Reaches(fields[i].value, path, target)
          ensures !Offends(env, target)
        {
          assert ([i] + path)[1..] == path;
          assert Reaches(node, [i] + path, target);
        }
      }
      NoFieldHits(env, fields, where);
    case Arr(items) =>
      forall i | 0 <= i < |items|
        ensures CleanThroughout(env, items[i])
      {
        forall path, target | Reaches(items[i], path, target)
          ensures !Offends(env, target)
        {
          assert ([i] + path)[1..] == path;
          assert Reaches(node, [i] + path, target);
        }
      }
      NoItemHits(env, items, where, 0);
    case _ =>
  }

  lemma {:induction false} NoFieldHits(env: Env, fields: seq<Entry>, where: string)
    requires forall i | 0 <= i < |fields| ::
               !env.forbiddenKey(fields[i].key) && CleanThroughout(env, fields[i].value)
    ensures FieldHits(env, fields, where) == []
    decreases fields, 2
  {
    if fields != [] {
      HitsOnlyWhereOffends(env, fields[0].value, where + "." + fields[0].key);
      NoFieldHits(env, fields[1..], where);
    }
  }

  lemma {:induction false} NoItemHits(env: Env, items: seq<Json>, where: string, index: nat)
    requires forall i | 0 <= i < |items| :: CleanThroughout(env, items[i])
    ensures ItemHits(env, items, where, index) == []
    decreases items, 2
  {
    if items != [] {
      HitsOnlyWhereOffends(env, items[0], where + "[" + Decimal(index) + "]");
      NoItemHits(env, items[1..], where, index + 1);
    }
  }

  lemma {:induction false} FieldsQuiet(env: Env, fields: seq<Entry>, where: string, i: nat)
    requires i < |fields| && FieldHits(env, fields, where) == []
    ensures !env.forbiddenKey(fields[i].key)
    ensures exists w :: Hits(env, fields[i].value, w) == []
  {
    if i > 0 {
      FieldsQuiet(env, fields[1..], where, i - 1);
    }
  }

  lemma {:induction false} ItemsQuiet(env: Env, items: seq<Json>, where: string, index: nat, i: nat)
    requires i < |items| && ItemHits(env, items, where, index) == []
    ensures exists w :: Hits(env, items[i], w) == []
  {
    if i > 0 {
      ItemsQuiet(env, items[1..], where, index + 1, i - 1);
    }
  }

  lemma {:induction false} QuietMeansClean(env: Env, node: Json, where: string, path: seq<nat>, target: Json)
    requires Hits(env, node, where) == [] && Reaches(node, path, target)
    ensures !Offends(env, target)
    decreases |path|
  {
    match node
    case Obj(fields) =>
      if path == [] {
        forall e | e in fields
          ensures !env.forbiddenKey(e.key)
        {
          var i :| 0 <= i < |fields| && fields[i] == e;
          FieldsQuiet(env, fields, where, i);
        }
      } else {
        FieldsQuiet(env, fields, where, path[0]);
        var w :| Hits(env, fields[path[0]].value, w) == [];
        QuietMeansClean(env, fields[path[0]].value, w, path[1..], target);
      }
    case Arr(items) =>
      if path != [] {
        ItemsQuiet(env, items, where, 0, path[0]);
        var w :| Hits(env, items[path[0]], w) == [];
        QuietMeansClean(env, items[path[0]], w, path[1..], target);
      }
    case _ =>
  }

  /** The walk is silent exactly when no node anywhere in the document offends. */
  lemma SilentExactlyWhenClean(env: Env, node: Json, where: string)
    ensures Hits(env, node, where) == [] <==> CleanThroughout(env, node)
  {
    if CleanThroughout(env, node) {
      HitsOnlyWhereOffends(env, node, where);
    }
    if Hits(env, node, where) == [] {
      forall path, target | Reaches(node, path, target)
        ensures !Offends(env, target)
      {
        QuietMeansClean(env, node, where, path, target);
      }
    }
  }
}
