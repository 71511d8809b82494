/** Python values, the JSON they are written as, and what comes back. Values are taken up to
    Python's `==`, so `True`, `1` and `1.0` are one number. */
module PythonJson {
  import opened Json
  import opened Decimals

  datatype Key = KStr(s: string) | KNum(n: int)

  datatype Value =
    | None_
    | Num(r: real)
    | Infinite_(negative: bool)
    | NaN_
    | Text(s: string)
    | List(items: seq<Value>)
    | Tuple(items: seq<Value>)
    | Dict(entries: map<Key, Value>)

  /** `str(key)`, and the spelling `json.dumps` gives a key. */
  function KeyText(k: Key): string {
    match k
    case KStr(s) => s
    case KNum(n) => Decimal(n)
  }

  /** `sort_keys` compares the keys: texts with texts, or numbers with numbers. */
  predicate UniformKeys(entries: map<Key, Value>) {
    (forall k | k in entries :: k.KStr?) || (forall k | k in entries :: k.KNum?)
  }

  lemma UniformKeysDiffer(entries: map<Key, Value>)
    requires UniformKeys(entries)
    ensures forall a, b | a in entries && b in entries && KeyText(a) == KeyText(b) :: a == b
  {
    forall a, b | a in entries && b in entries && KeyText(a) == KeyText(b)
      ensures a == b
    {
      if a.KNum? && b.KNum? {
        DecimalInjective(a.n, b.n);
      }
    }
  }

  /** Whether `json.dumps(v, sort_keys=True, allow_nan=False)` returns rather than raises. */
  predicate Encodable(v: Value)
    decreases v
  {
    match v
    case Infinite_(_) => false
    case NaN_ => false
    case List(items) => forall i | 0 <= i < |items| :: Encodable(items[i])
    case Tuple(items) => forall i | 0 <= i < |items| :: Encodable(items[i])
    case Dict(entries) => UniformKeys(entries) && forall k | k in entries :: Encodable(entries[k])
    case _ => true
  }

  predicate Distinguishes(keys: set<Key>) {
    forall a, b | a in keys && b in keys && KeyText(a) == KeyText(b) :: a == b
  }

  /** The same entries under the text of their keys. */
  function ByText(entries: map<Key, Val>): (r: map<string, Val>)
    requires Distinguishes(entries.Keys)
    ensures forall k | k in entries :: KeyText(k) in r && r[KeyText(k)] == entries[k]
    ensures forall s | s in r :: exists k | k in entries :: s == KeyText(k)
  {
    map k | k in entries :: KeyText(k) := entries[k]
  }

  /** The same entries under text keys read back. */
  function ByKey(entries: map<string, Value>): (r: map<Key, Value>)
    ensures forall s :: s in entries <==> KStr(s) in r
    ensures forall s | s in entries :: r[KStr(s)] == entries[s]
    ensures forall k | k in r :: k.KStr?
  {
    map s | s in entries :: KStr(s) := entries[s]
  }

  /** What is written: tuples become lists, and number keys become texts. */
  function Encode(v: Value): Val
    requires Encodable(v)
    decreases v
  {
    match v
    case None_ => VNull
    case Num(r) => VNum(r)
    case Text(s) => VStr(s)
    case List(items) => VList(seq(|items|, i requires 0 <= i < |items| => Encode(items[i])))
    case Tuple(items) => VList(seq(|items|, i requires 0 <= i < |items| => Encode(items[i])))
    case Dict(entries) =>
      UniformKeysDiffer(entries);
      VDict(ByText(map k | k in entries :: Encode(entries[k])))
  }

  /** What `json.loads` reads back. */
  function Decode(j: Val): Value
    decreases j
  {
    match j
    case VNull => None_
    case VNum(r) => Num(r)
    case VInfinite(negative) => Infinite_(negative)
    case VNaN => NaN_
    case VStr(s) => Text(s)
    case VList(items) => List(seq(|items|, i requires 0 <= i < |items| => Decode(items[i])))
    case VDict(entries) => Dict(ByKey(map s | s in entries :: Decode(entries[s])))
  }

  /** A value a JSON round trip returns unchanged: no tuple, no number key, nothing non-finite. */
  predicate Stable(v: Value)
    decreases v
  {
    match v
    case Infinite_(_) => false
    case NaN_ => false
    case Tuple(_) => false
    case List(items) => forall i | 0 <= i < |items| :: Stable(items[i])
    case Dict(entries) => forall k | k in entries :: k.KStr? && Stable(entries[k])
    case _ => true
  }

  /** A dictionary is written entry by entry, under the text of each key. */
  lemma EncodedEntries(entries: map<Key, Value>)
    requires Encodable(Dict(entries))
    ensures Encode(Dict(entries)).VDict?
    ensures forall k | k in entries ::
              KeyText(k) in Encode(Dict(entries)).entries && Encode(Dict(entries)).entries[KeyText(k)] == Encode(entries[k])
    ensures forall s | s in Encode(Dict(entries)).entries :: exists k | k in entries :: s == KeyText(k)
  {
    UniformKeysDiffer(entries);
  }

  lemma DecodedEntries(entries: map<string, Val>)
    ensures Decode(VDict(entries)).Dict?
    ensures forall s :: s in entries <==> KStr(s) in Decode(VDict(entries)).entries
    ensures forall s | s in entries :: Decode(VDict(entries)).entries[KStr(s)] == Decode(entries[s])
    ensures forall k | k in Decode(VDict(entries)).entries :: k.KStr?
  {
  }

  lemma SameEntries(a: map<string, Val>, b: map<string, Val>)
    requires forall s :: s in a <==> s in b
    requires forall s | s in a :: a[s] == b[s]
    ensures a == b
  {
  }

  /** Every document that was written can be written again, and reads the same. */
  lemma {:induction false} WrittenTwice(v: Value)
    requires Encodable(v)
    ensures Encodable(Decode(Encode(v))) && Encode(Decode(Encode(v))) == Encode(v)
    ensures Stable(Decode(Encode(v)))
    decreases v
  {
    var j := Encode(v);
    match v
    case List(items) =>
      forall i | 0 <= i < |items| { WrittenTwice(items[i]); }
      assert Encode(Decode(j)).items == j.items;
    case Tuple(items) =>
      forall i | 0 <= i < |items| { WrittenTwice(items[i]); }
      assert Encode(Decode(j)).items == j.items;
    case Dict(entries) =>
      forall k | k in entries { WrittenTwice(entries[k]); }
      EncodedEntries(entries);
      DecodedEntries(j.entries);
      var back := Decode(j).entries;
      forall s | s in j.entries
        ensures Encodable(back[KStr(s)]) && Stable(back[KStr(s)]) && Encode(back[KStr(s)]) == j.entries[s]
      {
        var k :| k in entries && s == KeyText(k);
      }
      assert Encodable(Dict(back)) && Stable(Dict(back));
      EncodedEntries(back);
      SameEntries(Encode(Dict(back)).entries, j.entries);
    case _ =>
  }

  lemma StableEntriesReturn(entries: map<Key, Value>)
    requires Encodable(Dict(entries))
    requires forall k | k in entries :: k.KStr? && Decode(Encode(entries[k])) == entries[k]
    ensures Decode(Encode(Dict(entries))) == Dict(entries)
  {
    EncodedEntries(entries);
    var j := Encode(Dict(entries)).entries;
    DecodedEntries(j);
    TextKeysReturn(entries, j, Decode(VDict(j)).entries);
  }

  lemma TextKeysReturn(entries: map<Key, Value>, j: map<string, Val>, back: map<Key, Value>)
    requires forall k | k in entries :: k.KStr? && KeyText(k) in j && Decode(j[KeyText(k)]) == entries[k]
    requires forall s | s in j :: exists k | k in entries :: s == KeyText(k)
    requires forall s :: s in j <==> KStr(s) in back
    requires forall s | s in j :: back[KStr(s)] == Decode(j[s])
    requires forall k | k in back :: k.KStr?
    ensures back == entries
  {
    forall k | k in back
      ensures k in entries
    {
      assert k.s in j;
    }
    forall k | k in entries
      ensures k in back && back[k] == entries[k]
    {
      assert KStr(KeyText(k)) == k;
    }
  }

  lemma {:induction false} StableReturns(v: Value)
    requires Stable(v)
    ensures Encodable(v) && Decode(Encode(v)) == v
    decreases v
  {
    match v
    case List(items) =>
      forall i | 0 <= i < |items| { StableReturns(items[i]); }
      assert Decode(Encode(v)).items == items;
    case Dict(entries) =>
      forall k | k in entries { StableReturns(entries[k]); }
      StableEntriesReturn(entries);
    case _ =>
  }

  /** A value survives being written and read exactly when it is stable. */
  lemma RoundTripsExactlyWhenStable(v: Value)
    ensures Encodable(v) && Decode(Encode(v)) == v <==> Stable(v)
  {
    if Stable(v) {
      StableReturns(v);
    } else if Encodable(v) {
      WrittenTwice(v);
    }
  }

  /* ---------- jsonable ---------- */

  /** What a run's configuration is built from. A dataclass is its fields under their names; a
      set is the list its iteration gives; `Plain` is any value that is none of the others. */
  datatype Object =
    | Dataclass(pairs: seq<Pair>)
    | Enumeration(value: Object)
    | Mapping(pairs: seq<Pair>)
    | Collection(items: seq<Object>)
    | FilePath(text: string)
    | Plain(plain: Value)

  datatype Pair = Pair(key: Key, item: Object)

  /** The dictionary of some pairs; a later key overwrites an earlier one of the same text. */
  function Named(pairs: seq<Pair>): map<Key, Value>
    decreases pairs
  {
    if pairs == [] then map[]
    else
      assert pairs[0].item < pairs[0];
      map[KStr(KeyText(pairs[0].key)) := Jsonable(pairs[0].item)] + Named(pairs[1..])
  }

  /** `jsonable`: the JSON-shaped copy. */
  function Jsonable(o: Object): Value
    decreases o
  {
    match o
    case Dataclass(pairs) => Dict(Named(pairs))
    case Enumeration(value) => Jsonable(value)
    case Mapping(pairs) => Dict(Named(pairs))
    case Collection(items) => List(seq(|items|, i requires 0 <= i < |items| => Jsonable(items[i])))
    case FilePath(text) => Text(text)
    case Plain(plain) => plain
  }

  /** Every plain leaf is a finite scalar. */
  predicate ScalarLeaves(o: Object)
    decreases o
  {
    match o
    case Dataclass(pairs) => forall i | 0 <= i < |pairs| :: ScalarLeaves(pairs[i].item)
    case Enumeration(value) => ScalarLeaves(value)
    case Mapping(pairs) => forall i | 0 <= i < |pairs| :: ScalarLeaves(pairs[i].item)
    case Collection(items) => forall i | 0 <= i < |items| :: ScalarLeaves(items[i])
    case FilePath(_) => true
    case Plain(plain) => plain.None_? || plain.Num? || plain.Text?
  }

  lemma {:induction false} NamedIsStable(pairs: seq<Pair>)
    requires forall i | 0 <= i < |pairs| :: ScalarLeaves(pairs[i].item)
    ensures forall k | k in Named(pairs) :: k.KStr? && Stable(Named(pairs)[k])
    decreases pairs
  {
    if pairs != [] {
      NamedIsStable(pairs[1..]);
      assert pairs[0].item < pairs[0];
      JsonableIsStable(pairs[0].item);
    }
  }

  /** Whatever containers a configuration nests, its JSON-shaped copy survives a round trip. */
  lemma {:induction false} JsonableIsStable(o: Object)
    requires ScalarLeaves(o)
    ensures Stable(Jsonable(o))
    decreases o
  {
    match o
    case Dataclass(pairs) => NamedIsStable(pairs);
    case Enumeration(value) => JsonableIsStable(value);
    case Mapping(pairs) => NamedIsStable(pairs);
    case Collection(items) =>
      forall i | 0 <= i < |items| { JsonableIsStable(items[i]); }
    case _ =>
  }
}
