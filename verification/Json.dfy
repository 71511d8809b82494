/** JSON documents as Python reads them: `json.loads`, `dict.get`, `==`, `in`, truth values. */
module Json {
  import opened Outcomes
  import opened Decimals

  /** A parsed document. An object keeps the order its keys were written in. */
  datatype Json =
    | Null
    | Bool(b: bool)
    | Int(n: int)
    | Dec(r: real)
    | Infinite(negative: bool)
    | NaN
    | Str(s: string)
    | Arr(items: seq<Json>)
    | Obj(fields: seq<Entry>)

  datatype Entry = Entry(key: string, value: Json)

  /** The exceptions the readers of a document can raise. */
  datatype PyError = KeyError | TypeError | AttributeError | ArithmeticError | ReadError

  /** A value up to Python's `==`: `True`, `1` and `1.0` are one number, and the order of an
      object's keys does not count. */
  datatype Val =
    | VNull
    | VNum(r: real)
    | VInfinite(negative: bool)
    | VNaN
    | VStr(s: string)
    | VList(items: seq<Val>)
    | VDict(entries: map<string, Val>)

  function Canon(j: Json): Val
    decreases j
  {
    match j
    case Null => VNull
    case Bool(b) => VNum(if b then 1.0 else 0.0)
    case Int(n) => VNum(n as real)
    case Dec(r) => VNum(r)
    case Infinite(negative) => VInfinite(negative)
    case NaN => VNaN
    case Str(s) => VStr(s)
    case Arr(items) => VList(seq(|items|, i requires 0 <= i < |items| => Canon(items[i])))
    case Obj(fields) => VDict(CanonFields(fields))
  }

  function CanonFields(fields: seq<Entry>): map<string, Val>
    decreases fields
  {
    if fields == [] then map[] else CanonFields(fields[1..])[fields[0].key := Canon(fields[0].value)]
  }

  /** `a == b` */
  predicate PyEq(a: Json, b: Json) {
    !a.NaN? && Canon(a) == Canon(b)
  }

  predicate HasField(fields: seq<Entry>, key: string) {
    fields != [] && (fields[0].key == key || HasField(fields[1..], key))
  }

  /** `fields.get(key)`, where an absent key reads as null. */
  function Field(fields: seq<Entry>, key: string): Json {
    if fields == [] then Null
    else if fields[0].key == key then fields[0].value
    else Field(fields[1..], key)
  }

  /** `j.get(key)` on an object; null on anything else (the callers test `isinstance` first). */
  function At(j: Json, key: string): Json {
    if j.Obj? then Field(j.fields, key) else Null
  }

  predicate Has(j: Json, key: string) {
    j.Obj? && HasField(j.fields, key)
  }

  /** `j.get(key)` with nothing tested before it. */
  function Get(j: Json, key: string): Outcome<Json, PyError> {
    if j.Obj? then Done(Field(j.fields, key)) else Raised(AttributeError)
  }

  /** `j[key]` */
  function Subscript(j: Json, key: string): Outcome<Json, PyError> {
    if !j.Obj? then Raised(TypeError)
    else if HasField(j.fields, key) then Done(Field(j.fields, key))
    else Raised(KeyError)
  }

  function KeysOf(fields: seq<Entry>): seq<string> {
    seq(|fields|, i requires 0 <= i < |fields| => fields[i].key)
  }

  function Strings(texts: seq<string>): seq<Json> {
    seq(|texts|, i requires 0 <= i < |texts| => Str(texts[i]))
  }

  /** `for item in j` */
  function Iterate(j: Json): Outcome<seq<Json>, PyError> {
    match j
    case Arr(items) => Done(items)
    case Obj(fields) => Done(Strings(KeysOf(fields)))
    case Str(s) => Done(seq(|s|, i requires 0 <= i < |s| => Str([s[i]])))
    case _ => Raised(TypeError)
  }

  /** `len(j)` */
  function Length(j: Json): Outcome<nat, PyError> {
    match j
    case Arr(items) => Done(|items|)
    case Obj(fields) => Done(|fields|)
    case Str(s) => Done(|s|)
    case _ => Raised(TypeError)
  }

  /** `bool(j)` */
  predicate Truthy(j: Json) {
    match j
    case Null => false
    case Bool(b) => b
    case Int(n) => n != 0
    case Dec(r) => r != 0.0
    case Infinite(_) => true
    case NaN => true
    case Str(s) => s != ""
    case Arr(items) => items != []
    case Obj(fields) => fields != []
  }

  /** Whether `{j}` can be built: a list or an object cannot be hashed. */
  predicate Hashable(j: Json) {
    !j.Arr? && !j.Obj?
  }

  /** `isinstance(j, (int, float))`; a Python bool is an int. */
  predicate NumberOrBool(j: Json) {
    j.Bool? || j.Int? || j.Dec? || j.Infinite? || j.NaN?
  }

  predicate Number(j: Json) {
    NumberOrBool(j) && !j.Bool?
  }

  /** The exact value of a number that has one. */
  function Exact(j: Json): real {
    match j
    case Bool(b) => if b then 1.0 else 0.0
    case Int(n) => n as real
    case Dec(r) => r
    case _ => 0.0
  }

  /** `a < b` on numbers; every comparison with NaN is false. */
  predicate Less(a: Json, b: Json) {
    if a.NaN? || b.NaN? then false
    else if a.Infinite? then a.negative && !(b.Infinite? && b.negative)
    else if b.Infinite? then !b.negative
    else Exact(a) < Exact(b)
  }

  lemma {:induction false} CanonFieldsAgree(fields: seq<Entry>)
    ensures forall key :: key in CanonFields(fields) <==> HasField(fields, key)
    ensures forall key | HasField(fields, key) :: CanonFields(fields)[key] == Canon(Field(fields, key))
    ensures forall key :: HasField(fields, key) <==> key in KeysOf(fields)
    ensures forall key | !HasField(fields, key) :: Field(fields, key) == Null
  {
    if fields != [] {
      CanonFieldsAgree(fields[1..]);
      assert KeysOf(fields) == [fields[0].key] + KeysOf(fields[1..]);
    }
  }

  /** Lists equal up to `==` are equal item by item. */
  lemma CanonArr(a: seq<Json>, b: seq<Json>)
    ensures Canon(Arr(a)) == Canon(Arr(b)) <==> |a| == |b| && forall i | 0 <= i < |a| :: Canon(a[i]) == Canon(b[i])
  {
    var x, y := Canon(Arr(a)).items, Canon(Arr(b)).items;
    if |a| == |b| && forall i | 0 <= i < |a| :: Canon(a[i]) == Canon(b[i]) {
      assert x == y;
    }
    if x == y {
      forall i | 0 <= i < |a|
        ensures Canon(a[i]) == Canon(b[i])
      {
        assert x[i] == Canon(a[i]) && y[i] == Canon(b[i]);
      }
    }
  }

  /** Objects with the same keys and equal values are equal, in whatever order they are written. */
  lemma CanonObj(a: seq<Entry>, b: seq<Entry>)
    requires (set key | key in KeysOf(a)) == (set key | key in KeysOf(b))
    requires forall key | key in KeysOf(a) :: Canon(Field(a, key)) == Canon(Field(b, key))
    ensures Canon(Obj(a)) == Canon(Obj(b))
  {
    CanonFieldsAgree(a);
    CanonFieldsAgree(b);
    var keysA, keysB := set key | key in KeysOf(a), set key | key in KeysOf(b);
    assert forall key :: key in keysA <==> key in keysB;
    assert CanonFields(a).Keys == keysA;
    assert CanonFields(b).Keys == keysB;
    assert CanonFields(a) == CanonFields(b);
  }
}
