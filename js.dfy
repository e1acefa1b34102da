/** The JavaScript data the migration script handles: the JSON-like values of
    MongoDB documents, plain objects with insertion-ordered keys, and the
    library helpers it calls (lodash, pluralize, JSON.stringify), which are
    passed in as uninterpreted functions. */
module Js {

  import opened Wrappers

  /** A value read from a MongoDB document or a schema definition. Numbers
      are integers here; `Oid` is a MongoDB ObjectId and `Date` a BSON date. */
  datatype Value =
    | Undefined
    | Null
    | Bool(b: bool)
    | Num(n: int)
    | Str(s: string)
    | Oid(hex: string)
    | Date(ms: int)
    | Arr(items: seq<Value>)
    | Obj(fields: map<string, Value>)

  /** JavaScript truthiness: `undefined`, `null`, `false`, `0` and `''` are
      falsy; every object, array, ObjectId and date is truthy. */
  predicate Truthy(v: Value)
  {
    match v
    case Undefined => false
    case Null => false
    case Bool(b) => b
    case Num(n) => n != 0
    case Str(s) => s != ""
    case _ => true
  }

  /** Truthiness of an optional string property: present and non-empty. */
  predicate TruthyStr(o: Option<string>)
  {
    o.Some? && o.value != ""
  }

  /** The property key a value is converted to when it is used in `obj[k]`:
      `undefined` becomes the key "undefined". */
  function PropertyKey(o: Option<string>): string
  {
    if o.Some? then o.value else "undefined"
  }

  /** `v.name`, for a value read out of an array of sub-documents. Reading a
      property of `null` or `undefined` throws a TypeError (`None`); any
      other value without that property gives `undefined`. */
  function Prop(v: Value, name: string): (r: Option<Value>)
    ensures r.None? <==> v == Undefined || v == Null
    ensures v.Obj? && name in v.fields ==> r == Some(v.fields[name])
  {
    match v
    case Undefined => None
    case Null => None
    case Obj(fields) => Some(if name in fields then fields[name] else Undefined)
    case _ => Some(Undefined)
  }

  /** A plain JavaScript object: `order` is `Object.keys`, insertion order,
      and `vals` holds the property values. */
  datatype Rec<V> = Rec(order: seq<string>, vals: map<string, V>)

  /** Every JavaScript object is well formed: its key list names each of its
      properties exactly once. */
  ghost predicate Wf<V>(r: Rec<V>)
  {
    && (forall k :: k in r.vals <==> k in r.order)
    && Distinct(r.order)
  }

  /** No key is listed twice. */
  predicate Distinct(keys: seq<string>)
  {
    forall i, j :: 0 <= i < j < |keys| ==> keys[i] != keys[j]
  }

  /** A JavaScript object: a record that is well formed. */
  type Object<V> = r: Rec<V> | Wf(r) witness Rec([], map[])

  /** `obj[k]` of an object whose values are plain data. */
  function Get(r: Rec<Value>, k: string): Value
  {
    if k in r.vals then r.vals[k] else Undefined
  }

  /** `obj[k] = v`: a new key is appended to the key order, an existing one
      keeps its place. */
  function Put<V>(r: Object<V>, k: string, v: V): (r': Object<V>)
    ensures r'.vals == r.vals[k := v]
  {
    if k in r.order then Rec(r.order, r.vals[k := v])
    else Rec(r.order + [k], r.vals[k := v])
  }

  /** The key order without `k`. */
  function Without(order: seq<string>, k: string): (o: seq<string>)
    ensures forall x :: x in o <==> x in order && x != k
    ensures Distinct(order) ==> Distinct(o)
  {
    if |order| == 0 then []
    else
      var rest := Without(order[1..], k);
      assert Distinct(order) ==> Distinct(order[1..]) && order[0] !in order[1..];
      if order[0] == k then rest else [order[0]] + rest
  }

  /** `delete obj[k]`. */
  function Delete<V>(r: Object<V>, k: string): (r': Object<V>)
    ensures r'.vals == r.vals - {k}
  {
    Rec(Without(r.order, k), r.vals - {k})
  }

  /** `Object.assign(target, source)`: the properties of `source`, in its key
      order, are written into `target` one by one. */
  function Assign<V>(target: Object<V>, source: Object<V>): (r: Object<V>)
    ensures r.vals == target.vals + source.vals
  {
    var r := AssignKeys(target, source, source.order);
    assert r.vals.Keys == (target.vals + source.vals).Keys;
    r
  }

  /** Writes the properties named by `keys` (all of them present in `source`)
      into `target`, in the order given. */
  function AssignKeys<V>(target: Object<V>, source: Object<V>, keys: seq<string>): (r: Object<V>)
    requires forall k :: k in keys ==> k in source.vals
    ensures forall k :: k in r.vals <==> k in target.vals || k in keys
    ensures forall k :: k in r.vals ==> r.vals[k] == if k in keys then source.vals[k] else target.vals[k]
    decreases |keys|
  {
    if |keys| == 0 then target
    else AssignKeys(Put(target, keys[0], source.vals[keys[0]]), source, keys[1..])
  }

  /** Writing keys an object already has keeps its key order. */
  lemma {:induction false} AssignKeysKeepsOrder<V>(target: Object<V>, source: Object<V>, keys: seq<string>)
    requires forall k :: k in keys ==> k in source.vals && k in target.vals
    ensures AssignKeys(target, source, keys).order == target.order
    decreases |keys|
  {
    if |keys| > 0 {
      AssignKeysKeepsOrder(Put(target, keys[0], source.vals[keys[0]]), source, keys[1..]);
    }
  }

  /** `Object.assign(o, o)` leaves `o` as it was. */
  lemma AssignSelf<V>(o: Object<V>)
    ensures Assign(o, o) == o
  {
    AssignKeysKeepsOrder(o, o, o.order);
  }

  /** The library helpers the script calls. Their behaviour on words
      (Unicode word splitting, English plurals) is not modelled: each is an
      arbitrary function of its argument. */
  datatype Lib = Lib(
    /** `_.upperFirst(_.camelCase(s))` */
    pascalCase: string -> string,
    /** `_.snakeCase(s)` */
    snakeCase: string -> string,
    /** `pluralize.singular(s)` */
    singular: string -> string,
    /** `pluralize.plural(s)`, which may receive `undefined` */
    plural: Option<string> -> string,
    /** `JSON.stringify(v)` */
    stringify: Value -> string,
    /** `v.toString()` of a document's `_id` */
    idString: Value -> string)
}
