/** JSON values as the console holds them after `JSON.parse`, with the
    JavaScript notions of truthiness and key count that its guards use. */
module Json {
  import opened Wrappers

  /** A JSON value. Numbers are integers: the console never computes with
      them, it only stores and compares them. */
  datatype Json =
    | Null
    | Bool(b: bool)
    | Num(n: int)
    | Str(s: string)
    | Arr(items: seq<Json>)
    | Obj(fields: map<string, Json>)

  /** JavaScript truthiness: `null`, `false`, `0` and `""` are falsy; every
      array and object, even an empty one, is truthy. */
  predicate Truthy(j: Json) {
    match j
    case Null => false
    case Bool(b) => b
    case Num(n) => n != 0
    case Str(s) => s != ""
    case Arr(_) => true
    case Obj(_) => true
  }

  /** `Object.keys(j).length`: the fields of an object, the indices of an
      array or of a string, and nothing for the other values. */
  function KeyCount(j: Json): nat {
    match j
    case Obj(m) => |m|
    case Arr(xs) => |xs|
    case Str(s) => |s|
    case _ => 0
  }

  /** `j && Object.keys(j).length > 0`. */
  predicate HasEntries(j: Json) {
    Truthy(j) && KeyCount(j) > 0
  }

  /** `{}` */
  const EmptyObject: Json := Obj(map[])

  /** Reading `o[key]`; `None` stands for `undefined`. */
  function Field(o: map<string, Json>, key: string): Option<Json> {
    if key in o then Some(o[key]) else None
  }

  /** `o[key]` is truthy (an `undefined` field is falsy). */
  predicate TruthyField(o: map<string, Json>, key: string) {
    key in o && Truthy(o[key])
  }

  /** Property read `j.key` on a value that is not `null`: only an object has
      own fields here (arrays, strings, numbers and booleans give `undefined`
      for the keys the console reads). */
  function Property(j: Json, key: string): Option<Json> {
    match j
    case Obj(m) => Field(m, key)
    case _ => None
  }

  /** The properties every plain object inherits from `Object.prototype`.
      Reading one on an object without such an own key gives a function
      (or, for `__proto__`, the prototype itself), which is truthy. */
  const InheritedNames: set<string> := {
    "constructor", "hasOwnProperty", "isPrototypeOf", "propertyIsEnumerable",
    "toLocaleString", "toString", "valueOf", "__proto__",
    "__defineGetter__", "__defineSetter__", "__lookupGetter__", "__lookupSetter__"}

  /** `o[key]` is truthy, counting what an object inherits: an own field
      decides by its value, and an inherited name is always taken. */
  predicate TruthyLookup(o: map<string, Json>, key: string) {
    if key in o then Truthy(o[key]) else key in InheritedNames
  }

  /** A selection variable (`currentPluginId`, `currentAppId`, ...) is
      truthy: set, and not the empty string. */
  predicate Selected(id: Option<string>) {
    id.Some? && id.value != ""
  }

  /** A value has entries exactly when it is a non-empty object, array or
      string: the form the configured-app filter relies on. */
  lemma HasEntriesCases(j: Json)
    ensures HasEntries(j) <==>
      (j.Obj? && |j.fields| > 0) || (j.Arr? && |j.items| > 0) || (j.Str? && |j.s| > 0)
  {
  }
}
