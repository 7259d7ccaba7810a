/** PHP values as the helpers see them, PHP's empty(), and method lookup by name. */
module Values {
  import opened Wrappers
  import opened Strings

  /**
   * A PHP value. A DateTime is kept as its ISO 8601 text; an object has an
   * identity, a class name and, when it defines __toString, its string form.
   */
  datatype Value =
    | Null
    | Bool(b: bool)
    | Int(i: int)
    | Str(s: string)
    | Date(iso: string)
    | Arr(items: seq<Value>)
    | Obj(id: nat, className: string, asString: Option<string>)

  /** PHP's empty(): null, false, 0, "", "0" and the empty array. */
  predicate IsEmpty(v: Value) {
    match v
    case Null => true
    case Bool(b) => !b
    case Int(i) => i == 0
    case Str(s) => s == "" || s == "0"
    case Arr(items) => items == []
    case Date(_) => false
    case Obj(_, _, _) => false
  }

  /** PHP method names are case-insensitive: ReflectionClass::hasMethod/getMethod compare them lower-cased. */
  predicate HasMethod(methods: set<string>, name: string) {
    exists m | m in methods :: ToLower(m) == ToLower(name)
  }
}
