/**
 * The runtime view of one intercepted call, as the lock-name converter sees it through the
 * AspectJ join point: the parameter names and argument values.
 */
module CallContext {
  import opened Results

  /**
   * An argument value: `null`; a value with a string form and no declared fields that the
   * converter can read (a boxed primitive or a `String`); or an object with the outcome of its
   * `toString()` and its declared fields. An object's `toString` is None when its `toString()` throws
   * or returns null. `servlet` marks an `HttpServletRequest` or `HttpServletResponse`.
   */
  datatype Value =
    | Null
    | Prim(text: string)
    | Obj(toString: Option<string>, fields: map<string, Value>, servlet: bool)

  /** One parameter of the intercepted method: its name and the argument passed. */
  datatype Arg = Arg(name: string, value: Value)

  /**
   * `String.valueOf(o)`: "null" for null, the string form otherwise. None when the object's
   * `toString()` throws, or returns null (which the `replace` it is passed to then rejects).
   */
  function ValueOf(v: Value): (s: Option<string>)
    ensures v.Null? ==> s == Some("null")
    ensures v.Prim? ==> s == Some(v.text)
    ensures v.Obj? && v.toString.Some? ==> s == v.toString
    ensures s.None? <==> v.Obj? && v.toString.None?
  {
    match v
    case Null => Some("null")
    case Prim(text) => Some(text)
    case Obj(toString, _, _) => toString
  }

  /** Request and response arguments take no part in name binding (`instanceof` is false for null). */
  predicate Excluded(a: Arg) {
    a.value.Obj? && a.value.servlet
  }
}
