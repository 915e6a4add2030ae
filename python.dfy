/**
 * The few Python values the loaders and the splitter pass around: optional
 * arguments, raised exceptions, LangChain documents and the keyword-argument
 * dictionaries handed to library constructors.
 */
module Python {

  /** An optional argument: Python's `None` or a value. */
  datatype Option<+T> = None | Some(value: T)

  /** The outcome of a Python call: the value it returned or the exception it raised. */
  datatype Outcome<+T> = Returned(value: T) | Raised(error: string)

  /** A LangChain `Document`: page content plus string metadata. */
  datatype Document = Document(pageContent: string, metadata: map<string, string>)

  /** A reference to a caller-supplied callable, such as a JSON `metadata_func`. */
  datatype FuncRef = FuncRef(name: string)

  /** A value that can stand in a keyword-argument dictionary. */
  datatype Value =
    | NoneValue
    | Bool(b: bool)
    | Int(i: int)
    | Str(s: string)
    | Dict(entries: map<string, string>)
    | Callable(f: FuncRef)
    | Object(description: string)

  /** A keyword-argument dictionary (`kargs` in the source). */
  type Options = map<string, Value>

  /** Python truthiness of an `Optional[str]`: neither `None` nor the empty string. */
  predicate StrTruthy(o: Option<string>) {
    o.Some? && o.value != ""
  }

  /** Python truthiness of an `Optional[int]`: neither `None` nor zero. */
  predicate IntTruthy(o: Option<int>) {
    o.Some? && o.value != 0
  }

  /** Python truthiness of an `Optional[bool]`: only `True`. */
  predicate BoolTruthy(o: Option<bool>) {
    o == Some(true)
  }

  /** An `Optional[str]` as the value a keyword argument receives. */
  function OptStr(o: Option<string>): Value {
    match o
    case None => NoneValue
    case Some(s) => Str(s)
  }

  /** An `Optional[dict]` as the value a keyword argument receives. */
  function OptDict(o: Option<map<string, string>>): Value {
    match o
    case None => NoneValue
    case Some(d) => Dict(d)
  }
}
