/** The Python values the step's options can hold, as far as the step looks at them. */
module PyValues {

  /** One item of a dict: its key and the `str.format` rendering of its value. */
  type Pair = (string, string)

  datatype PyValue =
    | NoneValue
      /** A `dict`, with its items in the dict's own iteration order. */
    | Dict(entries: seq<Pair>)
      /** Any other object, one without an `items` method: the text `str.format` gives for
          it, and its truth value. */
    | Other(shown: string, truthy: bool)

  /** Python truthiness (`if value:`): `None` and the empty dict are false. */
  predicate Truthy(v: PyValue)
  {
    match v
    case NoneValue => false
    case Dict(entries) => |entries| > 0
    case Other(_, truthy) => truthy
  }

  /** The keys of a dict are pairwise distinct. */
  predicate DistinctKeys(s: seq<Pair>)
  {
    forall i, j :: 0 <= i < j < |s| ==> s[i].0 != s[j].0
  }
}
