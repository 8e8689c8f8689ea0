/** The seven-field duration record that the parser fills in (Foundation's
    DateComponents, restricted to the fields the parser touches). */
module DurationComponents {

  datatype Option<+T> = None | Some(value: T) {
    function GetOr(default: T): T {
      match this
      case Some(v) => v
      case None => default
    }
  }

  /** One optional integer per unit; None means "not set by the input". */
  datatype Components = Components(
    year: Option<int>,
    month: Option<int>,
    day: Option<int>,
    hour: Option<int>,
    minute: Option<int>,
    second: Option<int>,
    nanosecond: Option<int>)

  /** `DateComponents()`: nothing set. */
  const Empty := Components(None, None, None, None, None, None, None)

  /** Names of the fields, so that properties can be stated field by field. */
  datatype Field = Year | Month | Day | Hour | Minute | Second | Nanosecond

  function Get(c: Components, f: Field): Option<int> {
    match f
    case Year => c.year
    case Month => c.month
    case Day => c.day
    case Hour => c.hour
    case Minute => c.minute
    case Second => c.second
    case Nanosecond => c.nanosecond
  }

  const NanosPerSecond: nat := 1_000_000_000

  /** Every field that is present is non-negative, and a present nanosecond
      count is below one second. */
  predicate WellFormed(c: Components) {
    forall f :: Get(c, f).Some? ==>
      0 <= Get(c, f).value && (f == Nanosecond ==> Get(c, f).value < NanosPerSecond)
  }
}
