/** The records the ledger stores, the errors it throws, and the source of fresh ids. */
module Records {
  import opened Wrappers

  /**
   * A moment as the ledger sees it: the local calendar date (already decomposed)
   * and the instant in milliseconds, which orders timestamps.
   */
  datatype Timestamp = Timestamp(year: int, month: int, day: int, instant: int)

  datatype Customer = Customer(
    id: string,
    name: string,
    phone: Option<string>,
    notes: Option<string>,
    dateAdded: Timestamp)

  /** A sale; `customerId == None` is an anonymous sale (stored as null). */
  datatype Sale = Sale(
    id: string,
    amount: real,
    customerId: Option<string>,
    pointsEarned: int,
    description: string,
    createdAt: Timestamp)

  /** The errors the storage modules throw. */
  datatype Error =
    | AmountNotPositive
    | AmountNotANumber
    | NameRequired
    | CustomerNotFound(id: string)
    | SettingsNotAnObject
    | InvalidPointsPerUnit
    | InvalidRewardThreshold
  {
    /** The message of the thrown `Error`. */
    function Message(): string {
      match this
      case AmountNotPositive => "Amount must be greater than zero"
      case AmountNotANumber => "Amount must be a valid number"
      case NameRequired => "Name is required"
      case CustomerNotFound(id) => "Customer with id " + id + " not found"
      case SettingsNotAnObject => "Settings must be an object"
      case InvalidPointsPerUnit => "pointsPerUnit must be an integer >= 1"
      case InvalidRewardThreshold => "rewardThreshold must be an integer >= 1"
    }
  }

  /** JavaScript truthiness of an optional string: present and not empty. */
  predicate Truthy(s: Option<string>) {
    s.Some? && s.value != ""
  }

  /** The length of the longest id in `ids`. */
  function Longest(ids: seq<string>): (n: nat)
    ensures forall i :: 0 <= i < |ids| ==> |ids[i]| <= n
    ensures ids != [] ==> exists i :: 0 <= i < |ids| && |ids[i]| == n
  {
    if ids == [] then 0
    else
      var rest := Longest(ids[1..]);
      if |ids[0]| > rest then |ids[0]| else rest
  }

  /**
   * An id that no id in `taken` equals. It stands in for the clock-and-random
   * `generateId`; only its freshness matters to the ledger.
   */
  function FreshId(taken: seq<string>): (id: string)
    ensures id != ""
    ensures forall i :: 0 <= i < |taken| ==> taken[i] != id
  {
    seq(Longest(taken) + 1, _ => '_')
  }
}
