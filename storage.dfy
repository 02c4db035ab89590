/** The browser storage the ledger persists to: one slot per storage key. */
module Storage {
  import opened Wrappers
  import opened Records

  /** A stored settings field after parsing: an integer, or anything else (a fraction, a string, null, absent). */
  datatype Val = IntVal(n: int) | NonInt

  /** What the settings key holds. */
  datatype StoredSettings =
    | Missing
    | Unparseable
    | Parsed(pointsPerUnit: Val, rewardThreshold: Val, updatedAt: Option<string>)

  /**
   * localStorage, restricted to the three keys the ledger uses. `None` / `Missing`
   * means that nothing is stored under the key.
   */
  class Store {
    var customersKey: Option<seq<Customer>>
    var salesKey: Option<seq<Sale>>
    var settingsKey: StoredSettings

    constructor ()
      ensures customersKey == None && salesKey == None && settingsKey == Missing
    {
      customersKey := None;
      salesKey := None;
      settingsKey := Missing;
    }
  }
}
