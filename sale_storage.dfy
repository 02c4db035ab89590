/** The sale ledger: validating an amount, stamping points, appending to the stored list. */
module SaleStorage {
  import opened Wrappers
  import opened Records
  import opened Storage

  /** Currency units that earn one loyalty point; a constant, not read from the settings. */
  const PointsPerCurrencyUnit: int := 1000

  /**
   * The `amount` argument as JavaScript sees it. For a string, `coerced` is `Number(s)`
   * (what `amount <= 0` compares) and `parsed` is `parseFloat(s)`; `None` stands for NaN.
   * The empty string is `Text(Some(0.0), None)`.
   */
  datatype AmountArg =
    | Missing
    | Number(n: real)
    | NaN
    | Text(coerced: Option<real>, parsed: Option<real>)

  /** The first guard, `!amount || amount <= 0`. */
  predicate NotPositive(a: AmountArg) {
    match a
    case Missing => true
    case NaN => true
    case Number(n) => n <= 0.0
    case Text(coerced, _) => coerced.Some? && coerced.value <= 0.0
  }

  /** `parseFloat(amount)`, with `None` for NaN. */
  function ParseFloat(a: AmountArg): Option<real> {
    match a
    case Number(n) => Some(n)
    case Text(_, parsed) => parsed
    case _ => None
  }

  /** The two amount checks exactly as written: the guard on the raw value, then the NaN test. */
  function CheckAmountAsWritten(a: AmountArg): (r: Result<real, Error>)
    ensures NotPositive(a) ==> r == Err(AmountNotPositive)
    ensures !NotPositive(a) && ParseFloat(a).None? ==> r == Err(AmountNotANumber)
    ensures r.Ok? <==> !NotPositive(a) && ParseFloat(a).Some?
    ensures r.Ok? ==> ParseFloat(a) == Some(r.value)
  {
    if NotPositive(a) then Err(AmountNotPositive)
    else if ParseFloat(a).None? then Err(AmountNotANumber)
    else Ok(ParseFloat(a).value)
  }

  /**
   * The amount checks with the positivity test also applied to the parsed number, so
   * that every accepted amount is positive. It agrees with the checks as written on
   * every input they reject and on every input whose parsed amount is positive.
   */
  function CheckAmount(a: AmountArg): (r: Result<real, Error>)
    ensures r.Ok? ==> r.value > 0.0
    ensures CheckAmountAsWritten(a).Err? ==> r == CheckAmountAsWritten(a)
    ensures CheckAmountAsWritten(a).Ok? && CheckAmountAsWritten(a).value > 0.0 ==> r == CheckAmountAsWritten(a)
    ensures CheckAmountAsWritten(a).Ok? && CheckAmountAsWritten(a).value <= 0.0 ==> r == Err(AmountNotPositive)
  {
    match CheckAmountAsWritten(a)
    case Err(e) => Err(e)
    case Ok(x) => if x <= 0.0 then Err(AmountNotPositive) else Ok(x)
  }

  /** Points for a sale: `floor(amount / 1000)` when a customer is linked, otherwise 0. */
  function PointsFor(customerId: Option<string>, amount: real): (p: int)
    ensures !Truthy(customerId) ==> p == 0
    ensures Truthy(customerId) ==>
      (p * PointsPerCurrencyUnit) as real <= amount < ((p + 1) * PointsPerCurrencyUnit) as real
    ensures amount >= 0.0 ==> p >= 0
  {
    if Truthy(customerId) then (amount / PointsPerCurrencyUnit as real).Floor else 0
  }

  /** The floor rule on the amounts the sale tests use. */
  lemma PointsExamples()
    ensures PointsFor(Some("c"), 5500.0) == 5
    ensures PointsFor(Some("c"), 999.0) == 0
    ensures PointsFor(Some("c"), 1000.0) == 1
    ensures PointsFor(Some("c"), 5250.75) == 5
    ensures PointsFor(None, 5000.0) == 0
    ensures PointsFor(Some(""), 5000.0) == 0
  {
  }

  /** A linked sale of a whole number of thousands earns exactly that many points. */
  lemma PointsForThousands(id: string, k: nat)
    requires id != ""
    ensures PointsFor(Some(id), (k * PointsPerCurrencyUnit) as real) == k
  {
    var p := PointsFor(Some(id), (k * PointsPerCurrencyUnit) as real);
    assert p * PointsPerCurrencyUnit <= k * PointsPerCurrencyUnit < (p + 1) * PointsPerCurrencyUnit;
  }

  /** The record a validated sale is stored as. */
  function BuildSale(numericAmount: real, customerId: Option<string>, description: Option<string>,
                     id: string, now: Timestamp): Sale
  {
    Sale(
      id := id,
      amount := numericAmount,
      customerId := if Truthy(customerId) then customerId else None,
      pointsEarned := PointsFor(customerId, numericAmount),
      description := description.GetOr(""),
      createdAt := now)
  }

  /**
   * The sale `addSale` builds from its arguments, a fresh id and the current time, or the
   * error it throws, with the amount checks as written. A numeric amount is always positive
   * once accepted; a text amount is accepted with whatever `parseFloat` reads from it.
   */
  function NewSale(amount: AmountArg, customerId: Option<string>, description: Option<string>,
                   id: string, now: Timestamp): (r: Result<Sale, Error>)
    ensures NotPositive(amount) ==> r == Err(AmountNotPositive)
    ensures !NotPositive(amount) && ParseFloat(amount).None? ==> r == Err(AmountNotANumber)
    ensures r.Ok? <==> !NotPositive(amount) && ParseFloat(amount).Some?
    ensures r.Ok? ==>
      && ParseFloat(amount) == Some(r.value.amount)
      && r.value.pointsEarned == PointsFor(customerId, r.value.amount)
      && r.value.customerId == (if Truthy(customerId) then customerId else None)
      && r.value.description == description.GetOr("")
      && r.value.id == id
      && r.value.createdAt == now
    ensures r.Ok? && amount.Number? ==> r.value.amount > 0.0 && r.value.pointsEarned >= 0
    ensures r.Ok? && r.value.amount > 0.0 ==> r.value.pointsEarned >= 0
  {
    match CheckAmountAsWritten(amount)
    case Err(e) => Err(e)
    case Ok(numericAmount) => Ok(BuildSale(numericAmount, customerId, description, id, now))
  }

  /**
   * A string whose `Number()` is NaN but whose `parseFloat` is -5 ("-5abc") is stored as a
   * sale of -5 earning -1 points, and one whose `Number()` is 16 but whose `parseFloat` is 0
   * ("0x10") as a sale of 0. The corrected check rejects both.
   */
  lemma NegativeTextAmountAccepted(id: string, now: Timestamp)
    ensures CheckAmountAsWritten(Text(None, Some(-5.0))) == Ok(-5.0)
    ensures NewSale(Text(None, Some(-5.0)), Some("c"), None, id, now).Ok?
    ensures NewSale(Text(None, Some(-5.0)), Some("c"), None, id, now).value.amount == -5.0
    ensures NewSale(Text(None, Some(-5.0)), Some("c"), None, id, now).value.pointsEarned == -1
    ensures NewSale(Text(Some(16.0), Some(0.0)), Some("c"), None, id, now).Ok?
    ensures NewSale(Text(Some(16.0), Some(0.0)), Some("c"), None, id, now).value.amount == 0.0
    ensures CheckAmount(Text(None, Some(-5.0))) == Err(AmountNotPositive)
    ensures CheckAmount(Text(Some(16.0), Some(0.0))) == Err(AmountNotPositive)
  {
  }

  /**
   * `NewSale` with the corrected amount check: every accepted sale has a positive amount
   * and non-negative points, and it agrees with `NewSale` except where `NewSale` accepts a
   * non-positive parsed amount.
   */
  function NewSaleChecked(amount: AmountArg, customerId: Option<string>, description: Option<string>,
                          id: string, now: Timestamp): (r: Result<Sale, Error>)
    ensures r.Ok? <==> !NotPositive(amount) && ParseFloat(amount).Some? && ParseFloat(amount).value > 0.0
    ensures r.Ok? ==> r.value.amount > 0.0 && r.value.pointsEarned >= 0
    ensures NewSale(amount, customerId, description, id, now).Err? ==>
      r == NewSale(amount, customerId, description, id, now)
    ensures NewSale(amount, customerId, description, id, now).Ok? &&
            NewSale(amount, customerId, description, id, now).value.amount > 0.0 ==>
      r == NewSale(amount, customerId, description, id, now)
    ensures NewSale(amount, customerId, description, id, now).Ok? &&
            NewSale(amount, customerId, description, id, now).value.amount <= 0.0 ==>
      r == Err(AmountNotPositive)
  {
    match CheckAmount(amount)
    case Err(e) => Err(e)
    case Ok(numericAmount) => Ok(BuildSale(numericAmount, customerId, description, id, now))
  }

  /** `getSales`: the stored list, or the empty list when nothing is stored. */
  function GetSales(stored: Option<seq<Sale>>): (r: seq<Sale>)
    ensures stored == None ==> r == []
    ensures stored.Some? ==> r == stored.value
  {
    stored.GetOr([])
  }

  function SaleIds(sales: seq<Sale>): (ids: seq<string>)
    ensures |ids| == |sales| && forall i :: 0 <= i < |sales| ==> ids[i] == sales[i].id
  {
    seq(|sales|, i requires 0 <= i < |sales| => sales[i].id)
  }

  /**
   * `addSale`: on success the stored list gains exactly the returned sale at its end;
   * on an error nothing is written. No other key is touched.
   */
  method AddSale(store: Store, amount: AmountArg, customerId: Option<string>,
                 description: Option<string>, now: Timestamp) returns (r: Result<Sale, Error>)
    modifies store`salesKey
    ensures r == NewSale(amount, customerId, description, FreshId(SaleIds(GetSales(old(store.salesKey)))), now)
    ensures r.Err? ==> store.salesKey == old(store.salesKey)
    ensures r.Ok? ==> GetSales(store.salesKey) == GetSales(old(store.salesKey)) + [r.value]
    ensures r.Ok? ==> forall i :: 0 <= i < |GetSales(old(store.salesKey))| ==>
      GetSales(old(store.salesKey))[i].id != r.value.id
    ensures store.customersKey == old(store.customersKey) && store.settingsKey == old(store.settingsKey)
  {
    var sales := GetSales(store.salesKey);
    r := NewSale(amount, customerId, description, FreshId(SaleIds(sales)), now);
    if r.Ok? {
      store.salesKey := Some(sales + [r.value]);
    }
  }

  /**
   * `addSale` behind the corrected amount check: an amount whose parsed value is not
   * positive is rejected before anything is written, so every stored sale it adds has
   * a positive amount and non-negative points.
   */
  method AddSaleChecked(store: Store, amount: AmountArg, customerId: Option<string>,
                        description: Option<string>, now: Timestamp) returns (r: Result<Sale, Error>)
    modifies store`salesKey
    ensures r == NewSaleChecked(amount, customerId, description, FreshId(SaleIds(GetSales(old(store.salesKey)))), now)
    ensures r.Err? ==> store.salesKey == old(store.salesKey)
    ensures r.Ok? ==> GetSales(store.salesKey) == GetSales(old(store.salesKey)) + [r.value]
    ensures r.Ok? ==> r.value.amount > 0.0 && r.value.pointsEarned >= 0
    ensures store.customersKey == old(store.customersKey) && store.settingsKey == old(store.settingsKey)
  {
    var checked := CheckAmount(amount);
    if checked.Err? {
      return Err(checked.error);
    }
    r := AddSale(store, amount, customerId, description, now);
  }
}
