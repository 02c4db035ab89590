/** The customer ledger: add, list, update and delete over the stored, ordered list. */
module CustomerStorage {
  import opened Wrappers
  import opened Records
  import opened Storage

  /**
   * The `updates` object of `updateCustomer`: each field is `Some` when the object
   * has that property, and then it replaces the stored value, whatever the field.
   */
  datatype CustomerPatch = CustomerPatch(
    id: Option<string>,
    name: Option<string>,
    phone: Option<Option<string>>,
    notes: Option<Option<string>>,
    dateAdded: Option<Timestamp>)

  /** `getCustomers`: the stored list, or the empty list when nothing is stored. */
  function GetCustomers(stored: Option<seq<Customer>>): (r: seq<Customer>)
    ensures stored == None ==> r == []
    ensures stored.Some? ==> r == stored.value
  {
    stored.GetOr([])
  }

  function CustomerIds(customers: seq<Customer>): (ids: seq<string>)
    ensures |ids| == |customers| && forall i :: 0 <= i < |customers| ==> ids[i] == customers[i].id
  {
    seq(|customers|, i requires 0 <= i < |customers| => customers[i].id)
  }

  /** `findIndex(c => c.id === id)`: the first position holding `id`, `None` for -1. */
  function FindIndex(customers: seq<Customer>, id: string): (r: Option<nat>)
    ensures r.Some? ==> r.value < |customers| && customers[r.value].id == id
    ensures r.Some? ==> forall j :: 0 <= j < r.value ==> customers[j].id != id
    ensures r.None? <==> forall j :: 0 <= j < |customers| ==> customers[j].id != id
  {
    if customers == [] then None
    else if customers[0].id == id then Some(0)
    else
      match FindIndex(customers[1..], id)
      case None => None
      case Some(i) => Some(i + 1)
  }

  /** `{...c, ...patch}`: every field the patch carries wins, every other field is kept. */
  function Merge(c: Customer, patch: CustomerPatch): (r: Customer)
    ensures patch.id.Some? ==> r.id == patch.id.value
    ensures patch.id.None? ==> r.id == c.id
    ensures patch.name.Some? ==> r.name == patch.name.value
    ensures patch.name.None? ==> r.name == c.name
    ensures patch.phone.Some? ==> r.phone == patch.phone.value
    ensures patch.phone.None? ==> r.phone == c.phone
    ensures patch.notes.Some? ==> r.notes == patch.notes.value
    ensures patch.notes.None? ==> r.notes == c.notes
    ensures patch.dateAdded.Some? ==> r.dateAdded == patch.dateAdded.value
    ensures patch.dateAdded.None? ==> r.dateAdded == c.dateAdded
  {
    Customer(
      id := patch.id.GetOr(c.id),
      name := patch.name.GetOr(c.name),
      phone := patch.phone.GetOr(c.phone),
      notes := patch.notes.GetOr(c.notes),
      dateAdded := patch.dateAdded.GetOr(c.dateAdded))
  }

  /** Merging the same patch twice changes nothing more than merging it once. */
  lemma MergeIdempotent(c: Customer, patch: CustomerPatch)
    ensures Merge(Merge(c, patch), patch) == Merge(c, patch)
  {
  }

  /** `splice(index, 1)`: the list without position `i`, the rest in order. */
  function RemoveAt(customers: seq<Customer>, i: nat): (r: seq<Customer>)
    requires i < |customers|
    ensures |r| == |customers| - 1
    ensures forall j :: 0 <= j < i ==> r[j] == customers[j]
    ensures forall j :: i <= j < |r| ==> r[j] == customers[j + 1]
    ensures multiset(r) + multiset{customers[i]} == multiset(customers)
  {
    assert customers == customers[..i] + [customers[i]] + customers[i + 1..];
    customers[..i] + customers[i + 1..]
  }

  /**
   * `addCustomer`: a falsy name throws and writes nothing; otherwise the new record,
   * with a fresh id and `dateAdded` = `now`, is appended and returned.
   */
  method AddCustomer(store: Store, name: Option<string>, phone: Option<string>, notes: Option<string>,
                     now: Timestamp) returns (r: Result<Customer, Error>)
    modifies store`customersKey
    ensures r.Err? <==> !Truthy(name)
    ensures r.Err? ==> r.error == NameRequired && store.customersKey == old(store.customersKey)
    ensures r.Ok? ==> GetCustomers(store.customersKey) == GetCustomers(old(store.customersKey)) + [r.value]
    ensures r.Ok? ==>
      && r.value.name == name.value
      && r.value.phone == phone
      && r.value.notes == notes
      && r.value.dateAdded == now
    ensures r.Ok? ==> forall j :: 0 <= j < |GetCustomers(old(store.customersKey))| ==>
      GetCustomers(old(store.customersKey))[j].id != r.value.id
    ensures store.salesKey == old(store.salesKey) && store.settingsKey == old(store.settingsKey)
  {
    if !Truthy(name) {
      return Err(NameRequired);
    }
    var customers := GetCustomers(store.customersKey);
    var customer := Customer(FreshId(CustomerIds(customers)), name.value, phone, notes, now);
    store.customersKey := Some(customers + [customer]);
    r := Ok(customer);
  }

  /**
   * `updateCustomer`: an unknown id throws and writes nothing; otherwise only the first
   * record with that id is replaced, by itself merged with the patch, and returned.
   */
  method UpdateCustomer(store: Store, id: string, patch: CustomerPatch) returns (r: Result<Customer, Error>)
    modifies store`customersKey
    ensures FindIndex(GetCustomers(old(store.customersKey)), id).None? ==>
      r == Err(CustomerNotFound(id)) && store.customersKey == old(store.customersKey)
    ensures FindIndex(GetCustomers(old(store.customersKey)), id).Some? ==>
      var before, i := GetCustomers(old(store.customersKey)), FindIndex(GetCustomers(old(store.customersKey)), id).value;
      && r == Ok(Merge(before[i], patch))
      && GetCustomers(store.customersKey) == before[i := Merge(before[i], patch)]
    ensures store.salesKey == old(store.salesKey) && store.settingsKey == old(store.settingsKey)
  {
    var customers := GetCustomers(store.customersKey);
    var index := FindIndex(customers, id);
    if index.None? {
      return Err(CustomerNotFound(id));
    }
    var i := index.value;
    customers := customers[i := Merge(customers[i], patch)];
    store.customersKey := Some(customers);
    r := Ok(customers[i]);
  }

  /**
   * `deleteCustomer`: an unknown id throws and writes nothing; otherwise the first record
   * with that id is spliced out. Sales are never touched, so no deletion cascades.
   */
  method DeleteCustomer(store: Store, id: string) returns (r: Result<(), Error>)
    modifies store`customersKey
    ensures FindIndex(GetCustomers(old(store.customersKey)), id).None? ==>
      r == Err(CustomerNotFound(id)) && store.customersKey == old(store.customersKey)
    ensures FindIndex(GetCustomers(old(store.customersKey)), id).Some? ==>
      var before, i := GetCustomers(old(store.customersKey)), FindIndex(GetCustomers(old(store.customersKey)), id).value;
      && r == Ok(())
      && GetCustomers(store.customersKey) == RemoveAt(before, i)
      && |GetCustomers(store.customersKey)| == |before| - 1
    ensures store.salesKey == old(store.salesKey) && store.settingsKey == old(store.settingsKey)
  {
    var customers := GetCustomers(store.customersKey);
    var index := FindIndex(customers, id);
    if index.None? {
      return Err(CustomerNotFound(id));
    }
    customers := RemoveAt(customers, index.value);
    store.customersKey := Some(customers);
    r := Ok(());
  }
}
