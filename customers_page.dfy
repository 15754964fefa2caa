/**
 * The customers screen: a searchable customer list with an add/edit form
 * and a confirmed delete. The customer search and the customer form are
 * also used by the sales screen.
 */
module CustomersPage {
  import opened Common
  import opened CustomerData

  // ---------------------------------------------------------------------
  // Search
  // ---------------------------------------------------------------------

  /** The term occurs in the name or email ignoring case, or in the phone as typed. */
  predicate CustomerMatches(c: Customer, term: string) {
    || Includes(Lower(c.name), Lower(term))
    || Includes(c.phone, term)
    || Includes(Lower(c.email), Lower(term))
  }

  /** `filteredCustomers`: the customers the search keeps, in list order. */
  function FilteredCustomers(customers: seq<Customer>, term: string): (r: seq<Customer>)
    ensures forall i :: 0 <= i < |r| ==> r[i] in customers && CustomerMatches(r[i], term)
    ensures forall i :: 0 <= i < |customers| && CustomerMatches(customers[i], term) ==> customers[i] in r
  {
    Filter(customers, c => CustomerMatches(c, term))
  }

  /** An empty search keeps every customer, in order. */
  lemma FilteredCustomersEmptyTerm(customers: seq<Customer>)
    ensures FilteredCustomers(customers, "") == customers
  {
    forall i | 0 <= i < |customers| ensures CustomerMatches(customers[i], "") {
      IncludesLowerEmpty(customers[i].name);
    }
    FilterKeepsAll(customers, c => CustomerMatches(c, ""));
  }

  // ---------------------------------------------------------------------
  // The form
  // ---------------------------------------------------------------------

  /** The fields the customer form edits. */
  datatype CustomerForm = CustomerForm(name: string, phone: string, email: string, address: string, birthday: string)

  /**
   * The form submits only when the browser lets the `type="email"` field
   * through, and then name, phone and address are filled in and the email
   * matches the email pattern; the birthday is optional.
   */
  predicate FormValid(f: CustomerForm) {
    && EmailInputAccepts(f.email)
    && f.name != "" && MatchesEmailPattern(f.email) && f.phone != "" && f.address != ""
  }

  /** Together the two email checks come down to the browser's: the email must be a valid address. */
  lemma FormValidIff(f: CustomerForm)
    ensures FormValid(f) <==> f.name != "" && IsValidEmailAddress(f.email) && f.phone != "" && f.address != ""
  {
    EmailFieldRule(f.email);
  }

  /** What the form shows for a customer being edited. */
  function FormOf(c: Customer): CustomerForm {
    CustomerForm(c.name, c.phone, c.email, c.address, c.birthday)
  }

  /** `{ ...customer, ...data }`: the form's fields over the record's. */
  function WithForm(c: Customer, f: CustomerForm): (r: Customer)
    ensures FormOf(r) == f
    ensures r.id == c.id && r.createdAt == c.createdAt
    ensures r.purchases == c.purchases && r.lastPurchase == c.lastPurchase
  {
    c.(name := f.name, phone := f.phone, email := f.email, address := f.address, birthday := f.birthday)
  }

  /** Saving the form unchanged gives back the record it was opened on. */
  lemma WithOwnFormIsIdentity(c: Customer)
    ensures WithForm(c, FormOf(c)) == c
  {
  }

  /** The record a submitted form becomes: no purchases yet. */
  function NewCustomer(f: CustomerForm, id: string, today: string): (c: Customer)
    ensures FormOf(c) == f
    ensures c.id == id && c.createdAt == today
    ensures c.purchases == 0 && c.lastPurchase == None
  {
    Customer(id, f.name, f.phone, f.email, f.address, f.birthday, today, 0, None)
  }

  function CustomerIds(customers: seq<Customer>): (r: seq<string>)
    ensures |r| == |customers|
    ensures forall i :: 0 <= i < |customers| ==> r[i] == customers[i].id
  {
    seq(|customers|, i requires 0 <= i < |customers| => customers[i].id)
  }

  // ---------------------------------------------------------------------
  // List operations
  // ---------------------------------------------------------------------

  /** `handleAddCustomer`: the new customer goes first, the others follow unchanged. */
  function AddCustomer(customers: seq<Customer>, f: CustomerForm, id: string, today: string): (r: seq<Customer>)
    ensures |r| == |customers| + 1 && r[1..] == customers
    ensures r[0].id == id && FormOf(r[0]) == f
    ensures r[0].purchases == 0 && r[0].lastPurchase == None
  {
    [NewCustomer(f, id, today)] + customers
  }

  /**
   * `handleEditCustomer`: every entry with the selected customer's id
   * becomes the selected customer with the form's fields; the others, the
   * ids and the length stay as they were.
   */
  function EditCustomer(customers: seq<Customer>, selected: Customer, f: CustomerForm): (r: seq<Customer>)
    ensures CustomerIds(r) == CustomerIds(customers)
    ensures forall i :: 0 <= i < |customers| && customers[i].id != selected.id ==> r[i] == customers[i]
    ensures forall i :: 0 <= i < |customers| && customers[i].id == selected.id ==>
              FormOf(r[i]) == f && r[i].createdAt == selected.createdAt
              && r[i].purchases == selected.purchases && r[i].lastPurchase == selected.lastPurchase
  {
    seq(|customers|, i requires 0 <= i < |customers| =>
      if customers[i].id == selected.id then WithForm(selected, f) else customers[i])
  }

  /** Submitting the same edit twice is the same as submitting it once. */
  lemma EditCustomerIdempotent(customers: seq<Customer>, selected: Customer, f: CustomerForm)
    ensures EditCustomer(EditCustomer(customers, selected, f), selected, f) == EditCustomer(customers, selected, f)
  {
  }

  /** Opening a listed customer and saving without changes leaves the list as it was. */
  lemma EditUnchangedIsIdentity(customers: seq<Customer>, i: int)
    requires Distinct(CustomerIds(customers))
    requires 0 <= i < |customers|
    ensures EditCustomer(customers, customers[i], FormOf(customers[i])) == customers
  {
    var r := EditCustomer(customers, customers[i], FormOf(customers[i]));
    forall j | 0 <= j < |customers| ensures r[j] == customers[j] {
      if customers[j].id == customers[i].id {
        assert CustomerIds(customers)[j] == CustomerIds(customers)[i];
        WithOwnFormIsIdentity(customers[i]);
      }
    }
  }

  /**
   * `handleDeleteCustomer`: unless confirmed nothing changes; once
   * confirmed every entry with that id is gone and every other entry stays.
   */
  function DeleteCustomer(customers: seq<Customer>, id: string, confirmed: bool): (r: seq<Customer>)
    ensures !confirmed ==> r == customers
    ensures confirmed ==> forall i :: 0 <= i < |r| ==> r[i].id != id && r[i] in customers
    ensures confirmed ==> forall i :: 0 <= i < |customers| && customers[i].id != id ==> customers[i] in r
  {
    if confirmed then Filter(customers, (c: Customer) => c.id != id) else customers
  }

  /** Deleting keeps the order of the remaining customers: it works piece by piece. */
  lemma DeleteCustomerKeepsOrder(a: seq<Customer>, b: seq<Customer>, id: string)
    ensures DeleteCustomer(a + b, id, true) == DeleteCustomer(a, id, true) + DeleteCustomer(b, id, true)
  {
    FilterAppend(a, b, (c: Customer) => c.id != id);
  }

  // ---------------------------------------------------------------------
  // The screen
  // ---------------------------------------------------------------------

  class CustomersScreen {
    var customers: seq<Customer>
    /** The customer the form is editing; none while adding. */
    var selectedCustomer: Option<Customer>
    var searchTerm: string

    constructor (initial: seq<Customer>)
      ensures customers == initial && selectedCustomer == None && searchTerm == ""
    {
      customers := initial;
      selectedCustomer := None;
      searchTerm := "";
    }

    /** The rows the table shows: the customers matching the search term. */
    function Visible(): (r: seq<Customer>)
      reads this
      ensures forall i :: 0 <= i < |r| ==> r[i] in customers && CustomerMatches(r[i], searchTerm)
      ensures forall i :: 0 <= i < |customers| && CustomerMatches(customers[i], searchTerm) ==> customers[i] in r
    {
      FilteredCustomers(customers, searchTerm)
    }

    method Search(term: string)
      modifies this
      ensures searchTerm == term
      ensures customers == old(customers) && selectedCustomer == old(selectedCustomer)
    {
      searchTerm := term;
    }

    /** `openAddModal`: the form starts empty, with no customer selected. */
    method OpenAddModal()
      modifies this
      ensures selectedCustomer == None
      ensures customers == old(customers) && searchTerm == old(searchTerm)
    {
      selectedCustomer := None;
    }

    /** `openEditModal`: the form edits this customer. */
    method OpenEditModal(c: Customer)
      modifies this
      ensures selectedCustomer == Some(c)
      ensures customers == old(customers) && searchTerm == old(searchTerm)
    {
      selectedCustomer := Some(c);
    }

    /**
     * Submitting the form: an invalid form changes nothing; a valid one
     * edits the selected customer or adds a new one, then the modal closes
     * and the selection is cleared.
     */
    method Submit(f: CustomerForm, id: string, today: string) returns (accepted: bool)
      modifies this
      ensures accepted == FormValid(f)
      ensures !accepted ==> customers == old(customers) && selectedCustomer == old(selectedCustomer)
      ensures accepted ==> selectedCustomer == None
      ensures accepted && old(selectedCustomer).Some? ==>
                customers == EditCustomer(old(customers), old(selectedCustomer).value, f)
      ensures accepted && old(selectedCustomer).None? ==> customers == AddCustomer(old(customers), f, id, today)
      ensures searchTerm == old(searchTerm)
    {
      if !FormValid(f) {
        return false;
      }
      if selectedCustomer.Some? {
        customers := EditCustomer(customers, selectedCustomer.value, f);
      } else {
        customers := AddCustomer(customers, f, id, today);
      }
      selectedCustomer := None;
      return true;
    }

    /** The delete button, with the answer to the confirmation dialog as `confirmed`. */
    method Delete(id: string, confirmed: bool)
      modifies this
      ensures customers == DeleteCustomer(old(customers), id, confirmed)
      ensures selectedCustomer == old(selectedCustomer) && searchTerm == old(searchTerm)
    {
      customers := DeleteCustomer(customers, id, confirmed);
    }
  }
}
