/**
 * The service-orders screen: repair tickets with a status tab and a text
 * search, an add/edit form that needs a chosen customer, free status
 * changes, and a one-click "start diagnosis" on pending tickets. New
 * tickets are numbered `OS-<year>-<nnn>` from the list's length.
 */
module ServiceOrdersPage {
  import opened Common
  import opened CustomerData
  import opened ServiceOrderData
  import CustomersPage

  // ---------------------------------------------------------------------
  // Search
  // ---------------------------------------------------------------------

  /**
   * The status tab (`None` is "all") must accept the order, and the term
   * must occur, ignoring case, in its id, customer name, device model or defect.
   */
  predicate OrderMatches(o: ServiceOrder, status: Option<ServiceStatus>, term: string) {
    && (status.None? || o.status == status.value)
    && (|| Includes(Lower(o.id), Lower(term))
        || Includes(Lower(o.customerName), Lower(term))
        || Includes(Lower(o.deviceModel), Lower(term))
        || Includes(Lower(o.defect), Lower(term)))
  }

  /** `filteredOrders`: the orders both filters keep, in list order. */
  function FilteredOrders(orders: seq<ServiceOrder>, status: Option<ServiceStatus>, term: string): (r: seq<ServiceOrder>)
    ensures forall i :: 0 <= i < |r| ==> r[i] in orders && OrderMatches(r[i], status, term)
    ensures forall i :: 0 <= i < |orders| && OrderMatches(orders[i], status, term) ==> orders[i] in r
  {
    Filter(orders, o => OrderMatches(o, status, term))
  }

  /** The "all" tab with an empty search shows every order, in order. */
  lemma FilteredOrdersShowAll(orders: seq<ServiceOrder>)
    ensures FilteredOrders(orders, None, "") == orders
  {
    forall i | 0 <= i < |orders| ensures OrderMatches(orders[i], None, "") {
      IncludesLowerEmpty(orders[i].id);
    }
    FilterKeepsAll(orders, o => OrderMatches(o, None, ""));
  }

  /** A status tab shows only orders in that status. */
  lemma FilteredOrdersInStatus(orders: seq<ServiceOrder>, s: ServiceStatus, term: string)
    ensures forall o :: o in FilteredOrders(orders, Some(s), term) ==> o.status == s
  {
  }

  // ---------------------------------------------------------------------
  // The form
  // ---------------------------------------------------------------------

  /** The customer chosen in the form: just an id and a name. */
  datatype CustomerRef = CustomerRef(id: string, name: string)

  /**
   * The order form. `budget` is `None` when left blank; the budget and
   * status fields are only shown while editing.
   */
  datatype OrderForm = OrderForm(
    deviceType: string,
    deviceModel: string,
    defect: string,
    imei: string,
    password: string,
    budget: Option<int>,
    status: ServiceStatus,
    notes: string)

  /** Device type, model, defect and IMEI are required; password, budget and notes are optional. */
  predicate FormValid(f: OrderForm) {
    f.deviceType != "" && f.deviceModel != "" && f.defect != "" && f.imei != ""
  }

  /** What the form shows for an order being edited. */
  function FormOf(o: ServiceOrder): OrderForm {
    OrderForm(o.deviceType, o.deviceModel, o.defect, o.imei, o.password, o.budget, o.status, o.notes)
  }

  /** The customer id a new order gets: the chosen one's, or empty. */
  function CustomerIdOr(customer: Option<CustomerRef>, fallback: string): (r: string)
    ensures customer.Some? && customer.value.id != "" ==> r == customer.value.id
    ensures !(customer.Some? && customer.value.id != "") ==> r == fallback
  {
    if customer.Some? && customer.value.id != "" then customer.value.id else fallback
  }

  function CustomerNameOr(customer: Option<CustomerRef>, fallback: string): (r: string)
    ensures customer.Some? && customer.value.name != "" ==> r == customer.value.name
    ensures !(customer.Some? && customer.value.name != "") ==> r == fallback
  {
    if customer.Some? && customer.value.name != "" then customer.value.name else fallback
  }

  /**
   * `handleAddServiceOrder`'s record: numbered after the list's length,
   * pending, created and updated at the same instant, no technician, no
   * budget, and the chosen customer (or empty strings).
   */
  function NewOrder(f: OrderForm, count: nat, year: nat, now: string, customer: Option<CustomerRef>): (o: ServiceOrder)
    ensures o.id == RecordId(OrderPrefix, year, count + 1)
    ensures o.status == Pending && o.createdAt == now && o.updatedAt == now
    ensures o.technicianId == None && o.technicianName == None && o.budget == None
    ensures o.customerId == CustomerIdOr(customer, "") && o.customerName == CustomerNameOr(customer, "")
    ensures FormOf(o) == f.(budget := None, status := Pending)
  {
    ServiceOrder(RecordId(OrderPrefix, year, count + 1), CustomerIdOr(customer, ""), CustomerNameOr(customer, ""),
                 f.deviceType, f.deviceModel, f.defect, f.imei, f.password, None, f.notes,
                 Pending, now, now, None, None)
  }

  /**
   * `handleEditServiceOrder`'s record: the form's fields over the selected
   * order, stamped `now`; the customer changes only when a customer with a
   * non-empty id (name) is chosen. Id, creation time and technician stay.
   */
  function EditedOrder(selected: ServiceOrder, f: OrderForm, now: string, customer: Option<CustomerRef>): (o: ServiceOrder)
    ensures FormOf(o) == f && o.updatedAt == now
    ensures o.id == selected.id && o.createdAt == selected.createdAt
    ensures o.technicianId == selected.technicianId && o.technicianName == selected.technicianName
    ensures o.customerId == CustomerIdOr(customer, selected.customerId)
    ensures o.customerName == CustomerNameOr(customer, selected.customerName)
  {
    selected.(deviceType := f.deviceType, deviceModel := f.deviceModel, defect := f.defect, imei := f.imei,
              password := f.password, budget := f.budget, status := f.status, notes := f.notes,
              updatedAt := now,
              customerId := CustomerIdOr(customer, selected.customerId),
              customerName := CustomerNameOr(customer, selected.customerName))
  }

  /**
   * Opening an order and saving it at its own update time, with its own
   * customer still chosen, gives the order back.
   */
  lemma EditUnchangedIsIdentity(o: ServiceOrder)
    ensures EditedOrder(o, FormOf(o), o.updatedAt, Some(CustomerRef(o.customerId, o.customerName))) == o
  {
  }

  // ---------------------------------------------------------------------
  // List operations
  // ---------------------------------------------------------------------

  /**
   * `handleAddServiceOrder` on the list: the new order goes first. Its id
   * is not in the list, and the list keeps its numbering discipline.
   */
  function AddOrder(orders: seq<ServiceOrder>, f: OrderForm, year: nat, now: string, customer: Option<CustomerRef>): (r: seq<ServiceOrder>)
    ensures |r| == |orders| + 1 && r[1..] == orders
    ensures r[0] == NewOrder(f, |orders|, year, now, customer)
    ensures NumberedIds(OrderPrefix, OrderIds(orders)) ==>
              r[0].id !in OrderIds(orders) && NumberedIds(OrderPrefix, OrderIds(r))
  {
    var o := NewOrder(f, |orders|, year, now, customer);
    PrependNumbered(orders, o, year);
    [o] + orders
  }

  /** Prepending an order numbered after the list's length keeps the numbering discipline. */
  lemma PrependNumbered(orders: seq<ServiceOrder>, o: ServiceOrder, year: nat)
    requires o.id == RecordId(OrderPrefix, year, |orders| + 1)
    ensures NumberedIds(OrderPrefix, OrderIds(orders)) ==>
              o.id !in OrderIds(orders) && NumberedIds(OrderPrefix, OrderIds([o] + orders))
  {
    if NumberedIds(OrderPrefix, OrderIds(orders)) {
      assert '-' !in OrderPrefix by {
        assert OrderPrefix == ['O', 'S'];
      }
      FreshRecordId(OrderPrefix, OrderIds(orders), year);
      OrderIdsCons(o, orders);
    }
  }

  lemma OrderIdsCons(o: ServiceOrder, orders: seq<ServiceOrder>)
    ensures OrderIds([o] + orders) == [o.id] + OrderIds(orders)
  {
  }

  /** `handleEditServiceOrder` on the list: only entries with the selected id change; ids stay. */
  function EditOrder(orders: seq<ServiceOrder>, selected: ServiceOrder, f: OrderForm, now: string,
                     customer: Option<CustomerRef>): (r: seq<ServiceOrder>)
    ensures OrderIds(r) == OrderIds(orders)
    ensures forall i :: 0 <= i < |orders| && orders[i].id != selected.id ==> r[i] == orders[i]
    ensures forall i :: 0 <= i < |orders| && orders[i].id == selected.id ==> r[i] == EditedOrder(selected, f, now, customer)
  {
    seq(|orders|, i requires 0 <= i < |orders| =>
      if orders[i].id == selected.id then EditedOrder(selected, f, now, customer) else orders[i])
  }

  /** Without a chosen customer, an edit keeps the order's customer. */
  lemma EditKeepsCustomer(orders: seq<ServiceOrder>, selected: ServiceOrder, f: OrderForm, now: string, i: int)
    requires 0 <= i < |orders| && orders[i].id == selected.id
    ensures EditOrder(orders, selected, f, now, None)[i].customerId == selected.customerId
    ensures EditOrder(orders, selected, f, now, None)[i].customerName == selected.customerName
  {
  }

  /**
   * `handleUpdateStatus`: every order with that id takes the new status
   * and the time stamp; nothing else changes.
   */
  function UpdateStatus(orders: seq<ServiceOrder>, id: string, s: ServiceStatus, now: string): (r: seq<ServiceOrder>)
    ensures OrderIds(r) == OrderIds(orders)
    ensures forall i :: 0 <= i < |orders| && orders[i].id != id ==> r[i] == orders[i]
    ensures forall i :: 0 <= i < |orders| && orders[i].id == id ==>
              r[i] == orders[i].(status := s, updatedAt := now)
  {
    seq(|orders|, i requires 0 <= i < |orders| =>
      if orders[i].id == id then orders[i].(status := s, updatedAt := now) else orders[i])
  }

  /** There is no transition table: from any status an order can be moved to any status. */
  lemma AnyStatusFollowsAny(orders: seq<ServiceOrder>, i: int, s: ServiceStatus, now: string)
    requires 0 <= i < |orders|
    ensures UpdateStatus(orders, orders[i].id, s, now)[i].status == s
  {
  }

  /** The quick action is offered only on pending orders. */
  predicate QuickActionOffered(o: ServiceOrder) {
    o.status == Pending
  }

  /** The quick action moves a pending order to diagnosis. */
  lemma QuickActionStartsDiagnosis(orders: seq<ServiceOrder>, i: int, now: string)
    requires 0 <= i < |orders| && QuickActionOffered(orders[i])
    ensures UpdateStatus(orders, orders[i].id, Diagnosing, now)[i].status == Diagnosing
    ensures StatusColor(UpdateStatus(orders, orders[i].id, Diagnosing, now)[i].status) == Primary
  {
  }

  // ---------------------------------------------------------------------
  // The screen
  // ---------------------------------------------------------------------

  class ServiceOrdersScreen {
    var orders: seq<ServiceOrder>
    /** The order the form is editing; none while adding. */
    var selectedOrder: Option<ServiceOrder>
    /** The customer chosen in the form; the submit button is disabled without one. */
    var selectedCustomer: Option<CustomerRef>
    /** The status tab; `None` is "all". */
    var activeStatusFilter: Option<ServiceStatus>
    var searchTerm: string
    var customerSearchTerm: string
    /** The customer list the form's customer search runs over. */
    const customers: seq<Customer>

    /** The ids are distinct and numbered within the list's length. */
    ghost predicate Valid()
      reads this
    {
      NumberedIds(OrderPrefix, OrderIds(orders))
    }

    constructor (initial: seq<ServiceOrder>, customers: seq<Customer>)
      requires NumberedIds(OrderPrefix, OrderIds(initial))
      ensures Valid()
      ensures orders == initial && this.customers == customers
      ensures selectedOrder == None && selectedCustomer == None && activeStatusFilter == None
      ensures searchTerm == "" && customerSearchTerm == ""
    {
      orders := initial;
      this.customers := customers;
      selectedOrder := None;
      selectedCustomer := None;
      activeStatusFilter := None;
      searchTerm := "";
      customerSearchTerm := "";
    }

    /** The rows the table shows: the orders in the chosen tab that match the search term. */
    function Visible(): (r: seq<ServiceOrder>)
      reads this
      ensures forall i :: 0 <= i < |r| ==> r[i] in orders && OrderMatches(r[i], activeStatusFilter, searchTerm)
      ensures forall i :: 0 <= i < |orders| && OrderMatches(orders[i], activeStatusFilter, searchTerm) ==> orders[i] in r
    {
      FilteredOrders(orders, activeStatusFilter, searchTerm)
    }

    /** The customers the form's search offers, matched as on the customers screen. */
    function CustomerChoices(): (r: seq<Customer>)
      reads this
      ensures forall i :: 0 <= i < |r| ==> r[i] in customers && CustomersPage.CustomerMatches(r[i], customerSearchTerm)
      ensures forall i :: 0 <= i < |customers| && CustomersPage.CustomerMatches(customers[i], customerSearchTerm) ==> customers[i] in r
    {
      CustomersPage.FilteredCustomers(customers, customerSearchTerm)
    }

    /** The search box over the orders. */
    method Search(term: string)
      modifies this
      ensures searchTerm == term
      ensures orders == old(orders) && selectedOrder == old(selectedOrder) && selectedCustomer == old(selectedCustomer)
      ensures activeStatusFilter == old(activeStatusFilter) && customerSearchTerm == old(customerSearchTerm)
    {
      searchTerm := term;
    }

    /** The form's customer search box; its drop-down lists `CustomerChoices()` while the term is not empty. */
    method SearchCustomers(term: string)
      modifies this
      ensures customerSearchTerm == term
      ensures orders == old(orders) && selectedOrder == old(selectedOrder) && selectedCustomer == old(selectedCustomer)
      ensures activeStatusFilter == old(activeStatusFilter) && searchTerm == old(searchTerm)
    {
      customerSearchTerm := term;
    }

    method SelectStatusTab(s: Option<ServiceStatus>)
      modifies this
      ensures activeStatusFilter == s
      ensures orders == old(orders) && selectedOrder == old(selectedOrder) && selectedCustomer == old(selectedCustomer)
      ensures searchTerm == old(searchTerm) && customerSearchTerm == old(customerSearchTerm)
    {
      activeStatusFilter := s;
    }

    /** `openAddModal`: nothing selected. */
    method OpenAddModal()
      modifies this
      ensures selectedOrder == None && selectedCustomer == None
      ensures orders == old(orders) && activeStatusFilter == old(activeStatusFilter)
      ensures searchTerm == old(searchTerm) && customerSearchTerm == old(customerSearchTerm)
    {
      selectedOrder := None;
      selectedCustomer := None;
    }

    /** `openEditModal`: the form is loaded with the order and its customer is chosen. */
    method OpenEditModal(o: ServiceOrder) returns (form: OrderForm)
      modifies this
      ensures selectedOrder == Some(o) && selectedCustomer == Some(CustomerRef(o.customerId, o.customerName))
      ensures form == FormOf(o)
      ensures orders == old(orders) && activeStatusFilter == old(activeStatusFilter)
      ensures searchTerm == old(searchTerm) && customerSearchTerm == old(customerSearchTerm)
    {
      selectedOrder := Some(o);
      selectedCustomer := Some(CustomerRef(o.customerId, o.customerName));
      form := FormOf(o);
    }

    /** `selectCustomer`: choose a customer from the search and clear the search. */
    method SelectCustomer(c: Customer)
      modifies this
      ensures selectedCustomer == Some(CustomerRef(c.id, c.name)) && customerSearchTerm == ""
      ensures orders == old(orders) && selectedOrder == old(selectedOrder)
      ensures activeStatusFilter == old(activeStatusFilter) && searchTerm == old(searchTerm)
    {
      selectedCustomer := Some(CustomerRef(c.id, c.name));
      customerSearchTerm := "";
    }

    /** The "change" button next to the chosen customer. */
    method ClearCustomer()
      modifies this
      ensures selectedCustomer == None
      ensures orders == old(orders) && selectedOrder == old(selectedOrder)
      ensures activeStatusFilter == old(activeStatusFilter) && searchTerm == old(searchTerm)
      ensures customerSearchTerm == old(customerSearchTerm)
    {
      selectedCustomer := None;
    }

    /**
     * Submitting the form: without a chosen customer or with a required
     * field empty nothing happens. Otherwise the selected order is edited
     * or a new one is added, and the modal closes, clearing both selections.
     */
    method Submit(f: OrderForm, year: nat, now: string) returns (accepted: bool)
      requires Valid()
      modifies this
      ensures Valid()
      ensures accepted == (old(selectedCustomer).Some? && FormValid(f))
      ensures !accepted ==> orders == old(orders) && selectedOrder == old(selectedOrder)
                            && selectedCustomer == old(selectedCustomer) && customerSearchTerm == old(customerSearchTerm)
      ensures accepted ==> selectedOrder == None && selectedCustomer == None && customerSearchTerm == ""
      ensures accepted && old(selectedOrder).Some? ==>
                orders == EditOrder(old(orders), old(selectedOrder).value, f, now, old(selectedCustomer))
      ensures accepted && old(selectedOrder).None? ==>
                orders == AddOrder(old(orders), f, year, now, old(selectedCustomer))
      ensures activeStatusFilter == old(activeStatusFilter) && searchTerm == old(searchTerm)
    {
      if selectedCustomer.None? || !FormValid(f) {
        return false;
      }
      if selectedOrder.Some? {
        orders := EditOrder(orders, selectedOrder.value, f, now, selectedCustomer);
      } else {
        orders := AddOrder(orders, f, year, now, selectedCustomer);
      }
      selectedOrder := None;
      selectedCustomer := None;
      customerSearchTerm := "";
      return true;
    }

    /** `handleUpdateStatus`: a status change for every order with the id (the list's quick action uses it). */
    method ChangeStatus(id: string, s: ServiceStatus, now: string)
      requires Valid()
      modifies this
      ensures Valid()
      ensures orders == UpdateStatus(old(orders), id, s, now)
      ensures selectedOrder == old(selectedOrder) && selectedCustomer == old(selectedCustomer)
      ensures activeStatusFilter == old(activeStatusFilter) && searchTerm == old(searchTerm)
      ensures customerSearchTerm == old(customerSearchTerm)
    {
      orders := UpdateStatus(orders, id, s, now);
    }

    /**
     * The quick action on a row: offered only while the order is pending,
     * it moves the order to diagnosis. On any other order there is no button.
     */
    method StartDiagnosis(o: ServiceOrder, now: string) returns (offered: bool)
      requires Valid()
      modifies this
      ensures Valid()
      ensures offered == QuickActionOffered(o)
      ensures offered ==> orders == UpdateStatus(old(orders), o.id, Diagnosing, now)
      ensures !offered ==> orders == old(orders)
      ensures selectedOrder == old(selectedOrder) && selectedCustomer == old(selectedCustomer)
      ensures activeStatusFilter == old(activeStatusFilter) && searchTerm == old(searchTerm)
      ensures customerSearchTerm == old(customerSearchTerm)
    {
      offered := QuickActionOffered(o);
      if offered {
        ChangeStatus(o.id, Diagnosing, now);
      }
    }
  }
}
