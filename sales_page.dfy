/**
 * The sales screen: the sales list with a text search, and the sale form
 * with its cart. A cart line is a catalogue product whose `quantity` holds
 * the units being sold. Finishing the form records a new sale, numbered
 * `V-<year>-<nnn>` from the list's length, or replaces the sale being
 * edited. Amounts are integer centavos.
 */
module SalesPage {
  import opened Common
  import opened ProductData
  import opened CustomerData
  import opened SalesData
  import InventoryPage
  import CustomersPage

  // ---------------------------------------------------------------------
  // Searches
  // ---------------------------------------------------------------------

  /**
   * The term occurs, ignoring case, in the sale's id, in its customer's
   * name when it has one, or in its payment method's label.
   */
  predicate SaleMatches(s: Sale, term: string) {
    || Includes(Lower(s.id), Lower(term))
    || (Truthy(s.customerName) && Includes(Lower(s.customerName.value), Lower(term)))
    || Includes(Lower(PaymentMethodLabel(s.paymentMethod)), Lower(term))
  }

  /** `filteredSales`: the sales the search keeps, in list order. */
  function FilteredSales(sales: seq<Sale>, term: string): (r: seq<Sale>)
    ensures forall i :: 0 <= i < |r| ==> r[i] in sales && SaleMatches(r[i], term)
    ensures forall i :: 0 <= i < |sales| && SaleMatches(sales[i], term) ==> sales[i] in r
  {
    Filter(sales, s => SaleMatches(s, term))
  }

  /** An empty search keeps every sale, in order. */
  lemma FilteredSalesEmptyTerm(sales: seq<Sale>)
    ensures FilteredSales(sales, "") == sales
  {
    forall i | 0 <= i < |sales| ensures SaleMatches(sales[i], "") {
      IncludesLowerEmpty(sales[i].id);
    }
    FilterKeepsAll(sales, s => SaleMatches(s, ""));
  }

  /** Searching for "pix" finds every sale paid with Pix, whatever its id or customer. */
  lemma SearchByPaymentLabel(s: Sale)
    requires s.paymentMethod == Pix
    ensures SaleMatches(s, "pix")
  {
    assert Lower(PaymentMethodLabel(Pix)) == "pix";
    assert OccursAt(Lower(PaymentMethodLabel(Pix)), Lower("pix"), 0);
  }

  /** `filteredProducts` of the sale form: the catalogue products whose text matches. */
  function FilteredCatalogue(catalogue: seq<Product>, term: string): (r: seq<Product>)
    ensures forall i :: 0 <= i < |r| ==> r[i] in catalogue && InventoryPage.ProductTextMatches(r[i], term)
    ensures forall i :: 0 <= i < |catalogue| && InventoryPage.ProductTextMatches(catalogue[i], term) ==> catalogue[i] in r
  {
    Filter(catalogue, p => InventoryPage.ProductTextMatches(p, term))
  }

  // ---------------------------------------------------------------------
  // The cart
  // ---------------------------------------------------------------------

  function CartIds(cart: seq<Product>): (r: seq<string>)
    ensures |r| == |cart|
    ensures forall i :: 0 <= i < |cart| ==> r[i] == cart[i].id
  {
    seq(|cart|, i requires 0 <= i < |cart| => cart[i].id)
  }

  predicate HasLine(cart: seq<Product>, id: string) {
    id in CartIds(cart)
  }

  /** One line per product, each with at least one unit. */
  ghost predicate CartOk(cart: seq<Product>) {
    Distinct(CartIds(cart)) && forall i :: 0 <= i < |cart| ==> cart[i].quantity >= 1
  }

  /** A product's first line in the cart, if it has one. */
  function FirstLine(cart: seq<Product>, id: string): Option<Product> {
    if cart == [] then None
    else if cart[0].id == id then Some(cart[0])
    else FirstLine(cart[1..], id)
  }

  /** The units of a product in the cart: its first line's quantity, or 0. */
  function QuantityOf(cart: seq<Product>, id: string): int {
    match FirstLine(cart, id)
    case None => 0
    case Some(line) => line.quantity
  }

  /** The unit price a product's first line carries, or 0. */
  function PriceOf(cart: seq<Product>, id: string): int {
    match FirstLine(cart, id)
    case None => 0
    case Some(line) => line.sellingPrice
  }

  function LineTotal(line: Product): int {
    line.sellingPrice * line.quantity
  }

  /** `calculateTotal`: the sum of price times quantity over the lines; 0 for an empty cart. */
  function CalculateTotal(cart: seq<Product>): int {
    if cart == [] then 0 else LineTotal(cart[0]) + CalculateTotal(cart[1..])
  }

  /** The total is not negative while no price or quantity is. */
  lemma {:induction false} CartTotalNonNegative(cart: seq<Product>)
    ensures (forall i :: 0 <= i < |cart| ==> cart[i].sellingPrice >= 0 && cart[i].quantity >= 0) ==> CalculateTotal(cart) >= 0
  {
    if cart != [] {
      CartTotalNonNegative(cart[1..]);
      if forall i :: 0 <= i < |cart| ==> cart[i].sellingPrice >= 0 && cart[i].quantity >= 0 {
        assert forall i :: 0 <= i < |cart[1..]| ==> cart[1..][i] == cart[i + 1];
        assert LineTotal(cart[0]) >= 0;
      }
    }
  }

  /** The total of two carts put together is the sum of their totals. */
  lemma {:induction false} TotalAppend(a: seq<Product>, b: seq<Product>)
    ensures CalculateTotal(a + b) == CalculateTotal(a) + CalculateTotal(b)
  {
    if a == [] {
      assert a + b == b;
    } else {
      assert (a + b)[0] == a[0] && (a + b)[1..] == a[1..] + b;
      TotalAppend(a[1..], b);
    }
  }

  /** In a cart with one line per product, a line's product has that line's units and price. */
  lemma {:induction false} LineAt(cart: seq<Product>, i: int)
    requires Distinct(CartIds(cart)) && 0 <= i < |cart|
    ensures QuantityOf(cart, cart[i].id) == cart[i].quantity
    ensures PriceOf(cart, cart[i].id) == cart[i].sellingPrice
  {
    if i > 0 {
      assert CartIds(cart)[0] != CartIds(cart)[i];
      assert CartIds(cart[1..]) == CartIds(cart)[1..];
      LineAt(cart[1..], i - 1);
    }
  }

  /** A product without a line has no units and no price in the cart. */
  lemma {:induction false} AbsentLine(cart: seq<Product>, id: string)
    requires !HasLine(cart, id)
    ensures QuantityOf(cart, id) == 0 && PriceOf(cart, id) == 0
  {
    if cart != [] {
      assert CartIds(cart) == [cart[0].id] + CartIds(cart[1..]);
      AbsentLine(cart[1..], id);
    }
  }

  /** Appending a line for a product without one. */
  lemma {:induction false} AppendLine(cart: seq<Product>, line: Product, x: string)
    requires !HasLine(cart, line.id)
    ensures QuantityOf(cart + [line], x) == (if x == line.id then line.quantity else QuantityOf(cart, x))
    ensures PriceOf(cart + [line], x) == (if x == line.id then line.sellingPrice else PriceOf(cart, x))
  {
    if cart == [] {
      assert [] + [line] == [line];
    } else {
      assert CartIds(cart) == [cart[0].id] + CartIds(cart[1..]);
      assert (cart + [line])[1..] == cart[1..] + [line];
      AppendLine(cart[1..], line, x);
    }
  }

  /** `p.id === id ? { ...p, quantity: p.quantity + 1 } : p` over the cart. */
  function Bump(cart: seq<Product>, id: string): (r: seq<Product>)
    ensures CartIds(r) == CartIds(cart)
    ensures forall i :: 0 <= i < |cart| && cart[i].id != id ==> r[i] == cart[i]
    ensures forall i :: 0 <= i < |cart| && cart[i].id == id ==>
              r[i].quantity == cart[i].quantity + 1 && r[i].(quantity := cart[i].quantity) == cart[i]
  {
    seq(|cart|, i requires 0 <= i < |cart| =>
      if cart[i].id == id then cart[i].(quantity := cart[i].quantity + 1) else cart[i])
  }

  /** `p.id === id ? { ...p, quantity: q } : p` over the cart. */
  function SetQuantity(cart: seq<Product>, id: string, q: int): (r: seq<Product>)
    ensures CartIds(r) == CartIds(cart)
    ensures forall i :: 0 <= i < |cart| && cart[i].id != id ==> r[i] == cart[i]
    ensures forall i :: 0 <= i < |cart| && cart[i].id == id ==>
              r[i].quantity == q && r[i].(quantity := cart[i].quantity) == cart[i]
  {
    seq(|cart|, i requires 0 <= i < |cart| =>
      if cart[i].id == id then cart[i].(quantity := q) else cart[i])
  }

  /**
   * Changing the quantity of one product's lines changes that product's
   * units to `q` and the total by its price times the difference; other
   * products and all prices stay. `Bump` is the case `q = units + 1`.
   */
  lemma SetQuantityEffect(cart: seq<Product>, id: string, q: int, x: string)
    requires Distinct(CartIds(cart))
    ensures QuantityOf(SetQuantity(cart, id, q), x) == (if x == id && HasLine(cart, id) then q else QuantityOf(cart, x))
    ensures PriceOf(SetQuantity(cart, id, q), x) == PriceOf(cart, x)
    ensures CalculateTotal(SetQuantity(cart, id, q)) ==
              CalculateTotal(cart) + PriceOf(cart, id) * ((if HasLine(cart, id) then q else 0) - QuantityOf(cart, id))
  {
    var r := SetQuantity(cart, id, q);
    SetQuantityUnits(cart, id, q, x);
    SetQuantityUnits(cart, id, q, id);
    SetQuantityCharge(cart, id, q);
    ChargeIsPriceTimesUnits(cart, id);
    ChargeIsPriceTimesUnits(r, id);
    var p, u := PriceOf(cart, id), QuantityOf(cart, id);
    if HasLine(cart, id) {
      assert p * q - p * u == p * (q - u);
    } else {
      AbsentLine(cart, id);
    }
  }

  /** The units and prices after `SetQuantity`. */
  lemma {:induction false} SetQuantityUnits(cart: seq<Product>, id: string, q: int, x: string)
    requires Distinct(CartIds(cart))
    ensures QuantityOf(SetQuantity(cart, id, q), x) == (if x == id && HasLine(cart, id) then q else QuantityOf(cart, x))
    ensures PriceOf(SetQuantity(cart, id, q), x) == PriceOf(cart, x)
  {
    if cart != [] {
      var r := SetQuantity(cart, id, q);
      DistinctHead(cart);
      CartIdsUnfold(cart);
      assert r[1..] == SetQuantity(cart[1..], id, q);
      SetQuantityUnits(cart[1..], id, q, x);
      if cart[0].id == id {
        AbsentLine(cart[1..], id);
      }
    }
  }

  /** The total after `SetQuantity` trades the product's old charge for its new one. */
  lemma {:induction false} SetQuantityCharge(cart: seq<Product>, id: string, q: int)
    requires Distinct(CartIds(cart))
    ensures CalculateTotal(SetQuantity(cart, id, q)) + Charge(cart, id) ==
              CalculateTotal(cart) + Charge(SetQuantity(cart, id, q), id)
  {
    if cart != [] {
      var r := SetQuantity(cart, id, q);
      DistinctHead(cart);
      assert r[1..] == SetQuantity(cart[1..], id, q);
      SetQuantityCharge(cart[1..], id, q);
      if cart[0].id == id {
        assert CartIds(r[1..]) == CartIds(cart[1..]);
        ChargeAbsent(cart[1..], id);
        ChargeAbsent(r[1..], id);
      }
    }
  }

  lemma ChargeAbsent(cart: seq<Product>, id: string)
    requires !HasLine(cart, id)
    ensures Charge(cart, id) == 0
  {
    ChargeIsPriceTimesUnits(cart, id);
    AbsentLine(cart, id);
  }

  lemma BumpIsSetQuantity(cart: seq<Product>, id: string)
    requires Distinct(CartIds(cart))
    ensures Bump(cart, id) == SetQuantity(cart, id, QuantityOf(cart, id) + 1)
  {
    forall i | 0 <= i < |cart| && cart[i].id == id ensures cart[i].quantity == QuantityOf(cart, id) {
      LineAt(cart, i);
    }
  }

  /**
   * `addProductToSale`: a product already in the cart gets one more unit
   * on its line, with the length and every other line unchanged; a new
   * product is appended as a line of one unit. The product's units go up
   * by one and no other product's units change.
   */
  function AddToCart(cart: seq<Product>, p: Product): (r: seq<Product>)
    ensures HasLine(cart, p.id) ==>
              && CartIds(r) == CartIds(cart)
              && (forall i :: 0 <= i < |cart| && cart[i].id != p.id ==> r[i] == cart[i])
              && (forall i :: 0 <= i < |cart| && cart[i].id == p.id ==>
                    r[i].quantity == cart[i].quantity + 1 && r[i].(quantity := cart[i].quantity) == cart[i])
    ensures !HasLine(cart, p.id) ==> |r| == |cart| + 1 && r[..|cart|] == cart && r[|cart|] == p.(quantity := 1)
    ensures CartOk(cart) ==> CartOk(r)
  {
    if HasLine(cart, p.id) then Bump(cart, p.id)
    else
      var r := cart + [p.(quantity := 1)];
      assert CartIds(r) == CartIds(cart) + [p.id];
      r
  }

  /**
   * On a well-formed cart, adding a product raises its units by one and
   * the total by its line's price, and leaves the other products alone.
   */
  lemma AddToCartEffect(cart: seq<Product>, p: Product, x: string)
    requires CartOk(cart)
    ensures QuantityOf(AddToCart(cart, p), p.id) == QuantityOf(cart, p.id) + 1
    ensures x != p.id ==> QuantityOf(AddToCart(cart, p), x) == QuantityOf(cart, x)
    ensures CalculateTotal(AddToCart(cart, p)) == CalculateTotal(cart) + PriceOf(AddToCart(cart, p), p.id)
    ensures HasLine(cart, p.id) ==> PriceOf(AddToCart(cart, p), p.id) == PriceOf(cart, p.id)
    ensures !HasLine(cart, p.id) ==> PriceOf(AddToCart(cart, p), p.id) == p.sellingPrice
  {
    if HasLine(cart, p.id) {
      BumpEffect(cart, p.id, x);
      BumpEffect(cart, p.id, p.id);
    } else {
      AbsentLine(cart, p.id);
      AppendNewEffect(cart, p.(quantity := 1), x);
      AppendNewEffect(cart, p.(quantity := 1), p.id);
    }
  }

  /** One more unit of a product that has a line. */
  lemma BumpEffect(cart: seq<Product>, id: string, x: string)
    requires Distinct(CartIds(cart)) && HasLine(cart, id)
    ensures QuantityOf(Bump(cart, id), x) == QuantityOf(cart, x) + (if x == id then 1 else 0)
    ensures PriceOf(Bump(cart, id), x) == PriceOf(cart, x)
    ensures CalculateTotal(Bump(cart, id)) == CalculateTotal(cart) + PriceOf(cart, id)
  {
    var u, pr := QuantityOf(cart, id), PriceOf(cart, id);
    BumpIsSetQuantity(cart, id);
    SetQuantityEffect(cart, id, u + 1, x);
    assert pr * ((u + 1) - u) == pr;
  }

  /** A new line for a product without one. */
  lemma AppendNewEffect(cart: seq<Product>, line: Product, x: string)
    requires !HasLine(cart, line.id)
    ensures QuantityOf(cart + [line], x) == (if x == line.id then line.quantity else QuantityOf(cart, x))
    ensures PriceOf(cart + [line], x) == (if x == line.id then line.sellingPrice else PriceOf(cart, x))
    ensures CalculateTotal(cart + [line]) == CalculateTotal(cart) + LineTotal(line)
  {
    AppendLine(cart, line, x);
    TotalAppend(cart, [line]);
    assert CalculateTotal([line]) == LineTotal(line);
  }

  /**
   * `updateProductQuantity`: a quantity below 1 changes nothing; otherwise
   * the product's line takes that quantity and nothing else changes.
   */
  function UpdateQuantity(cart: seq<Product>, id: string, q: int): (r: seq<Product>)
    ensures q < 1 ==> r == cart
    ensures q >= 1 ==> r == SetQuantity(cart, id, q)
    ensures CartOk(cart) ==> CartOk(r)
  {
    if q < 1 then cart else SetQuantity(cart, id, q)
  }

  /** The "minus" button on a one-unit line does nothing: quantities never drop below one. */
  lemma MinusOnSingleUnit(cart: seq<Product>, i: int)
    requires 0 <= i < |cart| && cart[i].quantity == 1
    ensures UpdateQuantity(cart, cart[i].id, cart[i].quantity - 1) == cart
  {
  }

  /** `removeProductFromSale`: every line of that product goes; the others stay, in order. */
  function RemoveFromCart(cart: seq<Product>, id: string): (r: seq<Product>)
    ensures !HasLine(r, id)
    ensures forall i :: 0 <= i < |r| ==> r[i] in cart
    ensures forall i :: 0 <= i < |cart| && cart[i].id != id ==> cart[i] in r
  {
    Filter(cart, (l: Product) => l.id != id)
  }

  /** The first line's product has no other line, and the rest of the cart has one line per product. */
  lemma DistinctHead(cart: seq<Product>)
    requires Distinct(CartIds(cart)) && cart != []
    ensures !HasLine(cart[1..], cart[0].id) && Distinct(CartIds(cart[1..]))
  {
    var t := CartIds(cart[1..]);
    assert t == CartIds(cart)[1..];
    forall k | 0 <= k < |t| ensures t[k] != cart[0].id {
      assert t[k] == CartIds(cart)[k + 1];
    }
  }

  /** Removal works line by line: the first line goes when it is that product's. */
  lemma RemoveUnfold(cart: seq<Product>, id: string)
    requires cart != []
    ensures cart[0].id == id ==> RemoveFromCart(cart, id) == RemoveFromCart(cart[1..], id)
    ensures cart[0].id != id ==> RemoveFromCart(cart, id) == [cart[0]] + RemoveFromCart(cart[1..], id)
  {
  }

  lemma TotalCons(line: Product, cart: seq<Product>)
    ensures CalculateTotal([line] + cart) == LineTotal(line) + CalculateTotal(cart)
  {
    assert ([line] + cart)[1..] == cart;
  }

  /** Removing one product leaves every other product's units as they were. */
  lemma {:induction false} RemoveKeepsOthers(cart: seq<Product>, id: string, x: string)
    requires x != id
    ensures QuantityOf(RemoveFromCart(cart, id), x) == QuantityOf(cart, x)
  {
    if cart != [] {
      RemoveKeepsOthers(cart[1..], id, x);
      RemoveUnfold(cart, id);
      var rest := RemoveFromCart(cart[1..], id);
      if cart[0].id != id {
        assert ([cart[0]] + rest)[1..] == rest;
      }
    }
  }

  /** What a product's first line adds to the total; 0 without a line. */
  function Charge(cart: seq<Product>, id: string): int {
    match FirstLine(cart, id)
    case None => 0
    case Some(line) => LineTotal(line)
  }

  /** A product's charge is its unit price times its units, all three read off the same first line. */
  lemma ChargeIsPriceTimesUnits(cart: seq<Product>, id: string)
    ensures Charge(cart, id) == PriceOf(cart, id) * QuantityOf(cart, id)
  {
  }

  lemma {:induction false} RemoveLowersTotalByCharge(cart: seq<Product>, id: string)
    requires Distinct(CartIds(cart))
    ensures CalculateTotal(RemoveFromCart(cart, id)) == CalculateTotal(cart) - Charge(cart, id)
  {
    if cart != [] {
      DistinctHead(cart);
      RemoveLowersTotalByCharge(cart[1..], id);
      RemoveUnfold(cart, id);
      var rest := RemoveFromCart(cart[1..], id);
      if cart[0].id == id {
        AbsentLine(cart[1..], id);
        ChargeIsPriceTimesUnits(cart[1..], id);
      } else {
        TotalCons(cart[0], rest);
      }
    }
  }

  /** Removing a product lowers the total by that product's price times its units. */
  lemma RemoveLowersTotal(cart: seq<Product>, id: string)
    requires Distinct(CartIds(cart))
    ensures CalculateTotal(RemoveFromCart(cart, id)) == CalculateTotal(cart) - PriceOf(cart, id) * QuantityOf(cart, id)
  {
    RemoveLowersTotalByCharge(cart, id);
    ChargeIsPriceTimesUnits(cart, id);
  }

  lemma CartIdsUnfold(cart: seq<Product>)
    requires cart != []
    ensures CartIds(cart)[0] == cart[0].id && CartIds(cart)[1..] == CartIds(cart[1..])
  {
  }

  lemma CartIdsCons(line: Product, cart: seq<Product>)
    ensures CartIds([line] + cart) == [line.id] + CartIds(cart)
  {
  }

  /** The ids left after removing a product are the old ids without that one. */
  lemma {:induction false} RemoveIds(cart: seq<Product>, id: string)
    ensures CartIds(RemoveFromCart(cart, id)) == Filter(CartIds(cart), (x: string) => x != id)
  {
    if cart != [] {
      RemoveIds(cart[1..], id);
      RemoveUnfold(cart, id);
      CartIdsUnfold(cart);
      FilterUnfold(CartIds(cart), (x: string) => x != id);
      if cart[0].id != id {
        CartIdsCons(cart[0], RemoveFromCart(cart[1..], id));
      }
    }
  }

  /** Removing a product from a well-formed cart leaves it well formed. */
  lemma RemoveKeepsCartOk(cart: seq<Product>, id: string)
    requires CartOk(cart)
    ensures CartOk(RemoveFromCart(cart, id))
  {
    RemoveIds(cart, id);
    FilterDistinct(CartIds(cart), (x: string) => x != id);
  }

  // ---------------------------------------------------------------------
  // Recording a sale
  // ---------------------------------------------------------------------

  /** The sale items built from the cart, line by line. */
  function SaleItems(cart: seq<Product>): (r: seq<SaleItem>)
    ensures |r| == |cart|
    ensures forall i :: 0 <= i < |cart| ==>
              && r[i].productId == cart[i].id && r[i].productName == cart[i].name
              && r[i].quantity == cart[i].quantity && r[i].unitPrice == cart[i].sellingPrice
              && ItemConsistent(r[i])
  {
    seq(|cart|, i requires 0 <= i < |cart| =>
      SaleItem(cart[i].id, cart[i].name, cart[i].quantity, cart[i].sellingPrice, cart[i].sellingPrice * cart[i].quantity))
  }

  /** The subtotals of the items built from a cart add up to the cart's total. */
  lemma {:induction false} ItemsTotalIsCartTotal(cart: seq<Product>)
    ensures ItemsTotal(SaleItems(cart)) == CalculateTotal(cart)
  {
    if cart != [] {
      assert SaleItems(cart)[1..] == SaleItems(cart[1..]);
      ItemsTotalIsCartTotal(cart[1..]);
    }
  }

  function ItemProductIds(items: seq<SaleItem>): (r: seq<string>)
    ensures |r| == |items|
    ensures forall i :: 0 <= i < |items| ==> r[i] == items[i].productId
  {
    seq(|items|, i requires 0 <= i < |items| => items[i].productId)
  }

  /** One item per product, each with at least one unit: what a well-formed cart produces. */
  ghost predicate ItemsOk(items: seq<SaleItem>) {
    Distinct(ItemProductIds(items)) && forall i :: 0 <= i < |items| ==> items[i].quantity >= 1
  }

  /** A sale as the screen keeps it: consistent amounts and one item per product. */
  ghost predicate SaleOk(s: Sale) {
    SaleConsistent(s) && ItemsOk(s.items)
  }

  /**
   * `saleData` in `handleCreateSale`: the items and total come from the
   * cart, so the sale is consistent; the id and date are the edited
   * sale's, or a fresh number and the current time; the customer fields
   * are null unless the chosen customer's are non-empty; the sale is
   * always completed and booked to the fixed salesperson "2".
   */
  function SaleRecord(cart: seq<Product>, customer: Option<Customer>, method_: PaymentMethod,
                      editing: Option<Sale>, count: nat, year: nat, now: string): (s: Sale)
    ensures SaleConsistent(s) && s.total == CalculateTotal(cart)
    ensures CartOk(cart) ==> ItemsOk(s.items)
    ensures s.items == SaleItems(cart)
    ensures editing.Some? ==> s.id == editing.value.id && s.date == editing.value.date
    ensures editing.None? ==> s.id == RecordId(SalePrefix, year, count + 1) && s.date == now
    ensures s.customerId.Some? <==> customer.Some? && customer.value.id != ""
    ensures s.customerId.Some? ==> s.customerId.value == customer.value.id
    ensures s.customerName.Some? <==> customer.Some? && customer.value.name != ""
    ensures s.customerName.Some? ==> s.customerName.value == customer.value.name
    ensures s.paymentMethod == method_ && s.status == Completed
    ensures s.employeeId == "2" && s.employeeName == "Marina Souza"
  {
    ItemsTotalIsCartTotal(cart);
    assert ItemProductIds(SaleItems(cart)) == CartIds(cart);
    Sale(if editing.Some? then editing.value.id else RecordId(SalePrefix, year, count + 1),
         if customer.Some? && customer.value.id != "" then Some(customer.value.id) else None,
         if customer.Some? && customer.value.name != "" then Some(customer.value.name) else None,
         if editing.Some? then editing.value.date else now,
         SaleItems(cart), CalculateTotal(cart), method_, "2", "Marina Souza", Completed)
  }

  ghost predicate AllSalesOk(sales: seq<Sale>) {
    forall i :: 0 <= i < |sales| ==> SaleOk(sales[i])
  }

  lemma ListedSaleOk(sales: seq<Sale>, s: Sale)
    requires AllSalesOk(sales) && s in sales
    ensures ItemsOk(s.items)
  {
    var k :| 0 <= k < |sales| && sales[k] == s;
    assert SaleOk(sales[k]);
  }

  lemma SaleIdsCons(s: Sale, sales: seq<Sale>)
    ensures SaleIds([s] + sales) == [s.id] + SaleIds(sales)
  {
  }

  /** Prepending a sale numbered after the list's length keeps the numbering discipline. */
  lemma PrependNumbered(sales: seq<Sale>, s: Sale, year: nat)
    requires s.id == RecordId(SalePrefix, year, |sales| + 1)
    ensures NumberedIds(SalePrefix, SaleIds(sales)) ==>
              s.id !in SaleIds(sales) && NumberedIds(SalePrefix, SaleIds([s] + sales))
  {
    if NumberedIds(SalePrefix, SaleIds(sales)) {
      var ids := SaleIds(sales);
      assert '-' !in SalePrefix by {
        assert SalePrefix == ['V'];
      }
      FreshRecordId(SalePrefix, ids, year);
      SaleIdsCons(s, sales);
    }
  }

  /**
   * `handleCreateSale` on the sales list. An empty cart changes nothing.
   * Editing replaces every sale with the edited id, keeping ids and length;
   * otherwise the new sale goes first. The list keeps its numbering
   * discipline, and well-formed carts keep every sale well formed.
   */
  function CreateSale(sales: seq<Sale>, cart: seq<Product>, customer: Option<Customer>, method_: PaymentMethod,
                      editing: Option<Sale>, year: nat, now: string): (r: seq<Sale>)
    ensures cart == [] ==> r == sales
    ensures cart != [] && editing.Some? ==>
              && SaleIds(r) == SaleIds(sales)
              && (forall i :: 0 <= i < |sales| && sales[i].id != editing.value.id ==> r[i] == sales[i])
              && (forall i :: 0 <= i < |sales| && sales[i].id == editing.value.id ==>
                    r[i] == SaleRecord(cart, customer, method_, editing, |sales|, year, now))
    ensures cart != [] && editing.None? ==>
              && |r| == |sales| + 1 && r[1..] == sales
              && r[0] == SaleRecord(cart, customer, method_, editing, |sales|, year, now)
    ensures cart != [] && editing.None? && NumberedIds(SalePrefix, SaleIds(sales)) ==> r[0].id !in SaleIds(sales)
    ensures NumberedIds(SalePrefix, SaleIds(sales)) ==> NumberedIds(SalePrefix, SaleIds(r))
    ensures AllSalesOk(sales) && CartOk(cart) ==> AllSalesOk(r)
  {
    if cart == [] then sales
    else
      var s := SaleRecord(cart, customer, method_, editing, |sales|, year, now);
      if editing.Some? then
        var r := seq(|sales|, i requires 0 <= i < |sales| => if sales[i].id == editing.value.id then s else sales[i]);
        assert SaleIds(r) == SaleIds(sales);
        r
      else
        PrependNumbered(sales, s, year);
        [s] + sales
  }

  // ---------------------------------------------------------------------
  // Editing a sale
  // ---------------------------------------------------------------------

  /** The line is a catalogue product, with only its quantity possibly changed. */
  ghost predicate Listed(line: Product, catalogue: seq<Product>) {
    exists k :: 0 <= k < |catalogue| && line == catalogue[k].(quantity := line.quantity)
  }

  /**
   * The cart line an item of an opened sale becomes: the first catalogue
   * product with the item's product id, carrying the item's quantity; none
   * when the catalogue no longer has that product.
   */
  function LineFor(item: SaleItem, catalogue: seq<Product>): (r: Option<Product>)
    ensures r.None? <==> forall k :: 0 <= k < |catalogue| ==> catalogue[k].id != item.productId
    ensures r.Some? ==> r.value.id == item.productId && r.value.quantity == item.quantity && Listed(r.value, catalogue)
  {
    match Find(catalogue, (p: Product) => p.id == item.productId)
    case Some(p) => Some(p.(quantity := item.quantity))
    case None => None
  }

  /**
   * `openEditSale`'s cart: each item becomes its catalogue product with
   * the item's quantity, so it is re-priced at the current catalogue
   * price; items whose product is no longer in the catalogue are dropped.
   */
  function CartFromSale(items: seq<SaleItem>, catalogue: seq<Product>): (r: seq<Product>)
    ensures |r| <= |items|
    ensures forall i :: 0 <= i < |r| ==> Listed(r[i], catalogue)
  {
    if items == [] then []
    else
      (match LineFor(items[0], catalogue) case Some(l) => [l] case None => [])
      + CartFromSale(items[1..], catalogue)
  }

  /** A product no longer in the catalogue gets no line. */
  lemma DroppedWhenUnlisted(items: seq<SaleItem>, catalogue: seq<Product>, id: string)
    requires forall k :: 0 <= k < |catalogue| ==> catalogue[k].id != id
    ensures !HasLine(CartFromSale(items, catalogue), id)
  {
    var r := CartFromSale(items, catalogue);
    forall i | 0 <= i < |r| ensures CartIds(r)[i] != id {
      assert Listed(r[i], catalogue);
      var k :| 0 <= k < |catalogue| && r[i] == catalogue[k].(quantity := r[i].quantity);
    }
  }

  predicate FromItem(line: Product, item: SaleItem) {
    line.id == item.productId && line.quantity == item.quantity
  }

  ghost predicate FromSomeItem(line: Product, items: seq<SaleItem>) {
    exists j :: 0 <= j < |items| && FromItem(line, items[j])
  }

  /** Every line of the rebuilt cart comes from an item: same product, same quantity. */
  lemma {:induction false} LinesFromItems(items: seq<SaleItem>, catalogue: seq<Product>)
    ensures forall i :: 0 <= i < |CartFromSale(items, catalogue)| ==> FromSomeItem(CartFromSale(items, catalogue)[i], items)
  {
    var r := CartFromSale(items, catalogue);
    if items == [] {
      assert r == [];
    } else {
      LinesFromItems(items[1..], catalogue);
      var rest := CartFromSale(items[1..], catalogue);
      var d := |r| - |rest|;
      assert r[d..] == rest;
      forall i | 0 <= i < |r| ensures FromSomeItem(r[i], items) {
        if i < d {
          assert FromItem(r[i], items[0]);
        } else {
          assert FromSomeItem(rest[i - d], items[1..]);
          var j :| 0 <= j < |items[1..]| && FromItem(rest[i - d], items[1..][j]);
          assert FromItem(r[i], items[j + 1]);
        }
      }
    }
  }

  /** The cart of a sale with one item per product is a well-formed cart again. */
  lemma {:induction false} CartFromSaleOk(items: seq<SaleItem>, catalogue: seq<Product>)
    requires ItemsOk(items)
    ensures CartOk(CartFromSale(items, catalogue))
  {
    if items != [] {
      var ids := ItemProductIds(items);
      assert ItemsOk(items[1..]) by {
        assert ItemProductIds(items[1..]) == ids[1..];
      }
      CartFromSaleOk(items[1..], catalogue);
      CartFromSaleUnfold(items, catalogue);
      var l := LineFor(items[0], catalogue);
      if l.Some? {
        var rest := CartFromSale(items[1..], catalogue);
        LinesFromItems(items[1..], catalogue);
        forall k | 0 <= k < |rest| ensures rest[k].id != l.value.id {
          assert FromSomeItem(rest[k], items[1..]);
          var j :| 0 <= j < |items[1..]| && FromItem(rest[k], items[1..][j]);
          assert ids[j + 1] != ids[0];
        }
        ConsLineOk(l.value, rest);
      }
    }
  }

  /** A cart rebuilt from items: the first item's line, if its product is listed, then the rest. */
  lemma CartFromSaleUnfold(items: seq<SaleItem>, catalogue: seq<Product>)
    requires items != []
    ensures LineFor(items[0], catalogue).Some? ==>
              CartFromSale(items, catalogue) == [LineFor(items[0], catalogue).value] + CartFromSale(items[1..], catalogue)
    ensures LineFor(items[0], catalogue).None? ==> CartFromSale(items, catalogue) == CartFromSale(items[1..], catalogue)
  {
  }

  /** A line for a product the cart has no line for, in front of a well-formed cart. */
  lemma ConsLineOk(line: Product, cart: seq<Product>)
    requires CartOk(cart) && line.quantity >= 1
    requires forall k :: 0 <= k < |cart| ==> cart[k].id != line.id
    ensures CartOk([line] + cart)
  {
    var r := [line] + cart;
    assert CartIds(r) == [line.id] + CartIds(cart);
    forall i | 0 < i < |r| ensures r[i] == cart[i - 1] {
    }
  }

  /** The sale item a listed line becomes is the item it was rebuilt from. */
  lemma ItemFromListedLine(item: SaleItem, line: Product, catalogue: seq<Product>)
    requires StillListed(item, catalogue) && Listed(line, catalogue) && FromItem(line, item)
    ensures SaleItems([line])[0] == item
  {
    var k :| 0 <= k < |catalogue| && line == catalogue[k].(quantity := line.quantity);
    assert catalogue[k].id == item.productId;
  }

  lemma SaleItemsCons(line: Product, cart: seq<Product>)
    ensures SaleItems([line] + cart) == [SaleItems([line])[0]] + SaleItems(cart)
  {
    var r := SaleItems([line] + cart);
    assert forall i :: 0 < i < |r| ==> ([line] + cart)[i] == cart[i - 1];
  }

  /**
   * The item still matches the catalogue: some catalogue product has its
   * product id, every such product carries the item's name and unit
   * price, and the subtotal is consistent.
   */
  ghost predicate StillListed(item: SaleItem, catalogue: seq<Product>) {
    && (exists k :: 0 <= k < |catalogue| && catalogue[k].id == item.productId)
    && (forall k :: 0 <= k < |catalogue| && catalogue[k].id == item.productId ==>
          catalogue[k].name == item.productName && catalogue[k].sellingPrice == item.unitPrice)
    && ItemConsistent(item)
  }

  /**
   * Opening a sale whose products are all still listed at the same price
   * and re-recording it gives back the same items: editing without
   * changes keeps the amounts.
   */
  lemma {:induction false} EditRoundTrip(items: seq<SaleItem>, catalogue: seq<Product>)
    requires forall i :: 0 <= i < |items| ==> StillListed(items[i], catalogue)
    ensures SaleItems(CartFromSale(items, catalogue)) == items
  {
    if items != [] {
      EditRoundTrip(items[1..], catalogue);
      var l := LineFor(items[0], catalogue);
      assert StillListed(items[0], catalogue);
      assert l.Some?;
      CartFromSaleUnfold(items, catalogue);
      ItemFromListedLine(items[0], l.value, catalogue);
      RoundTripStep(items, catalogue, l.value);
    }
  }

  lemma RoundTripStep(items: seq<SaleItem>, catalogue: seq<Product>, line: Product)
    requires items != [] && SaleItems([line])[0] == items[0]
    requires SaleItems(CartFromSale(items[1..], catalogue)) == items[1..]
    requires CartFromSale(items, catalogue) == [line] + CartFromSale(items[1..], catalogue)
    ensures SaleItems(CartFromSale(items, catalogue)) == items
  {
    SaleItemsCons(line, CartFromSale(items[1..], catalogue));
    assert items == [items[0]] + items[1..];
  }

  /**
   * The customer the form shows after opening a sale: the sale's customer
   * when it has a non-empty id that is in the customer list; otherwise
   * whatever customer was already chosen.
   */
  function CustomerOnEdit(s: Sale, customers: seq<Customer>, current: Option<Customer>): (r: Option<Customer>)
    ensures r == current || (r.Some? && r.value in customers && Truthy(s.customerId) && r.value.id == s.customerId.value)
    ensures Truthy(s.customerId) && (exists k :: 0 <= k < |customers| && customers[k].id == s.customerId.value) ==>
              r.Some? && r.value.id == s.customerId.value
  {
    if Truthy(s.customerId) then
      match Find(customers, (c: Customer) => c.id == s.customerId.value)
      case Some(c) => Some(c)
      case None => current
    else current
  }

  // ---------------------------------------------------------------------
  // The screen
  // ---------------------------------------------------------------------

  class SalesScreen {
    var sales: seq<Sale>
    var searchTerm: string
    /** The sale being edited; none while recording a new one. */
    var selectedSale: Option<Sale>
    /** `selectedProducts`: the cart. */
    var cart: seq<Product>
    var selectedCustomer: Option<Customer>
    var paymentMethod: PaymentMethod
    var productSearchTerm: string
    var customerSearchTerm: string
    /** The product catalogue the form sells from. */
    const catalogue: seq<Product>
    /** This screen's copy of the customer list (`mockCustomers`); a customer added here is appended to the copy. */
    var customers: seq<Customer>

    /** Well-formed cart, numbered ids, well-formed sales. */
    ghost predicate Valid()
      reads this
    {
      CartOk(cart) && NumberedIds(SalePrefix, SaleIds(sales)) && AllSalesOk(sales)
    }

    constructor (initial: seq<Sale>, catalogue: seq<Product>, customers: seq<Customer>)
      requires NumberedIds(SalePrefix, SaleIds(initial)) && AllSalesOk(initial)
      ensures Valid()
      ensures sales == initial && this.catalogue == catalogue && this.customers == customers
      ensures cart == [] && selectedCustomer == None && selectedSale == None && paymentMethod == CreditCard
      ensures searchTerm == "" && productSearchTerm == "" && customerSearchTerm == ""
    {
      sales := initial;
      this.catalogue := catalogue;
      this.customers := customers;
      cart := [];
      selectedCustomer := None;
      selectedSale := None;
      paymentMethod := CreditCard;
      searchTerm := "";
      productSearchTerm := "";
      customerSearchTerm := "";
    }

    /** The rows of the sales table: the sales matching the search term. */
    function Visible(): (r: seq<Sale>)
      reads this
      ensures forall i :: 0 <= i < |r| ==> r[i] in sales && SaleMatches(r[i], searchTerm)
      ensures forall i :: 0 <= i < |sales| && SaleMatches(sales[i], searchTerm) ==> sales[i] in r
    {
      FilteredSales(sales, searchTerm)
    }

    /** The running total the form shows: in a well-formed cart, never negative while no price is. */
    function Total(): (t: int)
      reads this
      ensures CartOk(cart) && (forall i :: 0 <= i < |cart| ==> cart[i].sellingPrice >= 0) ==> t >= 0
    {
      CartTotalNonNegative(cart);
      CalculateTotal(cart)
    }

    /** `filteredProducts`: the catalogue products the product search offers. */
    function ProductChoices(): (r: seq<Product>)
      reads this
      ensures forall i :: 0 <= i < |r| ==> r[i] in catalogue && InventoryPage.ProductTextMatches(r[i], productSearchTerm)
      ensures forall i :: 0 <= i < |catalogue| && InventoryPage.ProductTextMatches(catalogue[i], productSearchTerm) ==> catalogue[i] in r
    {
      FilteredCatalogue(catalogue, productSearchTerm)
    }

    /** `filteredCustomers`: the customers the customer search offers, matched as on the customers screen. */
    function CustomerChoices(): (r: seq<Customer>)
      reads this
      ensures forall i :: 0 <= i < |r| ==> r[i] in customers && CustomersPage.CustomerMatches(r[i], customerSearchTerm)
      ensures forall i :: 0 <= i < |customers| && CustomersPage.CustomerMatches(customers[i], customerSearchTerm) ==> customers[i] in r
    {
      CustomersPage.FilteredCustomers(customers, customerSearchTerm)
    }

    method AddProductToSale(p: Product)
      requires Valid()
      modifies this
      ensures Valid()
      ensures cart == AddToCart(old(cart), p) && productSearchTerm == ""
      ensures sales == old(sales) && selectedSale == old(selectedSale) && selectedCustomer == old(selectedCustomer)
      ensures paymentMethod == old(paymentMethod) && customers == old(customers)
      ensures searchTerm == old(searchTerm) && customerSearchTerm == old(customerSearchTerm)
    {
      cart := AddToCart(cart, p);
      productSearchTerm := "";
    }

    method RemoveProductFromSale(id: string)
      requires Valid()
      modifies this
      ensures Valid()
      ensures cart == RemoveFromCart(old(cart), id)
      ensures sales == old(sales) && selectedSale == old(selectedSale) && selectedCustomer == old(selectedCustomer)
      ensures paymentMethod == old(paymentMethod) && customers == old(customers)
      ensures searchTerm == old(searchTerm) && productSearchTerm == old(productSearchTerm)
      ensures customerSearchTerm == old(customerSearchTerm)
    {
      RemoveKeepsCartOk(cart, id);
      cart := RemoveFromCart(cart, id);
    }

    method UpdateProductQuantity(id: string, q: int)
      requires Valid()
      modifies this
      ensures Valid()
      ensures cart == UpdateQuantity(old(cart), id, q)
      ensures sales == old(sales) && selectedSale == old(selectedSale) && selectedCustomer == old(selectedCustomer)
      ensures paymentMethod == old(paymentMethod) && customers == old(customers)
      ensures searchTerm == old(searchTerm) && productSearchTerm == old(productSearchTerm)
      ensures customerSearchTerm == old(customerSearchTerm)
    {
      cart := UpdateQuantity(cart, id, q);
    }

    /** The search box over the recorded sales. */
    method Search(term: string)
      requires Valid()
      modifies this
      ensures Valid()
      ensures searchTerm == term
      ensures sales == old(sales) && selectedSale == old(selectedSale) && cart == old(cart)
      ensures selectedCustomer == old(selectedCustomer) && customers == old(customers) && paymentMethod == old(paymentMethod)
      ensures productSearchTerm == old(productSearchTerm) && customerSearchTerm == old(customerSearchTerm)
    {
      searchTerm := term;
    }

    /** The form's product search box; its drop-down lists `ProductChoices()` while the term is not empty. */
    method SearchProducts(term: string)
      requires Valid()
      modifies this
      ensures Valid()
      ensures productSearchTerm == term
      ensures sales == old(sales) && selectedSale == old(selectedSale) && cart == old(cart)
      ensures selectedCustomer == old(selectedCustomer) && customers == old(customers) && paymentMethod == old(paymentMethod)
      ensures searchTerm == old(searchTerm) && customerSearchTerm == old(customerSearchTerm)
    {
      productSearchTerm := term;
    }

    /** The form's customer search box; its drop-down lists `CustomerChoices()` while the term is not empty. */
    method SearchCustomers(term: string)
      requires Valid()
      modifies this
      ensures Valid()
      ensures customerSearchTerm == term
      ensures sales == old(sales) && selectedSale == old(selectedSale) && cart == old(cart)
      ensures selectedCustomer == old(selectedCustomer) && customers == old(customers) && paymentMethod == old(paymentMethod)
      ensures searchTerm == old(searchTerm) && productSearchTerm == old(productSearchTerm)
    {
      customerSearchTerm := term;
    }

    /** `selectCustomer`: choose the customer and clear the customer search. */
    method SelectCustomer(c: Customer)
      requires Valid()
      modifies this
      ensures Valid()
      ensures selectedCustomer == Some(c) && customerSearchTerm == ""
      ensures sales == old(sales) && selectedSale == old(selectedSale) && cart == old(cart)
      ensures paymentMethod == old(paymentMethod) && customers == old(customers)
      ensures searchTerm == old(searchTerm) && productSearchTerm == old(productSearchTerm)
    {
      selectedCustomer := Some(c);
      customerSearchTerm := "";
    }

    /** The "Remover" button under the chosen customer. */
    method ClearCustomer()
      requires Valid()
      modifies this
      ensures Valid()
      ensures selectedCustomer == None
      ensures sales == old(sales) && selectedSale == old(selectedSale) && cart == old(cart)
      ensures paymentMethod == old(paymentMethod) && customers == old(customers)
      ensures searchTerm == old(searchTerm) && productSearchTerm == old(productSearchTerm)
      ensures customerSearchTerm == old(customerSearchTerm)
    {
      selectedCustomer := None;
    }

    method ChoosePaymentMethod(m: PaymentMethod)
      requires Valid()
      modifies this
      ensures Valid()
      ensures paymentMethod == m
      ensures sales == old(sales) && selectedSale == old(selectedSale) && cart == old(cart)
      ensures selectedCustomer == old(selectedCustomer) && customers == old(customers)
      ensures searchTerm == old(searchTerm) && productSearchTerm == old(productSearchTerm)
      ensures customerSearchTerm == old(customerSearchTerm)
    {
      paymentMethod := m;
    }

    /**
     * The quick customer form of the sale form: an invalid form changes
     * nothing; a valid one appends a new customer, with no purchases, to
     * the screen's customer list and chooses it.
     */
    method AddNewCustomer(f: CustomersPage.CustomerForm, id: string, today: string) returns (accepted: bool)
      requires Valid()
      modifies this
      ensures Valid()
      ensures accepted == CustomersPage.FormValid(f)
      ensures !accepted ==> customers == old(customers) && selectedCustomer == old(selectedCustomer)
                            && customerSearchTerm == old(customerSearchTerm)
      ensures accepted ==> customers == old(customers) + [CustomersPage.NewCustomer(f, id, today)]
      ensures accepted ==> selectedCustomer == Some(CustomersPage.NewCustomer(f, id, today)) && customerSearchTerm == ""
      ensures sales == old(sales) && selectedSale == old(selectedSale) && cart == old(cart)
      ensures paymentMethod == old(paymentMethod)
      ensures searchTerm == old(searchTerm) && productSearchTerm == old(productSearchTerm)
    {
      if !CustomersPage.FormValid(f) {
        return false;
      }
      var c := CustomersPage.NewCustomer(f, id, today);
      customers := customers + [c];
      SelectCustomer(c);
      return true;
    }

    /**
     * `openEditSale`: the form edits the sale, its cart is rebuilt from the
     * items at catalogue prices, the sale's customer is chosen when found,
     * and its payment method is selected.
     */
    method OpenEditSale(s: Sale)
      requires Valid() && s in sales
      modifies this
      ensures Valid()
      ensures selectedSale == Some(s) && cart == CartFromSale(s.items, catalogue)
      ensures selectedCustomer == CustomerOnEdit(s, customers, old(selectedCustomer))
      ensures paymentMethod == s.paymentMethod
      ensures sales == old(sales) && customers == old(customers)
      ensures searchTerm == old(searchTerm) && productSearchTerm == old(productSearchTerm)
      ensures customerSearchTerm == old(customerSearchTerm)
    {
      ListedSaleOk(sales, s);
      var lines := CartFromSale(s.items, catalogue);
      CartFromSaleOk(s.items, catalogue);
      selectedSale := Some(s);
      cart := lines;
      selectedCustomer := CustomerOnEdit(s, customers, selectedCustomer);
      paymentMethod := s.paymentMethod;
    }

    /** `resetSaleForm`: an empty cart, no customer, credit card, no sale being edited. */
    method ResetSaleForm()
      requires Valid()
      modifies this
      ensures Valid()
      ensures cart == [] && selectedCustomer == None && paymentMethod == CreditCard && selectedSale == None
      ensures productSearchTerm == "" && customerSearchTerm == ""
      ensures sales == old(sales) && customers == old(customers) && searchTerm == old(searchTerm)
    {
      cart := [];
      selectedCustomer := None;
      paymentMethod := CreditCard;
      productSearchTerm := "";
      customerSearchTerm := "";
      selectedSale := None;
    }

    /**
     * `handleCreateSale`: with an empty cart nothing changes (the alert);
     * otherwise the sale is recorded or replaced and the form is reset.
     */
    method FinishSale(year: nat, now: string) returns (recorded: bool)
      requires Valid()
      modifies this
      ensures Valid()
      ensures recorded == (old(cart) != [])
      ensures !recorded ==> sales == old(sales) && selectedSale == old(selectedSale)
                            && selectedCustomer == old(selectedCustomer) && paymentMethod == old(paymentMethod)
                            && productSearchTerm == old(productSearchTerm) && customerSearchTerm == old(customerSearchTerm)
                            && cart == old(cart)
      ensures sales == CreateSale(old(sales), old(cart), old(selectedCustomer), old(paymentMethod), old(selectedSale), year, now)
      ensures recorded ==> cart == [] && selectedCustomer == None && paymentMethod == CreditCard && selectedSale == None
      ensures recorded ==> productSearchTerm == "" && customerSearchTerm == ""
      ensures customers == old(customers) && searchTerm == old(searchTerm)
    {
      if cart == [] {
        return false;
      }
      sales := CreateSale(sales, cart, selectedCustomer, paymentMethod, selectedSale, year, now);
      ResetSaleForm();
      return true;
    }
  }

  /** Every seed sale has one item per product, each with at least one unit. */
  lemma SeedSalesOk()
    ensures AllSalesOk(SeedSales)
    ensures NumberedIds(SalePrefix, SaleIds(SeedSales))
  {
    SeedSaleIdsNumbered();
    forall i | 0 <= i < |SeedSales| ensures SaleOk(SeedSales[i]) {
      SeedSalesConsistent();
      SeedItemsOk(i);
    }
  }

  lemma SeedItemsOk(n: int)
    requires 0 <= n < |SeedSales|
    ensures ItemsOk(SeedSales[n].items)
  {
    var items := SeedSales[n].items;
    var ids := ItemProductIds(items);
    forall i, j | 0 <= i < j < |ids| ensures ids[i] != ids[j] {
      assert ids[i][0] != ids[j][0];
    }
  }
}
