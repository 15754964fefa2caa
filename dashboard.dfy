/**
 * The dashboard: the figures computed from the shared sales, products
 * and service orders lists, the three most recent sales, the first five
 * open service orders, and the low-stock table.
 */
module Dashboard {
  import opened Common
  import opened ProductData
  import opened SalesData
  import opened ServiceOrderData
  import InventoryPage

  // ---------------------------------------------------------------------
  // Sales
  // ---------------------------------------------------------------------

  /** `totalSales`: the sum of every sale's total, canceled sales included; never negative when no total is. */
  function TotalSales(sales: seq<Sale>): (r: int)
    ensures (forall j :: 0 <= j < |sales| ==> sales[j].total >= 0) ==> r >= 0
  {
    if sales == [] then 0 else sales[0].total + TotalSales(sales[1..])
  }

  /** The sum of the totals of the sales with the given status. */
  function TotalWithStatus(sales: seq<Sale>, status: SaleStatus): int {
    if sales == [] then 0
    else (if sales[0].status == status then sales[0].total else 0) + TotalWithStatus(sales[1..], status)
  }

  /**
   * The sales figure is the completed sales plus the canceled ones: the
   * dashboard does not leave canceled sales out.
   */
  lemma {:induction false} TotalSalesPartition(sales: seq<Sale>)
    ensures TotalSales(sales) == TotalWithStatus(sales, SaleStatus.Completed) + TotalWithStatus(sales, Canceled)
  {
    if sales != [] {
      TotalSalesPartition(sales[1..]);
    }
  }

  /** With no negative totals, the figure is at least any single sale's total. */
  lemma {:induction false} TotalSalesBoundsEach(sales: seq<Sale>, i: int)
    requires forall j :: 0 <= j < |sales| ==> sales[j].total >= 0
    requires 0 <= i < |sales|
    ensures sales[i].total <= TotalSales(sales)
  {
    if i > 0 {
      TotalSalesBoundsEach(sales[1..], i - 1);
    }
  }


  /** `mockSales.slice(0, 3)`: the first three sales of the list, or all of them when fewer. */
  function RecentSales(sales: seq<Sale>): (r: seq<Sale>)
    ensures |r| == if |sales| < 3 then |sales| else 3
    ensures forall i :: 0 <= i < |r| ==> r[i] == sales[i]
  {
    Take(sales, 3)
  }

  // ---------------------------------------------------------------------
  // Products
  // ---------------------------------------------------------------------

  /** `totalProducts`: the units in stock, summed over every product; never negative when no quantity is. */
  function TotalStock(products: seq<Product>): (r: int)
    ensures (forall j :: 0 <= j < |products| ==> products[j].quantity >= 0) ==> r >= 0
  {
    if products == [] then 0 else products[0].quantity + TotalStock(products[1..])
  }

  /** With no negative quantities, the stock figure is at least any product's quantity. */
  lemma {:induction false} TotalStockBoundsEach(products: seq<Product>, i: int)
    requires forall j :: 0 <= j < |products| ==> products[j].quantity >= 0
    requires 0 <= i < |products|
    ensures products[i].quantity <= TotalStock(products)
  {
    if i > 0 {
      TotalStockBoundsEach(products[1..], i - 1);
    }
  }

  /** The stock figure of two lists put together is the sum of their figures. */
  lemma {:induction false} TotalStockAppend(a: seq<Product>, b: seq<Product>)
    ensures TotalStock(a + b) == TotalStock(a) + TotalStock(b)
  {
    if a == [] {
      assert a + b == b;
    } else {
      assert (a + b)[0] == a[0] && (a + b)[1..] == a[1..] + b;
      TotalStockAppend(a[1..], b);
    }
  }

  /** A product is low on stock when its quantity is at most its threshold. */
  predicate IsLowStock(p: Product) {
    p.quantity <= p.lowStockThreshold
  }

  /** `lowStockProducts`: the products at or below their threshold, in list order. */
  function LowStock(products: seq<Product>): (r: seq<Product>)
    ensures forall i :: 0 <= i < |r| ==> r[i] in products && IsLowStock(r[i])
    ensures forall i :: 0 <= i < |products| && IsLowStock(products[i]) ==> products[i] in r
  {
    Filter(products, IsLowStock)
  }

  /**
   * The low-stock card's badge: a warning while some product is low on
   * stock, a success ("healthy stock") when none is.
   */
  function LowStockBadge(products: seq<Product>): (v: BadgeVariant)
    ensures v == Success <==> forall i :: 0 <= i < |products| ==> !IsLowStock(products[i])
    ensures v == Success || v == Warning
  {
    var low := LowStock(products);
    if |low| > 0 then
      assert low[0] in products && IsLowStock(low[0]);
      Warning
    else Success
  }

  /** The rows of the low-stock table: `lowStockProducts.slice(0, 3)`, the first three low-stock products. */
  function LowStockRows(products: seq<Product>): (r: seq<Product>)
    ensures |r| == if |LowStock(products)| < 3 then |LowStock(products)| else 3
    ensures forall i :: 0 <= i < |r| ==> r[i] == LowStock(products)[i]
    ensures forall i :: 0 <= i < |r| ==> r[i] in products && IsLowStock(r[i])
  {
    Take(LowStock(products), 3)
  }

  /**
   * Every low-stock row is flagged by the inventory screen's badge too:
   * critical (at most half the threshold, shown in red) or low.
   */
  lemma LowStockRowsFlagged(products: seq<Product>, i: int)
    requires 0 <= i < |LowStockRows(products)|
    ensures InventoryPage.StockLevelOf(LowStockRows(products)[i]) != InventoryPage.InStock
  {
  }

  /**
   * With a non-negative threshold, the dashboard's low-stock rule and the
   * inventory screen's badge agree in both directions.
   */
  lemma LowStockIffFlagged(p: Product)
    requires p.lowStockThreshold >= 0
    ensures IsLowStock(p) <==> InventoryPage.StockLevelOf(p) != InventoryPage.InStock
  {
    InventoryPage.StockLevelsOrdered(p);
  }

  // ---------------------------------------------------------------------
  // Service orders
  // ---------------------------------------------------------------------

  /** The statuses the dashboard counts as still open. */
  predicate IsOpen(s: ServiceStatus) {
    s == Pending || s == Diagnosing || s == WaitingApproval || s == InProgress
  }

  /** An order is open exactly when it is not completed, delivered or cancelled. */
  lemma OpenIffNotClosed(s: ServiceStatus)
    ensures IsOpen(s) <==> !(s == ServiceStatus.Completed || s == Delivered || s == Cancelled)
  {
  }

  predicate OrderOpen(o: ServiceOrder) {
    IsOpen(o.status)
  }

  predicate OrderInProgress(o: ServiceOrder) {
    o.status == InProgress
  }

  /** `pendingOrders`: the open orders, in list order. */
  function OpenOrders(orders: seq<ServiceOrder>): (r: seq<ServiceOrder>)
    ensures forall i :: 0 <= i < |r| ==> r[i] in orders && IsOpen(r[i].status)
    ensures forall i :: 0 <= i < |orders| && IsOpen(orders[i].status) ==> orders[i] in r
  {
    Filter(orders, OrderOpen)
  }

  /** The number under "in progress": the orders whose status is exactly in progress. */
  function InProgressCount(orders: seq<ServiceOrder>): (n: nat)
    ensures n <= |orders|
    ensures n == 0 <==> forall i :: 0 <= i < |orders| ==> orders[i].status != InProgress
  {
    var r := Filter(orders, OrderInProgress);
    assert |r| > 0 ==> r[0] in orders && OrderInProgress(r[0]);
    |r|
  }

  /** The orders in progress are among the open ones, so never more numerous. */
  lemma {:induction false} InProgressAtMostOpen(orders: seq<ServiceOrder>)
    ensures InProgressCount(orders) <= |OpenOrders(orders)|
  {
    if orders != [] {
      InProgressAtMostOpen(orders[1..]);
      assert InProgressCount(orders) <= 1 + InProgressCount(orders[1..]);
      if orders[0].status == InProgress {
        assert |OpenOrders(orders)| == 1 + |OpenOrders(orders[1..])|;
      } else {
        assert InProgressCount(orders) == InProgressCount(orders[1..]);
        assert |OpenOrders(orders)| >= |OpenOrders(orders[1..])|;
      }
    }
  }

  /** The open orders the table lists: `pendingOrders.slice(0, 5)`, the first five. */
  function ShownOpenOrders(orders: seq<ServiceOrder>): (r: seq<ServiceOrder>)
    ensures |r| == if |OpenOrders(orders)| < 5 then |OpenOrders(orders)| else 5
    ensures forall i :: 0 <= i < |r| ==> r[i] == OpenOrders(orders)[i]
    ensures forall i :: 0 <= i < |r| ==> r[i] in orders && IsOpen(r[i].status)
  {
    Take(OpenOrders(orders), 5)
  }

  /**
   * The status badge in the open-orders table: never red or dark, and for
   * an open order the colour the service-orders screen uses.
   */
  function OpenOrderBadge(s: ServiceStatus): (v: BadgeVariant)
    ensures v != Error && v != Dark
    ensures IsOpen(s) ==> v == StatusColor(s)
  {
    if s == Pending || s == WaitingApproval then Warning
    else if s == InProgress || s == Diagnosing then Primary
    else Success
  }

  /**
   * For the orders the table can show, its badge has the colour the
   * service-orders screen gives the same status; only a cancelled order,
   * which is never shown here, would differ.
   */
  lemma OpenOrderBadgeAgrees(s: ServiceStatus)
    ensures IsOpen(s) ==> OpenOrderBadge(s) == StatusColor(s)
    ensures OpenOrderBadge(s) != StatusColor(s) <==> s == Cancelled
  {
  }

  /** The status text in the open-orders table, with "awaiting approval" abbreviated. */
  function ShortStatusLabel(s: ServiceStatus): (l: string)
    ensures s != WaitingApproval ==> l == StatusLabel(s)
    ensures |l| < |StatusLabel(s)| || l == StatusLabel(s)
  {
    match s
    case Pending => "Pendente"
    case Diagnosing => "Diagnóstico"
    case WaitingApproval => "Aguard. Aprovação"
    case InProgress => "Em Andamento"
    case Completed => "Concluído"
    case Delivered => "Entregue"
    case Cancelled => "Cancelado"
  }

  /** The short labels still tell the statuses apart. */
  lemma ShortStatusLabelInjective(s1: ServiceStatus, s2: ServiceStatus)
    requires ShortStatusLabel(s1) == ShortStatusLabel(s2)
    ensures s1 == s2
  {
    var l1, l2 := ShortStatusLabel(s1), ShortStatusLabel(s2);
    assert l1[0] == l2[0] && |l1| == |l2|;
  }

  // ---------------------------------------------------------------------
  // The seed data
  // ---------------------------------------------------------------------

  /** On the seed sales the sales card shows R$ 23.669,90. */
  lemma SeedTotalSales()
    ensures TotalSales(SeedSales) == 2366990
  {
    var s := SeedSales;
    assert TotalSales(s[4..]) == 179999;
    assert TotalSales(s[3..]) == 21998 + 179999;
    assert TotalSales(s[2..]) == 679999 + 21998 + 179999;
    assert TotalSales(s[1..]) == 484996 + 679999 + 21998 + 179999;
  }

  /** The open orders of a list are its first order, when open, and the open orders of the rest. */
  lemma OpenCountUnfold(orders: seq<ServiceOrder>)
    requires orders != []
    ensures |OpenOrders(orders)| == (if IsOpen(orders[0].status) then 1 else 0) + |OpenOrders(orders[1..])|
  {
    FilterUnfold(orders, OrderOpen);
  }

  /** On the seed orders three are open: the one in progress, the one being diagnosed and the one awaiting approval. */
  lemma SeedOpenOrders()
    ensures |OpenOrders(SeedOrders)| == 3
  {
    var o := SeedOrders;
    var o1, o2, o3, o4 := o[1..], o[2..], o[3..], o[4..];
    assert o1[0] == o[1] && o1[1..] == o2;
    assert o2[0] == o[2] && o2[1..] == o3;
    assert o3[0] == o[3] && o3[1..] == o4;
    assert o4[1..] == [];
    assert IsOpen(o[0].status) && IsOpen(o[1].status) && IsOpen(o[2].status);
    assert !IsOpen(o[3].status) && !IsOpen(o[4].status);
    OpenCountUnfold(o);
    OpenCountUnfold(o1);
    OpenCountUnfold(o2);
    OpenCountUnfold(o3);
    OpenCountUnfold(o4);
  }

  /** Exactly one seed order is in progress. */
  lemma SeedInProgress()
    ensures InProgressCount(SeedOrders) == 1
  {
    var o := SeedOrders;
    assert o[3..][1..] == o[4..];
    assert Filter(o[4..], OrderInProgress) == [];
    assert Filter(o[3..], OrderInProgress) == [];
    assert o[2..][1..] == o[3..];
    assert Filter(o[2..], OrderInProgress) == [];
    assert o[1..][1..] == o[2..];
    assert Filter(o[1..], OrderInProgress) == [];
  }

  /** The recent-sales table lists the first three seed sales, V-2023-001 to V-2023-003. */
  lemma SeedRecentSales()
    ensures SaleIds(RecentSales(SeedSales)) == ["V-2023-001", "V-2023-002", "V-2023-003"]
  {
  }
}
