/**
 * The sale record, the payment-method labels and the seed sales.
 * Amounts are integer centavos (R$ 8199.99 is 819999).
 */
module SalesData {
  import opened Common

  datatype PaymentMethod = CreditCard | DebitCard | Cash | Pix

  datatype SaleStatus = Completed | Canceled

  datatype SaleItem = SaleItem(
    productId: string,
    productName: string,
    quantity: int,
    unitPrice: int,
    subtotal: int)

  datatype Sale = Sale(
    id: string,
    customerId: Option<string>,
    customerName: Option<string>,
    date: string,
    items: seq<SaleItem>,
    total: int,
    paymentMethod: PaymentMethod,
    employeeId: string,
    employeeName: string,
    status: SaleStatus)

  /** `paymentMethodTranslations`: the Portuguese label of each payment method. */
  function PaymentMethodLabel(m: PaymentMethod): (l: string)
    ensures l != ""
  {
    match m
    case CreditCard => "Cartão de Crédito"
    case DebitCard => "Cartão de Débito"
    case Cash => "Dinheiro"
    case Pix => "Pix"
  }

  /** Different payment methods carry different labels. */
  lemma PaymentMethodLabelInjective(m1: PaymentMethod, m2: PaymentMethod)
    requires PaymentMethodLabel(m1) == PaymentMethodLabel(m2)
    ensures m1 == m2
  {
    var l1, l2 := PaymentMethodLabel(m1), PaymentMethodLabel(m2);
    assert l1[0] == l2[0] && |l1| == |l2|;
    if m1.CreditCard? || m1.DebitCard? {
      assert l1[10] == l2[10];
    }
  }

  /** The sum of the item subtotals. */
  function ItemsTotal(items: seq<SaleItem>): int {
    if items == [] then 0 else items[0].subtotal + ItemsTotal(items[1..])
  }

  /** An item's subtotal is its unit price times its quantity. */
  predicate ItemConsistent(item: SaleItem) {
    item.subtotal == item.unitPrice * item.quantity
  }

  /** Every subtotal is price times quantity and the total is the sum of the subtotals. */
  predicate SaleConsistent(s: Sale) {
    && (forall i :: 0 <= i < |s.items| ==> ItemConsistent(s.items[i]))
    && s.total == ItemsTotal(s.items)
  }

  function SaleIds(sales: seq<Sale>): (r: seq<string>)
    ensures |r| == |sales|
    ensures forall i :: 0 <= i < |sales| ==> r[i] == sales[i].id
  {
    seq(|sales|, i requires 0 <= i < |sales| => sales[i].id)
  }

  const SalePrefix := "V"

  const SeedSales: seq<Sale> := [
    Sale("V-2023-001", Some("1"), Some("Ana Silva"), "2023-09-12T14:30:00Z",
         [SaleItem("1", "iPhone 13 Pro", 1, 819999, 819999),
          SaleItem("3", "AirPods Pro", 1, 179999, 179999)],
         999998, CreditCard, "2", "Marina Souza", Completed),
    Sale("V-2023-002", Some("2"), Some("Carlos Oliveira"), "2023-10-15T10:15:00Z",
         [SaleItem("2", "Samsung Galaxy S22", 1, 449999, 449999),
          SaleItem("4", "Carregador USB-C 20W", 2, 12999, 25998),
          SaleItem("8", "Capa Protetora iPhone 14", 1, 8999, 8999)],
         484996, Pix, "4", "Juliana Alves", Completed),
    Sale("V-2023-003", Some("5"), Some("Juliana Lima"), "2023-08-29T16:45:00Z",
         [SaleItem("6", "iPad Pro 11\"", 1, 679999, 679999)],
         679999, CreditCard, "2", "Marina Souza", Completed),
    Sale("V-2023-004", None, None, "2023-10-10T09:30:00Z",
         [SaleItem("4", "Carregador USB-C 20W", 1, 12999, 12999),
          SaleItem("8", "Capa Protetora iPhone 14", 1, 8999, 8999)],
         21998, Cash, "4", "Juliana Alves", Completed),
    Sale("V-2023-005", Some("3"), Some("Mariana Costa"), "2023-07-08T11:20:00Z",
         [SaleItem("3", "AirPods Pro", 1, 179999, 179999)],
         179999, DebitCard, "2", "Marina Souza", Completed)
  ]

  /** Every seed sale is internally consistent: subtotals and totals add up. */
  lemma SeedSalesConsistent()
    ensures forall i :: 0 <= i < |SeedSales| ==> SaleConsistent(SeedSales[i])
  {
    var s := SeedSales;
    assert ItemsTotal(s[0].items) == 999998;
    assert ItemsTotal(s[1].items) == 484996;
    assert ItemsTotal(s[2].items) == 679999;
    assert ItemsTotal(s[3].items) == 21998;
    assert ItemsTotal(s[4].items) == 179999;
  }

  /** The seed ids are `V-2023-001` to `V-2023-005`: the numbering new sales continue. */
  lemma SeedSaleIdsNumbered()
    ensures SaleIds(SeedSales) == YearRun(SalePrefix, 2023, 5)
    ensures NumberedIds(SalePrefix, SaleIds(SeedSales))
  {
    SeedSaleIdsAreRun();
    YearRunNumbered(SalePrefix, 2023, 5);
  }

  lemma SeedSaleIdsAreRun()
    ensures SaleIds(SeedSales) == YearRun(SalePrefix, 2023, 5)
  {
    SeedYearRun(SalePrefix);
    assert SaleIds(SeedSales) == ["V-2023-001", "V-2023-002", "V-2023-003", "V-2023-004", "V-2023-005"];
    assert SalePrefix + "-2023-001" == "V-2023-001";
    assert SalePrefix + "-2023-002" == "V-2023-002";
    assert SalePrefix + "-2023-003" == "V-2023-003";
    assert SalePrefix + "-2023-004" == "V-2023-004";
    assert SalePrefix + "-2023-005" == "V-2023-005";
    assert [SalePrefix + "-2023-001", SalePrefix + "-2023-002", SalePrefix + "-2023-003", SalePrefix + "-2023-004", SalePrefix + "-2023-005"] == ["V-2023-001", "V-2023-002", "V-2023-003", "V-2023-004", "V-2023-005"];
  }
}
