/**
 * The service-order record with its seven-state status, the status labels
 * and badge colours, and the seed orders. Budgets are integer centavos.
 */
module ServiceOrderData {
  import opened Common

  datatype ServiceStatus =
    | Pending
    | Diagnosing
    | WaitingApproval
    | InProgress
    | Completed
    | Delivered
    | Cancelled

  datatype ServiceOrder = ServiceOrder(
    id: string,
    customerId: string,
    customerName: string,
    deviceType: string,
    deviceModel: string,
    defect: string,
    imei: string,
    password: string,
    budget: Option<int>,
    notes: string,
    status: ServiceStatus,
    createdAt: string,
    updatedAt: string,
    technicianId: Option<string>,
    technicianName: Option<string>)

  /** `serviceStatusTranslations`. */
  function StatusLabel(s: ServiceStatus): string {
    match s
    case Pending => "Pendente"
    case Diagnosing => "Diagnóstico"
    case WaitingApproval => "Aguardando Aprovação"
    case InProgress => "Em Andamento"
    case Completed => "Concluído"
    case Delivered => "Entregue"
    case Cancelled => "Cancelado"
  }

  /** `serviceStatusColors`. */
  function StatusColor(s: ServiceStatus): (v: BadgeVariant)
    ensures v == Success <==> s == Completed || s == Delivered
    ensures v == Error <==> s == Cancelled
    ensures v == Warning <==> s == Pending || s == WaitingApproval
    ensures v == Primary <==> s == Diagnosing || s == InProgress
  {
    match s
    case Pending => Warning
    case Diagnosing => Primary
    case WaitingApproval => Warning
    case InProgress => Primary
    case Completed => Success
    case Delivered => Success
    case Cancelled => Error
  }

  /** Each status has its own label. */
  lemma StatusLabelInjective(s1: ServiceStatus, s2: ServiceStatus)
    requires StatusLabel(s1) == StatusLabel(s2)
    ensures s1 == s2
  {
    var l1, l2 := StatusLabel(s1), StatusLabel(s2);
    assert l1[0] == l2[0] && |l1| == |l2|;
  }

  /**
   * `a` and `b` agree on their first `k` characters, and then `b` ends or
   * `a` has the larger character there.
   */
  ghost predicate NotBeforeAt(a: string, b: string, k: nat) {
    && k <= |a| && k <= |b|
    && a[..k] == b[..k]
    && (k == |b| || (k < |a| && a[k] > b[k]))
  }

  /**
   * `a` is not earlier than `b` in string order. For ISO-8601 UTC
   * timestamps of the same shape, string order is chronological order.
   */
  ghost predicate NotBefore(a: string, b: string) {
    exists k: nat :: NotBeforeAt(a, b, k)
  }

  function OrderIds(orders: seq<ServiceOrder>): (r: seq<string>)
    ensures |r| == |orders|
    ensures forall i :: 0 <= i < |orders| ==> r[i] == orders[i].id
  {
    seq(|orders|, i requires 0 <= i < |orders| => orders[i].id)
  }

  const OrderPrefix := "OS"

  const SeedOrders: seq<ServiceOrder> := [
    ServiceOrder("OS-2023-001", "1", "Ana Silva", "Smartphone", "iPhone 12", "Tela quebrada",
                 "352789102345678", "1234", Some(79999),
                 "Cliente relatou que o aparelho caiu no chão. Tela quebrada mas ainda funciona.",
                 InProgress, "2023-06-10T10:30:00Z", "2023-06-11T14:15:00Z", Some("3"), Some("Ricardo Costa")),
    ServiceOrder("OS-2023-002", "2", "Carlos Oliveira", "Smartphone", "Samsung Galaxy S21", "Não carrega",
                 "356789054321890", "0000", None,
                 "Aparelho não carrega. Verificar porta USB-C e bateria.",
                 Diagnosing, "2023-06-12T09:45:00Z", "2023-06-12T09:45:00Z", None, None),
    ServiceOrder("OS-2023-003", "4", "Rafael Santos", "Tablet", "iPad Pro 11\"", "Não liga",
                 "357123456789012", "141516", Some(34999),
                 "Cliente tentou várias vezes ligar o aparelho sem sucesso. Verificar placa e bateria.",
                 WaitingApproval, "2023-06-05T14:20:00Z", "2023-06-07T11:30:00Z", Some("5"), Some("Pedro Santos")),
    ServiceOrder("OS-2023-004", "6", "Fernando Dias", "Smartphone", "Xiaomi Redmi Note 10", "Câmera não funciona",
                 "358765432109876", "5555", Some(24999),
                 "Câmera principal não funciona. Câmera frontal ok.",
                 Completed, "2023-06-01T08:50:00Z", "2023-06-04T16:25:00Z", Some("3"), Some("Ricardo Costa")),
    ServiceOrder("OS-2023-005", "7", "Gabriela Martins", "Smartphone", "Motorola Moto G9", "Tela com manchas",
                 "359876543210987", "1515", Some(39999),
                 "Tela apresenta manchas escuras na parte inferior. Possível problema de LCD.",
                 Delivered, "2023-05-28T13:15:00Z", "2023-06-03T10:20:00Z", Some("5"), Some("Pedro Santos"))
  ]

  /** No seed order was last updated before it was created. */
  lemma SeedUpdatedNotBeforeCreated()
    ensures forall i :: 0 <= i < |SeedOrders| ==> NotBefore(SeedOrders[i].updatedAt, SeedOrders[i].createdAt)
  {
    var o := SeedOrders;
    assert NotBeforeAt(o[0].updatedAt, o[0].createdAt, 9);
    assert NotBeforeAt(o[1].updatedAt, o[1].createdAt, 20);
    assert NotBeforeAt(o[2].updatedAt, o[2].createdAt, 9);
    assert NotBeforeAt(o[3].updatedAt, o[3].createdAt, 9);
    assert NotBeforeAt(o[4].updatedAt, o[4].createdAt, 6);
  }

  /** The seed ids are `OS-2023-001` to `OS-2023-005`: the numbering new orders continue. */
  lemma SeedOrderIdsNumbered()
    ensures OrderIds(SeedOrders) == YearRun(OrderPrefix, 2023, 5)
    ensures NumberedIds(OrderPrefix, OrderIds(SeedOrders))
  {
    SeedOrderIdsAreRun();
    YearRunNumbered(OrderPrefix, 2023, 5);
  }

  lemma SeedOrderIdsAreRun()
    ensures OrderIds(SeedOrders) == YearRun(OrderPrefix, 2023, 5)
  {
    SeedYearRun(OrderPrefix);
    assert OrderIds(SeedOrders) == ["OS-2023-001", "OS-2023-002", "OS-2023-003", "OS-2023-004", "OS-2023-005"];
    assert OrderPrefix + "-2023-001" == "OS-2023-001";
    assert OrderPrefix + "-2023-002" == "OS-2023-002";
    assert OrderPrefix + "-2023-003" == "OS-2023-003";
    assert OrderPrefix + "-2023-004" == "OS-2023-004";
    assert OrderPrefix + "-2023-005" == "OS-2023-005";
    assert [OrderPrefix + "-2023-001", OrderPrefix + "-2023-002", OrderPrefix + "-2023-003", OrderPrefix + "-2023-004", OrderPrefix + "-2023-005"] == ["OS-2023-001", "OS-2023-002", "OS-2023-003", "OS-2023-004", "OS-2023-005"];
  }
}
