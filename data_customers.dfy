/** The customer record shared by the customers, sales and service-order screens. */
module CustomerData {
  import opened Common

  datatype Customer = Customer(
    id: string,
    name: string,
    phone: string,
    email: string,
    address: string,
    birthday: string,
    createdAt: string,
    purchases: int,
    lastPurchase: Option<string>)
}
