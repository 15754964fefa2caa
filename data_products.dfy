/** The product record shared by the inventory, sales and dashboard screens. */
module ProductData {

  datatype Category = Smartphones | Accessories | Parts | Tablets

  /**
   * A catalogue product. Prices are integer centavos. In a sales cart the
   * same record is reused with `quantity` holding the number of units
   * being sold instead of the stock on hand.
   */
  datatype Product = Product(
    id: string,
    name: string,
    description: string,
    category: Category,
    purchasePrice: int,
    sellingPrice: int,
    quantity: int,
    lowStockThreshold: int,
    imageUrl: string,
    sku: string,
    createdAt: string)
}
