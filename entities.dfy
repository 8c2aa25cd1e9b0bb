/** The rows of the shop's tables, as values. Ids are plain integers; money is `real`, quantities `int`,
    dates integer timestamps. */
module Entities {
  import opened Wrappers

  /** A stock item; `stockQuantity` is the cached stock count that the controllers keep by hand. */
  datatype Item = Item(
    name: string,
    categoryId: int,
    conditionId: int,
    qualityId: int,
    brand: Option<string>,
    model: Option<string>,
    description: Option<string>,
    itemType: string,
    stockQuantity: int,
    minStockLevel: int,
    sellingPrice: real)

  /** A purchase lot. `itemId` is absent for batches created through the batch endpoint. */
  datatype Batch = Batch(
    batchNumber: string,
    supplierId: int,
    itemId: Option<int>,
    purchaseDate: int,
    totalQuantity: int,
    soldQuantity: int,
    totalCost: real,
    unitCost: real,
    notes: Option<string>)

  datatype SerialStatus = Available | Sold

  /** One IMEI-tracked unit of an item, bought in `batchId`. */
  datatype Serial = Serial(
    imei: string,
    itemId: int,
    batchId: int,
    status: SerialStatus,
    saleItemId: Option<int>,
    repairItemId: Option<int>)

  /** Who consumed stock: a sale line or a repair part. */
  datatype Owner = ForSaleItem(saleItemId: int) | ForRepairItem(repairItemId: int)

  /** A consumption record: the SaleItemBatch and RepairItemBatch tables, told apart by `owner`. */
  datatype BatchRecord = BatchRecord(owner: Owner, batchId: int, quantity: int)

  /** A stock movement log row. */
  datatype StockUsage = StockUsage(
    itemId: int,
    repairId: Option<int>,
    quantity: int,
    unitCost: real,
    reason: string)

  datatype PaymentStatus = Pending | Partial | Paid

  /** One line of a sale; `total` is unitPrice·quantity − discount. */
  datatype SaleItem = SaleItem(
    id: int,
    itemId: int,
    quantity: int,
    unitPrice: real,
    discount: real,
    total: real)

  datatype Sale = Sale(
    saleNumber: string,
    customerId: Option<int>,
    status: string,
    paymentStatus: PaymentStatus,
    subtotal: real,
    discountType: Option<string>,
    discountValue: real,
    discountAmount: real,
    taxRate: real,
    taxAmount: real,
    totalAmount: real,
    cogs: real,
    profit: real,
    saleDate: int,
    items: seq<SaleItem>)

  datatype Repair = Repair(
    repairNumber: string,
    customerId: int,
    deviceBrand: string,
    deviceModel: string,
    problemDescription: string,
    priority: string,
    stateId: int,
    serviceCharge: Option<real>,
    finalCost: Option<real>,
    completedDate: Option<int>,
    paymentStatus: PaymentStatus,
    createdAt: int)

  /** A part or labour line of a repair. */
  datatype RepairItem = RepairItem(
    id: int,
    repairId: int,
    itemName: string,
    description: Option<string>,
    quantity: int,
    unitPrice: real,
    totalPrice: real,
    isLabor: bool)

  /** Customers and suppliers share one table, told apart by `kind` (the source's `type`). */
  datatype Customer = Customer(
    name: string,
    phone: string,
    email: Option<string>,
    address: Option<string>,
    companyName: Option<string>,
    kind: string,
    locationLink: Option<string>,
    taxNumber: Option<string>)

  datatype Category = Category(name: string, description: Option<string>, parentId: Option<int>)

  /** A payment, attached directly to a sale or a repair, or to a customer when it is allocated. */
  datatype Payment = Payment(
    id: int,
    customerId: Option<int>,
    saleId: Option<int>,
    repairId: Option<int>,
    paymentMethodId: int,
    amount: real,
    paymentDate: int,
    status: Option<string>)

  /** The part of an allocated payment that goes to one sale or repair. */
  datatype Allocation = Allocation(paymentId: int, saleId: Option<int>, repairId: Option<int>, amount: real)
}
