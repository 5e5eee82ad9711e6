/** The three input tables, as typed rows. Only the columns the reconciliation
    reads are kept; amounts are integers in minor currency units. */
module Records {
  import opened Tables

  /** A point in time, in seconds since the Unix epoch. */
  type Timestamp = int

  /** A row of the storefront orders export. `subtotal` is empty on the
      continuation rows the export writes for an order's further line items. */
  datatype Order = Order(
    name: string,
    subtotal: Option<int>,
    shipping: int,
    paymentReference: Option<string>)

  /** A row of the storefront sales-by-line-item export. `saleKind` is
      "order" or "return" in practice; other values are kept as they are. */
  datatype SaleLine = SaleLine(
    orderName: string,
    saleKind: string,
    productType: Option<string>,
    totalSales: int,
    units: int)

  /** A row of the payment gateway's settlement report. `kind` is "payment",
      "refund" or another transaction type; `settledAt` is empty while a
      transaction is unsettled. */
  datatype Transaction = Transaction(
    receipt: string,
    kind: string,
    settledAt: Option<Timestamp>,
    amount: int,
    debit: int)
}
