/** The tables the pipeline passes from stage to stage. */
module Records {
  import opened Wrappers
  import opened Timestamps

  /** One row of the "Year 2010-2011" sheet as loaded. Any cell may be empty.
      Customer ID is a float column in the sheet because it has empty cells. */
  datatype RawRow = RawRow(
    invoice: Option<string>,
    stockCode: Option<string>,
    description: Option<string>,
    quantity: Option<int>,
    invoiceDate: Option<Timestamp>,
    price: Option<real>,
    customerId: Option<real>,
    country: Option<string>)

  /** A fully populated transaction line. */
  datatype Transaction = Transaction(
    invoice: string,
    stockCode: string,
    description: string,
    quantity: int,
    invoiceDate: Timestamp,
    price: real,
    customerId: real,
    country: string)

  /** A transaction with its derived `TotalPrice` column. */
  datatype Line = Line(tx: Transaction, totalPrice: real)

  /** One row of the grouped table, still keyed by the float Customer ID. */
  datatype Group = Group(customerId: real, recency: int, frequency: int, monetary: real)

  /** One row of the `rfm` table once Customer ID is converted to an integer. */
  datatype CustomerMetrics = CustomerMetrics(customerId: int, recency: int, frequency: int, monetary: real)
}
