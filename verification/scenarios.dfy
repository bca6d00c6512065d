/** A worked example of the aggregation stage on a small table. */
module Scenarios {
  import opened Sequences
  import opened Timestamps
  import opened Records
  import opened Cleaning
  import opened Aggregation

  /** Day ordinals of 2011-01-01 and 2011-12-09 (proleptic Gregorian). */
  const NewYear2011: int := 734138
  const LastInvoiceDay: int := 734480

  function Sale(invoice: string, customer: real, quantity: int, price: real, day: int): Line {
    var t := Transaction(invoice, "85123A", "WHITE HANGING HEART T-LIGHT HOLDER", quantity,
                         Timestamp(day, 0), price, customer, "United Kingdom");
    Line(t, TotalPrice(t))
  }

  /** Three sales to customer 17850 on 2011-01-01 and the table's last sale,
      to another customer, on 2011-12-09. */
  function CustomerSales(): seq<Line> {
    [Sale("536365", 17850.0, 6, 2.55, NewYear2011),
     Sale("536366", 17850.0, 6, 2.55, NewYear2011),
     Sale("536367", 17850.0, 8, 2.55, NewYear2011)]
  }

  function SampleTable(): seq<Line> {
    CustomerSales() + [Sale("581587", 12680.0, 12, 0.85, LastInvoiceDay)]
  }

  lemma SampleReferenceDate()
    ensures ReferenceDate(SampleTable()) == Timestamp(LastInvoiceDay + 2, 0)
  {
    var lines := SampleTable();
    assert lines[3] in lines;
    assert Latest(lines) == lines[3].tx.invoiceDate;
  }

  lemma SampleRows()
    ensures CustomerRows(SampleTable(), 17850.0) == CustomerSales()
  {
    var s := CustomerSales();
    var keep := OfCustomer(17850.0);
    FilterSnoc(s, Sale("581587", 12680.0, 12, 0.85, LastInvoiceDay), keep);
    assert s == [s[0], s[1]] + [s[2]] && [s[0], s[1]] == [s[0]] + [s[1]];
    FilterSnoc([s[0], s[1]], s[2], keep);
    FilterSnoc([s[0]], s[1], keep);
    FilterSingleton(s[0], keep);
  }

  lemma SampleMonetary()
    ensures SumTotals(CustomerSales()) == 51.0
  {
    var s := CustomerSales();
    assert s[..2] == [s[0], s[1]] && [s[0], s[1]][..1] == [s[0]] && [s[0]][..0] == [];
    assert SumTotals([s[0]]) == 15.3;
    assert SumTotals([s[0], s[1]]) == 30.6;
  }

  lemma SampleLatest()
    ensures Latest(CustomerSales()) == Timestamp(NewYear2011, 0)
  {
  }

  lemma SampleInvoices()
    ensures |InvoiceSet(CustomerSales())| == 3
  {
    var rows := CustomerSales();
    assert InvoiceSet(rows) == {"536365", "536366", "536367"};
  }

  lemma SampleRecency()
    ensures ElapsedDays(Timestamp(LastInvoiceDay + 2, 0), Timestamp(NewYear2011, 0)) == 344
  {
  }

  /** Customer 17850 buys 6, 6 and 8 units at 2.55 on three invoices of
      2011-01-01 while the table's last invoice is dated 2011-12-09: the
      reference date is 2011-12-11 and the customer's row reads recency 344,
      frequency 3, monetary 51.0. */
  lemma CustomerOf2011()
    ensures ReferenceDate(SampleTable()) == Timestamp(LastInvoiceDay + 2, 0)
    ensures GroupOf(SampleTable(), ReferenceDate(SampleTable()), 17850.0) == Group(17850.0, 344, 3, 51.0)
  {
    SampleReferenceDate();
    SampleRows();
    SampleMonetary();
    SampleLatest();
    SampleInvoices();
    SampleRecency();
    var lines := SampleTable();
    assert lines[0] in lines;
  }
}
