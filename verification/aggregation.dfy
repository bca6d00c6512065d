/** Per-customer aggregation (rfm-segmentatiton.py lines 66-83): the global
    reference date, one (recency, frequency, monetary) row per customer, the
    positive-monetary selection and the integer conversion of Customer ID. */
module Aggregation {
  import opened Sequences
  import opened Timestamps
  import opened Records

  /** `df["InvoiceDate"].max()` over a non-empty table. */
  function Latest(lines: seq<Line>): (t: Timestamp)
    requires |lines| > 0
    ensures exists l :: l in lines && l.tx.invoiceDate == t
    ensures forall l :: l in lines ==> NotAfter(l.tx.invoiceDate, t)
  {
    if |lines| == 1 then lines[0].tx.invoiceDate
    else
      var front := lines[..|lines| - 1];
      var last := lines[|lines| - 1];
      assert lines == front + [last];
      var best := Latest(front);
      if NotAfter(last.tx.invoiceDate, best) then best else last.tx.invoiceDate
  }

  /** Days added to the latest invoice's calendar date. */
  const ReferenceOffsetDays: int := 2

  /** `today_date`: midnight of the latest invoice's calendar date plus two
      days, computed once over the whole cleaned table. Every transaction
      lies more than one whole day before it. */
  function ReferenceDate(lines: seq<Line>): (ref: Timestamp)
    requires |lines| > 0
    ensures ref.micros == 0 && ref.day == Latest(lines).day + ReferenceOffsetDays
    ensures forall l :: l in lines ==> ElapsedDays(ref, l.tx.invoiceDate) >= 1
  {
    var latest := Latest(lines);
    var ref := MidnightAfter(latest, ReferenceOffsetDays);
    forall l | l in lines
      ensures ElapsedDays(ref, l.tx.invoiceDate) >= 1
    {
      var d := ElapsedDays(ref, l.tx.invoiceDate);
      assert Ticks(ref) - Ticks(l.tx.invoiceDate) > 86_400_000_000;
    }
    ref
  }

  /** The most recent invoice lies one or two whole days before the
      reference date, depending on its time of day. */
  lemma ReferenceDateNearLatest(lines: seq<Line>)
    requires |lines| > 0
    ensures 1 <= ElapsedDays(ReferenceDate(lines), Latest(lines)) <= 2
  {
  }

  /** Inserts a customer id into a strictly increasing list of ids. */
  function InsertId(c: real, ids: seq<real>): (r: seq<real>)
    requires StrictlyIncreasing(ids)
    ensures StrictlyIncreasing(r)
    ensures forall x :: x in r <==> x == c || x in ids
  {
    if |ids| == 0 then [c]
    else if c < ids[0] then
      assert forall x :: x in ids ==> c < x;
      StrictlyIncreasingCons(c, ids);
      [c] + ids
    else if c == ids[0] then ids
    else
      var rest := InsertId(c, ids[1..]);
      assert forall x :: x in ids <==> x == ids[0] || x in ids[1..] by {
        assert ids == [ids[0]] + ids[1..];
      }
      assert forall x :: x in rest ==> ids[0] < x;
      StrictlyIncreasingCons(ids[0], rest);
      [ids[0]] + rest
  }

  /** The group keys of `df.groupby('Customer ID')`: every customer id of the
      table once, in ascending order. */
  function CustomerIds(lines: seq<Line>): (ids: seq<real>)
    ensures StrictlyIncreasing(ids)
    ensures forall c :: c in ids <==> exists l :: l in lines && l.tx.customerId == c
  {
    if |lines| == 0 then []
    else
      var front := lines[..|lines| - 1];
      assert lines == front + [lines[|lines| - 1]];
      InsertId(lines[|lines| - 1].tx.customerId, CustomerIds(front))
  }

  /** The row mask of one customer. */
  function OfCustomer(c: real): Line -> bool {
    (l: Line) => l.tx.customerId == c
  }

  /** One group of `df.groupby('Customer ID')`. */
  function CustomerRows(lines: seq<Line>, c: real): (rows: seq<Line>)
    ensures forall l :: l in rows <==> l in lines && l.tx.customerId == c
  {
    Filter(lines, OfCustomer(c))
  }

  /** `Invoice.nunique()`: the set of invoice numbers of some rows. */
  function InvoiceSet(rows: seq<Line>): set<string> {
    set l | l in rows :: l.tx.invoice
  }

  /** `TotalPrice.sum()`, in row order. */
  function SumTotals(rows: seq<Line>): real {
    if |rows| == 0 then 0.0 else SumTotals(rows[..|rows| - 1]) + rows[|rows| - 1].totalPrice
  }

  /** The aggregated row of customer `c`. */
  function GroupOf(lines: seq<Line>, ref: Timestamp, c: real): (g: Group)
    requires c in CustomerIds(lines)
    ensures g.customerId == c && g.frequency >= 1
  {
    var rows := CustomerRows(lines, c);
    var l :| l in lines && l.tx.customerId == c;
    assert l.tx.invoice in InvoiceSet(rows);
    Group(c, ElapsedDays(ref, Latest(rows)), |InvoiceSet(rows)|, SumTotals(rows))
  }

  /** `df.groupby('Customer ID').agg(...)` with the reference date threaded
      in as a value: one row per customer id, in ascending id order. */
  function Aggregate(lines: seq<Line>, ref: Timestamp): (groups: seq<Group>)
    ensures |groups| == |CustomerIds(lines)|
    ensures forall i, j :: 0 <= i < j < |groups| ==> groups[i].customerId < groups[j].customerId
    ensures forall g :: g in groups ==> g.frequency >= 1
  {
    var ids := CustomerIds(lines);
    seq(|ids|, i requires 0 <= i < |ids| => GroupOf(lines, ref, ids[i]))
  }

  /** The grouped table has exactly one row per distinct customer id of the
      cleaned table, and no other rows. */
  lemma AggregateOnePerCustomer(lines: seq<Line>, ref: Timestamp)
    ensures (set g | g in Aggregate(lines, ref) :: g.customerId) == (set l | l in lines :: l.tx.customerId)
    ensures |Aggregate(lines, ref)| == |set l | l in lines :: l.tx.customerId|
  {
    var ids := CustomerIds(lines);
    assert Distinct(ids);
    DistinctCard(ids);
    AggregateKeys(lines, ref);
    TableKeys(lines);
  }

  lemma AggregateKeys(lines: seq<Line>, ref: Timestamp)
    ensures (set g | g in Aggregate(lines, ref) :: g.customerId) == (set x | x in CustomerIds(lines))
  {
    var ids := CustomerIds(lines);
    var groups := Aggregate(lines, ref);
    forall c | c in ids
      ensures c in (set g | g in groups :: g.customerId)
    {
      var i :| 0 <= i < |ids| && ids[i] == c;
      assert groups[i] in groups;
    }
    forall g | g in groups
      ensures g.customerId in ids
    {
      var i :| 0 <= i < |groups| && groups[i] == g;
    }
  }

  lemma TableKeys(lines: seq<Line>)
    ensures (set x | x in CustomerIds(lines)) == (set l | l in lines :: l.tx.customerId)
  {
  }

  /** A customer's frequency lies between one and its number of lines. */
  lemma GroupFrequencyBounds(lines: seq<Line>, ref: Timestamp, c: real)
    requires c in CustomerIds(lines)
    ensures 1 <= GroupOf(lines, ref, c).frequency <= |CustomerRows(lines, c)|
  {
    ImageCard(CustomerRows(lines, c));
  }

  /** A customer's frequency is the number of distinct invoice numbers
      among the table's lines of that customer (`Invoice.nunique()`). */
  lemma GroupFrequency(lines: seq<Line>, ref: Timestamp, c: real)
    requires c in CustomerIds(lines)
    ensures GroupOf(lines, ref, c).frequency == |set l | l in lines && l.tx.customerId == c :: l.tx.invoice|
  {
    assert InvoiceSet(CustomerRows(lines, c)) == set l | l in lines && l.tx.customerId == c :: l.tx.invoice;
  }

  /** Every row of the grouped table is the aggregate of its own customer. */
  lemma AggregateRow(lines: seq<Line>, ref: Timestamp, g: Group)
    requires g in Aggregate(lines, ref)
    ensures g.customerId in CustomerIds(lines)
    ensures g == GroupOf(lines, ref, g.customerId)
  {
    var i :| 0 <= i < |Aggregate(lines, ref)| && Aggregate(lines, ref)[i] == g;
  }

  /** Recency is the number of whole days from the customer's most recent
      invoice to the reference date: attained by one of the customer's lines
      and at most the elapsed days of every other. */
  lemma GroupRecency(lines: seq<Line>, ref: Timestamp, c: real)
    requires c in CustomerIds(lines)
    ensures exists l :: l in lines && l.tx.customerId == c && GroupOf(lines, ref, c).recency == ElapsedDays(ref, l.tx.invoiceDate)
    ensures forall l :: l in lines && l.tx.customerId == c ==> GroupOf(lines, ref, c).recency <= ElapsedDays(ref, l.tx.invoiceDate)
  {
    var rows := CustomerRows(lines, c);
    var latest := Latest(rows);
    forall l | l in lines && l.tx.customerId == c
      ensures GroupOf(lines, ref, c).recency <= ElapsedDays(ref, l.tx.invoiceDate)
    {
      assert l in rows;
      ElapsedDaysAntitone(ref, l.tx.invoiceDate, latest);
    }
  }

  /** With the global reference date every customer's recency is at least one day. */
  lemma RecencyAtLeastOneDay(lines: seq<Line>, c: real)
    requires |lines| > 0 && c in CustomerIds(lines)
    ensures GroupOf(lines, ReferenceDate(lines), c).recency >= 1
  {
    GroupRecency(lines, ReferenceDate(lines), c);
  }

  /** Sum of the monetary column. */
  function SumMonetary(groups: seq<Group>): real {
    if |groups| == 0 then 0.0 else SumMonetary(groups[..|groups| - 1]) + groups[|groups| - 1].monetary
  }

  /** Sum over the listed customers of their line totals. */
  function SumByCustomer(ids: seq<real>, lines: seq<Line>): real {
    if |ids| == 0 then 0.0
    else SumByCustomer(ids[..|ids| - 1], lines) + SumTotals(CustomerRows(lines, ids[|ids| - 1]))
  }

  lemma SumTotalsSnoc(rows: seq<Line>, x: Line)
    ensures SumTotals(rows + [x]) == SumTotals(rows) + x.totalPrice
  {
    assert (rows + [x])[..|rows|] == rows;
  }

  /** The total of a table is the total of its first part plus the total of
      the rest, however it is split. */
  lemma {:induction false} SumTotalsConcat(a: seq<Line>, b: seq<Line>)
    ensures SumTotals(a + b) == SumTotals(a) + SumTotals(b)
  {
    if |b| > 0 {
      var front := b[..|b| - 1];
      SumTotalsConcat(a, front);
      assert (a + b)[..|a + b| - 1] == a + front;
    } else {
      assert a + b == a;
    }
  }

  lemma {:induction false} SumByCustomerEmpty(ids: seq<real>)
    ensures SumByCustomer(ids, []) == 0.0
  {
    if |ids| > 0 {
      SumByCustomerEmpty(ids[..|ids| - 1]);
      assert CustomerRows([], ids[|ids| - 1]) == [];
    }
  }

  /** A new line adds its total to the sum of exactly the customer it
      belongs to. */
  lemma {:induction false} SumByCustomerSnoc(ids: seq<real>, lines: seq<Line>, x: Line)
    requires Distinct(ids)
    ensures SumByCustomer(ids, lines + [x]) ==
            SumByCustomer(ids, lines) + (if x.tx.customerId in ids then x.totalPrice else 0.0)
  {
    if |ids| > 0 {
      var front := ids[..|ids| - 1];
      var c := ids[|ids| - 1];
      assert ids == front + [c];
      SumByCustomerSnoc(front, lines, x);
      FilterSnoc(lines, x, OfCustomer(c));
      SumTotalsSnoc(CustomerRows(lines, c), x);
      assert c !in front;
    }
  }

  /** Summing per customer over a list of customers covering the table
      gives the table's total. */
  lemma {:induction false} SumByCustomerCovers(ids: seq<real>, lines: seq<Line>)
    requires Distinct(ids)
    requires forall l :: l in lines ==> l.tx.customerId in ids
    ensures SumByCustomer(ids, lines) == SumTotals(lines)
  {
    if |lines| == 0 {
      SumByCustomerEmpty(ids);
    } else {
      var front := lines[..|lines| - 1];
      var x := lines[|lines| - 1];
      assert lines == front + [x];
      SumByCustomerCovers(ids, front);
      SumByCustomerSnoc(ids, front, x);
    }
  }

  lemma {:induction false} SumMonetaryPrefix(lines: seq<Line>, ref: Timestamp, k: nat)
    requires k <= |CustomerIds(lines)|
    ensures SumMonetary(Aggregate(lines, ref)[..k]) == SumByCustomer(CustomerIds(lines)[..k], lines)
  {
    if k > 0 {
      SumMonetaryPrefix(lines, ref, k - 1);
      var groups := Aggregate(lines, ref);
      var ids := CustomerIds(lines);
      var gs := groups[..k];
      var cs := ids[..k];
      assert gs[..k - 1] == groups[..k - 1];
      assert cs[..k - 1] == ids[..k - 1];
      assert SumMonetary(gs) == SumMonetary(groups[..k - 1]) + groups[k - 1].monetary;
      assert SumByCustomer(cs, lines) == SumByCustomer(ids[..k - 1], lines) + SumTotals(CustomerRows(lines, ids[k - 1]));
      assert groups[k - 1].monetary == SumTotals(CustomerRows(lines, ids[k - 1]));
    }
  }

  /** Grouping neither loses nor invents revenue: the monetary column sums
      to the sum of all line totals. */
  lemma MonetaryConserved(lines: seq<Line>, ref: Timestamp)
    ensures SumMonetary(Aggregate(lines, ref)) == SumTotals(lines)
  {
    var ids := CustomerIds(lines);
    var groups := Aggregate(lines, ref);
    SumMonetaryPrefix(lines, ref, |ids|);
    assert groups[..|ids|] == groups;
    assert ids[..|ids|] == ids;
    assert Distinct(ids);
    SumByCustomerCovers(ids, lines);
  }

  predicate HasRevenue(g: Group) {
    g.monetary > 0.0
  }

  /** `rfm[rfm["monetary"] > 0]`: the rows with positive monetary, in order
      and unchanged. */
  function SelectPositive(groups: seq<Group>): (r: seq<Group>)
    ensures forall g :: g in r <==> g in groups && g.monetary > 0.0
  {
    Filter(groups, HasRevenue)
  }

  /** Rows ordered by strictly increasing customer id. */
  ghost predicate IdsIncreasing(groups: seq<Group>) {
    forall i, j :: 0 <= i < j < |groups| ==> groups[i].customerId < groups[j].customerId
  }

  /** The selection keeps the ascending customer-id order of the grouped table. */
  lemma {:induction false} SelectPositiveKeepsOrder(groups: seq<Group>)
    requires IdsIncreasing(groups)
    ensures IdsIncreasing(SelectPositive(groups))
  {
    if |groups| > 0 {
      var front := groups[..|groups| - 1];
      var last := groups[|groups| - 1];
      SelectPositiveKeepsOrder(front);
      assert forall g :: g in front ==> g.customerId < last.customerId;
    }
  }

  /** A customer survives the selection exactly when it occurs in the
      cleaned table and its line totals sum to a positive amount. */
  lemma PositiveCustomers(lines: seq<Line>, ref: Timestamp, c: real)
    ensures (exists g :: g in SelectPositive(Aggregate(lines, ref)) && g.customerId == c) <==>
            (exists l :: l in lines && l.tx.customerId == c) && SumTotals(CustomerRows(lines, c)) > 0.0
  {
    var groups := Aggregate(lines, ref);
    var ids := CustomerIds(lines);
    if g :| g in SelectPositive(groups) && g.customerId == c {
      AggregateRow(lines, ref, g);
    }
    if c in ids && SumTotals(CustomerRows(lines, c)) > 0.0 {
      var i :| 0 <= i < |ids| && ids[i] == c;
      assert groups[i] in SelectPositive(groups);
    }
  }

  /** `astype(int)` on a float: truncation toward zero. */
  function TruncateToInt(x: real): (n: int)
    ensures 0.0 <= x ==> n as real <= x < n as real + 1.0
    ensures x < 0.0 ==> n as real - 1.0 < x <= n as real
  {
    if x >= 0.0 then x.Floor else -((-x).Floor)
  }

  /** A float id with no fractional part converts to the same integer. */
  lemma TruncateIntegral(k: int)
    ensures TruncateToInt(k as real) == k
  {
  }

  /** `rfm["Customer ID"].astype(int)`: only the id column changes. */
  function ToMetrics(groups: seq<Group>): (ms: seq<CustomerMetrics>)
    ensures |ms| == |groups|
    ensures forall i :: 0 <= i < |ms| ==>
      && ms[i].recency == groups[i].recency
      && ms[i].frequency == groups[i].frequency
      && ms[i].monetary == groups[i].monetary
      && ms[i].customerId == TruncateToInt(groups[i].customerId)
  {
    seq(|groups|, i requires 0 <= i < |groups| =>
      var g := groups[i];
      CustomerMetrics(TruncateToInt(g.customerId), g.recency, g.frequency, g.monetary))
  }

  /** Whole-number customer ids stay distinct and ordered after conversion. */
  lemma ToMetricsKeepsIntegralIds(groups: seq<Group>)
    requires IdsIncreasing(groups)
    requires forall g :: g in groups ==> g.customerId == g.customerId.Floor as real
    ensures forall i, j :: 0 <= i < j < |groups| ==> ToMetrics(groups)[i].customerId < ToMetrics(groups)[j].customerId
    ensures forall i :: 0 <= i < |groups| ==> ToMetrics(groups)[i].customerId as real == groups[i].customerId
  {
    var ms := ToMetrics(groups);
    forall i | 0 <= i < |groups|
      ensures ms[i].customerId as real == groups[i].customerId
    {
      assert groups[i] in groups;
      TruncateIntegral(groups[i].customerId.Floor);
    }
  }

  /** There are at most as many distinct invoice numbers as rows. */
  lemma {:induction false} ImageCard(rows: seq<Line>)
    ensures |InvoiceSet(rows)| <= |rows|
  {
    if |rows| > 0 {
      var front := rows[..|rows| - 1];
      ImageCard(front);
      assert InvoiceSet(rows) == InvoiceSet(front) + {rows[|rows| - 1].tx.invoice} by {
        assert rows == front + [rows[|rows| - 1]];
      }
    }
  }
}
