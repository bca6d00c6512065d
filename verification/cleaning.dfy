/** Cleaning and enrichment: `dropna`, the cancelled-invoice filter and the
    `TotalPrice` column (rfm-segmentatiton.py lines 34, 49 and 52). */
module Cleaning {
  import opened Wrappers
  import opened Sequences
  import opened Records

  /** No cell of the row is empty. */
  predicate Complete(row: RawRow) {
    && row.invoice.Some?
    && row.stockCode.Some?
    && row.description.Some?
    && row.quantity.Some?
    && row.invoiceDate.Some?
    && row.price.Some?
    && row.customerId.Some?
    && row.country.Some?
  }

  /** The cells of a complete row, unchanged. */
  function ToTransaction(row: RawRow): Transaction
    requires Complete(row)
  {
    Transaction(row.invoice.value, row.stockCode.value, row.description.value,
                row.quantity.value, row.invoiceDate.value, row.price.value,
                row.customerId.value, row.country.value)
  }

  /** `df.dropna()`: every complete row, in order, and nothing else. */
  function DropMissing(rows: seq<RawRow>): (r: seq<Transaction>)
    ensures |r| <= |rows|
    ensures forall t :: t in r <==> exists row :: row in rows && Complete(row) && ToTransaction(row) == t
  {
    if |rows| == 0 then []
    else
      var rest := DropMissing(rows[..|rows| - 1]);
      var last := rows[|rows| - 1];
      assert forall row :: row in rows <==> row in rows[..|rows| - 1] || row == last by {
        assert rows == rows[..|rows| - 1] + [last];
      }
      if Complete(last) then rest + [ToTransaction(last)] else rest
  }

  /** Dropping incomplete rows distributes over concatenation, so retained
      rows keep their relative order. */
  lemma {:induction false} DropMissingConcat(a: seq<RawRow>, b: seq<RawRow>)
    ensures DropMissing(a + b) == DropMissing(a) + DropMissing(b)
    decreases |b|
  {
    if |b| == 0 {
      assert a + b == a;
    } else {
      var b' := b[..|b| - 1];
      assert (a + b)[..|a + b| - 1] == a + b';
      DropMissingConcat(a, b');
    }
  }

  /** Substring containment (`str.contains` with a pattern free of regular
      expression metacharacters). */
  predicate Contains(s: string, pattern: string) {
    exists i :: 0 <= i <= |s| - |pattern| && OccursAt(s, pattern, i)
  }

  /** `pattern` occurs in `s` starting at position `i`. */
  predicate OccursAt(s: string, pattern: string, i: int) {
    0 <= i <= |s| - |pattern| && s[i..i + |pattern|] == pattern
  }

  /** The one-character pattern "C" occurs in `s` exactly when the letter
      occurs at some position, the first one or any other. */
  lemma ContainsOneChar(s: string, c: char)
    ensures Contains(s, [c]) <==> c in s
  {
    if c in s {
      var i :| 0 <= i < |s| && s[i] == c;
      assert s[i..i + 1] == [c];
      assert OccursAt(s, [c], i);
    }
    if Contains(s, [c]) {
      var i :| 0 <= i <= |s| - 1 && OccursAt(s, [c], i);
      assert s[i..i + 1] == [c];
      assert s[i] == c;
    }
  }

  /** The cancellation test of the pipeline: a capital C anywhere in the
      invoice number. */
  predicate Cancelled(t: Transaction) {
    Contains(t.invoice, "C")
  }

  predicate NotCancelled(t: Transaction) {
    !Cancelled(t)
  }

  /** `df[~df["Invoice"].str.contains("C", na=False)]`. */
  function RemoveCancelled(txs: seq<Transaction>): (r: seq<Transaction>)
    ensures |r| <= |txs|
    ensures forall t :: t in r <==> t in txs && 'C' !in t.invoice
  {
    forall t ensures Cancelled(t) <==> 'C' in t.invoice {
      ContainsOneChar(t.invoice, 'C');
    }
    Filter(txs, NotCancelled)
  }

  /** The filter is wider than the "starts with C" convention: any invoice
      number with a leading C is removed, and so is one with a C elsewhere. */
  lemma CancelledIsWiderThanPrefix(t: Transaction)
    ensures |t.invoice| > 0 && t.invoice[0] == 'C' ==> Cancelled(t)
    ensures t.invoice == "53C101" ==> Cancelled(t)
  {
    ContainsOneChar(t.invoice, 'C');
    if t.invoice == "53C101" {
      assert t.invoice[2] == 'C';
    }
  }

  /** Both cleaning steps in source order. */
  function Clean(rows: seq<RawRow>): (r: seq<Transaction>)
    ensures forall t :: t in r <==>
      (exists row :: row in rows && Complete(row) && ToTransaction(row) == t) && 'C' !in t.invoice
  {
    RemoveCancelled(DropMissing(rows))
  }

  /** Cleaning distributes over concatenation of the raw table. */
  lemma CleanConcat(a: seq<RawRow>, b: seq<RawRow>)
    ensures Clean(a + b) == Clean(a) + Clean(b)
  {
    DropMissingConcat(a, b);
    FilterConcat(DropMissing(a), DropMissing(b), NotCancelled);
  }

  /** Cleaning a single row: it survives, unchanged, exactly when it is
      complete and its invoice number has no C. */
  lemma CleanSingleton(row: RawRow)
    ensures Clean([row]) == if Complete(row) && 'C' !in row.invoice.value then [ToTransaction(row)] else []
  {
    assert [row][..0] == [];
    if Complete(row) {
      assert DropMissing([row]) == [ToTransaction(row)];
      FilterSingleton(ToTransaction(row), NotCancelled);
      ContainsOneChar(row.invoice.value, 'C');
    }
  }

  /** `Quantity * Price`: a sale at a positive price is worth something, a
      returned quantity (negative) at a positive price counts against the
      customer. */
  function TotalPrice(t: Transaction): (v: real)
    ensures t.quantity > 0 && t.price > 0.0 ==> v > 0.0
    ensures t.quantity < 0 && t.price > 0.0 ==> v < 0.0
    ensures t.quantity == 0 || t.price == 0.0 ==> v == 0.0
  {
    t.quantity as real * t.price
  }

  /** `df["TotalPrice"] = df["Quantity"] * df["Price"]`. */
  function Enrich(txs: seq<Transaction>): (r: seq<Line>)
    ensures |r| == |txs|
    ensures forall i :: 0 <= i < |r| ==> r[i].tx == txs[i]
    ensures forall l :: l in r ==> l.totalPrice == l.tx.quantity as real * l.tx.price
  {
    seq(|txs|, i requires 0 <= i < |txs| => Line(txs[i], TotalPrice(txs[i])))
  }
}
