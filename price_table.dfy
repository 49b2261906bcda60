/**
 The price table of the bulk sweep (tools/rebook_scrapper.py): the samples
 accumulated over all days, deduplicated and sorted by (date, type, price, stop)
 before they are written out, and the min-price query run on that table.
 */
module PriceTable {
  import opened Wrappers
  import opened Ordering

  /** One row of the table: `{"date", "type", "price", "stop"}`. */
  datatype PriceSample = PriceSample(date: string, fareType: string, price: int, stop: int)

  /** Lexicographic order on (date, type, price, stop), the sort key of the table. */
  predicate SampleLess(a: PriceSample, b: PriceSample)
  {
    || StrLess(a.date, b.date)
    || (a.date == b.date && StrLess(a.fareType, b.fareType))
    || (a.date == b.date && a.fareType == b.fareType && a.price < b.price)
    || (a.date == b.date && a.fareType == b.fareType && a.price == b.price && a.stop < b.stop)
  }

  lemma SampleLessIsStrictTotalOrder()
    ensures IsStrictTotalOrder(SampleLess)
  {
    StrLessIsStrictTotalOrder();
  }

  /** `df.unique().sort("date", "type", "price", "stop")` */
  function Tabulate(samples: seq<PriceSample>): seq<PriceSample>
  {
    SortUnique(samples, SampleLess)
  }

  /**
   The table is sorted by (date, type, price, stop), holds no row twice and
   holds exactly the recorded samples.
   */
  lemma TabulateCorrect(samples: seq<PriceSample>)
    ensures StrictlySorted(Tabulate(samples), SampleLess)
    ensures forall i, j :: 0 <= i < j < |Tabulate(samples)| ==> Tabulate(samples)[i] != Tabulate(samples)[j]
    ensures forall s :: s in Tabulate(samples) <==> s in samples
  {
    SampleLessIsStrictTotalOrder();
    SortUniqueCorrect(samples, SampleLess);
    var t := Tabulate(samples);
    forall i, j | 0 <= i < j < |t| ensures t[i] != t[j] {
      assert SampleLess(t[i], t[j]);
    }
  }

  /** Deduplicating and sorting the table again leaves it unchanged. */
  lemma TabulateIdempotent(samples: seq<PriceSample>)
    ensures Tabulate(Tabulate(samples)) == Tabulate(samples)
  {
    SampleLessIsStrictTotalOrder();
    SortUniqueIdempotent(samples, SampleLess);
  }

  /**
   The table depends only on which samples were recorded, not on the order in
   which the concurrent day tasks appended them, nor on repeats.
   */
  lemma TabulateOrderFree(a: seq<PriceSample>, b: seq<PriceSample>)
    requires forall s :: s in a <==> s in b
    ensures Tabulate(a) == Tabulate(b)
  {
    SampleLessIsStrictTotalOrder();
    SortUniqueOnlyElements(a, b, SampleLess);
  }

  /** In particular, two days' samples may be appended in either order. */
  lemma TabulateSwap(a: seq<PriceSample>, b: seq<PriceSample>)
    ensures Tabulate(a + b) == Tabulate(b + a)
  {
    TabulateOrderFree(a + b, b + a);
  }

  // ---------------------------------------------------------------------------
  // Min-price query (`get_min`)
  // ---------------------------------------------------------------------------

  /** The key of one report line, in the report's sort order (type, price, stop). */
  datatype MinKey = MinKey(fareType: string, price: int, stop: int)

  /** One report line: a group's minimum price and every date it was seen. */
  datatype MinRow = MinRow(price: int, fareType: string, stop: int, dates: seq<string>)

  predicate KeyLess(a: MinKey, b: MinKey)
  {
    || StrLess(a.fareType, b.fareType)
    || (a.fareType == b.fareType && a.price < b.price)
    || (a.fareType == b.fareType && a.price == b.price && a.stop < b.stop)
  }

  lemma KeyLessIsStrictTotalOrder()
    ensures IsStrictTotalOrder(KeyLess)
  {
    StrLessIsStrictTotalOrder();
  }

  predicate InGroup(s: PriceSample, fareType: string, stop: int)
  {
    s.fareType == fareType && s.stop == stop
  }

  function KeyOf(s: PriceSample): MinKey
  {
    MinKey(s.fareType, s.price, s.stop)
  }

  function RowKey(r: MinRow): MinKey
  {
    MinKey(r.fareType, r.price, r.stop)
  }

  /** `group_by("type", "stop").agg(pl.col("price").min())` for one group; `None` for an empty group. */
  function GroupMin(table: seq<PriceSample>, fareType: string, stop: int): (m: Option<int>)
    ensures m.None? <==> forall s :: s in table ==> !InGroup(s, fareType, stop)
    ensures m.Some? ==> exists s :: s in table && InGroup(s, fareType, stop) && s.price == m.value
    ensures m.Some? ==> forall s :: s in table && InGroup(s, fareType, stop) ==> m.value <= s.price
  {
    if table == [] then None
    else
      var init := table[..|table| - 1];
      var last := table[|table| - 1];
      assert table == init + [last];
      var m := GroupMin(init, fareType, stop);
      if !InGroup(last, fareType, stop) then m
      else if m.None? || last.price < m.value then Some(last.price)
      else m
  }

  /** The sample's price is the minimum of its (type, stop) group. */
  predicate AttainsGroupMin(table: seq<PriceSample>, s: PriceSample)
  {
    GroupMin(table, s.fareType, s.stop) == Some(s.price)
  }

  /** The inner join of the group minima with the table on (type, stop, price). */
  function Joined(table: seq<PriceSample>, rows: seq<PriceSample>): seq<PriceSample>
  {
    if rows == [] then []
    else
      var init := rows[..|rows| - 1];
      var last := rows[|rows| - 1];
      if AttainsGroupMin(table, last) then Joined(table, init) + [last] else Joined(table, init)
  }

  /** The join keeps exactly the rows that attain their group minimum. */
  lemma {:induction false} JoinedMembers(table: seq<PriceSample>, rows: seq<PriceSample>)
    ensures forall s :: s in Joined(table, rows) <==> s in rows && AttainsGroupMin(table, s)
  {
    if rows != [] {
      var init := rows[..|rows| - 1];
      var last := rows[|rows| - 1];
      assert rows == init + [last];
      JoinedMembers(table, init);
    }
  }

  function KeysOf(rows: seq<PriceSample>): (ks: seq<MinKey>)
    ensures forall k :: k in ks <==> exists s :: s in rows && KeyOf(s) == k
  {
    if rows == [] then []
    else
      var init := rows[..|rows| - 1];
      var last := rows[|rows| - 1];
      assert rows == init + [last];
      KeysOf(init) + [KeyOf(last)]
  }

  /** The dates of the rows whose (type, price, stop) is `k`. */
  function DatesOf(rows: seq<PriceSample>, k: MinKey): (ds: seq<string>)
    ensures forall d :: d in ds <==> exists s :: s in rows && KeyOf(s) == k && s.date == d
  {
    if rows == [] then []
    else
      var init := rows[..|rows| - 1];
      var last := rows[|rows| - 1];
      assert rows == init + [last];
      if KeyOf(last) == k then DatesOf(init, k) + [last.date] else DatesOf(init, k)
  }

  /**
   `get_min`: join the per-(type, stop) minimum back onto the table, deduplicate,
   sort by date, collect the dates per (price, type, stop) and sort the lines by
   (type, price, stop).
   */
  function MinReport(table: seq<PriceSample>): seq<MinRow>
  {
    var joined := Joined(table, table);
    var keys := SortUnique(KeysOf(joined), KeyLess);
    seq(|keys|, j requires 0 <= j < |keys| =>
      MinRow(keys[j].price, keys[j].fareType, keys[j].stop, SortUnique(DatesOf(joined, keys[j]), StrLess)))
  }

  /** Each line's price is the minimum of its (type, stop) group, and that group is not empty. */
  lemma MinReportPricesAreMinima(table: seq<PriceSample>)
    ensures forall j :: 0 <= j < |MinReport(table)| ==>
      GroupMin(table, MinReport(table)[j].fareType, MinReport(table)[j].stop) == Some(MinReport(table)[j].price)
  {
    var joined := Joined(table, table);
    JoinedMembers(table, table);
    var keys := SortUnique(KeysOf(joined), KeyLess);
    KeyLessIsStrictTotalOrder();
    SortUniqueCorrect(KeysOf(joined), KeyLess);
    var r := MinReport(table);
    forall j | 0 <= j < |r|
      ensures GroupMin(table, r[j].fareType, r[j].stop) == Some(r[j].price)
    {
      assert keys[j] in KeysOf(joined);
      var s :| s in joined && KeyOf(s) == keys[j];
    }
  }

  /** One line's dates: strictly increasing, and exactly the dates of its group's minimum. */
  lemma MinReportLineDates(table: seq<PriceSample>, j: int)
    requires 0 <= j < |MinReport(table)|
    ensures StrictlySorted(MinReport(table)[j].dates, StrLess)
    ensures forall d :: d in MinReport(table)[j].dates <==>
      exists s :: s in table && KeyOf(s) == RowKey(MinReport(table)[j]) && s.date == d
  {
    var joined := Joined(table, table);
    JoinedMembers(table, table);
    var keys := SortUnique(KeysOf(joined), KeyLess);
    var r := MinReport(table);
    MinReportPricesAreMinima(table);
    assert GroupMin(table, r[j].fareType, r[j].stop) == Some(r[j].price);
    assert RowKey(r[j]) == keys[j];
    StrLessIsStrictTotalOrder();
    SortUniqueCorrect(DatesOf(joined, keys[j]), StrLess);
    forall d ensures d in r[j].dates <==> exists s :: s in table && KeyOf(s) == keys[j] && s.date == d {
      if exists s :: s in table && KeyOf(s) == keys[j] && s.date == d {
        var s :| s in table && KeyOf(s) == keys[j] && s.date == d;
        assert AttainsGroupMin(table, s);
        assert s in joined;
      }
    }
  }

  /**
   A line lists exactly the dates on which its group's minimum price occurred,
   each once, in increasing order.
   */
  lemma MinReportDates(table: seq<PriceSample>)
    ensures forall j :: 0 <= j < |MinReport(table)| ==> StrictlySorted(MinReport(table)[j].dates, StrLess)
    ensures forall j, d :: 0 <= j < |MinReport(table)| ==>
      (d in MinReport(table)[j].dates <==>
        exists s :: s in table && KeyOf(s) == RowKey(MinReport(table)[j]) && s.date == d)
  {
    forall j | 0 <= j < |MinReport(table)|
      ensures StrictlySorted(MinReport(table)[j].dates, StrLess)
      ensures forall d :: d in MinReport(table)[j].dates <==>
        exists s :: s in table && KeyOf(s) == RowKey(MinReport(table)[j]) && s.date == d
    {
      MinReportLineDates(table, j);
    }
  }

  /** Every (type, stop) group of the table has a line in the report. */
  lemma MinReportComplete(table: seq<PriceSample>)
    ensures forall s :: s in table ==>
      exists j :: 0 <= j < |MinReport(table)| && InGroup(s, MinReport(table)[j].fareType, MinReport(table)[j].stop)
  {
    var joined := Joined(table, table);
    JoinedMembers(table, table);
    var keys := SortUnique(KeysOf(joined), KeyLess);
    var r := MinReport(table);
    KeyLessIsStrictTotalOrder();
    SortUniqueCorrect(KeysOf(joined), KeyLess);
    forall s | s in table
      ensures exists j :: 0 <= j < |r| && InGroup(s, r[j].fareType, r[j].stop)
    {
      var m := GroupMin(table, s.fareType, s.stop);
      assert m.Some?;
      var w :| w in table && InGroup(w, s.fareType, s.stop) && w.price == m.value;
      assert w in joined;
      assert KeyOf(w) in KeysOf(joined);
      assert KeyOf(w) in keys;
      var j :| 0 <= j < |keys| && keys[j] == KeyOf(w);
      assert InGroup(s, r[j].fareType, r[j].stop);
    }
  }

  /**
   The lines are sorted by (type, price, stop), and each (type, stop) group has
   at most one line.
   */
  lemma MinReportOrdered(table: seq<PriceSample>)
    ensures forall i, j :: 0 <= i < j < |MinReport(table)| ==>
      KeyLess(RowKey(MinReport(table)[i]), RowKey(MinReport(table)[j]))
    ensures forall i, j ::
      (0 <= i < |MinReport(table)| && 0 <= j < |MinReport(table)| &&
       MinReport(table)[i].fareType == MinReport(table)[j].fareType &&
       MinReport(table)[i].stop == MinReport(table)[j].stop) ==> i == j
  {
    var joined := Joined(table, table);
    var keys := SortUnique(KeysOf(joined), KeyLess);
    var r := MinReport(table);
    KeyLessIsStrictTotalOrder();
    SortUniqueCorrect(KeysOf(joined), KeyLess);
    MinReportPricesAreMinima(table);
    forall i, j | 0 <= i < j < |r| ensures KeyLess(RowKey(r[i]), RowKey(r[j])) {
      assert RowKey(r[i]) == keys[i] && RowKey(r[j]) == keys[j];
    }
    forall i, j | 0 <= i < |r| && 0 <= j < |r| && r[i].fareType == r[j].fareType && r[i].stop == r[j].stop
      ensures i == j
    {
      assert keys[i] == RowKey(r[i]) == RowKey(r[j]) == keys[j];
    }
  }

  /** The second of the two example days sorts after the first. */
  lemma ExampleDateOrder(d1: string, d2: string)
    requires d1 == "2024-12-01" && d2 == "2024-12-02"
    ensures StrLess(d1, d2) && !StrLess(d2, d1) && d1 != d2
  {
    StrLessExtend("2024-12-0", "1", "2");
    assert "2024-12-0" + "1" == d1 && "2024-12-0" + "2" == d2;
    StrLessAsymmetric(d1, d2);
    StrLessIrreflexive(d1);
  }

  /** The dates at which (Main, 100, 0) occurs in the example below, in order. */
  lemma ExampleDates(d1: string, d2: string, s1: PriceSample, s2: PriceSample)
    requires StrLess(d1, d2) && !StrLess(d2, d1) && d1 != d2
    requires s1 == PriceSample(d1, "Main", 100, 0) && s2 == PriceSample(d2, "Main", 100, 0)
    ensures SortUnique(DatesOf([s1, s2], MinKey("Main", 100, 0)), StrLess) == [d1, d2]
  {
    var k := MinKey("Main", 100, 0);
    assert DatesOf([s1], k) == [d1] by {
      assert [s1][..0] == [];
    }
    assert DatesOf([s1, s2], k) == [d1, d2] by {
      assert [s1, s2][..1] == [s1];
    }
    assert SortUnique([d1], StrLess) == [d1] by {
      assert [d1][..0] == [];
    }
    assert Insert([d1], d2, StrLess) == [d1, d2] by {
      assert [d1][1..] == [];
    }
    assert SortUnique([d1, d2], StrLess) == [d1, d2] by {
      assert [d1, d2][..1] == [d1];
    }
  }

  /** The group minimum of the example below. */
  lemma ExampleGroupMin(s1: PriceSample, s2: PriceSample, s3: PriceSample)
    requires s1.fareType == s2.fareType == s3.fareType && s1.stop == s2.stop == s3.stop
    requires s1.price == s2.price < s3.price
    ensures GroupMin([s1, s2, s3], s1.fareType, s1.stop) == Some(s1.price)
  {
    var f, p := s1.fareType, s1.stop;
    assert GroupMin([s1], f, p) == Some(s1.price) by {
      assert [s1][..0] == [];
    }
    assert GroupMin([s1, s2], f, p) == Some(s1.price) by {
      assert [s1, s2][..1] == [s1];
    }
    assert [s1, s2, s3][..2] == [s1, s2];
  }

  /** A row attaining its group minimum is kept by the join. */
  lemma JoinedKeep(table: seq<PriceSample>, rows: seq<PriceSample>, s: PriceSample)
    requires AttainsGroupMin(table, s)
    ensures Joined(table, rows + [s]) == Joined(table, rows) + [s]
  {
    assert (rows + [s])[..|rows|] == rows;
  }

  /** A row above its group minimum is dropped by the join. */
  lemma JoinedDrop(table: seq<PriceSample>, rows: seq<PriceSample>, s: PriceSample)
    requires !AttainsGroupMin(table, s)
    ensures Joined(table, rows + [s]) == Joined(table, rows)
  {
    assert (rows + [s])[..|rows|] == rows;
  }

  /** Of three rows, the join keeps the two that attain their group minimum, in order. */
  lemma JoinedOfThree(table: seq<PriceSample>, s1: PriceSample, s2: PriceSample, s3: PriceSample)
    requires AttainsGroupMin(table, s1) && AttainsGroupMin(table, s2) && !AttainsGroupMin(table, s3)
    ensures Joined(table, [s1, s2, s3]) == [s1, s2]
  {
    var r0: seq<PriceSample> := [];
    var r1 := r0 + [s1];
    var r2 := r1 + [s2];
    JoinedKeep(table, r0, s1);
    JoinedKeep(table, r1, s2);
    JoinedDrop(table, r2, s3);
    assert r2 + [s3] == [s1, s2, s3];
    assert Joined(table, r0) + [s1] + [s2] == [s1, s2];
  }

  /** The rows of the example below that attain their group minimum. */
  lemma ExampleJoin(s1: PriceSample, s2: PriceSample, s3: PriceSample)
    requires s1.fareType == s2.fareType == s3.fareType && s1.stop == s2.stop == s3.stop
    requires s1.price == s2.price < s3.price
    ensures Joined([s1, s2, s3], [s1, s2, s3]) == [s1, s2]
  {
    ExampleGroupMin(s1, s2, s3);
    JoinedOfThree([s1, s2, s3], s1, s2, s3);
  }

  /** The keys of the joined rows of the example below. */
  lemma ExampleKeys(s1: PriceSample, s2: PriceSample)
    requires KeyOf(s1) == KeyOf(s2)
    ensures SortUnique(KeysOf([s1, s2]), KeyLess) == [KeyOf(s1)]
  {
    var k := KeyOf(s1);
    assert KeysOf([s1]) == [k] by {
      assert [s1][..0] == [];
    }
    assert KeysOf([s1, s2]) == [k, k] by {
      assert [s1, s2][..1] == [s1];
    }
    assert SortUnique([k], KeyLess) == [k] by {
      assert [k][..0] == [];
    }
    assert [k, k][..1] == [k];
  }

  /** Two days at the group minimum and a later, dearer one: one line, listing both cheap days. */
  lemma ExampleReport(d1: string, d2: string, d3: string)
    requires StrLess(d1, d2) && !StrLess(d2, d1) && d1 != d2
    ensures MinReport([PriceSample(d1, "Main", 100, 0), PriceSample(d2, "Main", 100, 0),
                       PriceSample(d3, "Main", 150, 0)])
         == [MinRow(100, "Main", 0, [d1, d2])]
  {
    var s1, s2, s3 := PriceSample(d1, "Main", 100, 0), PriceSample(d2, "Main", 100, 0),
                      PriceSample(d3, "Main", 150, 0);
    ExampleJoin(s1, s2, s3);
    ExampleKeys(s1, s2);
    ExampleDates(d1, d2, s1, s2);
    var r := MinReport([s1, s2, s3]);
    assert |r| == 1;
    assert r[0] == MinRow(100, "Main", 0, [d1, d2]);
  }

  /** Two days at the minimum 100 and one at 150: the line for (Main, 0) is 100 on both days. */
  lemma MinReportExample()
    ensures MinReport([PriceSample("2024-12-01", "Main", 100, 0), PriceSample("2024-12-02", "Main", 100, 0),
                       PriceSample("2024-12-03", "Main", 150, 0)])
         == [MinRow(100, "Main", 0, ["2024-12-01", "2024-12-02"])]
  {
    ExampleDateOrder("2024-12-01", "2024-12-02");
    ExampleReport("2024-12-01", "2024-12-02", "2024-12-03");
  }
}
