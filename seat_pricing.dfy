/**
 What `check_seats` in lambda/handler.py computes from one seat-map response:
 the prices collected per cabin, the sheet row of each priced cabin and the
 alerts it raises.

 Offer amounts are exact reals instead of floats. `int(...)` truncates toward
 zero (`Trunc`). An amount that cannot be read makes `float(offer["amount"])`
 raise, which ends the whole check: the alerts already published stay, no row
 is written.
 */
module SeatPricing {
  import opened Wrappers
  import opened Decimal

  // ---------------------------------------------------------------------------
  // The decoded seat map: `retrieveISMResponse.seatMapDO.seatCabins`
  // ---------------------------------------------------------------------------

  /** One entry of `seatOffer`; `amount` is `None` when it is missing or not a number. */
  datatype SeatOffer = SeatOffer(amount: Option<real>)

  datatype SeatColumn = SeatColumn(seatOffer: seq<SeatOffer>)

  datatype SeatRow = SeatRow(seatColumns: seq<SeatColumn>)

  datatype SeatCabin = SeatCabin(cabinType: string, seatRows: seq<SeatRow>)

  /**
   The response of the seat-map request: its status code and, when the body
   decodes and holds `retrieveISMResponse.seatMapDO.seatCabins`, the cabins.
   */
  datatype SeatMapResponse = SeatMapResponse(statusCode: int, seatCabins: Option<seq<SeatCabin>>)

  /** The part of a configured trip the check reads: its name and its price thresholds per cabin. */
  datatype Trip = Trip(name: string, alerts: map<string, real>)

  /** The seven cells of a sheet row. */
  datatype SheetRow = SheetRow(
    timestamp: string,
    cabin: string,
    minPrice: int,
    maxPrice: int,
    avgPrice: int,
    tripName: string,
    rowLabel: string)

  /** A notification published to the topic. */
  datatype Alert = Alert(subject: string, message: string)

  const Coach := "COACH"
  const AlertMessage := "Buy it!"

  // ---------------------------------------------------------------------------
  // Price collection
  // ---------------------------------------------------------------------------

  /** The offers of a run of seat columns, in visiting order. */
  function ColumnsOffers(columns: seq<SeatColumn>): seq<SeatOffer>
  {
    if columns == [] then []
    else ColumnsOffers(columns[..|columns| - 1]) + columns[|columns| - 1].seatOffer
  }

  /** The offers of a run of seat rows, in visiting order. */
  function RowsOffers(rows: seq<SeatRow>): seq<SeatOffer>
  {
    if rows == [] then []
    else RowsOffers(rows[..|rows| - 1]) + ColumnsOffers(rows[|rows| - 1].seatColumns)
  }

  /**
   The strictly positive amounts of `offers`, in order; `None` when some amount
   cannot be read.
   */
  function Collect(offers: seq<SeatOffer>): (r: Option<seq<real>>)
    ensures r.Some? ==> forall k :: 0 <= k < |r.value| ==> r.value[k] > 0.0
  {
    if offers == [] then Some([])
    else
      var prev := Collect(offers[..|offers| - 1]);
      var amount := offers[|offers| - 1].amount;
      if prev.None? || amount.None? then None
      else if amount.value > 0.0 then Some(prev.value + [amount.value])
      else prev
  }

  /** Both collections succeed, one after the other. */
  function Join(a: Option<seq<real>>, b: Option<seq<real>>): Option<seq<real>>
  {
    if a.None? || b.None? then None else Some(a.value + b.value)
  }

  /** The prices collected in a cabin: none at all in a COACH cabin. */
  function CabinPrices(cabin: SeatCabin): (r: Option<seq<real>>)
    ensures r.Some? ==> forall k :: 0 <= k < |r.value| ==> r.value[k] > 0.0
  {
    if cabin.cabinType == Coach then Some([]) else Collect(RowsOffers(cabin.seatRows))
  }

  // ---------------------------------------------------------------------------
  // Row arithmetic
  // ---------------------------------------------------------------------------

  /** Python's `int(x)` on a number: truncation toward zero. */
  function Trunc(x: real): (n: int)
    ensures x >= 0.0 ==> n as real <= x < n as real + 1.0
    ensures x < 0.0 ==> n as real - 1.0 < x <= n as real
  {
    if x >= 0.0 then x.Floor else -((-x).Floor)
  }

  function MinOf(s: seq<real>): (m: real)
    requires s != []
    ensures m in s && forall k :: 0 <= k < |s| ==> m <= s[k]
  {
    if |s| == 1 then s[0]
    else
      var rest := MinOf(s[..|s| - 1]);
      if s[|s| - 1] < rest then s[|s| - 1] else rest
  }

  function MaxOf(s: seq<real>): (m: real)
    requires s != []
    ensures m in s && forall k :: 0 <= k < |s| ==> s[k] <= m
  {
    if |s| == 1 then s[0]
    else
      var rest := MaxOf(s[..|s| - 1]);
      if s[|s| - 1] > rest then s[|s| - 1] else rest
  }

  function SumOf(s: seq<real>): real
  {
    if s == [] then 0.0 else SumOf(s[..|s| - 1]) + s[|s| - 1]
  }

  /** `sum(prices) / len(prices)` */
  function Mean(s: seq<real>): real
    requires s != []
  {
    SumOf(s) / (|s| as real)
  }

  lemma {:induction false} SumAtLeast(s: seq<real>, lo: real)
    requires forall k :: 0 <= k < |s| ==> lo <= s[k]
    ensures (|s| as real) * lo <= SumOf(s)
  {
    if s != [] {
      SumAtLeast(s[..|s| - 1], lo);
    }
  }

  lemma {:induction false} SumAtMost(s: seq<real>, hi: real)
    requires forall k :: 0 <= k < |s| ==> s[k] <= hi
    ensures SumOf(s) <= (|s| as real) * hi
  {
    if s != [] {
      SumAtMost(s[..|s| - 1], hi);
    }
  }

  /** The mean lies between the smallest and the largest price. */
  lemma MeanBetween(s: seq<real>)
    requires s != []
    ensures MinOf(s) <= Mean(s) <= MaxOf(s)
  {
    var n := |s| as real;
    SumAtLeast(s, MinOf(s));
    SumAtMost(s, MaxOf(s));
    BoundsOfQuotient(MinOf(s), SumOf(s), MaxOf(s), n);
  }

  lemma BoundsOfQuotient(lo: real, x: real, hi: real, n: real)
    requires n > 0.0 && n * lo <= x <= n * hi
    ensures lo <= x / n <= hi
  {
    var q := x / n;
    assert q * n == x;
    assert (q - lo) * n == x - n * lo;
    assert (hi - q) * n == n * hi - x;
  }

  lemma TruncMonotone(x: real, y: real)
    requires 0.0 <= x <= y
    ensures Trunc(x) <= Trunc(y)
  {
  }

  /** The cells computed for a cabin with prices `prices`. */
  function CabinRow(trip: Trip, cabinType: string, prices: seq<real>, timestamp: string): (row: SheetRow)
    requires prices != [] && forall k :: 0 <= k < |prices| ==> prices[k] > 0.0
    ensures 0 <= row.minPrice <= row.avgPrice <= row.maxPrice
  {
    MeanBetween(prices);
    TruncMonotone(MinOf(prices), Mean(prices));
    TruncMonotone(Mean(prices), MaxOf(prices));
    SheetRow(timestamp, cabinType, Trunc(MinOf(prices)), Trunc(MaxOf(prices)), Trunc(Mean(prices)),
      trip.name, trip.name + " - " + cabinType)
  }

  // ---------------------------------------------------------------------------
  // Alerts
  // ---------------------------------------------------------------------------

  /** The cabin has a threshold in the trip and its truncated minimum is at or below it. */
  predicate ShouldAlert(trip: Trip, cabin: string, minPrice: int)
  {
    cabin in trip.alerts && (minPrice as real) <= trip.alerts[cabin]
  }

  /** `f"Delta Bot - {cabin_type} for ${min_price} ({trip['name']})"` */
  function Subject(cabin: string, minPrice: int, tripName: string): string
  {
    "Delta Bot - " + cabin + " for $" + IntToString(minPrice) + " (" + tripName + ")"
  }

  /** The alerts raised for one row: one when the row's minimum triggers its cabin's threshold. */
  function RowAlerts(trip: Trip, row: SheetRow): seq<Alert>
  {
    if ShouldAlert(trip, row.cabin, row.minPrice) then [RowAlert(trip, row)] else []
  }

  /** `a` is the alert raised for `row`. */
  predicate AlertsFor(trip: Trip, row: SheetRow, a: Alert)
  {
    ShouldAlert(trip, row.cabin, row.minPrice) && a == RowAlert(trip, row)
  }

  /** The alert for a row: its cabin, its minimum and the trip name in the subject. */
  function RowAlert(trip: Trip, row: SheetRow): Alert
  {
    Alert(Subject(row.cabin, row.minPrice, trip.name), AlertMessage)
  }

  function AlertsOf(trip: Trip, rows: seq<SheetRow>): seq<Alert>
  {
    if rows == [] then [] else AlertsOf(trip, rows[..|rows| - 1]) + RowAlerts(trip, rows[|rows| - 1])
  }

  // ---------------------------------------------------------------------------
  // The whole check
  // ---------------------------------------------------------------------------

  /** The rows and alerts produced over a run of cabins, and whether an exception ended it. */
  datatype CabinsScan = CabinsScan(rows: seq<SheetRow>, alerts: seq<Alert>, raised: bool)

  function ScanCabins(trip: Trip, cabins: seq<SeatCabin>, timestamp: string): CabinsScan
  {
    if cabins == [] then CabinsScan([], [], false)
    else NextCabin(trip, ScanCabins(trip, cabins[..|cabins| - 1], timestamp), cabins[|cabins| - 1], timestamp)
  }

  /** The effect of one more cabin on a run that has not raised yet. */
  function NextCabin(trip: Trip, prev: CabinsScan, cabin: SeatCabin, timestamp: string): CabinsScan
  {
    if prev.raised then prev
    else match CabinPrices(cabin)
      case None => CabinsScan(prev.rows, prev.alerts, true)
      case Some(prices) =>
        if prices == [] then prev
        else
          var row := CabinRow(trip, cabin.cabinType, prices, timestamp);
          CabinsScan(prev.rows + [row], prev.alerts + RowAlerts(trip, row), false)
  }

  /** The alerts `check_seats` publishes and the rows it hands to the sheet writer, if it calls it. */
  datatype SeatCheck = SeatCheck(alerts: seq<Alert>, sheetValues: Option<seq<SheetRow>>)

  function Check(trip: Trip, response: SeatMapResponse, timestamp: string): SeatCheck
  {
    if response.statusCode != 200 || response.seatCabins.None? then SeatCheck([], None)
    else
      var scan := ScanCabins(trip, response.seatCabins.value, timestamp);
      SeatCheck(scan.alerts, if scan.raised || scan.rows == [] then None else Some(scan.rows))
  }

  // ---------------------------------------------------------------------------
  // Properties
  // ---------------------------------------------------------------------------

  lemma {:induction false} ColumnsOffersAppend(a: seq<SeatColumn>, b: seq<SeatColumn>)
    ensures ColumnsOffers(a + b) == ColumnsOffers(a) + ColumnsOffers(b)
  {
    if b == [] {
      assert a + b == a;
    } else {
      var init := b[..|b| - 1];
      assert ColumnsOffers(a + b) == ColumnsOffers(a + init) + b[|b| - 1].seatOffer by {
        assert (a + b)[..|a + b| - 1] == a + init;
      }
      ColumnsOffersAppend(a, init);
      AppendAssoc(ColumnsOffers(a), ColumnsOffers(init), b[|b| - 1].seatOffer);
    }
  }

  lemma {:induction false} RowsOffersAppend(a: seq<SeatRow>, b: seq<SeatRow>)
    ensures RowsOffers(a + b) == RowsOffers(a) + RowsOffers(b)
  {
    if b == [] {
      assert a + b == a;
    } else {
      var init := b[..|b| - 1];
      assert RowsOffers(a + b) == RowsOffers(a + init) + ColumnsOffers(b[|b| - 1].seatColumns) by {
        assert (a + b)[..|a + b| - 1] == a + init;
      }
      RowsOffersAppend(a, init);
      AppendAssoc(RowsOffers(a), RowsOffers(init), ColumnsOffers(b[|b| - 1].seatColumns));
    }
  }

  /**
   The collection succeeds exactly when every amount can be read, and then holds
   exactly the strictly positive amounts.
   */
  lemma {:induction false} CollectPositive(offers: seq<SeatOffer>)
    ensures Collect(offers).Some? <==> forall i :: 0 <= i < |offers| ==> offers[i].amount.Some?
    ensures Collect(offers).Some? ==> forall x ::
      x in Collect(offers).value <==> exists i :: 0 <= i < |offers| && offers[i].amount == Some(x) && x > 0.0
  {
    if offers != [] {
      var init := offers[..|offers| - 1];
      CollectPositive(init);
      assert forall i :: 0 <= i < |init| ==> init[i] == offers[i];
    }
  }

  /**
   A single offer: an unreadable amount fails, a positive one is collected once,
   any other is skipped. With CollectAppend this fixes the collected list,
   order and repeats included.
   */
  lemma CollectSingle(o: SeatOffer)
    ensures Collect([o]) ==
      if o.amount.None? then None
      else if o.amount.value > 0.0 then Some([o.amount.value])
      else Some([])
  {
    assert [o][..|[o]| - 1] == [];
    assert [o][|[o]| - 1] == o;
    if o.amount.Some? {
      assert [] + [o.amount.value] == [o.amount.value];
    }
  }

  /** How many offers carry exactly the amount `x`. */
  function AmountCount(offers: seq<SeatOffer>, x: real): nat
  {
    if offers == [] then 0
    else AmountCount(offers[..|offers| - 1], x) + (if offers[|offers| - 1].amount == Some(x) then 1 else 0)
  }

  /**
   A successful collection holds each positive amount as often as the offers
   carry it, and nothing else; so the mean of the row is over the offers
   themselves, repeats included.
   */
  lemma {:induction false} CollectCounts(offers: seq<SeatOffer>, x: real)
    requires Collect(offers).Some?
    ensures multiset(Collect(offers).value)[x] == if x > 0.0 then AmountCount(offers, x) else 0
  {
    if offers != [] {
      var init := offers[..|offers| - 1];
      CollectCounts(init, x);
    }
  }

  lemma {:induction false} CollectAppend(a: seq<SeatOffer>, b: seq<SeatOffer>)
    ensures Collect(a + b) == Join(Collect(a), Collect(b))
  {
    if b == [] {
      assert a + b == a;
      if Collect(a).Some? {
        assert Collect(a).value + [] == Collect(a).value;
      }
    } else {
      var init := b[..|b| - 1];
      assert (a + b)[..|a + b| - 1] == a + init;
      CollectAppend(a, init);
      var ca, ci := Collect(a), Collect(init);
      if ca.Some? && ci.Some? && b[|b| - 1].amount.Some? {
        AppendAssoc(ca.value, ci.value, [b[|b| - 1].amount.value]);
      }
    }
  }

  /** A COACH cabin collects nothing, whatever its offers. */
  lemma CoachCollectsNothing(cabin: SeatCabin)
    requires cabin.cabinType == Coach
    ensures CabinPrices(cabin) == Some([])
  {
  }

  /**
   Every cell of a cabin's row: the run's timestamp, the cabin, the truncated
   minimum, maximum and mean, the trip name and the label "<name> - <cabin>" (`rowLabel`);
   the minimum and the maximum are each attained by some price, and once
   truncated they bound all the truncated prices from below and from above.
   */
  lemma CabinRowCells(trip: Trip, cabinType: string, prices: seq<real>, timestamp: string)
    requires prices != [] && forall k :: 0 <= k < |prices| ==> prices[k] > 0.0
    ensures var row := CabinRow(trip, cabinType, prices, timestamp);
      && row.timestamp == timestamp && row.cabin == cabinType && row.tripName == trip.name
      && row.rowLabel == trip.name + " - " + cabinType
      && (exists k :: 0 <= k < |prices| && row.minPrice == Trunc(prices[k]))
      && (exists k :: 0 <= k < |prices| && row.maxPrice == Trunc(prices[k]))
      && (forall k :: 0 <= k < |prices| ==> row.minPrice <= Trunc(prices[k]) && Trunc(prices[k]) <= row.maxPrice)
      && row.avgPrice == Trunc(Mean(prices))
  {
    var row := CabinRow(trip, cabinType, prices, timestamp);
    var kMax :| 0 <= kMax < |prices| && prices[kMax] == MaxOf(prices);
    forall k | 0 <= k < |prices|
      ensures row.minPrice <= Trunc(prices[k]) <= row.maxPrice
    {
      TruncMonotone(MinOf(prices), prices[k]);
      TruncMonotone(prices[k], MaxOf(prices));
    }
  }

  /** How a run of cabins extends: the later run only adds, unless the earlier one raised. */
  function Combine(a: CabinsScan, b: CabinsScan): CabinsScan
  {
    if a.raised then a else CabinsScan(a.rows + b.rows, a.alerts + b.alerts, b.raised)
  }

  lemma {:induction false} ScanCabinsAppend(trip: Trip, a: seq<SeatCabin>, b: seq<SeatCabin>, timestamp: string)
    ensures ScanCabins(trip, a + b, timestamp) == Combine(ScanCabins(trip, a, timestamp), ScanCabins(trip, b, timestamp))
  {
    if b == [] {
      assert a + b == a;
    } else {
      var init, last := b[..|b| - 1], b[|b| - 1];
      assert ScanCabins(trip, a + b, timestamp) == NextCabin(trip, ScanCabins(trip, a + init, timestamp), last, timestamp) by {
        assert (a + b)[..|a + b| - 1] == a + init;
      }
      ScanCabinsAppend(trip, a, init, timestamp);
      NextCabinCombine(trip, ScanCabins(trip, a, timestamp), ScanCabins(trip, init, timestamp), last, timestamp);
    }
  }

  lemma NextCabinCombine(trip: Trip, x: CabinsScan, y: CabinsScan, cabin: SeatCabin, timestamp: string)
    ensures NextCabin(trip, Combine(x, y), cabin, timestamp) == Combine(x, NextCabin(trip, y, cabin, timestamp))
  {
    if !x.raised && !y.raised && CabinPrices(cabin).Some? && CabinPrices(cabin).value != [] {
      var row := CabinRow(trip, cabin.cabinType, CabinPrices(cabin).value, timestamp);
      assert x.rows + y.rows + [row] == x.rows + (y.rows + [row]);
      assert x.alerts + y.alerts + RowAlerts(trip, row) == x.alerts + (y.alerts + RowAlerts(trip, row));
    }
  }

  /**
   A cabin that collects no price (a COACH cabin, or one whose amounts are all
   zero or negative) produces no row and no alert, and the cabins after it are
   processed as if it were absent.
   */
  lemma UnpricedCabinIsSkipped(trip: Trip, before: seq<SeatCabin>, cabin: SeatCabin, after: seq<SeatCabin>, timestamp: string)
    requires CabinPrices(cabin) == Some([])
    ensures ScanCabins(trip, before + [cabin] + after, timestamp) == ScanCabins(trip, before + after, timestamp)
  {
    ScanCabinsAppend(trip, before + [cabin], after, timestamp);
    ScanCabinsAppend(trip, before, [cabin], timestamp);
    ScanCabinsAppend(trip, before, after, timestamp);
    assert [cabin][..0] == [];
  }

  /** A cabin's prices are present and not empty. */
  predicate Priced(cabin: SeatCabin)
  {
    CabinPrices(cabin).Some? && CabinPrices(cabin).value != []
  }

  /** The row of a priced cabin. */
  function PricedRow(trip: Trip, cabin: SeatCabin, timestamp: string): SheetRow
    requires Priced(cabin)
  {
    CabinRow(trip, cabin.cabinType, CabinPrices(cabin).value, timestamp)
  }

  /** The run grows by one cabin: at most one row, and that row's alerts. */
  lemma NextCabinGrows(trip: Trip, prev: CabinsScan, cabin: SeatCabin, timestamp: string)
    requires !prev.raised
    ensures var next := NextCabin(trip, prev, cabin, timestamp);
      if Priced(cabin) then
        next == CabinsScan(prev.rows + [PricedRow(trip, cabin, timestamp)],
          prev.alerts + RowAlerts(trip, PricedRow(trip, cabin, timestamp)), false)
      else next.rows == prev.rows && next.alerts == prev.alerts
  {
  }

  /** The number of priced cabins. */
  function CountPriced(cabins: seq<SeatCabin>): nat
  {
    if cabins == [] then 0
    else CountPriced(cabins[..|cabins| - 1]) + (if Priced(cabins[|cabins| - 1]) then 1 else 0)
  }

  /**
   At most one row per cabin, exactly one per priced cabin unless an exception
   ended the run, and the alerts are exactly those of the rows, in row order.
   */
  lemma {:induction false} ScanCabinsAlerts(trip: Trip, cabins: seq<SeatCabin>, timestamp: string)
    ensures var scan := ScanCabins(trip, cabins, timestamp);
      && |scan.rows| <= |cabins| && scan.alerts == AlertsOf(trip, scan.rows)
      && (!scan.raised ==> |scan.rows| == CountPriced(cabins))
  {
    if cabins != [] {
      var init, last := cabins[..|cabins| - 1], cabins[|cabins| - 1];
      ScanCabinsAlerts(trip, init, timestamp);
      var prev := ScanCabins(trip, init, timestamp);
      if !prev.raised {
        NextCabinGrows(trip, prev, last, timestamp);
        if Priced(last) {
          var row := PricedRow(trip, last, timestamp);
          assert (prev.rows + [row])[..|prev.rows|] == prev.rows;
        }
      }
    }
  }

  /** Every row is the row of some priced cabin. */
  lemma {:induction false} ScanCabinsRowsSound(trip: Trip, cabins: seq<SeatCabin>, timestamp: string)
    ensures forall r :: r in ScanCabins(trip, cabins, timestamp).rows ==>
      exists i :: 0 <= i < |cabins| && Priced(cabins[i]) && r == PricedRow(trip, cabins[i], timestamp)
  {
    if cabins != [] {
      var init, last := cabins[..|cabins| - 1], cabins[|cabins| - 1];
      ScanCabinsRowsSound(trip, init, timestamp);
      var prev := ScanCabins(trip, init, timestamp);
      if !prev.raised {
        NextCabinGrows(trip, prev, last, timestamp);
      }
      forall r | r in ScanCabins(trip, cabins, timestamp).rows
        ensures exists i :: 0 <= i < |cabins| && Priced(cabins[i]) && r == PricedRow(trip, cabins[i], timestamp)
      {
        if r in prev.rows {
          var i :| 0 <= i < |init| && Priced(init[i]) && r == PricedRow(trip, init[i], timestamp);
          assert cabins[i] == init[i];
        } else {
          assert cabins[|cabins| - 1] == last;
        }
      }
    }
  }

  /** Unless an exception ended the run, every priced cabin has its row. */
  lemma {:induction false} ScanCabinsRowsComplete(trip: Trip, cabins: seq<SeatCabin>, timestamp: string)
    ensures !ScanCabins(trip, cabins, timestamp).raised ==>
      forall i :: 0 <= i < |cabins| && Priced(cabins[i]) ==>
        PricedRow(trip, cabins[i], timestamp) in ScanCabins(trip, cabins, timestamp).rows
  {
    if cabins != [] {
      var init, last := cabins[..|cabins| - 1], cabins[|cabins| - 1];
      var prev := ScanCabins(trip, init, timestamp);
      var scan := ScanCabins(trip, cabins, timestamp);
      assert scan == NextCabin(trip, prev, last, timestamp);
      if !scan.raised {
        assert !prev.raised;
        ScanCabinsRowsComplete(trip, init, timestamp);
        NextCabinGrows(trip, prev, last, timestamp);
        assert forall r :: r in prev.rows ==> r in scan.rows;
        forall i | 0 <= i < |cabins| && Priced(cabins[i])
          ensures PricedRow(trip, cabins[i], timestamp) in scan.rows
        {
          if i < |init| {
            assert cabins[i] == init[i];
          } else {
            assert cabins[i] == last;
          }
        }
      }
    }
  }

  /** Every alert raised belongs to a row whose minimum triggers its cabin's threshold. */
  lemma {:induction false} AlertsOfSound(trip: Trip, rows: seq<SheetRow>)
    ensures forall a :: a in AlertsOf(trip, rows) ==> exists k :: 0 <= k < |rows| && AlertsFor(trip, rows[k], a)
    ensures forall a :: a in AlertsOf(trip, rows) ==> a.message == AlertMessage
    ensures |AlertsOf(trip, rows)| <= |rows|
  {
    if rows != [] {
      var init, last := rows[..|rows| - 1], rows[|rows| - 1];
      AlertsOfSound(trip, init);
      forall a | a in AlertsOf(trip, rows) ensures exists k :: 0 <= k < |rows| && AlertsFor(trip, rows[k], a) {
        if a in AlertsOf(trip, init) {
          var k :| 0 <= k < |init| && AlertsFor(trip, init[k], a);
          assert rows[k] == init[k];
        } else {
          assert a in RowAlerts(trip, last);
          assert AlertsFor(trip, rows[|rows| - 1], a);
        }
      }
    }
  }

  /** The number of rows whose minimum triggers their cabin's threshold. */
  function CountAlerting(trip: Trip, rows: seq<SheetRow>): nat
  {
    if rows == [] then 0
    else CountAlerting(trip, rows[..|rows| - 1]) + (if ShouldAlert(trip, rows[|rows| - 1].cabin, rows[|rows| - 1].minPrice) then 1 else 0)
  }

  /**
   Every row whose cabin has a threshold at or above the row's minimum raises
   its alert, and there is one alert per such row.
   */
  lemma {:induction false} AlertsOfComplete(trip: Trip, rows: seq<SheetRow>)
    ensures forall k :: 0 <= k < |rows| && ShouldAlert(trip, rows[k].cabin, rows[k].minPrice) ==>
      RowAlert(trip, rows[k]) in AlertsOf(trip, rows)
    ensures |AlertsOf(trip, rows)| == CountAlerting(trip, rows)
  {
    if rows != [] {
      var init, last := rows[..|rows| - 1], rows[|rows| - 1];
      AlertsOfComplete(trip, init);
      forall k | 0 <= k < |rows| && ShouldAlert(trip, rows[k].cabin, rows[k].minPrice)
        ensures RowAlert(trip, rows[k]) in AlertsOf(trip, rows)
      {
        if k < |init| {
          assert rows[k] == init[k];
        }
      }
    }
  }

  /** Two subjects for the same cabin and trip differ when the prices differ. */
  lemma SubjectNamesPrice(cabin: string, tripName: string, m1: nat, m2: nat)
    requires Subject(cabin, m1, tripName) == Subject(cabin, m2, tripName)
    ensures m1 == m2
  {
    var p := "Delta Bot - " + cabin + " for $";
    var q := " (" + tripName + ")";
    var s1, s2 := NatToString(m1), NatToString(m2);
    assert Subject(cabin, m1, tripName) == p + s1 + q;
    assert Subject(cabin, m2, tripName) == p + s2 + q;
    SameMiddle(p, s1, s2, q);
    NatToStringInjective(m1, m2);
  }

  /** Equal texts with the same prefix and suffix have the same middle part. */
  lemma SameMiddle<T>(p: seq<T>, x: seq<T>, y: seq<T>, q: seq<T>)
    requires p + x + q == p + y + q
    ensures x == y
  {
    assert |x| == |y|;
    assert x == (p + x + q)[|p|..|p| + |x|];
    assert y == (p + y + q)[|p|..|p| + |y|];
  }

  /**
   A response other than 200, or a body without the seat map, produces no alert
   and no sheet write. Otherwise the alerts are exactly those of the cabin walk,
   and the sheet writer is called exactly when no exception ended the walk and
   at least one cabin had prices, with exactly the walk's rows.
   */
  lemma CheckSinks(trip: Trip, response: SeatMapResponse, timestamp: string)
    ensures response.statusCode != 200 ==> Check(trip, response, timestamp) == SeatCheck([], None)
    ensures Check(trip, response, timestamp).sheetValues.Some? <==>
      && response.statusCode == 200 && response.seatCabins.Some?
      && !ScanCabins(trip, response.seatCabins.value, timestamp).raised
      && exists i :: 0 <= i < |response.seatCabins.value| && Priced(response.seatCabins.value[i])
    ensures response.seatCabins.None? ==> Check(trip, response, timestamp) == SeatCheck([], None)
    ensures response.statusCode == 200 && response.seatCabins.Some? ==>
      Check(trip, response, timestamp).alerts == ScanCabins(trip, response.seatCabins.value, timestamp).alerts
    ensures Check(trip, response, timestamp).sheetValues.Some? ==>
      && response.seatCabins.Some?
      && Check(trip, response, timestamp).sheetValues.value == ScanCabins(trip, response.seatCabins.value, timestamp).rows
  {
    if response.statusCode == 200 && response.seatCabins.Some? {
      var cabins := response.seatCabins.value;
      ScanCabinsRowsSound(trip, cabins, timestamp);
      ScanCabinsRowsComplete(trip, cabins, timestamp);
      var scan := ScanCabins(trip, cabins, timestamp);
      if scan.rows != [] {
        assert scan.rows[0] in scan.rows;
      }
    }
  }
}
