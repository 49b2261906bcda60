/**
 The imperative part of lambda/handler.py: `check_seats`, which walks the seat
 map, publishes alerts and hands the rows to `gsheet_write`, and
 `gsheet_write`, a bounded retry loop around the spreadsheet API.

 The topic and the spreadsheet are fields of a `SeatMonitor` that record what
 was published, what was appended (and from which row) and how long each
 backoff slept. The spreadsheet's answers are given in advance, one per
 attempt (`SheetCall`).
 */
module SeatMonitor {
  import opened Wrappers
  import opened SeatPricing

  // ---------------------------------------------------------------------------
  // Specification of gsheet_write
  // ---------------------------------------------------------------------------

  const MaxSheetAttempts := 3
  const BackoffUnit := 30

  /**
   One attempt: the read of the existing rows failed, the append failed, or the
   read found `existingRows` rows and the append went through.
   */
  datatype SheetCall = ReadFailed | AppendFailed | Succeeded(existingRows: nat)

  /** An append of `values` to the range that starts at row `startRow`. */
  datatype SheetAppend = SheetAppend(startRow: nat, values: seq<SheetRow>)

  /** What a call of `gsheet_write` leaves behind: the appends made and the sleeps taken. */
  datatype WriteEffect = WriteEffect(appends: seq<SheetAppend>, sleeps: seq<nat>)

  /** The first successful attempt from `k` on, among the first three. */
  function FirstSuccess(calls: seq<SheetCall>, k: nat): (a: Option<nat>)
    requires |calls| >= MaxSheetAttempts && k <= MaxSheetAttempts
    ensures a.Some? ==> k <= a.value < MaxSheetAttempts && calls[a.value].Succeeded?
    ensures a.Some? ==> forall j :: k <= j < a.value ==> !calls[j].Succeeded?
    ensures a.None? ==> forall j :: k <= j < MaxSheetAttempts ==> !calls[j].Succeeded?
    decreases MaxSheetAttempts - k
  {
    if k == MaxSheetAttempts then None
    else if calls[k].Succeeded? then Some(k)
    else FirstSuccess(calls, k + 1)
  }

  /** The sleeps after `n` failed attempts: 30 s, 60 s, 90 s, ... */
  function Backoffs(n: nat): (s: seq<nat>)
    ensures |s| == n && forall j :: 0 <= j < n ==> s[j] == BackoffUnit * (j + 1)
  {
    if n == 0 then [] else Backoffs(n - 1) + [BackoffUnit * n]
  }

  function SheetWrite(values: seq<SheetRow>, calls: seq<SheetCall>): WriteEffect
    requires |calls| >= MaxSheetAttempts
  {
    match FirstSuccess(calls, 0)
    case None => WriteEffect([], Backoffs(MaxSheetAttempts))
    case Some(k) => WriteEffect([SheetAppend(calls[k].existingRows + 1, values)], Backoffs(k))
  }

  /**
   At most three attempts: the writer stops at the first success, appends once
   from row `existing + 1`, sleeps 30·i seconds after failed attempt i (also
   after the last one) and never fails itself.
   */
  lemma SheetWriteRetries(values: seq<SheetRow>, calls: seq<SheetCall>)
    requires |calls| >= MaxSheetAttempts
    ensures var w := SheetWrite(values, calls);
      && |w.appends| <= 1
      && |w.sleeps| <= MaxSheetAttempts
      && (forall j :: 0 <= j < |w.sleeps| ==> w.sleeps[j] == BackoffUnit * (j + 1))
      && (|w.appends| == 1 <==> exists j :: 0 <= j < MaxSheetAttempts && calls[j].Succeeded?)
      && (|w.appends| == 1 ==>
            var k := |w.sleeps|;
            && k < MaxSheetAttempts && calls[k].Succeeded?
            && (forall j :: 0 <= j < k ==> !calls[j].Succeeded?)
            && w.appends[0] == SheetAppend(calls[k].existingRows + 1, values))
      && (|w.appends| == 0 ==> |w.sleeps| == MaxSheetAttempts)
  {
  }

  // ---------------------------------------------------------------------------
  // Price collection loops
  // ---------------------------------------------------------------------------

  /** The loop over one column's offers; `raised` when an amount cannot be read. */
  method CollectColumnPrices(column: SeatColumn) returns (prices: seq<real>, raised: bool)
    ensures Collect(column.seatOffer) == if raised then None else Some(prices)
  {
    var offers := column.seatOffer;
    prices := [];
    for k := 0 to |offers|
      invariant Collect(offers[..k]) == Some(prices)
    {
      assert offers[..k + 1][..k] == offers[..k];
      match offers[k].amount
      case None =>
        OffersUnreadable(offers, k + 1);
        return prices, true;
      case Some(amount) =>
        if amount > 0.0 {
          prices := prices + [amount];
        }
    }
    assert offers[..|offers|] == offers;
    raised := false;
  }

  /** The loop over one row's columns. */
  method CollectRowPrices(row: SeatRow) returns (prices: seq<real>, raised: bool)
    ensures Collect(ColumnsOffers(row.seatColumns)) == if raised then None else Some(prices)
  {
    var columns := row.seatColumns;
    prices := [];
    for j := 0 to |columns|
      invariant Collect(ColumnsOffers(columns[..j])) == Some(prices)
    {
      var more;
      more, raised := CollectColumnPrices(columns[j]);
      ColumnsStep(columns, j);
      if raised {
        ColumnsUnreadable(columns, j + 1);
        return;
      }
      prices := prices + more;
    }
    assert columns[..|columns|] == columns;
    raised := false;
  }

  /** The loops over a cabin's rows; a COACH cabin is not walked. */
  method CollectCabinPrices(cabin: SeatCabin) returns (prices: seq<real>, raised: bool)
    ensures CabinPrices(cabin) == if raised then None else Some(prices)
  {
    prices := [];
    if cabin.cabinType == Coach {
      return prices, false;
    }
    var rows := cabin.seatRows;
    for i := 0 to |rows|
      invariant Collect(RowsOffers(rows[..i])) == Some(prices)
    {
      var more;
      more, raised := CollectRowPrices(rows[i]);
      RowsStep(rows, i);
      if raised {
        RowsUnreadable(rows, i + 1);
        return;
      }
      prices := prices + more;
    }
    assert rows[..|rows|] == rows;
    raised := false;
  }

  /** An offer that cannot be read makes the whole column's collection fail. */
  lemma OffersUnreadable(offers: seq<SeatOffer>, n: nat)
    requires n <= |offers| && Collect(offers[..n]).None?
    ensures Collect(offers).None?
  {
    CollectAppend(offers[..n], offers[n..]);
    assert offers[..n] + offers[n..] == offers;
  }

  lemma ColumnsStep(columns: seq<SeatColumn>, j: nat)
    requires j < |columns|
    ensures Collect(ColumnsOffers(columns[..j + 1])) == Join(Collect(ColumnsOffers(columns[..j])), Collect(columns[j].seatOffer))
  {
    assert columns[..j + 1][..j] == columns[..j];
    CollectAppend(ColumnsOffers(columns[..j]), columns[j].seatOffer);
  }

  lemma ColumnsUnreadable(columns: seq<SeatColumn>, n: nat)
    requires n <= |columns| && Collect(ColumnsOffers(columns[..n])).None?
    ensures Collect(ColumnsOffers(columns)).None?
  {
    ColumnsOffersAppend(columns[..n], columns[n..]);
    CollectAppend(ColumnsOffers(columns[..n]), ColumnsOffers(columns[n..]));
    assert columns[..n] + columns[n..] == columns;
  }

  lemma RowsStep(rows: seq<SeatRow>, i: nat)
    requires i < |rows|
    ensures Collect(RowsOffers(rows[..i + 1])) == Join(Collect(RowsOffers(rows[..i])), Collect(ColumnsOffers(rows[i].seatColumns)))
  {
    assert rows[..i + 1][..i] == rows[..i];
    CollectAppend(RowsOffers(rows[..i]), ColumnsOffers(rows[i].seatColumns));
  }

  lemma RowsUnreadable(rows: seq<SeatRow>, n: nat)
    requires n <= |rows| && Collect(RowsOffers(rows[..n])).None?
    ensures Collect(RowsOffers(rows)).None?
  {
    RowsOffersAppend(rows[..n], rows[n..]);
    CollectAppend(RowsOffers(rows[..n]), RowsOffers(rows[n..]));
    assert rows[..n] + rows[n..] == rows;
  }

  /** One more cabin. */
  lemma ScanCabinsStep(trip: Trip, cabins: seq<SeatCabin>, i: nat, timestamp: string)
    requires i < |cabins|
    ensures ScanCabins(trip, cabins[..i + 1], timestamp) == NextCabin(trip, ScanCabins(trip, cabins[..i], timestamp), cabins[i], timestamp)
  {
    assert cabins[..i + 1][..i] == cabins[..i];
  }

  /** Once an exception ended the run, later cabins change nothing. */
  lemma CabinsRaised(trip: Trip, cabins: seq<SeatCabin>, n: nat, timestamp: string)
    requires n <= |cabins| && ScanCabins(trip, cabins[..n], timestamp).raised
    ensures ScanCabins(trip, cabins, timestamp) == ScanCabins(trip, cabins[..n], timestamp)
  {
    ScanCabinsAppend(trip, cabins[..n], cabins[n..], timestamp);
    assert cabins[..n] + cabins[n..] == cabins;
  }

  // ---------------------------------------------------------------------------
  // The monitor
  // ---------------------------------------------------------------------------

  class SeatMonitor {
    /** Alerts published to the topic, oldest first. */
    var published: seq<Alert>
    /** Appends that reached the spreadsheet, oldest first. */
    var appended: seq<SheetAppend>
    /** Backoff sleeps, in seconds, oldest first. */
    var sleeps: seq<nat>

    constructor ()
      ensures published == [] && appended == [] && sleeps == []
    {
      published, appended, sleeps := [], [], [];
    }

    /** `gsheet_write(values, service, gsheet_config)` */
    method GsheetWrite(values: seq<SheetRow>, calls: seq<SheetCall>)
      requires |calls| >= MaxSheetAttempts
      modifies this
      ensures appended == old(appended) + SheetWrite(values, calls).appends
      ensures sleeps == old(sleeps) + SheetWrite(values, calls).sleeps
      ensures published == old(published)
    {
      for i := 1 to MaxSheetAttempts + 1
        invariant FirstSuccess(calls, 0) == FirstSuccess(calls, i - 1)
        invariant appended == old(appended)
        invariant sleeps == old(sleeps) + Backoffs(i - 1)
        invariant published == old(published)
      {
        match calls[i - 1]
        case Succeeded(existing) =>
          appended := appended + [SheetAppend(existing + 1, values)];
          return;
        case _ =>
          sleeps := sleeps + [BackoffUnit * i];
      }
    }

    /** `check_seats(trip, gsheets_service, gsheet_config)` */
    method CheckSeats(trip: Trip, response: SeatMapResponse, timestamp: string, calls: seq<SheetCall>)
      requires |calls| >= MaxSheetAttempts
      modifies this
      ensures published == old(published) + Check(trip, response, timestamp).alerts
      ensures Check(trip, response, timestamp).sheetValues.None? ==>
        appended == old(appended) && sleeps == old(sleeps)
      ensures Check(trip, response, timestamp).sheetValues.Some? ==>
        var w := SheetWrite(Check(trip, response, timestamp).sheetValues.value, calls);
        appended == old(appended) + w.appends && sleeps == old(sleeps) + w.sleeps
    {
      if response.statusCode != 200 {
        return;
      }
      if response.seatCabins.None? {
        return;
      }
      var values, raised := ScanSeatMap(trip, response.seatCabins.value, timestamp);
      if !raised && |values| > 0 {
        GsheetWrite(values, calls);
      }
    }

    /**
     The loop of `check_seats` over the cabins: builds the rows and publishes the
     alerts; `raised` when an amount could not be read, after which nothing is
     written.
     */
    method ScanSeatMap(trip: Trip, cabins: seq<SeatCabin>, timestamp: string)
      returns (values: seq<SheetRow>, raised: bool)
      modifies this
      ensures published == old(published) + ScanCabins(trip, cabins, timestamp).alerts
      ensures raised == ScanCabins(trip, cabins, timestamp).raised
      ensures !raised ==> values == ScanCabins(trip, cabins, timestamp).rows
      ensures appended == old(appended) && sleeps == old(sleeps)
    {
      values := [];
      for i := 0 to |cabins|
        invariant !ScanCabins(trip, cabins[..i], timestamp).raised
        invariant values == ScanCabins(trip, cabins[..i], timestamp).rows
        invariant published == old(published) + ScanCabins(trip, cabins[..i], timestamp).alerts
        invariant appended == old(appended) && sleeps == old(sleeps)
      {
        var cabinType := cabins[i].cabinType;
        var prices;
        prices, raised := CollectCabinPrices(cabins[i]);
        ghost var prev := ScanCabins(trip, cabins[..i], timestamp);
        ScanCabinsStep(trip, cabins, i, timestamp);
        if raised {
          CabinsRaised(trip, cabins, i + 1, timestamp);
          return;
        }
        ghost var next := ScanCabins(trip, cabins[..i + 1], timestamp);
        if |prices| == 0 {
          assert next == prev;
        } else {
          var row := CabinRow(trip, cabinType, prices, timestamp);
          assert next == CabinsScan(prev.rows + [row], prev.alerts + RowAlerts(trip, row), false);
          var minPrice := row.minPrice;
          values := values + [row];
          if cabinType in trip.alerts && minPrice as real <= trip.alerts[cabinType] {
            var subject := Subject(cabinType, minPrice, trip.name);
            published := published + [Alert(subject, AlertMessage)];
          }
          assert published == old(published) + prev.alerts + RowAlerts(trip, row);
          AppendAssoc(old(published), prev.alerts, RowAlerts(trip, row));
        }
      }
      assert cabins[..|cabins|] == cabins;
      raised := false;
    }
  }
}
