# delta-upgrade-bot, modelled in Dafny

This project models two parts of the delta-upgrade-bot repository:

- **The seat-price monitor** (`lambda/handler.py`). `check_seats` fetches the seat
  map of one trip. It walks every cabin except COACH, collects the strictly
  positive seat prices, and computes one sheet row per priced cabin: the
  timestamp, the cabin, the truncated minimum, maximum and mean, the trip name
  and a label. When a cabin's minimum is at or below the trip's threshold for
  that cabin, it publishes a "Buy it!" alert. Finally it hands the rows to
  `gsheet_write`, which tries up to three times to append them below the
  existing rows and sleeps 30·i seconds after failed attempt i.
- **The bulk fare sweep** (`tools/rebook_scrapper.py`).
  - `extract_prices` turns one day's offer-search response into price samples.
    Each sample holds the date, the fare class (after `SEAT_TYPES`
    normalisation), the price and the number of stops.
  - `get_day` retries a day up to five times. Only timeouts are retried.
  - `get_prices` deduplicates and sorts everything collected.
  - `get_min` reports, for each fare class and stop count, the minimum price and
    every date it was seen.

Modules:

- `Wrappers`: the `Option` type and one associativity fact about sequences.
- `Ordering`: lexicographic string order, and "deduplicate then sort" as a
  function. The function is proved sorted, a permutation up to duplicates,
  idempotent and independent of the input order.
- `Decimal`: rendering an integer in decimal, as an f-string does, and reading it
  back.
- `FareClasses`: the `SEAT_TYPES` table and the removal of `&#174;` from brand
  names.
- `PriceTable`: the price sample, the table written to `prices.csv`, and the
  `get_min` report.
- `OfferExtraction`: `extract_prices`, `get_day` and `get_prices`. They are
  specification functions plus the class `Scraper`, whose field `prices` is the
  module-global `PRICES` list. Its methods carry the source's nested loops, each
  proved against the specification functions.
- `SeatPricing`: the seat-map data and what `check_seats` computes from it: the
  prices per cabin, the rows, the alerts and whether the sheet writer is called.
- `SeatMonitor`: the class `SeatMonitor`. Its fields record the alerts published,
  the sheet appends and the backoff sleeps. Its methods `CheckSeats` and
  `GsheetWrite` carry the loops of the source, each proved against the
  specification in `SeatPricing` and `SheetWrite`.

How the model treats the source:

- **External answers.** Every call whose answer comes from outside is a
  parameter:
  - the HTTP responses of the sweep are one `Fetch` per attempt;
  - the spreadsheet's answers are one `SheetCall` per attempt;
  - the seat-map response is a parameter;
  - the run's timestamp is a string parameter.
- **Exceptions.** Most exceptions that escape a loop are modelled as a `raised`
  flag.
  - In `check_seats`, an amount that cannot be read ends the check. The alerts
    already published stay, and nothing is written.
  - In the sweep, any exception other than a timeout ends `get_prices`, and no
    table is written.
  - The exception is the missing-key paths listed under "## Left out".
- **The item rebinding quirk.** At `tools/rebook_scrapper.py:38`, `item` is
  rebound to the retail item inside the loop over its pricing entries. The model
  keeps that behaviour:
  - the first quoted price of an offer item is recorded from its first retail
    item;
  - an offer item that quotes a price but has no retail item raises;
  - a second quoted price in the same offer item raises, because a retail item
    has no `retailItems`.

## Model

| member | source | states |
|---|---|---|
| Ordering.StrLessIsStrictTotalOrder | tools/rebook_scrapper.py:119 | The order used to sort the string columns (date, type) is irreflexive, transitive and total. |
| Ordering.SortUnique | tools/rebook_scrapper.py:119 | `unique()` followed by `sort(...)` under a given strict order. A helper with no contract of its own: SortUniqueCorrect, SortUniqueOnlyElements, SortUniqueOfSorted and SortUniqueIdempotent state its properties. |
| Ordering.SortUniqueCorrect | tools/rebook_scrapper.py:119 | `unique()` followed by `sort(...)` yields a strictly increasing sequence with exactly the elements of the input. |
| Ordering.SortUniqueOnlyElements | tools/rebook_scrapper.py:119 | The deduplicated, sorted result depends only on the set of input elements, not on their order or repeats. |
| Ordering.SortUniqueOfSorted | tools/rebook_scrapper.py:119 | A strictly increasing input comes back unchanged. |
| Ordering.SortUniqueIdempotent | tools/rebook_scrapper.py:119 | Deduplicating and sorting twice gives the same as once. |
| Decimal.NatToString | lambda/handler.py:127 | The rendering of a price is a non-empty run of decimal digits with no leading zero: a leading "0" occurs only as the whole text "0", for 0. |
| Decimal.ParseNatToString | lambda/handler.py:127 | Reading the rendered digits back gives the number. |
| Decimal.NatToStringInjective | lambda/handler.py:127 | Distinct prices render differently. |
| Decimal.IntToString | lambda/handler.py:127 | The `{min_price}` rendering of any integer, with a leading "-" when negative. A helper with no contract of its own: ParseIntToString states its property. |
| Decimal.ParseIntToString | lambda/handler.py:127 | The rendering of every integer, negative ones included, is an integer text, and reading it back gives the integer. |
| FareClasses.TableMapsToCanonical | tools/rebook_scrapper.py:10-24 | Every label in `SEAT_TYPES` maps to one of Main, Comfort+, Premium Select, Delta One. |
| FareClasses.Classify | tools/rebook_scrapper.py:45 | `SEAT_TYPES.get(label, f"{label} (NOT_FOUND)")`. A helper with no contract of its own: its properties are stated by TableMapsToCanonical, ClassifyCanonicalIff, UnknownLabelsKeptApart, ClassifyFixesCanonical and ClassifyIdempotentOnTable. |
| FareClasses.BrandClass | tools/rebook_scrapper.py:39-45 | Removing "&#174;", then classifying. A helper with no contract of its own: BrandClassIgnoresMark states its property. |
| FareClasses.ClassifyCanonicalIff | tools/rebook_scrapper.py:45 | The fare type is canonical exactly when the label is in the table. Otherwise it is the label followed by exactly " (NOT_FOUND)". |
| FareClasses.UnknownLabelsKeptApart | tools/rebook_scrapper.py:45 | Two unknown labels get the same fare type only if they are the same label. |
| FareClasses.ClassifyFixesCanonical | tools/rebook_scrapper.py:10-24 | Each canonical class is itself a label of the table and maps to itself. |
| FareClasses.ClassifyIdempotentOnTable | tools/rebook_scrapper.py:45 | Classifying a known label's class again changes nothing. |
| FareClasses.RemoveMark | tools/rebook_scrapper.py:41 | Removing "&#174;" never makes a brand name longer. |
| FareClasses.RemoveMarkKeepsPlainPrefix | tools/rebook_scrapper.py:41 | A prefix without '&' is kept verbatim by the removal. |
| FareClasses.RemoveMarkBetween | tools/rebook_scrapper.py:39-41 | A name with one "&#174;" between two '&'-free parts loses exactly that mark. |
| FareClasses.RemoveMarkSkipsMark | tools/rebook_scrapper.py:39-41 | An '&'-free prefix is kept, the "&#174;" after it is dropped, and the removal goes on with the rest, so every mark of a name is removed. |
| FareClasses.BrandClassIgnoresMark | tools/rebook_scrapper.py:39-45 | "X&#174;" gets the same fare type as "X", which is the table's class for X. |
| PriceTable.TabulateCorrect | tools/rebook_scrapper.py:119 | The written table is sorted by (date, type, price, stop), has no row twice and holds exactly the recorded samples. |
| PriceTable.SampleLess | tools/rebook_scrapper.py:119 | The order of `sort("date", "type", "price", "stop")`: by date, then type, then price, then stop. A helper with no contract of its own: SampleLessIsStrictTotalOrder states its property. |
| PriceTable.SampleLessIsStrictTotalOrder | tools/rebook_scrapper.py:119 | The table order is irreflexive, transitive and total on price samples, so the sorted table is unique. |
| PriceTable.Tabulate | tools/rebook_scrapper.py:119 | `df.unique().sort("date", "type", "price", "stop")`. A helper with no contract of its own: TabulateCorrect, TabulateIdempotent, TabulateOrderFree and TabulateSwap state its properties. |
| PriceTable.TabulateIdempotent | tools/rebook_scrapper.py:119 | Re-tabulating the table leaves it unchanged. |
| PriceTable.TabulateOrderFree | tools/rebook_scrapper.py:115-119 | The table depends only on which samples were recorded, not on the order the concurrent days appended them in. |
| PriceTable.TabulateSwap | tools/rebook_scrapper.py:115-119 | Two days' samples may be appended in either order. |
| PriceTable.GroupMin | tools/rebook_scrapper.py:134 | A (type, stop) group's minimum is absent exactly when the group is empty. Otherwise it is attained by a sample of the group and is at most every price of the group. |
| PriceTable.Joined | tools/rebook_scrapper.py:135 | The inner join of the group minima with the table on (type, stop, price). A helper with no contract of its own: JoinedMembers states its property. |
| PriceTable.JoinedMembers | tools/rebook_scrapper.py:135 | The join keeps exactly the samples whose price equals their group's minimum. |
| PriceTable.KeysOf | tools/rebook_scrapper.py:140 | The (type, price, stop) keys of the joined rows are exactly the keys of some joined row. |
| PriceTable.DatesOf | tools/rebook_scrapper.py:141 | A key's collected dates are exactly the dates of the joined rows with that key. |
| PriceTable.KeyLess | tools/rebook_scrapper.py:142 | The order of `sort("type", "price", "stop")` on the report lines. A helper with no contract of its own: KeyLessIsStrictTotalOrder states its property. |
| PriceTable.KeyLessIsStrictTotalOrder | tools/rebook_scrapper.py:142 | The report order is irreflexive, transitive and total on (type, price, stop) keys. |
| PriceTable.MinReport | tools/rebook_scrapper.py:132-143 | `get_min`. A helper with no contract of its own: MinReportPricesAreMinima, MinReportLineDates, MinReportDates, MinReportComplete, MinReportOrdered, ExampleReport and MinReportExample state its properties. |
| PriceTable.MinReportPricesAreMinima | tools/rebook_scrapper.py:134-142 | Each report line's price is the minimum of its (type, stop) group. |
| PriceTable.MinReportLineDates | tools/rebook_scrapper.py:138-141 | A line's dates are strictly increasing and are exactly the dates on which its group minimum occurred. |
| PriceTable.MinReportDates | tools/rebook_scrapper.py:138-141 | The same, for every line of the report. |
| PriceTable.MinReportComplete | tools/rebook_scrapper.py:134-142 | Every (type, stop) group of the table has a line in the report. |
| PriceTable.MinReportOrdered | tools/rebook_scrapper.py:140-142 | Lines are sorted by (type, price, stop), and each (type, stop) group has at most one line. |
| PriceTable.ExampleReport | tools/rebook_scrapper.py:132-143 | Two days at 100 and one at 150 in the same group give one line: price 100, with both cheap days in date order. |
| PriceTable.MinReportExample | tools/rebook_scrapper.py:132-143 | That example with the dates 2024-12-01..03. |
| OfferExtraction.ScanPricingsCount | tools/rebook_scrapper.py:34-41 | Within one offer item, how many quoted prices it has decides the outcome. None: nothing is recorded. One: one sample is recorded, or the item raises when it has no retail item. Two or more: it raises; the sample of the first quoted price is already recorded when there is a retail item. |
| OfferExtraction.ScanPricingsSample | tools/rebook_scrapper.py:34-48 | Each sample recorded from an item comes from its first retail item and from a quoted price of one of its pricing entries. |
| OfferExtraction.ScanPricings | tools/rebook_scrapper.py:34-49 | The loop over one offer item's pricing entries, with `item` rebound after the first quoted price. A helper with no contract of its own: ScanPricingsCount and ScanPricingsSample state its properties. |
| OfferExtraction.QuotedPrice | tools/rebook_scrapper.py:35-37 | The price a pricing entry quotes: present only when it has `repriceQuoteAmt` and then `currencyEquivalentPrice`. A helper with no contract of its own: ScanPricingsCount, ScanPricingsSample and ExtractSamples state what a quoted price leads to. |
| OfferExtraction.SampleOf | tools/rebook_scrapper.py:42-48 | The record appended for a quoted price. A helper with no contract of its own: ScanPricingsSample and ExtractSamples state its fields (the day, the brand class, the price, the number of segments minus one). |
| OfferExtraction.ScanItems | tools/rebook_scrapper.py:31-49 | The traversal of the offer items in order, stopping at the first exception. A helper with no contract of its own: ScanItemsRaisedSticks, ScanItemsAppend, ScanItemsDates, ScanItemsSamples and ScanItemsNoRaise state its properties. |
| OfferExtraction.Extract | tools/rebook_scrapper.py:30-49 | `extract_prices`. A helper with no contract of its own: ExtractSamples states its property, and Scraper.ExtractPrices is proved equal to it. |
| OfferExtraction.ScanItemsSamples | tools/rebook_scrapper.py:31-49 | Every sample recorded over a run of offer items comes from one of those items: an item with a retail item whose pricing quotes the sample's price, with the fare type and stops read from its first retail item, on the day. |
| OfferExtraction.ExtractSamples | tools/rebook_scrapper.py:30-49 | Every sample of `extract_prices` comes from an offer item of the response that has a retail item. One of its pricing entries quotes the sample's price. The fare type is the class of the first retail item's brand, stop is its number of segments minus one, and date is the day. |
| OfferExtraction.ScanItemsRaisedSticks | tools/rebook_scrapper.py:30-49 | Once the extraction raised, later offer items add nothing. |
| OfferExtraction.ScanItemsAppend | tools/rebook_scrapper.py:30-34 | Extracting from two runs of offer items is extracting from the first, then (unless it raised) from the second. |
| OfferExtraction.ScanItemsDates | tools/rebook_scrapper.py:44 | Every sample carries the day's date. |
| OfferExtraction.ScanItemsNoRaise | tools/rebook_scrapper.py:30-49 | Items that quote at most one price each, with a retail item whenever they quote one, never raise, and record one sample per quoted price. Items that quote nothing need no retail item. |
| OfferExtraction.ScanItemsRaisedIff | tools/rebook_scrapper.py:34-40 | The extraction raises exactly when some offer item quotes two prices (the rebound `item` has no "retailItems"), or quotes one price and has no retail item. |
| OfferExtraction.FirstAnswer | tools/rebook_scrapper.py:95-107 | The attempt that ends the retry loop is the first of the five that did not time out, if any. |
| OfferExtraction.Day | tools/rebook_scrapper.py:95-107 | `get_day`. A helper with no contract of its own: DayRetries and DayDecidedByFirstAnswer state its properties, and Scraper.GetDay is proved equal to it. |
| OfferExtraction.Sweep | tools/rebook_scrapper.py:115-117 | All days' tasks in day order, stopping at the first escaping exception. A helper with no contract of its own: SweepAppend, ExhaustedDayIsNeutral, ExhaustedSweepIsEmpty and SweepOrderFree state its properties. |
| OfferExtraction.DayRetries | tools/rebook_scrapper.py:95-107 | A day ends after at most five attempts. A `Fetched` day was ended by a response after only timeouts, and records that response's extraction. The day is exhausted exactly when all five attempts time out, and then records nothing. |
| OfferExtraction.DayDecidedByFirstAnswer | tools/rebook_scrapper.py:95-107 | When attempts before k all timed out, attempt k decides the day. A non-timeout exception aborts it with nothing recorded. A response records exactly its extraction, and the day ends as `Fetched(k + 1)` exactly when the extraction did not raise, and aborts otherwise. |
| OfferExtraction.SweepAppend | tools/rebook_scrapper.py:115-117 | Sweeping two groups of days is sweeping the first, then (unless it raised) the second. |
| OfferExtraction.ExhaustedDayIsNeutral | tools/rebook_scrapper.py:95-107 | A day whose five attempts all timed out changes nothing in the sweep. |
| OfferExtraction.ExhaustedSweepIsEmpty | tools/rebook_scrapper.py:95-117 | When every day times out five times, the sweep records nothing and raises nothing. GetPrices then writes no table when `PRICES` was empty. |
| OfferExtraction.SweepOrderFree | tools/rebook_scrapper.py:115-119 | Without exceptions, the table does not depend on which of two groups of days finished first. |
| OfferExtraction.Scraper.constructor | tools/rebook_scrapper.py:25 | `PRICES` starts empty. |
| OfferExtraction.Scraper.ExtractPrices | tools/rebook_scrapper.py:30-49 | The four nested loops append to `PRICES` exactly the samples of `Extract`, and end by an exception exactly when `Extract` raises. |
| OfferExtraction.Scraper.ExtractFromSet | tools/rebook_scrapper.py:32-49 | The loop over one offers set's offers appends the extraction of its offer items. |
| OfferExtraction.Scraper.ExtractFromOffer | tools/rebook_scrapper.py:33-49 | The loop over one offer's items appends their extraction. |
| OfferExtraction.Scraper.ExtractFromItem | tools/rebook_scrapper.py:34-49 | The loop over an item's pricing entries, with `item` rebound after the first quoted price, appends the item's extraction. |
| OfferExtraction.Scraper.GetDay | tools/rebook_scrapper.py:95-107 | The retry loop appends exactly the samples of `Day` and ends as `Day` says. |
| OfferExtraction.Scraper.GatherDays | tools/rebook_scrapper.py:115-117 | Running every day's task appends the sweep's samples and stops at the first escaping exception. |
| OfferExtraction.Scraper.GetPrices | tools/rebook_scrapper.py:110-120 | `PRICES` grows by the sweep's samples. The table is the deduplicated, sorted `PRICES`. There is no table when an exception escaped a day, or when `PRICES` is empty: a data frame without columns cannot be sorted by "date". |
| SeatPricing.Collect | lambda/handler.py:104-107 | Every collected price is strictly positive. |
| SeatPricing.CabinPrices | lambda/handler.py:99-107 | A cabin's collected prices are all strictly positive. |
| SeatPricing.CollectPositive | lambda/handler.py:104-107 | Collection succeeds exactly when every amount can be read. A value is then in the collected list exactly when some offer carries it and it is strictly positive. |
| SeatPricing.CollectAppend | lambda/handler.py:102-107 | Collecting over consecutive runs of offers is collecting over each, in order. |
| SeatPricing.CollectSingle | lambda/handler.py:104-107 | One offer: an unreadable amount fails, a positive amount is appended once, any other amount is skipped. With CollectAppend this fixes the collected list, order and repeats included. |
| SeatPricing.CollectCounts | lambda/handler.py:104-107 | A successful collection holds each strictly positive amount exactly as many times as the offers carry it, and no other value, so the mean at line 116 is over every positive offer. |
| SeatPricing.CoachCollectsNothing | lambda/handler.py:101 | A COACH cabin collects no price, whatever its offers. |
| SeatPricing.Trunc | lambda/handler.py:109-116 | `int(x)` truncates toward zero: for x >= 0 it is the largest integer at most x; for x < 0 the smallest at least x. |
| SeatPricing.MinOf | lambda/handler.py:109 | `min(prices)` is one of the prices and at most each of them. |
| SeatPricing.MaxOf | lambda/handler.py:115 | `max(prices)` is one of the prices and at least each of them. |
| SeatPricing.MeanBetween | lambda/handler.py:116 | The mean of the prices lies between their minimum and maximum. |
| SeatPricing.Mean | lambda/handler.py:116 | `sum(prices) / len(prices)`, exact. A helper with no contract of its own: MeanBetween states its property, and CabinRowCells that the row holds its truncation. |
| SeatPricing.TruncMonotone | lambda/handler.py:109-116 | Truncation preserves the order of non-negative amounts. |
| SeatPricing.CabinRow | lambda/handler.py:108-120 | A row's cells satisfy 0 <= min <= avg <= max. |
| SeatPricing.CabinRowCells | lambda/handler.py:110-120 | The seven cells are the timestamp, the cabin, the truncated minimum (attained by some price and at most every truncated price), the truncated maximum (attained by some price and at least every truncated price), the truncated mean, the trip name and "<name> - <cabin>". |
| SeatPricing.NextCabin | lambda/handler.py:99-133 | One iteration of the cabin loop. A helper with no contract of its own: ScanCabinsAppend, UnpricedCabinIsSkipped, ScanCabinsAlerts, ScanCabinsRowsSound and ScanCabinsRowsComplete state its properties. |
| SeatPricing.ScanCabins | lambda/handler.py:98-133 | The cabin loop of `check_seats`. A helper with no contract of its own: ScanCabinsAppend, UnpricedCabinIsSkipped, ScanCabinsAlerts, ScanCabinsRowsSound and ScanCabinsRowsComplete state its properties, and SeatMonitor.ScanSeatMap is proved equal to it. |
| SeatPricing.ScanCabinsAppend | lambda/handler.py:98 | Walking two runs of cabins is walking the first, then (unless it raised) the second. |
| SeatPricing.UnpricedCabinIsSkipped | lambda/handler.py:101-108 | A cabin that collects no price adds no row and no alert, and the later cabins are processed as if it were absent. |
| SeatPricing.ScanCabinsAlerts | lambda/handler.py:98-133 | There are at most as many rows as cabins. Unless an exception ended the walk, there are exactly as many rows as priced cabins. The alerts are exactly those of the rows, in row order. |
| SeatPricing.ScanCabinsRowsSound | lambda/handler.py:98-120 | Every row is the row of some priced cabin. |
| SeatPricing.ScanCabinsRowsComplete | lambda/handler.py:98-120 | Unless an exception ended the walk, every priced cabin has its row. |
| SeatPricing.AlertsOfSound | lambda/handler.py:123-133 | Every alert belongs to a row whose cabin has a threshold at or above the row's minimum. It says "Buy it!", and there are at most as many alerts as rows. |
| SeatPricing.AlertsOfComplete | lambda/handler.py:123-133 | Every row whose cabin has a threshold at or above its minimum raises its alert. There are exactly as many alerts as such rows. |
| SeatPricing.ShouldAlert | lambda/handler.py:123-126 | The cabin is a key of the trip's alerts and the minimum is at most its threshold. A helper with no contract of its own: AlertsOfSound and AlertsOfComplete state the alerts it decides. |
| SeatPricing.RowAlerts | lambda/handler.py:123-133 | The alert published for one row, if it should alert. A helper with no contract of its own: AlertsOfSound and AlertsOfComplete state its properties. |
| SeatPricing.AlertsOf | lambda/handler.py:123-133 | The alerts of the rows, in row order. A helper with no contract of its own: AlertsOfSound and AlertsOfComplete state which alerts it holds and how many, and ScanCabinsAlerts, with ScanCabinsAppend, states their order along the cabin walk. |
| SeatPricing.SubjectNamesPrice | lambda/handler.py:127 | For the same cabin and trip, the alert subject determines the minimum price. |
| SeatPricing.Subject | lambda/handler.py:127 | The alert subject f-string. A helper with no contract of its own: SubjectNamesPrice states its property. |
| SeatPricing.Check | lambda/handler.py:64-143 | What `check_seats` publishes and hands to the sheet writer. A helper with no contract of its own: CheckSinks states what it publishes and what it hands over, and SeatMonitor.CheckSeats is proved equal to it. |
| SeatPricing.CheckSinks | lambda/handler.py:92-141 | A status other than 200, or a missing seat map, publishes nothing and writes nothing. Otherwise the published alerts are exactly those of the cabin walk. The sheet writer is called exactly when no exception ended the walk and some cabin had prices, and it is handed exactly the walk's rows. |
| SeatMonitor.FirstSuccess | lambda/handler.py:39-58 | The attempt that writes is the first of the three that succeeded, if any. |
| SeatMonitor.Backoffs | lambda/handler.py:59-61 | After failed attempt i the writer sleeps 30·i seconds. |
| SeatMonitor.SheetWrite | lambda/handler.py:38-61 | `gsheet_write`'s appends and sleeps. A helper with no contract of its own: SheetWriteRetries states its properties, and SeatMonitor.GsheetWrite is proved equal to it. |
| SeatMonitor.SheetWriteRetries | lambda/handler.py:38-61 | At most three attempts and at most one append. The append happens exactly when some attempt succeeds, is made by the first success, and starts at row existing+1. The sleeps are 30, 60, 90 s in turn, and all three are taken when no attempt succeeds. |
| SeatMonitor.CollectColumnPrices | lambda/handler.py:104-107 | The loop over a column's offers computes `Collect`, or raises exactly when `Collect` fails. |
| SeatMonitor.CollectRowPrices | lambda/handler.py:103-107 | The loop over a row's columns computes the collection of their offers. |
| SeatMonitor.CollectCabinPrices | lambda/handler.py:99-107 | The loops over a cabin compute `CabinPrices`, skipping COACH. |
| SeatMonitor.OffersUnreadable | lambda/handler.py:105 | One unreadable amount makes the whole column's collection fail. |
| SeatMonitor.SeatMonitor.constructor | lambda/handler.py:20 | Nothing is published, appended or slept at the start. |
| SeatMonitor.SeatMonitor.GsheetWrite | lambda/handler.py:38-61 | The retry loop makes exactly the appends and sleeps of `SheetWrite` and publishes nothing. |
| SeatMonitor.SeatMonitor.ScanSeatMap | lambda/handler.py:98-133 | The cabin loop publishes exactly the walk's alerts, returns its rows and flags an exception exactly when the walk raised. It writes nothing. |
| SeatMonitor.SeatMonitor.CheckSeats | lambda/handler.py:64-143 | Publishes exactly `Check`'s alerts. It writes nothing unless `Check` hands rows to the writer, and then exactly what `SheetWrite` does with them. |

## Left out

- HTTP requests, headers, `UserAgent`, the 15-second socket timeout, SNS/S3 clients and Google credentials: I/O. Their answers are parameters (`SeatMapResponse`, `Fetch`, `SheetCall`).
- `main` in `lambda/handler.py` (reading the configuration from S3 and looping over the trips) and `gsheet_service`: configuration plumbing with no logic beyond one `check_seats` call per trip.
- `save_prices`, `pl.date_range` and the `__main__` block: the list of days is a parameter (`DayRequest`s, each with its ISO date string).
- CSV writing and reading (`prices.csv`) and the printing of the report: `get_min` is modelled on the table `get_prices` produces (`MinReport` of `Tabulate`).
- Logging is left out everywhere.
- The run timestamp (`datetime.now` in US/Eastern): a string parameter.
- asyncio concurrency with a connection limit of 7: the days run one after the other. `TabulateOrderFree` and `SweepOrderFree` show that the table does not depend on the order.
- Offer amounts and thresholds are exact reals, not IEEE floats. `sum(prices) / len(prices)` is exact division, so rounding of the float mean near an integer boundary is not modelled.
- Missing keys other than the seat map and the amounts are assumed present. The shapes of the datatypes make them present. The keys are:
  - in `lambda/handler.py`: `cabinType`, `seatRows`, `seatColumns`, `seatOffer`, and the trip's `name` and `alerts`;
  - in `tools/rebook_scrapper.py`: `offersSets`, `offers`, `offerItems`, `offerItemPricing`, `additionalCollectionAmt`, `roundedNumericPart`, `retailItemMetaData`, `fareInformation`, `brandByFlightLegs`, `brandName` and `flightSegmentIds`.
- An empty `fareInformation` or `brandByFlightLegs` list is not modelled. The `[0]` at `tools/rebook_scrapper.py:39-40` would raise IndexError there, but a `RetailItem` always holds one brand name.
- An exception from `sns_client.publish` (it would end the check like an unreadable amount) is not modelled.
- A threshold that is not a number, or an amount that parses to NaN or infinity, is not modelled.
- SeatMonitor.SeatMonitor.GsheetWrite: a spreadsheet that accepted an append but whose reply raised is modelled as a failed attempt with no append.
- SeatMonitor.SeatMonitor.CheckSeats and OfferExtraction.Scraper.GetDay require at least three and five recorded outcomes, one per possible attempt. The source makes at most that many calls.
- A retail item is assumed to have no `retailItems` key, so the rebound `item` raises on a second quoted price in the same offer item.
- `PRICES` is a module-global list that keeps growing across calls in the source. `Scraper.prices` models it, and `GetPrices` tabulates everything in it, including samples from before the call.
