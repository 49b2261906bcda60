/**
 The bulk price sweep of tools/rebook_scrapper.py: price extraction from one
 day's offer-search response, the per-day retry loop, and the sweep over all
 days that ends in the deduplicated, sorted price table.

 The module-global `PRICES` list is the field `prices` of a `Scraper`. The
 network is replaced by the outcome of each attempt (`Fetch`), and the
 concurrent fan-out over days by a sequential pass in day order; the price
 table does not depend on that order (`PriceTable.TabulateOrderFree`).
 */
module OfferExtraction {
  import opened Wrappers
  import opened FareClasses
  import opened PriceTable

  // ---------------------------------------------------------------------------
  // The part of an offer-search response that the extraction reads
  // ---------------------------------------------------------------------------

  /** `repriceQuoteAmt.additionalCollectionAmt`; `currencyEquivalentPrice.roundedNumericPart` when present. */
  datatype CollectionAmount = CollectionAmount(currencyEquivalentPrice: Option<int>)

  /** One entry of `offerItemPricing`; `repriceQuoteAmt` may be absent. */
  datatype Pricing = Pricing(repriceQuoteAmt: Option<CollectionAmount>)

  /**
   One entry of `retailItems`: the first brand name of its fare information and
   its flight segments.
   */
  datatype RetailItem = RetailItem(brandName: string, flightSegmentIds: seq<string>)

  datatype OfferItem = OfferItem(offerItemPricing: seq<Pricing>, retailItems: seq<RetailItem>)

  datatype Offer = Offer(offerItems: seq<OfferItem>)

  datatype OffersSet = OffersSet(offers: seq<Offer>)

  /**
   What the variable `item` holds inside the pricing loop: the offer item it
   started as, or the retail item it is rebound to once a price is recorded.
   A retail item has no `retailItems` of its own.
   */
  datatype ItemVar = Original(item: OfferItem) | Rebound(retail: RetailItem)

  /** The samples appended to `PRICES`, and whether an exception ended the traversal. */
  datatype Extraction = Extraction(samples: seq<PriceSample>, raised: bool)

  // ---------------------------------------------------------------------------
  // Specification of extract_prices
  // ---------------------------------------------------------------------------

  /** The price of a pricing entry that has `repriceQuoteAmt` and then `currencyEquivalentPrice`. */
  function QuotedPrice(p: Pricing): Option<int>
  {
    if p.repriceQuoteAmt.Some? then p.repriceQuoteAmt.value.currencyEquivalentPrice else None
  }

  /** The record appended for a price quoted on `retail`. */
  function SampleOf(retail: RetailItem, price: int, day: string): PriceSample
  {
    PriceSample(day, BrandClass(retail.brandName), price, |retail.flightSegmentIds| - 1)
  }

  /**
   The first `n` pricing entries of `item`. The first quoted price reads
   `retailItems[0]` (an empty list raises) and rebinds `item`; a second quoted
   price in the same item then looks up `retailItems` on the retail item and raises.
   */
  function ScanPricings(item: OfferItem, n: nat, day: string): Extraction
    requires n <= |item.offerItemPricing|
  {
    if n == 0 then Extraction([], false)
    else
      var prev := ScanPricings(item, n - 1, day);
      var quoted := QuotedPrice(item.offerItemPricing[n - 1]);
      if prev.raised || quoted.None? then prev
      else if prev.samples != [] || item.retailItems == [] then Extraction(prev.samples, true)
      else Extraction([SampleOf(item.retailItems[0], quoted.value, day)], false)
  }

  function ItemExtraction(item: OfferItem, day: string): Extraction
  {
    ScanPricings(item, |item.offerItemPricing|, day)
  }

  /** Continues `e` with `next`, unless `e` already raised. */
  function Then(e: Extraction, next: Extraction): Extraction
  {
    if e.raised then e else Extraction(e.samples + next.samples, next.raised)
  }

  /** The offer items visited by the loops over `offers`, in order. */
  function OfferItemsOf(offers: seq<Offer>): seq<OfferItem>
  {
    if offers == [] then [] else OfferItemsOf(offers[..|offers| - 1]) + offers[|offers| - 1].offerItems
  }

  /** The offer items visited by the loops over `offersSets`, in order. */
  function FlatItems(sets: seq<OffersSet>): seq<OfferItem>
  {
    if sets == [] then [] else FlatItems(sets[..|sets| - 1]) + OfferItemsOf(sets[|sets| - 1].offers)
  }

  /** Extraction over a sequence of offer items, stopping at the first exception. */
  function ScanItems(items: seq<OfferItem>, day: string): Extraction
  {
    if items == [] then Extraction([], false)
    else Then(ScanItems(items[..|items| - 1], day), ItemExtraction(items[|items| - 1], day))
  }

  /** `extract_prices(offers_sets, day)` */
  function Extract(sets: seq<OffersSet>, day: string): Extraction
  {
    ScanItems(FlatItems(sets), day)
  }

  // ---------------------------------------------------------------------------
  // Properties of the extraction
  // ---------------------------------------------------------------------------

  /** The number of pricing entries of `item` that quote a price. */
  function QuotedCount(pricings: seq<Pricing>): nat
  {
    if pricings == [] then 0
    else QuotedCount(pricings[..|pricings| - 1]) + (if QuotedPrice(pricings[|pricings| - 1]).Some? then 1 else 0)
  }

  /**
   Within one offer item: no quoted price records nothing; a single quoted price
   records one sample from the first retail item (or raises if there is none);
   a second quoted price raises, keeping the sample already recorded.
   */
  lemma {:induction false} ScanPricingsCount(item: OfferItem, n: nat, day: string)
    requires n <= |item.offerItemPricing|
    ensures var e := ScanPricings(item, n, day);
      && |e.samples| <= 1
      && (QuotedCount(item.offerItemPricing[..n]) == 0 ==> e == Extraction([], false))
      && (QuotedCount(item.offerItemPricing[..n]) == 1 ==> e.raised == (item.retailItems == []))
      && (QuotedCount(item.offerItemPricing[..n]) >= 2 ==> e.raised)
      && (QuotedCount(item.offerItemPricing[..n]) >= 1 && item.retailItems != [] ==> |e.samples| == 1)
      && (!e.raised ==> |e.samples| == QuotedCount(item.offerItemPricing[..n]))
  {
    if n > 0 {
      ScanPricingsCount(item, n - 1, day);
      assert item.offerItemPricing[..n][..n - 1] == item.offerItemPricing[..n - 1];
    }
  }

  /** Every sample recorded from a quoted item comes from its first retail item and a quoted price. */
  lemma {:induction false} ScanPricingsSample(item: OfferItem, n: nat, day: string)
    requires n <= |item.offerItemPricing|
    ensures forall s :: s in ScanPricings(item, n, day).samples ==>
      item.retailItems != [] &&
      exists i :: 0 <= i < n && QuotedPrice(item.offerItemPricing[i]) == Some(s.price) &&
        s == SampleOf(item.retailItems[0], s.price, day)
  {
    if n > 0 {
      ScanPricingsSample(item, n - 1, day);
    }
  }

  /** Once an exception is raised, later items add nothing. */
  lemma {:induction false} ScanItemsRaisedSticks(items: seq<OfferItem>, more: seq<OfferItem>, day: string)
    requires ScanItems(items, day).raised
    ensures ScanItems(items + more, day) == ScanItems(items, day)
  {
    if more != [] {
      var init := more[..|more| - 1];
      ScanItemsRaisedSticks(items, init, day);
      assert (items + more)[..|items + more| - 1] == items + init;
    } else {
      assert items + more == items;
    }
  }

  /** Extraction over two runs of items that do not raise is the concatenation of the two. */
  lemma {:induction false} ScanItemsAppend(items: seq<OfferItem>, more: seq<OfferItem>, day: string)
    ensures ScanItems(items + more, day) == Then(ScanItems(items, day), ScanItems(more, day))
  {
    if more == [] {
      assert items + more == items;
    } else {
      var init, last := more[..|more| - 1], more[|more| - 1];
      assert ScanItems(items + more, day) == Then(ScanItems(items + init, day), ItemExtraction(last, day)) by {
        assert (items + more)[..|items + more| - 1] == items + init;
      }
      ScanItemsAppend(items, init, day);
      ThenAssoc(ScanItems(items, day), ScanItems(init, day), ItemExtraction(last, day));
    }
  }

  /** Every recorded sample carries the day's ISO date. */
  lemma {:induction false} ScanItemsDates(items: seq<OfferItem>, day: string)
    ensures forall s :: s in ScanItems(items, day).samples ==> s.date == day
  {
    if items != [] {
      var item := items[|items| - 1];
      ScanItemsDates(items[..|items| - 1], day);
      ScanPricingsSample(item, |item.offerItemPricing|, day);
    }
  }

  /**
   `s` is a sample recorded from the offer item `it`: the price is quoted by one
   of its pricing entries, and the fare type and the stops are read from its
   first retail item.
   */
  predicate QuotedSampleOf(it: OfferItem, s: PriceSample, day: string)
  {
    && it.retailItems != []
    && (exists i :: 0 <= i < |it.offerItemPricing| && QuotedPrice(it.offerItemPricing[i]) == Some(s.price))
    && s.fareType == BrandClass(it.retailItems[0].brandName)
    && s.stop == |it.retailItems[0].flightSegmentIds| - 1
    && s.date == day
  }

  /** Every sample recorded over a run of offer items comes from one of them. */
  lemma {:induction false} ScanItemsSamples(items: seq<OfferItem>, day: string)
    ensures forall s :: s in ScanItems(items, day).samples ==> exists it :: it in items && QuotedSampleOf(it, s, day)
  {
    if items != [] {
      var init, item := items[..|items| - 1], items[|items| - 1];
      ScanItemsSamples(init, day);
      ScanPricingsSample(item, |item.offerItemPricing|, day);
      forall s | s in ScanItems(items, day).samples
        ensures exists it :: it in items && QuotedSampleOf(it, s, day)
      {
        if s in ScanItems(init, day).samples {
          var it :| it in init && QuotedSampleOf(it, s, day);
          assert it in items;
        } else {
          assert QuotedSampleOf(item, s, day);
          assert item in items;
        }
      }
    }
  }

  /**
   Every sample `extract_prices` records comes from an offer item of the
   response with a retail item and a quoted price: the sample holds that
   price, the class of the first retail item's brand, its number of segments
   minus one, and the day.
   */
  lemma ExtractSamples(sets: seq<OffersSet>, day: string)
    ensures forall s :: s in Extract(sets, day).samples ==>
      exists it :: it in FlatItems(sets) && QuotedSampleOf(it, s, day)
  {
    ScanItemsSamples(FlatItems(sets), day);
  }

  /**
   Offer items that each quote at most one price, with a retail item whenever
   they quote one, never raise, and record one sample per quoted price.
   */
  lemma {:induction false} ScanItemsNoRaise(items: seq<OfferItem>, day: string)
    requires forall i :: 0 <= i < |items| ==>
      QuotedCount(items[i].offerItemPricing) <= 1
      && (QuotedCount(items[i].offerItemPricing) == 1 ==> items[i].retailItems != [])
    ensures !ScanItems(items, day).raised
    ensures |ScanItems(items, day).samples| == ItemsQuotedCount(items)
  {
    if items != [] {
      var item := items[|items| - 1];
      ScanItemsNoRaise(items[..|items| - 1], day);
      ScanPricingsCount(item, |item.offerItemPricing|, day);
      assert item.offerItemPricing[..|item.offerItemPricing|] == item.offerItemPricing;
    }
  }

  /**
   An offer item on which the pricing loop raises: it quotes two prices (the
   rebound `item` has no "retailItems"), or one price with no retail item.
   */
  predicate ItemRaises(item: OfferItem)
  {
    || QuotedCount(item.offerItemPricing) >= 2
    || (QuotedCount(item.offerItemPricing) == 1 && item.retailItems == [])
  }

  /** The extraction over a run of offer items raises exactly when one of them raises. */
  lemma {:induction false} ScanItemsRaisedIff(items: seq<OfferItem>, day: string)
    ensures ScanItems(items, day).raised <==> exists i :: 0 <= i < |items| && ItemRaises(items[i])
  {
    if items != [] {
      var init, item := items[..|items| - 1], items[|items| - 1];
      ScanItemsRaisedIff(init, day);
      ScanPricingsCount(item, |item.offerItemPricing|, day);
      assert item.offerItemPricing[..|item.offerItemPricing|] == item.offerItemPricing;
      if exists i :: 0 <= i < |init| && ItemRaises(init[i]) {
        var i :| 0 <= i < |init| && ItemRaises(init[i]);
        assert items[i] == init[i];
      }
      if exists i :: 0 <= i < |items| && ItemRaises(items[i]) {
        var i :| 0 <= i < |items| && ItemRaises(items[i]);
        if i < |init| {
          assert init[i] == items[i];
        }
      }
    }
  }

  /** The number of quoted prices over a sequence of offer items. */
  function ItemsQuotedCount(items: seq<OfferItem>): nat
  {
    if items == [] then 0
    else ItemsQuotedCount(items[..|items| - 1]) + QuotedCount(items[|items| - 1].offerItemPricing)
  }

  // ---------------------------------------------------------------------------
  // Specification of get_day and of the sweep
  // ---------------------------------------------------------------------------

  const MaxDayAttempts := 5

  /** The outcome of one attempt: a timeout, another exception, or the decoded `offersSets`. */
  datatype Fetch = TimedOut | Failed | Responded(offersSets: seq<OffersSet>)

  /** How `get_day` ends: after the extraction of attempt `attempt`, after five timeouts, or by an exception. */
  datatype DayOutcome = Fetched(attempt: nat) | Exhausted | Aborted

  datatype DayResult = DayResult(outcome: DayOutcome, samples: seq<PriceSample>)

  /** The first attempt from `k` on that did not time out. */
  function FirstAnswer(fetches: seq<Fetch>, k: nat): (a: Option<nat>)
    requires |fetches| >= MaxDayAttempts
    requires k <= MaxDayAttempts
    ensures a.Some? ==> k <= a.value < MaxDayAttempts && !fetches[a.value].TimedOut?
    ensures a.Some? ==> forall j :: k <= j < a.value ==> fetches[j].TimedOut?
    ensures a.None? ==> forall j :: k <= j < MaxDayAttempts ==> fetches[j].TimedOut?
    decreases MaxDayAttempts - k
  {
    if k == MaxDayAttempts then None
    else if !fetches[k].TimedOut? then Some(k)
    else FirstAnswer(fetches, k + 1)
  }

  /** `get_day(session, day)`: what it appends to `PRICES` and how it ends. */
  function Day(day: string, fetches: seq<Fetch>): DayResult
    requires |fetches| >= MaxDayAttempts
  {
    match FirstAnswer(fetches, 0)
    case None => DayResult(Exhausted, [])
    case Some(k) =>
      match fetches[k]
      case Responded(sets) =>
        var e := Extract(sets, day);
        DayResult(if e.raised then Aborted else Fetched(k + 1), e.samples)
      case _ => DayResult(Aborted, [])
  }

  /** The outcomes of every attempt a day's task can make. */
  datatype DayRequest = DayRequest(day: string, fetches: seq<Fetch>)

  ghost predicate WellFormedRequests(requests: seq<DayRequest>)
  {
    forall i :: 0 <= i < |requests| ==> |requests[i].fetches| >= MaxDayAttempts
  }

  function DayExtraction(r: DayRequest): Extraction
    requires |r.fetches| >= MaxDayAttempts
  {
    var d := Day(r.day, r.fetches);
    Extraction(d.samples, d.outcome.Aborted?)
  }

  /** All days, fanned in in day order; an exception in any day ends the sweep. */
  function Sweep(requests: seq<DayRequest>): Extraction
    requires WellFormedRequests(requests)
  {
    if requests == [] then Extraction([], false)
    else Then(Sweep(requests[..|requests| - 1]), DayExtraction(requests[|requests| - 1]))
  }

  // ---------------------------------------------------------------------------
  // Properties of get_day and the sweep
  // ---------------------------------------------------------------------------

  /**
   At most five attempts: the day ends with the extraction of the first attempt
   that did not time out, only timeouts are retried, and five timeouts end the
   day with nothing recorded.
   */
  lemma DayRetries(day: string, fetches: seq<Fetch>)
    requires |fetches| >= MaxDayAttempts
    ensures Day(day, fetches).outcome.Fetched? ==>
      var a := Day(day, fetches).outcome.attempt;
      && 1 <= a <= MaxDayAttempts
      && fetches[a - 1].Responded?
      && (forall j :: 0 <= j < a - 1 ==> fetches[j].TimedOut?)
      && Day(day, fetches).samples == Extract(fetches[a - 1].offersSets, day).samples
    ensures Day(day, fetches).outcome.Exhausted? <==> forall j :: 0 <= j < MaxDayAttempts ==> fetches[j].TimedOut?
    ensures Day(day, fetches).outcome.Exhausted? ==> Day(day, fetches).samples == []
    ensures fetches[0].Failed? ==> Day(day, fetches) == DayResult(Aborted, [])
  {
  }

  /**
   When attempts 0..k-1 all timed out, attempt k decides the day: another
   exception aborts it with nothing recorded, and a response records exactly
   its extraction, ending with `Fetched(k + 1)` unless the extraction raised.
   */
  lemma DayDecidedByFirstAnswer(day: string, fetches: seq<Fetch>, k: nat)
    requires |fetches| >= MaxDayAttempts && k < MaxDayAttempts
    requires forall j :: 0 <= j < k ==> fetches[j].TimedOut?
    ensures fetches[k].Failed? ==> Day(day, fetches) == DayResult(Aborted, [])
    ensures fetches[k].Responded? ==>
      Day(day, fetches).samples == Extract(fetches[k].offersSets, day).samples
    ensures fetches[k].Responded? ==>
      (Day(day, fetches).outcome == Fetched(k + 1) <==> !Extract(fetches[k].offersSets, day).raised)
    ensures fetches[k].Responded? ==>
      (Day(day, fetches).outcome == Aborted <==> Extract(fetches[k].offersSets, day).raised)
  {
    if !fetches[k].TimedOut? {
      assert FirstAnswer(fetches, 0) == Some(k);
    }
  }

  /** A sweep that did not raise is the concatenation of its days' samples. */
  lemma {:induction false} SweepAppend(r1: seq<DayRequest>, r2: seq<DayRequest>)
    requires WellFormedRequests(r1) && WellFormedRequests(r2)
    ensures WellFormedRequests(r1 + r2)
    ensures Sweep(r1 + r2) == Then(Sweep(r1), Sweep(r2))
  {
    var r := r1 + r2;
    assert WellFormedRequests(r) by {
      forall i | 0 <= i < |r| ensures |r[i].fetches| >= MaxDayAttempts {
        if i < |r1| {
          assert r[i] == r1[i];
        } else {
          assert r[i] == r2[i - |r1|];
        }
      }
    }
    if r2 == [] {
      assert r == r1;
    } else {
      var init, last := r2[..|r2| - 1], r2[|r2| - 1];
      assert WellFormedRequests(init);
      assert Sweep(r) == Then(Sweep(r1 + init), DayExtraction(last)) by {
        assert r[..|r| - 1] == r1 + init;
        assert r[|r| - 1] == last;
      }
      SweepAppend(r1, init);
      ThenAssoc(Sweep(r1), Sweep(init), DayExtraction(last));
    }
  }

  lemma ThenAssoc(a: Extraction, b: Extraction, c: Extraction)
    ensures Then(Then(a, b), c) == Then(a, Then(b, c))
  {
    AppendAssoc(a.samples, b.samples, c.samples);
  }

  /**
   A day that times out five times contributes no samples and does not keep the
   other days' samples out of the table.
   */
  lemma ExhaustedDayIsNeutral(before: seq<DayRequest>, d: DayRequest, after: seq<DayRequest>)
    requires WellFormedRequests(before) && WellFormedRequests(after) && |d.fetches| >= MaxDayAttempts
    requires forall j :: 0 <= j < MaxDayAttempts ==> d.fetches[j].TimedOut?
    ensures WellFormedRequests(before + [d] + after) && WellFormedRequests(before + after)
    ensures Sweep(before + [d] + after) == Sweep(before + after)
  {
    assert WellFormedRequests([d]);
    assert Sweep([d]) == Extraction([], false) by {
      DayRetries(d.day, d.fetches);
      assert [d][..0] == [];
    }
    SweepAppend(before, [d]);
    assert Sweep(before + [d]) == Sweep(before) by {
      assert Sweep(before).samples + [] == Sweep(before).samples;
    }
    SweepAppend(before + [d], after);
    SweepAppend(before, after);
  }

  /** Days that all time out five times record nothing and raise nothing. */
  lemma {:induction false} ExhaustedSweepIsEmpty(requests: seq<DayRequest>)
    requires WellFormedRequests(requests)
    requires forall i, j :: 0 <= i < |requests| && 0 <= j < MaxDayAttempts ==> requests[i].fetches[j].TimedOut?
    ensures Sweep(requests) == Extraction([], false)
  {
    if requests != [] {
      var init, last := requests[..|requests| - 1], requests[|requests| - 1];
      assert WellFormedRequests(init);
      ExhaustedSweepIsEmpty(init);
      DayRetries(last.day, last.fetches);
    }
  }

  /** The table of a sweep without exceptions does not depend on which of two groups of days finished first. */
  lemma SweepOrderFree(prior: seq<PriceSample>, r1: seq<DayRequest>, r2: seq<DayRequest>)
    requires WellFormedRequests(r1) && WellFormedRequests(r2)
    requires !Sweep(r1).raised && !Sweep(r2).raised
    ensures WellFormedRequests(r1 + r2) && WellFormedRequests(r2 + r1)
    ensures Sweep(r1 + r2).samples == Sweep(r1).samples + Sweep(r2).samples
    ensures Tabulate(prior + Sweep(r1 + r2).samples) == Tabulate(prior + Sweep(r2 + r1).samples)
  {
    SweepAppend(r1, r2);
    SweepAppend(r2, r1);
    var a, b := Sweep(r1).samples, Sweep(r2).samples;
    TabulateOrderFree(prior + (a + b), prior + (b + a));
  }

  // ---------------------------------------------------------------------------
  // The scraper: PRICES and the operations that append to it
  // ---------------------------------------------------------------------------

  class Scraper {
    /** The module-global `PRICES` list. */
    var prices: seq<PriceSample>

    constructor ()
      ensures prices == []
    {
      prices := [];
    }

    /**
     `extract_prices(offers_sets, day)`: appends one sample per quoted price, in
     traversal order, and reports whether an exception ended the traversal
     (samples appended before it stay).
     */
    method ExtractPrices(sets: seq<OffersSet>, day: string) returns (raised: bool)
      modifies this
      ensures prices == old(prices) + Extract(sets, day).samples
      ensures raised == Extract(sets, day).raised
    {
      for i := 0 to |sets|
        invariant !ScanItems(FlatItems(sets[..i]), day).raised
        invariant prices == old(prices) + ScanItems(FlatItems(sets[..i]), day).samples
      {
        ghost var prev := ScanItems(FlatItems(sets[..i]), day);
        ghost var here := ScanItems(OfferItemsOf(sets[i].offers), day);
        ghost var before := prices;
        raised := ExtractFromSet(sets[i], day);
        assert prices == before + here.samples;
        SetsStep(sets, i, day);
        AppendAssoc(old(prices), prev.samples, here.samples);
        if raised {
          SetsRaised(sets, i + 1, day);
          return;
        }
      }
      assert sets[..|sets|] == sets;
      raised := false;
    }

    /** The loop of `extract_prices` over the offers of one offers set. */
    method ExtractFromSet(offersSet: OffersSet, day: string) returns (raised: bool)
      modifies this
      ensures prices == old(prices) + ScanItems(OfferItemsOf(offersSet.offers), day).samples
      ensures raised == ScanItems(OfferItemsOf(offersSet.offers), day).raised
    {
      var offers := offersSet.offers;
      for j := 0 to |offers|
        invariant !ScanItems(OfferItemsOf(offers[..j]), day).raised
        invariant prices == old(prices) + ScanItems(OfferItemsOf(offers[..j]), day).samples
      {
        ghost var prev := ScanItems(OfferItemsOf(offers[..j]), day);
        ghost var here := ScanItems(offers[j].offerItems, day);
        ghost var before := prices;
        raised := ExtractFromOffer(offers[j], day);
        assert prices == before + here.samples;
        OffersStep(offers, j, day);
        AppendAssoc(old(prices), prev.samples, here.samples);
        if raised {
          OffersRaised(offers, j + 1, day);
          return;
        }
      }
      assert offers[..|offers|] == offers;
      raised := false;
    }

    /** The loop of `extract_prices` over the offer items of one offer. */
    method ExtractFromOffer(offer: Offer, day: string) returns (raised: bool)
      modifies this
      ensures prices == old(prices) + ScanItems(offer.offerItems, day).samples
      ensures raised == ScanItems(offer.offerItems, day).raised
    {
      var items := offer.offerItems;
      for k := 0 to |items|
        invariant !ScanItems(items[..k], day).raised
        invariant prices == old(prices) + ScanItems(items[..k], day).samples
      {
        ghost var prev := ScanItems(items[..k], day);
        ghost var here := ItemExtraction(items[k], day);
        ghost var before := prices;
        raised := ExtractFromItem(items[k], day);
        assert prices == before + here.samples;
        ItemsStep(items, k, day);
        AppendAssoc(old(prices), prev.samples, here.samples);
        if raised {
          ItemsRaised(items, k + 1, day);
          return;
        }
      }
      assert items[..|items|] == items;
      raised := false;
    }

    /** The innermost loop of `extract_prices`, over one offer item's pricing entries. */
    method ExtractFromItem(item: OfferItem, day: string) returns (raised: bool)
      modifies this
      ensures prices == old(prices) + ItemExtraction(item, day).samples
      ensures raised == ItemExtraction(item, day).raised
    {
      var current := Original(item);
      for l := 0 to |item.offerItemPricing|
        invariant !ScanPricings(item, l, day).raised
        invariant prices == old(prices) + ScanPricings(item, l, day).samples
        invariant current.Rebound? <==> ScanPricings(item, l, day).samples != []
        invariant current.Original? ==> current.item == item
      {
        var pricing := item.offerItemPricing[l];
        if pricing.repriceQuoteAmt.Some? {
          var amount := pricing.repriceQuoteAmt.value;
          if amount.currencyEquivalentPrice.Some? {
            match current
            case Rebound(_) =>
              // `item["retailItems"]` on a retail item
              ScanPricingsRaisedSticks(item, l + 1, day);
              return true;
            case Original(it) =>
              if |it.retailItems| == 0 {
                // `item["retailItems"][0]` on an empty list
                ScanPricingsRaisedSticks(item, l + 1, day);
                return true;
              }
              var retail := it.retailItems[0];
              current := Rebound(retail);
              prices := prices + [SampleOf(retail, amount.currencyEquivalentPrice.value, day)];
          }
        }
      }
      raised := false;
    }

    /**
     `get_day(session, day)`: up to five attempts; a timeout is retried, the first
     response is extracted and ends the loop, any other exception propagates.
     */
    method GetDay(day: string, fetches: seq<Fetch>) returns (outcome: DayOutcome)
      requires |fetches| >= MaxDayAttempts
      modifies this
      ensures prices == old(prices) + Day(day, fetches).samples
      ensures outcome == Day(day, fetches).outcome
    {
      for attempt := 0 to MaxDayAttempts
        invariant prices == old(prices)
        invariant FirstAnswer(fetches, 0) == FirstAnswer(fetches, attempt)
      {
        match fetches[attempt]
        case TimedOut =>
        case Failed =>
          return Aborted;
        case Responded(sets) =>
          var raised := ExtractPrices(sets, day);
          return if raised then Aborted else Fetched(attempt + 1);
      }
      outcome := Exhausted;
    }

    /**
     `get_prices(days)`: every day's task, then `unique().sort(...)` on
     everything in `PRICES`. `None` when no table is written: an exception
     escaped a day, or `PRICES` is empty, so the data frame has no columns and
     the sort by "date", "type", "price", "stop" raises.
     */
    method GetPrices(requests: seq<DayRequest>) returns (table: Option<seq<PriceSample>>)
      requires WellFormedRequests(requests)
      modifies this
      ensures prices == old(prices) + Sweep(requests).samples
      ensures table == if Sweep(requests).raised || prices == [] then None else Some(Tabulate(prices))
    {
      var raised := GatherDays(requests);
      table := if raised || prices == [] then None else Some(Tabulate(prices));
    }

    /** `asyncio.gather` over the day tasks, run one after the other; the first exception propagates. */
    method GatherDays(requests: seq<DayRequest>) returns (raised: bool)
      requires WellFormedRequests(requests)
      modifies this
      ensures prices == old(prices) + Sweep(requests).samples
      ensures raised == Sweep(requests).raised
    {
      for i := 0 to |requests|
        invariant WellFormedRequests(requests[..i])
        invariant !Sweep(requests[..i]).raised
        invariant prices == old(prices) + Sweep(requests[..i]).samples
      {
        SweepStep(requests, i);
        ghost var prev, before := Sweep(requests[..i]), prices;
        var outcome := GetDay(requests[i].day, requests[i].fetches);
        assert prices == before + DayExtraction(requests[i]).samples;
        AppendAssoc(old(prices), prev.samples, DayExtraction(requests[i]).samples);
        if outcome.Aborted? {
          SweepRaisedSticks(requests, i + 1);
          return true;
        }
      }
      assert requests[..|requests|] == requests;
      raised := false;
    }
  }

  // ---------------------------------------------------------------------------
  // Helper lemmas for the loops
  // ---------------------------------------------------------------------------

  lemma {:induction false} ScanPricingsRaisedSticks(item: OfferItem, n: nat, day: string)
    requires n <= |item.offerItemPricing| && ScanPricings(item, n, day).raised
    ensures ItemExtraction(item, day) == ScanPricings(item, n, day)
    decreases |item.offerItemPricing| - n
  {
    if n < |item.offerItemPricing| {
      ScanPricingsRaisedSticks(item, n + 1, day);
    }
  }

  lemma {:induction false} SweepRaisedSticks(requests: seq<DayRequest>, n: nat)
    requires WellFormedRequests(requests) && n <= |requests| && Sweep(requests[..n]).raised
    ensures Sweep(requests) == Sweep(requests[..n])
    decreases |requests| - n
  {
    if n < |requests| {
      assert requests[..n + 1][..n] == requests[..n];
      SweepRaisedSticks(requests, n + 1);
    } else {
      assert requests[..n] == requests;
    }
  }

  lemma SweepStep(requests: seq<DayRequest>, i: nat)
    requires WellFormedRequests(requests) && i < |requests|
    ensures WellFormedRequests(requests[..i]) && WellFormedRequests(requests[..i + 1])
    ensures Sweep(requests[..i + 1]) == Then(Sweep(requests[..i]), DayExtraction(requests[i]))
  {
    assert requests[..i + 1][..i] == requests[..i];
  }

  lemma SetsStep(sets: seq<OffersSet>, i: nat, day: string)
    requires i < |sets|
    ensures ScanItems(FlatItems(sets[..i + 1]), day)
      == Then(ScanItems(FlatItems(sets[..i]), day), ScanItems(OfferItemsOf(sets[i].offers), day))
  {
    FlatItemsStep(sets, i);
    ScanItemsAppend(FlatItems(sets[..i]), OfferItemsOf(sets[i].offers), day);
  }

  lemma SetsRaised(sets: seq<OffersSet>, n: nat, day: string)
    requires n <= |sets| && ScanItems(FlatItems(sets[..n]), day).raised
    ensures Extract(sets, day) == ScanItems(FlatItems(sets[..n]), day)
  {
    FlatItemsPrefix(sets, n);
    PrefixRaised(FlatItems(sets[..n]), FlatItems(sets), day);
  }

  lemma OffersStep(offers: seq<Offer>, j: nat, day: string)
    requires j < |offers|
    ensures ScanItems(OfferItemsOf(offers[..j + 1]), day)
      == Then(ScanItems(OfferItemsOf(offers[..j]), day), ScanItems(offers[j].offerItems, day))
  {
    OfferItemsStep(offers, j);
    ScanItemsAppend(OfferItemsOf(offers[..j]), offers[j].offerItems, day);
  }

  lemma OffersRaised(offers: seq<Offer>, n: nat, day: string)
    requires n <= |offers| && ScanItems(OfferItemsOf(offers[..n]), day).raised
    ensures ScanItems(OfferItemsOf(offers), day) == ScanItems(OfferItemsOf(offers[..n]), day)
  {
    OfferItemsPrefix(offers, n);
    PrefixRaised(OfferItemsOf(offers[..n]), OfferItemsOf(offers), day);
  }

  lemma ItemsStep(items: seq<OfferItem>, k: nat, day: string)
    requires k < |items|
    ensures ScanItems(items[..k + 1], day) == Then(ScanItems(items[..k], day), ItemExtraction(items[k], day))
  {
    assert items[..k + 1] == items[..k] + [items[k]];
    ScanItemsStep(items[..k], items[k], day);
  }

  lemma ItemsRaised(items: seq<OfferItem>, n: nat, day: string)
    requires n <= |items| && ScanItems(items[..n], day).raised
    ensures ScanItems(items, day) == ScanItems(items[..n], day)
  {
    PrefixRaised(items[..n], items, day);
  }

  lemma ScanItemsStep(items: seq<OfferItem>, item: OfferItem, day: string)
    ensures ScanItems(items + [item], day) == Then(ScanItems(items, day), ItemExtraction(item, day))
  {
    assert (items + [item])[..|items|] == items;
  }

  lemma PrefixRaised(done: seq<OfferItem>, whole: seq<OfferItem>, day: string)
    requires done <= whole && ScanItems(done, day).raised
    ensures ScanItems(whole, day) == ScanItems(done, day)
  {
    ScanItemsRaisedSticks(done, whole[|done|..], day);
    assert done + whole[|done|..] == whole;
  }

  lemma OfferItemsStep(offers: seq<Offer>, j: nat)
    requires j < |offers|
    ensures OfferItemsOf(offers[..j + 1]) == OfferItemsOf(offers[..j]) + offers[j].offerItems
  {
    assert offers[..j + 1][..j] == offers[..j];
  }

  lemma FlatItemsStep(sets: seq<OffersSet>, i: nat)
    requires i < |sets|
    ensures FlatItems(sets[..i + 1]) == FlatItems(sets[..i]) + OfferItemsOf(sets[i].offers)
  {
    assert sets[..i + 1][..i] == sets[..i];
  }

  lemma {:induction false} OfferItemsPrefix(offers: seq<Offer>, n: nat)
    requires n <= |offers|
    ensures OfferItemsOf(offers[..n]) <= OfferItemsOf(offers)
    decreases |offers| - n
  {
    if n < |offers| {
      OfferItemsPrefix(offers, n + 1);
      assert offers[..n + 1][..n] == offers[..n];
    } else {
      assert offers[..n] == offers;
    }
  }

  lemma {:induction false} FlatItemsPrefix(sets: seq<OffersSet>, n: nat)
    requires n <= |sets|
    ensures FlatItems(sets[..n]) <= FlatItems(sets)
    decreases |sets| - n
  {
    if n < |sets| {
      FlatItemsPrefix(sets, n + 1);
      assert sets[..n + 1][..n] == sets[..n];
    } else {
      assert sets[..n] == sets;
    }
  }
}
