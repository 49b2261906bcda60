/**
 Normalisation of the fare-brand labels returned by the offer search
 (`SEAT_TYPES` and the brand-name clean-up in tools/rebook_scrapper.py).

 A brand label first loses every "&#174;" (the HTML entity for the registered
 sign), then is looked up in a fixed table of thirteen labels that map onto four
 canonical fare classes. A label missing from the table is kept, tagged with
 " (NOT_FOUND)", so that gaps in the table show up in the output instead of
 dropping the sample.
 */
module FareClasses {

  const Main := "Main"
  const ComfortPlus := "Comfort+"
  const PremiumSelect := "Premium Select"
  const DeltaOne := "Delta One"

  /** The four fare classes every known label maps to. */
  const CanonicalClasses: set<string> := {Main, ComfortPlus, PremiumSelect, DeltaOne}

  /** The fixed classification table. */
  const SeatTypes: map<string, string> := map[
    "Main" := Main,
    "Economy" := Main,
    "Refundable Main" := Main,
    "Comfort+" := ComfortPlus,
    "Refundable Delta Comfort+" := ComfortPlus,
    "Premium Select" := PremiumSelect,
    "Premium Economy" := PremiumSelect,
    "Premium Comfort" := PremiumSelect,
    "Delta One" := DeltaOne,
    "First" := DeltaOne,
    "Delta One Suites" := DeltaOne,
    "Business" := DeltaOne,
    "La Premiere" := DeltaOne
  ]

  const NotFoundSuffix := " (NOT_FOUND)"

  /** The HTML entity removed from brand names before the lookup. */
  const RegisteredMark := "&#174;"

  /** `SEAT_TYPES.get(brand, f"{brand} (NOT_FOUND)")` */
  function Classify(brand: string): string
  {
    if brand in SeatTypes then SeatTypes[brand] else brand + NotFoundSuffix
  }

  /**
   `brand.replace("&#174;", "")`: occurrences are found left to right and do not
   overlap; the text after a removed occurrence is scanned afresh.
   */
  function RemoveMark(s: string): (r: string)
    ensures |r| <= |s|
  {
    if |s| < |RegisteredMark| then s
    else if s[..|RegisteredMark|] == RegisteredMark then RemoveMark(s[|RegisteredMark|..])
    else [s[0]] + RemoveMark(s[1..])
  }

  /** The fare class recorded for a raw brand name. */
  function BrandClass(brandName: string): string
  {
    Classify(RemoveMark(brandName))
  }

  // ---------------------------------------------------------------------------
  // Properties of the classification
  // ---------------------------------------------------------------------------

  /** Every label of the table maps to one of the four canonical classes. */
  lemma TableMapsToCanonical(brand: string)
    requires brand in SeatTypes
    ensures Classify(brand) in CanonicalClasses
  {
  }

  /**
   The result is canonical exactly when the brand is in the table; otherwise it
   is the brand itself followed by " (NOT_FOUND)", so no label is dropped.
   */
  lemma {:induction false} ClassifyCanonicalIff(brand: string)
    ensures Classify(brand) in CanonicalClasses <==> brand in SeatTypes
    ensures brand !in SeatTypes ==>
      && |Classify(brand)| == |brand| + |NotFoundSuffix|
      && Classify(brand)[..|brand|] == brand
      && Classify(brand)[|brand|..] == NotFoundSuffix
  {
    var c := Classify(brand);
    if brand !in SeatTypes {
      assert c == brand + NotFoundSuffix;
      assert c[|c| - 1] == ')';
      assert c[..|brand|] == brand;
      assert c[|brand|..] == NotFoundSuffix;
    }
  }

  /** Unknown labels stay distinguishable after tagging. */
  lemma UnknownLabelsKeptApart(l1: string, l2: string)
    requires l1 !in SeatTypes && l2 !in SeatTypes
    requires Classify(l1) == Classify(l2)
    ensures l1 == l2
  {
    ClassifyCanonicalIff(l1);
    ClassifyCanonicalIff(l2);
  }

  /** Each canonical class name classifies as itself. */
  lemma ClassifyFixesCanonical(c: string)
    requires c in CanonicalClasses
    ensures c in SeatTypes && Classify(c) == c
  {
  }

  /** Classifying a known label twice gives the same class as classifying it once. */
  lemma ClassifyIdempotentOnTable(brand: string)
    requires brand in SeatTypes
    ensures Classify(Classify(brand)) == Classify(brand)
  {
    TableMapsToCanonical(brand);
    ClassifyFixesCanonical(Classify(brand));
  }

  // ---------------------------------------------------------------------------
  // Properties of the mark removal
  // ---------------------------------------------------------------------------

  /** A string that does not start with '&' keeps its first character. */
  lemma RemoveMarkStep(t: string)
    requires t != [] && t[0] != '&'
    ensures RemoveMark(t) == [t[0]] + RemoveMark(t[1..])
  {
    if |t| >= |RegisteredMark| {
      assert t[..|RegisteredMark|][0] != RegisteredMark[0];
    } else {
      assert RemoveMark(t[1..]) == t[1..];
      assert t == [t[0]] + t[1..];
    }
  }

  /** A prefix without '&' passes through the removal untouched. */
  lemma {:induction false} RemoveMarkKeepsPlainPrefix(a: string, s: string)
    requires forall i :: 0 <= i < |a| ==> a[i] != '&'
    ensures RemoveMark(a + s) == a + RemoveMark(s)
  {
    if a == [] {
      assert a + s == s;
    } else {
      var t := a + s;
      assert RemoveMark(t) == [a[0]] + RemoveMark(a[1..] + s) by {
        assert t[0] == a[0] && t[1..] == a[1..] + s;
        RemoveMarkStep(t);
      }
      assert RemoveMark(a[1..] + s) == a[1..] + RemoveMark(s) by {
        RemoveMarkKeepsPlainPrefix(a[1..], s);
      }
      assert [a[0]] + (a[1..] + RemoveMark(s)) == a + RemoveMark(s);
    }
  }

  /** A mark followed by an '&'-free text leaves just that text. */
  lemma RemoveLeadingMark(b: string)
    requires forall i :: 0 <= i < |b| ==> b[i] != '&'
    ensures RemoveMark(RegisteredMark + b) == b
  {
    var m := RegisteredMark + b;
    assert m[..|RegisteredMark|] == RegisteredMark && m[|RegisteredMark|..] == b;
    RemoveMarkKeepsPlainPrefix(b, []);
    assert b + [] == b;
  }

  /** A name with one mark between two '&'-free parts loses exactly the mark. */
  lemma RemoveMarkBetween(a: string, b: string)
    requires forall i :: 0 <= i < |a| ==> a[i] != '&'
    requires forall i :: 0 <= i < |b| ==> b[i] != '&'
    ensures RemoveMark(a + RegisteredMark + b) == a + b
  {
    RemoveMarkKeepsPlainPrefix(a, RegisteredMark + b);
    RemoveLeadingMark(b);
    assert a + RegisteredMark + b == a + (RegisteredMark + b);
  }

  /**
   Removal skips an '&'-free prefix and drops the mark after it, then goes on
   with the rest: by induction, every mark of a name is removed.
   */
  lemma RemoveMarkSkipsMark(a: string, s: string)
    requires forall i :: 0 <= i < |a| ==> a[i] != '&'
    ensures RemoveMark(a + RegisteredMark + s) == a + RemoveMark(s)
  {
    RemoveMarkKeepsPlainPrefix(a, RegisteredMark + s);
    var m := RegisteredMark + s;
    assert m[..|RegisteredMark|] == RegisteredMark && m[|RegisteredMark|..] == s;
    assert a + RegisteredMark + s == a + m;
  }

  /** The registered mark does not affect the fare class: "Delta One&#174;" is "Delta One". */
  lemma BrandClassIgnoresMark(name: string)
    requires forall i :: 0 <= i < |name| ==> name[i] != '&'
    ensures BrandClass(name + RegisteredMark) == BrandClass(name) == Classify(name)
  {
    RemoveMarkBetween(name, []);
    assert name + RegisteredMark + [] == name + RegisteredMark;
    assert name + [] == name;
    RemoveMarkKeepsPlainPrefix(name, []);
  }
}
