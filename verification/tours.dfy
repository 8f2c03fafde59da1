/** The tours page (src/pages/Tours.jsx): the type and duration filters, the
    five sort orders, the booking payload, the savings badge and the
    highlight list of a card. Ratings are held in tenths (4.9 is 49). */
module Tours {
  import opened JsValues
  import opened Text
  import opened Seqs

  /** One tour; `kind` is the field `type`, `rating` is in tenths. */
  datatype Tour = Tour(
    id: nat, title: string, duration: string, kind: string,
    price: int, originalPrice: Option<int>, rating: int, highlights: seq<string>)

  const TypeIds: seq<string> := ["all", "adventure", "cultural", "luxury", "family", "romantic"]
  const DurationIds: seq<string> := ["all", "short", "medium", "long"]
  const SortIds: seq<string> := ["featured", "price-low", "price-high", "rating", "duration"]

  /** The six fixture tours (descriptions, images and inclusions left out). */
  const Catalog: seq<Tour> := [
    Tour(1, "Romantic Maldives Escape", DurationText(7, 6), "romantic", 2999, Some(3499), 49,
         ["Overwater Bungalows", "Private Beach Dinners", "Couples Spa", "Sunset Cruises"]),
    Tour(2, "Swiss Alps Adventure", DurationText(10, 9), "adventure", 3299, Some(3799), 48,
         ["Mountain Hiking", "Scenic Train Rides", "Alpine Villages", "Cable Car Tours"]),
    Tour(3, "Tokyo Cultural Immersion", DurationText(8, 7), "cultural", 2899, Some(3299), 49,
         ["Temple Visits", "Tea Ceremony", "Sushi Making", "Traditional Ryokan"]),
    Tour(4, "Santorini Luxury Getaway", DurationText(5, 4), "luxury", 2199, Some(2599), 47,
         ["Infinity Pool Villa", "Private Wine Tasting", "Sunset Helicopter", "Yacht Charter"]),
    Tour(5, "Kenya Safari Family Adventure", DurationText(9, 8), "family", 3599, Some(4199), 48,
         ["Big Five Safari", "Masai Village", "Hot Air Balloon", "Wildlife Photography"]),
    Tour(6, "Iceland Northern Lights Quest", DurationText(6, 5), "adventure", 2399, Some(2799), 49,
         ["Northern Lights", "Ice Caves", "Geysers", "Blue Lagoon"])
  ]

  /** The fixture's duration text "<d> Days / <n> Nights". */
  function DurationText(days: nat, nights: nat): string
  {
    NatToString(days) + " Days / " + NatToString(nights) + " Nights"
  }

  /** `parseInt(tour.duration)`; `None` is NaN. */
  function Days(t: Tour): Option<int>
  {
    ParseInt(t.duration)
  }

  /* ---------- filters ---------- */

  predicate TypeMatch(selected: string, t: Tour)
  {
    selected == "all" || t.kind == selected
  }

  /** The duration buttons on a parsed day count; `None` is NaN, for which
      every comparison is false. */
  predicate DaysMatch(selected: string, d: Option<int>)
  {
    selected == "all"
    || (selected == "short" && d.Some? && d.value <= 3)
    || (selected == "medium" && d.Some? && d.value >= 4 && d.value <= 7)
    || (selected == "long" && d.Some? && d.value >= 8)
  }

  predicate DurationMatch(selected: string, t: Tour)
  {
    DaysMatch(selected, Days(t))
  }

  predicate Matches(selType: string, selDuration: string, t: Tour)
  {
    TypeMatch(selType, t) && DurationMatch(selDuration, t)
  }

  /** The three duration buckets are disjoint and together cover every
      positive day count a duration can start with. */
  lemma DurationBuckets(days: int)
    requires days >= 1
    ensures DaysMatch("short", Some(days)) || DaysMatch("medium", Some(days)) || DaysMatch("long", Some(days))
    ensures !(DaysMatch("short", Some(days)) && DaysMatch("medium", Some(days)))
    ensures !(DaysMatch("short", Some(days)) && DaysMatch("long", Some(days)))
    ensures !(DaysMatch("medium", Some(days)) && DaysMatch("long", Some(days)))
  {
  }

  /** A duration with no leading number passes no bucket, only "all". */
  lemma UnparsedDurationOnlyAll(t: Tour, selected: string)
    requires Days(t).None?
    ensures DurationMatch(selected, t) <==> selected == "all"
  {
  }

  /* ---------- sorting ---------- */

  /** The comparator of `.sort`; a NaN difference counts as 0. */
  function Compare(order: string, a: Tour, b: Tour): int
  {
    match order
    case "price-low" => a.price - b.price
    case "price-high" => b.price - a.price
    case "rating" => b.rating - a.rating
    case "duration" => DurationDiff(a, b)
    case _ => 0
  }

  /** `parseInt(a.duration) - parseInt(b.duration)`, NaN read as 0. */
  function DurationDiff(a: Tour, b: Tour): int
  {
    if Days(a).Some? && Days(b).Some? then Days(a).value - Days(b).value else 0
  }

  function Comparator(order: string): (Tour, Tour) -> int
  {
    (a, b) => Compare(order, a, b)
  }

  /** `filteredTours`: filter, then a stable sort. */
  function FilteredTours(tours: seq<Tour>, selType: string, selDuration: string, order: string): (r: seq<Tour>)
    ensures |r| <= |tours|
  {
    var kept := Filter(tours, t => Matches(selType, selDuration, t));
    Sort(kept, Comparator(order))
  }

  /** The list shown is a rearrangement of the tours that pass both filters:
      each passing tour as often as it occurs in `tours`, no other tour. So
      "Showing n of m" never has n above m. */
  lemma FilteredToursContents(tours: seq<Tour>, selType: string, selDuration: string, order: string, t: Tour)
    ensures multiset(FilteredTours(tours, selType, selDuration, order))[t]
            == if Matches(selType, selDuration, t) then multiset(tours)[t] else 0
    ensures |FilteredTours(tours, selType, selDuration, order)| <= |tours|
  {
    FilterMultiplicity(tours, x => Matches(selType, selDuration, x), t);
  }

  /** "all"/"all" with the "featured" order shows the tours exactly as listed. */
  lemma FeaturedKeepsOrder(tours: seq<Tour>, selType: string, selDuration: string)
    ensures FilteredTours(tours, selType, selDuration, "featured")
            == Filter(tours, t => Matches(selType, selDuration, t))
    ensures FilteredTours(tours, "all", "all", "featured") == tours
  {
    SortAllTiesIsIdentity(Filter(tours, t => Matches(selType, selDuration, t)), Comparator("featured"));
    FilterAll(tours, t => Matches("all", "all", t));
    SortAllTiesIsIdentity(tours, Comparator("featured"));
  }

  lemma ComparatorNotBothAbove(order: string)
    ensures NotBothAbove(Comparator(order))
  {
  }

  lemma SortedByKey(tours: seq<Tour>, selType: string, selDuration: string, order: string, key: Tour -> int)
    requires forall a, b :: Compare(order, a, b) <= 0 ==> key(a) <= key(b)
    ensures var r := FilteredTours(tours, selType, selDuration, order);
            forall i, j :: 0 <= i <= j < |r| ==> key(r[i]) <= key(r[j])
  {
    var kept := Filter(tours, t => Matches(selType, selDuration, t));
    ComparatorNotBothAbove(order);
    SortOrdered(kept, Comparator(order));
    var r := Sort(kept, Comparator(order));
    assert forall i :: 0 <= i < |r| - 1 ==> Comparator(order)(r[i], r[i + 1]) <= 0;
    AdjacentKeysSorted(r, key);
  }

  /** What the three numeric orders compare. */
  lemma CompareByOrder(a: Tour, b: Tour)
    ensures Compare("price-low", a, b) == a.price - b.price
    ensures Compare("price-high", a, b) == b.price - a.price
    ensures Compare("rating", a, b) == b.rating - a.rating
  {
  }

  /** "price-low" lists prices in nondecreasing order. */
  lemma PriceLowSorted(tours: seq<Tour>, selType: string, selDuration: string)
    ensures var r := FilteredTours(tours, selType, selDuration, "price-low");
            forall i, j :: 0 <= i <= j < |r| ==> r[i].price <= r[j].price
  {
    forall a: Tour, b: Tour
      ensures Compare("price-low", a, b) <= 0 ==> a.price <= b.price
    {
      CompareByOrder(a, b);
    }
    SortedByKey(tours, selType, selDuration, "price-low", (t: Tour) => t.price);
  }

  /** "price-high" lists prices in nonincreasing order. */
  lemma PriceHighSorted(tours: seq<Tour>, selType: string, selDuration: string)
    ensures var r := FilteredTours(tours, selType, selDuration, "price-high");
            forall i, j :: 0 <= i <= j < |r| ==> r[i].price >= r[j].price
  {
    forall a: Tour, b: Tour
      ensures Compare("price-high", a, b) <= 0 ==> -a.price <= -b.price
    {
      CompareByOrder(a, b);
    }
    SortedByKey(tours, selType, selDuration, "price-high", (t: Tour) => -t.price);
  }

  /** "rating" lists ratings in nonincreasing order. */
  lemma RatingSorted(tours: seq<Tour>, selType: string, selDuration: string)
    ensures var r := FilteredTours(tours, selType, selDuration, "rating");
            forall i, j :: 0 <= i <= j < |r| ==> r[i].rating >= r[j].rating
  {
    forall a: Tour, b: Tour
      ensures Compare("rating", a, b) <= 0 ==> -a.rating <= -b.rating
    {
      CompareByOrder(a, b);
    }
    SortedByKey(tours, selType, selDuration, "rating", (t: Tour) => -t.rating);
  }

  /** "duration" lists day counts in nondecreasing order when every
      duration starts with a number. */
  lemma DurationSorted(tours: seq<Tour>, selType: string, selDuration: string)
    requires forall i :: 0 <= i < |tours| ==> Days(tours[i]).Some?
    ensures var r := FilteredTours(tours, selType, selDuration, "duration");
            forall i, j :: 0 <= i <= j < |r| ==> Days(r[i]).Some? && DaysKey(r[i]) <= DaysKey(r[j])
  {
    var kept := Filter(tours, t => Matches(selType, selDuration, t));
    var r := Sort(kept, Comparator("duration"));
    SortedMembersParse(tours, kept, r);
    ComparatorNotBothAbove("duration");
    SortOrdered(kept, Comparator("duration"));
    DurationAdjacent(r);
    AdjacentKeysSorted(r, DaysKey);
  }

  lemma SortedMembersParse(tours: seq<Tour>, kept: seq<Tour>, r: seq<Tour>)
    requires forall i :: 0 <= i < |tours| ==> Days(tours[i]).Some?
    requires forall t :: t in kept ==> t in tours
    requires multiset(r) == multiset(kept)
    ensures forall t :: t in r ==> Days(t).Some?
  {
    forall t | t in r
      ensures Days(t).Some?
    {
      assert t in multiset(r);
      assert t in kept;
    }
  }

  /** The day count, with 0 standing in for NaN. */
  function DaysKey(t: Tour): int
  {
    if Days(t).Some? then Days(t).value else 0
  }

  lemma DurationAdjacent(r: seq<Tour>)
    requires forall t :: t in r ==> Days(t).Some?
    requires AdjacentOrdered(r, Comparator("duration"))
    ensures forall i :: 0 <= i < |r| - 1 ==> DaysKey(r[i]) <= DaysKey(r[i + 1])
  {
    forall i | 0 <= i < |r| - 1
      ensures DaysKey(r[i]) <= DaysKey(r[i + 1])
    {
      assert r[i] in r && r[i + 1] in r;
      DurationComparator(r[i], r[i + 1]);
    }
  }

  lemma DurationComparator(a: Tour, b: Tour)
    ensures Comparator("duration")(a, b) == DurationDiff(a, b)
  {
  }

  /* ---------- the fixture ---------- */

  /** A fixture duration reads as its day count. */
  lemma DurationTextReads(days: nat, nights: nat)
    ensures ParseInt(DurationText(days, nights)) == Some(days)
  {
    var rest := " Days / " + NatToString(nights) + " Nights";
    assert DurationText(days, nights) == NatToString(days) + rest;
    ParseIntOfPrinted(days, rest);
  }

  /** No fixture tour is 1-3 days long, so that filter always shows nothing. */
  lemma ShortFilterEmptyOnCatalog(selType: string, order: string)
    ensures FilteredTours(Catalog, selType, "short", order) == []
  {
    CatalogAtLeastFiveDays();
    ShortFilterEmpty(Catalog, selType, order);
  }

  /** Every fixture duration reads as at least five days. */
  lemma CatalogAtLeastFiveDays()
    ensures forall t :: t in Catalog ==> Days(t).Some? && Days(t).value >= 5
  {
    forall t | t in Catalog
      ensures Days(t).Some? && Days(t).value >= 5
    {
      var k :| 0 <= k < |Catalog| && Catalog[k] == t;
      var days := [7, 10, 8, 5, 9, 6];
      var nights := [6, 9, 7, 4, 8, 5];
      assert t.duration == DurationText(days[k], nights[k]);
      DurationTextReads(days[k], nights[k]);
    }
  }

  /** Tours that all last five days or more leave the short filter empty. */
  lemma ShortFilterEmpty(tours: seq<Tour>, selType: string, order: string)
    requires forall t :: t in tours ==> Days(t).Some? && Days(t).value >= 5
    ensures FilteredTours(tours, selType, "short", order) == []
  {
    FilterEmpty(tours, t => Matches(selType, "short", t));
  }

  /** Only the first four types get a filter button. */
  function TypeButtons(): (r: seq<string>)
    ensures r == ["all", "adventure", "cultural", "luxury"]
    ensures "family" !in r && "romantic" !in r
  {
    TypeIds[..4]
  }

  /* ---------- card expressions ---------- */

  /** The package `openBookingModal` hands to the booking form. */
  datatype Package = Package(name: string, price: string)

  function BookingPackage(t: Tour): Package
  {
    Package(t.title, "$" + IntToString(t.price))
  }

  /** The price string of the booking package reads back as the price. */
  lemma BookingPriceReadsBack(t: Tour)
    requires t.price >= 0
    ensures BookingPackage(t).name == t.title
    ensures BookingPackage(t).price[0] == '$'
    ensures ParseInt(BookingPackage(t).price[1..]) == Some(t.price)
  {
    var p := BookingPackage(t).price;
    assert p[1..] == NatToString(t.price) + "";
    ParseIntOfPrinted(t.price, "");
  }

  /** What `{tour.originalPrice && …}` renders: nothing, the stray number 0
      React prints for a falsy 0, or the "Save $x" badge. */
  datatype Savings = NoBadge | StrayZero | Save(amount: int)

  function SavingsBadge(t: Tour): (s: Savings)
    ensures s.NoBadge? <==> t.originalPrice.None?
    ensures s == StrayZero <==> t.originalPrice == Some(0)
    ensures t.originalPrice.Some? && t.originalPrice.value != 0 ==> s.Save? && s.amount + t.price == t.originalPrice.value
  {
    match t.originalPrice
    case None => NoBadge
    case Some(p) => if p == 0 then StrayZero else Save(p - t.price)
  }

  /** Every fixture tour carries an original price above its price, so each
      card shows a "Save" badge with a positive amount. */
  lemma CatalogShowsSavings(k: nat)
    requires k < |Catalog|
    ensures SavingsBadge(Catalog[k]).Save? && SavingsBadge(Catalog[k]).amount > 0
  {
  }

  /** The highlight chips of a card: the first three, and "+k more" when
      there are more. */
  datatype Chips = Chips(shown: seq<string>, more: Option<string>)

  function HighlightChips(highlights: seq<string>): (c: Chips)
    ensures |c.shown| == if |highlights| < 3 then |highlights| else 3
    ensures c.shown == highlights[..|c.shown|]
    ensures c.more.Some? <==> |highlights| > 3
    ensures c.more.Some? ==> c.more.value == "+" + NatToString(|highlights| - 3) + " more"
  {
    var shown := if |highlights| < 3 then highlights else highlights[..3];
    Chips(shown, if |highlights| > 3 then Some("+" + NatToString(|highlights| - 3) + " more") else None)
  }

  /** The chips account for every highlight: those shown plus the number in
      the "+k more" label. */
  lemma ChipsCountAll(highlights: seq<string>)
    ensures var c := HighlightChips(highlights);
            c.more.Some? ==> ParseInt(c.more.value[1..]) == Some(|highlights| - |c.shown|)
    ensures var c := HighlightChips(highlights);
            c.more.None? ==> |c.shown| == |highlights|
  {
    var c := HighlightChips(highlights);
    if |highlights| > 3 {
      var n := |highlights| - 3;
      assert c.more.value[1..] == NatToString(n) + " more";
      ParseIntOfPrinted(n, " more");
    }
  }
}
