/** The destinations page (src/pages/Destinations.jsx): a search over title
    and location, a category filter, a sort selector whose value is stored
    but never applied, the results summary and the empty state. */
module Destinations {
  import opened JsValues
  import opened Text
  import opened Seqs

  datatype Destination = Destination(id: nat, title: string, location: string, category: string)

  datatype Category = Category(id: string, name: string)

  /** The filter buttons, in order. */
  const Categories: seq<Category> := [
    Category("all", "All Destinations"),
    Category("beach", "Beach & Islands"),
    Category("mountain", "Mountains"),
    Category("city", "City Breaks"),
    Category("nature", "Nature & Wildlife")
  ]

  /** The values of the sort selector. */
  const SortIds: seq<string> := ["popular", "price-low", "price-high", "rating"]

  /** The nine fixture destinations (prices, ratings, images and descriptions
      left out: the page only displays them). */
  const Fixture: seq<Destination> := [
    Destination(1, "Maldives Paradise", "Indian Ocean", "beach"),
    Destination(2, "Swiss Alps Adventure", "Switzerland", "mountain"),
    Destination(3, "Tokyo Culture Tour", "Japan", "city"),
    Destination(4, "Santorini Sunset", "Greece", "beach"),
    Destination(5, "Safari Experience", "Kenya", "nature"),
    Destination(6, "Northern Lights", "Iceland", "nature"),
    Destination(7, "Bali Spiritual Journey", "Indonesia", "nature"),
    Destination(8, "Patagonia Expedition", "Chile & Argentina", "mountain"),
    Destination(9, "New York City Break", "USA", "city")
  ]

  /** The page state: `searchTerm`, `selectedCategory` and `sortBy`. */
  datatype View = View(searchTerm: string, selected: string, sortBy: string)

  const Initial := View("", "all", "popular")

  /** The lower-cased term occurs in the lower-cased title or location. */
  predicate MatchesSearch(term: string, d: Destination)
  {
    FoundIgnoringCase(d.title, term) || FoundIgnoringCase(d.location, term)
  }

  predicate MatchesCategory(selected: string, d: Destination)
  {
    selected == "all" || d.category == selected
  }

  predicate Matches(v: View, d: Destination)
  {
    MatchesSearch(v.searchTerm, d) && MatchesCategory(v.selected, d)
  }

  /** `filteredDestinations`. */
  function FilteredDestinations(ds: seq<Destination>, v: View): (r: seq<Destination>)
    ensures |r| <= |ds|
    ensures forall d :: d in r <==> d in ds && Matches(v, d)
  {
    Filter(ds, d => Matches(v, d))
  }

  /** `categories.find((c) => c.id === selectedCategory)?.name`. */
  function CategoryName(selected: string): (r: Option<string>)
    ensures r.Some? <==> exists k :: 0 <= k < |Categories| && Categories[k].id == selected
    ensures r.Some? ==> exists k :: 0 <= k < |Categories| && Categories[k].id == selected
                                   && Categories[k].name == r.value
  {
    match Find(Categories, (c: Category) => c.id == selected)
    case None => None
    case Some(c) => Some(c.name)
  }

  /** A template literal prints a missing name as "undefined". */
  function Interpolate(s: Option<string>): string
  {
    if s.Some? then s.value else "undefined"
  }

  /** The results line. */
  function Summary(count: nat, selected: string): string
  {
    "Showing " + NatToString(count) + SummaryTail(selected)
  }

  /** What follows " destinations": " in " and the category's name, unless
      the category is "all". */
  function CategorySuffix(selected: string): string
  {
    if selected != "all" then " in " + Interpolate(CategoryName(selected)) else ""
  }

  /** What follows the count. */
  function SummaryTail(selected: string): (r: string)
    ensures |r| > 0 && r[0] == ' '
  {
    " destinations" + CategorySuffix(selected)
  }

  /** What the page renders below the filters: the summary, the cards in
      order, and whether "No destinations found" is shown instead. */
  datatype Results = Results(summary: string, cards: seq<Destination>, emptyState: bool)

  function Render(ds: seq<Destination>, v: View): (r: Results)
    ensures r.emptyState <==> r.cards == []
    ensures forall d :: d in r.cards <==> d in ds && Matches(v, d)
  {
    var shown := FilteredDestinations(ds, v);
    Results(Summary(|shown|, v.selected), shown, |shown| == 0)
  }

  /** The cards keep the fixture order and hold each matching destination as
      often as the list does; the initial view shows the whole list. */
  lemma FilteredDestinationsSpec(ds: seq<Destination>, v: View, d: Destination)
    ensures IsSubsequence(FilteredDestinations(ds, v), ds)
    ensures multiset(FilteredDestinations(ds, v))[d] == if Matches(v, d) then multiset(ds)[d] else 0
  {
    FilterIsSubsequence(ds, e => Matches(v, e));
    FilterMultiplicity(ds, e => Matches(v, e), d);
  }

  lemma InitialShowsAll(ds: seq<Destination>)
    ensures FilteredDestinations(ds, Initial) == ds
  {
    forall i | 0 <= i < |ds|
      ensures Matches(Initial, ds[i])
    {
      FoundIgnoringCaseSpec(ds[i].title, "");
    }
    FilterAll(ds, e => Matches(Initial, e));
  }

  /** The sort selector changes nothing on the page: the cards stay in
      fixture order whichever value `sortBy` holds. */
  lemma SortIsIgnored(ds: seq<Destination>, v: View, order: string)
    ensures Render(ds, v.(sortBy := order)) == Render(ds, v)
  {
    assert forall d :: Matches(v.(sortBy := order), d) == Matches(v, d);
    FilterSameResult(ds, v, v.(sortBy := order));
  }

  lemma {:induction false} FilterSameResult(ds: seq<Destination>, v: View, w: View)
    requires v.searchTerm == w.searchTerm && v.selected == w.selected
    ensures FilteredDestinations(ds, v) == FilteredDestinations(ds, w)
    decreases |ds|
  {
    if |ds| > 0 {
      FilterSameResult(ds[1..], v, w);
    }
  }

  /** The summary starts with the count, which reads back as that number. */
  lemma SummaryCountReadsBack(count: nat, selected: string)
    ensures StartsWith(Summary(count, selected), "Showing ")
    ensures ParseInt(Summary(count, selected)[8..]) == Some(count)
  {
    ReadsBackAfter("Showing ", count, SummaryTail(selected));
  }

  /** A number printed after a fixed prefix and before a non-digit reads back. */
  lemma ReadsBackAfter(pre: string, count: nat, tail: string)
    requires |tail| > 0 ==> !IsDigit(tail[0])
    ensures StartsWith(pre + NatToString(count) + tail, pre)
    ensures ParseInt((pre + NatToString(count) + tail)[|pre|..]) == Some(count)
  {
    assert (pre + NatToString(count) + tail)[|pre|..] == NatToString(count) + tail;
    ParseIntOfPrinted(count, tail);
  }

  /** The number in the summary is the number of cards. */
  lemma RenderCountsCards(ds: seq<Destination>, v: View)
    ensures ParseInt(Render(ds, v).summary[8..]) == Some(|Render(ds, v).cards|)
  {
    SummaryCountReadsBack(|Render(ds, v).cards|, v.selected);
  }

  /** The "all" category adds nothing after "destinations"; a button's
      category adds " in " and that button's name. */
  lemma SummaryNamesCategory(count: nat, k: nat)
    requires k < |Categories|
    ensures k == 0 ==> Summary(count, Categories[k].id) == "Showing " + NatToString(count) + " destinations"
    ensures k > 0 ==> Summary(count, Categories[k].id)
                      == "Showing " + NatToString(count) + " destinations" + " in " + Categories[k].name
  {
    var n := NatToString(count);
    if k == 0 {
      assert CategorySuffix(Categories[k].id) == "";
      AppendEmpty("Showing " + n, " destinations");
    } else {
      NameOfButton(Categories, k);
      Regroup("Showing " + n, " destinations", " in ", Categories[k].name);
    }
  }

  lemma AppendEmpty(a: string, b: string)
    ensures a + (b + "") == a + b
  {
    assert b + "" == b;
  }

  lemma Regroup(a: string, b: string, c: string, d: string)
    ensures a + (b + (c + d)) == a + b + c + d
  {
  }

  /** The button ids are distinct, so the lookup finds the button itself. */
  lemma NameOfButton(cs: seq<Category>, k: nat)
    requires cs == Categories && k < |cs|
    ensures CategoryName(cs[k].id) == Some(cs[k].name)
  {
    IdsDistinct(cs);
    var found := Find(cs, (x: Category) => x.id == cs[k].id);
    var j :| 0 <= j < |cs| && cs[j] == found.value && cs[j].id == cs[k].id
             && forall i :: 0 <= i < j ==> cs[i].id != cs[k].id;
  }

  lemma IdsDistinct(cs: seq<Category>)
    requires cs == Categories
    ensures forall i, j :: 0 <= i < j < |cs| ==> cs[i].id != cs[j].id
  {
  }

  /** A category no button offers leaves the page saying " in undefined". */
  lemma UnknownCategorySummary(count: nat, selected: string)
    requires selected != "all" && forall k :: 0 <= k < |Categories| ==> Categories[k].id != selected
    ensures Summary(count, selected) == "Showing " + NatToString(count) + " destinations" + " in " + "undefined"
  {
    assert CategoryName(selected).None?;
    Regroup("Showing " + NatToString(count), " destinations", " in ", "undefined");
  }

  /** A search for text that occurs in neither title nor location of any
      destination shows the empty state and a count of 0. */
  lemma NoMatchShowsEmptyState(ds: seq<Destination>, v: View)
    requires forall d :: d in ds ==> !MatchesSearch(v.searchTerm, d)
    ensures Render(ds, v).emptyState && Render(ds, v).cards == []
    ensures StartsWith(Render(ds, v).summary, "Showing ") && ParseInt(Render(ds, v).summary[8..]) == Some(0)
  {
    NoMatchFiltersAll(ds, v);
    SummaryCountReadsBack(0, v.selected);
  }

  lemma NoMatchFiltersAll(ds: seq<Destination>, v: View)
    requires forall d :: d in ds ==> !MatchesSearch(v.searchTerm, d)
    ensures FilteredDestinations(ds, v) == []
  {
    FilterEmpty(ds, d => Matches(v, d));
  }
}
