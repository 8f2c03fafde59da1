/** The gallery page (src/pages/Gallery.jsx): the category filter over the
    fixture photos and the lightbox, whose index steps around the filtered
    list with JavaScript's `%`. */
module Gallery {
  import opened JsValues
  import opened Text
  import opened Seqs

  datatype Item = Item(id: nat, category: string, title: string, location: string)

  /** The filter buttons, in order; "all" shows everything. */
  const CategoryIds: seq<string> := ["all", "destinations", "hotels", "activities", "food", "culture"]

  /** The fifteen fixture photos (the image addresses are left out). */
  const Items: seq<Item> := [
    Item(1, "destinations", "Maldives Paradise", "Maldives"),
    Item(2, "destinations", "Swiss Alps", "Switzerland"),
    Item(3, "destinations", "Tokyo Skyline", "Japan"),
    Item(4, "hotels", "Luxury Resort", "Bali"),
    Item(5, "destinations", "Santorini Sunset", "Greece"),
    Item(6, "activities", "Safari Adventure", "Kenya"),
    Item(7, "food", "Local Cuisine", "Thailand"),
    Item(8, "hotels", "Boutique Hotel", "Morocco"),
    Item(9, "destinations", "Northern Lights", "Iceland"),
    Item(10, "culture", "Temple Visit", "Cambodia"),
    Item(11, "destinations", "Mountain Lake", "Canada"),
    Item(12, "activities", "Scuba Diving", "Egypt"),
    Item(13, "hotels", "Beach Resort", "Seychelles"),
    Item(14, "food", "Fine Dining", "France"),
    Item(15, "culture", "Local Market", "India")
  ]

  predicate InCategory(selected: string, item: Item)
  {
    selected == "all" || item.category == selected
  }

  /** `filteredItems`. */
  function FilteredItems(items: seq<Item>, selected: string): (r: seq<Item>)
    ensures |r| <= |items|
    ensures forall x :: x in r <==> x in items && InCategory(selected, x)
  {
    Filter(items, x => InCategory(selected, x))
  }

  /** "all" shows every item in order; any other category shows exactly the
      items of that category, each as often as it occurs, in order. */
  lemma FilteredItemsSpec(items: seq<Item>, selected: string, x: Item)
    ensures selected == "all" ==> FilteredItems(items, selected) == items
    ensures IsSubsequence(FilteredItems(items, selected), items)
    ensures multiset(FilteredItems(items, selected))[x]
            == if InCategory(selected, x) then multiset(items)[x] else 0
  {
    if selected == "all" {
      FilterAll(items, y => InCategory(selected, y));
    }
    FilterIsSubsequence(items, y => InCategory(selected, y));
    FilterMultiplicity(items, y => InCategory(selected, y), x);
  }

  /** The count beside the filter buttons, `{filteredItems.length} photos`. */
  function PhotoCount(items: seq<Item>, selected: string): string
  {
    NatToString(|FilteredItems(items, selected)|) + " photos"
  }

  /** The count beside the buttons reads back as the number of photos in the
      grid, and "all" counts the whole list. */
  lemma PhotoCountReadsBack(items: seq<Item>, selected: string)
    ensures ParseInt(PhotoCount(items, selected)) == Some(|FilteredItems(items, selected)|)
    ensures selected == "all" ==> ParseInt(PhotoCount(items, selected)) == Some(|items|)
  {
    ParseIntOfPrinted(|FilteredItems(items, selected)|, " photos");
    FilteredItemsSpec(items, selected, Items[0]);
  }

  /** Every filter button shows at least one fixture photo. */
  lemma EveryCategoryShowsPhotos(selected: string)
    requires selected in CategoryIds
    ensures |FilteredItems(Items, selected)| > 0
  {
    var sample :=
      if selected == "all" || selected == "destinations" then Items[0]
      else if selected == "hotels" then Items[3]
      else if selected == "activities" then Items[5]
      else if selected == "food" then Items[6]
      else Items[9];
    assert sample in Items && InCategory(selected, sample);
    assert sample in FilteredItems(Items, selected);
  }

  /* ---------- the lightbox ---------- */

  /** A JavaScript number used as an index: an integer, or NaN after a step
      around an empty list. */
  datatype Index = At(i: int) | NaN

  /** The page state: the selected category, whether the lightbox is open,
      and `currentImage`. */
  datatype View = View(selected: string, open: bool, current: Index)

  const Initial := View("all", false, At(0))

  /** `openLightbox(index)`. */
  function Open(v: View, index: nat): (w: View)
    ensures w.open && w.current == At(index) && w.selected == v.selected
  {
    v.(open := true, current := At(index))
  }

  /** `closeLightbox()`: the index is kept. */
  function Close(v: View): (w: View)
    ensures !w.open && w.current == v.current && w.selected == v.selected
  {
    v.(open := false)
  }

  /** A category button: only the category changes, the index is not reset. */
  function SelectCategory(v: View, c: string): (w: View)
    ensures w.selected == c && w.open == v.open && w.current == v.current
  {
    v.(selected := c)
  }

  /** `(prev + 1) % n`. */
  function StepNext(idx: Index, n: nat): Index
  {
    if idx.NaN? || n == 0 then NaN else At(JsRem(idx.i + 1, n))
  }

  /** `(prev - 1 + n) % n`. */
  function StepPrev(idx: Index, n: nat): Index
  {
    if idx.NaN? || n == 0 then NaN else At(JsRem(idx.i - 1 + n, n))
  }

  /** `nextImage()` over the filtered list. */
  function Next(v: View, items: seq<Item>): View
  {
    v.(current := StepNext(v.current, |FilteredItems(items, v.selected)|))
  }

  /** `prevImage()` over the filtered list. */
  function Prev(v: View, items: seq<Item>): View
  {
    v.(current := StepPrev(v.current, |FilteredItems(items, v.selected)|))
  }

  /** `filteredItems[currentImage]?.…`: the photo shown, or undefined. */
  function Shown(v: View, items: seq<Item>): (r: Option<Item>)
    ensures r.Some? <==> InRange(v.current, |FilteredItems(items, v.selected)|)
    ensures r.Some? ==> r.value == FilteredItems(items, v.selected)[v.current.i]
  {
    var shown := FilteredItems(items, v.selected);
    if v.current.At? && 0 <= v.current.i < |shown| then Some(shown[v.current.i]) else None
  }

  predicate InRange(idx: Index, n: nat)
  {
    idx.At? && 0 <= idx.i < n
  }

  /** From any index at or above 0 both steps land inside [0, n): next moves
      to (i + 1) mod n and previous to (i - 1 + n) mod n. */
  lemma StepsStayInRange(i: int, n: nat)
    requires n > 0 && i >= 0
    ensures StepNext(At(i), n) == At((i + 1) % n) && InRange(StepNext(At(i), n), n)
    ensures StepPrev(At(i), n) == At((i - 1 + n) % n) && InRange(StepPrev(At(i), n), n)
  {
  }

  /** Next from the last photo wraps to the first, previous from the first
      wraps to the last. */
  lemma StepsWrap(n: nat)
    requires n > 0
    ensures StepNext(At(n - 1), n) == At(0)
    ensures StepPrev(At(0), n) == At(n - 1)
  {
    ModUnique(n, n, 1, 0);
    ModUnique(n - 1 + n, n, 1, n - 1);
  }

  /** Inside the list, previous undoes next and next undoes previous. */
  lemma StepsInverse(i: int, n: nat)
    requires 0 <= i < n
    ensures StepPrev(StepNext(At(i), n), n) == At(i)
    ensures StepNext(StepPrev(At(i), n), n) == At(i)
  {
    if i + 1 < n {
      SmallMod(i + 1, n);
      ModShift(i, n);
      SmallMod(i, n);
    } else {
      assert (i + 1) % n == 0;
      SmallMod(n - 1, n);
      ModShift(n - 1, n);
    }
    if i > 0 {
      ModShift(i - 1, n);
      SmallMod(i - 1, n);
      SmallMod(i, n);
    } else {
      ModShift(n - 1, n);
      SmallMod(n - 1, n);
      assert n % n == 0;
    }
  }

  lemma SmallMod(a: int, n: nat)
    requires 0 <= a < n
    ensures a % n == a
  {
  }

  lemma ModShift(a: int, n: nat)
    requires n > 0
    ensures (a + n) % n == a % n
  {
    ModUnique(a + n, n, a / n + 1, a % n);
  }

  /** Euclidean division leaves one remainder in [0, n). */
  lemma ModUnique(x: int, n: nat, q: int, r: int)
    requires n > 0 && x == q * n + r && 0 <= r < n
    ensures x % n == r
  {
    var d := x / n - q;
    assert d * n == r - x % n;
  }

  /** `k` presses of next. */
  function NextTimes(idx: Index, n: nat, k: nat): Index
  {
    if k == 0 then idx else StepNext(NextTimes(idx, n, k - 1), n)
  }

  /** Pressing next `k` times from i, for k up to the distance to the end,
      walks forward without wrapping. */
  lemma {:induction false} NextTimesForward(i: int, n: nat, k: nat)
    requires 0 <= i && i + k < n
    ensures NextTimes(At(i), n, k) == At(i + k)
  {
    if k > 0 {
      NextTimesForward(i, n, k - 1);
      SmallMod(i + k, n);
    }
  }

  lemma {:induction false} NextTimesAdd(idx: Index, n: nat, a: nat, b: nat)
    ensures NextTimes(idx, n, a + b) == NextTimes(NextTimes(idx, n, a), n, b)
    decreases b
  {
    if b > 0 {
      NextTimesAdd(idx, n, a, b - 1);
    }
  }

  /** Pressing next n times comes back to the starting photo. */
  lemma NextRoundTrip(i: int, n: nat)
    requires 0 <= i < n
    ensures NextTimes(At(i), n, n) == At(i)
  {
    NextTimesForward(i, n, n - 1 - i);
    assert StepNext(At(n - 1), n) == At(0) by { StepsWrap(n); }
    NextTimesAdd(At(i), n, n - 1 - i, 1);
    NextTimesForward(0, n, i);
    NextTimesAdd(At(i), n, n - i, i);
  }

  /** The category button keeps the index, so after switching to a shorter
      list the lightbox can point past its end and every read is undefined. */
  lemma StaleIndexAfterCategoryChange(v: View, items: seq<Item>, c: string)
    requires v.current.At? && v.current.i >= |FilteredItems(items, c)|
    ensures SelectCategory(v, c).current == v.current
    ensures Shown(SelectCategory(v, c), items).None?
  {
  }

  /** Opening the photo at position k of the grid shows exactly that photo. */
  lemma OpenShows(v: View, items: seq<Item>, k: nat)
    requires k < |FilteredItems(items, v.selected)|
    ensures Shown(Open(v, k), items) == Some(FilteredItems(items, v.selected)[k])
    ensures Open(Close(Open(v, k)), k) == Open(v, k)
  {
  }
}
