/** The blog page (src/pages/Blog.jsx): search and category filters over the
    fixture posts, the featured post, and the grid of the other posts. */
module Blog {
  import opened JsValues
  import opened Text
  import opened Seqs

  datatype Post = Post(id: nat, title: string, excerpt: string, category: string, featured: bool)

  const CategoryIds: seq<string> := ["all", "guides", "tips", "destinations", "culture", "food", "adventure"]

  /** The six fixture posts (authors, dates, images and tags left out). */
  const Posts: seq<Post> := [
    Post(1, "Ultimate Guide to Backpacking Through Southeast Asia",
         "Everything you need to know for an epic backpacking adventure through Thailand, Vietnam, Cambodia, and Laos. From budget tips to must-see destinations.",
         "guides", true),
    Post(2, "10 Hidden Gems in Iceland You Must Visit",
         "Discover Iceland's secret spots beyond the typical tourist trail. From hidden waterfalls to secluded hot springs.",
         "destinations", false),
    Post(3, "How to Pack Light for a 2-Week European Trip",
         "Master the art of packing light with our comprehensive guide. Essential items, packing tips, and what to leave behind.",
         "tips", false),
    Post(4, "Street Food Adventures in Bangkok",
         "A foodie's guide to Bangkok's incredible street food scene. From pad thai to mango sticky rice, discover the best local eats.",
         "food", false),
    Post(5, "Cultural Etiquette: Do's and Don'ts in Japan",
         "Navigate Japanese culture with confidence. Essential etiquette tips for temples, restaurants, and everyday interactions.",
         "culture", false),
    Post(6, "Adventure Photography: Capturing Epic Travel Moments",
         "Learn the techniques and gear needed to capture stunning travel photography. From landscape shots to action moments.",
         "adventure", false)
  ]

  /** The lower-cased term occurs in the lower-cased title or excerpt. */
  predicate MatchesSearch(term: string, p: Post)
  {
    FoundIgnoringCase(p.title, term) || FoundIgnoringCase(p.excerpt, term)
  }

  predicate MatchesCategory(selected: string, p: Post)
  {
    selected == "all" || p.category == selected
  }

  predicate Matches(term: string, selected: string, p: Post)
  {
    MatchesSearch(term, p) && MatchesCategory(selected, p)
  }

  /** `filteredPosts`. */
  function FilteredPosts(posts: seq<Post>, term: string, selected: string): (r: seq<Post>)
    ensures |r| <= |posts|
    ensures forall p :: p in r <==> p in posts && Matches(term, selected, p)
  {
    Filter(posts, p => Matches(term, selected, p))
  }

  /** `featuredPost`: the first featured post of the whole list. */
  function FeaturedPost(posts: seq<Post>): (r: Option<Post>)
    ensures r.None? <==> forall i :: 0 <= i < |posts| ==> !posts[i].featured
    ensures r.Some? ==> exists k :: 0 <= k < |posts| && posts[k] == r.value && posts[k].featured
                          && forall i :: 0 <= i < k ==> !posts[i].featured
  {
    Find(posts, (p: Post) => p.featured)
  }

  /** `regularPosts`: the filtered posts that are not featured. */
  function RegularPosts(posts: seq<Post>, term: string, selected: string): (r: seq<Post>)
    ensures forall p :: p in r <==> p in posts && Matches(term, selected, p) && !p.featured
  {
    Filter(FilteredPosts(posts, term, selected), (p: Post) => !p.featured)
  }

  /** The guard of the featured section. */
  predicate ShowsFeatured(posts: seq<Post>, term: string, selected: string)
  {
    FeaturedPost(posts).Some? && selected == "all" && term == ""
  }

  /** What the page renders below the filters. */
  datatype Listing = Listing(featured: Option<Post>, grid: seq<Post>, count: nat, emptyState: bool)

  function Page(posts: seq<Post>, term: string, selected: string): (l: Listing)
    ensures l.count == |l.grid| && (l.emptyState <==> l.grid == [])
  {
    var grid := RegularPosts(posts, term, selected);
    Listing(if ShowsFeatured(posts, term, selected) then FeaturedPost(posts) else None,
            grid, |grid|, |grid| == 0)
  }

  /** The empty term matches every post. */
  lemma EmptySearchMatchesAll(p: Post)
    ensures MatchesSearch("", p)
  {
    FoundIgnoringCaseSpec(p.title, "");
  }

  /** Matching ignores ASCII case on both sides. */
  lemma SearchIgnoresCase(term: string, p: Post)
    ensures MatchesSearch(Lower(term), p) <==> MatchesSearch(term, p)
  {
    FoundIgnoringCaseSpec(p.title, term);
    FoundIgnoringCaseSpec(p.excerpt, term);
  }

  /** The filtered posts keep their order and hold each matching post as
      often as the list does. */
  lemma FilteredPostsSpec(posts: seq<Post>, term: string, selected: string, p: Post)
    ensures IsSubsequence(FilteredPosts(posts, term, selected), posts)
    ensures multiset(FilteredPosts(posts, term, selected))[p]
            == if Matches(term, selected, p) then multiset(posts)[p] else 0
  {
    FilterIsSubsequence(posts, q => Matches(term, selected, q));
    FilterMultiplicity(posts, q => Matches(term, selected, q), p);
  }

  /** The grid is the filtered list without its featured posts, in order:
      each matching post that is not featured, as often as the list holds it. */
  lemma RegularPostsSpec(posts: seq<Post>, term: string, selected: string, p: Post)
    ensures IsSubsequence(RegularPosts(posts, term, selected), FilteredPosts(posts, term, selected))
    ensures multiset(RegularPosts(posts, term, selected))[p]
            == if Matches(term, selected, p) && !p.featured then multiset(posts)[p] else 0
  {
    var filtered := FilteredPosts(posts, term, selected);
    FilterIsSubsequence(filtered, (q: Post) => !q.featured);
    FilterMultiplicity(filtered, (q: Post) => !q.featured, p);
    FilteredPostsSpec(posts, term, selected, p);
  }

  /** With no search and every category, the page shows every post: the
      featured one on top and the others in the grid. */
  lemma UnfilteredShowsEverything(posts: seq<Post>, p: Post)
    requires p in posts
    requires forall q :: q in posts && q.featured ==> q == FeaturedPost(posts).value
    ensures var l := Page(posts, "", "all");
            (p.featured ==> l.featured == Some(p)) && (!p.featured ==> p in l.grid)
  {
    EmptySearchMatchesAll(p);
  }

  /* ---------- the featured post is unreachable through the filters ---------- */

  /** As written: once a search term is typed or a category chosen, a
      featured post is shown nowhere, neither in the featured section nor in
      the grid, even when it matches. */
  lemma FeaturedHiddenWhenFiltering(posts: seq<Post>, term: string, selected: string, p: Post)
    requires p in posts && p.featured && Matches(term, selected, p)
    requires term != "" || selected != "all"
    ensures Page(posts, term, selected).featured.None?
    ensures p !in Page(posts, term, selected).grid
  {
  }

  /** As written: a category whose posts are all featured shows "0 articles
      found" and the empty state, whatever the search term. */
  lemma FeaturedOnlyCategoryShowsNothing(posts: seq<Post>, term: string, selected: string)
    requires selected != "all"
    requires forall p :: p in posts && p.category == selected ==> p.featured
    ensures Page(posts, term, selected) == Listing(None, [], 0, true)
  {
    var filtered := FilteredPosts(posts, term, selected);
    FilterEmpty(filtered, (q: Post) => !q.featured);
  }

  /** As written, on the fixture: the "guides" category holds only the
      featured guide, so the page reports 0 articles and the empty state,
      although that guide matches the empty search (`GuideMatchesEmptySearch`). */
  lemma GuidesCategoryShowsNothing()
    ensures Page(Posts, "", "guides") == Listing(None, [], 0, true)
  {
    OnlyFirstIsGuide();
    FeaturedOnlyCategoryShowsNothing(Posts, "", "guides");
  }

  /** The fixture's first post is a guide and matches the empty search. */
  lemma GuideMatchesEmptySearch()
    ensures Posts[0].category == "guides" && MatchesSearch("", Posts[0])
  {
    EmptySearchMatchesAll(Posts[0]);
  }

  /** The only fixture guide is the featured one. */
  lemma OnlyFirstIsGuide()
    ensures forall p :: p in Posts && p.category == "guides" ==> p.featured
  {
    forall p | p in Posts && p.category == "guides"
      ensures p.featured
    {
      var i :| 0 <= i < |Posts| && Posts[i] == p;
    }
  }

  /** Corrected: the grid drops the featured post only while the featured
      section shows it. */
  function CorrectedGrid(posts: seq<Post>, term: string, selected: string): seq<Post>
  {
    var filtered := FilteredPosts(posts, term, selected);
    if ShowsFeatured(posts, term, selected) then Filter(filtered, p => p != FeaturedPost(posts).value)
    else filtered
  }

  function CorrectedPage(posts: seq<Post>, term: string, selected: string): (l: Listing)
    ensures l.count == |l.grid| && (l.emptyState <==> l.grid == [])
  {
    var grid := CorrectedGrid(posts, term, selected);
    Listing(if ShowsFeatured(posts, term, selected) then FeaturedPost(posts) else None,
            grid, |grid|, |grid| == 0)
  }

  /** Corrected: every post that matches the filters is shown exactly once,
      in the featured section or in the grid, and nothing else is shown. */
  lemma CorrectedShowsEachMatchOnce(posts: seq<Post>, term: string, selected: string, p: Post)
    ensures var l := CorrectedPage(posts, term, selected);
            (p in posts && Matches(term, selected, p)) <==> (l.featured == Some(p) || p in l.grid)
    ensures var l := CorrectedPage(posts, term, selected);
            !(l.featured == Some(p) && p in l.grid)
  {
    var l := CorrectedPage(posts, term, selected);
    if l.featured == Some(p) {
      assert ShowsFeatured(posts, term, selected);
      var k :| 0 <= k < |posts| && posts[k] == p && posts[k].featured
               && forall i :: 0 <= i < k ==> !posts[i].featured;
      EmptySearchMatchesAll(p);
      assert p in posts && Matches(term, selected, p);
    }
  }
}
