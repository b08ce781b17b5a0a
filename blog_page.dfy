/**
 * The blog list page: it loads the posts once, keeps a search term and a selected category,
 * and shows the posts that pass both filters, a spinner while loading, and a notice when
 * nothing passes.
 */
module BlogPage {
  import opened Text
  import opened Seqs
  import opened BlogService

  /** The category that applies no category filter. */
  const ALL_CATEGORIES: string := "Todos"

  /**
   * The text filter: an empty term keeps every post; otherwise the lower-cased title or
   * excerpt must contain the lower-cased term.
   */
  predicate MatchesSearch(post: BlogPost, term: string) {
    term == ""
    || Contains(ToLower(post.title), ToLower(term))
    || Contains(ToLower(post.excerpt), ToLower(term))
  }

  /** The category filter: "Todos" keeps every post; otherwise the category must be equal. */
  predicate MatchesCategory(post: BlogPost, category: string) {
    category == ALL_CATEGORIES || post.category == category
  }

  /** The post is of exactly that category. */
  predicate InCategory(post: BlogPost, category: string) {
    post.category == category
  }

  /** The filter effect: first the text filter when the term is non-empty, then the category filter. */
  function Filtered(posts: seq<BlogPost>, term: string, category: string): seq<BlogPost> {
    var bySearch := if term != "" then Filter(posts, p => MatchesSearch(p, term)) else posts;
    if category != ALL_CATEGORIES then Filter(bySearch, p => InCategory(p, category)) else bySearch
  }

  /** The filtered list is the posts passing both filters, in their original order. */
  lemma FilteredIsIntersection(posts: seq<BlogPost>, term: string, category: string)
    ensures Filtered(posts, term, category)
            == Filter(posts, p => MatchesSearch(p, term) && MatchesCategory(p, category))
  {
    var both := (p: BlogPost) => MatchesSearch(p, term) && MatchesCategory(p, category);
    if term != "" && category != ALL_CATEGORIES {
      FilterFilter(posts, p => MatchesSearch(p, term), p => InCategory(p, category), both);
    } else if term != "" {
      FilterFilter(posts, p => MatchesSearch(p, term), p => true, both);
      FilterKeepsAll(Filter(posts, p => MatchesSearch(p, term)), p => true);
    } else if category != ALL_CATEGORIES {
      FilterFilter(posts, p => true, p => InCategory(p, category), both);
      FilterKeepsAll(posts, p => true);
    } else {
      FilterKeepsAll(posts, both);
    }
  }

  /** A post is shown exactly when it is one of the posts and passes both filters. */
  lemma FilteredMembership(posts: seq<BlogPost>, term: string, category: string, post: BlogPost)
    ensures post in Filtered(posts, term, category)
            <==> post in posts && MatchesSearch(post, term) && MatchesCategory(post, category)
  {
    FilteredIsIntersection(posts, term, category);
    FilterMembership(posts, p => MatchesSearch(p, term) && MatchesCategory(p, category), post);
  }

  /** The filtered list keeps the posts' original order. */
  lemma FilteredIsSubseq(posts: seq<BlogPost>, term: string, category: string)
    ensures IsSubseq(Filtered(posts, term, category), posts)
  {
    FilteredIsIntersection(posts, term, category);
    FilterIsSubseq(posts, p => MatchesSearch(p, term) && MatchesCategory(p, category));
  }

  /** With no term and "Todos" nothing is filtered out. */
  lemma UnfilteredIsAll(posts: seq<BlogPost>)
    ensures Filtered(posts, "", ALL_CATEGORIES) == posts
  {
  }

  /** With no term, a selected category keeps exactly the posts of that category. */
  lemma CategoryOnly(posts: seq<BlogPost>, category: string)
    requires category != ALL_CATEGORIES
    ensures Filtered(posts, "", category) == Filter(posts, p => InCategory(p, category))
  {
  }

  /** A post mentioning the term in its title, in any case, is shown under "Todos". */
  lemma TitleMatchShown(posts: seq<BlogPost>, post: BlogPost, term: string)
    requires post in posts
    requires Contains(ToLower(post.title), ToLower(term))
    ensures post in Filtered(posts, term, ALL_CATEGORIES)
  {
    FilteredMembership(posts, term, ALL_CATEGORIES, post);
  }

  /** The category buttons: "Todos" first, then each post category once, in first-occurrence order. */
  function Categories(posts: seq<BlogPost>): (r: seq<string>)
    ensures |r| >= 1 && r[0] == ALL_CATEGORIES
  {
    [ALL_CATEGORIES] + Dedup(Map((p: BlogPost) => p.category, posts))
  }

  /**
   * After "Todos", every category of a post appears once and nothing else does, in the order
   * of first occurrence.
   */
  lemma CategoriesProperties(posts: seq<BlogPost>)
    ensures NoDuplicates(Categories(posts)[1..])
    ensures forall c :: c in Categories(posts)[1..] <==> exists k :: 0 <= k < |posts| && posts[k].category == c
    ensures Categories(posts)[1..] == FirstOccurrences(Map((p: BlogPost) => p.category, posts))
  {
    var cats := Map((p: BlogPost) => p.category, posts);
    assert Categories(posts)[1..] == Dedup(cats);
    DedupProperties(cats);
    DedupIsFirstOccurrences(cats);
    forall c
      ensures c in cats <==> exists k :: 0 <= k < |posts| && posts[k].category == c
    {
      if c in cats {
        var k :| 0 <= k < |cats| && cats[k] == c;
        assert posts[k].category == c;
      }
    }
  }

  /** A post whose category is itself "Todos" makes "Todos" appear twice. */
  lemma CategoriesRepeatAll(posts: seq<BlogPost>, k: nat)
    requires k < |posts| && posts[k].category == ALL_CATEGORIES
    ensures ALL_CATEGORIES in Categories(posts)[1..]
  {
    CategoriesProperties(posts);
  }

  /** What the list section shows. */
  datatype ListView = ListView(spinner: bool, cards: seq<BlogPost>, noResultsNotice: bool)

  /** The spinner while loading, otherwise one card per filtered post; the notice when nothing passes. */
  function ViewOf(loading: bool, filtered: seq<BlogPost>): (v: ListView)
    ensures v.spinner == loading
    ensures v.noResultsNotice <==> !loading && |filtered| == 0
    ensures !loading ==> v.cards == filtered
    ensures loading ==> v.cards == []
  {
    ListView(loading, if loading then [] else filtered, !loading && |filtered| == 0)
  }

  /** Right after loading the blog's posts with the initial filters, at least one card is shown. */
  lemma LoadedShowsPosts(fetched: Wrappers.Option<string>, parse: string -> Wrappers.Option<seq<BlogPost>>)
    ensures ViewOf(false, Filtered(GetPosts(fetched, parse), "", ALL_CATEGORIES)).cards != []
    ensures !ViewOf(false, Filtered(GetPosts(fetched, parse), "", ALL_CATEGORIES)).noResultsNotice
  {
    UnfilteredIsAll(GetPosts(fetched, parse));
  }

  /** The page's state. */
  class BlogList {
    var posts: seq<BlogPost>
    var filteredPosts: seq<BlogPost>
    var loading: bool
    var searchTerm: string
    var selectedCategory: string

    /** Nothing loaded yet, no search term, "Todos" selected. */
    constructor()
      ensures posts == [] && filteredPosts == [] && loading
      ensures searchTerm == "" && selectedCategory == ALL_CATEGORIES
    {
      posts := [];
      filteredPosts := [];
      loading := true;
      searchTerm := "";
      selectedCategory := ALL_CATEGORIES;
    }

    /** What the list section currently shows. */
    function View(): ListView
      reads this
    {
      ViewOf(loading, filteredPosts)
    }

    /** The filter effect, run whenever the posts, the term or the category change. */
    method ApplyFilters()
      modifies this
      ensures filteredPosts == Filtered(posts, searchTerm, selectedCategory)
      ensures posts == old(posts) && loading == old(loading)
      ensures searchTerm == old(searchTerm) && selectedCategory == old(selectedCategory)
    {
      var term, category := searchTerm, selectedCategory;
      var result := posts;
      if term != "" {
        result := Filter(result, p => MatchesSearch(p, term));
      }
      if category != ALL_CATEGORIES {
        result := Filter(result, p => InCategory(p, category));
      }
      filteredPosts := result;
    }

    /**
     * The load effect: the fetched posts become the posts and the shown posts, loading ends,
     * and then the filter effect runs because the posts changed.
     */
    method LoadPosts(data: seq<BlogPost>)
      modifies this
      ensures posts == data && !loading
      ensures filteredPosts == Filtered(data, searchTerm, selectedCategory)
      ensures searchTerm == old(searchTerm) && selectedCategory == old(selectedCategory)
    {
      posts := data;
      filteredPosts := data;
      loading := false;
      ApplyFilters();
    }

    /** Typing in the search box. */
    method SetSearchTerm(term: string)
      modifies this
      ensures searchTerm == term && selectedCategory == old(selectedCategory)
      ensures posts == old(posts) && loading == old(loading)
      ensures filteredPosts == Filtered(posts, term, selectedCategory)
    {
      searchTerm := term;
      ApplyFilters();
    }

    /** Clicking a category button. */
    method SelectCategory(category: string)
      modifies this
      ensures selectedCategory == category && searchTerm == old(searchTerm)
      ensures posts == old(posts) && loading == old(loading)
      ensures filteredPosts == Filtered(posts, searchTerm, category)
    {
      selectedCategory := category;
      ApplyFilters();
    }
  }

  /** Opening the page and loading the blog's posts shows them all, with no notice. */
  method OpenPage(fetched: Wrappers.Option<string>, parse: string -> Wrappers.Option<seq<BlogPost>>)
    returns (page: BlogList)
    ensures page.posts == GetPosts(fetched, parse) && page.filteredPosts == page.posts
    ensures !page.loading && !page.View().noResultsNotice
  {
    page := new BlogList();
    page.LoadPosts(GetPosts(fetched, parse));
    UnfilteredIsAll(page.posts);
  }
}
