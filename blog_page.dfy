/**
 * The state of the `Blog` page component: the sorted posts, the one-post
 * "recent" list, and the selected category. `FetchBlogs` is the mount effect,
 * `SelectCategory` a category button's click handler; the grid and the button
 * counts are read from the state and never change it.
 */
module BlogPage {
  import opened Wrappers
  import opened Posts
  import opened Seqs
  import opened DateSort
  import opened CategoryView

  /**
   * What awaiting the GET of `/api/blogs?populate=*` gives the page: the array
   * `response.data.data`, or a thrown error (which is only logged).
   */
  datatype FetchResponse = Fetched(data: array<Post>) | FetchFailed

  /** `s.slice(0, n)`: the first `n` elements, or all of `s` when it is shorter. */
  function Take(s: seq<Post>, n: nat): (r: seq<Post>)
    ensures |r| == if n <= |s| then n else |s|
    ensures forall i :: 0 <= i < |r| ==> r[i] == s[i]
  {
    if n <= |s| then s[..n] else s
  }

  /**
   * The featured post is the newest fetched post, and among posts of that
   * date the one fetched first.
   */
  lemma {:induction false} RecentIsNewest(fetched: seq<Post>)
    ensures |Take(SortByDate(fetched), 1)| == if fetched == [] then 0 else 1
    ensures fetched != [] ==>
      var top := Take(SortByDate(fetched), 1)[0];
      top in fetched &&
      (forall p :: p in fetched ==> top.posted_on >= p.posted_on) &&
      DatedAt(fetched, top.posted_on) != [] &&
      top == DatedAt(fetched, top.posted_on)[0]
  {
    var sorted := SortByDate(fetched);
    SortByDateSortedPermutation(fetched);
    if fetched != [] {
      assert sorted != [] by {
        assert |multiset(sorted)| == |multiset(fetched)|;
      }
      var top := sorted[0];
      assert top in multiset(fetched) by {
        assert top in multiset(sorted);
      }
      forall p | p in fetched ensures top.posted_on >= p.posted_on {
        assert p in multiset(sorted);
        FirstIsNewest(sorted, p);
      }
      DatedAtCons(sorted, top.posted_on);
      SortByDateStable(fetched, top.posted_on);
    }
  }

  class Page {
    var blogs: seq<Post>
    var recentBlogs: seq<Post>
    var selectedCategory: string

    /** `blogs` is newest first and `recentBlogs` is its first post, if any. */
    predicate Valid()
      reads this
    {
      SortedByDate(blogs) && recentBlogs == Take(blogs, 1)
    }

    /** The initial state: `useState([])`, `useState('All')`, `useState([])`. */
    constructor ()
      ensures Valid()
      ensures blogs == [] && recentBlogs == [] && selectedCategory == ALL
    {
      blogs := [];
      recentBlogs := [];
      selectedCategory := ALL;
    }

    /**
     * The mount effect `fetchBlogs`. On success the fetched array is sorted in
     * place and then becomes `blogs`, with its first post as `recentBlogs`. On
     * failure nothing changes and nothing is retried.
     */
    method FetchBlogs(response: FetchResponse)
      requires Valid()
      modifies this, if response.Fetched? then {response.data} else {}
      ensures Valid()
      ensures selectedCategory == old(selectedCategory)
      ensures response.Fetched? ==>
        blogs == SortByDate(old(response.data[..])) &&
        response.data[..] == blogs &&
        recentBlogs == Take(blogs, 1)
      ensures response.FetchFailed? ==>
        blogs == old(blogs) && recentBlogs == old(recentBlogs)
    {
      match response
      case Fetched(allBlogs) =>
        SortInPlace(allBlogs);
        SortByDateSortedPermutation(old(allBlogs[..]));
        recentBlogs := Take(allBlogs[..], 1);
        blogs := allBlogs[..];
      case FetchFailed =>
    }

    /** A category button's click handler, `setSelectedCategory(name)`. */
    method SelectCategory(name: string)
      requires Valid()
      modifies this
      ensures Valid()
      ensures selectedCategory == name
      ensures blogs == old(blogs) && recentBlogs == old(recentBlogs)
    {
      selectedCategory := name;
    }

    /** The posts the grid shows for the current selection. */
    function FilteredView(): (r: seq<Post>)
      reads this
      requires Valid()
      ensures SortedByDate(r)
      ensures IsSubsequence(r, blogs)
      ensures selectedCategory == ALL ==> r == blogs
      ensures forall i :: 0 <= i < |r| && selectedCategory != ALL ==> r[i].category == selectedCategory
      ensures selectedCategory != ALL ==>
        forall p :: multiset(r)[p] == if p.category == selectedCategory then multiset(blogs)[p] else 0
    {
      FilteredBlogsSorted(blogs, selectedCategory);
      FilteredBlogs(blogs, selectedCategory)
    }

    /** The count on the button `name`: the size of the grid it selects. */
    function ButtonCount(name: string): (n: nat)
      reads this
      ensures n == |FilteredBlogs(blogs, name)|
      ensures name == ALL ==> n == |blogs|
    {
      CategoryCount(blogs, name)
    }
  }

  /** Two posts fetched oldest first come out newest first. */
  lemma SortTwo(older: Post, newer: Post)
    requires older.posted_on < newer.posted_on
    ensures SortByDate([older, newer]) == [newer, older]
  {
    var s := [older, newer];
    assert s[..1] == [older] && s[..1][..0] == [];
    assert SortByDate(s[..1]) == [older];
    assert InsertByDate([older], newer) == InsertByDate([], newer) + [older];
  }

  /**
   * Two posts dated 2024-01-05 ("AI") and 2024-03-01 ("Web3"): after loading,
   * the "AI" grid holds the first and the featured list the second.
   */
  method LoadThenFilterExample()
  {
    var older := Post(1, "First", "AI", 1704412800000, None, None);
    var newer := Post(2, "Second", "Web3", 1709251200000, None, None);
    var fetched := new Post[2][older, newer];
    assert fetched[..] == [older, newer];
    SortTwo(older, newer);
    var page := new Page();
    page.FetchBlogs(Fetched(fetched));
    assert page.blogs == [newer, older];
    assert page.recentBlogs == [newer];
    page.SelectCategory("AI");
    assert Filter([older], InCategory("AI")) == [older];
    assert page.FilteredView() == [older];
  }
}
