/**
 * The category filter of the blog grid (`filteredBlogs`) and the post count
 * shown on each category button. Both are recomputed from `blogs` and never
 * change it.
 */
module CategoryView {
  import opened Posts
  import opened Seqs
  import opened DateSort

  /** The predicate `blog.category === selectedCategory`. */
  function InCategory(c: string): Post -> bool
  {
    (p: Post) => p.category == c
  }

  /** The predicate of a button's count: `name === 'All' || blog.category === name`. */
  function CountedFor(name: string): Post -> bool
  {
    (p: Post) => name == ALL || p.category == name
  }

  /**
   * The posts shown in the grid: all of `blogs` for `"All"`, otherwise the
   * posts of the selected category in their order in `blogs`.
   */
  function FilteredBlogs(blogs: seq<Post>, selected: string): (r: seq<Post>)
    ensures selected == ALL ==> r == blogs
    ensures forall i :: 0 <= i < |r| && selected != ALL ==> r[i].category == selected
    ensures IsSubsequence(r, blogs)
    ensures selected != ALL ==>
      forall p :: multiset(r)[p] == if p.category == selected then multiset(blogs)[p] else 0
  {
    if selected == ALL then
      FilterKeepsAll(blogs, (p: Post) => true);
      FilterIsSubsequence(blogs, (p: Post) => true);
      blogs
    else
      FilterIsSubsequence(blogs, InCategory(selected));
      FilterMultiplicities(blogs, InCategory(selected));
      Filter(blogs, InCategory(selected))
  }

  /**
   * The number in parentheses on the button for category `name`: the size of
   * the grid that clicking it shows, and every post for `"All"`.
   */
  function CategoryCount(blogs: seq<Post>, name: string): (n: nat)
    ensures n == |FilteredBlogs(blogs, name)|
    ensures name == ALL ==> n == |blogs|
  {
    if name == ALL then
      FilterKeepsAll(blogs, CountedFor(name));
      |Filter(blogs, CountedFor(name))|
    else
      FilterSameKeep(blogs, CountedFor(name), InCategory(name));
      |Filter(blogs, CountedFor(name))|
  }

  /** The counts of all the buttons, in button order. */
  function CategoryCounts(blogs: seq<Post>): (r: seq<nat>)
    ensures |r| == |CATEGORIES|
    ensures r[0] == |blogs|
    ensures forall i :: 0 <= i < |r| ==> r[i] == |FilteredBlogs(blogs, CATEGORIES[i].name)|
  {
    seq(|CATEGORIES|, i requires 0 <= i < |CATEGORIES| => CategoryCount(blogs, CATEGORIES[i].name))
  }

  /** Filtering a newest-first list keeps it newest first. */
  lemma {:induction false} FilteredBlogsSorted(blogs: seq<Post>, selected: string)
    requires SortedByDate(blogs)
    ensures SortedByDate(FilteredBlogs(blogs, selected))
  {
    if selected != ALL {
      FilterSorted(blogs, InCategory(selected));
    }
  }

  /** Any filter of a newest-first sequence is newest first. */
  lemma {:induction false} FilterSorted(s: seq<Post>, keep: Post -> bool)
    requires SortedByDate(s)
    ensures SortedByDate(Filter(s, keep))
    decreases |s|
  {
    if s != [] {
      var rest := Filter(s[1..], keep);
      assert SortedByDate(s[1..]) by {
        forall i, j | 0 <= i < j < |s[1..]| ensures s[1..][i].posted_on >= s[1..][j].posted_on {
          assert s[1..][i] == s[i + 1] && s[1..][j] == s[j + 1];
        }
      }
      FilterSorted(s[1..], keep);
      if keep(s[0]) {
        var r := [s[0]] + rest;
        assert Filter(s, keep) == r;
        forall i, j | 0 <= i < j < |r| ensures r[i].posted_on >= r[j].posted_on {
          if i == 0 {
            FilterMember(s[1..], keep, r[j]);
            var k :| 0 <= k < |s[1..]| && s[1..][k] == r[j];
            assert s[k + 1] == r[j];
          } else {
            assert r[i] == rest[i - 1] && r[j] == rest[j - 1];
          }
        }
      }
    }
  }
}
