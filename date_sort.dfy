/**
 * Sorting the fetched posts newest first. The page calls `Array.prototype.sort`
 * with the comparator `(a, b) => new Date(b.posted_on) - new Date(a.posted_on)`;
 * since ECMAScript 2019 that sort is stable, so posts with equal dates keep
 * their fetch order. `SortByDate` is the specification, `SortInPlace` the
 * in-place sort, and `SortedByDateUnique` shows that any stable sort under that
 * comparator yields the same sequence, so the choice of algorithm is immaterial.
 */
module DateSort {
  import opened Posts
  import opened Seqs

  /** Non-increasing by `posted_on`: newer posts come first. */
  predicate SortedByDate(s: seq<Post>)
  {
    forall i, j :: 0 <= i < j < |s| ==> s[i].posted_on >= s[j].posted_on
  }

  /** The filter predicate "is dated `t`". */
  function IsDated(t: int): Post -> bool
  {
    (p: Post) => p.posted_on == t
  }

  /** The posts of `s` dated `t`, in their order in `s`. */
  function DatedAt(s: seq<Post>, t: int): seq<Post>
  {
    Filter(s, IsDated(t))
  }

  /**
   * Inserts `x` after every post of `s`, scanning from the end, that is not
   * older than `x`: the comparator returns a positive number only when the
   * later operand is strictly newer, so `x` never overtakes an equal date.
   */
  function InsertByDate(s: seq<Post>, x: Post): seq<Post>
    decreases |s|
  {
    if s == [] || s[|s| - 1].posted_on >= x.posted_on then s + [x]
    else InsertByDate(s[..|s| - 1], x) + [s[|s| - 1]]
  }

  /** The stable newest-first sort of `s`. */
  function SortByDate(s: seq<Post>): seq<Post>
    decreases |s|
  {
    if s == [] then [] else InsertByDate(SortByDate(s[..|s| - 1]), s[|s| - 1])
  }

  lemma {:induction false} InsertByDatePermutation(s: seq<Post>, x: Post)
    ensures multiset(InsertByDate(s, x)) == multiset(s) + multiset{x}
    decreases |s|
  {
    if s != [] && s[|s| - 1].posted_on < x.posted_on {
      var init := s[..|s| - 1];
      assert s == init + [s[|s| - 1]];
      InsertByDatePermutation(init, x);
    }
  }

  /** Every post of `s` and `x` itself is at least as new as `y`: so is every post of the insertion. */
  lemma InsertByDateBounded(s: seq<Post>, x: Post, y: Post)
    requires forall p :: p in s ==> p.posted_on >= y.posted_on
    requires x.posted_on >= y.posted_on
    ensures forall p :: p in InsertByDate(s, x) ==> p.posted_on >= y.posted_on
  {
  }

  lemma {:induction false} InsertByDateSorted(s: seq<Post>, x: Post)
    requires SortedByDate(s)
    ensures SortedByDate(InsertByDate(s, x))
    decreases |s|
  {
    var r := InsertByDate(s, x);
    if s == [] || s[|s| - 1].posted_on >= x.posted_on {
      forall i, j | 0 <= i < j < |r| ensures r[i].posted_on >= r[j].posted_on {
        if j == |s| {
          assert r[i] == s[i] && s[i].posted_on >= s[|s| - 1].posted_on;
        } else {
          assert r[i] == s[i] && r[j] == s[j];
        }
      }
    } else {
      var init, last := s[..|s| - 1], s[|s| - 1];
      var r0 := InsertByDate(init, x);
      assert SortedByDate(init) by {
        forall i, j | 0 <= i < j < |init| ensures init[i].posted_on >= init[j].posted_on {
          assert init[i] == s[i] && init[j] == s[j];
        }
      }
      InsertByDateSorted(init, x);
      assert forall p :: p in init ==> p.posted_on >= last.posted_on by {
        forall p | p in init ensures p.posted_on >= last.posted_on {
          var k :| 0 <= k < |init| && init[k] == p;
          assert s[k] == p;
        }
      }
      InsertByDateBounded(init, x, last);
      assert r == r0 + [last];
      forall i, j | 0 <= i < j < |r| ensures r[i].posted_on >= r[j].posted_on {
        if j == |r0| {
          assert r[i] == r0[i] && r0[i] in r0;
        } else {
          assert r[i] == r0[i] && r[j] == r0[j];
        }
      }
    }
  }

  lemma DatedAtSingleton(x: Post, t: int)
    ensures DatedAt([x], t) == if x.posted_on == t then [x] else []
  {
  }

  lemma {:induction false} InsertByDateStable(s: seq<Post>, x: Post, t: int)
    ensures DatedAt(InsertByDate(s, x), t) == DatedAt(s, t) + DatedAt([x], t)
    decreases |s|
  {
    if s == [] || s[|s| - 1].posted_on >= x.posted_on {
      FilterConcat(s, [x], IsDated(t));
    } else {
      var init, last := s[..|s| - 1], s[|s| - 1];
      assert s == init + [last];
      var r0 := InsertByDate(init, x);
      InsertByDateStable(init, x, t);
      FilterConcat(r0, [last], IsDated(t));
      FilterConcat(init, [last], IsDated(t));
      DatedAtSingleton(x, t);
      DatedAtSingleton(last, t);
      assert InsertByDate(s, x) == r0 + [last];
      var dx, dl := DatedAt([x], t), DatedAt([last], t);
      assert dx == [] || dl == [];
      calc {
        DatedAt(InsertByDate(s, x), t);
        DatedAt(r0, t) + dl;
        DatedAt(init, t) + dx + dl;
        { assert dx + dl == dl + dx; }
        DatedAt(init, t) + dl + dx;
        DatedAt(s, t) + dx;
      }
    }
  }

  /** The sort returns a newest-first permutation of its input. */
  lemma {:induction false} SortByDateSortedPermutation(s: seq<Post>)
    ensures SortedByDate(SortByDate(s))
    ensures multiset(SortByDate(s)) == multiset(s)
    decreases |s|
  {
    if s != [] {
      var init := s[..|s| - 1];
      assert s == init + [s[|s| - 1]];
      SortByDateSortedPermutation(init);
      InsertByDateSorted(SortByDate(init), s[|s| - 1]);
      InsertByDatePermutation(SortByDate(init), s[|s| - 1]);
    }
  }

  /** Stability: for every date, the posts with that date keep their fetch order. */
  lemma {:induction false} SortByDateStable(s: seq<Post>, t: int)
    ensures DatedAt(SortByDate(s), t) == DatedAt(s, t)
    decreases |s|
  {
    if s != [] {
      var init, last := s[..|s| - 1], s[|s| - 1];
      assert s == init + [last];
      SortByDateStable(init, t);
      InsertByDateStable(SortByDate(init), last, t);
      FilterConcat(init, [last], IsDated(t));
    }
  }

  /** A post of `s` is among the posts of `s` dated at its own date. */
  lemma DatedAtContains(s: seq<Post>, x: Post)
    requires x in s
    ensures x in DatedAt(s, x.posted_on)
  {
    FilterMultiplicity(s, IsDated(x.posted_on), x);
    assert x in multiset(DatedAt(s, x.posted_on));
  }

  /** Peeling the first post off a sequence before selecting a date. */
  lemma DatedAtCons(s: seq<Post>, t: int)
    requires s != []
    ensures DatedAt(s, t) == (if s[0].posted_on == t then [s[0]] else []) + DatedAt(s[1..], t)
  {
  }

  /** The newest date of a non-empty newest-first sequence is its first post's. */
  lemma {:induction false} FirstIsNewest(r: seq<Post>, y: Post)
    requires SortedByDate(r) && y in r
    ensures r[0].posted_on >= y.posted_on
  {
  }

  /** Newest-first sequences with the same posts at every date start alike. */
  lemma {:induction false} SortedStableSameHead(r1: seq<Post>, r2: seq<Post>)
    requires SortedByDate(r1) && SortedByDate(r2) && r1 != []
    requires forall t :: DatedAt(r1, t) == DatedAt(r2, t)
    ensures r2 != [] && r1[0] == r2[0]
  {
    DatedAtContains(r1, r1[0]);
    var m := r1[0].posted_on;
    assert r1[0] in DatedAt(r2, m);
    FilterMember(r2, IsDated(m), r1[0]);
    FirstIsNewest(r2, r1[0]);
    DatedAtContains(r2, r2[0]);
    assert r2[0] in DatedAt(r1, r2[0].posted_on);
    FilterMember(r1, IsDated(r2[0].posted_on), r2[0]);
    FirstIsNewest(r1, r2[0]);
    assert r2[0].posted_on == m;
    DatedAtCons(r1, m);
    DatedAtCons(r2, m);
    assert DatedAt(r1, m)[0] == r1[0] && DatedAt(r2, m)[0] == r2[0];
  }

  /**
   * Two newest-first sequences with the same posts in the same order at every
   * date are equal.
   */
  lemma {:induction false} SortedStableUnique(r1: seq<Post>, r2: seq<Post>)
    requires SortedByDate(r1) && SortedByDate(r2)
    requires forall t :: DatedAt(r1, t) == DatedAt(r2, t)
    ensures r1 == r2
    decreases |r1|
  {
    if r1 != [] {
      SortedStableSameHead(r1, r2);
      forall t ensures DatedAt(r1[1..], t) == DatedAt(r2[1..], t) {
        DatedAtCons(r1, t);
        DatedAtCons(r2, t);
        var h := if r1[0].posted_on == t then [r1[0]] else [];
        assert (h + DatedAt(r1[1..], t))[|h|..] == DatedAt(r1[1..], t);
        assert (h + DatedAt(r2[1..], t))[|h|..] == DatedAt(r2[1..], t);
      }
      SortedStableUnique(r1[1..], r2[1..]);
      assert r1 == [r1[0]] + r1[1..] && r2 == [r2[0]] + r2[1..];
    } else if r2 != [] {
      SortedStableSameHead(r2, r1);
    }
  }

  /**
   * Whatever stable newest-first sort the engine runs, its result is
   * `SortByDate(s)`.
   */
  lemma SortedByDateUnique(s: seq<Post>, r: seq<Post>)
    requires SortedByDate(r)
    requires forall t :: DatedAt(r, t) == DatedAt(s, t)
    ensures r == SortByDate(s)
  {
    SortByDateSortedPermutation(s);
    forall t ensures DatedAt(r, t) == DatedAt(SortByDate(s), t) {
      SortByDateStable(s, t);
    }
    SortedStableUnique(r, SortByDate(s));
  }

  /**
   * Where the insertion lands: right behind the last post that is not older
   * than `x` (or at the front), with only strictly older posts after it.
   */
  lemma {:induction false} InsertByDateAt(p: seq<Post>, j: nat, x: Post)
    requires j <= |p|
    requires j == 0 || p[j - 1].posted_on >= x.posted_on
    requires forall k :: j <= k < |p| ==> p[k].posted_on < x.posted_on
    ensures InsertByDate(p, x) == p[..j] + [x] + p[j..]
    decreases |p|
  {
    if j == |p| {
      assert p[..j] == p && p[j..] == [];
    } else {
      var init := p[..|p| - 1];
      assert init[..j] == p[..j];
      InsertByDateAt(init, j, x);
      assert p[j..] == init[j..] + [p[|p| - 1]];
    }
  }

  /**
   * One step of the in-place sort: moves `a[i]` left past the strictly older
   * posts of the prefix `a[..i]`.
   */
  method InsertInPlace(a: array<Post>, i: nat)
    requires i < a.Length
    modifies a
    ensures a[..i + 1] == InsertByDate(old(a[..i]), old(a[i]))
    ensures a[i + 1..] == old(a[i + 1..])
  {
    var x := a[i];
    ghost var prefix := a[..i];
    var j := i;
    while j > 0 && a[j - 1].posted_on < x.posted_on
      invariant 0 <= j <= i
      invariant forall k :: 0 <= k < j ==> a[k] == prefix[k]
      invariant forall k :: j < k <= i ==> a[k] == prefix[k - 1]
      invariant forall k :: i < k < a.Length ==> a[k] == old(a[k])
      invariant forall k :: j <= k < i ==> prefix[k].posted_on < x.posted_on
    {
      a[j] := a[j - 1];
      j := j - 1;
    }
    a[j] := x;
    InsertByDateAt(prefix, j, x);
    ghost var inserted := prefix[..j] + [x] + prefix[j..];
    forall k | 0 <= k <= i ensures a[k] == inserted[k] {
      if k < j {
        assert a[k] == prefix[k];
      } else if k > j {
        assert a[k] == prefix[k - 1];
      }
    }
    assert a[..i + 1] == inserted;
  }

  /** Sorts the fetched array in place (`allBlogs.sort(...)`), newest first. */
  method SortInPlace(a: array<Post>)
    modifies a
    ensures a[..] == SortByDate(old(a[..]))
  {
    var i := 0;
    while i < a.Length
      invariant 0 <= i <= a.Length
      invariant a[..i] == SortByDate(old(a[..])[..i])
      invariant a[i..] == old(a[..])[i..]
    {
      ghost var before := a[..];
      InsertInPlace(a, i);
      assert before[..i] == SortByDate(old(a[..])[..i]);
      assert old(a[..])[..i + 1][..i] == old(a[..])[..i];
      i := i + 1;
    }
    assert a[..] == a[..a.Length];
    assert old(a[..]) == old(a[..])[..a.Length];
  }
}
