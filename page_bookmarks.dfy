/**
 * The bookmarked pages of the document workspace: a set of page numbers kept
 * in insertion order (as a JavaScript `Set` iterates), toggled one page at a
 * time, listed in ascending order, and cleared.
 */
module PageBookmarks {
  import opened StableSort

  /** No page appears twice. */
  predicate NoDuplicates(s: seq<int>)
  {
    forall i, j :: 0 <= i < j < |s| ==> s[i] != s[j]
  }

  /** The list without `n`. */
  function Without(s: seq<int>, n: int): (r: seq<int>)
    ensures forall x :: x in r <==> x in s && x != n
    ensures NoDuplicates(s) ==> NoDuplicates(r)
    ensures n !in s ==> r == s
  {
    if |s| == 0 then []
    else
      var rest := Without(s[1..], n);
      assert forall x :: x in s <==> x == s[0] || x in s[1..];
      assert NoDuplicates(s) ==> s[0] !in s[1..] && NoDuplicates(s[1..]);
      if s[0] == n then rest
      else
        ConsNoDuplicates(s[0], rest);
        [s[0]] + rest
  }

  lemma ConsNoDuplicates(x: int, rest: seq<int>)
    ensures x !in rest && NoDuplicates(rest) ==> NoDuplicates([x] + rest)
  {
    if x !in rest && NoDuplicates(rest) {
      forall i, j | 0 <= i < j < |[x] + rest|
        ensures ([x] + rest)[i] != ([x] + rest)[j]
      {
        if i == 0 {
          assert ([x] + rest)[j] == rest[j - 1];
        }
      }
    }
  }

  /** `toggleBookmark` on the set: a copy with `n` deleted when it was there, added at the end otherwise. */
  function Toggled(pages: seq<int>, n: int): (r: seq<int>)
    ensures n in r <==> n !in pages
    ensures forall m :: m != n ==> (m in r <==> m in pages)
    ensures NoDuplicates(pages) ==> NoDuplicates(r)
  {
    if n in pages then Without(pages, n) else pages + [n]
  }

  /** Toggling the same page twice gives back the same set of pages. */
  lemma ToggleTwice(pages: seq<int>, n: int)
    ensures forall m :: m in Toggled(Toggled(pages, n), n) <==> m in pages
  {
  }

  /** Toggling a page that was not bookmarked and then toggling it again gives back the very same list. */
  lemma {:induction false} ToggleTwiceFromAbsent(pages: seq<int>, n: int)
    requires n !in pages
    ensures Toggled(Toggled(pages, n), n) == pages
  {
    WithoutLast(pages, n);
  }

  lemma {:induction false} WithoutLast(s: seq<int>, n: int)
    requires n !in s
    ensures Without(s + [n], n) == s
  {
    if |s| > 0 {
      assert (s + [n])[1..] == s[1..] + [n];
      WithoutLast(s[1..], n);
      assert [s[0]] + s[1..] == s;
    }
  }

  function PageValue(n: int): real { n as real }

  /** `[...bookmarks].sort((a, b) => a - b)`: the pages in strictly ascending order, each once. */
  function SortedPages(pages: seq<int>): (r: seq<int>)
    requires NoDuplicates(pages)
    ensures |r| == |pages| && multiset(r) == multiset(pages)
    ensures forall x :: x in r <==> x in pages
    ensures forall i, j :: 0 <= i < j < |r| ==> r[i] < r[j]
  {
    var r := SortBy(pages, PageValue);
    SortBySorted(pages, PageValue);
    assert forall x :: x in r <==> x in multiset(r);
    assert forall x :: x in pages <==> x in multiset(pages);
    NoDuplicatesOfPermutation(pages, r);
    StrictlySorted(r);
    r
  }

  lemma NoDuplicatesOfPermutation(a: seq<int>, b: seq<int>)
    requires NoDuplicates(a) && multiset(a) == multiset(b)
    ensures NoDuplicates(b)
  {
    forall i, j | 0 <= i < j < |b|
      ensures b[i] != b[j]
    {
      if b[i] == b[j] {
        TwoPositions(b, i, j);
        CountOfDistinct(a, b[i]);
        assert false;
      }
    }
  }

  lemma {:induction false} CountOfDistinct(a: seq<int>, x: int)
    requires NoDuplicates(a) && x in multiset(a)
    ensures multiset(a)[x] == 1
  {
    assert a == [a[0]] + a[1..];
    assert multiset(a) == multiset{a[0]} + multiset(a[1..]);
    if a[0] == x {
      assert x !in a[1..];
      assert multiset(a[1..])[x] == 0;
    } else {
      CountOfDistinct(a[1..], x);
    }
  }

  lemma {:induction false} TwoPositions(b: seq<int>, i: int, j: int)
    requires 0 <= i < j < |b| && b[i] == b[j]
    ensures multiset(b)[b[i]] >= 2
  {
    if i == 0 {
      assert b == [b[0]] + b[1..];
      assert b[j] == b[1..][j - 1];
      assert b[1..][j - 1] in multiset(b[1..]);
    } else {
      assert b == [b[0]] + b[1..];
      TwoPositions(b[1..], i - 1, j - 1);
    }
  }

  lemma StrictlySorted(r: seq<int>)
    requires SortedBy(r, PageValue) && NoDuplicates(r)
    ensures forall i, j :: 0 <= i < j < |r| ==> r[i] < r[j]
  {
  }

  /** The `useBookmarks` hook's state. */
  class BookmarkSet {
    var pages: seq<int>

    ghost predicate Valid()
      reads this
    {
      NoDuplicates(pages)
    }

    /** The hook starts with no bookmark (the saved set is loaded by the browser's storage, not modelled). */
    constructor ()
      ensures Valid() && pages == []
    {
      pages := [];
    }

    /** `toggleBookmark`. */
    method Toggle(n: int)
      requires Valid()
      modifies this
      ensures Valid()
      ensures pages == Toggled(old(pages), n)
      ensures n in pages <==> n !in old(pages)
      ensures forall m :: m != n ==> (m in pages <==> m in old(pages))
      ensures IsBookmarked(n) == !old(IsBookmarked(n))
      ensures forall m :: m != n ==> IsBookmarked(m) == old(IsBookmarked(m))
    {
      pages := Toggled(pages, n);
    }

    /** `isBookmarked`. */
    function IsBookmarked(n: int): (b: bool)
      reads this
      ensures b <==> n in pages
    {
      n in pages
    }

    /** `getSortedBookmarks`. */
    function Sorted(): (r: seq<int>)
      reads this
      requires Valid()
      ensures forall x :: x in r <==> IsBookmarked(x)
      ensures |r| == |pages| && forall i, j :: 0 <= i < j < |r| ==> r[i] < r[j]
    {
      SortedPages(pages)
    }

    /** `clearBookmarks`. */
    method Clear()
      modifies this
      ensures Valid() && pages == []
      ensures forall n :: !IsBookmarked(n)
    {
      pages := [];
    }
  }
}
