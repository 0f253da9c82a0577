/**
 * Pagination of the partner users list.
 *
 * The list shows eight users per page. Page `p` shows the users from index
 * `(p - 1) * 8` up to index `p * 8` (exclusive), the number of pages is the
 * number of users divided by eight and rounded up, Previous and Next move the
 * current page by one within `[1, totalPages]`, and a row of page buttons
 * with ellipses lets the reader jump to a page.
 */
module UserPagination {

  const UsersPerPage: nat := 8

  function Min(a: int, b: int): int { if a <= b then a else b }

  function Max(a: int, b: int): int { if a >= b then a else b }

  // ---------------------------------------------------------------------------
  // Page contents
  // ---------------------------------------------------------------------------

  /** `Math.ceil(n / usersPerPage)`: the fewest pages that hold `n` users. */
  function TotalPages(n: nat): (pages: nat)
    ensures pages * UsersPerPage >= n
    ensures pages > 0 ==> (pages - 1) * UsersPerPage < n
    ensures pages == 0 <==> n == 0
  {
    (n + UsersPerPage - 1) / UsersPerPage
  }

  /**
   * How `Array.prototype.slice` reads one of its bounds against a list of
   * length `len`: a negative bound counts from the end, and the result is
   * clamped to `[0, len]`.
   */
  function ClampIndex(i: int, len: nat): (k: nat)
    ensures k <= len
    ensures 0 <= i ==> k == Min(i, len)
  {
    if i < 0 then Max(len + i, 0) else Min(i, len)
  }

  /** `s.slice(start, end)`. */
  function Slice<T>(s: seq<T>, start: int, end: int): (r: seq<T>)
    ensures 0 <= start <= end ==> r == s[Min(start, |s|)..Min(end, |s|)]
  {
    var from := ClampIndex(start, |s|);
    var to := ClampIndex(end, |s|);
    if from < to then s[from..to] else []
  }

  /** `currentUsers`: the users shown on page `currentPage`. */
  function CurrentUsers<U>(users: seq<U>, currentPage: int): seq<U>
  {
    var indexOfLastUser := currentPage * UsersPerPage;
    var indexOfFirstUser := indexOfLastUser - UsersPerPage;
    Slice(users, indexOfFirstUser, indexOfLastUser)
  }

  /**
   * Page `p` shows at most eight users: those at positions `(p - 1) * 8` up to
   * `p * 8` of the list, in list order.
   */
  lemma PageContents<U>(users: seq<U>, p: int)
    requires p >= 1
    ensures CurrentUsers(users, p) == users[Min((p - 1) * UsersPerPage, |users|)..Min(p * UsersPerPage, |users|)]
    ensures |CurrentUsers(users, p)| <= UsersPerPage
    ensures forall k :: 0 <= k < |CurrentUsers(users, p)| ==>
      CurrentUsers(users, p)[k] == users[(p - 1) * UsersPerPage + k]
  {
  }

  /** Every page from 1 to `totalPages` is non-empty, and all but the last are full. */
  lemma PagesInRangeAreNonEmpty<U>(users: seq<U>, p: int)
    requires 1 <= p <= TotalPages(|users|)
    ensures |CurrentUsers(users, p)| > 0
    ensures p < TotalPages(|users|) ==> |CurrentUsers(users, p)| == UsersPerPage
  {
    PageContents(users, p);
  }

  /** Pages 1 to `k`, one after the other. */
  function PagesThrough<U>(users: seq<U>, k: nat): seq<U>
  {
    if k == 0 then [] else PagesThrough(users, k - 1) + CurrentUsers(users, k)
  }

  /** The first `k` pages hold the first `k * 8` users, in order. */
  lemma {:induction false} PagesThroughIsPrefix<U>(users: seq<U>, k: nat)
    ensures PagesThrough(users, k) == users[..Min(k * UsersPerPage, |users|)]
  {
    if k > 0 {
      PagesThroughIsPrefix(users, k - 1);
      PageContents(users, k);
      var a := Min((k - 1) * UsersPerPage, |users|);
      var b := Min(k * UsersPerPage, |users|);
      assert users[..a] + users[a..b] == users[..b];
    }
  }

  /** Pages 1 to `totalPages`, together, are the whole user list. */
  lemma AllPagesCoverUsers<U>(users: seq<U>)
    ensures PagesThrough(users, TotalPages(|users|)) == users
  {
    PagesThroughIsPrefix(users, TotalPages(|users|));
  }

  // ---------------------------------------------------------------------------
  // Previous and Next
  // ---------------------------------------------------------------------------

  /** `Math.max(prev - 1, 1)`. */
  function PreviousPage(currentPage: int): int
  {
    Max(currentPage - 1, 1)
  }

  /** `Math.min(prev + 1, totalPages)`. */
  function NextPage(currentPage: int, totalPages: int): int
  {
    Min(currentPage + 1, totalPages)
  }

  /**
   * From a page in `[1, totalPages]`, Previous and Next stay in that range,
   * move by at most one, and stand still exactly on the page where the page
   * disables their button (the first for Previous, the last for Next).
   */
  lemma NavigationStaysInRange(currentPage: int, totalPages: int)
    requires 1 <= currentPage <= totalPages
    ensures 1 <= PreviousPage(currentPage) <= currentPage <= NextPage(currentPage, totalPages) <= totalPages
    ensures currentPage - 1 <= PreviousPage(currentPage) && NextPage(currentPage, totalPages) <= currentPage + 1
    ensures PreviousPage(currentPage) == currentPage <==> currentPage == 1
    ensures NextPage(currentPage, totalPages) == currentPage <==> currentPage == totalPages
  {
  }

  /**
   * With no users there are no pages, and Next from page 1 goes to page 0;
   * the page enables Next there, since page 1 is not the last page.
   */
  lemma NextOnEmptyList()
    ensures TotalPages(0) == 0 && NextPage(1, TotalPages(0)) == 0
  {
  }

  // ---------------------------------------------------------------------------
  // Page buttons
  // ---------------------------------------------------------------------------

  datatype PagerItem = PageButton(page: int) | Ellipsis

  /** Buttons for the pages `lo` to `hi`, ascending. */
  function Buttons(lo: int, hi: int): seq<PagerItem>
    decreases hi - lo + 1
  {
    if hi < lo then [] else Buttons(lo, hi - 1) + [PageButton(hi)]
  }

  lemma {:induction false} ButtonsAt(lo: int, hi: int)
    ensures |Buttons(lo, hi)| == Max(hi - lo + 1, 0)
    ensures forall k :: 0 <= k < |Buttons(lo, hi)| ==> Buttons(lo, hi)[k] == PageButton(lo + k)
    decreases hi - lo + 1
  {
    if lo <= hi {
      ButtonsAt(lo, hi - 1);
    }
  }

  /** The row of page buttons for the current page, with its three layouts for more than five pages. */
  function PagerLayout(currentPage: int, totalPages: int): seq<PagerItem>
  {
    if totalPages <= 5 then Buttons(1, totalPages)
    else if currentPage <= 3 then Buttons(1, 4) + [Ellipsis, PageButton(totalPages)]
    else if currentPage >= totalPages - 2 then [PageButton(1), Ellipsis] + Buttons(totalPages - 3, totalPages)
    else [PageButton(1), Ellipsis] + Buttons(currentPage - 1, currentPage + 1) + [Ellipsis, PageButton(totalPages)]
  }

  /** `renderPagination`: builds the row of page buttons one push at a time. */
  method RenderPagination(currentPage: int, totalPages: int) returns (pages: seq<PagerItem>)
    ensures pages == PagerLayout(currentPage, totalPages)
  {
    pages := [];
    if totalPages <= 5 {
      var i := 1;
      while i <= totalPages
        invariant 1 <= i <= Max(totalPages, 0) + 1
        invariant pages == Buttons(1, i - 1)
      {
        pages := pages + [PageButton(i)];
        i := i + 1;
      }
    } else {
      if currentPage <= 3 {
        var i := 1;
        while i <= 4
          invariant 1 <= i <= 5
          invariant pages == Buttons(1, i - 1)
        {
          pages := pages + [PageButton(i)];
          i := i + 1;
        }
        pages := pages + [Ellipsis];
        pages := pages + [PageButton(totalPages)];
      } else if currentPage >= totalPages - 2 {
        pages := pages + [PageButton(1)];
        pages := pages + [Ellipsis];
        var i := totalPages - 3;
        while i <= totalPages
          invariant totalPages - 3 <= i <= totalPages + 1
          invariant pages == [PageButton(1), Ellipsis] + Buttons(totalPages - 3, i - 1)
        {
          pages := pages + [PageButton(i)];
          i := i + 1;
        }
      } else {
        pages := pages + [PageButton(1)];
        pages := pages + [Ellipsis];
        var i := currentPage - 1;
        while i <= currentPage + 1
          invariant currentPage - 1 <= i <= currentPage + 2
          invariant pages == [PageButton(1), Ellipsis] + Buttons(currentPage - 1, i - 1)
        {
          pages := pages + [PageButton(i)];
          i := i + 1;
        }
        pages := pages + [Ellipsis];
        pages := pages + [PageButton(totalPages)];
      }
    }
  }

  /** With five pages or fewer, the row lists every page, ascending, without an ellipsis. */
  lemma SmallPagerListsEveryPage(currentPage: int, totalPages: int)
    requires totalPages <= 5
    ensures |PagerLayout(currentPage, totalPages)| == Max(totalPages, 0)
    ensures forall k :: 0 <= k < |PagerLayout(currentPage, totalPages)| ==>
      PagerLayout(currentPage, totalPages)[k] == PageButton(k + 1)
  {
    ButtonsAt(1, totalPages);
  }

  /** With more than five pages, the row takes one of three shapes, picked by the current page. */
  lemma LargePagerShapes(currentPage: int, totalPages: int)
    requires totalPages > 5
    ensures currentPage <= 3 ==>
      PagerLayout(currentPage, totalPages) ==
        [PageButton(1), PageButton(2), PageButton(3), PageButton(4), Ellipsis, PageButton(totalPages)]
    ensures 3 < currentPage && totalPages - 2 <= currentPage ==>
      PagerLayout(currentPage, totalPages) ==
        [PageButton(1), Ellipsis, PageButton(totalPages - 3), PageButton(totalPages - 2),
         PageButton(totalPages - 1), PageButton(totalPages)]
    ensures 3 < currentPage < totalPages - 2 ==>
      PagerLayout(currentPage, totalPages) ==
        [PageButton(1), Ellipsis, PageButton(currentPage - 1), PageButton(currentPage),
         PageButton(currentPage + 1), Ellipsis, PageButton(totalPages)]
  {
    ButtonsAt(1, 4);
    ButtonsAt(totalPages - 3, totalPages);
    ButtonsAt(currentPage - 1, currentPage + 1);
  }

  /** Page numbers increase strictly from left to right. */
  ghost predicate Ascending(items: seq<PagerItem>)
  {
    forall i, j :: 0 <= i < j < |items| && items[i].PageButton? && items[j].PageButton? ==>
      items[i].page < items[j].page
  }

  /** Every page number shown is a page of the list. */
  ghost predicate Within(items: seq<PagerItem>, totalPages: int)
  {
    forall i :: 0 <= i < |items| && items[i].PageButton? ==> 1 <= items[i].page <= totalPages
  }

  /**
   * An ellipsis stands between two page buttons whose pages are not adjacent,
   * and two neighbouring page buttons show adjacent pages: an ellipsis marks
   * exactly the gaps of the row.
   */
  ghost predicate EllipsesMarkGaps(items: seq<PagerItem>)
  {
    (forall i :: 0 <= i < |items| && items[i].Ellipsis? ==>
      0 < i < |items| - 1 && items[i - 1].PageButton? && items[i + 1].PageButton? &&
      items[i - 1].page + 1 < items[i + 1].page) &&
    (forall i :: 0 < i < |items| && items[i - 1].PageButton? && items[i].PageButton? ==>
      items[i].page == items[i - 1].page + 1)
  }

  /**
   * A well-formed row of buttons for the current page: at most seven entries,
   * page numbers ascending strictly within `[1, totalPages]`, the first, the
   * last and the current page on offer, and ellipses exactly at the gaps.
   */
  ghost predicate WellFormedRow(items: seq<PagerItem>, currentPage: int, totalPages: int)
  {
    |items| <= 7 && Ascending(items) && Within(items, totalPages) && EllipsesMarkGaps(items) &&
    PageButton(1) in items && PageButton(totalPages) in items && PageButton(currentPage) in items
  }

  lemma SmallRowWellFormed(currentPage: int, totalPages: int)
    requires 1 <= currentPage <= totalPages <= 5
    ensures WellFormedRow(PagerLayout(currentPage, totalPages), currentPage, totalPages)
  {
    var items := PagerLayout(currentPage, totalPages);
    SmallPagerListsEveryPage(currentPage, totalPages);
    assert items[0] == PageButton(1);
    assert items[totalPages - 1] == PageButton(totalPages);
    assert items[currentPage - 1] == PageButton(currentPage);
  }

  lemma FirstRowWellFormed(currentPage: int, totalPages: int)
    requires 1 <= currentPage <= 3 && 5 < totalPages
    ensures WellFormedRow(
      [PageButton(1), PageButton(2), PageButton(3), PageButton(4), Ellipsis, PageButton(totalPages)],
      currentPage, totalPages)
  {
    var items := [PageButton(1), PageButton(2), PageButton(3), PageButton(4), Ellipsis, PageButton(totalPages)];
    assert forall i :: 0 <= i < |items| && items[i].PageButton? ==> items[i].page == if i < 4 then i + 1 else totalPages;
    assert Ascending(items);
    assert Within(items, totalPages);
    assert EllipsesMarkGaps(items);
    assert items[currentPage - 1] == PageButton(currentPage);
  }

  lemma LastRowWellFormed(currentPage: int, totalPages: int)
    requires 5 < totalPages && totalPages - 2 <= currentPage <= totalPages
    ensures WellFormedRow(
      [PageButton(1), Ellipsis, PageButton(totalPages - 3), PageButton(totalPages - 2),
       PageButton(totalPages - 1), PageButton(totalPages)],
      currentPage, totalPages)
  {
    var items := [PageButton(1), Ellipsis, PageButton(totalPages - 3), PageButton(totalPages - 2),
                  PageButton(totalPages - 1), PageButton(totalPages)];
    assert forall i :: 0 <= i < |items| && items[i].PageButton? ==>
      items[i].page == if i == 0 then 1 else totalPages - 5 + i;
    assert Ascending(items);
    assert Within(items, totalPages);
    assert EllipsesMarkGaps(items);
    assert items[currentPage - totalPages + 5] == PageButton(currentPage);
  }

  lemma MiddleRowWellFormed(currentPage: int, totalPages: int)
    requires 3 < currentPage < totalPages - 2
    ensures WellFormedRow(
      [PageButton(1), Ellipsis, PageButton(currentPage - 1), PageButton(currentPage),
       PageButton(currentPage + 1), Ellipsis, PageButton(totalPages)],
      currentPage, totalPages)
  {
    var items := [PageButton(1), Ellipsis, PageButton(currentPage - 1), PageButton(currentPage),
                  PageButton(currentPage + 1), Ellipsis, PageButton(totalPages)];
    assert forall i :: 0 <= i < |items| && items[i].PageButton? ==>
      items[i].page == if i == 0 then 1 else if i == 6 then totalPages else currentPage - 3 + i;
    assert Ascending(items);
    assert Within(items, totalPages);
    assert EllipsesMarkGaps(items);
    assert items[3] == PageButton(currentPage);
  }

  /**
   * For a current page in `[1, totalPages]`, the row shows at most seven
   * entries, its page numbers ascend strictly within `[1, totalPages]`, it
   * always offers the first page, the last page and the current page, and its
   * ellipses mark exactly the skipped pages.
   */
  lemma PagerWellFormed(currentPage: int, totalPages: int)
    requires 1 <= currentPage <= totalPages
    ensures WellFormedRow(PagerLayout(currentPage, totalPages), currentPage, totalPages)
  {
    if totalPages <= 5 {
      SmallRowWellFormed(currentPage, totalPages);
    } else {
      LargePagerShapes(currentPage, totalPages);
      if currentPage <= 3 {
        FirstRowWellFormed(currentPage, totalPages);
      } else if currentPage >= totalPages - 2 {
        LastRowWellFormed(currentPage, totalPages);
      } else {
        MiddleRowWellFormed(currentPage, totalPages);
      }
    }
  }

  // ---------------------------------------------------------------------------
  // The page component
  // ---------------------------------------------------------------------------

  class UsersPage<U> {
    /** The users of the partner, in list order. */
    const users: seq<U>
    var currentPage: int

    ghost predicate Valid()
      reads this
    {
      1 <= currentPage <= TotalPages(|users|)
    }

    constructor (users: seq<U>)
      requires |users| > 0
      ensures this.users == users && currentPage == 1
      ensures Valid()
    {
      this.users := users;
      currentPage := 1;
    }

    /** The users listed on the current page. */
    function ShownUsers(): (shown: seq<U>)
      reads this
      requires Valid()
      ensures 0 < |shown| <= UsersPerPage
    {
      PageContents(users, currentPage);
      PagesInRangeAreNonEmpty(users, currentPage);
      CurrentUsers(users, currentPage)
    }

    /** The Previous button. */
    method Previous()
      requires Valid()
      modifies this`currentPage
      ensures Valid()
      ensures currentPage == PreviousPage(old(currentPage))
    {
      currentPage := Max(currentPage - 1, 1);
    }

    /** The Next button. */
    method Next()
      requires Valid()
      modifies this`currentPage
      ensures Valid()
      ensures currentPage == NextPage(old(currentPage), TotalPages(|users|))
    {
      var totalPages := (|users| + UsersPerPage - 1) / UsersPerPage;
      currentPage := Min(currentPage + 1, totalPages);
    }

    /** A click on the page button for `page`, which the row of buttons must show. */
    method GoToPage(page: int)
      requires Valid() && PageButton(page) in PagerLayout(currentPage, TotalPages(|users|))
      modifies this`currentPage
      ensures Valid()
      ensures currentPage == page
    {
      PagerWellFormed(currentPage, TotalPages(|users|));
      currentPage := page;
    }

    /** The row of page buttons for the current page. */
    method Pagination() returns (items: seq<PagerItem>)
      requires Valid()
      ensures items == PagerLayout(currentPage, TotalPages(|users|))
    {
      items := RenderPagination(currentPage, TotalPages(|users|));
    }
  }
}
