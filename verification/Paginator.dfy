/** Page arithmetic, the slices of `paginate` and `simple_paginate`, and the page list. */
module Paginator {
  import opened Arithmetic
  import opened Options
  import opened ExpressionMeaning
  import opened QuerySet

  /** The exact ceiling of the quotient of `n` and `d`: how many times `d` must be taken
      away until nothing is left. */
  function Ceiling(n: int, d: int): nat
    requires d > 0
    decreases n
  {
    if n <= 0 then 0 else 1 + Ceiling(n - d, d)
  }

  function PageCount(total: nat, per: int): int {
    if total == 0 || per <= 0 then 1 else Max(1, Ceiling(total, per))
  }

  datatype Page = Page(items: seq<Row>, total: nat, perPage: int, currentPage: int) {
    function LastPage(): int {
      PageCount(total, perPage)
    }

    function FirstItem(): int {
      if items == [] then 0 else (currentPage - 1) * perPage + 1
    }

    function LastItem(): int {
      if items == [] then 0 else FirstItem() + |items| - 1
    }

    predicate HasMorePages() {
      currentPage < LastPage()
    }
  }

  datatype SimplePage = SimplePage(items: seq<Row>, perPage: int, currentPage: int, hasMorePages: bool)

  /** The whole result in its order, without limit or offset. */
  function Ordered(q: Query, rows: seq<Row>, db: Db): seq<Row> {
    db.sort(q.state.order, Rows(q, rows, db))
  }

  // --------------------------------------------------------------- arithmetic

  /** Where page `k`, counted from 0, begins: `k * per`, as a sum. */
  function Start(k: nat, per: nat): nat {
    if k == 0 then 0 else Start(k - 1, per) + per
  }

  lemma {:induction false} StartIsProduct(k: nat, per: nat)
    ensures Start(k, per) == k * per
  {
    if k > 0 {
      StartIsProduct(k - 1, per);
      assert k * per == (k - 1) * per + per;
    }
  }

  lemma {:induction false} StartsIncrease(j: nat, k: nat, per: nat)
    requires j <= k
    ensures Start(j, per) <= Start(k, per)
    decreases k
  {
    if j < k {
      StartsIncrease(j, k - 1, per);
    }
  }

  /** The last page is the least whose slices cover the result. */
  lemma {:induction false} LastPageCovers(total: nat, per: int)
    requires total > 0 && per > 0
    ensures Ceiling(total, per) >= 1
    ensures Start(Ceiling(total, per) - 1, per) < total <= Start(Ceiling(total, per), per)
  {
    if total > per {
      LastPageCovers(total - per, per);
    }
  }

  lemma {:induction false} Product(a: int, b: int, c: int)
    requires a >= b && c >= 0
    ensures a * c >= b * c
  {
  }

  lemma {:induction false} Quotient(n: int, d: int, q: int, r: int)
    requires d > 0 && 0 <= r < d && n == q * d + r
    ensures n / d == q
  {
    var q', r' := n / d, n % d;
    assert n == q' * d + r';
    assert (q - q') * d == r' - r;
    if q > q' {
      assert (q - q') * d >= d by { Product(q - q', 1, d); }
    } else if q < q' {
      assert (q' - q) * d >= d by { Product(q' - q, 1, d); }
    }
  }

  /** Both ways of rounding up agree. */
  lemma {:induction false} CeilingByDivision(total: nat, per: int)
    requires total > 0 && per > 0
    ensures Ceiling(total, per) == (total + per - 1) / per
  {
    var k := Ceiling(total, per);
    LastPageCovers(total, per);
    StartIsProduct(k, per);
    Quotient(total + per - 1, per, k, total - 1 - Start(k - 1, per));
  }

  // ------------------------------------------------------------------ slices

  /** The rows of the ordered result that page `k` is meant to show. */
  function PageOf(result: seq<Row>, per: nat, k: nat): seq<Row> {
    Taken(Dropped(result, Start(k, per)), per)
  }

  /** The requested page: below the first is the first, beyond the last is the last. */
  function Nearest(page: int, last: int): int {
    if page < 1 then 1 else if page > last then last else page
  }

  /** What a page promises about the ordered result it is a page of. */
  ghost predicate Describes(p: Page, result: seq<Row>) {
    && p.total == |result| && p.perPage > 0 && 1 <= p.currentPage <= p.LastPage()
    && p.items == PageOf(result, p.perPage, p.currentPage - 1)
    && (p.items == [] <==> result == [])
    && (result != [] ==> 1 <= p.FirstItem() <= p.LastItem() <= |result| &&
                         p.items == result[p.FirstItem() - 1..p.LastItem()])
    && (p.HasMorePages() <==> p.LastItem() < |result|)
  }

  lemma {:induction false} Block(result: seq<Row>, a: nat, per: nat)
    requires a < |result|
    ensures Taken(Dropped(result, a), per) == result[a..Min(a + per, |result|)]
  {
  }

  lemma {:induction false} PageDescribes(p: Page, result: seq<Row>, last: int)
    requires result != [] && p.total == |result| && p.perPage > 0 && 1 <= p.currentPage <= last == p.LastPage()
    requires Start(last - 1, p.perPage) < |result| <= Start(last, p.perPage)
    requires p.items == PageOf(result, p.perPage, p.currentPage - 1)
    ensures Describes(p, result)
  {
    var k := p.currentPage - 1;
    StartIsProduct(k, p.perPage);
    StartsIncrease(k, last - 1, p.perPage);
    Block(result, Start(k, p.perPage), p.perPage);
    assert p.LastItem() == Min(Start(k + 1, p.perPage), |result|);
    if k + 1 < last {
      StartsIncrease(k + 1, last - 1, p.perPage);
    }
  }

  /** The nearest existing page of an ordered result, by definition. */
  function PageIn(result: seq<Row>, page: int, perPage: int): Page {
    var per := Max(1, perPage);
    var current := Nearest(page, PageCount(|result|, per));
    Page(PageOf(result, per, AtLeast0(current - 1)), |result|, per, current)
  }

  /** A page's metadata describes its slice: a non-empty result has no empty page, the
      items are rows `first_item` to `last_item`, and there are more pages iff rows follow. */
  lemma {:induction false} PageInDescribes(result: seq<Row>, page: int, perPage: int)
    ensures Describes(PageIn(result, page, perPage), result)
  {
    if result != [] {
      var p := PageIn(result, page, perPage);
      LastPageCovers(|result|, p.perPage);
      PageDescribes(p, result, p.LastPage());
    }
  }

  // ------------------------------------------------------------------- tiling

  /** The pages' items, one after the other. */
  function Flatten(pages: seq<seq<Row>>): seq<Row> {
    if pages == [] then [] else Flatten(pages[..|pages| - 1]) + pages[|pages| - 1]
  }

  lemma {:induction false} PrefixGrows(result: seq<Row>, a: nat, per: nat)
    ensures Taken(result, a) + Taken(Dropped(result, a), per) == Taken(result, a + per)
  {
  }

  lemma {:induction false} FlattenPages(result: seq<Row>, per: nat, pages: seq<seq<Row>>)
    requires forall i | 0 <= i < |pages| :: pages[i] == PageOf(result, per, i)
    ensures Flatten(pages) == Taken(result, Start(|pages|, per))
    decreases |pages|
  {
    var n := |pages|;
    if n > 0 {
      FlattenPages(result, per, pages[..n - 1]);
      PrefixGrows(result, Start(n - 1, per), per);
    }
  }

  lemma {:induction false} EverythingTaken(result: seq<Row>, per: nat)
    requires per > 0
    ensures PageCount(|result|, per) >= 1 && Taken(result, Start(PageCount(|result|, per), per)) == result
  {
    if result != [] {
      LastPageCovers(|result|, per);
    }
  }

  /** The pages tile the result: pages 1 to `last_page`, whichever page reports it, show
      every row of the ordered result exactly once, in order. */
  lemma {:induction false} PagesTile(result: seq<Row>, page: int, perPage: int, pages: seq<seq<Row>>)
    requires |pages| == PageIn(result, page, perPage).LastPage()
    requires forall i | 0 <= i < |pages| :: pages[i] == PageIn(result, i + 1, perPage).items
    ensures Flatten(pages) == result
  {
    FlattenPages(result, Max(1, perPage), pages);
    EverythingTaken(result, Max(1, perPage));
  }

  // ------------------------------------------------------------ the operations

  /** The last page by rounding up, as `paginate` computes it. */
  method RoundUp(total: nat, per: int) returns (last: int)
    requires total > 0 && per > 0
    ensures last == PageCount(total, per) >= 1
  {
    CeilingByDivision(total, per);
    last := Max(1, (total + per - 1) / per);
  }

  lemma {:induction false} SliceIsPage(q: Query, rows: seq<Row>, db: Db, per: nat, k: nat)
    ensures k * per >= 0
    ensures Fetch(Statement(q).(limit := Some(per), offset := Some(k * per)), rows, db) ==
            PageOf(Ordered(q, rows, db), per, k)
  {
    StartIsProduct(k, per);
  }

  method FetchPage(table: Table, q: Query, per: nat, current: int) returns (items: seq<Row>)
    requires 1 <= current
    ensures items == PageOf(Ordered(q, table.rows, table.db), per, current - 1)
  {
    SliceIsPage(q, table.rows, table.db, per, current - 1);
    var offset := (current - 1) * per;
    var stmt := BuildSelect(q);
    items := Fetch(stmt.(limit := Some(per), offset := Some(offset)), table.rows, table.db);
  }

  /** The page answers the request: it has the size that was asked for, or 1 for less; it
      is the page that was asked for, or the nearest one there is; the last page is the
      first that leaves nothing over; and each page shows as many rows as its size from
      where it begins, the last one what is left. */
  ghost predicate Answers(p: Page, result: seq<Row>, page: int, perPage: int) {
    var last, per := p.LastPage(), p.perPage;
    && per == (if perPage >= 1 then perPage else 1) && p.total == |result| && 1 <= p.currentPage <= last
    && (1 <= page <= last ==> p.currentPage == page)
    && (page < 1 ==> p.currentPage == 1) && (last < page ==> p.currentPage == last)
    && (result == [] ==> last == 1) && (result != [] ==> Start(last - 1, per) < |result| <= Start(last, per))
    && var begin := Start(p.currentPage - 1, per);
       begin <= |result| &&
       var size := if p.currentPage < last then per else |result| - begin;
       begin + size <= |result| && p.items == result[begin..begin + size]
  }

  lemma {:induction false} PageInAnswers(result: seq<Row>, page: int, perPage: int)
    ensures Answers(PageIn(result, page, perPage), result, page, perPage)
  {
    var p := PageIn(result, page, perPage);
    var last, k := p.LastPage(), p.currentPage - 1;
    if result != [] {
      LastPageCovers(|result|, p.perPage);
      StartsIncrease(k, last - 1, p.perPage);
      Block(result, Start(k, p.perPage), p.perPage);
      if k + 1 < last {
        StartsIncrease(k + 1, last - 1, p.perPage);
      }
    }
  }

  /** `paginate`: the count, then the clamped page's slice. The page shown is the nearest
      existing one of the ordered result, whatever limit and offset the query has. */
  method Paginate(table: Table, q: Query, page: int, perPage: int) returns (p: Page)
    requires Sorts(table.db)
    ensures p == PageIn(Ordered(q, table.rows, table.db), page, perPage)
    ensures Answers(p, Ordered(q, table.rows, table.db), page, perPage)
  {
    var per := Max(1, perPage);
    var current := Max(1, page);
    var total := table.Count(q);
    ghost var result := Ordered(q, table.rows, table.db);
    assert total == |result| by {
      SortKeepsLength(table.db, q.state.order, Rows(q, table.rows, table.db));
    }
    PageInAnswers(result, page, perPage);
    if total == 0 {
      return Page([], 0, per, 1);
    }
    var lastPage := RoundUp(total, per);
    current := Min(current, lastPage);
    var items := FetchPage(table, q, per, current);
    return Page(items, total, per, current);
  }

  /** One row more than the page tells whether there is a next one. */
  lemma {:induction false} LookAhead(q: Query, rows: seq<Row>, db: Db, per: nat, k: nat)
    requires per > 0
    ensures k * per >= 0
    ensures var fetched := Fetch(Statement(q).(limit := Some(per + 1), offset := Some(k * per)), rows, db);
            && Taken(fetched, per) == PageOf(Ordered(q, rows, db), per, k)
            && (|fetched| > per <==> PageOf(Ordered(q, rows, db), per, k + 1) != [])
  {
    StartIsProduct(k, per);
  }

  /** `simple_paginate` shows the page as asked for, which may lie beyond the result,
      and reports more iff the next page is not empty. */
  method SimplePaginate(table: Table, q: Query, page: int, perPage: int) returns (p: SimplePage)
    ensures var result := Ordered(q, table.rows, table.db);
            && p.perPage == Max(1, perPage) && p.currentPage == Max(1, page)
            && p.items == PageOf(result, p.perPage, p.currentPage - 1)
            && (p.hasMorePages <==> PageOf(result, p.perPage, p.currentPage) != [])
  {
    var per := Max(1, perPage);
    var current := Max(1, page);
    LookAhead(q, table.rows, table.db, per, current - 1);
    var offset := (current - 1) * per;
    var stmt := BuildSelect(q);
    var fetched := Fetch(stmt.(limit := Some(per + 1), offset := Some(offset)), table.rows, table.db);
    var hasMore := |fetched| > per;
    return SimplePage(Taken(fetched, per), per, current, hasMore);
  }

  // --------------------------------------------------------------- page range

  /** The numbers from `a` up to but not including `b`. */
  function Numbers(a: int, b: int): seq<Option<int>>
    decreases b - a
  {
    if b <= a then [] else Numbers(a, b - 1) + [Some(b - 1)]
  }

  function Before(start: int): seq<Option<int>> {
    if start <= 1 then [] else if start == 2 then [Some(1)] else [Some(1), None]
  }

  function After(end: int, last: int): seq<Option<int>> {
    if end >= last then [] else if end == last - 1 then [Some(last)] else [None, Some(last)]
  }

  function PageList(last: int, current: int, window: int): seq<Option<int>> {
    if last <= 1 then [Some(1)] else
      var start, end := Max(1, current - window), Min(last, current + window);
      Before(start) + Numbers(start, end + 1) + After(end, last)
  }

  /** The page list around the current page, `None` standing for an ellipsis. */
  method PageRange(last: int, current: int, window: int) returns (pages: seq<Option<int>>)
    ensures pages == PageList(last, current, window)
    ensures last <= 1 ==> pages == [Some(1)]
  {
    if last <= 1 {
      return [Some(1)];
    }
    pages := [];
    var start := Max(1, current - window);
    var end := Min(last, current + window);
    if start > 1 {
      pages := pages + [Some(1)];
      if start > 2 {
        pages := pages + [None];
      }
    }
    assert pages == Before(start);
    var p := start;
    while p < end + 1
      invariant start <= p <= Max(start, end + 1) && pages == Before(start) + Numbers(start, p)
    {
      pages := pages + [Some(p)];
      p := p + 1;
    }
    ghost var shown := pages;
    assert shown == Before(start) + Numbers(start, end + 1);
    if end < last {
      if end < last - 1 {
        pages := pages + [None];
      }
      pages := pages + [Some(last)];
    }
    assert pages == shown + After(end, last);
  }

  lemma {:induction false} NumbersAt(a: int, b: int)
    ensures |Numbers(a, b)| == AtLeast0(b - a)
    ensures forall i | 0 <= i < b - a :: Numbers(a, b)[i] == Some(a + i)
    decreases b - a
  {
    if a < b {
      NumbersAt(a, b - 1);
    }
  }

  predicate InWindow(p: int, last: int, current: int, window: int) {
    1 <= p <= last && current - window <= p <= current + window
  }

  /** Neighbours in the list: numbers differ by one, and ellipses are not doubled. */
  predicate NextTo(a: Option<int>, b: Option<int>) {
    (a.Some? || b.Some?) && (a.Some? && b.Some? ==> b.value == a.value + 1)
  }

  /** An ellipsis stands between two numbers and hides at least one page. */
  predicate Hides(a: Option<int>, b: Option<int>, c: Option<int>) {
    b.None? ==> a.Some? && c.Some? && a.value + 2 <= c.value
  }

  ghost predicate WellFormed(pages: seq<Option<int>>, last: int, current: int, window: int) {
    && 0 < |pages| <= 2 * window + 5
    && pages[0] == Some(1) && pages[|pages| - 1] == Some(last)
    && (forall p | InWindow(p, last, current, window) :: Some(p) in pages)
    && (forall i | 0 <= i < |pages| && pages[i].Some? ::
          pages[i].value == 1 || pages[i].value == last || InWindow(pages[i].value, last, current, window))
    && (forall i, j {:trigger NextTo(pages[i], pages[j])} | 0 <= i && j == i + 1 && j < |pages| ::
          NextTo(pages[i], pages[j]))
    && (forall i, j, k {:trigger Hides(pages[i], pages[j], pages[k])} |
          0 <= i && j == i + 1 && k == j + 1 && k < |pages| :: Hides(pages[i], pages[j], pages[k]))
  }

  /** Where the parts of the list lie: `h` entries before the window `start` to `end`. */
  ghost predicate LaidOut(pages: seq<Option<int>>, start: int, end: int, last: int) {
    var h, n := |Before(start)|, end - start + 1;
    && 1 <= start <= end <= last && |pages| == h + n + |After(end, last)|
    && (forall i | 0 <= i < h :: pages[i] == Before(start)[i])
    && (forall i | h <= i < h + n :: pages[i] == Some(start + i - h))
    && (forall i | h + n <= i < |pages| :: pages[i] == After(end, last)[i - h - n])
  }

  lemma {:induction false} ListIsLaidOut(last: int, current: int, window: int)
    requires 1 <= current <= last && 0 <= window && last > 1
    ensures LaidOut(PageList(last, current, window), Max(1, current - window), Min(last, current + window), last)
  {
    NumbersAt(Max(1, current - window), Min(last, current + window) + 1);
  }

  lemma {:induction false} Neighbours(pages: seq<Option<int>>, start: int, end: int, last: int, i: nat)
    requires LaidOut(pages, start, end, last) && i + 1 < |pages|
    ensures NextTo(pages[i], pages[i + 1]) && (i + 2 < |pages| ==> Hides(pages[i], pages[i + 1], pages[i + 2]))
  {
  }

  lemma {:induction false} LaidOutIsWellFormed(
    pages: seq<Option<int>>, start: int, end: int, last: int, current: int, window: int)
    requires LaidOut(pages, start, end, last) && 1 <= current <= last && 0 <= window
    requires start == Max(1, current - window) && end == Min(last, current + window)
    ensures WellFormed(pages, last, current, window)
  {
    var h := |Before(start)|;
    forall p | InWindow(p, last, current, window) ensures Some(p) in pages {
      assert pages[h + (p - start)] == Some(p);
    }
    forall i, j | 0 <= i && j == i + 1 && j < |pages| ensures NextTo(pages[i], pages[j]) {
      Neighbours(pages, start, end, last, i);
    }
    forall i, j, k | 0 <= i && j == i + 1 && k == j + 1 && k < |pages| ensures Hides(pages[i], pages[j], pages[k]) {
      Neighbours(pages, start, end, last, i);
    }
  }

  /** For a current page of the result, the list starts at 1, ends at the last page,
      shows the window and nothing else, and has no needless or doubled ellipsis. */
  lemma {:induction false} PageListIsWellFormed(last: int, current: int, window: int)
    requires 1 <= current <= last && 0 <= window
    ensures WellFormed(PageList(last, current, window), last, current, window)
  {
    var pages := PageList(last, current, window);
    if last > 1 {
      var start, end := Max(1, current - window), Min(last, current + window);
      ListIsLaidOut(last, current, window);
      LaidOutIsWellFormed(pages, start, end, last, current, window);
    }
  }
}
