/** Pages of a query over an unchanged table: nothing is lost, nothing is shown twice. */
module Pagination {
  import opened Numbers
  import opened Wrappers
  import opened Ordering
  import opened RepositoryModel

  function AtPage(q: QueryOptions, page: int): QueryOptions {
    q.(page := Some(page))
  }

  function Concat(pages: seq<Page>): seq<Entity> {
    if pages == [] then [] else Concat(pages[..|pages| - 1]) + pages[|pages| - 1].items
  }

  /** The page count is the least that covers every row. */
  lemma TotalPagesCover(total: nat, size: nat, page: nat)
    requires size > 0 && page >= 1
    ensures page < TotalPages(total, size) <==> page * size < total
  {
    var pages := (total + size - 1) / size;
    var rest := (total + size - 1) % size;
    assert total + size - 1 == pages * size + rest;
    if page < pages {
      assert (pages - page) * size >= size by { MulAtLeast(pages - page, 1, size); }
      assert (pages - page) * size == pages * size - page * size;
    } else {
      assert (page - pages) * size >= 0 by { MulAtLeast(page - pages, 0, size); }
      assert (page - pages) * size == page * size - pages * size;
    }
  }

  lemma MulAtLeast(a: int, b: int, c: nat)
    requires a >= b
    ensures a * c >= b * c
  {
  }

  /** `hasNext` holds exactly when rows remain past the page, whatever page and size were asked for. */
  lemma HasNextIffRowsRemain(table: Table, q: QueryOptions, result: Page)
    requires PageAnswer(table, q, result)
    ensures 1 <= result.page && 1 <= result.pageSize <= MAX_PAGE_SIZE
    ensures result.total == |Members(table, q)|
    ensures result.hasNext <==> result.page * result.pageSize < result.total
    ensures result.hasPrevious <==> result.page > 1
  {
    var all :| Listing(Members(table, q), OrderOf(q.sort), all) && result == PageOf(q, all);
    ListingLength(Members(table, q), OrderOf(q.sort), all);
    TotalPagesCover(|all|, PageSize(q), PageNumber(q));
  }

  /** A page shows only rows that match the filter, and no soft-deleted one unless they were asked for. */
  lemma PageShowsMatchesOnly(table: Table, q: QueryOptions, result: Page, e: Entity)
    requires Keyed(table) && PageAnswer(table, q, result) && e in result.items
    ensures e.id in table && table[e.id].entity == e
    ensures forall f <- q.where :: q.where[f].Is? ==> f in e.data && e.data[f] == q.where[f].value
    ensures !q.includeDeleted ==> LiveIn(table, e.id)
  {
    hide OrderOf, TotalPages, Window, EntitiesOf, Keep;
    var all :| Listing(Members(table, q), OrderOf(q.sort), all) && result == PageOf(q, all);
    var row := RowBehind(all, (PageNumber(q) - 1) * PageSize(q), PageSize(q), e);
    var id :| id in table && table[id] == row && Keep(q.where, q.includeDeleted)(row);
    KeepMeans(q.where, q.includeDeleted, row);
  }

  /** The members of a query, field by field: each filter value given must be the row's own. */
  lemma MembersAre(table: Table, q: QueryOptions, r: Row)
    ensures r in Members(table, q)
       <==> && (exists id :: id in table && table[id] == r)
            && (q.includeDeleted || r.deletedAt == None)
            && forall f, v :: f in q.where && q.where[f] == Is(v) ==> f in r.entity.data && r.entity.data[f] == v
  {
    hide Keep;
    KeepMeans(q.where, q.includeDeleted, r);
  }

  /** Newest first without a sort; otherwise by the field, upwards or downwards as asked. */
  ghost predicate InSortOrder(q: QueryOptions, items: seq<Entity>) {
    forall i, j :: 0 <= i < j < |items| ==>
      match q.sort
      case None => items[i].createdAt >= items[j].createdAt
      case Some(sort) =>
        if sort.descending then sort.rank(items[i]) >= sort.rank(items[j])
        else sort.rank(items[i]) <= sort.rank(items[j])
  }

  lemma ListingInSortOrder(members: set<Row>, q: QueryOptions, all: seq<Row>)
    requires Listing(members, OrderOf(q.sort), all)
    ensures InSortOrder(q, EntitiesOf(all))
  {
    var items, order := EntitiesOf(all), OrderOf(q.sort);
    forall i, j | 0 <= i < j < |items|
      ensures order(all[i], all[j]) && items[i] == all[i].entity && items[j] == all[j].entity
    {
    }
  }

  lemma PageOfIs(q: QueryOptions, all: seq<Row>) returns (skip: nat)
    ensures skip == (PageNumber(q) - 1) * PageSize(q)
    ensures var r := PageOf(q, all);
            && r.page == PageNumber(q) && r.pageSize == PageSize(q)
            && r.total == |all| && r.totalPages == TotalPages(|all|, PageSize(q))
            && r.items == EntitiesOf(Window(all, skip, Some(PageSize(q))))
  {
    hide EntitiesOf, Window, TotalPages, PageNumber, PageSize;
    MulAtLeast(PageNumber(q) - 1, 0, PageSize(q));
    skip := (PageNumber(q) - 1) * PageSize(q);
  }

  /** The listing a page was cut from, and where. */
  lemma PageParts(table: Table, q: QueryOptions, result: Page) returns (all: seq<Row>, skip: nat)
    requires PageAnswer(table, q, result)
    ensures Listing(Members(table, q), OrderOf(q.sort), all) && |EntitiesOf(all)| == |all|
    ensures result.page == PageNumber(q) && result.pageSize == PageSize(q)
    ensures skip == (result.page - 1) * result.pageSize
    ensures result.total == |all| && result.totalPages == TotalPages(|all|, PageSize(q))
    ensures result.items == EntitiesOf(all)[MinInt(skip, |all|)..MinInt(skip + result.pageSize, |all|)]
  {
    hide Listing, OrderOf, Members, TotalPages, Window, EntitiesOf, PageOf, PageNumber, PageSize;
    all :| Listing(Members(table, q), OrderOf(q.sort), all) && result == PageOf(q, all);
    skip := PageOfIs(q, all);
    WindowIs(all, skip, PageSize(q));
    EntitiesSliced(all, MinInt(skip, |all|), MinInt(skip + PageSize(q), |all|));
  }

  lemma EntitiesSliced(all: seq<Row>, lo: nat, hi: nat)
    requires lo <= hi <= |all|
    ensures |EntitiesOf(all)| == |all| && EntitiesOf(all[lo..hi]) == EntitiesOf(all)[lo..hi]
  {
  }

  /** Every page is in the order asked for, and so are pages that join up. */
  lemma PageInSortOrder(table: Table, q: QueryOptions, result: Page)
    requires PageAnswer(table, q, result)
    ensures InSortOrder(q, result.items)
  {
    hide OrderOf, Members, InSortOrder, Listing, PageAnswer, PageOf, EntitiesOf;
    var all, skip := PageParts(table, q, result);
    ListingInSortOrder(Members(table, q), q, all);
    SliceInSortOrder(q, EntitiesOf(all), MinInt(skip, |all|), MinInt(skip + result.pageSize, |all|));
  }

  lemma SliceInSortOrder(q: QueryOptions, items: seq<Entity>, lo: nat, hi: nat)
    requires InSortOrder(q, items) && lo <= hi <= |items|
    ensures InSortOrder(q, items[lo..hi])
  {
  }

  lemma JoinedInSortOrder(table: Table, q: QueryOptions, pages: seq<Page>)
    requires JoinsUp(table, q, pages)
    ensures InSortOrder(q, Concat(pages))
  {
    hide InSortOrder, Listing, OrderOf;
    var all :| Listing(Members(table, q), OrderOf(q.sort), all) && Concat(pages) == EntitiesOf(all);
    ListingInSortOrder(Members(table, q), q, all);
  }

  /**
    The numbers of a page: the page asked for, from 1; 20 items unless another size is asked for, cut to
    1 to 100; the least number of pages, at least 1, that covers every row; and as many items as remain.
   */
  lemma PageNumbers(table: Table, q: QueryOptions, result: Page)
    requires PageAnswer(table, q, result)
    ensures result.page == if q.page.Some? && q.page.value >= 1 then q.page.value else 1
    ensures match q.pageSize
            case None => result.pageSize == 20
            case Some(n) => result.pageSize == if n < 1 then 1 else if n > 100 then 100 else n
    ensures result.totalPages >= 1 && (result.totalPages - 1) * result.pageSize < MaxInt(1, result.total)
    ensures result.total <= result.totalPages * result.pageSize
    ensures |result.items| == MaxInt(0, MinInt(result.pageSize, result.total - (result.page - 1) * result.pageSize))
  {
    hide Listing, OrderOf, Members, PageAnswer, PageOf, EntitiesOf;
    var all, skip := PageParts(table, q, result);
    EntitiesSliced(all, 0, 0);
    LeastPages(|all|, result.pageSize);
  }

  lemma LeastPages(total: nat, size: nat)
    requires size > 0
    ensures var pages := TotalPages(total, size); (pages - 1) * size < MaxInt(1, total) && total <= pages * size
  {
    var pages := TotalPages(total, size);
    hide TotalPages;
    TotalPagesCover(total, size, pages);
    if pages > 1 {
      TotalPagesCover(total, size, pages - 1);
    }
  }

  lemma RowBehind(all: seq<Row>, skip: nat, take: nat, e: Entity) returns (row: Row)
    requires e in EntitiesOf(Window(all, skip, Some(take)))
    ensures row in all && row.entity == e
  {
    var window := Window(all, skip, Some(take));
    var i :| 0 <= i < |window| && window[i].entity == e;
    assert window[i] == all[skip + i];
    row := window[i];
  }

  lemma KeepMeans(where: map<string, Filter>, includeDeleted: bool, r: Row)
    ensures Keep(where, includeDeleted)(r)
       <==> && (forall f :: f in where && where[f].Is? ==> f in r.entity.data && r.entity.data[f] == where[f].value)
            && (includeDeleted || r.deletedAt.None?)
  {
  }

  lemma WindowIs(rows: seq<Row>, skip: nat, take: nat)
    ensures Window(rows, skip, Some(take)) == rows[MinInt(skip, |rows|)..MinInt(skip + take, |rows|)]
  {
  }

  /** The next window of a listing continues what the ones before it covered. */
  lemma WindowExtends(all: seq<Row>, skip: nat, size: nat)
    ensures EntitiesOf(all[..MinInt(skip + size, |all|)])
         == EntitiesOf(all[..MinInt(skip, |all|)]) + EntitiesOf(Window(all, skip, Some(size)))
  {
    var done, next := MinInt(skip, |all|), MinInt(skip + size, |all|);
    hide Window;
    WindowIs(all, skip, size);
    assert all[..next] == all[..done] + all[done..next];
  }

  /** Pages cut one after the other from the same rows join up to what they show. */
  lemma {:induction false} WindowsJoin(all: seq<Row>, size: nat, pages: seq<Page>)
    requires forall p :: 0 <= p < |pages| ==> pages[p].items == EntitiesOf(Window(all, p * size, Some(size)))
    ensures Concat(pages) == EntitiesOf(all[..MinInt(|pages| * size, |all|)])
  {
    hide Window, EntitiesOf;
    if pages == [] {
      NothingShown(all);
    } else {
      var p := |pages| - 1;
      WindowsJoin(all, size, pages[..p]);
      assert |pages| * size == p * size + size;
      WindowExtends(all, p * size, size);
    }
  }

  lemma NothingShown(all: seq<Row>)
    ensures EntitiesOf(all[..0]) == []
  {
  }

  /** `pages` are answers the database may give to the queries for pages 1, 2, … one after the other. */
  ghost predicate PagesAnswer(table: Table, q: QueryOptions, pages: seq<Page>) {
    forall p :: 0 <= p < |pages| ==> PageAnswer(table, AtPage(q, p + 1), pages[p])
  }

  /** The items of the pages, joined, are one sorted listing of the matching rows, each row once. */
  ghost predicate JoinsUp(table: Table, q: QueryOptions, pages: seq<Page>) {
    exists all :: Listing(Members(table, q), OrderOf(q.sort), all) && Concat(pages) == EntitiesOf(all)
  }

  /** No two tied rows stand on either side of a page boundary. */
  ghost predicate NoTieAcrossPages(q: QueryOptions, all: seq<Row>) {
    forall p {:trigger p * PageSize(q)} :: 1 <= p && p * PageSize(q) < |all| ==>
      CleanCut(all, OrderOf(q.sort), p * PageSize(q))
  }

  /** How much of `n` rows the first `pages` pages show. */
  function Shown(pages: nat, size: nat, n: nat): nat {
    MinInt(pages * size, n)
  }

  /** From `at` on as in `own`, before it as in `all`: a listing when the cut is clean, or at either end. */
  lemma Continue(members: set<Row>, order: (Row, Row) -> bool, all: seq<Row>, own: seq<Row>, at: nat, size: nat)
    returns (next: seq<Row>)
    requires TotalPreorder(order) && Listing(members, order, all) && Listing(members, order, own)
    requires 0 < at < |all| ==> CleanCut(all, order, at)
    ensures Listing(members, order, next) && |next| == |all|
    ensures next[..MinInt(at, |all|)] == all[..MinInt(at, |all|)]
    ensures Window(next, at, Some(size)) == Window(own, at, Some(size))
  {
    hide Listing, CleanCut;
    ListingLength(members, order, all);
    ListingLength(members, order, own);
    if at >= |all| {
      next := all;
    } else if at == 0 {
      next := own;
    } else {
      CrossOver(members, order, all, own, at);
      next := all[..at] + own[at..];
      assert next[..at] == all[..at];
    }
  }

  /** One more page continues the listing before it, crossing over to the page's own listing at a clean cut. */
  lemma PageContinues(table: Table, q: QueryOptions, all: seq<Row>, page: nat, result: Page) returns (next: seq<Row>)
    requires Listing(Members(table, q), OrderOf(q.sort), all) && PageAnswer(table, AtPage(q, page + 1), result)
    requires NoTieAcrossPages(q, all)
    ensures Listing(Members(table, q), OrderOf(q.sort), next)
    ensures |next| == |all| && next[..Shown(page, PageSize(q), |all|)] == all[..Shown(page, PageSize(q), |all|)]
    ensures result.items == EntitiesOf(Window(next, page * PageSize(q), Some(PageSize(q))))
  {
    var members, order, size := Members(table, q), OrderOf(q.sort), PageSize(q);
    OrderIsTotal(q.sort);
    hide OrderOf, Listing, Keep, Matching, EntitiesOf, Window, TotalPages, PageOf, CleanCut, Shown, NoTieAcrossPages;
    var own :| Listing(members, order, own) && result == PageOf(AtPage(q, page + 1), own);
    PageItems(q, page, own);
    CutAt(q, all, page);
    next := Continue(members, order, all, own, page * size, size);
  }

  /** What page `p + 1` shows of a listing. */
  lemma PageItems(q: QueryOptions, p: nat, all: seq<Row>)
    ensures PageOf(AtPage(q, p + 1), all).items == EntitiesOf(Window(all, p * PageSize(q), Some(PageSize(q))))
  {
    hide EntitiesOf, Window, TotalPages, PageOf;
    var skip := PageOfIs(AtPage(q, p + 1), all);
    assert PageNumber(AtPage(q, p + 1)) == p + 1 && PageSize(AtPage(q, p + 1)) == PageSize(q);
  }

  lemma CutAt(q: QueryOptions, all: seq<Row>, page: nat)
    requires NoTieAcrossPages(q, all)
    ensures page * PageSize(q) >= 0
    ensures 0 < page * PageSize(q) < |all| ==> CleanCut(all, OrderOf(q.sort), page * PageSize(q))
    ensures Shown(page, PageSize(q), |all|) == MinInt(page * PageSize(q), |all|)
  {
    hide OrderOf, CleanCut, PageSize;
    if page == 0 {
      assert page * PageSize(q) == 0;
    }
  }

  lemma CutInside(page: nat, size: nat)
    requires page > 0 && size > 0
    ensures page * size > 0
  {
  }

  /** Boundaries clean in one listing are clean in all. */
  lemma CleanInAll(table: Table, q: QueryOptions, a: seq<Row>, c: seq<Row>)
    requires Listing(Members(table, q), OrderOf(q.sort), a) && Listing(Members(table, q), OrderOf(q.sort), c)
    requires NoTieAcrossPages(q, a)
    ensures NoTieAcrossPages(q, c)
  {
    hide OrderOf;
    var members, order, size := Members(table, q), OrderOf(q.sort), PageSize(q);
    OrderIsTotal(q.sort);
    ListingLength(members, order, a);
    ListingLength(members, order, c);
    forall p {:trigger p * PageSize(q)} | 1 <= p && p * PageSize(q) < |c|
      ensures CleanCut(c, order, p * PageSize(q))
    {
      CutInside(p, size);
      CleanElsewhere(members, order, a, c, p * size);
    }
  }

  /** The first `n` pages join up to what one listing shows on them. */
  lemma {:induction false} FirstPagesJoin(table: Table, q: QueryOptions, all: seq<Row>, pages: seq<Page>)
    returns (joined: seq<Row>)
    requires Listing(Members(table, q), OrderOf(q.sort), all) && NoTieAcrossPages(q, all)
    requires PagesAnswer(table, q, pages)
    ensures Listing(Members(table, q), OrderOf(q.sort), joined) && |joined| == |all|
    ensures Concat(pages) == EntitiesOf(joined[..Shown(|pages|, PageSize(q), |all|)])
  {
    hide Listing, OrderOf, EntitiesOf, CleanCut, Window, PageAnswer, NoTieAcrossPages, Members, PageSize, Shown;
    if pages == [] {
      joined := all;
      NothingShown(all);
      NoPagesShown(PageSize(q), |all|);
    } else {
      var n, size := |pages| - 1, PageSize(q);
      var before := FirstPagesJoin(table, q, all, pages[..n]);
      CleanInAll(table, q, all, before);
      joined := PageContinues(table, q, before, n, pages[n]);
      ShownGrows(n, size, |all|);
      OneMorePage(before, joined, n * size, size, pages);
    }
  }

  lemma NoPagesShown(size: nat, n: nat)
    ensures Shown(0, size, n) == 0
  {
  }

  lemma OneMorePage(before: seq<Row>, joined: seq<Row>, at: nat, size: nat, pages: seq<Page>)
    requires pages != [] && |before| == |joined|
    requires Concat(pages[..|pages| - 1]) == EntitiesOf(before[..MinInt(at, |before|)])
    requires joined[..MinInt(at, |before|)] == before[..MinInt(at, |before|)]
    requires pages[|pages| - 1].items == EntitiesOf(Window(joined, at, Some(size)))
    ensures Concat(pages) == EntitiesOf(joined[..MinInt(at + size, |joined|)])
  {
    hide EntitiesOf, Window;
    WindowExtends(joined, at, size);
  }

  lemma ShownGrows(pages: nat, size: nat, n: nat)
    ensures pages * size >= 0
    ensures Shown(pages, size, n) == MinInt(pages * size, n)
    ensures Shown(pages + 1, size, n) == MinInt(pages * size + size, n)
  {
    MulAtLeast(pages, 0, size);
    assert (pages + 1) * size == pages * size + size;
  }

  /** Without a tie across a page boundary the pages 1 to `totalPages`, each fetched by a query of its own, join up. */
  lemma PagesPartition(table: Table, q: QueryOptions, all: seq<Row>, pages: seq<Page>)
    requires Listing(Members(table, q), OrderOf(q.sort), all) && NoTieAcrossPages(q, all)
    requires PagesAnswer(table, q, pages) && |pages| == TotalPages(|Members(table, q)|, PageSize(q))
    ensures JoinsUp(table, q, pages) && |Concat(pages)| == |Members(table, q)|
  {
    hide Listing, OrderOf, TotalPages, PagesAnswer, NoTieAcrossPages;
    var joined := FirstPagesJoin(table, q, all, pages);
    ListingLength(Members(table, q), OrderOf(q.sort), joined);
    TotalPagesCover(|joined|, PageSize(q), |pages|);
    assert joined[..|joined|] == joined;
  }

  /** The pages cut from listing `a` before page `cut`, and from listing `c` from then on. */
  function TwoListings(q: QueryOptions, a: seq<Row>, c: seq<Row>, cut: nat, n: nat): seq<Page> {
    seq(n, p requires 0 <= p < n => PageOf(AtPage(q, p + 1), if p < cut then a else c))
  }

  lemma TwoListingsJoin(q: QueryOptions, a: seq<Row>, c: seq<Row>, cut: nat, n: nat)
    requires |a| == |c| && cut * PageSize(q) <= |a| <= n * PageSize(q)
    ensures Concat(TwoListings(q, a, c, cut, n)) == EntitiesOf(a[..cut * PageSize(q)] + c[cut * PageSize(q)..])
  {
    hide EntitiesOf, Window, PageOf, PageSize;
    var size, pages := PageSize(q), TwoListings(q, a, c, cut, n);
    var at := cut * size;
    var mix := a[..at] + c[at..];
    forall p | 0 <= p < n
      ensures pages[p].items == EntitiesOf(Window(mix, p * size, Some(size)))
    {
      PageItems(q, p, if p < cut then a else c);
      MixedWindow(a, c, cut, size, p);
    }
    hide TwoListings;
    WindowsJoin(mix, size, pages);
    AllShown(mix, n, size, pages);
  }

  lemma AllShown(all: seq<Row>, n: nat, size: nat, pages: seq<Page>)
    requires |pages| == n && |all| <= n * size && Concat(pages) == EntitiesOf(all[..MinInt(|pages| * size, |all|)])
    ensures Concat(pages) == EntitiesOf(all)
  {
    assert all[..|all|] == all;
  }

  lemma MixedWindow(a: seq<Row>, c: seq<Row>, cut: nat, size: nat, p: nat)
    requires |a| == |c| && cut * size <= |a|
    ensures Window(a[..cut * size] + c[cut * size..], p * size, Some(size))
         == Window(if p < cut then a else c, p * size, Some(size))
  {
    hide Window;
    var mix, from := a[..cut * size] + c[cut * size..], p * size;
    WindowIs(mix, from, size);
    WindowIs(a, from, size);
    WindowIs(c, from, size);
    if p < cut {
      MulAtLeast(cut, p + 1, size);
      assert (p + 1) * size == from + size;
    } else {
      MulAtLeast(p, cut, size);
    }
    SliceOfMix(a, c, cut * size, MinInt(from, |a|), MinInt(from + size, |a|));
  }

  lemma SliceOfMix(a: seq<Row>, c: seq<Row>, at: nat, lo: nat, hi: nat)
    requires |a| == |c| && at <= |a| && lo <= hi <= |a|
    ensures hi <= at ==> (a[..at] + c[at..])[lo..hi] == a[lo..hi]
    ensures at <= lo ==> (a[..at] + c[at..])[lo..hi] == c[lo..hi]
  {
  }

  lemma EntitiesDiffer(table: Table, q: QueryOptions, l: seq<Row>, i: nat)
    requires Keyed(table) && Listing(Members(table, q), OrderOf(q.sort), l) && i + 1 < |l|
    ensures l[i].entity != l[i + 1].entity
  {
    hide OrderOf, Keep;
    assert l[i] in Members(table, q) && l[i + 1] in Members(table, q);
    assert l[i] != l[i + 1];
  }

  /** A list of rows that shows one row twice is no listing of a table's rows. */
  lemma RepeatIsNoListing(table: Table, q: QueryOptions, rows: seq<Row>, i: nat, l: seq<Row>)
    requires Keyed(table) && i + 1 < |rows| && rows[i] == rows[i + 1]
    requires Listing(Members(table, q), OrderOf(q.sort), l)
    ensures EntitiesOf(l) != EntitiesOf(rows)
  {
    hide OrderOf, Members, Listing;
    assert EntitiesOf(rows)[i] == EntitiesOf(rows)[i + 1];
    if |l| == |rows| {
      EntitiesDiffer(table, q, l, i);
      assert EntitiesOf(l)[i] != EntitiesOf(l)[i + 1];
    }
  }

  /**
    Where two rows tie across a page boundary, the database may show the row before it again after it:
    the last item of one page is the first of the next, so the pages do not join up.
   */
  lemma TiedRowsCanRepeat(table: Table, q: QueryOptions, all: seq<Row>, cut: nat) returns (pages: seq<Page>)
    requires Keyed(table) && Listing(Members(table, q), OrderOf(q.sort), all)
    requires 1 <= cut && cut * PageSize(q) < |all| && !CleanCut(all, OrderOf(q.sort), cut * PageSize(q))
    ensures PagesAnswer(table, q, pages) && |pages| == TotalPages(|Members(table, q)|, PageSize(q))
    ensures !JoinsUp(table, q, pages)
  {
    hide OrderOf, Listing, CleanCut, Keep, Matching, TotalPages, EntitiesOf, Window, PageSize;
    var members, order, size := Members(table, q), OrderOf(q.sort), PageSize(q);
    var at, n := cut * size, TotalPages(|members|, size);
    OrderIsTotal(q.sort);
    CutInside(cut, size);
    ListingLength(members, order, all);
    TotalPagesCover(|all|, size, n);
    SwapTied(members, order, all, at);
    var other := all[at - 1 := all[at]][at := all[at - 1]];
    pages := TwoListings(q, all, other, cut, n);
    forall p | 0 <= p < n
      ensures PageAnswer(table, AtPage(q, p + 1), pages[p])
    {
      assert Listing(Members(table, AtPage(q, p + 1)), OrderOf(AtPage(q, p + 1).sort), if p < cut then all else other);
    }
    TwoListingsJoin(q, all, other, cut, n);
    var mix := all[..at] + other[at..];
    assert mix[at - 1] == mix[at];
    forall l | Listing(members, order, l)
      ensures Concat(pages) != EntitiesOf(l)
    {
      RepeatIsNoListing(table, q, mix, at - 1, l);
    }
  }

  /**
    Pages partition exactly when no tie straddles a page boundary: whatever order the database gives
    tied rows in each query, the pages 1 to `totalPages` join up to one sorted list with each row
    once, if and only if the rows on the two sides of every page boundary differ in the sort.
   */
  lemma PagesPartitionIff(table: Table, q: QueryOptions, all: seq<Row>)
    requires Keyed(table) && Listing(Members(table, q), OrderOf(q.sort), all)
    ensures (forall pages :: PagesAnswer(table, q, pages) && |pages| == TotalPages(|Members(table, q)|, PageSize(q)) ==>
               JoinsUp(table, q, pages))
       <==> NoTieAcrossPages(q, all)
  {
    hide Listing, OrderOf, CleanCut, TotalPages, PagesAnswer, JoinsUp;
    if NoTieAcrossPages(q, all) {
      forall pages | PagesAnswer(table, q, pages) && |pages| == TotalPages(|Members(table, q)|, PageSize(q))
        ensures JoinsUp(table, q, pages)
      {
        PagesPartition(table, q, all, pages);
      }
    } else {
      var cut :| 1 <= cut && cut * PageSize(q) < |all| && !CleanCut(all, OrderOf(q.sort), cut * PageSize(q));
      var pages := TiedRowsCanRepeat(table, q, all, cut);
    }
  }
}
