/** The page arithmetic shared by the video list and the DLQ list. */
module Paging {
  import opened Base

  datatype Meta = Meta(total: nat, page: nat, limit: nat, totalPages: nat, hasNextPage: bool, hasPreviousPage: bool)

  /** `skip((page - 1) * limit).take(limit)` on the ordered, filtered list. */
  function PageOf<T>(items: seq<T>, page: nat, limit: nat): seq<T>
    requires page >= 1
  {
    var skip := (page - 1) * limit;
    if skip >= |items| then [] else items[skip..Min(skip + limit, |items|)]
  }

  /** `Math.ceil(total / limit)` */
  function TotalPages(total: nat, limit: nat): nat
    requires limit >= 1
  {
    (total + limit - 1) / limit
  }

  function MetaOf(total: nat, page: nat, limit: nat): Meta
    requires limit >= 1
  {
    var pages := TotalPages(total, limit);
    Meta(total, page, limit, pages, page < pages, page > 1)
  }

  /** Pages 1 to n, one after another. */
  function Pages<T>(items: seq<T>, limit: nat, n: nat): seq<T> {
    if n == 0 then [] else Pages(items, limit, n - 1) + PageOf(items, n, limit)
  }

  lemma TimesMonotone(a: nat, b: nat, c: nat)
    requires a <= b
    ensures a * c <= b * c
  {
  }

  lemma CeilingIsLeast(total: nat, limit: nat, page: nat)
    requires limit >= 1
    ensures page < TotalPages(total, limit) <==> page * limit < total
  {
    var q := TotalPages(total, limit);
    assert total <= q * limit <= total + limit - 1;
    if page < q {
      TimesMonotone(page, q - 1, limit);
      assert (q - 1) * limit == q * limit - limit;
    } else {
      TimesMonotone(q, page, limit);
    }
  }

  /** What a page says about the list: the numbers it was asked with, the least number of pages that hold everything,
      and whether pages precede and follow it. */
  lemma MetaExactly(total: nat, page: nat, limit: nat, n: nat)
    requires limit >= 1
    ensures var meta := MetaOf(total, page, limit);
            && (meta.total, meta.page, meta.limit) == (total, page, limit)
            && (n >= meta.totalPages <==> n * limit >= total)
            && (meta.hasPreviousPage <==> page >= 2) && (meta.hasNextPage <==> page * limit < total)
  {
    hide TotalPages;
    CeilingIsLeast(total, limit, n);
    CeilingIsLeast(total, limit, page);
  }

  /** The first n pages are the first n * limit items. */
  lemma {:induction false} PagesArePrefix<T>(items: seq<T>, limit: nat, n: nat)
    requires limit >= 1
    ensures Pages(items, limit, n) == items[..Min(n * limit, |items|)]
  {
    if n > 0 {
      PagesArePrefix(items, limit, n - 1);
      assert n * limit == (n - 1) * limit + limit;
    }
  }

  lemma PageSize<T>(items: seq<T>, page: nat, limit: nat)
    requires limit >= 1 && page >= 1
    ensures page * limit < |items| ==> |PageOf(items, page, limit)| == limit
    ensures PageOf(items, page, limit) == [] <==> (page - 1) * limit >= |items|
  {
    var skip := (page - 1) * limit;
    assert page * limit == skip + limit;
  }

  /** Walking all pages gives every item exactly once, in order; there is a next page exactly when
      items remain; every page before the last is full, and none past it holds anything. */
  lemma PagesPartition<T>(items: seq<T>, limit: nat, page: nat)
    requires limit >= 1 && page >= 1
    ensures Pages(items, limit, TotalPages(|items|, limit)) == items
    ensures MetaOf(|items|, page, limit).hasNextPage <==> page * limit < |items|
    ensures MetaOf(|items|, page, limit).hasNextPage ==> |PageOf(items, page, limit)| == limit
    ensures page > TotalPages(|items|, limit) <==> PageOf(items, page, limit) == []
  {
    hide TotalPages, PageOf;
    var n := TotalPages(|items|, limit);
    PageSize(items, page, limit);
    PagesArePrefix(items, limit, n);
    CeilingIsLeast(|items|, limit, n);
    CeilingIsLeast(|items|, limit, page);
    CeilingIsLeast(|items|, limit, page - 1);
    assert items[..|items|] == items;
  }
}
