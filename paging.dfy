/** Client-side paging of a loaded list, as the admin listings table and the
    notification list do it: `Math.ceil(length / perPage)` pages, page `p`
    being `slice((p - 1) * perPage, p * perPage)`. */
module Paging {
  import opened JsCore

  /** `Math.ceil(count / perPage)`. */
  function TotalPages(count: nat, perPage: nat): nat
    requires perPage >= 1
  {
    CeilDiv(count, perPage)
  }

  /** The two bounds that make the page count exact: the pages hold all items,
      and one page fewer would not. */
  lemma TotalPagesBounds(count: nat, perPage: nat)
    requires perPage >= 1
    ensures TotalPages(count, perPage) * perPage >= count
    ensures (TotalPages(count, perPage) - 1) * perPage < count || count == 0
    ensures count == 0 <==> TotalPages(count, perPage) == 0
  {
    var q := (count + perPage - 1) / perPage;
    var r := (count + perPage - 1) % perPage;
    assert count + perPage - 1 == q * perPage + r;
    assert q * perPage == count + perPage - 1 - r;
    assert (q - 1) * perPage == q * perPage - perPage;
  }

  /** More than one page exactly when there are more items than fit on one. */
  lemma MoreThanOnePageIff(count: nat, perPage: nat)
    requires perPage >= 1
    ensures TotalPages(count, perPage) > 1 <==> count > perPage
  {
    TotalPagesBounds(count, perPage);
    var t := TotalPages(count, perPage);
    if t > 1 {
      MulMonotone(t - 1, 1, perPage);
    } else {
      MulMonotone(1, t, perPage);
    }
  }

  lemma MulMonotone(a: int, b: int, c: nat)
    requires a >= b
    ensures a * c >= b * c
  {
    assert a * c == b * c + (a - b) * c;
  }

  /** Page `page` of `items`, counted from 1. */
  function PageOf<T>(items: seq<T>, page: int, perPage: nat): (r: seq<T>)
    requires perPage >= 1
    ensures |r| <= perPage
  {
    var r := JsSlice(items, (page - 1) * perPage, page * perPage);
    assert |r| <= perPage by {
      if page >= 1 {
        assert (page - 1) * perPage >= 0 && page * perPage == (page - 1) * perPage + perPage;
      } else {
        assert page * perPage <= 0;
      }
    }
    r
  }

  /** For page 1 on, the page is the slice between the two clamped bounds. */
  lemma PageAsSlice<T>(items: seq<T>, page: int, perPage: nat)
    requires perPage >= 1 && page >= 1
    ensures (page - 1) * perPage >= 0
    ensures PageOf(items, page, perPage) ==
      items[Min((page - 1) * perPage, |items|)..Min(page * perPage, |items|)]
  {
    assert page * perPage == (page - 1) * perPage + perPage;
    assert (page - 1) * perPage >= 0;
  }

  /** Pages 1 to `k` one after the other. */
  function FirstPages<T>(items: seq<T>, perPage: nat, k: nat): seq<T>
    requires perPage >= 1
  {
    if k == 0 then [] else FirstPages(items, perPage, k - 1) + PageOf(items, k, perPage)
  }

  lemma {:induction false} FirstPagesArePrefix<T>(items: seq<T>, perPage: nat, k: nat)
    requires perPage >= 1
    ensures k * perPage >= 0
    ensures FirstPages(items, perPage, k) == items[..Min(k * perPage, |items|)]
  {
    if k > 0 {
      FirstPagesArePrefix(items, perPage, k - 1);
      PageAsSlice(items, k, perPage);
      var a := Min((k - 1) * perPage, |items|);
      var b := Min(k * perPage, |items|);
      assert k * perPage == (k - 1) * perPage + perPage;
      assert a <= b;
      assert items[..a] + items[a..b] == items[..b];
    }
  }

  /** The pages, taken in order up to the page count, are exactly the list. */
  lemma PagesCoverTheList<T>(items: seq<T>, perPage: nat)
    requires perPage >= 1
    ensures FirstPages(items, perPage, TotalPages(|items|, perPage)) == items
  {
    TotalPagesBounds(|items|, perPage);
    FirstPagesArePrefix(items, perPage, TotalPages(|items|, perPage));
    assert items[..|items|] == items;
  }

  /** A page after the last one is empty. */
  lemma PageAfterLastEmpty<T>(items: seq<T>, page: int, perPage: nat)
    requires perPage >= 1
    requires page > TotalPages(|items|, perPage)
    ensures PageOf(items, page, perPage) == []
  {
    var t := TotalPages(|items|, perPage);
    TotalPagesBounds(|items|, perPage);
    StartBeyond(page - 1, t, perPage);
    PageAsSlice(items, page, perPage);
  }

  lemma StartBeyond(k: int, t: nat, perPage: nat)
    requires k >= t
    ensures k * perPage >= t * perPage
  {
    assert k * perPage == t * perPage + (k - t) * perPage;
  }
}
