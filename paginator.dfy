/**
 * The listing-page crawl of `get_all_urls` (main.py:10-59).
 *
 * Listing page n of a category lives at the category's base URL followed by the
 * decimal digits of n. Pages are requested for n = 1, 2, ... until the first body
 * that contains the "no product available" sentinel; that page is not kept. Each
 * kept page is then parsed, and the link of every product article on it is
 * collected, page by page, in order.
 *
 * The HTTP transport is the parameter `fetch` (URL to body text) and the HTML
 * parse of a listing page is the parameter `listing` (URL to its product articles,
 * one entry per article: `Some(href)` when the article holds the thumbnail link
 * with an `href`, `None` when it does not, which makes the source raise).
 */
module Paginator {
  import opened Wrappers

  /** The text a listing page past the last one carries. */
  const Sentinel: string := "Aucun produit disponible pour le moment"

  // ---------------------------------------------------------------------------
  // Decimal page numbers (Python's `f"{page}{page_number}"`)
  // ---------------------------------------------------------------------------

  predicate IsDigit(c: char) { '0' <= c <= '9' }

  function DigitChar(d: nat): (c: char)
    requires d < 10
    ensures IsDigit(c) && c as int - '0' as int == d
  {
    ('0' as int + d) as char
  }

  /** The digits Python writes for a non-negative integer: no leading zero except for 0 itself. */
  function Decimal(n: nat): (s: string)
    ensures |s| >= 1
    ensures forall i :: 0 <= i < |s| ==> IsDigit(s[i])
    ensures s[0] == '0' ==> n == 0
  {
    if n < 10 then [DigitChar(n)] else Decimal(n / 10) + [DigitChar(n % 10)]
  }

  /** Reads a string of decimal digits back as a number (the inverse of `Decimal`). */
  function DigitValue(c: char): nat
    requires IsDigit(c)
  {
    c as int - '0' as int
  }

  function ParseDecimal(s: string): nat
    requires forall i :: 0 <= i < |s| ==> IsDigit(s[i])
  {
    if s == [] then 0
    else ParseDecimal(s[..|s| - 1]) * 10 + DigitValue(s[|s| - 1])
  }

  lemma {:induction false} DecimalRoundTrip(n: nat)
    ensures ParseDecimal(Decimal(n)) == n
  {
    if n >= 10 {
      var s := Decimal(n);
      assert s[..|s| - 1] == Decimal(n / 10);
      DecimalRoundTrip(n / 10);
    }
  }

  /** Distinct page numbers give distinct digit strings. */
  lemma DecimalInjective(m: nat, n: nat)
    requires Decimal(m) == Decimal(n)
    ensures m == n
  {
    DecimalRoundTrip(m);
    DecimalRoundTrip(n);
  }

  /** The URL of listing page `n` of the category whose base URL is `base`. */
  function PageUrl(base: string, n: nat): (url: string)
    ensures |url| == |base| + |Decimal(n)|
    ensures url[..|base|] == base && url[|base|..] == Decimal(n)
  {
    base + Decimal(n)
  }

  /** Two page URLs of one category are equal only for the same page number. */
  lemma PageUrlInjective(base: string, m: nat, n: nat)
    requires PageUrl(base, m) == PageUrl(base, n)
    ensures m == n
  {
    DecimalInjective(m, n);
  }

  // ---------------------------------------------------------------------------
  // The sentinel test and the first empty page
  // ---------------------------------------------------------------------------

  /** `needle` occurs in `body` starting at index `i`. */
  predicate OccursAt(body: string, needle: string, i: nat) {
    i + |needle| <= |body| && body[i..i + |needle|] == needle
  }

  /** Python's `needle in body` on strings. */
  predicate Contains(body: string, needle: string)
    ensures needle == [] ==> Contains(body, needle)
    ensures Contains(body, needle) ==> |needle| <= |body|
  {
    assert needle == [] ==> OccursAt(body, needle, 0);
    exists i: nat | i <= |body| :: OccursAt(body, needle, i)
  }

  /** Listing page `n` carries the sentinel text. */
  predicate IsEmptyPage(fetch: string -> string, base: string, n: nat)
    ensures IsEmptyPage(fetch, base, n) ==> |Sentinel| <= |fetch(PageUrl(base, n))|
  {
    Contains(fetch(PageUrl(base, n)), Sentinel)
  }

  /** `k` is the first listing page that carries the sentinel text. */
  predicate IsFirstEmptyPage(fetch: string -> string, base: string, k: nat) {
    && k >= 1
    && IsEmptyPage(fetch, base, k)
    && forall j :: 1 <= j < k ==> !IsEmptyPage(fetch, base, j)
  }

  /** There is at most one first empty page. */
  lemma FirstEmptyPageUnique(fetch: string -> string, base: string, k1: nat, k2: nat)
    requires IsFirstEmptyPage(fetch, base, k1) && IsFirstEmptyPage(fetch, base, k2)
    ensures k1 == k2
  {
  }

  /** Searches pages n, n + 1, ... for the first empty one, knowing page `bound` is empty. */
  function SearchEmptyPage(fetch: string -> string, base: string, n: nat, bound: nat): (k: nat)
    requires 1 <= n <= bound && IsEmptyPage(fetch, base, bound)
    requires forall j :: 1 <= j < n ==> !IsEmptyPage(fetch, base, j)
    ensures n <= k <= bound && IsFirstEmptyPage(fetch, base, k)
    decreases bound - n
  {
    if IsEmptyPage(fetch, base, n) then n else SearchEmptyPage(fetch, base, n + 1, bound)
  }

  /** The first empty page of a category that has an empty page at or before `bound`. */
  function FirstEmptyPage(fetch: string -> string, base: string, bound: nat): (k: nat)
    requires bound >= 1 && IsEmptyPage(fetch, base, bound)
    ensures 1 <= k <= bound && IsFirstEmptyPage(fetch, base, k)
  {
    SearchEmptyPage(fetch, base, 1, bound)
  }

  /** The URLs of listing pages 1 to `count`, in page order. */
  function ListingUrls(base: string, count: nat): (r: seq<string>)
    ensures |r| == count
    ensures forall i :: 0 <= i < count ==> r[i] == PageUrl(base, i + 1)
  {
    if count == 0 then [] else ListingUrls(base, count - 1) + [PageUrl(base, count)]
  }

  /** A page beyond `count` (in particular the empty page that stopped the crawl) is not listed. */
  lemma LaterPageNotListed(base: string, count: nat, n: nat)
    requires n > count
    ensures PageUrl(base, n) !in ListingUrls(base, count)
  {
    var urls := ListingUrls(base, count);
    if PageUrl(base, n) in urls {
      var i :| 0 <= i < count && urls[i] == PageUrl(base, n);
      PageUrlInjective(base, i + 1, n);
    }
  }

  /** No listing URL is collected twice. */
  lemma ListingUrlsDistinct(base: string, count: nat)
    ensures forall i, j :: 0 <= i < j < count ==> ListingUrls(base, count)[i] != ListingUrls(base, count)[j]
  {
    forall i, j | 0 <= i < j < count
      ensures ListingUrls(base, count)[i] != ListingUrls(base, count)[j]
    {
      if ListingUrls(base, count)[i] == ListingUrls(base, count)[j] {
        PageUrlInjective(base, i + 1, j + 1);
      }
    }
  }

  /**
   * The `while not_last_page` loop (main.py:22-43): requests pages 1, 2, ... and
   * keeps every URL up to, not including, the first page whose body carries the
   * sentinel. `bound` is any page known to carry it; the source has no such bound
   * and runs forever without one. `requested` lists the URLs fetched, in order.
   */
  method CollectListingUrls(fetch: string -> string, base: string, ghost bound: nat)
    returns (urlList: seq<string>, ghost requested: seq<string>)
    requires bound >= 1 && IsEmptyPage(fetch, base, bound)
    ensures IsFirstEmptyPage(fetch, base, |urlList| + 1)
    ensures urlList == ListingUrls(base, FirstEmptyPage(fetch, base, bound) - 1)
    ensures requested == ListingUrls(base, FirstEmptyPage(fetch, base, bound))
    ensures IsEmptyPage(fetch, base, 1) ==> urlList == [] && requested == [PageUrl(base, 1)]
  {
    var pageNumber := 1;
    var notLastPage := true;
    urlList := [];
    requested := [];
    while notLastPage
      invariant 1 <= pageNumber <= bound
      invariant forall j :: 1 <= j < pageNumber ==> !IsEmptyPage(fetch, base, j)
      invariant urlList == ListingUrls(base, pageNumber - 1)
      invariant notLastPage ==> requested == urlList
      invariant !notLastPage ==> IsEmptyPage(fetch, base, pageNumber) && requested == urlList + [PageUrl(base, pageNumber)]
      decreases bound - pageNumber, notLastPage
    {
      var url := base + Decimal(pageNumber);
      var response := fetch(url);
      requested := requested + [url];
      if Contains(response, Sentinel) {
        notLastPage := false;
      } else {
        urlList := urlList + [url];
        pageNumber := pageNumber + 1;
      }
    }
    FirstEmptyPageUnique(fetch, base, pageNumber, FirstEmptyPage(fetch, base, bound));
  }

  // ---------------------------------------------------------------------------
  // Product links on the listing pages (main.py:48-57)
  // ---------------------------------------------------------------------------

  /**
   * The links of the product articles of one listing page, in page order, or
   * `None` when some article has no thumbnail link with an `href`.
   */
  function PageHrefs(articles: seq<Option<string>>): (r: Option<seq<string>>)
    ensures r.Some? <==> forall i :: 0 <= i < |articles| ==> articles[i].Some?
    ensures r.Some? ==> |r.value| == |articles|
    ensures r.Some? ==> forall i :: 0 <= i < |articles| ==> r.value[i] == articles[i].value
  {
    if articles == [] then Some([])
    else
      match PageHrefs(articles[..|articles| - 1])
      case None => None
      case Some(hrefs) =>
        match articles[|articles| - 1]
        case None => None
        case Some(href) => Some(hrefs + [href])
  }

  /** The links of all product articles of the listing pages `urls`, page after page. */
  function ProductHrefs(urls: seq<string>, listing: string -> seq<Option<string>>): (r: Option<seq<string>>)
    ensures r.Some? ==> |r.value| == ArticleCount(urls, listing)
  {
    if urls == [] then Some([])
    else
      match ProductHrefs(urls[..|urls| - 1], listing)
      case None => None
      case Some(acc) =>
        match PageHrefs(listing(urls[|urls| - 1]))
        case None => None
        case Some(hrefs) => Some(acc + hrefs)
  }

  /** The number of product articles on the listing pages `urls`. */
  function ArticleCount(urls: seq<string>, listing: string -> seq<Option<string>>): nat {
    if urls == [] then 0 else ArticleCount(urls[..|urls| - 1], listing) + |listing(urls[|urls| - 1])|
  }

  /** One more listing page adds that page's links, in article order, after the earlier ones. */
  lemma ProductHrefsLast(urls: seq<string>, u: string, listing: string -> seq<Option<string>>)
    ensures ProductHrefs(urls + [u], listing) == Join(ProductHrefs(urls, listing), PageHrefs(listing(u)))
  {
    assert (urls + [u])[..|urls|] == urls;
  }

  /** A single listing page yields exactly its own articles' links, in article order. */
  lemma ProductHrefsSingle(u: string, listing: string -> seq<Option<string>>)
    ensures ProductHrefs([u], listing) == PageHrefs(listing(u))
  {
    ProductHrefsLast([], u, listing);
    assert [] + [u] == [u];
    var page := PageHrefs(listing(u));
    if page.Some? {
      assert [] + page.value == page.value;
    }
  }

  /** Joins the results of two runs of listing pages; a failure in either is a failure. */
  function Join(a: Option<seq<string>>, b: Option<seq<string>>): Option<seq<string>>
  {
    if a.Some? && b.Some? then Some(a.value + b.value) else None
  }

  /** Crawling `u + v` is crawling `u`, then `v`, and concatenating the links. */
  lemma {:induction false} ProductHrefsAppend(u: seq<string>, v: seq<string>, listing: string -> seq<Option<string>>)
    ensures ProductHrefs(u + v, listing) == Join(ProductHrefs(u, listing), ProductHrefs(v, listing))
    decreases |v|
  {
    if v == [] {
      assert u + v == u;
      if ProductHrefs(u, listing).Some? {
        assert ProductHrefs(u, listing).value + [] == ProductHrefs(u, listing).value;
      }
    } else {
      var v' := v[..|v| - 1];
      assert (u + v)[..|u + v| - 1] == u + v';
      assert (u + v)[|u + v| - 1] == v[|v| - 1];
      ProductHrefsAppend(u, v', listing);
      var a, b, c := ProductHrefs(u, listing), ProductHrefs(v', listing), PageHrefs(listing(v[|v| - 1]));
      if a.Some? && b.Some? && c.Some? {
        assert a.value + b.value + c.value == a.value + (b.value + c.value);
      }
    }
  }

  /** A listing page without articles adds nothing and raises nothing. */
  lemma PageWithoutArticles(urls: seq<string>, url: string, listing: string -> seq<Option<string>>)
    requires listing(url) == []
    ensures ProductHrefs(urls + [url], listing) == ProductHrefs(urls, listing)
  {
    assert (urls + [url])[..|urls|] == urls;
    assert (urls + [url])[|urls|] == url;
    assert PageHrefs(listing(url)) == Some([]);
    if ProductHrefs(urls, listing).Some? {
      assert ProductHrefs(urls, listing).value + [] == ProductHrefs(urls, listing).value;
    }
  }

  /** The crawl of the links fails exactly when some article of some page has no link. */
  lemma {:induction false} ProductHrefsFails(urls: seq<string>, listing: string -> seq<Option<string>>)
    ensures ProductHrefs(urls, listing).None? <==>
      exists i, j :: 0 <= i < |urls| && 0 <= j < |listing(urls[i])| && listing(urls[i])[j].None?
  {
    if urls != [] {
      var u := urls[..|urls| - 1];
      ProductHrefsFails(u, listing);
      if ProductHrefs(urls, listing).None? && ProductHrefs(u, listing).Some? {
        var j :| 0 <= j < |listing(urls[|urls| - 1])| && listing(urls[|urls| - 1])[j].None?;
        assert listing(urls[|urls| - 1])[j].None?;
      }
      if ProductHrefs(u, listing).None? {
        var i, j :| 0 <= i < |u| && 0 <= j < |listing(u[i])| && listing(u[i])[j].None?;
        assert urls[i] == u[i];
      }
    }
  }

  /**
   * When the crawl of the links succeeds, a link is collected exactly when it is
   * the link of some article of some listing page.
   */
  lemma {:induction false} ProductHrefsMembers(urls: seq<string>, listing: string -> seq<Option<string>>, href: string)
    requires ProductHrefs(urls, listing).Some?
    ensures href in ProductHrefs(urls, listing).value <==>
      exists i, j :: 0 <= i < |urls| && 0 <= j < |listing(urls[i])| && listing(urls[i])[j] == Some(href)
  {
    if urls != [] {
      var u := urls[..|urls| - 1];
      var last := listing(urls[|urls| - 1]);
      ProductHrefsMembers(u, listing, href);
      var acc := ProductHrefs(u, listing).value;
      var hrefs := PageHrefs(last).value;
      assert ProductHrefs(urls, listing).value == acc + hrefs;
      if href in acc {
        var i, j :| 0 <= i < |u| && 0 <= j < |listing(u[i])| && listing(u[i])[j] == Some(href);
        assert urls[i] == u[i];
      } else if href in hrefs {
        var j :| 0 <= j < |hrefs| && hrefs[j] == href;
        assert last[j] == Some(href);
      }
      if exists i, j :: 0 <= i < |urls| && 0 <= j < |listing(urls[i])| && listing(urls[i])[j] == Some(href) {
        var i, j :| 0 <= i < |urls| && 0 <= j < |listing(urls[i])| && listing(urls[i])[j] == Some(href);
        if i < |u| {
          assert u[i] == urls[i];
        } else {
          assert hrefs[j] == href;
        }
      }
    }
  }

  /**
   * The nested `for` loops of main.py:48-57: each listing page is parsed and the
   * link of each of its product articles appended, page by page.
   */
  method CollectProductUrls(urlList: seq<string>, listing: string -> seq<Option<string>>)
    returns (r: Option<seq<string>>)
    ensures r == ProductHrefs(urlList, listing)
  {
    var urlProductsList := [];
    for i := 0 to |urlList|
      invariant ProductHrefs(urlList[..i], listing) == Some(urlProductsList)
    {
      assert urlList[..i + 1][..i] == urlList[..i];
      var products := listing(urlList[i]);
      ghost var before := urlProductsList;
      for j := 0 to |products|
        invariant PageHrefs(products[..j]).Some?
        invariant urlProductsList == before + PageHrefs(products[..j]).value
      {
        assert products[..j + 1][..j] == products[..j];
        match products[j]
        case None =>
          assert PageHrefs(products).None?;
          assert ProductHrefs(urlList[..i + 1], listing).None?;
          ProductHrefsAppend(urlList[..i + 1], urlList[i + 1..], listing);
          assert urlList[..i + 1] + urlList[i + 1..] == urlList;
          return None;
        case Some(href) =>
          urlProductsList := urlProductsList + [href];
      }
      assert products[..|products|] == products;
    }
    assert urlList[..|urlList|] == urlList;
    r := Some(urlProductsList);
  }

  /**
   * `get_all_urls` (main.py:10-59): the product links of every listing page
   * before the first empty one.
   */
  method GetAllUrls(fetch: string -> string, listing: string -> seq<Option<string>>, base: string, ghost bound: nat)
    returns (r: Option<seq<string>>)
    requires bound >= 1 && IsEmptyPage(fetch, base, bound)
    ensures r == ProductHrefs(ListingUrls(base, FirstEmptyPage(fetch, base, bound) - 1), listing)
    ensures IsEmptyPage(fetch, base, 1) ==> r == Some([])
  {
    var urlList, requested := CollectListingUrls(fetch, base, bound);
    r := CollectProductUrls(urlList, listing);
  }
}
