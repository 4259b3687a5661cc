/** The paginator every listing goes through: ten posts a page, the page
    chosen by the `page` query parameter. */
module Paging {
  import opened Entities

  const PageSize: nat := 10

  /** Number of pages a listing of `n` posts spans; an empty listing still
      has one (empty) page. */
  function PageCount(n: nat): (c: nat)
    ensures c >= 1
    ensures n <= c * PageSize
    ensures n > 0 ==> (c - 1) * PageSize < n
    ensures n == 0 ==> c == 1
  {
    if n == 0 then 1 else (n + PageSize - 1) / PageSize
  }

  /** The page of `s` selected by `arg`: `None` stands for a missing or
      non-integer parameter and selects page 1; a number outside
      1..PageCount selects the last page. */
  function Paginate(s: seq<Post>, arg: Option<int>): (p: Page)
    ensures p.numPages == PageCount(|s|)
    ensures 1 <= p.number <= p.numPages
    ensures arg.None? ==> p.number == 1
    ensures arg.Some? && 1 <= arg.value <= p.numPages ==> p.number == arg.value
    ensures arg.Some? && !(1 <= arg.value <= p.numPages) ==> p.number == p.numPages
    ensures |p.items| <= PageSize
    ensures p.number < p.numPages ==> |p.items| == PageSize
    ensures (p.number - 1) * PageSize + |p.items| <= |s|
    ensures p.items == s[(p.number - 1) * PageSize .. (p.number - 1) * PageSize + |p.items|]
    ensures p.number == p.numPages ==> (p.number - 1) * PageSize + |p.items| == |s|
  {
    var count := PageCount(|s|);
    var n := match arg
      case None => 1
      case Some(k) => if 1 <= k <= count then k else count;
    var lo := (n - 1) * PageSize;
    var hi := if lo + PageSize <= |s| then lo + PageSize else |s|;
    Page(s[lo..hi], n, count)
  }

  /** The first page holds the first (newest) posts of the listing. */
  lemma FirstPageIsPrefix(s: seq<Post>)
    ensures Paginate(s, None).items == if |s| <= PageSize then s else s[..PageSize]
  {
  }

  /** Every post of a listing is shown: the one at position `i` is entry
      `i % PageSize` of page `i / PageSize + 1`. */
  lemma ItemOnItsPage(s: seq<Post>, i: nat)
    requires i < |s|
    ensures var p := Paginate(s, Some(i / PageSize + 1));
      && p.number == i / PageSize + 1
      && i % PageSize < |p.items|
      && p.items[i % PageSize] == s[i]
  {
  }

  /** Sixteen posts split into a full first page and six on the second. */
  lemma SixteenPostsSplit(s: seq<Post>)
    requires |s| == 16
    ensures |Paginate(s, None).items| == 10
    ensures |Paginate(s, Some(2)).items| == 6
    ensures Paginate(s, Some(2)).numPages == 2
  {
  }
}
