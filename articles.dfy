/**
 * The pure part of the "All posts" page: reading the `?page=` value, the page count and
 * clamping, the slice of posts a page asks for, and the mapping of fetched rows into
 * `PostPreview`s with their cover fallbacks.
 */
module Articles {
  import opened Wrappers
  import opened ArticleCard

  const PageSize: nat := 10

  // ---------------------------------------------------------------------------
  // JavaScript truthiness on optional strings
  // ---------------------------------------------------------------------------

  /** An absent value and the empty string are both falsy. */
  predicate Falsy(v: Option<string>)
  {
    v.None? || v.value == ""
  }

  /** `v || fallback` for an optional string. */
  function OrElse(v: Option<string>, fallback: string): (r: string)
    ensures Falsy(v) ==> r == fallback
    ensures !Falsy(v) ==> r == v.value
  {
    if Falsy(v) then fallback else v.value
  }

  /** `record[key]` on a plain lookup table: the entry, or undefined. */
  function Lookup(table: map<string, string>, key: string): (r: Option<string>)
    ensures r.Some? <==> key in table
    ensures r.Some? ==> r.value == table[key]
  {
    if key in table then Some(table[key]) else None
  }

  // ---------------------------------------------------------------------------
  // Page number
  // ---------------------------------------------------------------------------

  /**
   * `searchParams.get("page") || "1"`: the text handed to `Number`. The number `Number`
   * makes of it is the `raw` that `NormalizePage` and `NormalizePageAsWritten` take.
   */
  function PageText(param: Option<string>): (text: string)
    ensures text != ""
    ensures Falsy(param) ==> text == "1"
    ensures !Falsy(param) ==> text == param.value
  {
    OrElse(param, "1")
  }

  /**
   * The page as the code computes it from `Number(text)`, with `None` for NaN and the
   * infinities: `floor(raw)` when raw is finite and positive, 1 otherwise. For
   * 0 < raw < 1 this is 0, which is not a page.
   */
  function NormalizePageAsWritten(raw: Option<real>): (page: int)
    ensures page >= 0
    ensures raw.Some? && raw.value > 0.0 ==> page as real <= raw.value < page as real + 1.0
    ensures raw.None? || raw.value <= 0.0 ==> page == 1
    ensures page == 0 <==> raw.Some? && 0.0 < raw.value < 1.0
  {
    if raw.Some? && raw.value > 0.0 then raw.value.Floor else 1
  }

  /** `?page=0.5` normalises to page 0, so the page shown is 0 and the slice starts at -10. */
  lemma FractionalPageIsZero(total: nat)
    ensures NormalizePageAsWritten(Some(0.5)) == 0
    ensures SafePage(NormalizePageAsWritten(Some(0.5)), TotalPages(total)) == 0
    ensures SliceStart(SafePage(NormalizePageAsWritten(Some(0.5)), TotalPages(total))) == -10
  {
    assert (0.5).Floor == 0;
  }

  /**
   * The page the rest of this model uses: `floor(raw)` when raw is finite and at least 1,
   * otherwise 1. It agrees with the code wherever the code yields a page.
   */
  function NormalizePage(raw: Option<real>): (page: int)
    ensures page >= 1
    ensures raw.Some? && raw.value >= 1.0 ==> page as real <= raw.value < page as real + 1.0
    ensures raw.None? || raw.value < 1.0 ==> page == 1
    ensures NormalizePageAsWritten(raw) >= 1 ==> page == NormalizePageAsWritten(raw)
  {
    if raw.Some? && raw.value >= 1.0 then raw.value.Floor else 1
  }

  /** An integer page survives the round trip through `String(p)` and `Number(...)` unchanged. */
  lemma NormalizeIntegerPage(p: int)
    requires p >= 1
    ensures NormalizePage(Some(p as real)) == p
  {
  }

  // ---------------------------------------------------------------------------
  // Page count and clamping
  // ---------------------------------------------------------------------------

  /** `Math.max(1, Math.ceil(total / PAGE_SIZE))`. */
  function TotalPages(total: nat): (n: nat)
    ensures n >= 1
    ensures total == 0 ==> n == 1
    ensures total > 0 ==> (n - 1) * PageSize < total <= n * PageSize
  {
    var pages := (total + PageSize - 1) / PageSize;
    if pages < 1 then 1 else pages
  }

  /** `Math.min(page, totalPages)`: the page shown and fetched. */
  function SafePage(page: int, totalPages: nat): (p: int)
    ensures p <= totalPages
    ensures p == page <==> page <= totalPages
    ensures page >= 1 && totalPages >= 1 ==> 1 <= p
  {
    if page < totalPages then page else totalPages
  }

  lemma TwentyFivePostsMakeThreePages()
    ensures TotalPages(0) == 1 && SafePage(NormalizePage(Some(7.0)), TotalPages(0)) == 1
    ensures TotalPages(25) == 3
    ensures SafePage(NormalizePage(Some(5.0)), TotalPages(25)) == 3
    ensures SafePage(NormalizePage(Some(0.0)), TotalPages(25)) == 1
    ensures SafePage(NormalizePage(None), TotalPages(25)) == 1
  {
    assert (5.0).Floor == 5;
    assert (7.0).Floor == 7;
  }

  /** `Math.max(1, Math.min(nextPage, totalPages))`: where a navigation request lands. */
  function ClampPage(next: int, totalPages: nat): (p: int)
    ensures 1 <= p
    ensures totalPages >= 1 ==> p <= totalPages
    ensures 1 <= next <= totalPages ==> p == next
    ensures next < 1 ==> p == 1
    ensures totalPages >= 1 && next > totalPages ==> p == totalPages
  {
    var upper := if next < totalPages then next else totalPages;
    if upper < 1 then 1 else upper
  }

  /** Display and navigation clamp a normalised page to the same place; clamping twice changes nothing. */
  lemma ClampAgreesWithSafePage(page: int, totalPages: nat)
    requires page >= 1 && totalPages >= 1
    ensures ClampPage(page, totalPages) == SafePage(page, totalPages)
    ensures ClampPage(ClampPage(page, totalPages), totalPages) == ClampPage(page, totalPages)
  {
  }

  // ---------------------------------------------------------------------------
  // Slice bounds
  // ---------------------------------------------------------------------------

  /** `(safePage - 1) * PAGE_SIZE`: first index asked for. */
  function SliceStart(page: int): (start: int)
    ensures page >= 1 ==> start >= 0
    ensures start % PageSize == 0
  {
    (page - 1) * PageSize
  }

  /** `start + PAGE_SIZE`: first index not asked for. */
  function SliceEnd(page: int): (end: int)
    ensures end - SliceStart(page) == PageSize
  {
    SliceStart(page) + PageSize
  }

  /** Each page's slice ends where the next one starts. */
  lemma AdjacentPages(page: int)
    ensures SliceEnd(page) == SliceStart(page + 1)
  {
  }

  /** Slices of different pages never overlap. */
  lemma {:induction false} PagesDisjoint(p: int, q: int)
    requires p < q
    ensures SliceEnd(p) <= SliceStart(q)
    decreases q - p
  {
    if p + 1 < q {
      PagesDisjoint(p + 1, q);
    }
  }

  /** The page whose slice holds index i. */
  function PageOfIndex(i: nat): (page: int)
    ensures page >= 1
    ensures SliceStart(page) <= i < SliceEnd(page)
  {
    i / PageSize + 1
  }

  /** No other page's slice holds index i. */
  lemma OnlyOnePageHoldsIndex(i: nat, page: int)
    requires SliceStart(page) <= i < SliceEnd(page)
    ensures page == PageOfIndex(i)
  {
    var p := PageOfIndex(i);
    if page < p {
      PagesDisjoint(page, p);
    } else if p < page {
      PagesDisjoint(p, page);
    }
  }

  /** Every post counted in `total` lies on a page that clamping allows, and the last page is not empty. */
  lemma EveryPostReachable(total: nat, i: nat)
    requires i < total
    ensures PageOfIndex(i) <= TotalPages(total)
    ensures SliceStart(TotalPages(total)) < total
  {
    var n := TotalPages(total);
    if PageOfIndex(i) > n {
      PagesDisjoint(n, PageOfIndex(i));
    }
  }

  // ---------------------------------------------------------------------------
  // Rows to previews
  // ---------------------------------------------------------------------------

  /** One fetched row: the query's projection of a post, every field but title and slug optional. */
  datatype PostRow = PostRow(
    title: string,
    slug: string,
    publishedAt: Option<string>,
    excerpt: Option<string>,
    categorySlug: Option<string>,
    categoryLabel: Option<string>,
    author: Option<string>,
    imageUrl: Option<string>)

  const DefaultAuthor: string := "Joseph"
  const DefaultLabel: string := "Uncategorized"

  /** Covers by category slug, for posts without an image. */
  const Fallbacks: map<string, string> := map[
    "journal-articles" := "linear-gradient(135deg, rgba(156,199,178,0.75), rgba(20,20,20,0.08))",
    "devotionals" := "linear-gradient(135deg, rgba(156,199,178,0.55), rgba(20,20,20,0.05))",
    "blogs" := "linear-gradient(135deg, rgba(156,199,178,0.45), rgba(20,20,20,0.04))",
    "reviews" := "linear-gradient(135deg, rgba(156,199,178,0.40), rgba(20,20,20,0.06))",
    "resources" := "linear-gradient(135deg, rgba(156,199,178,0.35), rgba(20,20,20,0.05))"
  ]

  const DefaultGradient: string := "linear-gradient(135deg, rgba(156,199,178,0.45), rgba(20,20,20,0.04))"

  function ImageCover(url: string): string
  {
    "url(" + url + ") center/cover no-repeat"
  }

  /** The cover: an image wins; else the category's gradient; else the default, which is the blogs gradient. */
  function Cover(imageUrl: Option<string>, categorySlug: Option<string>): (c: string)
    ensures !Falsy(imageUrl) ==> c == ImageCover(imageUrl.value)
    ensures Falsy(imageUrl) && OrElse(categorySlug, "") in Fallbacks ==> c == Fallbacks[OrElse(categorySlug, "")]
    ensures Falsy(imageUrl) && OrElse(categorySlug, "") !in Fallbacks ==> c == DefaultGradient == Fallbacks["blogs"]
    ensures c != ""
  {
    if !Falsy(imageUrl) then ImageCover(imageUrl.value)
    else OrElse(Lookup(Fallbacks, OrElse(categorySlug, "")), DefaultGradient)
  }

  /** `s.slice(0, 10)`. */
  function FirstTen(s: string): (r: string)
    ensures |r| <= 10 && r <= s
    ensures |s| <= 10 ==> r == s
    ensures |s| > 10 ==> |r| == 10
  {
    if |s| <= 10 then s else s[..10]
  }

  /** No field a card reads is missing, and the ones with defaults are never empty. */
  predicate Populated(p: PostPreview)
  {
    && p.author.Some? && p.author.value != ""
    && p.publishedAt.Some? && |p.publishedAt.value| <= 10
    && p.coverColor.Some? && p.coverColor.value != ""
    && p.categoryLabel != ""
  }

  function ToPreview(row: PostRow): (p: PostPreview)
    ensures Populated(p)
    ensures p.title == row.title && p.slug == row.slug
    ensures p.categorySlug == (if Falsy(row.categorySlug) then "" else row.categorySlug.value)
    ensures p.categoryLabel == (if Falsy(row.categoryLabel) then DefaultLabel else row.categoryLabel.value)
    ensures p.author == Some(if Falsy(row.author) then DefaultAuthor else row.author.value)
    ensures p.excerpt == (if Falsy(row.excerpt) then "" else row.excerpt.value)
    ensures Falsy(row.publishedAt) ==> p.publishedAt == Some("")
    ensures !Falsy(row.publishedAt) && |row.publishedAt.value| <= 10 ==> p.publishedAt == row.publishedAt
    ensures !Falsy(row.publishedAt) && |row.publishedAt.value| > 10 ==> p.publishedAt == Some(row.publishedAt.value[..10])
    ensures p.coverColor == Some(Cover(row.imageUrl, row.categorySlug))
  {
    PostPreview(
      title := row.title,
      slug := row.slug,
      excerpt := OrElse(row.excerpt, ""),
      author := Some(OrElse(row.author, DefaultAuthor)),
      publishedAt := Some(FirstTen(OrElse(row.publishedAt, ""))),
      categorySlug := OrElse(row.categorySlug, ""),
      categoryLabel := OrElse(row.categoryLabel, DefaultLabel),
      coverColor := Some(Cover(row.imageUrl, row.categorySlug)))
  }

  /** A row missing every optional field still maps to a full preview, labelled "Uncategorized". */
  lemma BareRowIsPopulated(title: string, slug: string)
    ensures var p := ToPreview(PostRow(title, slug, None, None, None, None, None, None));
      && Populated(p) && p.categoryLabel == "Uncategorized" && p.author == Some("Joseph")
      && p.coverColor == Some(DefaultGradient)
  {
  }

  /** `data.items.map(...)`: one preview per row, in the same order. */
  function MapRows(rows: seq<PostRow>): (ps: seq<PostPreview>)
    ensures |ps| == |rows|
    ensures forall i :: 0 <= i < |rows| ==> ps[i] == ToPreview(rows[i]) && Populated(ps[i])
  {
    seq(|rows|, i requires 0 <= i < |rows| => ToPreview(rows[i]))
  }
}
