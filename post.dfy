/**
 * The single-post page: find the post whose slug the route names, choose its cover,
 * format its date and render its body blocks as headings and paragraphs.
 */
module Post {
  import opened Wrappers
  import opened Dates
  import ArticleCard

  /** One body block; the page treats type "h2" as a heading and any other type as a paragraph. */
  datatype Block = Block(kind: string, text: string)

  datatype MockPost = MockPost(
    title: string,
    slug: string,
    categorySlug: string,
    categoryLabel: string,
    author: string,
    publishedAt: string,
    coverColor: Option<string>,
    body: seq<Block>)

  /** The page's built-in posts. */
  const MockPosts: seq<MockPost> := [
    MockPost(
      title := "Recovering the Reformed Imagination",
      slug := "recovering-the-reformed-imagination",
      categorySlug := "journal-articles",
      categoryLabel := "Journal Articles",
      author := "Joseph",
      publishedAt := "2026-01-02",
      coverColor := Some("linear-gradient(135deg, rgba(156,199,178,0.75), rgba(20,20,20,0.08))"),
      body := [
        Block("p", "This is placeholder content. Later, this will come from Sanity as rich text."),
        Block("p", "For now, we\U{2019}re building the layout: readable typography, spacing, and a simple structure."),
        Block("h2", "A Second Heading"),
        Block("p", "More placeholder text to show how a longer article will feel on the page.")
      ]),
    MockPost(
      title := "Mid-Week Musings: On Prayer and Attention",
      slug := "mid-week-musings-prayer-and-attention",
      categorySlug := "devotionals",
      categoryLabel := "Devotionals",
      author := "Joseph",
      publishedAt := "2025-12-18",
      coverColor := Some("linear-gradient(135deg, rgba(156,199,178,0.55), rgba(20,20,20,0.05))"),
      body := [
        Block("p", "A devotional entry typically reads shorter and calmer. This layout should support both."),
        Block("p", "Later, Joseph will paste his devotional text into the CMS and it will render here.")
      ]),
    MockPost(
      title := "A Short-form Shelf Entry: Why Creeds Still Matter",
      slug := "why-creeds-still-matter",
      categorySlug := "blogs",
      categoryLabel := "Blogs",
      author := "Joseph",
      publishedAt := "2025-11-28",
      coverColor := Some("linear-gradient(135deg, rgba(156,199,178,0.45), rgba(20,20,20,0.04))"),
      body := [
        Block("p", "Blog entries can be punchier and shorter, but the design should still feel editorial."),
        Block("p", "This is placeholder content until Sanity is connected.")
      ])
  ]

  /** The detail page's own cover when a post carries none. */
  const DetailGradient: string := "linear-gradient(135deg, rgba(156,199,178,0.5), rgba(20,20,20,0.05))"

  // ---------------------------------------------------------------------------
  // Lookup
  // ---------------------------------------------------------------------------

  /** `p.slug === slug`: an absent route slug equals no post's slug. */
  predicate SlugIs(p: MockPost, slug: Option<string>)
  {
    slug == Some(p.slug)
  }

  /** The position `posts.find` stops at: the first post with the slug, if any. */
  function FindIndex(posts: seq<MockPost>, slug: Option<string>): (r: Option<nat>)
    ensures r.Some? ==> r.value < |posts| && SlugIs(posts[r.value], slug)
    ensures r.Some? ==> forall j :: 0 <= j < r.value ==> !SlugIs(posts[j], slug)
    ensures r.None? <==> forall j :: 0 <= j < |posts| ==> !SlugIs(posts[j], slug)
  {
    if posts == [] then None
    else if SlugIs(posts[0], slug) then Some(0)
    else
      match FindIndex(posts[1..], slug)
      case None =>
        assert forall j :: 1 <= j < |posts| ==> posts[j] == posts[1..][j - 1];
        None
      case Some(i) => Some(i + 1)
  }

  /** `posts.find((p) => p.slug === slug)`. */
  function Find(posts: seq<MockPost>, slug: Option<string>): (r: Option<MockPost>)
    ensures r.None? <==> forall j :: 0 <= j < |posts| ==> !SlugIs(posts[j], slug)
    ensures r.Some? ==> r.value in posts && SlugIs(r.value, slug)
    ensures r.Some? ==> FindIndex(posts, slug).Some? && r.value == posts[FindIndex(posts, slug).value]
  {
    match FindIndex(posts, slug)
    case None => None
    case Some(i) => Some(posts[i])
  }

  /** A slug names at most one post once it is found: later duplicates are never returned. */
  lemma {:induction false} FindSkipsLaterDuplicates(a: seq<MockPost>, b: seq<MockPost>, slug: Option<string>)
    requires FindIndex(a, slug).Some?
    ensures FindIndex(a + b, slug) == FindIndex(a, slug)
  {
    assert (a + b)[0] == a[0];
    if !SlugIs(a[0], slug) {
      assert (a + b)[1..] == a[1..] + b;
      FindSkipsLaterDuplicates(a[1..], b, slug);
    }
  }

  // ---------------------------------------------------------------------------
  // Body
  // ---------------------------------------------------------------------------

  datatype Rendered = Heading(text: string) | Paragraph(text: string)

  function RenderBlock(b: Block): (r: Rendered)
    ensures r.text == b.text
    ensures r.Heading? <==> b.kind == "h2"
  {
    if b.kind == "h2" then Heading(b.text) else Paragraph(b.text)
  }

  /** `post.body.map(...)`: one rendered element per block, in order. */
  function RenderBody(blocks: seq<Block>): (r: seq<Rendered>)
    ensures |r| == |blocks|
    ensures forall i :: 0 <= i < |blocks| ==> r[i] == RenderBlock(blocks[i])
  {
    seq(|blocks|, i requires 0 <= i < |blocks| => RenderBlock(blocks[i]))
  }

  /** The block a rendered element shows: its type and text. */
  function BlockOf(r: Rendered): Block
  {
    match r
    case Heading(t) => Block("h2", t)
    case Paragraph(t) => Block("p", t)
  }

  predicate WellTyped(b: Block)
  {
    b.kind == "p" || b.kind == "h2"
  }

  /** Rendering loses nothing: for blocks typed "p" or "h2" the blocks can be read back from the page. */
  lemma RenderBodyRoundTrip(blocks: seq<Block>)
    requires forall i :: 0 <= i < |blocks| ==> WellTyped(blocks[i])
    ensures seq(|blocks|, i requires 0 <= i < |blocks| => BlockOf(RenderBody(blocks)[i])) == blocks
  {
  }

  /** Rendering a concatenation renders each part: order is kept across any split. */
  lemma RenderBodyAppend(a: seq<Block>, b: seq<Block>)
    ensures RenderBody(a + b) == RenderBody(a) + RenderBody(b)
  {
  }

  // ---------------------------------------------------------------------------
  // Date
  // ---------------------------------------------------------------------------

  /** The detail page's date text: every string goes to the timestamp parser, and an Invalid Date shows the input. */
  function FormatDate(iso: string, parse: Parser): (t: DateText)
    ensures parse(iso).None? ==> t == Literal(iso)
    ensures parse(iso).Some? ==> t == Localized(Instant(parse(iso).value), LongMonth)
  {
    match parse(iso)
    case None => Literal(iso)
    case Some(time) => Localized(Instant(time), LongMonth)
  }

  /** On an unparseable string that is not date-only, the card shows nothing and the detail page shows the string. */
  lemma FailureRulesDiffer(s: string, p: Parser)
    requires s != "" && !ArticleCard.DateShape(s) && p(s).None?
    ensures ArticleCard.FormatDate(Some(s), p) == Literal("")
    ensures FormatDate(s, p) == Literal(s) && !IsBlank(FormatDate(s, p))
  {
  }

  /** Unlike the card, the detail page never builds a local calendar date, even from "YYYY-MM-DD". */
  lemma DetailDateNeverLocal(s: string, p: Parser)
    ensures !(FormatDate(s, p).Localized? && FormatDate(s, p).date.LocalDate?)
    ensures ArticleCard.DateShape(s) ==> ArticleCard.FormatDate(Some(s), p).date.LocalDate?
  {
  }

  // ---------------------------------------------------------------------------
  // The page
  // ---------------------------------------------------------------------------

  datatype PostView =
    | NotFound(requested: Option<string>)
    | Found(cover: string, categoryHref: string, categoryLabel: string, author: string,
            date: DateText, title: string, body: seq<Rendered>)

  function View(slug: Option<string>, parse: Parser): (v: PostView)
    ensures v.NotFound? <==> forall j :: 0 <= j < |MockPosts| ==> !SlugIs(MockPosts[j], slug)
    ensures v.NotFound? ==> v.requested == slug
    ensures v.Found? ==>
      var post := MockPosts[FindIndex(MockPosts, slug).value];
      && v.cover == (if post.coverColor.Some? then post.coverColor.value else DetailGradient)
      && v.categoryHref == ArticleCard.CategoryHref(post.categorySlug)
      && v.categoryLabel == post.categoryLabel && v.author == post.author && v.title == post.title
      && v.date == FormatDate(post.publishedAt, parse)
      && |v.body| == |post.body|
      && forall i :: 0 <= i < |post.body| ==>
           v.body[i].text == post.body[i].text && (v.body[i].Heading? <==> post.body[i].kind == "h2")
  {
    match Find(MockPosts, slug)
    case None => NotFound(slug)
    case Some(post) =>
      Found(
        cover := if post.coverColor.Some? then post.coverColor.value else DetailGradient,
        categoryHref := ArticleCard.CategoryHref(post.categorySlug),
        categoryLabel := post.categoryLabel,
        author := post.author,
        date := FormatDate(post.publishedAt, parse),
        title := post.title,
        body := RenderBody(post.body))
  }
}
