/**
 * The category page: its heading and description from a fixed metadata table, with
 * fallbacks for unknown and absent slugs, and the posts of that category taken from the
 * built-in list in their original order.
 */
module Category {
  import opened Wrappers
  import opened ArticleCard

  datatype CategoryMeta = CategoryMeta(heading: string, description: string)  // the source's `label`

  const Categories: map<string, CategoryMeta> := map[
    "devotionals" := CategoryMeta("Devotionals",
      "Short reflections aimed at attention, prayer, and daily faithfulness."),
    "blogs" := CategoryMeta("Blogs",
      "Short-form writing\U{2014}clear, practical, and meant for quick reading."),
    "journal-articles" := CategoryMeta("Journal Articles",
      "Longer-form pieces with more structure, citations, and careful argumentation."),
    "reviews" := CategoryMeta("Reviews",
      "Books, essays, or media\U{2014}summarized and evaluated with clarity."),
    "resources" := CategoryMeta("Resources",
      "Helpful links, reading lists, and recommendations for study.")
  ]

  const PlaceholderDescription: string :=
    "Posts in this category. (This description will come from the CMS later.)"

  const NoSlugLabel: string := "Category"

  /** The page's built-in posts. */
  const MockPosts: seq<PostPreview> := [
    PostPreview(
      title := "Recovering the Reformed Imagination",
      slug := "recovering-the-reformed-imagination",
      excerpt := "A short opening that previews the thesis. This is where Joseph\U{2019}s voice comes through in a calm, confident way. The card layout should feel inviting and readable.",
      author := Some("Joseph"),
      publishedAt := Some("2026-01-02"),
      categorySlug := "journal-articles",
      categoryLabel := "Journal Articles",
      coverColor := Some("linear-gradient(135deg, rgba(156,199,178,0.75), rgba(20,20,20,0.08))")),
    PostPreview(
      title := "Mid-Week Musings: On Prayer and Attention",
      slug := "mid-week-musings-prayer-and-attention",
      excerpt := "A devotional reflection that\U{2019}s short, nourishing, and meant to be revisited. The homepage highlights newest across all categories by default.",
      author := Some("Joseph"),
      publishedAt := Some("2025-12-18"),
      categorySlug := "devotionals",
      categoryLabel := "Devotionals",
      coverColor := Some("linear-gradient(135deg, rgba(156,199,178,0.55), rgba(20,20,20,0.05))")),
    PostPreview(
      title := "A Short-form Shelf Entry: Why Creeds Still Matter",
      slug := "why-creeds-still-matter",
      excerpt := "A blog-style piece: punchier, shorter, and written for quick reading\U{2014}still cleanly organized under the category tabs.",
      author := Some("Joseph"),
      publishedAt := Some("2025-11-28"),
      categorySlug := "blogs",
      categoryLabel := "Blogs",
      coverColor := Some("linear-gradient(135deg, rgba(156,199,178,0.45), rgba(20,20,20,0.04))"))
  ]

  /** The route's slug is usable: present and not empty (a truthy string). */
  predicate HasSlug(slug: Option<string>)
  {
    slug.Some? && slug.value != ""
  }

  /** `slug ? categoryMeta[slug] : undefined`. */
  function Meta(slug: Option<string>): (m: Option<CategoryMeta>)
    ensures m.Some? <==> HasSlug(slug) && slug.value in Categories
    ensures m.Some? ==> m.value == Categories[slug.value]
  {
    if HasSlug(slug) && slug.value in Categories then Some(Categories[slug.value]) else None
  }

  /** `s.replaceAll("-", " ")`: every dash becomes a space, nothing else moves. */
  function ReplaceDashes(s: string): (r: string)
    ensures |r| == |s|
    ensures forall i :: 0 <= i < |s| ==> r[i] == (if s[i] == '-' then ' ' else s[i])
    ensures '-' !in r
  {
    if s == [] then []
    else [if s[0] == '-' then ' ' else s[0]] + ReplaceDashes(s[1..])
  }

  /** The heading: the table's label, else the slug with dashes as spaces, else "Category". */
  function Label(slug: Option<string>): (shown: string)
    ensures HasSlug(slug) && slug.value in Categories ==> shown == Categories[slug.value].heading
    ensures HasSlug(slug) && slug.value !in Categories ==>
      |shown| == |slug.value| && '-' !in shown && shown == ReplaceDashes(slug.value)
    ensures !HasSlug(slug) ==> shown == NoSlugLabel
  {
    match Meta(slug)
    case Some(m) => m.heading
    case None => if HasSlug(slug) then ReplaceDashes(slug.value) else NoSlugLabel
  }

  /** The description: the table's, else the fixed placeholder. */
  function Description(slug: Option<string>): (d: string)
    ensures HasSlug(slug) && slug.value in Categories ==> d == Categories[slug.value].description
    ensures !(HasSlug(slug) && slug.value in Categories) ==> d == PlaceholderDescription
  {
    match Meta(slug)
    case Some(m) => m.description
    case None => PlaceholderDescription
  }

  /** `a` keeps some of the elements of `b`, in their order in `b`. */
  predicate IsSubsequence<T(==)>(a: seq<T>, b: seq<T>)
    decreases |b|
  {
    if a == [] then true
    else if b == [] then false
    else if a[0] == b[0] then IsSubsequence(a[1..], b[1..])
    else IsSubsequence(a, b[1..])
  }

  /** `posts.filter((p) => p.categorySlug === slug)`. */
  function FilterByCategory(posts: seq<PostPreview>, slug: string): (kept: seq<PostPreview>)
    ensures |kept| <= |posts|
    ensures forall i :: 0 <= i < |kept| ==> kept[i].categorySlug == slug
  {
    if posts == [] then []
    else
      var rest := FilterByCategory(posts[1..], slug);
      if posts[0].categorySlug == slug then [posts[0]] + rest else rest
  }

  /**
   * The filter keeps exactly the posts of the category: it is a subsequence of the input, and
   * each post of the category occurs in it as often as in the input, every other post never.
   */
  lemma {:induction false} FilterKeepsExactly(posts: seq<PostPreview>, slug: string)
    ensures IsSubsequence(FilterByCategory(posts, slug), posts)
    ensures forall p :: multiset(FilterByCategory(posts, slug))[p] ==
                        (if p.categorySlug == slug then multiset(posts)[p] else 0)
  {
    if posts != [] {
      var rest := FilterByCategory(posts[1..], slug);
      FilterKeepsExactly(posts[1..], slug);
      assert posts == [posts[0]] + posts[1..];
      assert multiset(posts) == multiset{posts[0]} + multiset(posts[1..]);
      if posts[0].categorySlug == slug {
        assert FilterByCategory(posts, slug) == [posts[0]] + rest;
        assert multiset([posts[0]] + rest) == multiset{posts[0]} + multiset(rest);
      }
    }
  }

  lemma {:induction false} SubsequenceMembers<T>(a: seq<T>, b: seq<T>)
    requires IsSubsequence(a, b)
    ensures forall x :: x in a ==> x in b
    decreases |b|
  {
    if a != [] && b != [] {
      if a[0] == b[0] {
        SubsequenceMembers(a[1..], b[1..]);
        assert a == [a[0]] + a[1..];
      } else {
        SubsequenceMembers(a, b[1..]);
      }
    }
  }

  /** Filtering a concatenation filters each part: relative order is kept across any split. */
  lemma {:induction false} FilterDistributes(a: seq<PostPreview>, b: seq<PostPreview>, slug: string)
    ensures FilterByCategory(a + b, slug) == FilterByCategory(a, slug) + FilterByCategory(b, slug)
  {
    if a != [] {
      assert (a + b)[0] == a[0];
      assert (a + b)[1..] == a[1..] + b;
      FilterDistributes(a[1..], b, slug);
    } else {
      assert a + b == b;
    }
  }

  /** The posts listed: none without a slug, else the built-in posts of that category. */
  function PostsFor(slug: Option<string>): (posts: seq<PostPreview>)
    ensures !HasSlug(slug) ==> posts == []
    ensures HasSlug(slug) ==> posts == FilterByCategory(MockPosts, slug.value)
    ensures HasSlug(slug) ==> forall p :: p in posts ==> p in MockPosts && p.categorySlug == slug.value
  {
    if HasSlug(slug) then
      FilterKeepsExactly(MockPosts, slug.value);
      SubsequenceMembers(FilterByCategory(MockPosts, slug.value), MockPosts);
      FilterByCategory(MockPosts, slug.value)
    else []
  }

  /** The "blogs" page shows its table entry and the one built-in blog post. */
  lemma BlogsPage()
    ensures Label(Some("blogs")) == "Blogs"
    ensures PostsFor(Some("blogs")) == [MockPosts[2]]
  {
    var s := "blogs";
    assert MockPosts[0].categorySlug != s && MockPosts[1].categorySlug != s;
    assert MockPosts == [MockPosts[0]] + [MockPosts[1]] + [MockPosts[2]];
    FilterDistributes([MockPosts[0]] + [MockPosts[1]], [MockPosts[2]], s);
    FilterDistributes([MockPosts[0]], [MockPosts[1]], s);
  }
}
