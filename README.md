# Editorial site view logic, modelled in Dafny

This project models the logic of a small editorial website that lies between the
content store and the markup. That logic turns raw post rows into display-ready
previews. It also works out pagination for the "All posts" page, formats and shows
dates on post cards, builds the category page, and looks up and renders a single
post. Each part is stated as Dafny functions, classes and lemmas, and the verifier
proves the contracts.

Modules, one per source file:

- `Wrappers`: `Option`, for fields a document may leave out and route parameters that may be missing.
- `Dates`: the JavaScript `Date` library as the site uses it. A `DateValue` records how a `Date` was built: from year, month index and day in the local calendar, or from a parsed timestamp. A `DateText` is either a string the code returns itself or the locale formatter's output. The timestamp parser is a function parameter.
- `ArticleCard` (`src/components/ArticleCard.tsx`): the `PostPreview` view model, the date-only pattern `^\d{4}-\d{2}-\d{2}$` as an anchored character-class match, `split("-").map(Number)`, the card's `formatDate`, and the card's cover fallback, conditional segments and links.
- `Articles` (`src/pages/Articles.tsx`, pure part): `?page=` normalisation, `totalPages`, `safePage`, `setPage`'s clamp, the slice bounds, the `FALLBACKS` table and the row → `PostPreview` mapping.
- `ArticlesState` (`src/pages/Articles.tsx`, state part): class `ArticlesPage` holds the component's state and class `Load` is one run of the load effect. A run's `alive` flag decides whether its answer may still change that state.
- `Category` (`src/pages/Category.tsx`): the category metadata table, the label and description fallbacks, `replaceAll("-", " ")` and the filter by category slug.
- `Post` (`src/pages/Post.tsx`): `find` by slug, the cover fallback, body-block rendering and the page's own `formatDate`.

## Model

| member | source | states |
|---|---|---|
| `ArticleCard.FullMatchAt` | src/components/ArticleCard.tsx:18 | an anchored pattern matches a string exactly when the lengths agree and every position matches its class |
| `ArticleCard.DateOnlyShape` | src/components/ArticleCard.tsx:18 | the date-only regex accepts exactly the strings of length 10 with digits at positions 0-3, 5-6 and 8-9 and '-' at positions 4 and 7 |
| `ArticleCard.Split` | src/components/ArticleCard.tsx:19 | `split` always yields at least one piece |
| `ArticleCard.SplitWithoutSeparator` | src/components/ArticleCard.tsx:19 | a string without the separator splits into itself alone |
| `ArticleCard.SplitAfter` | src/components/ArticleCard.tsx:19 | a separator-free first piece, then the separator, then the rest, splits into that piece followed by the split of the rest |
| `ArticleCard.SplitDate` | src/components/ArticleCard.tsx:19 | a date-shaped string splits into exactly its 4-, 2- and 2-digit groups |
| `ArticleCard.TwoDigits` | src/components/ArticleCard.tsx:19 | `Number` of a two-digit string is ten times its first digit plus its second |
| `ArticleCard.FourDigits` | src/components/ArticleCard.tsx:19 | `Number` of a four-digit string is its place-value sum |
| `ArticleCard.DateParts` | src/components/ArticleCard.tsx:18-19 | y, m and d are exactly the decimal values of the 4-, 2- and 2-digit groups, read through `split` and `Number`, with y ≤ 9999 and m, d ≤ 99 |
| `ArticleCard.FormatDate` | src/components/ArticleCard.tsx:14-36 | absent or empty input gives ""; a date-only string gives the local date built with month index m - 1; any other string gives the parsed instant, or "" when it does not parse; no other literal string is ever returned |
| `ArticleCard.DateOnlyIgnoresParser` | src/components/ArticleCard.tsx:18-25 | a date-only string never reaches the timestamp parser: every parser gives the same, non-empty text |
| `ArticleCard.JanuarySecondIsLocal` | src/components/ArticleCard.tsx:17-21 | "2026-01-02" becomes the local date 2026, month index 0, day 2, whatever the parser (and so the time zone) |
| `ArticleCard.MalformedIsBlank` | src/components/ArticleCard.tsx:29-30 | "not-a-date" that fails to parse yields "", not an error |
| `ArticleCard.LinksRecoverSlug` | src/components/ArticleCard.tsx:59 | the category and read-more links are their prefixes followed by the slug; the slug can be read back, and distinct slugs give distinct links |
| `ArticleCard.Card` | src/components/ArticleCard.tsx:39-82 | the cover is `coverColor` when defined, else the card gradient; the author segment appears iff the author is non-empty; the date segment appears iff the formatted date is non-empty; the links are exactly `/category/<categorySlug>` and `/article/<slug>` |
| `Articles.OrElse` | src/pages/Articles.tsx:91-95 | `v \|\| fallback` gives the fallback exactly when v is absent or empty, else v |
| `Articles.Lookup` | src/pages/Articles.tsx:98 | a table lookup yields the entry iff the key is in the table |
| `Articles.PageText` | src/pages/Articles.tsx:57 | the page text is never empty: a missing or empty parameter reads as "1", any other parameter as itself |
| `Articles.NormalizePageAsWritten` | src/pages/Articles.tsx:56-59 | as written: floor(raw) for finite raw > 0, 1 otherwise; the result is 0 exactly when 0 < raw < 1 |
| `Articles.FractionalPageIsZero` | src/pages/Articles.tsx:56-84 | `?page=0.5` gives page 0, safePage 0 and slice start -10, for every total |
| `Articles.NormalizePage` | src/pages/Articles.tsx:56-59 | the page is an integer ≥ 1: floor(raw) when raw is finite and ≥ 1, else 1; it agrees with the code wherever the code gives a page ≥ 1 |
| `Articles.NormalizeIntegerPage` | src/pages/Articles.tsx:57-71 | a page written by `setPage` reads back as itself |
| `Articles.TotalPages` | src/pages/Articles.tsx:66 | totalPages ≥ 1; total = 0 gives 1; for total > 0 it is the ceiling of total/10, with (n-1)·10 < total ≤ n·10 |
| `Articles.SafePage` | src/pages/Articles.tsx:67 | safePage ≤ totalPages, equals the page iff the page is in range, and is ≥ 1 for a normalised page |
| `Articles.TwentyFivePostsMakeThreePages` | src/pages/Articles.tsx:66-67 | total 0 gives 1 page and safePage 1; total 25 gives 3 pages; pages 5, 0 and a missing value show as 3, 1 and 1 |
| `Articles.ClampPage` | src/pages/Articles.tsx:70 | `setPage` lands in [1, totalPages] for every integer, is the identity on in-range pages, and sends low requests to 1 and high ones to the last page |
| `Articles.ClampAgreesWithSafePage` | src/pages/Articles.tsx:67-70 | for a normalised page, the navigation clamp and the display clamp agree, and clamping twice changes nothing |
| `Articles.SliceStart` | src/pages/Articles.tsx:83 | the start of a page ≥ 1 is ≥ 0 and a multiple of the page size |
| `Articles.SliceEnd` | src/pages/Articles.tsx:84 | every slice spans exactly 10 positions |
| `Articles.AdjacentPages` | src/pages/Articles.tsx:83-84 | each page's slice ends where the next page's slice starts |
| `Articles.PagesDisjoint` | src/pages/Articles.tsx:83-84 | slices of different pages never overlap |
| `Articles.PageOfIndex` | src/pages/Articles.tsx:83-84 | every index lies in the slice of a page ≥ 1 |
| `Articles.OnlyOnePageHoldsIndex` | src/pages/Articles.tsx:83-84 | no other page's slice holds that index |
| `Articles.EveryPostReachable` | src/pages/Articles.tsx:66-84 | every post counted in total lies on a page ≤ totalPages, and the last page's slice starts below total |
| `Articles.Cover` | src/pages/Articles.tsx:25-35 | a non-empty image URL always gives `url(<url>) center/cover no-repeat`; otherwise a slug in the five-entry table gives its gradient; otherwise the default gradient, which equals the `blogs` entry |
| `Articles.FirstTen` | src/pages/Articles.tsx:94 | `slice(0, 10)` is a prefix of at most 10 characters; it is the whole string when that has ≤ 10 characters |
| `Articles.ToPreview` | src/pages/Articles.tsx:88-100 | the mapping is total and fully populated; `categoryLabel` is "Uncategorized" and `author` is "Joseph" when the raw value is absent or empty, else the raw value; `excerpt` and `categorySlug` default to ""; `publishedAt` is the raw value's first 10 characters (all of it when shorter, "" when absent); the cover is `Cover`'s choice |
| `Articles.BareRowIsPopulated` | src/pages/Articles.tsx:88-100 | a row missing every optional field maps to a full preview labelled "Uncategorized", by "Joseph", with the default gradient |
| `Articles.MapRows` | src/pages/Articles.tsx:88-100 | one fully populated preview per row, in row order |
| `ArticlesState.ArticlesPage.constructor` | src/pages/Articles.tsx:61-64 | a mounted page starts with no posts, total 0, loading, no error, and shows page 1 whatever the URL asks |
| `ArticlesState.ArticlesPage.Page` | src/pages/Articles.tsx:56-59 | the page read from the URL is ≥ 1 |
| `ArticlesState.ArticlesPage.PageCount` | src/pages/Articles.tsx:66 | totalPages of the state's total is ≥ 1 |
| `ArticlesState.ArticlesPage.ShownPage` | src/pages/Articles.tsx:66-67 | the shown page always exists: it lies in [1, totalPages] and equals the requested page iff that page is in range |
| `ArticlesState.ArticlesPage.SetPage` | src/pages/Articles.tsx:69-73 | navigation stores the clamped page in the URL; the shown page becomes it; the URL holds exactly that page; an in-range request is taken as it is; posts, total, loading and error are untouched |
| `ArticlesState.ButtonsMoveOnePage` | src/pages/Articles.tsx:174-190 | an enabled Prev or Next button moves exactly one page; the clamp never intervenes |
| `ArticlesState.Load.constructor` | src/pages/Articles.tsx:75-84 | a run starts alive, clears the error, sets loading and asks for the half-open slice [start, start+10) of the shown page, with start ≥ 0 |
| `ArticlesState.Load.Cancel` | src/pages/Articles.tsx:119-121 | the cleanup clears the run's `alive` flag |
| `ArticlesState.Load.Settle` | src/pages/Articles.tsx:86-115 | while alive, success stores the mapped rows and the total, and failure stores [] and 0 and the message; either way loading ends; when not alive, nothing about the page changes |
| `ArticlesState.StaleAnswerIsDiscarded` | src/pages/Articles.tsx:75-122 | when the URL changes while a fetch is in flight and the page to show changes with it (the effect's re-run condition), the URL holds the new page, the second run asks for the new page's slice, which differs from the first run's, and the posts, total and error once the second answer lands are that answer's, whatever the stale fetch answers; if that answer keeps the page count, the page shown is the one fetched, so no further run follows |
| `ArticlesState.SamePageKeepsAnswer` | src/pages/Articles.tsx:75-122 | when the URL changes during a fetch but the page to show stays the same, the effect does not re-run: the run keeps the slice of the shown page, and the posts, total and error once its answer lands are that answer's; if the answer keeps the page count, the page shown is the one fetched, so no further run follows |
| `Category.Meta` | src/pages/Category.tsx:70 | the metadata entry exists iff the slug is present, non-empty and in the table |
| `Category.ReplaceDashes` | src/pages/Category.tsx:72 | `replaceAll("-", " ")` keeps the length, turns every '-' into ' ', changes nothing else and leaves no '-' |
| `Category.Label` | src/pages/Category.tsx:72 | a slug in the table gives its label; an unknown slug gives the slug with dashes as spaces (same length, no '-'); an absent or empty slug gives "Category" |
| `Category.Description` | src/pages/Category.tsx:73-75 | a slug in the table gives its description; any other slug gives the fixed placeholder |
| `Category.FilterByCategory` | src/pages/Category.tsx:77 | every kept post has the requested category slug, and the result is no longer than the input |
| `Category.FilterKeepsExactly` | src/pages/Category.tsx:77 | the filtered list is a subsequence of the input (original relative order); each post of the category occurs as often as in the input, and every other post never occurs |
| `Category.SubsequenceMembers` | src/pages/Category.tsx:77 | every element of a subsequence is an element of the sequence |
| `Category.FilterDistributes` | src/pages/Category.tsx:77 | filtering a concatenation is the concatenation of the filtered parts |
| `Category.PostsFor` | src/pages/Category.tsx:77 | no slug gives no posts; otherwise the built-in posts of that category, each one of the built-in posts |
| `Category.BlogsPage` | src/pages/Category.tsx:41-77 | the "blogs" page is headed "Blogs" and lists exactly the one built-in blog post |
| `Post.FindIndex` | src/pages/Post.tsx:67 | the position found holds the first post whose slug equals the route slug; "not found" iff no post has that slug (an absent slug matches none) |
| `Post.Find` | src/pages/Post.tsx:67 | `find` returns the first post of the list with that slug, and nothing iff no post has it |
| `Post.FindSkipsLaterDuplicates` | src/pages/Post.tsx:67 | once a post with the slug is found, posts appended later never change the answer |
| `Post.RenderBlock` | src/pages/Post.tsx:120-121 | a block becomes a heading iff its type is "h2", otherwise a paragraph, with the same text |
| `Post.RenderBody` | src/pages/Post.tsx:119-122 | one rendered element per block, in block order |
| `Post.RenderBodyRoundTrip` | src/pages/Post.tsx:119-122 | for blocks of type "p" or "h2" the original blocks can be read back from the rendered body |
| `Post.RenderBodyAppend` | src/pages/Post.tsx:119-122 | rendering preserves order across any split of the body |
| `Post.FormatDate` | src/pages/Post.tsx:58-62 | an unparseable date returns the input unchanged; a parsed one is the instant with the long month format |
| `Post.FailureRulesDiffer` | src/pages/Post.tsx:58-62 | for an unparseable, non-date-only, non-empty string the card shows "" but the detail page shows the string itself |
| `Post.DetailDateNeverLocal` | src/pages/Post.tsx:58-62 | the detail page never builds a local calendar date, while the card does for every date-only string |
| `Post.View` | src/pages/Post.tsx:67-125 | "not found" iff no built-in post has the slug; otherwise the first such post with cover `coverColor` or the detail gradient, its category link, label, author, title and date text, and a body with one element per block, carrying the same text, a heading iff the block type is "h2" |

## Left out

- Markup, CSS and layout of every component, and the static pages and components (home, about, header, footer, hero, layout). They contain no logic beyond conditional display.
- Route wiring (`src/App.tsx`). It is a declarative table handled by the router library.
- The content-store client, its GROQ queries and the fetch itself (`src/lib/sanity.ts`, `src/pages/Articles.tsx:37-51, 86`). They are network I/O. The fetched `{ items, total }`, or the thrown error's message, is the `FetchOutcome` input of `Load.Settle`. `err instanceof Error ? err.message : String(err)` is taken to have been applied already.
- The studio configuration and schema. Their validation rules live in the studio library.
- `Number(...)` on the page text: the model takes its value as `Option<real>`, with `None` for NaN and the infinities. `PageText` models the `|| "1"` step, but not the conversion from text to number.
- The timestamp parser behind `new Date(text)` and `toLocaleDateString`. Both depend on time zone and locale. The parser is a function parameter. Formatted output is kept symbolic (`Dates.DateText`) and taken to be non-empty for a valid date. The model does not show how `new Date(y, m - 1, d)` normalises an out-of-range month or day, or maps years 0-99 to 1900-1999.
- `Post.FormatDate`: the detail page sends date-only strings through the timestamp parser too. ECMAScript reads such strings as UTC midnight, so the detail page can show the day before in time zones west of UTC. The card avoids this. Without a time-zone model this is stated only as `Post.DetailDateNeverLocal`, not as a wrong date.
- `Articles.Lookup` and `Category.Meta`: record lookups are modelled on the table's own keys. A slug that names an inherited object property (such as "constructor") is not modelled. In `FALLBACKS` such a slug would yield a function object as the cover. In `categoryMeta` it falls through to the unknown-slug rules anyway.
- `ArticlesState`: the class reads the URL page through the corrected `Articles.NormalizePage` (see Findings). Its claims that the page is ≥ 1, that a new page shows page 1 and that a run's slice starts at ≥ 0 hold for the corrected rule, not for the code as written on `?page=0.5`.
- `ArticlesState`: the effect re-runs when `safePage` or `totalPages` changes. The scheduler that does this is not modelled. `StaleAnswerIsDiscarded` and `SamePageKeepsAnswer` take the re-run condition as their precondition, for a change of the shown page. A change of `totalPages` alone is not shown. `window.scrollTo` and `console.error` are not modelled. `Settle` is not prevented from being called twice.
- `ArticlesState`: an answer whose total changes `totalPages` starts another run, because the effect depends on `totalPages` (`src/pages/Articles.tsx:122`). That run replaces the state the answer left. For example, a fresh `?page=3` fetches page 1 first, because the total is still 0. Once a total of 25 arrives it fetches page 3. The model states the state once one answer lands. It also states that no further run follows when the page count is kept. It does not model the follow-up run.
- `ArticlesState.StaleAnswerIsDiscarded`: the in-flight change is a change of the URL, such as a link or back/forward. The Prev and Next buttons cannot cause it, because they are disabled while loading (`src/pages/Articles.tsx:177,186`). The router's URL update is modelled as a direct assignment of `rawPage`.
- `Articles.TotalPages`: `total` is a count, so it is modelled as a natural number. Negative or fractional totals are not modelled.
- Category field `label` is named `heading` in `Category.CategoryMeta`, because `label` is a reserved word in Dafny.
- Strings are sequences of characters. JavaScript's UTF-16 code units are not distinguished, which matters only for `slice(0, 10)` on text outside the Basic Multilingual Plane.

## Findings

| source | as written | input that shows it | evidently intended | confidence | as-written member | corrected member |
|---|---|---|---|---|---|---|
| src/pages/Articles.tsx:58 | `raw > 0 ? Math.floor(raw) : 1` sends 0 < raw < 1 to page 0. `safePage = Math.min(0, totalPages)` is then 0, so the page reads "Page 0 of N" and the query asks for the slice [-10, 0) | `?page=0.5` | a page ≥ 1: floor(raw) for raw ≥ 1, else 1 | high; not executed | `Articles.NormalizePageAsWritten`, `Articles.FractionalPageIsZero` | `Articles.NormalizePage`, `ArticlesState.ArticlesPage.Page`, `ArticlesState.ArticlesPage.constructor`, `ArticlesState.ArticlesPage.ShownPage`, `ArticlesState.Load.constructor` |
