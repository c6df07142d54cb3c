/**
 * The post preview card: the `PostPreview` view model every list page renders,
 * the card's date formatting and its fallback, conditional-display and link rules.
 */
module ArticleCard {
  import opened Wrappers
  import opened Dates

  /** A display-ready post. `author`, `publishedAt` and `coverColor` are optional in the type. */
  datatype PostPreview = PostPreview(
    title: string,
    slug: string,
    excerpt: string,
    author: Option<string>,
    publishedAt: Option<string>,
    categorySlug: string,
    categoryLabel: string,
    coverColor: Option<string>)

  /** The card's own cover when the preview carries none. */
  const CardGradient: string := "linear-gradient(135deg, rgba(156,199,178,0.65), rgba(20,20,20,0.06))"

  const CategoryPrefix: string := "/category/"
  const ArticlePrefix: string := "/article/"

  // ---------------------------------------------------------------------------
  // The date-only test: the anchored pattern ^\d{4}-\d{2}-\d{2}$
  // ---------------------------------------------------------------------------

  /** One position of an anchored pattern: `\d` (an ASCII digit) or a literal character. */
  datatype CharClass = Digit | Exactly(c: char)

  predicate IsDigit(c: char)
  {
    '0' <= c <= '9'
  }

  predicate ClassMatches(k: CharClass, c: char)
  {
    match k
    case Digit => IsDigit(c)
    case Exactly(x) => c == x
  }

  /** The whole of `s` matches the whole of `pattern`, position by position. */
  predicate FullMatch(pattern: seq<CharClass>, s: string)
    decreases |pattern|
  {
    if pattern == [] then s == []
    else s != [] && ClassMatches(pattern[0], s[0]) && FullMatch(pattern[1..], s[1..])
  }

  const DateOnlyPattern: seq<CharClass> :=
    [Digit, Digit, Digit, Digit, Exactly('-'), Digit, Digit, Exactly('-'), Digit, Digit]

  predicate IsDateOnly(s: string)
  {
    FullMatch(DateOnlyPattern, s)
  }

  /** An anchored match is a match of equal length at every position. */
  lemma {:induction false} FullMatchAt(pattern: seq<CharClass>, s: string)
    ensures FullMatch(pattern, s) <==>
      |s| == |pattern| && forall i :: 0 <= i < |s| ==> ClassMatches(pattern[i], s[i])
    decreases |pattern|
  {
    if pattern != [] && s != [] {
      FullMatchAt(pattern[1..], s[1..]);
      if |s| == |pattern| && forall i :: 0 <= i < |s| ==> ClassMatches(pattern[i], s[i]) {
        assert forall i :: 0 <= i < |s| - 1 ==> ClassMatches(pattern[1..][i], s[1..][i]) by {
          forall i | 0 <= i < |s| - 1 ensures ClassMatches(pattern[1..][i], s[1..][i]) {
            assert ClassMatches(pattern[i + 1], s[i + 1]);
          }
        }
      }
    }
  }

  /** Ten characters: digits everywhere except a '-' at positions 4 and 7. */
  predicate DateShape(s: string)
  {
    && |s| == 10
    && s[4] == '-' && s[7] == '-'
    && forall i :: 0 <= i < 10 && i != 4 && i != 7 ==> IsDigit(s[i])
  }

  /** The date-only branch is taken exactly for strings of that shape. */
  lemma DateOnlyShape(s: string)
    ensures IsDateOnly(s) <==> DateShape(s)
  {
    FullMatchAt(DateOnlyPattern, s);
    if DateShape(s) {
      forall i | 0 <= i < 10 ensures ClassMatches(DateOnlyPattern[i], s[i]) {
      }
    }
  }

  // ---------------------------------------------------------------------------
  // dateStr.split("-").map(Number)
  // ---------------------------------------------------------------------------

  /** `String.prototype.split` on one separator character: the pieces between separators, in order. */
  function Split(s: string, sep: char): (parts: seq<string>)
    ensures |parts| >= 1
  {
    if s == [] then [""]
    else
      var rest := Split(s[1..], sep);
      if s[0] == sep then [""] + rest else [[s[0]] + rest[0]] + rest[1..]
  }

  lemma {:induction false} SplitWithoutSeparator(s: string, sep: char)
    requires sep !in s
    ensures Split(s, sep) == [s]
  {
    if s != [] {
      SplitWithoutSeparator(s[1..], sep);
      assert [s[0]] + s[1..] == s;
    }
  }

  /** Splitting after a separator-free first piece yields that piece, then the split of the rest. */
  lemma {:induction false} SplitAfter(a: string, sep: char, b: string)
    requires sep !in a
    ensures Split(a + [sep] + b, sep) == [a] + Split(b, sep)
  {
    if a == [] {
      assert a + [sep] + b == [sep] + b;
      assert ([sep] + b)[1..] == b;
    } else {
      assert (a + [sep] + b)[1..] == a[1..] + [sep] + b;
      SplitAfter(a[1..], sep, b);
      assert [a[0]] + a[1..] == a;
    }
  }

  function DigitValue(c: char): nat
    requires IsDigit(c)
  {
    (c - '0') as nat
  }

  predicate AllDigits(s: string)
  {
    forall i :: 0 <= i < |s| ==> IsDigit(s[i])
  }

  /** `Number(s)` for a string of ASCII digits: its decimal value. */
  function DecimalValue(s: string): nat
    requires AllDigits(s)
  {
    if s == [] then 0
    else DecimalValue(s[..|s| - 1]) * 10 + DigitValue(s[|s| - 1])
  }

  lemma TwoDigits(w: string)
    requires |w| == 2 && AllDigits(w)
    ensures DecimalValue(w) == 10 * DigitValue(w[0]) + DigitValue(w[1])
  {
    var first := w[..1];
    assert first[..0] == [] && first[0] == w[0];
    assert DecimalValue(first) == DigitValue(w[0]);
    assert w[..|w| - 1] == first;
  }

  lemma FourDigits(w: string)
    requires |w| == 4 && AllDigits(w)
    ensures DecimalValue(w) == 1000 * DigitValue(w[0]) + 100 * DigitValue(w[1]) + 10 * DigitValue(w[2]) + DigitValue(w[3])
  {
    var two, three := w[..2], w[..3];
    TwoDigits(two);
    assert three[..2] == two && three[2] == w[2];
    assert DecimalValue(three) == DecimalValue(two) * 10 + DigitValue(w[2]);
    assert w[..3] == three;
  }

  /** A date-shaped string splits on '-' into its 4-, 2- and 2-digit groups. */
  lemma SplitDate(s: string)
    requires DateShape(s)
    ensures Split(s, '-') == [s[..4], s[5..7], s[8..]]
    ensures AllDigits(s[..4]) && AllDigits(s[5..7]) && AllDigits(s[8..])
  {
    assert s == s[..4] + ['-'] + s[5..];
    assert s[5..] == s[5..7] + ['-'] + s[8..];
    SplitAfter(s[..4], '-', s[5..]);
    SplitAfter(s[5..7], '-', s[8..]);
    SplitWithoutSeparator(s[8..], '-');
  }

  /** The three numbers read from a date-only string, as `split("-").map(Number)` gives them. */
  function DateParts(s: string): (ymd: (nat, nat, nat))
    requires DateShape(s)
    ensures ymd.0 == 1000 * DigitValue(s[0]) + 100 * DigitValue(s[1]) + 10 * DigitValue(s[2]) + DigitValue(s[3])
    ensures ymd.1 == 10 * DigitValue(s[5]) + DigitValue(s[6])
    ensures ymd.2 == 10 * DigitValue(s[8]) + DigitValue(s[9])
    ensures ymd.0 <= 9999 && ymd.1 <= 99 && ymd.2 <= 99
  {
    SplitDate(s);
    var parts := Split(s, '-');
    FourDigits(parts[0]);
    TwoDigits(parts[1]);
    TwoDigits(parts[2]);
    (DecimalValue(parts[0]), DecimalValue(parts[1]), DecimalValue(parts[2]))
  }

  // ---------------------------------------------------------------------------
  // formatDate
  // ---------------------------------------------------------------------------

  /**
   * The card's date text. Absent or empty input gives "". A date-only string is read as
   * year, month and day and built as a local date with month index m - 1, without the
   * timestamp parser; any other string goes to the parser, and an Invalid Date gives "".
   */
  function FormatDate(dateStr: Option<string>, parse: Parser): (t: DateText)
    ensures (dateStr.None? || dateStr.value == "") ==> t == Literal("")
    ensures dateStr.Some? && DateShape(dateStr.value) ==>
      var (y, m, d) := DateParts(dateStr.value);
      t == Localized(LocalDate(y, m - 1, d), ShortMonth)
    ensures dateStr.Some? && dateStr.value != "" && !DateShape(dateStr.value) ==>
      t == (match parse(dateStr.value)
            case None => Literal("")
            case Some(time) => Localized(Instant(time), ShortMonth))
    ensures t.Literal? ==> t.text == ""
  {
    match dateStr
    case None => Literal("")
    case Some(s) =>
      if s == "" then Literal("")
      else
        DateOnlyShape(s);
        if IsDateOnly(s) then
          var (y, m, d) := DateParts(s);
          Localized(LocalDate(y, m - 1, d), ShortMonth)
        else
          match parse(s)
          case None => Literal("")
          case Some(time) => Localized(Instant(time), ShortMonth)
  }

  /** Date-only strings never reach the timestamp parser: any two parsers give the same text. */
  lemma DateOnlyIgnoresParser(s: string, p: Parser, q: Parser)
    requires DateShape(s)
    ensures FormatDate(Some(s), p) == FormatDate(Some(s), q)
    ensures !IsBlank(FormatDate(Some(s), p))
  {
  }

  /** "2026-01-02" is January 2, 2026 in the local calendar, whatever the parser or time zone. */
  lemma JanuarySecondIsLocal(p: Parser)
    ensures FormatDate(Some("2026-01-02"), p) == Localized(LocalDate(2026, 0, 2), ShortMonth)
  {
    var s := "2026-01-02";
    assert DateShape(s);
    assert DateParts(s) == (2026, 1, 2);
  }

  /** An unparseable string that is not date-only yields the empty text rather than an error. */
  lemma MalformedIsBlank(p: Parser)
    requires p("not-a-date") == None
    ensures FormatDate(Some("not-a-date"), p) == Literal("")
  {
    assert !DateShape("not-a-date");
  }

  // ---------------------------------------------------------------------------
  // The card
  // ---------------------------------------------------------------------------

  function CategoryHref(categorySlug: string): string
  {
    CategoryPrefix + categorySlug
  }

  function ArticleHref(slug: string): string
  {
    ArticlePrefix + slug
  }

  /** A link is its prefix followed by the slug, so the slug can be read back and two slugs never share a link. */
  lemma LinksRecoverSlug(s: string, t: string)
    ensures CategoryHref(s)[..|CategoryPrefix|] == CategoryPrefix && CategoryHref(s)[|CategoryPrefix|..] == s
    ensures ArticleHref(s)[..|ArticlePrefix|] == ArticlePrefix && ArticleHref(s)[|ArticlePrefix|..] == s
    ensures CategoryHref(s) == CategoryHref(t) <==> s == t
    ensures ArticleHref(s) == ArticleHref(t) <==> s == t
  {
    if CategoryHref(s) == CategoryHref(t) {
      assert CategoryHref(s)[|CategoryPrefix|..] == CategoryHref(t)[|CategoryPrefix|..];
    }
    if ArticleHref(s) == ArticleHref(t) {
      assert ArticleHref(s)[|ArticlePrefix|..] == ArticleHref(t)[|ArticlePrefix|..];
    }
  }

  /** What one card shows; a segment is `None` when the card leaves it out. */
  datatype CardView = CardView(
    cover: string,
    categoryHref: string,
    categoryLabel: string,
    authorSegment: Option<string>,
    dateSegment: Option<DateText>,
    title: string,
    excerpt: string,
    readMoreHref: string)

  function Card(post: PostPreview, parse: Parser): (v: CardView)
    ensures post.coverColor.Some? ==> v.cover == post.coverColor.value
    ensures post.coverColor.None? ==> v.cover == CardGradient
    ensures v.authorSegment.Some? <==> post.author.Some? && post.author.value != ""
    ensures v.authorSegment.Some? ==> v.authorSegment.value == post.author.value
    ensures v.dateSegment.Some? <==> !IsBlank(FormatDate(post.publishedAt, parse))
    ensures v.dateSegment.Some? ==> v.dateSegment.value == FormatDate(post.publishedAt, parse)
    ensures v.categoryHref == CategoryPrefix + post.categorySlug && v.readMoreHref == ArticlePrefix + post.slug
    ensures v.categoryLabel == post.categoryLabel && v.title == post.title && v.excerpt == post.excerpt
  {
    var date := FormatDate(post.publishedAt, parse);
    CardView(
      cover := if post.coverColor.Some? then post.coverColor.value else CardGradient,
      categoryHref := CategoryHref(post.categorySlug),
      categoryLabel := post.categoryLabel,
      authorSegment := if post.author.Some? && post.author.value != "" then Some(post.author.value) else None,
      dateSegment := if IsBlank(date) then None else Some(date),
      title := post.title,
      excerpt := post.excerpt,
      readMoreHref := ArticleHref(post.slug))
  }
}
