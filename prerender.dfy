/**
 * The build-time SEO pre-renderer: it picks the list of blog posts (rows of the published
 * sheet, or a fixed fallback list), and for every post with an id and a title it rewrites the
 * built `index.html` into `blog/<id>/index.html` with that post's title, description, image
 * and URL in the head, plus a block of Twitter card tags.
 *
 * The network fetch, the CSV library and the file system are inputs: the fetched text is an
 * `Option<string>` (None when the fetch failed or the response was not ok), the CSV library is
 * a function from text to rows (None when it threw), and the built `index.html` is an
 * `Option<string>` (None when it does not exist).
 */
module Prerender {
  import opened Wrappers
  import opened Text
  import opened Seqs
  import opened JsRegex
  import opened SiteUrl

  /** The fields of a sheet row the pre-renderer reads; a missing field is "". */
  datatype SeoRow = SeoRow(id: string, title: string, excerpt: string, image: string)

  /** The fallback posts used when the sheet cannot be read or is empty. */
  const MOCK_POSTS: seq<SeoRow> := [
    SeoRow("1",
      "Cómo elegir el calibre de cable correcto",
      "Una guía práctica para evitar sobrecalentamientos y cumplir norma RETIE en instalaciones residenciales.",
      "https://images.unsplash.com/photo-1558346490-a72e53ae2d4f?auto=format&fit=crop&q=80&w=1000"),
    SeoRow("finlandia-transmision-energia-inalambrica-larga-distancia",
      "El fin de los cables: Finlandia estremece al mundo con la transmisión inalámbrica",
      "Ingenieros de la Universidad de Aalto logran un 80% de eficiencia energética transmitiendo electricidad a través del aire mediante superconductores.",
      "https://fecauca.com/images/default-blog.jpg")
  ]

  // ---------------------------------------------------------------------------------------
  // The unused hand-written CSV parser
  // ---------------------------------------------------------------------------------------

  /**
   * The script's own CSV parser. It splits the text into lines, normalises the header names
   * and looks up the four columns, then walks the data lines without ever adding a row: its
   * result is empty for every input.
   */
  method ParseCsv(csv: string) returns (posts: seq<SeoRow>)
    ensures posts == []
  {
    var lines := SplitOn(csv, '\n');
    if |lines| < 2 {
      return [];
    }
    var headers := Map((h: string) => ToLower(Trim(h)), SplitOn(lines[0], ','));
    var idIdx := IndexOf(headers, "id");
    var titleIdx := IndexOf(headers, "title");
    var excerptIdx := IndexOf(headers, "excerpt");
    var imageIdx := IndexOf(headers, "image");
    posts := [];
    var i := 1;
    while i < |lines|
      invariant 1 <= i <= |lines|
      invariant posts == []
    {
      i := i + 1;
    }
  }

  /** The parser's early exit: a text without a newline has fewer than two lines. */
  lemma OneLineCsv(csv: string)
    requires '\n' !in csv
    ensures |SplitOn(csv, '\n')| < 2
  {
  }

  // ---------------------------------------------------------------------------------------
  // Choosing the posts
  // ---------------------------------------------------------------------------------------

  /**
   * The posts to pre-render: the rows the CSV library produced when the fetch succeeded, the
   * library did not throw and it produced at least one row; the fallback list otherwise.
   */
  function SelectPosts(fetched: Option<string>, parse: string -> Option<seq<SeoRow>>): (posts: seq<SeoRow>)
    ensures |posts| > 0
    ensures posts == MOCK_POSTS
            || (fetched.Some? && parse(fetched.value).Some? && posts == parse(fetched.value).value)
  {
    match fetched
    case None => MOCK_POSTS
    case Some(csv) =>
      match parse(csv)
      case None => MOCK_POSTS
      case Some(data) => if |data| > 0 then data else MOCK_POSTS
  }

  /** The parsed rows are used exactly when there are some. */
  lemma SelectParsed(csv: string, parse: string -> Option<seq<SeoRow>>)
    requires parse(csv).Some? && |parse(csv).value| > 0
    ensures SelectPosts(Some(csv), parse) == parse(csv).value
  {
  }

  /** A failed fetch, a library error or an empty sheet all fall back to the fixed list. */
  lemma SelectFallback(fetched: Option<string>, parse: string -> Option<seq<SeoRow>>)
    requires fetched.None? || parse(fetched.value).None? || parse(fetched.value).value == []
    ensures SelectPosts(fetched, parse) == MOCK_POSTS
  {
  }

  // ---------------------------------------------------------------------------------------
  // Rewriting one page
  // ---------------------------------------------------------------------------------------

  /** A row is pre-rendered only when both its id and its title are non-empty. */
  predicate Emittable(row: SeoRow) {
    row.id != "" && row.title != ""
  }

  /** The page title of a post. */
  function PageTitle(row: SeoRow): string {
    row.title + " | FECAUCA Blog"
  }

  /** The excerpt with every `"` written as `&quot;`, so that it fits in an attribute value. */
  function EscapeQuotes(excerpt: string): (r: string)
    ensures '"' !in r
  {
    ReplaceChar(excerpt, '"', "&quot;")
  }

  /** The URL of a post's page. */
  function PostUrl(row: SeoRow): string {
    ORIGIN + "/blog/" + row.id
  }

  // The tags the head rewrites look for. Each is the script's literal written in pieces, which keeps
  // the proofs about their characters cheap.
  const TITLE_OPEN: string := "<" + "title>"
  const TITLE_CLOSE: string := "<" + "/title>"
  const QUOTE: string := "\""
  const DESCRIPTION_OPEN: string := "<" + ("meta name=" + "\"description\"" + " content=\"")
  const OG_TITLE_OPEN: string := "<" + ("meta property=" + "\"og:title\"" + " content=\"")
  const OG_DESCRIPTION_OPEN: string := "<" + ("meta property=" + "\"og:description\"" + " content=\"")
  const OG_IMAGE_OPEN: string := "<" + ("meta property=" + "\"og:image\"" + " content=\"")
  const OG_URL_OPEN: string := "<" + ("meta property=" + "\"og:url\"" + " content=\"")

  /** The comment after which the Twitter card tags are inserted (the script's literal, written in pieces). */
  const OG_MARKER: string := "<" + ("!-- Open Graph / " + "Facebook / WhatsApp -->")

  /**
   * `html.replace(/open.*?close/, open + value + close)`: the text between the first `open`
   * and the next `close` on the same line becomes `value`.
   */
  function SetBetween(html: string, open: string, close: string, value: string): string {
    ReplaceFirstLazy(html, open, close, open + value + close)
  }

  /** The six head rewrites, in the script's order. */
  function RewriteHead(html: string, row: SeoRow): string {
    var title := PageTitle(row);
    var excerpt := EscapeQuotes(row.excerpt);
    var h1 := SetBetween(html, TITLE_OPEN, TITLE_CLOSE, title);
    var h2 := SetBetween(h1, DESCRIPTION_OPEN, QUOTE, excerpt);
    var h3 := SetBetween(h2, OG_TITLE_OPEN, QUOTE, title);
    var h4 := SetBetween(h3, OG_DESCRIPTION_OPEN, QUOTE, excerpt);
    var h5 := SetBetween(h4, OG_IMAGE_OPEN, QUOTE, AbsoluteUrl(row.image));
    SetBetween(h5, OG_URL_OPEN, QUOTE, PostUrl(row))
  }

  // The lines of the Twitter card block; some are the script's literals written in pieces.
  const TWITTER_CARD: string := "\n  <meta name=" + "\"twitter:card\"" + " content=" + "\"summary_large_image\"" + " />"
  const TWITTER_TITLE_OPEN: string := "\n  <meta name=\"twitter:title\" content=\""
  const TWITTER_DESCRIPTION_OPEN: string := "\n  <meta name=" + "\"twitter:description\"" + " content=\""
  const TWITTER_IMAGE_OPEN: string := "\n  <meta name=\"twitter:image\" content=\""
  const TAG_CLOSE: string := "\" />"

  /** The Twitter card tags of a post (they begin and end with a line break). */
  function TwitterTags(title: string, excerpt: string, image: string): string {
    TWITTER_CARD
    + TWITTER_TITLE_OPEN + title + TAG_CLOSE
    + TWITTER_DESCRIPTION_OPEN + excerpt + TAG_CLOSE
    + TWITTER_IMAGE_OPEN + image + TAG_CLOSE + "\n"
  }

  /** The marker comment, kept, followed by a line break and the Twitter card tags. */
  function InjectTwitter(html: string, tags: string): string {
    ReplaceFirstLiteral(html, OG_MARKER, OG_MARKER + "\n" + tags)
  }

  /** The page written for a post. */
  function RewritePost(base: string, row: SeoRow): string {
    InjectTwitter(RewriteHead(base, row),
      TwitterTags(PageTitle(row), EscapeQuotes(row.excerpt), AbsoluteUrl(row.image)))
  }

  /** Undoes `EscapeQuotes`: every `&quot;` read back as `"`. */
  function UnescapeQuotes(s: string): string {
    if s == [] then []
    else if At(s, 0, "&quot;") then "\"" + UnescapeQuotes(s[6..])
    else [s[0]] + UnescapeQuotes(s[1..])
  }

  /** Escaping loses nothing as long as the excerpt has no `&` of its own. */
  lemma {:induction false} EscapeQuotesRoundTrip(excerpt: string)
    requires '&' !in excerpt
    ensures UnescapeQuotes(EscapeQuotes(excerpt)) == excerpt
  {
    if excerpt != [] {
      var c, rest := excerpt[0], excerpt[1..];
      EscapeQuotesRoundTrip(rest);
      var e := EscapeQuotes(excerpt);
      if c == '"' {
        assert e == "&quot;" + EscapeQuotes(rest);
        assert At(e, 0, "&quot;");
        assert e[6..] == EscapeQuotes(rest);
      } else {
        assert e == [c] + EscapeQuotes(rest);
        assert e[0] == c != '&';
        assert e[1..] == EscapeQuotes(rest);
      }
      assert excerpt == [c] + rest;
    }
  }

  /** An excerpt without `"` is written as it is. */
  lemma {:induction false} EscapeQuotesPlain(excerpt: string)
    requires '"' !in excerpt
    ensures EscapeQuotes(excerpt) == excerpt
  {
    if excerpt != [] {
      EscapeQuotesPlain(excerpt[1..]);
      assert excerpt == [excerpt[0]] + excerpt[1..];
    }
  }

  /** A missing excerpt gives an empty description. */
  lemma MissingExcerpt()
    ensures EscapeQuotes("") == ""
  {
  }

  /**
   * One head rewrite on a page whose first `open` has, on the same line, the text `mid` and
   * then `close`: that `mid` becomes `value`, and nothing else changes. This needs `value`
   * to hold no `$`, which `replace` would read as a substitution pattern.
   */
  lemma SetBetweenAt(pre: string, open: string, mid: string, close: string, post: string, value: string)
    requires forall i :: 0 <= i < |pre| ==> !At(pre + open, i, open)
    requires forall m :: 0 <= m < |mid| ==> !At(mid + close, m, close) && !IsLineTerminator(mid[m])
    requires '$' !in open + value + close
    ensures SetBetween(pre + open + mid + close + post, open, close, value)
            == pre + open + value + close + post
  {
    ReplaceLazyAt(pre, open, mid, close, post, open + value + close);
    assert pre + (open + value + close) + post == pre + open + value + close + post;
  }

  /** A head rewrite whose tag is missing (or not closed on its line) leaves the page as it was. */
  lemma SetBetweenAbsent(html: string, open: string, close: string, value: string)
    requires forall i :: MatchEnd(html, i, open, close).None?
    ensures SetBetween(html, open, close, value) == html
  {
    ReplaceLazyNoMatch(html, open, close, open + value + close);
  }

  /** For an attribute closed by `"`, "no earlier close" means "no `"` in the old value". */
  lemma QuotedValuePlain(mid: string)
    requires '"' !in mid && forall m :: 0 <= m < |mid| ==> !IsLineTerminator(mid[m])
    ensures forall m :: 0 <= m < |mid| ==> !At(mid + QUOTE, m, QUOTE) && !IsLineTerminator(mid[m])
  {
    forall m | 0 <= m < |mid| ensures !At(mid + QUOTE, m, QUOTE) {
      assert (mid + QUOTE)[m] == mid[m];
    }
  }

  // The tag texts the script writes hold no `$` (one lemma each keeps every proof small).
  lemma TitleTagsDollarFree() ensures '$' !in TITLE_OPEN && '$' !in TITLE_CLOSE && '$' !in QUOTE { }
  lemma DescriptionOpenDollarFree() ensures '$' !in DESCRIPTION_OPEN { }
  lemma OgTitleOpenDollarFree() ensures '$' !in OG_TITLE_OPEN { }
  lemma OgDescriptionOpenDollarFree() ensures '$' !in OG_DESCRIPTION_OPEN { }
  lemma OgImageOpenDollarFree() ensures '$' !in OG_IMAGE_OPEN { }
  lemma OgUrlOpenDollarFree() ensures '$' !in OG_URL_OPEN { }
  lemma OgMarkerDollarFree() ensures '$' !in OG_MARKER { }
  lemma TwitterCardDollarFree() ensures '$' !in TWITTER_CARD { }
  lemma TwitterTitleOpenDollarFree() ensures '$' !in TWITTER_TITLE_OPEN && '$' !in TAG_CLOSE { }
  lemma TwitterDescriptionOpenDollarFree() ensures '$' !in TWITTER_DESCRIPTION_OPEN { }
  lemma TwitterImageOpenDollarFree() ensures '$' !in TWITTER_IMAGE_OPEN { }

  /** The `<title>` rewrite: the old title is replaced by the page title. */
  lemma TitleRewrite(pre: string, mid: string, post: string, row: SeoRow)
    requires forall i :: 0 <= i < |pre| ==> !At(pre + TITLE_OPEN, i, TITLE_OPEN)
    requires forall m :: 0 <= m < |mid| ==> !At(mid + TITLE_CLOSE, m, TITLE_CLOSE) && !IsLineTerminator(mid[m])
    requires '$' !in row.title
    ensures SetBetween(pre + TITLE_OPEN + mid + TITLE_CLOSE + post, TITLE_OPEN, TITLE_CLOSE, PageTitle(row))
            == pre + "<title>" + row.title + " | FECAUCA Blog</title>" + post
  {
    TitleTagsDollarFree();
    var t := TITLE_OPEN + PageTitle(row) + TITLE_CLOSE;
    assert '$' !in " | FECAUCA Blog";
    assert t == TITLE_OPEN + row.title + " | FECAUCA Blog" + TITLE_CLOSE;
    SetBetweenAt(pre, TITLE_OPEN, mid, TITLE_CLOSE, post, PageTitle(row));
    assert pre + TITLE_OPEN + PageTitle(row) + TITLE_CLOSE + post
        == pre + "<title>" + row.title + " | FECAUCA Blog</title>" + post;
  }

  /** The `og:url` rewrite: the old URL is replaced by the post's own page URL. */
  lemma OgUrlRewrite(pre: string, mid: string, post: string, row: SeoRow)
    requires forall i :: 0 <= i < |pre| ==> !At(pre + OG_URL_OPEN, i, OG_URL_OPEN)
    requires '"' !in mid && forall m :: 0 <= m < |mid| ==> !IsLineTerminator(mid[m])
    requires '$' !in row.id
    ensures SetBetween(pre + OG_URL_OPEN + mid + QUOTE + post, OG_URL_OPEN, QUOTE, PostUrl(row))
            == pre + OG_URL_OPEN + "https://fecauca.com/blog/" + row.id + "\"" + post
  {
    TitleTagsDollarFree();
    OgUrlOpenDollarFree();
    QuotedValuePlain(mid);
    assert '$' !in ORIGIN + "/blog/";
    SetBetweenAt(pre, OG_URL_OPEN, mid, QUOTE, post, PostUrl(row));
    BlogBase();
  }

  /** The origin followed by the blog's path, written out. */
  lemma BlogBase()
    ensures ORIGIN + "/blog/" == "https://fecauca.com/blog/"
  {
  }

  /**
   * The rewrites of the five `<meta ... content="...">` tags: the first such tag's old content
   * (which holds no `"` and no line break) becomes `value`.
   */
  lemma MetaRewrite(pre: string, open: string, mid: string, post: string, value: string)
    requires open == DESCRIPTION_OPEN || open == OG_TITLE_OPEN || open == OG_DESCRIPTION_OPEN
             || open == OG_IMAGE_OPEN || open == OG_URL_OPEN
    requires forall i :: 0 <= i < |pre| ==> !At(pre + open, i, open)
    requires '"' !in mid && forall m :: 0 <= m < |mid| ==> !IsLineTerminator(mid[m])
    requires '$' !in value
    ensures SetBetween(pre + open + mid + QUOTE + post, open, QUOTE, value)
            == pre + open + value + QUOTE + post
  {
    TitleTagsDollarFree();
    DescriptionOpenDollarFree();
    OgTitleOpenDollarFree();
    OgDescriptionOpenDollarFree();
    OgImageOpenDollarFree();
    OgUrlOpenDollarFree();
    QuotedValuePlain(mid);
    SetBetweenAt(pre, open, mid, QUOTE, post, value);
  }

  /** The values the script puts in the head hold no `$` when the post's fields hold none. */
  lemma HeadValuesDollarFree(row: SeoRow)
    requires '$' !in row.id && '$' !in row.title && '$' !in row.excerpt && '$' !in row.image
    ensures '$' !in PageTitle(row) && '$' !in EscapeQuotes(row.excerpt)
    ensures '$' !in AbsoluteUrl(row.image) && '$' !in PostUrl(row)
  {
    EscapeQuotesAvoids(row.excerpt, '$');
    assert '$' !in " | FECAUCA Blog";
    assert '$' !in ORIGIN + "/";
    assert '$' !in ORIGIN + "/blog/";
  }

  /** Escaping adds no character outside `&quot;` (no `$`, no `<`) that the excerpt did not hold. */
  lemma {:induction false} EscapeQuotesAvoids(excerpt: string, c: char)
    requires c !in excerpt && c !in "&quot;"
    ensures c !in EscapeQuotes(excerpt)
  {
    if excerpt != [] {
      EscapeQuotesAvoids(excerpt[1..], c);
      assert EscapeQuotes(excerpt)
          == (if excerpt[0] == '"' then "&quot;" else [excerpt[0]]) + EscapeQuotes(excerpt[1..]);
    }
  }

  /**
   * The Twitter block goes in once, right after the first marker comment (followed by a blank
   * line, as the tags begin with a line break); the rest of the page is kept.
   */
  lemma InjectTwitterAt(pre: string, post: string, tags: string)
    requires forall i :: 0 <= i < |pre| ==> !At(pre + OG_MARKER, i, OG_MARKER)
    requires '$' !in tags
    ensures InjectTwitter(pre + OG_MARKER + post, tags) == pre + OG_MARKER + "\n" + tags + post
  {
    OgMarkerDollarFree();
    ReplaceLiteralAt(pre, OG_MARKER, post, OG_MARKER + "\n" + tags);
    assert pre + (OG_MARKER + "\n" + tags) + post == pre + OG_MARKER + "\n" + tags + post;
  }

  /** Without the marker comment, nothing is injected. */
  lemma InjectTwitterAbsent(html: string, tags: string)
    requires !Contains(html, OG_MARKER)
    ensures InjectTwitter(html, tags) == html
  {
    ReplaceLiteralAbsent(html, OG_MARKER, OG_MARKER + "\n" + tags);
  }

  /** The Twitter block holds no `$` when the title, excerpt and image hold none. */
  lemma TwitterTagsDollarFree(title: string, excerpt: string, image: string)
    requires '$' !in title && '$' !in excerpt && '$' !in image
    ensures '$' !in TwitterTags(title, excerpt, image)
  {
    TwitterCardDollarFree();
    TwitterTitleOpenDollarFree();
    TwitterDescriptionOpenDollarFree();
    TwitterImageOpenDollarFree();
  }

  // ---------------------------------------------------------------------------------------
  // The whole page
  // ---------------------------------------------------------------------------------------

  // A run of rewritten tags, in general: each tag is its opener, its value, the text that ends
  // the value and the text up to the next tag. The needles are the openers, in order, and one
  // more text (the marker comment) that must not occur before the end of the run.

  datatype Tag = Tag(open: string, close: string, after: string)

  /** A tag holding `value`. */
  function TagWith(t: Tag, value: string): string {
    t.open + value + t.close + t.after
  }

  /** The text before the tags, then the first `k` tags, holding `vals`. */
  function TagsBefore(pre: string, ts: seq<Tag>, vals: seq<string>, k: nat): string
    requires k <= |ts| && k <= |vals|
  {
    if k == 0 then pre else TagsBefore(pre, ts, vals, k - 1) + TagWith(ts[k - 1], vals[k - 1])
  }

  /** The tags from the `k`-th on, holding `vals`. */
  function TagsFrom(ts: seq<Tag>, vals: seq<string>, k: nat): string
    requires k <= |ts| && |ts| <= |vals|
    decreases |ts| - k
  {
    if k == |ts| then [] else TagWith(ts[k], vals[k]) + TagsFrom(ts, vals, k + 1)
  }

  /** The head rewrite of one tag: its opener, then `value`, then its end. */
  function SetTag(html: string, t: Tag, value: string): string {
    SetBetween(html, t.open, t.close, value)
  }

  /** The first `k` of a run of rewrites, the `j`-th putting `vals[j]` in the `j`-th tag by `step`. */
  function SetAll(step: (string, Tag, string) -> string, html: string, ts: seq<Tag>, vals: seq<string>, k: nat): string
    requires k <= |ts| && k <= |vals|
  {
    if k == 0 then html else step(SetAll(step, html, ts, vals, k - 1), ts[k - 1], vals[k - 1])
  }

  /** None of the needles from the `k`-th on occurs in `s`. */
  predicate ClearFrom(s: string, needles: seq<string>, k: nat) {
    forall j :: k <= j < |needles| ==> !Contains(s, needles[j])
  }

  predicate OneLine(s: string) {
    forall m :: 0 <= m < |s| ==> !IsLineTerminator(s[m])
  }

  /** The lazy `.*?` after an opener stops right after `mid`: no earlier end, no line break. */
  predicate LazyPlain(mid: string, close: string) {
    forall m :: 0 <= m < |mid| ==> !At(mid + close, m, close) && !IsLineTerminator(mid[m])
  }

  /**
   * What one rewrite relies on: the opener begins with its only `<`, the old value ends at
   * its first end, on its line, and the new value holds no `<`; neither the new value nor the
   * opener and end hold a `$`.
   */
  predicate TagFits(t: Tag, was: string, value: string) {
    OneLt(t.open) && LazyPlain(was, t.close) && '<' !in value
    && '$' !in t.open && '$' !in value && '$' !in t.close
  }

  /**
   * What the rewrites of a run rely on: each tag fits; the needles begin with their only `<`
   * and differ from each other; no needle occurs before the tags, and none after a tag's
   * value but the earlier ones.
   */
  predicate Fits(pre: string, ts: seq<Tag>, olds: seq<string>, news: seq<string>, needles: seq<string>) {
    |olds| == |ts| && |news| == |ts| && |needles| == |ts| + 1
    && (forall j :: 0 <= j < |ts| ==> ts[j].open == needles[j] && TagFits(ts[j], olds[j], news[j]))
    && (forall j :: 0 <= j < |ts| ==> ClearFrom(ts[j].close + ts[j].after, needles, j + 1))
    && (forall j :: 0 <= j < |needles| ==> OneLt(needles[j]))
    && (forall i, j :: 0 <= i < j < |needles| ==> Differ(needles[i], needles[j]))
    && ClearFrom(pre, needles, 0)
  }

  /** A tag holding a value without `<` holds none of the later needles. */
  lemma TagClear(t: Tag, v: string, needles: seq<string>, i: nat)
    requires i < |needles| && t.open == needles[i] && '<' !in v
    requires forall j :: i <= j < |needles| ==> OneLt(needles[j])
    requires forall j :: i < j < |needles| ==> Differ(needles[i], needles[j])
    requires ClearFrom(t.close + t.after, needles, i + 1)
    ensures ClearFrom(TagWith(t, v), needles, i + 1)
    ensures TagWith(t, v) != [] && TagWith(t, v)[0] == '<'
  {
    ConcatAssoc(t.open + v, t.close, t.after);
    forall j | i + 1 <= j < |needles| ensures !Contains(TagWith(t, v), needles[j]) {
      AbsentAfterHead(t.open, v, t.close + t.after, needles[j]);
    }
    assert TagWith(t, v)[0] == t.open[0];
  }

  /** Appending a text that starts with `<` and holds none of the later needles keeps them out. */
  lemma ExtendClear(a: string, g: string, needles: seq<string>, k: nat)
    requires forall j :: k <= j < |needles| ==> OneLt(needles[j])
    requires ClearFrom(a, needles, k) && ClearFrom(g, needles, k) && g != [] && g[0] == '<'
    ensures ClearFrom(a + g, needles, k)
  {
    forall j | k <= j < |needles| ensures !Contains(a + g, needles[j]) {
      AbsentJoin(a, g, needles[j]);
    }
  }

  /** After the first `k` tags, holding their new values, no needle from the `k`-th on has occurred. */
  lemma {:induction false} TagsBeforeClear(pre: string, ts: seq<Tag>, olds: seq<string>, news: seq<string>,
                                           needles: seq<string>, k: nat)
    requires Fits(pre, ts, olds, news, needles) && k <= |ts|
    ensures ClearFrom(TagsBefore(pre, ts, news, k), needles, k)
  {
    if k > 0 {
      var j := k - 1;
      TagsBeforeClear(pre, ts, olds, news, needles, j);
      assert TagFits(ts[j], olds[j], news[j]);
      TagClear(ts[j], news[j], needles, j);
      ExtendClear(TagsBefore(pre, ts, news, j), TagWith(ts[j], news[j]), needles, k);
    }
  }

  /** One head rewrite of a tag given as its place between the text before and after it. */
  lemma RewriteStep(a: string, t: Tag, was: string, value: string, b: string)
    requires TagFits(t, was, value) && !Contains(a, t.open)
    ensures SetBetween(a + TagWith(t, was) + b, t.open, t.close, value) == a + TagWith(t, value) + b
  {
    NoEarlierOf(a, t.open);
    SetBetweenAt(a, t.open, was, t.close, t.after + b, value);
    Regroup(a, t.open, was, t.close, t.after, b);
    Regroup(a, t.open, value, t.close, t.after, b);
  }

  /** A tag's pieces regrouped. */
  lemma Regroup(a: string, open: string, mid: string, close: string, after: string, b: string)
    ensures a + (open + mid + close + after) + b == a + open + mid + close + (after + b)
  {
  }

  /** The page after the first `k` rewrites: the first `k` tags hold the new values, the rest the old. */
  function Stage(pre: string, ts: seq<Tag>, olds: seq<string>, news: seq<string>, t: string, k: nat): string
    requires k <= |ts| && |ts| <= |olds| && k <= |news|
  {
    TagsBefore(pre, ts, news, k) + (TagsFrom(ts, olds, k) + t)
  }

  /** The `k`-th rewrite takes one stage to the next. */
  lemma StageStep(pre: string, ts: seq<Tag>, olds: seq<string>, news: seq<string>,
                  needles: seq<string>, t: string, k: nat)
    requires Fits(pre, ts, olds, news, needles) && k < |ts|
    ensures SetTag(Stage(pre, ts, olds, news, t, k), ts[k], news[k]) == Stage(pre, ts, olds, news, t, k + 1)
  {
    var a, g, b := TagsBefore(pre, ts, news, k), TagWith(ts[k], olds[k]), TagsFrom(ts, olds, k + 1) + t;
    TagsBeforeClear(pre, ts, olds, news, needles, k);
    assert ts[k].open == needles[k] && TagFits(ts[k], olds[k], news[k]);
    ConcatAssoc(g, TagsFrom(ts, olds, k + 1), t);
    ConcatAssoc(a, g, b);
    RewriteStep(a, ts[k], olds[k], news[k], b);
    ConcatAssoc(a, TagWith(ts[k], news[k]), b);
  }

  /** The stages of a run of rewrites, from none done to all done. */
  function Stages(pre: string, ts: seq<Tag>, olds: seq<string>, news: seq<string>, t: string): (xs: seq<string>)
    requires |olds| == |ts| && |news| == |ts|
    ensures |xs| == |ts| + 1 && forall j :: 0 <= j <= |ts| ==> xs[j] == Stage(pre, ts, olds, news, t, j)
  {
    seq(|ts| + 1, j requires 0 <= j <= |ts| => Stage(pre, ts, olds, news, t, j))
  }

  /** Every rewrite of a run that fits takes one stage to the next. */
  lemma AllStagesStep(pre: string, ts: seq<Tag>, olds: seq<string>, news: seq<string>,
                      needles: seq<string>, t: string)
    requires Fits(pre, ts, olds, news, needles)
    ensures forall j {:trigger SetTag(Stages(pre, ts, olds, news, t)[j], ts[j], news[j])} :: 0 <= j < |ts| ==>
      SetTag(Stages(pre, ts, olds, news, t)[j], ts[j], news[j]) == Stages(pre, ts, olds, news, t)[j + 1]
  {
    var xs := Stages(pre, ts, olds, news, t);
    forall j | 0 <= j < |ts| ensures SetTag(xs[j], ts[j], news[j]) == xs[j + 1] {
      StageStep(pre, ts, olds, news, needles, t, j);
    }
  }

  /** Each of the first `k` steps takes the page before it, `xs[j]`, to the page after it. */
  predicate StepsHold(step: (string, Tag, string) -> string, xs: seq<string>, ts: seq<Tag>, vals: seq<string>, k: nat)
    requires k <= |ts| && k <= |vals| && k < |xs|
  {
    k == 0 || (StepsHold(step, xs, ts, vals, k - 1) && step(xs[k - 1], ts[k - 1], vals[k - 1]) == xs[k])
  }

  /** Steps each taking one page to the next, as a chain up to the `k`-th. */
  lemma {:induction false} StepsChain(step: (string, Tag, string) -> string, xs: seq<string>, ts: seq<Tag>,
                                      vals: seq<string>, k: nat)
    requires |vals| == |ts| && |xs| == |ts| + 1 && k <= |ts|
    requires forall j {:trigger step(xs[j], ts[j], vals[j])} :: 0 <= j < |ts| ==> step(xs[j], ts[j], vals[j]) == xs[j + 1]
    ensures StepsHold(step, xs, ts, vals, k)
  {
    if k > 0 {
      StepsChain(step, xs, ts, vals, k - 1);
      assert step(xs[k - 1], ts[k - 1], vals[k - 1]) == xs[k];
    }
  }

  /** Steps that each take one page to the next take the first page to the `k`-th. */
  lemma {:induction false} SetAllStages(step: (string, Tag, string) -> string, xs: seq<string>, ts: seq<Tag>,
                                        vals: seq<string>, k: nat)
    requires k <= |ts| && k <= |vals| && k < |xs|
    requires StepsHold(step, xs, ts, vals, k)
    ensures SetAll(step, xs[0], ts, vals, k) == xs[k]
  {
    if k > 0 {
      SetAllStages(step, xs, ts, vals, k - 1);
    }
  }

  /** A run cut after any tag is the whole run. */
  lemma {:induction false} BeforeAndFrom(pre: string, ts: seq<Tag>, vals: seq<string>, k: nat, t: string)
    requires k <= |ts| && |ts| <= |vals|
    ensures TagsBefore(pre, ts, vals, k) + (TagsFrom(ts, vals, k) + t) == TagsBefore(pre, ts, vals, |ts|) + t
    decreases |ts| - k
  {
    if k < |ts| {
      BeforeAndFrom(pre, ts, vals, k + 1, t);
      var a, g, r := TagsBefore(pre, ts, vals, k), TagWith(ts[k], vals[k]), TagsFrom(ts, vals, k + 1);
      ConcatAssoc(g, r, t);
      ConcatAssoc(a, g, r + t);
    }
  }

  /** Rewrites that each take one stage to the next put the new values in every tag. */
  lemma RunRewritten(pre: string, ts: seq<Tag>, olds: seq<string>, news: seq<string>, t: string)
    requires |olds| == |ts| && |news| == |ts|
    requires forall j {:trigger SetTag(Stages(pre, ts, olds, news, t)[j], ts[j], news[j])} :: 0 <= j < |ts| ==>
      SetTag(Stages(pre, ts, olds, news, t)[j], ts[j], news[j]) == Stages(pre, ts, olds, news, t)[j + 1]
    ensures SetAll(SetTag, TagsBefore(pre, ts, olds, |ts|) + t, ts, news, |ts|) == TagsBefore(pre, ts, news, |ts|) + t
  {
    var xs := Stages(pre, ts, olds, news, t);
    StepsChain(SetTag, xs, ts, news, |ts|);
    SetAllStages(SetTag, xs, ts, news, |ts|);
    StagesEnds(pre, ts, olds, news, t);
  }

  /** The first stage is the run with its old values, the last the run with its new ones. */
  lemma StagesEnds(pre: string, ts: seq<Tag>, olds: seq<string>, news: seq<string>, t: string)
    requires |olds| == |ts| && |news| == |ts|
    ensures Stages(pre, ts, olds, news, t)[0] == TagsBefore(pre, ts, olds, |ts|) + t
    ensures Stages(pre, ts, olds, news, t)[|ts|] == TagsBefore(pre, ts, news, |ts|) + t
  {
    BeforeAndFrom(pre, ts, olds, 0, t);
    assert Stages(pre, ts, olds, news, t)[|ts|] == TagsBefore(pre, ts, news, |ts|) + ([] + t);
  }

  /**
   * All the rewrites of a run of tags followed by any text: every tag holds its new value,
   * and the last needle has not occurred before that text.
   */
  lemma SetAllRun(pre: string, ts: seq<Tag>, olds: seq<string>, news: seq<string>, needles: seq<string>, t: string)
    requires Fits(pre, ts, olds, news, needles)
    ensures SetAll(SetTag, TagsBefore(pre, ts, olds, |ts|) + t, ts, news, |ts|) == TagsBefore(pre, ts, news, |ts|) + t
    ensures !Contains(TagsBefore(pre, ts, news, |ts|), needles[|ts|])
  {
    AllStagesStep(pre, ts, olds, news, needles, t);
    RunRewritten(pre, ts, olds, news, t);
    TagsBeforeClear(pre, ts, olds, news, needles, |ts|);
  }

  /** A tag ended by `"` fits when its old content holds no `"` and stays on its line. */
  lemma QuotedFits(open: string, after: string, was: string, value: string)
    requires OneLt(open) && '$' !in open && '"' !in was && OneLine(was) && '<' !in value && '$' !in value
    ensures TagFits(Tag(open, QUOTE, after), was, value)
  {
    QuotedValuePlain(was);
    TitleTagsDollarFree();
  }

  /** A character other than `<` cannot begin a needle, so what follows it decides. */
  lemma ConsClear(c: string, s: string, needles: seq<string>, k: nat)
    requires |c| == 1 && c[0] != '<' && forall j :: 0 <= j < |needles| ==> OneLt(needles[j])
    requires ClearFrom(s, needles, 0)
    ensures ClearFrom(c + s, needles, k)
  {
    forall j, i: nat | k <= j < |needles| && i <= |c + s| ensures !At(c + s, i, needles[j]) {
      if i == 0 {
        NotAtHead(c + s, 0, needles[j]);
      } else {
        AtSuffix(c, s, i - 1, needles[j]);
      }
    }
  }

  // The page's own tags.

  /**
   * The head of a built page laid out in the order the script rewrites: the text before `<title>`,
   * then the six tags it rewrites, in its order, each with its value and the text that
   * follows the value's end, up to the next tag.
   */
  datatype HeadText = HeadText(
    pre: string,
    title: string, afterTitle: string,
    description: string, afterDescription: string,
    ogTitle: string, afterOgTitle: string,
    ogDescription: string, afterOgDescription: string,
    ogImage: string, afterOgImage: string,
    ogUrl: string, afterOgUrl: string)

  /** The six tags of a head: `<title>…</title>`, then five `<meta … content="…"`. */
  function TagList(h: HeadText): seq<Tag> {
    [Tag(TITLE_OPEN, TITLE_CLOSE, h.afterTitle), Tag(DESCRIPTION_OPEN, QUOTE, h.afterDescription),
     Tag(OG_TITLE_OPEN, QUOTE, h.afterOgTitle), Tag(OG_DESCRIPTION_OPEN, QUOTE, h.afterOgDescription),
     Tag(OG_IMAGE_OPEN, QUOTE, h.afterOgImage), Tag(OG_URL_OPEN, QUOTE, h.afterOgUrl)]
  }

  /** The six values of a head. */
  function ValueList(h: HeadText): seq<string> {
    [h.title, h.description, h.ogTitle, h.ogDescription, h.ogImage, h.ogUrl]
  }

  /** The head's text. */
  function HeadHtml(h: HeadText): string {
    TagsBefore(h.pre, TagList(h), ValueList(h), 6)
  }

  /** The same head holding a post's values. */
  function PostHead(h: HeadText, row: SeoRow): HeadText {
    h.(title := PageTitle(row), description := EscapeQuotes(row.excerpt),
       ogTitle := PageTitle(row), ogDescription := EscapeQuotes(row.excerpt),
       ogImage := AbsoluteUrl(row.image), ogUrl := PostUrl(row))
  }

  /** The openers of the six rewritten tags, in the script's order, and the marker comment. */
  const HEAD_TAGS: seq<string> :=
    [TITLE_OPEN, DESCRIPTION_OPEN, OG_TITLE_OPEN, OG_DESCRIPTION_OPEN, OG_IMAGE_OPEN, OG_URL_OPEN, OG_MARKER]

  /**
   * The layout the script relies on: no opener and no marker occurs outside its own place,
   * the old title holds no `<`, the old contents hold no `"`, and every old value is on one line.
   */
  predicate WellLaidOut(h: HeadText) {
    ClearFrom(h.pre, HEAD_TAGS, 0) && ClearFrom(h.afterTitle, HEAD_TAGS, 0)
    && ClearFrom(h.afterDescription, HEAD_TAGS, 0) && ClearFrom(h.afterOgTitle, HEAD_TAGS, 0)
    && ClearFrom(h.afterOgDescription, HEAD_TAGS, 0) && ClearFrom(h.afterOgImage, HEAD_TAGS, 0)
    && ClearFrom(h.afterOgUrl, HEAD_TAGS, 0)
    && '<' !in h.title && OneLine(h.title)
    && '"' !in h.description && OneLine(h.description)
    && '"' !in h.ogTitle && OneLine(h.ogTitle)
    && '"' !in h.ogDescription && OneLine(h.ogDescription)
    && '"' !in h.ogImage && OneLine(h.ogImage)
    && '"' !in h.ogUrl && OneLine(h.ogUrl)
  }

  /** A post whose fields hold no `$` (read by `replace`) and no `<` (which could open a tag). */
  predicate PlainRow(row: SeoRow) {
    '$' !in row.id && '$' !in row.title && '$' !in row.excerpt && '$' !in row.image
    && '<' !in row.id && '<' !in row.title && '<' !in row.excerpt && '<' !in row.image
  }

  /** `<` followed by a text without `<`. */
  lemma OneLtOf(x: string)
    requires '<' !in x
    ensures OneLt("<" + x)
  {
    assert ("<" + x)[1..] == x;
  }

  lemma TitleOpenOneLt() ensures OneLt(TITLE_OPEN) && OneLt(TITLE_CLOSE) {
    OneLtOf("title>");
    OneLtOf("/title>");
  }
  lemma DescriptionOpenOneLt() ensures OneLt(DESCRIPTION_OPEN) {
    OneLtOf("meta name=" + "\"description\"" + " content=\"");
  }
  lemma OgTitleOpenOneLt() ensures OneLt(OG_TITLE_OPEN) {
    OneLtOf("meta property=" + "\"og:title\"" + " content=\"");
  }
  lemma OgDescriptionOpenOneLt() ensures OneLt(OG_DESCRIPTION_OPEN) {
    OneLtOf("meta property=" + "\"og:description\"" + " content=\"");
  }
  lemma OgImageOpenOneLt() ensures OneLt(OG_IMAGE_OPEN) {
    OneLtOf("meta property=" + "\"og:image\"" + " content=\"");
  }
  lemma OgUrlOpenOneLt() ensures OneLt(OG_URL_OPEN) {
    OneLtOf("meta property=" + "\"og:url\"" + " content=\"");
  }
  lemma OgMarkerOneLt() ensures OneLt(OG_MARKER) {
    OneLtOf("!-- Open Graph / " + "Facebook / WhatsApp -->");
  }

  /** Every opener begins with its only `<`, and so does `</title>`. */
  lemma TagsOneLt()
    ensures forall j :: 0 <= j < |HEAD_TAGS| ==> OneLt(HEAD_TAGS[j])
    ensures OneLt(TITLE_CLOSE)
  {
    TitleOpenOneLt();
    DescriptionOpenOneLt();
    OgTitleOpenOneLt();
    OgDescriptionOpenOneLt();
    OgImageOpenOneLt();
    OgUrlOpenOneLt();
    OgMarkerOneLt();
  }

  /** Two different openers, and `</title>` and any opener, differ at some place. */
  lemma TagsDiffer()
    ensures forall j, k :: 0 <= j < k < |HEAD_TAGS| ==> Differ(HEAD_TAGS[j], HEAD_TAGS[k])
    ensures forall k :: 0 <= k < |HEAD_TAGS| ==> Differ(TITLE_CLOSE, HEAD_TAGS[k])
  {
    forall j, k | 0 <= j < k < |HEAD_TAGS| ensures Differ(HEAD_TAGS[j], HEAD_TAGS[k]) {
      var d := if j == 0 || k == 6 then 1 else if j == 1 then 6 else 19;
      assert HEAD_TAGS[j][d] != HEAD_TAGS[k][d];
    }
    forall k | 0 <= k < |HEAD_TAGS| ensures Differ(TITLE_CLOSE, HEAD_TAGS[k]) {
      assert TITLE_CLOSE[1] != HEAD_TAGS[k][1];
    }
  }

  /** `</title>` cannot begin an opener, so what follows it decides. */
  lemma CloseClear(s: string)
    requires ClearFrom(s, HEAD_TAGS, 0)
    ensures ClearFrom(TITLE_CLOSE + s, HEAD_TAGS, 1)
  {
    TagsOneLt();
    TagsDiffer();
    forall k | 1 <= k < |HEAD_TAGS| ensures !Contains(TITLE_CLOSE + s, HEAD_TAGS[k]) {
      AbsentAfterHead(TITLE_CLOSE, "", s, HEAD_TAGS[k]);
      assert TITLE_CLOSE + "" + s == TITLE_CLOSE + s;
    }
  }

  /** The old title's end is the first `</title>`, on its line. */
  lemma TitleValuePlain(mid: string)
    requires '<' !in mid && OneLine(mid)
    ensures LazyPlain(mid, TITLE_CLOSE)
  {
    forall m | 0 <= m < |mid| ensures !At(mid + TITLE_CLOSE, m, TITLE_CLOSE) {
      assert (mid + TITLE_CLOSE)[m] == mid[m];
      NotAtHead(mid + TITLE_CLOSE, m, TITLE_CLOSE);
    }
  }

  /** The values the script puts in the head hold no `<` when the post's fields hold none. */
  lemma HeadValuesUntagged(row: SeoRow)
    requires PlainRow(row)
    ensures '<' !in PageTitle(row) && '<' !in EscapeQuotes(row.excerpt)
    ensures '<' !in AbsoluteUrl(row.image) && '<' !in PostUrl(row)
  {
    EscapeQuotesAvoids(row.excerpt, '<');
    assert '<' !in " | FECAUCA Blog";
    assert '<' !in ORIGIN + "/";
    assert '<' !in ORIGIN + "/blog/";
  }

  /** Six rewrites of a run, one after the other. */
  lemma SetAllSix(step: (string, Tag, string) -> string, html: string, ts: seq<Tag>, vals: seq<string>)
    requires |ts| == 6 && |vals| == 6
    ensures SetAll(step, html, ts, vals, 6)
            == step(step(step(step(step(step(html, ts[0], vals[0]), ts[1], vals[1]), ts[2], vals[2]),
                    ts[3], vals[3]), ts[4], vals[4]), ts[5], vals[5])
  {
    assert SetAll(step, html, ts, vals, 1) == step(html, ts[0], vals[0]);
    assert SetAll(step, html, ts, vals, 3) == step(SetAll(step, html, ts, vals, 2), ts[2], vals[2]);
    assert SetAll(step, html, ts, vals, 5) == step(SetAll(step, html, ts, vals, 4), ts[4], vals[4]);
  }

  /** The script's six head rewrites are the rewrites of the head's run of tags. */
  lemma RewriteHeadRun(html: string, h: HeadText, row: SeoRow)
    ensures RewriteHead(html, row) == SetAll(SetTag, html, TagList(h), ValueList(PostHead(h, row)), 6)
  {
    SetAllSix(SetTag, html, TagList(h), ValueList(PostHead(h, row)));
  }

  /** `<title>` fits the page title. */
  lemma TitleFits(h: HeadText, row: SeoRow)
    requires '<' !in h.title && OneLine(h.title) && PlainRow(row)
    ensures TagFits(TagList(h)[0], ValueList(h)[0], ValueList(PostHead(h, row))[0])
  {
    TitleOpenOneLt();
    HeadValuesDollarFree(row);
    HeadValuesUntagged(row);
    TitleTagsDollarFree();
    TitleValuePlain(h.title);
  }

  /** The description fits the escaped excerpt. */
  lemma DescriptionFits(h: HeadText, row: SeoRow)
    requires '"' !in h.description && OneLine(h.description) && PlainRow(row)
    ensures TagFits(TagList(h)[1], ValueList(h)[1], ValueList(PostHead(h, row))[1])
  {
    DescriptionOpenOneLt();
    DescriptionOpenDollarFree();
    HeadValuesDollarFree(row);
    HeadValuesUntagged(row);
    QuotedFits(DESCRIPTION_OPEN, h.afterDescription, h.description, EscapeQuotes(row.excerpt));
  }

  /** `og:title` fits the page title. */
  lemma OgTitleFits(h: HeadText, row: SeoRow)
    requires '"' !in h.ogTitle && OneLine(h.ogTitle) && PlainRow(row)
    ensures TagFits(TagList(h)[2], ValueList(h)[2], ValueList(PostHead(h, row))[2])
  {
    OgTitleOpenOneLt();
    OgTitleOpenDollarFree();
    HeadValuesDollarFree(row);
    HeadValuesUntagged(row);
    QuotedFits(OG_TITLE_OPEN, h.afterOgTitle, h.ogTitle, PageTitle(row));
  }

  /** `og:description` fits the escaped excerpt. */
  lemma OgDescriptionFits(h: HeadText, row: SeoRow)
    requires '"' !in h.ogDescription && OneLine(h.ogDescription) && PlainRow(row)
    ensures TagFits(TagList(h)[3], ValueList(h)[3], ValueList(PostHead(h, row))[3])
  {
    OgDescriptionOpenOneLt();
    OgDescriptionOpenDollarFree();
    HeadValuesDollarFree(row);
    HeadValuesUntagged(row);
    QuotedFits(OG_DESCRIPTION_OPEN, h.afterOgDescription, h.ogDescription, EscapeQuotes(row.excerpt));
  }

  /** `og:image` fits the absolute image URL. */
  lemma OgImageFits(h: HeadText, row: SeoRow)
    requires '"' !in h.ogImage && OneLine(h.ogImage) && PlainRow(row)
    ensures TagFits(TagList(h)[4], ValueList(h)[4], ValueList(PostHead(h, row))[4])
  {
    OgImageOpenOneLt();
    OgImageOpenDollarFree();
    HeadValuesDollarFree(row);
    HeadValuesUntagged(row);
    QuotedFits(OG_IMAGE_OPEN, h.afterOgImage, h.ogImage, AbsoluteUrl(row.image));
  }

  /** `og:url` fits the post's URL. */
  lemma OgUrlFits(h: HeadText, row: SeoRow)
    requires '"' !in h.ogUrl && OneLine(h.ogUrl) && PlainRow(row)
    ensures TagFits(TagList(h)[5], ValueList(h)[5], ValueList(PostHead(h, row))[5])
  {
    OgUrlOpenOneLt();
    OgUrlOpenDollarFree();
    HeadValuesDollarFree(row);
    HeadValuesUntagged(row);
    QuotedFits(OG_URL_OPEN, h.afterOgUrl, h.ogUrl, PostUrl(row));
  }

  /** The openers of the six tags are the first six needles. */
  lemma OpensAreNeedles(h: HeadText)
    ensures forall j :: 0 <= j < 6 ==> TagList(h)[j].open == HEAD_TAGS[j]
  {
  }

  /** The six tags fit the post's values. */
  lemma TagListFits(h: HeadText, row: SeoRow)
    requires WellLaidOut(h) && PlainRow(row)
    ensures forall j :: 0 <= j < 6 ==> TagFits(TagList(h)[j], ValueList(h)[j], ValueList(PostHead(h, row))[j])
  {
    TitleFits(h, row);
    DescriptionFits(h, row);
    OgTitleFits(h, row);
    OgDescriptionFits(h, row);
    OgImageFits(h, row);
    OgUrlFits(h, row);
  }

  /** The texts after the tags' values hold no later opener. */
  lemma AftersClear(h: HeadText)
    requires WellLaidOut(h)
    ensures forall j :: 0 <= j < 6 ==> ClearFrom(TagList(h)[j].close + TagList(h)[j].after, HEAD_TAGS, j + 1)
  {
    TagsOneLt();
    CloseClear(h.afterTitle);
    ConsClear(QUOTE, h.afterDescription, HEAD_TAGS, 2);
    ConsClear(QUOTE, h.afterOgTitle, HEAD_TAGS, 3);
    ConsClear(QUOTE, h.afterOgDescription, HEAD_TAGS, 4);
    ConsClear(QUOTE, h.afterOgImage, HEAD_TAGS, 5);
    ConsClear(QUOTE, h.afterOgUrl, HEAD_TAGS, 6);
  }

  /** A well laid out head and a plain post fit the rewrites. */
  lemma HeadFits(h: HeadText, row: SeoRow)
    requires WellLaidOut(h) && PlainRow(row)
    ensures Fits(h.pre, TagList(h), ValueList(h), ValueList(PostHead(h, row)), HEAD_TAGS)
  {
    TagsOneLt();
    TagsDiffer();
    OpensAreNeedles(h);
    TagListFits(h, row);
    AftersClear(h);
  }

  /**
   * The page written for a post, whole: on a base page laid out in the order the script rewrites, with
   * the marker comment after the six tags, the six values become the post's (the page title
   * in `<title>` and `og:title`, the escaped excerpt in both descriptions, the absolute image
   * and the post's URL), the Twitter card tags follow the marker, and nothing else changes.
   */
  lemma RewritePostLayout(h: HeadText, rest: string, row: SeoRow)
    requires WellLaidOut(h) && PlainRow(row)
    ensures RewritePost(HeadHtml(h) + OG_MARKER + rest, row)
            == HeadHtml(PostHead(h, row)) + OG_MARKER + "\n"
               + TwitterTags(PageTitle(row), EscapeQuotes(row.excerpt), AbsoluteUrl(row.image)) + rest
  {
    var n := PostHead(h, row);
    var base := HeadHtml(h) + OG_MARKER + rest;
    HeadFits(h, row);
    ConcatAssoc(HeadHtml(h), OG_MARKER, rest);
    SetAllRun(h.pre, TagList(h), ValueList(h), ValueList(n), HEAD_TAGS, OG_MARKER + rest);
    RewriteHeadRun(base, h, row);
    assert RewriteHead(base, row) == HeadHtml(n) + (OG_MARKER + rest);
    ConcatAssoc(HeadHtml(n), OG_MARKER, rest);
    HeadValuesDollarFree(row);
    TwitterTagsDollarFree(PageTitle(row), EscapeQuotes(row.excerpt), AbsoluteUrl(row.image));
    NoEarlierOf(HeadHtml(n), OG_MARKER);
    InjectTwitterAt(HeadHtml(n), rest, TwitterTags(PageTitle(row), EscapeQuotes(row.excerpt), AbsoluteUrl(row.image)));
  }

  // ---------------------------------------------------------------------------------------
  // The build
  // ---------------------------------------------------------------------------------------

  /** A written page: its directory relative to the build output, and its HTML. */
  datatype Page = Page(dir: string, html: string)

  /** The outcome of the build: no built `index.html`, or the pages written and their count. */
  datatype BuildResult = MissingIndex | Built(pages: seq<Page>, generatedCount: nat)

  /** The page for one post. */
  function PageFor(base: string, row: SeoRow): Page {
    Page("blog/" + row.id, RewritePost(base, row))
  }

  /** The pages for a list of posts: one per emittable post, in list order. */
  function PagesFor(base: string, posts: seq<SeoRow>): (pages: seq<Page>)
    ensures |pages| == |Filter(posts, Emittable)|
    ensures forall k :: 0 <= k < |pages| ==> pages[k] == PageFor(base, Filter(posts, Emittable)[k])
  {
    Map((row: SeoRow) => PageFor(base, row), Filter(posts, Emittable))
  }

  /** Adding a post at the end adds its page at the end, when it is emitted. */
  lemma PagesForSnoc(base: string, posts: seq<SeoRow>, row: SeoRow)
    ensures PagesFor(base, posts + [row])
            == PagesFor(base, posts) + (if Emittable(row) then [PageFor(base, row)] else [])
  {
    FilterConcat(posts, [row], Emittable);
    assert Filter([row], Emittable) == if Emittable(row) then [row] else [];
  }

  /**
   * The whole build: choose the posts, stop if there is no built `index.html`, otherwise
   * write one page per post that has an id and a title, counting the pages written.
   */
  method GenerateStaticSeo(fetched: Option<string>, parse: string -> Option<seq<SeoRow>>,
                           indexHtml: Option<string>) returns (result: BuildResult)
    ensures indexHtml.None? <==> result.MissingIndex?
    ensures indexHtml.Some? ==>
      var posts := SelectPosts(fetched, parse);
      result.pages == PagesFor(indexHtml.value, posts)
      && result.generatedCount == |result.pages| == |Filter(posts, Emittable)|
  {
    var posts := MOCK_POSTS;
    if fetched.Some? {
      var data := parse(fetched.value);
      if data.Some? && |data.value| > 0 {
        posts := data.value;
      }
    }
    assert posts == SelectPosts(fetched, parse);
    if indexHtml.None? {
      return MissingIndex;
    }
    var pages, generatedCount := WritePages(indexHtml.value, posts);
    return Built(pages, generatedCount);
  }

  /** The loop over the posts: skip those without an id or a title, write and count the rest. */
  method WritePages(base: string, posts: seq<SeoRow>) returns (pages: seq<Page>, generatedCount: nat)
    ensures pages == PagesFor(base, posts)
    ensures generatedCount == |pages|
  {
    pages := [];
    generatedCount := 0;
    for i := 0 to |posts|
      invariant pages == PagesFor(base, posts[..i])
      invariant generatedCount == |pages|
    {
      assert posts[..i + 1] == posts[..i] + [posts[i]];
      PagesForSnoc(base, posts[..i], posts[i]);
      if !Emittable(posts[i]) {
        continue;
      }
      pages := pages + [PageFor(base, posts[i])];
      generatedCount := generatedCount + 1;
    }
    assert posts[..|posts|] == posts;
  }

  /** Both fallback posts are pre-rendered, one directory per id. */
  lemma MockPostsAllEmitted(base: string)
    ensures Filter(MOCK_POSTS, Emittable) == MOCK_POSTS
    ensures |PagesFor(base, MOCK_POSTS)| == 2
    ensures PagesFor(base, MOCK_POSTS)[0].dir == "blog/" + MOCK_POSTS[0].id
    ensures PagesFor(base, MOCK_POSTS)[1].dir == "blog/" + MOCK_POSTS[1].id
  {
    FilterKeepsAll(MOCK_POSTS, Emittable);
  }

  /** A pre-rendered directory is never `blog/` itself: every kept post has a non-empty id. */
  lemma PageDirsNamed(base: string, posts: seq<SeoRow>, k: nat)
    requires k < |PagesFor(base, posts)|
    ensures |PagesFor(base, posts)[k].dir| > |"blog/"|
    ensures PagesFor(base, posts)[k].dir[..5] == "blog/"
  {
    var row := Filter(posts, Emittable)[k];
    assert row in Filter(posts, Emittable);
  }

  /**
   * A worked example: the post `abc` titled `Hello` with the excerpt `World` is
   * written to `blog/abc`, and its page has the title `Hello | FECAUCA Blog` and the
   * `og:description` `World`.
   */
  lemma HelloWorldPage(h: HeadText, rest: string, image: string)
    requires WellLaidOut(h) && '$' !in image && '<' !in image
    // The expected title and directory are literals written in pieces, which keeps the proof cheap.
    ensures var row := SeoRow("abc", "Hello", "World", image);
            var page := PageFor(HeadHtml(h) + OG_MARKER + rest, row);
            var n := PostHead(h, row);
            && page.dir == "blog/" + "abc"
            && page.html == HeadHtml(n) + OG_MARKER + "\n" + TwitterTags(n.title, n.ogDescription, n.ogImage) + rest
            && n.title == "Hello" + " | FECAUCA Blog" && n.ogTitle == n.title
            && n.ogDescription == "World" && n.description == n.ogDescription
  {
    var row := SeoRow("abc", "Hello", "World", image);
    HelloWorldRow(image);
    RewritePostLayout(h, rest, row);
  }

  /** The example post is plain, and its excerpt is written as it is. */
  lemma HelloWorldRow(image: string)
    requires '$' !in image && '<' !in image
    ensures PlainRow(SeoRow("abc", "Hello", "World", image))
    ensures EscapeQuotes("World") == "World"
  {
    assert '$' !in "abc" && '<' !in "abc" && '$' !in "Hello" && '<' !in "Hello";
    assert '$' !in "World" && '<' !in "World" && '"' !in "World";
    EscapeQuotesPlain("World");
  }
}
