/**
 * The page head component: it derives the full title, the canonical URL, the absolute image
 * URL, the keywords tag and the structured data (JSON-LD) of a page from its properties.
 *
 * An optional property the caller did not pass is None. The caller's own schema object is
 * carried as an uninterpreted payload. The current path is an input (empty when there is no
 * browser window).
 */
module SeoHead {
  import opened Wrappers
  import opened Text
  import opened Seqs
  import opened SiteUrl

  /** The image used when the caller passes none (the source's literal URL, written in pieces). */
  const DEFAULT_IMAGE: string := ORIGIN + "/images/" + "logo-fecauca.png"

  /** The suffix every page title gets. */
  const TITLE_SUFFIX: string := " | FECAUCA"

  /** The separator of the keywords tag. */
  const KEYWORD_SEPARATOR: string := ", "

  datatype Crumb = Crumb(name: string, url: string)
  datatype FaqEntry = FaqEntry(question: string, answer: string)

  /** One entry of a BreadcrumbList: its 1-based position, its name and its URL. */
  datatype ListItem = ListItem(position: int, name: string, item: string)

  /** One Question of a FAQPage with the text of its accepted answer. */
  datatype Question = Question(name: string, answerText: string)

  datatype Schema =
    | Custom(payload: string)
    | BreadcrumbList(items: seq<ListItem>)
    | FaqPage(questions: seq<Question>)

  /** The JSON-LD script content: one schema on its own, or several in an array. */
  datatype JsonLd = Single(schema: Schema) | Many(schemas: seq<Schema>)

  datatype Props = Props(
    title: string,
    description: string,
    keywords: seq<string>,
    schema: Option<string>,
    breadcrumbs: Option<seq<Crumb>>,
    faq: Option<seq<FaqEntry>>,
    image: Option<string>,
    url: Option<string>)

  /** The head tags the component emits (og:url and twitter:url carry the canonical URL). */
  datatype Head = Head(
    title: string,
    description: string,
    keywords: Option<string>,
    canonical: string,
    image: string,
    jsonLd: Option<JsonLd>)

  /** The page title followed by the site's suffix. */
  function FullTitle(title: string): (r: string)
    ensures |r| == |title| + |TITLE_SUFFIX|
    ensures r[..|title|] == title && r[|title|..] == TITLE_SUFFIX
  {
    title + TITLE_SUFFIX
  }

  /** Distinct page titles give distinct full titles. */
  lemma FullTitleInjective(a: string, b: string)
    requires FullTitle(a) == FullTitle(b)
    ensures a == b
  {
    assert |a| == |b|;
    assert a == FullTitle(a)[..|a|];
  }

  /** The default image is already absolute, so it is used as it is. */
  lemma DefaultImageAbsolute()
    ensures AbsoluteUrl(DEFAULT_IMAGE) == DEFAULT_IMAGE
  {
    OriginIsHttp();
    StartsWithConcat(ORIGIN, "/images/" + "logo-fecauca.png", "http");
    assert DEFAULT_IMAGE == ORIGIN + ("/images/" + "logo-fecauca.png");
    AbsoluteKept(DEFAULT_IMAGE);
  }

  /** The image of the head: the caller's (or the default) made absolute. */
  function HeadImage(image: Option<string>): (r: string)
    ensures image.None? ==> r == DEFAULT_IMAGE
    ensures image.Some? ==> r == AbsoluteUrl(image.value)
  {
    DefaultImageAbsolute();
    AbsoluteUrl(if image.Some? then image.value else DEFAULT_IMAGE)
  }

  /** The canonical URL: the caller's URL when it is non-empty, otherwise the origin and the current path. */
  function Canonical(url: Option<string>, pathname: string): (r: string)
    ensures url.Some? && url.value != "" ==> r == url.value
    ensures url.None? || url.value == "" ==> r == ORIGIN + pathname
  {
    if url.Some? && url.value != "" then url.value else ORIGIN + pathname
  }

  /** The keywords tag: present exactly when there are keywords, with the keywords joined by ", ". */
  function Keywords(keywords: seq<string>): (r: Option<string>)
    ensures r.None? <==> keywords == []
  {
    if |keywords| > 0 then Some(Join(keywords, KEYWORD_SEPARATOR)) else None
  }

  /** The keywords tag holds every keyword and one separator between each pair. */
  lemma KeywordsLength(keywords: seq<string>)
    requires keywords != []
    ensures |Keywords(keywords).value| == TotalLength(keywords) + 2 * (|keywords| - 1)
  {
    JoinLength(keywords, KEYWORD_SEPARATOR);
  }

  /** One more keyword adds a separator and that keyword at the end of the tag. */
  lemma KeywordsSnoc(keywords: seq<string>, k: string)
    requires keywords != []
    ensures Keywords(keywords + [k]) == Some(Keywords(keywords).value + KEYWORD_SEPARATOR + k)
  {
    JoinSnoc(keywords, k, KEYWORD_SEPARATOR);
  }

  /** A single keyword is the whole tag. */
  lemma SingleKeyword(k: string)
    ensures Keywords([k]) == Some(k)
  {
  }

  /** The breadcrumb entries: one per crumb, in order, at positions 1 to n. */
  function BreadcrumbItems(crumbs: seq<Crumb>): (r: seq<ListItem>)
    ensures |r| == |crumbs|
    ensures forall k :: 0 <= k < |r| ==> r[k].position == k + 1
    ensures forall k :: 0 <= k < |r| ==> r[k].name == crumbs[k].name && r[k].item == crumbs[k].url
  {
    seq(|crumbs|, k requires 0 <= k < |crumbs| => ListItem(k + 1, crumbs[k].name, crumbs[k].url))
  }

  /** The crumb an entry came from. */
  function CrumbOf(item: ListItem): Crumb {
    Crumb(item.name, item.item)
  }

  /** The crumbs can be read back from the entries: nothing is lost or reordered. */
  lemma BreadcrumbItemsInverse(crumbs: seq<Crumb>)
    ensures Map(CrumbOf, BreadcrumbItems(crumbs)) == crumbs
  {
  }

  /** Appending a crumb appends one entry whose position is the new length. */
  lemma BreadcrumbItemsSnoc(crumbs: seq<Crumb>, c: Crumb)
    ensures BreadcrumbItems(crumbs + [c]) == BreadcrumbItems(crumbs) + [ListItem(|crumbs| + 1, c.name, c.url)]
  {
  }

  /** The FAQ questions: one per entry, in order, each with that entry's answer. */
  function FaqQuestions(faq: seq<FaqEntry>): (r: seq<Question>)
    ensures |r| == |faq|
    ensures forall k :: 0 <= k < |r| ==> r[k].name == faq[k].question && r[k].answerText == faq[k].answer
  {
    Map((e: FaqEntry) => Question(e.question, e.answer), faq)
  }

  /** The entry a question came from. */
  function EntryOf(q: Question): FaqEntry {
    FaqEntry(q.name, q.answerText)
  }

  /** The FAQ entries can be read back from the questions. */
  lemma FaqQuestionsInverse(faq: seq<FaqEntry>)
    ensures Map(EntryOf, FaqQuestions(faq)) == faq
  {
  }

  /** The position of a schema's kind in the fixed order: caller's schema, breadcrumbs, FAQ. */
  function KindRank(s: Schema): nat {
    match s
    case Custom(_) => 0
    case BreadcrumbList(_) => 1
    case FaqPage(_) => 2
  }

  /** The present values, in order. */
  function Present<T>(xs: seq<Option<T>>): (r: seq<T>)
    ensures |r| <= |xs|
  {
    if xs == [] then []
    else (if xs[0].Some? then [xs[0].value] else []) + Present(xs[1..])
  }

  /** The schemas of the page: the caller's, the breadcrumbs' and the FAQ's, those present only. */
  function AllSchemas(schema: Option<string>, breadcrumbs: Option<seq<Crumb>>, faq: Option<seq<FaqEntry>>): seq<Schema> {
    var custom := if schema.Some? then Some(Custom(schema.value)) else None;
    var crumbs := if breadcrumbs.Some? then Some(BreadcrumbList(BreadcrumbItems(breadcrumbs.value))) else None;
    var questions := if faq.Some? then Some(FaqPage(FaqQuestions(faq.value))) else None;
    Present([custom, crumbs, questions])
  }

  /** An option as a sequence of zero or one element. */
  function AsSeq<T>(o: Option<T>): seq<T> {
    if o.Some? then [o.value] else []
  }

  /** The present values of three options. */
  lemma PresentOfThree<T>(a: Option<T>, b: Option<T>, c: Option<T>)
    ensures Present([a, b, c]) == AsSeq(a) + AsSeq(b) + AsSeq(c)
  {
    assert [c][1..] == [];
    assert Present([c]) == AsSeq(c) + [];
    assert [b, c][1..] == [c];
    assert Present([b, c]) == AsSeq(b) + AsSeq(c);
    assert [a, b, c][1..] == [b, c];
  }

  /**
   * Each schema is there exactly when its property was passed; they come in the fixed order
   * of kinds, so there is at most one of each.
   */
  lemma AllSchemasProperties(schema: Option<string>, breadcrumbs: Option<seq<Crumb>>, faq: Option<seq<FaqEntry>>)
    ensures |AllSchemas(schema, breadcrumbs, faq)|
            == (if schema.Some? then 1 else 0) + (if breadcrumbs.Some? then 1 else 0) + (if faq.Some? then 1 else 0)
    ensures forall i, j :: 0 <= i < j < |AllSchemas(schema, breadcrumbs, faq)|
              ==> KindRank(AllSchemas(schema, breadcrumbs, faq)[i]) < KindRank(AllSchemas(schema, breadcrumbs, faq)[j])
    ensures schema.Some? ==> Custom(schema.value) in AllSchemas(schema, breadcrumbs, faq)
    ensures breadcrumbs.Some? ==> BreadcrumbList(BreadcrumbItems(breadcrumbs.value)) in AllSchemas(schema, breadcrumbs, faq)
    ensures faq.Some? ==> FaqPage(FaqQuestions(faq.value)) in AllSchemas(schema, breadcrumbs, faq)
    ensures (exists s :: s in AllSchemas(schema, breadcrumbs, faq) && s.Custom?) ==> schema.Some?
    ensures (exists s :: s in AllSchemas(schema, breadcrumbs, faq) && s.BreadcrumbList?) ==> breadcrumbs.Some?
    ensures (exists s :: s in AllSchemas(schema, breadcrumbs, faq) && s.FaqPage?) ==> faq.Some?
  {
    var custom := if schema.Some? then Some(Custom(schema.value)) else None;
    var crumbs := if breadcrumbs.Some? then Some(BreadcrumbList(BreadcrumbItems(breadcrumbs.value))) else None;
    var questions := if faq.Some? then Some(FaqPage(FaqQuestions(faq.value))) else None;
    PresentOfThree(custom, crumbs, questions);
    ThreeKindsOrdered(custom, crumbs, questions);
    ThreeKindsMembers(custom, crumbs, questions);
  }

  /** One optional schema of each kind, in the fixed order, gives increasing kinds. */
  lemma ThreeKindsOrdered(a: Option<Schema>, b: Option<Schema>, c: Option<Schema>)
    requires a.Some? ==> a.value.Custom?
    requires b.Some? ==> b.value.BreadcrumbList?
    requires c.Some? ==> c.value.FaqPage?
    ensures var r := AsSeq(a) + AsSeq(b) + AsSeq(c);
      forall i, j :: 0 <= i < j < |r| ==> KindRank(r[i]) < KindRank(r[j])
  {
  }

  /** One optional schema of each kind: each present one is there, and a kind is there only when given. */
  lemma ThreeKindsMembers(a: Option<Schema>, b: Option<Schema>, c: Option<Schema>)
    requires a.Some? ==> a.value.Custom?
    requires b.Some? ==> b.value.BreadcrumbList?
    requires c.Some? ==> c.value.FaqPage?
    ensures var r := AsSeq(a) + AsSeq(b) + AsSeq(c);
      (a.Some? ==> a.value in r) && (b.Some? ==> b.value in r) && (c.Some? ==> c.value in r)
      && (forall s :: s in r && s.Custom? ==> a.Some?)
      && (forall s :: s in r && s.BreadcrumbList? ==> b.Some?)
      && (forall s :: s in r && s.FaqPage? ==> c.Some?)
  {
  }

  /** The JSON-LD script: none without schemas, the bare schema for one, an array for more. */
  function JsonLdOf(schemas: seq<Schema>): (r: Option<JsonLd>)
    ensures r.None? <==> schemas == []
    ensures r.Some? && r.value.Many? ==> |r.value.schemas| >= 2
  {
    if |schemas| == 0 then None
    else if |schemas| == 1 then Some(Single(schemas[0]))
    else Some(Many(schemas))
  }

  /** The schemas a JSON-LD script carries. */
  function Carried(j: Option<JsonLd>): seq<Schema> {
    match j
    case None => []
    case Some(Single(s)) => [s]
    case Some(Many(ss)) => ss
  }

  /** The script carries exactly the page's schemas, in order. */
  lemma JsonLdCarriesAll(schemas: seq<Schema>)
    ensures Carried(JsonLdOf(schemas)) == schemas
  {
  }

  /** The head of a page. */
  function HeadOf(props: Props, pathname: string): (h: Head)
    ensures h.title == FullTitle(props.title) && h.description == props.description
    ensures h.keywords == Keywords(props.keywords)
    ensures h.canonical == Canonical(props.url, pathname)
    ensures h.image == HeadImage(props.image)
    ensures h.jsonLd == JsonLdOf(AllSchemas(props.schema, props.breadcrumbs, props.faq))
  {
    Head(FullTitle(props.title), props.description, Keywords(props.keywords),
         Canonical(props.url, pathname), HeadImage(props.image),
         JsonLdOf(AllSchemas(props.schema, props.breadcrumbs, props.faq)))
  }

  /** An empty breadcrumb list is still passed, so it yields an empty BreadcrumbList schema. */
  lemma EmptyBreadcrumbsKept(props: Props, pathname: string)
    requires props.schema.None? && props.breadcrumbs == Some([]) && props.faq.None?
    ensures HeadOf(props, pathname).jsonLd == Some(Single(BreadcrumbList([])))
  {
    assert BreadcrumbItems([]) == [];
    PresentOfThree(None, Some(BreadcrumbList([])), None);
  }

  /** A page with breadcrumbs and a FAQ gets both schemas, in that order, in an array. */
  lemma BreadcrumbsAndFaq(props: Props, pathname: string)
    requires props.schema.None? && props.breadcrumbs.Some? && props.faq.Some?
    ensures HeadOf(props, pathname).jsonLd
            == Some(Many([BreadcrumbList(BreadcrumbItems(props.breadcrumbs.value)),
                          FaqPage(FaqQuestions(props.faq.value))]))
  {
    var crumbs := BreadcrumbList(BreadcrumbItems(props.breadcrumbs.value));
    var questions := FaqPage(FaqQuestions(props.faq.value));
    PresentOfThree(None, Some(crumbs), Some(questions));
    assert AllSchemas(props.schema, props.breadcrumbs, props.faq) == [crumbs, questions];
  }
}
