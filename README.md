# FECAUCA website core, modelled in Dafny

FECAUCA is the website of an electrical-supplies store in Popayán. It is a single-page React
application plus a build-time script. This project models the parts of it that hold logic:

- **The SEO pre-renderer** (`scripts/prerender-seo.js`). It chooses the blog posts: the rows of
  the published sheet, or a fixed fallback list. For every post that has an id and a title, it
  rewrites the built `index.html` into `blog/<id>/index.html`. The rewrite uses the post's
  title, description, absolute image URL and page URL, and adds a block of Twitter card tags
  after the Open Graph comment. The JavaScript string operations it relies on are modelled
  exactly in `JsRegex`:
  - a non-global `replace` changes the first match only;
  - a lazy `.*?` does not cross a line terminator;
  - `$` patterns in a replacement string are expanded.
- **The blog data service** (`services/BlogService.ts`). It fetches and parses posts and falls
  back to three fixed posts when the fetch fails or the sheet is empty. It finds a post by id
  and normalises header names (trim, then lower-case).
- **The blog list page** (`pages/Blog.tsx`): loading, filtering by search term and by
  category, the category chips, the spinner, the cards and the "no results" notice.
- **The blog post page** (`pages/BlogPost.tsx`): loading a post by its route id, redirecting to
  `/blog` when it is missing, and the hand-written Markdown renderer (`Markdown`):
  - unescape `\n`;
  - put headers and list items on their own lines;
  - split on runs of line breaks into trimmed blocks;
  - classify each block as a header, a list item or a paragraph;
  - rewrite bold, italics and links.
- **The SEO head component** (`components/SEO.tsx`): the full title, the absolute image, the
  canonical URL, the keywords, the schema.org BreadcrumbList and FAQPage objects, and the JSON-LD
  payload (one object alone, or an array).
- **The breadcrumb trail** (`components/Breadcrumbs.tsx`), **the product catalogue**
  (`pages/Products.tsx`: category and brand filters, brand chip toggling, sidebar, modal),
  **the FAQ accordion** (`pages/FAQ.tsx`), **the header** (`components/Layout.tsx`: scroll
  flag, mobile menu, menus built from `constants.tsx`) and **the shared Button**
  (`components/UI.tsx`).

Some things the application reads from outside are inputs to the model:

- The network is an `Option<string>`: `None` when the fetch failed or the response was not ok.
- The CSV library is a function from text to `Option<rows>`: `None` when it threw.
- The file system's `index.html` is an `Option<string>`.
- The window's scroll position and path are passed as parameters.

Component state that React keeps with `useState` is a `class`. Its methods are the event
handlers and effects. The rendered output is a datatype computed by a function of that state.

## Model

| member | source | states |
|---|---|---|
| JsRegex.LazyStop | scripts/prerender-seo.js:120 | a lazy `.*?` stops at the first place its closing literal follows, without crossing a line terminator; None when it can stop nowhere |
| JsRegex.MatchEnd | scripts/prerender-seo.js:120 | a match of `open.*?close` that starts at i ends after both literals and inside the text |
| JsRegex.FirstMatch | scripts/prerender-seo.js:120-125 | the leftmost match: no position before it matches, and None means no position at all matches |
| JsRegex.FirstOccurrence | scripts/prerender-seo.js:134 | the first index where a literal occurs, with none earlier; None when it occurs nowhere |
| JsRegex.ExpandVerbatim | scripts/prerender-seo.js:120-125 | a replacement string without `$` is inserted as written |
| JsRegex.ExpandMatched | scripts/prerender-seo.js:120 | `$&` in a replacement inserts the matched text |
| JsRegex.ReplaceLazyNoMatch | scripts/prerender-seo.js:120-125 | a non-global regex replace whose pattern matches nowhere returns its input |
| JsRegex.ReplaceLiteralAbsent | scripts/prerender-seo.js:134 | a string replace whose pattern does not occur returns its input |
| JsRegex.ReplaceLazyIndexed | scripts/prerender-seo.js:120-125 | only the leftmost match is replaced, from its `open` through the first `close` after it; everything else is kept |
| JsRegex.ReplaceLazyAt | scripts/prerender-seo.js:120-125 | in pre + open + mid + close + post with no earlier `open` and a one-line `mid`, replace yields pre + t + post |
| JsRegex.ReplaceLiteralAt | scripts/prerender-seo.js:134 | a string replace changes only the first occurrence of its pattern |
| SiteUrl.AbsoluteUrl | scripts/prerender-seo.js:104-107 | the result starts with "http" and ends with the given image path |
| SiteUrl.AbsoluteKept | components/SEO.tsx:26-28 | a URL that already starts with "http" is kept as it is |
| SiteUrl.RelativeJoined | scripts/prerender-seo.js:104-107 | an image path that does not start with "http" follows the site origin: as written when it starts with `/`, after one added `/` otherwise; so the path with or without its own leading `/` gives the same URL |
| SiteUrl.MissingImageIsRoot | scripts/prerender-seo.js:104-107 | a post without an image gets the site root as its image URL |
| SiteUrl.AbsoluteIdempotent | components/SEO.tsx:26-28 | making an absolute URL absolute again changes nothing |
| Prerender.ParseCsv | scripts/prerender-seo.js:27-51 | the script's own CSV parser returns no rows for every input, because its loop never adds one |
| Prerender.OneLineCsv | scripts/prerender-seo.js:28-29 | a text without a newline takes the parser's early exit (fewer than two lines) |
| Prerender.SelectPosts | scripts/prerender-seo.js:57-79 | the posts used are never empty: either the fallback list or the library's rows for the fetched text |
| Prerender.SelectParsed | scripts/prerender-seo.js:72-75 | the library's rows are used whenever the fetch worked and they are not empty |
| Prerender.SelectFallback | scripts/prerender-seo.js:57-79 | a failed fetch, a library error or an empty sheet gives the fallback list |
| Prerender.Emittable | scripts/prerender-seo.js:96 | a post gets a page exactly when its id and its title are non-empty |
| Prerender.PageTitle | scripts/prerender-seo.js:116 | the page title: the post title, then a bar and "FECAUCA Blog" |
| Prerender.EscapeQuotes | scripts/prerender-seo.js:117 | the escaped excerpt holds no `"` |
| Prerender.EscapeQuotesRoundTrip | scripts/prerender-seo.js:117 | reading `&quot;` back as `"` recovers an excerpt that has no `&` of its own |
| Prerender.EscapeQuotesPlain | scripts/prerender-seo.js:117 | an excerpt without `"` is written as it is |
| Prerender.MissingExcerpt | scripts/prerender-seo.js:117 | a missing excerpt gives an empty description |
| Prerender.PostUrl | scripts/prerender-seo.js:125 | a post's page URL: the site origin, `/blog/` and the post id |
| Prerender.SetBetween | scripts/prerender-seo.js:120-125 | one head rewrite: a non-global replace of `open.*?close` by open, the new value and close |
| Prerender.RewriteHead | scripts/prerender-seo.js:119-125 | the six head rewrites in the script's order: title, description, og:title, og:description, og:image, og:url |
| Prerender.TwitterTags | scripts/prerender-seo.js:128-133 | the Twitter card block: card type, title, description and image, one tag per line |
| Prerender.InjectTwitter | scripts/prerender-seo.js:134 | the Twitter block goes after the first Open Graph comment and a line break |
| Prerender.RewritePost | scripts/prerender-seo.js:116-134 | a post's page: the head rewrites, then the Twitter block |
| Prerender.SetBetweenAt | scripts/prerender-seo.js:120-125 | a head rewrite replaces the old value of the first tag by the new one and keeps the rest of the page |
| Prerender.SetBetweenAbsent | scripts/prerender-seo.js:120-125 | a head rewrite whose tag is absent leaves the page as it was |
| Prerender.TitleRewrite | scripts/prerender-seo.js:116-120 | after the rewrite the `<title>` holds the post title followed by the "FECAUCA Blog" suffix |
| Prerender.MetaRewrite | scripts/prerender-seo.js:121-124 | a quoted meta value with no `"` and no line break is replaced by the new value |
| Prerender.OgUrlRewrite | scripts/prerender-seo.js:125 | `og:url` holds the post's own page URL after the rewrite |
| Prerender.HeadValuesDollarFree | scripts/prerender-seo.js:116-125 | the values put in the head hold no `$` when the post's fields hold none, so replace inserts them verbatim |
| Prerender.InjectTwitterAt | scripts/prerender-seo.js:134 | the Twitter tags go right after the first Open Graph comment, which is kept |
| Prerender.InjectTwitterAbsent | scripts/prerender-seo.js:134 | without the Open Graph comment no Twitter tags are added |
| Prerender.TwitterTagsDollarFree | scripts/prerender-seo.js:128-133 | the Twitter block holds no `$` when the title, excerpt and image hold none |
| Prerender.RewriteStep | scripts/prerender-seo.js:120-125 | a head rewrite of a tag whose opener occurs nowhere earlier and whose old value is one plain line puts the new value in that tag and keeps everything else |
| Prerender.StageStep | scripts/prerender-seo.js:119-125 | in a run of tags laid out with no stray openers, the k-th rewrite turns the page with k tags rewritten into the page with k + 1 |
| Prerender.SetAllRun | scripts/prerender-seo.js:119-125 | all the rewrites of such a run put every new value in its own tag and change nothing else, and the next opener still occurs nowhere before the run's end |
| Prerender.RewriteHeadRun | scripts/prerender-seo.js:119-125 | the script's six replace calls are the six tag rewrites of the head, in order, with the post's values |
| Prerender.HeadFits | scripts/prerender-seo.js:116-125 | a head holding the six tags in order with one-line values, and a post whose fields hold no `$` and no `<`, meet the conditions of every rewrite |
| Prerender.RewritePostLayout | scripts/prerender-seo.js:116-134 | for a base page made of such a head, the Open Graph comment and any rest, the written page is the head holding the post's title, excerpt, image and URL, the comment, a line break, the Twitter block, and the rest unchanged |
| Prerender.HelloWorldPage | scripts/prerender-seo.js:96-134 | post `abc` titled "Hello" with excerpt "World" is written under `blog/abc`, its title and og:title "Hello" with the blog suffix, its description and og:description "World", followed by the Twitter block |
| Prerender.PageFor | scripts/prerender-seo.js:98-136 | a post's page: directory `blog/<id>`, content the rewritten base page |
| Prerender.PagesFor | scripts/prerender-seo.js:95-98 | one page per post with an id and a title, in list order, each the page for that post |
| Prerender.PagesForSnoc | scripts/prerender-seo.js:95-138 | a post added at the end adds its page at the end exactly when it is emitted |
| Prerender.WritePages | scripts/prerender-seo.js:93-138 | the loop writes exactly the pages of the emitted posts, and the count equals the number of pages |
| Prerender.GenerateStaticSeo | scripts/prerender-seo.js:53-138 | no `index.html` stops the build; otherwise the pages and the count are those of the chosen posts |
| Prerender.MockPostsAllEmitted | scripts/prerender-seo.js:11-24 | both fallback posts are emitted, each in the directory named after its id |
| Prerender.PageDirsNamed | scripts/prerender-seo.js:96-98 | every page directory is `blog/` followed by a non-empty id |
| BlogService.GetPosts | services/BlogService.ts:51-71 | the posts are never empty; fetch failure, parse error and empty sheet give the three fixed posts, other results are passed through |
| BlogService.FindPost | services/BlogService.ts:75 | None exactly when no post has the id; otherwise a post of the list with that id |
| BlogService.GetPostByIdFound | services/BlogService.ts:73-76 | a found post has the requested id and is one of the posts returned by the service |
| BlogService.MockLookup | services/BlogService.ts:17-48 | with no sheet, ids "1" to "3" give the three fixed posts and id "4" gives nothing |
| BlogService.NormaliseHeader | services/BlogService.ts:84 | a normalised header name is trimmed, lower-case and no longer than before |
| BlogService.NormalisedFixed | services/BlogService.ts:84 | a trimmed lower-case header name is unchanged |
| BlogService.NormaliseIdempotent | services/BlogService.ts:84 | normalising twice is normalising once |
| BlogService.NormaliseSpacedHeader | services/BlogService.ts:84 | " Title " becomes "title" |
| BlogService.NormaliseCapitalHeader | services/BlogService.ts:84 | "ID" becomes "id" |
| Text.Trim | pages/BlogPost.tsx:98 | the result is a slice of the input with no JavaScript whitespace at its ends |
| Text.TrimIdempotent | pages/BlogPost.tsx:98 | trimming twice is trimming once |
| Text.ToLower | pages/Blog.tsx:31-32 | lower-casing keeps the length and maps every character on its own |
| Text.SplitOn | scripts/prerender-seo.js:28 | at least one piece results, and no piece holds the separator |
| Text.SplitOnJoin | scripts/prerender-seo.js:28 | joining the pieces with the separator gives back the text |
| Text.JoinSnoc | components/SEO.tsx:67 | joining one more piece adds the separator and that piece at the end |
| Markdown.Unescape | pages/BlogPost.tsx:92 | unescaping never lengthens the text |
| Markdown.UnescapeLeavesNoEscapes | pages/BlogPost.tsx:92 | no backslash-`n` pair is left after unescaping |
| Markdown.EscapeUnescape | pages/BlogPost.tsx:92 | for a text with no real line break, writing line breaks back as backslash-`n` undoes the unescaping |
| Markdown.UnescapeAcrossBreak | pages/BlogPost.tsx:92 | unescaping works on each side of a real line break |
| Markdown.BreakBefore | pages/BlogPost.tsx:93-94 | a global replace of a non-line-break character followed by the marker: the break goes between them, and the scan resumes after the marker |
| Markdown.Preprocess | pages/BlogPost.tsx:91-94 | unescape, then a blank line before `###` and a line break before `- `, wherever they follow another character |
| Markdown.BreakBeforeOnlyAddsBreaks | pages/BlogPost.tsx:93-94 | the header and list passes only insert line breaks |
| Markdown.PreprocessOnlyAddsBreaks | pages/BlogPost.tsx:91-94 | line breaks aside, pre-processing leaves the text as unescaping made it |
| Markdown.BreakBeforeAcrossBreak | pages/BlogPost.tsx:93-94 | the header and list passes work on each side of a line break |
| Markdown.SplitRuns | pages/BlogPost.tsx:97 | splitting on runs of line breaks gives at least one piece, none holding a line break |
| Markdown.KeepBlocks | pages/BlogPost.tsx:98-99 | every piece trimmed, the empty ones dropped, in order |
| Markdown.Blocks | pages/BlogPost.tsx:97-99 | the blocks: the pieces between runs of line breaks, kept as above |
| Markdown.KeepBlocksTrimmed | pages/BlogPost.tsx:98-99 | every kept block is non-empty and trimmed |
| Markdown.KeepBlocksConcat | pages/BlogPost.tsx:98-99 | trimming and dropping empty pieces works piece by piece |
| Markdown.KeepBlocksLeadingBreaks | pages/BlogPost.tsx:97-99 | line breaks at the start of a text only add empty pieces, which are dropped |
| Markdown.BlocksBySingleBreaks | pages/BlogPost.tsx:97-99 | splitting on runs or on single line breaks gives the same blocks once empty pieces are dropped |
| Markdown.BlocksAcrossBreak | pages/BlogPost.tsx:97-99 | the blocks of two texts joined by a line break are the blocks of each, in order |
| Markdown.EncloseAll | pages/BlogPost.tsx:117-118 | a global lazy replace of `open(.*?)close` by the inner text between left and right, scanning left to right |
| Markdown.LinkAll | pages/BlogPost.tsx:119 | a global replace of `[text](url)` links by anchors opening a new tab |
| Markdown.Inline | pages/BlogPost.tsx:116-119 | bold first, then italics, then links |
| Markdown.EncloseAllPlain | pages/BlogPost.tsx:117-118 | a text without the marker character is not changed by the bold or italics pass |
| Markdown.LinkAllPlain | pages/BlogPost.tsx:119 | a text without `[` has no links |
| Markdown.InlinePlain | pages/BlogPost.tsx:128-131 | text with no `*` and no `[` is not formatted |
| Markdown.EncloseOnce | pages/BlogPost.tsx:117-118 | a plain one-line stretch between two delimiters is wrapped in the replacement's left and right parts |
| Markdown.InlineStrong | pages/BlogPost.tsx:117 | `**x**` becomes `<strong>x</strong>` for plain one-line x |
| Markdown.InlineEmphasis | pages/BlogPost.tsx:118 | `*x*` becomes `<em>x</em>` for plain one-line x |
| Markdown.ItalicsFirstWouldDiffer | pages/BlogPost.tsx:117-118 | running the italics pass first would turn `**x**` into empty emphasis around x, so the bold pass must come first |
| Markdown.LinkSearch | pages/BlogPost.tsx:119 | a link found from position k has its `](` at or after k and its end inside the text |
| Markdown.LinkFound | pages/BlogPost.tsx:119 | in `[t](u)` the search finds the `](` right after t and the `)` right after u |
| Markdown.InlineLink | pages/BlogPost.tsx:119 | `[t](u)` becomes an anchor to u showing t, opening a new tab |
| Markdown.Classify | pages/BlogPost.tsx:102-132 | a block starting with "### " is a header holding the rest; otherwise one starting with "- " is a list item with the rest formatted; otherwise a formatted paragraph |
| Markdown.Render | pages/BlogPost.tsx:91-134 | one rendered block per non-empty trimmed block of the pre-processed content, in order, each classified |
| Markdown.PreprocessAcrossBreak | pages/BlogPost.tsx:91-94 | pre-processing works on each side of a line break |
| Markdown.RenderAcrossBreak | pages/BlogPost.tsx:91-134 | two parts of a post joined by a line break render as the blocks of each, in order |
| BlogPage.MatchesSearch | pages/Blog.tsx:29-34 | an empty term, or a lower-cased title or excerpt containing the lower-cased term |
| BlogPage.MatchesCategory | pages/Blog.tsx:36-38 | "Todos", or the post's own category |
| BlogPage.Filtered | pages/Blog.tsx:26-41 | the search filter when a term is typed, then the category filter when a category other than "Todos" is chosen |
| BlogPage.FilteredIsIntersection | pages/Blog.tsx:26-41 | the two filters in sequence keep exactly the posts that satisfy both, in order |
| BlogPage.FilteredMembership | pages/Blog.tsx:29-38 | a post is shown exactly when it is in the list, matches the search term and is in the selected category |
| BlogPage.FilteredIsSubseq | pages/Blog.tsx:26-41 | the shown posts keep the list's order |
| BlogPage.UnfilteredIsAll | pages/Blog.tsx:29-38 | an empty search term and "Todos" show every post |
| BlogPage.CategoryOnly | pages/Blog.tsx:36-38 | with no search term, a category other than "Todos" shows only its posts |
| BlogPage.TitleMatchShown | pages/Blog.tsx:29-34 | a post whose lower-cased title contains the lower-cased term is shown under "Todos" |
| BlogPage.Categories | pages/Blog.tsx:43 | the category chips start with "Todos" |
| BlogPage.CategoriesProperties | pages/Blog.tsx:43 | after "Todos", each post category appears once, in order of first appearance, and nothing else appears |
| BlogPage.CategoriesRepeatAll | pages/Blog.tsx:43 | a post whose category is "Todos" makes that chip appear a second time |
| BlogPage.ViewOf | pages/Blog.tsx:105-160 | the spinner while loading; afterwards the cards of the shown posts, and the notice exactly when there are none |
| BlogPage.LoadedShowsPosts | pages/Blog.tsx:16-24 | after loading with the initial filters, some card is shown and the notice is not |
| BlogPage.BlogList.constructor | pages/Blog.tsx:10-14 | no posts, loading, empty search term, category "Todos" |
| BlogPage.BlogList.ApplyFilters | pages/Blog.tsx:26-41 | the shown posts become the filtered posts for the current term and category; nothing else changes |
| BlogPage.BlogList.LoadPosts | pages/Blog.tsx:16-24 | the loaded posts are stored, loading ends, and the shown posts are those posts filtered by the current term and category |
| BlogPage.BlogList.SetSearchTerm | pages/Blog.tsx:29-41 | a new term re-filters the shown posts |
| BlogPage.BlogList.SelectCategory | pages/Blog.tsx:36-41 | a new category re-filters the shown posts |
| BlogPage.OpenPage | pages/Blog.tsx:16-24 | after opening the page every post from the service is shown and no notice appears |
| BlogPostPage.ViewOf | pages/BlogPost.tsx:29-42 | the spinner while loading; nothing when no post was found; otherwise the article, with its body rendered from its content |
| BlogPostPage.ArticleFullTitle | pages/BlogPost.tsx:42 | the SEO component adds its own site suffix after the page's "Blog FECAUCA" suffix, so the site name appears twice in the title |
| BlogPostPage.PostDetail.constructor | pages/BlogPost.tsx:12-13 | no post and loading |
| BlogPostPage.PostDetail.LoadPost | pages/BlogPost.tsx:15-27 | no id changes nothing; a found post is stored; a missing post navigates to `/blog`; in both of those cases loading ends |
| BlogPostPage.OpenPost | pages/BlogPost.tsx:15-37 | opening a post page shows the spinner, the article, or nothing after a redirect to `/blog`, by the outcome of the lookup |
| SeoHead.FullTitle | components/SEO.tsx:29 | the full title is the given title followed by the site suffix, and nothing else |
| SeoHead.FullTitleInjective | components/SEO.tsx:29 | different titles give different full titles |
| SeoHead.DefaultImageAbsolute | components/SEO.tsx:22-28 | the default logo is already absolute |
| SeoHead.HeadImage | components/SEO.tsx:22-28 | no image gives the default logo; an image gives its absolute URL |
| SeoHead.Canonical | components/SEO.tsx:30 | a non-empty url is canonical; otherwise the origin followed by the current path |
| SeoHead.Keywords | components/SEO.tsx:67 | the keywords tag is present exactly when there are keywords |
| SeoHead.KeywordsLength | components/SEO.tsx:67 | the keywords content is as long as all the keywords together plus two characters for each ", " between two of them |
| SeoHead.KeywordsSnoc | components/SEO.tsx:67 | one more keyword at the end adds ", " and that keyword at the end of the keywords content |
| SeoHead.SingleKeyword | components/SEO.tsx:67 | a single keyword is written alone |
| SeoHead.BreadcrumbItems | components/SEO.tsx:33-42 | one ListItem per crumb, positions counting from 1, name and item copied |
| SeoHead.BreadcrumbItemsInverse | components/SEO.tsx:36-41 | the crumbs can be read back from the ListItems |
| SeoHead.BreadcrumbItemsSnoc | components/SEO.tsx:36-41 | a crumb added at the end becomes the last ListItem at the next position |
| SeoHead.FaqQuestions | components/SEO.tsx:45-56 | one Question per entry, its name the question and its answer text the answer |
| SeoHead.FaqQuestionsInverse | components/SEO.tsx:48-55 | the FAQ entries can be read back from the Questions |
| SeoHead.PresentOfThree | components/SEO.tsx:59 | filtering out the absent schemas keeps the present ones in order |
| SeoHead.AllSchemasProperties | components/SEO.tsx:59 | the custom schema, the breadcrumbs and the FAQ appear in that order, each exactly when it was given |
| SeoHead.JsonLdOf | components/SEO.tsx:93-97 | no script without schemas; a lone schema is written alone, two or three as an array |
| SeoHead.JsonLdCarriesAll | components/SEO.tsx:93-97 | the JSON-LD payload carries every schema, in order |
| SeoHead.HeadOf | components/SEO.tsx:62-98 | the head's title, description, keywords, canonical URL, image and JSON-LD are those of the props |
| SeoHead.EmptyBreadcrumbsKept | components/SEO.tsx:33-42 | an empty breadcrumb list still produces a BreadcrumbList, one with no items |
| SeoHead.BreadcrumbsAndFaq | components/SEO.tsx:59-95 | breadcrumbs with a FAQ make an array of the two schemas |
| Breadcrumbs.Entry | components/Breadcrumbs.tsx:20-28 | the last item as plain text, any other as a link to its URL |
| Breadcrumbs.PiecesFrom | components/Breadcrumbs.tsx:16-31 | the items from k on, each after a separator unless it is the first item |
| Breadcrumbs.Render | components/Breadcrumbs.tsx:16-31 | the pieces of all items |
| Breadcrumbs.PiecesFromShape | components/Breadcrumbs.tsx:16-32 | from a later item on, separators and entries alternate |
| Breadcrumbs.RenderShape | components/Breadcrumbs.tsx:16-32 | n items render as 2n - 1 pieces: the entries, in order, with a separator between each two |
| Breadcrumbs.RenderLastIsCurrent | components/Breadcrumbs.tsx:20-28 | the last item is plain text; every other item is a link to its own URL |
| Breadcrumbs.SeparatorCount | components/Breadcrumbs.tsx:18 | a separator precedes every item but the first |
| Breadcrumbs.RenderSeparators | components/Breadcrumbs.tsx:18 | n items give max(n - 1, 0) separators |
| Breadcrumbs.RenderEmpty | components/Breadcrumbs.tsx:15-16 | an empty trail renders an empty list |
| Breadcrumbs.RenderSingle | components/Breadcrumbs.tsx:16-28 | a single item is plain text with no separator |
| ProductsPage.MatchesCategory | pages/Products.tsx:287 | "all", or the product's own category |
| ProductsPage.MatchesBrand | pages/Products.tsx:288 | no brand or an empty one, or the product's own brand |
| ProductsPage.FilterProducts | pages/Products.tsx:286-290 | the products matching both, in order |
| ProductsPage.FilteredProducts | pages/Products.tsx:286-290 | the product table filtered |
| ProductsPage.FilterProductsMembership | pages/Products.tsx:286-290 | a product is shown exactly when it is in the table and matches both the category and the brand |
| ProductsPage.FilterProductsIsSubseq | pages/Products.tsx:286 | the shown products keep the table's order |
| ProductsPage.UnfilteredKeepsAll | pages/Products.tsx:287-288 | category "all" with no brand keeps every product |
| ProductsPage.UnfilteredShowsAll | pages/Products.tsx:24-113 | without filters all eight products are shown |
| ProductsPage.TableUsesSidebarValues | pages/Products.tsx:13-113 | every product's brand is a sidebar chip and its category a sidebar category |
| ProductsPage.UnusedBrandShowsNothing | pages/Products.tsx:22 | the "Centelsa" chip names no product, so selecting it alone shows nothing |
| ProductsPage.ToggleBrand | pages/Products.tsx:152 | clicking the selected chip clears the brand; clicking another selects it |
| ProductsPage.ToggleBrandTwice | pages/Products.tsx:152 | from no brand or from the same brand, two clicks on a chip restore the selection |
| ProductsPage.ToggleBrandTwiceFromOther | pages/Products.tsx:152 | from another brand, two clicks on a chip clear the selection instead |
| ProductsPage.GridOf | pages/Products.tsx:345-369 | a card per shown product, or the empty panel exactly when none is shown |
| ProductsPage.Catalogue.constructor | pages/Products.tsx:280-283 | category "all", no brand, sidebar closed, no product open |
| ProductsPage.Catalogue.SelectCategory | pages/Products.tsx:133 | the category is set; nothing else changes |
| ProductsPage.Catalogue.ClickBrand | pages/Products.tsx:152 | the brand toggles; nothing else changes |
| ProductsPage.Catalogue.ResetFilters | pages/Products.tsx:363 | category "all" and no brand, so the unfiltered table is shown |
| ProductsPage.Catalogue.SetSidebar | pages/Products.tsx:320-340 | the sidebar opens or closes; nothing else changes |
| ProductsPage.Catalogue.SetSelectedProduct | pages/Products.tsx:352-380 | a card opens its modal and closing clears it; nothing else changes |
| FaqPage.Clicked | pages/FAQ.tsx:39 | clicking the open item closes everything; clicking another opens that one |
| FaqPage.ClickTwiceRestores | pages/FAQ.tsx:39 | from nothing open or from the same item open, two clicks restore the state |
| FaqPage.ClickTwiceFromOther | pages/FAQ.tsx:39 | from another item open, two clicks leave everything closed |
| FaqPage.ItemOf | pages/FAQ.tsx:42-49 | an item shows its answer, the minus icon and the highlighted title exactly when it is the open one |
| FaqPage.Items | pages/FAQ.tsx:33-49 | one view per question, in order |
| FaqPage.AtMostOneExpanded | pages/FAQ.tsx:49 | at most one answer is shown, and it is the open item's |
| FaqPage.InitiallyFirstOpen | pages/FAQ.tsx:17 | on opening the page exactly the first answer is shown |
| FaqPage.Accordion.constructor | pages/FAQ.tsx:17 | the first item is open |
| FaqPage.Accordion.Click | pages/FAQ.tsx:39 | the open item becomes the clicked result |
| Layout.LinkOf | components/Layout.tsx:68-79 | a route's link: its path and its text |
| Layout.MenuLinks | components/Layout.tsx:68-79 | one link per route, in order, with its path and text |
| Layout.SiteMenu | constants.tsx:4-11 | the site's menus have six links, the blog's fourth |
| Layout.HeaderViewOf | components/Layout.tsx:40-105 | solid when scrolled; the close icon and the overlay exactly when the menu is open |
| Layout.Header.constructor | components/Layout.tsx:25-26 | menu closed, not scrolled, no listener |
| Layout.Header.Mount | components/Layout.tsx:31 | mounting registers one scroll handler |
| Layout.Header.Unmount | components/Layout.tsx:32 | tearing down removes that handler |
| Layout.Header.OnScroll | components/Layout.tsx:30 | with a handler registered, the flag becomes whether the position is past 20 |
| Layout.Header.Toggle | components/Layout.tsx:97 | the toggle flips the menu |
| Layout.Header.LocationChanged | components/Layout.tsx:35-37 | any navigation closes the menu |
| Layout.MountUnmount | components/Layout.tsx:29-33 | mounting and then tearing down leaves no listener behind |
| Layout.ToggleTwice | components/Layout.tsx:97 | two toggles restore the menu and the view |
| UI.VariantClass | components/UI.tsx:126-131 | the classes of each of the four variants |
| UI.SizeClass | components/UI.tsx:133-137 | the classes of each of the three sizes |
| UI.Classes | components/UI.tsx:139 | base, variant, size and extra classes, each followed by a space but the last |
| UI.ClassesOf | components/UI.tsx:115-139 | the classes of a Button, primary, medium and no extra classes by default |
| UI.ClassesIsJoin | components/UI.tsx:139 | the class string is the base, variant, size and extra classes joined by single spaces |
| UI.NoExtraEndsInSpace | components/UI.tsx:117-139 | without extra classes the class string ends in a space |
| UI.DefaultClasses | components/UI.tsx:115-117 | a Button with nothing passed is primary and medium |
| UI.Render | components/UI.tsx:141-161 | a non-empty href gives a new-tab anchor whatever `to` is; otherwise a non-empty `to` gives a router link; otherwise a native button whose type defaults to "button"; all share the class string |
| UI.PlainButton | components/UI.tsx:122-161 | with neither href nor `to`, a Button is a native button of type "button" |

## Left out

- The network, the CSV library (Papa.parse), the file system, `console` and `process.exit` are inputs or are left out. Papa.parse's own behaviour is not modelled. Only the header normalisation it is given is modelled.
- The regex match inside the pre-renderer's own CSV parser is not modelled. Its result is thrown away, and the parser is never called.
- Missing sheet fields are modelled as "". The library gives a missing column as `undefined`, and the source treats that differently in these places, none of them modelled:
  - `Blog.tsx:31-32` calls `toLowerCase` on the title and the excerpt once a search term is typed. A post without either throws a TypeError there; `BlogPage.MatchesSearch` tests the empty text instead.
  - `BlogPost.tsx:91` calls `replace` on the content. A post without content throws there; `Markdown.Render` of "" gives no blocks.
  - `BlogPost.tsx:44` passes the post's image unchanged. A post without an image column gives `undefined`, so the SEO head shows the default logo of `SEO.tsx:22`; only an empty image cell gives the site root.
- Lower-casing covers ASCII and Latin-1 letters only. JavaScript's full Unicode case mapping is not modelled.
- `encodeURIComponent` and the WhatsApp links, react-helmet's head handling, framer-motion animations, the EnergyCanvas animation, and the router (App routes, NavLink `isActive` styling) are left out. They are rendering or library behaviour without logic of the site's own.
- The static pages (Home, About, Services, Contact, Privacy, Warranty, TargetAudience, USP) are left out. They hold only fixed content.
- The product cards' and the modal's texts, icons and prices are left out. The product model keeps only the fields the filter and the grid read.
- `dangerouslySetInnerHTML` is modelled as the HTML string the renderer produces. HTML parsing and its safety are not modelled.
- The window's scroll position and `window.location.pathname` are parameters of the event handlers and of the SEO head.
- Asynchronous ordering is not modelled. Each effect is one method call: a load that finishes after the component went away, or two loads racing, are not represented.
- SeoHead.JsonLdOf: the JSON text itself (`JSON.stringify`) is not produced. The model keeps which schema objects are serialised, and whether as one object or an array.
- ProductsPage.Catalogue.ResetFilters: its contract states the reset filters and that the shown products are the unfiltered ones. That this is the whole table of eight products is the separate lemma `UnfilteredShowsAll`.
- FaqPage.ClickTwiceRestores: holds only from nothing open or from the same item open. From another item open, two clicks close everything (`ClickTwiceFromOther`).
- ProductsPage.ToggleBrandTwice: holds only from no brand or from the same brand. From another brand, two clicks clear the selection (`ToggleBrandTwiceFromOther`).
- The Twitter card tags are modelled where the script inserts them: after the Open Graph comment, which is kept.
- The pre-renderer's fallback posts (two) differ from the blog service's fallback posts (three). Each module models its own list.
- Prerender.PageDirsNamed: the directory is `blog/` followed by the id as written. `path.join` normalises an id holding `/` or `..`, which the model does not do.
- Prerender.WritePages: two posts with the same id write the same file, the later one winning, while `generatedCount` counts both. The model lists both pages and does not model the file system that merges them.
- Prerender.RewritePostLayout: holds for plain posts only (no `$` and no `<` in title, excerpt, image or id) and for a base page whose head holds the six tags in the order the script rewrites them, with one-line values and no opener occurring ahead of its own tag, and whose Open Graph comment comes after the `og:url` tag. The replace calls themselves do not depend on that order; a page with its tags in another order, or with the comment before them, is not covered. Other pages follow the general replace model in `JsRegex`, but no whole-page lemma covers them.
