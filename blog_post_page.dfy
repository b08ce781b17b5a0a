/**
 * The page of one blog post: it looks the post up by the id in the address, shows a spinner
 * until the lookup ends, then the article (head, and the content through the markdown
 * renderer), or redirects to the list when no post has that id.
 *
 * Navigation is recorded as the list of paths the page asked the router to go to.
 */
module BlogPostPage {
  import opened Wrappers
  import opened BlogService
  import opened Markdown
  import SeoHead

  /** The title the page hands to the head component. */
  function SeoTitle(post: BlogPost): string {
    post.title + " | Blog FECAUCA"
  }

  /** The path of the blog list, where a missing post redirects to. */
  const BLOG_PATH: string := "/blog"

  /** What the page renders. */
  datatype DetailView =
    | Spinner
    | Nothing
    | Article(post: BlogPost, seoTitle: string, body: seq<Block>)

  /** A spinner while loading; then nothing without a post; otherwise the article with its rendered content. */
  function ViewOf(loading: bool, post: Option<BlogPost>): (v: DetailView)
    ensures v.Spinner? <==> loading
    ensures v.Nothing? <==> !loading && post.None?
    ensures v.Article? ==> post == Some(v.post) && v.body == Render(v.post.content)
  {
    if loading then Spinner
    else match post
      case None => Nothing
      case Some(p) => Article(p, SeoTitle(p), Render(p.content))
  }

  /** The full title in the head: the page's own suffix and then the head component's. */
  lemma ArticleFullTitle(post: BlogPost)
    ensures SeoHead.FullTitle(SeoTitle(post)) == post.title + " | Blog FECAUCA | FECAUCA"
  {
  }

  /** The page's state. */
  class PostDetail {
    var post: Option<BlogPost>
    var loading: bool
    var navigations: seq<string>

    /** No post yet, loading, no navigation. */
    constructor()
      ensures post.None? && loading && navigations == []
    {
      post := None;
      loading := true;
      navigations := [];
    }

    /** What the page currently renders. */
    function View(): DetailView
      reads this
    {
      ViewOf(loading, post)
    }

    /**
     * The load effect. Without an id (absent or empty) it changes nothing. Otherwise a post
     * found is stored, a missing one sends the router to the blog list, and loading ends
     * either way.
     */
    method LoadPost(id: Option<string>, fetched: Option<string>, parse: string -> Option<seq<BlogPost>>)
      modifies this
      ensures id.None? || id.value == "" ==>
                post == old(post) && loading == old(loading) && navigations == old(navigations)
      ensures id.Some? && id.value != "" && GetPostById(id.value, fetched, parse).Some? ==>
                post == GetPostById(id.value, fetched, parse) && !loading && navigations == old(navigations)
      ensures id.Some? && id.value != "" && GetPostById(id.value, fetched, parse).None? ==>
                post == old(post) && !loading && navigations == old(navigations) + [BLOG_PATH]
    {
      if id.None? || id.value == "" {
        return;
      }
      var data := GetPostById(id.value, fetched, parse);
      if data.Some? {
        post := data;
      } else {
        navigations := navigations + [BLOG_PATH];
      }
      loading := false;
    }
  }

  /**
   * Opening the page: without an id the spinner stays; a post found is shown and has the id
   * asked for; otherwise nothing is shown and the only navigation is to the blog list.
   */
  method OpenPost(id: Option<string>, fetched: Option<string>, parse: string -> Option<seq<BlogPost>>)
    returns (page: PostDetail)
    ensures id.None? || id.value == "" ==> page.View() == Spinner && page.navigations == []
    ensures id.Some? && id.value != "" && GetPostById(id.value, fetched, parse).Some? ==>
              page.View().Article? && page.View().post.id == id.value
              && page.View().post in GetPosts(fetched, parse) && page.navigations == []
    ensures id.Some? && id.value != "" && GetPostById(id.value, fetched, parse).None? ==>
              page.View() == Nothing && page.navigations == [BLOG_PATH]
  {
    page := new PostDetail();
    page.LoadPost(id, fetched, parse);
    if id.Some? && id.value != "" && GetPostById(id.value, fetched, parse).Some? {
      GetPostByIdFound(id.value, fetched, parse);
    }
  }
}
