/**
 * The blog's data service: the list of posts (rows of the published sheet, or a fixed list of
 * three posts when the sheet cannot be read or is empty) and the lookup of one post by id.
 *
 * The network and the CSV library are inputs: the fetched text is an `Option<string>` (None
 * when the fetch threw or the response was not ok) and the CSV library is a function from text
 * to posts (None when it threw). Of the library's configuration only the header normalisation
 * is modelled.
 */
module BlogService {
  import opened Wrappers
  import opened Text

  /** A blog post as the sheet describes it; a missing column is "". */
  datatype BlogPost = BlogPost(
    id: string,
    title: string,
    excerpt: string,
    content: string,
    date: string,
    image: string,
    category: string,
    author: string)

  /** The fallback posts. */
  const MOCK_POSTS: seq<BlogPost> := [
    BlogPost("1",
      "Cómo elegir el calibre d" + "e cable correcto",
      "Una guía práctica para e" + "vitar sobrecalentamiento" + "s y cumplir norma RETIE " + "en instalaciones residen" + "ciales.",
      "Elegir el calibre de cab" + "le adecuado es fundament" + "al para la seguridad de " + "cualquier instalación el" + "éctrica. Un calibre muy " + "delgado puede provocar s" + "obrecalentamiento e ince" + "ndios, mientras que uno " + "muy grueso representa un" + " gasto innecesario. En e" + "sta guía, explicamos cóm" + "o usar la tabla de amper" + "aje según la norma NTC 2" + "050...",
      "2023-10-25",
      "https://images.unsplash." + "com/photo-1558346490-a72" + "e53ae2d4f?auto=format&fi" + "t=crop&q=80&w=1000",
      "Tutoriales",
      "Ing. Carlos Reyes"),
    BlogPost("2",
      "Iluminación LED vs. Trad" + "icional: ¿Cuánto ahorras" + "?",
      "Analizamos el retorno de" + " inversión al cambiar tu" + " iluminación a tecnologí" + "a LED certificada.",
      "La tecnología LED no es " + "solo una moda, es una ne" + "cesidad económica y ambi" + "ental. Un bombillo LED c" + "onsume hasta un 85% meno" + "s energía que uno incand" + "escente y dura 25 veces " + "más. En este artículo de" + "sglosamos el ahorro real" + " en la factura de energí" + "a de un hogar promedio e" + "n Popayán...",
      "2023-11-02",
      "https://images.unsplash." + "com/photo-1565814329452-" + "e1efa11c5b89?auto=format" + "&fit=crop&q=80&w=1000",
      "Ahorro",
      "Equipo FECAUCA"),
    BlogPost("3",
      "Mantenimiento preventivo" + " en época de lluvias",
      "Protege tus equipos elec" + "trónicos de las tormenta" + "s eléctricas comunes en " + "el Cauca.",
      "El Cauca es una zona con" + " alta actividad de torme" + "ntas eléctricas. Los pic" + "os de voltaje pueden des" + "truir neveras, computado" + "res y televisores en mil" + "isegundos. Recomendamos " + "instalar DPS (Dispositiv" + "os de Protección contra " + "Sobretensiones) en el ta" + "blero principal...",
      "2023-11-15",
      "https://images.unsplash." + "com/photo-1605810230434-" + "7631ac76ec81?auto=format" + "&fit=crop&q=80&w=1000",
      "Seguridad",
      "Ing. Carlos Reyes")
  ]

  /**
   * The posts of the blog: the parsed posts when the fetch succeeded, the library did not
   * throw and it produced at least one post; the fallback list otherwise.
   */
  function GetPosts(fetched: Option<string>, parse: string -> Option<seq<BlogPost>>): (posts: seq<BlogPost>)
    ensures |posts| > 0
    ensures fetched.None? ==> posts == MOCK_POSTS
    ensures fetched.Some? && parse(fetched.value).None? ==> posts == MOCK_POSTS
    ensures fetched.Some? && parse(fetched.value) == Some([]) ==> posts == MOCK_POSTS
    ensures fetched.Some? && parse(fetched.value).Some? && parse(fetched.value).value != []
            ==> posts == parse(fetched.value).value
  {
    match fetched
    case None => MOCK_POSTS
    case Some(csv) =>
      match parse(csv)
      case None => MOCK_POSTS
      case Some(posts) => if |posts| == 0 then MOCK_POSTS else posts
  }

  /**
   * The first post whose id is `id`, or None when there is none: a post found has that id,
   * and no earlier post has it.
   */
  function FindPost(posts: seq<BlogPost>, id: string): (r: Option<BlogPost>)
    ensures r.None? <==> forall k :: 0 <= k < |posts| ==> posts[k].id != id
    ensures r.Some? ==> r.value.id == id
    ensures r.Some? ==> exists k :: 0 <= k < |posts| && posts[k] == r.value
                                    && forall j :: 0 <= j < k ==> posts[j].id != id
  {
    if posts == [] then None
    else if posts[0].id == id then Some(posts[0])
    else
      var r := FindPost(posts[1..], id);
      assert r.Some? ==> exists k :: 0 <= k < |posts[1..]| && posts[1..][k] == r.value
                                     && forall j :: 0 <= j < k ==> posts[1..][j].id != id;
      assert r.Some? ==> exists k :: 1 <= k < |posts| && posts[k] == r.value
                                     && forall j :: 1 <= j < k ==> posts[j].id != id;
      r
  }

  /** The post with a given id among the blog's posts, as `getPostById` looks it up. */
  function GetPostById(id: string, fetched: Option<string>, parse: string -> Option<seq<BlogPost>>): Option<BlogPost> {
    FindPost(GetPosts(fetched, parse), id)
  }

  /** A post found by id is one of the blog's posts and has that id. */
  lemma GetPostByIdFound(id: string, fetched: Option<string>, parse: string -> Option<seq<BlogPost>>)
    requires GetPostById(id, fetched, parse).Some?
    ensures GetPostById(id, fetched, parse).value in GetPosts(fetched, parse)
    ensures GetPostById(id, fetched, parse).value.id == id
  {
  }

  lemma FindPostHead(posts: seq<BlogPost>, id: string)
    requires posts != [] && posts[0].id == id
    ensures FindPost(posts, id) == Some(posts[0])
  {
  }

  lemma FindPostSkip(posts: seq<BlogPost>, id: string)
    requires posts != [] && posts[0].id != id
    ensures FindPost(posts, id) == FindPost(posts[1..], id)
  {
  }

  /** In a list of three posts with the ids "1", "2" and "3", each id finds its post and "4" none. */
  lemma LookupInThree(posts: seq<BlogPost>)
    requires |posts| == 3 && posts[0].id == "1" && posts[1].id == "2" && posts[2].id == "3"
    ensures FindPost(posts, "1") == Some(posts[0])
    ensures FindPost(posts, "2") == Some(posts[1])
    ensures FindPost(posts, "3") == Some(posts[2])
    ensures FindPost(posts, "4").None?
  {
    var p1 := posts[1..];
    var p2 := p1[1..];
    assert p1[0] == posts[1] && p2[0] == posts[2] && p2[1..] == [];
    assert "1" != "2" && "1" != "3" && "2" != "3";
    assert "1" != "4" && "2" != "4" && "3" != "4";
    FindPostHead(posts, "1");
    FindPostSkip(posts, "2");
    FindPostHead(p1, "2");
    FindPostSkip(posts, "3");
    FindPostSkip(p1, "3");
    FindPostHead(p2, "3");
    FindPostSkip(posts, "4");
    FindPostSkip(p1, "4");
    FindPostSkip(p2, "4");
  }

  /** The fallback posts have the ids "1", "2" and "3", in that order. */
  lemma MockIds()
    ensures |MOCK_POSTS| == 3
    ensures MOCK_POSTS[0].id == "1" && MOCK_POSTS[1].id == "2" && MOCK_POSTS[2].id == "3"
  {
  }

  /** Among the fallback posts, the ids "1", "2" and "3" find the first, second and third post. */
  lemma MockLookup(fetched: Option<string>, parse: string -> Option<seq<BlogPost>>)
    requires fetched.None?
    ensures GetPostById("1", fetched, parse) == Some(MOCK_POSTS[0])
    ensures GetPostById("2", fetched, parse) == Some(MOCK_POSTS[1])
    ensures GetPostById("3", fetched, parse) == Some(MOCK_POSTS[2])
    ensures GetPostById("4", fetched, parse).None?
  {
    assert GetPosts(fetched, parse) == MOCK_POSTS;
    MockIds();
    LookupInThree(MOCK_POSTS);
  }

  /** The header normalisation the CSV library applies: surrounding whitespace removed, then lower case. */
  function NormaliseHeader(h: string): (r: string)
    ensures IsTrimmed(r) && IsLower(r) && |r| <= |h|
  {
    ToLowerOfTrimmed(Trim(h));
    ToLower(Trim(h))
  }

  /** A trimmed, lower-case header is its own normalisation. */
  lemma NormalisedFixed(h: string)
    requires IsTrimmed(h) && IsLower(h)
    ensures NormaliseHeader(h) == h
  {
    TrimOfTrimmed(h);
    ToLowerOfLower(h);
  }

  /** Normalising a header twice is the same as normalising it once. */
  lemma NormaliseIdempotent(h: string)
    ensures NormaliseHeader(NormaliseHeader(h)) == NormaliseHeader(h)
  {
    NormalisedFixed(NormaliseHeader(h));
  }

  /** One space on each side of a trimmed, non-empty name is removed by trimming. */
  lemma TrimPadded(x: string)
    requires x != [] && IsTrimmed(x)
    ensures Trim(" " + x + " ") == x
  {
    var s := " " + x + " ";
    assert s[1..] == x + " ";
    assert TrimStart(x + " ") == x + " ";
    assert (x + " ")[..|x|] == x;
    TrimEndOfTrimmed(x);
  }

  lemma TrimSpacedTitle()
    ensures Trim(" Title ") == "Title"
  {
    var x := "Title";
    assert IsTrimmed(x);
    TrimPadded(x);
    assert " " + x + " " == " Title ";
  }

  lemma LowerTitle()
    ensures ToLower("Title") == "title"
  {
    assert LowerChar('T') == 't';
  }

  /** A header written with surrounding spaces and a capital names the lower-case column. */
  lemma NormaliseSpacedHeader()
    ensures NormaliseHeader(" Title ") == "title"
  {
    TrimSpacedTitle();
    LowerTitle();
  }

  /** A header written in capitals names the lower-case column. */
  lemma NormaliseCapitalHeader()
    ensures NormaliseHeader("ID") == "id"
  {
    TrimOfTrimmed("ID");
    assert LowerChar('I') == 'i' && LowerChar('D') == 'd';
  }
}
