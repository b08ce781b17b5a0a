/**
 * The rule that turns an image path into an absolute URL on the site's origin. The build-time
 * pre-renderer and the page head component use the same rule.
 */
module SiteUrl {
  import opened Text

  /** The site's origin, without a trailing slash (the literal, written in pieces). */
  const ORIGIN: string := "https://" + "fecauca.com"

  /** A prefix of `a` is a prefix of `a + b`. */
  lemma StartsWithConcat(a: string, b: string, p: string)
    requires StartsWith(a, p)
    ensures StartsWith(a + b, p)
  {
    assert (a + b)[..|p|] == a[..|p|];
  }

  /** The origin is an `https` URL. */
  lemma OriginIsHttp()
    ensures StartsWith(ORIGIN, "http")
  {
    assert ORIGIN[..4] == "https://"[..4];
  }

  /**
   * A string starting with `http` is kept as it is. Any other string is put after the origin,
   * with one `/` between them (a leading `/` of the path is that `/`).
   */
  function AbsoluteUrl(image: string): (r: string)
    ensures StartsWith(r, "http")
    ensures |image| <= |r| && r[|r| - |image|..] == image
  {
    if StartsWith(image, "http") then image
    else
      var r := ORIGIN + (if StartsWith(image, "/") then "" else "/") + image;
      OriginIsHttp();
      StartsWithConcat(ORIGIN, (if StartsWith(image, "/") then "" else "/") + image, "http");
      assert r == ORIGIN + ((if StartsWith(image, "/") then "" else "/") + image);
      r
  }

  /** An `http`/`https` URL is left unchanged. */
  lemma AbsoluteKept(image: string)
    requires StartsWith(image, "http")
    ensures AbsoluteUrl(image) == image
  {
  }

  /**
   * A path that does not start with `http` is put after the origin: as it is when it starts
   * with `/` (so `//cdn/x` keeps both slashes), after one added `/` otherwise; so a path and
   * the same path with one leading `/` end up at the same URL.
   */
  lemma RelativeJoined(image: string)
    requires !StartsWith(image, "http")
    ensures StartsWith(image, "/") ==> AbsoluteUrl(image) == ORIGIN + image
    ensures !StartsWith(image, "/") ==> AbsoluteUrl(image) == ORIGIN + "/" + image
    ensures !StartsWith(image, "/") ==> AbsoluteUrl("/" + image) == AbsoluteUrl(image)
  {
    if !StartsWith(image, "/") {
      assert !StartsWith("/" + image, "http") by {
        assert ("/" + image)[0] == '/';
      }
      assert StartsWith("/" + image, "/") by {
        assert ("/" + image)[..1] == "/";
      }
      assert ORIGIN + "" + ("/" + image) == ORIGIN + "/" + image;
    } else {
      assert ORIGIN + "" + image == ORIGIN + image;
    }
  }

  /** A missing image (the empty string) becomes the origin's root. */
  lemma MissingImageIsRoot()
    ensures AbsoluteUrl("") == ORIGIN + "/"
  {
    assert !StartsWith("", "http");
    assert !StartsWith("", "/");
  }

  /** Making a URL absolute twice is the same as doing it once. */
  lemma AbsoluteIdempotent(image: string)
    ensures AbsoluteUrl(AbsoluteUrl(image)) == AbsoluteUrl(image)
  {
    AbsoluteKept(AbsoluteUrl(image));
  }
}
