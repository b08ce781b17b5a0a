/**
 * The fragment of JavaScript's `String.prototype.replace` the site uses, written out for
 * each fixed pattern shape instead of as a regular-expression engine:
 *  - a pattern `open.*?close` (a lazy "any characters" between two literals, where `.`
 *    does not match a line terminator), replacing its leftmost match only;
 *  - a literal string pattern, replacing its first occurrence only;
 *  - the `$` substitutions of a replacement string (`$$`, `$&`, `` $` ``, `$'`); the
 *    patterns have no capture groups, so `$1` and the like stay literal.
 */
module JsRegex {
  import opened Wrappers
  import opened Text

  /** The characters `.` does not match. */
  predicate IsLineTerminator(c: char) {
    c == '\n' || c == '\r' || c == '\U{2028}' || c == '\U{2029}'
  }

  /** `.` matches every character of s[i..k]. */
  predicate DotsMatch(s: string, i: nat, k: nat)
    requires i <= k <= |s|
  {
    forall m :: i <= m < k ==> !IsLineTerminator(s[m])
  }

  /** A lazy `.*?` begun at `from` and followed by the literal `close` may stop at `k`. */
  predicate CanStop(s: string, from: nat, close: string, k: nat) {
    from <= k && At(s, k, close) && DotsMatch(s, from, k)
  }

  /** Where a lazy `.*?` begun at `from` stops: the smallest `k` at which `close` follows. */
  function LazyStop(s: string, from: nat, close: string): (r: Option<nat>)
    requires from <= |s|
    decreases |s| - from
    ensures r.Some? ==> CanStop(s, from, close, r.value)
    ensures r.Some? ==> forall k :: from <= k < r.value ==> !CanStop(s, from, close, k)
    ensures r.None? ==> forall k :: !CanStop(s, from, close, k)
  {
    if At(s, from, close) then Some(from)
    else if from == |s| || IsLineTerminator(s[from]) then None
    else
      var r := LazyStop(s, from + 1, close);
      assert forall k :: CanStop(s, from, close, k) && k != from ==> CanStop(s, from + 1, close, k);
      r
  }

  /** End of the match of `open.*?close` that starts at `i`, if the pattern matches there. */
  function MatchEnd(s: string, i: nat, open: string, close: string): (r: Option<nat>)
    ensures r.Some? ==> i + |open| + |close| <= r.value <= |s|
  {
    if !At(s, i, open) then None
    else match LazyStop(s, i + |open|, close)
      case None => None
      case Some(k) => Some(k + |close|)
  }

  /** A half-open range s[start..end]. */
  datatype Span = Span(start: nat, end: nat)

  /** The leftmost match of `open.*?close` that starts at or after `from`. */
  function FirstMatch(s: string, open: string, close: string, from: nat): (r: Option<Span>)
    decreases |s| + 1 - from
    ensures r.Some? ==> from <= r.value.start <= r.value.end <= |s|
    ensures r.Some? ==> MatchEnd(s, r.value.start, open, close) == Some(r.value.end)
    ensures r.Some? ==> forall i :: from <= i < r.value.start ==> MatchEnd(s, i, open, close).None?
    ensures r.None? ==> forall i :: from <= i ==> MatchEnd(s, i, open, close).None?
  {
    if from > |s| then None
    else match MatchEnd(s, from, open, close)
      case Some(e) => Some(Span(from, e))
      case None => FirstMatch(s, open, close, from + 1)
  }

  /**
   * The replacement string `t` with its `$` patterns expanded (GetSubstitution of ECMA-262
   * for a pattern without capture groups), for the match s[i..e].
   */
  function Expand(t: string, s: string, i: nat, e: nat): string
    requires i <= e <= |s|
  {
    if t == [] then []
    else if |t| >= 2 && t[0] == '$' && t[1] == '$' then "$" + Expand(t[2..], s, i, e)
    else if |t| >= 2 && t[0] == '$' && t[1] == '&' then s[i..e] + Expand(t[2..], s, i, e)
    else if |t| >= 2 && t[0] == '$' && t[1] == '`' then s[..i] + Expand(t[2..], s, i, e)
    else if |t| >= 2 && t[0] == '$' && t[1] == '\'' then s[e..] + Expand(t[2..], s, i, e)
    else [t[0]] + Expand(t[1..], s, i, e)
  }

  /** A replacement string without `$` is inserted verbatim. */
  lemma {:induction false} ExpandVerbatim(t: string, s: string, i: nat, e: nat)
    requires i <= e <= |s|
    requires '$' !in t
    ensures Expand(t, s, i, e) == t
  {
    if t != [] {
      ExpandVerbatim(t[1..], s, i, e);
    }
  }

  /** `$&` inserts the matched text itself. */
  lemma ExpandMatched(s: string, i: nat, e: nat)
    requires i <= e <= |s|
    ensures Expand("$&", s, i, e) == s[i..e]
  {
    assert "$&"[2..] == [];
  }

  /** `s.replace(/open.*?close/, t)`: only the leftmost match is replaced. */
  function ReplaceFirstLazy(s: string, open: string, close: string, t: string): string {
    match FirstMatch(s, open, close, 0)
    case None => s
    case Some(sp) => s[..sp.start] + Expand(t, s, sp.start, sp.end) + s[sp.end..]
  }

  /** The first index at or after `from` where `p` occurs. */
  function FirstOccurrence(s: string, p: string, from: nat): (r: Option<nat>)
    decreases |s| + 1 - from
    ensures r.Some? ==> from <= r.value && At(s, r.value, p)
    ensures r.Some? ==> forall i :: from <= i < r.value ==> !At(s, i, p)
    ensures r.None? ==> forall i :: from <= i ==> !At(s, i, p)
  {
    if from > |s| then None
    else if At(s, from, p) then Some(from)
    else FirstOccurrence(s, p, from + 1)
  }

  /** `s.replace(p, t)` for a string `p`: only the first occurrence is replaced. */
  function ReplaceFirstLiteral(s: string, p: string, t: string): string {
    match FirstOccurrence(s, p, 0)
    case None => s
    case Some(i) => s[..i] + Expand(t, s, i, i + |p|) + s[i + |p|..]
  }

  /** When the pattern matches nowhere, `replace` returns its input unchanged. */
  lemma ReplaceLazyNoMatch(s: string, open: string, close: string, t: string)
    requires forall i :: MatchEnd(s, i, open, close).None?
    ensures ReplaceFirstLazy(s, open, close, t) == s
  {
  }

  /** When the literal occurs nowhere, `replace` returns its input unchanged. */
  lemma ReplaceLiteralAbsent(s: string, p: string, t: string)
    requires !Contains(s, p)
    ensures ReplaceFirstLiteral(s, p, t) == s
  {
  }

  /** An occurrence inside a prefix of `a` is an occurrence in `a + b`. */
  lemma AtPrefix(a: string, b: string, i: nat, p: string)
    requires i + |p| <= |a|
    ensures At(a + b, i, p) <==> At(a, i, p)
  {
    assert (a + b)[i..i + |p|] == a[i..i + |p|];
  }

  /** An occurrence inside a suffix of `a + b` is an occurrence in `b`. */
  lemma AtSuffix(a: string, b: string, i: nat, p: string)
    ensures At(a + b, |a| + i, p) <==> At(b, i, p)
  {
    if |a| + i + |p| <= |a + b| {
      assert (a + b)[|a| + i..|a| + i + |p|] == b[i..i + |p|];
    }
  }

  /** The lazy `.*?` stops at the first place `close` follows. */
  lemma LazyStopAt(s: string, from: nat, close: string, k0: nat)
    requires from <= |s|
    requires CanStop(s, from, close, k0)
    requires forall k :: from <= k < k0 ==> !At(s, k, close)
    ensures LazyStop(s, from, close) == Some(k0)
  {
    var r := LazyStop(s, from, close);
    assert r.Some?;
    assert !(r.value < k0);
    assert !(k0 < r.value);
  }

  /** The leftmost match is the one at `i` when no earlier position matches. */
  lemma FirstMatchAt(s: string, open: string, close: string, i: nat, e: nat)
    requires MatchEnd(s, i, open, close) == Some(e)
    requires forall j :: 0 <= j < i ==> MatchEnd(s, j, open, close).None?
    ensures FirstMatch(s, open, close, 0) == Some(Span(i, e))
  {
    var r := FirstMatch(s, open, close, 0);
    assert r.Some?;
    assert !(r.value.start < i);
    assert !(i < r.value.start);
  }

  /** The first occurrence is the one at `i` when `p` occurs nowhere before it. */
  lemma FirstOccurrenceAt(s: string, p: string, i: nat)
    requires At(s, i, p)
    requires forall j :: 0 <= j < i ==> !At(s, j, p)
    ensures FirstOccurrence(s, p, 0) == Some(i)
  {
    var r := FirstOccurrence(s, p, 0);
    assert r.Some?;
    assert !(r.value < i);
    assert !(i < r.value);
  }

  /** `open` starting at the end of `pre`, and nowhere inside `pre`. */
  lemma OpenFirstAt(pre: string, open: string, rest: string)
    requires forall i :: 0 <= i < |pre| ==> !At(pre + open, i, open)
    ensures At(pre + open + rest, |pre|, open)
    ensures forall i :: 0 <= i < |pre| ==> !At(pre + open + rest, i, open)
  {
    forall i | 0 <= i < |pre| ensures !At(pre + open + rest, i, open) {
      AtPrefix(pre + open, rest, i, open);
    }
    AtPrefix(pre + open, rest, |pre|, open);
    assert (pre + open)[|pre|..|pre| + |open|] == open;
  }

  /** What `replace` does once the leftmost match is known. */
  lemma ReplaceLazySpan(s: string, open: string, close: string, t: string, i: nat, e: nat)
    requires FirstMatch(s, open, close, 0) == Some(Span(i, e))
    requires '$' !in t
    ensures i <= e <= |s|
    ensures ReplaceFirstLazy(s, open, close, t) == s[..i] + t + s[e..]
  {
    ExpandVerbatim(t, s, i, e);
  }

  /**
   * The leftmost match of `open.*?close` starts at `i` when `open` occurs there and nowhere
   * before, and it ends right after the first `close` at or after i + |open| when no line
   * terminator comes first: that match is replaced by `t`, and everything after it (later
   * matches included) is left as it was.
   */
  lemma ReplaceLazyIndexed(s: string, open: string, close: string, t: string, i: nat, k: nat)
    requires At(s, i, open) && forall j :: 0 <= j < i ==> !At(s, j, open)
    requires CanStop(s, i + |open|, close, k)
    requires forall m :: i + |open| <= m < k ==> !At(s, m, close)
    requires '$' !in t
    ensures ReplaceFirstLazy(s, open, close, t) == s[..i] + t + s[k + |close|..]
  {
    LazyStopAt(s, i + |open|, close, k);
    assert MatchEnd(s, i, open, close) == Some(k + |close|);
    forall j | 0 <= j < i ensures MatchEnd(s, j, open, close).None? {
      assert !At(s, j, open);
    }
    FirstMatchAt(s, open, close, i, k + |close|);
    ReplaceLazySpan(s, open, close, t, i, k + |close|);
  }

  /** The same, for a string given as its five pieces. */
  lemma ReplaceLazyAt(pre: string, open: string, mid: string, close: string, post: string, t: string)
    requires forall i :: 0 <= i < |pre| ==> !At(pre + open, i, open)
    requires forall m :: 0 <= m < |mid| ==> !At(mid + close, m, close) && !IsLineTerminator(mid[m])
    requires '$' !in t
    ensures ReplaceFirstLazy(pre + open + mid + close + post, open, close, t) == pre + t + post
  {
    var s := pre + open + mid + close + post;
    var k := |pre| + |open| + |mid|;
    OpenAtEnd(pre, open, mid, close, post);
    CloseAfterMid(pre, open, mid, close, post);
    ReplaceLazyIndexed(s, open, close, t, |pre|, k);
    SpliceAt(pre, open, mid, close, post, t);
  }

  /** In pre + open + mid + close + post, `open` first occurs at the end of `pre`. */
  lemma OpenAtEnd(pre: string, open: string, mid: string, close: string, post: string)
    requires forall i :: 0 <= i < |pre| ==> !At(pre + open, i, open)
    ensures var s := pre + open + mid + close + post;
      At(s, |pre|, open) && forall j :: 0 <= j < |pre| ==> !At(s, j, open)
  {
    var s := pre + open + mid + close + post;
    var rest := mid + close + post;
    assert s == (pre + open) + rest;
    forall j | 0 <= j < |pre| ensures !At(s, j, open) {
      AtPrefix(pre + open, rest, j, open);
    }
    assert s[|pre|..|pre| + |open|] == open;
  }

  /** In pre + open + mid + close + post, the lazy `.*?` after `open` may stop right after `mid`, and nowhere sooner. */
  lemma CloseAfterMid(pre: string, open: string, mid: string, close: string, post: string)
    requires forall m :: 0 <= m < |mid| ==> !At(mid + close, m, close) && !IsLineTerminator(mid[m])
    ensures var s := pre + open + mid + close + post;
      var b := |pre| + |open|;
      CanStop(s, b, close, b + |mid|) && forall m :: b <= m < b + |mid| ==> !At(s, m, close)
  {
    var s := pre + open + mid + close + post;
    var x := pre + open;
    var b := |x|;
    var k0 := b + |mid|;
    assert s == x + (mid + close) + post;
    forall k | b <= k < k0 ensures !At(s, k, close) {
      AtPrefix(x + (mid + close), post, k, close);
      AtSuffix(x, mid + close, k - b, close);
    }
    assert s[k0..k0 + |close|] == close;
    forall m | b <= m < k0 ensures !IsLineTerminator(s[m]) {
      assert s[m] == mid[m - b];
    }
  }

  /** Cutting a string into three known pieces. */
  lemma SpliceAt(pre: string, open: string, mid: string, close: string, post: string, t: string)
    ensures var s := pre + open + mid + close + post;
      s[..|pre|] + t + s[|pre| + |open| + |mid| + |close|..] == pre + t + post
  {
    var s := pre + open + mid + close + post;
    assert s[..|pre|] == pre;
    assert s[|pre| + |open| + |mid| + |close|..] == post;
  }

  /**
   * The first occurrence of the literal `p` is the one at the end of `pre` when `p` does not
   * start anywhere inside `pre`: it is replaced by `t` and the rest is left as it was.
   */
  lemma ReplaceLiteralAt(pre: string, p: string, post: string, t: string)
    requires forall i :: 0 <= i < |pre| ==> !At(pre + p, i, p)
    requires '$' !in t
    ensures ReplaceFirstLiteral(pre + p + post, p, t) == pre + t + post
  {
    var s := pre + p + post;
    OpenFirstAt(pre, p, post);
    FirstOccurrenceAt(s, p, |pre|);
    ExpandVerbatim(t, s, |pre|, |pre| + |p|);
    assert s[..|pre|] == pre;
    assert s[|pre| + |p|..] == post;
  }

  // ---------------------------------------------------------------------------------------
  // Where an HTML tag opener can occur
  // ---------------------------------------------------------------------------------------

  /** `p` begins with `<` and holds no other `<`, as an HTML tag opener or a comment does. */
  predicate OneLt(p: string) {
    |p| > 0 && p[0] == '<' && '<' !in p[1..]
  }

  /** `a` and `b` differ at some place both have. */
  predicate Differ(a: string, b: string) {
    exists d :: 0 <= d < |a| && d < |b| && a[d] != b[d]
  }

  /** An opener that does not occur in `x` does not start in `x` when it follows `x`. */
  lemma NoEarlierOf(x: string, p: string)
    requires OneLt(p) && !Contains(x, p)
    ensures forall i :: 0 <= i < |x| ==> !At(x + p, i, p)
  {
    forall i | 0 <= i < |x| ensures !At(x + p, i, p) {
      if i + |p| <= |x| {
        AtPrefix(x, p, i, p);
      } else if i + |p| <= |x + p| {
        var d := |x| - i;
        assert (x + p)[i..i + |p|][d] == p[0];
        assert p[d] == p[1..][d - 1];
      }
    }
  }

  /** An opener occurs in neither of two texts, the second starting with `<`: it does not occur in both together. */
  lemma AbsentJoin(x: string, y: string, p: string)
    requires OneLt(p) && !Contains(x, p) && !Contains(y, p)
    requires y != [] ==> y[0] == '<'
    ensures !Contains(x + y, p)
  {
    forall i: nat | i <= |x + y| ensures !At(x + y, i, p) {
      if i + |p| <= |x| {
        AtPrefix(x, y, i, p);
      } else if i >= |x| {
        AtSuffix(x, y, i - |x|, p);
      } else if i + |p| <= |x + y| {
        var d := |x| - i;
        assert (x + y)[i..i + |p|][d] == y[0];
        assert p[d] == p[1..][d - 1];
      }
    }
  }

  /**
   * Another opener `o`, then a text without `<`, then a text without `p`: `p` can only have
   * started at `o`, where it does not.
   */
  lemma AbsentAfterHead(o: string, v: string, y: string, p: string)
    requires OneLt(o) && OneLt(p) && Differ(o, p) && '<' !in v && !Contains(y, p)
    ensures !Contains(o + v + y, p)
  {
    var s := o + v + y;
    forall i: nat | i <= |s| ensures !At(s, i, p) {
      if i == 0 {
        var d :| 0 <= d < |o| && d < |p| && o[d] != p[d];
        if |p| <= |s| {
          assert s[0..|p|][d] == o[d];
        }
      } else if i < |o + v| {
        if i < |o| {
          assert s[i] == o[1..][i - 1];
        } else {
          assert s[i] == v[i - |o|];
        }
        NotAtHead(s, i, p);
      } else {
        assert s == (o + v) + y;
        AtSuffix(o + v, y, i - |o + v|, p);
      }
    }
  }
}
