/**
 * The small markdown renderer of the blog post page. A post's content goes through:
 *  1. unescaping: every literal backslash-`n` becomes a line break;
 *  2. two passes that put a blank line before `###` and a line break before `- ` when the
 *     character before them is not already a line break;
 *  3. a split on runs of line breaks; each piece is trimmed and empty pieces are dropped;
 *  4. each remaining block becomes a header (`### `), a list item (`- `) or a paragraph;
 *     list items and paragraphs get `**bold**`, `*italic*` and `[text](url)` rewriting.
 *
 * Every `replace` in these steps is global, so each is a left-to-right scan that resumes
 * after the text it replaced.
 */
module Markdown {
  import opened Wrappers
  import opened Text
  import opened Seqs
  import opened JsRegex

  // ---------------------------------------------------------------------------------------
  // 1. Unescaping
  // ---------------------------------------------------------------------------------------

  /** The two characters `\` and `n`, as they appear in text stored with escaped line breaks. */
  const ESCAPED_NEWLINE: string := "\\n"

  /** `content.replace(/\\n/g, '\n')`. */
  function Unescape(s: string): (r: string)
    ensures |r| <= |s|
  {
    if s == [] then []
    else if At(s, 0, ESCAPED_NEWLINE) then "\n" + Unescape(s[2..])
    else [s[0]] + Unescape(s[1..])
  }

  /** The inverse direction: every line break written as backslash-`n`. */
  function Escape(s: string): string {
    if s == [] then [] else (if s[0] == '\n' then ESCAPED_NEWLINE else [s[0]]) + Escape(s[1..])
  }

  /** The first character of an unescaped text. */
  lemma UnescapeHead(t: string)
    requires t != []
    ensures Unescape(t) != [] && Unescape(t)[0] == if At(t, 0, ESCAPED_NEWLINE) then '\n' else t[0]
  {
  }

  /** No backslash-`n` pair is left after unescaping (not even one formed by a leftover `\`). */
  lemma {:induction false} UnescapeLeavesNoEscapes(s: string)
    ensures forall i :: 0 <= i < |Unescape(s)| - 1 ==> !(Unescape(s)[i] == '\\' && Unescape(s)[i + 1] == 'n')
  {
    if s != [] {
      var skip := if At(s, 0, ESCAPED_NEWLINE) then 2 else 1;
      UnescapeLeavesNoEscapes(s[skip..]);
      var r := Unescape(s);
      var rest := Unescape(s[skip..]);
      assert r == [r[0]] + rest;
      forall i | 0 <= i < |r| - 1 ensures !(r[i] == '\\' && r[i + 1] == 'n') {
        if i > 0 {
          assert r[i] == rest[i - 1] && r[i + 1] == rest[i];
          assert 0 <= i - 1 < |rest| - 1;
        } else if r[0] == '\\' {
          assert skip == 1 && s[0] == '\\';
          assert s[1] != 'n' by {
            assert s[..2] == [s[0], s[1]];
          }
          UnescapeHead(s[1..]);
          assert r[1] == rest[0];
          assert rest[0] != 'n';
        } else {
          assert r[0] != '\\';
        }
      }
    }
  }

  /** Unescaping a text that holds no real line break can be undone. */
  lemma {:induction false} EscapeUnescape(s: string)
    requires '\n' !in s
    ensures Escape(Unescape(s)) == s
  {
    if s != [] {
      if At(s, 0, ESCAPED_NEWLINE) {
        EscapeUnescape(s[2..]);
        assert Unescape(s) == "\n" + Unescape(s[2..]);
        assert ("\n" + Unescape(s[2..]))[1..] == Unescape(s[2..]);
        assert s == ESCAPED_NEWLINE + s[2..];
      } else {
        EscapeUnescape(s[1..]);
        assert ([s[0]] + Unescape(s[1..]))[1..] == Unescape(s[1..]);
        assert s == [s[0]] + s[1..];
      }
    }
  }

  /** Unescaping a + "\n" + b when a starts with an escaped line break. */
  lemma UnescapeEscapedHead(a: string, b: string)
    requires At(a, 0, ESCAPED_NEWLINE)
    ensures Unescape(a + "\n" + b) == "\n" + Unescape(a[2..] + "\n" + b)
  {
    var s := a + "\n" + b;
    assert s[..2] == a[..2];
    assert s[2..] == a[2..] + "\n" + b;
  }

  /** Unescaping a + "\n" + b when a starts with an ordinary character. */
  lemma UnescapePlainHead(a: string, b: string)
    requires a != [] && !At(a, 0, ESCAPED_NEWLINE)
    ensures Unescape(a + "\n" + b) == [a[0]] + Unescape(a[1..] + "\n" + b)
  {
    var s := a + "\n" + b;
    assert !At(s, 0, ESCAPED_NEWLINE) by {
      if |a| >= 2 { assert s[..2] == a[..2]; } else { assert s[1] == '\n'; }
    }
    assert s[0] == a[0];
    assert s[1..] == a[1..] + "\n" + b;
  }

  /** Unescaping works piece by piece across a real line break. */
  lemma {:induction false} UnescapeAcrossBreak(a: string, b: string)
    ensures Unescape(a + "\n" + b) == Unescape(a) + "\n" + Unescape(b)
  {
    if a == [] {
      var s := a + "\n" + b;
      assert s == "\n" + b;
      NotAtHead(s, 0, ESCAPED_NEWLINE);
      assert s[1..] == b;
    } else {
      var head, rest := if At(a, 0, ESCAPED_NEWLINE) then "\n" else [a[0]],
                        if At(a, 0, ESCAPED_NEWLINE) then a[2..] else a[1..];
      if At(a, 0, ESCAPED_NEWLINE) {
        UnescapeEscapedHead(a, b);
      } else {
        UnescapePlainHead(a, b);
      }
      UnescapeAcrossBreak(rest, b);
      assert Unescape(a) == head + Unescape(rest);
      ConcatAssoc(head, Unescape(rest) + "\n", Unescape(b));
      ConcatAssoc(head, Unescape(rest), "\n");
    }
  }


  // ---------------------------------------------------------------------------------------
  // 2. Line breaks before headers and list items
  // ---------------------------------------------------------------------------------------

  /**
   * `s.replace(/([^\n])marker/g, '$1' + brk + marker)`: wherever a character other than a
   * line break is followed by `marker`, `brk` goes between them; the scan resumes after the
   * marker.
   */
  function BreakBefore(s: string, marker: string, brk: string): string
    decreases |s|
  {
    if s == [] then []
    else if s[0] != '\n' && At(s, 1, marker) then
      [s[0]] + brk + marker + BreakBefore(s[1 + |marker|..], marker, brk)
    else [s[0]] + BreakBefore(s[1..], marker, brk)
  }

  /** A blank line before every `###` that does not already start a line. */
  const HEADER_MARKER: string := "###"
  /** A line break before every `- ` that does not already start a line. */
  const LIST_MARKER: string := "- "

  /** Steps 1 and 2: the text that is split into blocks. */
  function Preprocess(content: string): string {
    BreakBefore(BreakBefore(Unescape(content), HEADER_MARKER, "\n\n"), LIST_MARKER, "\n")
  }

  /** The breaking passes only insert line breaks: with all line breaks deleted, nothing changed. */
  lemma {:induction false} BreakBeforeOnlyAddsBreaks(s: string, marker: string, brk: string)
    requires forall k :: 0 <= k < |brk| ==> brk[k] == '\n'
    ensures DeleteAll(BreakBefore(s, marker, brk), '\n') == DeleteAll(s, '\n')
    decreases |s|
  {
    if s != [] {
      BrkDeletes(brk);
      if s[0] != '\n' && At(s, 1, marker) {
        var rest := s[1 + |marker|..];
        BreakBeforeOnlyAddsBreaks(rest, marker, brk);
        assert s == [s[0]] + marker + rest;
        DeleteAllConcat([s[0]] + brk + marker, BreakBefore(rest, marker, brk), '\n');
        DeleteAllConcat([s[0]] + brk, marker, '\n');
        DeleteAllConcat([s[0]], brk, '\n');
        DeleteAllConcat([s[0]] + marker, rest, '\n');
        DeleteAllConcat([s[0]], marker, '\n');
      } else {
        BreakBeforeOnlyAddsBreaks(s[1..], marker, brk);
        DeleteAllConcat([s[0]], BreakBefore(s[1..], marker, brk), '\n');
        DeleteAllConcat([s[0]], s[1..], '\n');
        assert s == [s[0]] + s[1..];
      }
    }
  }

  /** A text made only of line breaks disappears when line breaks are deleted. */
  lemma {:induction false} BrkDeletes(brk: string)
    requires forall k :: 0 <= k < |brk| ==> brk[k] == '\n'
    ensures DeleteAll(brk, '\n') == []
  {
    if brk != [] {
      BrkDeletes(brk[1..]);
    }
  }

  /** Pre-processing as a whole leaves the text, line breaks aside, as unescaping made it. */
  lemma PreprocessOnlyAddsBreaks(content: string)
    ensures DeleteAll(Preprocess(content), '\n') == DeleteAll(Unescape(content), '\n')
  {
    var u := Unescape(content);
    BreakBeforeOnlyAddsBreaks(u, HEADER_MARKER, "\n\n");
    BreakBeforeOnlyAddsBreaks(BreakBefore(u, HEADER_MARKER, "\n\n"), LIST_MARKER, "\n");
  }

  /** A marker without line breaks is found after the first character of a + "\n" + b exactly when it is found there in a. */
  lemma AtAfterHead(a: string, b: string, marker: string)
    requires a != [] && '\n' !in marker
    ensures At(a + "\n" + b, 1, marker) <==> At(a, 1, marker)
  {
    var s := a + "\n" + b;
    if 1 + |marker| <= |a| {
      assert s[1..1 + |marker|] == a[1..1 + |marker|];
    } else if 1 + |marker| <= |s| {
      assert s[1..1 + |marker|][|a| - 1] == '\n';
    }
  }

  /** One step of the breaking pass over a + "\n" + b: what it writes for the first characters of a, and where it resumes. */
  lemma BreakBeforeHead(a: string, b: string, marker: string, brk: string)
    requires a != [] && '\n' !in marker
    ensures var hit := a[0] != '\n' && At(a, 1, marker);
            var head := if hit then [a[0]] + brk + marker else [a[0]];
            var next := if hit then 1 + |marker| else 1;
            next <= |a|
            && BreakBefore(a + "\n" + b, marker, brk) == head + BreakBefore(a[next..] + "\n" + b, marker, brk)
            && BreakBefore(a, marker, brk) == head + BreakBefore(a[next..], marker, brk)
  {
    var s := a + "\n" + b;
    assert s[0] == a[0];
    AtAfterHead(a, b, marker);
    if a[0] != '\n' && At(a, 1, marker) {
      assert s[1 + |marker|..] == a[1 + |marker|..] + "\n" + b;
    } else {
      assert s[1..] == a[1..] + "\n" + b;
    }
  }

  /** A marker without line breaks never reaches across one, so the passes work on each side. */
  lemma {:induction false} BreakBeforeAcrossBreak(a: string, b: string, marker: string, brk: string)
    requires '\n' !in marker
    ensures BreakBefore(a + "\n" + b, marker, brk) == BreakBefore(a, marker, brk) + "\n" + BreakBefore(b, marker, brk)
    decreases |a|
  {
    if a == [] {
      var s := a + "\n" + b;
      assert s == "\n" + b && s[1..] == b;
    } else {
      var hit := a[0] != '\n' && At(a, 1, marker);
      var head := if hit then [a[0]] + brk + marker else [a[0]];
      var next := if hit then 1 + |marker| else 1;
      BreakBeforeHead(a, b, marker, brk);
      var rest := a[next..];
      BreakBeforeAcrossBreak(rest, b, marker, brk);
      ConcatAssoc(head, BreakBefore(rest, marker, brk) + "\n", BreakBefore(b, marker, brk));
      ConcatAssoc(head, BreakBefore(rest, marker, brk), "\n");
    }
  }


  // ---------------------------------------------------------------------------------------
  // 3. Blocks
  // ---------------------------------------------------------------------------------------

  /** The end of the run of line breaks that starts at i. */
  function RunEnd(s: string, i: nat): (j: nat)
    requires i <= |s|
    ensures i <= j <= |s| && (j == |s| || s[j] != '\n')
    ensures forall k :: i <= k < j ==> s[k] == '\n'
    decreases |s| - i
  {
    if i < |s| && s[i] == '\n' then RunEnd(s, i + 1) else i
  }

  /** `s.split(/\n+/)`: the pieces between runs of line breaks (empty at a leading or trailing run). */
  function SplitRuns(s: string): (r: seq<string>)
    ensures |r| >= 1
    ensures forall k :: 0 <= k < |r| ==> '\n' !in r[k]
    decreases |s|
  {
    if '\n' !in s then [s]
    else
      var i := FirstIndex(s, '\n');
      [s[..i]] + SplitRuns(s[RunEnd(s, i)..])
  }

  predicate NonEmpty(t: string) {
    t != ""
  }

  /** Trim each piece and drop the ones left empty. */
  function KeepBlocks(pieces: seq<string>): seq<string> {
    Filter(Map(Trim, pieces), NonEmpty)
  }

  /** The kept blocks are non-empty and trimmed. */
  lemma KeepBlocksTrimmed(pieces: seq<string>)
    ensures forall k :: 0 <= k < |KeepBlocks(pieces)| ==> KeepBlocks(pieces)[k] != "" && IsTrimmed(KeepBlocks(pieces)[k])
  {
    var trimmed := Map(Trim, pieces);
    var r := KeepBlocks(pieces);
    forall k | 0 <= k < |r| ensures r[k] != "" && IsTrimmed(r[k]) {
      assert r[k] in r;
      var j :| 0 <= j < |trimmed| && trimmed[j] == r[k];
      assert r[k] == Trim(pieces[j]);
    }
  }

  /** The texts of the rendered blocks, in order. */
  function Blocks(s: string): seq<string> {
    KeepBlocks(SplitRuns(s))
  }

  lemma KeepBlocksConcat(a: seq<string>, b: seq<string>)
    ensures KeepBlocks(a + b) == KeepBlocks(a) + KeepBlocks(b)
  {
    MapConcat(Trim, a, b);
    FilterConcat(Map(Trim, a), Map(Trim, b), NonEmpty);
  }

  /** Empty pieces are all dropped. */
  lemma KeepBlocksOfEmpties(n: nat)
    ensures KeepBlocks(Empties(n)) == []
  {
    TrimOfTrimmed("");
    FilterDropsAll(Map(Trim, Empties(n)), NonEmpty);
  }

  /** Leading line breaks only add empty pieces, which are dropped. */
  lemma KeepBlocksLeadingBreaks(t: string, n: nat)
    requires n <= |t| && forall k :: 0 <= k < n ==> t[k] == '\n'
    ensures KeepBlocks(SplitOn(t, '\n')) == KeepBlocks(SplitOn(t[n..], '\n'))
  {
    SplitOnLeadingRun(t, '\n', n);
    KeepBlocksConcat(Empties(n), SplitOn(t[n..], '\n'));
    KeepBlocksOfEmpties(n);
  }

  /** Splitting on runs or on single line breaks gives the same blocks once empty pieces are dropped. */
  lemma {:induction false} BlocksBySingleBreaks(s: string)
    ensures Blocks(s) == KeepBlocks(SplitOn(s, '\n'))
    decreases |s|
  {
    if '\n' in s {
      var i := FirstIndex(s, '\n');
      var j := RunEnd(s, i);
      BlocksBySingleBreaks(s[j..]);
      SplitRunsStep(s);
      KeepBlocksConcat([s[..i]], SplitRuns(s[j..]));
      SkipRun(s, i, j);
      KeepBlocksConcat([s[..i]], SplitOn(s[i + 1..], '\n'));
    }
  }

  lemma SplitRunsStep(s: string)
    requires '\n' in s
    ensures var i := FirstIndex(s, '\n');
      SplitRuns(s) == [s[..i]] + SplitRuns(s[RunEnd(s, i)..])
      && SplitOn(s, '\n') == [s[..i]] + SplitOn(s[i + 1..], '\n')
  {
  }

  lemma SkipRun(s: string, i: nat, j: nat)
    requires i < j <= |s| && forall k :: i <= k < j ==> s[k] == '\n'
    ensures KeepBlocks(SplitOn(s[i + 1..], '\n')) == KeepBlocks(SplitOn(s[j..], '\n'))
  {
    var t := s[i + 1..];
    var n := j - i - 1;
    assert n <= |t|;
    forall k | 0 <= k < n ensures t[k] == '\n' {
      assert t[k] == s[i + 1 + k];
    }
    assert t[n..] == s[j..];
    KeepBlocksLeadingBreaks(t, n);
  }

  /** Splitting a + "\n" + b at the first line break of a. */
  lemma SplitOnFirstBreak(a: string, b: string, i: nat)
    requires '\n' in a && i == FirstIndex(a, '\n')
    ensures i < |a|
    ensures SplitOn(a + "\n" + b, '\n') == [a[..i]] + SplitOn(a[i + 1..] + "\n" + b, '\n')
  {
    var s := a + "\n" + b;
    assert s[..i] == a[..i] && s[i] == a[i];
    assert s[i + 1..] == a[i + 1..] + "\n" + b;
    SplitOnAt(s, '\n', i);
  }

  /** Splitting a + "\n" + b when a has no line break. */
  lemma SplitOnAddedBreak(a: string, b: string)
    requires '\n' !in a
    ensures SplitOn(a + "\n" + b, '\n') == [a] + SplitOn(b, '\n')
  {
    var s := a + "\n" + b;
    assert s[..|a|] == a && s[|a|] == '\n';
    assert s[|a| + 1..] == b;
    SplitOnAt(s, '\n', |a|);
  }

  /** Splitting on line breaks works piece by piece across a line break. */
  lemma {:induction false} SplitOnAcrossBreak(a: string, b: string)
    ensures SplitOn(a + "\n" + b, '\n') == SplitOn(a, '\n') + SplitOn(b, '\n')
    decreases |a|
  {
    if '\n' in a {
      var i := FirstIndex(a, '\n');
      var head, tail := a[..i], a[i + 1..];
      SplitOnFirstBreak(a, b, i);
      SplitOnAcrossBreak(tail, b);
      SplitOnAt(a, '\n', i);
      ConcatAssoc([head], SplitOn(tail, '\n'), SplitOn(b, '\n'));
    } else {
      SplitOnAddedBreak(a, b);
    }
  }

  /** The blocks of two texts joined by a line break are the blocks of each, in order. */
  lemma BlocksAcrossBreak(a: string, b: string)
    ensures Blocks(a + "\n" + b) == Blocks(a) + Blocks(b)
  {
    BlocksBySingleBreaks(a + "\n" + b);
    BlocksBySingleBreaks(a);
    BlocksBySingleBreaks(b);
    SplitOnAcrossBreak(a, b);
    KeepBlocksConcat(SplitOn(a, '\n'), SplitOn(b, '\n'));
  }

  // ---------------------------------------------------------------------------------------
  // 4. Inline formatting
  // ---------------------------------------------------------------------------------------

  /**
   * `s.replace(/open(.*?)close/g, left + '$1' + right)`: every match of a lazy pattern
   * between two literals, scanning left to right, becomes its inner text between `left`
   * and `right`.
   */
  function EncloseAll(s: string, open: string, close: string, left: string, right: string): string
    requires |open| > 0
    decreases |s|
  {
    if s == [] then []
    else match MatchEnd(s, 0, open, close)
      case Some(e) => left + s[|open|..e - |close|] + right + EncloseAll(s[e..], open, close, left, right)
      case None => [s[0]] + EncloseAll(s[1..], open, close, left, right)
  }

  /** Where a `[text](url)` link that starts at s[0] has its `](` and its end. */
  datatype LinkSpan = LinkSpan(textEnd: nat, end: nat)

  /**
   * The lazy search of `\[(.*?)\]\((.*?)\)` from a `[` at s[0]: the text part is tried
   * shortest first, and for each length the url part must close with `)` on the same line.
   */
  function LinkSearch(s: string, k: nat): (r: Option<LinkSpan>)
    requires 1 <= k <= |s|
    ensures r.Some? ==> k <= r.value.textEnd && r.value.textEnd + 3 <= r.value.end <= |s|
    decreases |s| - k
  {
    if At(s, k, "](") && LazyStop(s, k + 2, ")").Some? then
      Some(LinkSpan(k, LazyStop(s, k + 2, ")").value + 1))
    else if k == |s| || IsLineTerminator(s[k]) then None
    else LinkSearch(s, k + 1)
  }

  function LinkAt(s: string): (r: Option<LinkSpan>)
    requires s != []
    ensures r.Some? ==> 1 <= r.value.textEnd && r.value.textEnd + 3 <= r.value.end <= |s|
  {
    if s[0] == '[' then LinkSearch(s, 1) else None
  }

  /** The parts of a link's anchor around its url and its text (the source's literals, written in pieces). */
  const ANCHOR_OPEN: string := "<a href=" + "\""
  const ANCHOR_ATTRS: string := "\" target=" + "\"_blank\"" + " rel=" + "\"noopener " + "noreferrer\""
                                + " class=" + "\"text-" + "primary " + "hover:" + "underline\"" + ">"
  const ANCHOR_CLOSE: string := "</a>"

  /** The anchor a link becomes. */
  function Anchor(text: string, url: string): string {
    ANCHOR_OPEN + url + ANCHOR_ATTRS + text + ANCHOR_CLOSE
  }

  /** `s.replace(/\[(.*?)\]\((.*?)\)/g, anchor)`. */
  function LinkAll(s: string): string
    decreases |s|
  {
    if s == [] then []
    else match LinkAt(s)
      case Some(sp) => Anchor(s[1..sp.textEnd], s[sp.textEnd + 2..sp.end - 1]) + LinkAll(s[sp.end..])
      case None => [s[0]] + LinkAll(s[1..])
  }

  /** Bold first, then italics, then links. */
  function Inline(text: string): string {
    var bold := EncloseAll(text, "**", "**", "<strong>", "</strong>");
    var italic := EncloseAll(bold, "*", "*", "<em>", "</em>");
    LinkAll(italic)
  }

  /** Where the pattern does not match at the head, the head character is copied. */
  lemma EncloseAllCopiesHead(s: string, open: string, close: string, left: string, right: string)
    requires |open| > 0 && s != [] && !At(s, 0, open)
    ensures EncloseAll(s, open, close, left, right) == [s[0]] + EncloseAll(s[1..], open, close, left, right)
  {
  }

  /** Where the pattern matches at the head, its inner text is enclosed. */
  lemma EncloseAllEnclosesHead(s: string, open: string, close: string, left: string, right: string, e: nat)
    requires |open| > 0 && MatchEnd(s, 0, open, close) == Some(e)
    ensures |open| + |close| <= e <= |s|
    ensures EncloseAll(s, open, close, left, right)
            == left + s[|open|..e - |close|] + right + EncloseAll(s[e..], open, close, left, right)
  {
  }

  /** A stretch without the pattern's first character is copied as it is. */
  lemma {:induction false} EncloseAllSkips(x: string, y: string, open: string, close: string, left: string, right: string)
    requires |open| > 0 && open[0] !in x
    ensures EncloseAll(x + y, open, close, left, right) == x + EncloseAll(y, open, close, left, right)
    decreases |x|
  {
    if x != [] {
      var s := x + y;
      assert s[0] == x[0] && s[1..] == x[1..] + y;
      NotAtHead(s, 0, open);
      EncloseAllCopiesHead(s, open, close, left, right);
      EncloseAllSkips(x[1..], y, open, close, left, right);
      ConcatAssoc([x[0]], x[1..], EncloseAll(y, open, close, left, right));
      assert [x[0]] + x[1..] == x;
    } else {
      assert x + y == y;
    }
  }

  /** A text without the pattern's first character is left unchanged. */
  lemma EncloseAllPlain(s: string, open: string, close: string, left: string, right: string)
    requires |open| > 0 && open[0] !in s
    ensures EncloseAll(s, open, close, left, right) == s
  {
    EncloseAllSkips(s, [], open, close, left, right);
    assert s + [] == s;
  }

  /** Where the head is not `[`, the head character is copied. */
  lemma LinkAllCopiesHead(s: string)
    requires s != [] && s[0] != '['
    ensures LinkAll(s) == [s[0]] + LinkAll(s[1..])
  {
  }

  /** A text without `[` has no links. */
  lemma {:induction false} LinkAllPlain(s: string)
    requires '[' !in s
    ensures LinkAll(s) == s
    decreases |s|
  {
    if s != [] {
      LinkAllCopiesHead(s);
      LinkAllPlain(s[1..]);
      assert s == [s[0]] + s[1..];
    }
  }

  /** Text with none of `*`, `[` is not formatted at all. */
  lemma InlinePlain(text: string)
    requires '*' !in text && '[' !in text
    ensures Inline(text) == text
  {
    EncloseAllPlain(text, "**", "**", "<strong>", "</strong>");
    EncloseAllPlain(text, "*", "*", "<em>", "</em>");
    LinkAllPlain(text);
  }

  /** A plain stretch between two `open`s: the lazy pattern closes right after it. */
  lemma EnclosedOnce(x: string, d: string)
    requires |d| > 0 && d[0] !in x
    requires forall m :: 0 <= m < |x| ==> !IsLineTerminator(x[m])
    ensures MatchEnd(d + x + d, 0, d, d) == Some(|d| + |x| + |d|)
  {
    var s := d + x + d;
    assert s[..|d|] == d;
    assert s[|d| + |x|..] == d;
    forall k | |d| <= k < |d| + |x| ensures !At(s, k, d) {
      assert s[k] == x[k - |d|];
    }
    forall m | |d| <= m < |d| + |x| ensures !IsLineTerminator(s[m]) {
      assert s[m] == x[m - |d|];
    }
    LazyStopAt(s, |d|, d, |d| + |x|);
  }

  /** A plain stretch between two delimiters becomes `left + x + right`. */
  lemma EncloseOnce(x: string, d: string, left: string, right: string)
    requires |d| > 0 && d[0] !in x
    requires forall m :: 0 <= m < |x| ==> !IsLineTerminator(x[m])
    ensures EncloseAll(d + x + d, d, d, left, right) == left + x + right
  {
    var s := d + x + d;
    var e := |d| + |x| + |d|;
    EnclosedOnce(x, d);
    EncloseAllEnclosesHead(s, d, d, left, right, e);
    assert s[|d|..e - |d|] == x;
    assert s[e..] == [];
  }

  /** `**x**` becomes `<strong>x</strong>` when x is plain text on one line. */
  lemma InlineStrong(x: string)
    requires '*' !in x && '[' !in x
    requires forall m :: 0 <= m < |x| ==> !IsLineTerminator(x[m])
    ensures Inline("**" + x + "**") == "<strong>" + x + "</strong>"
  {
    var bold := "<strong>" + x + "</strong>";
    EncloseOnce(x, "**", "<strong>", "</strong>");
    assert '*' !in bold && '[' !in bold;
    EncloseAllPlain(bold, "*", "*", "<em>", "</em>");
    LinkAllPlain(bold);
  }

  /** A single `*` before a non-`*` does not open bold, so `*x*` is untouched by the bold pass. */
  lemma EmphasisNotBold(x: string)
    requires x != [] && '*' !in x
    ensures EncloseAll("*" + x + "*", "**", "**", "<strong>", "</strong>") == "*" + x + "*"
  {
    var s := "*" + x + "*";
    assert s[1..] == x + "*";
    assert !At(s, 0, "**") by {
      assert s[1] == x[0];
    }
    EncloseAllCopiesHead(s, "**", "**", "<strong>", "</strong>");
    EncloseAllSkips(x, "*", "**", "**", "<strong>", "</strong>");
    EncloseAllCopiesHead("*", "**", "**", "<strong>", "</strong>");
    assert "*"[1..] == [];
    assert s == [s[0]] + (x + "*");
  }

  /** `*x*` becomes `<em>x</em>` when x is plain text on one line. */
  lemma InlineEmphasis(x: string)
    requires x != [] && '*' !in x && '[' !in x
    requires forall m :: 0 <= m < |x| ==> !IsLineTerminator(x[m])
    ensures Inline("*" + x + "*") == "<em>" + x + "</em>"
  {
    var em := "<em>" + x + "</em>";
    EmphasisNotBold(x);
    EncloseOnce(x, "*", "<em>", "</em>");
    assert '[' !in em;
    LinkAllPlain(em);
  }

  /** Read as italics, a leading `**` is an empty emphasis. */
  lemma EmptyEmphasis(y: string)
    ensures EncloseAll("**" + y, "*", "*", "<em>", "</em>") == "<em></em>" + EncloseAll(y, "*", "*", "<em>", "</em>")
  {
    var s := "**" + y;
    assert s[..1] == "*" && s[1..2] == "*";
    LazyStopAt(s, 1, "*", 1);
    EncloseAllEnclosesHead(s, "*", "*", "<em>", "</em>", 2);
    assert s[1..1] == [] && s[2..] == y;
    assert "<em>" + [] + "</em>" == "<em></em>";
  }

  /**
   * Why bold goes first: read as italics, `**x**` would be an empty `<em></em>` on each side
   * of x instead of bold x.
   */
  lemma ItalicsFirstWouldDiffer(x: string)
    requires '*' !in x
    ensures EncloseAll("**" + x + "**", "*", "*", "<em>", "</em>") == "<em></em>" + x + "<em></em>"
  {
    assert "**" + x + "**" == "**" + (x + "**");
    EmptyEmphasis(x + "**");
    EncloseAllSkips(x, "**", "*", "*", "<em>", "</em>");
    EmptyEmphasis([]);
    assert "**" + [] == "**";
  }

  /** The link search skips a text part that holds no `]` and no line terminator. */
  lemma {:induction false} LinkSearchSkips(s: string, k: nat, textEnd: nat)
    requires 1 <= k <= textEnd < |s|
    requires forall m :: k <= m < textEnd ==> s[m] != ']' && !IsLineTerminator(s[m])
    requires LinkSearch(s, textEnd).Some?
    ensures LinkSearch(s, k) == LinkSearch(s, textEnd)
    decreases textEnd - k
  {
    if k < textEnd {
      NotAtHead(s, k, "](");
      LinkSearchSkips(s, k + 1, textEnd);
    }
  }

  /** In `[t](u)`, the link search finds the `](` right after t and the `)` right after u. */
  lemma LinkFound(t: string, u: string)
    requires ']' !in t && ')' !in u
    requires forall m :: 0 <= m < |t| ==> !IsLineTerminator(t[m])
    requires forall m :: 0 <= m < |u| ==> !IsLineTerminator(u[m])
    ensures var s := "[" + t + "](" + u + ")";
      LinkAt(s) == Some(LinkSpan(1 + |t|, |s|))
  {
    var s := "[" + t + "](" + u + ")";
    var b := 1 + |t|;
    assert s[b..b + 2] == "](";
    forall k | b + 2 <= k < b + 2 + |u| ensures !At(s, k, ")") && !IsLineTerminator(s[k]) {
      assert s[k] == u[k - b - 2];
      NotAtHead(s, k, ")");
    }
    assert s[b + 2 + |u|..b + 3 + |u|] == ")";
    LazyStopAt(s, b + 2, ")", b + 2 + |u|);
    assert LinkSearch(s, b) == Some(LinkSpan(b, b + 3 + |u|));
    forall m | 1 <= m < b ensures s[m] != ']' && !IsLineTerminator(s[m]) {
      assert s[m] == t[m - 1];
    }
    LinkSearchSkips(s, 1, b);
  }

  /** `[t](u)` becomes an anchor to u showing t, when t and u are plain text on one line. */
  lemma InlineLink(t: string, u: string)
    requires '*' !in t && '[' !in t && ']' !in t
    requires '*' !in u && '[' !in u && ')' !in u
    requires forall m :: 0 <= m < |t| ==> !IsLineTerminator(t[m])
    requires forall m :: 0 <= m < |u| ==> !IsLineTerminator(u[m])
    ensures Inline("[" + t + "](" + u + ")") == Anchor(t, u)
  {
    var s := "[" + t + "](" + u + ")";
    assert '*' !in s;
    EncloseAllPlain(s, "**", "**", "<strong>", "</strong>");
    EncloseAllPlain(s, "*", "*", "<em>", "</em>");
    LinkFound(t, u);
    var b := 1 + |t|;
    assert s[1..b] == t;
    assert s[b + 2..|s| - 1] == u;
    assert s[|s|..] == [];
    assert LinkAll(s) == Anchor(s[1..b], s[b + 2..|s| - 1]) + LinkAll([]);
  }

  // ---------------------------------------------------------------------------------------
  // 5. Rendering
  // ---------------------------------------------------------------------------------------

  /** A rendered block: a header's text, or the inner HTML of a list item or a paragraph. */
  datatype Block = Header(text: string) | ListItem(html: string) | Paragraph(html: string)

  const HEADER_PREFIX: string := "### "
  const LIST_PREFIX: string := "- "

  /** What a block becomes: the header test comes first, then the list test. */
  function Classify(text: string): (b: Block)
    ensures StartsWith(text, HEADER_PREFIX) <==> b.Header?
    ensures b.Header? ==> text == HEADER_PREFIX + b.text
    ensures b.ListItem? <==> !StartsWith(text, HEADER_PREFIX) && StartsWith(text, LIST_PREFIX)
    ensures b.ListItem? ==> b.html == Inline(text[|LIST_PREFIX|..])
    ensures b.Paragraph? ==> b.html == Inline(text)
  {
    if StartsWith(text, HEADER_PREFIX) then
      assert text == text[..4] + text[4..];
      Header(text[|HEADER_PREFIX|..])
    else if StartsWith(text, LIST_PREFIX) then ListItem(Inline(text[|LIST_PREFIX|..]))
    else Paragraph(Inline(text))
  }

  /** The rendered blocks of a post's content, in order. */
  function Render(content: string): (r: seq<Block>)
    ensures |r| == |Blocks(Preprocess(content))|
    ensures forall k :: 0 <= k < |r| ==> r[k] == Classify(Blocks(Preprocess(content))[k])
  {
    Map(Classify, Blocks(Preprocess(content)))
  }

  /** Pre-processing works piece by piece across a line break. */
  lemma PreprocessAcrossBreak(a: string, b: string)
    ensures Preprocess(a + "\n" + b) == Preprocess(a) + "\n" + Preprocess(b)
  {
    UnescapeAcrossBreak(a, b);
    var ua, ub := Unescape(a), Unescape(b);
    BreakBeforeAcrossBreak(ua, ub, HEADER_MARKER, "\n\n");
    var ha, hb := BreakBefore(ua, HEADER_MARKER, "\n\n"), BreakBefore(ub, HEADER_MARKER, "\n\n");
    BreakBeforeAcrossBreak(ha, hb, LIST_MARKER, "\n");
  }

  /** Two parts of a content joined by a line break render as the blocks of each, in order. */
  lemma RenderAcrossBreak(a: string, b: string)
    ensures Render(a + "\n" + b) == Render(a) + Render(b)
  {
    PreprocessAcrossBreak(a, b);
    var pa, pb := Preprocess(a), Preprocess(b);
    BlocksAcrossBreak(pa, pb);
    MapConcat(Classify, Blocks(pa), Blocks(pb));
  }
}
