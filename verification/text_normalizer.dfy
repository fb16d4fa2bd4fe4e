/**
 * `stripHtmlToText` of the RSS ingestion service: a fixed chain of global
 * regular-expression replacements that turns an HTML fragment into plain
 * text.
 *
 * Every regular expression in the chain can only match a non-empty string,
 * and `s.replace(/re/g, rep)` then scans `s` left to right: where `re`
 * matches at the current position the match is replaced by `rep` and the
 * scan resumes after it, otherwise one character is copied. `Rewrite` is
 * that scan; each regular expression is given as a matcher, a function that
 * returns the length of the match anchored at the start of its argument (0
 * when there is none).
 */
module TextNormalizer {
  import opened Wrappers

  // ---------------------------------------------------------------------
  // Character classes
  // ---------------------------------------------------------------------

  /** `\s` of a JavaScript regular expression; also what `trim` removes. */
  predicate IsJsSpace(c: char) {
    c == '\t' || c == '\n' || c == '\U{B}' || c == '\U{C}' || c == '\r' || c == ' '
    || c == '\U{A0}' || c == '\U{1680}' || ('\U{2000}' <= c <= '\U{200A}')
    || c == '\U{2028}' || c == '\U{2029}' || c == '\U{202F}' || c == '\U{205F}'
    || c == '\U{3000}' || c == '\U{FEFF}'
  }

  /** The class `[\t ]`. */
  predicate IsBlank(c: char) {
    c == '\t' || c == ' '
  }

  predicate IsNewline(c: char) {
    c == '\n'
  }

  /** `\d` without the `u` flag. */
  predicate IsAsciiDigit(c: char) {
    '0' <= c <= '9'
  }

  predicate IsNotGt(c: char) {
    c != '>'
  }

  /**
   * Case folding of the `i` flag without the `u` flag: only ASCII letters
   * fold, since no non-ASCII character folds onto an ASCII one there.
   */
  function Lower(c: char): char {
    if 'A' <= c <= 'Z' then (c as int + 32) as char else c
  }

  /** `s` starts with the lower-case pattern `p`, ignoring ASCII case. */
  predicate StartsWithCI(s: string, p: string) {
    |p| <= |s| && forall i :: 0 <= i < |p| ==> Lower(s[i]) == p[i]
  }

  /** Length of the longest prefix of `s` whose characters all satisfy `p`. */
  function Run(s: string, p: char -> bool): (n: nat)
    ensures n <= |s|
    ensures forall i :: 0 <= i < n ==> p(s[i])
    ensures n < |s| ==> !p(s[n])
  {
    if s != [] && p(s[0]) then 1 + Run(s[1..], p) else 0
  }

  /** The first position at or after `from` where the pattern `p` starts, ignoring ASCII case. */
  function FindCI(s: string, p: string, from: nat): (r: Option<nat>)
    requires from <= |s|
    decreases |s| - from
    ensures r.Some? ==> from <= r.value && r.value + |p| <= |s| && StartsWithCI(s[r.value..], p)
    ensures r.Some? ==> forall k :: from <= k < r.value ==> !StartsWithCI(s[k..], p)
    ensures r.None? ==> forall k :: from <= k <= |s| ==> !StartsWithCI(s[k..], p)
  {
    if from + |p| > |s| then None
    else if StartsWithCI(s[from..], p) then Some(from)
    else FindCI(s, p, from + 1)
  }

  // ---------------------------------------------------------------------
  // Global replacement
  // ---------------------------------------------------------------------

  /** `s.replace(/re/g, rep)` where `m` gives the length of a match of `re` at the start of its argument. */
  function Rewrite(s: string, m: string -> nat, rep: string): string
    decreases |s|
  {
    if s == [] then []
    else
      var n := m(s);
      if 0 < n <= |s| then rep + Rewrite(s[n..], m, rep)
      else [s[0]] + Rewrite(s[1..], m, rep)
  }

  // ---------------------------------------------------------------------
  // The regular expressions of the chain, as matchers
  // ---------------------------------------------------------------------

  /**
   * `<name[\s\S]*?<\/name>` with the `i` flag: the opening `open` (`<name`),
   * then the shortest stretch up to the first closing `close` (`</name>`).
   */
  function ElementMatch(s: string, open: string, close: string): (n: nat)
    ensures n <= |s|
    ensures n > 0 ==> StartsWithCI(s, open)
    ensures n > 0 ==> |open| + |close| <= n && StartsWithCI(s[n - |close|..], close)
  {
    if StartsWithCI(s, open) then
      match FindCI(s, close, |open|)
      case Some(j) => j + |close|
      case None => 0
    else 0
  }

  /** `/<script[\s\S]*?<\/script>/gi` */
  function ScriptMatch(s: string): (n: nat)
    ensures n <= |s|
    ensures n > 0 ==> 2 <= |s| && s[0] == '<' && Lower(s[1]) == 's'
    ensures n > 0 ==> StartsWithCI(s, "<script")
    ensures n > 0 ==> 16 <= n && StartsWithCI(s[n - 9..], "</script>")
  {
    ElementMatch(s, "<script", "</script>")
  }

  /** `/<style[\s\S]*?<\/style>/gi` */
  function StyleMatch(s: string): (n: nat)
    ensures n <= |s|
    ensures n > 0 ==> 2 <= |s| && s[0] == '<' && Lower(s[1]) == 's'
    ensures n > 0 ==> StartsWithCI(s, "<style")
    ensures n > 0 ==> 14 <= n && StartsWithCI(s[n - 8..], "</style>")
  {
    ElementMatch(s, "<style", "</style>")
  }

  /** `/<\/(p|div|h\d|li|blockquote|section|article|header|footer)>/gi` */
  function BlockCloseMatch(s: string): (n: nat)
    ensures n <= |s|
    ensures n > 0 ==> 2 <= |s| && s[0] == '<' && Lower(s[1]) == '/'
  {
    if |s| < 4 || s[0] != '<' || s[1] != '/' then 0
    else
      // the alternatives differ in their first letter, except h\d and header
      var c := Lower(s[2]);
      if c == 'p' then (if StartsWithCI(s, "</p>") then 4 else 0)
      else if c == 'd' then (if StartsWithCI(s, "</div>") then 6 else 0)
      else if c == 'h' then
        if 5 <= |s| && IsAsciiDigit(s[3]) && s[4] == '>' then 5
        else if StartsWithCI(s, "</header>") then 9
        else 0
      else if c == 'l' then (if StartsWithCI(s, "</li>") then 5 else 0)
      else if c == 'b' then (if StartsWithCI(s, "</blockquote>") then 13 else 0)
      else if c == 's' then (if StartsWithCI(s, "</section>") then 10 else 0)
      else if c == 'a' then (if StartsWithCI(s, "</article>") then 10 else 0)
      else if c == 'f' then (if StartsWithCI(s, "</footer>") then 9 else 0)
      else 0
  }

  /** `/<br\s*\/?>(\n)?/gi`: a line-break tag, and one newline right after it. */
  function BrMatch(s: string): (n: nat)
    ensures n <= |s|
    ensures n > 0 ==> 2 <= |s| && s[0] == '<' && Lower(s[1]) == 'b'
  {
    if !StartsWithCI(s, "<br") then 0
    else BrClose(s, SkipSlash(s, 3 + Run(s[3..], IsJsSpace)))
  }

  /** `\/?`: past an optional slash at `k`. */
  function SkipSlash(s: string, k: nat): (r: nat)
    requires k <= |s|
    ensures k <= r <= |s|
  {
    if k < |s| && s[k] == '/' then k + 1 else k
  }

  /** `>(\n)?`: the end of a line-break tag whose '>' is expected at `k`, or 0. */
  function BrClose(s: string, k: nat): (n: nat)
    requires k <= |s|
    ensures n == 0 || k < n <= |s|
  {
    if k < |s| && s[k] == '>' then
      if k + 1 < |s| && s[k + 1] == '\n' then k + 2 else k + 1
    else 0
  }

  /** `/<[^>]+>/g`: any remaining tag. */
  function TagMatch(s: string): (n: nat)
    ensures n <= |s|
    ensures n > 0 ==> s[0] == '<'
  {
    if s != [] && s[0] == '<' then
      var k := Run(s[1..], IsNotGt);
      if 0 < k && k + 1 < |s| then k + 2 else 0
    else 0
  }

  /** A literal pattern such as `/&amp;/g`. */
  function LiteralMatch(pattern: string): string -> nat {
    s => if pattern <= s then |pattern| else 0
  }

  /** `/[\t ]+/g` */
  function BlankMatch(s: string): (n: nat)
    ensures n <= |s|
    ensures n > 0 ==> IsBlank(s[0])
  {
    Run(s, IsBlank)
  }

  /** `/\n{3,}/g` */
  function NewlinesMatch(s: string): (n: nat)
    ensures n <= |s|
    ensures n == 0 || n >= 3
    ensures n > 0 ==> 3 <= |s| && s[0] == '\n' && s[1] == '\n' && s[2] == '\n'
  {
    var k := Run(s, IsNewline);
    if k >= 3 then k else 0
  }

  // ---------------------------------------------------------------------
  // The stages
  // ---------------------------------------------------------------------

  /** Script elements, then style elements, are deleted. */
  function RemoveScriptsAndStyles(html: string): (r: string)
    ensures |r| <= |html|
  {
    RewriteNoLonger(html, ScriptMatch, "");
    RewriteNoLonger(Rewrite(html, ScriptMatch, ""), StyleMatch, "");
    Rewrite(Rewrite(html, ScriptMatch, ""), StyleMatch, "")
  }

  /** Each closing block tag becomes one newline. */
  function BlockCloseToNewline(s: string): (r: string)
    ensures |r| <= |s|
  {
    RewriteNoLonger(s, BlockCloseMatch, "\n");
    Rewrite(s, BlockCloseMatch, "\n")
  }

  /** Each line-break tag, with one newline after it, becomes one newline. */
  function BreakToNewline(s: string): (r: string)
    ensures |r| <= |s|
  {
    RewriteNoLonger(s, BrMatch, "\n");
    Rewrite(s, BrMatch, "\n")
  }

  /** Every remaining tag is deleted. */
  function RemoveTags(s: string): (r: string)
    ensures |r| <= |s|
  {
    RewriteNoLonger(s, TagMatch, "");
    Rewrite(s, TagMatch, "")
  }

  /** The six entities, decoded one after the other in this order. */
  function DecodeEntities(s: string): (r: string)
    ensures |r| <= |s|
  {
    var s1 := Rewrite(s, LiteralMatch("&nbsp;"), " ");
    RewriteNoLonger(s, LiteralMatch("&nbsp;"), " ");
    var s2 := Rewrite(s1, LiteralMatch("&amp;"), "&");
    RewriteNoLonger(s1, LiteralMatch("&amp;"), "&");
    var s3 := Rewrite(s2, LiteralMatch("&quot;"), "\"");
    RewriteNoLonger(s2, LiteralMatch("&quot;"), "\"");
    var s4 := Rewrite(s3, LiteralMatch("&#39;"), "'");
    RewriteNoLonger(s3, LiteralMatch("&#39;"), "'");
    var s5 := Rewrite(s4, LiteralMatch("&lt;"), "<");
    RewriteNoLonger(s4, LiteralMatch("&lt;"), "<");
    RewriteNoLonger(s5, LiteralMatch("&gt;"), ">");
    Rewrite(s5, LiteralMatch("&gt;"), ">")
  }

  /** Each run of tabs and spaces becomes one space. */
  function CollapseBlanks(s: string): (r: string)
    ensures |r| <= |s|
  {
    RewriteNoLonger(s, BlankMatch, " ");
    Rewrite(s, BlankMatch, " ")
  }

  /** Each run of three or more newlines becomes two. */
  function CapNewlines(s: string): (r: string)
    ensures |r| <= |s|
  {
    RewriteNoLonger(s, NewlinesMatch, "\n\n");
    Rewrite(s, NewlinesMatch, "\n\n")
  }

  /** `String.prototype.trimStart` */
  function TrimStart(s: string): (r: string)
    ensures |r| <= |s| && r == s[|s| - |r|..]
    ensures r == [] || !IsJsSpace(r[0])
    ensures forall i :: 0 <= i < |s| - |r| ==> IsJsSpace(s[i])
  {
    if s != [] && IsJsSpace(s[0]) then TrimStart(s[1..]) else s
  }

  /** `String.prototype.trimEnd` */
  function TrimEnd(s: string): (r: string)
    ensures |r| <= |s| && r == s[..|r|]
    ensures r == [] || !IsJsSpace(r[|r| - 1])
    ensures forall i :: |r| <= i < |s| ==> IsJsSpace(s[i])
  {
    if s != [] && IsJsSpace(s[|s| - 1]) then TrimEnd(s[..|s| - 1]) else s
  }

  /** `String.prototype.trim`: the text between the leading and the trailing whitespace. */
  function Trim(s: string): (r: string)
    ensures |r| <= |s|
    ensures r == [] || (!IsJsSpace(r[0]) && !IsJsSpace(r[|r| - 1]))
    ensures s == [] || (!IsJsSpace(s[0]) && !IsJsSpace(s[|s| - 1])) ==> r == s
  {
    TrimEnd(TrimStart(s))
  }

  /** `stripHtmlToText(html)`: the text is never longer than the markup. */
  function StripHtmlToText(html: string): (r: string)
    ensures |r| <= |html|
    ensures html == "" ==> r == ""
  {
    if html == "" then ""
    else
      var noScripts := RemoveScriptsAndStyles(html);
      var withNewlines := BreakToNewline(BlockCloseToNewline(noScripts));
      var noTags := RemoveTags(withNewlines);
      var decoded := DecodeEntities(noTags);
      Trim(CapNewlines(CollapseBlanks(decoded)))
  }

  // ---------------------------------------------------------------------
  // The shape of the output
  // ---------------------------------------------------------------------

  predicate NoTab(s: string) {
    forall i :: 0 <= i < |s| ==> s[i] != '\t'
  }

  /** Two spaces start at `i`. */
  predicate DoubleSpaceAt(s: string, i: nat)
    requires i + 1 < |s|
  {
    s[i] == ' ' && s[i + 1] == ' '
  }

  predicate NoDoubleSpace(s: string) {
    forall i :: 0 <= i < |s| - 1 ==> !DoubleSpaceAt(s, i)
  }

  /** Three newlines start at `i`. */
  predicate TripleNewlineAt(s: string, i: nat)
    requires i + 2 < |s|
  {
    s[i] == '\n' && s[i + 1] == '\n' && s[i + 2] == '\n'
  }

  predicate NoTripleNewline(s: string) {
    forall i :: 0 <= i < |s| - 2 ==> !TripleNewlineAt(s, i)
  }

  predicate Trimmed(s: string) {
    s == [] || (!IsJsSpace(s[0]) && !IsJsSpace(s[|s| - 1]))
  }

  /** What the final collapse-and-trim step promises of every result. */
  predicate Canonical(s: string) {
    Trimmed(s) && NoTab(s) && NoDoubleSpace(s) && NoTripleNewline(s)
  }

  /** After `/[\t ]+/g` -> ' ' no tab is left and no two spaces are adjacent. */
  lemma {:induction false} CollapseBlanksShape(s: string)
    ensures NoTab(CollapseBlanks(s)) && NoDoubleSpace(CollapseBlanks(s))
    ensures |CollapseBlanks(s)| > 0 && CollapseBlanks(s)[0] == ' ' ==> s != [] && IsBlank(s[0])
    decreases |s|
  {
    if s != [] {
      var n := BlankMatch(s);
      if 0 < n {
        var rest := s[n..];
        CollapseBlanksShape(rest);
        ConsKeepsNoTab(' ', CollapseBlanks(rest));
        ConsKeepsNoDoubleSpace(' ', CollapseBlanks(rest));
        assert CollapseBlanks(s) == " " + CollapseBlanks(rest);
      } else {
        CollapseBlanksShape(s[1..]);
        ConsKeepsNoTab(s[0], CollapseBlanks(s[1..]));
        ConsKeepsNoDoubleSpace(s[0], CollapseBlanks(s[1..]));
        assert CollapseBlanks(s) == [s[0]] + CollapseBlanks(s[1..]);
      }
    }
  }

  /** The cap keeps the first character of its input, and with it emptiness. */
  lemma CapNewlinesFirst(s: string)
    ensures (CapNewlines(s) == []) == (s == [])
    ensures s != [] ==> CapNewlines(s)[0] == s[0]
  {
  }

  /** The cap outputs a newline second only where its input has one. */
  lemma CapNewlinesSecond(s: string)
    ensures |CapNewlines(s)| > 1 && CapNewlines(s)[1] == '\n' ==> |s| > 1 && s[1] == '\n'
  {
    if s != [] && NewlinesMatch(s) == 0 {
      CapNewlinesFirst(s[1..]);
    }
  }

  /**
   * After `/\n{3,}/g` -> '\n\n' no three newlines are adjacent; tabs and
   * adjacent spaces are neither created nor removed.
   */
  lemma CapNewlinesShape(s: string)
    ensures NoTripleNewline(CapNewlines(s))
    ensures NoTab(s) ==> NoTab(CapNewlines(s))
    ensures NoDoubleSpace(s) ==> NoDoubleSpace(CapNewlines(s))
  {
    CapNewlinesNoTriple(s);
    if NoTab(s) {
      CapNewlinesKeepsNoTab(s);
    }
    if NoDoubleSpace(s) {
      CapNewlinesKeepsNoDoubleSpace(s);
    }
  }

  lemma {:induction false} CapNewlinesNoTriple(s: string)
    ensures NoTripleNewline(CapNewlines(s))
    decreases |s|
  {
    if s != [] {
      var n := NewlinesMatch(s);
      if 0 < n {
        var rest := s[n..];
        CapNewlinesNoTriple(rest);
        CapNewlinesFirst(rest);
        var r' := CapNewlines(rest);
        ConsKeepsNoTriple('\n', r');
        ConsKeepsNoTriple('\n', "\n" + r');
        assert CapNewlines(s) == "\n" + ("\n" + r');
      } else {
        var rest := s[1..];
        CapNewlinesNoTriple(rest);
        CapNewlinesFirst(rest);
        CapNewlinesSecond(rest);
        ConsKeepsNoTriple(s[0], CapNewlines(rest));
        assert CapNewlines(s) == [s[0]] + CapNewlines(rest);
      }
    }
  }

  lemma {:induction false} CapNewlinesKeepsNoTab(s: string)
    requires NoTab(s)
    ensures NoTab(CapNewlines(s))
    decreases |s|
  {
    if s != [] {
      var n := NewlinesMatch(s);
      var k := if 0 < n then n else 1;
      assert s[k..|s|] == s[k..];
      SliceKeepsShape(s, k, |s|);
      CapNewlinesKeepsNoTab(s[k..]);
    }
  }

  lemma {:induction false} CapNewlinesKeepsNoDoubleSpace(s: string)
    requires NoDoubleSpace(s)
    ensures NoDoubleSpace(CapNewlines(s))
    decreases |s|
  {
    if s != [] {
      var n := NewlinesMatch(s);
      var k := if 0 < n then n else 1;
      assert s[k..|s|] == s[k..];
      SliceKeepsShape(s, k, |s|);
      CapNewlinesKeepsNoDoubleSpace(s[k..]);
      var r' := CapNewlines(s[k..]);
      if 0 < n {
        CapNewlinesFirst(s[k..]);
        ConsKeepsNoDoubleSpace('\n', r');
        ConsKeepsNoDoubleSpace('\n', "\n" + r');
        assert CapNewlines(s) == "\n" + ("\n" + r');
      } else {
        CapNewlinesFirst(s[k..]);
        if |s| > 1 {
          assert !DoubleSpaceAt(s, 0);
        }
        ConsKeepsNoDoubleSpace(s[0], r');
        assert CapNewlines(s) == [s[0]] + r';
      }
    }
  }

  /** A character in front keeps the absence of tabs unless it is one. */
  lemma ConsKeepsNoTab(c: char, r: string)
    requires NoTab(r) && c != '\t'
    ensures NoTab([c] + r)
  {
    var t := [c] + r;
    assert forall i :: 1 <= i < |t| ==> t[i] == r[i - 1];
  }

  /** A space in front of a string that does not start with a space makes no double space. */
  lemma ConsKeepsNoDoubleSpace(c: char, r: string)
    requires NoDoubleSpace(r) && (c == ' ' ==> r == [] || r[0] != ' ')
    ensures NoDoubleSpace([c] + r)
  {
    var t := [c] + r;
    forall i | 0 <= i < |t| - 1 ensures !DoubleSpaceAt(t, i) {
      if 0 < i {
        assert !DoubleSpaceAt(r, i - 1);
        assert t[i] == r[i - 1] && t[i + 1] == r[i];
      }
    }
  }

  /** A newline in front of a string that does not start with two makes no triple newline. */
  lemma ConsKeepsNoTriple(c: char, r: string)
    requires NoTripleNewline(r) && (c == '\n' ==> |r| < 2 || r[0] != '\n' || r[1] != '\n')
    ensures NoTripleNewline([c] + r)
  {
    var t := [c] + r;
    forall i | 0 <= i < |t| - 2 ensures !TripleNewlineAt(t, i) {
      if 0 < i {
        assert !TripleNewlineAt(r, i - 1);
        assert t[i] == r[i - 1] && t[i + 1] == r[i] && t[i + 2] == r[i + 1];
      }
    }
  }

  /** Cutting a slice out keeps the three "no ..." properties. */
  lemma SliceKeepsShape(s: string, a: nat, b: nat)
    requires a <= b <= |s|
    ensures NoTab(s) ==> NoTab(s[a..b])
    ensures NoDoubleSpace(s) ==> NoDoubleSpace(s[a..b])
    ensures NoTripleNewline(s) ==> NoTripleNewline(s[a..b])
  {
    var t := s[a..b];
    assert forall i :: 0 <= i < |t| ==> t[i] == s[a + i];
    if NoDoubleSpace(s) {
      forall i | 0 <= i < |t| - 1 ensures !DoubleSpaceAt(t, i) {
        assert !DoubleSpaceAt(s, a + i);
      }
    }
    if NoTripleNewline(s) {
      forall i | 0 <= i < |t| - 2 ensures !TripleNewlineAt(t, i) {
        assert !TripleNewlineAt(s, a + i);
      }
    }
  }

  /** `trim` leaves a trimmed slice of its argument. */
  lemma TrimShape(s: string)
    ensures Trimmed(Trim(s))
    ensures NoTab(s) ==> NoTab(Trim(s))
    ensures NoDoubleSpace(s) ==> NoDoubleSpace(Trim(s))
    ensures NoTripleNewline(s) ==> NoTripleNewline(Trim(s))
  {
    TrimStartKeepsShape(s);
    TrimEndKeepsShape(TrimStart(s));
  }

  lemma TrimStartKeepsShape(s: string)
    ensures NoTab(s) ==> NoTab(TrimStart(s))
    ensures NoDoubleSpace(s) ==> NoDoubleSpace(TrimStart(s))
    ensures NoTripleNewline(s) ==> NoTripleNewline(TrimStart(s))
  {
    var a := |s| - |TrimStart(s)|;
    assert s[a..|s|] == s[a..];
    SliceKeepsShape(s, a, |s|);
  }

  lemma TrimEndKeepsShape(s: string)
    ensures NoTab(s) ==> NoTab(TrimEnd(s))
    ensures NoDoubleSpace(s) ==> NoDoubleSpace(TrimEnd(s))
    ensures NoTripleNewline(s) ==> NoTripleNewline(TrimEnd(s))
  {
    SliceKeepsShape(s, 0, |TrimEnd(s)|);
  }

  lemma TrimEndKeepsStart(t: string)
    ensures TrimEnd(t) == [] || (t != [] && TrimEnd(t)[0] == t[0])
  {
    var r := TrimEnd(t);
    if r != [] {
      assert r[0] == t[..|r|][0];
    }
  }

  /**
   * Every result of `stripHtmlToText` is trimmed and holds no tab, no two
   * adjacent spaces and no three adjacent newlines; the empty input gives
   * the empty text.
   */
  lemma StripHtmlToTextIsCanonical(html: string)
    ensures Canonical(StripHtmlToText(html))
    ensures html == "" ==> StripHtmlToText(html) == ""
  {
    if html != "" {
      var decoded := DecodeEntities(RemoveTags(BreakToNewline(BlockCloseToNewline(RemoveScriptsAndStyles(html)))));
      var collapsed := CollapseBlanks(decoded);
      CollapseBlanksShape(decoded);
      CapNewlinesShape(collapsed);
      CapNewlinesFirst(collapsed);
      CapNewlinesSecond(collapsed);
      TrimShape(CapNewlines(collapsed));
    }
  }

  // ---------------------------------------------------------------------
  // General facts about the scan
  // ---------------------------------------------------------------------

  /** A replacement no longer than any match never lengthens the text. */
  lemma {:induction false} RewriteNoLonger(s: string, m: string -> nat, rep: string)
    requires forall u :: 0 < m(u) ==> |rep| <= m(u)
    ensures |Rewrite(s, m, rep)| <= |s|
    decreases |s|
  {
    if s != [] {
      var n := m(s);
      if 0 < n <= |s| {
        RewriteNoLonger(s[n..], m, rep);
      } else {
        RewriteNoLonger(s[1..], m, rep);
      }
    }
  }

  /** Where the pattern matches nowhere, the replacement leaves the string as it is. */
  lemma {:induction false} RewriteKeeps(s: string, m: string -> nat, rep: string)
    requires forall i :: 0 <= i < |s| ==> m(s[i..]) == 0
    ensures Rewrite(s, m, rep) == s
    decreases |s|
  {
    if s != [] {
      assert s[0..] == s;
      forall i | 0 <= i < |s| - 1 ensures m(s[1..][i..]) == 0 {
        assert s[1..][i..] == s[i + 1..];
      }
      RewriteKeeps(s[1..], m, rep);
    }
  }

  /**
   * The replacement splits where no match crosses: if every match found
   * inside `s` is the same whether or not `t` follows, `s` and `t` are
   * rewritten independently.
   */
  lemma {:induction false} RewriteSplits(s: string, t: string, m: string -> nat, rep: string)
    requires forall i :: 0 <= i < |s| ==> m((s + t)[i..]) == m(s[i..]) <= |s| - i
    ensures Rewrite(s + t, m, rep) == Rewrite(s, m, rep) + Rewrite(t, m, rep)
    decreases |s|
  {
    if s == [] {
      assert s + t == t;
    } else {
      assert (s + t)[0..] == s + t && s[0..] == s;
      var n := m(s);
      var k := if n > 0 then n else 1;
      assert (s + t)[k..] == s[k..] + t;
      MatchesAgreeAfter(s, t, m, k);
      RewriteSplits(s[k..], t, m, rep);
    }
  }

  /** Matches that agree inside `s` with or without `t` still agree inside a suffix of `s`. */
  lemma MatchesAgreeAfter(s: string, t: string, m: string -> nat, k: nat)
    requires k <= |s|
    requires forall i :: 0 <= i < |s| ==> m((s + t)[i..]) == m(s[i..]) <= |s| - i
    ensures forall i :: 0 <= i < |s[k..]| ==> m((s[k..] + t)[i..]) == m(s[k..][i..]) <= |s[k..]| - i
  {
    forall i | 0 <= i < |s[k..]|
      ensures m((s[k..] + t)[i..]) == m(s[k..][i..]) <= |s[k..]| - i
    {
      assert (s[k..] + t)[i..] == (s + t)[k + i..];
      assert s[k..][i..] == s[k + i..];
    }
  }

  /** A run stops at the first character outside the class, whatever follows it. */
  lemma {:induction false} RunBeforeStop(a: string, b: string, p: char -> bool)
    requires b == [] || !p(b[0])
    ensures Run(a + b, p) == Run(a, p)
    decreases |a|
  {
    if a == [] {
      assert a + b == b;
    } else {
      assert (a + b)[1..] == a[1..] + b;
      RunBeforeStop(a[1..], b, p);
    }
  }

  /** A run goes through a prefix made only of characters of the class. */
  lemma {:induction false} RunThrough(a: string, b: string, p: char -> bool)
    requires forall i :: 0 <= i < |a| ==> p(a[i])
    ensures Run(a + b, p) == |a| + Run(b, p)
    decreases |a|
  {
    if a == [] {
      assert a + b == b;
    } else {
      assert (a + b)[1..] == a[1..] + b;
      RunThrough(a[1..], b, p);
    }
  }

  /** A pattern with no '<' after its first character cannot run into a following '<'. */
  lemma StartsWithCIBeforeAngle(u: string, t: string, p: string)
    requires u != [] && (t == [] || t[0] == '<')
    requires forall k :: 1 <= k < |p| ==> p[k] != '<'
    ensures StartsWithCI(u + t, p) == StartsWithCI(u, p)
  {
    if |u| < |p| && t != [] {
      assert (u + t)[|u|] == '<';
    }
  }

  /** Extending a string does not change whether it starts with a pattern it is longer than. */
  lemma StartsWithCIExtends(u: string, v: string, p: string)
    requires |p| <= |u|
    ensures StartsWithCI(u + v, p) == StartsWithCI(u, p)
  {
    assert forall i :: 0 <= i < |u| ==> (u + v)[i] == u[i];
  }

  // ---------------------------------------------------------------------
  // Block-closing tags and line breaks
  // ---------------------------------------------------------------------

  lemma BlockCloseBeforeAngle(u: string, t: string)
    requires u != [] && (t == [] || t[0] == '<')
    ensures BlockCloseMatch(u + t) == BlockCloseMatch(u)
  {
    var w := u + t;
    assert forall i :: 0 <= i < |u| ==> w[i] == u[i];
    if |u| < 3 {
      assert t != [] ==> w[|u|] == '<';
    } else {
      assert t != [] && |u| < 5 ==> w[|u|] == '<';
      var c := Lower(u[2]);
      if c == 'p' {
        StartsWithCIBeforeAngle(u, t, "</p>");
      } else if c == 'd' {
        StartsWithCIBeforeAngle(u, t, "</div>");
      } else if c == 'h' {
        StartsWithCIBeforeAngle(u, t, "</header>");
      } else if c == 'l' {
        StartsWithCIBeforeAngle(u, t, "</li>");
      } else if c == 'b' {
        StartsWithCIBeforeAngle(u, t, "</blockquote>");
      } else if c == 's' {
        StartsWithCIBeforeAngle(u, t, "</section>");
      } else if c == 'a' {
        StartsWithCIBeforeAngle(u, t, "</article>");
      } else if c == 'f' {
        StartsWithCIBeforeAngle(u, t, "</footer>");
      }
    }
  }


  /** A string that ends with '>' decides a pattern with no earlier '>' by itself. */
  lemma StartsWithCIPastClose(u: string, v: string, p: string)
    requires u != [] && u[|u| - 1] == '>'
    requires forall k :: 0 <= k < |p| - 1 ==> p[k] != '>'
    ensures StartsWithCI(u + v, p) == StartsWithCI(u, p)
  {
    if |p| <= |u| {
      StartsWithCIExtends(u, v, p);
    } else {
      assert (u + v)[|u| - 1] == '>';
    }
  }

  lemma BlockCloseExtends(u: string, v: string)
    requires 0 < BlockCloseMatch(u) == |u|
    ensures BlockCloseMatch(u + v) == |u|
  {
    var w := u + v;
    assert u[|u| - 1] == '>';
    assert forall i :: 0 <= i < |u| ==> w[i] == u[i];
    var c := Lower(u[2]);
    if c == 'p' {
      StartsWithCIPastClose(u, v, "</p>");
    } else if c == 'd' {
      StartsWithCIPastClose(u, v, "</div>");
    } else if c == 'h' {
      StartsWithCIPastClose(u, v, "</header>");
    } else if c == 'l' {
      StartsWithCIPastClose(u, v, "</li>");
    } else if c == 'b' {
      StartsWithCIPastClose(u, v, "</blockquote>");
    } else if c == 's' {
      StartsWithCIPastClose(u, v, "</section>");
    } else if c == 'a' {
      StartsWithCIPastClose(u, v, "</article>");
    } else if c == 'f' {
      StartsWithCIPastClose(u, v, "</footer>");
    }
  }



  /**
   * A block-closing tag turns into exactly one newline wherever it stands,
   * and the text on either side is rewritten as if the tag were not there.
   */
  lemma BlockCloseInContext(s: string, tag: string, t: string)
    requires 0 < BlockCloseMatch(tag) == |tag|
    ensures BlockCloseToNewline(s + tag + t)
         == BlockCloseToNewline(s) + "\n" + BlockCloseToNewline(t)
  {
    var rest := tag + t;
    assert rest[0] == tag[0] == '<';
    BlockCloseSplitsBeforeAngle(s, rest);
    BlockCloseExtends(tag, t);
    assert rest[|tag|..] == t;
    assert s + tag + t == s + rest;
  }

  /** The block-closing replacement splits in front of every '<'. */
  lemma BlockCloseSplitsBeforeAngle(s: string, rest: string)
    requires rest != [] && rest[0] == '<'
    ensures BlockCloseToNewline(s + rest) == BlockCloseToNewline(s) + BlockCloseToNewline(rest)
  {
    forall i | 0 <= i < |s|
      ensures BlockCloseMatch((s + rest)[i..]) == BlockCloseMatch(s[i..]) <= |s| - i
    {
      assert (s + rest)[i..] == s[i..] + rest;
      BlockCloseBeforeAngle(s[i..], rest);
    }
    RewriteSplits(s, rest, BlockCloseMatch, "\n");
  }

  lemma BrBeforeAngle(u: string, t: string)
    requires u != [] && (t == [] || t[0] == '<')
    ensures BrMatch(u + t) == BrMatch(u)
  {
    StartsWithCIBeforeAngle(u, t, "<br");
    if StartsWithCI(u, "<br") {
      var w := u + t;
      assert w[3..] == u[3..] + t;
      RunBeforeStop(u[3..], t, IsJsSpace);
      var k := 3 + Run(u[3..], IsJsSpace);
      SkipSlashBeforeAngle(u, t, k);
      BrCloseBeforeAngle(u, t, SkipSlash(u, k));
    }
  }

  lemma SkipSlashBeforeAngle(u: string, t: string, k: nat)
    requires k <= |u| && (t == [] || t[0] == '<')
    ensures SkipSlash(u + t, k) == SkipSlash(u, k)
  {
    if k < |u| {
      assert (u + t)[k] == u[k];
    } else if t != [] {
      assert (u + t)[k] == '<';
    }
  }

  lemma BrCloseBeforeAngle(u: string, t: string, k: nat)
    requires k <= |u| && (t == [] || t[0] == '<')
    ensures BrClose(u + t, k) == BrClose(u, k)
  {
    var w := u + t;
    if k < |u| {
      assert w[k] == u[k];
      if k + 1 < |u| {
        assert w[k + 1] == u[k + 1];
      } else if t != [] {
        assert w[k + 1] == '<';
      }
    } else if t != [] {
      assert w[k] == '<';
    }
  }

  /** Inside a line-break tag the run of spaces after `<br` ends where the spaces do. */
  lemma BrSpacesRun(open: string, spaces: string, tail: string)
    requires |open| == 3
    requires forall i :: 0 <= i < |spaces| ==> IsJsSpace(spaces[i])
    requires tail != [] && (tail[0] == '/' || tail[0] == '>')
    ensures Run((open + spaces + tail)[3..], IsJsSpace) == |spaces|
  {
    assert (open + spaces + tail)[3..] == spaces + tail;
    RunThrough(spaces, tail, IsJsSpace);
  }

  /** The whole tag matches, plus the newline right after it if there is one. */
  lemma BrMatchOfTag(open: string, spaces: string, slash: string, t: string)
    requires |open| == 3 && StartsWithCI(open, "<br")
    requires forall i :: 0 <= i < |spaces| ==> IsJsSpace(spaces[i])
    requires slash == "" || slash == "/"
    ensures BrMatch(open + spaces + slash + ">" + t)
         == |open| + |spaces| + |slash| + 1 + (if t != [] && t[0] == '\n' then 1 else 0)
  {
    var tail := slash + ">" + t;
    var w := open + spaces + tail;
    assert open + spaces + slash + ">" + t == w;
    assert StartsWithCI(w, "<br") by {
      assert forall i :: 0 <= i < 3 ==> w[i] == open[i];
    }
    BrSpacesRun(open, spaces, tail);
    var k := 3 + |spaces|;
    assert w[k..] == tail;
    var j := k + |slash|;
    assert SkipSlash(w, k) == j by {
      if slash == "/" { assert w[k] == '/'; } else { assert w[k] == '>'; }
    }
    assert w[j] == '>';
    assert j + 1 < |w| ==> w[j + 1] == t[0];
  }

  /** The line-break replacement splits in front of every '<'. */
  lemma BreakSplitsBeforeAngle(s: string, rest: string)
    requires rest != [] && rest[0] == '<'
    ensures BreakToNewline(s + rest) == BreakToNewline(s) + BreakToNewline(rest)
  {
    forall i | 0 <= i < |s|
      ensures BrMatch((s + rest)[i..]) == BrMatch(s[i..]) <= |s| - i
    {
      assert (s + rest)[i..] == s[i..] + rest;
      BrBeforeAngle(s[i..], rest);
    }
    RewriteSplits(s, rest, BrMatch, "\n");
  }

  /**
   * A line-break tag (`<br>`, `<br/>`, `<BR  />`, ...) turns into one newline
   * wherever it stands and swallows at most one newline right after it.
   */
  lemma BreakInContext(s: string, tag: string, t: string, open: string, spaces: string, slash: string)
    requires |open| == 3 && StartsWithCI(open, "<br")
    requires forall i :: 0 <= i < |spaces| ==> IsJsSpace(spaces[i])
    requires slash == "" || slash == "/"
    requires tag == open + spaces + slash + ">"
    ensures BreakToNewline(s + tag + t)
         == BreakToNewline(s) + "\n" + BreakToNewline(if t != [] && t[0] == '\n' then t[1..] else t)
  {
    var after := if t != [] && t[0] == '\n' then t[1..] else t;
    assert s + tag + t == s + (tag + t);
    assert (tag + t)[0] == open[0] == '<';
    BreakSplitsBeforeAngle(s, tag + t);
    BreakOfTag(tag, t, open, spaces, slash);
  }

  /** A line-break tag at the front becomes one newline, taking along one newline right after it. */
  lemma BreakOfTag(tag: string, t: string, open: string, spaces: string, slash: string)
    requires |open| == 3 && StartsWithCI(open, "<br")
    requires forall i :: 0 <= i < |spaces| ==> IsJsSpace(spaces[i])
    requires slash == "" || slash == "/"
    requires tag == open + spaces + slash + ">"
    ensures BreakToNewline(tag + t) == "\n" + BreakToNewline(if t != [] && t[0] == '\n' then t[1..] else t)
  {
    var rest := tag + t;
    BrMatchOfTag(open, spaces, slash, t);
    assert rest[BrMatch(rest)..] == if t != [] && t[0] == '\n' then t[1..] else t;
  }

  // ---------------------------------------------------------------------
  // Remaining tags
  // ---------------------------------------------------------------------

  /**
   * No tag survives `/<[^>]+>/g`: the pattern matches nowhere in the result,
   * so a second pass changes nothing.
   */
  lemma {:induction false} RemoveTagsLeavesNoTag(s: string)
    ensures forall i :: 0 <= i < |RemoveTags(s)| ==> TagMatch(RemoveTags(s)[i..]) == 0
    ensures s != [] && s[0] != '<' ==> RemoveTags(s) != [] && RemoveTags(s)[0] == s[0]
    ensures '>' in RemoveTags(s) ==> '>' in s
    decreases |s|
  {
    if s != [] {
      var n := TagMatch(s);
      var r := RemoveTags(s);
      if n > 0 {
        RemoveTagsLeavesNoTag(s[n..]);
        assert r == RemoveTags(s[n..]);
      } else {
        var rest := s[1..];
        RemoveTagsLeavesNoTag(rest);
        var r' := RemoveTags(rest);
        assert r == [s[0]] + r';
        assert r[0..] == r;
        if s[0] == '<' {
          if rest != [] && rest[0] == '>' {
            assert r[1..] == r';
          } else {
            assert forall i :: 0 <= i < |rest| ==> rest[i] != '>';
            assert '>' !in r';
            assert r[1..] == r';
            assert Run(r[1..], IsNotGt) == |r'|;
          }
        }
        forall i | 0 < i < |r| ensures TagMatch(r[i..]) == 0 {
          assert r[i..] == r'[i - 1..];
        }
      }
    }
  }

  lemma RemoveTagsIdempotent(s: string)
    ensures RemoveTags(RemoveTags(s)) == RemoveTags(s)
  {
    RemoveTagsLeavesNoTag(s);
    RewriteKeeps(RemoveTags(s), TagMatch, "");
  }

  // ---------------------------------------------------------------------
  // Script elements and entities
  // ---------------------------------------------------------------------

  /**
   * A closing tag whose only '<' is its first character is first found right
   * after a body that does not contain it.
   */
  lemma FindCIAfterBody(pre: string, body: string, close: string, t: string)
    requires close != [] && close[0] == '<'
    requires forall i :: 0 < i < |close| ==> close[i] != '<'
    requires forall i :: 0 <= i < |close| ==> Lower(close[i]) == close[i]
    requires forall k :: 0 <= k < |body| ==> !StartsWithCI(body[k..], close)
    ensures FindCI(pre + body + close + t, close, |pre|) == Some(|pre| + |body|)
  {
    var s := pre + body + close + t;
    var j := |pre| + |body|;
    assert s[j..] == close + t;
    assert StartsWithCI(s[j..], close);
    forall k | |pre| <= k < j ensures !StartsWithCI(s[k..], close) {
      if k + |close| <= j {
        assert forall i :: 0 <= i < |close| ==> s[k..][i] == body[k - |pre|..][i];
      } else {
        assert s[k..][j - k] == '<';
      }
    }
  }

  /** `<name ... </name>` matches up to the end of the first closing tag. */
  lemma ElementMatchAt(s: string, open: string, close: string, j: nat)
    requires StartsWithCI(s, open)
    requires FindCI(s, close, |open|) == Some(j)
    ensures ElementMatch(s, open, close) == j + |close|
  {
  }

  /**
   * A script element written in lower case vanishes together with
   * everything between `<script` and the first `</script>` after it; no
   * closing tag, in any letter case, may stand inside the body.
   */
  lemma ScriptElementRemoved(body: string, t: string)
    requires forall k :: 0 <= k < |body| ==> !StartsWithCI(body[k..], "</script>")
    ensures Rewrite("<script" + body + "</script>" + t, ScriptMatch, "") == Rewrite(t, ScriptMatch, "")
  {
    var s := "<script" + body + "</script>" + t;
    ScriptElementMatch(body, t);
    assert s[16 + |body|..] == t;
  }

  /** A script element whose body holds no closing tag is matched up to its closing tag. */
  lemma ScriptElementMatch(body: string, t: string)
    requires forall k :: 0 <= k < |body| ==> !StartsWithCI(body[k..], "</script>")
    ensures ScriptMatch("<script" + body + "</script>" + t) == 16 + |body|
  {
    ElementMatchOfElement("<script", body, "</script>", t);
  }

  /** An element whose body holds no closing tag is matched from its opening up to its closing tag. */
  lemma ElementMatchOfElement(open: string, body: string, close: string, t: string)
    requires forall i :: 0 <= i < |open| ==> Lower(open[i]) == open[i]
    requires close != [] && close[0] == '<'
    requires forall i :: 0 < i < |close| ==> close[i] != '<'
    requires forall i :: 0 <= i < |close| ==> Lower(close[i]) == close[i]
    requires forall k :: 0 <= k < |body| ==> !StartsWithCI(body[k..], close)
    ensures ElementMatch(open + body + close + t, open, close) == |open| + |body| + |close|
  {
    var s := open + body + close + t;
    FindCIAfterBody(open, body, close, t);
    assert s == open + (body + close + t);
    StartsWithOwnLowerCase(open, body + close + t);
    ElementMatchAt(s, open, close, |open| + |body|);
  }

  /** A string starts with any lower-case pattern it begins with. */
  lemma StartsWithOwnLowerCase(p: string, t: string)
    requires forall i :: 0 <= i < |p| ==> Lower(p[i]) == p[i]
    ensures StartsWithCI(p + t, p)
  {
    assert forall i :: 0 <= i < |p| ==> (p + t)[i] == p[i];
  }

  lemma {:induction false} LiteralKeeps(s: string, pattern: string, rep: string)
    requires pattern != [] && pattern[0] !in s
    ensures Rewrite(s, LiteralMatch(pattern), rep) == s
    decreases |s|
  {
    if s != [] {
      assert s[0] in s;
      LiteralKeeps(s[1..], pattern, rep);
    }
  }

  /** Text without '&' holds no entity, so decoding leaves it unchanged. */
  lemma DecodeEntitiesKeepsPlainText(s: string)
    requires '&' !in s
    ensures DecodeEntities(s) == s
  {
    LiteralKeeps(s, "&nbsp;", " ");
    LiteralKeeps(s, "&amp;", "&");
    LiteralKeeps(s, "&quot;", "\"");
    LiteralKeeps(s, "&#39;", "'");
    LiteralKeeps(s, "&lt;", "<");
    LiteralKeeps(s, "&gt;", ">");
  }

  /**
   * The entities are decoded one after the other, so an escaped entity is
   * decoded twice: `&amp;lt;` becomes `<`, not `&lt;`.
   */
  lemma EntitiesDecodeInSequence(s: string)
    requires s == "&amp;lt;"
    ensures DecodeEntities(s) == "<"
  {
    var s1 := Rewrite(s, LiteralMatch("&nbsp;"), " ");
    assert s1 == s by {
      assert !("&nbsp;" <= s) by { assert s[1] != "&nbsp;"[1]; }
      LiteralKeeps(s[1..], "&nbsp;", " ");
    }
    var s2 := Rewrite(s1, LiteralMatch("&amp;"), "&");
    assert s2 == "&lt;" by {
      assert "&amp;" <= s;
      assert s[5..] == "lt;";
      LiteralKeeps("lt;", "&amp;", "&");
    }
    var s3 := Rewrite(s2, LiteralMatch("&quot;"), "\"");
    assert s3 == "&lt;" by {
      assert !("&quot;" <= s2);
      LiteralKeeps(s2[1..], "&quot;", "\"");
    }
    var s4 := Rewrite(s3, LiteralMatch("&#39;"), "'");
    assert s4 == "&lt;" by {
      assert !("&#39;" <= s3) by { assert s3[1] != "&#39;"[1]; }
      LiteralKeeps(s3[1..], "&#39;", "'");
    }
    var s5 := Rewrite(s4, LiteralMatch("&lt;"), "<");
    assert s5 == "<" by {
      assert "&lt;" <= s4;
      assert s4[4..] == [];
    }
    assert Rewrite(s5, LiteralMatch("&gt;"), ">") == "<" by {
      LiteralKeeps("<", "&gt;", ">");
    }
  }

  // ---------------------------------------------------------------------
  // Plain text and a paragraph with a line break
  // ---------------------------------------------------------------------

  /** A pattern that can only match at `c` leaves alone a text without `c`. */
  lemma RewriteKeepsWithout(s: string, m: string -> nat, rep: string, c: char)
    requires forall u :: 0 < m(u) ==> 0 < |u| && u[0] == c
    requires c !in s
    ensures Rewrite(s, m, rep) == s
  {
    forall i | 0 <= i < |s| ensures m(s[i..]) == 0 {
      assert s[i] in s;
    }
    RewriteKeeps(s, m, rep);
  }

  /** A pattern that can only match at `c` followed by `d` leaves alone a text where no `c` precedes `d`. */
  lemma RewriteKeepsWithoutPair(s: string, m: string -> nat, rep: string, c: char, d: char)
    requires forall u :: 0 < m(u) ==> 2 <= |u| && u[0] == c && Lower(u[1]) == d
    requires forall i :: 0 <= i < |s| - 1 ==> !(s[i] == c && Lower(s[i + 1]) == d)
    ensures Rewrite(s, m, rep) == s
  {
    forall i | 0 <= i < |s| ensures m(s[i..]) == 0 {
      assert i + 1 < |s| ==> s[i..][1] == s[i + 1];
    }
    RewriteKeeps(s, m, rep);
  }

  /** Blanks already collapsed stay as they are. */
  lemma {:induction false} CollapseBlanksKeeps(s: string)
    requires NoTab(s) && NoDoubleSpace(s)
    ensures CollapseBlanks(s) == s
    decreases |s|
  {
    if s != [] {
      assert s[1..|s|] == s[1..];
      SliceKeepsShape(s, 1, |s|);
      CollapseBlanksKeeps(s[1..]);
      if s[0] == ' ' {
        assert BlankMatch(s) == 1 by {
          assert |s| > 1 ==> !DoubleSpaceAt(s, 0) && !IsBlank(s[1]);
          assert Run(s, IsBlank) == 1 + Run(s[1..], IsBlank);
        }
      }
    }
  }

  /** The five markup stages leave alone a text without '<'. */
  lemma MarkupStagesKeep(s: string)
    requires '<' !in s
    ensures RemoveTags(BreakToNewline(BlockCloseToNewline(RemoveScriptsAndStyles(s)))) == s
  {
    RewriteKeepsWithout(s, ScriptMatch, "", '<');
    RewriteKeepsWithout(s, StyleMatch, "", '<');
    RewriteKeepsWithout(s, BlockCloseMatch, "\n", '<');
    RewriteKeepsWithout(s, BrMatch, "\n", '<');
    RewriteKeepsWithout(s, TagMatch, "", '<');
  }

  /** Runs of newlines shorter than three stay as they are. */
  lemma CapNewlinesKeeps(s: string)
    requires NoTripleNewline(s)
    ensures CapNewlines(s) == s
  {
    forall i | 0 <= i < |s| ensures NewlinesMatch(s[i..]) == 0 {
      assert i + 2 < |s| ==> s[i..][1] == s[i + 1] && s[i..][2] == s[i + 2] && !TripleNewlineAt(s, i);
    }
    RewriteKeeps(s, NewlinesMatch, "\n\n");
  }

  /** Text without markup or entities that is already canonical is its own normal form. */
  lemma CanonicalPlainTextIsFixed(s: string)
    requires Canonical(s) && '<' !in s && '&' !in s
    ensures StripHtmlToText(s) == s
  {
    if s != [] {
      MarkupStagesKeep(s);
      DecodeEntitiesKeepsPlainText(s);
      CollapseBlanksKeeps(s);
      CapNewlinesKeeps(s);
      assert TrimStart(s) == s;
      assert TrimEnd(s) == s;
    }
  }

  /** One line of canonical text without markup, entities or newlines. */
  predicate PlainLine(w: string) {
    w != [] && Canonical(w) && '<' !in w && '&' !in w && '\n' !in w
  }

  /** In `<p>u<br/>v</p>` every '<' opens one of the three tags. */
  lemma ParagraphAngles(h: string, u: string, v: string)
    requires '<' !in u && '<' !in v
    requires h == "<p>" + u + "<br/>" + v + "</p>"
    ensures forall i :: 0 <= i < |h| - 4 && h[i] == '<' ==> Lower(h[i + 1]) == 'p' || Lower(h[i + 1]) == 'b'
    ensures forall i :: 0 <= i < |h| - 1 && h[i] == '<' ==> Lower(h[i + 1]) != 's'
  {
    var j := 3 + |u|;
    var k := j + 5 + |v|;
    forall i | 0 <= i < |h| - 1
      ensures h[i] == '<' ==> i == 0 || i == j || i == k
    {
      if 3 <= i < j {
        assert h[i] == u[i - 3];
      } else if j < i < j + 5 {
        assert h[i] == "<br/>"[i - j];
      } else if j + 5 <= i < k {
        assert h[i] == v[i - j - 5];
      } else if k < i {
        assert h[i] == "</p>"[i - k];
      } else if 0 < i < 3 {
        assert h[i] == "<p>"[i];
      }
    }
    assert h[1] == 'p' && h[j + 1] == 'b' && h[k + 1] == '/';
  }

  /** `<p>u<br/>v</p>` holds no script or style element. */
  lemma ParagraphHasNoScript(u: string, v: string)
    requires '<' !in u && '<' !in v
    ensures RemoveScriptsAndStyles("<p>" + u + "<br/>" + v + "</p>") == "<p>" + u + "<br/>" + v + "</p>"
  {
    var h := "<p>" + u + "<br/>" + v + "</p>";
    ParagraphAngles(h, u, v);
    RewriteKeepsWithoutPair(h, ScriptMatch, "", '<', 's');
    RewriteKeepsWithoutPair(h, StyleMatch, "", '<', 's');
  }

  /** The closing paragraph tag: `<p>u<br/>v</p>` becomes `<p>u<br/>v` and a newline. */
  lemma ParagraphBlockClose(u: string, v: string)
    requires '<' !in u && '<' !in v
    ensures BlockCloseToNewline("<p>" + u + "<br/>" + v + "</p>") == "<p>" + u + "<br/>" + v + "\n"
  {
    var b := "<p>" + u + "<br/>" + v;
    var h := b + "</p>";
    ParagraphAngles(h, u, v);
    assert BlockCloseMatch("</p>") == 4;
    BlockCloseInContext(b, "</p>", []);
    assert b + "</p>" + [] == h;
    assert forall i :: 0 <= i < |b| ==> b[i] == h[i];
    RewriteKeepsWithoutPair(b, BlockCloseMatch, "\n", '<', '/');
    RewriteKeeps([], BlockCloseMatch, "\n");
  }

  /** In `<p>u` the only '<' opens the paragraph. */
  lemma OpenParagraphKeepsBreaks(u: string)
    requires '<' !in u
    ensures BreakToNewline("<p>" + u) == "<p>" + u
  {
    var a := "<p>" + u;
    forall i | 0 <= i < |a| - 1 ensures !(a[i] == '<' && Lower(a[i + 1]) == 'b') {
      if 3 <= i {
        assert a[i] == u[i - 3];
      } else {
        assert a[i] == "<p>"[i] && (i == 0 ==> a[1] == 'p');
      }
    }
    RewriteKeepsWithoutPair(a, BrMatch, "\n", '<', 'b');
  }

  /** A `<br/>` between two texts the line-break stage leaves alone becomes a newline. */
  lemma BreakBetween(a: string, t: string)
    requires BreakToNewline(a) == a && BreakToNewline(t) == t
    requires t != [] && t[0] != '\n'
    ensures BreakToNewline(a + "<br/>" + t) == a + "\n" + t
  {
    BreakInContext(a, "<br/>", t, "<br", "", "/");
  }

  /** The line break: `<p>u<br/>v` and a newline becomes `<p>u`, a newline, `v`, a newline. */
  lemma ParagraphBreak(u: string, v: string)
    requires '<' !in u && '<' !in v && v != [] && v[0] != '\n'
    ensures BreakToNewline("<p>" + u + "<br/>" + v + "\n") == "<p>" + (u + "\n" + v + "\n")
  {
    var a := "<p>" + u;
    var t := v + "\n";
    assert "<p>" + u + "<br/>" + v + "\n" == a + "<br/>" + t;
    assert a + "\n" + t == "<p>" + (u + "\n" + v + "\n");
    OpenParagraphKeepsBreaks(u);
    RewriteKeepsWithout(t, BrMatch, "\n", '<');
    BreakBetween(a, t);
  }

  /** The opening paragraph tag is the last tag left. */
  lemma OpenParagraphRemoved(x: string)
    requires '<' !in x
    ensures RemoveTags("<p>" + x) == x
  {
    var w := "<p>" + x;
    assert w[1..] == "p>" + x;
    assert Run(w[1..], IsNotGt) == 1;
    assert w[3..] == x;
    RewriteKeepsWithout(x, TagMatch, "", '<');
  }

  /** The markup stages turn `<p>u<br/>v</p>` into `u`, a newline, `v`, a newline. */
  lemma ParagraphMarkup(u: string, v: string)
    requires '<' !in u && '<' !in v && v != [] && v[0] != '\n'
    ensures RemoveTags(BreakToNewline(BlockCloseToNewline(RemoveScriptsAndStyles("<p>" + u + "<br/>" + v + "</p>"))))
         == u + "\n" + v + "\n"
  {
    ParagraphHasNoScript(u, v);
    ParagraphBlockClose(u, v);
    ParagraphBreak(u, v);
    OpenParagraphRemoved(u + "\n" + v + "\n");
  }

  /** Two plain lines, each followed by a newline, hold no blank run, no triple newline and no entity. */
  lemma TwoLinesShape(u: string, v: string)
    requires PlainLine(u) && PlainLine(v)
    ensures NoTab(u + "\n" + v + "\n") && NoDoubleSpace(u + "\n" + v + "\n")
    ensures NoTripleNewline(u + "\n" + v + "\n") && '&' !in u + "\n" + v + "\n"
  {
    var x := u + "\n" + v + "\n";
    var j := |u| + 1;
    forall i | 0 <= i < |x|
      ensures x[i] == '\n' <==> i == |u| || i == |x| - 1
      ensures x[i] != '\t' && x[i] != '&'
      ensures x[i] == ' ' ==> i + 1 < |x| && x[i + 1] != ' '
    {
      if i < |u| {
        assert x[i] == u[i] && u[i] in u;
        if i + 1 < |u| {
          assert x[i + 1] == u[i + 1] && !DoubleSpaceAt(u, i);
        } else {
          assert !IsJsSpace(u[i]);
        }
      } else if j <= i < j + |v| {
        assert x[i] == v[i - j] && v[i - j] in v;
        if i + 1 < j + |v| {
          assert x[i + 1] == v[i - j + 1] && !DoubleSpaceAt(v, i - j);
        } else {
          assert !IsJsSpace(v[i - j]);
        }
      }
    }
  }

  /** The collapse, cap and trim stages take two plain lines, each followed by a newline, to the lines joined by one newline. */
  lemma TwoLinesText(u: string, v: string)
    requires PlainLine(u) && PlainLine(v)
    ensures Trim(CapNewlines(CollapseBlanks(DecodeEntities(u + "\n" + v + "\n")))) == u + "\n" + v
  {
    var x := u + "\n" + v + "\n";
    TwoLinesShape(u, v);
    DecodeEntitiesKeepsPlainText(x);
    CollapseBlanksKeeps(x);
    CapNewlinesKeeps(x);
    TrimTwoLines(u, v);
  }

  /** Trimming two plain lines with a final newline drops only that newline. */
  lemma TrimTwoLines(u: string, v: string)
    requires PlainLine(u) && PlainLine(v)
    ensures Trim(u + "\n" + v + "\n") == u + "\n" + v
  {
    var x := u + "\n" + v + "\n";
    var y := u + "\n" + v;
    assert x[0] == u[0];
    assert TrimStart(x) == x;
    assert x[..|x| - 1] == y;
    assert y[|y| - 1] == v[|v| - 1];
    assert TrimEnd(y) == y;
  }

  /**
   * A paragraph holding two plain lines separated by a line break comes out
   * as the two lines separated by one newline.
   */
  lemma ParagraphWithBreak(u: string, v: string)
    requires PlainLine(u) && PlainLine(v)
    ensures StripHtmlToText("<p>" + u + "<br/>" + v + "</p>") == u + "\n" + v
  {
    ParagraphMarkup(u, v);
    TwoLinesText(u, v);
  }
}
