/**
 * pkg/utils/html_utils.go: InjectScript and InjectHTML, which put text in
 * front of every case-insensitive `</head>` or `</body>` through
 * regexp.ReplaceAllString, or append it when the tag is absent.
 *
 * ReplaceAllString does not insert its replacement literally: it expands
 * `$name`, `${name}` and `$$` in it first, as regexp.Expand does. The
 * functions ending in AsWritten model that; InjectScript and InjectHTML are
 * the literal insertion the helpers evidently intend.
 */
module HtmlUtils {
  import opened Common

  const HeadClose := "</head>"
  const BodyClose := "</body>"

  // ---------------------------------------------------------------------
  // Case-insensitive matching of a lower-case ASCII tag

  /**
   * `(?i)tag` matches at i. The tags here have no letter with a non-ASCII
   * case partner (unlike k and s), so the match is ASCII lower-casing.
   */
  predicate MatchesAt(s: string, i: nat, tag: string) {
    i + |tag| <= |s| && FoldsTo(s[i..i + |tag|], tag)
  }

  /** x lower-cases to tag, compared one character at a time. */
  predicate FoldsTo(x: string, tag: string) {
    |x| == |tag| && (|x| == 0 || (LowerChar(x[0]) == tag[0] && FoldsTo(x[1..], tag[1..])))
  }

  /** FoldsTo is ASCII lower-casing followed by equality. */
  lemma {:induction false} FoldsToIsLowerEqual(x: string, tag: string)
    ensures FoldsTo(x, tag) <==> ToLowerAscii(x) == tag
    decreases |x|
  {
    if |x| > 0 && |tag| > 0 {
      FoldsToIsLowerEqual(x[1..], tag[1..]);
      assert ToLowerAscii(x) == [LowerChar(x[0])] + ToLowerAscii(x[1..]);
      if ToLowerAscii(x) == tag {
        assert tag == [tag[0]] + tag[1..];
        assert ToLowerAscii(x[1..]) == ToLowerAscii(x)[1..];
      }
      if FoldsTo(x, tag) {
        assert tag == [tag[0]] + tag[1..];
      }
    }
  }

  /** regexp.MatchString. */
  predicate HasMatch(s: string, tag: string) {
    exists i :: 0 <= i <= |s| && MatchesAt(s, i, tag)
  }

  /** What replaces one match: a template that regexp.Expand rewrites, or literal text. */
  datatype Replacement = Template(template: string) | Literal(text: string)

  /** The number of leftmost, non-overlapping matches, as ReplaceAllString finds them. */
  function MatchCount(s: string, tag: string): nat
    requires |tag| > 0
    decreases |s|
  {
    if |s| < |tag| then 0
    else if MatchesAt(s, 0, tag) then 1 + MatchCount(s[|tag|..], tag)
    else MatchCount(s[1..], tag)
  }

  /** regexp.ReplaceAllString (Template) or ReplaceAllLiteralString (Literal), scanning left to right. */
  function ReplaceAllMatches(s: string, tag: string, rep: Replacement): string
    requires |tag| > 0
    decreases |s|
  {
    if |s| < |tag| then s
    else if MatchesAt(s, 0, tag) then
      var replaced := match rep
        case Template(t) => Expand(t, s[..|tag|])
        case Literal(t) => t;
      replaced + ReplaceAllMatches(s[|tag|..], tag, rep)
    else [s[0]] + ReplaceAllMatches(s[1..], tag, rep)
  }

  /** Some match exists exactly when the scan counts at least one. */
  lemma {:induction false} CountPositiveIffMatch(s: string, tag: string)
    requires |tag| > 0
    ensures MatchCount(s, tag) > 0 <==> HasMatch(s, tag)
    decreases |s|
  {
    if |s| < |tag| {
      assert forall i :: 0 <= i <= |s| ==> !MatchesAt(s, i, tag);
    } else if MatchesAt(s, 0, tag) {
      assert MatchesAt(s, 0, tag);
    } else {
      CountPositiveIffMatch(s[1..], tag);
      forall i | 0 <= i <= |s| - 1 ensures MatchesAt(s[1..], i, tag) <==> MatchesAt(s, i + 1, tag) {
        if i + |tag| <= |s| - 1 {
          assert s[1..][i..i + |tag|] == s[i + 1..i + 1 + |tag|];
        }
      }
      if HasMatch(s, tag) {
        var i :| 0 <= i <= |s| && MatchesAt(s, i, tag);
        assert i > 0;
        assert MatchesAt(s[1..], i - 1, tag);
      }
      if HasMatch(s[1..], tag) {
        var i :| 0 <= i <= |s| - 1 && MatchesAt(s[1..], i, tag);
        assert MatchesAt(s, i + 1, tag);
      }
    }
  }

  /** Literal replacement grows the text by the length difference once per match. */
  lemma {:induction false} LiteralReplaceLength(s: string, tag: string, t: string)
    requires |tag| > 0
    ensures |ReplaceAllMatches(s, tag, Literal(t))| == |s| + MatchCount(s, tag) * (|t| - |tag|)
    decreases |s|
  {
    var d := |t| - |tag|;
    if |s| < |tag| {
    } else if MatchesAt(s, 0, tag) {
      var rest := s[|tag|..];
      LiteralReplaceLength(rest, tag, t);
      var r := ReplaceAllMatches(rest, tag, Literal(t));
      var c := MatchCount(rest, tag);
      assert ReplaceAllMatches(s, tag, Literal(t)) == t + r;
      assert MatchCount(s, tag) == 1 + c;
      MatchStepArith(|s|, |rest|, |r|, c, |t|, |tag|);
    } else {
      var rest := s[1..];
      LiteralReplaceLength(rest, tag, t);
      var r := ReplaceAllMatches(rest, tag, Literal(t));
      assert ReplaceAllMatches(s, tag, Literal(t)) == [s[0]] + r;
      assert MatchCount(s, tag) == MatchCount(rest, tag);
    }
  }

  /**
   * Helper of LiteralReplaceLength, kept apart so that its nonlinear step is
   * solved without the sequence facts around it.
   */
  lemma MatchStepArith(n: int, m: int, rl: int, c: int, tl: int, tagl: int)
    requires n == tagl + m && rl == m + c * (tl - tagl)
    ensures tl + rl == n + (1 + c) * (tl - tagl)
  {
  }

  /** i is where the left-to-right scan finds its first match: a match with none before it. */
  predicate FirstMatchAt(s: string, i: nat, tag: string) {
    MatchesAt(s, i, tag) && forall j :: 0 <= j < i ==> !MatchesAt(s, j, tag)
  }

  /**
   * Literal replacement keeps the text before the first match, puts the
   * replacement in place of the matched tag, and carries on after it.
   */
  lemma {:induction false} ReplaceAtFirstMatch(s: string, tag: string, t: string, i: nat)
    requires |tag| > 0 && FirstMatchAt(s, i, tag)
    ensures ReplaceAllMatches(s, tag, Literal(t)) == s[..i] + t + ReplaceAllMatches(s[i + |tag|..], tag, Literal(t))
    decreases i, 1
  {
    if i == 0 {
      ReplaceHere(s, tag, t, i);
    } else {
      ReplaceBeforeFirstMatch(s, tag, t, i);
    }
  }

  /** ReplaceAtFirstMatch when the first match is further in: the scan copies the first character, then the rest's case. */
  lemma {:induction false} ReplaceBeforeFirstMatch(s: string, tag: string, t: string, i: nat)
    requires |tag| > 0 && FirstMatchAt(s, i, tag) && i > 0
    ensures ReplaceAllMatches(s, tag, Literal(t)) == s[..i] + t + ReplaceAllMatches(s[i + |tag|..], tag, Literal(t))
    decreases i, 0
  {
    FirstMatchAtStep(s, tag, i);
    ReplaceAtFirstMatch(s[1..], tag, t, i - 1);
    ReplaceAtFirstMatchStep(s, tag, t, i);
  }

  /** The inductive step of ReplaceAtFirstMatch: the first character is copied in front of the rest's replacement. */
  lemma ReplaceAtFirstMatchStep(s: string, tag: string, t: string, i: nat)
    requires |tag| > 0 && 0 < i && i + |tag| <= |s| && !MatchesAt(s, 0, tag)
    requires ReplaceAllMatches(s[1..], tag, Literal(t)) == s[1..][..i - 1] + t + ReplaceAllMatches(s[1..][i - 1 + |tag|..], tag, Literal(t))
    ensures ReplaceAllMatches(s, tag, Literal(t)) == s[..i] + t + ReplaceAllMatches(s[i + |tag|..], tag, Literal(t))
  {
    ReplaceStep(s, tag, Literal(t));
    TailAgrees(s, i, tag, t);
    PrefixCons(s, i);
    Regroup(ReplaceAllMatches(s, tag, Literal(t)), s[0], ReplaceAllMatches(s[1..], tag, Literal(t)), s[1..][..i - 1], t,
            ReplaceAllMatches(s[1..][i - 1 + |tag|..], tag, Literal(t)), ReplaceAllMatches(s[i + |tag|..], tag, Literal(t)), s[..i]);
  }

  /** A match at the front is replaced, and the scan carries on after it. */
  lemma ReplaceHere(s: string, tag: string, t: string, i: nat)
    requires |tag| > 0 && i == 0 && MatchesAt(s, i, tag)
    ensures ReplaceAllMatches(s, tag, Literal(t)) == s[..i] + t + ReplaceAllMatches(s[i + |tag|..], tag, Literal(t))
  {
    assert s[..i] + t == t;
  }

  /** A first match further in is, one character on, the first match of the rest. */
  lemma FirstMatchAtStep(s: string, tag: string, i: nat)
    requires |tag| > 0 && FirstMatchAt(s, i, tag) && i > 0
    ensures i + |tag| <= |s| && !MatchesAt(s, 0, tag) && FirstMatchAt(s[1..], i - 1, tag)
  {
    assert !MatchesAt(s, 0, tag);
    forall j | 0 <= j < i ensures MatchesAt(s[1..], j, tag) == MatchesAt(s, j + 1, tag) {
      MatchesShift(s, j, tag);
    }
  }

  /** Without a match at the front, the first character is copied. */
  lemma ReplaceStep(s: string, tag: string, rep: Replacement)
    requires |tag| > 0 && |s| >= |tag| && !MatchesAt(s, 0, tag)
    ensures ReplaceAllMatches(s, tag, rep) == [s[0]] + ReplaceAllMatches(s[1..], tag, rep)
  {
  }

  /** The sequence step of ReplaceAtFirstMatch, over opaque strings. */
  lemma Regroup(w: string, c: char, x: string, pre: string, t: string, r: string, r': string, prefix: string)
    requires w == [c] + x && x == pre + t + r && r == r' && prefix == [c] + pre
    ensures w == prefix + t + r'
  {
  }

  /** What follows the match is the same text whether counted in s or in s without its first character. */
  lemma TailAgrees(s: string, i: nat, tag: string, t: string)
    requires |tag| > 0 && 0 < i && i + |tag| <= |s|
    ensures ReplaceAllMatches(s[1..][i - 1 + |tag|..], tag, Literal(t)) == ReplaceAllMatches(s[i + |tag|..], tag, Literal(t))
  {
    assert s[1..][i - 1 + |tag|..] == s[i + |tag|..];
  }

  /** A prefix is the first character followed by a prefix of the rest. */
  lemma PrefixCons(s: string, i: nat)
    requires 0 < i <= |s|
    ensures s[..i] == [s[0]] + s[1..][..i - 1]
  {
  }

  /** Matching one character further in is matching in the text without its first character. */
  lemma MatchesShift(s: string, j: nat, tag: string)
    requires |s| > 0
    ensures MatchesAt(s[1..], j, tag) == MatchesAt(s, j + 1, tag)
  {
    if j + 1 + |tag| <= |s| {
      assert s[1..][j..j + |tag|] == s[j + 1..j + 1 + |tag|];
    }
  }

  /** With no match the text is unchanged, whatever the replacement. */
  lemma {:induction false} NoMatchUnchanged(s: string, tag: string, rep: Replacement)
    requires |tag| > 0 && !HasMatch(s, tag)
    ensures ReplaceAllMatches(s, tag, rep) == s
    decreases |s|
  {
    if |s| >= |tag| {
      assert !MatchesAt(s, 0, tag);
      CountPositiveIffMatch(s, tag);
      CountPositiveIffMatch(s[1..], tag);
      NoMatchUnchanged(s[1..], tag, rep);
    }
  }

  // ---------------------------------------------------------------------
  // regexp.Expand for a pattern without capture groups

  /** A character of a template variable name (ASCII letters, digits, underscore). */
  predicate IsNameChar(c: char) {
    'a' <= c <= 'z' || 'A' <= c <= 'Z' || '0' <= c <= '9' || c == '_'
  }

  /** The length of the longest run of name characters at the front of s. */
  function NameLength(s: string): (n: nat)
    ensures n <= |s|
    ensures forall k :: 0 <= k < n ==> IsNameChar(s[k])
    ensures n < |s| ==> !IsNameChar(s[n])
  {
    if |s| > 0 && IsNameChar(s[0]) then 1 + NameLength(s[1..]) else 0
  }

  /**
   * regexp's extract, on the text after a `$`: a name, braced or as long as
   * possible, and the rest of the template; None when it is malformed (empty
   * name, or no closing brace).
   */
  function Extract(str: string): (r: Option<(string, string)>)
    ensures r.Some? ==> |r.value.0| > 0 && |r.value.1| < |str|
  {
    if |str| > 0 && str[0] == '{' then
      var n := NameLength(str[1..]);
      if n == 0 || n + 1 >= |str| || str[n + 1] != '}' then None
      else Some((str[1..n + 1], str[n + 2..]))
    else
      var n := NameLength(str);
      if n == 0 then None else Some((str[..n], str[n..]))
  }

  /**
   * The text a variable stands for: group 0, the whole match, is the only
   * group; every other number and every name expands to nothing.
   */
  function GroupText(name: string, matched: string): string {
    if name == "0" then matched else ""
  }

  /** regexp.Expand: `$$` gives `$`, a variable its group text, a malformed `$` itself. */
  function Expand(t: string, matched: string): string
    decreases |t|
  {
    if |t| == 0 then ""
    else if t[0] != '$' then [t[0]] + Expand(t[1..], matched)
    else if |t| > 1 && t[1] == '$' then "$" + Expand(t[2..], matched)
    else
      match Extract(t[1..])
      case None => "$" + Expand(t[1..], matched)
      case Some((name, rest)) => GroupText(name, matched) + Expand(rest, matched)
  }

  /** Text without `$` expands to itself. */
  lemma {:induction false} ExpandLiteral(t: string, matched: string)
    requires Free(t, '$')
    ensures Expand(t, matched) == t
    decreases |t|
  {
    if |t| > 0 {
      ExpandLiteral(t[1..], matched);
      assert [t[0]] + t[1..] == t;
    }
  }

  /** A `$`-free prefix passes through Expand unchanged. */
  lemma {:induction false} ExpandLiteralPrefix(p: string, t: string, matched: string)
    requires Free(p, '$')
    ensures Expand(p + t, matched) == p + Expand(t, matched)
    decreases |p|
  {
    if |p| > 0 {
      assert (p + t)[0] == p[0] && (p + t)[1..] == p[1..] + t;
      ExpandLiteralPrefix(p[1..], t, matched);
      assert [p[0]] + p[1..] == p;
      assert [p[0]] + (p[1..] + Expand(t, matched)) == p + Expand(t, matched);
    } else {
      assert p + t == t;
    }
  }

  /** A template replacement without `$` is the literal one. */
  lemma {:induction false} TemplateWithoutDollarIsLiteral(s: string, tag: string, t: string)
    requires |tag| > 0 && Free(t, '$')
    ensures ReplaceAllMatches(s, tag, Template(t)) == ReplaceAllMatches(s, tag, Literal(t))
    decreases |s|
  {
    if |s| >= |tag| {
      if MatchesAt(s, 0, tag) {
        ExpandLiteral(t, s[..|tag|]);
        TemplateWithoutDollarIsLiteral(s[|tag|..], tag, t);
      } else {
        TemplateWithoutDollarIsLiteral(s[1..], tag, t);
      }
    }
  }

  // ---------------------------------------------------------------------
  // InjectScript and InjectHTML

  function ScriptBefore(script: string, tag: string): string {
    "<script>" + script + "</script>" + tag
  }

  /** InjectScript as written: the replacement goes through template expansion. */
  function InjectScriptAsWritten(html: string, script: string): string {
    if HasMatch(html, HeadClose) then ReplaceAllMatches(html, HeadClose, Template(ScriptBefore(script, HeadClose)))
    else if HasMatch(html, BodyClose) then ReplaceAllMatches(html, BodyClose, Template(ScriptBefore(script, BodyClose)))
    else html + "<script>" + script + "</script>"
  }

  /** InjectHTML as written. */
  function InjectHTMLAsWritten(html: string, content: string): string {
    if HasMatch(html, BodyClose) then ReplaceAllMatches(html, BodyClose, Template(content + BodyClose))
    else html + content
  }

  /** InjectScript with the script inserted literally. */
  function InjectScript(html: string, script: string): string {
    if HasMatch(html, HeadClose) then ReplaceAllMatches(html, HeadClose, Literal(ScriptBefore(script, HeadClose)))
    else if HasMatch(html, BodyClose) then ReplaceAllMatches(html, BodyClose, Literal(ScriptBefore(script, BodyClose)))
    else html + "<script>" + script + "</script>"
  }

  /** InjectHTML with the content inserted literally. */
  function InjectHTML(html: string, content: string): string {
    if HasMatch(html, BodyClose) then ReplaceAllMatches(html, BodyClose, Literal(content + BodyClose))
    else html + content
  }

  /**
   * InjectScript: with a `</head>` the script goes before each of them and
   * `</body>` plays no part; else before each `</body>`; else at the end.
   * Each insertion adds the script and its two tags, 17 characters.
   */
  lemma InjectScriptPlacement(html: string, script: string)
    ensures HasMatch(html, HeadClose) ==>
      |InjectScript(html, script)| == |html| + MatchCount(html, HeadClose) * (|script| + 17)
      && MatchCount(html, HeadClose) >= 1
    ensures !HasMatch(html, HeadClose) && HasMatch(html, BodyClose) ==>
      |InjectScript(html, script)| == |html| + MatchCount(html, BodyClose) * (|script| + 17)
      && MatchCount(html, BodyClose) >= 1
    ensures !HasMatch(html, HeadClose) && !HasMatch(html, BodyClose) ==>
      InjectScript(html, script) == html + "<script>" + script + "</script>"
      && MatchCount(html, HeadClose) == 0 && MatchCount(html, BodyClose) == 0
  {
    CountPositiveIffMatch(html, HeadClose);
    CountPositiveIffMatch(html, BodyClose);
    LiteralReplaceLength(html, HeadClose, ScriptBefore(script, HeadClose));
    LiteralReplaceLength(html, BodyClose, ScriptBefore(script, BodyClose));
  }

  /** InjectHTML: the content goes before each `</body>`, or at the end when there is none. */
  lemma InjectHTMLPlacement(html: string, content: string)
    ensures HasMatch(html, BodyClose) ==>
      |InjectHTML(html, content)| == |html| + MatchCount(html, BodyClose) * |content|
      && MatchCount(html, BodyClose) >= 1
    ensures !HasMatch(html, BodyClose) ==> InjectHTML(html, content) == html + content
  {
    CountPositiveIffMatch(html, BodyClose);
    LiteralReplaceLength(html, BodyClose, content + BodyClose);
  }

  /**
   * Where InjectScript puts the script: in front of the first `</head>`
   * (whatever its case, which comes out lower-case), the text before it
   * untouched, and the same again for the rest of the page.
   */
  lemma InjectScriptBeforeHead(html: string, script: string, i: nat)
    requires FirstMatchAt(html, i, HeadClose)
    ensures InjectScript(html, script) ==
      html[..i] + ("<script>" + script + "</script>" + HeadClose)
      + ReplaceAllMatches(html[i + |HeadClose|..], HeadClose, Literal(ScriptBefore(script, HeadClose)))
  {
    assert MatchesAt(html, i, HeadClose);
    ReplaceAtFirstMatch(html, HeadClose, ScriptBefore(script, HeadClose), i);
  }

  /** Without a `</head>`, the script goes in front of the first `</body>`, and so on for the rest. */
  lemma InjectScriptBeforeBody(html: string, script: string, i: nat)
    requires !HasMatch(html, HeadClose) && FirstMatchAt(html, i, BodyClose)
    ensures InjectScript(html, script) ==
      html[..i] + ("<script>" + script + "</script>" + BodyClose)
      + ReplaceAllMatches(html[i + |BodyClose|..], BodyClose, Literal(ScriptBefore(script, BodyClose)))
  {
    assert MatchesAt(html, i, BodyClose);
    ReplaceAtFirstMatch(html, BodyClose, ScriptBefore(script, BodyClose), i);
  }

  /** InjectHTML puts the content in front of the first `</body>`, and so on for the rest. */
  lemma InjectHTMLBeforeBody(html: string, content: string, i: nat)
    requires FirstMatchAt(html, i, BodyClose)
    ensures InjectHTML(html, content) ==
      html[..i] + (content + BodyClose) + ReplaceAllMatches(html[i + |BodyClose|..], BodyClose, Literal(content + BodyClose))
  {
    assert MatchesAt(html, i, BodyClose);
    ReplaceAtFirstMatch(html, BodyClose, content + BodyClose, i);
  }

  /** Past the last match the scan copies the text: a page with exactly one `</body>` gets the content just before it. */
  lemma InjectHTMLSingleBody(html: string, content: string, i: nat)
    requires FirstMatchAt(html, i, BodyClose) && !HasMatch(html[i + |BodyClose|..], BodyClose)
    ensures InjectHTML(html, content) == html[..i] + (content + BodyClose) + html[i + |BodyClose|..]
  {
    InjectHTMLBeforeBody(html, content, i);
    NoMatchUnchanged(html[i + |BodyClose|..], BodyClose, Literal(content + BodyClose));
  }

  /** The tag put back is always the lower-case constant: an upper-case `</BODY>` comes out as `</body>`. */
  lemma InsertedTagIsLowerCase(content: string)
    ensures InjectHTML("</BODY>", content) == content + "</body>"
  {
    var s := "</BODY>";
    assert LowerChar('B') == 'b' && LowerChar('O') == 'o' && LowerChar('D') == 'd' && LowerChar('Y') == 'y';
    assert FoldsTo(">", ">");
    assert FoldsTo("Y>", "y>");
    assert FoldsTo("DY>", "dy>");
    assert FoldsTo("ODY>", "ody>");
    assert FoldsTo("BODY>", "body>");
    assert FoldsTo("/BODY>", "/body>");
    assert FoldsTo(s, BodyClose);
    assert s[0..|BodyClose|] == s;
    assert MatchesAt(s, 0, BodyClose);
    assert s[|BodyClose|..] == "";
  }

  /** For script and content text without `$` the code as written inserts literally. */
  lemma AsWrittenAgreesWithoutDollar(html: string, text: string)
    requires Free(text, '$')
    ensures InjectScriptAsWritten(html, text) == InjectScript(html, text)
    ensures InjectHTMLAsWritten(html, text) == InjectHTML(html, text)
  {
    forall tag | tag == HeadClose || tag == BodyClose ensures Free(ScriptBefore(text, tag), '$') && Free(text + tag, '$') {
      assert forall k :: 0 <= k < |tag| ==> tag[k] != '$';
    }
    TemplateWithoutDollarIsLiteral(html, HeadClose, ScriptBefore(text, HeadClose));
    TemplateWithoutDollarIsLiteral(html, BodyClose, ScriptBefore(text, BodyClose));
    TemplateWithoutDollarIsLiteral(html, BodyClose, text + BodyClose);
  }

  /** `$x` followed by a `$`-free text that does not start with a name character expands to that text. */
  lemma {:induction false} ExpandDropsVariable(tail: string, matched: string)
    requires Free(tail, '$') && |tail| > 0 && !IsNameChar(tail[0])
    ensures Expand("$x" + tail, matched) == tail
  {
    var t := "$x" + tail;
    assert t[0] == '$' && t[1] == 'x';
    assert t[1..] == "x" + tail;
    assert NameLength("x" + tail) == 1 by {
      assert ("x" + tail)[1..] == tail;
      assert NameLength(tail) == 0;
    }
    assert ("x" + tail)[..1] == "x" && ("x" + tail)[1..] == tail;
    assert Extract(t[1..]) == Some(("x", tail));
    ExpandLiteral(tail, matched);
  }

  /** A document that is just `</head>` matches once, at its start. */
  lemma HeadCloseAlone()
    ensures MatchesAt(HeadClose, 0, HeadClose) && HasMatch(HeadClose, HeadClose)
    ensures forall t :: ReplaceAllMatches(HeadClose, HeadClose, Template(t)) == Expand(t, HeadClose)
    ensures forall t :: ReplaceAllMatches(HeadClose, HeadClose, Literal(t)) == t
  {
    var s := HeadClose;
    assert ToLowerAscii(s) == s by {
      assert forall k :: 0 <= k < |s| ==> LowerChar(s[k]) == s[k];
    }
    FoldsToIsLowerEqual(s, HeadClose);
    assert s[0..|HeadClose|] == s;
    assert MatchesAt(s, 0, HeadClose);
    assert 0 <= 0 <= |s| && MatchesAt(s, 0, HeadClose);
    assert s[|HeadClose|..] == "";
  }

  /** ScriptBefore regrouped from the right. */
  lemma ScriptBeforeShape(script: string, tag: string)
    ensures ScriptBefore(script, tag) == "<script>" + (script + ("</script>" + tag))
  {
  }

  /** `$x` between two `$`-free texts expands to nothing, when no name character follows it. */
  lemma DropBetween(open: string, tail: string, matched: string)
    requires Free(open, '$') && Free(tail, '$') && |tail| > 0 && !IsNameChar(tail[0])
    ensures Expand(open + ("$x" + tail), matched) == open + tail
  {
    ExpandLiteralPrefix(open, "$x" + tail, matched);
    ExpandDropsVariable(tail, matched);
  }

  lemma WrapperDollarFree()
    ensures Free("<script>", '$') && Free("</script>" + HeadClose, '$')
  {
    var tail := "</script>" + HeadClose;
    assert forall k :: 0 <= k < |tail| ==> tail[k] != '$';
    assert forall k :: 0 <= k < 8 ==> "<script>"[k] != '$';
  }

  /** Expanding the wrapped `$x` leaves the wrapper around nothing. */
  lemma WrappedVariableDropped()
    ensures Expand(ScriptBefore("$x", HeadClose), HeadClose) == ScriptBefore("", HeadClose)
  {
    WrapperDollarFree();
    ScriptBeforeShape("$x", HeadClose);
    ScriptBeforeShape("", HeadClose);
    DropBetween("<script>", "</script>" + HeadClose, HeadClose);
  }

  /**
   * A script that mentions `$x` loses it: the code as written expands the
   * variable to nothing, where literal insertion keeps it.
   */
  lemma DollarVariableIsDropped()
    ensures InjectScriptAsWritten(HeadClose, "$x") == ScriptBefore("", HeadClose)
    ensures InjectScript(HeadClose, "$x") == ScriptBefore("$x", HeadClose)
    ensures InjectScriptAsWritten(HeadClose, "$x") != InjectScript(HeadClose, "$x")
  {
    HeadCloseAlone();
    WrappedVariableDropped();
    assert |ScriptBefore("$x", HeadClose)| == |ScriptBefore("", HeadClose)| + 2;
  }
}
