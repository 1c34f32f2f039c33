/**
 * The deployment post-processing of the exported web page: a base tag is
 * added after the first `<head>` when the page has none, then every
 * root-relative `src="/..."` and `href="/..."` attribute is moved under the
 * site's sub-directory, with a few kinds of `href` left alone.
 */
module PostBuild {
  import opened Wrappers
  import opened Strings

  const BasePath := "/cryptoshield/"
  const HeadTag := "<head>"
  /** The template `<base href="${BASE_PATH}">`. */
  const BaseTag := "<base href=\"" + BasePath + "\">"
  /** What the first `<head>` is replaced with: the head, a line break and four spaces, then the base tag. */
  const HeadWithBase := HeadTag + "\n    " + BaseTag

  // ---------------------------------------------------------------- the base tag

  /** A text lacks `sub` when `sub` holds a character the text does not. */
  lemma {:induction false} MissingChar(s: string, sub: string, c: char)
    requires c in sub && c !in s
    ensures !Contains(s, sub)
    decreases |s|
  {
    StartsWithIsPrefix(s, sub);
    var k :| 0 <= k < |sub| && sub[k] == c;
    if k < |s| {
      assert s[k] != c;
      assert |sub| <= |s| ==> s[..|sub|][k] != sub[k];
    }
    if |s| > 0 {
      assert c !in s[1..];
      MissingChar(s[1..], sub, c);
    }
  }

  /** The first step of `processHtmlFile`: with no `<base` anywhere, the first `<head>` gets the base tag after it. */
  function AddBaseTag(content: string): (r: string)
    ensures Contains(content, "<base") ==> r == content
    ensures !Contains(content, HeadTag) ==> r == content
    ensures !Contains(content, "<base") && IndexOf(content, HeadTag).Some? ==>
              var i := IndexOf(content, HeadTag).value;
              r == content[..i] + HeadWithBase + content[i + |HeadTag|..]
  {
    if !Contains(content, "<base") then ReplaceFirst(content, HeadTag, HeadWithBase) else content
  }

  /** A text holds whatever sits in its middle. */
  lemma ContainsMiddle(a: string, b: string, c: string)
    ensures Contains(a + b + c, b)
  {
    StartsWithConcat(b, c);
    ContainsInConcat(a, b + c, b);
    assert a + b + c == a + (b + c);
  }

  /** The base tag starts with `<base`. */
  lemma BaseTagOpens()
    ensures "<base href=\"" == "<base" + " href=\""
  {
  }

  /** Four texts joined around a middle one, regrouped. */
  lemma Regroup4(a: string, b: string, c: string, d: string)
    ensures a + (b + c) + d == (a + b) + c + d
  {
  }

  /** Whatever surrounds it, the inserted text holds the whole base tag. */
  lemma InsertedHasBaseTag(pre: string, post: string)
    ensures Contains(pre + HeadWithBase + post, BaseTag)
  {
    Regroup4(pre, HeadTag + "\n    ", BaseTag, post);
    ContainsMiddle(pre + (HeadTag + "\n    "), BaseTag, post);
  }

  /** Whatever surrounds it, the inserted text holds `<base`. */
  lemma InsertedHasBase(pre: string, post: string)
    ensures Contains(pre + HeadWithBase + post, "<base")
  {
    InsertedHasBaseTag(pre, post);
    BaseTagOpens();
    assert BaseTag == "<base" + (" href=\"" + BasePath + "\">");
    StartsWithConcat("<base", " href=\"" + BasePath + "\">");
    assert Contains(BaseTag, "<base");
    ContainsTransitive(pre + HeadWithBase + post, BaseTag, "<base");
  }

  /** After the step the page has a base tag whenever it had one or had a `<head>`. */
  lemma AddBaseTagPresent(content: string)
    requires Contains(content, "<base") || Contains(content, HeadTag)
    ensures Contains(AddBaseTag(content), "<base")
  {
    if !Contains(content, "<base") {
      var i := IndexOf(content, HeadTag).value;
      InsertedHasBase(content[..i], content[i + |HeadTag|..]);
    }
  }

  // ---------------------------------------------------------------- the attribute rewrites

  /**
   * The two global rewrites: `src` and `href` as written, and `href` with the
   * protocol-relative test applied to the whole address (see
   * `ProcessHtmlFileCorrected`).
   */
  datatype Attr = Src | Href | HrefCorrected

  /** The literal part of the pattern, up to and including the leading slash. */
  function Opening(a: Attr): (o: string)
    ensures |o| >= 2 && o[|o| - 1] == '/' && o[|o| - 2] == '"'
  {
    match a
    case Src => "src=\"/"
    case _ => "href=\"/"
  }

  /** The position of the first double quote. */
  function FirstQuote(s: string): (r: Option<nat>)
    ensures r.Some? ==> r.value < |s| && s[r.value] == '"' && forall k :: 0 <= k < r.value ==> s[k] != '"'
    ensures r.None? ==> forall k :: 0 <= k < |s| ==> s[k] != '"'
  {
    if |s| == 0 then None
    else if s[0] == '"' then Some(0)
    else match FirstQuote(s[1..])
      case None => None
      case Some(q) => Some(q + 1)
  }

  predicate QuoteFree(s: string) {
    forall k :: 0 <= k < |s| ==> s[k] != '"'
  }

  /** A match of the pattern at the front of `s`: its captured path, one or more characters up to the next quote. */
  function MatchAt(s: string, a: Attr): (r: Option<string>)
    ensures r.Some? ==> |r.value| > 0 && |Opening(a)| + |r.value| + 1 <= |s|
  {
    StartsWithIsPrefix(s, Opening(a));
    if StartsWith(s, Opening(a)) then
      var rest := s[|Opening(a)|..];
      match FirstQuote(rest)
      case None => None
      case Some(q) => if q > 0 then Some(rest[..q]) else None
    else None
  }

  /** A match is the opening, a quote-free path and its closing quote. */
  lemma MatchAtSpec(s: string, a: Attr)
    requires MatchAt(s, a).Some?
    ensures var path := MatchAt(s, a).value;
            && QuoteFree(path) && StartsWith(s, Opening(a))
            && s[..|Opening(a)| + |path| + 1] == Opening(a) + path + "\""
  {
    StartsWithIsPrefix(s, Opening(a));
    var n := |Opening(a)|;
    var rest := s[n..];
    var q := FirstQuote(rest).value;
    assert s[..n] == Opening(a);
    assert rest[..q + 1] == rest[..q] + "\"";
    assert s[..n + q + 1] == s[..n] + rest[..q + 1];
  }

  /** The callback's exemption, tested on the path after the first slash. */
  predicate Exempt(path: string) {
    StartsWith(path, "http") || StartsWith(path, "data:") || StartsWith(path, "//")
  }

  /** The same test on the whole address: a protocol-relative address is one whose path starts with a slash. */
  predicate ExemptCorrected(path: string) {
    StartsWith(path, "http") || StartsWith(path, "data:") || StartsWith(path, "/")
  }

  /** What comes before the path in the replacement text. */
  function Lead(a: Attr, path: string): string {
    match a
    case Src => "src=\"" + BasePath
    case Href => if Exempt(path) then Opening(a) else "href=\"" + BasePath
    case HrefCorrected => if ExemptCorrected(path) then Opening(a) else "href=\"" + BasePath
  }

  function Replacement(a: Attr, path: string): string {
    Lead(a, path) + path + "\""
  }

  /** The `src` lead is its opening followed by the sub-directory. */
  lemma SrcLeadText()
    ensures "src=\"" + BasePath == Opening(Src) + "cryptoshield/"
  {
  }

  /** The rewritten `href` lead is its opening followed by the sub-directory. */
  lemma HrefLeadText()
    ensures "href=\"" + BasePath == Opening(Href) + "cryptoshield/"
  {
  }

  /** Every lead is the opening, or the opening followed by the sub-directory. */
  lemma LeadShape(a: Attr, path: string)
    ensures Lead(a, path) == Opening(a) || Lead(a, path) == Opening(a) + "cryptoshield/"
  {
    match a
    case Src => SrcLeadText();
    case Href => HrefLeadText();
    case HrefCorrected => HrefLeadText();
  }

  /** Every replacement keeps the match or inserts the sub-directory right after its leading slash. */
  lemma ReplacementShape(a: Attr, path: string)
    ensures Replacement(a, path) == Opening(a) + path + "\""
            || Replacement(a, path) == Opening(a) + "cryptoshield/" + path + "\""
    ensures Lead(a, path)[..|Opening(a)| - 1] == Opening(a)[..|Opening(a)| - 1]
    ensures |Lead(a, path)| >= |Opening(a)|
  {
    LeadShape(a, path);
    var o := Opening(a);
    if Lead(a, path) != o {
      assert Lead(a, path)[..|o| - 1] == o[..|o| - 1];
    }
  }

  /** The replacement texts written out. */
  lemma ReplacementTexts(path: string)
    ensures Replacement(Src, path) == "src=\"/cryptoshield/" + path + "\""
    ensures Replacement(Href, path) == if Exempt(path) then "href=\"/" + path + "\"" else "href=\"/cryptoshield/" + path + "\""
    ensures Replacement(HrefCorrected, path) == if ExemptCorrected(path) then "href=\"/" + path + "\"" else "href=\"/cryptoshield/" + path + "\""
  {
  }

  /** `content.replace(/<name>="\/([^"]+)"/g, ...)`: matches are found left to right and do not overlap. */
  function RewriteAll(s: string, a: Attr): (r: string)
    decreases |s|
  {
    if |s| == 0 then ""
    else match MatchAt(s, a)
      case Some(path) => Replacement(a, path) + RewriteAll(s[|Opening(a)| + |path| + 1..], a)
      case None => [s[0]] + RewriteAll(s[1..], a)
  }

  /** `processHtmlFile`. */
  function ProcessHtmlFile(content: string): string {
    RewriteAll(RewriteAll(AddBaseTag(content), Src), Href)
  }

  // ---------------------------------------------------------------- properties of the rewrites

  /** The first quote after a quote-free path is the one that closes it. */
  lemma ClosingQuote(path: string, rest: string)
    requires QuoteFree(path)
    ensures FirstQuote(path + "\"" + rest) == Some(|path|)
  {
    var t := path + "\"" + rest;
    assert t[|path|] == '"';
    assert forall k :: 0 <= k < |path| ==> t[k] == path[k];
  }

  /** A quote-free path between the opening and a quote is a match. */
  lemma MatchAtFront(a: Attr, path: string, rest: string)
    requires |path| > 0 && QuoteFree(path)
    ensures MatchAt(Opening(a) + path + "\"" + rest, a) == Some(path)
  {
    var t := path + "\"" + rest;
    assert Opening(a) + path + "\"" + rest == Opening(a) + t;
    FrontPieces(Opening(a), t);
    ClosingQuote(path, rest);
    assert t[..|path|] == path;
  }

  /** A text starts with its first part, and what follows that part is the second. */
  lemma FrontPieces(o: string, t: string)
    ensures StartsWith(o + t, o) && (o + t)[|o|..] == t
  {
    StartsWithConcat(o, t);
  }

  /** A match at the front is replaced and the scan resumes after it. */
  lemma RewriteMatch(a: Attr, path: string, rest: string)
    requires |path| > 0 && QuoteFree(path)
    ensures RewriteAll(Opening(a) + path + "\"" + rest, a) == Replacement(a, path) + RewriteAll(rest, a)
  {
    var s := Opening(a) + path + "\"" + rest;
    MatchAtFront(a, path, rest);
    assert s[|Opening(a)| + |path| + 1..] == rest;
  }

  /** A character where no match starts is copied. */
  lemma RewriteSkipChar(c: char, rest: string, a: Attr)
    requires !StartsWith([c] + rest, Opening(a))
    ensures RewriteAll([c] + rest, a) == [c] + RewriteAll(rest, a)
  {
    assert ([c] + rest)[1..] == rest;
  }

  /** Text without the pattern's first character is copied. */
  lemma {:induction false} RewriteSkip(x: string, rest: string, a: Attr)
    requires Opening(a)[0] !in x
    ensures RewriteAll(x + rest, a) == x + RewriteAll(rest, a)
    decreases |x|
  {
    if |x| > 0 {
      var s := x + rest;
      assert s[0] == x[0];
      assert !StartsWith(s, Opening(a));
      assert s[1..] == x[1..] + rest;
      RewriteSkip(x[1..], rest, a);
      assert x == [x[0]] + x[1..];
    } else {
      assert x + rest == rest;
    }
  }

  /** Text without the pattern is returned unchanged. */
  lemma {:induction false} RewriteUntouched(s: string, a: Attr)
    requires !Contains(s, Opening(a))
    ensures RewriteAll(s, a) == s
    decreases |s|
  {
    if |s| > 0 {
      RewriteUntouched(s[1..], a);
      assert s == [s[0]] + s[1..];
    }
  }

  /** What a match at the front means: the opening, the path, the quote, then the rest. */
  lemma MatchShape(s: string, a: Attr)
    requires MatchAt(s, a).Some?
    ensures var path := MatchAt(s, a).value;
            var n := |Opening(a)|;
            && n + |path| + 1 <= |s|
            && s[..n] == Opening(a)
            && s == Opening(a) + path + "\"" + s[n + |path| + 1..]
  {
    MatchAtSpec(s, a);
    var path := MatchAt(s, a).value;
    var n := |Opening(a)|;
    var len := n + |path| + 1;
    assert s[..len][..n] == (Opening(a) + path + "\"")[..n];
    assert s == s[..len] + s[len..];
  }

  /** The output after a match: its lead, the path, the quote, then the rest's output. */
  lemma MatchOutput(s: string, a: Attr)
    requires MatchAt(s, a).Some?
    ensures var path := MatchAt(s, a).value;
            var n := |Opening(a)|;
            && n + |path| + 1 <= |s|
            && RewriteAll(s, a) == Lead(a, path) + (path + "\"" + RewriteAll(s[n + |path| + 1..], a))
  {
    var path := MatchAt(s, a).value;
    var rest := s[|Opening(a)| + |path| + 1..];
    assert RewriteAll(s, a) == Replacement(a, path) + RewriteAll(rest, a);
    RegroupReplacement(Lead(a, path), path, RewriteAll(rest, a));
  }

  lemma RegroupReplacement(lead: string, path: string, x: string)
    ensures lead + path + "\"" + x == lead + (path + "\"" + x)
  {
  }

  /** A slash-free prefix of a matched text lies inside the opening before its slash, which every lead repeats. */
  lemma PrefixInLead(t: string, sub: string, o: string, lead: string, tail: string)
    requires |o| >= 1 && |o| <= |t| && t[..|o|] == o && o[|o| - 1] == '/'
    requires '/' !in sub && |sub| <= |t| && t[..|sub|] == sub
    requires |lead| >= |o| - 1 && lead[..|o| - 1] == o[..|o| - 1]
    ensures StartsWith(lead + tail, sub)
  {
    var n := |o|;
    if |sub| >= n {
      assert false;
    }
    forall k | 0 <= k < |sub| ensures (lead + tail)[k] == sub[k] {
      assert sub[k] == t[..n][k] == o[..n - 1][k];
      assert (lead + tail)[k] == lead[..n - 1][k];
    }
    assert (lead + tail)[..|sub|] == sub;
    StartsWithIsPrefix(lead + tail, sub);
  }

  /** A prefix without a slash survives the rewrite. */
  lemma {:induction false} PrefixKept(t: string, sub: string, a: Attr)
    requires '/' !in sub && StartsWith(t, sub)
    ensures StartsWith(RewriteAll(t, a), sub)
    decreases |t|
  {
    if |sub| > 0 {
      match MatchAt(t, a)
      case Some(path) =>
        MatchShape(t, a);
        MatchOutput(t, a);
        ReplacementShape(a, path);
        StartsWithIsPrefix(t, sub);
        var n := |Opening(a)|;
        PrefixInLead(t, sub, Opening(a), Lead(a, path), path + "\"" + RewriteAll(t[n + |path| + 1..], a));
      case None =>
        assert '/' !in sub[1..];
        PrefixKept(t[1..], sub[1..], a);
        assert RewriteAll(t, a) == [t[0]] + RewriteAll(t[1..], a);
        assert RewriteAll(t, a)[1..] == RewriteAll(t[1..], a);
    }
  }

  lemma SlashInside(s: string, sub: string, j: nat, p: nat)
    requires j + |sub| <= |s| && s[j..j + |sub|] == sub && j <= p < j + |sub| && s[p] == '/'
    ensures '/' in sub
  {
    assert sub[p - j] == s[j..j + |sub|][p - j];
  }

  /** An occurrence that ends before the opening's slash is repeated by the lead. */
  lemma OccurrenceInOpening(sub: string, o: string, lead: string, path: string, restOut: string, s: string, j: nat)
    requires |o| >= 1 && |lead| >= |o| - 1 && lead[..|o| - 1] == o[..|o| - 1]
    requires |o| <= |s| && s[..|o|] == o
    requires j + |sub| <= |o| - 1 && s[j..j + |sub|] == sub
    ensures Contains(lead + path + "\"" + restOut, sub)
  {
    var out := lead + path + "\"" + restOut;
    var n := |o|;
    forall k | 0 <= k < |sub| ensures out[j + k] == sub[k] {
      assert sub[k] == s[j..j + |sub|][k] == s[j + k] == s[..n][j + k] == o[..n - 1][j + k];
      assert out[j + k] == lead[..n - 1][j + k];
    }
    assert out[j..j + |sub|] == sub;
    ContainsAt(out, sub, j);
  }

  /**
   * An occurrence that starts after the opening's slash starts in the path or
   * at the quote, which the output keeps; what runs past the match is a
   * prefix of the rest's output.
   */
  lemma OccurrenceInPath(sub: string, o: string, lead: string, path: string, rest: string, restOut: string, j: nat)
    requires |lead| >= |o|
    requires var s := o + path + "\"" + rest;
             j + |sub| <= |s| && s[j..j + |sub|] == sub && |o| <= j < |o| + |path| + 1
    requires j + |sub| > |o| + |path| + 1 ==> StartsWith(restOut, sub[|o| + |path| + 1 - j..])
    ensures Contains(lead + path + "\"" + restOut, sub)
  {
    var s := o + path + "\"" + rest;
    var out := lead + path + "\"" + restOut;
    var n := |o|;
    var len := n + |path| + 1;
    var shift := |lead| - n;
    var m := len - j;
    forall k | 0 <= k < |sub| && k < m ensures out[j + shift + k] == sub[k] {
      assert sub[k] == s[j..j + |sub|][k] == s[j + k] == (path + "\"")[j + k - n];
      assert out[j + shift + k] == (path + "\"")[j + k - n];
    }
    if |sub| > m {
      StartsWithIsPrefix(restOut, sub[m..]);
      forall k | m <= k < |sub| ensures out[j + shift + k] == sub[k] {
        assert out[j + shift + k] == restOut[k - m] == sub[m..][k - m];
      }
    }
    assert out[j + shift..j + shift + |sub|] == sub;
    ContainsAt(out, sub, j + shift);
  }

  /**
   * A slash-free occurrence that starts inside a match: before the opening's
   * slash it is repeated by the lead, it cannot span that slash, and after it
   * it lies in the path, the quote and the rest's output.
   */
  lemma OccurrenceInMatch(sub: string, o: string, lead: string, path: string, rest: string, restOut: string, j: nat)
    requires |o| >= 1 && o[|o| - 1] == '/' && '/' !in sub
    requires |lead| >= |o| && lead[..|o| - 1] == o[..|o| - 1]
    requires var s := o + path + "\"" + rest;
             j + |sub| <= |s| && s[j..j + |sub|] == sub && j < |o| + |path| + 1
    requires j + |sub| > |o| + |path| + 1 ==> StartsWith(restOut, sub[|o| + |path| + 1 - j..])
    ensures Contains(lead + path + "\"" + restOut, sub)
  {
    var s := o + path + "\"" + rest;
    var n := |o|;
    if j + |sub| <= n - 1 {
      assert s[..n] == o;
      OccurrenceInOpening(sub, o, lead, path, restOut, s, j);
    } else if j <= n - 1 {
      assert s[n - 1] == '/';
      SlashInside(s, sub, j, n - 1);
      assert false;
    } else {
      OccurrenceInPath(sub, o, lead, path, rest, restOut, j);
    }
  }

  /** The part of an occurrence that runs past position `len` starts the text from there. */
  lemma OccurrenceTail(s: string, sub: string, j: nat, len: nat)
    requires j + |sub| <= |s| && s[j..j + |sub|] == sub && j < len < j + |sub|
    ensures StartsWith(s[len..], sub[len - j..]) && ('/' !in sub ==> '/' !in sub[len - j..])
  {
    var more := sub[len - j..];
    forall k | 0 <= k < |more| ensures s[len..][k] == more[k] {
      assert more[k] == sub[len - j + k] == s[j..j + |sub|][len - j + k];
    }
    assert s[len..][..|more|] == more;
    StartsWithIsPrefix(s[len..], more);
  }

  /** An occurrence in the output after a match is kept behind the match's replacement. */
  lemma KeepsSubstringAfterMatch(s: string, sub: string, a: Attr)
    requires MatchAt(s, a).Some?
    requires var len := |Opening(a)| + |MatchAt(s, a).value| + 1;
             Contains(RewriteAll(s[len..], a), sub)
    ensures Contains(RewriteAll(s, a), sub)
  {
    var path := MatchAt(s, a).value;
    MatchOutput(s, a);
    var restOut := RewriteAll(s[|Opening(a)| + |path| + 1..], a);
    ContainsInConcat(path + "\"", restOut, sub);
    ContainsInConcat(Lead(a, path), path + "\"" + restOut, sub);
  }

  /** An occurrence that starts inside a match survives the match's replacement. */
  lemma KeepsSubstringInMatch(s: string, sub: string, a: Attr, j: nat)
    requires '/' !in sub && MatchAt(s, a).Some?
    requires j + |sub| <= |s| && s[j..j + |sub|] == sub
    requires j < |Opening(a)| + |MatchAt(s, a).value| + 1
    ensures Contains(RewriteAll(s, a), sub)
  {
    var path := MatchAt(s, a).value;
    var rest := s[|Opening(a)| + |path| + 1..];
    InMatchReplaced(s, sub, a, j);
    MatchOutput(s, a);
    RegroupReplacement(Lead(a, path), path, RewriteAll(rest, a));
  }

  /** The same occurrence, in the replacement followed by the rewritten rest. */
  lemma InMatchReplaced(s: string, sub: string, a: Attr, j: nat)
    requires '/' !in sub && MatchAt(s, a).Some?
    requires j + |sub| <= |s| && s[j..j + |sub|] == sub
    requires j < |Opening(a)| + |MatchAt(s, a).value| + 1
    ensures var path := MatchAt(s, a).value;
            var rest := s[|Opening(a)| + |path| + 1..];
            Contains(Lead(a, path) + path + "\"" + RewriteAll(rest, a), sub)
  {
    var path := MatchAt(s, a).value;
    MatchShape(s, a);
    ReplacementShape(a, path);
    var len := |Opening(a)| + |path| + 1;
    var rest := s[len..];
    if j + |sub| > len {
      OccurrenceTail(s, sub, j, len);
      PrefixKept(rest, sub[len - j..], a);
    }
    OccurrenceInMatch(sub, Opening(a), Lead(a, path), path, rest, RewriteAll(rest, a), j);
  }

  /** Where no match starts, an occurrence in the output of the rest is kept behind the copied character. */
  lemma KeepsSubstringAtCopy(s: string, sub: string, a: Attr)
    requires |s| > 0 && MatchAt(s, a).None? && Contains(RewriteAll(s[1..], a), sub)
    ensures Contains(RewriteAll(s, a), sub)
  {
    ContainsInConcat([s[0]], RewriteAll(s[1..], a), sub);
  }

  /** An occurrence at or after position `len` lies in the text from there. */
  lemma ContainsAfter(s: string, sub: string, j: nat, len: nat)
    requires j + |sub| <= |s| && s[j..j + |sub|] == sub && len <= j
    ensures Contains(s[len..], sub)
  {
    var rest := s[len..];
    assert rest[j - len..j - len + |sub|] == s[j..j + |sub|];
    ContainsAt(rest, sub, j - len);
  }

  /** Text without a slash that occurs in the input occurs in the output: the rewrite only inserts after a slash. */
  lemma {:induction false} KeepsSubstring(s: string, sub: string, a: Attr)
    requires '/' !in sub && Contains(s, sub)
    ensures Contains(RewriteAll(s, a), sub)
    decreases |s|
  {
    if StartsWith(s, sub) {
      PrefixKept(s, sub, a);
    } else {
      match MatchAt(s, a)
      case None =>
        KeepsSubstring(s[1..], sub, a);
        KeepsSubstringAtCopy(s, sub, a);
      case Some(path) =>
        var len := |Opening(a)| + |path| + 1;
        var j := ContainsWitness(s, sub);
        if j >= len {
          ContainsAfter(s, sub, j, len);
          KeepsSubstring(s[len..], sub, a);
          KeepsSubstringAfterMatch(s, sub, a);
        } else {
          KeepsSubstringInMatch(s, sub, a, j);
        }
    }
  }

  // ---------------------------------------------------------------- properties of the whole step

  /** The page ends up with a base tag whenever it had one or had a `<head>`. */
  lemma BaseTagPresent(content: string)
    requires Contains(content, "<base") || Contains(content, HeadTag)
    ensures Contains(ProcessHtmlFile(content), "<base")
  {
    AddBaseTagPresent(content);
    KeepsSubstring(AddBaseTag(content), "<base", Src);
    KeepsSubstring(RewriteAll(AddBaseTag(content), Src), "<base", Href);
  }

  /** A page with no `<head>`, no `src="/` and no `href="/` is returned unchanged. */
  lemma UntouchedPage(content: string)
    requires !Contains(content, HeadTag) && !Contains(content, Opening(Src)) && !Contains(content, Opening(Href))
    ensures ProcessHtmlFile(content) == content
  {
    RewriteUntouched(content, Src);
    RewriteUntouched(content, Href);
  }

  /** A script path is moved under the sub-directory. */
  lemma SrcRewritten(path: string, rest: string)
    requires |path| > 0 && QuoteFree(path)
    ensures RewriteAll("src=\"/" + path + "\"" + rest, Src) == "src=\"/cryptoshield/" + path + "\"" + RewriteAll(rest, Src)
  {
    RewriteMatch(Src, path, rest);
    ReplacementTexts(path);
  }

  /** A link path is moved under the sub-directory unless the callback exempts it, in which case the match is kept. */
  lemma HrefRewritten(path: string, rest: string)
    requires |path| > 0 && QuoteFree(path)
    ensures !Exempt(path) ==> RewriteAll("href=\"/" + path + "\"" + rest, Href) == "href=\"/cryptoshield/" + path + "\"" + RewriteAll(rest, Href)
    ensures Exempt(path) ==> RewriteAll("href=\"/" + path + "\"" + rest, Href) == "href=\"/" + path + "\"" + RewriteAll(rest, Href)
  {
    RewriteMatch(Href, path, rest);
    ReplacementTexts(path);
  }

  // ---------------------------------------------------------------- two defects, as written
  //
  // The examples are proved on their pages cut into pieces, so that the
  // verifier never has to unfold the rewrite over a whole literal page.

  /** Seven texts, regrouped to the right. */
  lemma Regroup7(a: string, b: string, c: string, d: string, e: string, f: string, g: string)
    ensures (a + (b + c)) + (d + (e + f)) + g == a + (b + (c + (d + (e + (f + g)))))
  {
  }

  /** On `<head>` the first step inserts the base tag. */
  lemma NoBaseInHead()
    ensures AddBaseTag(HeadTag) == HeadWithBase
  {
    MissingChar(HeadTag, "<base", 'b');
    assert IndexOf(HeadTag, HeadTag) == Some(0);
  }

  /** The base tag cut at its two `s` characters. */
  lemma BaseTagAtS()
    ensures "<base href=\"" == "<ba" + ("s" + "e href=\"")
    ensures BasePath == "/crypto" + ("s" + "hield/")
  {
  }

  /** Each `s` of the base tag is followed by another letter than `r`, so the `src` pass copies it. */
  lemma SrcPassKeepsBaseTag()
    ensures RewriteAll(BaseTag, Src) == BaseTag
  {
    var q := "\">";
    var t1 := "hield/" + q;
    RewriteSkip(t1, "", Src);
    assert t1 + "" == t1;
    assert "s" == ['s'];
    RewriteSkipChar('s', t1, Src);
    var t3 := "/crypto" + ("s" + t1);
    RewriteSkip("/crypto", "s" + t1, Src);
    var t4 := "e href=\"" + t3;
    RewriteSkip("e href=\"", t3, Src);
    RewriteSkipChar('s', t4, Src);
    RewriteSkip("<ba", "s" + t4, Src);
    BaseTagAtS();
    Regroup7("<ba", "s", "e href=\"", "/crypto", "s", "hield/", q);
  }

  /** The `src` pass leaves the inserted head alone. */
  lemma SrcPassKeepsHead()
    ensures RewriteAll(HeadWithBase, Src) == HeadWithBase
  {
    RewriteSkip(HeadTag + "\n    ", BaseTag, Src);
    SrcPassKeepsBaseTag();
  }

  /** The base tag cut around its `href="/` and the path after it. */
  lemma BaseTagAtHref()
    ensures "<base href=\"" == "<base " + "href=\""
    ensures "href=\"" + "/" == Opening(Href)
    ensures BasePath == "/" + "cryptoshield/"
    ensures "\">" == "\"" + ">"
  {
  }

  /** Six texts, regrouped as the base tag around its match. */
  lemma RegroupTag(a: string, b: string, c: string, d: string, e: string, f: string)
    ensures (a + b) + (c + d) + (e + f) == a + ((((b + c) + d) + e) + f)
  {
  }

  /** The base tag is `<base ` followed by a match of `href="/` with path `cryptoshield/`. */
  lemma BaseTagAsMatch()
    ensures BaseTag == "<base " + (Opening(Href) + "cryptoshield/" + "\"" + ">")
  {
    BaseTagAtHref();
    RegroupTag("<base ", "href=\"", "/", "cryptoshield/", "\"", ">");
  }

  /** The base tag's path is a nonempty quote-free path the callback does not exempt. */
  lemma TagPathNotExempt()
    ensures |"cryptoshield/"| > 0 && QuoteFree("cryptoshield/") && !Exempt("cryptoshield/")
  {
  }

  /** The base tag's own `href="/cryptoshield/"` is rewritten like any other root-relative link. */
  lemma HrefPassTagMatch()
    ensures RewriteAll(Opening(Href) + "cryptoshield/" + "\"" + ">", Href) == "href=\"" + BasePath + "cryptoshield/" + "\"" + ">"
  {
    TagPathNotExempt();
    RewriteMatch(Href, "cryptoshield/", ">");
    RewriteSkip(">", "", Href);
    assert ">" + "" == ">";
  }

  /** The `href` pass doubles the base tag's address. */
  lemma HrefPassBaseTag()
    ensures RewriteAll(BaseTag, Href) == "<base " + ("href=\"" + BasePath + "cryptoshield/" + "\"" + ">")
  {
    BaseTagAsMatch();
    HrefPassTagMatch();
    RewriteSkip("<base ", Opening(Href) + "cryptoshield/" + "\"" + ">", Href);
  }

  /** The head before the base tag cut at its `h`. */
  lemma HeadAtH()
    ensures HeadTag + "\n    " == "<" + ("h" + "ead>\n    ")
  {
  }

  lemma Regroup3(a: string, b: string, c: string, d: string)
    ensures (a + (b + c)) + d == a + (b + (c + d))
  {
  }

  /** The inserted head cut at its `h`. */
  lemma HeadWithBaseAtH()
    ensures HeadWithBase == "<" + ("h" + ("ead>\n    " + BaseTag))
  {
    HeadAtH();
    Regroup3("<", "h", "ead>\n    ", BaseTag);
  }

  /** The `href` pass copies the head before the base tag: its `h` is followed by `e`. */
  lemma HrefPassHead()
    ensures RewriteAll(HeadWithBase, Href) == HeadTag + "\n    " + RewriteAll(BaseTag, Href)
  {
    var t := "ead>\n    ";
    RewriteSkip(t, BaseTag, Href);
    assert "h" == ['h'];
    RewriteSkipChar('h', t + BaseTag, Href);
    RewriteSkip("<", "h" + (t + BaseTag), Href);
    HeadWithBaseAtH();
    Regroup3("<", "h", t, RewriteAll(BaseTag, Href));
    HeadAtH();
  }

  /** The doubled base tag, regrouped. */
  lemma DoubledTagText()
    ensures "<base " + ("href=\"" + BasePath + "cryptoshield/" + "\"" + ">") == "<base href=\"" + BasePath + "cryptoshield/" + "\">"
  {
    BaseTagAtHref();
  }

  /**
   * The inserted base tag is itself a root-relative `href`, so its address is
   * doubled: `<head>` comes out as `<head>`, the indentation, and
   * `<base href="/cryptoshield/cryptoshield/">`.
   */
  lemma BaseHrefDoubled()
    ensures ProcessHtmlFile(HeadTag) == HeadTag + "\n    " + ("<base href=\"" + BasePath + "cryptoshield/" + "\">")
  {
    NoBaseInHead();
    SrcPassKeepsHead();
    HrefPassHead();
    HrefPassBaseTag();
    DoubledTagText();
  }

  /** The page `href="//a"` has neither `<base` nor `<head>`, so the first step leaves it. */
  lemma ProtocolRelativeNoBase()
    ensures AddBaseTag("href=\"//a\"") == "href=\"//a\""
  {
    ProtocolRelativeLacksHead();
  }

  lemma ProtocolRelativeLacksHead()
    ensures !Contains("href=\"//a\"", HeadTag)
  {
    MissingChar("href=\"//a\"", HeadTag, 'd');
  }

  /** The page `href="//a"` has no `s`, so the `src` pass leaves it. */
  lemma ProtocolRelativeUntouchedBySrc()
    ensures RewriteAll("href=\"//a\"", Src) == "href=\"//a\""
  {
    MissingChar("href=\"//a\"", Opening(Src), 's');
    RewriteUntouched("href=\"//a\"", Src);
  }

  /** The page `href="//a"` as a match of `href="/` with path `/a`. */
  lemma ProtocolRelativePieces()
    ensures "href=\"//a\"" == "href=\"/" + "/a" + "\"" + ""
  {
  }

  lemma ProtocolRelativeOutput()
    ensures "href=\"/cryptoshield/" + "/a" + "\"" + "" == "href=\"/cryptoshield//a\""
  {
  }

  /** The `//` test sees the path after the first slash, so a protocol-relative address is rewritten. */
  lemma ProtocolRelativeRewritten()
    ensures ProcessHtmlFile("href=\"//a\"") == "href=\"/cryptoshield//a\""
  {
    ProtocolRelativeNoBase();
    ProtocolRelativeUntouchedBySrc();
    assert QuoteFree("/a") && !Exempt("/a");
    ProtocolRelativePieces();
    HrefRewritten("/a", "");
    ProtocolRelativeOutput();
  }

  // ---------------------------------------------------------------- the corrected step

  /**
   * The evidently intended step: whether a base tag is needed is decided on
   * the page as given, the tag is inserted after the attributes are
   * rewritten, and a protocol-relative `href` is left alone.
   */
  function ProcessHtmlFileCorrected(content: string): string {
    var rewritten := RewriteAll(RewriteAll(content, Src), HrefCorrected);
    if Contains(content, "<base") then rewritten else ReplaceFirst(rewritten, HeadTag, HeadWithBase)
  }

  /** The `<head>` survives both corrected rewrites. */
  lemma RewritesKeepHead(content: string)
    requires Contains(content, HeadTag)
    ensures Contains(RewriteAll(RewriteAll(content, Src), HrefCorrected), HeadTag)
  {
    KeepsSubstring(content, HeadTag, Src);
    KeepsSubstring(RewriteAll(content, Src), HeadTag, HrefCorrected);
  }

  /** Inserting after a `<head>` yields the whole base tag. */
  lemma InsertionHasBaseTag(rewritten: string)
    requires Contains(rewritten, HeadTag)
    ensures Contains(ReplaceFirst(rewritten, HeadTag, HeadWithBase), BaseTag)
  {
    var i := IndexOf(rewritten, HeadTag).value;
    assert ReplaceFirst(rewritten, HeadTag, HeadWithBase) == rewritten[..i] + HeadWithBase + rewritten[i + |HeadTag|..];
    InsertedHasBaseTag(rewritten[..i], rewritten[i + |HeadTag|..]);
  }

  /** A page with a `<head>` and no base tag gets exactly the base tag for the sub-directory. */
  lemma CorrectedBaseTag(content: string)
    requires !Contains(content, "<base") && Contains(content, HeadTag)
    ensures Contains(ProcessHtmlFileCorrected(content), BaseTag)
  {
    RewritesKeepHead(content);
    InsertionHasBaseTag(RewriteAll(RewriteAll(content, Src), HrefCorrected));
  }

  /** A protocol-relative link is kept as it is. */
  lemma CorrectedKeepsProtocolRelative(path: string, rest: string)
    requires |path| > 0 && QuoteFree(path) && StartsWith(path, "/")
    ensures RewriteAll("href=\"/" + path + "\"" + rest, HrefCorrected) == "href=\"/" + path + "\"" + RewriteAll(rest, HrefCorrected)
  {
    RewriteMatch(HrefCorrected, path, rest);
    ReplacementTexts(path);
  }

  /** `<head>` holds no slash, so the corrected rewrites leave it. */
  lemma CorrectedRewritesKeepHeadTag()
    ensures RewriteAll(RewriteAll(HeadTag, Src), HrefCorrected) == HeadTag
  {
    MissingChar(HeadTag, Opening(Src), '/');
    MissingChar(HeadTag, Opening(HrefCorrected), '/');
    RewriteUntouched(HeadTag, Src);
    RewriteUntouched(HeadTag, HrefCorrected);
  }

  /** Replacing the first `<head>` of `<head>` gives the inserted text. */
  lemma HeadTagReplaced()
    ensures ReplaceFirst(HeadTag, HeadTag, HeadWithBase) == HeadWithBase
  {
    assert IndexOf(HeadTag, HeadTag) == Some(0);
    assert HeadTag[..0] + HeadWithBase + HeadTag[6..] == HeadWithBase;
  }

  /** The first input above, corrected: the base address appears once. */
  lemma CorrectedSingleBase()
    ensures ProcessHtmlFileCorrected(HeadTag) == HeadWithBase
  {
    MissingChar(HeadTag, "<base", 'b');
    CorrectedRewritesKeepHeadTag();
    HeadTagReplaced();
  }

  /** The page `href="//a"` has no `<base`, and its path `/a` is exempt in the corrected test. */
  lemma CorrectedProtocolRelativeHref()
    ensures RewriteAll("href=\"//a\"", HrefCorrected) == "href=\"//a\""
  {
    ProtocolRelativePieces();
    assert QuoteFree("/a");
    CorrectedKeepsProtocolRelative("/a", "");
    RewriteUntouched("", HrefCorrected);
  }

  /** The second input above, corrected: the protocol-relative link is kept. */
  lemma CorrectedProtocolRelativeKept()
    ensures ProcessHtmlFileCorrected("href=\"//a\"") == "href=\"//a\""
  {
    MissingChar("href=\"//a\"", "<base", 'b');
    ProtocolRelativeUntouchedBySrc();
    CorrectedProtocolRelativeHref();
  }
}
