/**
 * The redirect script of the contents site: a visitor that is not a
 * crawler is sent from a post's page on the contents site to the same
 * post on the main blog, or to the blog's front page.
 *
 * The browser is reduced to two inputs: the user agent (`None` when the
 * script runs where `navigator` or `window` does not exist) and the
 * pathname of the current location.
 */
module Redirect {
  import opened Wrappers

  // ---------------------------------------------------------------------
  // Text helpers

  /** `toLowerCase` on ASCII letters; every other character is kept. */
  function LowerChar(c: char): char
  {
    if 'A' <= c <= 'Z' then (c as int + 32) as char else c
  }

  function Lower(s: string): (r: string)
    ensures |r| == |s| && forall i | 0 <= i < |s| :: r[i] == LowerChar(s[i])
  {
    seq(|s|, i requires 0 <= i < |s| => LowerChar(s[i]))
  }

  predicate StartsWith(s: string, p: string)
  {
    |p| <= |s| && s[..|p|] == p
  }

  predicate EndsWith(s: string, p: string)
  {
    |p| <= |s| && s[|s| - |p|..] == p
  }

  /** A regular-expression search for a literal pattern: some position of `s` starts with `p`. */
  predicate Contains(s: string, p: string)
    decreases |s|
  {
    StartsWith(s, p) || (|s| > 0 && Contains(s[1..], p))
  }

  lemma {:induction false} ContainsAt(s: string, p: string)
    ensures Contains(s, p) <==> exists i | 0 <= i <= |s| :: StartsWith(s[i..], p)
    decreases |s|
  {
    assert s[0..] == s;
    if |s| > 0 {
      ContainsAt(s[1..], p);
      if !StartsWith(s, p) && Contains(s[1..], p) {
        var i :| 0 <= i <= |s| - 1 && StartsWith(s[1..][i..], p);
        assert s[1..][i..] == s[i + 1..];
      }
      if exists i | 0 <= i <= |s| :: StartsWith(s[i..], p) {
        var i :| 0 <= i <= |s| && StartsWith(s[i..], p);
        if i > 0 {
          assert s[1..][i - 1..] == s[i..];
        }
      }
    }
  }

  /** A text that contains `p`, where `p` contains `q`, contains `q`. */
  lemma ContainsTrans(s: string, p: string, q: string)
    requires Contains(s, p) && Contains(p, q)
    ensures Contains(s, q)
  {
    ContainsAt(s, p);
    ContainsAt(p, q);
    ContainsAt(s, q);
    var i :| 0 <= i <= |s| && StartsWith(s[i..], p);
    var j :| 0 <= j <= |p| && StartsWith(p[j..], q);
    forall k | 0 <= k < |q|
      ensures s[i + j..][k] == q[k]
    {
      assert s[i + j..][k] == s[i..][..|p|][j + k];
      assert q[k] == p[j..][..|q|][k];
    }
    assert s[i + j..][..|q|] == q;
  }

  // ---------------------------------------------------------------------
  // isBot

  /** The crawler patterns, in the order the script lists them. */
  const BotPatterns: seq<string> := [
    "googlebot", "bingbot", "slurp", "duckduckbot", "baiduspider", "yandexbot",
    "facebookexternalhit", "twitterbot", "linkedinbot", "whatsapp", "telegrambot",
    "applebot", "bot", "crawler", "spider", "crawling"]

  /** `patterns.some(pattern => pattern.test(text))`. */
  predicate AnyPattern(patterns: seq<string>, text: string)
  {
    patterns != [] && (Contains(text, patterns[0]) || AnyPattern(patterns[1..], text))
  }

  lemma {:induction false} AnyPatternExists(patterns: seq<string>, text: string)
    ensures AnyPattern(patterns, text) <==> exists p | p in patterns :: Contains(text, p)
  {
    if patterns != [] {
      AnyPatternExists(patterns[1..], text);
      if AnyPattern(patterns, text) && !Contains(text, patterns[0]) {
        var p :| p in patterns[1..] && Contains(text, p);
        assert p in patterns;
      }
      if exists p | p in patterns :: Contains(text, p) {
        var p :| p in patterns && Contains(text, p);
        var i :| 0 <= i < |patterns| && patterns[i] == p;
        if i > 0 {
          assert patterns[1..][i - 1] == p;
        }
      }
    }
  }

  /** `isBot`: without a user agent the script assumes a crawler. */
  predicate IsBot(userAgent: Option<string>)
    ensures userAgent.None? ==> IsBot(userAgent)
    ensures userAgent.Some? && Contains(Lower(userAgent.value), "bot") ==> IsBot(userAgent)
  {
    match userAgent
    case None => true
    case Some(ua) =>
      var text := Lower(ua);
      AnyPatternExists(BotPatterns, text);
      assert BotPatterns[12] == "bot" && BotPatterns[12] in BotPatterns;
      AnyPattern(BotPatterns, text)
  }

  /** A user agent is a crawler exactly when, lower-cased, it contains one of the patterns. */
  lemma IsBotPatterns(ua: string)
    ensures IsBot(Some(ua)) <==> exists p | p in BotPatterns :: Contains(Lower(ua), p)
  {
    AnyPatternExists(BotPatterns, Lower(ua));
  }

  lemma Witness(s: string, i: nat, p: string)
    requires i <= |s| && StartsWith(s[i..], p)
    ensures Contains(s, p)
  {
    ContainsAt(s, p);
  }

  /** The patterns that are not already implied by another one. */
  const Essential: seq<string> := ["bot", "slurp", "spider", "facebookexternalhit", "whatsapp", "crawler", "crawling"]

  /** Every other pattern contains `bot` or `spider`. */
  lemma RedundantPatterns()
    ensures forall p | p in BotPatterns :: p in Essential || Contains(p, "bot") || Contains(p, "spider")
    ensures forall p | p in Essential :: p in BotPatterns
  {
    Witness("googlebot", 6, "bot");
    Witness("bingbot", 4, "bot");
    Witness("duckduckbot", 8, "bot");
    Witness("baiduspider", 5, "spider");
    Witness("yandexbot", 6, "bot");
    Witness("twitterbot", 7, "bot");
    Witness("linkedinbot", 8, "bot");
    Witness("telegrambot", 8, "bot");
    Witness("applebot", 5, "bot");
  }

  /** The list comes down to its seven essential patterns. */
  lemma IsBotReduced(ua: string)
    ensures IsBot(Some(ua)) <==> exists p | p in Essential :: Contains(Lower(ua), p)
  {
    var l := Lower(ua);
    IsBotPatterns(ua);
    RedundantPatterns();
    forall p | p in BotPatterns && Contains(l, p)
      ensures exists q | q in Essential :: Contains(l, q)
    {
      if p !in Essential {
        if Contains(p, "bot") {
          ContainsTrans(l, p, "bot");
          assert "bot" in Essential;
        } else {
          ContainsTrans(l, p, "spider");
          assert "spider" in Essential;
        }
      }
    }
  }

  /** Any user agent holding "bot", in any ASCII case, is a crawler. */
  lemma BotInAnyCase(ua: string, i: nat)
    requires i + 3 <= |ua| && Lower(ua[i..i + 3]) == "bot"
    ensures IsBot(Some(ua))
  {
    var l := Lower(ua);
    assert l[i..][..3] == Lower(ua[i..i + 3]);
    Witness(l, i, "bot");
    IsBotPatterns(ua);
    assert BotPatterns[12] == "bot";
    assert "bot" in BotPatterns;
  }

  // ---------------------------------------------------------------------
  // getPostPath

  datatype PostPath = PostPath(board: string, post: string)

  /** A path segment the pattern `[^/]+` matches. */
  predicate Segment(s: string)
  {
    s != [] && '/' !in s
  }

  /** What the pattern expects before the board segment. */
  const Prefix := "/contents" + "/" + "boards"

  /** The pathname tail `/contents/boards/<board>/<post>`. */
  function PostTail(board: string, post: string): string
  {
    Prefix + "/" + board + "/" + post
  }

  /** The pathname ends with the tail naming `board` and `post`, with or without a final slash. */
  predicate EndsWithPost(pathname: string, board: string, post: string)
  {
    EndsWith(pathname, PostTail(board, post)) || EndsWith(pathname, PostTail(board, post) + "/")
  }

  /** The text before the last slash and the text after it, if there is a slash. */
  function SplitLast(s: string): (r: Option<(string, string)>)
    ensures r.None? ==> '/' !in s
    ensures r.Some? ==> s == r.value.0 + "/" + r.value.1 && '/' !in r.value.1
  {
    if s == [] then None
    else if s[|s| - 1] == '/' then Some((s[..|s| - 1], []))
    else
      match SplitLast(s[..|s| - 1])
      case None => None
      case Some((x, seg)) => Some((x, seg + [s[|s| - 1]]))
  }

  /** The split is unique: the last slash of `x + "/" + seg` is the one before `seg`. */
  lemma {:induction false} SplitLastOf(x: string, seg: string)
    requires '/' !in seg
    ensures SplitLast(x + "/" + seg) == Some((x, seg))
    decreases |seg|
  {
    var s := x + "/" + seg;
    if seg == [] {
      assert s[..|s| - 1] == x;
    } else {
      var init := seg[..|seg| - 1];
      assert seg[|seg| - 1] in seg;
      assert s[..|s| - 1] == x + "/" + init;
      SplitLastOf(x, init);
      assert init + [seg[|seg| - 1]] == seg;
    }
  }

  /**
   * `getPostPath`: the board and post of a pathname that ends with
   * `/contents/boards/<board>/<post>`, optionally followed by one slash,
   * or `None`. The pattern is anchored only at the end, so its two groups
   * capture the last two segments.
   */
  function GetPostPath(pathname: string): (r: Option<PostPath>)
    ensures r.Some? ==> Segment(r.value.board) && Segment(r.value.post)
  {
    var t := if pathname != [] && pathname[|pathname| - 1] == '/' then pathname[..|pathname| - 1] else pathname;
    match SplitLast(t)
    case None => None
    case Some((rest, post)) =>
      match SplitLast(rest)
      case None => None
      case Some((front, board)) =>
        if board != [] && post != [] && EndsWith(front, Prefix) then Some(PostPath(board, post)) else None
  }

  lemma Tail(x: string, board: string, post: string)
    ensures x + PostTail(board, post) == (x + Prefix + "/" + board) + "/" + post
  {
  }

  /**
   * `getPostPath` on any pathname whose last two segments are non-empty:
   * it gives them exactly when what precedes them ends with `/contents/boards`.
   */
  lemma ParseShape(front: string, board: string, post: string, slash: bool)
    requires Segment(board) && Segment(post)
    ensures GetPostPath(front + "/" + board + "/" + post + (if slash then "/" else "")) ==
      if EndsWith(front, Prefix) then Some(PostPath(board, post)) else None
  {
    var rest := front + "/" + board;
    var t := rest + "/" + post;
    var s := t + (if slash then "/" else "");
    if slash {
      assert s[..|s| - 1] == t;
    } else {
      assert s == t;
      assert s[|s| - 1] == post[|post| - 1];
    }
    SplitLastOf(rest, post);
    SplitLastOf(front, board);
  }

  /** `getPostPath` on a pathname ending with a board and a post, with or without a final slash. */
  lemma ParsesTail(x: string, board: string, post: string, slash: bool)
    requires Segment(board) && Segment(post)
    ensures GetPostPath(x + PostTail(board, post) + (if slash then "/" else "")) == Some(PostPath(board, post))
  {
    Tail(x, board, post);
    ParseShape(x + Prefix, board, post, slash);
    EndingOf(x, Prefix);
  }

  /** Whatever `getPostPath` returns is the end of the pathname, as the pattern requires. */
  lemma ParsedIsTail(pathname: string)
    requires GetPostPath(pathname).Some?
    ensures var pp := GetPostPath(pathname).value;
      Segment(pp.board) && Segment(pp.post) && EndsWithPost(pathname, pp.board, pp.post)
  {
    var slash := pathname != [] && pathname[|pathname| - 1] == '/';
    var sfx := if slash then "/" else "";
    var t := if slash then pathname[..|pathname| - 1] else pathname;
    assert pathname == t + sfx;
    var (rest, post) := SplitLast(t).value;
    var (front, board) := SplitLast(rest).value;
    var x := front[..|front| - |Prefix|];
    assert front == x + Prefix;
    Tail(x, board, post);
    EndsWithAfter(pathname, x, PostTail(board, post), sfx);
  }

  lemma EndsWithAfter(s: string, x: string, tail: string, sfx: string)
    requires s == x + tail + sfx
    ensures EndsWith(s, tail + sfx)
  {
    assert s[|x|..] == tail + sfx;
  }

  lemma EndingOf(x: string, tail: string)
    ensures EndsWith(x + tail, tail)
  {
    assert (x + tail)[|x|..] == tail;
  }

  /** A pathname that ends with a board and a post ends with exactly one such tail. */
  lemma TailsAgree(x: string, b: string, p: string, y: string, c: string, q: string)
    requires Segment(b) && Segment(p) && Segment(c) && Segment(q)
    requires x + PostTail(b, p) == y + PostTail(c, q)
    ensures b == c && p == q
  {
    Tail(x, b, p);
    Tail(y, c, q);
    SplitLastOf(x + Prefix + "/" + b, p);
    SplitLastOf(y + Prefix + "/" + c, q);
    SplitLastOf(x + Prefix, b);
    SplitLastOf(y + Prefix, c);
  }

  /**
   * `getPostPath` gives `(board, post)` exactly when the pathname ends with
   * `/contents/boards/<board>/<post>`, with or without a final slash, both
   * segments non-empty and slash-free.
   */
  lemma GetPostPathSpec(pathname: string, board: string, post: string)
    ensures GetPostPath(pathname) == Some(PostPath(board, post)) <==>
      Segment(board) && Segment(post) && EndsWithPost(pathname, board, post)
  {
    if GetPostPath(pathname) == Some(PostPath(board, post)) {
      ParsedIsTail(pathname);
    }
    if Segment(board) && Segment(post) && EndsWithPost(pathname, board, post) {
      ParsesEnding(pathname, board, post);
    }
  }

  lemma ParsesEnding(pathname: string, board: string, post: string)
    requires Segment(board) && Segment(post) && EndsWithPost(pathname, board, post)
    ensures GetPostPath(pathname) == Some(PostPath(board, post))
  {
    var tail := PostTail(board, post);
    if EndsWith(pathname, tail) {
      var x := pathname[..|pathname| - |tail|];
      assert pathname == x + tail + "";
      ParsesTail(x, board, post, false);
    } else {
      var x := pathname[..|pathname| - |tail| - 1];
      assert pathname == x + tail + "/";
      ParsesTail(x, board, post, true);
    }
  }

  /** The front part of a board-only or deeper pathname, seen from its last two segments. */
  lemma NotAfterPrefix(x: string)
    ensures !EndsWith(x + "/contents", Prefix)
  {
    var f := x + "/contents";
    assert !EndsWith(f, Prefix) by {
      if |Prefix| <= |f| {
        assert f[|f| - |Prefix|..][14] == f[|f| - 2] == 't';
      }
    }
  }

  /** A pathname that names a board but no post gives `None`, whatever comes before it. */
  lemma BoardOnlyIsNull(x: string, board: string, slash: bool)
    requires Segment(board)
    ensures GetPostPath(x + Prefix + "/" + board + (if slash then "/" else "")).None?
  {
    assert x + Prefix == (x + "/contents") + "/" + "boards";
    ParseShape(x + "/contents", "boards", board, slash);
    NotAfterPrefix(x);
  }

  lemma NotAfterSegment(x: string, a: string)
    requires Segment(a)
    ensures !EndsWith(x + Prefix + "/" + a, Prefix)
  {
    var f := x + Prefix + "/" + a;
    assert !EndsWith(f, Prefix) by {
      if |Prefix| <= |f| {
        var w := f[|f| - |Prefix|..];
        if |a| >= 7 {
          assert w[9] == a[|a| - 7] && a[|a| - 7] in a;
        } else {
          assert w[0] == (Prefix + "/")[|a| + 1];
        }
      }
    }
  }

  /**
   * Three segments after `/contents/boards/` give `None` too: the last two
   * are taken as board and post, and what precedes them does not end with
   * `/contents/boards`.
   */
  lemma ThreeSegmentsIsNull(x: string, a: string, b: string, c: string, slash: bool)
    requires Segment(a) && Segment(b) && Segment(c)
    ensures GetPostPath(x + Prefix + "/" + a + "/" + b + "/" + c + (if slash then "/" else "")).None?
  {
    ParseShape(x + Prefix + "/" + a, b, c, slash);
    NotAfterSegment(x, a);
  }

  /**
   * With four segments the pattern can match again: under a board named
   * `contents` holding a board named `boards`, the pathname
   * `/contents/boards/contents/boards/<c>/<d>` is read as board `c` and post `d`.
   */
  lemma FourSegmentsCanMatch(c: string, d: string)
    requires Segment(c) && Segment(d)
    ensures GetPostPath(Prefix + Prefix + "/" + c + "/" + d) == Some(PostPath(c, d))
  {
    ParseShape(Prefix + Prefix, c, d, false);
    EndingOf(Prefix, Prefix);
    assert Prefix + Prefix + "/" + c + "/" + d + "" == Prefix + Prefix + "/" + c + "/" + d;
  }

  // ---------------------------------------------------------------------
  // getMainBlogUrl and performRedirect

  const BlogHome := "https://jook1356.github.io/djb-gith"

  /** The main blog's page for a post. */
  function BlogPostUrl(board: string, post: string): string
  {
    BlogHome + "/boards/" + board + "/" + post + "/"
  }

  /** `getMainBlogUrl`: the post's page on the main blog, or the blog's front page. */
  function GetMainBlogUrl(pathname: string): (url: string)
    ensures url == BlogHome <==> GetPostPath(pathname).None?
  {
    match GetPostPath(pathname)
    case Some(pp) => BlogPostUrl(pp.board, pp.post)
    case None => BlogHome
  }

  lemma BlogPostUrlInjective(b: string, p: string, c: string, q: string)
    requires Segment(b) && Segment(p) && Segment(c) && Segment(q)
    requires BlogPostUrl(b, p) == BlogPostUrl(c, q)
    ensures b == c && p == q
  {
    var u := BlogPostUrl(b, p);
    assert u[..|u| - 1] == (BlogHome + "/boards/" + b) + "/" + p;
    assert u[..|u| - 1] == (BlogHome + "/boards/" + c) + "/" + q;
    SplitLastOf(BlogHome + "/boards/" + b, p);
    SplitLastOf(BlogHome + "/boards/" + c, q);
    assert BlogHome + "/boards/" + b == (BlogHome + "/boards") + "/" + b;
    assert BlogHome + "/boards/" + c == (BlogHome + "/boards") + "/" + c;
    SplitLastOf(BlogHome + "/boards", b);
    SplitLastOf(BlogHome + "/boards", c);
  }

  /**
   * The target is the main blog's page for `(board, post)` exactly when
   * the pathname ends with that board and post.
   */
  lemma MainBlogUrlSpec(pathname: string, board: string, post: string)
    requires Segment(board) && Segment(post)
    ensures GetMainBlogUrl(pathname) == BlogPostUrl(board, post) <==> EndsWithPost(pathname, board, post)
  {
    GetPostPathSpec(pathname, board, post);
    var r := GetPostPath(pathname);
    if r.Some? {
      GetPostPathSpec(pathname, r.value.board, r.value.post);
      if GetMainBlogUrl(pathname) == BlogPostUrl(board, post) {
        BlogPostUrlInjective(r.value.board, r.value.post, board, post);
      }
    }
  }

  /** `performRedirect`: the address the page is replaced with, or `None` when it stays. */
  function PerformRedirect(userAgent: Option<string>, pathname: string): (target: Option<string>)
    ensures target.Some? <==> !IsBot(userAgent)
  {
    if !IsBot(userAgent) then Some(GetMainBlogUrl(pathname)) else None
  }

  /** Crawlers stay on the page, whatever the page. */
  lemma CrawlersStay(ua: string, pathname: string, p: string)
    requires p in Essential && Contains(Lower(ua), p)
    ensures PerformRedirect(Some(ua), pathname).None?
  {
    IsBotReduced(ua);
  }

  /** A visitor on a post's page is sent to the same post on the main blog. */
  lemma VisitorsFollowThePost(ua: string, pathname: string, board: string, post: string)
    requires !IsBot(Some(ua))
    requires Segment(board) && Segment(post) && EndsWithPost(pathname, board, post)
    ensures PerformRedirect(Some(ua), pathname) == Some(BlogPostUrl(board, post))
  {
    MainBlogUrlSpec(pathname, board, post);
  }
}
