/**
 * How the pieces meet: the post addresses the sitemap publishes, taken as
 * raw text after the origin, are the pathnames the redirect script parses
 * (a browser's percent-encoding and its cut at `?` or `#` are not
 * modelled), and every folder the scanner passes through on the way to a
 * post is opened to crawlers by robots.txt.
 */
module Links {
  import opened Wrappers
  import opened Content
  import opened Scanner
  import opened Sitemap
  import opened Robots
  import opened Redirect

  lemma NormalizeKeeps(s: string)
    requires '\\' !in s
    ensures Normalize(s) == s
  {
  }

  /** A two-level post is published at the site origin followed by `/contents/boards/<board>/<post>/`. */
  lemma PostLocPathname(board: string, post: string)
    requires '\\' !in board && '\\' !in post
    ensures PostLoc([board, post]) == SiteOrigin + (PostTail(board, post) + "/")
  {
    PostLocParts([board, post]);
    assert [board, post][..1] == [board];
    assert PathText([board, post]) == board + "/" + post;
    NormalizeKeeps(board + "/" + post);
    assert "/boards/" == "/" + "boards" + "/";
    FlattenTwo(SiteOrigin, "/contents", "/", "boards", board, post);
  }

  /** Regroups the two-level post address as origin followed by pathname. */
  lemma FlattenTwo(o: string, c: string, sl: string, bd: string, b: string, p: string)
    ensures o + c + (sl + bd + sl) + (b + sl + p) + sl == o + (c + sl + bd + sl + b + sl + p + sl)
  {
  }

  /**
   * The redirect script, given the raw text of the sitemap's address of a
   * two-level post after the origin, reads it back as that post, and sends
   * visitors to the same post on the blog.
   */
  lemma SitemapPostRoundTrip(board: string, post: string)
    requires ValidName(board) && ValidName(post) && '\\' !in board && '\\' !in post
    ensures var loc := PostLoc([board, post]);
      && StartsWith(loc, SiteOrigin)
      && GetPostPath(loc[|SiteOrigin|..]) == Some(PostPath(board, post))
      && GetMainBlogUrl(loc[|SiteOrigin|..]) == BlogPostUrl(board, post)
  {
    PostLocPathname(board, post);
    var pathname := PostTail(board, post) + "/";
    AfterOrigin(SiteOrigin, pathname);
    assert "" + PostTail(board, post) + "/" == pathname;
    ParsesTail("", board, post, true);
  }

  lemma AfterOrigin(origin: string, pathname: string)
    ensures StartsWith(origin + pathname, origin) && (origin + pathname)[|origin|..] == pathname
  {
    assert (origin + pathname)[..|origin|] == origin;
  }

  lemma PathTextThree(a: string, b: string, post: string)
    ensures PathText([a, b, post]) == a + "/" + b + "/" + post
  {
    assert [a, b, post][..2] == [a, b] && [a, b][..1] == [a];
    assert PathText([a, b]) == a + "/" + b;
  }

  /** Regroups the nested post address as origin followed by pathname. */
  lemma Flatten(o: string, c: string, sl: string, bd: string, a: string, b: string, p: string)
    ensures o + c + (sl + bd + sl) + (a + sl + b + sl + p) + sl == o + (c + sl + bd + sl + a + sl + b + sl + p + sl)
  {
  }

  lemma PostLocNested(a: string, b: string, post: string)
    requires '\\' !in a && '\\' !in b && '\\' !in post
    ensures PostLoc([a, b, post]) == SiteOrigin + (Prefix + "/" + a + "/" + b + "/" + post + "/")
  {
    PathTextThree(a, b, post);
    NormalizeKeeps(a + "/" + b + "/" + post);
    assert "/boards/" == "/" + "boards" + "/";
    Flatten(SiteOrigin, "/contents", "/", "boards", a, b, post);
  }

  /**
   * A post one board deeper is published at `/contents/boards/<a>/<b>/<post>/`,
   * which the script does not recognise: its visitors land on the blog's
   * front page.
   */
  lemma NestedPostGoesHome(a: string, b: string, post: string)
    requires ValidName(a) && ValidName(b) && ValidName(post) && '\\' !in a && '\\' !in b && '\\' !in post
    ensures var loc := PostLoc([a, b, post]);
      && StartsWith(loc, SiteOrigin)
      && GetMainBlogUrl(loc[|SiteOrigin|..]) == BlogHome
  {
    PostLocNested(a, b, post);
    var pathname := Prefix + "/" + a + "/" + b + "/" + post + "/";
    AfterOrigin(SiteOrigin, pathname);
    assert "" + Prefix == Prefix;
    ThreeSegmentsIsNull("", a, b, post, true);
  }

  /** Every folder a scanned entry lies in gets exactly one `Allow` line in robots.txt. */
  lemma FoldersAllowed(root: Option<Node>, e: Entry, k: nat)
    requires e in ScanRoot(root) && k < |e.path| - 1
    ensures multiset(RobotsLines(ScanRoot(root)))[AllowLine(e.path[k])] == 1
  {
    AncestorsAreBoards(root);
    var items := ScanRoot(root);
    assert Board(e.path[k], e.path[..k + 1]) in items;
    AllowOncePerBoard(items, e.path[k]);
  }
}
