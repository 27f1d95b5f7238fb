/**
 * The sitemap builder (`generateSitemap`): the entries become a list of
 * `<url>` records (the root page, the boards index, one per distinct board
 * name, then the featured posts and the regular posts), written out in the
 * Sitemaps XML format (namespace http://www.sitemaps.org/schemas/sitemap/0.9).
 */
module Sitemap {
  import opened Wrappers
  import opened Content
  import opened Ranking
  import opened Catalog

  const SiteOrigin := "https://jook1356.github.io"

  /** `CONFIG.baseUrl`. */
  const BaseUrl := SiteOrigin + "/contents"

  /**
   * What the builder takes from the clock: the current time, the instant
   * three months before it, the `toISOString().split("T")[0]` calendar
   * date of a time, and how each priority ending in 5 hundredths rounds.
   */
  datatype Env = Env(now: int, threeMonthsAgo: int, isoDate: int -> string, tieUp: int -> bool)

  /** One `<url>` record, with the XML comment written above it, if any. */
  datatype Url = Url(comment: Option<string>, loc: string, lastmod: string, changefreq: string, priority: string)

  const Prolog := "<?xml version=\"1.0\" encoding=\"UTF-8\"?>\n<urlset xmlns=\"http://www.sitemaps.org/schemas/sitemap/0.9\">"
  const Closing := "\n</urlset>"

  /** The text of one record, as each template of the builder lays it out. */
  function UrlXml(u: Url): (text: string)
    ensures |text| > 0 && text[0] == '\n'
    ensures |text| >= 6 && text[|text| - 6..] == "</url>"
  {
    (match u.comment
     case Some(c) => "\n  <!-- " + c + " -->"
     case None => "")
    + "\n  <url>\n    <loc>" + u.loc + "</loc>\n    <lastmod>" + u.lastmod
    + "</lastmod>\n    <changefreq>" + u.changefreq + "</changefreq>\n    <priority>" + u.priority
    + "</priority>\n  </url>"
  }

  /** The records' texts one after the other. */
  function Blocks(urls: seq<Url>): string
  {
    if urls == [] then "" else Blocks(urls[..|urls| - 1]) + UrlXml(urls[|urls| - 1])
  }

  lemma BlocksSnoc(a: seq<Url>, u: Url)
    ensures Blocks(a + [u]) == Blocks(a) + UrlXml(u)
  {
    assert (a + [u])[..|a|] == a;
  }

  lemma {:induction false} BlocksConcat(a: seq<Url>, b: seq<Url>)
    ensures Blocks(a + b) == Blocks(a) + Blocks(b)
    decreases |b|
  {
    if b != [] {
      var init, last := b[..|b| - 1], b[|b| - 1];
      assert b == init + [last];
      assert a + b == (a + init) + [last];
      BlocksSnoc(a + init, last);
      BlocksSnoc(init, last);
      BlocksConcat(a, init);
      Assoc(Blocks(a), Blocks(init), UrlXml(last));
    } else {
      assert a + b == a;
    }
  }

  function RootUrl(env: Env): Url
  {
    Url(Some("메인 페이지"), BaseUrl + "/", env.isoDate(env.now), "daily", "1.0")
  }

  function IndexUrl(env: Env): Url
  {
    Url(Some("보드별 페이지"), BaseUrl + "/boards/", env.isoDate(env.now), "weekly", "0.8")
  }

  function BoardLoc(name: string): string
  {
    BaseUrl + "/boards/" + name + "/"
  }

  /** A board's record: its lastmod is the date of `time`. */
  function BoardUrl(name: string, time: int, env: Env): Url
  {
    Url(None, BoardLoc(name), env.isoDate(time), "weekly", "0.8")
  }

  /** Where a post is published: its relative path with backslashes turned into slashes. */
  function PostLoc(path: seq<string>): (loc: string)
    ensures |loc| == |BaseUrl + "/boards/"| + |PathText(path)| + 1
    ensures loc[..|BaseUrl + "/boards/"|] == BaseUrl + "/boards/" && loc[|loc| - 1] == '/'
    ensures forall i | |BaseUrl + "/boards/"| <= i < |loc| :: loc[i] != '\\'
    ensures forall i | 0 <= i < |PathText(path)| ::
      loc[|BaseUrl + "/boards/"| + i] == (if PathText(path)[i] == '\\' then '/' else PathText(path)[i])
  {
    var head, body := BaseUrl + "/boards/", Normalize(PathText(path));
    assert forall i | 0 <= i < |body| :: (head + body + "/")[|head| + i] == body[i];
    head + body + "/"
  }

  /** A post's address as the concatenation of its three parts. */
  lemma PostLocParts(path: seq<string>)
    ensures PostLoc(path) == BaseUrl + "/boards/" + Normalize(PathText(path)) + "/"
  {
  }

  /** The priority of a post, in hundredths. */
  function PostPriority(meta: Meta, env: Env): int
  {
    Priority(meta.featured, IsRecent(meta.createdAt, env.threeMonthsAgo), meta.difficulty)
  }

  /** A post's record; a featured post carries a comment with its title. */
  function PostUrl(e: Entry, env: Env): (u: Url)
    requires Dated(e)
    ensures u.comment.Some? <==> e.meta.featured
    ensures u.changefreq == "daily" || u.changefreq == "weekly" || u.changefreq == "monthly"
    ensures |u.priority| == 3 && u.priority[1] == '.'
  {
    var h := PostPriority(e.meta, env);
    Url(if e.meta.featured then Some("Featured: " + e.meta.title) else None,
        PostLoc(e.path), env.isoDate(e.meta.updatedAt.value),
        ChangeFreq(e.meta.createdAt, env.now), PriorityText(h, env.tieUp(h)))
  }

  function BoardUrls(names: seq<string>, posts: seq<Entry>, env: Env): (r: seq<Url>)
    requires forall n | n in names :: BoardLastmod(n, posts, env.now).Some?
    ensures |r| == |names|
  {
    if names == [] then []
    else
      var last := names[|names| - 1];
      BoardUrls(names[..|names| - 1], posts, env) + [BoardUrl(last, BoardLastmod(last, posts, env.now).value, env)]
  }

  lemma {:induction false} BoardUrlsAt(names: seq<string>, posts: seq<Entry>, env: Env, j: nat)
    requires forall n | n in names :: BoardLastmod(n, posts, env.now).Some?
    requires j < |names|
    ensures BoardUrls(names, posts, env)[j] == BoardUrl(names[j], BoardLastmod(names[j], posts, env.now).value, env)
  {
    if j < |names| - 1 {
      BoardUrlsAt(names[..|names| - 1], posts, env, j);
    }
  }

  function PostUrls(posts: seq<Entry>, env: Env): (r: seq<Url>)
    requires AllDated(posts)
    ensures |r| == |posts|
    ensures forall k | 0 <= k < |posts| :: r[k] == PostUrl(posts[k], env)
  {
    if posts == [] then [] else PostUrls(posts[..|posts| - 1], env) + [PostUrl(posts[|posts| - 1], env)]
  }

  lemma {:induction false} PostUrlsConcat(a: seq<Entry>, b: seq<Entry>, env: Env)
    requires AllDated(a) && AllDated(b)
    ensures AllDated(a + b) && PostUrls(a + b, env) == PostUrls(a, env) + PostUrls(b, env)
    decreases |b|
  {
    if b != [] {
      var init := b[..|b| - 1];
      assert (a + b)[..|a + b| - 1] == a + init;
      PostUrlsConcat(a, init, env);
    } else {
      assert a + b == a;
    }
  }

  /** The order posts are listed in: featured ones first, then the rest, each in scan order. */
  function PostOrder(items: seq<Entry>): (r: seq<Entry>)
    ensures forall e | e in r :: e in Published(items)
  {
    Featured(Published(items)) + Regular(Published(items))
  }

  /** Every record of the sitemap, in document order. */
  function SitemapUrls(items: seq<Entry>, env: Env): (urls: seq<Url>)
    requires AllDated(Published(items))
  {
    [RootUrl(env), IndexUrl(env)]
      + BoardUrls(UniqueBoards(items), Published(items), env)
      + PostUrls(PostOrder(items), env)
  }

  /** The fixed head of the document: the prolog, the root page and the boards index. */
  function Opening(root: Url, index: Url): string
  {
    Prolog + (UrlXml(root) + "\n  " + UrlXml(index) + "\n")
  }

  lemma PartAt(h: seq<Url>, m: seq<Url>, t: seq<Url>, j: nat)
    requires j < |m|
    ensures |h| + j < |h + m + t| && (h + m + t)[|h| + j] == m[j]
  {
  }

  lemma AfterHead(h: seq<Url>, m: seq<Url>, t: seq<Url>)
    ensures (h + m + t)[|h|..] == m + t
  {
    assert (h + m + t)[|h|..] == m + t;
  }

  /** The document text of a list of records whose first two are the root page and the boards index. */
  function Render(urls: seq<Url>): (text: string)
    requires |urls| >= 2
  {
    Opening(urls[0], urls[1]) + Blocks(urls[2..]) + Closing
  }

  lemma Framed(a: string, b: string, c: string, d: string)
    ensures |a + b + c + d| >= |a| + |d|
    ensures (a + b + c + d)[..|a|] == a && (a + b + c + d)[|a + b + c + d| - |d|..] == d
  {
    assert (a + b + c + d)[..|a|] == a;
    assert (a + b + c + d)[|a + b + c + d| - |d|..] == d;
  }

  /**
   * The result of `generateSitemap`: the document, or `None` when it throws
   * (a published post whose `updatedAt` is not a valid date makes
   * `toISOString` throw, in the board loop or in the post loop).
   */
  function Sitemap(items: seq<Entry>, env: Env): (r: Option<string>)
    ensures r.None? <==> exists e | e in items :: e.Post? && e.meta.published && e.meta.updatedAt.None?
    ensures r.Some? ==>
              (|r.value| >= |Prolog| + |Closing| && r.value[..|Prolog|] == Prolog
               && r.value[|r.value| - |Closing|..] == Closing)
  {
    PublishedMembers(items);
    if AllDated(Published(items)) then
      var urls := SitemapUrls(items, env);
      Framed(Prolog, UrlXml(urls[0]) + "\n  " + UrlXml(urls[1]) + "\n", Blocks(urls[2..]), Closing);
      Some(Render(urls))
    else None
  }

  lemma PublishedMembers(items: seq<Entry>)
    ensures forall e :: e in Published(items) <==> e in items && e.Post? && e.meta.published
  {
    forall e
      ensures e in Published(items) <==> e in items && e.Post? && e.meta.published
    {
      PublishedCount(items, e);
    }
  }

  // ---------------------------------------------------------------------
  // What the document lists

  /**
   * The sitemap opens with the root page (priority 1.0, daily) and the
   * boards index (priority 0.8, weekly), and holds one record per distinct
   * board name and one per published post.
   */
  lemma SitemapLayout(items: seq<Entry>, env: Env)
    requires AllDated(Published(items))
    ensures var urls := SitemapUrls(items, env);
      && |urls| == 2 + |UniqueBoards(items)| + |Published(items)|
      && urls[0] == Url(Some("메인 페이지"), BaseUrl + "/", env.isoDate(env.now), "daily", "1.0")
      && urls[1] == Url(Some("보드별 페이지"), BaseUrl + "/boards/", env.isoDate(env.now), "weekly", "0.8")
  {
    var posts := Published(items);
    FeaturedThenRegular(posts);
    assert |multiset(Featured(posts) + Regular(posts))| == |posts|;
  }

  /**
   * After them comes one weekly, 0.8 record per distinct board name, in
   * first-occurrence order, at `/boards/<name>/` and dated by the latest
   * update among the posts grouped under that name (or `now`).
   */
  lemma SitemapBoardRecord(items: seq<Entry>, env: Env, j: nat)
    requires AllDated(Published(items))
    requires j < |UniqueBoards(items)|
    ensures 2 + j < |SitemapUrls(items, env)|
    ensures SitemapUrls(items, env)[2 + j] ==
      Url(None, BoardLoc(UniqueBoards(items)[j]),
          env.isoDate(BoardLastmod(UniqueBoards(items)[j], Published(items), env.now).value), "weekly", "0.8")
  {
    var boards := BoardUrls(UniqueBoards(items), Published(items), env);
    BoardUrlsAt(UniqueBoards(items), Published(items), env, j);
    PartAt([RootUrl(env), IndexUrl(env)], boards, PostUrls(PostOrder(items), env), j);
  }

  /** Then the posts, record `k` describing the `k`-th post of `PostOrder`. */
  lemma SitemapPostRecord(items: seq<Entry>, env: Env, k: nat)
    requires AllDated(Published(items))
    requires k < |PostOrder(items)|
    ensures 2 + |UniqueBoards(items)| + k < |SitemapUrls(items, env)|
    ensures SitemapUrls(items, env)[2 + |UniqueBoards(items)| + k] == PostUrl(PostOrder(items)[k], env)
  {
    var head := [RootUrl(env), IndexUrl(env)] + BoardUrls(UniqueBoards(items), Published(items), env);
    PartAt(head, PostUrls(PostOrder(items), env), [], k);
    assert head + PostUrls(PostOrder(items), env) + [] == SitemapUrls(items, env);
  }

  /** Every published post is listed exactly as often as the scan holds it, and no other entry is. */
  lemma PostsListedOnce(items: seq<Entry>)
    ensures forall e ::
              multiset(PostOrder(items))[e] == if e.Post? && e.meta.published then multiset(items)[e] else 0
  {
    FeaturedThenRegular(Published(items));
    forall e
      ensures multiset(PostOrder(items))[e] == if e.Post? && e.meta.published then multiset(items)[e] else 0
    {
      PublishedCount(items, e);
    }
  }

  /** All featured posts are listed before all regular ones. */
  lemma FeaturedFirst(items: seq<Entry>)
    ensures forall i, j | 0 <= i < j < |PostOrder(items)| ::
              PostOrder(items)[j].meta.featured ==> PostOrder(items)[i].meta.featured
  {
    var f: seq<Entry>, r: seq<Entry> := Featured(Published(items)), Regular(Published(items));
    forall i, j | 0 <= i < j < |f + r|
      ensures (f + r)[j].meta.featured ==> (f + r)[i].meta.featured
    {
      if i < |f| {
        assert (f + r)[i] == f[i] && f[i] in f;
      } else {
        assert (f + r)[j] == r[j - |f|] && r[j - |f|] in r;
      }
    }
  }

  /**
   * Within each kind, posts keep scan order: the listing of two parts of a
   * scan is the featured posts of the first part, those of the second, then
   * the regular posts of the first part and those of the second.
   */
  lemma PostOrderScanOrder(a: seq<Entry>, b: seq<Entry>)
    ensures PostOrder(a + b) ==
      (Featured(Published(a)) + Featured(Published(b))) + (Regular(Published(a)) + Regular(Published(b)))
  {
    PublishedConcat(a, b);
    FeaturedConcat(Published(a), Published(b));
    RegularConcat(Published(a), Published(b));
  }

  /**
   * Board records are keyed by the first path segment only, so a nested
   * board (a name that is no published post's first segment) is dated
   * `now`, while its location is still `/boards/<name>/`.
   */
  lemma NestedBoardDatedNow(items: seq<Entry>, env: Env, j: nat)
    requires AllDated(Published(items))
    requires j < |UniqueBoards(items)|
    requires forall e | e in Published(items) :: BoardKey(e) != UniqueBoards(items)[j]
    ensures 2 + j < |SitemapUrls(items, env)|
    ensures SitemapUrls(items, env)[2 + j] == Url(None, BoardLoc(UniqueBoards(items)[j]), env.isoDate(env.now), "weekly", "0.8")
  {
    SitemapBoardRecord(items, env, j);
    BoardLastmodSpec(UniqueBoards(items)[j], Published(items), env.now);
  }

  /** Every post is dated once the featured and the regular ones are. */
  lemma DatedSplit(posts: seq<Entry>)
    requires AllDated(Featured(posts)) && AllDated(Regular(posts))
    ensures AllDated(posts)
  {
    FeaturedThenRegular(posts);
    forall e | e in posts
      ensures Dated(e)
    {
      assert multiset(Featured(posts) + Regular(posts))[e] > 0;
    }
  }

  /** The document is the head, the board records, the featured posts and the regular posts, in that order. */
  lemma SitemapText(items: seq<Entry>, env: Env)
    requires AllDated(Published(items))
    ensures AllDated(Featured(Published(items))) && AllDated(Regular(Published(items)))
    ensures Render(SitemapUrls(items, env)) ==
      Opening(RootUrl(env), IndexUrl(env)) + Blocks(BoardUrls(UniqueBoards(items), Published(items), env))
        + Blocks(PostUrls(Featured(Published(items)), env)) + Blocks(PostUrls(Regular(Published(items)), env))
        + Closing
  {
    var f, r := Featured(Published(items)), Regular(Published(items));
    var bu, pf, pr := BoardUrls(UniqueBoards(items), Published(items), env), PostUrls(f, env), PostUrls(r, env);
    SitemapRecords(items, env);
    BlocksConcat(bu, pf + pr);
    BlocksConcat(pf, pr);
    Regroup(Opening(RootUrl(env), IndexUrl(env)), Blocks(bu), Blocks(pf), Blocks(pr), Closing);
  }

  /** After the root page and the boards index come the board records, the featured records and the regular records. */
  lemma SitemapRecords(items: seq<Entry>, env: Env)
    requires AllDated(Published(items))
    ensures AllDated(Featured(Published(items))) && AllDated(Regular(Published(items)))
    ensures var urls := SitemapUrls(items, env);
      && urls[0] == RootUrl(env) && urls[1] == IndexUrl(env)
      && urls[2..] == BoardUrls(UniqueBoards(items), Published(items), env)
                      + (PostUrls(Featured(Published(items)), env) + PostUrls(Regular(Published(items)), env))
  {
    var f, r := Featured(Published(items)), Regular(Published(items));
    PostUrlsConcat(f, r, env);
    var bu := BoardUrls(UniqueBoards(items), Published(items), env);
    AfterHead([RootUrl(env), IndexUrl(env)], bu, PostUrls(f, env) + PostUrls(r, env));
  }

  // ---------------------------------------------------------------------
  // The builder as the source writes it

  /** The `boardGroups` loop: each published post is pushed onto the list of its board key. */
  method GroupByBoard(posts: seq<Entry>) returns (groups: map<string, seq<Entry>>)
    ensures forall k :: k in groups <==> Group(posts, k) != []
    ensures forall k | k in groups :: groups[k] == Group(posts, k)
  {
    groups := map[];
    for i := 0 to |posts|
      invariant forall k :: k in groups <==> Group(posts[..i], k) != []
      invariant forall k | k in groups :: groups[k] == Group(posts[..i], k)
    {
      var key := BoardKey(posts[i]);
      ghost var before := groups;
      if key !in groups {
        groups := groups[key := []];
      }
      GroupPush(posts, i, before, groups);
      groups := groups[key := groups[key] + [posts[i]]];
    }
    assert posts[..|posts|] == posts;
  }

  lemma GroupStep(posts: seq<Entry>, i: nat)
    requires i < |posts|
    ensures forall k :: Group(posts[..i + 1], k) == Group(posts[..i], k) + (if BoardKey(posts[i]) == k then [posts[i]] else [])
  {
    assert posts[..i + 1][..i] == posts[..i];
  }

  /** One push of the grouping loop: the groups of `posts[..i]` become those of `posts[..i + 1]`. */
  lemma GroupPush(posts: seq<Entry>, i: nat, before: map<string, seq<Entry>>, ready: map<string, seq<Entry>>)
    requires i < |posts|
    requires forall k :: k in before <==> Group(posts[..i], k) != []
    requires forall k | k in before :: before[k] == Group(posts[..i], k)
    requires ready == if BoardKey(posts[i]) in before then before else before[BoardKey(posts[i]) := []]
    ensures BoardKey(posts[i]) in ready
    ensures var after := ready[BoardKey(posts[i]) := ready[BoardKey(posts[i])] + [posts[i]]];
      && (forall k :: k in after <==> Group(posts[..i + 1], k) != [])
      && (forall k | k in after :: after[k] == Group(posts[..i + 1], k))
  {
    GroupStep(posts, i);
  }

  /**
   * The `uniqueBoards.forEach` loop: appends one record per board name, or
   * gives `None` where a group's latest date is NaN.
   */
  method AppendBoards(text: string, boards: seq<string>, groups: map<string, seq<Entry>>, posts: seq<Entry>, env: Env)
    returns (out: Option<string>)
    requires forall k :: k in groups <==> Group(posts, k) != []
    requires forall k | k in groups :: groups[k] == Group(posts, k)
    ensures out.None? <==> exists n | n in boards :: BoardLastmod(n, posts, env.now).None?
    ensures out.Some? ==> out.value == text + Blocks(BoardUrls(boards, posts, env))
  {
    var acc := text;
    for j := 0 to |boards|
      invariant forall n | n in boards[..j] :: BoardLastmod(n, posts, env.now).Some?
      invariant acc == text + Blocks(BoardUrls(boards[..j], posts, env))
    {
      var name := boards[j];
      var boardPosts := if name in groups then groups[name] else [];
      GroupLookup(groups, posts, name);
      var lastModified: int;
      if |boardPosts| > 0 {
        var latest := Latest(boardPosts);
        if latest.None? {
          assert name in boards && BoardLastmod(name, posts, env.now).None?;
          return None;
        }
        lastModified := latest.value;
      } else {
        lastModified := env.now;
      }
      BoardStep(text, boards, j, posts, env);
      acc := acc + UrlXml(BoardUrl(name, lastModified, env));
    }
    assert boards[..|boards|] == boards;
    out := Some(acc);
  }

  /** `boardGroups[name] || []` is the group of `name`. */
  lemma GroupLookup(groups: map<string, seq<Entry>>, posts: seq<Entry>, name: string)
    requires forall k :: k in groups <==> Group(posts, k) != []
    requires forall k | k in groups :: groups[k] == Group(posts, k)
    ensures (if name in groups then groups[name] else []) == Group(posts, name)
  {
  }

  lemma BoardStep(text: string, boards: seq<string>, j: nat, posts: seq<Entry>, env: Env)
    requires j < |boards|
    requires forall n | n in boards[..j] :: BoardLastmod(n, posts, env.now).Some?
    requires BoardLastmod(boards[j], posts, env.now).Some?
    ensures forall n | n in boards[..j + 1] :: BoardLastmod(n, posts, env.now).Some?
    ensures text + Blocks(BoardUrls(boards[..j], posts, env))
              + UrlXml(BoardUrl(boards[j], BoardLastmod(boards[j], posts, env.now).value, env))
            == text + Blocks(BoardUrls(boards[..j + 1], posts, env))
  {
    assert boards[..j + 1][..j] == boards[..j];
    forall n | n in boards[..j + 1]
      ensures BoardLastmod(n, posts, env.now).Some?
    {
      var i :| 0 <= i <= j && boards[i] == n;
      if i < j {
        assert boards[..j][i] == n;
      }
    }
    var u := BoardUrl(boards[j], BoardLastmod(boards[j], posts, env.now).value, env);
    assert BoardUrls(boards[..j + 1], posts, env) == BoardUrls(boards[..j], posts, env) + [u];
    BlocksSnoc(BoardUrls(boards[..j], posts, env), u);
    Assoc(text, Blocks(BoardUrls(boards[..j], posts, env)), UrlXml(u));
  }

  lemma DatedSnoc(posts: seq<Entry>, j: nat)
    requires j < |posts| && AllDated(posts[..j]) && Dated(posts[j])
    ensures AllDated(posts[..j + 1])
  {
    forall e | e in posts[..j + 1]
      ensures Dated(e)
    {
      var i :| 0 <= i <= j && posts[i] == e;
      if i < j {
        assert posts[..j][i] == e;
      }
    }
  }

  lemma PostStep(text: string, posts: seq<Entry>, j: nat, env: Env)
    requires j < |posts| && AllDated(posts[..j + 1])
    ensures AllDated(posts[..j]) && Dated(posts[j])
    ensures text + Blocks(PostUrls(posts[..j], env)) + UrlXml(PostUrl(posts[j], env))
            == text + Blocks(PostUrls(posts[..j + 1], env))
  {
    assert posts[..j + 1][..j] == posts[..j];
    assert posts[j] in posts[..j + 1];
    var u := PostUrl(posts[j], env);
    assert PostUrls(posts[..j + 1], env) == PostUrls(posts[..j], env) + [u];
    BlocksSnoc(PostUrls(posts[..j], env), u);
    Assoc(text, Blocks(PostUrls(posts[..j], env)), UrlXml(u));
  }

  /**
   * The `featuredPosts.forEach` and `regularPosts.forEach` loops: appends
   * one record per post, or gives `None` where an `updatedAt` is NaN.
   */
  method AppendPosts(text: string, posts: seq<Entry>, featured: bool, env: Env) returns (out: Option<string>)
    requires forall e | e in posts :: e.Post? && e.meta.featured == featured
    ensures out.None? <==> !AllDated(posts)
    ensures out.Some? ==> out.value == text + Blocks(PostUrls(posts, env))
  {
    var acc := text;
    for j := 0 to |posts|
      invariant AllDated(posts[..j])
      invariant acc == text + Blocks(PostUrls(posts[..j], env))
    {
      var post := posts[j];
      assert post in posts;
      if post.meta.updatedAt.None? {
        assert !Dated(post);
        return None;
      }
      var lastmod := env.isoDate(post.meta.updatedAt.value);
      var priority := CalculatePriority(post.meta, env.threeMonthsAgo);
      var changefreq := ChangeFreq(post.meta.createdAt, env.now);
      var comment := if featured then Some("Featured: " + post.meta.title) else None;
      var u := Url(comment, PostLoc(post.path), lastmod, changefreq, PriorityText(priority, env.tieUp(priority)));
      assert u == PostUrl(post, env) by {
        assert post.Post? && post.meta.featured == featured;
      }
      DatedSnoc(posts, j);
      assert acc + UrlXml(u) == text + Blocks(PostUrls(posts[..j + 1], env)) by {
        PostStep(text, posts, j, env);
      }
      acc := acc + UrlXml(u);
    }
    assert posts[..|posts|] == posts;
    out := Some(acc);
  }

  /**
   * `generateSitemap`: group the published posts, then write the fixed
   * head, the board records, the featured posts, the regular posts and the
   * closing tag; `None` where the source throws on an invalid date.
   */
  method GenerateSitemap(items: seq<Entry>, env: Env) returns (xml: Option<string>)
    ensures xml == Sitemap(items, env)
  {
    var posts := Published(items);
    var groups := GroupByBoard(posts);
    var head := Opening(RootUrl(env), IndexUrl(env));
    var boards := UniqueBoards(items);
    var withBoards := AppendBoards(head, boards, groups, posts, env);
    if withBoards.None? {
      return None;
    }
    var featured, regular := Featured(posts), Regular(posts);
    var withFeatured := AppendPosts(withBoards.value, featured, true, env);
    if withFeatured.None? {
      return None;
    }
    var withRegular := AppendPosts(withFeatured.value, regular, false, env);
    if withRegular.None? {
      return None;
    }
    DatedSplit(posts);
    SitemapText(items, env);
    xml := Some(withRegular.value + Closing);
  }
}
