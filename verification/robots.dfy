/**
 * The robots.txt builder (`generateRobots`): a fixed head, one
 * `Allow: /boards/<name>/` line per distinct board name in scan order,
 * and a fixed tail of `Disallow`, `Sitemap` and `Crawl-delay` lines.
 *
 * The document is specified as a list of lines joined by line feeds;
 * the builder writes it the way the source does, as one template
 * followed by appended pieces.
 */
module Robots {
  import opened Content
  import opened Catalog
  import opened Sitemap

  /** `CONFIG.siteName`. */
  const SiteName := "김동주의 개발 블로그"

  function HeadLines(): seq<string>
  {
    [ "# " + SiteName + " - Contents Repository",
      "# " + BaseUrl + "/",
      "",
      "User-agent: *",
      "Allow: /",
      "",
      "# 검색엔진에 더 나은 크롤링 환경 제공",
      "# Allow specific important directories",
      "Allow: /boards/" ]
  }

  function TailLines(): seq<string>
  {
    [ "",
      "# 성능을 위해 리다이렉트 스크립트는 크롤링하지 않음",
      "Disallow: /redirect.js",
      "",
      "# 템플릿 파일들은 크롤링 제외",
      "Disallow: /templates/",
      "",
      "# 설정 파일들 제외",
      "Disallow: /_config.json",
      "Disallow: /*/_config.json",
      "",
      "# Sitemap 위치 명시",
      "Sitemap: " + BaseUrl + "/sitemap.xml",
      "",
      "# 크롤링 딜레이 (서버 부하 방지)",
      "Crawl-delay: 1" ]
  }

  /** The line that lets crawlers into one board. */
  function AllowLine(name: string): (line: string)
    ensures |line| == |name| + 16 && line[0] == 'A'
  {
    "Allow: /boards/" + name + "/"
  }

  function AllowLines(names: seq<string>): (r: seq<string>)
    ensures |r| == |names|
    ensures forall i | 0 <= i < |names| :: r[i] == AllowLine(names[i])
  {
    if names == [] then [] else AllowLines(names[..|names| - 1]) + [AllowLine(names[|names| - 1])]
  }

  /** The lines of the document. */
  function RobotsLines(items: seq<Entry>): seq<string>
  {
    HeadLines() + AllowLines(UniqueBoards(items)) + TailLines()
  }

  /** Lines joined by line feeds, with no feed after the last one. */
  function Join(lines: seq<string>): string
  {
    if |lines| == 0 then ""
    else if |lines| == 1 then lines[0]
    else Join(lines[..|lines| - 1]) + "\n" + lines[|lines| - 1]
  }

  /** The result of `generateRobots`: it opens with the head template and closes with the tail template. */
  function Robots(items: seq<Entry>): (text: string)
    ensures |text| >= |HeadText| && text[..|HeadText|] == HeadText
    ensures |text| >= |TailText| && text[|text| - |TailText|..] == TailText
  {
    JoinFrame(HeadLines(), AllowLines(UniqueBoards(items)), TailLines());
    Join(RobotsLines(items))
  }

  /** Joining a head, a middle and a tail starts with the joined head and ends with a feed and the joined tail. */
  lemma JoinFrame(head: seq<string>, mid: seq<string>, tail: seq<string>)
    requires head != [] && tail != []
    ensures var text := Join(head + mid + tail);
      && |text| >= |Join(head)| && text[..|Join(head)|] == Join(head)
      && |text| >= |"\n" + Join(tail)| && text[|text| - |"\n" + Join(tail)|..] == "\n" + Join(tail)
  {
    assert head + mid + tail == head + (mid + tail);
    JoinConcat(head, mid + tail);
    JoinConcat(head + mid, tail);
    Assoc(Join(head + mid), "\n", Join(tail));
    EndsAfter(Join(head + mid), "\n" + Join(tail));
    StartsBefore(Join(head), "\n" + Join(mid + tail));
  }

  lemma StartsBefore(x: string, y: string)
    ensures (x + y)[..|x|] == x
  {
    assert (x + y)[..|x|] == x;
  }

  lemma EndsAfter(x: string, y: string)
    ensures (x + y)[|x + y| - |y|..] == y
  {
    assert (x + y)[|x|..] == y;
  }

  // ---------------------------------------------------------------------
  // Joining lines

  lemma JoinSnoc(lines: seq<string>, x: string)
    requires lines != []
    ensures Join(lines + [x]) == Join(lines) + "\n" + x
  {
    assert (lines + [x])[..|lines|] == lines;
  }

  lemma {:induction false} JoinConcat(a: seq<string>, b: seq<string>)
    requires a != [] && b != []
    ensures Join(a + b) == Join(a) + "\n" + Join(b)
    decreases |b|
  {
    var ab := a + b;
    if |b| == 1 {
      assert ab[..|ab| - 1] == a;
    } else {
      var init := b[..|b| - 1];
      assert ab[..|ab| - 1] == a + init;
      JoinConcat(a, init);
      Assoc(Join(a), "\n", Join(init));
      Assoc(Join(a) + "\n", Join(init), "\n");
      Assoc(Join(a) + "\n", Join(init) + "\n", b[|b| - 1]);
    }
  }

  // ---------------------------------------------------------------------
  // What the document says

  /** The head and the tail never look like a board's `Allow` line. */
  lemma FixedLinesAreNotAllows(n: string)
    ensures AllowLine(n) !in HeadLines() && AllowLine(n) !in TailLines()
  {
    forall l | l in HeadLines()
      ensures |l| < 16 || l[0] != 'A'
    {
    }
    forall l | l in TailLines()
      ensures |l| < 16 || l[0] != 'A'
    {
    }
  }

  lemma {:induction false} AllowLineInjective(a: string, b: string)
    requires AllowLine(a) == AllowLine(b)
    ensures a == b
  {
    assert a == AllowLine(a)[15..|a| + 15];
    assert b == AllowLine(b)[15..|b| + 15];
  }

  lemma {:induction false} AllowLinesCount(names: seq<string>, n: string)
    ensures multiset(AllowLines(names))[AllowLine(n)] == multiset(names)[n]
  {
    if names != [] {
      var init, last := names[..|names| - 1], names[|names| - 1];
      assert names == init + [last];
      AllowLinesCount(init, n);
      if AllowLine(last) == AllowLine(n) {
        AllowLineInjective(last, n);
      }
    }
  }

  lemma {:induction false} NoRepeatsCount(s: seq<string>, n: string)
    requires NoRepeats(s)
    ensures multiset(s)[n] == if n in s then 1 else 0
  {
    if s != [] {
      var init, last := s[..|s| - 1], s[|s| - 1];
      assert s == init + [last];
      assert NoRepeats(init);
      NoRepeatsCount(init, n);
      assert last !in init;
    }
  }

  /**
   * Each board name gets exactly one `Allow` line and every other name
   * none, however many board entries share that name.
   */
  lemma AllowOncePerBoard(items: seq<Entry>, n: string)
    ensures multiset(RobotsLines(items))[AllowLine(n)] ==
            if exists e | e in items :: e.Board? && e.name == n then 1 else 0
  {
    FixedLinesAreNotAllows(n);
    AllowLinesCount(UniqueBoards(items), n);
    NoRepeatsCount(UniqueBoards(items), n);
    BoardNamesComplete(items);
  }

  /** Board lines follow the order in which the scan first met each name. */
  lemma AllowOrder(items: seq<Entry>, i: nat, j: nat)
    requires i < j < |UniqueBoards(items)|
    ensures RobotsLines(items)[|HeadLines()| + i] == AllowLine(UniqueBoards(items)[i])
    ensures FirstIndex(BoardNames(items), UniqueBoards(items)[i]) < FirstIndex(BoardNames(items), UniqueBoards(items)[j])
  {
    MiddleAt(HeadLines(), AllowLines(UniqueBoards(items)), TailLines(), i);
    DedupOrder(BoardNames(items));
  }

  lemma MiddleAt(h: seq<string>, m: seq<string>, t: seq<string>, i: nat)
    requires i < |m|
    ensures (h + m + t)[|h| + i] == m[i]
  {
  }

  /**
   * The fixed part: the head opens the document, the tail closes it, and
   * the tail points crawlers at the sitemap.
   */
  lemma RobotsFrame(items: seq<Entry>)
    ensures RobotsLines(items)[..|HeadLines()|] == HeadLines()
    ensures RobotsLines(items)[|RobotsLines(items)| - |TailLines()|..] == TailLines()
    ensures "Sitemap: " + BaseUrl + "/sitemap.xml" in RobotsLines(items)
    ensures "Disallow: /redirect.js" in RobotsLines(items) && "Disallow: /templates/" in RobotsLines(items)
  {
    var lines := RobotsLines(items);
    assert lines[..|HeadLines()|] == HeadLines();
    assert lines[|lines| - |TailLines()|..] == TailLines();
    assert TailLines()[2] in lines && TailLines()[5] in lines && TailLines()[12] in lines;
  }

  /** Only board entries matter: posts add nothing to the document. */
  lemma RobotsIgnoresPosts(items: seq<Entry>)
    ensures Robots(items) == Robots(BoardEntries(items))
  {
    BoardNamesOfBoards(items);
  }

  // ---------------------------------------------------------------------
  // The builder as the source writes it

  /** The head template: the head lines, joined. */
  const HeadText := Join(HeadLines())

  /** The tail template: the feed that ends the last `Allow` line, then the tail lines, joined. */
  const TailText := "\n" + Join(TailLines())

  /** `generateRobots`. */
  method GenerateRobots(items: seq<Entry>) returns (robots: string)
    ensures robots == Robots(items)
  {
    var boards := UniqueBoards(items);
    robots := HeadText;
    assert HeadLines() + AllowLines(boards[..0]) == HeadLines();
    for j := 0 to |boards|
      invariant robots == Join(HeadLines() + AllowLines(boards[..j]))
    {
      AllowStep(boards, j);
      robots := robots + "\nAllow: /boards/" + boards[j] + "/";
    }
    assert boards[..|boards|] == boards;
    RobotsText(boards);
    robots := robots + TailText;
  }

  lemma AllowStep(boards: seq<string>, j: nat)
    requires j < |boards|
    ensures Join(HeadLines() + AllowLines(boards[..j])) + "\nAllow: /boards/" + boards[j] + "/"
            == Join(HeadLines() + AllowLines(boards[..j + 1]))
  {
    var lines := HeadLines() + AllowLines(boards[..j]);
    assert boards[..j + 1][..j] == boards[..j];
    assert HeadLines() + AllowLines(boards[..j + 1]) == lines + [AllowLine(boards[j])];
    JoinSnoc(lines, AllowLine(boards[j]));
    var joined := Join(lines);
    Assoc(joined + "\n", "Allow: /boards/" + boards[j], "/");
    Assoc(joined, "\n", "Allow: /boards/" + boards[j] + "/");
  }

  lemma RobotsText(boards: seq<string>)
    ensures Join(HeadLines() + AllowLines(boards)) + TailText == Join(HeadLines() + AllowLines(boards) + TailLines())
  {
    JoinConcat(HeadLines() + AllowLines(boards), TailLines());
    Assoc(Join(HeadLines() + AllowLines(boards)), "\n", Join(TailLines()));
  }
}
