# SEO files and redirect of a static contents site

This project models the two programs that serve the contents repository
of a personal blog. The repository is published as a static site under
`https://jook1356.github.io/contents`.

- **The SEO generator** (`scripts/generate-seo-files.js`) walks the
  `boards` folder of the repository. It classifies every visible folder
  as a *board* or as a *post*: a post is a folder that holds both
  `meta.json` and `index.html`. From that list it writes two files:
  - `sitemap.xml`: the root page, the boards index, one record per
    distinct board name, then the featured posts and the regular posts,
    each post with its own priority and change frequency;
  - `robots.txt`: a fixed head, one `Allow: /boards/<name>/` line per
    distinct board name, and a fixed tail of `Disallow`, `Sitemap` and
    `Crawl-delay` lines.
- **The redirect script** (`redirect.js`) runs in every page of the
  contents site. Crawlers stay on the page. Every other visitor is sent
  to the same post on the main blog (`https://jook1356.github.io/djb-gith`)
  when the pathname ends with `/contents/boards/<board>/<post>`, and to
  the blog's front page otherwise.

Modules, one per concern:

| file | module | what it holds |
|---|---|---|
| `wrappers.dfy` | `Wrappers` | `Option` |
| `content.dfy` | `Content` | the folder tree, entries (board or post), post metadata, path text and board keys |
| `scanner.dfy` | `Scanner` | `scanDirectory`, as a function and as the loop the source runs, and the shape of its result |
| `ranking.dfy` | `Ranking` | `calculatePriority` and `calculateChangeFreq` |
| `catalog.dfy` | `Catalog` | the filters, the board-name set, the board groups and `Math.max` over update times |
| `sitemap.dfy` | `Sitemap` | `generateSitemap`, as a list of records, its text, and the builder loops |
| `robots.dfy` | `Robots` | `generateRobots`, as a list of lines, and the builder loop |
| `redirect.dfy` | `Redirect` | `isBot`, `getPostPath`, `getMainBlogUrl` and the `performRedirect` decision |
| `links.dfy` | `Links` | how the generator and the redirect script agree |

How the model is set up:

- **Environment.** The file system is a value. A `Node` is a name, a kind
  and the children in listing order. The kind is one of:
  - `statSync` throws;
  - not a directory;
  - a directory, with flags for "can be listed", "has `meta.json`" and
    "has `index.html`", and the parsed metadata (`None` when parsing fails).
- **The clock** is a parameter, `Env`. It gives `now`, the instant three
  months ago, the `toISOString().split("T")[0]` formatting, and how a
  priority that ends in 5 hundredths prints.
- **Dates.** A date that does not parse (`NaN`) is `None`.
- **Errors.** A sitemap whose generation throws is `None`.
- **Priority** is kept in integer hundredths.

Where the code and the prose description of the system differ, the model
follows the code:

- A post folder whose `meta.json` fails to parse contributes nothing: no
  post, and no board in its place.
- `robots.txt` takes its `Allow` lines from board entries only.
- The pathname pattern of the redirect script is anchored only at the
  end. So "three or more segments after `/contents/boards/` give no
  post" holds for three segments (`Redirect.ThreeSegmentsIsNull`) but not
  for every deeper pathname (`Redirect.FourSegmentsCanMatch`).

## Model

| member | source | states |
|---|---|---|
| Scanner.ScanRoot | scripts/generate-seo-files.js:28-30 | a missing `boards` folder yields no entries |
| Scanner.ScanDir | scripts/generate-seo-files.js:25-33 | a folder that cannot be listed yields no entries, because the error is caught; every entry of a scan lies strictly below the scanned folder |
| Scanner.ScanFrom | scripts/generate-seo-files.js:35-82 | every entry produced from a listing lies strictly below the listed folder |
| Scanner.ScanChild | scripts/generate-seo-files.js:44-80 | a post folder yields at most one entry, a post; any other folder yields its own board entry first, then entries below it; all of them lie below the parent |
| Scanner.BelowParent | scripts/generate-seo-files.js:44 | an entry below a child folder lies below its parent |
| Scanner.ScanDirectory | scripts/generate-seo-files.js:25-91 | the loop over the listing (push the post, or push the board and its sub-scan) returns exactly the depth-first scan `ScanDir`, including the early end when `statSync` throws |
| Scanner.PostFolder | scripts/generate-seo-files.js:50-67 | a visible folder with `meta.json` and `index.html` yields its post, or nothing when the metadata fails to parse; nothing beneath it is scanned, and no later sibling's entry lies at or below it |
| Scanner.BoardFolder | scripts/generate-seo-files.js:68-80 | any other visible folder yields its board entry, immediately followed by its own subtree, all of which lies below it; later siblings' entries lie elsewhere |
| Scanner.LaterSiblingsApart | scripts/generate-seo-files.js:35-44 | in a tree with distinct sibling names, no entry scanned from later siblings lies at or below an earlier child |
| Scanner.ScanFromBelow | scripts/generate-seo-files.js:39-44 | every entry of a listing lies below the scanned folder, starts with the name of a listed child, adds only visible segments, and a board is named after its folder |
| Scanner.ScanChildBelow | scripts/generate-seo-files.js:44-79 | the entries one visible child contributes lie below the scanned folder and start with that child's name |
| Scanner.ScanDirBelow | scripts/generate-seo-files.js:25-44 | every entry of a folder's scan lies strictly below it, with only visible segments added |
| Scanner.NoHiddenSegments | scripts/generate-seo-files.js:39-43 | no path segment of any scanned entry starts with `_` or `.` |
| Scanner.ScanFromDistinct | scripts/generate-seo-files.js:35-80 | in a tree with distinct sibling names, the entries of a listing have pairwise distinct paths |
| Scanner.ScanChildDistinct | scripts/generate-seo-files.js:68-80 | the entries of one child have pairwise distinct paths |
| Scanner.ScanDirDistinct | scripts/generate-seo-files.js:25-91 | the scan of a folder with distinct sibling names has pairwise distinct paths |
| Scanner.ScanFromAncestors | scripts/generate-seo-files.js:68-79 | for every entry of a listing, each folder between the scanned folder and the entry was emitted as a board |
| Scanner.ScanChildAncestors | scripts/generate-seo-files.js:68-79 | the same for the entries of one child |
| Scanner.ScanDirAncestors | scripts/generate-seo-files.js:68-79 | the same for a folder's whole scan |
| Scanner.AncestorsAreBoards | scripts/generate-seo-files.js:68-79 | every folder on the way to a scanned entry appears as a board entry, with its name and path |
| Scanner.NothingBelowPosts | scripts/generate-seo-files.js:50-67 | a post is a leaf: no scanned entry lies below a post |
| Content.Normalize | scripts/generate-seo-files.js:155 | `replace(/\\/g, "/")` keeps the length, turns every backslash into a slash and keeps every other character |
| Content.FirstSegment | scripts/generate-seo-files.js:155 | `split("/")[0]` is a slash-free prefix of the text, and it is the whole text when there is no slash |
| Content.FirstSegmentAt | scripts/generate-seo-files.js:155 | `split("/")[0]` ends exactly at the first slash, or at the end of the text |
| Content.PathText | scripts/generate-seo-files.js:44 | `path.join` writes the first segment first, followed by a slash when more segments follow |
| Content.BoardKey | scripts/generate-seo-files.js:155 | a post's group key has no slash, and it is the post's top-level folder whenever that name holds no slash or backslash |
| Content.HeadKey | scripts/generate-seo-files.js:155 | normalising the joined path and cutting at the first slash gives back the top-level folder |
| Ranking.DifficultyBonus | scripts/generate-seo-files.js:114-121 | the bonus is 5 exactly for `Beginner`, 10 exactly for `Advanced`, and 0 for anything else |
| Ranking.IsRecent | scripts/generate-seo-files.js:105-111 | a `createdAt` that is not a valid date (NaN) is never recent |
| Ranking.Priority | scripts/generate-seo-files.js:96-123 | a priority lies between 0.60 and 1.00, in steps of 0.05 |
| Ranking.CalculatePriority | scripts/generate-seo-files.js:96-123 | the running total (base 0.6, +0.2 featured, +0.1 created after three months ago, difficulty bonus, capped at 1.0) equals `Priority`, within [0.6, 1.0] |
| Ranking.FeaturedNeverLowers | scripts/generate-seo-files.js:100-102 | featuring a post never lowers its priority, and raises it unless it is already 1.0 |
| Ranking.CapReachedOnlyAtTop | scripts/generate-seo-files.js:123 | every bonus combination stays within 1.0, so `Math.min` never cuts a sum; featured, recent and Advanced reach exactly 1.0 |
| Ranking.Tenths | scripts/generate-seo-files.js:123 | the text of a number of tenths `t` has the `d.d` shape of `toFixed(1)`, and its two digits read back as `t` |
| Ranking.PriorityText | scripts/generate-seo-files.js:123 | a whole number of tenths prints as that tenth; a value ending in 5 hundredths prints as one of its two neighbouring tenths |
| Ranking.PriorityTextBounds | scripts/generate-seo-files.js:97-123 | whatever the rounding: every post without bonuses (any difficulty other than Beginner and Advanced) prints "0.6", every featured post without other bonuses "0.8", the featured, recent, Advanced post "1.0", and every whole-tenth priority prints as that tenth |
| Ranking.ChangeFreq | scripts/generate-seo-files.js:129-141 | the result is one of `daily`, `weekly` and `monthly`, and `monthly` for a date that does not parse |
| Ranking.ChangeFreqBands | scripts/generate-seo-files.js:129-141 | daily iff the age is under 7 days, weekly iff 7 to under 30 days, monthly iff 30 days or more; an unparsable date is monthly and a future date daily |
| Ranking.ChangeFreqMonotone | scripts/generate-seo-files.js:129-141 | an older post never gets a more frequent change frequency than a newer one |
| Catalog.Published | scripts/generate-seo-files.js:147-149 | the filter keeps only published posts |
| Catalog.PublishedCount | scripts/generate-seo-files.js:147-149 | each published post is kept exactly as often as the scan holds it, and every other entry is dropped |
| Catalog.PublishedConcat | scripts/generate-seo-files.js:147-149 | the filter keeps scan order: the published posts of two parts of a scan are those of the first part followed by those of the second |
| Catalog.Featured | scripts/generate-seo-files.js:202 | the featured filter keeps only featured posts of its input |
| Catalog.Regular | scripts/generate-seo-files.js:219 | the regular filter keeps only non-featured entries of its input |
| Catalog.FeaturedConcat | scripts/generate-seo-files.js:202 | the featured filter keeps input order |
| Catalog.RegularConcat | scripts/generate-seo-files.js:219 | the regular filter keeps input order |
| Catalog.FeaturedThenRegular | scripts/generate-seo-files.js:202-232 | featured posts followed by regular ones are a reordering of the published posts (same multiset) |
| Catalog.BoardNames | scripts/generate-seo-files.js:182 | every listed name is the name of some board entry |
| Catalog.BoardNamesComplete | scripts/generate-seo-files.js:182 | every board entry's name is listed |
| Catalog.BoardNamesConcat | scripts/generate-seo-files.js:182 | board names are read in scan order |
| Catalog.BoardEntries | scripts/generate-seo-files.js:150 | the board filter keeps only board entries of the scan |
| Catalog.BoardNamesOfBoards | scripts/generate-seo-files.js:244-248 | filtering the boards first, as robots does, yields the same names as reading them off the whole scan |
| Catalog.Dedup | scripts/generate-seo-files.js:182 | `[...new Set(names)]` holds exactly the names of its input, each once |
| Catalog.FirstIndex | scripts/generate-seo-files.js:182 | the first position of a name in the list |
| Catalog.DedupOrder | scripts/generate-seo-files.js:182 | the set keeps insertion order: a name listed earlier first occurred earlier |
| Catalog.UniqueBoards | scripts/generate-seo-files.js:182 | the distinct board names hold exactly the names of the scanned board entries, each once |
| Catalog.Group | scripts/generate-seo-files.js:153-160 | a board group holds only posts whose first path segment is the key |
| Catalog.GroupComplete | scripts/generate-seo-files.js:153-160 | every post whose first path segment is the key is in that group |
| Catalog.Latest | scripts/generate-seo-files.js:187-189 | `Math.max` over update times is NaN iff some update time is NaN; otherwise it is at least every update time and equal to one of them |
| Catalog.BoardLastmod | scripts/generate-seo-files.js:184-190 | a board's time is defined whenever all its posts are dated |
| Catalog.BoardLastmodSpec | scripts/generate-seo-files.js:184-190 | a board with no grouped posts is dated `now`; otherwise it is dated by the latest update among its posts |
| Sitemap.Sitemap | scripts/generate-seo-files.js:146-238 | the document exists iff no published post has an unparsable `updatedAt`; it starts with the XML prolog and `urlset` tag and ends with `</urlset>` |
| Sitemap.SitemapLayout | scripts/generate-seo-files.js:162-179 | the document opens with the root page (daily, 1.0) and the boards index (weekly, 0.8) at `now`, and has one record per distinct board name and one per published post |
| Sitemap.BoardUrlsAt | scripts/generate-seo-files.js:183-199 | the j-th board record is the record of the j-th board name |
| Sitemap.SitemapBoardRecord | scripts/generate-seo-files.js:182-199 | record 2+j is board j in first-occurrence order: at `/boards/<name>/`, weekly, 0.8, dated by its group's latest update or `now` |
| Sitemap.NestedBoardDatedNow | scripts/generate-seo-files.js:155 | a board name that is no published post's first segment, such as a nested board, is dated `now` |
| Sitemap.SitemapPostRecord | scripts/generate-seo-files.js:201-232 | after the boards, record k describes the k-th post of the featured-then-regular order |
| Sitemap.PostUrlsConcat | scripts/generate-seo-files.js:201-232 | the records of two post lists in a row are the records of each list, in a row |
| Sitemap.PostOrder | scripts/generate-seo-files.js:202-219 | the listing order holds only published posts |
| Sitemap.PostsListedOnce | scripts/generate-seo-files.js:147-232 | every published post is listed exactly as often as the scan holds it, and nothing else is |
| Sitemap.FeaturedFirst | scripts/generate-seo-files.js:201-232 | every featured post is listed before every regular one |
| Sitemap.PostOrderScanOrder | scripts/generate-seo-files.js:201-232 | within each kind the posts keep scan order: for a scan in two parts, the listing is the featured posts of each part in turn, then the regular posts of each part in turn |
| Sitemap.DatedSplit | scripts/generate-seo-files.js:202-232 | once the featured and the regular posts are all dated, every published post is |
| Sitemap.SitemapText | scripts/generate-seo-files.js:162-235 | the text is the head, the board records, the featured records, the regular records and the closing tag, in that order |
| Sitemap.SitemapRecords | scripts/generate-seo-files.js:162-232 | the records are the root page, the boards index, then the board records, the featured records and the regular records, in that order |
| Sitemap.UrlXml | scripts/generate-seo-files.js:192-231 | each record's text starts on a new line and ends with `</url>`, so records are written one after the other with no separator |
| Sitemap.PostLoc | scripts/generate-seo-files.js:211 | a post's address is `<baseUrl>/boards/`, then its joined path character by character with every backslash turned into a slash, then a final slash |
| Sitemap.PostUrl | scripts/generate-seo-files.js:203-231 | a post's record carries a comment exactly when the post is featured, a valid change frequency and a one-decimal priority |
| Sitemap.BlocksConcat | scripts/generate-seo-files.js:192-232 | appending the records of two lists one by one writes the text of both lists in a row |
| Sitemap.GroupByBoard | scripts/generate-seo-files.js:153-160 | the map built by pushing each post onto its key's list has a key exactly for every non-empty group, holding that group in order |
| Sitemap.AppendBoards | scripts/generate-seo-files.js:183-199 | the board loop fails iff some board's latest update is NaN, and otherwise appends exactly the board records |
| Sitemap.AppendPosts | scripts/generate-seo-files.js:203-232 | a post loop fails iff some post's `updatedAt` is NaN, and otherwise appends exactly the post records |
| Sitemap.GenerateSitemap | scripts/generate-seo-files.js:146-238 | the builder, head template plus appended pieces, produces exactly `Sitemap`, failing exactly when it does |
| Robots.AllowLine | scripts/generate-seo-files.js:262-263 | a board's line starts with `A` and is 16 characters longer than the name |
| Robots.AllowLines | scripts/generate-seo-files.js:261-264 | one `Allow` line per name, in order |
| Robots.JoinConcat | scripts/generate-seo-files.js:250-282 | joining two non-empty blocks of lines is joining each, with a line feed between them |
| Robots.JoinFrame | scripts/generate-seo-files.js:250-282 | joining head, middle and tail lines starts with the joined head and ends with a line feed and the joined tail |
| Robots.FixedLinesAreNotAllows | scripts/generate-seo-files.js:250-282 | no line of the fixed head or tail is a board's `Allow` line |
| Robots.AllowLineInjective | scripts/generate-seo-files.js:262-263 | distinct board names give distinct `Allow` lines |
| Robots.AllowLinesCount | scripts/generate-seo-files.js:261-264 | a name's `Allow` line occurs as often as the name does |
| Robots.AllowOncePerBoard | scripts/generate-seo-files.js:244-264 | each board name gets exactly one `Allow` line, however many board entries share it, and any other name gets none |
| Robots.AllowOrder | scripts/generate-seo-files.js:244-264 | the `Allow` lines follow the head, in the order in which the scan first met each name |
| Robots.RobotsFrame | scripts/generate-seo-files.js:250-282 | the head opens the document, the tail closes it, and the tail names the sitemap and disallows the redirect script and the templates |
| Robots.RobotsIgnoresPosts | scripts/generate-seo-files.js:243-248 | posts do not affect `robots.txt`: it is the same for the board entries alone |
| Robots.Robots | scripts/generate-seo-files.js:243-285 | the document opens with the head template and closes with the tail template |
| Robots.GenerateRobots | scripts/generate-seo-files.js:243-285 | the template plus one appended line per board plus the tail template is exactly the joined lines `Robots` |
| Redirect.Lower | redirect.js:14 | lower-casing keeps the length and maps every character on its own |
| Redirect.ContainsAt | redirect.js:36 | a pattern test succeeds iff the pattern occurs at some position |
| Redirect.ContainsTrans | redirect.js:17-36 | a text that contains a pattern contains whatever that pattern contains |
| Redirect.AnyPatternExists | redirect.js:36 | `some` succeeds iff some pattern of the list occurs in the text |
| Redirect.IsBotPatterns | redirect.js:9-37 | a user agent is a crawler iff, lower-cased, it contains one of the sixteen patterns |
| Redirect.RedundantPatterns | redirect.js:17-34 | every pattern other than seven is implied by `bot` or `spider` |
| Redirect.IsBotReduced | redirect.js:17-36 | a user agent is a crawler iff it contains one of `bot`, `slurp`, `spider`, `facebookexternalhit`, `whatsapp`, `crawler`, `crawling` |
| Redirect.BotInAnyCase | redirect.js:14-36 | a user agent holding `bot` in any ASCII case is a crawler |
| Redirect.IsBot | redirect.js:9-37 | without `navigator` or `window` a crawler is assumed; a user agent containing `bot` in lower case is a crawler |
| Redirect.SplitLast | redirect.js:44 | the text before and after the last slash, which puts the text back together, with no slash after it |
| Redirect.SplitLastOf | redirect.js:44 | the last slash of `x/seg`, with `seg` slash-free, is the one before `seg` |
| Redirect.GetPostPath | redirect.js:40-53 | a parse result is two non-empty, slash-free segments |
| Redirect.ParseShape | redirect.js:44-52 | a pathname ending with two non-empty segments (one optional final slash) is parsed to them iff what precedes them ends with `/contents/boards` |
| Redirect.ParsesTail | redirect.js:44-49 | any pathname ending with `/contents/boards/<board>/<post>`, with or without a final slash, is parsed to that board and post |
| Redirect.ParsedIsTail | redirect.js:44-49 | whatever is parsed is two non-empty, slash-free segments that end the pathname after `/contents/boards/` |
| Redirect.TailsAgree | redirect.js:44 | a pathname ends with at most one such board and post |
| Redirect.GetPostPathSpec | redirect.js:40-53 | the parse gives (board, post) iff both are non-empty and slash-free and the pathname ends with `/contents/boards/<board>/<post>`, with or without a final slash |
| Redirect.ParsesEnding | redirect.js:44-49 | the "if" half of the previous row |
| Redirect.BoardOnlyIsNull | redirect.js:44-52 | a pathname naming a board but no post gives null |
| Redirect.ThreeSegmentsIsNull | redirect.js:44-52 | three segments after `/contents/boards/` give null |
| Redirect.FourSegmentsCanMatch | redirect.js:44 | `/contents/boards/contents/boards/<c>/<d>` is parsed to board `c` and post `d`, because the pattern is anchored only at the end |
| Redirect.GetMainBlogUrl | redirect.js:56-66 | the target is the blog's front page iff the pathname names no post |
| Redirect.BlogPostUrlInjective | redirect.js:61 | distinct (board, post) pairs get distinct blog addresses |
| Redirect.MainBlogUrlSpec | redirect.js:56-66 | the target is the blog page of (board, post) iff the pathname ends with that board and post |
| Redirect.PerformRedirect | redirect.js:69-76 | the page is redirected iff the visitor is not a crawler; without `navigator` or `window` it never is |
| Redirect.CrawlersStay | redirect.js:69-76 | a user agent containing one of the essential patterns is never redirected, whatever the page |
| Redirect.VisitorsFollowThePost | redirect.js:56-76 | a visitor on a post's page is sent to the same post on the main blog |
| Links.NormalizeKeeps | scripts/generate-seo-files.js:211 | a path without backslashes is written unchanged |
| Links.PostLocPathname | scripts/generate-seo-files.js:211 | a two-level post is published at the site origin plus `/contents/boards/<board>/<post>/` |
| Links.SitemapPostRoundTrip | redirect.js:40-61 | the redirect script, given the raw text of the sitemap address of a two-level post after the origin as its pathname, reads it back as that post and sends visitors to the same post on the blog |
| Links.PathTextThree | scripts/generate-seo-files.js:44 | a three-segment path is written with two slashes |
| Links.PostLocNested | scripts/generate-seo-files.js:211 | a post one board deeper is published at `/contents/boards/<a>/<b>/<post>/` |
| Links.NestedPostGoesHome | redirect.js:44-64 | visitors of a post inside a nested board land on the blog's front page, not on the post |
| Links.FoldersAllowed | scripts/generate-seo-files.js:68-79 | every folder above a scanned entry gets exactly one `Allow` line in `robots.txt` |

## Left out

- The file-system calls (`existsSync`, `readdirSync`, `statSync`, `readFileSync`) are not called. Their results are fields of the `Node` tree: the listing order, the stat outcome, whether `meta.json` and `index.html` exist, and the parsed metadata.
- `JSON.parse` is not modelled. A `meta.json` that does not parse is `None`. A file that parses to something other than an object with the used fields (for example `null`, which makes the filters throw) is not modelled.
- `fullPath` is not modelled, because no other part of the core reads it.
- The warnings printed to the console, `main`, and the writing of `sitemap.xml` and `robots.txt` are not modelled. Neither is the watcher script (`scripts/watch-content-changes.js`).
- Scanner: a `statSync` that throws ends the listing of that folder and keeps the entries so far, because the `catch` is outside the loop. The model follows this; a caught error inside the recursion behaves the same way one level down.
- Dates are not modelled as text. `new Date(...)` becomes an optional millisecond count. `toISOString().split("T")[0]` is the `Env.isoDate` parameter, and the instant three months ago is the `Env.threeMonthsAgo` parameter. The source reads the clock several times; the model has one `now` for the whole run.
- Ranking.PriorityText: the model does not fix how a priority ending in 5 hundredths (0.65, 0.75, 0.85, 0.95) prints. That depends on the binary rounding of the floating-point additions, so the `Env.tieUp` parameter chooses between the two neighbouring tenths. Whole tenths are exact.
- Sitemap.Sitemap: `boardGroups` is a plain object in the source. A board name such as `constructor`, `hasOwnProperty`, `isPrototypeOf` or `propertyIsEnumerable` reads an inherited function rather than an own key. The board loop then sees a `length` of at least 1 and calls `map`, which throws. If posts share such a key, `push` throws first. The model uses a map with only its own keys, so it returns a document where the source throws.
- Titles and paths are not escaped for XML, and paths are not percent-encoded for URLs, in the source or in the model. No property is stated about documents whose names contain `<`, `&` or `-->`.
- Links.SitemapPostRoundTrip: takes `location.pathname` to be the raw `<loc>` text after the origin. A browser percent-encodes non-ASCII and reserved characters in the pathname and ends it at `?` or `#`, so the round trip holds only up to percent-encoding, and only for names without `?`, `#` or `%`; how the browser turns an address into a pathname is not part of this model.
- Redirect.Lower: `toLowerCase` is modelled for ASCII letters only. Other characters, such as the Kelvin sign or a dotted capital I, are kept unchanged. The patterns' `/i` flag adds nothing once the text is lower-cased.
- The regular expressions are modelled by their meaning (substring search; the pathname pattern as a split at the last two slashes), not by a regular-expression engine.
- Redirect.PerformRedirect: the call to `window.location.replace` is left out. The function returns the address it would be given. The DOM-ready scheduling and the debugging console output are also left out.
- Robots: the head and tail templates are stated as their lines joined by line feeds. The builder appends the same pieces as the source, in the same order.
- A board nested inside another board gets an `Allow` line and a sitemap record under its own name only, `/boards/<name>/`, as in the source. This is stated by `Sitemap.NestedBoardDatedNow`, and not corrected.
- Catalog.Published: its own contract states only which entries are kept. That the filter keeps scan order is stated by Catalog.PublishedConcat.
- Catalog.Featured: its own contract states only which posts are kept. That it keeps input order is stated by Catalog.FeaturedConcat.
- Catalog.Regular: its own contract states only which posts are kept. That it keeps input order is stated by Catalog.RegularConcat.
- Catalog.BoardNames: its own contract states only which names are listed. That they are read in scan order is stated by Catalog.BoardNamesConcat.
- Sitemap.PostOrder: its own contract states only which posts are listed. The order is stated by Sitemap.FeaturedFirst (featured before regular) and Sitemap.PostOrderScanOrder (scan order within each kind).
