/**
 * The data the SEO generator works on: the content tree on disk, the parsed
 * `meta.json` of a post, and the flat entries the scanner produces.
 */
module Content {
  import opened Wrappers

  /**
   * The fields of a post's `meta.json` that the generator reads.
   * `published` and `featured` are the JavaScript truthiness of the fields;
   * `createdAt` and `updatedAt` are `new Date(field).getTime()` in
   * milliseconds since the epoch, `None` when that is NaN (missing or
   * unparseable date); `title` is the text the template interpolates.
   */
  datatype Meta = Meta(
    title: string,
    published: bool,
    featured: bool,
    createdAt: Option<int>,
    updatedAt: Option<int>,
    difficulty: string)

  /**
   * One scanner result. `path` is the relative path from the scanned root,
   * one directory name per element.
   */
  datatype Entry =
    | Board(name: string, path: seq<string>)
    | Post(path: seq<string>, meta: Meta)

  /** What `statSync` and the existence checks report about one directory entry. */
  datatype Kind =
    | StatFails
    | NotDirectory
    | Directory(listable: bool, hasMeta: bool, hasIndex: bool, meta: Option<Meta>)

  /**
   * A node of the content tree. `children` is the `readdirSync` listing in
   * its order (meaningful only for a listable directory). For a directory,
   * `hasMeta`/`hasIndex` say whether `meta.json`/`index.html` exist in it,
   * and `meta` is the result of reading and parsing `meta.json` (`None`
   * when that throws).
   */
  datatype Node = Node(name: string, kind: Kind, children: seq<Node>)

  /** `startsWith("_") || startsWith(".")`: such directories are never scanned. */
  predicate IsHidden(name: string)
  {
    |name| > 0 && (name[0] == '_' || name[0] == '.')
  }

  /** A name `readdirSync` can return: non-empty and free of the separator. */
  predicate ValidName(name: string)
  {
    name != [] && '/' !in name
  }

  /** The file system's own guarantees: valid names, unique within each listing. */
  ghost predicate WellFormed(n: Node)
    decreases n
  {
    && (forall c | c in n.children :: ValidName(c.name))
    && (forall i, j | 0 <= i < j < |n.children| :: n.children[i].name != n.children[j].name)
    && (forall c | c in n.children :: WellFormed(c))
  }

  /** `path.join` of the segments on a POSIX system: the first segment, then a slash when more follow. */
  function PathText(path: seq<string>): (r: string)
    ensures |path| == 1 ==> r == path[0]
    ensures |path| >= 1 ==> |r| >= |path[0]| && r[..|path[0]|] == path[0]
    ensures |path| >= 2 ==> |r| > |path[0]| && r[|path[0]|] == '/'
  {
    if path == [] then "" else if |path| == 1 then path[0]
    else PathText(path[..|path| - 1]) + "/" + path[|path| - 1]
  }

  /** `s.replace(/\\/g, "/")`. */
  function Normalize(s: string): (r: string)
    ensures |r| == |s|
    ensures forall i | 0 <= i < |s| :: r[i] == (if s[i] == '\\' then '/' else s[i])
  {
    if s == [] then [] else [if s[0] == '\\' then '/' else s[0]] + Normalize(s[1..])
  }

  /** `s.split("/")[0]`: the text before the first slash. */
  function FirstSegment(s: string): (r: string)
    ensures |r| <= |s| && r == s[..|r|] && '/' !in r
    ensures |r| < |s| ==> s[|r|] == '/'
  {
    if s == [] || s[0] == '/' then [] else [s[0]] + FirstSegment(s[1..])
  }

  /**
   * The key `generateSitemap` groups a post under: the first segment of its
   * normalised path, which is its top-level folder when that name holds no
   * separator.
   */
  function BoardKey(e: Entry): (key: string)
    ensures '/' !in key
    ensures e.path != [] && '/' !in e.path[0] && '\\' !in e.path[0] ==> key == e.path[0]
  {
    if e.path != [] && '/' !in e.path[0] && '\\' !in e.path[0] then
      HeadKey(e.path);
      FirstSegment(Normalize(PathText(e.path)))
    else
      FirstSegment(Normalize(PathText(e.path)))
  }

  lemma HeadKey(path: seq<string>)
    requires path != [] && '/' !in path[0] && '\\' !in path[0]
    ensures FirstSegment(Normalize(PathText(path))) == path[0]
  {
    var t := PathText(path);
    var n := Normalize(t);
    var k := |path[0]|;
    forall i | 0 <= i < k
      ensures n[i] == path[0][i]
    {
      assert t[i] == t[..k][i];
      assert path[0][i] in path[0];
    }
    assert n[..k] == path[0];
    FirstSegmentAt(n, k);
  }

  /** The first segment ends at the first slash, or at the end of the text. */
  lemma {:induction false} FirstSegmentAt(s: string, k: nat)
    requires k <= |s| && '/' !in s[..k] && (k < |s| ==> s[k] == '/')
    ensures FirstSegment(s) == s[..k]
    decreases k
  {
    if k > 0 {
      assert s[0] == s[..k][0];
      assert s[1..][..k - 1] == s[1..k];
      assert forall c | c in s[1..k] :: c in s[..k];
      FirstSegmentAt(s[1..], k - 1);
      assert s[..k] == [s[0]] + s[1..k];
    }
  }

  /** `path` lies strictly below `dir`. */
  predicate StrictlyBelow(path: seq<string>, dir: seq<string>)
  {
    |path| > |dir| && path[..|dir|] == dir
  }

  // ---------------------------------------------------------------------
  // Regrouping concatenated text

  lemma Assoc(x: string, y: string, z: string)
    ensures (x + y) + z == x + (y + z)
  {
  }

  lemma Regroup(o: string, b: string, f: string, r: string, c: string)
    ensures o + (b + (f + r)) + c == o + b + f + r + c
  {
  }
}
