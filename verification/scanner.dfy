/**
 * The content scanner (`scanDirectory`): a depth-first walk of the content
 * tree that classifies every visible directory as a board or a post and
 * returns the flat, ordered list of entries.
 */
module Scanner {
  import opened Wrappers
  import opened Content

  /** The scan of the directory at `rel`: nothing when it cannot be listed. */
  function ScanDir(dir: Node, rel: seq<string>): (r: seq<Entry>)
    ensures !(dir.kind.Directory? && dir.kind.listable) ==> r == []
    ensures forall e | e in r :: StrictlyBelow(e.path, rel)
    decreases dir, 1
  {
    if dir.kind.Directory? && dir.kind.listable then ScanFrom(dir, 0, rel) else []
  }

  /**
   * The entries of `dir`'s listing from position `i` on. A child whose
   * `statSync` throws ends the walk of this listing (the error leaves the
   * loop); non-directories and hidden directories are passed over.
   */
  function ScanFrom(dir: Node, i: nat, rel: seq<string>): (r: seq<Entry>)
    ensures forall e | e in r :: StrictlyBelow(e.path, rel)
    decreases dir, 0, |dir.children| - i
  {
    if i >= |dir.children| then []
    else
      var child := dir.children[i];
      match child.kind
      case StatFails => []
      case NotDirectory => ScanFrom(dir, i + 1, rel)
      case Directory(_, _, _, _) =>
        if IsHidden(child.name) then ScanFrom(dir, i + 1, rel)
        else ScanChild(child, rel) + ScanFrom(dir, i + 1, rel)
  }

  /**
   * The entries one visible directory contributes: a post (or nothing, when
   * its metadata fails to parse) if it holds both `meta.json` and
   * `index.html`; otherwise a board followed by the scan of its contents.
   */
  function ScanChild(child: Node, rel: seq<string>): (r: seq<Entry>)
    requires child.kind.Directory?
    ensures child.kind.hasMeta && child.kind.hasIndex ==> |r| <= 1 && forall e | e in r :: e.Post?
    ensures !(child.kind.hasMeta && child.kind.hasIndex) ==> |r| >= 1 && r[0] == Board(child.name, rel + [child.name])
    ensures forall e | e in r :: StrictlyBelow(e.path, rel)
    decreases child, 2
  {
    var path := rel + [child.name];
    if child.kind.hasMeta && child.kind.hasIndex then
      match child.kind.meta
      case Some(m) => [Post(path, m)]
      case None => []
    else
      var sub := ScanDir(child, path);
      BelowParent(sub, rel, child.name);
      [Board(child.name, path)] + sub
  }

  /** What lies below `rel + [name]` lies below `rel`. */
  lemma BelowParent(s: seq<Entry>, rel: seq<string>, name: string)
    requires forall e | e in s :: StrictlyBelow(e.path, rel + [name])
    ensures forall e | e in s :: StrictlyBelow(e.path, rel)
  {
    forall e | e in s
      ensures StrictlyBelow(e.path, rel)
    {
      assert e.path[..|rel|] == e.path[..|rel| + 1][..|rel|];
    }
  }

  /** `scanDirectory(boardsDir)`: a missing root yields no entries. */
  function ScanRoot(root: Option<Node>): (r: seq<Entry>)
    ensures root.None? ==> r == []
  {
    match root
    case None => []
    case Some(dir) => ScanDir(dir, [])
  }

  /** The walk as the source performs it: a loop over the listing that pushes entries and recurses into boards. */
  method ScanDirectory(dir: Node, rel: seq<string>) returns (items: seq<Entry>)
    ensures items == ScanDir(dir, rel)
    decreases dir
  {
    items := [];
    if !(dir.kind.Directory? && dir.kind.listable) {
      return;
    }
    var i := 0;
    while i < |dir.children|
      invariant 0 <= i <= |dir.children|
      invariant items + ScanFrom(dir, i, rel) == ScanFrom(dir, 0, rel)
    {
      var child := dir.children[i];
      if child.kind.StatFails? {
        assert ScanFrom(dir, i, rel) == [];
        assert items == items + ScanFrom(dir, i, rel);
        return;
      }
      if child.kind.Directory? && !IsHidden(child.name) {
        var path := rel + [child.name];
        if child.kind.hasMeta && child.kind.hasIndex {
          if child.kind.meta.Some? {
            items := items + [Post(path, child.kind.meta.value)];
          }
        } else {
          items := items + [Board(child.name, path)];
          var sub := ScanDirectory(child, path);
          items := items + sub;
        }
      }
      i := i + 1;
    }
  }

  // ---------------------------------------------------------------------
  // Shape of the result

  /** Entry `e` lies below `rel` and no segment it adds is hidden. */
  ghost predicate Below(e: Entry, rel: seq<string>)
  {
    && StrictlyBelow(e.path, rel)
    && (forall k | |rel| <= k < |e.path| :: !IsHidden(e.path[k]))
    && (e.Board? ==> e.name == e.path[|e.path| - 1])
  }

  /** The names of `dir`'s children from position `i` on. */
  ghost function NamesFrom(dir: Node, i: nat): set<string>
  {
    set j | i <= j < |dir.children| :: dir.children[j].name
  }

  /**
   * Every entry of a scan lies below the scanned directory, adds only
   * visible segments, starts with the name of one of the listed children,
   * and a board is named after its own directory.
   */
  lemma {:induction false} ScanFromBelow(dir: Node, i: nat, rel: seq<string>)
    ensures forall e | e in ScanFrom(dir, i, rel) :: Below(e, rel) && e.path[|rel|] in NamesFrom(dir, i)
    decreases dir, 0, |dir.children| - i
  {
    if i < |dir.children| {
      var child := dir.children[i];
      if !child.kind.StatFails? {
        ScanFromBelow(dir, i + 1, rel);
        assert NamesFrom(dir, i + 1) <= NamesFrom(dir, i);
        if child.kind.Directory? && !IsHidden(child.name) {
          ScanChildBelow(child, rel);
          assert child.name in NamesFrom(dir, i);
        }
      }
    }
  }

  lemma {:induction false} ScanChildBelow(child: Node, rel: seq<string>)
    requires child.kind.Directory? && !IsHidden(child.name)
    ensures forall e | e in ScanChild(child, rel) :: Below(e, rel) && e.path[|rel|] == child.name
    decreases child, 2
  {
    var path := rel + [child.name];
    if !(child.kind.hasMeta && child.kind.hasIndex) {
      ScanDirBelow(child, path);
      forall e | e in ScanDir(child, path)
        ensures Below(e, rel) && e.path[|rel|] == child.name
      {
        assert e.path[..|path|] == path;
        assert e.path[..|rel|] == path[..|rel|];
        assert e.path[|rel|] == path[|rel|];
      }
    }
  }

  lemma {:induction false} ScanDirBelow(dir: Node, rel: seq<string>)
    ensures forall e | e in ScanDir(dir, rel) :: Below(e, rel)
    decreases dir, 1
  {
    if dir.kind.Directory? && dir.kind.listable {
      ScanFromBelow(dir, 0, rel);
    }
  }

  /** No emitted path has a segment starting with `_` or `.`. */
  lemma NoHiddenSegments(root: Option<Node>)
    ensures forall e, k | e in ScanRoot(root) && 0 <= k < |e.path| :: !IsHidden(e.path[k])
  {
    if root.Some? {
      ScanDirBelow(root.value, []);
    }
  }

  // ---------------------------------------------------------------------
  // Distinct paths

  ghost predicate DistinctPaths(s: seq<Entry>)
  {
    forall a, b | 0 <= a < b < |s| :: s[a].path != s[b].path
  }

  lemma DistinctConcat(s: seq<Entry>, t: seq<Entry>)
    requires DistinctPaths(s) && DistinctPaths(t)
    requires forall x, y | x in s && y in t :: x.path != y.path
    ensures DistinctPaths(s + t)
  {
    forall a, b | 0 <= a < b < |s + t|
      ensures (s + t)[a].path != (s + t)[b].path
    {
      if b < |s| {
      } else if a >= |s| {
        assert (s + t)[a] == t[a - |s|] && (s + t)[b] == t[b - |s|];
      } else {
        assert (s + t)[a] in s && (s + t)[b] in t;
      }
    }
  }

  /** In a well-formed tree no two entries of a scan share a path. */
  lemma {:induction false} ScanFromDistinct(dir: Node, i: nat, rel: seq<string>)
    requires WellFormed(dir)
    ensures DistinctPaths(ScanFrom(dir, i, rel))
    decreases dir, 0, |dir.children| - i
  {
    if i < |dir.children| {
      var child := dir.children[i];
      if !child.kind.StatFails? {
        ScanFromDistinct(dir, i + 1, rel);
        if child.kind.Directory? && !IsHidden(child.name) {
          assert child in dir.children;
          ScanChildDistinct(child, rel);
          ScanChildBelow(child, rel);
          ScanFromBelow(dir, i + 1, rel);
          assert child.name !in NamesFrom(dir, i + 1);
          DistinctConcat(ScanChild(child, rel), ScanFrom(dir, i + 1, rel));
        }
      }
    }
  }

  lemma {:induction false} ScanChildDistinct(child: Node, rel: seq<string>)
    requires WellFormed(child) && child.kind.Directory?
    ensures DistinctPaths(ScanChild(child, rel))
    decreases child, 2
  {
    var path := rel + [child.name];
    if !(child.kind.hasMeta && child.kind.hasIndex) {
      ScanDirDistinct(child, path);
      ScanDirBelow(child, path);
      DistinctConcat([Board(child.name, path)], ScanDir(child, path));
    }
  }

  lemma {:induction false} ScanDirDistinct(dir: Node, rel: seq<string>)
    requires WellFormed(dir)
    ensures DistinctPaths(ScanDir(dir, rel))
    decreases dir, 1
  {
    if dir.kind.Directory? && dir.kind.listable {
      ScanFromDistinct(dir, 0, rel);
    }
  }

  // ---------------------------------------------------------------------
  // Boards and posts

  /**
   * Every directory above an emitted entry (below the scanned one) is itself
   * emitted as a board: the walk only descends through boards.
   */
  lemma {:induction false} ScanFromAncestors(dir: Node, i: nat, rel: seq<string>)
    ensures forall e, k | e in ScanFrom(dir, i, rel) && |rel| <= k < |e.path| - 1 ::
      Board(e.path[k], e.path[..k + 1]) in ScanFrom(dir, i, rel)
    decreases dir, 0, |dir.children| - i
  {
    if i < |dir.children| {
      var child := dir.children[i];
      if !child.kind.StatFails? {
        ScanFromAncestors(dir, i + 1, rel);
        if child.kind.Directory? && !IsHidden(child.name) {
          ScanChildAncestors(child, rel);
        }
      }
    }
  }

  lemma {:induction false} ScanChildAncestors(child: Node, rel: seq<string>)
    requires child.kind.Directory?
    ensures forall e, k | e in ScanChild(child, rel) && |rel| <= k < |e.path| - 1 ::
      Board(e.path[k], e.path[..k + 1]) in ScanChild(child, rel)
    decreases child, 2
  {
    var path := rel + [child.name];
    if !(child.kind.hasMeta && child.kind.hasIndex) {
      var s := ScanChild(child, rel);
      ScanDirAncestors(child, path);
      ScanDirBelow(child, path);
      forall e, k | e in s && |rel| <= k < |e.path| - 1
        ensures Board(e.path[k], e.path[..k + 1]) in s
      {
        if e != Board(child.name, path) {
          assert e in ScanDir(child, path);
          if k == |rel| {
            assert e.path[..k + 1] == path;
            assert e.path[k] == path[k];
          }
        }
      }
    }
  }

  lemma {:induction false} ScanDirAncestors(dir: Node, rel: seq<string>)
    ensures forall e, k | e in ScanDir(dir, rel) && |rel| <= k < |e.path| - 1 ::
      Board(e.path[k], e.path[..k + 1]) in ScanDir(dir, rel)
    decreases dir, 1
  {
    if dir.kind.Directory? && dir.kind.listable {
      ScanFromAncestors(dir, 0, rel);
    }
  }

  /** Every segment above an emitted entry names an emitted board. */
  lemma AncestorsAreBoards(root: Option<Node>)
    ensures forall e, k | e in ScanRoot(root) && 0 <= k < |e.path| - 1 ::
      Board(e.path[k], e.path[..k + 1]) in ScanRoot(root)
  {
    if root.Some? {
      ScanDirAncestors(root.value, []);
    }
  }

  /** A post is a leaf of the scan: in a well-formed tree no entry lies below a post. */
  lemma NothingBelowPosts(root: Option<Node>)
    requires root.Some? ==> WellFormed(root.value)
    ensures forall a, b | 0 <= a < |ScanRoot(root)| && 0 <= b < |ScanRoot(root)| && ScanRoot(root)[a].Post? ::
      !StrictlyBelow(ScanRoot(root)[b].path, ScanRoot(root)[a].path)
  {
    var s := ScanRoot(root);
    if root.Some? {
      ScanDirDistinct(root.value, []);
      ScanDirBelow(root.value, []);
    }
    AncestorsAreBoards(root);
    forall a, b | 0 <= a < |s| && 0 <= b < |s| && s[a].Post?
      ensures !StrictlyBelow(s[b].path, s[a].path)
    {
      var p := s[a].path;
      assert s[a] in s && s[b] in s;
      var q := s[b].path;
      if |q| > |p| {
        var k := |p| - 1;
        var board := Board(q[k], q[..k + 1]);
        assert board in s;
        var c :| 0 <= c < |s| && s[c] == board;
        assert c != a;
        assert q[..k + 1] != p;
      }
    }
  }

  /**
   * A visible directory holding both `meta.json` and `index.html` yields
   * exactly its post (or nothing, when the metadata fails to parse) and the
   * walk goes on with its next sibling: nothing beneath it is scanned.
   */
  lemma PostFolder(dir: Node, i: nat, rel: seq<string>)
    requires i < |dir.children|
    requires dir.children[i].kind.Directory? && !IsHidden(dir.children[i].name)
    requires dir.children[i].kind.hasMeta && dir.children[i].kind.hasIndex
    ensures ScanFrom(dir, i, rel) ==
      (match dir.children[i].kind.meta
       case Some(m) => [Post(rel + [dir.children[i].name], m)]
       case None => []) + ScanFrom(dir, i + 1, rel)
    ensures var path := rel + [dir.children[i].name];
      WellFormed(dir) ==> forall e | e in ScanFrom(dir, i + 1, rel) :: !StrictlyBelow(e.path, path) && e.path != path
  {
    if WellFormed(dir) {
      LaterSiblingsApart(dir, i, rel);
    }
  }

  /**
   * Any other visible directory yields its board, immediately followed by
   * the entries of its own subtree (all below it), then the walk goes on
   * with its next sibling, none of whose entries lies below it.
   */
  lemma BoardFolder(dir: Node, i: nat, rel: seq<string>)
    requires i < |dir.children|
    requires dir.children[i].kind.Directory? && !IsHidden(dir.children[i].name)
    requires !(dir.children[i].kind.hasMeta && dir.children[i].kind.hasIndex)
    ensures var path := rel + [dir.children[i].name];
      && ScanFrom(dir, i, rel) == [Board(dir.children[i].name, path)] + ScanDir(dir.children[i], path) + ScanFrom(dir, i + 1, rel)
      && (forall e | e in ScanDir(dir.children[i], path) :: StrictlyBelow(e.path, path))
      && (WellFormed(dir) ==> forall e | e in ScanFrom(dir, i + 1, rel) :: !StrictlyBelow(e.path, path) && e.path != path)
  {
    var child := dir.children[i];
    ScanDirBelow(child, rel + [child.name]);
    if WellFormed(dir) {
      LaterSiblingsApart(dir, i, rel);
    }
  }

  /** In a well-formed tree, no entry of the later siblings' scans lies at or below child `i`. */
  lemma LaterSiblingsApart(dir: Node, i: nat, rel: seq<string>)
    requires WellFormed(dir) && i < |dir.children|
    ensures var path := rel + [dir.children[i].name];
      forall e | e in ScanFrom(dir, i + 1, rel) :: !StrictlyBelow(e.path, path) && e.path != path
  {
    var path := rel + [dir.children[i].name];
    ScanFromBelow(dir, i + 1, rel);
    assert dir.children[i].name !in NamesFrom(dir, i + 1);
    assert path[|rel|] == dir.children[i].name;
  }
}
