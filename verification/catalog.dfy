/**
 * The views of the scanned entries that both document builders take:
 * published posts, featured and regular posts, board names without repeats
 * (`[...new Set(...)]`), the posts grouped under a board key, and the latest
 * update time of a group (`Math.max` over `getTime()`).
 */
module Catalog {
  import opened Wrappers
  import opened Content

  /** `items.filter(item => item.type === "post" && item.meta.published)`. */
  function Published(items: seq<Entry>): (r: seq<Entry>)
    ensures forall e | e in r :: e.Post? && e.meta.published
  {
    if items == [] then []
    else
      var last := items[|items| - 1];
      Published(items[..|items| - 1]) + (if last.Post? && last.meta.published then [last] else [])
  }

  /** The filter keeps scan order: filtering two parts in a row is filtering each part, in a row. */
  lemma {:induction false} PublishedConcat(a: seq<Entry>, b: seq<Entry>)
    ensures Published(a + b) == Published(a) + Published(b)
    decreases |b|
  {
    if b == [] {
      assert a + b == a;
    } else {
      var init, last := b[..|b| - 1], b[|b| - 1];
      assert (a + b)[..|a + b| - 1] == a + init;
      PublishedConcat(a, init);
    }
  }

  /** Each published post occurs in `Published` exactly as often as in the scan, every other entry never. */
  lemma {:induction false} PublishedCount(items: seq<Entry>, e: Entry)
    ensures multiset(Published(items))[e] == if e.Post? && e.meta.published then multiset(items)[e] else 0
  {
    if items != [] {
      var init, last := items[..|items| - 1], items[|items| - 1];
      assert items == init + [last];
      PublishedCount(init, e);
    }
  }

  /** `posts.filter(post => post.meta.featured)`. */
  function Featured(posts: seq<Entry>): (r: seq<Entry>)
    ensures forall e | e in r :: e in posts && e.Post? && e.meta.featured
  {
    if posts == [] then []
    else
      var last := posts[|posts| - 1];
      Featured(posts[..|posts| - 1]) + (if last.Post? && last.meta.featured then [last] else [])
  }

  /** `posts.filter(post => !post.meta.featured)`. */
  function Regular(posts: seq<Entry>): (r: seq<Entry>)
    ensures forall e | e in r :: e in posts && !(e.Post? && e.meta.featured)
  {
    if posts == [] then []
    else
      var last := posts[|posts| - 1];
      Regular(posts[..|posts| - 1]) + (if last.Post? && last.meta.featured then [] else [last])
  }

  /** Both filters keep the order of their input. */
  lemma {:induction false} FeaturedConcat(a: seq<Entry>, b: seq<Entry>)
    ensures Featured(a + b) == Featured(a) + Featured(b)
    decreases |b|
  {
    if b == [] {
      assert a + b == a;
    } else {
      var init, last := b[..|b| - 1], b[|b| - 1];
      assert (a + b)[..|a + b| - 1] == a + init;
      FeaturedConcat(a, init);
    }
  }

  lemma {:induction false} RegularConcat(a: seq<Entry>, b: seq<Entry>)
    ensures Regular(a + b) == Regular(a) + Regular(b)
    decreases |b|
  {
    if b == [] {
      assert a + b == a;
    } else {
      var init, last := b[..|b| - 1], b[|b| - 1];
      assert (a + b)[..|a + b| - 1] == a + init;
      RegularConcat(a, init);
    }
  }

  /** Featured posts followed by regular ones hold every post exactly as often as before: a reordering. */
  lemma {:induction false} FeaturedThenRegular(posts: seq<Entry>)
    ensures multiset(Featured(posts) + Regular(posts)) == multiset(posts)
  {
    if posts != [] {
      var init, last := posts[..|posts| - 1], posts[|posts| - 1];
      assert posts == init + [last];
      FeaturedThenRegular(init);
    }
  }

  /** The names of the board entries, in scan order, repeats included. */
  function BoardNames(items: seq<Entry>): (r: seq<string>)
    ensures forall n | n in r :: exists e | e in items :: e.Board? && e.name == n
  {
    if items == [] then []
    else
      var last := items[|items| - 1];
      var names := BoardNames(items[..|items| - 1]);
      if last.Board? then names + [last.name] else names
  }

  /** The names are read in scan order. */
  lemma {:induction false} BoardNamesConcat(a: seq<Entry>, b: seq<Entry>)
    ensures BoardNames(a + b) == BoardNames(a) + BoardNames(b)
    decreases |b|
  {
    if b == [] {
      assert a + b == a;
    } else {
      var init, last := b[..|b| - 1], b[|b| - 1];
      assert (a + b)[..|a + b| - 1] == a + init;
      BoardNamesConcat(a, init);
    }
  }

  /** Every board entry contributes its name. */
  lemma {:induction false} BoardNamesComplete(items: seq<Entry>)
    ensures forall e | e in items && e.Board? :: e.name in BoardNames(items)
  {
    if items != [] {
      var init := items[..|items| - 1];
      assert items == init + [items[|items| - 1]];
      BoardNamesComplete(init);
    }
  }

  /** `items.filter(item => item.type === "board")`. */
  function BoardEntries(items: seq<Entry>): (r: seq<Entry>)
    ensures forall e | e in r :: e in items && e.Board?
  {
    if items == [] then []
    else
      var last := items[|items| - 1];
      BoardEntries(items[..|items| - 1]) + (if last.Board? then [last] else [])
  }

  /** Dropping the posts does not change the board names. */
  lemma {:induction false} BoardNamesOfBoards(items: seq<Entry>)
    ensures BoardNames(BoardEntries(items)) == BoardNames(items)
  {
    if items != [] {
      var init, last := items[..|items| - 1], items[|items| - 1];
      BoardNamesOfBoards(init);
      var b := BoardEntries(init);
      if last.Board? {
        assert BoardEntries(items) == b + [last];
        assert (b + [last])[..|b|] == b;
      } else {
        assert BoardEntries(items) == b;
      }
    }
  }

  ghost predicate NoRepeats(s: seq<string>)
  {
    forall i, j | 0 <= i < j < |s| :: s[i] != s[j]
  }

  /** `[...new Set(names)]`: the names without repeats, each at its first occurrence. */
  function Dedup(names: seq<string>): (r: seq<string>)
    ensures forall n :: n in r <==> n in names
    ensures NoRepeats(r)
  {
    if names == [] then []
    else
      var last := names[|names| - 1];
      var d := Dedup(names[..|names| - 1]);
      assert forall n :: n in names <==> n in names[..|names| - 1] || n == last;
      if last in d then d else d + [last]
  }

  /** The position where `n` first occurs in `names`. */
  function FirstIndex(names: seq<string>, n: string): (i: nat)
    requires n in names
    ensures i < |names| && names[i] == n && n !in names[..i]
  {
    var init := names[..|names| - 1];
    if n in init then FirstIndex(init, n) else |names| - 1
  }

  /** `Dedup` keeps first-occurrence order: a name listed earlier occurred earlier. */
  lemma {:induction false} DedupOrder(names: seq<string>)
    ensures forall i, j | 0 <= i < j < |Dedup(names)| ::
      FirstIndex(names, Dedup(names)[i]) < FirstIndex(names, Dedup(names)[j])
  {
    if names != [] {
      var init, last := names[..|names| - 1], names[|names| - 1];
      DedupOrder(init);
      var d := Dedup(init);
      forall n | n in init
        ensures FirstIndex(names, n) == FirstIndex(init, n)
      {
      }
      if last !in d {
        forall i | 0 <= i < |d|
          ensures d[i] in names && FirstIndex(names, d[i]) < |names| - 1
        {
          assert d[i] in init;
        }
      }
    }
  }

  /** The distinct board names in first-occurrence order: `uniqueBoards` and the robots' `boards`. */
  function UniqueBoards(items: seq<Entry>): (r: seq<string>)
    ensures forall n :: n in r <==> exists e | e in items :: e.Board? && e.name == n
    ensures NoRepeats(r)
  {
    BoardNamesComplete(items);
    Dedup(BoardNames(items))
  }

  /** `boardGroups[key]`: the posts whose board key is `key`, in order. */
  function Group(posts: seq<Entry>, key: string): (r: seq<Entry>)
    ensures forall e | e in r :: e in posts && BoardKey(e) == key
  {
    if posts == [] then []
    else
      var last := posts[|posts| - 1];
      Group(posts[..|posts| - 1], key) + (if BoardKey(last) == key then [last] else [])
  }

  /** Every post with key `key` is in its group. */
  lemma {:induction false} GroupComplete(posts: seq<Entry>, key: string)
    ensures forall e | e in posts && BoardKey(e) == key :: e in Group(posts, key)
  {
    if posts != [] {
      var init := posts[..|posts| - 1];
      assert posts == init + [posts[|posts| - 1]];
      GroupComplete(init, key);
    }
  }

  /** `new Date(post.meta.updatedAt).getTime()`, with `None` for NaN. */
  function Updated(e: Entry): Option<int>
  {
    if e.Post? then e.meta.updatedAt else None
  }

  predicate Dated(e: Entry)
  {
    Updated(e).Some?
  }

  predicate AllDated(posts: seq<Entry>)
  {
    forall e | e in posts :: Dated(e)
  }

  /**
   * `Math.max(...posts.map(updatedAt))` for a non-empty group: NaN (`None`)
   * as soon as one date is invalid, otherwise the latest update time.
   */
  function Latest(posts: seq<Entry>): (r: Option<int>)
    requires |posts| > 0
    ensures r.Some? <==> AllDated(posts)
    ensures r.Some? ==> forall e | e in posts :: Updated(e).value <= r.value
    ensures r.Some? ==> exists e | e in posts :: Updated(e) == r
  {
    var init, last := posts[..|posts| - 1], posts[|posts| - 1];
    assert posts == init + [last];
    assert forall e :: e in posts <==> e in init || e == last;
    if |posts| == 1 then assert posts == [last]; assert AllDated(posts) <==> Dated(last); Updated(last)
    else
      match (Latest(init), Updated(last))
      case (Some(a), Some(b)) => Some(if a < b then b else a)
      case _ => None
  }

  /**
   * The time a board's sitemap entry reports: the latest update among the
   * posts grouped under its name, or `now` when there are none; `None`
   * (NaN) when one of those dates is invalid.
   */
  function BoardLastmod(name: string, posts: seq<Entry>, now: int): (r: Option<int>)
    ensures AllDated(posts) ==> r.Some?
  {
    var g := Group(posts, name);
    if g == [] then Some(now) else Latest(g)
  }

  /**
   * A board name that is no post's key (a nested board, or a top-level
   * board without published posts) falls back to `now`; otherwise the
   * board reports the latest update of its posts.
   */
  lemma BoardLastmodSpec(name: string, posts: seq<Entry>, now: int)
    ensures (forall e | e in posts :: BoardKey(e) != name) ==> BoardLastmod(name, posts, now) == Some(now)
    ensures (exists e | e in posts :: BoardKey(e) == name) && AllDated(posts) ==>
      && BoardLastmod(name, posts, now).Some?
      && (forall e | e in posts && BoardKey(e) == name :: Updated(e).value <= BoardLastmod(name, posts, now).value)
      && (exists e | e in posts && BoardKey(e) == name :: Updated(e) == BoardLastmod(name, posts, now))
  {
    GroupComplete(posts, name);
  }
}
