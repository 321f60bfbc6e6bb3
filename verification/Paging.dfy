/** Paging a search by relevance (catalog.py, end of `_search`): the window grows
    with the offset, yet the pages tile one fixed sequence. */
module Paging {
  import opened Wrappers
  import opened Catalog
  import opened Search
  import SearchExact
  import SearchLoops

  const WINDOW_MIN: nat := 1_024
  const MAX_WINDOW: nat := 8_192
  const MAX_PAGE_SIZE: nat := 50

  function Max(a: nat, b: nat): nat { if a > b then a else b }

  function PageSize(asked: int): nat {
    if asked < 1 then 1 else if asked > MAX_PAGE_SIZE then MAX_PAGE_SIZE else asked
  }

  function Needed(offset: nat, size: nat): nat {
    Min(MAX_WINDOW, Max(WINDOW_MIN, offset + 2 * size))
  }

  /** `s[lo:hi]` */
  function Slice(s: seq<nat>, lo: nat, hi: nat): seq<nat>
    requires lo <= hi
  {
    s[Min(lo, |s|)..Min(hi, |s|)]
  }

  /** The check on a decoded token. */
  predicate Accepted(offset: nat, size: nat) {
    offset + size <= MAX_WINDOW
  }

  /** The page at an offset and the offset its token carries on, for all that can be found. */
  function PageAt(found: seq<nat>, offset: nat, size: nat): seq<nat> {
    Slice(Clip(found, Needed(offset, size)), offset, offset + size)
  }

  function NextOffset(found: seq<nat>, offset: nat, size: nat): Option<nat> {
    if offset + size < |Clip(found, Needed(offset, size))| then Some(offset + size) else None
  }

  method SearchPage(f: Frame, t: Table, q: Query, offset: nat, size: nat) returns (items: seq<nat>, next: Option<nat>)
    requires Ready(f, t, q) && 0 < size
    ensures items == PageAt(Found(f, t, q), offset, size)
    ensures next == NextOffset(Found(f, t, q), offset, size)
  {
    hide Found, Ready;
    var needed := Needed(offset, size);
    var matches := SearchLoops.SearchWindow(f, t, q, needed);
    items := Slice(matches, offset, offset + size);
    next := if offset + size < |matches| then Some(offset + size) else None;
  }

  /** The offset of page `k` reached from the first page by following accepted tokens. */
  function Follow(found: seq<nat>, size: nat, k: nat): Option<nat> {
    if k == 0 then Some(0)
    else
      match Follow(found, size, k - 1)
      case None => None
      case Some(o) =>
        match NextOffset(found, o, size)
        case None => None
        case Some(next) => if Accepted(next, size) then Some(next) else None
  }

  /** The items of pages `0..k` one after the other. */
  function PagesUpTo(found: seq<nat>, size: nat, k: nat): seq<nat>
    requires Follow(found, size, k).Some?
  {
    var last := PageAt(found, Follow(found, size, k).value, size);
    if k == 0 then last else PagesUpTo(found, size, k - 1) + last
  }

  /** Following tokens walks the offsets 0, size, 2*size, ... and the pages together
      are exactly the first items of one sequence: no gap, no repeat. */
  lemma {:induction false} PagesTile(found: seq<nat>, size: nat, k: nat)
    requires 0 < size <= MAX_PAGE_SIZE && Follow(found, size, k).Some?
    ensures Follow(found, size, k) == Some(k * size) && k * size + size <= MAX_WINDOW
    ensures PagesUpTo(found, size, k) == Clip(found, (k + 1) * size)
  {
    hide PageAt, Clip, Slice, Needed;
    assert (k + 1) * size == k * size + size;
    if k > 0 {
      assert k * size == (k - 1) * size + size;
      PagesTile(found, size, k - 1);
      NextIsAhead(found, (k - 1) * size, size);
    }
    WindowCovers(found, k * size, size);
    ClipExtends(found, k * size, size);
  }

  lemma NextIsAhead(found: seq<nat>, offset: nat, size: nat)
    ensures NextOffset(found, offset, size).Some? ==> NextOffset(found, offset, size).value == offset + size
  {
    hide Clip;
  }

  lemma ClipExtends(found: seq<nat>, k: nat, size: nat)
    ensures Clip(found, k) + Slice(found, k, k + size) == Clip(found, k + size)
    ensures k == 0 ==> Slice(found, k, k + size) == Clip(found, k + size)
  {
  }

  /** At an accepted offset the window always reaches the end of the page. */
  lemma WindowCovers(found: seq<nat>, offset: nat, size: nat)
    requires Accepted(offset, size)
    ensures PageAt(found, offset, size) == Slice(found, offset, offset + size)
  {
    var needed := Needed(offset, size);
    assert offset + size <= needed by { NeededReaches(offset, size); }
    hide Needed;
    ClipKeepsSlice(found, needed, offset, offset + size);
  }

  lemma NeededReaches(offset: nat, size: nat)
    requires Accepted(offset, size)
    ensures offset + size <= Needed(offset, size)
  {
    if MAX_WINDOW <= Max(WINDOW_MIN, offset + 2 * size) {
      assert Needed(offset, size) == MAX_WINDOW;
    } else {
      assert Needed(offset, size) >= offset + 2 * size;
    }
  }

  lemma ClipKeepsSlice(found: seq<nat>, k: nat, lo: nat, hi: nat)
    requires lo <= hi <= k
    ensures Slice(Clip(found, k), lo, hi) == Slice(found, lo, hi)
  {
    if k >= |found| {
      assert Clip(found, k) == found;
    } else {
      assert Clip(found, k) == found[..k];
      assert found[..k][lo..hi] == found[lo..hi];
    }
  }

  /** Items shown once page `k` has been read, if that many exist. */
  function Shown(size: nat, k: nat): nat { (k + 1) * size }

  /** The pages of any walk, one after the other, list the first of all matching
      indices in increasing order; they are exactly the first ones unless the scan budget
      ran out. */
  lemma PagesListMatches(f: Frame, t: Table, q: Query, size: nat, k: nat)
    requires Ready(f, t, q) && SearchExact.HonestFor(f, t, q)
    requires 0 < size <= MAX_PAGE_SIZE && Follow(Found(f, t, q), size, k).Some?
    ensures var all := SearchExact.Matches(f, t, q, t.totalSkus);
            var pages := PagesUpTo(Found(f, t, q), size, k);
            && pages <= all
            && (|Candidates(f, t, q, |q.pairs|)| <= SCAN_LIMIT ==> pages == Clip(all, Shown(size, k)))
  {
    PagesTile(Found(f, t, q), size, k);
    assert PagesUpTo(Found(f, t, q), size, k) == Clip(Found(f, t, q), Shown(size, k));
    hide *;
    SearchExact.WindowExact(f, t, q, Shown(size, k));
  }

  /** A walk can go on from page `k` exactly while items remain and the next page
      still fits the deepest window. */
  lemma WalkEnds(found: seq<nat>, size: nat, k: nat)
    requires 0 < size <= MAX_PAGE_SIZE && Follow(found, size, k).Some?
    ensures Follow(found, size, k + 1).Some? <==>
            (k + 1) * size < |found| && (k + 2) * size <= 8_192
  {
    PagesTile(found, size, k);
    assert (k + 1) * size == k * size + size && (k + 2) * size == k * size + 2 * size;
  }

  /** The page size used is the allowed one nearest to what was asked. */
  lemma PageSizeNearest(asked: int, k: int)
    requires 1 <= k <= 50
    ensures 1 <= PageSize(asked) <= 50
    ensures (if asked < PageSize(asked) then PageSize(asked) - asked else asked - PageSize(asked))
            <= (if asked < k then k - asked else asked - k)
  {
  }
}
