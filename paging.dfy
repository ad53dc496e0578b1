/**
 * The traversal the periodic tasks use: the project ids in ascending order
 * (`order_by('id')`), cut into pages by Django's `Paginator` with no orphans
 * and an empty first page allowed.
 */
module Paging {

  /** The page size both tasks pass to `Paginator`. */
  const PAGE_SIZE: nat := 200

  /** An earlier position of `s` holds a smaller id than a later one. */
  predicate InOrder(s: seq<nat>, i: int, j: int) {
    0 <= i < j < |s| ==> s[i] < s[j]
  }

  ghost predicate StrictlyAscending(s: seq<nat>) {
    forall i, j :: InOrder(s, i, j)
  }

  /** In an ascending sequence two positions hold the same id only when they coincide. */
  lemma AscendingDistinct(s: seq<nat>, i: nat, j: nat)
    requires StrictlyAscending(s) && i < |s| && j < |s| && i != j
    ensures s[i] != s[j]
  {
    assert InOrder(s, i, j) && InOrder(s, j, i);
  }

  /** Putting an id smaller than all of an ascending sequence in front keeps it ascending. */
  lemma ConsAscending(m: nat, rest: seq<nat>)
    requires StrictlyAscending(rest) && forall k :: k in rest ==> m < k
    ensures StrictlyAscending([m] + rest)
  {
    var s := [m] + rest;
    forall i, j
      ensures InOrder(s, i, j)
    {
      if 0 <= i < j < |s| {
        assert s[j] == rest[j - 1] && rest[j - 1] in rest;
        if i > 0 {
          assert InOrder(rest, i - 1, j - 1);
        }
      }
    }
  }

  /** The smallest element of a non-empty set of ids. */
  function MinId(keys: set<nat>): (m: nat)
    requires keys != {}
    ensures m in keys && forall k :: k in keys ==> m <= k
  {
    assert MinOf(keys) in keys;
    var m :| m in keys && forall k :: k in keys ==> m <= k; m
  }

  /** A smallest element, found by removing elements one at a time. */
  ghost function MinOf(keys: set<nat>): (m: nat)
    requires keys != {}
    ensures m in keys && forall k :: k in keys ==> m <= k
    decreases |keys|
  {
    var x :| x in keys;
    var rest := keys - {x};
    assert forall k :: k in keys ==> k == x || k in rest;
    if rest == {} then x
    else
      var m := MinOf(rest);
      if x < m then x else m
  }

  /** The ids of `keys` in ascending order: what `order_by('id')` yields. */
  function OrderedIds(keys: set<nat>): (s: seq<nat>)
    ensures StrictlyAscending(s)
    ensures |s| == |keys|
    ensures forall i :: 0 <= i < |s| ==> s[i] in keys
    decreases |keys|
  {
    if keys == {} then []
    else
      var m := MinId(keys);
      var rest := OrderedIds(keys - {m});
      assert forall k :: k in rest ==> m < k;
      ConsAscending(m, rest);
      [m] + rest
  }

  /** No id is left out of the ordering. */
  lemma {:induction false} OrderedIdsComplete(keys: set<nat>)
    ensures forall k :: k in keys ==> k in OrderedIds(keys)
    decreases |keys|
  {
    if keys != {} {
      var m := MinId(keys);
      OrderedIdsComplete(keys - {m});
      assert OrderedIds(keys) == [m] + OrderedIds(keys - {m});
    }
  }

  /** `Paginator.num_pages` for `count` items: at least one page, enough
      pages for every item, and no page left empty when there are items. */
  function NumPages(count: nat): (n: nat)
    ensures n >= 1
    ensures count <= n * PAGE_SIZE
    ensures count == 0 || (n - 1) * PAGE_SIZE < count
  {
    if count == 0 then 1 else (count + PAGE_SIZE - 1) / PAGE_SIZE
  }

  /** Where page `n` starts in the ordered items. */
  function PageStart(n: nat): nat
    requires n >= 1
  {
    (n - 1) * PAGE_SIZE
  }

  /** `paginator.page(n).object_list` for `1 <= n <= NumPages`. */
  function Page<T>(items: seq<T>, n: nat): (p: seq<T>)
    requires 1 <= n <= NumPages(|items|)
    ensures |p| <= PAGE_SIZE
    ensures |items| > 0 ==> |p| > 0
    ensures PageStart(n) + |p| <= |items| && p == items[PageStart(n)..PageStart(n) + |p|]
    ensures n < NumPages(|items|) ==> |p| == PAGE_SIZE
    ensures n == NumPages(|items|) ==> PageStart(n) + |p| == |items|
  {
    var bottom := PageStart(n);
    var top := if bottom + PAGE_SIZE >= |items| then |items| else bottom + PAGE_SIZE;
    items[bottom..top]
  }

  /** Page `n` ends where page `n + 1` starts, and the last page ends with the items. */
  lemma PageAdvance<T>(items: seq<T>, n: nat)
    requires 1 <= n <= NumPages(|items|)
    ensures n < NumPages(|items|) ==> PageStart(n) + |Page(items, n)| == PageStart(n + 1)
    ensures n == NumPages(|items|) ==> PageStart(n) + |Page(items, n)| == |items|
  {
  }

  /** The object lists of pages `1 .. n`, in page order. */
  function PagesUpTo<T>(items: seq<T>, n: nat): seq<T>
    requires n <= NumPages(|items|)
    decreases n
  {
    if n == 0 then [] else PagesUpTo(items, n - 1) + Page(items, n)
  }

  /** The first `n` pages hold exactly the first `n * PAGE_SIZE` items, in order. */
  lemma {:induction false} PagesUpToIsPrefix<T>(items: seq<T>, n: nat)
    requires 1 <= n <= NumPages(|items|)
    ensures PagesUpTo(items, n) == items[..PageStart(n) + |Page(items, n)|]
    decreases n
  {
    var p := Page(items, n);
    if n == 1 {
      assert PagesUpTo(items, 0) == [];
    } else {
      PagesUpToIsPrefix(items, n - 1);
      var q := Page(items, n - 1);
      assert PageStart(n - 1) + |q| == PageStart(n);
      assert items[..PageStart(n)] + p == items[..PageStart(n) + |p|];
    }
  }

  /** Visiting every page in page order visits every item exactly once, in order. */
  lemma PagesCoverItems<T>(items: seq<T>)
    ensures PagesUpTo(items, NumPages(|items|)) == items
  {
    var n := NumPages(|items|);
    PagesUpToIsPrefix(items, n);
    assert PageStart(n) + |Page(items, n)| == |items|;
  }
}
