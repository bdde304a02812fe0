/** Keyset pagination over a strict total order, apart from what is listed. */
module Keyset {
  import opened Vocabulary

  const MAX_LIMIT := 200

  /** `max(1, min(limit, 200))` */
  function Clamp(limit: int): (n: nat)
    ensures 1 <= n <= MAX_LIMIT
    ensures 1 <= limit <= 200 ==> n == limit
    ensures limit < 1 ==> n == 1
    ensures limit > 200 ==> n == 200
  {
    if limit < 1 then 1 else if limit > MAX_LIMIT then MAX_LIMIT else limit
  }

  ghost predicate StrictTotalOrder<K(!new)>(less: (K, K) -> bool) {
    && (forall x :: !less(x, x))
    && (forall x, y, z :: less(x, y) && less(y, z) ==> less(x, z))
    && (forall x, y :: x == y || less(x, y) || less(y, x))
  }

  predicate Ascending<K>(less: (K, K) -> bool, ks: seq<K>) {
    forall i, j :: 0 <= i < j < |ks| ==> less(ks[i], ks[j])
  }

  predicate After<K>(less: (K, K) -> bool, cursor: Option<K>, k: K) {
    cursor.Some? ==> less(cursor.value, k)
  }

  /** `rows` is the page behind `cursor`: the least keys of `items` there, at most `limit`;
      `more` says that keys remain behind it. */
  ghost predicate IsPage<K>(
    less: (K, K) -> bool, items: set<K>, limit: nat, cursor: Option<K>, rows: seq<K>, more: bool)
  {
    && Ascending(less, rows) && |rows| <= limit && (more ==> |rows| == limit)
    && (forall k :: k in rows ==> k in items && After(less, cursor, k))
    && (forall k, r :: k in items && k !in rows && After(less, cursor, k) && r in rows ==> less(r, k))
    && (more <==> exists k :: k in items && k !in rows && After(less, cursor, k))
  }

  method Least<K(!new, ==)>(less: (K, K) -> bool, items: set<K>) returns (least: K)
    requires StrictTotalOrder(less) && items != {}
    ensures least in items && forall k :: k in items && k != least ==> less(least, k)
  {
    least :| least in items;
    var rest := items - {least};
    while rest != {}
      invariant rest <= items && least in items - rest
      invariant forall k :: k in items - rest && k != least ==> less(least, k)
      decreases |rest|
    {
      var k :| k in rest;
      ghost var done, before := items - rest, least;
      if less(k, least) { least := k; }
      rest := rest - {k};
      forall x | x in items - rest && x != least ensures less(least, x) {
        assert x == k || x in done;
        if x != k && x != before { assert less(before, x); }
      }
    }
  }

  /** Fetches one row more than asked for to learn whether anything follows. */
  method Fetch<K(!new, ==)>(less: (K, K) -> bool, items: set<K>, limit: nat, cursor: Option<K>)
    returns (rows: seq<K>, more: bool)
    requires StrictTotalOrder(less)
    ensures IsPage(less, items, limit, cursor, rows, more)
  {
    rows := [];
    var rest := set k | k in items && After(less, cursor, k);
    while rest != {} && |rows| < limit + 1
      invariant |rows| <= limit + 1 && Ascending(less, rows)
      invariant forall k :: k in rest ==> k in items && After(less, cursor, k) && k !in rows
      invariant forall k :: k in rows ==> k in items && After(less, cursor, k)
      invariant forall k :: k in items && After(less, cursor, k) ==> k in rest || k in rows
      invariant forall r, k :: r in rows && k in rest ==> less(r, k)
      decreases |rest|
    {
      var k := Least(less, rest);
      rows, rest := rows + [k], rest - {k};
    }
    more := |rows| > limit;
    if more {
      var last, all := rows[limit], rows;
      rows := rows[..limit];
      assert all == rows + [last];
      assert last in items && After(less, cursor, last) && last !in rows;
    }
  }

  /** All keys, in order. */
  method Arrange<K(!new, ==)>(less: (K, K) -> bool, items: set<K>) returns (keys: seq<K>)
    requires StrictTotalOrder(less)
    ensures Ascending(less, keys) && forall k :: k in keys <==> k in items
  {
    keys := [];
    var rest := items;
    while rest != {}
      invariant rest <= items && Ascending(less, keys)
      invariant forall k :: k in items <==> k in rest || k in keys
      invariant forall r, k :: r in keys && k in rest ==> less(r, k)
      decreases |rest|
    {
      var k := Least(less, rest);
      keys, rest := keys + [k], rest - {k};
    }
  }

  // --- walking all pages ---

  function Flatten<K>(pages: seq<seq<K>>): seq<K> {
    if pages == [] then [] else pages[0] + Flatten(pages[1..])
  }

  /** A client follows `next_cursor`: `snapshots` is what the table holds at each fetch, every
      page but the last said that more follows, and `more` is what the last one said. */
  ghost predicate IsWalk<K>(
    less: (K, K) -> bool, limit: nat, cursor: Option<K>, snapshots: seq<set<K>>, pages: seq<seq<K>>, more: bool)
    requires limit >= 1
    decreases |pages|
  {
    && |snapshots| == |pages| && |pages| >= 1
    && IsPage(less, snapshots[0], limit, cursor, pages[0], |pages| > 1 || more)
    && (|pages| > 1 ==> IsWalk(less, limit, Some(pages[0][|pages[0]| - 1]), snapshots[1..], pages[1..], more))
  }

  lemma AscendingConcat<K(!new)>(less: (K, K) -> bool, xs: seq<K>, ys: seq<K>)
    requires StrictTotalOrder(less) && Ascending(less, xs) && Ascending(less, ys)
    requires forall x, y :: x in xs && y in ys ==> less(x, y)
    ensures Ascending(less, xs + ys)
  {
  }

  /** A walk lists keys in order, hence none twice, and nothing that was present at none of its
      fetches; once nothing follows it has listed every key that was present at each of them, and
      as long as something is said to follow, the last fetch held a key not listed. */
  lemma {:induction false} WalkIsExact<K(!new)>(
    less: (K, K) -> bool, limit: nat, cursor: Option<K>, snapshots: seq<set<K>>, pages: seq<seq<K>>, more: bool)
    requires StrictTotalOrder(less) && limit >= 1
    requires IsWalk(less, limit, cursor, snapshots, pages, more)
    ensures Ascending(less, Flatten(pages))
    ensures forall k :: k in Flatten(pages) ==> After(less, cursor, k) && exists i :: 0 <= i < |snapshots| && k in snapshots[i]
    ensures !more ==> forall k :: After(less, cursor, k) && (forall i :: 0 <= i < |snapshots| ==> k in snapshots[i]) ==> k in Flatten(pages)
    ensures more ==> exists k :: k in snapshots[|snapshots| - 1] && k !in Flatten(pages) && After(less, cursor, k)
    decreases |pages|
  {
    var first, rest := pages[0], Flatten(pages[1..]);
    if |pages| == 1 {
      assert rest == [] && Flatten(pages) == first;
      if more { var k :| k in snapshots[0] && k !in first && After(less, cursor, k); }
      forall k | !more && After(less, cursor, k) && (forall i :: 0 <= i < |snapshots| ==> k in snapshots[i])
        ensures k in Flatten(pages)
      {
        assert k in snapshots[0];
      }
    } else {
      var last := first[|first| - 1];
      WalkIsExact(less, limit, Some(last), snapshots[1..], pages[1..], more);
      assert forall x :: x in first ==> x == last || less(x, last);
      forall x, y | x in first && y in rest ensures less(x, y) {}
      AscendingConcat(less, first, rest);
      if more {
        var k :| k in snapshots[1..][|snapshots| - 2] && k !in rest && less(last, k);
        assert last in first && After(less, cursor, last);
        assert k in snapshots[|snapshots| - 1] && k !in Flatten(pages) && After(less, cursor, k);
      }
      forall k | k in Flatten(pages)
        ensures After(less, cursor, k) && exists i :: 0 <= i < |snapshots| && k in snapshots[i]
      {
        if k in first {
          assert k in snapshots[0];
        } else {
          assert last in first;
          var i :| 0 <= i < |snapshots[1..]| && k in snapshots[1..][i];
          assert k in snapshots[i + 1];
        }
      }
      forall k | !more && After(less, cursor, k) && (forall i :: 0 <= i < |snapshots| ==> k in snapshots[i])
        ensures k in Flatten(pages)
      {
        if k !in first {
          assert k in snapshots[0] && last in first && less(last, k);
          forall i | 0 <= i < |snapshots[1..]| ensures k in snapshots[1..][i] { assert k in snapshots[i + 1]; }
        }
      }
    }
  }

  lemma {:induction false} AscendingFits<K(!new)>(less: (K, K) -> bool, ks: seq<K>, items: set<K>)
    requires StrictTotalOrder(less) && Ascending(less, ks)
    requires forall k :: k in ks ==> k in items
    ensures |ks| <= |items|
  {
    if ks != [] {
      var front, last := ks[..|ks| - 1], ks[|ks| - 1];
      assert last in ks && ks == front + [last];
      forall k | k in front ensures k in items - {last} {
        assert k in ks && less(k, last);
      }
      AscendingFits(less, front, items - {last});
    }
  }

  /** A page after which more follows is full. */
  lemma {:induction false} FullPages<K(!new)>(
    less: (K, K) -> bool, limit: nat, cursor: Option<K>, snapshots: seq<set<K>>, pages: seq<seq<K>>, more: bool)
    requires limit >= 1 && IsWalk(less, limit, cursor, snapshots, pages, more)
    ensures (|pages| - 1) * limit <= |Flatten(pages)|
    ensures more ==> |Flatten(pages)| == |pages| * limit
    decreases |pages|
  {
    if |pages| > 1 {
      FullPages(less, limit, Some(pages[0][|pages[0]| - 1]), snapshots[1..], pages[1..], more);
      assert (|pages| - 1) * limit == (|pages[1..]| - 1) * limit + limit;
      assert |pages| * limit == |pages[1..]| * limit + limit;
    } else {
      assert Flatten(pages) == pages[0];
    }
  }

  /** Following the cursor ends: over `n` keys at most, nothing follows a page once the pages so
      far have room for more than `n`, whatever the table held at each fetch; and no page is
      fetched after that. */
  lemma WalkEnds<K(!new)>(
    less: (K, K) -> bool, limit: nat, snapshots: seq<set<K>>, pages: seq<seq<K>>, more: bool, all: set<K>)
    requires StrictTotalOrder(less) && limit >= 1 && IsWalk(less, limit, None, snapshots, pages, more)
    requires forall i :: 0 <= i < |snapshots| ==> snapshots[i] <= all
    ensures |pages| * limit > |all| ==> !more
    ensures (|pages| - 1) * limit <= |all|
  {
    WalkIsExact(less, limit, None, snapshots, pages, more);
    AscendingFits(less, Flatten(pages), all);
    FullPages(less, limit, None, snapshots, pages, more);
  }

  // --- the cursor's text form ---

  function LastBar(s: string): (i: int)
    ensures -1 <= i < |s|
  {
    if s == "" then -1 else if s[|s| - 1] == '|' then |s| - 1 else LastBar(s[..|s| - 1])
  }

  function PrintCursor(stamp: string, id: string): string {
    stamp + "|" + id
  }

  /** `rsplit("|", 1)`; `None` stands for the error on a text without a bar. */
  function ParseCursor(s: string): Option<(string, string)> {
    var i := LastBar(s);
    if i < 0 then None else Some((s[..i], s[i + 1..]))
  }

  lemma {:induction false} LastBarFound(stamp: string, id: string)
    requires '|' !in id
    ensures LastBar(stamp + "|" + id) == |stamp|
  {
    var s := stamp + "|" + id;
    if id != "" {
      assert s[..|s| - 1] == stamp + "|" + id[..|id| - 1];
      assert s[|s| - 1] == id[|id| - 1] && id[|id| - 1] in id;
      LastBarFound(stamp, id[..|id| - 1]);
    }
  }

  /** Parsing a printed cursor gives its parts back, whatever the timestamp's text. */
  lemma CursorRoundTrip(stamp: string, id: string)
    requires '|' !in id
    ensures ParseCursor(PrintCursor(stamp, id)) == Some((stamp, id))
  {
    LastBarFound(stamp, id);
    var s := PrintCursor(stamp, id);
    assert s == stamp + "|" + id && s[..|stamp|] == stamp && s[|stamp| + 1..] == id;
  }
}
