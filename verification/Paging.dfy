/** Cursor paging over a fixed ordered list: which rows a client that follows nextCursor gets to see. */
module Paging {
  import opened Prelude

  datatype Page<T> = Page(items: seq<T>, nextCursor: Option<T>)

  predicate Distinct<T(==)>(rows: seq<T>) {
    forall i, j :: 0 <= i < j < |rows| ==> rows[i] != rows[j]
  }

  function IndexOf<T(==)>(rows: seq<T>, row: T, i: nat): (r: Option<nat>)
    requires i <= |rows|
    ensures r.Some? ==> i <= r.value < |rows| && rows[r.value] == row
    ensures r.None? ==> forall k :: i <= k < |rows| ==> rows[k] != row
    decreases |rows| - i
  {
    if i == |rows| then None else if rows[i] == row then Some(i) else IndexOf(rows, row, i + 1)
  }

  /** Where a query with this cursor starts: it skips the cursor's own row, and finds nothing for an unknown one. */
  function Start<T(==)>(rows: seq<T>, cursor: Option<T>): (s: nat)
    ensures s <= |rows|
  {
    if cursor.None? then 0
    else
      var i := IndexOf(rows, cursor.value, 0);
      if i.None? then |rows| else i.value + 1
  }

  function Window<T>(rows: seq<T>, start: nat, count: nat): seq<T>
    requires start <= |rows|
  {
    if start + count <= |rows| then rows[start..start + count] else rows[start..]
  }

  /** One page: one row more than a page is fetched, and that row becomes the cursor. */
  function GetPage<T(==)>(rows: seq<T>, cursor: Option<T>, take: nat): Page<T> {
    var window := Window(rows, Start(rows, cursor), take + 1);
    if |window| > take then Page(window[..take], Some(window[take])) else Page(window, None)
  }

  /** The same, with the last row returned as the cursor. */
  function GetPageByLast<T(==)>(rows: seq<T>, cursor: Option<T>, take: nat): Page<T>
    requires take > 0
  {
    var window := Window(rows, Start(rows, cursor), take + 1);
    if |window| > take then Page(window[..take], Some(window[take - 1])) else Page(window, None)
  }

  // ---- Walks ----------------------------------------------------------------------

  lemma NextStart<T>(rows: seq<T>, i: nat)
    requires Distinct(rows) && i < |rows|
    ensures Start(rows, Some(rows[i])) == i + 1
  {
  }

  /** Everything a client gets by following nextCursor to the end: it ends, as every cursor is further on. */
  function Walk<T(==)>(rows: seq<T>, cursor: Option<T>, take: nat): seq<T>
    requires Distinct(rows)
    decreases |rows| - Start(rows, cursor)
  {
    var page := GetPage(rows, cursor, take);
    if page.nextCursor.None? then page.items
    else
      NextStart(rows, Start(rows, cursor) + take);
      page.items + Walk(rows, page.nextCursor, take)
  }

  function WalkByLast<T(==)>(rows: seq<T>, cursor: Option<T>, take: nat): seq<T>
    requires Distinct(rows) && take > 0
    decreases |rows| - Start(rows, cursor)
  {
    var page := GetPageByLast(rows, cursor, take);
    if page.nextCursor.None? then page.items
    else
      NextStart(rows, Start(rows, cursor) + take - 1);
      page.items + WalkByLast(rows, page.nextCursor, take)
  }

  /** The indices a walk leaves out: take, 2 take + 1, 3 take + 2, ... */
  predicate Skipped(k: nat, take: nat) {
    k % (take + 1) == take
  }

  /** Rows from index i on that are not left out. */
  function Sifted<T>(rows: seq<T>, i: nat, skip: nat -> bool): seq<T>
    requires i <= |rows|
    decreases |rows| - i
  {
    if i == |rows| then []
    else (if skip(i) then [] else [rows[i]]) + Sifted(rows, i + 1, skip)
  }

  function EveryNext(take: nat): nat -> bool {
    (k: nat) => Skipped(k, take)
  }

  lemma Regroup<T>(a: seq<T>, b: seq<T>, c: seq<T>)
    ensures a + (b + c) == a + b + c
  {
  }

  lemma SliceFirst<T>(rows: seq<T>, i: nat, j: nat)
    requires i < j <= |rows|
    ensures [rows[i]] + rows[i + 1..j] == rows[i..j]
  {
  }

  /** Up to the next index left out, sifting keeps everything. */
  lemma {:induction false} SiftRun<T>(rows: seq<T>, i: nat, j: nat, skip: nat -> bool)
    requires i <= j <= |rows| && forall k :: i <= k < j ==> !skip(k)
    ensures Sifted(rows, i, skip) == rows[i..j] + Sifted(rows, j, skip)
    decreases j - i
  {
    var rest := Sifted(rows, j, skip);
    if i < j {
      assert !skip(i);
      calc {
        Sifted(rows, i, skip);
        [rows[i]] + Sifted(rows, i + 1, skip);
        { SiftRun(rows, i + 1, j, skip); }
        [rows[i]] + (rows[i + 1..j] + rest);
        { Regroup([rows[i]], rows[i + 1..j], rest); }
        [rows[i]] + rows[i + 1..j] + rest;
        { SliceFirst(rows, i, j); }
        rows[i..j] + rest;
      }
    } else {
      assert rows[i..j] + rest == rest;
    }
  }

  lemma AtLeast(d: int, n: int)
    requires d >= 1 && n >= 1
    ensures d * n >= n
  {
  }

  lemma QuotientIsUnique(q: int, r: int, p: int, s: int, n: int)
    requires 0 <= r < n && 0 <= s < n && q * n + r == p * n + s
    ensures r == s
  {
    assert (q - p) * n == q * n - p * n && (p - q) * n == p * n - q * n;
    if q > p { AtLeast(q - p, n); }
    if p > q { AtLeast(p - q, n); }
  }

  lemma RemainderIs(k: nat, p: nat, r: nat, n: nat)
    requires r < n && k == p * n + r
    ensures k % n == r
  {
    assert k == (k / n) * n + k % n;
    QuotientIsUnique(k / n, k % n, p, r, n);
  }

  /** Of the take + 1 rows fetched for page p, exactly the last is skipped. */
  lemma PageSkipsItsLast(p: nat, start: nat, take: nat)
    requires start == p * (take + 1)
    ensures forall k :: start <= k < start + take ==> !EveryNext(take)(k)
    ensures EveryNext(take)(start + take) && start + take + 1 == (p + 1) * (take + 1)
  {
    forall k | start <= k < start + take ensures !EveryNext(take)(k) {
      RemainderIs(k, p, k - start, take + 1);
    }
    RemainderIs(start + take, p, take, take + 1);
    assert (p + 1) * (take + 1) == p * (take + 1) + (take + 1);
  }

  lemma PageAt<T>(rows: seq<T>, cursor: Option<T>, take: nat)
    ensures var s := Start(rows, cursor);
            GetPage(rows, cursor, take)
            == if s + take < |rows| then Page(rows[s..s + take], Some(rows[s + take])) else Page(rows[s..], None)
  {
    var s := Start(rows, cursor);
    if s + take < |rows| {
      assert rows[s..s + (take + 1)][..take] == rows[s..s + take];
    }
  }

  lemma PageByLastAt<T>(rows: seq<T>, cursor: Option<T>, take: nat)
    requires take > 0
    ensures var s := Start(rows, cursor);
            GetPageByLast(rows, cursor, take)
            == if s + take < |rows| then Page(rows[s..s + take], Some(rows[s + take - 1])) else Page(rows[s..], None)
  {
    var s := Start(rows, cursor);
    if s + take < |rows| {
      assert rows[s..s + (take + 1)][..take] == rows[s..s + take];
    }
  }

  lemma {:induction false} WalkIsSifted<T>(rows: seq<T>, cursor: Option<T>, take: nat, p: nat)
    requires Distinct(rows) && Start(rows, cursor) == p * (take + 1)
    ensures Walk(rows, cursor, take) == Sifted(rows, p * (take + 1), EveryNext(take))
    decreases |rows| - Start(rows, cursor)
  {
    var s := p * (take + 1);
    PageAt(rows, cursor, take);
    PageSkipsItsLast(p, s, take);
    if s + take < |rows| {
      SiftRun(rows, s, s + take, EveryNext(take));
      NextStart(rows, s + take);
      WalkIsSifted(rows, Some(rows[s + take]), take, p + 1);
      assert Sifted(rows, s + take, EveryNext(take)) == Sifted(rows, s + take + 1, EveryNext(take));
    } else {
      SiftRun(rows, s, |rows|, EveryNext(take));
      assert rows[s..|rows|] == rows[s..];
    }
  }

  /** Following nextCursor from the start shows every row, once and in order, except every (take + 1)-th. */
  lemma PagesOmitEveryNext<T>(rows: seq<T>, take: nat)
    requires Distinct(rows)
    ensures Walk(rows, None, take) == Sifted(rows, 0, EveryNext(take))
  {
    WalkIsSifted(rows, None, take, 0);
  }

  lemma {:induction false} SiftedHolds<T>(rows: seq<T>, i: nat, skip: nat -> bool, k: nat)
    requires Distinct(rows) && i <= |rows| && k < |rows|
    ensures rows[k] in Sifted(rows, i, skip) <==> i <= k && !skip(k)
    decreases |rows| - i
  {
    if i < |rows| { SiftedHolds(rows, i + 1, skip, k); }
  }

  /** A row is seen exactly when its index is not congruent to take modulo take + 1. */
  lemma RowIsSeenUnlessSkipped<T>(rows: seq<T>, take: nat, k: nat)
    requires Distinct(rows) && k < |rows|
    ensures rows[k] in Walk(rows, None, take) <==> !Skipped(k, take)
  {
    PagesOmitEveryNext(rows, take);
    SiftedHolds(rows, 0, EveryNext(take), k);
  }

  /** The walk is complete exactly when there is only one page. */
  lemma WalkIsCompleteOnOnePage<T>(rows: seq<T>, take: nat)
    requires Distinct(rows)
    ensures Walk(rows, None, take) == rows <==> |rows| <= take
  {
    PageAt(rows, None, take);
    if |rows| > take {
      RemainderIs(take, 0, take, take + 1);
      RowIsSeenUnlessSkipped(rows, take, take);
      assert rows[take] in rows;
    }
  }

  lemma SplitAt<T>(rows: seq<T>, i: nat, j: nat)
    requires i <= j <= |rows|
    ensures rows[i..] == rows[i..j] + rows[j..]
  {
  }

  lemma {:induction false} WalkByLastFrom<T>(rows: seq<T>, cursor: Option<T>, take: nat)
    requires Distinct(rows) && take > 0
    ensures WalkByLast(rows, cursor, take) == rows[Start(rows, cursor)..]
    decreases |rows| - Start(rows, cursor)
  {
    var s := Start(rows, cursor);
    PageByLastAt(rows, cursor, take);
    if s + take < |rows| {
      NextStart(rows, s + take - 1);
      WalkByLastFrom(rows, Some(rows[s + take - 1]), take);
      SplitAt(rows, s, s + take);
    }
  }

  /** With the last returned row as the cursor, the walk shows every row exactly once and in order. */
  lemma LastRowCursorIsComplete<T>(rows: seq<T>, take: nat)
    requires Distinct(rows) && take > 0
    ensures WalkByLast(rows, None, take) == rows
  {
    WalkByLastFrom(rows, None, take);
  }
}
