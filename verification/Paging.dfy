/**
 * Keyset pagination, newest first.
 *
 * Pages are cut by the key and identifier of the last item of the page before, and items may come in between.
 */
module Paging {
  import opened Wrappers

  type Rest(==, !new)

  datatype Item = Item(key: int, id: string, rest: Rest)
  datatype Cursor = Cursor(key: int, id: string)
  datatype Page = Page(items: seq<Item>, total: nat, next: Option<Cursor>)

  /** Strings by their code units, as the operators of the language compare them. */
  predicate Less(a: string, b: string) {
    b != "" && (a == "" || a[0] < b[0] || (a[0] == b[0] && Less(a[1..], b[1..])))
  }

  predicate After(c: Cursor, item: Item) {
    item.key < c.key || (item.key == c.key && Less(c.id, item.id))
  }

  function CursorOf(item: Item): Cursor {
    Cursor(item.key, item.id)
  }

  function Remaining(items: seq<Item>, c: Cursor): seq<Item> {
    if items == [] then []
    else (if After(c, items[0]) then [items[0]] else []) + Remaining(items[1..], c)
  }

  function PagedNewestFirst(items: seq<Item>, limit: Option<nat>, cursor: Option<Cursor>): Page {
    var remaining := if cursor.Some? then Remaining(items, cursor.value) else items;
    var page := if limit.Some? && limit.value < |remaining| then remaining[..limit.value] else remaining;
    Page(page, |items|, if page != [] && |page| < |remaining| then Some(CursorOf(page[|page| - 1])) else None)
  }

  // ---- The order of the filter ----

  lemma {:induction false} LessIsTotal(a: string, b: string)
    ensures a == b || Less(a, b) || Less(b, a)
    ensures !(Less(a, b) && Less(b, a)) && !Less(a, a)
    decreases |a|
  {
    if a != "" && b != "" && a[0] == b[0] {
      LessIsTotal(a[1..], b[1..]);
      assert a == [a[0]] + a[1..] && b == [b[0]] + b[1..];
    }
    if a != "" {
      LessIsTotal(a[1..], a[1..]);
    }
  }

  lemma {:induction false} LessIsTransitive(a: string, b: string, c: string)
    requires Less(a, b) && Less(b, c)
    ensures Less(a, c)
    decreases |a|
  {
    if a != "" && a[0] == b[0] && b[0] == c[0] {
      LessIsTransitive(a[1..], b[1..], c[1..]);
    }
  }

  predicate Precedes(a: Item, b: Item) {
    After(CursorOf(a), b)
  }

  lemma PrecedesIsStrict(a: Item, b: Item)
    ensures !(Precedes(a, b) && Precedes(b, a)) && !Precedes(a, a)
    ensures Precedes(a, b) || Precedes(b, a) || CursorOf(a) == CursorOf(b)
  {
    LessIsTotal(a.id, b.id);
    LessIsTotal(a.id, a.id);
  }

  lemma PrecedesIsTransitive(a: Item, b: Item, c: Item)
    requires Precedes(a, b) && Precedes(b, c)
    ensures Precedes(a, c)
  {
    if Less(a.id, b.id) && Less(b.id, c.id) {
      LessIsTransitive(a.id, b.id, c.id);
    }
  }

  ghost predicate Sorted(items: seq<Item>) {
    forall i, j :: 0 <= i < j < |items| ==> Precedes(items[i], items[j])
  }

  // ---- The filter ----

  lemma {:induction false} RemainingMeans(items: seq<Item>, c: Cursor)
    ensures forall x :: x in Remaining(items, c) <==> x in items && After(c, x)
    ensures Sorted(items) ==> Sorted(Remaining(items, c))
    ensures |Remaining(items, c)| <= |items|
    decreases |items|
  {
    if items != [] {
      RemainingMeans(items[1..], c);
      var rest := Remaining(items[1..], c);
      assert items == [items[0]] + items[1..];
      if Sorted(items) {
        forall j | 0 <= j < |rest| ensures Precedes(items[0], rest[j]) {
          assert rest[j] in rest;
          var k :| 0 <= k < |items[1..]| && items[1..][k] == rest[j];
          assert Precedes(items[0], items[k + 1]);
        }
      }
    }
  }

  /** After a later cursor there is less left. */
  lemma {:induction false} RemainingShrinks(items: seq<Item>, c: Cursor, x: Item)
    requires x in items && After(c, x)
    ensures |Remaining(items, CursorOf(x))| < |Remaining(items, c)|
    decreases |items|
  {
    PrecedesIsStrict(x, x);
    if x in items[1..] {
      RemainingShrinks(items[1..], c, x);
      FewerAfter(items[..1], c, x);
    } else {
      assert items[0] == x;
      FewerAfter(items[1..], c, x);
    }
  }

  lemma {:induction false} FewerAfter(items: seq<Item>, c: Cursor, x: Item)
    requires After(c, x)
    ensures |Remaining(items, CursorOf(x))| <= |Remaining(items, c)|
    decreases |items|
  {
    if items != [] {
      FewerAfter(items[1..], c, x);
      if Precedes(x, items[0]) {
        AfterLater(c, x, items[0]);
      }
    }
  }

  lemma AfterLater(c: Cursor, x: Item, y: Item)
    requires After(c, x) && Precedes(x, y)
    ensures After(c, y)
  {
    if Less(c.id, x.id) && Less(x.id, y.id) {
      LessIsTransitive(c.id, x.id, y.id);
    }
  }

  // ---- Following the cursor over items that do not change ----

  function Left(items: seq<Item>, cursor: Option<Cursor>): seq<Item> {
    if cursor.Some? then Remaining(items, cursor.value) else items
  }

  lemma PageAdvances(items: seq<Item>, limit: nat, cursor: Option<Cursor>)
    requires PagedNewestFirst(items, Some(limit), cursor).next.Some?
    ensures var page := PagedNewestFirst(items, Some(limit), cursor);
            |Left(items, page.next)| < |Left(items, cursor)| && |page.items| == limit &&
                page.items == Left(items, cursor)[..limit]
  {
    var page := PagedNewestFirst(items, Some(limit), cursor);
    var last := page.items[|page.items| - 1];
    assert last in Left(items, cursor);
    if cursor.Some? {
      RemainingMeans(items, cursor.value);
      RemainingShrinks(items, cursor.value, last);
    } else {
      RemainingMeans(items, CursorOf(last));
      NotAllRemain(items, last);
    }
  }

  lemma {:induction false} NotAllRemain(items: seq<Item>, x: Item)
    requires x in items
    ensures |Remaining(items, CursorOf(x))| < |items|
    decreases |items|
  {
    PrecedesIsStrict(x, x);
    RemainingMeans(items[1..], CursorOf(x));
    if x in items[1..] {
      NotAllRemain(items[1..], x);
    }
  }

  /** All pages from the cursor on, one after another. */
  function Walk(items: seq<Item>, limit: nat, cursor: Option<Cursor>): seq<Item>
    decreases |Left(items, cursor)|
  {
    var page := PagedNewestFirst(items, Some(limit), cursor);
    if page.next.None? then page.items
    else
      PageAdvances(items, limit, cursor);
      page.items + Walk(items, limit, page.next)
  }

  lemma {:induction false} LeftOfSorted(items: seq<Item>, at: nat)
    requires Sorted(items) && at < |items|
    ensures Remaining(items, CursorOf(items[at])) == items[at + 1..]
    decreases |items|
  {
    var c, rest := CursorOf(items[at]), items[1..];
    forall i, j | 0 <= i < j < |rest| ensures Precedes(rest[i], rest[j]) {
      assert Precedes(items[i + 1], items[j + 1]);
    }
    if at == 0 {
      PrecedesIsStrict(items[0], items[0]);
      forall j | 0 <= j < |rest| ensures After(c, rest[j]) {
        assert Precedes(items[0], items[j + 1]);
      }
      AllRemain(rest, c);
    } else {
      assert Precedes(items[0], items[at]);
      PrecedesIsStrict(items[0], items[at]);
      assert rest[at - 1] == items[at];
      LeftOfSorted(rest, at - 1);
      assert items[at + 1..] == rest[at..];
    }
  }

  lemma {:induction false} AllRemain(items: seq<Item>, c: Cursor)
    requires forall j :: 0 <= j < |items| ==> After(c, items[j])
    ensures Remaining(items, c) == items
    decreases |items|
  {
    if items != [] {
      AllRemain(items[1..], c);
      assert items == [items[0]] + items[1..];
    }
  }

  /** In the order of the filter, the pages put together are the items themselves, whatever the limit. */
  lemma {:induction false} WalkOfSorted(items: seq<Item>, limit: nat, from: nat, cursor: Option<Cursor>)
    requires Sorted(items) && limit > 0 && from <= |items| && Left(items, cursor) == items[from..]
    ensures Walk(items, limit, cursor) == items[from..]
    decreases |items| - from
  {
    var next := from + limit;
    if next < |items| {
      LeftOfSorted(items, next - 1);
      WalkOfSorted(items, limit, next, Some(CursorOf(items[next - 1])));
      SortedWalkStep(items, limit, from, cursor, items[next..]);
    } else {
      SortedWalkEnd(items, limit, from, cursor);
    }
  }

  lemma SortedWalkEnd(items: seq<Item>, limit: nat, from: nat, cursor: Option<Cursor>)
    requires from <= |items| <= from + limit && Left(items, cursor) == items[from..]
    ensures Walk(items, limit, cursor) == items[from..]
  {
    assert PagedNewestFirst(items, Some(limit), cursor).items == items[from..];
  }

  lemma WalkOn(items: seq<Item>, limit: nat, cursor: Option<Cursor>, page: Page)
    requires page == PagedNewestFirst(items, Some(limit), cursor) && page.next.Some?
    ensures Walk(items, limit, cursor) == page.items + Walk(items, limit, page.next)
  {
  }

  lemma SortedPageIs(items: seq<Item>, limit: nat, from: nat, cursor: Option<Cursor>)
    requires limit > 0 && from + limit < |items| && Left(items, cursor) == items[from..]
    ensures var page := PagedNewestFirst(items, Some(limit), cursor);
            page.items == items[from..from + limit] && page.next == Some(CursorOf(items[from + limit - 1]))
  {
    assert items[from..][..limit] == items[from..from + limit];
  }

  lemma SortedWalkStep(items: seq<Item>, limit: nat, from: nat, cursor: Option<Cursor>, rest: seq<Item>)
    requires limit > 0 && from + limit < |items| && Left(items, cursor) == items[from..]
    requires rest == items[from + limit..]
    requires Walk(items, limit, Some(CursorOf(items[from + limit - 1]))) == rest
    ensures Walk(items, limit, cursor) == items[from..]
  {
    SortedPageIs(items, limit, from, cursor);
    WalkFrom(items, limit, cursor, PagedNewestFirst(items, Some(limit), cursor), rest);
    SliceJoin(items, from, from + limit);
  }

  lemma WalkFrom(items: seq<Item>, limit: nat, cursor: Option<Cursor>, page: Page, rest: seq<Item>)
    requires page == PagedNewestFirst(items, Some(limit), cursor) && page.next.Some? &&
             Walk(items, limit, page.next) == rest
    ensures Walk(items, limit, cursor) == page.items + rest
  {
    WalkOn(items, limit, cursor, page);
  }

  lemma SliceJoin(items: seq<Item>, from: nat, mid: nat)
    requires from <= mid <= |items|
    ensures items[from..mid] + items[mid..] == items[from..]
  {
  }

  /** In any other order some limit loses an item: the first that stands behind one it should precede. */
  lemma UnsortedLoses(items: seq<Item>, at: nat)
    requires at + 1 < |items| && Precedes(items[at + 1], items[at])
    requires forall i, j :: 0 <= i < j < |items| ==> items[i] != items[j]
    ensures items[at + 1] !in Walk(items, at + 1, None)
  {
    var page, x := PagedNewestFirst(items, Some(at + 1), None), items[at + 1];
    assert page.items == items[..at + 1] && page.next == Some(CursorOf(items[at]));
    PrecedesIsStrict(items[at + 1], items[at]);
    PageAdvances(items, at + 1, None);
    assert x !in page.items;
    if x in Walk(items, at + 1, None) {
      WalkIsAfter(items, at + 1, CursorOf(items[at]), x);
    }
  }

  lemma {:induction false} WalkIsAfter(items: seq<Item>, limit: nat, c: Cursor, x: Item)
    requires x in Walk(items, limit, Some(c))
    ensures After(c, x)
    decreases |Remaining(items, c)|
  {
    var page := PagedNewestFirst(items, Some(limit), Some(c));
    RemainingMeans(items, c);
    if page.next.Some? {
      PageAdvances(items, limit, Some(c));
      var last := page.items[|page.items| - 1];
      assert last in Remaining(items, c);
      if x !in page.items {
        WalkIsAfter(items, limit, page.next.value, x);
        AfterLater(c, last, x);
      }
    }
  }

  /** Some two neighbours are out of the order of the filter. */
  lemma UnsortedSomewhere(items: seq<Item>) returns (at: nat)
    requires !Sorted(items)
    ensures at + 1 < |items| && !Precedes(items[at], items[at + 1])
  {
    at := 0;
    while at + 1 < |items| && Precedes(items[at], items[at + 1])
      invariant items != [] && at < |items|
      invariant forall i, j :: 0 <= i < j <= at ==> Precedes(items[i], items[j])
    {
      forall i | 0 <= i <= at ensures Precedes(items[i], items[at + 1]) {
        if i < at {
          PrecedesIsTransitive(items[i], items[at], items[at + 1]);
        }
      }
      at := at + 1;
    }
  }

  /** The page that ends between them is not followed by the second, be it another item or one of equal key. */
  lemma UnsortedIsIncomplete(items: seq<Item>, at: nat)
    requires at + 1 < |items| && !Precedes(items[at], items[at + 1])
    ensures Walk(items, at + 1, None) != items
  {
    var page := PagedNewestFirst(items, Some(at + 1), None);
    assert page.items == items[..at + 1] && page.next == Some(CursorOf(items[at]));
    PageAdvances(items, at + 1, None);
    var rest := Walk(items, at + 1, page.next);
    if page.items + rest == items {
      assert rest[0] == items[at + 1];
      WalkIsAfter(items, at + 1, CursorOf(items[at]), items[at + 1]);
    }
  }

  /** Following the cursor to the end returns the items, for every limit, exactly if they are in the filter's order. */
  lemma CompleteIffSorted(items: seq<Item>)
    ensures (forall limit: nat :: limit > 0 ==> Walk(items, limit, None) == items) <==> Sorted(items)
  {
    if Sorted(items) {
      forall limit: nat | limit > 0 ensures Walk(items, limit, None) == items {
        assert items[0..] == items;
        WalkOfSorted(items, limit, 0, None);
      }
    } else {
      var at := UnsortedSomewhere(items);
      UnsortedIsIncomplete(items, at);
    }
  }

  /** A locale puts "a" before "B"; the filter does not, and a page of one loses the second. */
  lemma LocaleOrderLoses(first: Rest, second: Rest)
    ensures var items := [Item(0, "a", first), Item(0, "B", second)];
            Item(0, "B", second) !in Walk(items, 1, None)
  {
    var items := [Item(0, "a", first), Item(0, "B", second)];
    assert Less("B", "a");
    UnsortedLoses(items, 0);
  }

  // ---- Following the cursor while items are added ----

  /** The pages cut from one list after another, as far as there are lists, and whether the end was reached. */
  function Follow(lists: seq<seq<Item>>, limit: nat, cursor: Option<Cursor>): (seq<Item>, bool)
    decreases |lists|
  {
    if lists == [] then ([], false)
    else
      var page := PagedNewestFirst(lists[0], Some(limit), cursor);
      if page.next.None? then (page.items, true)
      else
        var rest := Follow(lists[1..], limit, page.next);
        (page.items + rest.0, rest.1)
  }

  lemma SortedPage(items: seq<Item>, limit: nat, cursor: Option<Cursor>)
    requires Sorted(items) && limit > 0
    ensures var page := PagedNewestFirst(items, Some(limit), cursor);
            && Sorted(page.items)
            && (forall x :: x in page.items ==> x in items && (cursor.Some? ==> After(cursor.value, x)))
            && (forall x :: x in items && (cursor.Some? ==> After(cursor.value, x)) ==>
                  x in page.items || (page.next.Some? && After(page.next.value, x)))
  {
    var left := Left(items, cursor);
    if cursor.Some? {
      RemainingMeans(items, cursor.value);
    }
    var page := PagedNewestFirst(items, Some(limit), cursor);
    forall x | x in left ensures x in page.items || (page.next.Some? && After(page.next.value, x)) {
      var i :| 0 <= i < |left| && left[i] == x;
      if i < |page.items| {
        assert page.items[i] == x;
      } else {
        assert page.items == left[..limit];
        assert Precedes(left[limit - 1], left[i]);
      }
    }
  }

  ghost predicate AllSorted(lists: seq<seq<Item>>) {
    forall i :: 0 <= i < |lists| ==> Sorted(lists[i])
  }

  lemma RestSorted(lists: seq<seq<Item>>)
    requires lists != [] && AllSorted(lists)
    ensures AllSorted(lists[1..])
  {
    forall i | 0 <= i < |lists[1..]| ensures Sorted(lists[1..][i]) {
      assert lists[1..][i] == lists[i + 1];
    }
  }

  /**
   * While items come in between pages, each list being in the filter's order: what is returned is in that order, so
   * nothing comes twice, and once the end is reached every item that was in all the lists has been returned.
   */
  lemma {:induction false} FollowIsComplete(lists: seq<seq<Item>>, limit: nat, cursor: Option<Cursor>)
    requires limit > 0 && AllSorted(lists)
    ensures var (found, ended) := Follow(lists, limit, cursor);
            && Sorted(found)
            && (forall x :: x in found && cursor.Some? ==> After(cursor.value, x))
            && (ended ==> forall x ::
                  (forall i :: 0 <= i < |lists| ==> x in lists[i]) && (cursor.Some? ==> After(cursor.value, x)) ==>
                      x in found)
    decreases |lists|
  {
    if lists != [] {
      var page := PagedNewestFirst(lists[0], Some(limit), cursor);
      assert Sorted(lists[0]);
      SortedPage(lists[0], limit, cursor);
      if page.next.Some? {
        RestSorted(lists);
        FollowIsComplete(lists[1..], limit, page.next);
        var rest := Follow(lists[1..], limit, page.next);
        FollowStep(lists, limit, cursor, page, rest.0, rest.1);
      }
    }
  }

  lemma FollowStep(lists: seq<seq<Item>>, limit: nat, cursor: Option<Cursor>, page: Page, rest: seq<Item>, ended: bool)
    requires lists != [] && page.items != [] && page.next == Some(CursorOf(page.items[|page.items| - 1]))
    requires Sorted(page.items) && Sorted(rest)
    requires forall x :: x in page.items && cursor.Some? ==> After(cursor.value, x)
    requires forall x :: x in rest ==> After(page.next.value, x)
    requires forall x :: x in lists[0] && (cursor.Some? ==> After(cursor.value, x)) ==>
               x in page.items || After(page.next.value, x)
    requires ended ==> forall x ::
               (forall i :: 0 <= i < |lists[1..]| ==> x in lists[1..][i]) && After(page.next.value, x) ==> x in rest
    ensures Sorted(page.items + rest)
    ensures forall x :: x in page.items + rest && cursor.Some? ==> After(cursor.value, x)
    ensures ended ==> forall x :: (forall i :: 0 <= i < |lists| ==> x in lists[i]) && (cursor.Some? ==>
        After(cursor.value, x)) ==> x in page.items + rest
  {
    var last := page.items[|page.items| - 1];
    var all := page.items + rest;
    forall i, j | 0 <= i < j < |all| ensures Precedes(all[i], all[j]) {
      if i < |page.items| <= j {
        assert all[j] == rest[j - |page.items|] && all[j] in rest;
        assert Precedes(last, all[j]);
        if i < |page.items| - 1 {
          assert Precedes(page.items[i], last);
          PrecedesIsTransitive(all[i], last, all[j]);
        }
      } else if i >= |page.items| {
        assert Precedes(rest[i - |page.items|], rest[j - |page.items|]);
      } else {
        assert Precedes(page.items[i], page.items[j]);
      }
    }
    forall x | x in rest && cursor.Some? ensures After(cursor.value, x) {
      assert last in page.items;
      AfterLater(cursor.value, last, x);
    }
    if ended {
      forall x | (forall i :: 0 <= i < |lists| ==> x in lists[i]) && (cursor.Some? ==> After(cursor.value, x))
        ensures x in all {
        assert x in lists[0];
        if x !in page.items {
          forall i | 0 <= i < |lists[1..]| ensures x in lists[1..][i] {
            assert lists[1..][i] == lists[i + 1];
          }
          assert x in rest;
        }
      }
    }
  }

  // ---- What the order is, and where following ends ----

  /** The first difference decides; a text comes before those that go on. */
  lemma {:induction false} LessIff(a: string, b: string)
    ensures Less(a, b) <==> exists k: nat :: FirstDifference(a, b, k)
    decreases |a|
  {
    if a != "" && b != "" && a[0] == b[0] {
      LessIff(a[1..], b[1..]);
      assert a == [a[0]] + a[1..] && b == [b[0]] + b[1..];
      if k: nat :| FirstDifference(a[1..], b[1..], k) {
        assert a[..k + 1] == [a[0]] + a[1..][..k] && b[..k + 1] == [b[0]] + b[1..][..k];
        assert FirstDifference(a, b, k + 1);
      }
      if k: nat :| FirstDifference(a, b, k) {
        assert k > 0;
        assert a[1..][..k - 1] == a[..k][1..] && b[1..][..k - 1] == b[..k][1..];
        assert FirstDifference(a[1..], b[1..], k - 1);
      }
    } else if Less(a, b) {
      assert FirstDifference(a, b, 0);
    }
  }

  predicate FirstDifference(a: string, b: string, k: nat) {
    && k <= |a| && k < |b| && a[..k] == b[..k] && (k < |a| ==> a[k] < b[k])
  }

  /** Of two items the one with the larger key comes first, and of those with one key the one with the lesser name. */
  predicate NewerFirst(items: seq<Item>) {
    forall i, j :: 0 <= i < j < |items| ==>
      items[i].key > items[j].key || (items[i].key == items[j].key && Less(items[i].id, items[j].id))
  }

  lemma SortedIffNewerFirst(items: seq<Item>)
    ensures Sorted(items) <==> NewerFirst(items)
  {
    if NewerFirst(items) {
      forall i, j | 0 <= i < j < |items| ensures Precedes(items[i], items[j]) {}
    } else {
      var i, j :| 0 <= i < j < |items| &&
        !(items[i].key > items[j].key || (items[i].key == items[j].key && Less(items[i].id, items[j].id)));
      assert !Precedes(items[i], items[j]);
    }
  }

  /** Items behind those the cursor has passed: the page begins there and takes as many as the limit allows. */
  lemma PageOfSorted(items: seq<Item>, limit: Option<nat>, at: nat)
    requires NewerFirst(items) && at < |items|
    ensures var page := PagedNewestFirst(items, limit, Some(Cursor(items[at].key, items[at].id)));
            var end := if limit.Some? && at + 1 + limit.value < |items| then at + 1 + limit.value else |items|;
            && page.items == items[at + 1..end] && page.total == |items|
            && page.next == if at + 1 < end < |items| then Some(Cursor(items[end - 1].key, items[end - 1].id)) else None
  {
    SortedIffNewerFirst(items);
    LeftOfSorted(items, at);
    var left := items[at + 1..];
    assert limit.Some? && limit.value < |left| ==> left[..limit.value] == items[at + 1..at + 1 + limit.value];
  }

  function Unchanged(items: seq<Item>, n: nat): (lists: seq<seq<Item>>)
    ensures |lists| == n
  {
    seq(n, _ => items)
  }

  /** On a list that does not change the cursor comes to the end, within as many pages as there are items left. */
  lemma {:induction false} FollowEnds(items: seq<Item>, limit: nat, cursor: Option<Cursor>, n: nat)
    requires n > |Left(items, cursor)|
    ensures Follow(Unchanged(items, n), limit, cursor) == (Walk(items, limit, cursor), true)
    decreases n
  {
    var page, lists := PagedNewestFirst(items, Some(limit), cursor), Unchanged(items, n);
    assert lists[0] == items;
    if page.next.Some? {
      PageAdvances(items, limit, cursor);
      FollowEnds(items, limit, page.next, n - 1);
      assert lists[1..] == Unchanged(items, n - 1);
      FollowOn(items, limit, cursor, lists, page);
      WalkOn(items, limit, cursor, page);
    }
  }

  lemma FollowOn(items: seq<Item>, limit: nat, cursor: Option<Cursor>, lists: seq<seq<Item>>, page: Page)
    requires lists != [] && lists[0] == items && page == PagedNewestFirst(items, Some(limit), cursor) && page.next.Some?
    ensures Follow(lists, limit, cursor) ==
            (page.items + Follow(lists[1..], limit, page.next).0, Follow(lists[1..], limit, page.next).1)
  {
  }
}
