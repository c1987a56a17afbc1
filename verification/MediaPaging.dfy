/** Keyset pagination: `slice_page` (crates/handshaker-application/src/media.rs) and the walk a
    client makes with it while the library may be refreshed between pages. */
module MediaPaging {
  import opened Wrappers

  datatype Item<T> = Item(id: Option<nat>, data: T)

  /** The sort key: items without an id sort first, together with id 0. */
  function Key<T>(item: Item<T>): nat {
    if item.id.Some? then item.id.value else 0
  }

  // ---- the stable sort ----

  function Insert<T>(x: Item<T>, s: seq<Item<T>>): seq<Item<T>> {
    if s == [] || Key(x) <= Key(s[0]) then [x] + s else [s[0]] + Insert(x, s[1..])
  }

  /** The result of a stable sort by key. */
  function Sort<T>(items: seq<Item<T>>): seq<Item<T>> {
    if items == [] then [] else Insert(items[0], Sort(items[1..]))
  }

  predicate Sorted<T>(s: seq<Item<T>>) {
    forall i, j | 0 <= i < j < |s| :: Key(s[i]) <= Key(s[j])
  }

  /** The items with this key, in order. */
  function WithKey<T>(s: seq<Item<T>>, k: nat): seq<Item<T>> {
    if s == [] then []
    else if Key(s[0]) == k then [s[0]] + WithKey(s[1..], k)
    else WithKey(s[1..], k)
  }

  lemma {:induction false} InsertPermutes<T>(x: Item<T>, s: seq<Item<T>>)
    ensures multiset(Insert(x, s)) == multiset{x} + multiset(s)
  {
    if s != [] && Key(x) > Key(s[0]) {
      InsertPermutes(x, s[1..]);
      assert s == [s[0]] + s[1..];
    }
  }

  lemma SortedInFront<T>(x: Item<T>, s: seq<Item<T>>)
    requires Sorted(s) && forall i | 0 <= i < |s| :: Key(x) <= Key(s[i])
    ensures Sorted([x] + s)
  {
  }

  lemma {:induction false} InsertSorts<T>(x: Item<T>, s: seq<Item<T>>)
    requires Sorted(s)
    ensures Sorted(Insert(x, s))
  {
    if s != [] && Key(x) > Key(s[0]) {
      InsertSorts(x, s[1..]);
      InsertPermutes(x, s[1..]);
      var t := Insert(x, s[1..]);
      forall i | 0 <= i < |t| ensures Key(s[0]) <= Key(t[i]) {
        assert t[i] in multiset(t);
      }
      SortedInFront(s[0], t);
    } else {
      SortedInFront(x, s);
    }
  }

  lemma {:induction false} InsertStable<T>(x: Item<T>, s: seq<Item<T>>, k: nat)
    requires Sorted(s)
    ensures WithKey(Insert(x, s), k) == (if Key(x) == k then [x] else []) + WithKey(s, k)
  {
    var r := Insert(x, s);
    if s == [] || Key(x) <= Key(s[0]) {
      assert r[1..] == s;
    } else {
      assert r[1..] == Insert(x, s[1..]);
      InsertStable(x, s[1..], k);
    }
  }

  lemma {:induction false} SortSorts<T>(items: seq<Item<T>>)
    ensures Sorted(Sort(items)) && multiset(Sort(items)) == multiset(items)
  {
    if items != [] {
      SortSorts(items[1..]);
      InsertSorts(items[0], Sort(items[1..]));
      InsertPermutes(items[0], Sort(items[1..]));
      assert items == [items[0]] + items[1..];
    }
  }

  /** Sorted, a permutation, and stable: items with equal keys keep their order. */
  lemma {:induction false} SortIsStable<T>(items: seq<Item<T>>, k: nat)
    ensures Sorted(Sort(items)) && multiset(Sort(items)) == multiset(items)
    ensures WithKey(Sort(items), k) == WithKey(items, k)
  {
    SortSorts(items);
    if items != [] {
      SortIsStable(items[1..], k);
      InsertStable(items[0], Sort(items[1..]), k);
    }
  }

  /** Items without an id come first, among any whose id is 0. */
  lemma IdlessFirst<T>(items: seq<Item<T>>, i: nat, j: nat)
    requires i < j < |Sort(items)| && Sort(items)[j].id.None?
    ensures Sort(items)[i].id.None? || Sort(items)[i].id == Some(0)
  {
    SortSorts(items);
  }

  // ---- one page ----

  /** The index of the first item past the cursor. */
  function Start<T>(s: seq<Item<T>>, cursor: Option<nat>): (i: nat)
    ensures i <= |s|
  {
    if cursor.None? || s == [] || Key(s[0]) > cursor.value then 0 else 1 + Start(s[1..], cursor)
  }

  function End<T>(s: seq<Item<T>>, start: nat, limit: nat): (i: nat)
    requires start <= |s|
    ensures start <= i <= |s|
  {
    if start + limit < |s| then start + limit else |s|
  }

  /** The last id on the page, walking back over items without one. */
  function LastId<T>(page: seq<Item<T>>): Option<nat> {
    if page == [] then None
    else if page[|page| - 1].id.Some? then page[|page| - 1].id
    else LastId(page[..|page| - 1])
  }

  /** The index of the first item with an id. */
  function FirstKeyed<T>(rest: seq<Item<T>>): (i: nat)
    ensures i <= |rest|
  {
    if rest == [] || rest[0].id.Some? then 0 else 1 + FirstKeyed(rest[1..])
  }

  /** Page and next cursor, where the page is `s[start..end]` unless it has no id to key on. */
  function Cut<T>(s: seq<Item<T>>, start: nat, end: nat): (seq<Item<T>>, Option<nat>)
    requires start <= end <= |s| && (end < |s| ==> start < end)
  {
    var page := s[start..end];
    if end == |s| then (page, None)
    else if LastId(page).Some? then (page, LastId(page))
    else
      var idx := end + FirstKeyed(s[end..]);
      if idx < |s| then (page[|page| - 1 := s[idx]], s[idx].id) else (page, None)
  }

  function SlicePage<T>(items: seq<Item<T>>, cursor: Option<nat>, limit: nat): (seq<Item<T>>, Option<nat>) {
    if limit == 0 then ([], None)
    else
      var s := Sort(items);
      var start := Start(s, cursor);
      Cut(s, start, End(s, start, limit))
  }

  method StartOf<T>(s: seq<Item<T>>, cursor: Option<nat>) returns (start: nat)
    ensures start == Start(s, cursor)
  {
    start := 0;
    if cursor.Some? {
      while start < |s| && Key(s[start]) <= cursor.value
        invariant start <= |s| && Start(s, cursor) == start + Start(s[start..], cursor)
      {
        assert s[start..][1..] == s[start + 1..];
        start := start + 1;
      }
    }
  }

  method LastIdOf<T>(page: seq<Item<T>>) returns (id: Option<nat>)
    ensures id == LastId(page)
  {
    var back := |page|;
    assert page[..back] == page;
    while back > 0 && page[back - 1].id.None?
      invariant back <= |page| && LastId(page) == LastId(page[..back])
    {
      assert page[..back][..back - 1] == page[..back - 1];
      back := back - 1;
    }
    id := if back > 0 then page[back - 1].id else None;
  }

  method FirstKeyedOf<T>(rest: seq<Item<T>>) returns (i: nat)
    ensures i == FirstKeyed(rest)
  {
    i := 0;
    while i < |rest| && rest[i].id.None?
      invariant i <= |rest| && FirstKeyed(rest) == i + FirstKeyed(rest[i..])
    {
      assert rest[i..][1..] == rest[i + 1..];
      i := i + 1;
    }
  }

  method SliceItems<T>(items: seq<Item<T>>, cursor: Option<nat>, limit: nat)
      returns (page: seq<Item<T>>, next: Option<nat>)
    ensures (page, next) == SlicePage(items, cursor, limit)
  {
    hide Sort, Start;
    if limit == 0 {
      return [], None;
    }
    var s := Sort(items);
    var start := StartOf(s, cursor);
    var end := if start + limit < |s| then start + limit else |s|;
    page, next := s[start..end], None;
    if end < |s| {
      next := LastIdOf(page);
      if next.None? {
        var offset := FirstKeyedOf(s[end..]);
        if end + offset < |s| {
          page, next := page[|page| - 1 := s[end + offset]], s[end + offset].id;
        }
      }
    }
  }

  // ---- which ids a page returns ----

  /** How many items carry id `x`. */
  function Count<T>(s: seq<Item<T>>, x: nat): nat {
    if s == [] then 0 else (if s[0].id == Some(x) then 1 else 0) + Count(s[1..], x)
  }

  ghost predicate DistinctIds<T>(s: seq<Item<T>>) {
    forall x: nat :: Count(s, x) <= 1
  }

  lemma {:induction false} CountConcat<T>(a: seq<Item<T>>, b: seq<Item<T>>, x: nat)
    ensures Count(a + b, x) == Count(a, x) + Count(b, x)
  {
    if a == [] {
      assert a + b == b;
    } else {
      assert (a + b)[1..] == a[1..] + b;
      CountConcat(a[1..], b, x);
    }
  }

  lemma {:induction false} CountInsert<T>(y: Item<T>, s: seq<Item<T>>, x: nat)
    ensures Count(Insert(y, s), x) == (if y.id == Some(x) then 1 else 0) + Count(s, x)
  {
    var r := Insert(y, s);
    if s == [] || Key(y) <= Key(s[0]) {
      assert r[1..] == s;
    } else {
      assert r[1..] == Insert(y, s[1..]);
      CountInsert(y, s[1..], x);
    }
  }

  lemma {:induction false} CountSort<T>(items: seq<Item<T>>, x: nat)
    ensures Count(Sort(items), x) == Count(items, x)
  {
    if items != [] {
      CountSort(items[1..], x);
      CountInsert(items[0], Sort(items[1..]), x);
    }
  }

  lemma {:induction false} CountAbsent<T>(s: seq<Item<T>>, x: nat)
    requires forall i | 0 <= i < |s| :: s[i].id != Some(x)
    ensures Count(s, x) == 0
  {
    if s != [] {
      CountAbsent(s[1..], x);
    }
  }

  /** Cutting a list in three cuts its counts in three. */
  lemma CountSplit<T>(s: seq<Item<T>>, i: nat, j: nat, x: nat)
    requires i <= j <= |s|
    ensures Count(s, x) == Count(s[..i], x) + Count(s[i..j], x) + Count(s[j..], x)
  {
    assert s == s[..i] + s[i..j] + s[j..];
    CountConcat(s[..i], s[i..j], x);
    CountConcat(s[..i] + s[i..j], s[j..], x);
  }

  lemma CountAt<T>(s: seq<Item<T>>, i: nat, x: nat)
    requires i < |s| && s[i].id == Some(x)
    ensures Count(s, x) >= 1
  {
    CountSplit(s, i, i + 1, x);
    assert s[i..i + 1] == [s[i]];
  }

  lemma {:induction false} StartSplits<T>(s: seq<Item<T>>, cursor: Option<nat>)
    requires Sorted(s)
    ensures forall i | 0 <= i < Start(s, cursor) :: cursor.Some? && Key(s[i]) <= cursor.value
    ensures forall i | Start(s, cursor) <= i < |s| :: cursor.Some? ==> Key(s[i]) > cursor.value
  {
    if cursor.None? || s == [] || Key(s[0]) > cursor.value {
      assert Start(s, cursor) == 0;
    } else {
      var t := s[1..];
      StartSplits(t, cursor);
      assert Start(s, cursor) == 1 + Start(t, cursor);
      forall i | 0 <= i < |s|
        ensures i < Start(s, cursor) ==> Key(s[i]) <= cursor.value
        ensures i >= Start(s, cursor) ==> Key(s[i]) > cursor.value
      {
        assert i > 0 ==> s[i] == t[i - 1];
      }
    }
  }

  lemma {:induction false} LastIdAt<T>(page: seq<Item<T>>) returns (p: int)
    ensures LastId(page).Some? ==> 0 <= p < |page| && page[p].id == LastId(page)
    ensures LastId(page).None? ==> p == -1
    ensures forall i | p < i < |page| :: page[i].id.None?
  {
    if page == [] {
      p := -1;
    } else if page[|page| - 1].id.Some? {
      p := |page| - 1;
    } else {
      p := LastIdAt(page[..|page| - 1]);
    }
  }

  lemma {:induction false} FirstKeyedAt<T>(rest: seq<Item<T>>)
    ensures forall i | 0 <= i < FirstKeyed(rest) :: rest[i].id.None?
    ensures FirstKeyed(rest) < |rest| ==> rest[FirstKeyed(rest)].id.Some?
  {
    if rest != [] && rest[0].id.None? {
      var t := rest[1..];
      FirstKeyedAt(t);
      assert forall i | 0 < i < |rest| :: rest[i] == t[i - 1];
    }
  }

  /** `x` lies after the page's cursor and not after the next one. */
  predicate InWindow(x: nat, cursor: Option<nat>, next: Option<nat>) {
    (cursor.None? || cursor.value < x) && (next.None? || x <= next.value)
  }

  /** A page whose last id is at `p`: larger ids are not on the page, the others not behind it. */
  lemma KeyedPage<T>(s: seq<Item<T>>, start: nat, end: nat, p: nat, x: nat)
    requires Sorted(s) && start <= p < end <= |s| && s[p].id.Some? && Count(s, s[p].id.value) <= 1
    requires forall i | p < i < end :: s[i].id.None?
    ensures Count(s[start..end], s[p].id.value) == 1
    ensures x > s[p].id.value ==> Count(s[start..end], x) == 0
    ensures x <= s[p].id.value ==> Count(s[end..], x) == 0
  {
    var page, rest, hi := s[start..end], s[end..], s[p].id.value;
    CountSplit(s, start, end, hi);
    CountAt(page, p - start, hi);
    if x > hi {
      forall i | 0 <= i < |page| ensures page[i].id != Some(x) {
        if start + i < p {
          assert Key(s[start + i]) <= Key(s[p]);
        }
      }
      CountAbsent(page, x);
    } else if x < hi {
      forall i | 0 <= i < |rest| ensures rest[i].id != Some(x) {
        assert Key(s[p]) <= Key(s[end + i]);
      }
      CountAbsent(rest, x);
    }
  }

  /** In front of `idx` no item has an id; the item there has the smallest one. */
  lemma FirstIsSmallest<T>(s: seq<Item<T>>, idx: nat, x: nat)
    requires Sorted(s) && idx < |s| && s[idx].id.Some? && Count(s, s[idx].id.value) <= 1
    requires forall i | 0 <= i < idx :: s[i].id.None?
    requires x <= s[idx].id.value
    ensures Count(s, x) == if x == s[idx].id.value then 1 else 0
  {
    if x == s[idx].id.value {
      CountAt(s, idx, x);
    } else {
      forall i | 0 <= i < |s| ensures s[i].id != Some(x) {
        if i > idx {
          assert Key(s[idx]) <= Key(s[i]);
        }
      }
      CountAbsent(s, x);
    }
  }

  /** The ids of a cut whose page keys on its own last id. */
  lemma KeyedCut<T>(s: seq<Item<T>>, start: nat, end: nat, x: nat)
    requires Sorted(s) && DistinctIds(s) && start < end < |s| && LastId(s[start..end]).Some?
    ensures var (page, next) := Cut(s, start, end);
            && next.Some? && page == s[start..end] && Count(page, next.value) == 1
            && (x > next.value ==> Count(page, x) == 0)
            && (x <= next.value ==> Count(s[end..], x) == 0)
            && exists p :: start <= p < end && s[p].id == next
  {
    var page := s[start..end];
    var q := LastIdAt(page);
    var p := start + q;
    assert s[p] == page[q];
    forall i | p < i < end ensures s[i].id.None? {
      assert s[i] == page[i - start];
    }
    KeyedPage(s, start, end, p, x);
  }

  /** The ids of a first page that had none of its own. */
  lemma IdlessCut<T>(s: seq<Item<T>>, end: nat, x: nat)
    requires Sorted(s) && DistinctIds(s) && 0 < end < |s| && LastId(s[..end]).None?
    ensures var (page, next) := Cut(s, 0, end);
            && (next.Some? ==> Count(page, next.value) == 1)
            && Count(page, x) == if InWindow(x, None, next) then Count(s, x) else 0
  {
    var page, rest := s[0..end], s[end..];
    assert page == s[..end];
    var q := LastIdAt(page);
    FirstKeyedAt(rest);
    var idx := end + FirstKeyed(rest);
    forall i | 0 <= i < idx ensures s[i].id.None? {
      if i < end {
        assert s[i] == page[i];
      } else {
        assert s[i] == rest[i - end];
      }
    }
    if idx < |s| {
      var hi := s[idx].id.value;
      var pulled := page[|page| - 1 := s[idx]];
      assert pulled == page[..|page| - 1] + [s[idx]];
      CountConcat(page[..|page| - 1], [s[idx]], x);
      CountConcat(page[..|page| - 1], [s[idx]], hi);
      CountAbsent(page[..|page| - 1], x);
      CountAbsent(page[..|page| - 1], hi);
      if x <= hi {
        FirstIsSmallest(s, idx, x);
      }
    } else {
      CountAbsent(s, x);
      CountAbsent(page, x);
    }
  }

  /** An item with a key above zero has an id, so only a first page can have none. */
  lemma LastIdOfLater<T>(page: seq<Item<T>>, c: nat)
    requires page != [] && forall i | 0 <= i < |page| :: Key(page[i]) > c
    ensures LastId(page).Some?
  {
    assert Key(page[|page| - 1]) > c;
  }

  lemma CutCovers<T>(s: seq<Item<T>>, cursor: Option<nat>, limit: nat, x: nat)
    requires limit >= 1 && Sorted(s) && DistinctIds(s)
    ensures var (page, next) := Cut(s, Start(s, cursor), End(s, Start(s, cursor), limit));
            && Count(page, x) == (if InWindow(x, cursor, next) then Count(s, x) else 0)
            && (next.Some? ==> Count(page, next.value) == 1 && InWindow(next.value, cursor, next))
  {
    StartSplits(s, cursor);
    var start := Start(s, cursor);
    var end := End(s, start, limit);
    CountSplit(s, start, end, x);
    var before, page := s[..start], s[start..end];
    if cursor.Some? && page != [] {
      LastIdOfLater(page, cursor.value);
    }
    if cursor.Some? && x <= cursor.value {
      CountAbsent(page, x);
    } else {
      CountAbsent(before, x);
    }
    if end == |s| {
      assert s[end..] == [];
    } else if LastId(page).Some? {
      KeyedCut(s, start, end, x);
    } else {
      assert s[..end] == page;
      IdlessCut(s, end, x);
    }
  }

  /** What a page returns: exactly the ids of its window, each as often as the library has it; and
      the next cursor is past the old one and names an id of the page. */
  lemma PageCovers<T>(items: seq<Item<T>>, cursor: Option<nat>, limit: nat, x: nat)
    requires limit >= 1 && DistinctIds(items)
    ensures var (page, next) := SlicePage(items, cursor, limit);
            && Count(page, x) == (if InWindow(x, cursor, next) then Count(items, x) else 0)
            && (next.Some? ==> Count(page, next.value) == 1 && InWindow(next.value, cursor, next))
  {
    SortSorts(items);
    forall y: nat ensures Count(Sort(items), y) == Count(items, y) {
      CountSort(items, y);
    }
    CutCovers(Sort(items), cursor, limit, x);
  }

  lemma CutFrom<T>(s: seq<Item<T>>, start: nat, end: nat, i: nat) returns (k: nat)
    requires start <= end <= |s| && (end < |s| ==> start < end) && i < |Cut(s, start, end).0|
    ensures |Cut(s, start, end).0| == end - start
    ensures k < |s| && Cut(s, start, end).0[i] == s[k]
  {
    var idx := end + FirstKeyed(s[end..]);
    k := if Cut(s, start, end).0[i] == s[start..end][i] then start + i else idx;
  }

  /** A page holds at most `limit` items, all of them from the library. */
  lemma PageIsFromLibrary<T>(items: seq<Item<T>>, cursor: Option<nat>, limit: nat, i: nat)
    requires i < |SlicePage(items, cursor, limit).0|
    ensures |SlicePage(items, cursor, limit).0| <= limit && SlicePage(items, cursor, limit).0[i] in items
  {
    var s := Sort(items);
    var start := Start(s, cursor);
    var k := CutFrom(s, start, End(s, start, limit), i);
    SortSorts(items);
    assert s[k] in multiset(s);
  }

  predicate NoIds<T>(s: seq<Item<T>>, i: nat, j: nat)
    requires i <= j <= |s|
  {
    forall k | i <= k < j :: s[k].id.None?
  }

  /** The page is the run from `start` but for its last slot, which holds the first item with an id. */
  ghost predicate TakesFirstKeyed<T>(s: seq<Item<T>>, start: nat, page: seq<Item<T>>, next: Option<nat>) {
    exists idx :: start + |page| <= idx < |s| && NoIds(s, start, idx) && s[idx].id.Some? && s[idx].id == next
                  && |page| > 0 && page == s[start..start + |page|][|page| - 1 := s[idx]]
  }

  ghost predicate LastWithId<T>(page: seq<Item<T>>, next: Option<nat>) {
    exists p :: 0 <= p < |page| && page[p].id == next && NoIds(page, p + 1, |page|)
  }

  /** The items of `s` from `start` on that fit the page, and the id to go on from. */
  ghost predicate IsRun<T>(s: seq<Item<T>>, start: nat, page: seq<Item<T>>, next: Option<nat>) {
    && start + |page| <= |s|
    && (next.None? <==> start + |page| == |s| || NoIds(s, start, |s|))
    && (page == s[start..start + |page|] || TakesFirstKeyed(s, start, page, next))
    && (next.Some? ==> LastWithId(page, next))
  }

  lemma KeyedRun<T>(s: seq<Item<T>>, start: nat, end: nat)
    requires start < end < |s| && LastId(s[start..end]).Some?
    ensures IsRun(s, start, Cut(s, start, end).0, Cut(s, start, end).1)
  {
    var page := s[start..end];
    var p := LastIdAt(page);
    assert NoIds(page, p + 1, |page|);
    assert s[start + p].id == page[p].id;
  }

  lemma IdlessRun<T>(s: seq<Item<T>>, start: nat, end: nat)
    requires start < end < |s| && LastId(s[start..end]).None?
    ensures IsRun(s, start, Cut(s, start, end).0, Cut(s, start, end).1)
  {
    var window, rest := s[start..end], s[end..];
    var p := LastIdAt(window);
    FirstKeyedAt(rest);
    var idx := end + FirstKeyed(rest);
    assert NoIds(s, start, idx) by {
      forall i | start <= i < idx ensures s[i].id.None? {
        assert if i < end then s[i] == window[i - start] else s[i] == rest[i - end];
      }
    }
    assert idx < |s| ==> s[idx] == rest[idx - end];
    var page := Cut(s, start, end).0;
    if idx < |s| {
      assert NoIds(page, |page|, |page|) && page[|page| - 1].id == s[idx].id;
    }
  }

  /** What a page is, for any library, ids or no ids: the items past the cursor in the sorted order, as
      many as the limit allows and there are.  There is a next cursor if and only if items remain and
      some item past the old cursor has an id; it is the last id on the page.  Only when none of the
      items has an id does the first one behind them that has one take the last slot. */
  lemma PageIsARun<T>(items: seq<Item<T>>, cursor: Option<nat>, limit: nat) returns (start: nat)
    requires limit >= 1
    ensures var s := Sort(items);
            var (page, next) := SlicePage(items, cursor, limit);
            && start <= |s|
            && (forall i | 0 <= i < start :: cursor.Some? && Key(s[i]) <= cursor.value)
            && (forall i | start <= i < |s| :: cursor.None? || Key(s[i]) > cursor.value)
            && |page| == (if start + limit < |s| then limit else |s| - start)
            && IsRun(s, start, page, next)
  {
    var s := Sort(items);
    start := Start(s, cursor);
    SortSorts(items);
    StartSplits(s, cursor);
    var end := End(s, start, limit);
    hide Sort, Start, IsRun, LastId;
    if end == |s| {
      WholeRun(s, start);
    } else if LastId(s[start..end]).Some? {
      KeyedRun(s, start, end);
    } else {
      IdlessRun(s, start, end);
    }
  }

  lemma WholeRun<T>(s: seq<Item<T>>, start: nat)
    requires start <= |s|
    ensures IsRun(s, start, s[start..|s|], None)
  {
  }

  // ---- walks ----

  /** Page after page, each from its own snapshot; only the last one may lack a next cursor. */
  predicate Walking<T(==)>(libraries: seq<seq<Item<T>>>, limits: seq<nat>, cursor: Option<nat>)
    requires |limits| == |libraries|
    decreases |libraries|
  {
    |libraries| <= 1
    || (var next := SlicePage(libraries[0], cursor, limits[0]).1;
        next.Some? && Walking(libraries[1..], limits[1..], next))
  }

  /** The cursor after the last page. */
  function LastCursor<T>(libraries: seq<seq<Item<T>>>, limits: seq<nat>, cursor: Option<nat>): Option<nat>
    requires |limits| == |libraries|
    decreases |libraries|
  {
    if libraries == [] then cursor
    else LastCursor(libraries[1..], limits[1..], SlicePage(libraries[0], cursor, limits[0]).1)
  }

  /** All pages of a walk, one after the other. */
  function Returned<T>(libraries: seq<seq<Item<T>>>, limits: seq<nat>, cursor: Option<nat>): seq<Item<T>>
    requires |limits| == |libraries|
    decreases |libraries|
  {
    if libraries == [] then []
    else
      var (page, next) := SlicePage(libraries[0], cursor, limits[0]);
      page + Returned(libraries[1..], limits[1..], next)
  }

  ghost predicate Pageable<T>(libraries: seq<seq<Item<T>>>, limits: seq<nat>) {
    && |limits| == |libraries|
    && (forall i | 0 <= i < |libraries| :: limits[i] >= 1 && DistinctIds(libraries[i]))
  }

  predicate InAll<T>(libraries: seq<seq<Item<T>>>, x: nat) {
    forall i | 0 <= i < |libraries| :: Count(libraries[i], x) == 1
  }

  lemma {:induction false} WalkFrom<T>(libraries: seq<seq<Item<T>>>, limits: seq<nat>, cursor: Option<nat>, x: nat)
    requires Pageable(libraries, limits) && Walking(libraries, limits, cursor) && libraries != []
    ensures var n := Count(Returned(libraries, limits, cursor), x);
            && n <= 1
            && (cursor.Some? && x <= cursor.value ==> n == 0)
            && (LastCursor(libraries, limits, cursor).None? && (cursor.None? || cursor.value < x) && InAll(libraries, x)
                ==> n == 1)
    decreases |libraries|
  {
    var (page, next) := SlicePage(libraries[0], cursor, limits[0]);
    var later, rest := libraries[1..], limits[1..];
    PageCovers(libraries[0], cursor, limits[0], x);
    CountConcat(page, Returned(later, rest, next), x);
    assert Count(libraries[0], x) <= 1 && (InAll(libraries, x) ==> Count(libraries[0], x) == 1);
    if later != [] {
      WalkFrom(later, rest, next, x);
      if InAll(libraries, x) {
        assert InAll(later, x);
      }
    } else {
      assert LastCursor(later, rest, next) == next && Count(Returned(later, rest, next), x) == 0;
    }
  }

  /** A walk is stable across refreshes, whatever each page's snapshot and limit: no id is ever
      returned twice, and an id present in every snapshot of a completed walk is returned once. */
  lemma WalkReturnsEachIdOnce<T>(libraries: seq<seq<Item<T>>>, limits: seq<nat>, x: nat)
    requires Pageable(libraries, limits) && Walking(libraries, limits, None) && libraries != []
    ensures Count(Returned(libraries, limits, None), x) <= 1
    ensures LastCursor(libraries, limits, None).None? && InAll(libraries, x) ==>
              Count(Returned(libraries, limits, None), x) == 1
  {
    WalkFrom(libraries, limits, None, x);
  }

  /** Cursors strictly increase along a walk. */
  lemma CursorsIncrease<T>(items: seq<Item<T>>, cursor: Option<nat>, limit: nat)
    requires limit >= 1 && DistinctIds(items)
    ensures var next := SlicePage(items, cursor, limit).1;
            cursor.Some? && next.Some? ==> cursor.value < next.value
  {
    PageCovers(items, cursor, limit, 0);
  }

  // ---- a library that stays as it is ----

  /** The ids still ahead of the cursor. */
  function Ahead<T>(items: seq<Item<T>>, cursor: Option<nat>): set<nat> {
    set i | 0 <= i < |items| && items[i].id.Some? && (cursor.None? || cursor.value < items[i].id.value) ::
      items[i].id.value
  }

  lemma {:induction false} CountCarried<T>(s: seq<Item<T>>, x: nat) returns (i: nat)
    requires Count(s, x) >= 1
    ensures i < |s| && s[i].id == Some(x)
  {
    if s[0].id == Some(x) {
      i := 0;
    } else {
      i := CountCarried(s[1..], x);
      i := i + 1;
    }
  }

  lemma AheadShrinks<T>(items: seq<Item<T>>, cursor: Option<nat>, limit: nat)
    requires limit >= 1 && DistinctIds(items) && SlicePage(items, cursor, limit).1.Some?
    ensures Ahead(items, SlicePage(items, cursor, limit).1) < Ahead(items, cursor)
  {
    var next := SlicePage(items, cursor, limit).1;
    PageCovers(items, cursor, limit, next.value);
    var i := CountCarried(items, next.value);
    assert next.value in Ahead(items, cursor) && next.value !in Ahead(items, next);
  }

  /** The walk over a fixed library: it ends because every page leaves fewer ids ahead. */
  function WalkFixed<T>(items: seq<Item<T>>, limit: nat, cursor: Option<nat>): seq<Item<T>>
    requires limit >= 1 && DistinctIds(items)
    decreases Ahead(items, cursor)
  {
    var (page, next) := SlicePage(items, cursor, limit);
    if next.None? then page
    else
      AheadShrinks(items, cursor, limit);
      page + WalkFixed(items, limit, next)
  }

  lemma CountsTwice<T>(s: seq<Item<T>>, i: nat)
    requires 0 < i < |s|
    ensures s[i].id.Some? && s[i].id == s[i - 1].id ==> Count(s, s[i].id.value) >= 2
  {
    if s[i].id.Some? && s[i].id == s[i - 1].id {
      var x := s[i].id.value;
      CountSplit(s, i, i + 1, x);
      CountAt(s[..i], i - 1, x);
      CountAt(s[i..i + 1], 0, x);
    }
  }

  /** After a page that ends on an id, the next page starts right behind it. */
  lemma StartAfter<T>(s: seq<Item<T>>, end: nat)
    requires Sorted(s) && DistinctIds(s) && 0 < end < |s| && forall i | 0 <= i < |s| :: s[i].id.Some?
    ensures Start(s, s[end - 1].id) == end
  {
    hide Start, Count;
    StartSplits(s, s[end - 1].id);
    CountsTwice(s, end);
    assert Key(s[end - 1]) <= Key(s[end]);
  }

  lemma KeyedStep<T>(s: seq<Item<T>>, start: nat, limit: nat)
    requires Sorted(s) && DistinctIds(s) && start <= |s| && limit >= 1 && forall i | 0 <= i < |s| :: s[i].id.Some?
    ensures var end := End(s, start, limit);
            var (page, next) := Cut(s, start, end);
            page == s[start..end] && next == if end < |s| then s[end - 1].id else None
  {
    var end := End(s, start, limit);
    if end < |s| {
      assert s[start..end][end - start - 1] == s[end - 1];
    }
  }

  /** Sorting keeps ids distinct and present. */
  lemma SortKeepsIds<T>(items: seq<Item<T>>)
    requires DistinctIds(items) && forall i | 0 <= i < |items| :: items[i].id.Some?
    ensures Sorted(Sort(items)) && DistinctIds(Sort(items))
    ensures forall i | 0 <= i < |Sort(items)| :: Sort(items)[i].id.Some?
  {
    var s := Sort(items);
    SortSorts(items);
    forall y: nat ensures Count(s, y) <= 1 {
      CountSort(items, y);
      assert Count(items, y) <= 1;
    }
    forall i | 0 <= i < |s| ensures s[i].id.Some? {
      assert s[i] in multiset(s);
    }
  }

  lemma FixedPage<T>(items: seq<Item<T>>, limit: nat, cursor: Option<nat>)
    requires limit >= 1 && DistinctIds(items) && forall i | 0 <= i < |items| :: items[i].id.Some?
    ensures var s := Sort(items);
            var start := Start(s, cursor);
            var end := End(s, start, limit);
            && SlicePage(items, cursor, limit) == (s[start..end], if end < |s| then s[end - 1].id else None)
            && (end < |s| ==> start < end && s[end - 1].id.Some? && Start(s, s[end - 1].id) == end)
  {
    SortKeepsIds(items);
    var s := Sort(items);
    var start := Start(s, cursor);
    var end := End(s, start, limit);
    KeyedStep(s, start, limit);
    hide Sort, Count, Sorted, Start;
    if end < |s| {
      StartAfter(s, end);
    }
  }

  lemma {:induction false} FixedFrom<T>(items: seq<Item<T>>, limit: nat, cursor: Option<nat>)
    requires limit >= 1 && DistinctIds(items) && forall i | 0 <= i < |items| :: items[i].id.Some?
    ensures WalkFixed(items, limit, cursor) == Sort(items)[Start(Sort(items), cursor)..]
    decreases Ahead(items, cursor)
  {
    hide Count, Sort, Start, SlicePage, Ahead;
    FixedPage(items, limit, cursor);
    var s := Sort(items);
    var start := Start(s, cursor);
    var end := End(s, start, limit);
    if end < |s| {
      AheadShrinks(items, cursor, limit);
      FixedFrom(items, limit, s[end - 1].id);
      assert s[start..] == s[start..end] + s[end..];
    } else {
      assert s[start..end] == s[start..];
    }
  }

  /** On a fixed library in which every item has an id, the pages concatenate to the sorted list. */
  lemma FixedWalkIsSorted<T>(items: seq<Item<T>>, limit: nat)
    requires limit >= 1 && DistinctIds(items) && forall i | 0 <= i < |items| :: items[i].id.Some?
    ensures WalkFixed(items, limit, None) == Sort(items)
  {
    FixedFrom(items, limit, None);
  }
}
