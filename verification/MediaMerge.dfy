/** Incremental media-library merging (crates/handshaker-core/src/media_merge.rs).

    The photo, video and audio families differ only in which fields an event can overlay, so one
    model serves all three: an entry is its media id, its overlayable fields (absent fields are not
    in the map) and the fields only a snapshot has. */
module MediaMerge {
  import opened Wrappers

  datatype Kind = Photo | Video | Audio

  /** The fields an event entry can carry besides its media id. */
  datatype Field =
    | AlbumId | Path | Size | CreatedAt | ModifiedAt | Width | Height | Orientation
    | MimeType | Title | AlbumName | Duration | Artist

  datatype Value = Number(n: nat) | Text(text: string) | Real(r: real)

  type Fields = map<Field, Value>

  /** One library entry.  `own` stands for the snapshot-only fields (thumbnail, GPS, starred, ...). */
  datatype Entry<S> = Entry(id: Option<nat>, fields: Fields, own: S)

  /** One event entry (`MediaItem`). */
  datatype MediaItem = MediaItem(id: Option<nat>, fields: Fields)

  datatype Change = Change(kind: Kind, added: seq<MediaItem>, updated: seq<MediaItem>, deleted: seq<MediaItem>)

  datatype MergeError = KindMismatch(library: Kind, change: Kind)

  /** The fields each family overlays and fills in. */
  function FieldsOf(kind: Kind): set<Field> {
    match kind
    case Photo => {AlbumId, Path, Size, CreatedAt, ModifiedAt, Width, Height, Orientation, MimeType, Title, AlbumName}
    case Video => {AlbumId, Path, Size, CreatedAt, ModifiedAt, Width, Height, Orientation, MimeType, Duration}
    case Audio => {AlbumId, Path, Size, CreatedAt, ModifiedAt, MimeType, Title, Duration, Artist}
  }

  function Carried(kind: Kind, item: MediaItem): Fields {
    map f | f in item.fields && f in FieldsOf(kind) :: item.fields[f]
  }

  function PathOf(fields: Fields): Option<Value> {
    if Path in fields then Some(fields[Path]) else None
  }

  datatype MediaKey = ById(id: nat) | ByPath(path: Value)

  function ItemKey(item: MediaItem): Option<MediaKey> {
    if item.id.Some? then Some(ById(item.id.value))
    else if PathOf(item.fields).Some? then Some(ByPath(PathOf(item.fields).value))
    else None
  }

  predicate Matches<S>(e: Entry<S>, key: MediaKey) {
    match key
    case ById(id) => e.id == Some(id)
    case ByPath(path) => PathOf(e.fields) == Some(path)
  }

  predicate MatchesItem<S>(e: Entry<S>, item: MediaItem) {
    ItemKey(item).Some? && Matches(e, ItemKey(item).value)
  }

  /** Fields the item carries win, all others stay. */
  function Overlay<S>(kind: Kind, e: Entry<S>, item: MediaItem): Entry<S> {
    e.(id := if item.id.Some? then item.id else e.id, fields := e.fields + Carried(kind, item))
  }

  function FromItem<S>(kind: Kind, item: MediaItem, empty: S): Entry<S> {
    Entry(item.id, Carried(kind, item), empty)
  }

  /** Index of the first match, or the length. */
  function Find<S>(es: seq<Entry<S>>, item: MediaItem): (i: nat)
    ensures i <= |es|
    ensures i < |es| ==> MatchesItem(es[i], item)
    ensures forall j | 0 <= j < i :: !MatchesItem(es[j], item)
  {
    if es == [] || MatchesItem(es[0], item) then 0
    else
      var rest := es[1..];
      var k := Find(rest, item);
      assert forall j | 0 < j < k + 1 :: es[j] == rest[j - 1];
      1 + k
  }

  function Upsert<S>(kind: Kind, es: seq<Entry<S>>, item: MediaItem, empty: S): seq<Entry<S>> {
    var i := Find(es, item);
    if i < |es| then es[i := Overlay(kind, es[i], item)] else es + [FromItem(kind, item, empty)]
  }

  function UpsertAll<S>(kind: Kind, es: seq<Entry<S>>, items: seq<MediaItem>, empty: S): seq<Entry<S>>
    decreases |items|
  {
    if items == [] then es else UpsertAll(kind, Upsert(kind, es, items[0], empty), items[1..], empty)
  }

  function Remove<S>(es: seq<Entry<S>>, item: MediaItem): seq<Entry<S>> {
    if es == [] then []
    else (if MatchesItem(es[0], item) then [] else [es[0]]) + Remove(es[1..], item)
  }

  function RemoveAll<S>(es: seq<Entry<S>>, items: seq<MediaItem>): seq<Entry<S>>
    decreases |items|
  {
    if items == [] then es else RemoveAll(Remove(es, items[0]), items[1..])
  }

  function Apply<S>(es: seq<Entry<S>>, c: Change, empty: S): seq<Entry<S>> {
    RemoveAll(UpsertAll(c.kind, UpsertAll(c.kind, es, c.added, empty), c.updated, empty), c.deleted)
  }

  /** A library object with its entries, updated in place. */
  class Library<S> {
    const kind: Kind
    const empty: S
    var entries: seq<Entry<S>>

    constructor (kind: Kind, empty: S, entries: seq<Entry<S>>)
      ensures this.kind == kind && this.empty == empty && this.entries == entries
    {
      this.kind, this.empty, this.entries := kind, empty, entries;
    }

    method UpsertItem(item: MediaItem)
      modifies this
      ensures entries == Upsert(kind, old(entries), item, empty)
    {
      if ItemKey(item).Some? {
        var i := 0;
        while i < |entries|
          invariant i <= |entries| && entries == old(entries)
          invariant Find(entries, item) == i + Find(entries[i..], item)
        {
          if Matches(entries[i], ItemKey(item).value) {
            entries := entries[i := Overlay(kind, entries[i], item)];
            return;
          }
          assert entries[i..][1..] == entries[i + 1..];
          i := i + 1;
        }
      }
      entries := entries + [FromItem(kind, item, empty)];
    }

    method RemoveItem(item: MediaItem)
      modifies this
      ensures entries == Remove(old(entries), item)
    {
      if ItemKey(item).None? {
        RemoveNothing(entries, item);
        return;
      }
      var kept := [];
      var i := 0;
      while i < |entries|
        invariant i <= |entries| && entries == old(entries)
        invariant Remove(entries, item) == kept + Remove(entries[i..], item)
      {
        assert entries[i..][1..] == entries[i + 1..];
        if !Matches(entries[i], ItemKey(item).value) {
          kept := kept + [entries[i]];
        }
        i := i + 1;
      }
      entries := kept;
    }

    /** A change of another kind is an error and changes nothing. */
    method ApplyChange(c: Change) returns (r: Result<(), MergeError>)
      modifies this
      ensures r == if c.kind == kind then Ok(()) else Err(KindMismatch(kind, c.kind))
      ensures entries == if r.Ok? then Apply(old(entries), c, empty) else old(entries)
    {
      if kind != c.kind {
        return Err(KindMismatch(kind, c.kind));
      }
      UpsertEach(c.added);
      UpsertEach(c.updated);
      ghost var upserted := entries;
      for k := 0 to |c.deleted|
        invariant RemoveAll(upserted, c.deleted) == RemoveAll(entries, c.deleted[k..])
      {
        assert c.deleted[k..][1..] == c.deleted[k + 1..];
        RemoveItem(c.deleted[k]);
      }
      r := Ok(());
    }

    method UpsertEach(items: seq<MediaItem>)
      modifies this
      ensures entries == UpsertAll(kind, old(entries), items, empty)
    {
      for k := 0 to |items|
        invariant UpsertAll(kind, old(entries), items, empty) == UpsertAll(kind, entries, items[k..], empty)
      {
        assert items[k..][1..] == items[k + 1..];
        UpsertItem(items[k]);
      }
    }
  }

  lemma {:induction false} RemoveNothing<S>(es: seq<Entry<S>>, item: MediaItem)
    requires ItemKey(item).None?
    ensures Remove(es, item) == es
  {
    if es != [] {
      RemoveNothing(es[1..], item);
    }
  }

  // ---- any change: ids stay distinct, deleted keys are gone ----

  ghost predicate DistinctIds<S>(es: seq<Entry<S>>) {
    forall i, j | 0 <= i < j < |es| && es[i].id.Some? :: es[i].id != es[j].id
  }

  lemma UpsertKeepsDistinct<S>(kind: Kind, es: seq<Entry<S>>, item: MediaItem, empty: S)
    requires DistinctIds(es)
    ensures DistinctIds(Upsert(kind, es, item, empty))
  {
  }

  lemma {:induction false} UpsertAllKeepsDistinct<S>(kind: Kind, es: seq<Entry<S>>, items: seq<MediaItem>, empty: S)
    requires DistinctIds(es)
    ensures DistinctIds(UpsertAll(kind, es, items, empty))
    decreases |items|
  {
    if items != [] {
      UpsertKeepsDistinct(kind, es, items[0], empty);
      UpsertAllKeepsDistinct(kind, Upsert(kind, es, items[0], empty), items[1..], empty);
    }
  }

  predicate Deleted<S>(e: Entry<S>, items: seq<MediaItem>) {
    exists i :: 0 <= i < |items| && MatchesItem(e, items[i])
  }

  /** The entries no deleted item matches, in their order. */
  function Survivors<S>(es: seq<Entry<S>>, items: seq<MediaItem>): seq<Entry<S>> {
    if es == [] then []
    else (if Deleted(es[0], items) then [] else [es[0]]) + Survivors(es[1..], items)
  }

  lemma {:induction false} RemoveThenSurvive<S>(es: seq<Entry<S>>, items: seq<MediaItem>)
    requires items != []
    ensures Survivors(Remove(es, items[0]), items[1..]) == Survivors(es, items)
  {
    if es != [] {
      RemoveThenSurvive(es[1..], items);
      var e, rest := es[0], items[1..];
      assert Deleted(e, items) <==> MatchesItem(e, items[0]) || Deleted(e, rest) by {
        if Deleted(e, rest) {
          var i :| 0 <= i < |rest| && MatchesItem(e, rest[i]);
          assert items[i + 1] == rest[i];
        }
        if Deleted(e, items) && !MatchesItem(e, items[0]) {
          var i :| 0 <= i < |items| && MatchesItem(e, items[i]);
          assert rest[i - 1] == items[i];
        }
      }
      var tail := Remove(es[1..], items[0]);
      if MatchesItem(e, items[0]) {
        assert Remove(es, items[0]) == tail;
      } else {
        assert Remove(es, items[0]) == [e] + tail;
      }
    }
  }

  lemma {:induction false} RemoveAllIsFilter<S>(es: seq<Entry<S>>, items: seq<MediaItem>)
    ensures RemoveAll(es, items) == Survivors(es, items)
    decreases |items|
  {
    if items == [] {
      NobodyDeleted(es);
    } else {
      RemoveAllIsFilter(Remove(es, items[0]), items[1..]);
      RemoveThenSurvive(es, items);
    }
  }

  lemma {:induction false} NobodyDeleted<S>(es: seq<Entry<S>>)
    ensures Survivors(es, []) == es
  {
    if es != [] {
      NobodyDeleted(es[1..]);
    }
  }

  lemma {:induction false} SurvivorsOnly<S>(es: seq<Entry<S>>, items: seq<MediaItem>)
    ensures forall k | 0 <= k < |Survivors(es, items)| ::
              Survivors(es, items)[k] in es && !Deleted(Survivors(es, items)[k], items)
    ensures DistinctIds(es) ==> DistinctIds(Survivors(es, items))
  {
    if es != [] {
      SurvivorsOnly(es[1..], items);
    }
  }

  /** Any change, keyed by id or path or not at all, keeps present ids distinct and leaves no entry
      that matches the key of a deleted item. */
  lemma ApplyKeepsDistinct<S>(es: seq<Entry<S>>, c: Change, empty: S)
    requires DistinctIds(es)
    ensures DistinctIds(Apply(es, c, empty))
    ensures forall e | e in Apply(es, c, empty) :: !Deleted(e, c.deleted)
  {
    UpsertAllKeepsDistinct(c.kind, es, c.added, empty);
    var added := UpsertAll(c.kind, es, c.added, empty);
    UpsertAllKeepsDistinct(c.kind, added, c.updated, empty);
    var updated := UpsertAll(c.kind, added, c.updated, empty);
    RemoveAllIsFilter(updated, c.deleted);
    SurvivorsOnly(updated, c.deleted);
  }

  /** `u` extends `es`: every old entry keeps its place, id and snapshot-only fields, and the fields
      its family cannot overlay; new entries follow with empty snapshot-only fields. */
  ghost predicate Extends<S>(kind: Kind, es: seq<Entry<S>>, u: seq<Entry<S>>, empty: S) {
    && |es| <= |u|
    && (forall i | 0 <= i < |es| ::
          u[i].own == es[i].own && u[i].id == es[i].id && KeepsForeign(kind, es[i].fields, u[i].fields))
    && (forall i | |es| <= i < |u| :: u[i].own == empty)
  }

  predicate KeepsForeign(kind: Kind, before: Fields, after: Fields) {
    forall f | f !in FieldsOf(kind) :: (f in after <==> f in before) && (f in before ==> after[f] == before[f])
  }

  lemma UpsertExtends<S>(kind: Kind, es: seq<Entry<S>>, item: MediaItem, empty: S)
    ensures Extends(kind, es, Upsert(kind, es, item, empty), empty)
  {
    hide FieldsOf;
  }

  lemma ExtendsOn<S>(kind: Kind, a: seq<Entry<S>>, b: seq<Entry<S>>, c: seq<Entry<S>>, empty: S)
    requires Extends(kind, a, b, empty) && Extends(kind, b, c, empty)
    ensures Extends(kind, a, c, empty)
  {
    hide FieldsOf;
  }

  lemma {:induction false} UpsertAllExtends<S>(kind: Kind, es: seq<Entry<S>>, items: seq<MediaItem>, empty: S)
    ensures Extends(kind, es, UpsertAll(kind, es, items, empty), empty)
    decreases |items|
  {
    if items == [] {
      assert forall i | 0 <= i < |es| :: KeepsForeign(kind, es[i].fields, es[i].fields);
    } else {
      var es1 := Upsert(kind, es, items[0], empty);
      UpsertExtends(kind, es, items[0], empty);
      UpsertAllExtends(kind, es1, items[1..], empty);
      hide Extends, Upsert;
      ExtendsOn(kind, es, es1, UpsertAll(kind, es1, items[1..], empty), empty);
    }
  }

  /** Survivor order and snapshot-only fields, for any change: the result is an order-keeping filter
      of a list that extends the old one in place. */
  lemma ApplyKeepsOrder<S>(es: seq<Entry<S>>, c: Change, empty: S) returns (u: seq<Entry<S>>)
    ensures Extends(c.kind, es, u, empty)
    ensures Apply(es, c, empty) == Survivors(u, c.deleted)
  {
    var added := UpsertAll(c.kind, es, c.added, empty);
    u := UpsertAll(c.kind, added, c.updated, empty);
    UpsertAllExtends(c.kind, es, c.added, empty);
    UpsertAllExtends(c.kind, added, c.updated, empty);
    RemoveAllIsFilter(u, c.deleted);
  }

  // ---- changes that carry ids: a keyed map ----

  ghost predicate AllKeyed(items: seq<MediaItem>) {
    forall i | 0 <= i < |items| :: items[i].id.Some?
  }

  /** The library as a map from media id to entry. */
  function Lookup<S>(es: seq<Entry<S>>, x: nat): Option<Entry<S>> {
    if es == [] then None else if es[0].id == Some(x) then Some(es[0]) else Lookup(es[1..], x)
  }

  /** Upserting on the map: only the item's own id is touched. */
  function UpsertAt<S>(kind: Kind, o: Option<Entry<S>>, item: MediaItem, x: nat, empty: S): Option<Entry<S>> {
    if item.id != Some(x) then o
    else Some(if o.Some? then Overlay(kind, o.value, item) else FromItem(kind, item, empty))
  }

  function UpsertAllAt<S>(kind: Kind, o: Option<Entry<S>>, items: seq<MediaItem>, x: nat, empty: S): Option<Entry<S>>
    decreases |items|
  {
    if items == [] then o else UpsertAllAt(kind, UpsertAt(kind, o, items[0], x, empty), items[1..], x, empty)
  }

  lemma {:induction false} LookupFind<S>(es: seq<Entry<S>>, item: MediaItem, x: nat)
    requires item.id == Some(x)
    ensures Lookup(es, x) == if Find(es, item) < |es| then Some(es[Find(es, item)]) else None
  {
    if es != [] && es[0].id != Some(x) {
      LookupFind(es[1..], item, x);
    }
  }

  lemma {:induction false} LookupUpdate<S>(es: seq<Entry<S>>, i: nat, e: Entry<S>, x: nat)
    requires i < |es| && e.id == es[i].id
    requires es[i].id == Some(x) ==> forall j | 0 <= j < i :: es[j].id != Some(x)
    ensures Lookup(es[i := e], x) == if e.id == Some(x) then Some(e) else Lookup(es, x)
  {
    var u := es[i := e];
    if i == 0 {
      assert u[1..] == es[1..];
    } else {
      assert u[1..] == es[1..][i - 1 := e];
      LookupUpdate(es[1..], i - 1, e, x);
    }
  }

  lemma {:induction false} LookupAppend<S>(es: seq<Entry<S>>, e: Entry<S>, x: nat)
    ensures Lookup(es + [e], x) == if Lookup(es, x).Some? then Lookup(es, x) else if e.id == Some(x) then Some(e) else None
  {
    if es == [] {
      assert es + [e] == [e];
    } else {
      assert (es + [e])[1..] == es[1..] + [e];
      LookupAppend(es[1..], e, x);
    }
  }

  lemma UpsertRefinesMap<S>(kind: Kind, es: seq<Entry<S>>, item: MediaItem, x: nat, empty: S)
    requires item.id.Some?
    ensures Lookup(Upsert(kind, es, item, empty), x) == UpsertAt(kind, Lookup(es, x), item, x, empty)
  {
    var i := Find(es, item);
    LookupFind(es, item, item.id.value);
    if i < |es| {
      LookupUpdate(es, i, Overlay(kind, es[i], item), x);
    } else {
      LookupAppend(es, FromItem(kind, item, empty), x);
    }
  }

  lemma {:induction false} UpsertAllRefinesMap<S>(kind: Kind, es: seq<Entry<S>>, items: seq<MediaItem>, x: nat, empty: S)
    requires AllKeyed(items)
    ensures Lookup(UpsertAll(kind, es, items, empty), x) == UpsertAllAt(kind, Lookup(es, x), items, x, empty)
    decreases |items|
  {
    if items != [] {
      UpsertRefinesMap(kind, es, items[0], x, empty);
      UpsertAllRefinesMap(kind, Upsert(kind, es, items[0], empty), items[1..], x, empty);
    }
  }

  predicate Names(items: seq<MediaItem>, x: nat) {
    exists i :: 0 <= i < |items| && items[i].id == Some(x)
  }

  lemma {:induction false} SurvivorsRefineMap<S>(es: seq<Entry<S>>, items: seq<MediaItem>, x: nat)
    requires AllKeyed(items)
    ensures Lookup(Survivors(es, items), x) == if Names(items, x) then None else Lookup(es, x)
  {
    if es != [] {
      SurvivorsRefineMap(es[1..], items, x);
      var e, tail := es[0], Survivors(es[1..], items);
      assert Survivors(es, items) == if Deleted(e, items) then tail else [e] + tail;
      if e.id == Some(x) {
        if Names(items, x) {
          var i :| 0 <= i < |items| && items[i].id == Some(x);
          assert MatchesItem(e, items[i]);
        } else {
          assert !Deleted(e, items);
        }
      }
    }
  }

  /** The merge refines a keyed map: when every item of the change carries an id, the entry under
      each id is the old one overlaid by the added, then by the updated items with that id, or made
      from the first of them; and it is gone if a deleted item names it. */
  lemma ApplyRefinesMap<S>(es: seq<Entry<S>>, c: Change, empty: S, x: nat)
    requires AllKeyed(c.added) && AllKeyed(c.updated) && AllKeyed(c.deleted)
    ensures Lookup(Apply(es, c, empty), x) ==
              if Names(c.deleted, x) then None
              else UpsertAllAt(c.kind, UpsertAllAt(c.kind, Lookup(es, x), c.added, x, empty), c.updated, x, empty)
  {
    var added := UpsertAll(c.kind, es, c.added, empty);
    UpsertAllRefinesMap(c.kind, es, c.added, x, empty);
    UpsertAllRefinesMap(c.kind, added, c.updated, x, empty);
    var updated := UpsertAll(c.kind, added, c.updated, empty);
    RemoveAllIsFilter(updated, c.deleted);
    SurvivorsRefineMap(updated, c.deleted, x);
  }

  /** The value the last item with id `x` carries for a field of the family. */
  function LastCarried(kind: Kind, items: seq<MediaItem>, x: nat, f: Field): Option<Value> {
    if items == [] then None
    else
      var item := items[|items| - 1];
      if item.id == Some(x) && f in Carried(kind, item) then Some(item.fields[f])
      else LastCarried(kind, items[..|items| - 1], x, f)
  }

  function FieldOf<S>(o: Option<Entry<S>>, f: Field): Option<Value> {
    if o.Some? && f in o.value.fields then Some(o.value.fields[f]) else None
  }

  lemma {:induction false} UpsertAllAtLast<S>(kind: Kind, o: Option<Entry<S>>, items: seq<MediaItem>, x: nat, empty: S)
    requires items != []
    ensures UpsertAllAt(kind, o, items, x, empty) ==
              UpsertAt(kind, UpsertAllAt(kind, o, items[..|items| - 1], x, empty), items[|items| - 1], x, empty)
    decreases |items|
  {
    if |items| > 1 {
      UpsertAllAtLast(kind, UpsertAt(kind, o, items[0], x, empty), items[1..], x, empty);
      assert items[1..][..|items| - 2] == items[..|items| - 1][1..];
    }
  }

  /** Field by field: the last item that carries the field wins, else the old value stays. */
  lemma {:induction false} LastFieldWins<S>(
      kind: Kind, o: Option<Entry<S>>, items: seq<MediaItem>, x: nat, empty: S, f: Field)
    ensures FieldOf(UpsertAllAt(kind, o, items, x, empty), f) ==
              if LastCarried(kind, items, x, f).Some? then LastCarried(kind, items, x, f) else FieldOf(o, f)
    decreases |items|
  {
    if items != [] {
      hide FieldsOf;
      UpsertAllAtLast(kind, o, items, x, empty);
      LastFieldWins(kind, o, items[..|items| - 1], x, empty, f);
    }
  }

  /** Which families merge a field, the tables read the other way. */
  function FamiliesOf(f: Field): set<Kind> {
    match f
    case Width => {Photo, Video}
    case Height => {Photo, Video}
    case Orientation => {Photo, Video}
    case Title => {Photo, Audio}
    case AlbumName => {Photo}
    case Duration => {Video, Audio}
    case Artist => {Audio}
    case _ => {Photo, Video, Audio}
  }

  /** What one upsert does, for items keyed in any way: the first match, or a new last entry, has every
      field that the item carries and its family merges, and its other fields, its id and its
      snapshot-only fields from before, or nothing, nothing and the empty ones; all other entries stay. */
  lemma UpsertSetsFields<S>(kind: Kind, es: seq<Entry<S>>, item: MediaItem, empty: S, f: Field)
    ensures var i, u := Find(es, item), Upsert(kind, es, item, empty);
            var was := if i < |es| then Some(es[i]) else None;
            && |u| == (if was.Some? then |es| else |es| + 1)
            && (forall j | 0 <= j < |es| && j != i :: u[j] == es[j])
            && FieldOf(Some(u[i]), f) ==
                 (if f in item.fields && kind in FamiliesOf(f) then Some(item.fields[f]) else FieldOf(was, f))
            && u[i].id == (if item.id.Some? then item.id else if was.Some? then was.value.id else None)
            && u[i].own == (if was.Some? then was.value.own else empty)
  {
    MergesFamily(kind, item, f);
    hide FieldsOf, FamiliesOf, Find;
  }

  lemma MergesFamily(kind: Kind, item: MediaItem, f: Field)
    ensures f in Carried(kind, item) <==> f in item.fields && kind in FamiliesOf(f)
    ensures f in Carried(kind, item) ==> Carried(kind, item)[f] == item.fields[f]
  {
  }

  // ---- twice is once ----

  /** No item is keyed by its path: it carries an id, or neither id nor path. */
  ghost predicate NoPathKeys(items: seq<MediaItem>) {
    forall i | 0 <= i < |items| :: items[i].id.Some? || PathOf(items[i].fields).None?
  }

  lemma {:induction false} UpsertAllConcat<S>(kind: Kind, es: seq<Entry<S>>, a: seq<MediaItem>, b: seq<MediaItem>, empty: S)
    ensures UpsertAll(kind, es, a + b, empty) == UpsertAll(kind, UpsertAll(kind, es, a, empty), b, empty)
    decreases |a|
  {
    if a == [] {
      assert a + b == b;
    } else {
      assert (a + b)[1..] == a[1..] + b;
      UpsertAllConcat(kind, Upsert(kind, es, a[0], empty), a[1..], b, empty);
    }
  }

  /** The items whose id no deleted item names. */
  function Kept(items: seq<MediaItem>, deleted: seq<MediaItem>): (r: seq<MediaItem>)
    requires AllKeyed(items)
    ensures AllKeyed(r)
    ensures forall i | 0 <= i < |r| :: !Names(deleted, r[i].id.value)
  {
    if items == [] then []
    else (if Names(deleted, items[0].id.value) then [] else [items[0]]) + Kept(items[1..], deleted)
  }

  lemma {:induction false} SurvivorsStay<S>(es: seq<Entry<S>>, deleted: seq<MediaItem>)
    requires forall k | 0 <= k < |es| :: !Deleted(es[k], deleted)
    ensures Survivors(es, deleted) == es
  {
    if es != [] {
      SurvivorsStay(es[1..], deleted);
    }
  }

  lemma UpsertCons<S>(kind: Kind, es: seq<Entry<S>>, item: MediaItem, empty: S)
    requires es != []
    ensures Upsert(kind, es, item, empty) ==
              if MatchesItem(es[0], item) then [Overlay(kind, es[0], item)] + es[1..]
              else [es[0]] + Upsert(kind, es[1..], item, empty)
  {
    if !MatchesItem(es[0], item) {
      assert Find(es, item) == 1 + Find(es[1..], item);
    }
  }

  lemma DeletedIsNamed<S>(e: Entry<S>, deleted: seq<MediaItem>)
    requires NoPathKeys(deleted)
    ensures Deleted(e, deleted) <==> e.id.Some? && Names(deleted, e.id.value)
  {
    if Deleted(e, deleted) {
      var i :| 0 <= i < |deleted| && MatchesItem(e, deleted[i]);
      assert deleted[i].id == e.id;
    }
    if e.id.Some? && Names(deleted, e.id.value) {
      var i :| 0 <= i < |deleted| && deleted[i].id == Some(e.id.value);
      assert MatchesItem(e, deleted[i]);
    }
  }

  /** Upserting commutes with deleting: deleting first and dropping the item if it is named. */
  lemma {:induction false} UpsertThenSurvive<S>(
      kind: Kind, es: seq<Entry<S>>, item: MediaItem, deleted: seq<MediaItem>, empty: S)
    requires item.id.Some? && NoPathKeys(deleted)
    ensures Survivors(Upsert(kind, es, item, empty), deleted) ==
              if Names(deleted, item.id.value) then Survivors(es, deleted)
              else Upsert(kind, Survivors(es, deleted), item, empty)
  {
    if es == [] {
      var e := FromItem(kind, item, empty);
      DeletedIsNamed(e, deleted);
      assert Upsert(kind, es, item, empty) == [e];
      assert [e][1..] == [];
    } else {
      UpsertThenSurvive(kind, es[1..], item, deleted, empty);
      UpsertCons(kind, es, item, empty);
      SurvivorsCons(es[0], es[1..], deleted);
      assert es == [es[0]] + es[1..];
      DeletedIsNamed(es[0], deleted);
      if MatchesItem(es[0], item) {
        DeletedIsNamed(Overlay(kind, es[0], item), deleted);
        SurvivorsCons(Overlay(kind, es[0], item), es[1..], deleted);
      } else {
        SurvivorsCons(es[0], Upsert(kind, es[1..], item, empty), deleted);
      }
      if !Deleted(es[0], deleted) {
        UpsertCons(kind, Survivors(es, deleted), item, empty);
      }
    }
  }

  lemma SurvivorsCons<S>(e: Entry<S>, es: seq<Entry<S>>, deleted: seq<MediaItem>)
    ensures Survivors([e] + es, deleted) ==
              if Deleted(e, deleted) then Survivors(es, deleted) else [e] + Survivors(es, deleted)
  {
    assert ([e] + es)[1..] == es;
  }

  lemma {:induction false} UpsertAllThenSurvive<S>(
      kind: Kind, es: seq<Entry<S>>, items: seq<MediaItem>, deleted: seq<MediaItem>, empty: S)
    requires AllKeyed(items) && NoPathKeys(deleted)
    ensures Survivors(UpsertAll(kind, es, items, empty), deleted) ==
              UpsertAll(kind, Survivors(es, deleted), Kept(items, deleted), empty)
    decreases |items|
  {
    if items != [] {
      var rest := Kept(items[1..], deleted);
      UpsertAllThenSurvive(kind, Upsert(kind, es, items[0], empty), items[1..], deleted, empty);
      UpsertThenSurvive(kind, es, items[0], deleted, empty);
      if Names(deleted, items[0].id.value) {
        assert Kept(items, deleted) == rest;
      } else {
        assert Kept(items, deleted) == [items[0]] + rest;
        assert ([items[0]] + rest)[1..] == rest;
      }
    }
  }

  /** Entry `i` is the one its id finds. */
  ghost predicate First<S>(es: seq<Entry<S>>, i: nat)
    requires i < |es|
  {
    es[i].id.Some? && forall j | 0 <= j < i :: es[j].id != es[i].id
  }

  lemma {:induction false} LookupFirst<S>(es: seq<Entry<S>>, i: nat)
    requires i < |es| && First(es, i)
    ensures Lookup(es, es[i].id.value) == Some(es[i])
  {
    if i > 0 {
      assert es[0].id != es[i].id;
      assert First(es[1..], i - 1) by {
        assert forall j | 0 <= j < i - 1 :: es[1..][j] == es[j + 1];
      }
      LookupFirst(es[1..], i - 1);
    }
  }

  lemma {:induction false} LookupIn<S>(es: seq<Entry<S>>, x: nat)
    requires Lookup(es, x).Some?
    ensures exists i :: 0 <= i < |es| && es[i].id == Some(x)
  {
    if es[0].id != Some(x) {
      LookupIn(es[1..], x);
      var i :| 0 <= i < |es[1..]| && es[1..][i].id == Some(x);
      assert es[i + 1].id == Some(x);
    }
  }

  ghost predicate HasAll<S>(es: seq<Entry<S>>, items: seq<MediaItem>) {
    forall k | 0 <= k < |items| :: exists i :: 0 <= i < |es| && es[i].id == items[k].id
  }

  /** Items that are all present move nothing, and leave every entry alone that no id finds: those
      without an id, and repetitions of one. */
  lemma {:induction false} UpsertAllInPlace<S>(kind: Kind, es: seq<Entry<S>>, items: seq<MediaItem>, empty: S)
    requires AllKeyed(items) && HasAll(es, items)
    ensures |UpsertAll(kind, es, items, empty)| == |es|
    ensures forall i | 0 <= i < |es| && !First(es, i) :: UpsertAll(kind, es, items, empty)[i] == es[i]
    decreases |items|
  {
    if items != [] {
      var i :| 0 <= i < |es| && es[i].id == items[0].id;
      assert MatchesItem(es[i], items[0]);
      var es1 := Upsert(kind, es, items[0], empty);
      assert forall j | 0 <= j < |es| :: es1[j].id == es[j].id;
      assert First(es, Find(es, items[0])) by {
        assert forall j | 0 <= j < Find(es, items[0]) :: !MatchesItem(es[j], items[0]);
      }
      assert forall j | 0 <= j < |es| :: First(es1, j) <==> First(es, j);
      assert HasAll(es1, items[1..]) by {
        forall k | 0 <= k < |items[1..]| ensures exists j :: 0 <= j < |es1| && es1[j].id == items[1..][k].id {
          var j :| 0 <= j < |es| && es[j].id == items[k + 1].id;
          assert es1[j].id == items[1..][k].id;
        }
      }
      UpsertAllInPlace(kind, es1, items[1..], empty);
    }
  }

  lemma {:induction false} NamedIsMade<S>(kind: Kind, o: Option<Entry<S>>, items: seq<MediaItem>, x: nat, empty: S)
    requires o.Some? || Names(items, x)
    ensures UpsertAllAt(kind, o, items, x, empty).Some?
    decreases |items|
  {
    if items != [] {
      if o.None? && items[0].id != Some(x) {
        var i :| 0 <= i < |items| && items[i].id == Some(x);
        assert items[1..][i - 1].id == Some(x);
      }
      NamedIsMade(kind, UpsertAt(kind, o, items[0], x, empty), items[1..], x, empty);
    }
  }

  lemma UpsertedHasAll<S>(kind: Kind, es: seq<Entry<S>>, items: seq<MediaItem>, empty: S)
    requires AllKeyed(items)
    ensures HasAll(UpsertAll(kind, es, items, empty), items)
  {
    var u := UpsertAll(kind, es, items, empty);
    forall k | 0 <= k < |items| ensures exists i :: 0 <= i < |u| && u[i].id == items[k].id {
      var x := items[k].id.value;
      UpsertAllRefinesMap(kind, es, items, x, empty);
      NamedIsMade(kind, Lookup(es, x), items, x, empty);
      LookupIn(u, x);
    }
  }

  lemma SameEntry<S>(kind: Kind, es: seq<Entry<S>>, items: seq<MediaItem>, empty: S, i: nat, f: Field)
    requires AllKeyed(items)
    requires i < |UpsertAll(kind, es, items, empty)| && First(UpsertAll(kind, es, items, empty), i)
    ensures var u := UpsertAll(kind, es, items, empty);
            var v := UpsertAll(kind, u, items, empty);
            |u| <= |v| && FieldOf(Some(v[i]), f) == FieldOf(Some(u[i]), f)
  {
    var u := UpsertAll(kind, es, items, empty);
    var v := UpsertAll(kind, u, items, empty);
    var x := u[i].id.value;
    UpsertAllExtends(kind, u, items, empty);
    LookupFirst(u, i);
    LookupFirst(v, i);
    UpsertAllRefinesMap(kind, es, items, x, empty);
    UpsertAllRefinesMap(kind, u, items, x, empty);
    LastFieldWins(kind, Lookup(es, x), items, x, empty, f);
    LastFieldWins(kind, Lookup(u, x), items, x, empty, f);
  }

  lemma UpsertTwice<S>(kind: Kind, es: seq<Entry<S>>, items: seq<MediaItem>, empty: S)
    requires AllKeyed(items)
    ensures UpsertAll(kind, UpsertAll(kind, es, items, empty), items, empty) == UpsertAll(kind, es, items, empty)
  {
    var u := UpsertAll(kind, es, items, empty);
    var v := UpsertAll(kind, u, items, empty);
    UpsertedHasAll(kind, es, items, empty);
    UpsertAllInPlace(kind, u, items, empty);
    UpsertAllExtends(kind, u, items, empty);
    forall i | 0 <= i < |u| ensures v[i] == u[i] {
      if First(u, i) {
        forall f ensures FieldOf(Some(v[i]), f) == FieldOf(Some(u[i]), f) {
          SameEntry(kind, es, items, empty, i, f);
        }
        assert v[i].fields == u[i].fields by {
          SameFields(v[i], u[i]);
        }
      }
    }
  }

  lemma SameFields<S>(a: Entry<S>, b: Entry<S>)
    requires forall f :: FieldOf(Some(a), f) == FieldOf(Some(b), f)
    ensures a.fields == b.fields
  {
    forall f ensures (f in a.fields <==> f in b.fields) && (f in a.fields ==> a.fields[f] == b.fields[f]) {
      assert FieldOf(Some(a), f) == FieldOf(Some(b), f);
    }
  }

  /** Applying a change whose upserted items all carry ids, and that deletes nothing by path, twice
      gives the same list as applying it once, on any library. */
  lemma ApplyTwiceIsOnce<S>(es: seq<Entry<S>>, c: Change, empty: S)
    requires AllKeyed(c.added) && AllKeyed(c.updated) && NoPathKeys(c.deleted)
    ensures Apply(Apply(es, c, empty), c, empty) == Apply(es, c, empty)
  {
    var once := Apply(es, c, empty);
    ApplyIsKeptUpsert(es, c, empty);
    ApplyIsKeptUpsert(once, c, empty);
    var u := ApplyKeepsOrder(es, c, empty);
    SurvivorsOnly(u, c.deleted);
    SurvivorsStay(once, c.deleted);
    UpsertTwice(c.kind, Survivors(es, c.deleted), Kept(c.added + c.updated, c.deleted), empty);
  }

  /** With ids everywhere, deletion wins: delete first, then upsert what no deletion names. */
  lemma ApplyIsKeptUpsert<S>(es: seq<Entry<S>>, c: Change, empty: S)
    requires AllKeyed(c.added) && AllKeyed(c.updated) && NoPathKeys(c.deleted)
    ensures Apply(es, c, empty) ==
              UpsertAll(c.kind, Survivors(es, c.deleted), Kept(c.added + c.updated, c.deleted), empty)
  {
    UpsertAllConcat(c.kind, es, c.added, c.updated, empty);
    RemoveAllIsFilter(UpsertAll(c.kind, es, c.added + c.updated, empty), c.deleted);
    UpsertAllThenSurvive(c.kind, es, c.added + c.updated, c.deleted, empty);
  }

  // ---- and when it is not ----

  /** An entry no item can match. */
  predicate Bare<S>(e: Entry<S>) {
    e.id.None? && PathOf(e.fields).None?
  }

  function Bares<S>(es: seq<Entry<S>>): nat {
    if es == [] then 0 else (if Bare(es[0]) then 1 else 0) + Bares(es[1..])
  }

  function Keyless(items: seq<MediaItem>): nat {
    if items == [] then 0 else (if ItemKey(items[0]).None? then 1 else 0) + Keyless(items[1..])
  }

  lemma {:induction false} BaresUpdate<S>(es: seq<Entry<S>>, i: nat, e: Entry<S>)
    requires i < |es| && !Bare(es[i]) && !Bare(e)
    ensures Bares(es[i := e]) == Bares(es)
  {
    if i == 0 {
      assert es[i := e][1..] == es[1..];
    } else {
      assert es[i := e][1..] == es[1..][i - 1 := e];
      BaresUpdate(es[1..], i - 1, e);
    }
  }

  lemma {:induction false} BaresAppend<S>(es: seq<Entry<S>>, e: Entry<S>)
    ensures Bares(es + [e]) == Bares(es) + if Bare(e) then 1 else 0
  {
    if es == [] {
      assert es + [e] == [e];
    } else {
      assert (es + [e])[1..] == es[1..] + [e];
      BaresAppend(es[1..], e);
    }
  }

  /** An upsert makes a bare entry exactly if its item has no key. */
  lemma UpsertCountsBares<S>(kind: Kind, es: seq<Entry<S>>, item: MediaItem, empty: S)
    ensures Bares(Upsert(kind, es, item, empty)) == Bares(es) + if ItemKey(item).None? then 1 else 0
  {
    var i := Find(es, item);
    if i < |es| {
      BaresUpdate(es, i, Overlay(kind, es[i], item));
    } else {
      assert Path in FieldsOf(kind);
      BaresAppend(es, FromItem(kind, item, empty));
    }
  }

  lemma {:induction false} UpsertAllCountsBares<S>(kind: Kind, es: seq<Entry<S>>, items: seq<MediaItem>, empty: S)
    ensures Bares(UpsertAll(kind, es, items, empty)) == Bares(es) + Keyless(items)
    decreases |items|
  {
    if items != [] {
      UpsertCountsBares(kind, es, items[0], empty);
      UpsertAllCountsBares(kind, Upsert(kind, es, items[0], empty), items[1..], empty);
    }
  }

  lemma {:induction false} SurvivorsKeepBares<S>(es: seq<Entry<S>>, deleted: seq<MediaItem>)
    ensures Bares(Survivors(es, deleted)) == Bares(es)
  {
    if es != [] {
      SurvivorsKeepBares(es[1..], deleted);
      assert es == [es[0]] + es[1..];
      SurvivorsCons(es[0], es[1..], deleted);
      if !Deleted(es[0], deleted) {
        assert ([es[0]] + Survivors(es[1..], deleted))[1..] == Survivors(es[1..], deleted);
      }
    }
  }

  /** Applying any change adds one unmatchable entry per upserted item without a key, every time. */
  lemma ApplyCountsBares<S>(es: seq<Entry<S>>, c: Change, empty: S)
    ensures Bares(Apply(es, c, empty)) == Bares(es) + Keyless(c.added) + Keyless(c.updated)
  {
    var added := UpsertAll(c.kind, es, c.added, empty);
    var updated := UpsertAll(c.kind, added, c.updated, empty);
    UpsertAllCountsBares(c.kind, es, c.added, empty);
    UpsertAllCountsBares(c.kind, added, c.updated, empty);
    RemoveAllIsFilter(updated, c.deleted);
    SurvivorsKeepBares(updated, c.deleted);
  }

  lemma {:induction false} KeyedByIdIff(items: seq<MediaItem>)
    requires NoPathKeys(items)
    ensures Keyless(items) == 0 <==> AllKeyed(items)
  {
    if items != [] {
      KeyedByIdIff(items[1..]);
      assert forall i | 0 < i < |items| :: items[i] == items[1..][i - 1];
      assert AllKeyed(items) <==> items[0].id.Some? && AllKeyed(items[1..]);
    }
  }

  /** Idempotence, exactly, for changes that use no path as a key: on any library, twice is once if
      and only if every upserted item carries an id. */
  lemma TwiceIsOnceIff<S>(es: seq<Entry<S>>, c: Change, empty: S)
    requires NoPathKeys(c.added) && NoPathKeys(c.updated) && NoPathKeys(c.deleted)
    ensures Apply(Apply(es, c, empty), c, empty) == Apply(es, c, empty)
            <==> AllKeyed(c.added) && AllKeyed(c.updated)
  {
    KeyedByIdIff(c.added);
    KeyedByIdIff(c.updated);
    if AllKeyed(c.added) && AllKeyed(c.updated) {
      ApplyTwiceIsOnce(es, c, empty);
    } else {
      KeylessRepeats(es, c, empty);
    }
  }

  /** An upserted item without a key repeats on every application, whatever else the change holds. */
  lemma KeylessRepeats<S>(es: seq<Entry<S>>, c: Change, empty: S)
    requires Keyless(c.added) + Keyless(c.updated) > 0
    ensures Apply(Apply(es, c, empty), c, empty) != Apply(es, c, empty)
  {
    ApplyCountsBares(es, c, empty);
    ApplyCountsBares(Apply(es, c, empty), c, empty);
  }

  // ---- keys by path ----

  /** Every item has a key, and none that is keyed by its id carries a path. */
  ghost predicate SteadyKeys(items: seq<MediaItem>) {
    forall i | 0 <= i < |items| :: items[i].id.Some? != PathOf(items[i].fields).Some?
  }

  /** `u` extends `es` without changing what items match its entries by. */
  ghost predicate KeysExtend<S>(es: seq<Entry<S>>, u: seq<Entry<S>>) {
    && |es| <= |u|
    && (forall i | 0 <= i < |es| :: u[i].id == es[i].id && PathOf(u[i].fields) == PathOf(es[i].fields))
  }

  lemma FindIsFirst<S>(es: seq<Entry<S>>, item: MediaItem, i: nat)
    requires i < |es| && MatchesItem(es[i], item) && forall j | 0 <= j < i :: !MatchesItem(es[j], item)
    ensures Find(es, item) == i
  {
  }

  lemma FindStays<S>(es: seq<Entry<S>>, u: seq<Entry<S>>, item: MediaItem)
    requires KeysExtend(es, u) && Find(es, item) < |es|
    ensures Find(u, item) == Find(es, item)
  {
    FindIsFirst(u, item, Find(es, item));
  }

  /** A steady item is found afterwards where it went, and changes no key. */
  lemma UpsertIsSteady<S>(kind: Kind, es: seq<Entry<S>>, item: MediaItem, empty: S)
    requires item.id.Some? != PathOf(item.fields).Some?
    ensures var es1 := Upsert(kind, es, item, empty);
            KeysExtend(es, es1) && Find(es1, item) == Find(es, item) < |es1|
  {
    assert Path in FieldsOf(kind);
    FindIsFirst(Upsert(kind, es, item, empty), item, Find(es, item));
  }

  /** What the items that go to entry `i` of `u` carry together, later ones first. */
  function MergedAt<S>(kind: Kind, items: seq<MediaItem>, u: seq<Entry<S>>, i: nat): Fields {
    if items == [] then map[]
    else (if Find(u, items[0]) == i then Carried(kind, items[0]) else map[]) + MergedAt(kind, items[1..], u, i)
  }

  function FieldsAt<S>(es: seq<Entry<S>>, i: nat): Fields {
    if i < |es| then es[i].fields else map[]
  }

  lemma PlusIsAssociative(a: Fields, b: Fields, c: Fields)
    ensures (a + b) + c == a + (b + c)
  {
  }

  lemma UpsertMerges<S>(kind: Kind, es: seq<Entry<S>>, item: MediaItem, empty: S, i: nat)
    ensures FieldsAt(Upsert(kind, es, item, empty), i) ==
              FieldsAt(es, i) + if Find(es, item) == i then Carried(kind, item) else map[]
  {
    assert FieldsAt(es, i) + map[] == FieldsAt(es, i);
    assert map[] + Carried(kind, item) == Carried(kind, item);
  }

  lemma {:induction false} UpsertAllMerges<S>(
      kind: Kind, es: seq<Entry<S>>, items: seq<MediaItem>, empty: S, i: nat)
    requires SteadyKeys(items)
    ensures var u := UpsertAll(kind, es, items, empty);
            && KeysExtend(es, u)
            && (forall k | 0 <= k < |items| :: Find(u, items[k]) < |u|)
            && FieldsAt(u, i) == FieldsAt(es, i) + MergedAt(kind, items, u, i)
    decreases |items|
  {
    hide FieldsOf, Carried, Find, Upsert;
    var u := UpsertAll(kind, es, items, empty);
    if items == [] {
      assert FieldsAt(es, i) + map[] == FieldsAt(es, i);
    } else {
      var es1 := Upsert(kind, es, items[0], empty);
      UpsertIsSteady(kind, es, items[0], empty);
      UpsertAllMerges(kind, es1, items[1..], empty, i);
      FindStays(es1, u, items[0]);
      forall k | 0 <= k < |items| ensures Find(u, items[k]) < |u| {
        assert k > 0 ==> items[k] == items[1..][k - 1];
      }
      UpsertMerges(kind, es, items[0], empty, i);
      PlusIsAssociative(FieldsAt(es, i), if Find(es, items[0]) == i then Carried(kind, items[0]) else map[],
                        MergedAt(kind, items[1..], u, i));
    }
  }

  lemma {:induction false} FoundStayInPlace<S>(kind: Kind, es: seq<Entry<S>>, items: seq<MediaItem>, empty: S)
    requires SteadyKeys(items) && forall k | 0 <= k < |items| :: Find(es, items[k]) < |es|
    ensures |UpsertAll(kind, es, items, empty)| == |es|
    decreases |items|
  {
    if items != [] {
      var es1 := Upsert(kind, es, items[0], empty);
      UpsertIsSteady(kind, es, items[0], empty);
      forall k | 0 <= k < |items[1..]| ensures Find(es1, items[1..][k]) < |es1| {
        assert items[1..][k] == items[k + 1];
        FindStays(es, es1, items[k + 1]);
      }
      FoundStayInPlace(kind, es1, items[1..], empty);
    }
  }

  lemma {:induction false} SameMerge<S>(
      kind: Kind, items: seq<MediaItem>, u: seq<Entry<S>>, v: seq<Entry<S>>, i: nat)
    requires KeysExtend(u, v) && forall k | 0 <= k < |items| :: Find(u, items[k]) < |u|
    ensures MergedAt(kind, items, v, i) == MergedAt(kind, items, u, i)
  {
    if items != [] {
      FindStays(u, v, items[0]);
      forall k | 0 <= k < |items[1..]| ensures Find(u, items[1..][k]) < |u| {
        assert items[1..][k] == items[k + 1];
      }
      SameMerge(kind, items[1..], u, v, i);
    }
  }

  lemma SteadyFieldsStay<S>(kind: Kind, es: seq<Entry<S>>, items: seq<MediaItem>, empty: S, i: nat)
    requires SteadyKeys(items)
    ensures var u := UpsertAll(kind, es, items, empty);
            FieldsAt(UpsertAll(kind, u, items, empty), i) == FieldsAt(u, i)
  {
    var u := UpsertAll(kind, es, items, empty);
    var v := UpsertAll(kind, u, items, empty);
    UpsertAllMerges(kind, es, items, empty, i);
    UpsertAllMerges(kind, u, items, empty, i);
    SameMerge(kind, items, u, v, i);
    var merged := MergedAt(kind, items, u, i);
    PlusIsAssociative(FieldsAt(es, i), merged, merged);
    assert merged + merged == merged;
  }

  /** Keys by path are safe as long as they are steady: if every upserted item has a key, none keyed by
      its id carries a path, and nothing is deleted, twice is once on any library. */
  lemma SteadyKeysSettle<S>(es: seq<Entry<S>>, c: Change, empty: S)
    requires SteadyKeys(c.added) && SteadyKeys(c.updated) && c.deleted == []
    ensures Apply(Apply(es, c, empty), c, empty) == Apply(es, c, empty)
  {
    var items := c.added + c.updated;
    UpsertAllConcat(c.kind, es, c.added, c.updated, empty);
    var u := UpsertAll(c.kind, es, items, empty);
    UpsertAllConcat(c.kind, u, c.added, c.updated, empty);
    var v := UpsertAll(c.kind, u, items, empty);
    UpsertAllMerges(c.kind, es, items, empty, 0);
    UpsertAllMerges(c.kind, u, items, empty, 0);
    FoundStayInPlace(c.kind, u, items, empty);
    UpsertAllExtends(c.kind, u, items, empty);
    forall i | 0 <= i < |u| ensures v[i] == u[i] {
      SteadyFieldsStay(c.kind, es, items, empty, i);
      assert FieldsAt(v, i) == v[i].fields;
    }
    assert v == u;
  }

  /** Otherwise a key by path alone is no substitute for an id: when the same change gives the matched entry
      another path, the second application finds nobody under the old one and appends. */
  lemma RenamedPathRepeats<S>(kind: Kind, x: nat, p: Value, q: Value, own: S, empty: S)
    requires p != q
    ensures var es := [Entry(Some(x), map[Path := p], own)];
            var c := Change(kind, [MediaItem(None, map[Path := p]), MediaItem(Some(x), map[Path := q])], [], []);
            Keyless(c.added) == 0 && Apply(Apply(es, c, empty), c, empty) != Apply(es, c, empty)
  {
    var byPath, byId := MediaItem(None, map[Path := p]), MediaItem(Some(x), map[Path := q]);
    var was, moved := Entry(Some(x), map[Path := p], own), Entry(Some(x), map[Path := q], own);
    var extra := FromItem(kind, byPath, empty);
    var c := Change(kind, [byPath, byId], [], []);
    assert Path in FieldsOf(kind);
    assert Carried(kind, byPath) == map[Path := p] && Carried(kind, byId) == map[Path := q];
    assert map[Path := p] + map[Path := p] == map[Path := p] && map[Path := p] + map[Path := q] == map[Path := q];
    assert map[Path := q] + map[Path := q] == map[Path := q];
    assert Upsert(kind, [was], byPath, empty) == [was] && Upsert(kind, [was], byId, empty) == [moved];
    TwoUpserts(kind, [was], byPath, byId, empty);
    assert Apply([was], c, empty) == [moved];
    assert Find([moved], byPath) == 1;
    assert Upsert(kind, [moved], byPath, empty) == [moved, extra];
    assert Find([moved, extra], byId) == 0;
    assert Upsert(kind, [moved, extra], byId, empty) == [moved, extra];
    TwoUpserts(kind, [moved], byPath, byId, empty);
    assert Apply([moved], c, empty) == [moved, extra];
    assert Keyless([byPath, byId]) == Keyless([byPath, byId][1..]) == 0;
  }

  lemma TwoUpserts<S>(kind: Kind, es: seq<Entry<S>>, a: MediaItem, b: MediaItem, empty: S)
    ensures Apply(es, Change(kind, [a, b], [], []), empty) == Upsert(kind, Upsert(kind, es, a, empty), b, empty)
  {
    var es1 := Upsert(kind, es, a, empty);
    assert [a, b][1..] == [b] && [b][1..] == [];
    assert UpsertAll(kind, es1, [b], empty) == UpsertAll(kind, Upsert(kind, es1, b, empty), [], empty);
  }

  lemma UpsertThenRemove<S>(kind: Kind, es: seq<Entry<S>>, a: MediaItem, d: MediaItem, empty: S)
    ensures Apply(es, Change(kind, [], [a], [d]), empty) == Remove(Upsert(kind, es, a, empty), d)
  {
    var es1 := Upsert(kind, es, a, empty);
    assert [a][1..] == [] && [d][1..] == [];
    assert UpsertAll(kind, es, [a], empty) == UpsertAll(kind, es1, [], empty);
    assert RemoveAll(es1, [d]) == RemoveAll(Remove(es1, d), []);
  }

  /** Nor is deleting by path: an entry deleted by a path its id-keyed update does not carry comes back
      without that path the second time. */
  lemma DeletedPathReturns<S>(kind: Kind, x: nat, p: Value, own: S, empty: S)
    ensures var es := [Entry(Some(x), map[Path := p], own)];
            var c := Change(kind, [], [MediaItem(Some(x), map[])], [MediaItem(None, map[Path := p])]);
            Apply(es, c, empty) == [] && Apply([], c, empty) == [Entry(Some(x), map[], empty)]
  {
    var byId, byPath := MediaItem(Some(x), map[]), MediaItem(None, map[Path := p]);
    var was, made := Entry(Some(x), map[Path := p], own), Entry(Some(x), map[], empty);
    assert Carried(kind, byId) == map[];
    assert map[Path := p] + map[] == map[Path := p];
    UpsertThenRemove(kind, [was], byId, byPath, empty);
    UpsertThenRemove(kind, [], byId, byPath, empty);
    assert Upsert(kind, [was], byId, empty) == [was];
    assert Upsert(kind, [], byId, empty) == [made];
    assert Remove([was], byPath) == [] && Remove([made], byPath) == [made];
  }
}
