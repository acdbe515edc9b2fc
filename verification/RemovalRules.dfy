/** When a removal is split and where its rows end, in the bytes of the text they
    are stored as. */
module RemovalRules {
  import opened Wrappers
  import opened Json
  import opened JsonText
  import opened RowFiller
  import opened RemovalLedger
  import opened RemovalSizes
  import opened RemovalBuilders

  /** The bytes a value's text is stored in. */
  function Stored(json: Json): nat { |Utf8(Stringify(json))| }

  /** A row of a list with stand-in counts, the widest there are. */
  function Sizing(fields: seq<Field>, key: string, list: seq<Json>): Json {
    Obj(fields + [Field(T(key), Arr(list)), Field(T("part"), Num(99_999)), Field(T("parts"), Num(99_999))])
  }

  // ── One row, or several ──────────────────────────────────────────────────

  /** One row holds everything exactly when its text is at most 57,344 bytes. */
  lemma OneRowRule(removal: Removal)
    ensures Stored(removal.whole) <= 57_344 <==> Snapshots(removal) == [WholeRow(removal.whole)]
  {
    SizeIsStored(removal.whole);
    RoomRowsPresent(removal);
    hide Bytes, RoomRows, ContributorRows, PointRows, Stringify, Utf8, Assemble;
    if Bytes(removal.whole) > ROW_BUDGET_BYTES {
      StartsWithSummary(removal, RoomRows(removal), ContributorRows(removal), PointRows(removal));
    }
  }

  lemma StartsWithSummary(removal: Removal, roomRows: seq<seq<Json>>, people: seq<seq<Contributor>>,
                          points: seq<seq<SplitPoint>>)
    requires removal.roomList != [] ==> roomRows != []
    ensures
      var rows := Assemble(removal, roomRows, people, points);
      rows != [] && rows[0].SummaryRow?
  {
  }

  /** What the ledger takes: rows of at most 65,536 bytes. */
  lemma TakenRule(removal: Removal)
    ensures NeverRefused(removal) <==> forall row <- Snapshots(removal) :: Stored(RowJson(row)) <= 65_536
  {
    forall row ensures Stored(RowJson(row)) == Bytes(RowJson(row)) {
      SizeIsStored(RowJson(row));
    }
    hide Snapshots, Bytes, Stored;
  }

  // ── No row ends early ────────────────────────────────────────────────────

  /** The next row's first item would have passed the budget of this one. */
  ghost predicate FullRows<A>(fields: seq<Field>, key: string, json: A -> Json, rows: seq<seq<A>>) {
    forall i :: 0 <= i < |rows| - 1 ==> FullBefore(fields, key, json, rows[i], rows[i + 1])
  }

  ghost predicate FullBefore<A>(fields: seq<Field>, key: string, json: A -> Json, row: seq<A>, next: seq<A>) {
    next != [] && Stored(Sizing(fields, key, Each(json, row + next[..1]))) > 57_344
  }

  lemma {:induction false} FillGreedy<A>(base: nat, items: seq<Item<A>>, i: nat)
    requires i + 1 < |Fill(base, items)|
    ensures Fill(base, items)[i + 1] != [] && !Fits(base, Fill(base, items)[i] + Fill(base, items)[i + 1][..1])
  {
    var before, item := items[..|items| - 1], items[|items| - 1];
    var rows := Fill(base, before);
    FillRowsNonEmpty(base, before);
    hide Fits;
    if i + 1 < |rows| {
      FillGreedy(base, before, i);
      assert (rows[i + 1] + [item])[..1] == rows[i + 1][..1];
    } else {
      assert [item][..1] == [item];
    }
  }

  lemma RowsFull<A>(fields: seq<Field>, key: string, json: A -> Json, items: seq<Item<A>>)
    requires Sized(json, items)
    ensures FullRows(fields, key, json, RowValues(Fill(Bytes(WithCounts(fields, EmptyList(key))), items)))
  {
    var base := Bytes(WithCounts(fields, EmptyList(key)));
    var rows: seq<seq<Item<A>>> := Fill(base, items);
    FillKeepsItems(base, items);
    hide Fill;
    forall i: nat | i + 1 < |rows| ensures FullBefore(fields, key, json, Values(rows[i]), Values(rows[i + 1])) {
      FillGreedy(base, items, i);
      forall k: nat | k < |rows[i]| ensures rows[i][k] in items {
        MemberOf(rows, i, k, items);
      }
      MemberOf(rows, i + 1, 0, items);
      hide FullBefore;
      FullThere(fields, key, json, items, rows[i], rows[i + 1]);
    }
  }

  lemma FullThere<A>(fields: seq<Field>, key: string, json: A -> Json, items: seq<Item<A>>, row: seq<Item<A>>,
                     next: seq<Item<A>>)
    requires Sized(json, items) && next != [] && next[0] in items
    requires forall k :: 0 <= k < |row| ==> row[k] in items
    requires !Fits(Bytes(WithCounts(fields, EmptyList(key))), row + next[..1])
    ensures FullBefore(fields, key, json, Values(row), Values(next))
  {
    var longer := row + next[..1];
    assert forall k :: 0 <= k < |longer| ==> longer[k] in items;
    SizingCost(fields, key, json, longer);
    assert Values(longer) == Values(row) + Values(next)[..1];
  }

  lemma SizingCost<A>(fields: seq<Field>, key: string, json: A -> Json, row: seq<Item<A>>)
    requires forall k :: 0 <= k < |row| ==> row[k].bytes == Bytes(json(row[k].value))
    ensures Stored(Sizing(fields, key, Each(json, Values(row))))
         == Bytes(WithCounts(fields, EmptyList(key))) + Joined(ItemSizes(row))
  {
    var list := Each(json, Values(row));
    assert Sizes(list) == ItemSizes(row);
    hide Bytes, Digits, Joined, Stringify, Utf8, T;
    SizeIsStored(Sizing(fields, key, list));
    RowCost(fields, key, list, 99_999, 99_999);
    WidestDigits();
    assert fields + [Field(T(key), Arr(list))] + Counts(99_999, 99_999)
        == fields + [Field(T(key), Arr(list)), Field(T("part"), Num(99_999)), Field(T("parts"), Num(99_999))];
  }

  lemma ItemsSized<A>(json: A -> Json, items: seq<A>)
    ensures Sized(json, Items(json, items))
  {
  }

  /** Rooms, contributors and points go on in the row they are in for as long as
      its text stays within the budget, beside the summary for the rooms and the
      context for the others. */
  lemma RowsAreFull(removal: Removal)
    ensures removal.roomList != [] ==> FullRows(removal.summary, "rooms", SelfJson, RoomRows(removal))
    ensures FullRows(removal.context, "contributors", ContributorJson, ContributorRows(removal))
    ensures FullRows(removal.context, "points", SplitJson, PointRows(removal))
  {
    ItemsSized(SelfJson, removal.roomList);
    ItemsSized(ContributorJson, removal.contributors);
    PointsFit(PointBase(removal), removal.points, !removal.pointTextInSummary);
    hide Items, Sized, Fill, RowValues, PointsItems, FullRows, Bytes;
    if removal.roomList != [] {
      RowsFull(removal.summary, "rooms", SelfJson, Items(SelfJson, removal.roomList));
    }
    RowsFull(removal.context, "contributors", ContributorJson, Items(ContributorJson, removal.contributors));
    RowsFull(removal.context, "points", SplitJson,
             PointsItems(PointBase(removal), removal.points, !removal.pointTextInSummary));
  }

  // ── No point is cut that fits, and no slice ends early ───────────────────

  /** A point alone in a row of points, with stand-in counts. */
  function Alone(context: seq<Field>, point: SplitPoint): Json { Sizing(context, "points", [SplitJson(point)]) }

  lemma AloneCost(removal: Removal, point: SplitPoint)
    ensures Stored(Alone(removal.context, point)) == PointBase(removal) + Bytes(SplitJson(point))
  {
    var row := [Item(point, Bytes(SplitJson(point)))];
    hide Bytes, SplitJson, WithCounts, Stored, Sizing;
    SizingCost(removal.context, "points", SplitJson, row);
    JoinedOne(row[0]);
    assert Values(row) == [point] && Each(SplitJson, [point]) == [SplitJson(point)];
  }

  /** A point is cut exactly when it does not fit a row of its own. */
  lemma CutRule(removal: Removal, placed: Placed, withText: bool)
    ensures
      PointItems(PointBase(removal), placed, withText)
      == if Stored(Alone(removal.context, WholeSplit(placed, withText))) <= 57_344
         then [SplitItem(WholeSplit(placed, withText))]
         else Slices(PointBase(removal), placed, withText, 0, true)
  {
    AloneCost(removal, WholeSplit(placed, withText));
    hide PointBase, Bytes, SplitJson, Stored, Alone, WholeSplit, Slices;
  }

  /** A slice takes a further photo record exactly while a row of its own stays
      within the budget. */
  lemma SliceRule(removal: Removal, placed: Placed, withText: bool, from: nat, first: bool)
    requires from < |placed.point.attachments|
    ensures
      var photos, end := placed.point.attachments, NextEnd(PointBase(removal), placed, withText, from, first);
      && from < end <= |photos|
      && (end > from + 1 ==>
            Stored(Alone(removal.context, Slice(placed, withText, first, photos[from..end]))) <= 57_344)
      && (end < |photos| ==>
            Stored(Alone(removal.context, Slice(placed, withText, first, photos[from..end + 1]))) > 57_344)
  {
    var photos, base := placed.point.attachments, PointBase(removal);
    var end := NextEnd(base, placed, withText, from, first);
    hide PointBase, Stored, Alone, PhotosCost, Slice, SliceBytes;
    EndIs(base, placed, withText, from, first);
    hide NextEnd;
    SliceAlone(removal, placed, withText, first, photos[from..end]);
    if end < |photos| {
      SliceAlone(removal, placed, withText, first, photos[from..end + 1]);
    }
  }

  lemma EndIs(base: nat, placed: Placed, withText: bool, from: nat, first: bool)
    requires from < |placed.point.attachments|
    ensures
      var photos, end := placed.point.attachments, NextEnd(base, placed, withText, from, first);
      var frame := base + SliceBytes(placed, withText, first, []);
      && (end > from + 1 ==> frame + PhotosCost(photos[from..end]) <= 57_344)
      && (end < |photos| ==> frame + PhotosCost(photos[from..end + 1]) > 57_344)
  {
    hide PhotosCost, SliceBytes;
    SliceEndFits(57_344 - base - SliceBytes(placed, withText, first, []), placed.point.attachments, from, from);
    hide SliceEnd;
  }

  lemma SliceAlone(removal: Removal, placed: Placed, withText: bool, first: bool, photos: seq<Photo>)
    ensures Stored(Alone(removal.context, Slice(placed, withText, first, photos)))
         == PointBase(removal) + SliceBytes(placed, withText, first, []) + PhotosCost(photos)
  {
    hide PointBase, Bytes, SplitJson, Stored, Alone, PhotosCost, Slice;
    AloneCost(removal, Slice(placed, withText, first, photos));
    SliceCost(placed, withText, first, photos);
  }

  /** A slice of the point: the first with its text, where points carry theirs, and
      every later one marked as going on and with photo records alone. */
  ghost predicate SliceOf(slice: SplitPoint, placed: Placed, withText: bool, first: bool) {
    && slice.id == placed.point.id && slice.roomId == placed.roomId
    && if first then
         && !slice.continued
         && slice.text == if withText then Some(PointText(placed.point.stamp, placed.point.description)) else None
       else slice.continued && slice.text.None? && slice.attachments != []
  }

  lemma FirstSliceOf(placed: Placed, withText: bool, first: bool, photos: seq<Photo>)
    requires first || photos != []
    ensures SliceOf(Slice(placed, withText, first, photos), placed, withText, first)
  {
  }

  ghost predicate GoOn(slices: seq<Item<SplitPoint>>, placed: Placed, withText: bool) {
    forall i :: 0 <= i < |slices| ==> SliceOf(slices[i].value, placed, withText, false)
  }

  ghost predicate Sliced(slices: seq<Item<SplitPoint>>, placed: Placed, withText: bool) {
    slices != [] && SliceOf(slices[0].value, placed, withText, true) && GoOn(slices[1..], placed, withText)
  }

  lemma {:induction false} SlicesFrom(emptyRow: nat, placed: Placed, withText: bool, from: nat, first: bool)
    requires from <= |placed.point.attachments|
    ensures
      var slices := Slices(emptyRow, placed, withText, from, first);
      if first then Sliced(slices, placed, withText) else GoOn(slices, placed, withText)
    decreases |placed.point.attachments| - from, first
  {
    hide Bytes, SplitJson, NextEnd, SliceOf, Slice;
    if first || from < |placed.point.attachments| {
      var end := NextEnd(emptyRow, placed, withText, from, first);
      FirstSliceOf(placed, withText, first, placed.point.attachments[from..end]);
      SlicesFrom(emptyRow, placed, withText, end, false);
      assert Slices(emptyRow, placed, withText, from, first)[1..] == Slices(emptyRow, placed, withText, end, false);
    }
  }

  /** What a point is recorded as: itself, or slices of it. */
  lemma SlicesRule(removal: Removal, placed: Placed, withText: bool)
    ensures Sliced(PointItems(PointBase(removal), placed, withText), placed, withText)
  {
    SlicesFrom(PointBase(removal), placed, withText, 0, true);
    hide PointBase, Bytes, SplitJson, Slices;
  }
}
