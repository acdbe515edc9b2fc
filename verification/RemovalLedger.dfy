/** The decision-ledger rows for taking a photo, a point, a room or a level off
    a draft inspection: one row when the removal fits the row budget, else a
    summary row followed by rows of rooms, contributors and points. */
module RemovalLedger {
  import opened Wrappers
  import opened Json
  import opened RowFiller

  // ── What was removed ─────────────────────────────────────────────────────

  datatype Stamp = Stamp(addedAt: Option<Text>, addedById: Option<Text>, addedByName: Option<Text>)

  datatype Photo = Photo(
    blobName: Text, fileName: Text, id: Text,
    uploadedAt: Option<Text>, uploadedById: Option<Text>, uploadedByName: Option<Text>)

  datatype Point = Point(stamp: Stamp, attachments: seq<Photo>, description: Text, id: Text)

  datatype Room = Room(stamp: Stamp, description: Text, id: Text, name: Text, points: seq<Point>)

  datatype Contributor = Contributor(id: Text, name: Text)

  /** A point and the room it was in. */
  datatype Placed = Placed(point: Point, roomId: Text)

  datatype Removal = Removal(
    context: seq<Field>, contributors: seq<Contributor>, pointTextInSummary: bool,
    points: seq<Placed>, roomList: seq<Json>, summary: seq<Field>, whole: Json)

  // ── What a row holds ─────────────────────────────────────────────────────

  datatype PointText = PointText(stamp: Stamp, description: Text)

  /** A point, or a slice of its photo records; later slices are `continued`. */
  datatype SplitPoint = SplitPoint(
    attachments: seq<Photo>, id: Text, roomId: Text, text: Option<PointText>, continued: bool)

  datatype Row =
    | WholeRow(whole: Json)
    | SummaryRow(summary: seq<Field>, part: nat, parts: nat, firstRooms: Option<seq<Json>>)
    | RoomsRow(context: seq<Field>, part: nat, parts: nat, rooms: seq<Json>)
    | ContributorsRow(context: seq<Field>, part: nat, parts: nat, contributors: seq<Contributor>)
    | PointsRow(context: seq<Field>, part: nat, parts: nat, points: seq<SplitPoint>)

  function StampFields(stamp: Stamp): seq<Field> {
    [ Field(T("addedAt"), OrNull(stamp.addedAt)),
      Field(T("addedById"), OrNull(stamp.addedById)),
      Field(T("addedByName"), OrNull(stamp.addedByName)) ]
  }

  function PhotoJson(photo: Photo): Json {
    Obj([ Field(T("blobName"), Str(photo.blobName)),
          Field(T("fileName"), Str(photo.fileName)),
          Field(T("id"), Str(photo.id)),
          Field(T("uploadedAt"), OrNull(photo.uploadedAt)),
          Field(T("uploadedById"), OrNull(photo.uploadedById)),
          Field(T("uploadedByName"), OrNull(photo.uploadedByName)) ])
  }

  function ContributorJson(person: Contributor): Json {
    Obj([Field(T("id"), Str(person.id)), Field(T("name"), Str(person.name))])
  }

  /** The fields of a split point after its photo records. */
  function SplitTail(point: SplitPoint): seq<Field> {
    [Field(T("id"), Str(point.id)), Field(T("roomId"), Str(point.roomId))]
    + (if point.text.Some?
       then StampFields(point.text.value.stamp) + [Field(T("description"), Str(point.text.value.description))]
       else [])
    + (if point.continued then [Field(T("continued"), True)] else [])
  }

  function SplitJson(point: SplitPoint): Json {
    Obj([Field(T("attachments"), Arr(Each(PhotoJson, point.attachments)))] + SplitTail(point))
  }

  function Counts(part: nat, parts: nat): seq<Field> {
    [Field(T("part"), Num(part)), Field(T("parts"), Num(parts))]
  }

  /** A row as the ledger stores it. */
  function RowJson(row: Row): Json {
    match row
    case WholeRow(whole) => whole
    case SummaryRow(summary, part, parts, rooms) =>
      Obj(summary + Counts(part, parts) + if rooms.Some? then [Field(T("rooms"), Arr(rooms.value))] else [])
    case RoomsRow(context, part, parts, rooms) =>
      Obj(context + Counts(part, parts) + [Field(T("rooms"), Arr(rooms))])
    case ContributorsRow(context, part, parts, people) =>
      Obj(context + [Field(T("contributors"), Arr(Each(ContributorJson, people)))] + Counts(part, parts))
    case PointsRow(context, part, parts, points) =>
      Obj(context + Counts(part, parts) + [Field(T("points"), Arr(Each(SplitJson, points)))])
  }

  // ── Sizing ───────────────────────────────────────────────────────────────

  /** Stand-in for `part` and `parts` while sizing. */
  const WIDEST_COUNT: nat := 99_999

  function WithCounts(fields: seq<Field>, extra: seq<Field>): Json {
    Obj(fields + extra + Counts(WIDEST_COUNT, WIDEST_COUNT))
  }

  function EmptyList(key: string): seq<Field> { [Field(T(key), Arr([]))] }

  function SummaryBase(removal: Removal): nat {
    Bytes(WithCounts(removal.summary, if removal.roomList != [] then EmptyList("rooms") else []))
  }

  function PointBase(removal: Removal): nat { Bytes(WithCounts(removal.context, EmptyList("points"))) }

  function ContributorBase(removal: Removal): nat { Bytes(WithCounts(removal.context, EmptyList("contributors"))) }

  function Items<A>(json: A -> Json, items: seq<A>): seq<Item<A>> {
    seq(|items|, i requires 0 <= i < |items| => Item(items[i], Bytes(json(items[i]))))
  }

  // ── One point into the rows being filled ─────────────────────────────────

  function TextOf(point: Point, withText: bool): Option<PointText> {
    if withText then Some(PointText(point.stamp, point.description)) else None
  }

  function WholeSplit(placed: Placed, withText: bool): SplitPoint {
    SplitPoint(placed.point.attachments, placed.point.id, placed.roomId, TextOf(placed.point, withText), false)
  }

  /** One slice of a point: the first carries the point's text. */
  function Slice(placed: Placed, withText: bool, first: bool, photos: seq<Photo>): SplitPoint {
    SplitPoint(photos, placed.point.id, placed.roomId, if first then TextOf(placed.point, withText) else None, !first)
  }

  function PhotosCost(photos: seq<Photo>): nat { EachCost(PhotoJson, photos) }

  function SplitItem(point: SplitPoint): Item<SplitPoint> { Item(point, Bytes(SplitJson(point))) }

  function SliceBytes(placed: Placed, withText: bool, first: bool, photos: seq<Photo>): nat {
    Bytes(SplitJson(Slice(placed, withText, first, photos)))
  }

  /** Where a slice that started at `from` and has reached `to` ends: it takes
      its first photo record whatever it costs, then each that still fits. */
  function SliceEnd(room: int, photos: seq<Photo>, from: nat, to: nat): (end: nat)
    requires from <= to <= |photos|
    ensures to <= end <= |photos|
    ensures from < |photos| ==> from < end
    decreases |photos| - to
  {
    if to < |photos| && (to == from || PhotosCost(photos[from..to + 1]) <= room)
    then SliceEnd(room, photos, from, to + 1)
    else to
  }

  /** Where the slice that starts at photo record `from` ends. */
  function NextEnd(emptyRow: nat, placed: Placed, withText: bool, from: nat, first: bool): (end: nat)
    requires from <= |placed.point.attachments|
    ensures from <= end <= |placed.point.attachments|
    ensures from < |placed.point.attachments| ==> from < end
  {
    var room := ROW_BUDGET_BYTES - emptyRow - SliceBytes(placed, withText, first, []);
    SliceEnd(room, placed.point.attachments, from, from)
  }

  function Slices(emptyRow: nat, placed: Placed, withText: bool, from: nat, first: bool): seq<Item<SplitPoint>>
    requires from <= |placed.point.attachments|
    decreases |placed.point.attachments| - from, first
  {
    var photos := placed.point.attachments;
    if !first && from == |photos| then []
    else
      var end := NextEnd(emptyRow, placed, withText, from, first);
      [SplitItem(Slice(placed, withText, first, photos[from..end]))] + Slices(emptyRow, placed, withText, end, false)
  }

  function PointItems(emptyRow: nat, placed: Placed, withText: bool): seq<Item<SplitPoint>> {
    var whole := SplitItem(WholeSplit(placed, withText));
    if emptyRow + whole.bytes <= ROW_BUDGET_BYTES then [whole]
    else Slices(emptyRow, placed, withText, 0, true)
  }

  function PointsItems(emptyRow: nat, points: seq<Placed>, withText: bool): seq<Item<SplitPoint>> {
    if |points| == 0 then []
    else PointsItems(emptyRow, points[..|points| - 1], withText)
         + PointItems(emptyRow, points[|points| - 1], withText)
  }

  /** A slice costs its frame and its photo records. */
  lemma SliceCost(placed: Placed, withText: bool, first: bool, photos: seq<Photo>)
    ensures SliceBytes(placed, withText, first, photos)
         == SliceBytes(placed, withText, first, []) + PhotosCost(photos)
  {
    hide T, PhotoJson, Bytes, TextOf, Each;
    var key := T("attachments");
    var tail := SplitTail(Slice(placed, withText, first, photos));
    FrameCost([], key, Each(PhotoJson, photos), tail);
    assert SplitTail(Slice(placed, withText, first, [])) == tail;
    EachNone(PhotoJson);
    assert [] + [Field(key, Arr(Each(PhotoJson, photos)))] + tail
        == [Field(key, Arr(Each(PhotoJson, photos)))] + tail;
    assert [] + [Field(key, Arr([]))] + tail == [Field(key, Arr([]))] + tail;
  }

  lemma PhotosCostNone()
    ensures PhotosCost([]) == 0
  {
    EachNone(PhotoJson);
  }

  lemma PhotosCostSnoc(photos: seq<Photo>, photo: Photo)
    ensures PhotosCost(photos + [photo])
         == PhotosCost(photos) + Bytes(PhotoJson(photo)) + if photos == [] then 0 else 1
  {
    EachCostSnoc(PhotoJson, photos, photo);
  }

  /** The photo records of one slice: the first whatever it costs, then each
      that still fits the row. */
  method FillSlice(emptyRow: nat, frameBytes: nat, photos: seq<Photo>, from: nat)
    returns (slice: seq<Photo>, sliceBytes: nat, next: nat)
    requires from <= |photos|
    ensures next == SliceEnd(ROW_BUDGET_BYTES - emptyRow - frameBytes, photos, from, from)
    ensures slice == photos[from..next] && sliceBytes == PhotosCost(slice)
  {
    hide PhotosCost, PhotoJson;
    PhotosCostNone();
    slice, sliceBytes, next := [], 0, from;
    ghost var room := ROW_BUDGET_BYTES - emptyRow - frameBytes;
    while next < |photos|
      invariant from <= next <= |photos|
      invariant slice == photos[from..next] && sliceBytes == PhotosCost(slice)
      invariant SliceEnd(room, photos, from, next) == SliceEnd(room, photos, from, from)
    {
      var photo := photos[next];
      PhotosCostSnoc(slice, photo);
      assert photos[from..next + 1] == slice + [photo];
      var bytes := Bytes(PhotoJson(photo)) + if |slice| > 0 then 1 else 0;
      if |slice| > 0 && emptyRow + frameBytes + sliceBytes + bytes > ROW_BUDGET_BYTES { break; }
      slice := slice + [photo];
      sliceBytes := sliceBytes + bytes;
      next := next + 1;
    }
  }

  /** `added` with the slices from photo record `from` on after it. */
  ghost function SlicesOnto(added: seq<Item<SplitPoint>>, emptyRow: nat, placed: Placed, withText: bool,
                            from: nat, first: bool): seq<Item<SplitPoint>>
    requires from <= |placed.point.attachments|
    decreases |placed.point.attachments| - from, first
  {
    var photos := placed.point.attachments;
    if !first && from == |photos| then added
    else
      var end := NextEnd(emptyRow, placed, withText, from, first);
      SlicesOnto(added + [SplitItem(Slice(placed, withText, first, photos[from..end]))],
                 emptyRow, placed, withText, end, false)
  }

  lemma {:induction false} SlicesOntoIsConcat(added: seq<Item<SplitPoint>>, emptyRow: nat, placed: Placed,
                                              withText: bool, from: nat, first: bool)
    requires from <= |placed.point.attachments|
    ensures SlicesOnto(added, emptyRow, placed, withText, from, first)
         == added + Slices(emptyRow, placed, withText, from, first)
    decreases |placed.point.attachments| - from, first
  {
    var photos := placed.point.attachments;
    if first || from < |photos| {
      var end := NextEnd(emptyRow, placed, withText, from, first);
      var item := SplitItem(Slice(placed, withText, first, photos[from..end]));
      SlicesOntoIsConcat(added + [item], emptyRow, placed, withText, end, false);
    }
  }

  /** One slice into the rows being filled. */
  method AddSlice(filler: Filler<SplitPoint>, emptyRow: nat, placed: Placed, withText: bool, from: nat, first: bool)
    returns (next: nat)
    requires filler.Valid() && from <= |placed.point.attachments|
    modifies filler
    ensures filler.Valid()
    ensures next == NextEnd(emptyRow, placed, withText, from, first)
    ensures filler.added == old(filler.added)
                            + [SplitItem(Slice(placed, withText, first, placed.point.attachments[from..next]))]
  {
    hide SplitJson, Slice, SliceEnd, Bytes, PhotosCost, Filler<SplitPoint>.Valid;
    var frameBytes := SliceBytes(placed, withText, first, []);
    var slice, sliceBytes, end := FillSlice(emptyRow, frameBytes, placed.point.attachments, from);
    SliceCost(placed, withText, first, slice);
    filler.Add(Slice(placed, withText, first, slice), frameBytes + sliceBytes);
    next := end;
  }

  /** A point too big for an empty row, in slices of its photo records. */
  method AddSlices(filler: Filler<SplitPoint>, emptyRow: nat, placed: Placed, withText: bool)
    requires filler.Valid()
    modifies filler
    ensures filler.Valid()
    ensures filler.added == old(filler.added) + Slices(emptyRow, placed, withText, 0, true)
  {
    SlicesOntoIsConcat(filler.added, emptyRow, placed, withText, 0, true);
    hide Slice, Slices, NextEnd, Filler<SplitPoint>.Valid;
    var next, first := 0, true;
    while first || next < |placed.point.attachments|
      invariant filler.Valid() && next <= |placed.point.attachments|
      invariant SlicesOnto(filler.added, emptyRow, placed, withText, next, first)
             == SlicesOnto(old(filler.added), emptyRow, placed, withText, 0, true)
      decreases |placed.point.attachments| - next, first
    {
      next := AddSlice(filler, emptyRow, placed, withText, next, first);
      first := false;
    }
  }

  method AddPoint(filler: Filler<SplitPoint>, emptyRow: nat, placed: Placed, withText: bool)
    requires filler.Valid()
    modifies filler
    ensures filler.Valid()
    ensures filler.added == old(filler.added) + PointItems(emptyRow, placed, withText)
  {
    hide SplitJson, WholeSplit, Bytes, Slices, Filler<SplitPoint>.Valid;
    var whole := WholeSplit(placed, withText);
    var wholeBytes := Bytes(SplitJson(whole));
    if emptyRow + wholeBytes <= ROW_BUDGET_BYTES {
      filler.Add(whole, wholeBytes);
    } else {
      AddSlices(filler, emptyRow, placed, withText);
    }
  }

  // ── The rows of a removal ────────────────────────────────────────────────

  function RoomRows(removal: Removal): seq<seq<Json>> {
    RowValues(Fill(SummaryBase(removal), Items(SelfJson, removal.roomList)))
  }

  function ContributorRows(removal: Removal): seq<seq<Contributor>> {
    RowValues(Fill(ContributorBase(removal), Items(ContributorJson, removal.contributors)))
  }

  function PointRows(removal: Removal): seq<seq<SplitPoint>> {
    var base := PointBase(removal);
    RowValues(Fill(base, PointsItems(base, removal.points, !removal.pointTextInSummary)))
  }

  function SelfJson(json: Json): Json { json }

  /** Row 1, then the rest of the room list. */
  function SummaryAndRooms(removal: Removal, roomRows: seq<seq<Json>>, parts: nat): (rows: seq<Row>)
    requires removal.roomList != [] ==> roomRows != []
    ensures |rows| == if |roomRows| > 1 then |roomRows| else 1
  {
    var n := if |roomRows| > 1 then |roomRows| else 1;
    seq(n, i requires 0 <= i < n =>
      if i == 0
      then SummaryRow(removal.summary, 1, parts, if removal.roomList != [] then Some(roomRows[0]) else None)
      else if i < |roomRows| then RoomsRow(removal.context, i + 1, parts, roomRows[i])
      else SummaryRow(removal.summary, 1, parts, None))
  }

  function PeopleFrom(context: seq<Field>, before: nat, parts: nat, people: seq<seq<Contributor>>): seq<Row> {
    seq(|people|, i requires 0 <= i < |people| => ContributorsRow(context, before + i + 1, parts, people[i]))
  }

  function PointsFrom(context: seq<Field>, before: nat, parts: nat, points: seq<seq<SplitPoint>>): seq<Row> {
    seq(|points|, i requires 0 <= i < |points| => PointsRow(context, before + i + 1, parts, points[i]))
  }

  /** Row 1 and the rows of rooms, contributors and points, in that order. */
  function Assemble(removal: Removal, roomRows: seq<seq<Json>>, people: seq<seq<Contributor>>,
                    points: seq<seq<SplitPoint>>): seq<Row>
    requires removal.roomList != [] ==> roomRows != []
  {
    var summaryAndRooms := if |roomRows| > 1 then |roomRows| else 1;
    var parts := summaryAndRooms + |people| + |points|;
    SummaryAndRooms(removal, roomRows, parts)
    + PeopleFrom(removal.context, summaryAndRooms, parts, people)
    + PointsFrom(removal.context, summaryAndRooms + |people|, parts, points)
  }

  lemma RoomRowsPresent(removal: Removal)
    ensures removal.roomList != [] <==> RoomRows(removal) != []
  {
    var items := Items(SelfJson, removal.roomList);
    FillKeepsItems(SummaryBase(removal), items);
  }

  function Snapshots(removal: Removal): seq<Row> {
    RoomRowsPresent(removal);
    if Bytes(removal.whole) <= ROW_BUDGET_BYTES then [WholeRow(removal.whole)]
    else Assemble(removal, RoomRows(removal), ContributorRows(removal), PointRows(removal))
  }

  /** Adds items of known size one by one. */
  method FillAll<A>(base: nat, json: A -> Json, items: seq<A>) returns (rows: seq<seq<A>>)
    ensures rows == RowValues(Fill(base, Items(json, items)))
  {
    hide Filler<A>.Valid, Fill, RowValues;
    var filler := new Filler<A>(base);
    for i := 0 to |items|
      invariant filler.Valid() && filler.base == base
      invariant filler.added == Items(json, items)[..i]
    {
      filler.Add(items[i], Bytes(json(items[i])));
    }
    rows := filler.Finish();
    assert Items(json, items)[..|items|] == Items(json, items);
  }

  method RemovalSnapshots(removal: Removal) returns (rows: seq<Row>)
    ensures rows == Snapshots(removal)
  {
    RoomRowsPresent(removal);
    hide Bytes, Fill, RowValues, Assemble, PointItems, WithCounts, ContributorJson, Filler<SplitPoint>.Valid;
    if Bytes(removal.whole) <= ROW_BUDGET_BYTES { return [WholeRow(removal.whole)]; }
    var roomRows := FillAll(SummaryBase(removal), SelfJson, removal.roomList);

    var pointEmptyRow := PointBase(removal);
    var points := new Filler<SplitPoint>(pointEmptyRow);
    var withText := !removal.pointTextInSummary;
    for i := 0 to |removal.points|
      invariant points.Valid() && points.base == pointEmptyRow
      invariant points.added == PointsItems(pointEmptyRow, removal.points[..i], withText)
    {
      AddPoint(points, pointEmptyRow, removal.points[i], withText);
      assert removal.points[..i + 1][..i] == removal.points[..i];
    }
    assert removal.points[..|removal.points|] == removal.points;
    var pointRows := points.Finish();

    var contributorRows := FillAll(ContributorBase(removal), ContributorJson, removal.contributors);
    rows := Assemble(removal, roomRows, contributorRows, pointRows);
  }
}
