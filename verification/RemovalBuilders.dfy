/** The four removals the ledger records, and why none is refused for size. */
module RemovalBuilders {
  import opened Wrappers
  import opened Json
  import opened RowFiller
  import opened RemovalLedger
  import opened RemovalProofs
  import opened RemovalSizes

  function Text1(key: string, text: Text): Field { Field(T(key), Str(text)) }

  function Count1(key: string, n: nat): Field { Field(T(key), Num(n)) }

  function PointJson(point: Point): Json {
    Obj(StampFields(point.stamp)
        + [ Field(T("attachments"), Arr(Each(PhotoJson, point.attachments))),
            Text1("description", point.description), Text1("id", point.id) ])
  }

  function RoomJson(room: Room): Json {
    Obj(StampFields(room.stamp)
        + [ Text1("description", room.description), Text1("id", room.id), Text1("name", room.name),
            Field(T("points"), Arr(Each(PointJson, room.points))) ])
  }

  function PhotoCount(points: seq<Point>): nat {
    if points == [] then 0 else |points[0].attachments| + PhotoCount(points[1..])
  }

  function PlacedIn(points: seq<Point>, roomId: Text): seq<Placed> {
    seq(|points|, i requires 0 <= i < |points| => Placed(points[i], roomId))
  }

  function PlacedPoints(rooms: seq<Room>): seq<Placed> {
    if rooms == [] then []
    else PlacedIn(rooms[0].points, rooms[0].id) + PlacedPoints(rooms[1..])
  }

  function AllPoints(rooms: seq<Room>): seq<Point> {
    if rooms == [] then [] else rooms[0].points + AllPoints(rooms[1..])
  }

  // ── The builders ─────────────────────────────────────────────────────────

  function PointContext(point: Point, levelName: Text, roomId: Text, roomName: Text): seq<Field> {
    [ Text1("levelName", levelName), Text1("pointId", point.id), Text1("roomId", roomId), Text1("roomName", roomName) ]
  }

  function PointRemoval(point: Point, levelName: Text, roomId: Text, roomName: Text): Removal {
    var context := PointContext(point, levelName, roomId, roomName);
    var summary := StampFields(point.stamp)
      + [Count1("attachmentCount", |point.attachments|), Text1("description", point.description)] + context;
    Removal(context, [], true, [Placed(point, roomId)], [], summary,
            Obj(summary + [Field(T("attachments"), Arr(Each(PhotoJson, point.attachments)))]))
  }

  function PhotoRemoval(photo: Photo, levelName: Text, pointId: Text, roomId: Text, roomName: Text): Removal {
    var whole :=
      [Text1("attachmentId", photo.id)]
      + [ Text1("blobName", photo.blobName), Text1("fileName", photo.fileName), Text1("levelName", levelName) ]
      + [Text1("pointId", pointId)]
      + [ Text1("roomId", roomId), Text1("roomName", roomName),
          Field(T("uploadedAt"), OrNull(photo.uploadedAt)),
          Field(T("uploadedById"), OrNull(photo.uploadedById)),
          Field(T("uploadedByName"), OrNull(photo.uploadedByName)) ];
    Removal([Text1("attachmentId", photo.id)] + [Text1("pointId", pointId)], [], false, [], [], whole, Obj(whole))
  }

  function RoomRemoval(room: Room, levelId: Text, levelName: Text): Removal {
    var level := [Text1("levelId", levelId), Text1("levelName", levelName)];
    var own := [Text1("roomId", room.id), Text1("roomName", room.name)];
    var summary := [Count1("attachmentCount", PhotoCount(room.points))] + level
      + [ Count1("pointCount", |room.points|),
          Field(T("roomAddedAt"), OrNull(room.stamp.addedAt)),
          Field(T("roomAddedById"), OrNull(room.stamp.addedById)),
          Field(T("roomAddedByName"), OrNull(room.stamp.addedByName)),
          Text1("roomDescription", room.description) ]
      + own;
    Removal(level + own, [], false, PlacedIn(room.points, room.id), [], summary,
            Obj(summary + [Field(T("points"), Arr(Each(PointJson, room.points)))]))
  }

  function RoomSummary(room: Room): Json {
    Obj(StampFields(room.stamp)
        + [ Count1("attachmentCount", PhotoCount(room.points)), Text1("description", room.description),
            Text1("id", room.id), Text1("name", room.name), Count1("pointCount", |room.points|) ])
  }

  function LevelRemoval(addedAt: Option<Text>, id: Text, name: Text, rooms: seq<Room>,
                        people: seq<Contributor>): Removal {
    var level := [Text1("levelId", id), Text1("levelName", name)];
    var points := AllPoints(rooms);
    var summary := [Count1("attachmentCount", PhotoCount(points)), Field(T("levelAddedAt"), OrNull(addedAt))] + level
      + [Count1("pointCount", |points|), Count1("roomCount", |rooms|)];
    Removal(level, people, false, PlacedPoints(rooms), Each(RoomSummary, rooms), summary,
            Obj(summary + [ Field(T("contributors"), Arr(Each(ContributorJson, people))),
                            Field(T("rooms"), Arr(Each(RoomJson, rooms))) ]))
  }

  // ── Each row names what it belongs to ────────────────────────────────────

  lemma PartOfSummary(before: seq<Field>, part: seq<Field>, after: seq<Field>)
    ensures FieldsCost(part) + |part| <= FieldsCost(before + part + after) + |before + part + after|
  {
    FieldsCostConcat(before + part, after);
    FieldsCostConcat(before, part);
  }

  lemma TwoPartsOfSummary(before: seq<Field>, a: seq<Field>, between: seq<Field>, b: seq<Field>, after: seq<Field>)
    ensures FieldsCost(a + b) + |a + b|
         <= FieldsCost(before + a + between + b + after) + |before + a + between + b + after|
  {
    FieldsCostConcat(a, b);
    FieldsCostConcat(before + a + between + b, after);
    FieldsCostConcat(before + a + between, b);
    FieldsCostConcat(before + a, between);
    FieldsCostConcat(before, a);
  }

  lemma PointContextFits(point: Point, levelName: Text, roomId: Text, roomName: Text)
    ensures ContextWithinSummary(PointRemoval(point, levelName, roomId, roomName))
  {
    hide FieldsCost, T, PhotoJson;
    var removal := PointRemoval(point, levelName, roomId, roomName);
    var before := StampFields(point.stamp)
      + [Count1("attachmentCount", |point.attachments|), Text1("description", point.description)];
    PartOfSummary(before, removal.context, []);
    assert removal.summary == before + removal.context + [];
  }

  lemma PhotoContextFits(photo: Photo, levelName: Text, pointId: Text, roomId: Text, roomName: Text)
    ensures ContextWithinSummary(PhotoRemoval(photo, levelName, pointId, roomId, roomName))
  {
    hide FieldsCost, T, Text1;
    var removal := PhotoRemoval(photo, levelName, pointId, roomId, roomName);
    var between := [ Text1("blobName", photo.blobName), Text1("fileName", photo.fileName),
                     Text1("levelName", levelName) ];
    var after := removal.summary[5..];
    TwoPartsOfSummary([], [Text1("attachmentId", photo.id)], between, [Text1("pointId", pointId)], after);
    assert removal.summary
        == [] + [Text1("attachmentId", photo.id)] + between + [Text1("pointId", pointId)] + after;
  }

  lemma RoomContextFits(room: Room, levelId: Text, levelName: Text)
    ensures ContextWithinSummary(RoomRemoval(room, levelId, levelName))
  {
    hide FieldsCost, T, Text1, PointJson;
    var removal := RoomRemoval(room, levelId, levelName);
    var level, own := removal.summary[1..3], removal.summary[8..];
    TwoPartsOfSummary(removal.summary[..1], level, removal.summary[3..8], own, []);
    assert removal.context == level + own;
    assert removal.summary == removal.summary[..1] + level + removal.summary[3..8] + own + [];
  }

  lemma LevelContextFits(addedAt: Option<Text>, id: Text, name: Text, rooms: seq<Room>, people: seq<Contributor>)
    ensures ContextWithinSummary(LevelRemoval(addedAt, id, name, rooms, people))
  {
    hide FieldsCost, T, Text1, Count1, RoomJson, RoomSummary, AllPoints, PhotoCount, ContributorJson;
    var removal := LevelRemoval(addedAt, id, name, rooms, people);
    PartOfSummary(removal.summary[..2], removal.context, removal.summary[4..]);
    assert removal.summary == removal.summary[..2] + removal.context + removal.summary[4..];
  }

  // ── A level's points go back to their rooms ──────────────────────────────

  function InRoom(points: seq<SplitPoint>, roomId: Text): seq<SplitPoint> {
    if points == [] then []
    else (if points[0].roomId == roomId then [points[0]] else []) + InRoom(points[1..], roomId)
  }

  lemma {:induction false} InRoomConcat(a: seq<SplitPoint>, b: seq<SplitPoint>, roomId: Text)
    ensures InRoom(a + b, roomId) == InRoom(a, roomId) + InRoom(b, roomId)
  {
    if a == [] {
      assert a + b == b;
    } else {
      var own := if a[0].roomId == roomId then [a[0]] else [];
      assert (a + b)[0] == a[0] && (a + b)[1..] == a[1..] + b;
      assert InRoom(a + b, roomId) == own + InRoom(a[1..] + b, roomId);
      InRoomConcat(a[1..], b, roomId);
      assert InRoom(a, roomId) == own + InRoom(a[1..], roomId);
    }
  }

  lemma {:induction false} InRoomSame(points: seq<SplitPoint>, roomId: Text)
    ensures (forall i :: 0 <= i < |points| ==> points[i].roomId == roomId) ==> InRoom(points, roomId) == points
    ensures (forall i :: 0 <= i < |points| ==> points[i].roomId != roomId) ==> InRoom(points, roomId) == []
  {
    if points != [] {
      InRoomSame(points[1..], roomId);
    }
  }

  predicate DistinctRooms(rooms: seq<Room>) {
    forall i, j :: 0 <= i < j < |rooms| ==> rooms[i].id != rooms[j].id
  }

  lemma {:induction false} LevelPointsByRoom(rooms: seq<Room>, k: nat)
    requires DistinctRooms(rooms) && k < |rooms|
    ensures InRoom(Wholes(PlacedPoints(rooms), true), rooms[k].id)
         == Wholes(PlacedIn(rooms[k].points, rooms[k].id), true)
  {
    var first := Wholes(PlacedIn(rooms[0].points, rooms[0].id), true);
    var rest := Wholes(PlacedPoints(rooms[1..]), true);
    assert Wholes(PlacedPoints(rooms), true) == first + rest;
    InRoomConcat(first, rest, rooms[k].id);
    InRoomSame(first, rooms[k].id);
    if k > 0 {
      LevelPointsByRoom(rooms[1..], k - 1);
    } else {
      RestElsewhere(rooms[1..], rooms[0].id);
    }
  }

  lemma {:induction false} RestElsewhere(rooms: seq<Room>, roomId: Text)
    requires forall i :: 0 <= i < |rooms| ==> rooms[i].id != roomId
    ensures InRoom(Wholes(PlacedPoints(rooms), true), roomId) == []
  {
    if rooms != [] {
      RestElsewhere(rooms[1..], roomId);
      var first := Wholes(PlacedIn(rooms[0].points, rooms[0].id), true);
      assert Wholes(PlacedPoints(rooms), true) == first + Wholes(PlacedPoints(rooms[1..]), true);
      InRoomConcat(first, Wholes(PlacedPoints(rooms[1..]), true), roomId);
      InRoomSame(first, roomId);
    }
  }

  /** A point read back from a row that carries its text. */
  function PointOf(point: SplitPoint): Point
    requires point.text.Some?
  {
    Point(point.text.value.stamp, point.attachments, point.text.value.description, point.id)
  }

  /** The rows of a split level removal put every room's points back: the
      slices naming the room, rejoined, are exactly its points. */
  lemma LevelRestored(addedAt: Option<Text>, id: Text, name: Text, rooms: seq<Room>, people: seq<Contributor>, k: nat)
    requires IsSplit(LevelRemoval(addedAt, id, name, rooms, people))
    requires DistinctRooms(rooms) && k < |rooms|
    ensures
      var removal := LevelRemoval(addedAt, id, name, rooms, people);
      var back := InRoom(Rejoin(Gather(PointsIn, Snapshots(removal))), rooms[k].id);
      && |back| == |rooms[k].points|
      && forall i :: 0 <= i < |back| ==> back[i].text.Some? && PointOf(back[i]) == rooms[k].points[i]
  {
    var removal := LevelRemoval(addedAt, id, name, rooms, people);
    SnapshotsRebuild(removal);
    LevelPointsByRoom(rooms, k);
    hide Snapshots, Rejoin, Gather, InRoom, Bytes;
  }

  // ── No removal is refused for size ───────────────────────────────────────

  predicate StampWithin(stamp: Stamp) {
    && (stamp.addedAt.Some? ==> |stamp.addedAt.value| <= 40)
    && (stamp.addedById.Some? ==> |stamp.addedById.value| <= 200)
    && (stamp.addedByName.Some? ==> |stamp.addedByName.value| <= 200)
  }

  predicate PhotoWithin(photo: Photo) {
    && |photo.blobName| <= 500 && |photo.fileName| <= 500 && |photo.id| <= 40
    && StampWithin(Stamp(photo.uploadedAt, photo.uploadedById, photo.uploadedByName))
  }

  /** A point as the inspection may hold it: its text capped at 5,000 code
      units, its other columns at their widths. */
  predicate PointWithin(point: Point) {
    && StampWithin(point.stamp) && |point.description| <= 5000 && |point.id| <= 40
    && forall i :: 0 <= i < |point.attachments| ==> PhotoWithin(point.attachments[i])
  }

  predicate RoomWithin(room: Room) {
    && StampWithin(room.stamp) && |room.description| <= 500 && |room.id| <= 40 && |room.name| <= 200
    && forall i :: 0 <= i < |room.points| ==> PointWithin(room.points[i])
  }

  predicate ContributorWithin(person: Contributor) { |person.id| <= 200 && |person.name| <= 200 }

  lemma FieldsCostCons(f: Field, rest: seq<Field>)
    ensures FieldsCost([f] + rest) == FieldCost(f) + FieldsCost(rest)
  {
    FieldsCostOne(f);
    FieldsCostConcat([f], rest);
  }

  lemma Cost2(a: Field, b: Field)
    ensures FieldsCost([a, b]) == FieldCost(a) + FieldCost(b)
  {
    FieldsCostOne(b);
    FieldsCostCons(a, [b]);
    assert [a, b] == [a] + [b];
  }

  lemma Cost3(a: Field, b: Field, c: Field)
    ensures FieldsCost([a, b, c]) == FieldCost(a) + FieldCost(b) + FieldCost(c)
  {
    Cost2(b, c);
    FieldsCostCons(a, [b, c]);
    assert [a, b, c] == [a] + [b, c];
  }

  lemma Cost4(a: Field, b: Field, c: Field, d: Field)
    ensures FieldsCost([a, b, c, d]) == FieldCost(a) + FieldCost(b) + FieldCost(c) + FieldCost(d)
  {
    Cost3(b, c, d);
    FieldsCostCons(a, [b, c, d]);
    assert [a, b, c, d] == [a] + [b, c, d];
  }

  lemma KeyBound(key: string)
    ensures StrBytes(T(key)) <= 2 + 6 * |key|
  {
    UnitsBytesBound(T(key));
  }

  lemma TextBound(key: string, text: Text)
    ensures FieldCost(Text1(key, text)) <= 5 + 6 * |key| + 6 * |text|
  {
    KeyBound(key);
    UnitsBytesBound(text);
  }

  lemma OrNullBound(key: string, text: Option<Text>, max: nat)
    requires text.Some? ==> |text.value| <= max
    ensures FieldCost(Field(T(key), OrNull(text))) <= 7 + 6 * |key| + 6 * max
  {
    KeyBound(key);
    if text.Some? { UnitsBytesBound(text.value); }
  }

  lemma CountBound(key: string, n: nat)
    ensures FieldCost(Count1(key, n)) <= 3 + 6 * |key| + Digits(n)
  {
    KeyBound(key);
  }

  lemma StampBound(stamp: Stamp)
    requires StampWithin(stamp)
    ensures FieldsCost(StampFields(stamp)) <= 2900
  {
    hide T, FieldCost, FieldsCost;
    OrNullBound("addedAt", stamp.addedAt, 40);
    OrNullBound("addedById", stamp.addedById, 200);
    OrNullBound("addedByName", stamp.addedByName, 200);
    Cost3(Field(T("addedAt"), OrNull(stamp.addedAt)), Field(T("addedById"), OrNull(stamp.addedById)),
          Field(T("addedByName"), OrNull(stamp.addedByName)));
  }

  lemma PhotoBound(photo: Photo)
    requires PhotoWithin(photo)
    ensures Bytes(PhotoJson(photo)) <= 9300
  {
    hide T, FieldCost, FieldsCost, Bytes;
    TextBound("blobName", photo.blobName);
    TextBound("fileName", photo.fileName);
    TextBound("id", photo.id);
    OrNullBound("uploadedAt", photo.uploadedAt, 40);
    OrNullBound("uploadedById", photo.uploadedById, 200);
    OrNullBound("uploadedByName", photo.uploadedByName, 200);
    var a, b, c := Text1("blobName", photo.blobName), Text1("fileName", photo.fileName), Text1("id", photo.id);
    var d, e, f := Field(T("uploadedAt"), OrNull(photo.uploadedAt)),
                   Field(T("uploadedById"), OrNull(photo.uploadedById)),
                   Field(T("uploadedByName"), OrNull(photo.uploadedByName));
    Cost3(a, b, c);
    Cost3(d, e, f);
    FieldsCostConcat([a, b, c], [d, e, f]);
    assert [a, b, c] + [d, e, f] == [a, b, c, d, e, f];
    ObjBytes([a, b, c, d, e, f]);
  }

  lemma TailBound(point: SplitPoint)
    requires |point.id| <= 40 && |point.roomId| <= 40
    requires point.text.Some? ==> StampWithin(point.text.value.stamp) && |point.text.value.description| <= 5000
    ensures FieldsCost(SplitTail(point)) <= 33600 && |SplitTail(point)| <= 7
  {
    hide T, FieldCost, FieldsCost, Bytes;
    var names := [Field(T("id"), Str(point.id)), Field(T("roomId"), Str(point.roomId))];
    var text := if point.text.Some?
       then StampFields(point.text.value.stamp) + [Field(T("description"), Str(point.text.value.description))]
       else [];
    var mark := if point.continued then [Field(T("continued"), True)] else [];
    TextBound("id", point.id);
    TextBound("roomId", point.roomId);
    Cost2(Text1("id", point.id), Text1("roomId", point.roomId));
    FieldsCostNone();
    if point.text.Some? {
      var stamp := StampFields(point.text.value.stamp);
      StampBound(point.text.value.stamp);
      TextBound("description", point.text.value.description);
      FieldsCostOne(Text1("description", point.text.value.description));
      FieldsCostConcat(stamp, [Text1("description", point.text.value.description)]);
    }
    if point.continued {
      ContinuedBound();
    }
    FieldsCostConcat(names + text, mark);
    FieldsCostConcat(names, text);
  }

  lemma FieldsCostNone()
    ensures FieldsCost([]) == 0
  {
  }

  lemma ContinuedBound()
    ensures FieldsCost([Field(T("continued"), True)]) <= 61
  {
    KeyBound("continued");
    FieldsCostOne(Field(T("continued"), True));
  }

  lemma EmptyListBound(key: string)
    ensures FieldsCost(EmptyList(key)) <= 5 + 6 * |key|
  {
    KeyBound(key);
    FieldsCostOne(Field(T(key), Arr([])));
    assert Sizes([]) == [];
  }

  lemma FrameBound(placed: Placed, withText: bool, first: bool)
    requires PointWithin(placed.point) && |placed.roomId| <= 40
    ensures SliceBytes(placed, withText, first, []) <= 33700
  {
    var frame := Slice(placed, withText, first, []);
    hide T, FieldCost, FieldsCost, Bytes, PhotoJson, SplitTail;
    TailBound(frame);
    EmptyListBound("attachments");
    FieldsCostConcat(EmptyList("attachments"), SplitTail(frame));
    ObjBytes(EmptyList("attachments") + SplitTail(frame));
    EachNone(PhotoJson);
    assert SplitJson(frame) == Obj(EmptyList("attachments") + SplitTail(frame));
  }

  lemma PieceBound(placed: Placed, withText: bool, first: bool, photos: seq<Photo>)
    requires PointWithin(placed.point) && |placed.roomId| <= 40
    requires |photos| <= 1 && (photos != [] ==> PhotoWithin(photos[0]))
    ensures SliceBytes(placed, withText, first, photos) <= 43000
  {
    hide SliceBytes, PhotoWithin, PointWithin, PhotosCost, PhotoJson, Bytes;
    FrameBound(placed, withText, first);
    SliceCost(placed, withText, first, photos);
    PhotosCostNone();
    if photos != [] {
      PhotosCostSnoc([], photos[0]);
      PhotoBound(photos[0]);
      assert [] + [photos[0]] == photos;
    } else {
      assert photos == [];
    }
  }

  /** The pieces of any point within its limits fit, with 14,000 bytes to spare
      for what an empty row costs. */
  lemma PointPieces(emptyRow: nat, placed: Placed, withText: bool)
    requires PointWithin(placed.point) && |placed.roomId| <= 40 && emptyRow <= 14000
    ensures PointPiecesFit(emptyRow, placed, withText)
  {
    hide SliceBytes, PhotoWithin, Bytes, WholeSplit, SplitJson;
    var photos := placed.point.attachments;
    PieceBound(placed, withText, true, if photos == [] then [] else photos[..1]);
    forall i | 1 <= i < |photos| ensures SliceBytes(placed, withText, false, [photos[i]]) <= 43000 {
      PieceBound(placed, withText, false, [photos[i]]);
    }
  }

  lemma CountsBound()
    ensures FieldsCost(Counts(WIDEST_COUNT, WIDEST_COUNT)) <= 80
  {
    hide T, FieldCost, FieldsCost, Digits;
    WidestDigits();
    CountBound("part", WIDEST_COUNT);
    CountBound("parts", WIDEST_COUNT);
    Cost2(Count1("part", WIDEST_COUNT), Count1("parts", WIDEST_COUNT));
  }

  lemma BaseBound(fields: seq<Field>, key: string)
    requires |key| <= 12
    ensures Bytes(WithCounts(fields, EmptyList(key))) <= FieldsCost(fields) + |fields| + 170
    ensures Bytes(WithCounts(fields, [])) <= FieldsCost(fields) + |fields| + 170
  {
    hide T, FieldsCost, Bytes;
    CountsBound();
    EmptyListBound(key);
    FieldsCostNone();
    var widest := Counts(WIDEST_COUNT, WIDEST_COUNT);
    ThreeCost(fields, widest, EmptyList(key));
    ThreeCost(fields, widest, []);
    FieldsCostConcat(fields + EmptyList(key), widest);
    FieldsCostConcat(fields, EmptyList(key));
    ObjBytes(fields + EmptyList(key) + widest);
    assert fields + [] + widest == fields + widest + [];
  }

  /** A count of at most twenty digits. */
  predicate Counted(n: nat) { Digits(n) <= 20 }

  predicate PlaceWithin(levelName: Text, roomId: Text, roomName: Text) {
    |levelName| <= 100 && |roomId| <= 40 && |roomName| <= 200
  }

  lemma PointContextBound(point: Point, levelName: Text, roomId: Text, roomName: Text)
    requires |point.id| <= 40 && PlaceWithin(levelName, roomId, roomName)
    ensures FieldsCost(PointContext(point, levelName, roomId, roomName)) <= 2500
  {
    hide T, FieldCost, FieldsCost, Text1;
    TextBound("levelName", levelName);
    TextBound("pointId", point.id);
    TextBound("roomId", roomId);
    TextBound("roomName", roomName);
    Cost4(Text1("levelName", levelName), Text1("pointId", point.id), Text1("roomId", roomId),
          Text1("roomName", roomName));
  }

  lemma PointPiecesAlwaysFit(point: Point, levelName: Text, roomId: Text, roomName: Text)
    requires PointWithin(point) && PlaceWithin(levelName, roomId, roomName)
    requires Counted(|point.attachments|)
    ensures PiecesFit(PointRemoval(point, levelName, roomId, roomName))
  {
    hide T, FieldCost, FieldsCost, Text1, Count1, Bytes, Digits, StampFields, PhotoJson, PointPiecesFit,
         PhotoWithin, WithCounts;
    var removal := PointRemoval(point, levelName, roomId, roomName);
    var context := PointContext(point, levelName, roomId, roomName);
    var count, text := Count1("attachmentCount", |point.attachments|), Text1("description", point.description);
    PointContextBound(point, levelName, roomId, roomName);
    StampBound(point.stamp);
    CountBound("attachmentCount", |point.attachments|);
    TextBound("description", point.description);
    Cost2(count, text);
    FieldsCostConcat(StampFields(point.stamp) + [count, text], context);
    FieldsCostConcat(StampFields(point.stamp), [count, text]);
    StampLength(point.stamp);
    BaseBound(removal.summary, "rooms");
    BaseBound(removal.context, "points");
    PointPieces(PointBase(removal), removal.points[0], false);
  }

  lemma StampLength(stamp: Stamp)
    ensures |StampFields(stamp)| == 3
  {
  }

  lemma PhotoAlwaysOneRow(photo: Photo, levelName: Text, pointId: Text, roomId: Text, roomName: Text)
    requires PhotoWithin(photo) && |pointId| <= 40 && PlaceWithin(levelName, roomId, roomName)
    ensures !IsSplit(PhotoRemoval(photo, levelName, pointId, roomId, roomName))
  {
    hide T, FieldCost, FieldsCost, Text1, Bytes;
    var removal := PhotoRemoval(photo, levelName, pointId, roomId, roomName);
    TextBound("attachmentId", photo.id);
    TextBound("blobName", photo.blobName);
    TextBound("fileName", photo.fileName);
    TextBound("levelName", levelName);
    TextBound("pointId", pointId);
    TextBound("roomId", roomId);
    TextBound("roomName", roomName);
    OrNullBound("uploadedAt", photo.uploadedAt, 40);
    OrNullBound("uploadedById", photo.uploadedById, 200);
    OrNullBound("uploadedByName", photo.uploadedByName, 200);
    var a, b := Text1("attachmentId", photo.id), Text1("blobName", photo.blobName);
    var c := Text1("fileName", photo.fileName);
    var d, e, f := Text1("levelName", levelName), Text1("pointId", pointId), Text1("roomId", roomId);
    var g, h := Text1("roomName", roomName), Field(T("uploadedAt"), OrNull(photo.uploadedAt));
    var i := Field(T("uploadedById"), OrNull(photo.uploadedById));
    var j := Field(T("uploadedByName"), OrNull(photo.uploadedByName));
    Cost3(a, b, c);
    Cost3(d, e, f);
    Cost4(g, h, i, j);
    FieldsCostConcat([a, b, c] + [d, e, f], [g, h, i, j]);
    FieldsCostConcat([a, b, c], [d, e, f]);
    assert removal.summary == [a, b, c] + [d, e, f] + [g, h, i, j];
    ObjBytes(removal.summary);
  }

  lemma RoomSummaryBound(room: Room)
    requires RoomWithin(room) && Counted(PhotoCount(room.points)) && Counted(|room.points|)
    ensures Bytes(RoomSummary(room)) <= 8000
  {
    hide T, FieldCost, FieldsCost, Text1, Count1, Bytes, Digits, StampFields, PointWithin, PhotoCount;
    var a := Count1("attachmentCount", PhotoCount(room.points));
    var b, c := Text1("description", room.description), Text1("id", room.id);
    var d, e := Text1("name", room.name), Count1("pointCount", |room.points|);
    StampBound(room.stamp);
    StampLength(room.stamp);
    CountBound("attachmentCount", PhotoCount(room.points));
    TextBound("description", room.description);
    TextBound("id", room.id);
    TextBound("name", room.name);
    CountBound("pointCount", |room.points|);
    Cost3(a, b, c);
    Cost2(d, e);
    FieldsCostConcat([a, b, c], [d, e]);
    assert [a, b, c] + [d, e] == [a, b, c, d, e];
    FieldsCostConcat(StampFields(room.stamp), [a, b, c, d, e]);
    ObjBytes(StampFields(room.stamp) + [a, b, c, d, e]);
  }

  lemma ContributorBound(person: Contributor)
    requires ContributorWithin(person)
    ensures Bytes(ContributorJson(person)) <= 2500
  {
    hide T, FieldCost, FieldsCost, Bytes;
    TextBound("id", person.id);
    TextBound("name", person.name);
    Cost2(Text1("id", person.id), Text1("name", person.name));
    ObjBytes([Text1("id", person.id), Text1("name", person.name)]);
  }

  lemma RoomPiecesAlwaysFit(room: Room, levelId: Text, levelName: Text)
    requires RoomWithin(room) && |levelId| <= 40 && |levelName| <= 100
    requires Counted(PhotoCount(room.points)) && Counted(|room.points|)
    ensures PiecesFit(RoomRemoval(room, levelId, levelName))
  {
    hide T, FieldCost, FieldsCost, Text1, Count1, Bytes, Digits, PhotoJson, PointJson, PointPiecesFit, PointWithin,
         WithCounts, PhotoCount;
    var removal := RoomRemoval(room, levelId, levelName);
    var a := Count1("attachmentCount", PhotoCount(room.points));
    var b, c := Text1("levelId", levelId), Text1("levelName", levelName);
    var d, e, f := Count1("pointCount", |room.points|), Field(T("roomAddedAt"), OrNull(room.stamp.addedAt)),
                   Field(T("roomAddedById"), OrNull(room.stamp.addedById));
    var g, h := Field(T("roomAddedByName"), OrNull(room.stamp.addedByName)), Text1("roomDescription", room.description);
    var i, j := Text1("roomId", room.id), Text1("roomName", room.name);
    CountBound("attachmentCount", PhotoCount(room.points));
    TextBound("levelId", levelId);
    TextBound("levelName", levelName);
    CountBound("pointCount", |room.points|);
    OrNullBound("roomAddedAt", room.stamp.addedAt, 40);
    OrNullBound("roomAddedById", room.stamp.addedById, 200);
    OrNullBound("roomAddedByName", room.stamp.addedByName, 200);
    TextBound("roomDescription", room.description);
    TextBound("roomId", room.id);
    TextBound("roomName", room.name);
    Cost3(a, b, c);
    Cost3(d, e, f);
    Cost4(g, h, i, j);
    Cost4(b, c, i, j);
    FieldsCostConcat([a, b, c] + [d, e, f], [g, h, i, j]);
    FieldsCostConcat([a, b, c], [d, e, f]);
    assert removal.summary == [a, b, c] + [d, e, f] + [g, h, i, j];
    assert removal.context == [b, c, i, j];
    BaseBound(removal.summary, "rooms");
    BaseBound(removal.context, "points");
    forall k | 0 <= k < |removal.points| ensures PointPiecesFit(PointBase(removal), removal.points[k], true) {
      PointPieces(PointBase(removal), removal.points[k], true);
    }
  }

  lemma {:induction false} PlacedPointsWithin(rooms: seq<Room>)
    requires forall i :: 0 <= i < |rooms| ==> RoomWithin(rooms[i])
    ensures forall k :: 0 <= k < |PlacedPoints(rooms)| ==>
      PointWithin(PlacedPoints(rooms)[k].point) && |PlacedPoints(rooms)[k].roomId| <= 40
  {
    hide PointWithin, StampWithin;
    if rooms != [] {
      PlacedPointsWithin(rooms[1..]);
      assert RoomWithin(rooms[0]);
    }
  }

  lemma LevelFieldsBound(addedAt: Option<Text>, id: Text, name: Text, rooms: seq<Room>, people: seq<Contributor>)
    requires |id| <= 40 && |name| <= 100 && (addedAt.Some? ==> |addedAt.value| <= 40)
    requires Counted(PhotoCount(AllPoints(rooms))) && Counted(|AllPoints(rooms)|) && Counted(|rooms|)
    ensures
      var removal := LevelRemoval(addedAt, id, name, rooms, people);
      && FieldsCost(removal.summary) <= 3000 && |removal.summary| == 6
      && FieldsCost(removal.context) <= 3000 && |removal.context| == 2
  {
    hide T, FieldCost, FieldsCost, Text1, Count1, Bytes, Digits, PhotoCount, AllPoints, PlacedPoints, RoomJson,
         RoomSummary, ContributorJson;
    var removal := LevelRemoval(addedAt, id, name, rooms, people);
    var a, b := Count1("attachmentCount", PhotoCount(AllPoints(rooms))), Field(T("levelAddedAt"), OrNull(addedAt));
    var c, d := Text1("levelId", id), Text1("levelName", name);
    var e, f := Count1("pointCount", |AllPoints(rooms)|), Count1("roomCount", |rooms|);
    CountBound("attachmentCount", PhotoCount(AllPoints(rooms)));
    OrNullBound("levelAddedAt", addedAt, 40);
    TextBound("levelId", id);
    TextBound("levelName", name);
    CountBound("pointCount", |AllPoints(rooms)|);
    CountBound("roomCount", |rooms|);
    Cost4(a, b, c, d);
    Cost2(e, f);
    Cost2(c, d);
    FieldsCostConcat([a, b, c, d], [e, f]);
    assert removal.summary == [a, b, c, d] + [e, f];
    assert removal.context == [c, d];
  }

  lemma LevelPiecesAlwaysFit(addedAt: Option<Text>, id: Text, name: Text, rooms: seq<Room>, people: seq<Contributor>)
    requires |id| <= 40 && |name| <= 100 && (addedAt.Some? ==> |addedAt.value| <= 40)
    requires Counted(PhotoCount(AllPoints(rooms))) && Counted(|AllPoints(rooms)|) && Counted(|rooms|)
    requires forall i :: 0 <= i < |rooms| ==>
      RoomWithin(rooms[i]) && Counted(PhotoCount(rooms[i].points)) && Counted(|rooms[i].points|)
    requires forall i :: 0 <= i < |people| ==> ContributorWithin(people[i])
    ensures PiecesFit(LevelRemoval(addedAt, id, name, rooms, people))
  {
    hide T, FieldCost, FieldsCost, Text1, Count1, Bytes, Digits, PhotoCount, AllPoints, PlacedPoints, RoomJson,
         RoomSummary, ContributorJson, PointPiecesFit, PointWithin, WithCounts, RoomWithin,
         ContributorWithin;
    var removal := LevelRemoval(addedAt, id, name, rooms, people);
    LevelFieldsBound(addedAt, id, name, rooms, people);
    BaseBound(removal.summary, "rooms");
    BaseBound(removal.context, "points");
    BaseBound(removal.context, "contributors");
    forall i | 0 <= i < |removal.roomList|
      ensures SummaryBase(removal) + Bytes(removal.roomList[i]) <= ROW_BUDGET_BYTES {
      RoomSummaryBound(rooms[i]);
    }
    forall i | 0 <= i < |people|
      ensures ContributorBase(removal) + Bytes(ContributorJson(people[i])) <= ROW_BUDGET_BYTES {
      ContributorBound(people[i]);
    }
    PlacedPointsWithin(rooms);
    forall i | 0 <= i < |removal.points| ensures PointPiecesFit(PointBase(removal), removal.points[i], true) {
      PointPieces(PointBase(removal), removal.points[i], true);
    }
  }

  /** Every row of the removal passes the ledger's own check. */
  ghost predicate NeverRefused(removal: Removal) {
    forall row <- Snapshots(removal) :: Bytes(RowJson(row)) <= LEDGER_MAX_SNAPSHOT_BYTES
  }

  // ── How many rows a removal can take ─────────────────────────────────────

  function PointsOf(points: seq<Placed>): seq<Point> {
    seq(|points|, i requires 0 <= i < |points| => points[i].point)
  }

  /** Row 1, and one for each room, contributor, point and photo record. */
  function MostRows(removal: Removal): nat {
    1 + |removal.roomList| + |removal.contributors| + |removal.points| + PhotoCount(PointsOf(removal.points))
  }

  lemma {:induction false} FillAtMost<A>(base: nat, items: seq<Item<A>>)
    ensures |Fill(base, items)| <= |items|
  {
    if items != [] {
      FillAtMost(base, items[..|items| - 1]);
    }
  }

  lemma {:induction false} SlicesAtMost(emptyRow: nat, placed: Placed, withText: bool, from: nat, first: bool)
    requires from <= |placed.point.attachments|
    ensures |Slices(emptyRow, placed, withText, from, first)|
         <= |placed.point.attachments| - from + if first then 1 else 0
    decreases |placed.point.attachments| - from, first
  {
    hide NextEnd, Slice, SplitItem;
    if first || from < |placed.point.attachments| {
      SlicesAtMost(emptyRow, placed, withText, NextEnd(emptyRow, placed, withText, from, first), false);
    }
  }

  lemma {:induction false} PhotoCountSnoc(points: seq<Point>)
    requires points != []
    ensures PhotoCount(points) == PhotoCount(points[..|points| - 1]) + |points[|points| - 1].attachments|
  {
    if |points| > 1 {
      PhotoCountSnoc(points[1..]);
      assert points[..|points| - 1][1..] == points[1..][..|points| - 2];
    }
  }

  lemma PointAtMost(emptyRow: nat, placed: Placed, withText: bool)
    ensures |PointItems(emptyRow, placed, withText)| <= 1 + |placed.point.attachments|
  {
    SlicesAtMost(emptyRow, placed, withText, 0, true);
    hide Slices, SplitItem, WholeSplit;
  }

  lemma {:induction false} PointsAtMost(emptyRow: nat, points: seq<Placed>, withText: bool)
    ensures |PointsItems(emptyRow, points, withText)| <= |points| + PhotoCount(PointsOf(points))
  {
    if points != [] {
      var n := |points| - 1;
      PointsAtMost(emptyRow, points[..n], withText);
      hide PointItems, PhotoCount;
      PointAtMost(emptyRow, points[n], withText);
      PhotoCountSnoc(PointsOf(points));
      assert PointsOf(points)[..n] == PointsOf(points[..n]);
    }
  }

  lemma RowsAtMost(removal: Removal)
    ensures |Snapshots(removal)| <= MostRows(removal)
  {
    hide Bytes, Fill, PointsItems, PhotoCount, PointBase, SummaryBase, ContributorBase;
    FillAtMost(SummaryBase(removal), Items(SelfJson, removal.roomList));
    FillAtMost(ContributorBase(removal), Items(ContributorJson, removal.contributors));
    FillAtMost(PointBase(removal), PointsItems(PointBase(removal), removal.points, !removal.pointTextInSummary));
    PointsAtMost(PointBase(removal), removal.points, !removal.pointTextInSummary);
  }

  /** With pieces that fit, a removal of fewer than 99,999 rooms, contributors,
      points and photo records in all keeps every row within the row budget. */
  lemma SmallFitsBudget(removal: Removal)
    requires IsSplit(removal) && PiecesFit(removal) && ContextWithinSummary(removal)
    requires MostRows(removal) <= WIDEST_COUNT
    ensures forall row <- Snapshots(removal) :: Bytes(RowJson(row)) <= ROW_BUDGET_BYTES
  {
    hide *;
    RowsAtMost(removal);
    RowsFitBudget(removal);
  }

  /** A sum, with a carry, has at most one digit more than its longer part. */
  lemma {:induction false} DigitsSum(a: nat, b: nat, carry: nat)
    requires carry <= 1
    ensures Digits(a + b + carry) <= 1 + if Digits(a) >= Digits(b) then Digits(a) else Digits(b)
  {
    if a >= 10 || b >= 10 {
      var on := (a % 10 + b % 10 + carry) / 10;
      assert (a + b + carry) / 10 == a / 10 + b / 10 + on;
      DigitsSum(a / 10, b / 10, on);
    }
  }

  lemma CountedSum(a: nat, b: nat, c: nat, d: nat)
    requires Counted(a) && Counted(b) && Counted(c) && Counted(d)
    ensures Digits(1 + a + b + c + d) <= 24
  {
    hide Digits;
    DigitsSum(a, b, 1);
    DigitsSum(a + b + 1, c, 0);
    DigitsSum(a + b + 1 + c, d, 0);
  }

  lemma FewRows(removal: Removal)
    requires Counted(|removal.roomList|) && Counted(|removal.contributors|)
    requires Counted(|removal.points|) && Counted(PhotoCount(PointsOf(removal.points)))
    ensures Digits(|Snapshots(removal)|) <= 4101
  {
    hide Digits, Snapshots, PhotoCount, Counted;
    RowsAtMost(removal);
    CountedSum(|removal.roomList|, |removal.contributors|, |removal.points|, PhotoCount(PointsOf(removal.points)));
    DigitsMonotone(|Snapshots(removal)|, MostRows(removal));
  }

  lemma {:induction false} PlacedPointsOf(rooms: seq<Room>)
    ensures PointsOf(PlacedPoints(rooms)) == AllPoints(rooms)
  {
    if rooms != [] {
      PlacedPointsOf(rooms[1..]);
      assert PointsOf(PlacedIn(rooms[0].points, rooms[0].id)) == rooms[0].points;
    }
  }

  lemma PiecesFitNeverRefused(removal: Removal)
    requires PiecesFit(removal) && ContextWithinSummary(removal) && Digits(|Snapshots(removal)|) <= 4101
    ensures NeverRefused(removal)
  {
    if IsSplit(removal) {
      hide PiecesFit, ContextWithinSummary, Bytes, Digits, Snapshots;
      RowsFitLedger(removal);
    } else {
      OneRowFits(removal);
    }
  }

  lemma OneRowFits(removal: Removal)
    requires !IsSplit(removal)
    ensures NeverRefused(removal)
  {
  }

  lemma {:induction false} RoomCounts(rooms: seq<Room>, i: nat)
    requires i < |rooms|
    ensures |rooms[i].points| <= |AllPoints(rooms)| && PhotoCount(rooms[i].points) <= PhotoCount(AllPoints(rooms))
  {
    PhotoCountConcat(rooms[0].points, AllPoints(rooms[1..]));
    if i > 0 {
      RoomCounts(rooms[1..], i - 1);
    }
  }

  lemma {:induction false} PhotoCountConcat(a: seq<Point>, b: seq<Point>)
    ensures PhotoCount(a + b) == PhotoCount(a) + PhotoCount(b)
  {
    if a == [] {
      assert a + b == b;
    } else {
      assert (a + b)[1..] == a[1..] + b;
      PhotoCountConcat(a[1..], b);
    }
  }

  lemma FewerCounted(a: nat, b: nat)
    requires a <= b && Counted(b)
    ensures Counted(a)
  {
    DigitsMonotone(a, b);
  }

  /** A point, photo, room or level whose text is within its limits is never
      refused for size, however many photos it has. */
  lemma PointNeverRefused(point: Point, levelName: Text, roomId: Text, roomName: Text)
    requires PointWithin(point) && PlaceWithin(levelName, roomId, roomName) && Counted(|point.attachments|)
    ensures NeverRefused(PointRemoval(point, levelName, roomId, roomName))
  {
    var removal := PointRemoval(point, levelName, roomId, roomName);
    assert PointsOf(removal.points) == [point] && PhotoCount([point]) == |point.attachments| + PhotoCount([]);
    assert Counted(0) && Counted(1);
    assert |removal.points| == 1 && removal.roomList == [] && removal.contributors == [];
    hide *;
    FewRows(removal);
    PointPiecesAlwaysFit(point, levelName, roomId, roomName);
    PointContextFits(point, levelName, roomId, roomName);
    PiecesFitNeverRefused(removal);
  }

  lemma PhotoNeverRefused(photo: Photo, levelName: Text, pointId: Text, roomId: Text, roomName: Text)
    requires PhotoWithin(photo) && |pointId| <= 40 && PlaceWithin(levelName, roomId, roomName)
    ensures NeverRefused(PhotoRemoval(photo, levelName, pointId, roomId, roomName))
  {
    hide *;
    PhotoAlwaysOneRow(photo, levelName, pointId, roomId, roomName);
    OneRowFits(PhotoRemoval(photo, levelName, pointId, roomId, roomName));
  }

  lemma RoomNeverRefused(room: Room, levelId: Text, levelName: Text)
    requires RoomWithin(room) && |levelId| <= 40 && |levelName| <= 100
    requires Counted(PhotoCount(room.points)) && Counted(|room.points|)
    ensures NeverRefused(RoomRemoval(room, levelId, levelName))
  {
    var removal := RoomRemoval(room, levelId, levelName);
    assert Counted(0) && removal.roomList == [] && removal.contributors == [];
    assert PointsOf(removal.points) == room.points && |removal.points| == |room.points|;
    hide *;
    FewRows(removal);
    RoomPiecesAlwaysFit(room, levelId, levelName);
    RoomContextFits(room, levelId, levelName);
    PiecesFitNeverRefused(removal);
  }

  lemma LevelNeverRefused(addedAt: Option<Text>, id: Text, name: Text, rooms: seq<Room>, people: seq<Contributor>)
    requires |id| <= 40 && |name| <= 100 && (addedAt.Some? ==> |addedAt.value| <= 40)
    requires Counted(|rooms|) && Counted(|people|) && Counted(|AllPoints(rooms)|)
      && Counted(PhotoCount(AllPoints(rooms)))
    requires forall i :: 0 <= i < |rooms| ==> RoomWithin(rooms[i])
    requires forall i :: 0 <= i < |people| ==> ContributorWithin(people[i])
    ensures NeverRefused(LevelRemoval(addedAt, id, name, rooms, people))
  {
    LevelCounts(addedAt, id, name, rooms, people);
    hide *;
    var removal := LevelRemoval(addedAt, id, name, rooms, people);
    forall i | 0 <= i < |rooms| ensures Counted(PhotoCount(rooms[i].points)) && Counted(|rooms[i].points|) {
      RoomCounts(rooms, i);
      FewerCounted(PhotoCount(rooms[i].points), PhotoCount(AllPoints(rooms)));
      FewerCounted(|rooms[i].points|, |AllPoints(rooms)|);
    }
    FewRows(removal);
    LevelPiecesAlwaysFit(addedAt, id, name, rooms, people);
    LevelContextFits(addedAt, id, name, rooms, people);
    PiecesFitNeverRefused(removal);
  }

  lemma LevelCounts(addedAt: Option<Text>, id: Text, name: Text, rooms: seq<Room>, people: seq<Contributor>)
    ensures
      var removal := LevelRemoval(addedAt, id, name, rooms, people);
      && |removal.roomList| == |rooms| && removal.contributors == people
      && |removal.points| == |AllPoints(rooms)| && PointsOf(removal.points) == AllPoints(rooms)
  {
    hide PlacedPoints, AllPoints, RoomSummary, RoomJson, ContributorJson, T, Text1, Count1;
    PlacedPointsOf(rooms);
    assert |PointsOf(PlacedPoints(rooms))| == |PlacedPoints(rooms)|;
  }
}
