/** Reading a removal back from the JSON its ledger rows hold, by field name, whether
    it took one row or many. */
module RemovalReader {
  import opened Wrappers
  import opened Json
  import opened RowFiller
  import opened RemovalLedger
  import opened RemovalProofs
  import opened RemovalBuilders

  // ── Fields by name ───────────────────────────────────────────────────────

  function Lookup(fields: seq<Field>, key: Text): Option<Json> {
    if fields == [] then None
    else if fields[0].key == key then Some(fields[0].value)
    else Lookup(fields[1..], key)
  }

  function Has(json: Json, key: string): bool { json.Obj? && Lookup(json.fields, T(key)).Some? }

  /** A field's value; null when there is none. */
  function Get(json: Json, key: string): Json { if Has(json, key) then Lookup(json.fields, T(key)).value else Null }

  function ReadText(json: Json): Text { if json.Str? then json.text else [] }

  function ReadOrNull(json: Json): Option<Text> { if json.Str? then Some(json.text) else None }

  function ReadList<A>(read: Json -> A, json: Json): seq<A> {
    if json.Arr? then seq(|json.items|, i requires 0 <= i < |json.items| => read(json.items[i])) else []
  }

  // ── Records ──────────────────────────────────────────────────────────────

  function ReadPhoto(json: Json): Photo {
    Photo(ReadText(Get(json, "blobName")), ReadText(Get(json, "fileName")), ReadText(Get(json, "id")),
          ReadOrNull(Get(json, "uploadedAt")), ReadOrNull(Get(json, "uploadedById")),
          ReadOrNull(Get(json, "uploadedByName")))
  }

  function ReadStamp(json: Json): Stamp {
    Stamp(ReadOrNull(Get(json, "addedAt")), ReadOrNull(Get(json, "addedById")), ReadOrNull(Get(json, "addedByName")))
  }

  function ReadPoint(json: Json): Point {
    Point(ReadStamp(json), ReadList(ReadPhoto, Get(json, "attachments")), ReadText(Get(json, "description")),
          ReadText(Get(json, "id")))
  }

  function ReadRoom(json: Json): Room {
    Room(ReadStamp(json), ReadText(Get(json, "description")), ReadText(Get(json, "id")), ReadText(Get(json, "name")),
         ReadList(ReadPoint, Get(json, "points")))
  }

  function ReadPerson(json: Json): Contributor {
    Contributor(ReadText(Get(json, "id")), ReadText(Get(json, "name")))
  }

  /** A point, or a slice of one, as a row of points holds it. */
  function ReadSplit(json: Json): SplitPoint {
    SplitPoint(ReadList(ReadPhoto, Get(json, "attachments")), ReadText(Get(json, "id")), ReadText(Get(json, "roomId")),
               if Has(json, "description") then Some(PointText(ReadStamp(json), ReadText(Get(json, "description"))))
               else None,
               Has(json, "continued"))
  }

  // ── Looking up ───────────────────────────────────────────────────────────

  lemma {:induction false} LookupAt(fields: seq<Field>, i: nat)
    requires i < |fields| && forall j :: 0 <= j < i ==> fields[j].key != fields[i].key
    ensures Lookup(fields, fields[i].key) == Some(fields[i].value)
  {
    if i > 0 {
      LookupAt(fields[1..], i - 1);
    }
  }

  lemma {:induction false} LookupNone(fields: seq<Field>, key: Text)
    requires forall j :: 0 <= j < |fields| ==> fields[j].key != key
    ensures Lookup(fields, key).None?
  {
    if fields != [] {
      LookupNone(fields[1..], key);
    }
  }

  /** Two names that differ in length, or in their first `i` letters' next one. */
  lemma Apart(a: string, b: string, i: nat)
    requires |a| != |b| || (i < |a| && a[i] as int < 0x80 && b[i] as int < 0x80 && a[i] != b[i])
    ensures T(a) != T(b)
  {
    if |a| == |b| {
      assert T(a)[i] != T(b)[i];
    }
  }

  lemma Names()
    ensures T("blobName") != T("fileName")
    ensures T("addedByName") != T("attachments") && T("addedByName") != T("description")
    ensures T("attachments") != T("description")
    ensures T("addedById") != T("continued")
  {
    Apart("blobName", "fileName", 0);
    Apart("addedByName", "attachments", 1);
    Apart("addedByName", "description", 0);
    Apart("attachments", "description", 0);
    Apart("addedById", "continued", 0);
  }

  lemma GetAt(json: Json, key: string, i: nat)
    requires json.Obj? && i < |json.fields| && json.fields[i].key == T(key)
    requires forall j :: 0 <= j < i ==> json.fields[j].key != T(key)
    ensures Has(json, key) && Get(json, key) == json.fields[i].value
  {
    LookupAt(json.fields, i);
    hide T, Lookup;
  }

  lemma GetNone(json: Json, key: string)
    requires json.Obj? && forall j :: 0 <= j < |json.fields| ==> json.fields[j].key != T(key)
    ensures !Has(json, key) && Get(json, key) == Null
  {
    LookupNone(json.fields, T(key));
    hide T, Lookup;
  }

  lemma PhotoReads(photo: Photo)
    ensures ReadPhoto(PhotoJson(photo)) == photo
  {
    var json := PhotoJson(photo);
    Names();
    hide T, Get, Has;
    GetAt(json, "blobName", 0);
    GetAt(json, "fileName", 1);
    GetAt(json, "id", 2);
    GetAt(json, "uploadedAt", 3);
    GetAt(json, "uploadedById", 4);
    GetAt(json, "uploadedByName", 5);
  }

  lemma PersonReads(person: Contributor)
    ensures ReadPerson(ContributorJson(person)) == person
  {
    var json := ContributorJson(person);
    hide T, Get, Has;
    GetAt(json, "id", 0);
    GetAt(json, "name", 1);
  }

  lemma ListReads<A>(read: Json -> A, write: A -> Json, items: seq<A>)
    requires forall i :: 0 <= i < |items| ==> read(write(items[i])) == items[i]
    ensures ReadList(read, Arr(Each(write, items))) == items
  {
  }

  lemma PhotosRead(photos: seq<Photo>)
    ensures ReadList(ReadPhoto, Arr(Each(PhotoJson, photos))) == photos
  {
    hide ReadPhoto, PhotoJson;
    forall i | 0 <= i < |photos| ensures ReadPhoto(PhotoJson(photos[i])) == photos[i] {
      PhotoReads(photos[i]);
    }
    ListReads(ReadPhoto, PhotoJson, photos);
  }

  lemma StampReads(json: Json, stamp: Stamp, from: nat)
    requires json.Obj? && from + 3 <= |json.fields| && json.fields[from..from + 3] == StampFields(stamp)
    requires forall j :: 0 <= j < from ==>
      && json.fields[j].key != T("addedAt") && json.fields[j].key != T("addedById")
      && json.fields[j].key != T("addedByName")
    ensures ReadStamp(json) == stamp
  {
    assert json.fields[from] == json.fields[from..from + 3][0];
    assert json.fields[from + 1] == json.fields[from..from + 3][1];
    assert json.fields[from + 2] == json.fields[from..from + 3][2];
    hide T, Get, Has;
    GetAt(json, "addedAt", from);
    GetAt(json, "addedById", from + 1);
    GetAt(json, "addedByName", from + 2);
  }

  lemma PointReads(point: Point)
    ensures ReadPoint(PointJson(point)) == point
  {
    var json := PointJson(point);
    PhotosRead(point.attachments);
    Names();
    hide T, Get, Has, ReadPhoto, PhotoJson;
    assert json.fields[..3] == json.fields[0..3] == StampFields(point.stamp);
    StampReads(json, point.stamp, 0);
    hide ReadStamp;
    GetAt(json, "attachments", 3);
    GetAt(json, "description", 4);
    GetAt(json, "id", 5);
  }

  lemma PointsRead(points: seq<Point>)
    ensures ReadList(ReadPoint, Arr(Each(PointJson, points))) == points
  {
    hide ReadPoint, PointJson;
    forall i | 0 <= i < |points| ensures ReadPoint(PointJson(points[i])) == points[i] {
      PointReads(points[i]);
    }
    ListReads(ReadPoint, PointJson, points);
  }

  lemma RoomReads(room: Room)
    ensures ReadRoom(RoomJson(room)) == room
  {
    var json := RoomJson(room);
    PointsRead(room.points);
    Names();
    hide T, Get, Has, ReadPoint, PointJson;
    assert json.fields[..3] == json.fields[0..3] == StampFields(room.stamp);
    StampReads(json, room.stamp, 0);
    hide ReadStamp;
    GetAt(json, "description", 3);
    GetAt(json, "id", 4);
    GetAt(json, "name", 5);
    GetAt(json, "points", 6);
  }

  lemma RoomsRead(rooms: seq<Room>)
    ensures ReadList(ReadRoom, Arr(Each(RoomJson, rooms))) == rooms
  {
    hide ReadRoom, RoomJson;
    forall i | 0 <= i < |rooms| ensures ReadRoom(RoomJson(rooms[i])) == rooms[i] {
      RoomReads(rooms[i]);
    }
    ListReads(ReadRoom, RoomJson, rooms);
  }

  /** A room's summary is the room, with its photo records and points counted. */
  lemma RoomSummaryReads(room: Room)
    ensures ReadRoom(RoomSummary(room)) == room.(points := [])
    ensures Get(RoomSummary(room), "attachmentCount") == Num(PhotoCount(room.points))
    ensures Get(RoomSummary(room), "pointCount") == Num(|room.points|)
  {
    var json := RoomSummary(room);
    Names();
    hide T, Get, Has, PhotoCount;
    assert json.fields[..3] == json.fields[0..3] == StampFields(room.stamp);
    StampReads(json, room.stamp, 0);
    hide ReadStamp;
    GetAt(json, "attachmentCount", 3);
    GetAt(json, "description", 4);
    GetAt(json, "id", 5);
    GetAt(json, "name", 6);
    GetAt(json, "pointCount", 7);
    GetNone(json, "points");
  }

  lemma SplitReads(point: SplitPoint)
    ensures ReadSplit(SplitJson(point)) == point
  {
    var json := SplitJson(point);
    PhotosRead(point.attachments);
    Names();
    hide T, Get, Has, ReadPhoto, PhotoJson;
    GetAt(json, "attachments", 0);
    GetAt(json, "id", 1);
    GetAt(json, "roomId", 2);
    hide ReadStamp;
    SplitTextReads(point);
    hide SplitJson;
  }

  lemma SplitTextReads(point: SplitPoint)
    ensures
      var json := SplitJson(point);
      && Has(json, "continued") == point.continued && Has(json, "description") == point.text.Some?
      && (point.text.Some? ==>
            PointText(ReadStamp(json), ReadText(Get(json, "description"))) == point.text.value)
  {
    var json := SplitJson(point);
    Names();
    hide T, Get, Has, PhotoJson;
    if point.text.Some? {
      assert json.fields[3..6] == StampFields(point.text.value.stamp);
      StampReads(json, point.text.value.stamp, 3);
      hide ReadStamp;
      GetAt(json, "description", 6);
      if point.continued {
        GetAt(json, "continued", 7);
      } else {
        GetNone(json, "continued");
      }
    } else {
      GetNone(json, "description");
      if point.continued {
        GetAt(json, "continued", 3);
      } else {
        GetNone(json, "continued");
      }
    }
  }

  lemma SplitsRead(points: seq<SplitPoint>)
    ensures ReadList(ReadSplit, Arr(Each(SplitJson, points))) == points
  {
    hide ReadSplit, SplitJson;
    forall i | 0 <= i < |points| ensures ReadSplit(SplitJson(points[i])) == points[i] {
      SplitReads(points[i]);
    }
    ListReads(ReadSplit, SplitJson, points);
  }

  lemma PeopleRead(people: seq<Contributor>)
    ensures ReadList(ReadPerson, Arr(Each(ContributorJson, people))) == people
  {
    hide ReadPerson, ContributorJson;
    forall i | 0 <= i < |people| ensures ReadPerson(ContributorJson(people[i])) == people[i] {
      PersonReads(people[i]);
    }
    ListReads(ReadPerson, ContributorJson, people);
  }

  // ── Rows ─────────────────────────────────────────────────────────────────

  function PeopleAt(json: Json): seq<Contributor> { ReadList(ReadPerson, Get(json, "contributors")) }

  function SplitsAt(json: Json): seq<SplitPoint> { ReadList(ReadSplit, Get(json, "points")) }

  function RoomsAt(json: Json): seq<Json> { if Get(json, "rooms").Arr? then Get(json, "rooms").items else [] }

  /** Everything of one kind the rows hold, in row order. */
  function Collect<A>(read: Json -> seq<A>, rows: seq<Json>): seq<A> {
    if rows == [] then [] else read(rows[0]) + Collect(read, rows[1..])
  }

  function Recorded(removal: Removal): seq<Json> { Each(RowJson, Snapshots(removal)) }

  /** The fields every row of a split carries: the summary's or the context's. */
  function OwnFields(row: Row): seq<Field> {
    match row
    case WholeRow(_) => []
    case SummaryRow(summary, _, _, _) => summary
    case RoomsRow(context, _, _, _) => context
    case ContributorsRow(context, _, _, _) => context
    case PointsRow(context, _, _, _) => context
  }

  const ROW_KEYS := ["part", "parts", "rooms", "contributors", "points"]

  ghost predicate Clear(fields: seq<Field>) {
    forall f <- fields, key <- ROW_KEYS :: f.key != T(key)
  }

  lemma RowNames()
    ensures T("part") != T("parts") && T("part") != T("rooms") && T("part") != T("contributors")
    ensures T("part") != T("points")
    ensures T("parts") != T("rooms") && T("parts") != T("contributors") && T("parts") != T("points")
    ensures T("rooms") != T("contributors") && T("rooms") != T("points") && T("contributors") != T("points")
  {
    Apart("parts", "rooms", 0);
  }

  /** A row's own fields, then three more: what each of the row names reads as. */
  lemma TailReads(json: Json, own: seq<Field>, tail: seq<Field>)
    requires json == Obj(own + tail) && Clear(own)
    ensures forall key <- ROW_KEYS :: Has(json, key) == Lookup(tail, T(key)).Some?
    ensures forall key <- ROW_KEYS :: Has(json, key) ==> Get(json, key) == Lookup(tail, T(key)).value
  {
    hide T, Lookup;
    forall key | key in ROW_KEYS ensures Lookup(own + tail, T(key)) == Lookup(tail, T(key)) {
      LookupPast(own, tail, T(key));
    }
  }

  lemma {:induction false} LookupPast(own: seq<Field>, tail: seq<Field>, key: Text)
    requires forall f <- own :: f.key != key
    ensures Lookup(own + tail, key) == Lookup(tail, key)
  {
    if own == [] {
      assert own + tail == tail;
    } else {
      assert own[0] in own && (own + tail)[0] == own[0] && (own + tail)[1..] == own[1..] + tail;
      LookupPast(own[1..], tail, key);
    }
  }

  lemma LookupOf3(a: Field, b: Field, c: Field, key: Text)
    ensures Lookup([a, b, c], key)
         == if a.key == key then Some(a.value) else if b.key == key then Some(b.value)
            else if c.key == key then Some(c.value) else None
    ensures Lookup([a, b], key) == if a.key == key then Some(a.value) else if b.key == key then Some(b.value) else None
  {
    LookupOne(c, key);
    LookupOne(b, key);
    assert [a, b, c][1..] == [b, c] && [b, c][1..] == [c] && [a, b][1..] == [b];
    assert Lookup([b, c], key) == if b.key == key then Some(b.value) else Lookup([c], key);
  }

  lemma LookupOne(a: Field, key: Text)
    ensures Lookup([a], key) == if a.key == key then Some(a.value) else None
  {
    assert [a][1..] == [];
  }

  /** What the names of a row read as, in a row of three more fields or two. */
  ghost predicate TailIs(json: Json, part: nat, parts: nat, key: string, value: Json) {
    && Get(json, "part") == Num(part) && Get(json, "parts") == Num(parts)
    && Get(json, "rooms") == (if key == "rooms" then value else Null)
    && Get(json, "contributors") == (if key == "contributors" then value else Null)
    && Get(json, "points") == (if key == "points" then value else Null)
  }

  lemma ThreeFields(own: seq<Field>, part: nat, parts: nat, key: string, value: Json, first: bool)
    requires Clear(own) && key in ["rooms", "contributors", "points"]
    ensures
      var list, counts := [Field(T(key), value)], Counts(part, parts);
      TailIs(Obj(own + if first then list + counts else counts + list), part, parts, key, value)
  {
    assert "part" in ROW_KEYS && "parts" in ROW_KEYS && "rooms" in ROW_KEYS && "contributors" in ROW_KEYS
      && "points" in ROW_KEYS;
    var a, b, c := Field(T("part"), Num(part)), Field(T("parts"), Num(parts)), Field(T(key), value);
    var tail := if first then [c] + [a, b] else [a, b] + [c];
    assert tail == if first then [c, a, b] else [a, b, c];
    TailReads(Obj(own + tail), own, tail);
    RowNames();
    hide T, Lookup, Has, Clear;
    if first {
      LookupOf3(c, a, b, T("part"));
      LookupOf3(c, a, b, T("parts"));
      LookupOf3(c, a, b, T("rooms"));
      LookupOf3(c, a, b, T("contributors"));
      LookupOf3(c, a, b, T("points"));
    } else {
      LookupOf3(a, b, c, T("part"));
      LookupOf3(a, b, c, T("parts"));
      LookupOf3(a, b, c, T("rooms"));
      LookupOf3(a, b, c, T("contributors"));
      LookupOf3(a, b, c, T("points"));
    }
  }

  lemma TwoFields(own: seq<Field>, part: nat, parts: nat)
    requires Clear(own)
    ensures TailIs(Obj(own + Counts(part, parts)), part, parts, "", Null)
  {
    assert "part" in ROW_KEYS && "parts" in ROW_KEYS && "rooms" in ROW_KEYS && "contributors" in ROW_KEYS
      && "points" in ROW_KEYS;
    var a, b := Field(T("part"), Num(part)), Field(T("parts"), Num(parts));
    TailReads(Obj(own + [a, b]), own, [a, b]);
    RowNames();
    hide T, Lookup, Has, Clear;
    LookupOf3(a, b, a, T("part"));
    LookupOf3(a, b, a, T("parts"));
    LookupOf3(a, b, a, T("rooms"));
    LookupOf3(a, b, a, T("contributors"));
    LookupOf3(a, b, a, T("points"));
  }

  /** What a row's JSON says it holds is what it holds. */
  lemma RowReads(row: Row)
    requires !row.WholeRow? && Clear(OwnFields(row))
    ensures RoomsAt(RowJson(row)) == RoomsIn(row)
    ensures PeopleAt(RowJson(row)) == ContributorsIn(row)
    ensures SplitsAt(RowJson(row)) == PointsIn(row)
    ensures Get(RowJson(row), "part") == Num(row.part) && Get(RowJson(row), "parts") == Num(row.parts)
  {
    hide T, Get, Has, ReadPerson, ReadSplit, ContributorJson, SplitJson, Clear;
    var own, counts := OwnFields(row), Counts(row.part, row.parts);
    assert "rooms" != "contributors" && "rooms" != "points" && "contributors" != "points";
    match row
    case SummaryRow(_, part, parts, rooms) =>
      if rooms.Some? {
        ThreeFields(own, part, parts, "rooms", Arr(rooms.value), false);
        assert RowJson(row) == Obj(own + (counts + [Field(T("rooms"), Arr(rooms.value))]));
      } else {
        TwoFields(own, part, parts);
        assert RowJson(row) == Obj(own + counts);
      }
    case RoomsRow(_, part, parts, rooms) =>
      ThreeFields(own, part, parts, "rooms", Arr(rooms), false);
      assert RowJson(row) == Obj(own + (counts + [Field(T("rooms"), Arr(rooms))]));
    case ContributorsRow(_, part, parts, people) =>
      var list := Arr(Each(ContributorJson, people));
      ThreeFields(own, part, parts, "contributors", list, true);
      assert RowJson(row) == Obj(own + ([Field(T("contributors"), list)] + counts));
      PeopleRead(people);
    case PointsRow(_, part, parts, points) =>
      var list := Arr(Each(SplitJson, points));
      ThreeFields(own, part, parts, "points", list, false);
      assert RowJson(row) == Obj(own + (counts + [Field(T("points"), list)]));
      SplitsRead(points);
  }

  lemma {:induction false} CollectIsGather<A>(read: Json -> seq<A>, part: Row -> seq<A>, rows: seq<Row>)
    requires forall i :: 0 <= i < |rows| ==> read(RowJson(rows[i])) == part(rows[i])
    ensures Collect(read, Each(RowJson, rows)) == Gather(part, rows)
  {
    hide RowJson;
    if rows != [] {
      CollectIsGather(read, part, rows[1..]);
      assert Each(RowJson, rows)[1..] == Each(RowJson, rows[1..]);
    }
  }

  /** The rows of a split carry the removal's own fields. */
  lemma RowsOwnFields(removal: Removal, i: nat)
    requires IsSplit(removal) && i < |Snapshots(removal)|
    ensures !Snapshots(removal)[i].WholeRow?
    ensures OwnFields(Snapshots(removal)[i]) == if i == 0 then removal.summary else removal.context
  {
    RoomRowsPresent(removal);
    var roomRows, people, points := RoomRows(removal), ContributorRows(removal), PointRows(removal);
    assert Snapshots(removal) == Assemble(removal, roomRows, people, points);
    hide *;
    AssembledOwnFields(removal, roomRows, people, points, i);
  }

  lemma AssembledOwnFields(removal: Removal, roomRows: seq<seq<Json>>, people: seq<seq<Contributor>>,
                           points: seq<seq<SplitPoint>>, i: nat)
    requires removal.roomList != [] ==> roomRows != []
    requires i < |Assemble(removal, roomRows, people, points)|
    ensures
      var row := Assemble(removal, roomRows, people, points)[i];
      !row.WholeRow? && OwnFields(row) == if i == 0 then removal.summary else removal.context
  {
  }

  /** Read by name, a split's rows hold its rooms, people and points, and are numbered
      in order. */
  lemma SplitReadsBack(removal: Removal)
    requires IsSplit(removal) && Clear(removal.summary) && Clear(removal.context)
    ensures
      var rows := Recorded(removal);
      && Collect(RoomsAt, rows) == removal.roomList && Collect(PeopleAt, rows) == removal.contributors
      && Rejoin(Collect(SplitsAt, rows)) == Wholes(removal.points, !removal.pointTextInSummary)
      && forall i :: 0 <= i < |rows| ==> Get(rows[i], "part") == Num(i + 1) && Get(rows[i], "parts") == Num(|rows|)
  {
    SnapshotsRebuild(removal);
    PartsRunInOrder(removal);
    var rows := Snapshots(removal);
    hide *;
    EachRowReads(removal);
    CollectIsGather(RoomsAt, RoomsIn, rows);
    CollectIsGather(PeopleAt, ContributorsIn, rows);
    CollectIsGather(SplitsAt, PointsIn, rows);
    PartsRead(removal);
    RecordedIs(removal);
  }

  lemma RecordedIs(removal: Removal)
    ensures Recorded(removal) == Each(RowJson, Snapshots(removal)) && |Recorded(removal)| == |Snapshots(removal)|
  {
    hide Snapshots, RowJson;
  }

  lemma EachRowReads(removal: Removal)
    requires IsSplit(removal) && Clear(removal.summary) && Clear(removal.context)
    ensures
      var rows := Snapshots(removal);
      forall i :: 0 <= i < |rows| ==>
        && RoomsAt(RowJson(rows[i])) == RoomsIn(rows[i]) && PeopleAt(RowJson(rows[i])) == ContributorsIn(rows[i])
        && SplitsAt(RowJson(rows[i])) == PointsIn(rows[i]) && !rows[i].WholeRow?
        && Get(RowJson(rows[i]), "part") == Num(rows[i].part) && Get(RowJson(rows[i]), "parts") == Num(rows[i].parts)
  {
    hide *;
    var rows := Snapshots(removal);
    forall i | 0 <= i < |rows|
      ensures RoomsAt(RowJson(rows[i])) == RoomsIn(rows[i]) && PeopleAt(RowJson(rows[i])) == ContributorsIn(rows[i])
      ensures SplitsAt(RowJson(rows[i])) == PointsIn(rows[i]) && !rows[i].WholeRow?
      ensures Get(RowJson(rows[i]), "part") == Num(rows[i].part) && Get(RowJson(rows[i]), "parts") == Num(rows[i].parts)
    {
      RowsOwnFields(removal, i);
      RowReads(rows[i]);
    }
  }

  lemma PartsRead(removal: Removal)
    requires IsSplit(removal) && Clear(removal.summary) && Clear(removal.context)
    ensures
      var rows := Recorded(removal);
      forall i :: 0 <= i < |rows| ==> Get(rows[i], "part") == Num(i + 1) && Get(rows[i], "parts") == Num(|rows|)
  {
    hide *;
    PartsRunInOrder(removal);
    EachRowReads(removal);
    RecordedIs(removal);
    var rows, snapshots := Recorded(removal), Snapshots(removal);
    forall i | 0 <= i < |rows| ensures Get(rows[i], "part") == Num(i + 1) && Get(rows[i], "parts") == Num(|rows|) {
      NumberedMeans(snapshots[i], i + 1, |snapshots|);
      EachAt(snapshots, i);
    }
  }

  lemma NumberedMeans(row: Row, part: nat, parts: nat)
    requires Numbered(row, part, parts)
    ensures !row.WholeRow? && row.part == part && row.parts == parts
  {
  }

  lemma EachAt(rows: seq<Row>, i: nat)
    requires i < |rows|
    ensures |Each(RowJson, rows)| == |rows| && Each(RowJson, rows)[i] == RowJson(rows[i])
  {
    hide RowJson;
  }

  // ── What a removal's rows say ────────────────────────────────────────────

  /** The one row a removal may take opens with its summary. */
  ghost predicate Summed(removal: Removal) {
    && removal.whole.Obj? && |removal.summary| <= |removal.whole.fields|
    && forall j :: 0 <= j < |removal.summary| ==> removal.whole.fields[j] == removal.summary[j]
  }

  /** The fields row `i` opens with. */
  function Opens(removal: Removal, i: nat): seq<Field> { if i == 0 then removal.summary else removal.context }

  /** The field `k` of those has the name, and none before it. */
  predicate NamedAt(fields: seq<Field>, key: string, k: nat) {
    k < |fields| && fields[k].key == T(key) && forall j :: 0 <= j < k ==> fields[j].key != T(key)
  }

  lemma OpeningReads(removal: Removal, i: nat, key: string, k: nat)
    requires Summed(removal) && i < |Recorded(removal)| && NamedAt(Opens(removal, i), key, k)
    ensures Has(Recorded(removal)[i], key) && Get(Recorded(removal)[i], key) == Opens(removal, i)[k].value
  {
    hide T, Get, Has, Bytes, Assemble;
    RecordedIs(removal);
    EachAt(Snapshots(removal), i);
    if IsSplit(removal) {
      RowsOwnFields(removal, i);
      OwnFieldsLead(Snapshots(removal)[i]);
    } else {
      NotSplitIsWhole(removal);
    }
    GetAt(Recorded(removal)[i], key, k);
  }

  lemma OwnFieldsLead(row: Row)
    requires !row.WholeRow?
    ensures
      var json, own := RowJson(row), OwnFields(row);
      json.Obj? && |own| <= |json.fields| && forall j :: 0 <= j < |own| ==> json.fields[j] == own[j]
  {
  }

  lemma NotSplitIsWhole(removal: Removal)
    requires !IsSplit(removal)
    ensures Snapshots(removal) == [WholeRow(removal.whole)] && Recorded(removal) == [removal.whole]
  {
    hide Bytes, Assemble;
    assert Each(RowJson, [WholeRow(removal.whole)]) == [removal.whole];
  }

  /** One row, of no split. */
  predicate IsWhole(rows: seq<Json>) { |rows| == 1 && !Has(rows[0], "part") }

  lemma WholeIsUnsplit(removal: Removal)
    requires Clear(removal.summary) && Clear(removal.context) && removal.whole.Obj?
    requires forall f <- removal.whole.fields :: f.key != T("part")
    ensures Recorded(removal) != [] && (IsWhole(Recorded(removal)) <==> !IsSplit(removal))
  {
    if IsSplit(removal) {
      hide *;
      SplitReadsBack(removal);
      RecordedSome(removal);
      NumIsThere(Recorded(removal)[0]);
    } else {
      NotSplitIsWhole(removal);
      hide T;
      GetNone(removal.whole, "part");
    }
  }

  lemma NumIsThere(json: Json)
    requires Get(json, "part").Num?
    ensures forall rows | |rows| > 0 && rows[0] == json :: !IsWhole(rows)
  {
  }

  lemma RecordedSome(removal: Removal)
    ensures Recorded(removal) != []
  {
    RoomRowsPresent(removal);
    hide Bytes, RoomRows, ContributorRows, PointRows, RowJson;
  }

  /** A point as it was, when the row with its text is there. */
  function Back(point: SplitPoint): Point {
    if point.text.Some? then PointOf(point) else Point(Stamp(None, None, None), point.attachments, [], point.id)
  }

  function Backs(points: seq<SplitPoint>): seq<Point> {
    seq(|points|, i requires 0 <= i < |points| => Back(points[i]))
  }

  // ── A level ──────────────────────────────────────────────────────────────

  /** The rooms: as they are in one row; else each as summed up, with the points that
      name it. */
  function ReadRooms(rows: seq<Json>): seq<Room> {
    if IsWhole(rows) then ReadList(ReadRoom, Get(rows[0], "rooms"))
    else
      var points, list := Rejoin(Collect(SplitsAt, rows)), Collect(RoomsAt, rows);
      seq(|list|, i requires 0 <= i < |list| =>
        ReadRoom(list[i]).(points := Backs(InRoom(points, ReadRoom(list[i]).id))))
  }

  lemma LevelNames()
    ensures T("levelAddedAt") != T("contributors") && T("levelName") != T("roomCount")
  {
    Apart("levelAddedAt", "contributors", 0);
    Apart("levelName", "roomCount", 0);
  }

  lemma LevelClear(addedAt: Option<Text>, id: Text, name: Text, rooms: seq<Room>, people: seq<Contributor>)
    ensures
      var removal := LevelRemoval(addedAt, id, name, rooms, people);
      Clear(removal.summary) && Clear(removal.context) && removal.whole.Obj?
      && forall f <- removal.whole.fields :: f.key != T("part")
  {
    LevelNames();
    hide T, PhotoCount, AllPoints, PlacedPoints, RoomSummary, RoomJson, ContributorJson;
  }

  lemma WholeLevelReads(addedAt: Option<Text>, id: Text, name: Text, rooms: seq<Room>, people: seq<Contributor>)
    ensures
      var whole := LevelRemoval(addedAt, id, name, rooms, people).whole;
      ReadList(ReadRoom, Get(whole, "rooms")) == rooms && PeopleAt(whole) == people
  {
    var whole := LevelRemoval(addedAt, id, name, rooms, people).whole;
    LevelNames();
    RoomsRead(rooms);
    PeopleRead(people);
    hide T, Get, Has, PhotoCount, AllPoints, PlacedPoints, RoomSummary, RoomJson, ContributorJson, ReadRoom, ReadPerson;
    GetAt(whole, "contributors", 6);
    GetAt(whole, "rooms", 7);
  }

  lemma RoomBack(rooms: seq<Room>, k: nat)
    requires DistinctRooms(rooms) && k < |rooms|
    ensures Backs(InRoom(Wholes(PlacedPoints(rooms), true), rooms[k].id)) == rooms[k].points
  {
    LevelPointsByRoom(rooms, k);
    hide InRoom, PlacedPoints;
  }

  lemma SplitLevelReads(addedAt: Option<Text>, id: Text, name: Text, rooms: seq<Room>, people: seq<Contributor>)
    requires DistinctRooms(rooms) && IsSplit(LevelRemoval(addedAt, id, name, rooms, people))
    ensures
      var rows := Recorded(LevelRemoval(addedAt, id, name, rooms, people));
      ReadRooms(rows) == rooms && Collect(PeopleAt, rows) == people
  {
    hide *;
    var removal := LevelRemoval(addedAt, id, name, rooms, people);
    LevelParts(addedAt, id, name, rooms, people);
    LevelClear(addedAt, id, name, rooms, people);
    WholeIsUnsplit(removal);
    SplitReadsBack(removal);
    ReadRoomsOf(Recorded(removal), rooms);
  }

  lemma LevelParts(addedAt: Option<Text>, id: Text, name: Text, rooms: seq<Room>, people: seq<Contributor>)
    ensures
      var removal := LevelRemoval(addedAt, id, name, rooms, people);
      && removal.roomList == Each(RoomSummary, rooms) && removal.contributors == people
      && removal.points == PlacedPoints(rooms) && !removal.pointTextInSummary
  {
    hide T, PhotoCount, AllPoints, PlacedPoints, RoomSummary, RoomJson, ContributorJson;
  }

  /** The rooms summed up, each with the points that name it. */
  lemma ReadRoomsOf(rows: seq<Json>, rooms: seq<Room>)
    requires DistinctRooms(rooms) && !IsWhole(rows)
    requires Collect(RoomsAt, rows) == Each(RoomSummary, rooms)
    requires Rejoin(Collect(SplitsAt, rows)) == Wholes(PlacedPoints(rooms), true)
    ensures ReadRooms(rows) == rooms
  {
    var list, points := Each(RoomSummary, rooms), Wholes(PlacedPoints(rooms), true);
    hide InRoom, Backs, Wholes, PlacedPoints, ReadRoom, RoomSummary, Collect, Rejoin, IsWhole, RoomsAt, SplitsAt,
      DistinctRooms;
    forall i | 0 <= i < |rooms|
      ensures list[i] == RoomSummary(rooms[i]) && ReadRoom(list[i]) == rooms[i].(points := [])
      ensures Backs(InRoom(points, rooms[i].id)) == rooms[i].points
    {
      RoomSummaryReads(rooms[i]);
      RoomBack(rooms, i);
    }
    assert |ReadRooms(rows)| == |rooms|;
  }

  /** Whatever a level holds, its ledger rows give it back, one row or many: its
      rooms with their stamps, texts, points and photo records, and the people, in
      order. Every row names the level, and the first counts what was on it. */
  lemma LevelReadsBack(addedAt: Option<Text>, id: Text, name: Text, rooms: seq<Room>, people: seq<Contributor>)
    requires DistinctRooms(rooms)
    ensures
      var rows := Recorded(LevelRemoval(addedAt, id, name, rooms, people));
      && rows != [] && ReadRooms(rows) == rooms && Collect(PeopleAt, rows) == people
      && ReadOrNull(Get(rows[0], "levelAddedAt")) == addedAt
      && Get(rows[0], "roomCount") == Num(|rooms|) && Get(rows[0], "pointCount") == Num(|AllPoints(rooms)|)
      && Get(rows[0], "attachmentCount") == Num(PhotoCount(AllPoints(rooms)))
      && forall i :: 0 <= i < |rows| ==> Get(rows[i], "levelId") == Str(id) && Get(rows[i], "levelName") == Str(name)
  {
    var removal := LevelRemoval(addedAt, id, name, rooms, people);
    hide *;
    LevelClear(addedAt, id, name, rooms, people);
    WholeIsUnsplit(removal);
    if IsSplit(removal) {
      SplitLevelReads(addedAt, id, name, rooms, people);
    } else {
      NotSplitIsWhole(removal);
      WholeLevelReads(addedAt, id, name, rooms, people);
      OneRowReads(removal.whole);
    }
    LevelHeads(addedAt, id, name, rooms, people);
  }

  lemma OneRowReads(json: Json)
    ensures IsWhole([json]) ==> ReadRooms([json]) == ReadList(ReadRoom, Get(json, "rooms"))
    ensures Collect(PeopleAt, [json]) == PeopleAt(json)
  {
    hide PeopleAt, Has, Get;
    assert [json][1..] == [];
    assert Collect(PeopleAt, [json]) == PeopleAt(json) + Collect(PeopleAt, []);
  }

  lemma LevelSummed(addedAt: Option<Text>, id: Text, name: Text, rooms: seq<Room>, people: seq<Contributor>)
    ensures
      var removal := LevelRemoval(addedAt, id, name, rooms, people);
      && Summed(removal) && |removal.summary| == 6 && |removal.context| == 2
      && NamedAt(removal.summary, "attachmentCount", 0) && removal.summary[0].value == Num(PhotoCount(AllPoints(rooms)))
      && NamedAt(removal.summary, "levelAddedAt", 1) && removal.summary[1].value == OrNull(addedAt)
      && NamedAt(removal.summary, "levelId", 2) && removal.summary[2].value == Str(id)
      && NamedAt(removal.summary, "levelName", 3) && removal.summary[3].value == Str(name)
      && NamedAt(removal.summary, "pointCount", 4) && removal.summary[4].value == Num(|AllPoints(rooms)|)
      && NamedAt(removal.summary, "roomCount", 5) && removal.summary[5].value == Num(|rooms|)
      && NamedAt(removal.context, "levelId", 0) && removal.context[0].value == Str(id)
      && NamedAt(removal.context, "levelName", 1) && removal.context[1].value == Str(name)
  {
    LevelNames();
    hide T, PhotoCount, AllPoints, PlacedPoints, RoomSummary, RoomJson, ContributorJson;
  }

  lemma LevelHeads(addedAt: Option<Text>, id: Text, name: Text, rooms: seq<Room>, people: seq<Contributor>)
    ensures
      var rows := Recorded(LevelRemoval(addedAt, id, name, rooms, people));
      && rows != [] && ReadOrNull(Get(rows[0], "levelAddedAt")) == addedAt
      && Get(rows[0], "roomCount") == Num(|rooms|) && Get(rows[0], "pointCount") == Num(|AllPoints(rooms)|)
      && Get(rows[0], "attachmentCount") == Num(PhotoCount(AllPoints(rooms)))
      && forall i :: 0 <= i < |rows| ==> Get(rows[i], "levelId") == Str(id) && Get(rows[i], "levelName") == Str(name)
  {
    var removal := LevelRemoval(addedAt, id, name, rooms, people);
    LevelSummed(addedAt, id, name, rooms, people);
    RecordedSome(removal);
    hide T, Get, Has, Recorded, LevelRemoval, PhotoCount, AllPoints, NamedAt, Summed;
    OpeningReads(removal, 0, "attachmentCount", 0);
    OpeningReads(removal, 0, "levelAddedAt", 1);
    OpeningReads(removal, 0, "pointCount", 4);
    OpeningReads(removal, 0, "roomCount", 5);
    forall i | 0 <= i < |Recorded(removal)|
      ensures Get(Recorded(removal)[i], "levelId") == Str(id) && Get(Recorded(removal)[i], "levelName") == Str(name)
    {
      OpeningReads(removal, i, "levelId", if i == 0 then 2 else 0);
      OpeningReads(removal, i, "levelName", if i == 0 then 3 else 1);
    }
  }

  // ── A room ───────────────────────────────────────────────────────────────

  function ReadRoomRemoval(rows: seq<Json>): Room
    requires rows != []
  {
    var first := rows[0];
    Room(Stamp(ReadOrNull(Get(first, "roomAddedAt")), ReadOrNull(Get(first, "roomAddedById")),
               ReadOrNull(Get(first, "roomAddedByName"))),
         ReadText(Get(first, "roomDescription")), ReadText(Get(first, "roomId")), ReadText(Get(first, "roomName")),
         if IsWhole(rows) then ReadList(ReadPoint, Get(first, "points")) else Backs(Rejoin(Collect(SplitsAt, rows))))
  }

  lemma RoomNames()
    ensures T("roomId") != T("points") && T("attachmentCount") != T("roomAddedByName")
    ensures T("attachmentCount") != T("roomDescription") && T("roomAddedByName") != T("roomDescription")
  {
    Apart("roomId", "points", 0);
    Apart("attachmentCount", "roomAddedByName", 0);
    Apart("attachmentCount", "roomDescription", 0);
    Apart("roomAddedByName", "roomDescription", 4);
  }

  lemma RoomFields(room: Room, levelId: Text, levelName: Text)
    ensures
      var removal := RoomRemoval(room, levelId, levelName);
      var fields := removal.summary;
      && |fields| == 10
      && fields[0] == Field(T("attachmentCount"), Num(PhotoCount(room.points)))
      && fields[1] == Field(T("levelId"), Str(levelId)) && fields[2] == Field(T("levelName"), Str(levelName))
      && fields[3] == Field(T("pointCount"), Num(|room.points|))
      && fields[4] == Field(T("roomAddedAt"), OrNull(room.stamp.addedAt))
      && fields[5] == Field(T("roomAddedById"), OrNull(room.stamp.addedById))
      && fields[6] == Field(T("roomAddedByName"), OrNull(room.stamp.addedByName))
      && fields[7] == Field(T("roomDescription"), Str(room.description))
      && fields[8] == Field(T("roomId"), Str(room.id)) && fields[9] == Field(T("roomName"), Str(room.name))
    ensures
      var removal := RoomRemoval(room, levelId, levelName);
      && removal.context == removal.summary[1..3] + removal.summary[8..]
      && removal.whole == Obj(removal.summary + [Field(T("points"), Arr(Each(PointJson, room.points)))])
      && removal.points == PlacedIn(room.points, room.id) && !removal.pointTextInSummary
  {
    hide T, PhotoCount, PointJson, OrNull;
  }

  lemma RoomSummed(room: Room, levelId: Text, levelName: Text)
    ensures
      var fields := RoomRemoval(room, levelId, levelName).summary;
      && NamedAt(fields, "attachmentCount", 0) && NamedAt(fields, "levelId", 1) && NamedAt(fields, "levelName", 2)
      && NamedAt(fields, "pointCount", 3) && NamedAt(fields, "roomAddedAt", 4) && NamedAt(fields, "roomAddedById", 5)
      && NamedAt(fields, "roomAddedByName", 6) && NamedAt(fields, "roomDescription", 7)
      && NamedAt(fields, "roomId", 8) && NamedAt(fields, "roomName", 9)
  {
    RoomFields(room, levelId, levelName);
    RoomNames();
    hide T, PhotoCount, PointJson, OrNull, RoomRemoval;
  }

  lemma RoomContext(room: Room, levelId: Text, levelName: Text)
    ensures
      var removal := RoomRemoval(room, levelId, levelName);
      && Summed(removal) && |removal.context| == 4
      && removal.context[0] == removal.summary[1] && removal.context[1] == removal.summary[2]
      && removal.context[2] == removal.summary[8] && removal.context[3] == removal.summary[9]
      && NamedAt(removal.context, "levelId", 0) && NamedAt(removal.context, "levelName", 1)
      && NamedAt(removal.context, "roomId", 2) && NamedAt(removal.context, "roomName", 3)
  {
    RoomFields(room, levelId, levelName);
    hide T, PhotoCount, PointJson, OrNull, RoomRemoval;
  }

  lemma RoomClear(room: Room, levelId: Text, levelName: Text)
    ensures
      var removal := RoomRemoval(room, levelId, levelName);
      && Clear(removal.summary) && Clear(removal.context) && removal.whole.Obj?
      && forall f <- removal.whole.fields :: f.key != T("part")
  {
    RoomFields(room, levelId, levelName);
    RoomContext(room, levelId, levelName);
    RoomNames();
    var removal := RoomRemoval(room, levelId, levelName);
    hide T, PhotoCount, PointJson, OrNull, RoomRemoval, NamedAt, Summed;
    forall key | key in ROW_KEYS ensures forall f <- removal.summary :: f.key != T(key) {
      assert forall k :: 0 <= k < 10 ==> removal.summary[k].key != T(key);
    }
    forall f | f in removal.context ensures f in removal.summary {
    }
    assert "part" in ROW_KEYS;
  }

  lemma RoomHeads(room: Room, levelId: Text, levelName: Text)
    ensures
      var rows := Recorded(RoomRemoval(room, levelId, levelName));
      && rows != [] && ReadRoomRemoval(rows).(points := []) == room.(points := [])
      && Get(rows[0], "pointCount") == Num(|room.points|)
      && Get(rows[0], "attachmentCount") == Num(PhotoCount(room.points))
      && forall i :: 0 <= i < |rows| ==>
           && Get(rows[i], "levelId") == Str(levelId) && Get(rows[i], "levelName") == Str(levelName)
           && Get(rows[i], "roomId") == Str(room.id) && Get(rows[i], "roomName") == Str(room.name)
  {
    var removal := RoomRemoval(room, levelId, levelName);
    RecordedSome(removal);
    RoomFields(room, levelId, levelName);
    RoomSummed(room, levelId, levelName);
    RoomContext(room, levelId, levelName);
    hide T, Get, Has, Recorded, RoomRemoval, PhotoCount, IsWhole, ReadPoint, Backs, Rejoin, Collect, NamedAt, Summed,
      Clear;
    OpeningReads(removal, 0, "attachmentCount", 0);
    OpeningReads(removal, 0, "pointCount", 3);
    OpeningReads(removal, 0, "roomAddedAt", 4);
    OpeningReads(removal, 0, "roomAddedById", 5);
    OpeningReads(removal, 0, "roomAddedByName", 6);
    OpeningReads(removal, 0, "roomDescription", 7);
    forall i | 0 <= i < |Recorded(removal)|
      ensures Get(Recorded(removal)[i], "levelId") == Str(levelId)
      ensures Get(Recorded(removal)[i], "levelName") == Str(levelName)
      ensures Get(Recorded(removal)[i], "roomId") == Str(room.id)
      ensures Get(Recorded(removal)[i], "roomName") == Str(room.name)
    {
      OpeningReads(removal, i, "levelId", if i == 0 then 1 else 0);
      OpeningReads(removal, i, "levelName", if i == 0 then 2 else 1);
      OpeningReads(removal, i, "roomId", if i == 0 then 8 else 2);
      OpeningReads(removal, i, "roomName", if i == 0 then 9 else 3);
    }
  }

  lemma RoomPointsRead(room: Room, levelId: Text, levelName: Text)
    ensures
      var rows := Recorded(RoomRemoval(room, levelId, levelName));
      rows != [] && ReadRoomRemoval(rows).points == room.points
  {
    var removal := RoomRemoval(room, levelId, levelName);
    RoomFields(room, levelId, levelName);
    RoomClear(room, levelId, levelName);
    assert Backs(Wholes(PlacedIn(room.points, room.id), true)) == room.points;
    hide *;
    WholeIsUnsplit(removal);
    if IsSplit(removal) {
      SplitReadsBack(removal);
    } else {
      NotSplitIsWhole(removal);
      RoomNames();
      ClearOf(removal.summary, "points");
      LastField(removal.whole, removal.summary, "points", Arr(Each(PointJson, room.points)));
      PointsRead(room.points);
    }
    RoomRemovalReads(Recorded(removal));
  }

  lemma RoomRemovalReads(rows: seq<Json>)
    requires rows != []
    ensures ReadRoomRemoval(rows).points
         == if IsWhole(rows) then ReadList(ReadPoint, Get(rows[0], "points"))
            else Backs(Rejoin(Collect(SplitsAt, rows)))
  {
  }

  lemma ClearOf(fields: seq<Field>, key: string)
    requires Clear(fields) && key in ROW_KEYS
    ensures forall f <- fields :: f.key != T(key)
  {
  }

  lemma LastField(json: Json, own: seq<Field>, key: string, value: Json)
    requires json == Obj(own + [Field(T(key), value)]) && forall f <- own :: f.key != T(key)
    ensures Get(json, key) == value
  {
    hide T;
    GetAt(json, key, |own|);
  }

  /** A room's rows give it back, one row or many, with every point and photo record;
      every row names it and its level. */
  lemma RoomReadsBack(room: Room, levelId: Text, levelName: Text)
    ensures
      var rows := Recorded(RoomRemoval(room, levelId, levelName));
      && rows != [] && ReadRoomRemoval(rows) == room
      && Get(rows[0], "pointCount") == Num(|room.points|)
      && Get(rows[0], "attachmentCount") == Num(PhotoCount(room.points))
      && forall i :: 0 <= i < |rows| ==>
           && Get(rows[i], "levelId") == Str(levelId) && Get(rows[i], "levelName") == Str(levelName)
           && Get(rows[i], "roomId") == Str(room.id) && Get(rows[i], "roomName") == Str(room.name)
  {
    hide *;
    RoomHeads(room, levelId, levelName);
    RoomPointsRead(room, levelId, levelName);
  }

  // ── A point ──────────────────────────────────────────────────────────────

  function PhotosOf(points: seq<SplitPoint>): seq<Photo> {
    if points == [] then [] else points[0].attachments + PhotosOf(points[1..])
  }

  function ReadPointRemoval(rows: seq<Json>): Point
    requires rows != []
  {
    var first := rows[0];
    Point(ReadStamp(first),
          if IsWhole(rows) then ReadList(ReadPhoto, Get(first, "attachments"))
          else PhotosOf(Rejoin(Collect(SplitsAt, rows))),
          ReadText(Get(first, "description")), ReadText(Get(first, "pointId")))
  }

  lemma PointNames()
    ensures T("roomId") != T("points") && T("addedByName") != T("description") && T("addedById") != T("levelName")
    ensures T("addedByName") != T("attachments") && T("description") != T("attachments")
    ensures T("addedAt") != T("pointId")
  {
    Apart("roomId", "points", 0);
    Apart("addedByName", "description", 0);
    Apart("addedById", "levelName", 0);
    Apart("addedByName", "attachments", 1);
    Apart("description", "attachments", 0);
    Apart("addedAt", "pointId", 0);
  }

  lemma PointFields(point: Point, levelName: Text, roomId: Text, roomName: Text)
    ensures
      var removal := PointRemoval(point, levelName, roomId, roomName);
      var fields := removal.summary;
      && |fields| == 9
      && fields[0] == Field(T("addedAt"), OrNull(point.stamp.addedAt))
      && fields[1] == Field(T("addedById"), OrNull(point.stamp.addedById))
      && fields[2] == Field(T("addedByName"), OrNull(point.stamp.addedByName))
      && fields[3] == Field(T("attachmentCount"), Num(|point.attachments|))
      && fields[4] == Field(T("description"), Str(point.description))
      && fields[5] == Field(T("levelName"), Str(levelName)) && fields[6] == Field(T("pointId"), Str(point.id))
      && fields[7] == Field(T("roomId"), Str(roomId)) && fields[8] == Field(T("roomName"), Str(roomName))
    ensures
      var removal := PointRemoval(point, levelName, roomId, roomName);
      && removal.context == removal.summary[5..]
      && removal.whole == Obj(removal.summary + [Field(T("attachments"), Arr(Each(PhotoJson, point.attachments)))])
      && removal.points == [Placed(point, roomId)] && removal.pointTextInSummary
  {
    hide T, PhotoJson, OrNull;
  }

  lemma PointSummed(point: Point, levelName: Text, roomId: Text, roomName: Text)
    ensures
      var fields := PointRemoval(point, levelName, roomId, roomName).summary;
      && NamedAt(fields, "addedAt", 0) && NamedAt(fields, "addedById", 1) && NamedAt(fields, "addedByName", 2)
      && NamedAt(fields, "attachmentCount", 3) && NamedAt(fields, "description", 4) && NamedAt(fields, "levelName", 5)
      && NamedAt(fields, "pointId", 6) && NamedAt(fields, "roomId", 7) && NamedAt(fields, "roomName", 8)
  {
    PointFields(point, levelName, roomId, roomName);
    PointNames();
    hide T, PhotoJson, OrNull, PointRemoval;
  }

  lemma PointContextReads(point: Point, levelName: Text, roomId: Text, roomName: Text)
    ensures
      var removal := PointRemoval(point, levelName, roomId, roomName);
      && Summed(removal) && |removal.context| == 4
      && (forall k :: 0 <= k < 4 ==> removal.context[k] == removal.summary[5 + k])
      && NamedAt(removal.context, "levelName", 0) && NamedAt(removal.context, "pointId", 1)
      && NamedAt(removal.context, "roomId", 2) && NamedAt(removal.context, "roomName", 3)
  {
    PointFields(point, levelName, roomId, roomName);
    hide T, PhotoJson, OrNull, PointRemoval;
  }

  lemma PointKeys(point: Point, levelName: Text, roomId: Text, roomName: Text, key: string)
    requires key in ROW_KEYS || key == "attachments"
    ensures forall f <- PointRemoval(point, levelName, roomId, roomName).summary :: f.key != T(key)
  {
    PointFields(point, levelName, roomId, roomName);
    PointNames();
    var fields := PointRemoval(point, levelName, roomId, roomName).summary;
    hide T, PhotoJson, OrNull, PointRemoval;
    assert forall k :: 0 <= k < 9 ==> fields[k].key != T(key);
  }

  lemma PointClear(point: Point, levelName: Text, roomId: Text, roomName: Text)
    ensures
      var removal := PointRemoval(point, levelName, roomId, roomName);
      && Clear(removal.summary) && Clear(removal.context) && removal.whole.Obj?
      && (forall f <- removal.whole.fields :: f.key != T("part"))
      && forall f <- removal.summary :: f.key != T("attachments")
  {
    PointFields(point, levelName, roomId, roomName);
    var removal := PointRemoval(point, levelName, roomId, roomName);
    hide T, PhotoJson, OrNull, PointRemoval;
    forall key | key in ROW_KEYS || key == "attachments" ensures forall f <- removal.summary :: f.key != T(key) {
      PointKeys(point, levelName, roomId, roomName, key);
    }
    forall f | f in removal.context ensures f in removal.summary {
    }
    assert "part" in ROW_KEYS;
  }

  lemma PointHeads(point: Point, levelName: Text, roomId: Text, roomName: Text)
    ensures
      var rows := Recorded(PointRemoval(point, levelName, roomId, roomName));
      && rows != [] && ReadPointRemoval(rows).(attachments := []) == point.(attachments := [])
      && Get(rows[0], "attachmentCount") == Num(|point.attachments|)
      && forall i :: 0 <= i < |rows| ==>
           && Get(rows[i], "pointId") == Str(point.id) && Get(rows[i], "levelName") == Str(levelName)
           && Get(rows[i], "roomId") == Str(roomId) && Get(rows[i], "roomName") == Str(roomName)
  {
    var removal := PointRemoval(point, levelName, roomId, roomName);
    RecordedSome(removal);
    PointFields(point, levelName, roomId, roomName);
    PointSummed(point, levelName, roomId, roomName);
    PointContextReads(point, levelName, roomId, roomName);
    hide T, Get, Has, Recorded, PointRemoval, IsWhole, ReadPhoto, PhotosOf, Rejoin, Collect, NamedAt, Summed, Clear;
    OpeningReads(removal, 0, "addedAt", 0);
    OpeningReads(removal, 0, "addedById", 1);
    OpeningReads(removal, 0, "addedByName", 2);
    OpeningReads(removal, 0, "attachmentCount", 3);
    OpeningReads(removal, 0, "description", 4);
    forall i | 0 <= i < |Recorded(removal)|
      ensures Get(Recorded(removal)[i], "pointId") == Str(point.id)
      ensures Get(Recorded(removal)[i], "levelName") == Str(levelName)
      ensures Get(Recorded(removal)[i], "roomId") == Str(roomId)
      ensures Get(Recorded(removal)[i], "roomName") == Str(roomName)
    {
      OpeningReads(removal, i, "levelName", if i == 0 then 5 else 0);
      OpeningReads(removal, i, "pointId", if i == 0 then 6 else 1);
      OpeningReads(removal, i, "roomId", if i == 0 then 7 else 2);
      OpeningReads(removal, i, "roomName", if i == 0 then 8 else 3);
    }
  }

  lemma PointPhotosRead(point: Point, levelName: Text, roomId: Text, roomName: Text)
    ensures
      var rows := Recorded(PointRemoval(point, levelName, roomId, roomName));
      rows != [] && ReadPointRemoval(rows).attachments == point.attachments
  {
    var removal := PointRemoval(point, levelName, roomId, roomName);
    PointFields(point, levelName, roomId, roomName);
    PointClear(point, levelName, roomId, roomName);
    var split := WholeSplit(Placed(point, roomId), false);
    assert Wholes([Placed(point, roomId)], false) == [split];
    assert PhotosOf([split]) == point.attachments by {
      assert [split][1..] == [];
      PhotosOfNone();
    }
    hide *;
    WholeIsUnsplit(removal);
    if IsSplit(removal) {
      SplitReadsBack(removal);
    } else {
      NotSplitIsWhole(removal);
      LastField(removal.whole, removal.summary, "attachments", Arr(Each(PhotoJson, point.attachments)));
      PhotosRead(point.attachments);
    }
    PointRemovalReads(Recorded(removal));
  }

  lemma PointRemovalReads(rows: seq<Json>)
    requires rows != []
    ensures ReadPointRemoval(rows).attachments
         == if IsWhole(rows) then ReadList(ReadPhoto, Get(rows[0], "attachments"))
            else PhotosOf(Rejoin(Collect(SplitsAt, rows)))
  {
  }

  lemma PhotosOfNone()
    ensures PhotosOf([]) == []
  {
  }

  /** A point's rows give it back, one row or many, with every photo record; every row
      names it, its room and its level. */
  lemma PointReadsBack(point: Point, levelName: Text, roomId: Text, roomName: Text)
    ensures
      var rows := Recorded(PointRemoval(point, levelName, roomId, roomName));
      && rows != [] && ReadPointRemoval(rows) == point
      && Get(rows[0], "attachmentCount") == Num(|point.attachments|)
      && forall i :: 0 <= i < |rows| ==>
           && Get(rows[i], "pointId") == Str(point.id) && Get(rows[i], "levelName") == Str(levelName)
           && Get(rows[i], "roomId") == Str(roomId) && Get(rows[i], "roomName") == Str(roomName)
  {
    hide *;
    PointHeads(point, levelName, roomId, roomName);
    PointPhotosRead(point, levelName, roomId, roomName);
  }

  // ── A photo ──────────────────────────────────────────────────────────────

  function ReadPhotoRemoval(json: Json): Photo {
    Photo(ReadText(Get(json, "blobName")), ReadText(Get(json, "fileName")), ReadText(Get(json, "attachmentId")),
          ReadOrNull(Get(json, "uploadedAt")), ReadOrNull(Get(json, "uploadedById")),
          ReadOrNull(Get(json, "uploadedByName")))
  }

  /** A photo's first row, of one or more, is the photo record with where it was. */
  lemma PhotoReadsBack(photo: Photo, levelName: Text, pointId: Text, roomId: Text, roomName: Text)
    ensures
      var rows := Recorded(PhotoRemoval(photo, levelName, pointId, roomId, roomName));
      && rows != [] && ReadPhotoRemoval(rows[0]) == photo
      && Get(rows[0], "pointId") == Str(pointId) && Get(rows[0], "levelName") == Str(levelName)
      && Get(rows[0], "roomId") == Str(roomId) && Get(rows[0], "roomName") == Str(roomName)
  {
    var removal := PhotoRemoval(photo, levelName, pointId, roomId, roomName);
    RecordedSome(removal);
    PhotoFields(photo, levelName, pointId, roomId, roomName);
    PhotoSummed(photo, levelName, pointId, roomId, roomName);
    hide T, Get, Has, Recorded, PhotoRemoval, NamedAt, Summed;
    OpeningReads(removal, 0, "attachmentId", 0);
    OpeningReads(removal, 0, "blobName", 1);
    OpeningReads(removal, 0, "fileName", 2);
    OpeningReads(removal, 0, "levelName", 3);
    OpeningReads(removal, 0, "pointId", 4);
    OpeningReads(removal, 0, "roomId", 5);
    OpeningReads(removal, 0, "roomName", 6);
    OpeningReads(removal, 0, "uploadedAt", 7);
    OpeningReads(removal, 0, "uploadedById", 8);
    OpeningReads(removal, 0, "uploadedByName", 9);
  }

  lemma PhotoFields(photo: Photo, levelName: Text, pointId: Text, roomId: Text, roomName: Text)
    ensures
      var removal := PhotoRemoval(photo, levelName, pointId, roomId, roomName);
      var fields := removal.summary;
      && |fields| == 10 && removal.whole == Obj(fields)
      && fields[0] == Field(T("attachmentId"), Str(photo.id)) && fields[1] == Field(T("blobName"), Str(photo.blobName))
      && fields[2] == Field(T("fileName"), Str(photo.fileName)) && fields[3] == Field(T("levelName"), Str(levelName))
      && fields[4] == Field(T("pointId"), Str(pointId)) && fields[5] == Field(T("roomId"), Str(roomId))
      && fields[6] == Field(T("roomName"), Str(roomName))
      && fields[7] == Field(T("uploadedAt"), OrNull(photo.uploadedAt))
      && fields[8] == Field(T("uploadedById"), OrNull(photo.uploadedById))
      && fields[9] == Field(T("uploadedByName"), OrNull(photo.uploadedByName))
  {
    hide T, OrNull;
  }

  lemma PhotoSummed(photo: Photo, levelName: Text, pointId: Text, roomId: Text, roomName: Text)
    ensures
      var removal := PhotoRemoval(photo, levelName, pointId, roomId, roomName);
      && Summed(removal)
      && NamedAt(removal.summary, "attachmentId", 0) && NamedAt(removal.summary, "blobName", 1)
      && NamedAt(removal.summary, "fileName", 2) && NamedAt(removal.summary, "levelName", 3)
      && NamedAt(removal.summary, "pointId", 4) && NamedAt(removal.summary, "roomId", 5)
      && NamedAt(removal.summary, "roomName", 6) && NamedAt(removal.summary, "uploadedAt", 7)
      && NamedAt(removal.summary, "uploadedById", 8) && NamedAt(removal.summary, "uploadedByName", 9)
  {
    PhotoFields(photo, levelName, pointId, roomId, roomName);
    Apart("blobName", "fileName", 0);
    Apart("blobName", "roomName", 0);
    Apart("fileName", "roomName", 0);
    Apart("attachmentId", "uploadedById", 0);
    hide T, OrNull, PhotoRemoval;
  }
}
