/** What a removal's rows promise: nothing lost, parts numbered, sizes bounded. */
module RemovalProofs {
  import opened Wrappers
  import opened Json
  import opened RowFiller
  import opened RemovalLedger

  // ── Reading the rows back ────────────────────────────────────────────────

  function RoomsIn(row: Row): seq<Json> {
    match row
    case SummaryRow(_, _, _, rooms) => if rooms.Some? then rooms.value else []
    case RoomsRow(_, _, _, rooms) => rooms
    case _ => []
  }

  function ContributorsIn(row: Row): seq<Contributor> {
    if row.ContributorsRow? then row.contributors else []
  }

  function PointsIn(row: Row): seq<SplitPoint> {
    if row.PointsRow? then row.points else []
  }

  /** Everything of one kind the rows hold, in row order. */
  function Gather<A>(part: Row -> seq<A>, rows: seq<Row>): seq<A> {
    if |rows| == 0 then [] else part(rows[0]) + Gather(part, rows[1..])
  }

  /** The points again: a slice marked `continued` goes back onto the slice of
      the same point before it. */
  function Rejoin(slices: seq<SplitPoint>): seq<SplitPoint> {
    if |slices| == 0 then []
    else
      var points, slice := Rejoin(slices[..|slices| - 1]), slices[|slices| - 1];
      if points != [] && Continues(points[|points| - 1], slice)
      then points[..|points| - 1] + [Extend(points[|points| - 1], slice.attachments)]
      else points + [slice]
  }

  predicate Continues(point: SplitPoint, slice: SplitPoint) {
    slice.continued && slice.id == point.id && slice.roomId == point.roomId
  }

  function Extend(point: SplitPoint, photos: seq<Photo>): SplitPoint {
    point.(attachments := point.attachments + photos)
  }

  // ── Nothing is lost ──────────────────────────────────────────────────────

  lemma {:induction false} GatherAppend<A>(part: Row -> seq<A>, a: seq<Row>, b: seq<Row>)
    ensures Gather(part, a + b) == Gather(part, a) + Gather(part, b)
  {
    if |a| == 0 {
      assert a + b == b;
    } else {
      assert (a + b)[0] == a[0] && (a + b)[1..] == a[1..] + b;
      GatherAppend(part, a[1..], b);
    }
  }

  lemma {:induction false} GatherNone<A>(part: Row -> seq<A>, rows: seq<Row>)
    requires forall i :: 0 <= i < |rows| ==> part(rows[i]) == []
    ensures Gather(part, rows) == []
  {
    if |rows| > 0 {
      GatherNone(part, rows[1..]);
    }
  }

  /** Rows that hold one chunk each hold the chunks end to end. */
  lemma {:induction false} GatherEach<A>(part: Row -> seq<A>, rows: seq<Row>, chunks: seq<seq<A>>)
    requires |rows| == |chunks|
    requires forall i :: 0 <= i < |rows| ==> part(rows[i]) == chunks[i]
    ensures Gather(part, rows) == Concat(chunks)
  {
    if |rows| > 0 {
      var n := |rows| - 1;
      GatherEach(part, rows[..n], chunks[..n]);
      GatherAppend(part, rows[..n], rows[n..]);
      assert rows == rows[..n] + rows[n..];
      assert Gather(part, rows[n..]) == part(rows[n]) + Gather(part, rows[n..][1..]);
    }
  }

  lemma {:induction false} ConcatValues<A>(rows: seq<seq<Item<A>>>)
    ensures Concat(RowValues(rows)) == Values(Concat(rows))
  {
    if |rows| > 0 {
      var n := |rows| - 1;
      ConcatValues(rows[..n]);
      assert RowValues(rows)[..n] == RowValues(rows[..n]);
      assert Values(Concat(rows[..n]) + rows[n]) == Values(Concat(rows[..n])) + Values(rows[n]);
    }
  }

  /** The packed rows, end to end, are what was packed. */
  lemma PackedKeeps<A>(base: nat, items: seq<Item<A>>)
    ensures Concat(RowValues(Fill(base, items))) == Values(items)
  {
    FillKeepsItems(base, items);
    ConcatValues(Fill(base, items));
  }

  predicate IsSplit(removal: Removal) { Bytes(removal.whole) > ROW_BUDGET_BYTES }

  lemma RoomsGathered(removal: Removal, roomRows: seq<seq<Json>>, parts: nat)
    requires removal.roomList != [] <==> roomRows != []
    ensures var rows := SummaryAndRooms(removal, roomRows, parts);
      && Gather(RoomsIn, rows) == Concat(roomRows)
      && Gather(ContributorsIn, rows) == []
      && Gather(PointsIn, rows) == []
  {
    var rows := SummaryAndRooms(removal, roomRows, parts);
    var chunks := if roomRows == [] then [[]] else roomRows;
    GatherEach(RoomsIn, rows, chunks);
    assert roomRows == [] ==> Concat(chunks) == [];
    GatherNone(ContributorsIn, rows);
    GatherNone(PointsIn, rows);
  }

  lemma PackedAre<A>(base: nat, json: A -> Json, items: seq<A>)
    ensures Concat(RowValues(Fill(base, Items(json, items)))) == items
  {
    PackedKeeps(base, Items(json, items));
    assert Values(Items(json, items)) == items;
  }

  /** The slices a removal's points are recorded as. */
  function SlicesOf(removal: Removal): seq<Item<SplitPoint>> {
    PointsItems(PointBase(removal), removal.points, !removal.pointTextInSummary)
  }

  lemma ChunksKeepAll(removal: Removal)
    ensures Concat(RoomRows(removal)) == removal.roomList
    ensures Concat(ContributorRows(removal)) == removal.contributors
    ensures Concat(PointRows(removal)) == Values(SlicesOf(removal))
  {
    hide Fill, RowValues, Concat, Items, Values, SummaryBase, ContributorBase, PointBase, PointsItems;
    PackedAre(SummaryBase(removal), SelfJson, removal.roomList);
    PackedAre(ContributorBase(removal), ContributorJson, removal.contributors);
    PackedKeeps(PointBase(removal), SlicesOf(removal));
  }

  /** A split removal's rows hold its room list, its contributors and its
      points' slices, each once and in order. */
  lemma RowsHoldEverything(removal: Removal)
    requires IsSplit(removal)
    ensures Gather(RoomsIn, Snapshots(removal)) == removal.roomList
    ensures Gather(ContributorsIn, Snapshots(removal)) == removal.contributors
    ensures Gather(PointsIn, Snapshots(removal)) == Values(SlicesOf(removal))
  {
    hide Concat, Values, RoomsIn, ContributorsIn, PointsIn, Gather, Bytes, SlicesOf, SummaryAndRooms, PeopleFrom,
         PointsFrom;
    RoomRowsPresent(removal);
    ChunksKeepAll(removal);
    hide RoomRows, ContributorRows, PointRows;
    var roomRows, people, points := RoomRows(removal), ContributorRows(removal), PointRows(removal);
    var n := if |roomRows| > 1 then |roomRows| else 1;
    var parts := n + |people| + |points|;
    AssembledRooms(removal, roomRows, people, points, n, parts);
    AssembledPeople(removal, roomRows, people, points, n, parts);
    AssembledPoints(removal, roomRows, people, points, n, parts);
  }

  lemma AssembledRooms(removal: Removal, roomRows: seq<seq<Json>>, people: seq<seq<Contributor>>,
                       points: seq<seq<SplitPoint>>, n: nat, parts: nat)
    requires removal.roomList != [] <==> roomRows != []
    ensures Gather(RoomsIn, SummaryAndRooms(removal, roomRows, parts) + PeopleFrom(removal.context, n, parts, people)
                          + PointsFrom(removal.context, n + |people|, parts, points)) == Concat(roomRows)
  {
    hide SummaryAndRooms, PeopleFrom, PointsFrom, RoomsIn, Gather, Concat;
    RoomsGathered(removal, roomRows, parts);
    PeopleGathered(removal.context, n, parts, people);
    PointsGathered(removal.context, n + |people|, parts, points);
    GatherOne(RoomsIn, SummaryAndRooms(removal, roomRows, parts), PeopleFrom(removal.context, n, parts, people),
              PointsFrom(removal.context, n + |people|, parts, points), Concat(roomRows));
  }

  lemma AssembledPeople(removal: Removal, roomRows: seq<seq<Json>>, people: seq<seq<Contributor>>,
                        points: seq<seq<SplitPoint>>, n: nat, parts: nat)
    requires removal.roomList != [] <==> roomRows != []
    ensures Gather(ContributorsIn,
                   SummaryAndRooms(removal, roomRows, parts) + PeopleFrom(removal.context, n, parts, people)
                          + PointsFrom(removal.context, n + |people|, parts, points)) == Concat(people)
  {
    hide SummaryAndRooms, PeopleFrom, PointsFrom, ContributorsIn, Gather, Concat;
    RoomsGathered(removal, roomRows, parts);
    PeopleGathered(removal.context, n, parts, people);
    PointsGathered(removal.context, n + |people|, parts, points);
    GatherOne(ContributorsIn, SummaryAndRooms(removal, roomRows, parts), PeopleFrom(removal.context, n, parts, people),
              PointsFrom(removal.context, n + |people|, parts, points), Concat(people));
  }

  lemma AssembledPoints(removal: Removal, roomRows: seq<seq<Json>>, people: seq<seq<Contributor>>,
                        points: seq<seq<SplitPoint>>, n: nat, parts: nat)
    requires removal.roomList != [] <==> roomRows != []
    ensures Gather(PointsIn, SummaryAndRooms(removal, roomRows, parts) + PeopleFrom(removal.context, n, parts, people)
                          + PointsFrom(removal.context, n + |people|, parts, points)) == Concat(points)
  {
    hide SummaryAndRooms, PeopleFrom, PointsFrom, PointsIn, Gather, Concat;
    RoomsGathered(removal, roomRows, parts);
    PeopleGathered(removal.context, n, parts, people);
    PointsGathered(removal.context, n + |people|, parts, points);
    GatherOne(PointsIn, SummaryAndRooms(removal, roomRows, parts), PeopleFrom(removal.context, n, parts, people),
              PointsFrom(removal.context, n + |people|, parts, points), Concat(points));
  }

  /** When only one of three runs holds anything, the rows hold what it does. */
  lemma GatherOne<A>(part: Row -> seq<A>, a: seq<Row>, b: seq<Row>, c: seq<Row>, held: seq<A>)
    requires
      || (Gather(part, a) == held && Gather(part, b) == [] && Gather(part, c) == [])
      || (Gather(part, a) == [] && Gather(part, b) == held && Gather(part, c) == [])
      || (Gather(part, a) == [] && Gather(part, b) == [] && Gather(part, c) == held)
    ensures Gather(part, a + b + c) == held
  {
    GatherAppend(part, a + b, c);
    GatherAppend(part, a, b);
  }

  lemma PeopleGathered(context: seq<Field>, before: nat, parts: nat, people: seq<seq<Contributor>>)
    ensures var rows := PeopleFrom(context, before, parts, people);
      && Gather(RoomsIn, rows) == []
      && Gather(ContributorsIn, rows) == Concat(people)
      && Gather(PointsIn, rows) == []
  {
    var rows := PeopleFrom(context, before, parts, people);
    GatherNone(RoomsIn, rows);
    GatherEach(ContributorsIn, rows, people);
    GatherNone(PointsIn, rows);
  }

  lemma PointsGathered(context: seq<Field>, before: nat, parts: nat, points: seq<seq<SplitPoint>>)
    ensures var rows := PointsFrom(context, before, parts, points);
      && Gather(RoomsIn, rows) == []
      && Gather(ContributorsIn, rows) == []
      && Gather(PointsIn, rows) == Concat(points)
  {
    var rows := PointsFrom(context, before, parts, points);
    GatherNone(RoomsIn, rows);
    GatherNone(ContributorsIn, rows);
    GatherEach(PointsIn, rows, points);
  }

  // ── Slicing a point loses nothing of it ──────────────────────────────────

  lemma ShiftOne<A>(before: seq<A>, first: Item<A>, rest: seq<Item<A>>)
    ensures before + Values([first] + rest) == (before + [first.value]) + Values(rest)
  {
  }

  /** One more slice put back. */
  lemma SliceRejoin(placed: Placed, withText: bool, before: seq<SplitPoint>, from: nat, end: nat)
    requires from <= end <= |placed.point.attachments|
    requires Rejoin(before) != []
    requires Last1(Rejoin(before)) == Slice(placed, withText, true, placed.point.attachments[..from])
    ensures
      var slice := Slice(placed, withText, false, placed.point.attachments[from..end]);
      Rejoin(before + [slice]) == Rejoin(before)[..|Rejoin(before)| - 1]
                                  + [Slice(placed, withText, true, placed.point.attachments[..end])]
  {
    var photos := placed.point.attachments;
    var slice := Slice(placed, withText, false, photos[from..end]);
    assert (before + [slice])[..|before|] == before;
    assert photos[..from] + photos[from..end] == photos[..end];
  }

  lemma FirstRejoin(placed: Placed, withText: bool, before: seq<SplitPoint>, photos: seq<Photo>)
    ensures Rejoin(before + [Slice(placed, withText, true, photos)])
         == Rejoin(before) + [Slice(placed, withText, true, photos)]
  {
    assert (before + [Slice(placed, withText, true, photos)])[..|before|] == before;
  }

  /** The slices from photo record `from` on, put back onto what is there. */
  lemma {:induction false} SlicesRejoin(emptyRow: nat, placed: Placed, withText: bool, from: nat,
                                        before: seq<SplitPoint>)
    requires from <= |placed.point.attachments|
    requires Rejoin(before) != []
    requires Last1(Rejoin(before)) == Slice(placed, withText, true, placed.point.attachments[..from])
    ensures Rejoin(before + Values(Slices(emptyRow, placed, withText, from, false)))
         == Rejoin(before)[..|Rejoin(before)| - 1] + [WholeSplit(placed, withText)]
    decreases |placed.point.attachments| - from
  {
    var photos := placed.point.attachments;
    var slices := Slices(emptyRow, placed, withText, from, false);
    if from == |photos| {
      assert photos[..from] == photos;
      assert before + Values(slices) == before;
    } else {
      var end := NextEnd(emptyRow, placed, withText, from, false);
      var slice := Slice(placed, withText, false, photos[from..end]);
      var rest := Slices(emptyRow, placed, withText, end, false);
      SliceRejoin(placed, withText, before, from, end);
      ShiftOne(before, SplitItem(slice), rest);
      hide Rejoin, NextEnd, Slices, SplitItem, Values, Slice, WholeSplit;
      SlicesRejoin(emptyRow, placed, withText, end, before + [slice]);
    }
  }

  function Last1<A>(s: seq<A>): A
    requires s != []
  {
    s[|s| - 1]
  }

  function Wholes(points: seq<Placed>, withText: bool): seq<SplitPoint> {
    seq(|points|, i requires 0 <= i < |points| => WholeSplit(points[i], withText))
  }

  lemma PointRejoin(emptyRow: nat, placed: Placed, withText: bool, before: seq<SplitPoint>)
    ensures Rejoin(before + Values(PointItems(emptyRow, placed, withText)))
         == Rejoin(before) + [WholeSplit(placed, withText)]
  {
    var whole := WholeSplit(placed, withText);
    var items := PointItems(emptyRow, placed, withText);
    FirstRejoin(placed, withText, before, placed.point.attachments);
    if items == [SplitItem(whole)] {
      assert Values(items) == [whole];
    } else {
      var end := NextEnd(emptyRow, placed, withText, 0, true);
      var slice := Slice(placed, withText, true, placed.point.attachments[0..end]);
      assert placed.point.attachments[0..end] == placed.point.attachments[..end];
      var rest := Slices(emptyRow, placed, withText, end, false);
      assert items == [SplitItem(slice)] + rest;
      FirstRejoin(placed, withText, before, slice.attachments);
      ShiftOne(before, SplitItem(slice), rest);
      hide Rejoin, NextEnd, Slices, PointItems, SplitItem, WholeSplit, Slice, Values;
      SlicesRejoin(emptyRow, placed, withText, end, before + [slice]);
    }
  }

  lemma {:induction false} PointsRejoin(emptyRow: nat, points: seq<Placed>, withText: bool)
    ensures Rejoin(Values(PointsItems(emptyRow, points, withText))) == Wholes(points, withText)
  {
    if |points| > 0 {
      var n := |points| - 1;
      PointsRejoin(emptyRow, points[..n], withText);
      var before, last := PointsItems(emptyRow, points[..n], withText), PointItems(emptyRow, points[n], withText);
      PointRejoin(emptyRow, points[n], withText, Values(before));
      ValuesAppend(before, last);
      WholesSnoc(points, withText);
      hide PointItems, Rejoin, WholeSplit, Wholes, Values;
    }
  }

  lemma ValuesAppend<A>(a: seq<Item<A>>, b: seq<Item<A>>)
    ensures Values(a + b) == Values(a) + Values(b)
  {
  }

  lemma WholesSnoc(points: seq<Placed>, withText: bool)
    requires points != []
    ensures Wholes(points, withText)
         == Wholes(points[..|points| - 1], withText) + [WholeSplit(points[|points| - 1], withText)]
  {
  }

  /** Whatever a removal held, its split rows give back: the room list and the
      contributors as they were, and every point with its photo records. */
  lemma SnapshotsRebuild(removal: Removal)
    requires IsSplit(removal)
    ensures Gather(RoomsIn, Snapshots(removal)) == removal.roomList
    ensures Gather(ContributorsIn, Snapshots(removal)) == removal.contributors
    ensures Rejoin(Gather(PointsIn, Snapshots(removal))) == Wholes(removal.points, !removal.pointTextInSummary)
  {
    RowsHoldEverything(removal);
    PointsRejoin(PointBase(removal), removal.points, !removal.pointTextInSummary);
  }

  // ── The parts are numbered ───────────────────────────────────────────────

  predicate Numbered(row: Row, part: nat, parts: nat) {
    !row.WholeRow? && row.part == part && row.parts == parts
  }

  /** Parts run from 1 to the number of rows, once each and in order. */
  lemma PartsRunInOrder(removal: Removal)
    requires IsSplit(removal)
    ensures forall i :: 0 <= i < |Snapshots(removal)| ==> Numbered(Snapshots(removal)[i], i + 1, |Snapshots(removal)|)
  {
    RoomRowsPresent(removal);
    NumberedAssembled(removal, RoomRows(removal), ContributorRows(removal), PointRows(removal));
  }

  lemma NumberedAssembled(removal: Removal, roomRows: seq<seq<Json>>, people: seq<seq<Contributor>>,
                          points: seq<seq<SplitPoint>>)
    requires removal.roomList != [] ==> roomRows != []
    ensures var rows := Assemble(removal, roomRows, people, points);
      forall i :: 0 <= i < |rows| ==> Numbered(rows[i], i + 1, |rows|)
  {
  }
}
