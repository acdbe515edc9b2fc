/** How large a removal's rows can be. */
module RemovalSizes {
  import opened Wrappers
  import opened Json
  import opened RowFiller
  import opened RemovalLedger
  import opened RemovalProofs

  // ── The indivisible pieces ───────────────────────────────────────────────

  /** A point goes in whole, or its text goes in with its first photo record
      and every later photo record fits a row of its own. */
  predicate PointPiecesFit(emptyRow: nat, placed: Placed, withText: bool) {
    var photos := placed.point.attachments;
    || emptyRow + Bytes(SplitJson(WholeSplit(placed, withText))) <= ROW_BUDGET_BYTES
    || (&& emptyRow + SliceBytes(placed, withText, true, if photos == [] then [] else photos[..1]) <= ROW_BUDGET_BYTES
        && forall i :: 1 <= i < |photos| ==>
             emptyRow + SliceBytes(placed, withText, false, [photos[i]]) <= ROW_BUDGET_BYTES)
  }

  /** Everything that goes into a row whole fits a row on its own. */
  predicate PiecesFit(removal: Removal) {
    && SummaryBase(removal) <= ROW_BUDGET_BYTES
    && (forall i :: 0 <= i < |removal.roomList| ==>
          SummaryBase(removal) + Bytes(removal.roomList[i]) <= ROW_BUDGET_BYTES)
    && (forall i :: 0 <= i < |removal.contributors| ==>
          ContributorBase(removal) + Bytes(ContributorJson(removal.contributors[i])) <= ROW_BUDGET_BYTES)
    && (forall i :: 0 <= i < |removal.points| ==>
          PointPiecesFit(PointBase(removal), removal.points[i], !removal.pointTextInSummary))
  }

  /** The rows after the first of a room list repeat the context where the
      first carries the summary, which names at least as much. */
  predicate ContextWithinSummary(removal: Removal) {
    FieldsCost(removal.context) + |removal.context| <= FieldsCost(removal.summary) + |removal.summary|
  }

  // ── What a row costs ─────────────────────────────────────────────────────

  lemma CountsCost(part: nat, parts: nat)
    ensures FieldsCost(Counts(part, parts)) == FieldsCost(Counts(0, 0)) - 2 + Digits(part) + Digits(parts)
  {
    var a, b := Field(T("part"), Num(part)), Field(T("parts"), Num(parts));
    FieldsCostOne(a);
    FieldsCostOne(b);
    FieldsCostConcat([a], [b]);
    assert Counts(part, parts) == [a] + [b];
    var c, d := Field(T("part"), Num(0)), Field(T("parts"), Num(0));
    FieldsCostOne(c);
    FieldsCostOne(d);
    FieldsCostConcat([c], [d]);
    assert Counts(0, 0) == [c] + [d];
  }

  lemma WidestDigits()
    ensures Digits(WIDEST_COUNT) == 5
  {
    assert Digits(9) == 1;
    assert Digits(99) == 2;
    assert Digits(999) == 3;
    assert Digits(9999) == 4;
  }

  lemma ListCost(key: string, items: seq<Json>)
    ensures FieldsCost([Field(T(key), Arr(items))]) == FieldsCost(EmptyList(key)) + Joined(Sizes(items))
  {
    FieldsCostOne(Field(T(key), Arr(items)));
    FieldsCostOne(Field(T(key), Arr([])));
    assert Sizes([]) == [];
  }

  /** A row against its sizing: the real part numbers for the stand-ins, and
      what its list holds. */
  lemma RowCost(fields: seq<Field>, key: string, items: seq<Json>, part: nat, parts: nat)
    ensures
      var sized := Bytes(WithCounts(fields, EmptyList(key))) - 10 + Digits(part) + Digits(parts) + Joined(Sizes(items));
      && Bytes(Obj(fields + Counts(part, parts) + [Field(T(key), Arr(items))])) == sized
      && Bytes(Obj(fields + [Field(T(key), Arr(items))] + Counts(part, parts))) == sized
  {
    hide T, Bytes, Digits;
    WidestDigits();
    var list, counts, widest := [Field(T(key), Arr(items))], Counts(part, parts), Counts(WIDEST_COUNT, WIDEST_COUNT);
    CountsCost(part, parts);
    CountsCost(WIDEST_COUNT, WIDEST_COUNT);
    ListCost(key, items);
    ThreeCost(fields, counts, list);
    ThreeCost(fields, list, counts);
    ThreeCost(fields, EmptyList(key), widest);
  }

  lemma ThreeCost(a: seq<Field>, b: seq<Field>, c: seq<Field>)
    requires b != []
    ensures Bytes(Obj(a + b + c)) == 1 + FieldsCost(a) + FieldsCost(b) + FieldsCost(c) + |a| + |b| + |c|
  {
    ObjBytes(a + b + c);
    FieldsCostConcat(a + b, c);
    FieldsCostConcat(a, b);
  }

  lemma SummaryCost(fields: seq<Field>, part: nat, parts: nat)
    ensures Bytes(Obj(fields + Counts(part, parts)))
      == Bytes(WithCounts(fields, [])) - 10 + Digits(part) + Digits(parts)
  {
    hide T, Bytes, Digits;
    WidestDigits();
    var counts, widest := Counts(part, parts), Counts(WIDEST_COUNT, WIDEST_COUNT);
    CountsCost(part, parts);
    CountsCost(WIDEST_COUNT, WIDEST_COUNT);
    ThreeCost(fields, counts, []);
    ThreeCost(fields, widest, []);
    assert fields + counts + [] == fields + counts;
    assert fields + widest + [] == fields + [] + widest;
    assert FieldsCost([]) == 0;
  }

  // ── Every item fits when its pieces do ───────────────────────────────────

  /** A slice passes its room only as a single photo record, and stops only
      where the next record would pass it. */
  lemma {:induction false} SliceEndFits(room: int, photos: seq<Photo>, from: nat, to: nat)
    requires from <= to <= |photos|
    requires to - from <= 1 || PhotosCost(photos[from..to]) <= room
    ensures
      var end := SliceEnd(room, photos, from, to);
      && (end - from <= 1 || PhotosCost(photos[from..end]) <= room)
      && (end < |photos| ==> end > from && PhotosCost(photos[from..end + 1]) > room)
    decreases |photos| - to
  {
    hide PhotosCost;
    if to < |photos| && (to == from || PhotosCost(photos[from..to + 1]) <= room) {
      SliceEndFits(room, photos, from, to + 1);
    }
  }

  lemma SliceFits(emptyRow: nat, placed: Placed, withText: bool, from: nat, first: bool)
    requires from <= |placed.point.attachments| && (first <==> from == 0)
    requires first || from < |placed.point.attachments|
    requires PointPiecesFit(emptyRow, placed, withText)
    requires emptyRow + Bytes(SplitJson(WholeSplit(placed, withText))) > ROW_BUDGET_BYTES
    ensures
      var end := NextEnd(emptyRow, placed, withText, from, first);
      emptyRow + SliceBytes(placed, withText, first, placed.point.attachments[from..end]) <= ROW_BUDGET_BYTES
  {
    hide SliceBytes, PhotosCost, Bytes, SplitJson, WholeSplit;
    var photos := placed.point.attachments;
    var end := NextEnd(emptyRow, placed, withText, from, first);
    SliceEndFits(ROW_BUDGET_BYTES - emptyRow - SliceBytes(placed, withText, first, []), photos, from, from);
    hide SliceEnd;
    SliceCost(placed, withText, first, photos[from..end]);
    if end == from {
      assert photos == [] && photos[from..end] == [];
    } else if end == from + 1 {
      assert photos[from..end] == if first then photos[..1] else [photos[from]];
    }
  }

  predicate ItemsFit<A>(emptyRow: nat, items: seq<Item<A>>) {
    forall i :: 0 <= i < |items| ==> emptyRow + items[i].bytes <= ROW_BUDGET_BYTES
  }

  predicate Sized<A>(json: A -> Json, items: seq<Item<A>>) {
    forall i :: 0 <= i < |items| ==> items[i].bytes == Bytes(json(items[i].value))
  }

  lemma {:induction false} SlicesFit(emptyRow: nat, placed: Placed, withText: bool, from: nat, first: bool)
    requires from <= |placed.point.attachments| && (first <==> from == 0)
    requires PointPiecesFit(emptyRow, placed, withText)
    requires emptyRow + Bytes(SplitJson(WholeSplit(placed, withText))) > ROW_BUDGET_BYTES
    ensures ItemsFit(emptyRow, Slices(emptyRow, placed, withText, from, first))
    decreases |placed.point.attachments| - from, first
  {
    var photos := placed.point.attachments;
    if first || from < |photos| {
      SliceFits(emptyRow, placed, withText, from, first);
      hide SplitJson, Bytes, PointPiecesFit, NextEnd, WholeSplit, Slice;
      var end := NextEnd(emptyRow, placed, withText, from, first);
      if end > 0 {
        SlicesFit(emptyRow, placed, withText, end, false);
      }
    }
  }

  lemma {:induction false} SlicesSized(emptyRow: nat, placed: Placed, withText: bool, from: nat, first: bool)
    requires from <= |placed.point.attachments|
    ensures Sized(SplitJson, Slices(emptyRow, placed, withText, from, first))
    decreases |placed.point.attachments| - from, first
  {
    hide SplitJson, Bytes, NextEnd;
    if first || from < |placed.point.attachments| {
      SlicesSized(emptyRow, placed, withText, NextEnd(emptyRow, placed, withText, from, first), false);
    }
  }

  lemma {:induction false} PointsFit(emptyRow: nat, points: seq<Placed>, withText: bool)
    ensures Sized(SplitJson, PointsItems(emptyRow, points, withText))
    ensures (forall i :: 0 <= i < |points| ==> PointPiecesFit(emptyRow, points[i], withText))
        ==> ItemsFit(emptyRow, PointsItems(emptyRow, points, withText))
  {
    hide SplitJson, Bytes, PointPiecesFit, Slices;
    if |points| > 0 {
      var n := |points| - 1;
      PointsFit(emptyRow, points[..n], withText);
      SlicesSized(emptyRow, points[n], withText, 0, true);
      if PointPiecesFit(emptyRow, points[n], withText)
         && emptyRow + Bytes(SplitJson(WholeSplit(points[n], withText))) > ROW_BUDGET_BYTES {
        SlicesFit(emptyRow, points[n], withText, 0, true);
      }
    }
  }

  // ── Every row is within the budget ───────────────────────────────────────

  lemma MemberOf<A>(rows: seq<seq<A>>, i: nat, k: nat, items: seq<A>)
    requires Concat(rows) == items && i < |rows| && k < |rows[i]|
    ensures rows[i][k] in items
  {
    ConcatMember(rows, i, k);
  }

  /** A packed row costs what its values' text costs. */
  lemma ChunkCost<A>(base: nat, json: A -> Json, items: seq<Item<A>>, i: nat)
    requires Sized(json, items) && i < |Fill(base, items)|
    ensures EachCost(json, RowValues(Fill(base, items))[i]) == Joined(ItemSizes(Fill(base, items)[i]))
  {
    var rows: seq<seq<Item<A>>> := Fill(base, items);
    FillKeepsItems(base, items);
    hide Fill, Joined;
    forall k | 0 <= k < |rows[i]| ensures rows[i][k].bytes == Bytes(json(rows[i][k].value)) {
      MemberOf(rows, i, k, items);
    }
    assert Sizes(Each(json, Values(rows[i]))) == ItemSizes(rows[i]);
  }

  lemma ChunkFits<A>(base: nat, json: A -> Json, items: seq<Item<A>>, i: nat)
    requires Sized(json, items) && ItemsFit(base, items) && i < |Fill(base, items)|
    ensures base + EachCost(json, RowValues(Fill(base, items))[i]) <= ROW_BUDGET_BYTES
  {
    ChunkCost(base, json, items, i);
    FillFitsIff(base, items);
    hide EachCost, RowValues, Joined;
    assert forall item: Item<A> :: item in items ==> base + item.bytes <= ROW_BUDGET_BYTES;
    assert Fits(base, Fill(base, items)[i]);
  }

  lemma ChunksFit(removal: Removal)
    requires PiecesFit(removal)
    ensures SummaryBase(removal) <= ROW_BUDGET_BYTES
    ensures forall i :: 0 <= i < |RoomRows(removal)| ==>
      SummaryBase(removal) + EachCost(SelfJson, RoomRows(removal)[i]) <= ROW_BUDGET_BYTES
    ensures forall i :: 0 <= i < |ContributorRows(removal)| ==>
      ContributorBase(removal) + EachCost(ContributorJson, ContributorRows(removal)[i]) <= ROW_BUDGET_BYTES
    ensures forall i :: 0 <= i < |PointRows(removal)| ==>
      PointBase(removal) + EachCost(SplitJson, PointRows(removal)[i]) <= ROW_BUDGET_BYTES
  {
    PointsFit(PointBase(removal), removal.points, !removal.pointTextInSummary);
    hide Bytes, EachCost, RowValues, Fill, PointsItems, SummaryBase, ContributorBase, PointBase, PointPiecesFit,
      ContributorJson, SplitJson;
    forall i | 0 <= i < |RoomRows(removal)|
      ensures SummaryBase(removal) + EachCost(SelfJson, RoomRows(removal)[i]) <= ROW_BUDGET_BYTES
    {
      ChunkFits(SummaryBase(removal), SelfJson, Items(SelfJson, removal.roomList), i);
    }
    forall i | 0 <= i < |ContributorRows(removal)|
      ensures ContributorBase(removal) + EachCost(ContributorJson, ContributorRows(removal)[i]) <= ROW_BUDGET_BYTES
    {
      ChunkFits(ContributorBase(removal), ContributorJson, Items(ContributorJson, removal.contributors), i);
    }
    forall i | 0 <= i < |PointRows(removal)|
      ensures PointBase(removal) + EachCost(SplitJson, PointRows(removal)[i]) <= ROW_BUDGET_BYTES
    {
      ChunkFits(PointBase(removal), SplitJson, SlicesOf(removal), i);
    }
  }

  /** Within the budget but for the digits the real counts have beyond the
      stand-ins' five. */
  predicate RowWithin(row: Row, part: nat, parts: nat) {
    Bytes(RowJson(row)) + 10 <= ROW_BUDGET_BYTES + Digits(part) + Digits(parts)
  }

  lemma ContextBase(removal: Removal)
    requires ContextWithinSummary(removal) && removal.roomList != []
    ensures Bytes(WithCounts(removal.context, EmptyList("rooms"))) <= SummaryBase(removal)
  {
    hide T, Bytes;
    var widest := Counts(WIDEST_COUNT, WIDEST_COUNT);
    ThreeCost(removal.context, EmptyList("rooms"), widest);
    ThreeCost(removal.summary, EmptyList("rooms"), widest);
  }

  lemma RoomRowWithin(removal: Removal, rooms: seq<Json>, part: nat, parts: nat)
    requires removal.roomList != [] && ContextWithinSummary(removal)
    requires SummaryBase(removal) + EachCost(SelfJson, rooms) <= ROW_BUDGET_BYTES
    ensures RowWithin(SummaryRow(removal.summary, part, parts, Some(rooms)), part, parts)
    ensures RowWithin(RoomsRow(removal.context, part, parts, rooms), part, parts)
  {
    ContextBase(removal);
    RowCost(removal.summary, "rooms", rooms, part, parts);
    RowCost(removal.context, "rooms", rooms, part, parts);
    assert Each(SelfJson, rooms) == rooms;
    hide Bytes, T, Digits, Sizes, Joined, WithCounts;
  }

  lemma SummaryRowWithin(removal: Removal, part: nat, parts: nat)
    requires removal.roomList == [] && SummaryBase(removal) <= ROW_BUDGET_BYTES
    ensures RowWithin(SummaryRow(removal.summary, part, parts, None), part, parts)
  {
    SummaryCost(removal.summary, part, parts);
    hide Bytes, T, Digits, WithCounts;
    assert removal.summary + Counts(part, parts) + [] == removal.summary + Counts(part, parts);
  }

  lemma ContributorsRowWithin(removal: Removal, people: seq<Contributor>, part: nat, parts: nat)
    requires ContributorBase(removal) + EachCost(ContributorJson, people) <= ROW_BUDGET_BYTES
    ensures RowWithin(ContributorsRow(removal.context, part, parts, people), part, parts)
  {
    RowCost(removal.context, "contributors", Each(ContributorJson, people), part, parts);
    hide Bytes, T, Digits, Sizes, Joined, WithCounts, ContributorJson;
  }

  lemma PointsRowWithin(removal: Removal, points: seq<SplitPoint>, part: nat, parts: nat)
    requires PointBase(removal) + EachCost(SplitJson, points) <= ROW_BUDGET_BYTES
    ensures RowWithin(PointsRow(removal.context, part, parts, points), part, parts)
  {
    RowCost(removal.context, "points", Each(SplitJson, points), part, parts);
    hide Bytes, T, Digits, Sizes, Joined, WithCounts, SplitJson;
  }

  /** Consecutive rows, the first of them part `part`, each within. */
  predicate RunWithin(rows: seq<Row>, part: nat, parts: nat) {
    forall i :: 0 <= i < |rows| ==> RowWithin(rows[i], part + i, parts)
  }

  lemma RunAppend(a: seq<Row>, b: seq<Row>, part: nat, parts: nat)
    requires RunWithin(a, part, parts) && RunWithin(b, part + |a|, parts)
    ensures RunWithin(a + b, part, parts)
  {
    hide RowWithin;
    forall i | 0 <= i < |a + b| ensures RowWithin((a + b)[i], part + i, parts) {
      assert i >= |a| ==> (a + b)[i] == b[i - |a|] && RowWithin(b[i - |a|], part + |a| + (i - |a|), parts);
    }
  }

  lemma SummaryAndRoomsWithin(removal: Removal, roomRows: seq<seq<Json>>, parts: nat)
    requires SummaryBase(removal) <= ROW_BUDGET_BYTES && ContextWithinSummary(removal)
    requires removal.roomList != [] <==> roomRows != []
    requires forall i :: 0 <= i < |roomRows| ==>
      SummaryBase(removal) + EachCost(SelfJson, roomRows[i]) <= ROW_BUDGET_BYTES
    ensures RunWithin(SummaryAndRooms(removal, roomRows, parts), 1, parts)
  {
    hide RowWithin, EachCost, SummaryBase, ContextWithinSummary;
    var rows := SummaryAndRooms(removal, roomRows, parts);
    forall i | 0 <= i < |rows| ensures RowWithin(rows[i], 1 + i, parts) {
      if roomRows == [] {
        SummaryRowWithin(removal, 1, parts);
      } else {
        RoomRowWithin(removal, roomRows[i], i + 1, parts);
      }
    }
  }

  lemma PeopleWithin(removal: Removal, before: nat, parts: nat, people: seq<seq<Contributor>>)
    requires forall i :: 0 <= i < |people| ==>
      ContributorBase(removal) + EachCost(ContributorJson, people[i]) <= ROW_BUDGET_BYTES
    ensures RunWithin(PeopleFrom(removal.context, before, parts, people), 1 + before, parts)
  {
    hide RowWithin, EachCost, ContributorBase;
    forall i | 0 <= i < |people|
      ensures RowWithin(PeopleFrom(removal.context, before, parts, people)[i], 1 + before + i, parts)
    {
      ContributorsRowWithin(removal, people[i], before + i + 1, parts);
    }
  }

  lemma PointsWithin(removal: Removal, before: nat, parts: nat, points: seq<seq<SplitPoint>>)
    requires forall i :: 0 <= i < |points| ==>
      PointBase(removal) + EachCost(SplitJson, points[i]) <= ROW_BUDGET_BYTES
    ensures RunWithin(PointsFrom(removal.context, before, parts, points), 1 + before, parts)
  {
    hide RowWithin, EachCost, PointBase;
    forall i | 0 <= i < |points|
      ensures RowWithin(PointsFrom(removal.context, before, parts, points)[i], 1 + before + i, parts)
    {
      PointsRowWithin(removal, points[i], before + i + 1, parts);
    }
  }

  lemma SplitRows(removal: Removal)
    requires IsSplit(removal)
    ensures removal.roomList != [] <==> RoomRows(removal) != []
    ensures Snapshots(removal) == Assemble(removal, RoomRows(removal), ContributorRows(removal), PointRows(removal))
  {
    RoomRowsPresent(removal);
  }

  lemma RowsWithin(removal: Removal)
    requires IsSplit(removal) && PiecesFit(removal) && ContextWithinSummary(removal)
    ensures RunWithin(Snapshots(removal), 1, |Snapshots(removal)|)
  {
    hide *;
    ChunksFit(removal);
    SplitRows(removal);
    var roomRows, people, points := RoomRows(removal), ContributorRows(removal), PointRows(removal);
    var n := if |roomRows| > 1 then |roomRows| else 1;
    var parts := n + |people| + |points|;
    SummaryAndRoomsWithin(removal, roomRows, parts);
    PeopleWithin(removal, n, parts, people);
    PointsWithin(removal, n + |people|, parts, points);
    AssembledWithin(removal, roomRows, people, points);
  }

  lemma AssembledWithin(removal: Removal, roomRows: seq<seq<Json>>, people: seq<seq<Contributor>>,
                        points: seq<seq<SplitPoint>>)
    requires removal.roomList != [] ==> roomRows != []
    requires
      var n := if |roomRows| > 1 then |roomRows| else 1;
      var parts := n + |people| + |points|;
      && RunWithin(SummaryAndRooms(removal, roomRows, parts), 1, parts)
      && RunWithin(PeopleFrom(removal.context, n, parts, people), 1 + n, parts)
      && RunWithin(PointsFrom(removal.context, n + |people|, parts, points), 1 + n + |people|, parts)
    ensures
      var rows := Assemble(removal, roomRows, people, points);
      RunWithin(rows, 1, |rows|)
  {
    hide RunWithin, SummaryAndRooms;
    var n := if |roomRows| > 1 then |roomRows| else 1;
    var parts := n + |people| + |points|;
    var a := SummaryAndRooms(removal, roomRows, parts);
    var b := PeopleFrom(removal.context, n, parts, people);
    RunAppend(a, b, 1, parts);
    RunAppend(a + b, PointsFrom(removal.context, n + |people|, parts, points), 1, parts);
  }

  /** With pieces that fit, every row is within the row budget up to the widest
      count the sizing stands in for. */
  lemma RowsFitBudget(removal: Removal)
    requires IsSplit(removal) && PiecesFit(removal) && ContextWithinSummary(removal)
    requires |Snapshots(removal)| <= WIDEST_COUNT
    ensures forall row <- Snapshots(removal) :: Bytes(RowJson(row)) <= ROW_BUDGET_BYTES
  {
    RowsWithin(removal);
    WidestDigits();
    var rows := Snapshots(removal);
    hide Bytes, Digits, Snapshots;
    forall i | 0 <= i < |rows| ensures Bytes(RowJson(rows[i])) <= ROW_BUDGET_BYTES {
      assert RowWithin(rows[i], i + 1, |rows|);
      DigitsMonotone(i + 1, WIDEST_COUNT);
      DigitsMonotone(|rows|, WIDEST_COUNT);
    }
  }

  /** And within the ledger's own cap for any number of rows below 10^4101: the
      eighth the budget leaves free is room for the digits. */
  lemma RowsFitLedger(removal: Removal)
    requires IsSplit(removal) && PiecesFit(removal) && ContextWithinSummary(removal)
    requires Digits(|Snapshots(removal)|) <= 4101
    ensures forall row <- Snapshots(removal) :: Bytes(RowJson(row)) <= LEDGER_MAX_SNAPSHOT_BYTES
  {
    RowsWithin(removal);
    var rows := Snapshots(removal);
    hide Bytes, Digits, Snapshots;
    forall i | 0 <= i < |rows| ensures Bytes(RowJson(rows[i])) <= LEDGER_MAX_SNAPSHOT_BYTES {
      assert RowWithin(rows[i], i + 1, |rows|);
      DigitsMonotone(i + 1, |rows|);
    }
  }
}
