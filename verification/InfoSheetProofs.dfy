/** What every accepted info sheet edit keeps, and what Undo gives back. */
module InfoSheetProofs {
  import opened Wrappers
  import opened Json
  import opened InfoSheetEdit
  import JsonArray

  // ── The column reads back as the edit left it ────────────────────────────

  /** What a request sends was read from its JSON. */
  ghost predicate SentOrder(codec: Codec, order: Option<nat>) { order.Some? ==> Read(codec, Number(order.value)) }

  ghost predicate SentAddition(codec: Codec, addition: Addition) {
    SentOrder(codec, addition.displayOrder)
    && forall i :: 0 <= i < |addition.rows| ==> SentOrder(codec, addition.rows[i].displayOrder)
  }

  ghost predicate Sent(codec: Codec, op: Op) {
    match op
    case AddRows(additions) => forall i :: 0 <= i < |additions| ==> SentAddition(codec, additions[i])
    case UpsertRow(_, _, _, _, _, fields) => Read(codec, Record(fields))
    case UpsertSection(_, _, _, _, fields) => Read(codec, Record(fields))
    case _ => true
  }

  ghost predicate AllRead(codec: Codec, values: seq<Value>) {
    forall i :: 0 <= i < |values| ==> Read(codec, values[i])
  }

  lemma RecordRead(codec: Codec, fields: map<string, Value>)
    requires ReadByParts(codec)
    ensures Read(codec, Record(fields)) <==> forall key <- fields :: Read(codec, fields[key])
  {
    hide Read, Count;
  }

  lemma ListRead(codec: Codec, items: seq<Value>)
    requires ReadByParts(codec)
    ensures Read(codec, List(items)) <==> AllRead(codec, items)
  {
    hide Read, Count;
  }

  lemma PlainRead(codec: Codec)
    requires ReadByParts(codec)
    ensures forall text: Text :: Read(codec, Words(text))
    ensures forall on: bool :: Read(codec, Flag(on))
    ensures forall n: nat :: Read(codec, Count(n))
  {
    hide Read, Count;
  }

  lemma RowsRead(codec: Codec, section: Value)
    requires ReadByParts(codec) && Read(codec, section) && HasRows(section)
    ensures AllRead(codec, RowsOf(section))
  {
    hide Read, ReadByParts;
    RecordRead(codec, section.fields);
    ListRead(codec, RowsOf(section));
    assert section.fields["rows"] == List(RowsOf(section));
  }

  lemma WithRowsRead(codec: Codec, section: Value, rows: seq<Value>)
    requires ReadByParts(codec) && Read(codec, section) && section.Record? && AllRead(codec, rows)
    ensures Read(codec, WithRows(section, rows))
  {
    hide Read, ReadByParts;
    ListRead(codec, rows);
    hide AllRead;
    RecordRead(codec, section.fields);
    RecordRead(codec, section.fields["rows" := List(rows)]);
  }

  lemma StoredRowRead(codec: Codec, row: NewRow, order: nat)
    requires ReadByParts(codec) && SentOrder(codec, row.displayOrder)
    ensures Read(codec, StoredRow(row, order))
  {
    hide Read, ReadByParts, Count;
    RecordRead(codec, StoredRow(row, order).fields);
    PlainRead(codec);
  }

  lemma StoredRowsRead(codec: Codec, rows: seq<NewRow>, first: nat)
    requires ReadByParts(codec) && forall i :: 0 <= i < |rows| ==> SentOrder(codec, rows[i].displayOrder)
    ensures AllRead(codec, StoredRows(rows, first))
  {
    hide Read, ReadByParts, StoredRow, SentOrder;
    forall i | 0 <= i < |rows| ensures Read(codec, StoredRow(rows[i], first + i)) {
      StoredRowRead(codec, rows[i], first + i);
    }
  }

  lemma CreatedRead(codec: Codec, addition: Addition, sections: nat)
    requires ReadByParts(codec) && SentAddition(codec, addition)
    ensures Read(codec, Created(addition, sections))
  {
    StoredRowsRead(codec, addition.rows, 0);
    hide Read, ReadByParts, Count, StoredRows;
    ListRead(codec, StoredRows(addition.rows, 0));
    RecordRead(codec, Created(addition, sections).fields);
    PlainRead(codec);
  }

  /** One of the entries there were, or written from a value that is read. */
  ghost predicate MadeFrom(codec: Codec, before: seq<Entry>, entry: Entry) {
    entry in before || (Read(codec, entry.value) && entry == Written(codec, entry.value))
  }

  ghost predicate Made(codec: Codec, before: seq<Entry>, after: seq<Entry>) {
    forall i :: 0 <= i < |after| ==> MadeFrom(codec, before, after[i])
  }

  lemma MadeRead(codec: Codec, before: seq<Entry>, after: seq<Entry>)
    requires AllRead(codec, ValuesOf(before)) && Made(codec, before, after)
    ensures AllRead(codec, ValuesOf(after))
  {
    hide Read, Written;
    forall i | 0 <= i < |after| ensures Read(codec, after[i].value) {
      if after[i] in before {
        var k :| 0 <= k < |before| && before[k] == after[i];
        assert ValuesOf(before)[k] == after[i].value;
      }
    }
  }

  lemma PutMade(codec: Codec, before: seq<Entry>, now: seq<Entry>, at: nat, value: Value)
    requires Made(codec, before, now) && at < |now| && Read(codec, value)
    ensures Made(codec, before, now[at := Written(codec, value)])
  {
    hide Read;
  }

  lemma InsertMade(codec: Codec, before: seq<Entry>, at: nat, value: Value)
    requires at <= |before| && Read(codec, value)
    ensures Made(codec, before, InsertedAt(before, Written(codec, value), at))
  {
    hide Read;
  }

  lemma AddOneMade(codec: Codec, before: seq<Entry>, now: seq<Entry>, taken: set<Text>, addition: Addition)
    requires ReadByParts(codec) && AllRead(codec, ValuesOf(before)) && Made(codec, before, now)
    requires SentAddition(codec, addition) && AddOne(codec, now, taken, addition).Ok?
    ensures Made(codec, before, AddOne(codec, now, taken, addition).value.0)
  {
    hide Read, ReadByParts, Created, StoredRows, Find, WithRows, HasRows, RowsOf;
    MadeRead(codec, before, now);
    if addition.isNew {
      CreatedRead(codec, addition, |now|);
    } else {
      var at := Find(ValuesOf(now), addition.sectionId).value;
      var section := ValuesOf(now)[at];
      var rows := StoredRows(addition.rows, |RowsOf(section)|);
      RowsRead(codec, section);
      StoredRowsRead(codec, addition.rows, |RowsOf(section)|);
      assert AllRead(codec, RowsOf(section) + rows);
      WithRowsRead(codec, section, RowsOf(section) + rows);
      PutMade(codec, before, now, at, WithRows(section, RowsOf(section) + rows));
    }
  }

  lemma {:induction false} AddMade(codec: Codec, before: seq<Entry>, now: seq<Entry>, taken: set<Text>,
                                   added: seq<Added>, additions: seq<Addition>)
    requires ReadByParts(codec) && AllRead(codec, ValuesOf(before)) && Made(codec, before, now)
    requires forall i :: 0 <= i < |additions| ==> SentAddition(codec, additions[i])
    ensures
      var outcome := AddFrom(codec, now, taken, added, additions);
      outcome.Changed? ==> Made(codec, before, outcome.entries)
    decreases |additions|
  {
    hide ReadByParts, AllRead, Made, AddOne, SentAddition;
    if additions != [] && AddOne(codec, now, taken, additions[0]).Ok? {
      var step := AddOne(codec, now, taken, additions[0]).value;
      AddOneMade(codec, before, now, taken, additions[0]);
      AddMade(codec, before, step.0, taken + NewIdSet(additions[0].rows), added + [step.1], additions[1..]);
    }
  }

  /** What an edit that names one section does to the list of entries. */
  datatype Shape = Dropped(at: nat) | Put(at: nat, value: Value) | New(at: nat, value: Value)

  ghost predicate Shaped(codec: Codec, before: seq<Entry>, after: seq<Entry>, id: Text, shape: Shape) {
    match shape
    case Dropped(at) => at < |before| && IdIs(before[at].value, id) && after == Without(before, at)
    case Put(at, value) =>
      && at < |before| && IdIs(before[at].value, id) && IdIs(value, id)
      && after == before[at := Written(codec, value)]
    case New(at, value) =>
      && at <= |before| && IdIs(value, id) && after == InsertedAt(before, Written(codec, value), at)
      && forall i :: 0 <= i < |before| ==> !IdIs(before[i].value, id)
  }

  /** Such an edit drops, rewrites or adds the one entry with that id, and keeps
      every other entry's text, byte for byte, in its order. */
  lemma OthersKept(codec: Codec, entries: seq<Entry>, op: Op) returns (shape: Shape)
    requires !op.AddRows? && EditEntries(codec, entries, op).Changed?
    ensures Shaped(codec, entries, EditEntries(codec, entries, op).entries, op.sectionId, shape)
    ensures shape.Dropped? <==> op.DeleteSection?
    ensures shape.New? ==> op.UpsertSection? && op.isNew
  {
    hide Without<Value>, InsertedAt<Value>, Without<Entry>, InsertedAt<Entry>;
    var found := Find(ValuesOf(entries), op.sectionId);
    var after := EditEntries(codec, entries, op).entries;
    match op
    case DeleteSection(_) =>
      shape := Dropped(found.value);
    case UpsertSection(_, _, position, _, fields) =>
      if found.None? {
        shape := New(PlaceIn(|entries|, position), NewSection(op.sectionId, fields));
        assert forall i :: 0 <= i < |entries| ==> ValuesOf(entries)[i] == entries[i].value;
      } else {
        var section := entries[found.value].value;
        shape := Put(found.value, section.(fields := section.fields + OwnFields(fields)));
      }
    case DeleteRow(_, rowId) =>
      var section := entries[found.value].value;
      shape := Put(found.value, WithRows(section, Without(RowsOf(section), Find(RowsOf(section), rowId).value)));
    case UpsertRow(_, _, position, _, rowId, fields) =>
      var section := entries[found.value].value;
      var rows, row := RowsOf(section), RowRecord(rowId, fields);
      var rowAt := Find(rows, rowId);
      shape := Put(found.value, WithRows(section,
        if rowAt.Some? then rows[rowAt.value := row] else InsertedAt(rows, row, PlaceIn(|rows|, position))));
  }

  lemma SectionMade(codec: Codec, entries: seq<Entry>, op: Op)
    requires ReadByParts(codec) && AllRead(codec, ValuesOf(entries)) && op.UpsertSection? && Sent(codec, op)
    requires EditSection(codec, entries, op).Changed?
    ensures Made(codec, entries, EditSection(codec, entries, op).entries)
  {
    hide Read, ReadByParts, Find;
    RecordRead(codec, op.fields);
    PlainRead(codec);
    var found := Find(ValuesOf(entries), op.sectionId);
    if found.None? {
      var sent := Record(op.fields["id" := Words(op.sectionId)]);
      var rows := if HasRows(sent) then RowsOf(sent) else [];
      RecordRead(codec, sent.fields);
      if HasRows(sent) {
        RowsRead(codec, sent);
      }
      WithRowsRead(codec, sent, rows);
      hide InsertedAt<Entry>;
      InsertMade(codec, entries, PlaceIn(|entries|, op.position), NewSection(op.sectionId, op.fields));
    } else {
      var section := ValuesOf(entries)[found.value];
      RecordRead(codec, section.fields);
      RecordRead(codec, section.fields + OwnFields(op.fields));
      PutMade(codec, entries, entries, found.value, section.(fields := section.fields + OwnFields(op.fields)));
    }
  }

  lemma RowMade(codec: Codec, entries: seq<Entry>, op: Op)
    requires ReadByParts(codec) && AllRead(codec, ValuesOf(entries)) && (op.DeleteRow? || op.UpsertRow?)
      && Sent(codec, op)
    requires EditRow(codec, entries, op).Changed?
    ensures Made(codec, entries, EditRow(codec, entries, op).entries)
  {
    hide Read, ReadByParts, Find, HasRows, RowsOf, WithRows;
    var at := Find(ValuesOf(entries), op.sectionId).value;
    var section := ValuesOf(entries)[at];
    var rows := RowsOf(section);
    var rowAt := Find(rows, op.rowId);
    RowsRead(codec, section);
    var after: seq<Value>;
    if op.DeleteRow? {
      after := Without(rows, rowAt.value);
    } else {
      var row := RowRecord(op.rowId, op.fields);
      RecordRead(codec, op.fields);
      RecordRead(codec, row.fields);
      PlainRead(codec);
      after := if rowAt.Some? then rows[rowAt.value := row] else InsertedAt(rows, row, PlaceIn(|rows|, op.position));
    }
    assert AllRead(codec, after);
    WithRowsRead(codec, section, after);
    PutMade(codec, entries, entries, at, WithRows(section, after));
  }

  lemma EditMade(codec: Codec, entries: seq<Entry>, op: Op)
    requires ReadByParts(codec) && AllRead(codec, ValuesOf(entries)) && Sent(codec, op)
    requires EditEntries(codec, entries, op).Changed?
    ensures Made(codec, entries, EditEntries(codec, entries, op).entries)
  {
    hide ReadByParts, AllRead, Sent, EditSection, EditRow, AddFrom;
    match op
    case AddRows(additions) =>
      assert forall i :: 0 <= i < |additions| ==> SentAddition(codec, additions[i]) by {
        hide *;
        SentAdditions(codec, additions);
      }
      AddMade(codec, entries, entries, Taken(entries), [], additions);
    case DeleteSection(_) =>
    case UpsertSection(_, _, _, _, _) => SectionMade(codec, entries, op);
    case DeleteRow(_, _) => RowMade(codec, entries, op);
    case UpsertRow(_, _, _, _, _, _) => RowMade(codec, entries, op);
  }

  lemma SentAdditions(codec: Codec, additions: seq<Addition>)
    requires Sent(codec, AddRows(additions))
    ensures forall i :: 0 <= i < |additions| ==> SentAddition(codec, additions[i])
  {
    hide SentAddition;
  }

  /** Only an infinity does not come back. */
  lemma {:induction false} SettledFinite(value: Value)
    ensures Settled(value) == value <==> Finite(value)
    decreases value
  {
    match value
    case Record(fields) =>
      forall key | key in fields ensures Settled(fields[key]) == fields[key] <==> Finite(fields[key]) {
        SettledFinite(fields[key]);
      }
      assert Settled(value) == value ==> forall key <- fields :: Settled(value).fields[key] == fields[key];
    case List(items) =>
      forall i | 0 <= i < |items| ensures Settled(items[i]) == items[i] <==> Finite(items[i]) {
        SettledFinite(items[i]);
      }
      assert Settled(value) == value ==> forall i :: 0 <= i < |items| ==> Settled(value).items[i] == items[i];
    case _ =>
  }

  lemma SettledKeepsId(value: Value, id: Text)
    ensures IdIs(Settled(value), id) <==> IdIs(value, id)
  {
    if value.Record? && "id" in value.fields {
      assert Settled(value).fields["id"] == Settled(value.fields["id"]);
    }
  }

  lemma SettledDistinct(before: seq<Value>, after: seq<Value>)
    requires |before| == |after| && Distinct(before)
    requires forall i :: 0 <= i < |after| ==> after[i] in [before[i], Settled(before[i])]
    ensures Distinct(after)
  {
    hide IdIs, Settled;
    forall i, id: Text | 0 <= i < |after| ensures IdIs(after[i], id) <==> IdIs(before[i], id) {
      SettledKeepsId(before[i], id);
    }
  }

  /** What becomes of one entry when the column is read again. */
  lemma MadeRereads(codec: Codec, before: seq<Entry>, entry: Entry)
    requires Lawful(codec) && Faithful(codec, before) && MadeFrom(codec, before, entry)
    ensures JsonArray.ValueText(entry.raw) && codec.parse(entry.raw).Some?
    ensures codec.parse(entry.raw).value == entry.value <==> entry in before || Finite(entry.value)
    ensures codec.parse(entry.raw).value in [entry.value, Settled(entry.value)]
  {
    hide JsonArray.ValueText, ReadByParts, Read, Arrayed, ReadsAs, Settled, Finite;
    SettledFinite(entry.value);
    if entry in before {
      var k :| 0 <= k < |before| && before[k] == entry;
    }
  }

  /** An accepted edit's column, read again, holds the entries the edit left,
      text for text, and the same values exactly when none of those it wrote
      holds an infinity. */
  lemma EditRereads(codec: Codec, column: Column, op: Op)
    requires Lawful(codec) && Sent(codec, op) && EditInfoSheet(codec, column, op).Edited?
    ensures EntriesOf(codec, column).Some?
    ensures
      var edit := EditInfoSheet(codec, column, op);
      var before := EntriesOf(codec, column).value;
      var reread := EntriesOf(codec, Stored(edit.json));
      && edit.outcome == EditEntries(codec, before, op)
      && edit.outcome.Changed?
      && reread.Some? && RawTexts(reread.value) == RawTexts(edit.outcome.entries)
      && (reread.value == edit.outcome.entries
          <==> forall entry <- edit.outcome.entries :: entry in before || Finite(entry.value))
      && (forall i :: 0 <= i < |reread.value| ==>
            reread.value[i].value in [edit.outcome.entries[i].value, Settled(edit.outcome.entries[i].value)])
  {
    hide EditEntries, Faithful, JsonArray.ArrayText, JsonArray.ValueText, RawTexts, Lawful, Sent, EntriesOf,
         Settled, Finite;
    var before := EntriesOf(codec, column).value;
    EntriesFaithful(codec, column);
    FaithfulRead(codec, before);
    var after := EditEntries(codec, before, op).entries;
    assert ReadByParts(codec) by {
      hide *;
      LawfulParts(codec);
    }
    EditMade(codec, before, op);
    MadeAllReread(codec, before, after);
    WrittenRereads(codec, after);
  }

  lemma LawfulParts(codec: Codec)
    requires Lawful(codec)
    ensures ReadByParts(codec)
  {
    hide ReadByParts;
  }

  lemma MadeAllReread(codec: Codec, before: seq<Entry>, after: seq<Entry>)
    requires Lawful(codec) && Faithful(codec, before) && Made(codec, before, after)
    ensures Readable(codec, after)
    ensures Reread(codec, after) == after <==> forall entry <- after :: entry in before || Finite(entry.value)
    ensures forall i :: 0 <= i < |after| ==> Reread(codec, after)[i].value in [after[i].value, Settled(after[i].value)]
  {
    hide Lawful, Faithful, MadeFrom, JsonArray.ValueText, Settled, Finite;
    forall i | 0 <= i < |after|
      ensures JsonArray.ValueText(after[i].raw) && codec.parse(after[i].raw).Some?
      ensures codec.parse(after[i].raw).value == after[i].value <==> after[i] in before || Finite(after[i].value)
      ensures codec.parse(after[i].raw).value in [after[i].value, Settled(after[i].value)]
    {
      MadeRereads(codec, before, after[i]);
    }
    var read := Reread(codec, after);
    assert read == after <==> forall i :: 0 <= i < |after| ==> read[i] == after[i];
  }

  lemma FaithfulRead(codec: Codec, entries: seq<Entry>)
    requires Faithful(codec, entries)
    ensures AllRead(codec, ValuesOf(entries))
  {
    hide JsonArray.ValueText;
  }

  lemma EntriesFaithful(codec: Codec, column: Column)
    requires Lawful(codec) && EntriesOf(codec, column).Some?
    ensures Faithful(codec, EntriesOf(codec, column).value)
  {
    if column.Stored? && JsonArray.Trim(column.text) != [] {
      ColumnRead(codec, column.text);
    }
  }

  /** A column that is neither blank nor a JSON array is refused, whatever the
      edit, and only such a column is refused before the edit is looked at. */
  lemma UnsafeRefused(codec: Codec, text: Text, op: Op)
    requires Lawful(codec) && JsonArray.Trim(text) != []
    requires codec.parse(text).None? || !codec.parse(text).value.List?
    ensures EditInfoSheet(codec, Stored(text), op) == NotEdited(Unsafe)
  {
    hide Lawful, JsonArray.Trim, EditEntries;
    ColumnRead(codec, text);
  }

  // ── Ids stay distinct ────────────────────────────────────────────────────

  ghost predicate Distinct(values: seq<Value>) {
    forall i, j, id: Text :: 0 <= i < j < |values| && IdIs(values[i], id) ==> !IdIs(values[j], id)
  }

  ghost predicate RowsDistinct(section: Value) {
    HasRows(section) ==> Distinct(RowsOf(section))
  }

  /** Sections are distinct by id, and so are the rows of each section. */
  ghost predicate SheetDistinct(values: seq<Value>) {
    Distinct(values) && forall i :: 0 <= i < |values| ==> RowsDistinct(values[i])
  }

  lemma DistinctPut(values: seq<Value>, at: nat, value: Value, id: Text)
    requires at < |values| && IdIs(value, id) && IdIs(values[at], id)
    ensures Distinct(values[at := value]) <==> Distinct(values)
  {
    OneId(value, id);
    OneId(values[at], id);
    hide IdIs;
    PutImplies(values, at, value);
    PutImplies(values[at := value], at, values[at]);
    assert values[at := value][at := values[at]] == values;
  }

  lemma PutImplies(values: seq<Value>, at: nat, value: Value)
    requires at < |values| && forall id: Text :: IdIs(value, id) <==> IdIs(values[at], id)
    ensures Distinct(values) ==> Distinct(values[at := value])
  {
    hide IdIs;
  }

  lemma OneId(value: Value, id: Text)
    requires IdIs(value, id)
    ensures forall other: Text :: IdIs(value, other) <==> other == id
  {
  }

  lemma DistinctInserted(values: seq<Value>, place: nat, value: Value, id: Text)
    requires Distinct(values) && place <= |values|
    requires IdIs(value, id) && forall i :: 0 <= i < |values| ==> !IdIs(values[i], id)
    ensures Distinct(InsertedAt(values, value, place))
  {
    OneId(value, id);
    hide IdIs;
    var after := InsertedAt(values, value, place);
    forall i, j, other: Text | 0 <= i < j < |after| && IdIs(after[i], other) ensures !IdIs(after[j], other) {
      assert i != place ==> after[i] == values[if i < place then i else i - 1];
      assert j != place ==> after[j] == values[if j < place then j else j - 1];
    }
  }

  lemma DistinctWithout(values: seq<Value>, at: nat)
    requires Distinct(values) && at < |values|
    ensures Distinct(Without(values, at))
  {
    hide IdIs;
    var after := Without(values, at);
    forall i, j, id: Text | 0 <= i < j < |after| && IdIs(after[i], id) ensures !IdIs(after[j], id) {
      assert after[i] == values[if i < at then i else i + 1];
      assert after[j] == values[if j < at then j else j + 1];
    }
  }

  lemma DistinctAppended(a: seq<Value>, b: seq<Value>)
    requires forall i, j, id: Text :: 0 <= i < |a| && 0 <= j < |b| && IdIs(a[i], id) ==> !IdIs(b[j], id)
    ensures Distinct(a + b) <==> Distinct(a) && Distinct(b)
  {
    hide IdIs;
    if Distinct(a + b) {
      forall i, j, id: Text | 0 <= i < j < |a| && IdIs(a[i], id) ensures !IdIs(a[j], id) {
        assert (a + b)[i] == a[i] && (a + b)[j] == a[j];
      }
      forall i, j, id: Text | 0 <= i < j < |b| && IdIs(b[i], id) ensures !IdIs(b[j], id) {
        assert (a + b)[|a| + i] == b[i] && (a + b)[|a| + j] == b[j];
      }
    }
  }

  lemma ShapedDistinct(codec: Codec, before: seq<Entry>, after: seq<Entry>, id: Text, shape: Shape)
    requires Distinct(ValuesOf(before)) && Shaped(codec, before, after, id, shape)
    ensures Distinct(ValuesOf(after))
  {
    hide IdIs, Distinct;
    var values := ValuesOf(before);
    match shape
    case Dropped(at) =>
      DistinctWithout(values, at);
      assert ValuesOf(after) == Without(values, at);
    case Put(at, value) =>
      DistinctPut(values, at, value, id);
      assert ValuesOf(after) == values[at := value];
    case New(at, value) =>
      DistinctInserted(values, at, value, id);
      assert ValuesOf(after) == InsertedAt(values, value, at);
  }

  // ── Bulk adds ────────────────────────────────────────────────────────────

  predicate AdditionDistinct(addition: Addition) {
    forall i, j :: 0 <= i < j < |addition.rows| ==> addition.rows[i].id != addition.rows[j].id
  }

  lemma StoredRowsDistinct(addition: Addition, first: nat)
    ensures Distinct(StoredRows(addition.rows, first)) <==> AdditionDistinct(addition)
  {
    var rows, stored := addition.rows, StoredRows(addition.rows, first);
    hide StoredRows;
    forall i | 0 <= i < |rows| ensures forall other: Text :: IdIs(stored[i], other) <==> other == rows[i].id {
      OneId(stored[i], rows[i].id);
    }
    hide IdIs;
    if Distinct(stored) {
      forall i, j | 0 <= i < j < |rows| ensures rows[i].id != rows[j].id {
        assert IdIs(stored[i], rows[i].id);
        assert IdIs(stored[j], rows[j].id);
      }
    }
  }

  /** Every row id of the section is taken. */
  ghost predicate RowsCovered(taken: set<Text>, section: Value) {
    HasRows(section) ==>
      forall k, id: Text :: 0 <= k < |RowsOf(section)| && IdIs(RowsOf(section)[k], id) ==> id in taken
  }

  ghost predicate Covers(taken: set<Text>, values: seq<Value>) {
    forall i :: 0 <= i < |values| ==> RowsCovered(taken, values[i])
  }

  lemma {:induction false} TakenCovers(entries: seq<Entry>)
    ensures Covers(Taken(entries), ValuesOf(entries))
  {
    hide RowsCovered;
    if entries != [] {
      var n := |entries| - 1;
      TakenCovers(entries[..n]);
      var value := entries[n].value;
      IdSetCovers(value);
      forall i | 0 <= i < |entries| ensures RowsCovered(Taken(entries), ValuesOf(entries)[i]) {
        var last := if HasRows(value) then IdSet(RowsOf(value)) else {};
        assert Taken(entries) == Taken(entries[..n]) + last;
        if i < n {
          assert ValuesOf(entries[..n])[i] == entries[i].value;
          CoveredMore(Taken(entries[..n]), last, entries[i].value);
        } else {
          CoveredMore(last, Taken(entries[..n]), value);
          assert last + Taken(entries[..n]) == Taken(entries);
        }
      }
    }
  }

  lemma IdSetCovers(section: Value)
    ensures RowsCovered(if HasRows(section) then IdSet(RowsOf(section)) else {}, section)
  {
  }

  lemma CoveredMore(taken: set<Text>, more: set<Text>, section: Value)
    requires RowsCovered(taken, section)
    ensures RowsCovered(taken + more, section)
  {
    hide IdIs;
  }

  lemma NewRowsCovered(taken: set<Text>, rows: seq<NewRow>, first: nat, section: Value)
    requires section.Record?
    ensures RowsCovered(taken + NewIdSet(rows), WithRows(section, StoredRows(rows, first)))
    ensures RowsCovered(taken, section) && HasRows(section) ==>
      RowsCovered(taken + NewIdSet(rows), WithRows(section, RowsOf(section) + StoredRows(rows, first)))
  {
    var stored := StoredRows(rows, first);
    hide StoredRows;
    forall k, id: Text | 0 <= k < |stored| && IdIs(stored[k], id) ensures id in NewIdSet(rows) {
      OneId(stored[k], rows[k].id);
    }
  }

  /** What an addition does to the list of values. */
  lemma AddOneValues(codec: Codec, entries: seq<Entry>, taken: set<Text>, addition: Addition)
    requires AddOne(codec, entries, taken, addition).Ok?
    ensures
      var values, after := ValuesOf(entries), ValuesOf(AddOne(codec, entries, taken, addition).value.0);
      var at := Find(values, addition.sectionId);
      && (forall k :: 0 <= k < |addition.rows| ==> addition.rows[k].id !in taken)
      && if addition.isNew then at.None? && after == values + [Created(addition, |values|)]
         else
           && at.Some? && HasRows(values[at.value])
           && after == values[at.value := WithRows(values[at.value],
                RowsOf(values[at.value]) + StoredRows(addition.rows, |RowsOf(values[at.value])|))]
  {
    hide Created, StoredRows, Find, WithRows, HasRows, RowsOf;
    var values, after := ValuesOf(entries), ValuesOf(AddOne(codec, entries, taken, addition).value.0);
    var at := Find(values, addition.sectionId);
    if addition.isNew {
      assert after == values + [Created(addition, |values|)];
    } else {
      var next := WithRows(values[at.value],
                RowsOf(values[at.value]) + StoredRows(addition.rows, |RowsOf(values[at.value])|));
      assert after == values[at.value := next];
    }
  }

  lemma AddOneCovers(codec: Codec, entries: seq<Entry>, taken: set<Text>, addition: Addition)
    requires Covers(taken, ValuesOf(entries)) && AddOne(codec, entries, taken, addition).Ok?
    ensures Covers(taken + NewIdSet(addition.rows), ValuesOf(AddOne(codec, entries, taken, addition).value.0))
  {
    AddOneValues(codec, entries, taken, addition);
    hide AddOne, RowsCovered, StoredRows;
    var values, after := ValuesOf(entries), ValuesOf(AddOne(codec, entries, taken, addition).value.0);
    var more := taken + NewIdSet(addition.rows);
    forall i | 0 <= i < |after| ensures RowsCovered(more, after[i]) {
      if addition.isNew && i == |values| {
        CreatedRows(addition, |values|);
        NewRowsCovered(taken, addition.rows, 0, Created(addition, |values|));
      } else {
        CoveredMore(taken, NewIdSet(addition.rows), values[i]);
        if !addition.isNew && Find(values, addition.sectionId) == Some(i) {
          NewRowsCovered(taken, addition.rows, |RowsOf(values[i])|, values[i]);
        }
      }
    }
  }

  lemma CreatedRows(addition: Addition, sections: nat)
    ensures IdIs(Created(addition, sections), addition.sectionId)
    ensures HasRows(Created(addition, sections)) && RowsOf(Created(addition, sections)) == StoredRows(addition.rows, 0)
    ensures WithRows(Created(addition, sections), StoredRows(addition.rows, 0)) == Created(addition, sections)
  {
    hide StoredRows;
  }

  /** New rows can't collide with rows already on the sheet. */
  lemma RowsApart(taken: set<Text>, section: Value, addition: Addition, first: nat)
    requires HasRows(section) && RowsCovered(taken, section)
    requires forall k :: 0 <= k < |addition.rows| ==> addition.rows[k].id !in taken
    ensures Distinct(RowsOf(section) + StoredRows(addition.rows, first))
       <==> Distinct(RowsOf(section)) && AdditionDistinct(addition)
  {
    var rows, stored := RowsOf(section), StoredRows(addition.rows, first);
    StoredRowsDistinct(addition, first);
    hide StoredRows, Distinct, AdditionDistinct;
    forall i, j, id: Text | 0 <= i < |rows| && 0 <= j < |stored| && IdIs(rows[i], id) ensures !IdIs(stored[j], id) {
      OneId(stored[j], addition.rows[j].id);
    }
    DistinctAppended(rows, stored);
  }

  lemma AddOneDistinct(codec: Codec, entries: seq<Entry>, taken: set<Text>, addition: Addition)
    requires Covers(taken, ValuesOf(entries)) && AddOne(codec, entries, taken, addition).Ok?
    ensures Distinct(ValuesOf(entries)) <==> Distinct(ValuesOf(AddOne(codec, entries, taken, addition).value.0))
    ensures SheetDistinct(ValuesOf(AddOne(codec, entries, taken, addition).value.0))
       <==> SheetDistinct(ValuesOf(entries)) && AdditionDistinct(addition)
  {
    AddOneValues(codec, entries, taken, addition);
    hide AddOne, RowsCovered, StoredRows, AdditionDistinct, Distinct, IdIs, HasRows, RowsOf, WithRows, Created;
    var values, after := ValuesOf(entries), ValuesOf(AddOne(codec, entries, taken, addition).value.0);
    if addition.isNew {
      NewSectionDistinct(values, addition);
    } else {
      var at := Find(values, addition.sectionId).value;
      GrownSectionDistinct(taken, values, addition, at);
    }
  }

  lemma DistinctSnoc(values: seq<Value>, value: Value, id: Text)
    requires IdIs(value, id) && forall i :: 0 <= i < |values| ==> !IdIs(values[i], id)
    ensures Distinct(values) <==> Distinct(values + [value])
  {
    OneId(value, id);
    hide IdIs;
    assert Distinct([value]);
    DistinctAppended(values, [value]);
  }

  lemma SheetSnoc(values: seq<Value>, value: Value)
    requires Distinct(values) <==> Distinct(values + [value])
    ensures SheetDistinct(values + [value]) <==> SheetDistinct(values) && RowsDistinct(value)
  {
    hide Distinct, RowsDistinct;
    var after := values + [value];
    assert after[|values|] == value;
    assert forall i :: 0 <= i < |values| ==> after[i] == values[i];
  }

  lemma NewSectionDistinct(values: seq<Value>, addition: Addition)
    requires Find(values, addition.sectionId).None?
    ensures Distinct(values) <==> Distinct(values + [Created(addition, |values|)])
    ensures SheetDistinct(values + [Created(addition, |values|)])
      <==> SheetDistinct(values) && AdditionDistinct(addition)
  {
    hide IdIs, Created, StoredRows, AdditionDistinct, Distinct, HasRows, RowsOf, SheetDistinct;
    var value := Created(addition, |values|);
    CreatedRows(addition, |values|);
    StoredRowsDistinct(addition, 0);
    DistinctSnoc(values, value, addition.sectionId);
    SheetSnoc(values, value);
  }

  lemma GrownSectionDistinct(taken: set<Text>, values: seq<Value>, addition: Addition, at: nat)
    requires Covers(taken, values) && Find(values, addition.sectionId) == Some(at) && HasRows(values[at])
    requires forall k :: 0 <= k < |addition.rows| ==> addition.rows[k].id !in taken
    ensures
      var grown := RowsOf(values[at]) + StoredRows(addition.rows, |RowsOf(values[at])|);
      var after := values[at := WithRows(values[at], grown)];
      && (Distinct(values) <==> Distinct(after))
      && (SheetDistinct(after) <==> SheetDistinct(values) && AdditionDistinct(addition))
  {
    var rows := RowsOf(values[at]) + StoredRows(addition.rows, |RowsOf(values[at])|);
    var grown := WithRows(values[at], rows);
    assert RowsCovered(taken, values[at]);
    RowsApart(taken, values[at], addition, |RowsOf(values[at])|);
    assert IdIs(grown, addition.sectionId) && HasRows(grown) && RowsOf(grown) == rows;
    DistinctPut(values, at, grown, addition.sectionId);
    assert RowsDistinct(grown) <==> RowsDistinct(values[at]) && AdditionDistinct(addition);
    hide IdIs, Distinct, StoredRows, AdditionDistinct, RowsCovered, RowsDistinct;
    var after := values[at := grown];
    assert after[at] == grown;
    assert forall i :: 0 <= i < |values| && i != at ==> after[i] == values[i];
  }

  /** A bulk add that is accepted keeps section ids distinct, and keeps every
      section's row ids distinct exactly when no addition repeats one of its own
      (parseBulkAdditions' promise): clashes with the sheet, and between
      additions, are refused here. */
  lemma {:induction false} BulkDistinct(codec: Codec, entries: seq<Entry>, taken: set<Text>, added: seq<Added>,
                                        additions: seq<Addition>)
    requires Covers(taken, ValuesOf(entries))
    requires AddFrom(codec, entries, taken, added, additions).Changed?
    ensures
      var after := ValuesOf(AddFrom(codec, entries, taken, added, additions).entries);
      && (Distinct(after) <==> Distinct(ValuesOf(entries)))
      && (SheetDistinct(after) <==>
            SheetDistinct(ValuesOf(entries)) && forall i :: 0 <= i < |additions| ==> AdditionDistinct(additions[i]))
    decreases |additions|
  {
    hide AddOne, Distinct, SheetDistinct, AdditionDistinct, Covers;
    if additions != [] {
      AddOneCovers(codec, entries, taken, additions[0]);
      AddOneDistinct(codec, entries, taken, additions[0]);
      var step := AddOne(codec, entries, taken, additions[0]).value;
      BulkDistinct(codec, step.0, taken + NewIdSet(additions[0].rows), added + [step.1], additions[1..]);
      assert forall i :: 1 <= i < |additions| ==> additions[i] == additions[1..][i - 1];
    }
  }

  /** Every accepted edit keeps section ids distinct. */
  lemma SectionIdsKept(codec: Codec, entries: seq<Entry>, op: Op)
    requires Distinct(ValuesOf(entries)) && EditEntries(codec, entries, op).Changed?
    ensures Distinct(ValuesOf(EditEntries(codec, entries, op).entries))
  {
    hide Distinct, AddFrom;
    if op.AddRows? {
      TakenCovers(entries);
      BulkDistinct(codec, entries, Taken(entries), [], op.additions);
    } else {
      var shape := OthersKept(codec, entries, op);
      hide EditEntries;
      ShapedDistinct(codec, entries, EditEntries(codec, entries, op).entries, op.sectionId, shape);
    }
  }

  lemma BulkKeepsRowsDistinct(codec: Codec, entries: seq<Entry>, additions: seq<Addition>)
    requires SheetDistinct(ValuesOf(entries)) && EditEntries(codec, entries, AddRows(additions)).Changed?
    ensures SheetDistinct(ValuesOf(EditEntries(codec, entries, AddRows(additions)).entries))
       <==> forall i :: 0 <= i < |additions| ==> AdditionDistinct(additions[i])
  {
    hide AddFrom, SheetDistinct, AdditionDistinct;
    TakenCovers(entries);
    BulkDistinct(codec, entries, Taken(entries), [], additions);
  }

  /** What a bulk add leaves of the entries already there: a section no addition
      names keeps its text; one that is named keeps every row it had, in front,
      and every field but its rows. */
  ghost predicate Grown(before: Entry, after: Entry) {
    || after == before
    || (&& HasRows(before.value) && HasRows(after.value)
        && RowsOf(before.value) <= RowsOf(after.value)
        && after.value == WithRows(before.value, RowsOf(after.value)))
  }

  ghost predicate Names(additions: seq<Addition>, value: Value) {
    exists i :: 0 <= i < |additions| && IdIs(value, additions[i].sectionId)
  }

  lemma {:induction false} BulkKeepsEntries(codec: Codec, entries: seq<Entry>, taken: set<Text>, added: seq<Added>,
                                            additions: seq<Addition>, at: nat)
    requires at < |entries| && AddFrom(codec, entries, taken, added, additions).Changed?
    ensures
      var after := AddFrom(codec, entries, taken, added, additions).entries;
      && at < |after| && Grown(entries[at], after[at])
      && (!Names(additions, entries[at].value) ==> after[at] == entries[at])
    decreases |additions|
  {
    if additions != [] {
      var step := AddOne(codec, entries, taken, additions[0]).value;
      AddOneKeeps(codec, entries, taken, additions[0], at);
      hide AddOne, IdIs, HasRows, RowsOf, WithRows;
      BulkKeepsEntries(codec, step.0, taken + NewIdSet(additions[0].rows), added + [step.1], additions[1..], at);
      var after := AddFrom(codec, entries, taken, added, additions).entries;
      GrownTwice(entries[at], step.0[at], after[at]);
      if !Names(additions, entries[at].value) {
        assert !IdIs(entries[at].value, additions[0].sectionId);
        forall i | 0 <= i < |additions[1..]| ensures !IdIs(entries[at].value, additions[1..][i].sectionId) {
          assert additions[1..][i] == additions[i + 1];
        }
      }
    }
  }

  lemma GrownTwice(a: Entry, b: Entry, c: Entry)
    requires Grown(a, b) && Grown(b, c)
    ensures Grown(a, c)
  {
  }

  lemma AddOneKeeps(codec: Codec, entries: seq<Entry>, taken: set<Text>, addition: Addition, at: nat)
    requires at < |entries| && AddOne(codec, entries, taken, addition).Ok?
    ensures
      var after := AddOne(codec, entries, taken, addition).value.0;
      && at < |after| && Grown(entries[at], after[at])
      && (!IdIs(entries[at].value, addition.sectionId) ==> after[at] == entries[at])
  {
    hide StoredRows, Created;
    var after := AddOne(codec, entries, taken, addition).value.0;
    var found := Find(ValuesOf(entries), addition.sectionId);
    if !addition.isNew && found.value == at {
      assert IdIs(ValuesOf(entries)[at], addition.sectionId);
    }
  }
}
