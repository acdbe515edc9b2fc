/** What Undo gives back after a delete: on the list of entries, and through the
    stored column. */
module InfoSheetUndo {
  import opened Wrappers
  import opened Json
  import opened InfoSheetEdit
  import opened InfoSheetProofs
  import JsonArray

  // ── Undo ─────────────────────────────────────────────────────────────────

  function FieldsOf(value: Value): map<string, Value> {
    if value.Record? then value.fields else map[]
  }

  /** Deleting a section and restoring it where it was, on the list of entries:
      Undo sends back the removed record under its id, new, at the recorded place.
      The two writes and reads in between are added below. */
  function UndoSection(codec: Codec, entries: seq<Entry>, id: Text): Outcome {
    match EditEntries(codec, entries, DeleteSection(id))
    case Refused(status) => Refused(status)
    case Changed(after, _, removed, _) =>
      if removed.Some? && removed.value.RemovedSection?
      then EditEntries(codec, after,
                       UpsertSection(id, true, Some(removed.value.position), true, FieldsOf(removed.value.section)))
      else Refused(NotFound)
  }

  lemma UndoneSection(codec: Codec, entries: seq<Entry>, id: Text, at: nat)
    requires Find(ValuesOf(entries), id) == Some(at)
    ensures
      var after := Without(entries, at);
      var stored := NewSection(id, FieldsOf(entries[at].value));
      UndoSection(codec, entries, id)
      == if Find(ValuesOf(after), id).Some? then Refused(Conflict)
         else Changed(InsertedAt(after, Written(codec, stored), at), [], None, Some(RemovedSection(at, stored)))
  {
    assert |Without(entries, at)| == |entries| - 1;
    hide Without<Entry>, InsertedAt<Entry>, NewSection, Find;
  }

  /** The list of values comes back exactly when the section held a list of rows
      and no other entry has its id. */
  lemma SectionUndone(codec: Codec, entries: seq<Entry>, id: Text)
    requires Find(ValuesOf(entries), id).Some?
    ensures
      var at := Find(ValuesOf(entries), id).value;
      var undone := UndoSection(codec, entries, id);
      (undone.Changed? && ValuesOf(undone.entries) == ValuesOf(entries))
      <==> HasRows(entries[at].value) && forall i :: 0 <= i < |entries| && i != at ==> !IdIs(entries[i].value, id)
  {
    var values := ValuesOf(entries);
    var at := Find(values, id).value;
    var section := entries[at].value;
    var after := Without(entries, at);
    UndoneSection(codec, entries, id, at);
    RestoredSection(section, id);
    OthersInRest(values, at, id);
    ValuesWithout(entries, at);
    BackAmong(codec, entries, at, NewSection(id, section.fields));
    hide UndoSection, Find, NewSection, IdIs, HasRows, ValuesOf, Without<Value>, Without<Entry>, InsertedAt<Entry>;
    assert forall i :: 0 <= i < |entries| ==> values[i] == entries[i].value by {
      hide *;
      EachValue(entries);
    }
  }

  lemma EachValue(entries: seq<Entry>)
    ensures forall i :: 0 <= i < |entries| ==> ValuesOf(entries)[i] == entries[i].value
  {
  }

  lemma ValuesWithout(entries: seq<Entry>, at: nat)
    requires at < |entries|
    ensures ValuesOf(Without(entries, at)) == Without(ValuesOf(entries), at)
  {
  }

  lemma BackAmong(codec: Codec, entries: seq<Entry>, at: nat, stored: Value)
    requires at < |entries|
    ensures ValuesOf(InsertedAt(Without(entries, at), Written(codec, stored), at)) == ValuesOf(entries)
       <==> stored == entries[at].value
  {
    var values := ValuesOf(entries);
    var back := InsertedAt(Without(entries, at), Written(codec, stored), at);
    ValuesWithout(entries, at);
    assert ValuesOf(back) == InsertedAt(Without(values, at), stored, at);
    hide Without<Entry>, InsertedAt<Entry>, Without<Value>, InsertedAt<Value>;
    BackInPlace(values, at, stored);
  }

  /** The same for a row, within the section it was in. */
  function UndoRow(codec: Codec, entries: seq<Entry>, sectionId: Text, rowId: Text): Outcome {
    match EditEntries(codec, entries, DeleteRow(sectionId, rowId))
    case Refused(status) => Refused(status)
    case Changed(after, _, removed, _) =>
      if removed.Some? && removed.value.RemovedRow?
      then EditEntries(codec, after,
                       UpsertRow(sectionId, true, Some(removed.value.position), true, rowId,
                                 FieldsOf(removed.value.row)))
      else Refused(NotFound)
  }

  lemma UndoneRow(codec: Codec, entries: seq<Entry>, sectionId: Text, rowId: Text, at: nat, rowAt: nat)
    requires Find(ValuesOf(entries), sectionId) == Some(at) && HasRows(entries[at].value)
    requires Find(RowsOf(entries[at].value), rowId) == Some(rowAt)
    ensures
      var section := entries[at].value;
      var rest := Without(RowsOf(section), rowAt);
      var row := RowRecord(rowId, FieldsOf(RowsOf(section)[rowAt]));
      UndoRow(codec, entries, sectionId, rowId)
      == if Find(rest, rowId).Some? then Refused(Conflict)
         else Changed(entries[at := Written(codec, WithRows(section, InsertedAt(rest, row, rowAt)))], [], None,
                      Some(RemovedRow(rowAt, row, sectionId)))
  {
    var section := entries[at].value;
    var rest := Without(RowsOf(section), rowAt);
    var row := RowRecord(rowId, FieldsOf(RowsOf(section)[rowAt]));
    var less := WithRows(section, rest);
    var after := entries[at := Written(codec, less)];
    RowOff(codec, entries, sectionId, rowId, at, rowAt);
    SameFind(ValuesOf(entries), sectionId, at, less);
    ValuesPut(codec, entries, at, less);
    assert RowsOf(less) == rest && HasRows(less);
    assert WithRows(less, InsertedAt(rest, row, rowAt)) == WithRows(section, InsertedAt(rest, row, rowAt));
    RowBack(codec, after, sectionId, rowId, at, less, rowAt, FieldsOf(RowsOf(section)[rowAt]));
    hide EditEntries, Without<Value>, InsertedAt<Value>, Find, RowRecord, WithRows, HasRows, RowsOf, ValuesOf;
  }

  lemma ValuesPut(codec: Codec, entries: seq<Entry>, at: nat, value: Value)
    requires at < |entries|
    ensures ValuesOf(entries[at := Written(codec, value)]) == ValuesOf(entries)[at := value]
  {
  }

  lemma RowOff(codec: Codec, entries: seq<Entry>, sectionId: Text, rowId: Text, at: nat, rowAt: nat)
    requires Find(ValuesOf(entries), sectionId) == Some(at) && HasRows(entries[at].value)
    requires Find(RowsOf(entries[at].value), rowId) == Some(rowAt)
    ensures
      var section := entries[at].value;
      var less := WithRows(section, Without(RowsOf(section), rowAt));
      EditEntries(codec, entries, DeleteRow(sectionId, rowId))
      == Changed(entries[at := Written(codec, less)], [], Some(RemovedRow(rowAt, RowsOf(section)[rowAt], sectionId)),
                 None)
  {
    hide Find, Without<Value>;
  }

  lemma RowBack(codec: Codec, after: seq<Entry>, sectionId: Text, rowId: Text, at: nat, less: Value, rowAt: nat,
                fields: map<string, Value>)
    requires Find(ValuesOf(after), sectionId) == Some(at) && after[at].value == less && HasRows(less)
    requires rowAt <= |RowsOf(less)|
    ensures
      var rest := RowsOf(less);
      EditEntries(codec, after, UpsertRow(sectionId, true, Some(rowAt), true, rowId, fields))
      == if Find(rest, rowId).Some? then Refused(Conflict)
         else
           var row := RowRecord(rowId, fields);
           Changed(after[at := Written(codec, WithRows(less, InsertedAt(rest, row, rowAt)))], [], None,
                   Some(RemovedRow(rowAt, row, sectionId)))
  {
    hide Find, InsertedAt<Value>, RowRecord;
  }

  lemma {:induction false} SameFind(values: seq<Value>, id: Text, at: nat, value: Value)
    requires Find(values, id) == Some(at) && IdIs(value, id)
    ensures Find(values[at := value], id) == Some(at)
  {
    hide IdIs;
    var found := Find(values[at := value], id);
    assert values[at := value][at] == value;
    assert forall i :: 0 <= i < |values| && i != at ==> values[at := value][i] == values[i];
  }

  /** And the list of values comes back exactly when no other row of the section
      has the row's id. */
  lemma RowUndone(codec: Codec, entries: seq<Entry>, sectionId: Text, rowId: Text, at: nat, rowAt: nat)
    requires Find(ValuesOf(entries), sectionId) == Some(at) && HasRows(entries[at].value)
    requires Find(RowsOf(entries[at].value), rowId) == Some(rowAt)
    ensures
      var rows := RowsOf(entries[at].value);
      var undone := UndoRow(codec, entries, sectionId, rowId);
      (undone.Changed? && ValuesOf(undone.entries) == ValuesOf(entries))
      <==> forall i :: 0 <= i < |rows| && i != rowAt ==> !IdIs(rows[i], rowId)
  {
    var section := entries[at].value;
    var rows := RowsOf(section);
    UndoneRow(codec, entries, sectionId, rowId, at, rowAt);
    OthersInRest(rows, rowAt, rowId);
    SameRecord(rows[rowAt], rowId);
    SameRows(section);
    hide UndoRow, Find, RowRecord, IdIs, HasRows, WithRows, RowsOf;
    BackInPlace(rows, rowAt, rows[rowAt]);
    var values := ValuesOf(entries);
    assert values[at := section] == values;
    if Find(Without(rows, rowAt), rowId).None? {
      assert UndoRow(codec, entries, sectionId, rowId).entries == entries[at := Written(codec, section)];
      assert ValuesOf(entries[at := Written(codec, section)]) == values[at := section];
    }
  }

  lemma SameRecord(row: Value, id: Text)
    requires IdIs(row, id)
    ensures RowRecord(id, FieldsOf(row)) == row
  {
    assert row.fields["id" := Words(id)] == row.fields;
  }

  lemma SameRows(section: Value)
    requires HasRows(section)
    ensures WithRows(section, RowsOf(section)) == section
  {
    assert section.fields["rows" := section.fields["rows"]] == section.fields;
  }

  lemma RestoredSection(section: Value, id: Text)
    requires IdIs(section, id)
    ensures NewSection(id, section.fields) == section <==> HasRows(section)
  {
    assert section.fields["id" := Words(id)] == section.fields;
    if HasRows(section) {
      assert section.fields["rows" := section.fields["rows"]] == section.fields;
    }
  }

  lemma OthersInRest(values: seq<Value>, at: nat, id: Text)
    requires at < |values|
    ensures Find(Without(values, at), id).None? <==> forall i :: 0 <= i < |values| && i != at ==> !IdIs(values[i], id)
  {
    hide IdIs;
    var rest := Without(values, at);
    forall i | 0 <= i < |values| && i != at ensures values[i] == rest[if i < at then i else i - 1] {
    }
    forall k | 0 <= k < |rest| ensures rest[k] == values[if k < at then k else k + 1] {
    }
  }

  lemma BackInPlace(values: seq<Value>, at: nat, value: Value)
    requires at < |values|
    ensures InsertedAt(Without(values, at), value, at) == values[at := value]
    ensures values[at := value] == values <==> value == values[at]
  {
    assert values[at := value][at] == value;
  }

  // ── Undo through the stored column ───────────────────────────────────────

  function RestoreSection(id: Text, at: nat, section: Value): Op {
    UpsertSection(id, true, Some(at), true, FieldsOf(section))
  }

  /** Deleting a section leaves a column that reads as exactly the others. */
  lemma DeletedRereads(codec: Codec, column: Column, id: Text, at: nat)
    requires Lawful(codec) && EntriesOf(codec, column).Some?
    requires Find(ValuesOf(EntriesOf(codec, column).value), id) == Some(at)
    ensures
      var deleted := EditInfoSheet(codec, column, DeleteSection(id));
      && deleted.Edited?
      && EntriesOf(codec, Stored(deleted.json)) == Some(Without(EntriesOf(codec, column).value, at))
  {
    hide Lawful, EntriesOf, Find, RawTexts, JsonArray.ArrayText, Settled, Finite;
    var entries := EntriesOf(codec, column).value;
    assert EditInfoSheet(codec, column, DeleteSection(id)).Edited?;
    EditRereads(codec, column, DeleteSection(id));
    forall entry | entry in Without(entries, at) ensures entry in entries {
    }
  }

  lemma InsertedEntry<T>(items: seq<T>, item: T, at: nat)
    requires at <= |items|
    ensures InsertedAt(items, item, at)[at] == item
    ensures forall entry :: entry in InsertedAt(items, item, at) <==> entry == item || entry in items
  {
    var all := InsertedAt(items, item, at);
    assert items == items[..at] + items[at..];
  }

  lemma SettledRows(value: Value)
    requires HasRows(value)
    ensures HasRows(Settled(value))
  {
    assert Settled(value).fields["rows"] == Settled(value.fields["rows"]);
  }

  /** The list of values read back after a delete, a write, a read, the restore
      and a second write is the one there was, exactly when the section held a
      list of rows, shared its id with no other entry and held no infinity. */
  lemma SectionUndoneStored(codec: Codec, column: Column, id: Text, at: nat)
    requires Lawful(codec) && EntriesOf(codec, column).Some?
    requires Find(ValuesOf(EntriesOf(codec, column).value), id) == Some(at)
    ensures
      var entries := EntriesOf(codec, column).value;
      var section := entries[at].value;
      var deleted := EditInfoSheet(codec, column, DeleteSection(id));
      && deleted.Edited?
      && var undone := EditInfoSheet(codec, Stored(deleted.json), RestoreSection(id, at, section));
         (undone.Edited? && EntriesOf(codec, Stored(undone.json)).Some?
           && ValuesOf(EntriesOf(codec, Stored(undone.json)).value) == ValuesOf(entries))
         <==> HasRows(section) && Finite(section)
              && forall i :: 0 <= i < |entries| && i != at ==> !IdIs(entries[i].value, id)
  {
    hide *;
    var entries := EntriesOf(codec, column).value;
    SectionFound(entries, id, at);
    var section := entries[at].value;
    DeletedRereads(codec, column, id, at);
    var stored := Stored(EditInfoSheet(codec, column, DeleteSection(id)).json);
    SectionSent(codec, column, id, at);
    SectionUndone(codec, entries, id);
    UndoneSection(codec, entries, id, at);
    UndoIsRestore(codec, entries, id, at);
    var op := RestoreSection(id, at, section);
    EditIs(codec, stored, op);
    var undone := EditInfoSheet(codec, stored, op);
    if undone.Edited? {
      EditRereads(codec, stored, op);
      RestoredReread(codec, entries, id, at, undone.outcome.entries, EntriesOf(codec, Stored(undone.json)).value);
    }
  }

  lemma SectionFound(entries: seq<Entry>, id: Text, at: nat)
    requires Find(ValuesOf(entries), id) == Some(at)
    ensures at < |entries| && ValuesOf(entries)[at] == entries[at].value && IdIs(entries[at].value, id)
    ensures Find(ValuesOf(Without(entries, at)), id).None?
       <==> forall i :: 0 <= i < |entries| && i != at ==> !IdIs(entries[i].value, id)
  {
    OthersInRest(ValuesOf(entries), at, id);
    ValuesWithout(entries, at);
    EachValue(entries);
    hide Find, IdIs, Without<Value>, Without<Entry>;
  }

  lemma SectionSent(codec: Codec, column: Column, id: Text, at: nat)
    requires Lawful(codec) && EntriesOf(codec, column).Some?
    requires at < |EntriesOf(codec, column).value| && IdIs(EntriesOf(codec, column).value[at].value, id)
    ensures Sent(codec, RestoreSection(id, at, EntriesOf(codec, column).value[at].value))
  {
    hide Lawful, EntriesOf, Read;
    var entries := EntriesOf(codec, column).value;
    EntriesFaithful(codec, column);
    FaithfulRead(codec, entries);
    assert Read(codec, ValuesOf(entries)[at]);
  }

  lemma UndoIsRestore(codec: Codec, entries: seq<Entry>, id: Text, at: nat)
    requires Find(ValuesOf(entries), id) == Some(at)
    ensures UndoSection(codec, entries, id)
         == EditEntries(codec, Without(entries, at), RestoreSection(id, at, entries[at].value))
  {
    hide Find, EditSection;
  }

  lemma EditIs(codec: Codec, column: Column, op: Op)
    requires EntriesOf(codec, column).Some?
    ensures
      var outcome := EditEntries(codec, EntriesOf(codec, column).value, op);
      if outcome.Refused? then EditInfoSheet(codec, column, op).NotEdited?
      else EditInfoSheet(codec, column, op) == Edited(JsonArray.ArrayText(RawTexts(outcome.entries)), outcome)
  {
    hide EntriesOf, EditEntries;
  }

  lemma RestoredReread(codec: Codec, entries: seq<Entry>, id: Text, at: nat, restored: seq<Entry>, reread: seq<Entry>)
    requires Find(ValuesOf(entries), id) == Some(at) && at < |entries|
    requires Find(ValuesOf(Without(entries, at)), id).None?
    requires
      var stored := NewSection(id, FieldsOf(entries[at].value));
      restored == InsertedAt(Without(entries, at), Written(codec, stored), at)
    requires RawTexts(reread) == RawTexts(restored)
    requires reread == restored <==> forall entry <- restored :: entry in Without(entries, at) || Finite(entry.value)
    requires forall i :: 0 <= i < |reread| ==> reread[i].value in [restored[i].value, Settled(restored[i].value)]
    ensures ValuesOf(reread) == ValuesOf(entries) <==> HasRows(entries[at].value) && Finite(entries[at].value)
  {
    var section, after := entries[at].value, Without(entries, at);
    var stored := NewSection(id, FieldsOf(section));
    var entry := Written(codec, stored);
    SectionFound(entries, id, at);
    assert section.Record? && entry.value == stored && IdIs(stored, id) && HasRows(stored) && at <= |after|;
    hide *;
    RestoredSection(section, id);
    BackAmong(codec, entries, at, stored);
    InsertedEntry(after, entry, at);
    SettledRows(stored);
    NotAmong(after, id, entry);
    EachValue(entries);
    EachValue(reread);
    if ValuesOf(reread) == ValuesOf(entries) {
      assert reread[at].value == section;
      SameTexts(reread, restored);
    } else {
      assert reread != restored || ValuesOf(restored) != ValuesOf(entries);
      BeforeRead(after, restored, entry);
    }
  }

  lemma BeforeRead(after: seq<Entry>, restored: seq<Entry>, entry: Entry)
    requires forall e :: e in restored <==> e == entry || e in after
    ensures (forall e <- restored :: e in after || Finite(e.value)) <==> entry in after || Finite(entry.value)
  {
    hide Finite;
    assert entry in restored;
  }

  lemma NotAmong(entries: seq<Entry>, id: Text, entry: Entry)
    requires Find(ValuesOf(entries), id).None? && IdIs(entry.value, id)
    ensures entry !in entries
  {
    hide IdIs, Find;
    assert forall k :: 0 <= k < |entries| ==> ValuesOf(entries)[k] == entries[k].value;
  }

  lemma SameTexts(a: seq<Entry>, b: seq<Entry>)
    requires RawTexts(a) == RawTexts(b) && ValuesOf(a) == ValuesOf(b)
    ensures a == b
  {
    assert |a| == |RawTexts(a)| == |b|;
    forall i | 0 <= i < |a| ensures a[i] == b[i] {
      assert RawTexts(a)[i] == RawTexts(b)[i] && ValuesOf(a)[i] == ValuesOf(b)[i];
    }
  }

  function SettledAll(values: seq<Value>): (settled: seq<Value>)
    ensures |settled| == |values|
  {
    seq(|values|, i requires 0 <= i < |values| => Settled(values[i]))
  }

  lemma {:induction false} SettledTwice(value: Value)
    ensures Settled(Settled(value)) == Settled(value)
    decreases value
  {
    match value
    case Record(fields) =>
      forall key | key in fields ensures Settled(Settled(fields[key])) == Settled(fields[key]) {
        SettledTwice(fields[key]);
      }
    case List(items) =>
      forall i | 0 <= i < |items| ensures Settled(Settled(items[i])) == Settled(items[i]) {
        SettledTwice(items[i]);
      }
    case _ =>
  }

  lemma SettledAllTwice(values: seq<Value>)
    ensures SettledAll(SettledAll(values)) == SettledAll(values)
  {
    hide Settled;
    forall i | 0 <= i < |values| ensures Settled(Settled(values[i])) == Settled(values[i]) {
      SettledTwice(values[i]);
    }
  }

  /** Settling reaches a section's rows one by one. */
  lemma SettledWithRows(section: Value, rows: seq<Value>)
    requires section.Record?
    ensures Settled(section).Record?
    ensures Settled(WithRows(section, rows)) == WithRows(Settled(section), SettledAll(rows))
  {
    var after := section.fields["rows" := List(rows)];
    assert Settled(List(rows)) == List(SettledAll(rows));
    assert Settled(Record(after)).fields == Settled(section).fields["rows" := List(SettledAll(rows))];
  }

  lemma SettledInserted(values: seq<Value>, value: Value, at: nat)
    requires at <= |values|
    ensures SettledAll(InsertedAt(values, value, at)) == InsertedAt(SettledAll(values), Settled(value), at)
  {
    hide Settled;
  }

  lemma RowsAgain(section: Value, a: seq<Value>, b: seq<Value>)
    requires section.Record?
    ensures WithRows(WithRows(section, a), b) == WithRows(section, b)
    ensures HasRows(WithRows(section, a)) && RowsOf(WithRows(section, a)) == a
  {
    assert section.fields["rows" := List(a)]["rows" := List(b)] == section.fields["rows" := List(b)];
  }

  /** A section less one row, written and read, then given the row back, written
      and read, is the section written and read. */
  lemma SettledRoundTrip(section: Value, rowAt: nat)
    requires HasRows(section) && rowAt < |RowsOf(section)|
    ensures
      var rows := RowsOf(section);
      var less := Settled(WithRows(section, Without(rows, rowAt)));
      && HasRows(less) && RowsOf(less) == SettledAll(Without(rows, rowAt))
      && Settled(WithRows(less, InsertedAt(RowsOf(less), rows[rowAt], rowAt))) == Settled(section)
  {
    var rows := RowsOf(section);
    var rest, row := Without(rows, rowAt), rows[rowAt];
    assert |rest| == |rows| - 1;
    BackInPlace(rows, rowAt, row);
    SameRows(section);
    SettledWithRows(section, rows);
    SettledWithRows(section, rest);
    var once := Settled(section);
    SettledTwice(section);
    hide Settled, SettledAll, Without<Value>, InsertedAt<Value>, WithRows, HasRows, RowsOf;
    var settled := SettledAll(rest);
    var back := InsertedAt(settled, row, rowAt);
    RowsAgain(once, settled, back);
    SettledWithRows(once, back);
    SettledInserted(settled, row, rowAt);
    SettledInserted(rest, row, rowAt);
    SettledAllTwice(rest);
    assert SettledAll(back) == SettledAll(InsertedAt(rest, row, rowAt)) == SettledAll(rows);
  }

  lemma FindSettled(rows: seq<Value>, id: Text)
    ensures Find(SettledAll(rows), id).None? <==> Find(rows, id).None?
  {
    hide IdIs, Settled;
    forall i | 0 <= i < |rows| ensures IdIs(SettledAll(rows)[i], id) <==> IdIs(rows[i], id) {
      SettledKeepsId(rows[i], id);
    }
  }

  /** One entry rewritten: the column reads back with the others as they were and
      that one settled. */
  lemma PutRereads(codec: Codec, entries: seq<Entry>, at: nat, value: Value)
    requires Lawful(codec) && Faithful(codec, entries) && at < |entries| && Read(codec, value)
    ensures
      var after := entries[at := Written(codec, value)];
      EntriesOf(codec, Stored(JsonArray.ArrayText(RawTexts(after))))
      == Some(entries[at := JsonArray.Element(codec.stringify(value), Settled(value))])
  {
    hide *;
    var after := entries[at := Written(codec, value)];
    WrittenReads(codec, value);
    PutReadable(codec, entries, at, value);
    WrittenRereads(codec, after);
  }

  lemma PutReadable(codec: Codec, entries: seq<Entry>, at: nat, value: Value)
    requires Faithful(codec, entries) && at < |entries|
    requires JsonArray.ValueText(codec.stringify(value)) && codec.parse(codec.stringify(value)) == Some(Settled(value))
    ensures
      var after := entries[at := Written(codec, value)];
      && Readable(codec, after)
      && Reread(codec, after) == entries[at := JsonArray.Element(codec.stringify(value), Settled(value))]
  {
    hide JsonArray.ValueText, RawTexts, Settled;
  }

  lemma WrittenReads(codec: Codec, value: Value)
    requires Lawful(codec) && Read(codec, value)
    ensures JsonArray.ValueText(codec.stringify(value)) && codec.parse(codec.stringify(value)) == Some(Settled(value))
  {
    hide JsonArray.ValueText, Arrayed, ReadsAs, ReadByParts, Settled, Read;
  }

  function RestoreRow(sectionId: Text, rowId: Text, rowAt: nat, row: Value): Op {
    UpsertRow(sectionId, true, Some(rowAt), true, rowId, FieldsOf(row))
  }

  /** A row delete leaves a column that reads as the others were, with the section
      written and read without the row. */
  lemma DeletedRowRereads(codec: Codec, column: Column, sectionId: Text, rowId: Text, at: nat, rowAt: nat)
    requires Lawful(codec) && EntriesOf(codec, column).Some?
    requires Find(ValuesOf(EntriesOf(codec, column).value), sectionId) == Some(at)
    requires at < |EntriesOf(codec, column).value| && HasRows(EntriesOf(codec, column).value[at].value)
    requires Find(RowsOf(EntriesOf(codec, column).value[at].value), rowId) == Some(rowAt)
    ensures
      var entries := EntriesOf(codec, column).value;
      var less := WithRows(entries[at].value, Without(RowsOf(entries[at].value), rowAt));
      var deleted := EditInfoSheet(codec, column, DeleteRow(sectionId, rowId));
      && deleted.Edited? && Read(codec, less)
      && EntriesOf(codec, Stored(deleted.json))
         == Some(entries[at := JsonArray.Element(codec.stringify(less), Settled(less))])
  {
    hide *;
    var entries := EntriesOf(codec, column).value;
    var section := entries[at].value;
    var rows := RowsOf(section);
    RecordOfRows(section);
    var less := WithRows(section, Without(rows, rowAt));
    EntriesFaithful(codec, column);
    FaithfulRead(codec, entries);
    LawfulParts(codec);
    SectionRead(codec, entries, at);
    RowsRead(codec, section);
    FewerRead(codec, rows, rowAt);
    WithRowsRead(codec, section, Without(rows, rowAt));
    RowOff(codec, entries, sectionId, rowId, at, rowAt);
    EditIs(codec, column, DeleteRow(sectionId, rowId));
    PutRereads(codec, entries, at, less);
  }

  lemma SectionRead(codec: Codec, entries: seq<Entry>, at: nat)
    requires AllRead(codec, ValuesOf(entries)) && at < |entries|
    ensures Read(codec, entries[at].value)
  {
    hide Read;
    assert ValuesOf(entries)[at] == entries[at].value;
  }

  lemma FewerRead(codec: Codec, values: seq<Value>, at: nat)
    requires AllRead(codec, values) && at < |values|
    ensures AllRead(codec, Without(values, at)) && Read(codec, values[at])
    ensures |Without(values, at)| == |values| - 1
  {
    hide Read;
  }

  lemma RecordOfRows(section: Value)
    requires HasRows(section)
    ensures section.Record?
  {
  }

  lemma MoreRead(codec: Codec, values: seq<Value>, value: Value, at: nat)
    requires AllRead(codec, values) && Read(codec, value) && at <= |values|
    ensures AllRead(codec, InsertedAt(values, value, at))
  {
    hide Read;
  }

  /** Restoring a row to a column that holds its section without it. */
  lemma RestoredRowRereads(codec: Codec, column: Column, sectionId: Text, rowId: Text, at: nat, rowAt: nat, row: Value)
    requires Lawful(codec) && EntriesOf(codec, column).Some? && Read(codec, row) && IdIs(row, rowId)
    requires Find(ValuesOf(EntriesOf(codec, column).value), sectionId) == Some(at)
    requires at < |EntriesOf(codec, column).value| && HasRows(EntriesOf(codec, column).value[at].value)
    requires rowAt <= |RowsOf(EntriesOf(codec, column).value[at].value)|
    ensures
      var entries := EntriesOf(codec, column).value;
      var less := entries[at].value;
      var back := WithRows(less, InsertedAt(RowsOf(less), row, rowAt));
      var restored := EditInfoSheet(codec, column, RestoreRow(sectionId, rowId, rowAt, row));
      if Find(RowsOf(less), rowId).Some? then restored.NotEdited?
      else
        && restored.Edited?
        && EntriesOf(codec, Stored(restored.json))
           == Some(entries[at := JsonArray.Element(codec.stringify(back), Settled(back))])
  {
    hide *;
    var entries := EntriesOf(codec, column).value;
    var less := entries[at].value;
    RecordOfRows(less);
    var back := WithRows(less, InsertedAt(RowsOf(less), row, rowAt));
    EntriesFaithful(codec, column);
    FaithfulRead(codec, entries);
    LawfulParts(codec);
    SectionRead(codec, entries, at);
    RowsRead(codec, less);
    MoreRead(codec, RowsOf(less), row, rowAt);
    WithRowsRead(codec, less, InsertedAt(RowsOf(less), row, rowAt));
    SameRecord(row, rowId);
    RowBack(codec, entries, sectionId, rowId, at, less, rowAt, FieldsOf(row));
    EditIs(codec, column, RestoreRow(sectionId, rowId, rowAt, row));
    RestoreRowIs(sectionId, rowId, rowAt, row);
    PutRereads(codec, entries, at, back);
  }

  lemma RestoreRowIs(sectionId: Text, rowId: Text, rowAt: nat, row: Value)
    ensures RestoreRow(sectionId, rowId, rowAt, row)
         == UpsertRow(sectionId, true, Some(rowAt), true, rowId, FieldsOf(row))
  {
  }

  lemma RowFound(section: Value, rowId: Text, rowAt: nat)
    requires HasRows(section) && Find(RowsOf(section), rowId) == Some(rowAt)
    ensures rowAt < |RowsOf(section)| && IdIs(RowsOf(section)[rowAt], rowId)
    ensures Find(Without(RowsOf(section), rowAt), rowId).None?
       <==> forall i :: 0 <= i < |RowsOf(section)| && i != rowAt ==> !IdIs(RowsOf(section)[i], rowId)
  {
    OthersInRest(RowsOf(section), rowAt, rowId);
    hide Find, IdIs, HasRows, RowsOf, Without<Value>;
  }

  /** What a rewritten section becomes among the values. */
  lemma PutValues(entries: seq<Entry>, at: nat, entry: Entry, again: Entry)
    requires at < |entries|
    ensures ValuesOf(entries[at := entry]) == ValuesOf(entries)[at := entry.value]
    ensures entries[at := entry][at := again] == entries[at := again]
    ensures ValuesOf(entries[at := entry]) == ValuesOf(entries) <==> entry.value == entries[at].value
  {
    assert ValuesOf(entries[at := entry])[at] == entry.value && ValuesOf(entries)[at] == entries[at].value;
  }

  lemma SettledSectionId(section: Value, rest: seq<Value>, id: Text)
    requires HasRows(section) && IdIs(section, id)
    ensures IdIs(Settled(WithRows(section, rest)), id)
  {
    SettledKeepsId(WithRows(section, rest), id);
    hide Settled;
  }

  /** The same for a row: the values read back after a delete, a write, a read, the
      restore and a second write are those there were, exactly when the section
      held no infinity and no other row of it shared the row's id. */
  lemma RowUndoneStored(codec: Codec, column: Column, sectionId: Text, rowId: Text, at: nat, rowAt: nat)
    requires Lawful(codec) && EntriesOf(codec, column).Some?
    requires Find(ValuesOf(EntriesOf(codec, column).value), sectionId) == Some(at)
    requires at < |EntriesOf(codec, column).value| && HasRows(EntriesOf(codec, column).value[at].value)
    requires Find(RowsOf(EntriesOf(codec, column).value[at].value), rowId) == Some(rowAt)
    ensures
      var entries := EntriesOf(codec, column).value;
      var rows := RowsOf(entries[at].value);
      var deleted := EditInfoSheet(codec, column, DeleteRow(sectionId, rowId));
      && deleted.Edited?
      && var undone := EditInfoSheet(codec, Stored(deleted.json), RestoreRow(sectionId, rowId, rowAt, rows[rowAt]));
         (undone.Edited? && EntriesOf(codec, Stored(undone.json)).Some?
           && ValuesOf(EntriesOf(codec, Stored(undone.json)).value) == ValuesOf(entries))
         <==> Finite(entries[at].value) && forall i :: 0 <= i < |rows| && i != rowAt ==> !IdIs(rows[i], rowId)
  {
    hide *;
    var entries := EntriesOf(codec, column).value;
    var section := entries[at].value;
    var rows := RowsOf(section);
    RecordOfRows(section);
    var rest := Without(rows, rowAt);
    var less := WithRows(section, rest);
    SectionFound(entries, sectionId, at);
    RowFound(section, rowId, rowAt);
    DeletedRowRereads(codec, column, sectionId, rowId, at, rowAt);
    var stored := Stored(EditInfoSheet(codec, column, DeleteRow(sectionId, rowId)).json);
    var first := JsonArray.Element(codec.stringify(less), Settled(less));
    var between := entries[at := first];
    SettledRoundTrip(section, rowAt);
    SettledSectionId(section, rest, sectionId);
    RecordOfRows(Settled(less));
    PutValues(entries, at, first, first);
    SameFind(ValuesOf(entries), sectionId, at, Settled(less));
    EntriesFaithful(codec, column);
    FaithfulRead(codec, entries);
    LawfulParts(codec);
    SectionRead(codec, entries, at);
    RowsRead(codec, section);
    FewerRead(codec, rows, rowAt);
    FindSettled(rest, rowId);
    RestoredRowRereads(codec, stored, sectionId, rowId, at, rowAt, rows[rowAt]);
    var back := WithRows(Settled(less), InsertedAt(RowsOf(Settled(less)), rows[rowAt], rowAt));
    var second := JsonArray.Element(codec.stringify(back), Settled(back));
    PutValues(entries, at, first, second);
    PutValues(entries, at, second, second);
    SettledFinite(section);
  }
}
