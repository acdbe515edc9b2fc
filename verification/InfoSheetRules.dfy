/** What each edit does to the sheet's list of values, and when it is refused,
    written out over the sections and rows alone. */
module InfoSheetRules {
  import opened Wrappers
  import opened Json
  import opened InfoSheetEdit
  import InfoSheetProofs
  import JsonArray

  // ── The column ───────────────────────────────────────────────────────────

  /** Text that is not blank, and no list to JSON.parse; or no text at all. */
  predicate CannotBeRead(codec: Codec, column: Column) {
    match column
    case Absent => false
    case NotText => true
    case Stored(text) => !JsonArray.Blank(text) && (codec.parse(text).None? || !codec.parse(text).value.List?)
  }

  /** The sheet: an absent or blank column is an empty one. */
  function SheetOf(codec: Codec, column: Column): seq<Value>
    requires !CannotBeRead(codec, column)
  {
    if column.Absent? || JsonArray.Blank(column.text) then [] else codec.parse(column.text).value.items
  }

  /** A column that can't be read is refused whatever the edit. Any other is edited
      as the list of its values, each held with the text it was stored as. */
  lemma ColumnRule(codec: Codec, column: Column, op: Op) returns (entries: seq<Entry>)
    requires Lawful(codec)
    ensures
      var edit := EditInfoSheet(codec, column, op);
      if CannotBeRead(codec, column) then edit == NotEdited(Unsafe)
      else
        && ValuesOf(entries) == SheetOf(codec, column) && Faithful(codec, entries)
        && match EditEntries(codec, entries, op)
           case Refused(status) => edit == NotEdited(status)
           case Changed(_, _, _, _) => edit.Edited? && edit.outcome == EditEntries(codec, entries, op)
  {
    entries := [];
    if column.Stored? {
      JsonArray.TrimBlank(column.text);
      if !JsonArray.Blank(column.text) {
        ColumnRead(codec, column.text);
      }
    }
    hide Lawful, JsonArray.Trim, JsonArray.Blank, EditEntries, JsonArray.ElementsOf;
    if !CannotBeRead(codec, column) {
      entries := EntriesOf(codec, column).value;
    }
  }

  // ── Words of the rules ───────────────────────────────────────────────────

  predicate HasIdOf(value: Value, id: Text) {
    value.Record? && "id" in value.fields && value.fields["id"] == Words(id)
  }

  /** `at` is the first value with the id. */
  ghost predicate FirstWithId(values: seq<Value>, id: Text, at: nat) {
    at < |values| && HasIdOf(values[at], id) && forall i :: 0 <= i < at ==> !HasIdOf(values[i], id)
  }

  ghost predicate NoneWithId(values: seq<Value>, id: Text) {
    forall i :: 0 <= i < |values| ==> !HasIdOf(values[i], id)
  }

  predicate HoldsRows(section: Value) {
    section.Record? && "rows" in section.fields && section.fields["rows"].List?
  }

  function Rows(section: Value): seq<Value>
    requires HoldsRows(section)
  {
    section.fields["rows"].items
  }

  /** A field as it is in both, or missing from both. */
  ghost predicate SameField(before: map<string, Value>, after: map<string, Value>, key: string) {
    (key in after <==> key in before) && (key in before ==> after[key] == before[key])
  }

  /** Field for field the same, but for `key`. */
  ghost predicate SameBut(before: Value, after: Value, key: string) {
    && before.Record? && after.Record?
    && forall k: string | k != key :: SameField(before.fields, after.fields, k)
  }

  /** As sent, under its id. */
  ghost predicate IsSent(value: Value, id: Text, fields: map<string, Value>) {
    HasIdOf(value, id) && SameBut(Record(fields), value, "id")
  }

  /** Only the value at `at` differs. */
  ghost predicate OnlyAt(before: seq<Value>, after: seq<Value>, at: nat) {
    |after| == |before| && forall i :: 0 <= i < |before| && i != at ==> after[i] == before[i]
  }

  /** `after` is `before` with one more value, at `at`. */
  ghost predicate OneMore(before: seq<Value>, after: seq<Value>, at: nat) {
    at <= |before| && |after| == |before| + 1 && after[..at] == before[..at] && after[at + 1..] == before[at..]
  }

  /** A new entry goes where it asks, or to the end. */
  predicate GoesTo(at: nat, length: nat, position: Option<nat>) {
    at == if position.Some? && position.value <= length then position.value else length
  }

  /** The section with the id, with other rows and every other field as it was. */
  ghost predicate RowsChanged(before: seq<Value>, after: seq<Value>, id: Text, at: nat) {
    && FirstWithId(before, id, at) && OnlyAt(before, after, at)
    && HoldsRows(before[at]) && HoldsRows(after[at]) && SameBut(before[at], after[at], "rows")
  }

  lemma FindIsFirst(values: seq<Value>, id: Text)
    ensures if Find(values, id).Some? then FirstWithId(values, id, Find(values, id).value) else NoneWithId(values, id)
    ensures NoneWithId(values, id) ==> Find(values, id).None?
  {
    hide Find;
    if Find(values, id).Some? {
      assert HasIdOf(values[Find(values, id).value], id);
    }
  }

  lemma PutAt(codec: Codec, entries: seq<Entry>, at: nat, value: Value)
    requires at < |entries|
    ensures
      var after := ValuesOf(entries[at := Written(codec, value)]);
      OnlyAt(ValuesOf(entries), after, at) && after[at] == value
  {
  }

  lemma PutIn(codec: Codec, entries: seq<Entry>, at: nat, value: Value)
    requires at <= |entries|
    ensures
      var after := ValuesOf(InsertedAt(entries, Written(codec, value), at));
      OneMore(ValuesOf(entries), after, at) && after[at] == value
  {
    var after := ValuesOf(InsertedAt(entries, Written(codec, value), at));
    assert after == InsertedAt(ValuesOf(entries), value, at);
  }

  lemma WithRowsIs(section: Value, rows: seq<Value>)
    requires section.Record?
    ensures
      var after := WithRows(section, rows);
      HoldsRows(after) && Rows(after) == rows && SameBut(section, after, "rows")
  {
  }

  lemma SentIs(id: Text, fields: map<string, Value>)
    ensures IsSent(RowRecord(id, fields), id, fields)
  {
  }

  // ── Rows ─────────────────────────────────────────────────────────────────

  /** A row sent goes in place of the row with its id or, new, where it asks; every
      other row, field and section stays as it was. */
  lemma UpsertRowRule(codec: Codec, entries: seq<Entry>, op: Op) returns (at: nat, place: nat)
    requires op.UpsertRow?
    ensures
      var values, outcome := ValuesOf(entries), EditEntries(codec, entries, op);
      if NoneWithId(values, op.sectionId) then outcome == Refused(NotFound)
      else
        && FirstWithId(values, op.sectionId, at)
        && if !HoldsRows(values[at]) then outcome == Refused(Unsafe)
           else
             var rows := Rows(values[at]);
             if NoneWithId(rows, op.rowId) && !op.isNew then outcome == Refused(NotFound)
             else if !NoneWithId(rows, op.rowId) && op.isNew then outcome == Refused(Conflict)
             else
               && outcome.Changed? && outcome.removed.None? && outcome.added == []
               && RowsChanged(values, ValuesOf(outcome.entries), op.sectionId, at)
               && var now := Rows(ValuesOf(outcome.entries)[at]);
                  && place < |now| && IsSent(now[place], op.rowId, op.fields)
                  && (if op.isNew then GoesTo(place, |rows|, op.position) && OneMore(rows, now, place)
                      else FirstWithId(rows, op.rowId, place) && OnlyAt(rows, now, place))
                  && outcome.restored
                     == if op.isNew && op.restore then Some(RemovedRow(place, now[place], op.sectionId)) else None
  {
    at, place := 0, 0;
    var values := ValuesOf(entries);
    FindIsFirst(values, op.sectionId);
    hide Find, RowRecord, WithRows, FirstWithId, NoneWithId, IsSent, SameBut, InsertedAt<Value>;
    if Find(values, op.sectionId).Some? {
      at := Find(values, op.sectionId).value;
      var section := values[at];
      if HasRows(section) {
        place := RowGoes(RowsOf(section), op);
        var now := RowsAfter(RowsOf(section), op);
        WithRowsIs(section, now);
        PutAt(codec, entries, at, WithRows(section, now));
      }
    }
  }

  function RowsAfter(rows: seq<Value>, op: Op): seq<Value>
    requires op.UpsertRow?
  {
    var row, found := RowRecord(op.rowId, op.fields), Find(rows, op.rowId);
    if found.Some? then rows[found.value := row] else InsertedAt(rows, row, PlaceIn(|rows|, op.position))
  }

  lemma RowGoes(rows: seq<Value>, op: Op) returns (place: nat)
    requires op.UpsertRow?
    ensures Find(rows, op.rowId).None? <==> NoneWithId(rows, op.rowId)
    ensures
      var row, now := RowRecord(op.rowId, op.fields), RowsAfter(rows, op);
      && place < |now| && now[place] == row && IsSent(row, op.rowId, op.fields)
      && if Find(rows, op.rowId).Some? then FirstWithId(rows, op.rowId, place) && OnlyAt(rows, now, place)
         else place == PlaceIn(|rows|, op.position) && GoesTo(place, |rows|, op.position) && OneMore(rows, now, place)
  {
    var row, now := RowRecord(op.rowId, op.fields), RowsAfter(rows, op);
    FindIsFirst(rows, op.rowId);
    SentIs(op.rowId, op.fields);
    var found := Find(rows, op.rowId);
    place := if found.Some? then found.value else PlaceIn(|rows|, op.position);
    assert found.None? ==> now[..place] == rows[..place] && now[place + 1..] == rows[place..];
    hide Find, RowRecord, FirstWithId, NoneWithId, IsSent;
  }

  /** A row deleted leaves its section with the rest, in order, and is reported with
      the place it held. */
  lemma DeleteRowRule(codec: Codec, entries: seq<Entry>, op: Op) returns (at: nat, place: nat)
    requires op.DeleteRow?
    ensures
      var values, outcome := ValuesOf(entries), EditEntries(codec, entries, op);
      if NoneWithId(values, op.sectionId) then outcome == Refused(NotFound)
      else
        && FirstWithId(values, op.sectionId, at)
        && if !HoldsRows(values[at]) then outcome == Refused(Unsafe)
           else
             var rows := Rows(values[at]);
             if NoneWithId(rows, op.rowId) then outcome == Refused(NotFound)
             else
               && outcome.Changed? && outcome.restored.None? && outcome.added == []
               && RowsChanged(values, ValuesOf(outcome.entries), op.sectionId, at)
               && FirstWithId(rows, op.rowId, place)
               && OneMore(Rows(ValuesOf(outcome.entries)[at]), rows, place)
               && outcome.removed == Some(RemovedRow(place, rows[place], op.sectionId))
  {
    at, place := 0, 0;
    var values := ValuesOf(entries);
    FindIsFirst(values, op.sectionId);
    if Find(values, op.sectionId).Some? {
      at := Find(values, op.sectionId).value;
      var section := values[at];
      if HasRows(section) {
        var rows := RowsOf(section);
        FindIsFirst(rows, op.rowId);
        if Find(rows, op.rowId).Some? {
          place := Find(rows, op.rowId).value;
          var rest := Without(rows, place);
          WithRowsIs(section, rest);
          PutAt(codec, entries, at, WithRows(section, rest));
          assert rest[..place] == rows[..place] && rest[place..] == rows[place + 1..];
        }
      }
    }
    hide Find, WithRows, FirstWithId, NoneWithId, SameBut, Without<Value>;
  }

  // ── Sections ─────────────────────────────────────────────────────────────

  /** Exactly the title, order and strikethrough that are sent are replaced. */
  ghost predicate OwnFieldsSet(before: Value, after: Value, sent: map<string, Value>) {
    && before.Record? && after.Record?
    && forall key: string ::
         if key in sent && (key == "title" || key == "displayOrder" || key == "strikethrough")
         then SameField(sent, after.fields, key)
         else SameField(before.fields, after.fields, key)
  }

  /** As sent, under its id, with a list of rows: the one sent, or an empty one. */
  ghost predicate IsSentSection(value: Value, id: Text, sent: map<string, Value>) {
    && HasIdOf(value, id) && HoldsRows(value)
    && Rows(value) == (if "rows" in sent && sent["rows"].List? then sent["rows"].items else [])
    && forall key: string | key != "id" && key != "rows" :: SameField(sent, value.fields, key)
  }

  lemma UpsertSectionRule(codec: Codec, entries: seq<Entry>, op: Op) returns (at: nat)
    requires op.UpsertSection?
    ensures
      var values, outcome := ValuesOf(entries), EditEntries(codec, entries, op);
      var missing := NoneWithId(values, op.sectionId);
      if missing && !op.isNew then outcome == Refused(NotFound)
      else if !missing && op.isNew then outcome == Refused(Conflict)
      else
        && outcome.Changed? && outcome.removed.None? && outcome.added == []
        && var now := ValuesOf(outcome.entries);
           if op.isNew then
             && GoesTo(at, |values|, op.position) && OneMore(values, now, at)
             && IsSentSection(now[at], op.sectionId, op.fields)
             && outcome.restored == if op.restore then Some(RemovedSection(at, now[at])) else None
           else
             && FirstWithId(values, op.sectionId, at) && OnlyAt(values, now, at)
             && OwnFieldsSet(values[at], now[at], op.fields) && outcome.restored.None?
  {
    var values := ValuesOf(entries);
    FindIsFirst(values, op.sectionId);
    var found := Find(values, op.sectionId);
    at := if found.Some? then found.value else PlaceIn(|entries|, op.position);
    if found.Some? {
      var section := values[at];
      OwnFieldsAre(section, op.fields);
      PutAt(codec, entries, at, section.(fields := section.fields + OwnFields(op.fields)));
    } else {
      NewSectionIs(op.sectionId, op.fields);
      PutIn(codec, entries, at, NewSection(op.sectionId, op.fields));
    }
    hide Find, NewSection, OwnFields, OwnFieldsSet, IsSentSection, FirstWithId, NoneWithId, InsertedAt<Entry>;
  }

  lemma OwnFieldsAre(section: Value, sent: map<string, Value>)
    requires section.Record?
    ensures OwnFieldsSet(section, section.(fields := section.fields + OwnFields(sent)), sent)
  {
  }

  lemma NewSectionIs(id: Text, sent: map<string, Value>)
    ensures IsSentSection(NewSection(id, sent), id, sent)
  {
  }

  /** A section deleted leaves the rest, in order, and is reported with its place. */
  lemma DeleteSectionRule(codec: Codec, entries: seq<Entry>, op: Op) returns (at: nat)
    requires op.DeleteSection?
    ensures
      var values, outcome := ValuesOf(entries), EditEntries(codec, entries, op);
      if NoneWithId(values, op.sectionId) then outcome == Refused(NotFound)
      else
        && FirstWithId(values, op.sectionId, at)
        && outcome.Changed? && outcome.restored.None? && outcome.added == []
        && OneMore(ValuesOf(outcome.entries), values, at)
        && outcome.removed == Some(RemovedSection(at, values[at]))
  {
    at := 0;
    var values := ValuesOf(entries);
    FindIsFirst(values, op.sectionId);
    if Find(values, op.sectionId).Some? {
      at := Find(values, op.sectionId).value;
      var rest := ValuesOf(Without(entries, at));
      assert |rest| == |values| - 1;
      assert rest[..at] == values[..at] && rest[at..] == values[at + 1..];
    }
    hide Find, FirstWithId, NoneWithId, Without<Entry>;
  }

  // ── Bulk adds ────────────────────────────────────────────────────────────

  /** A new row as sent, its order the one sent or else the place it takes. */
  ghost predicate IsNewRow(value: Value, row: NewRow, place: nat) {
    && value.Record? && HasIdOf(value, row.id)
    && "body" in value.fields && value.fields["body"] == Words(row.body)
    && "subheader" in value.fields && value.fields["subheader"] == Words(row.subheader)
    && "displayOrder" in value.fields
    && (row.displayOrder.Some? ==> value.fields["displayOrder"] == Number(row.displayOrder.value))
    && (row.displayOrder.None? && place <= MOST_COUNTED ==> value.fields["displayOrder"] == Number(place))
    && ("strikethrough" in value.fields <==> row.strikethrough.Some?)
    && (row.strikethrough.Some? ==> value.fields["strikethrough"] == Flag(row.strikethrough.value))
    && forall key <- value.fields :: key in ["body", "displayOrder", "id", "strikethrough", "subheader"]
  }

  /** The rows sent stand in the section, one after the other, from `from`. */
  ghost predicate RowsStand(section: Value, rows: seq<NewRow>, from: nat) {
    && HoldsRows(section) && from + |rows| <= |Rows(section)|
    && forall k :: 0 <= k < |rows| ==> IsNewRow(Rows(section)[from + k], rows[k], from + k)
  }

  /** A new section as sent, at place `at`. */
  ghost predicate IsNewSection(value: Value, addition: Addition, at: nat) {
    && HasIdOf(value, addition.sectionId)
    && "title" in value.fields && value.fields["title"] == Words(addition.title)
    && "displayOrder" in value.fields
    && (addition.displayOrder.Some? ==> value.fields["displayOrder"] == Number(addition.displayOrder.value))
    && (addition.displayOrder.None? && at <= MOST_COUNTED ==> value.fields["displayOrder"] == Number(at))
    && forall key <- value.fields :: key in ["displayOrder", "id", "rows", "title"]
  }

  lemma StoredRowIs(row: NewRow, place: nat)
    ensures IsNewRow(StoredRow(row, place), row, place)
  {
  }

  /** One addition: onto its section's rows, or as the last section. */
  lemma AddOneRule(codec: Codec, entries: seq<Entry>, taken: set<Text>, addition: Addition) returns (at: nat, from: nat)
    requires AddOne(codec, entries, taken, addition).Ok?
    ensures
      var values, now := ValuesOf(entries), ValuesOf(AddOne(codec, entries, taken, addition).value.0);
      && at < |now| && HasIdOf(now[at], addition.sectionId) && RowsStand(now[at], addition.rows, from)
      && from + |addition.rows| == |Rows(now[at])| && Rows(now[at])[from..] == StoredRows(addition.rows, from)
      && AddOne(codec, entries, taken, addition).value.1
         == Added(addition.isNew, StoredRows(addition.rows, from), addition.sectionId)
      && if addition.isNew
         then && at == |values| && now[..at] == values && |now| == at + 1 && from == 0
              && IsNewSection(now[at], addition, at)
         else RowsChanged(values, now, addition.sectionId, at) && from == |Rows(values[at])|
              && Rows(now[at])[..from] == Rows(values[at])
  {
    hide IsNewRow, SameBut, NoneWithId, FirstWithId, IsNewSection, StoredRows, Created, WithRows, Find;
    if addition.isNew {
      at, from := |entries|, 0;
      AddedNew(codec, entries, addition);
    } else {
      at, from := AddedOnto(codec, entries, addition);
    }
  }

  lemma AddedNew(codec: Codec, entries: seq<Entry>, addition: Addition)
    ensures
      var created := Created(addition, |entries|);
      && ValuesOf(entries + [Written(codec, created)]) == ValuesOf(entries) + [created]
      && HasIdOf(created, addition.sectionId) && RowsStand(created, addition.rows, 0)
      && IsNewSection(created, addition, |entries|) && Rows(created) == StoredRows(addition.rows, 0)
  {
    StoredRowsStand(addition.rows, 0);
    hide IsNewRow, StoredRows;
  }

  lemma AddedOnto(codec: Codec, entries: seq<Entry>, addition: Addition) returns (at: nat, from: nat)
    requires Find(ValuesOf(entries), addition.sectionId).Some?
    requires HasRows(entries[Find(ValuesOf(entries), addition.sectionId).value].value)
    ensures Find(ValuesOf(entries), addition.sectionId) == Some(at) && at < |entries|
    ensures
      var values, section := ValuesOf(entries), entries[at].value;
      var stored := StoredRows(addition.rows, |RowsOf(section)|);
      var grown := WithRows(section, RowsOf(section) + stored);
      var now := ValuesOf(entries[at := Written(codec, grown)]);
      && from == |RowsOf(section)| && now[at] == grown && HasIdOf(grown, addition.sectionId)
      && RowsStand(grown, addition.rows, from) && Rows(grown) == RowsOf(section) + stored
      && RowsChanged(values, now, addition.sectionId, at)
  {
    var values := ValuesOf(entries);
    FindIsFirst(values, addition.sectionId);
    at := Find(values, addition.sectionId).value;
    var section := values[at];
    from := |RowsOf(section)|;
    var stored := StoredRows(addition.rows, from);
    StoredRowsStand(addition.rows, from);
    var rows := RowsOf(section) + stored;
    assert forall k :: 0 <= k < |addition.rows| ==> rows[from + k] == stored[k];
    WithRowsIs(section, rows);
    PutAt(codec, entries, at, WithRows(section, rows));
    OtherFieldsKept(section, rows);
    hide StoredRows, IsNewRow, SameBut, FirstWithId, NoneWithId, WithRows, Find;
  }

  lemma OtherFieldsKept(section: Value, rows: seq<Value>)
    requires section.Record?
    ensures SameField(section.fields, WithRows(section, rows).fields, "id")
  {
  }

  lemma StoredRowsStand(rows: seq<NewRow>, from: nat)
    ensures forall k :: 0 <= k < |rows| ==> IsNewRow(StoredRows(rows, from)[k], rows[k], from + k)
  {
    hide IsNewRow, StoredRow;
    forall k | 0 <= k < |rows| ensures IsNewRow(StoredRows(rows, from)[k], rows[k], from + k) {
      StoredRowIs(rows[k], from + k);
    }
  }

  lemma GrownKeeps(before: Entry, after: Entry, rows: seq<NewRow>, from: nat, addition: Addition, at: nat)
    requires InfoSheetProofs.Grown(before, after) && RowsStand(before.value, rows, from)
    ensures RowsStand(after.value, rows, from)
    ensures Rows(after.value)[from..from + |rows|] == Rows(before.value)[from..from + |rows|]
    ensures HasIdOf(before.value, addition.sectionId) ==> HasIdOf(after.value, addition.sectionId)
    ensures IsNewSection(before.value, addition, at) ==> IsNewSection(after.value, addition, at)
  {
    hide IsNewRow;
    var was, now := Rows(before.value), Rows(after.value);
    assert was <= now;
    assert forall k :: 0 <= k < |was| ==> now[k] == was[k];
  }

  /** The addition's rows stand in its section, and are reported in its turn. */
  ghost predicate Stands(outcome: Outcome, addition: Addition, turn: nat, at: nat, from: nat, sections: nat)
    requires outcome.Changed?
  {
    var now := ValuesOf(outcome.entries);
    && at < |now| && HasIdOf(now[at], addition.sectionId) && RowsStand(now[at], addition.rows, from)
    && (addition.isNew ==> sections <= at && from == 0 && IsNewSection(now[at], addition, at))
    && turn < |outcome.added|
    && outcome.added[turn] == Added(addition.isNew, Rows(now[at])[from..from + |addition.rows|], addition.sectionId)
  }

  /** After a bulk add that goes through, the rows of each addition stand in its
      section, one after the other and as sent, and are what is reported as added;
      a new section stands as sent, its rows the first in it. */
  lemma {:induction false} BulkAddsRule(codec: Codec, entries: seq<Entry>, taken: set<Text>, added: seq<Added>,
                                        additions: seq<Addition>, i: nat) returns (at: nat, from: nat)
    requires i < |additions| && AddFrom(codec, entries, taken, added, additions).Changed?
    ensures
      var outcome := AddFrom(codec, entries, taken, added, additions);
      && |outcome.added| == |added| + |additions| && added <= outcome.added
      && Stands(outcome, additions[i], |added| + i, at, from, |entries|)
    decreases |additions|
  {
    hide AddOne, Stands;
    AddedReported(codec, entries, taken, added, additions);
    if i > 0 {
      var step := AddOne(codec, entries, taken, additions[0]).value;
      AddedLonger(codec, entries, taken, additions[0]);
      at, from := BulkAddsRule(codec, step.0, taken + NewIdSet(additions[0].rows), added + [step.1], additions[1..],
                               i - 1);
      var outcome := AddFrom(codec, entries, taken, added, additions);
      StandsSooner(outcome, additions[i], |added| + i, at, from, |step.0|, |entries|);
    } else {
      at, from := FirstStands(codec, entries, taken, added, additions);
    }
  }

  lemma StandsSooner(outcome: Outcome, addition: Addition, turn: nat, at: nat, from: nat, sections: nat, fewer: nat)
    requires outcome.Changed? && Stands(outcome, addition, turn, at, from, sections) && fewer <= sections
    ensures Stands(outcome, addition, turn, at, from, fewer)
  {
    hide RowsStand, IsNewSection, HasIdOf;
  }

  lemma FirstStands(codec: Codec, entries: seq<Entry>, taken: set<Text>, added: seq<Added>, additions: seq<Addition>)
    returns (at: nat, from: nat)
    requires additions != [] && AddFrom(codec, entries, taken, added, additions).Changed?
    ensures Stands(AddFrom(codec, entries, taken, added, additions), additions[0], |added|, at, from, |entries|)
  {
    var first := additions[0];
    var step := AddOne(codec, entries, taken, first).value;
    var after := taken + NewIdSet(first.rows);
    at, from := AddOneRule(codec, entries, taken, first);
    hide AddOne, RowsStand, IsNewSection, HasIdOf, RowsChanged, InfoSheetProofs.Grown, StoredRows;
    AddedReported(codec, step.0, after, added + [step.1], additions[1..]);
    InfoSheetProofs.BulkKeepsEntries(codec, step.0, after, added + [step.1], additions[1..], at);
    var outcome := AddFrom(codec, entries, taken, added, additions);
    assert outcome.added[|added|] == step.1;
    GrownKeeps(step.0[at], outcome.entries[at], first.rows, from, first, at);
    assert Rows(step.0[at].value)[from..from + |first.rows|] == Rows(step.0[at].value)[from..] by {
      RowsToTheEnd(step.0[at].value, from, |first.rows|);
    }
  }

  lemma RowsToTheEnd(section: Value, from: nat, n: nat)
    requires HoldsRows(section) && from + n == |Rows(section)|
    ensures Rows(section)[from..from + n] == Rows(section)[from..]
  {
  }

  lemma AddedLonger(codec: Codec, entries: seq<Entry>, taken: set<Text>, addition: Addition)
    requires AddOne(codec, entries, taken, addition).Ok?
    ensures |entries| <= |AddOne(codec, entries, taken, addition).value.0|
  {
    hide Find, Created, StoredRows, WithRows;
  }

  lemma {:induction false} AddedReported(codec: Codec, entries: seq<Entry>, taken: set<Text>, added: seq<Added>,
                                         additions: seq<Addition>)
    ensures
      var outcome := AddFrom(codec, entries, taken, added, additions);
      outcome.Changed? ==> added <= outcome.added && |outcome.added| == |added| + |additions|
    decreases |additions|
  {
    hide AddOne;
    if additions != [] && AddOne(codec, entries, taken, additions[0]).Ok? {
      var step := AddOne(codec, entries, taken, additions[0]).value;
      AddedReported(codec, step.0, taken + NewIdSet(additions[0].rows), added + [step.1], additions[1..]);
    }
  }

  // ── When a bulk add goes through ─────────────────────────────────────────

  ghost predicate IsTaken(values: seq<Value>, id: Text) {
    exists i, k ::
      0 <= i < |values| && HoldsRows(values[i]) && 0 <= k < |Rows(values[i])| && HasIdOf(Rows(values[i])[k], id)
  }

  lemma IdSetIs(rows: seq<Value>, id: Text)
    ensures id in IdSet(rows) <==> exists k :: 0 <= k < |rows| && HasIdOf(rows[k], id)
  {
    if k :| 0 <= k < |rows| && HasIdOf(rows[k], id) {
      AmongIds(rows, k, id);
    }
  }

  lemma {:induction false} TakenIs(entries: seq<Entry>, id: Text)
    ensures id in Taken(entries) <==> IsTaken(ValuesOf(entries), id)
  {
    if entries != [] {
      var n := |entries| - 1;
      TakenIs(entries[..n], id);
      var values, last := ValuesOf(entries), entries[n].value;
      assert values == ValuesOf(entries[..n]) + [last];
      if HasRows(last) {
        IdSetIs(RowsOf(last), id);
      }
      hide HasIdOf, IdSet, IdIs;
      if id in Taken(entries[..n]) {
        var i, k :| 0 <= i < n && HoldsRows(values[..n][i]) && 0 <= k < |Rows(values[..n][i])|
          && HasIdOf(Rows(values[..n][i])[k], id);
        assert values[i] == values[..n][i];
      }
      assert values[..n] == ValuesOf(entries[..n]) && values[n] == last;
      if HasRows(last) && id in IdSet(RowsOf(last)) {
        var k :| 0 <= k < |RowsOf(last)| && HasIdOf(RowsOf(last)[k], id);
        assert HoldsRows(values[n]) && HasIdOf(Rows(values[n])[k], id);
      }
    }
  }

  /** The section with the id, if there is one, holds rows. */
  ghost predicate FirstHoldsRows(values: seq<Value>, id: Text) {
    forall p :: 0 <= p < |values| && FirstWithId(values, id, p) ==> HoldsRows(values[p])
  }

  /** The section of an addition is new exactly when the sheet and the additions
      before it have none with its id, and holds rows when it is the sheet's; and
      its rows' ids are neither taken nor those of an addition before it. */
  ghost predicate Addable(values: seq<Value>, taken: set<Text>, additions: seq<Addition>, i: nat)
    requires i < |additions|
  {
    var addition := additions[i];
    var made := exists j :: 0 <= j < i && additions[j].isNew && additions[j].sectionId == addition.sectionId;
    && (addition.isNew <==> NoneWithId(values, addition.sectionId) && !made)
    && (addition.isNew || FirstHoldsRows(values, addition.sectionId))
    && forall k :: 0 <= k < |addition.rows| ==>
         && addition.rows[k].id !in taken
         && forall j, m :: 0 <= j < i && 0 <= m < |additions[j].rows| ==> additions[j].rows[m].id != addition.rows[k].id
  }

  ghost predicate AllAddable(values: seq<Value>, taken: set<Text>, additions: seq<Addition>) {
    forall i :: 0 <= i < |additions| ==> Addable(values, taken, additions, i)
  }

  lemma AddOneGoes(codec: Codec, entries: seq<Entry>, taken: set<Text>, additions: seq<Addition>)
    requires additions != []
    ensures AddOne(codec, entries, taken, additions[0]).Ok? <==> Addable(ValuesOf(entries), taken, additions, 0)
  {
    FindIsFirst(ValuesOf(entries), additions[0].sectionId);
    hide Find, StoredRows, Created, WithRows, HasIdOf;
  }

  /** The sheet with one addition made answers for the rest as the sheet and that
      addition did. */
  lemma AddableNext(codec: Codec, entries: seq<Entry>, taken: set<Text>, additions: seq<Addition>, i: nat)
    requires 0 < i < |additions| && AddOne(codec, entries, taken, additions[0]).Ok?
    ensures
      var step := AddOne(codec, entries, taken, additions[0]).value;
      Addable(ValuesOf(entries), taken, additions, i)
      <==> Addable(ValuesOf(step.0), taken + NewIdSet(additions[0].rows), additions[1..], i - 1)
  {
    var first, rest, addition := additions[0], additions[1..], additions[i];
    var step := AddOne(codec, entries, taken, first).value;
    var values, now := ValuesOf(entries), ValuesOf(step.0);
    var more := taken + NewIdSet(first.rows);
    var at, from := AddOneRule(codec, entries, taken, first);
    SectionsNext(values, now, first, at, from, addition.sectionId);
    hide AddOne, HasIdOf, HoldsRows, RowsStand, FirstWithId, NoneWithId, RowsChanged, IsNewSection, FirstHoldsRows;
    assert forall j :: 0 <= j < i - 1 ==> rest[j] == additions[j + 1];
    assert rest[i - 1] == addition;
    assert (exists j :: 0 <= j < i && additions[j].isNew && additions[j].sectionId == addition.sectionId)
      <==> (first.isNew && first.sectionId == addition.sectionId)
           || exists j :: 0 <= j < i - 1 && rest[j].isNew && rest[j].sectionId == addition.sectionId by {
      if j :| 0 <= j < i && additions[j].isNew && additions[j].sectionId == addition.sectionId && j > 0 {
        assert rest[j - 1] == additions[j];
      }
    }
    forall k | 0 <= k < |addition.rows|
      ensures (addition.rows[k].id !in taken
               && forall j, m :: 0 <= j < i && 0 <= m < |additions[j].rows| ==>
                    additions[j].rows[m].id != addition.rows[k].id)
         <==> (addition.rows[k].id !in more
               && forall j, m :: 0 <= j < i - 1 && 0 <= m < |rest[j].rows| ==>
                    rest[j].rows[m].id != addition.rows[k].id)
    {
      RowsNext(additions, taken, i, addition.rows[k].id);
    }
  }

  lemma RowsNext(additions: seq<Addition>, taken: set<Text>, i: nat, id: Text)
    requires 0 < i <= |additions|
    ensures
      var rest, more := additions[1..], taken + NewIdSet(additions[0].rows);
      (id !in taken && forall j, m :: 0 <= j < i && 0 <= m < |additions[j].rows| ==> additions[j].rows[m].id != id)
      <==> (id !in more && forall j, m :: 0 <= j < i - 1 && 0 <= m < |rest[j].rows| ==> rest[j].rows[m].id != id)
  {
    var rest := additions[1..];
    forall j, m | 0 <= j < i - 1 && 0 <= m < |rest[j].rows| ensures rest[j].rows[m] == additions[j + 1].rows[m] {
    }
    forall j, m | 0 < j < i && 0 <= m < |additions[j].rows| ensures additions[j].rows[m] == rest[j - 1].rows[m] {
    }
  }

  lemma SectionsNext(values: seq<Value>, now: seq<Value>, first: Addition, at: nat, from: nat, id: Text)
    requires at < |now| && HasIdOf(now[at], first.sectionId) && RowsStand(now[at], first.rows, from)
    requires if first.isNew then at == |values| && now[..at] == values && |now| == at + 1
             else RowsChanged(values, now, first.sectionId, at)
    ensures NoneWithId(now, id) <==> NoneWithId(values, id) && !(first.isNew && first.sectionId == id)
    ensures FirstHoldsRows(values, id) <==> FirstHoldsRows(now, id)
  {
    hide HoldsRows, SameBut, Rows;
    assert forall p :: 0 <= p < |values| && p != at ==> now[p] == values[p];
    forall p | 0 <= p < |values| ensures HasIdOf(now[p], id) <==> HasIdOf(values[p], id) {
      if p == at {
        OneIdEach(now[p], values[p], first.sectionId, id);
      }
    }
    OneIdEach(now[at], now[at], first.sectionId, id);
    hide HasIdOf;
    forall p | 0 <= p < |values| ensures FirstWithId(values, id, p) <==> FirstWithId(now, id, p) {
    }
  }

  lemma OneIdEach(a: Value, b: Value, own: Text, id: Text)
    requires HasIdOf(a, own) && HasIdOf(b, own)
    ensures HasIdOf(a, id) <==> own == id
    ensures HasIdOf(b, id) <==> own == id
  {
  }

  /** A bulk add goes through exactly when each addition can be made after those
      before it. */
  lemma {:induction false} BulkGoesThrough(codec: Codec, entries: seq<Entry>, taken: set<Text>, added: seq<Added>,
                                           additions: seq<Addition>)
    ensures AddFrom(codec, entries, taken, added, additions).Changed?
       <==> AllAddable(ValuesOf(entries), taken, additions)
    decreases |additions|
  {
    hide AddOne, Addable;
    if additions != [] {
      AddOneGoes(codec, entries, taken, additions);
      var values := ValuesOf(entries);
      if AddOne(codec, entries, taken, additions[0]).Ok? {
        var step := AddOne(codec, entries, taken, additions[0]).value;
        var rest, now, more := additions[1..], ValuesOf(step.0), taken + NewIdSet(additions[0].rows);
        BulkGoesThrough(codec, step.0, more, added + [step.1], rest);
        forall i | 0 <= i < |rest|
          ensures Addable(now, more, rest, i) <==> Addable(values, taken, additions, i + 1)
        {
          AddableNext(codec, entries, taken, additions, i + 1);
        }
        assert AddFrom(codec, entries, taken, added, additions).Changed?
          <==> forall i :: 0 <= i < |rest| ==> Addable(now, more, rest, i);
        if forall i :: 0 <= i < |rest| ==> Addable(now, more, rest, i) {
          forall i | 0 <= i < |additions| ensures Addable(values, taken, additions, i) {
            assert i > 0 ==> Addable(now, more, rest, i - 1);
          }
        }
      } else {
        assert !Addable(values, taken, additions, 0);
      }
    }
  }

  /** Over the sheet: where the taken ids are those of the rows on it. */
  lemma BulkRule(codec: Codec, entries: seq<Entry>, additions: seq<Addition>)
    ensures EditEntries(codec, entries, AddRows(additions)).Changed?
       <==> AllAddable(ValuesOf(entries), Taken(entries), additions)
    ensures forall id :: id in Taken(entries) <==> IsTaken(ValuesOf(entries), id)
  {
    var taken := Taken(entries);
    BulkGoesThrough(codec, entries, taken, [], additions);
    assert EditEntries(codec, entries, AddRows(additions)) == AddFrom(codec, entries, taken, [], additions);
    forall id ensures id in taken <==> IsTaken(ValuesOf(entries), id) {
      TakenIs(entries, id);
    }
  }
}
