/** One change to a tenancy's info sheet: the stored column after it, with
    every entry it does not name kept as stored, or why it is refused. */
module InfoSheetEdit {
  import opened Wrappers
  import opened Json
  import JsonArray

  // ── Values, and the text they are stored as ──────────────────────────────

  /** A value JSON.parse returns. A number too large for a double reads as an
      infinity. */
  datatype Value =
    | Record(fields: map<string, Value>)
    | List(items: seq<Value>)
    | Words(text: Text)
    | Number(n: int)
    | Fraction(value: real)
    | Infinite(negative: bool)
    | Flag(on: bool)
    | Null

  type Entry = JsonArray.Element<Value>

  /** JSON.parse and JSON.stringify. */
  datatype Codec = Codec(parse: Text -> Option<Value>, stringify: Value -> Text)

  /** `text` is a JSON array whose entries' own text is `raws`. */
  ghost predicate Arrayed(text: Text, raws: seq<Text>) {
    || (exists before: Text, items: seq<JsonArray.Padded>, after: Text ::
          && text == before + JsonArray.Render(JsonArray.ArrayOf(items)) + after
          && JsonArray.Gap(before) && JsonArray.Gap(after) && items != []
          && (forall i :: 0 <= i < |items| ==> JsonArray.ValidPadded(items[i]))
          && raws == JsonArray.Raws(items))
    || (exists before: Text, gap: Text, after: Text ::
          && text == before + JsonArray.Render(JsonArray.EmptyArray(gap)) + after
          && JsonArray.Gap(before) && JsonArray.Gap(gap) && JsonArray.Gap(after)
          && raws == [])
  }

  ghost predicate ReadsAs(codec: Codec, raws: seq<Text>, values: seq<Value>) {
    |raws| == |values| && forall i :: 0 <= i < |raws| ==> codec.parse(raws[i]) == Some(values[i])
  }

  /** Some text reads as `value`. */
  ghost predicate Read(codec: Codec, value: Value) { exists text: Text :: codec.parse(text) == Some(value) }

  /** What comes back of a value that is written and read: JSON.stringify writes
      an infinity as null. */
  function Settled(value: Value): Value {
    match value
    case Record(fields) => Record(map key | key in fields :: Settled(fields[key]))
    case List(items) => List(seq(|items|, i requires 0 <= i < |items| => Settled(items[i])))
    case Infinite(_) => Value.Null
    case _ => value
  }

  predicate Finite(value: Value) {
    match value
    case Record(fields) => forall key <- fields :: Finite(fields[key])
    case List(items) => forall i :: 0 <= i < |items| ==> Finite(items[i])
    case Infinite(_) => false
    case _ => true
  }

  /** Every whole number up to this one is a double. */
  const MOST_COUNTED: nat := 0x20_0000_0000_0000

  /** A count as a number: no array is near the bound. */
  function Count(n: nat): Value { Number(if n <= MOST_COUNTED then n else MOST_COUNTED) }

  /** A list or record is read exactly when all it holds is. */
  ghost predicate ReadByParts(codec: Codec) {
    && (forall fields: map<string, Value> ::
          Read(codec, Record(fields)) <==> forall key <- fields :: Read(codec, fields[key]))
    && (forall items: seq<Value> ::
          Read(codec, List(items)) <==> forall i :: 0 <= i < |items| ==> Read(codec, items[i]))
    && (forall text: Text :: Read(codec, Words(text)))
    && (forall on: bool :: Read(codec, Flag(on)))
    && (forall n: nat :: Read(codec, Count(n)))
  }

  /** What holds of JSON.parse and JSON.stringify. A value once read is written
      as one JSON value, which reads back as it settles; a list is read from
      exactly the JSON arrays whose entries are read, entry by entry. */
  ghost predicate Lawful(codec: Codec) {
    && ReadByParts(codec)
    && (forall value: Value :: Read(codec, value) ==>
          JsonArray.ValueText(codec.stringify(value)) && codec.parse(codec.stringify(value)) == Some(Settled(value)))
    && (forall text: Text, raws: seq<Text>, values: seq<Value> ::
          Arrayed(text, raws) && ReadsAs(codec, raws, values) ==>
          codec.parse(text) == Some(List(values)))
    && (forall text: Text :: codec.parse(text).Some? && codec.parse(text).value.List? ==>
          exists raws :: Arrayed(text, raws) && ReadsAs(codec, raws, codec.parse(text).value.items))
  }

  /** The column as SQL hands it over. */
  datatype Column = Absent | NotText | Stored(text: Text)

  function ParsedOf(codec: Codec, text: Text): JsonArray.Parsed<Value> {
    match codec.parse(text)
    case None => JsonArray.Invalid
    case Some(value) => if value.List? then JsonArray.Values(value.items) else JsonArray.NotArray
  }

  /** The entries of a column, or none when it can't be changed safely. */
  function EntriesOf(codec: Codec, column: Column): Option<seq<Entry>> {
    match column
    case Absent => Some([])
    case NotText => None
    case Stored(text) =>
      if JsonArray.Trim(text) == [] then Some([]) else JsonArray.ElementsOf(text, ParsedOf(codec, text))
  }

  /** Every entry's text reads as its value. */
  ghost predicate Faithful(codec: Codec, entries: seq<Entry>) {
    forall i :: 0 <= i < |entries| ==>
      JsonArray.ValueText(entries[i].raw) && codec.parse(entries[i].raw) == Some(entries[i].value)
  }

  function RawTexts(entries: seq<Entry>): (raws: seq<Text>)
    ensures |raws| == |entries|
  {
    seq(|entries|, i requires 0 <= i < |entries| => entries[i].raw)
  }

  function ValuesOf(entries: seq<Entry>): (values: seq<Value>)
    ensures |values| == |entries|
  {
    seq(|entries|, i requires 0 <= i < |entries| => entries[i].value)
  }

  // ── Reading a column ─────────────────────────────────────────────────────

  lemma ArrayedScans(text: Text, raws: seq<Text>)
    requires Arrayed(text, raws)
    ensures JsonArray.RawsOf(text) == raws
    ensures forall i :: 0 <= i < |raws| ==> JsonArray.ValueText(raws[i])
  {
    hide JsonArray.RawsOf, JsonArray.Gap, JsonArray.Render;
    if before, items: seq<JsonArray.Padded>, after :|
      && text == before + JsonArray.Render(JsonArray.ArrayOf(items)) + after
      && JsonArray.Gap(before) && JsonArray.Gap(after) && items != []
      && (forall i :: 0 <= i < |items| ==> JsonArray.ValidPadded(items[i]))
      && raws == JsonArray.Raws(items)
    {
      JsonArray.ArraySplits(before, items, after);
      forall i | 0 <= i < |raws| ensures JsonArray.ValueText(raws[i]) {
        assert JsonArray.ValidPadded(items[i]);
        assert JsonArray.Valid(items[i].value) && JsonArray.Render(items[i].value) == raws[i];
      }
    } else {
      var before: Text, gap: Text, after: Text :|
        && text == before + JsonArray.Render(JsonArray.EmptyArray(gap)) + after
        && JsonArray.Gap(before) && JsonArray.Gap(gap) && JsonArray.Gap(after)
        && raws == [];
      JsonArray.EmptyArraySplits(before, gap, after);
    }
  }

  /** Text that is not blank is read exactly when it is a JSON array, and then
      every entry is held with its own text and the value it reads as. */
  lemma ColumnRead(codec: Codec, text: Text)
    requires Lawful(codec) && JsonArray.Trim(text) != []
    ensures EntriesOf(codec, Stored(text)).Some? <==> codec.parse(text).Some? && codec.parse(text).value.List?
    ensures EntriesOf(codec, Stored(text)).Some? ==>
      && Faithful(codec, EntriesOf(codec, Stored(text)).value)
      && codec.parse(text).value.items == ValuesOf(EntriesOf(codec, Stored(text)).value)
  {
    hide Arrayed, JsonArray.Trim, JsonArray.RawsOf, JsonArray.ValueText, ReadByParts, Read;
    if codec.parse(text).Some? && codec.parse(text).value.List? {
      var values := codec.parse(text).value.items;
      var raws := ListArrayed(codec, text);
      hide Lawful;
      ArrayedScans(text, raws);
      var entries := EntriesOf(codec, Stored(text)).value;
      assert ValuesOf(entries) == values;
      assert forall i :: 0 <= i < |entries| ==> entries[i] == JsonArray.Element(raws[i], values[i]);
    }
  }

  lemma ListArrayed(codec: Codec, text: Text) returns (raws: seq<Text>)
    requires Lawful(codec) && codec.parse(text).Some? && codec.parse(text).value.List?
    ensures Arrayed(text, raws) && ReadsAs(codec, raws, codec.parse(text).value.items)
  {
    hide Arrayed, JsonArray.ValueText, ReadByParts, Read, ReadsAs;
    raws :| Arrayed(text, raws) && ReadsAs(codec, raws, codec.parse(text).value.items);
  }

  /** Every entry's text is one JSON value that is read. */
  ghost predicate Readable(codec: Codec, entries: seq<Entry>) {
    forall i :: 0 <= i < |entries| ==> JsonArray.ValueText(entries[i].raw) && codec.parse(entries[i].raw).Some?
  }

  /** The entries with the values their text reads as. */
  ghost function Reread(codec: Codec, entries: seq<Entry>): (read: seq<Entry>)
    requires Readable(codec, entries)
    ensures RawTexts(read) == RawTexts(entries)
  {
    seq(|entries|, i requires 0 <= i < |entries| =>
      JsonArray.Element(entries[i].raw, codec.parse(entries[i].raw).value))
  }

  /** What is written is read back, entry for entry and text for text. */
  lemma WrittenRereads(codec: Codec, entries: seq<Entry>)
    requires Lawful(codec) && Readable(codec, entries)
    ensures EntriesOf(codec, Stored(JsonArray.ArrayText(RawTexts(entries)))) == Some(Reread(codec, entries))
  {
    hide JsonArray.Trim, JsonArray.RawsOf, JsonArray.ValueText, JsonArray.ArrayText, ReadByParts, Read;
    var raws := RawTexts(entries);
    var text := JsonArray.ArrayText(raws);
    JoinedArrayed(raws);
    ArrayedScans(text, raws);
    ArrayTextNotBlank(raws);
    hide Arrayed;
    var values := ValuesOf(Reread(codec, entries));
    assert ReadsAs(codec, raws, values);
    assert codec.parse(text) == Some(List(values));
    var read := JsonArray.ElementsOf(text, ParsedOf(codec, text)).value;
    assert read == Reread(codec, entries);
  }

  lemma ArrayTextNotBlank(raws: seq<Text>)
    ensures JsonArray.Trim(JsonArray.ArrayText(raws)) != []
  {
    var body := JsonArray.ArrayText(raws);
    assert JsonArray.Gap([]);
    JsonArray.TrimPadded([], body, []);
    assert [] + body + [] == body;
  }

  lemma JoinedArrayed(raws: seq<Text>)
    requires forall i :: 0 <= i < |raws| ==> JsonArray.ValueText(raws[i])
    ensures Arrayed(JsonArray.ArrayText(raws), raws)
  {
    hide JsonArray.ValueText;
    var text := JsonArray.ArrayText(raws);
    var none: Text := [];
    assert JsonArray.Gap(none);
    if raws == [] {
      assert text == none + JsonArray.Render(JsonArray.EmptyArray(none)) + none;
    } else {
      var items := seq(|raws|, i requires 0 <= i < |raws| => JsonArray.Padded(none, JsonArray.TreeOf(raws[i]), none));
      JsonArray.JoinIsItems(items);
      assert raws == JsonArray.Raws(items);
      assert text == none + JsonArray.Render(JsonArray.ArrayOf(items)) + none;
    }
  }

  // ── What an edit asks for ────────────────────────────────────────────────

  datatype NewRow = NewRow(id: Text, body: Text, subheader: Text, displayOrder: Option<nat>,
                           strikethrough: Option<bool>)

  /** One section's share of a bulk add; a new section is always named. */
  datatype Addition = Addition(isNew: bool, rows: seq<NewRow>, sectionId: Text, title: Text, displayOrder: Option<nat>)

  /** Sections and rows are sent as records with an id; `fields` holds the rest. */
  datatype Op =
    | AddRows(additions: seq<Addition>)
    | DeleteRow(sectionId: Text, rowId: Text)
    | DeleteSection(sectionId: Text)
    | UpsertRow(sectionId: Text, isNew: bool, position: Option<nat>, restore: bool, rowId: Text,
                fields: map<string, Value>)
    | UpsertSection(sectionId: Text, isNew: bool, position: Option<nat>, restore: bool, fields: map<string, Value>)

  /** What a delete took off or Undo put back, and where it stood. */
  datatype Removed =
    | RemovedRow(position: nat, row: Value, sectionId: Text)
    | RemovedSection(position: nat, section: Value)

  datatype Added = Added(isNew: bool, rows: seq<Value>, sectionId: Text)

  datatype Status = NotFound | Conflict | Unsafe

  datatype Outcome =
    | Changed(entries: seq<Entry>, added: seq<Added>, removed: Option<Removed>, restored: Option<Removed>)
    | Refused(status: Status)

  predicate IdIs(value: Value, id: Text) {
    value.Record? && "id" in value.fields && value.fields["id"] == Words(id)
  }

  predicate HasRows(value: Value) {
    value.Record? && "rows" in value.fields && value.fields["rows"].List?
  }

  function RowsOf(value: Value): seq<Value>
    requires HasRows(value)
  {
    value.fields["rows"].items
  }

  /** Array.findIndex by id. */
  function Find(values: seq<Value>, id: Text): (at: Option<nat>)
    ensures at.Some? ==> at.value < |values| && IdIs(values[at.value], id)
    ensures at.Some? ==> forall i :: 0 <= i < at.value ==> !IdIs(values[i], id)
    ensures at.None? ==> forall i :: 0 <= i < |values| ==> !IdIs(values[i], id)
  {
    if values == [] then None
    else if IdIs(values[0], id) then Some(0)
    else
      match Find(values[1..], id)
      case None => None
      case Some(at) => Some(at + 1)
  }

  function PlaceIn(length: nat, position: Option<nat>): (place: nat)
    ensures place <= length
  {
    if position.None? || position.value > length then length else position.value
  }

  function InsertedAt<T>(items: seq<T>, item: T, place: nat): seq<T>
    requires place <= |items|
  {
    items[..place] + [item] + items[place..]
  }

  function Without<T>(items: seq<T>, at: nat): seq<T>
    requires at < |items|
  {
    items[..at] + items[at + 1..]
  }

  function WithRows(section: Value, rows: seq<Value>): Value
    requires section.Record?
  {
    section.(fields := section.fields["rows" := List(rows)])
  }

  function Written(codec: Codec, value: Value): Entry { JsonArray.Element(codec.stringify(value), value) }

  /** The fields of its own a section write may change. */
  function OwnFields(fields: map<string, Value>): map<string, Value> {
    map key | key in fields && key in ["displayOrder", "strikethrough", "title"] :: fields[key]
  }

  // ── Bulk adds ────────────────────────────────────────────────────────────

  function StoredRow(row: NewRow, order: nat): (stored: Value)
    ensures IdIs(stored, row.id)
  {
    var fields := map["body" := Words(row.body),
                      "displayOrder" := if row.displayOrder.Some? then Number(row.displayOrder.value) else Count(order),
                      "id" := Words(row.id),
                      "subheader" := Words(row.subheader)];
    Record(if row.strikethrough.None? then fields else fields["strikethrough" := Flag(row.strikethrough.value)])
  }

  function StoredRows(rows: seq<NewRow>, first: nat): (stored: seq<Value>)
    ensures |stored| == |rows|
    ensures forall i :: 0 <= i < |rows| ==> IdIs(stored[i], rows[i].id)
  {
    seq(|rows|, i requires 0 <= i < |rows| => StoredRow(rows[i], first + i))
  }

  function Created(addition: Addition, sections: nat): Value {
    var order := if addition.displayOrder.Some? then Number(addition.displayOrder.value) else Count(sections);
    Record(map["displayOrder" := order,
               "id" := Words(addition.sectionId),
               "rows" := List(StoredRows(addition.rows, 0)),
               "title" := Words(addition.title)])
  }

  function IdSet(rows: seq<Value>): set<Text> {
    set i | 0 <= i < |rows| && rows[i].Record? && "id" in rows[i].fields && rows[i].fields["id"].Words?
      :: rows[i].fields["id"].text
  }

  function NewIdSet(rows: seq<NewRow>): set<Text> { set i | 0 <= i < |rows| :: rows[i].id }

  /** The row ids on the sheet. */
  function Taken(entries: seq<Entry>): set<Text> {
    if entries == [] then {}
    else
      var last := entries[|entries| - 1].value;
      Taken(entries[..|entries| - 1]) + if HasRows(last) then IdSet(RowsOf(last)) else {}
  }

  function AddOne(codec: Codec, entries: seq<Entry>, taken: set<Text>, addition: Addition)
    : Result<(seq<Entry>, Added), Status>
  {
    var at := Find(ValuesOf(entries), addition.sectionId);
    if addition.isNew && at.Some? then Err(Conflict)
    else if !addition.isNew && at.None? then Err(NotFound)
    else if exists i :: 0 <= i < |addition.rows| && addition.rows[i].id in taken then Err(Conflict)
    else if addition.isNew then
      Ok((entries + [Written(codec, Created(addition, |entries|))],
          Added(true, StoredRows(addition.rows, 0), addition.sectionId)))
    else
      var section := entries[at.value].value;
      if !HasRows(section) then Err(Unsafe)
      else
        var rows := StoredRows(addition.rows, |RowsOf(section)|);
        Ok((entries[at.value := Written(codec, WithRows(section, RowsOf(section) + rows))],
            Added(false, rows, addition.sectionId)))
  }

  /** The additions one after the other; the first refusal refuses all. */
  function AddFrom(codec: Codec, entries: seq<Entry>, taken: set<Text>, added: seq<Added>,
                   additions: seq<Addition>): Outcome
    decreases |additions|
  {
    if additions == [] then Changed(entries, added, None, None)
    else
      match AddOne(codec, entries, taken, additions[0])
      case Err(status) => Refused(status)
      case Ok(step) => AddFrom(codec, step.0, taken + NewIdSet(additions[0].rows), added + [step.1], additions[1..])
  }

  method CollectTaken(entries: seq<Entry>) returns (taken: set<Text>)
    ensures taken == Taken(entries)
  {
    taken := {};
    for i := 0 to |entries|
      invariant taken == Taken(entries[..i])
    {
      assert entries[..i + 1][..|entries[..i + 1]| - 1] == entries[..i];
      var value := entries[i].value;
      if HasRows(value) {
        var rows := RowsOf(value);
        ghost var before := taken;
        for k := 0 to |rows|
          invariant taken == before + IdSet(rows[..k])
        {
          var row := rows[k];
          IdSetSnoc(rows, k);
          if row.Record? && "id" in row.fields && row.fields["id"].Words? {
            taken := taken + {row.fields["id"].text};
          }
        }
        assert rows[..|rows|] == rows;
      }
    }
    assert entries[..|entries|] == entries;
  }

  lemma AmongIds(rows: seq<Value>, i: nat, id: Text)
    requires i < |rows| && IdIs(rows[i], id)
    ensures id in IdSet(rows)
  {
    assert rows[i].fields["id"].text == id;
  }

  lemma IdSetSnoc(rows: seq<Value>, k: nat)
    requires k < |rows|
    ensures IdSet(rows[..k + 1]) == IdSet(rows[..k]) + IdSet([rows[k]])
  {
    var before, after, last := rows[..k], rows[..k + 1], [rows[k]];
    forall id | id in IdSet(after)
      ensures id in IdSet(before) + IdSet(last)
    {
      var i :| 0 <= i < |after| && IdIs(after[i], id);
      if i < k {
        AmongIds(before, i, id);
      } else {
        AmongIds(last, 0, id);
      }
    }
    forall id | id in IdSet(before) + IdSet(last)
      ensures id in IdSet(after)
    {
      if id in IdSet(before) {
        var i :| 0 <= i < |before| && IdIs(before[i], id);
        AmongIds(after, i, id);
      } else {
        AmongIds(after, k, id);
      }
    }
  }

  /** Every addition in one edit, over the lists the edit works on. */
  method AddAllRows(codec: Codec, entries: seq<Entry>, additions: seq<Addition>) returns (outcome: Outcome)
    ensures outcome == AddFrom(codec, entries, Taken(entries), [], additions)
  {
    var values := entries;
    var taken := CollectTaken(entries);
    var added: seq<Added> := [];
    for i := 0 to |additions|
      invariant AddFrom(codec, values, taken, added, additions[i..])
        == AddFrom(codec, entries, Taken(entries), [], additions)
    {
      var addition := additions[i];
      assert additions[i..][0] == addition && additions[i..][1..] == additions[i + 1..];
      var at := Find(ValuesOf(values), addition.sectionId);
      if if addition.isNew then at.Some? else at.None? {
        return Refused(if addition.isNew then Conflict else NotFound);
      }
      if exists k :: 0 <= k < |addition.rows| && addition.rows[k].id in taken {
        return Refused(Conflict);
      }
      if addition.isNew {
        added := added + [Added(true, StoredRows(addition.rows, 0), addition.sectionId)];
        values := values + [Written(codec, Created(addition, |values|))];
      } else {
        var section := values[at.value].value;
        if !HasRows(section) {
          return Refused(Unsafe);
        }
        var rows := StoredRows(addition.rows, |RowsOf(section)|);
        added := added + [Added(false, rows, addition.sectionId)];
        values := values[at.value := Written(codec, WithRows(section, RowsOf(section) + rows))];
      }
      taken := taken + NewIdSet(addition.rows);
    }
    outcome := Changed(values, added, None, None);
  }

  // ── The edit ─────────────────────────────────────────────────────────────

  function RowRecord(rowId: Text, fields: map<string, Value>): (row: Value)
    ensures IdIs(row, rowId)
  {
    Record(fields["id" := Words(rowId)])
  }

  /** A new section as stored: as sent, with an empty list of rows when it came
      without one. */
  function NewSection(sectionId: Text, fields: map<string, Value>): (section: Value)
    ensures IdIs(section, sectionId) && HasRows(section)
  {
    var sent := Record(fields["id" := Words(sectionId)]);
    WithRows(sent, if HasRows(sent) then RowsOf(sent) else [])
  }

  function EditSection(codec: Codec, entries: seq<Entry>, op: Op): Outcome
    requires op.UpsertSection?
  {
    match Find(ValuesOf(entries), op.sectionId)
    case None =>
      if !op.isNew then Refused(NotFound)
      else
        var place := PlaceIn(|entries|, op.position);
        var stored := NewSection(op.sectionId, op.fields);
        Changed(InsertedAt(entries, Written(codec, stored), place), [], None,
                if op.restore then Some(RemovedSection(place, stored)) else None)
    case Some(at) =>
      if op.isNew then Refused(Conflict)
      else
        var section := entries[at].value;
        Changed(entries[at := Written(codec, section.(fields := section.fields + OwnFields(op.fields)))], [], None,
                None)
  }

  function EditRow(codec: Codec, entries: seq<Entry>, op: Op): Outcome
    requires op.DeleteRow? || op.UpsertRow?
  {
    match Find(ValuesOf(entries), op.sectionId)
    case None => Refused(NotFound)
    case Some(at) =>
      var section := entries[at].value;
      if !HasRows(section) then Refused(Unsafe)
      else
        var rows := RowsOf(section);
        var rowAt := Find(rows, op.rowId);
        if op.DeleteRow? then
          if rowAt.None? then Refused(NotFound)
          else Changed(entries[at := Written(codec, WithRows(section, Without(rows, rowAt.value)))], [],
                       Some(RemovedRow(rowAt.value, rows[rowAt.value], op.sectionId)), None)
        else if rowAt.None? && !op.isNew then Refused(NotFound)
        else if rowAt.Some? && op.isNew then Refused(Conflict)
        else
          var row := RowRecord(op.rowId, op.fields);
          if rowAt.Some? then
            Changed(entries[at := Written(codec, WithRows(section, rows[rowAt.value := row]))], [], None, None)
          else
            var place := PlaceIn(|rows|, op.position);
            Changed(entries[at := Written(codec, WithRows(section, InsertedAt(rows, row, place)))], [], None,
                    if op.restore then Some(RemovedRow(place, row, op.sectionId)) else None)
  }

  function EditEntries(codec: Codec, entries: seq<Entry>, op: Op): Outcome {
    match op
    case AddRows(additions) => AddFrom(codec, entries, Taken(entries), [], additions)
    case DeleteSection(sectionId) =>
      (match Find(ValuesOf(entries), sectionId)
       case None => Refused(NotFound)
       case Some(at) => Changed(Without(entries, at), [], Some(RemovedSection(at, entries[at].value)), None))
    case UpsertSection(_, _, _, _, _) => EditSection(codec, entries, op)
    case DeleteRow(_, _) => EditRow(codec, entries, op)
    case UpsertRow(_, _, _, _, _, _) => EditRow(codec, entries, op)
  }

  /** The column after one change. */
  datatype Edit = Edited(json: Text, outcome: Outcome) | NotEdited(status: Status)

  function EditInfoSheet(codec: Codec, column: Column, op: Op): Edit {
    match EntriesOf(codec, column)
    case None => NotEdited(Unsafe)
    case Some(entries) =>
      match EditEntries(codec, entries, op)
      case Refused(status) => NotEdited(status)
      case Changed(after, added, removed, restored) =>
        Edited(JsonArray.ArrayText(RawTexts(after)), Changed(after, added, removed, restored))
  }
}
