/** The body of a bulk add, checked before the database is touched. */
module InfoSheetBulk {
  import opened Wrappers
  import opened Json
  import opened InfoSheetEdit
  import JsonArray
  import InfoSheetProofs
  import opened Sets

  const MAX_BULK_ROWS: nat := 500

  datatype Reason =
    | NoAdditions | NoSectionId | RepeatedSection | NoTitle | NoRows | BadRow | RepeatedRow | BadOrder | TooMany

  predicate TextAt(value: Value, key: string) {
    value.Record? && key in value.fields && value.fields[key].Words?
  }

  function Order(fields: map<string, Value>): Option<nat> {
    if "displayOrder" in fields && fields["displayOrder"].Number? && fields["displayOrder"].n >= 0
    then Some(fields["displayOrder"].n) else None
  }

  /** The order is left out, or is a whole number counting from 0. */
  predicate OrderAllowed(fields: map<string, Value>) { "displayOrder" in fields ==> Order(fields).Some? }

  predicate TextAllowed(value: Value, key: string) {
    value.Record? && (key in value.fields ==> value.fields[key].Words?)
  }

  function TextOr(value: Value, key: string): Text { if TextAt(value, key) then value.fields[key].text else [] }

  function RowOf(value: Value): Option<NewRow> {
    if !TextAt(value, "id") || value.fields["id"].text == [] then None
    else if !TextAllowed(value, "subheader") || !TextAllowed(value, "body") || !OrderAllowed(value.fields) then None
    else if "strikethrough" in value.fields && !value.fields["strikethrough"].Flag? then None
    else Some(NewRow(value.fields["id"].text, TextOr(value, "body"), TextOr(value, "subheader"), Order(value.fields),
                     if "strikethrough" in value.fields then Some(value.fields["strikethrough"].on) else None))
  }

  function FieldOf(value: Value, key: string): Value {
    if value.Record? && key in value.fields then value.fields[key] else Value.Null
  }

  predicate NamesSection(item: Value) {
    TextAt(FieldOf(item, "Section"), "id") && FieldOf(item, "Section").fields["id"].text != []
  }

  function SectionId(item: Value): Text { TextOr(FieldOf(item, "Section"), "id") }

  predicate IsNew(item: Value) { FieldOf(item, "IsNew") == Flag(true) }

  predicate Titled(item: Value) {
    var section := FieldOf(item, "Section");
    IsNew(item) ==> TextAt(section, "title") && JsonArray.Trim(TextOr(section, "title")) != []
  }

  function ItemRows(item: Value): seq<Value> {
    if FieldOf(item, "Rows").List? then FieldOf(item, "Rows").items else []
  }

  function AdditionOf(item: Value, rows: seq<NewRow>): Addition
    requires NamesSection(item)
  {
    var section := FieldOf(item, "Section");
    Addition(IsNew(item), rows, SectionId(item), TextOr(section, "title"),
             if IsNew(item) then Order(section.fields) else None)
  }

  // ── The checks, in the order they are made ───────────────────────────────

  function RowsFrom(values: seq<Value>, rowIds: set<Text>, rows: seq<NewRow>): Result<(seq<NewRow>, set<Text>), Reason>
    decreases |values|
  {
    if values == [] then Ok((rows, rowIds))
    else
      match RowOf(values[0])
      case None => Err(BadRow)
      case Some(row) =>
        if row.id in rowIds then Err(RepeatedRow)
        else RowsFrom(values[1..], rowIds + {row.id}, rows + [row])
  }

  function ItemFrom(item: Value, sectionIds: set<Text>, rowIds: set<Text>): Result<(Addition, set<Text>), Reason> {
    if !NamesSection(item) then Err(NoSectionId)
    else if SectionId(item) in sectionIds then Err(RepeatedSection)
    else if !Titled(item) then Err(NoTitle)
    else if ItemRows(item) == [] then Err(NoRows)
    else
      match RowsFrom(ItemRows(item), rowIds, [])
      case Err(reason) => Err(reason)
      case Ok(read) =>
        if !OrderAllowed(FieldOf(item, "Section").fields) then Err(BadOrder)
        else Ok((AdditionOf(item, read.0), read.1))
  }

  function ItemsFrom(items: seq<Value>, sectionIds: set<Text>, rowIds: set<Text>, additions: seq<Addition>)
    : Result<seq<Addition>, Reason>
    decreases |items|
  {
    if items == [] then if |rowIds| > MAX_BULK_ROWS then Err(TooMany) else Ok(additions)
    else
      match ItemFrom(items[0], sectionIds, rowIds)
      case Err(reason) => Err(reason)
      case Ok(read) => ItemsFrom(items[1..], sectionIds + {SectionId(items[0])}, read.1, additions + [read.0])
  }

  function Parsed(raw: Value): Result<seq<Addition>, Reason> {
    if !raw.List? || raw.items == [] then Err(NoAdditions) else ItemsFrom(raw.items, {}, {}, [])
  }

  method ReadRows(values: seq<Value>, taken: set<Text>) returns (read: Result<(seq<NewRow>, set<Text>), Reason>)
    ensures read == RowsFrom(values, taken, [])
  {
    var rows: seq<NewRow> := [];
    var rowIds := taken;
    for i := 0 to |values|
      invariant RowsFrom(values[i..], rowIds, rows) == RowsFrom(values, taken, [])
    {
      assert values[i..][0] == values[i] && values[i..][1..] == values[i + 1..];
      var row := RowOf(values[i]);
      if row.None? {
        return Err(BadRow);
      }
      if row.value.id in rowIds {
        return Err(RepeatedRow);
      }
      rowIds := rowIds + {row.value.id};
      rows := rows + [row.value];
    }
    read := Ok((rows, rowIds));
  }

  method ParseBulkAdditions(raw: Value) returns (parsed: Result<seq<Addition>, Reason>)
    ensures parsed == Parsed(raw)
  {
    if !raw.List? || raw.items == [] {
      return Err(NoAdditions);
    }
    hide NamesSection, SectionId, Titled, ItemRows, OrderAllowed, AdditionOf;
    var items := raw.items;
    var additions: seq<Addition> := [];
    var sectionIds: set<Text>, rowIds: set<Text> := {}, {};
    for i := 0 to |items|
      invariant ItemsFrom(items[i..], sectionIds, rowIds, additions) == Parsed(raw)
    {
      var item := items[i];
      assert items[i..][0] == item && items[i..][1..] == items[i + 1..];
      if !NamesSection(item) {
        return Err(NoSectionId);
      }
      if SectionId(item) in sectionIds {
        return Err(RepeatedSection);
      }
      sectionIds := sectionIds + {SectionId(item)};
      if !Titled(item) {
        return Err(NoTitle);
      }
      if ItemRows(item) == [] {
        return Err(NoRows);
      }
      var read := ReadRows(ItemRows(item), rowIds);
      if read.Err? {
        return Err(read.error);
      }
      rowIds := read.value.1;
      if !OrderAllowed(FieldOf(item, "Section").fields) {
        return Err(BadOrder);
      }
      additions := additions + [AdditionOf(item, read.value.0)];
    }
    parsed := if |rowIds| > MAX_BULK_ROWS then Err(TooMany) else Ok(additions);
  }

  // ── What is accepted ─────────────────────────────────────────────────────

  function RowIds(values: seq<Value>): seq<Text> {
    seq(|values|, i requires 0 <= i < |values| => TextOr(values[i], "id"))
  }

  function AllRowIds(items: seq<Value>): seq<Text> {
    if items == [] then [] else RowIds(ItemRows(items[0])) + AllRowIds(items[1..])
  }

  function SectionIds(items: seq<Value>): seq<Text> {
    seq(|items|, i requires 0 <= i < |items| => SectionId(items[i]))
  }

  ghost predicate NoneIn(ids: seq<Text>, taken: set<Text>) {
    forall i :: 0 <= i < |ids| ==> ids[i] !in taken
  }

  predicate RowsGood(values: seq<Value>) {
    forall i :: 0 <= i < |values| ==> RowOf(values[i]).Some?
  }

  predicate ItemGood(item: Value) {
    NamesSection(item) && Titled(item) && ItemRows(item) != [] && RowsGood(ItemRows(item))
    && OrderAllowed(FieldOf(item, "Section").fields)
  }

  function RowsRead(values: seq<Value>): seq<NewRow>
    requires RowsGood(values)
  {
    seq(|values|, i requires 0 <= i < |values| => RowOf(values[i]).value)
  }

  lemma NoRepeatConcat(a: seq<Text>, b: seq<Text>)
    ensures NoRepeat(a + b) <==> NoRepeat(a) && NoRepeat(b) && NoneIn(b, Elements(a))
    ensures Elements(a + b) == Elements(a) + Elements(b)
  {
    var c := a + b;
    assert forall i :: 0 <= i < |b| ==> c[|a| + i] == b[i];
    assert forall i :: 0 <= i < |a| ==> c[i] == a[i];
    forall id | id in Elements(c) ensures id in Elements(a) + Elements(b) {
      var i :| 0 <= i < |c| && c[i] == id;
      assert if i < |a| then a[i] == id else b[i - |a|] == id;
    }
    if NoRepeat(c) {
      forall i, j | 0 <= i < j < |a| ensures a[i] != a[j] {
        assert c[i] != c[j];
      }
      forall i, j | 0 <= i < j < |b| ensures b[i] != b[j] {
        assert c[|a| + i] != c[|a| + j];
      }
      forall i, j | 0 <= i < |a| && 0 <= j < |b| ensures a[i] != b[j] {
        assert c[i] != c[|a| + j];
      }
    }
  }

  lemma NoneInUnion(ids: seq<Text>, a: set<Text>, b: set<Text>)
    ensures NoneIn(ids, a + b) <==> NoneIn(ids, a) && NoneIn(ids, b)
  {
  }

  lemma NoneInConcat(a: seq<Text>, b: seq<Text>, taken: set<Text>)
    ensures NoneIn(a + b, taken) <==> NoneIn(a, taken) && NoneIn(b, taken)
  {
    var c := a + b;
    assert forall i :: 0 <= i < |b| ==> c[|a| + i] == b[i];
    assert forall i :: 0 <= i < |a| ==> c[i] == a[i];
  }

  lemma OneId(id: Text)
    ensures NoRepeat([id]) && Elements([id]) == {id}
  {
    assert [id][0] == id;
  }

  ghost predicate RowsOk(values: seq<Value>, taken: set<Text>) {
    RowsGood(values) && NoRepeat(RowIds(values)) && NoneIn(RowIds(values), taken)
  }

  lemma RowsOkCons(values: seq<Value>, taken: set<Text>)
    requires values != []
    ensures
      var id, rest := TextOr(values[0], "id"), values[1..];
      && (RowsOk(values, taken) <==> RowOf(values[0]).Some? && id !in taken && RowsOk(rest, taken + {id}))
      && Elements(RowIds(values)) == {id} + Elements(RowIds(rest))
  {
    var id, rest := TextOr(values[0], "id"), values[1..];
    assert RowIds(values) == [id] + RowIds(rest);
    OneId(id);
    RowsGoodCons(values);
    hide RowOf, TextOr, NoRepeat, NoneIn, Elements, RowIds, RowsGood;
    NoRepeatConcat([id], RowIds(rest));
    NoneInConcat([id], RowIds(rest), taken);
    NoneInUnion(RowIds(rest), taken, {id});
    NoneInOne(id, taken);
  }

  lemma {:induction false} RowsAccepted(values: seq<Value>, taken: set<Text>, rows: seq<NewRow>)
    ensures RowsFrom(values, taken, rows).Ok? <==> RowsOk(values, taken)
    ensures RowsOk(values, taken) ==>
      RowsFrom(values, taken, rows).value == (rows + RowsRead(values), taken + Elements(RowIds(values)))
    decreases |values|
  {
    if values == [] {
      assert rows + RowsRead(values) == rows;
      assert RowIds(values) == [] && taken + Elements(RowIds(values)) == taken;
    } else {
      RowsOkCons(values, taken);
      RowHasId(values[0]);
      if RowOf(values[0]).Some? {
        var row, rest := RowOf(values[0]).value, values[1..];
        RowsAccepted(rest, taken + {row.id}, rows + [row]);
        if RowsOk(values, taken) {
          hide RowOf, TextOr, NoRepeat, NoneIn, Elements, RowIds;
          assert RowsRead(values) == [row] + RowsRead(rest);
          assert rows + RowsRead(values) == rows + [row] + RowsRead(rest);
          assert taken + {row.id} + Elements(RowIds(rest)) == taken + Elements(RowIds(values));
        }
      }
    }
  }

  lemma NoneInOne(id: Text, taken: set<Text>)
    ensures NoneIn([id], taken) <==> id !in taken
  {
    assert [id][0] == id;
  }

  lemma RowsGoodCons(values: seq<Value>)
    requires values != []
    ensures RowsGood(values) <==> RowOf(values[0]).Some? && RowsGood(values[1..])
  {
    hide RowOf;
    assert forall i :: 1 <= i < |values| ==> values[i] == values[1..][i - 1];
  }

  lemma RowHasId(value: Value)
    ensures RowOf(value).Some? ==> RowOf(value).value.id == TextOr(value, "id")
  {
  }

  // ── Items ────────────────────────────────────────────────────────────────

  predicate ItemsGood(items: seq<Value>) {
    forall i :: 0 <= i < |items| ==> ItemGood(items[i])
  }

  function AdditionsRead(items: seq<Value>): seq<Addition>
    requires ItemsGood(items)
  {
    seq(|items|, i requires 0 <= i < |items| => AdditionOf(items[i], RowsRead(ItemRows(items[i]))))
  }

  ghost predicate ItemsOk(items: seq<Value>, sectionIds: set<Text>, rowIds: set<Text>) {
    && ItemsGood(items)
    && NoRepeat(SectionIds(items)) && NoneIn(SectionIds(items), sectionIds)
    && NoRepeat(AllRowIds(items)) && NoneIn(AllRowIds(items), rowIds)
  }

  lemma ItemAccepted(item: Value, sectionIds: set<Text>, rowIds: set<Text>)
    ensures ItemFrom(item, sectionIds, rowIds).Ok?
       <==> ItemGood(item) && SectionId(item) !in sectionIds && RowsOk(ItemRows(item), rowIds)
    ensures ItemFrom(item, sectionIds, rowIds).Ok? ==>
      ItemFrom(item, sectionIds, rowIds).value
      == (AdditionOf(item, RowsRead(ItemRows(item))), rowIds + Elements(RowIds(ItemRows(item))))
  {
    hide NoRepeat, NoneIn, RowsFrom, AdditionOf, NamesSection, SectionId, ItemRows, RowIds;
    RowsAccepted(ItemRows(item), rowIds, []);
    if RowsGood(ItemRows(item)) {
      assert [] + RowsRead(ItemRows(item)) == RowsRead(ItemRows(item));
    }
  }

  lemma ItemsOkCons(items: seq<Value>, sectionIds: set<Text>, rowIds: set<Text>)
    requires items != []
    ensures
      var item, rest := items[0], items[1..];
      && (ItemsOk(items, sectionIds, rowIds)
          <==> && ItemGood(item) && SectionId(item) !in sectionIds && RowsOk(ItemRows(item), rowIds)
               && ItemsOk(rest, sectionIds + {SectionId(item)}, rowIds + Elements(RowIds(ItemRows(item)))))
      && Elements(AllRowIds(items)) == Elements(RowIds(ItemRows(item))) + Elements(AllRowIds(rest))
      && (ItemsOk(items, sectionIds, rowIds) ==> ItemsGood(items))
  {
    var item, rest := items[0], items[1..];
    var section, rows := SectionId(item), RowIds(ItemRows(item));
    assert SectionIds(items) == [section] + SectionIds(rest);
    OneId(section);
    ItemsGoodCons(items);
    GoodItemRows(item);
    hide NoRepeat, NoneIn, Elements, ItemGood, SectionIds, RowIds, ItemsGood, RowsGood, SectionId, ItemRows;
    NoRepeatConcat([section], SectionIds(rest));
    NoneInConcat([section], SectionIds(rest), sectionIds);
    NoneInUnion(SectionIds(rest), sectionIds, {section});
    NoneInOne(section, sectionIds);
    NoRepeatConcat(rows, AllRowIds(rest));
    NoneInConcat(rows, AllRowIds(rest), rowIds);
    NoneInUnion(AllRowIds(rest), rowIds, Elements(rows));
  }

  lemma GoodItemRows(item: Value)
    ensures ItemGood(item) ==> RowsGood(ItemRows(item))
  {
  }

  lemma ItemsGoodCons(items: seq<Value>)
    requires items != []
    ensures ItemsGood(items) <==> ItemGood(items[0]) && ItemsGood(items[1..])
  {
    hide ItemGood;
    assert forall i :: 1 <= i < |items| ==> items[i] == items[1..][i - 1];
  }

  lemma {:induction false} ItemsAccepted(items: seq<Value>, sectionIds: set<Text>, rowIds: set<Text>,
                                         additions: seq<Addition>)
    ensures ItemsFrom(items, sectionIds, rowIds, additions).Ok?
       <==> ItemsOk(items, sectionIds, rowIds) && |rowIds + Elements(AllRowIds(items))| <= MAX_BULK_ROWS
    decreases |items|
  {
    NothingRead();
    if items == [] {
      assert rowIds + Elements(AllRowIds(items)) == rowIds;
    } else {
      hide ItemGood, RowsOk, SectionId, ItemRows, RowIds, AdditionOf, ItemFrom, NoRepeat, NoneIn, Elements, AllRowIds,
        ItemsOk, AdditionsRead, ItemsGood, SectionIds;
      var item, rest := items[0], items[1..];
      ItemAccepted(item, sectionIds, rowIds);
      ItemsOkCons(items, sectionIds, rowIds);
      if ItemFrom(item, sectionIds, rowIds).Ok? {
        var read := ItemFrom(item, sectionIds, rowIds).value;
        ItemsAccepted(rest, sectionIds + {SectionId(item)}, read.1, additions + [read.0]);
        assert read.1 + Elements(AllRowIds(rest)) == rowIds + Elements(AllRowIds(items));
      }
    }
  }

  lemma {:induction false} ItemsReadInOrder(items: seq<Value>, sectionIds: set<Text>, rowIds: set<Text>,
                                            additions: seq<Addition>)
    requires ItemsFrom(items, sectionIds, rowIds, additions).Ok? && ItemsGood(items)
    ensures ItemsFrom(items, sectionIds, rowIds, additions).value == additions + AdditionsRead(items)
    decreases |items|
  {
    if items == [] {
      assert additions + AdditionsRead(items) == additions;
    } else {
      ItemAccepted(items[0], sectionIds, rowIds);
      AdditionsReadCons(items);
      hide ItemGood, RowsOk, SectionId, ItemRows, RowIds, AdditionOf, ItemFrom, Elements, AdditionsRead, ItemsGood;
      var read := ItemFrom(items[0], sectionIds, rowIds).value;
      ItemsReadInOrder(items[1..], sectionIds + {SectionId(items[0])}, read.1, additions + [read.0]);
      assert additions + AdditionsRead(items) == additions + [read.0] + AdditionsRead(items[1..]);
    }
  }

  lemma NothingRead()
    ensures ItemsGood([]) && AdditionsRead([]) == [] && Elements(AllRowIds([])) == {}
    ensures forall s: set<Text>, t: set<Text> :: ItemsOk([], s, t)
  {
  }

  lemma AdditionsReadCons(items: seq<Value>)
    requires items != [] && ItemsGood(items)
    ensures ItemGood(items[0]) && ItemsGood(items[1..])
    ensures AdditionsRead(items) == [AdditionOf(items[0], RowsRead(ItemRows(items[0])))] + AdditionsRead(items[1..])
  {
    ItemsGoodCons(items);
    hide ItemGood, AdditionOf, ItemRows;
  }

  /** A bulk add is accepted exactly when it names at least one addition, each
      with rows of its own, no section and no row twice over the whole body, and
      at most 500 rows; the additions are then read as sent, in order. */
  lemma BulkAccepted(raw: Value)
    ensures Parsed(raw).Ok? <==>
      && raw.List? && raw.items != [] && ItemsGood(raw.items)
      && NoRepeat(SectionIds(raw.items)) && NoRepeat(AllRowIds(raw.items))
      && |AllRowIds(raw.items)| <= MAX_BULK_ROWS
    ensures Parsed(raw).Ok? ==> Parsed(raw).value == AdditionsRead(raw.items)
  {
    if raw.List? && raw.items != [] {
      ItemsAccepted(raw.items, {}, {}, []);
      if ItemsGood(raw.items) && Parsed(raw).Ok? {
        ItemsReadInOrder(raw.items, {}, {}, []);
      }
      hide ItemsGood, SectionIds, AdditionsRead, ItemsFrom, NoRepeat;
      var ids := AllRowIds(raw.items);
      assert {} + Elements(ids) == Elements(ids);
      if NoRepeat(ids) {
        DistinctSize(ids);
      }
      if ItemsGood(raw.items) {
        assert [] + AdditionsRead(raw.items) == AdditionsRead(raw.items);
      }
    }
  }

  lemma {:induction false} RowsOfItem(items: seq<Value>, i: nat)
    requires i < |items| && NoRepeat(AllRowIds(items))
    ensures NoRepeat(RowIds(ItemRows(items[i])))
    decreases i
  {
    hide NoRepeat, NoneIn, Elements, RowIds, ItemRows;
    NoRepeatConcat(RowIds(ItemRows(items[0])), AllRowIds(items[1..]));
    if i > 0 {
      RowsOfItem(items[1..], i - 1);
    }
  }

  /** What addRows relies on: no accepted addition repeats a row id, so a bulk
      add that goes through keeps every section's row ids distinct. */
  lemma ParsedAddsKeepRowsDistinct(codec: Codec, entries: seq<Entry>, raw: Value)
    requires InfoSheetProofs.SheetDistinct(ValuesOf(entries)) && Parsed(raw).Ok?
    requires EditEntries(codec, entries, AddRows(Parsed(raw).value)).Changed?
    ensures InfoSheetProofs.SheetDistinct(ValuesOf(EditEntries(codec, entries, AddRows(Parsed(raw).value)).entries))
  {
    hide EditEntries, InfoSheetProofs.SheetDistinct, Parsed, NoRepeat, RowIds, AllRowIds, AdditionOf;
    var additions := Parsed(raw).value;
    BulkAccepted(raw);
    forall i | 0 <= i < |additions| ensures InfoSheetProofs.AdditionDistinct(additions[i]) {
      RowsOfItem(raw.items, i);
      AdditionOfDistinct(raw.items[i]);
    }
    InfoSheetProofs.BulkKeepsRowsDistinct(codec, entries, additions);
  }

  lemma AdditionOfDistinct(item: Value)
    requires ItemGood(item) && NoRepeat(RowIds(ItemRows(item)))
    ensures InfoSheetProofs.AdditionDistinct(AdditionOf(item, RowsRead(ItemRows(item))))
  {
    hide RowOf, TextOr, ItemRows;
    var values := ItemRows(item);
    var rows := RowsRead(values);
    forall i, j | 0 <= i < j < |rows| ensures rows[i].id != rows[j].id {
      RowHasId(values[i]);
      RowHasId(values[j]);
      assert RowIds(values)[i] != RowIds(values)[j];
    }
  }
}
