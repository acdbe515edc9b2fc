/** Which bulk adds are accepted and what is read of them, written out over the
    body's own fields. */
module BulkRules {
  import opened Wrappers
  import opened Json
  import opened InfoSheetEdit
  import opened InfoSheetBulk
  import JsonArray
  import opened Sets

  type Fields = map<string, Value>

  predicate HasText(fields: Fields, key: string, text: Text) { key in fields && fields[key] == Words(text) }

  /** Left out reads as empty. */
  predicate MayHaveText(fields: Fields, key: string, text: Text) {
    if key in fields then fields[key] == Words(text) else text == []
  }

  predicate MayHaveOrder(fields: Fields, order: Option<nat>) {
    if "displayOrder" in fields then order.Some? && fields["displayOrder"] == Number(order.value) else order.None?
  }

  predicate MayHaveStrike(fields: Fields, strike: Option<bool>) {
    if "strikethrough" in fields then strike.Some? && fields["strikethrough"] == Flag(strike.value) else strike.None?
  }

  /** The row a sent value is read as. */
  predicate RowSays(value: Value, row: NewRow) {
    && value.Record? && row.id != [] && HasText(value.fields, "id", row.id)
    && MayHaveText(value.fields, "body", row.body) && MayHaveText(value.fields, "subheader", row.subheader)
    && MayHaveOrder(value.fields, row.displayOrder) && MayHaveStrike(value.fields, row.strikethrough)
  }

  predicate RowsSay(value: Value, rows: seq<NewRow>) {
    && value.List? && |value.items| == |rows| && rows != []
    && forall i :: 0 <= i < |rows| ==> RowSays(value.items[i], rows[i])
  }

  /** A title counts when it is text. */
  predicate TitleSays(fields: Fields, title: Text) {
    if "title" in fields && fields["title"].Words? then title == fields["title"].text else title == []
  }

  predicate SectionSays(section: Value, addition: Addition) {
    && section.Record? && addition.sectionId != [] && HasText(section.fields, "id", addition.sectionId)
    && TitleSays(section.fields, addition.title) && (addition.isNew ==> !JsonArray.Blank(addition.title))
    && if addition.isNew then MayHaveOrder(section.fields, addition.displayOrder)
       else addition.displayOrder.None?
            && ("displayOrder" in section.fields ==>
                  section.fields["displayOrder"].Number? && section.fields["displayOrder"].n >= 0)
  }

  /** The addition a sent item is read as: its section, new when it says so, which
      then has a title that is not blank, and its rows. */
  predicate ItemSays(item: Value, addition: Addition) {
    && item.Record? && "Section" in item.fields && "Rows" in item.fields
    && (addition.isNew <==> "IsNew" in item.fields && item.fields["IsNew"] == Flag(true))
    && SectionSays(item.fields["Section"], addition)
    && RowsSay(item.fields["Rows"], addition.rows)
  }

  ghost predicate ItemsSay(items: seq<Value>, additions: seq<Addition>) {
    && |items| == |additions|
    && forall i :: 0 <= i < |items| ==> ItemSays(items[i], additions[i])
  }

  function IdsOf(rows: seq<NewRow>): seq<Text> { seq(|rows|, i requires 0 <= i < |rows| => rows[i].id) }

  function AllIds(additions: seq<Addition>): seq<Text> {
    if additions == [] then [] else IdsOf(additions[0].rows) + AllIds(additions[1..])
  }

  function SectionsOf(additions: seq<Addition>): seq<Text> {
    seq(|additions|, i requires 0 <= i < |additions| => additions[i].sectionId)
  }

  // ── The reading in those words ───────────────────────────────────────────

  lemma RowRule(value: Value, row: NewRow)
    ensures RowOf(value) == Some(row) <==> RowSays(value, row)
  {
  }

  lemma RowsRule(item: Value, rows: seq<NewRow>)
    requires item.Record? && "Rows" in item.fields
    ensures ItemRows(item) != [] && RowsGood(ItemRows(item)) && rows == RowsRead(ItemRows(item))
       <==> RowsSay(item.fields["Rows"], rows)
  {
    var values := ItemRows(item);
    forall value, row ensures RowOf(value) == Some(row) <==> RowSays(value, row) {
      RowRule(value, row);
    }
    hide RowOf, RowSays;
    if RowsSay(item.fields["Rows"], rows) {
      assert forall i :: 0 <= i < |values| ==> RowOf(values[i]) == Some(rows[i]);
      assert rows == RowsRead(values);
    }
  }

  /** The checks on an item's section, and what is read of it. */
  lemma SectionRule(item: Value, addition: Addition)
    requires item.Record? && "Section" in item.fields && addition.isNew == IsNew(item)
    ensures
      var section := item.fields["Section"];
      && NamesSection(item) && Titled(item) && OrderAllowed(section.fields)
      && addition.sectionId == SectionId(item) && addition.title == TextOr(section, "title")
      && addition.displayOrder == (if addition.isNew then Order(section.fields) else None)
      <==> SectionSays(section, addition)
  {
    JsonArray.TrimBlank(TextOr(item.fields["Section"], "title"));
    hide JsonArray.Trim, JsonArray.Blank;
  }

  lemma ItemRule(item: Value, addition: Addition)
    ensures ItemGood(item) && addition == AdditionOf(item, RowsRead(ItemRows(item))) <==> ItemSays(item, addition)
  {
    if item.Record? && "Section" in item.fields && "Rows" in item.fields {
      RowsRule(item, addition.rows);
      hide Titled, OrderAllowed, RowsGood, RowsRead, RowsSay, SectionSays, TextOr, Order;
      if addition.isNew == IsNew(item) {
        SectionRule(item, addition);
      }
    } else {
      NotRead(item);
    }
  }

  lemma NotRead(item: Value)
    requires !(item.Record? && "Section" in item.fields && "Rows" in item.fields)
    ensures !ItemGood(item)
  {
  }

  lemma {:induction false} IdsAgree(items: seq<Value>, additions: seq<Addition>)
    requires ItemsSay(items, additions)
    ensures AllRowIds(items) == AllIds(additions) && SectionIds(items) == SectionsOf(additions)
  {
    if items != [] {
      assert ItemSays(items[0], additions[0]);
      assert RowIds(ItemRows(items[0])) == IdsOf(additions[0].rows);
      assert ItemsSay(items[1..], additions[1..]);
      IdsAgree(items[1..], additions[1..]);
    }
  }

  /** A body is read as these additions exactly when it is a list that says them,
      naming no section twice, no row twice over the whole body, and at most 500
      rows. */
  lemma BodyRule(raw: Value, additions: seq<Addition>)
    ensures Parsed(raw) == Ok(additions) <==>
      && raw.List? && raw.items != [] && ItemsSay(raw.items, additions)
      && NoRepeat(SectionsOf(additions)) && NoRepeat(AllIds(additions)) && |AllIds(additions)| <= 500
  {
    BulkAccepted(raw);
    forall item, addition
      ensures ItemGood(item) && addition == AdditionOf(item, RowsRead(ItemRows(item))) <==> ItemSays(item, addition) {
      ItemRule(item, addition);
    }
    hide ItemGood, ItemSays, AdditionOf, RowsRead, ItemRows, Parsed, NoRepeat, SectionIds, SectionsOf, AllRowIds,
      AllIds;
    if raw.List? {
      if Parsed(raw) == Ok(additions) {
        assert ItemsSay(raw.items, additions);
      }
      if ItemsSay(raw.items, additions) {
        IdsAgree(raw.items, additions);
        assert ItemsGood(raw.items);
        assert additions == AdditionsRead(raw.items);
      }
    }
  }
}
