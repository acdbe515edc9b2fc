/** The ledger rows of an info sheet change: a snapshot too big for one row is
    cut into slices of its JSON text, one row each. */
module InfoSheetLedger {
  import opened Wrappers
  import opened Json
  import opened RowFiller
  import JsonText

  const SLICE_UNITS: nat := 8000

  /** What a snapshot column holds: a value's own text, or one slice of it. */
  datatype Part = Whole(text: Text) | Slice(json: Text, part: nat, parts: nat)

  function SliceJson(json: Text, part: nat, parts: nat): Json {
    Obj([Field(T("json"), Str(json)), Field(T("part"), Num(part)), Field(T("parts"), Num(parts))])
  }

  function PartBytes(part: Part): nat {
    match part
    case Whole(text) => Utf8Bytes(text)
    case Slice(json, n, parts) => Bytes(SliceJson(json, n, parts))
  }

  function SliceCount(length: nat): nat { (length + SLICE_UNITS - 1) / SLICE_UNITS }

  /** String.prototype.slice past the end stops at the end. */
  function CutAt(text: Text, from: nat): Text {
    if from >= |text| then []
    else if from + SLICE_UNITS <= |text| then text[from..from + SLICE_UNITS]
    else text[from..]
  }

  function SnapshotParts(value: Option<Text>): (parts: seq<Part>) {
    match value
    case None => []
    case Some(text) =>
      if Utf8Bytes(text) <= ROW_BUDGET_BYTES then [Whole(text)] else Slices(text)
  }

  function Slices(text: Text): (parts: seq<Part>) {
    seq(SliceCount(|text|), i requires 0 <= i < SliceCount(|text|) =>
      Slice(CutAt(text, i * SLICE_UNITS), i + 1, SliceCount(|text|)))
  }

  function PartText(part: Part): Text { if part.Whole? then part.text else part.json }

  /** The reader's rule: join the parts' text in order. */
  function JoinParts(parts: seq<Part>): Text {
    if parts == [] then [] else JoinParts(parts[..|parts| - 1]) + PartText(parts[|parts| - 1])
  }

  lemma {:induction false} JoinPrefix(text: Text, n: nat)
    requires Utf8Bytes(text) > ROW_BUDGET_BYTES && n <= SliceCount(|text|)
    ensures JoinParts(SnapshotParts(Some(text))[..n])
         == if n * SLICE_UNITS <= |text| then text[..n * SLICE_UNITS] else text
  {
    hide Utf8Bytes;
    if n > 0 {
      var parts := SnapshotParts(Some(text));
      JoinPrefix(text, n - 1);
      assert parts[..n][..n - 1] == parts[..n - 1];
      assert (n - 1) * SLICE_UNITS <= |text|;
      assert parts[n - 1] == Slice(CutAt(text, (n - 1) * SLICE_UNITS), n, |parts|);
    }
  }

  /** Joined in order, the parts are the recorded value's text. */
  lemma PartsJoin(value: Option<Text>)
    ensures JoinParts(SnapshotParts(value)) == if value.Some? then value.value else []
  {
    if value.Some? {
      var text, parts := value.value, SnapshotParts(value);
      if Utf8Bytes(text) <= ROW_BUDGET_BYTES {
        assert parts[..0] == [] && parts == [Whole(text)];
        assert JoinParts(parts) == JoinParts(parts[..0]) + text;
      } else {
        JoinPrefix(text, |parts|);
        assert parts[..|parts|] == parts;
      }
    }
  }

  /** Numbered from 1 in order, every slice carrying the number of slices. */
  lemma PartsNumbered(text: Text, i: nat)
    requires i < |SnapshotParts(Some(text))|
    ensures
      var parts := SnapshotParts(Some(text));
      if Utf8Bytes(text) <= ROW_BUDGET_BYTES then parts == [Whole(text)]
      else parts[i].Slice? && parts[i].part == i + 1 && parts[i].parts == |parts| && 0 < |parts[i].json| <= SLICE_UNITS
  {
    hide Utf8Bytes;
    var parts := SnapshotParts(Some(text));
    if parts[i].Slice? {
      assert i * SLICE_UNITS < |text|;
    }
  }

  lemma SliceBytes(json: Text, part: nat, parts: nat)
    ensures Bytes(SliceJson(json, part, parts)) <= 6 * |json| + Digits(part) + Digits(parts) + 100
  {
    var a, b, c := Field(T("json"), Str(json)), Field(T("part"), Num(part)), Field(T("parts"), Num(parts));
    UnitsBytesBound(json);
    UnitsBytesBound(T("json"));
    UnitsBytesBound(T("part"));
    UnitsBytesBound(T("parts"));
    FieldsCostOne(a);
    FieldsCostOne(b);
    FieldsCostOne(c);
    hide T, FieldsCost, Bytes, Digits, UnitsBytes;
    FieldsCostConcat([a, b], [c]);
    FieldsCostConcat([a], [b]);
    assert [a, b] == [a] + [b] && [a, b, c] == [a, b] + [c];
    ObjBytes([a, b, c]);
    assert FieldCost(a) == StrBytes(T("json")) + 1 + StrBytes(json) by { hide *; BytesOfField(a); }
    assert FieldCost(b) == StrBytes(T("part")) + 1 + Digits(part) by { hide *; BytesOfField(b); }
    assert FieldCost(c) == StrBytes(T("parts")) + 1 + Digits(parts) by { hide *; BytesOfField(c); }
  }

  lemma BytesOfField(f: Field)
    ensures f.value.Str? ==> FieldCost(f) == StrBytes(f.key) + 1 + StrBytes(f.value.text)
    ensures f.value.Num? ==> FieldCost(f) == StrBytes(f.key) + 1 + Digits(f.value.n)
  {
  }

  /** Whatever the text holds, every part is within the row budget: six bytes a
      code unit at most, and 9,200 bytes left for the two counts' digits. */
  lemma PartsFit(text: Text, i: nat)
    requires i < |SnapshotParts(Some(text))| && Digits(|text|) <= 4600
    ensures PartBytes(SnapshotParts(Some(text))[i]) <= ROW_BUDGET_BYTES < LEDGER_MAX_SNAPSHOT_BYTES
  {
    hide Utf8Bytes, Bytes, Digits, SliceJson;
    var part := SnapshotParts(Some(text))[i];
    PartsNumbered(text, i);
    if part.Slice? {
      SliceBytes(part.json, part.part, part.parts);
      DigitsMonotone(part.part, |text|);
      DigitsMonotone(part.parts, |text|);
    } else {
      hide SnapshotParts;
    }
  }

  // ── The rows ─────────────────────────────────────────────────────────────

  /** One row of the ledger; rows of one change share a correlation id. */
  datatype LedgerRow = LedgerRow(before: Option<Part>, after: Option<Part>, correlation: nat)

  function PartAt(parts: seq<Part>, i: nat): Option<Part> {
    if i < |parts| then Some(parts[i]) else None
  }

  function RowCount(before: seq<Part>, after: seq<Part>): nat {
    if |before| <= 1 && |after| <= 1 then 1 else if |before| >= |after| then |before| else |after|
  }

  function ChangeRows(before: seq<Part>, after: seq<Part>, correlation: nat): (rows: seq<LedgerRow>) {
    seq(RowCount(before, after), i requires 0 <= i < RowCount(before, after) =>
      LedgerRow(PartAt(before, i), PartAt(after, i), correlation))
  }

  class Ledger {
    var rows: seq<LedgerRow>

    constructor ()
      ensures rows == []
    {
      rows := [];
    }

    /** Appends one row, as `record` does. */
    method Record(row: LedgerRow)
      modifies this
      ensures rows == old(rows) + [row]
    {
      rows := rows + [row];
    }

    /** `correlation` is the id the change is given: its own, or a new one. */
    method RecordChange(beforeText: Option<Text>, afterText: Option<Text>, correlation: nat)
      modifies this
      ensures rows == old(rows) + ChangeRows(SnapshotParts(beforeText), SnapshotParts(afterText), correlation)
    {
      hide SnapshotParts;
      var before, after := SnapshotParts(beforeText), SnapshotParts(afterText);
      ghost var all := ChangeRows(before, after, correlation);
      if |before| <= 1 && |after| <= 1 {
        Record(LedgerRow(PartAt(before, 0), PartAt(after, 0), correlation));
        assert all == [LedgerRow(PartAt(before, 0), PartAt(after, 0), correlation)];
        return;
      }
      var index := 0;
      while index < |before| || index < |after|
        invariant 0 <= index <= |all|
        invariant rows == old(rows) + all[..index]
        decreases |all| - index
      {
        Record(LedgerRow(PartAt(before, index), PartAt(after, index), correlation));
        index := index + 1;
        assert all[..index] == all[..index - 1] + [all[index - 1]];
      }
      assert all[..|all|] == all;
    }
  }

  function BeforeParts(rows: seq<LedgerRow>): seq<Part> {
    if rows == [] then []
    else BeforeParts(rows[..|rows| - 1]) + if rows[|rows| - 1].before.Some? then [rows[|rows| - 1].before.value] else []
  }

  function AfterParts(rows: seq<LedgerRow>): seq<Part> {
    if rows == [] then []
    else AfterParts(rows[..|rows| - 1]) + if rows[|rows| - 1].after.Some? then [rows[|rows| - 1].after.value] else []
  }

  lemma {:induction false} ColumnsOfRows(before: seq<Part>, after: seq<Part>, correlation: nat, n: nat)
    requires n <= RowCount(before, after)
    ensures BeforeParts(ChangeRows(before, after, correlation)[..n]) == before[..if n < |before| then n else |before|]
    ensures AfterParts(ChangeRows(before, after, correlation)[..n]) == after[..if n < |after| then n else |after|]
  {
    if n > 0 {
      ColumnsOfRows(before, after, correlation, n - 1);
      var rows := ChangeRows(before, after, correlation);
      assert rows[..n][..n - 1] == rows[..n - 1];
      assert rows[n - 1] == LedgerRow(PartAt(before, n - 1), PartAt(after, n - 1), correlation);
    }
  }

  /** Read back from the ledger in order, both columns of a change's rows join
      to exactly what was recorded, and all its rows carry one correlation id. */
  lemma ChangeReadsBack(beforeText: Option<Text>, afterText: Option<Text>, correlation: nat)
    ensures
      var rows := ChangeRows(SnapshotParts(beforeText), SnapshotParts(afterText), correlation);
      && |rows| >= 1
      && (forall i :: 0 <= i < |rows| ==> rows[i].correlation == correlation)
      && JoinParts(BeforeParts(rows)) == (if beforeText.Some? then beforeText.value else [])
      && JoinParts(AfterParts(rows)) == (if afterText.Some? then afterText.value else [])
  {
    hide SnapshotParts, JoinParts, BeforeParts, AfterParts;
    var before, after := SnapshotParts(beforeText), SnapshotParts(afterText);
    var rows := ChangeRows(before, after, correlation);
    ColumnsOfRows(before, after, correlation, |rows|);
    assert rows[..|rows|] == rows && before[..|before|] == before && after[..|after|] == after;
    PartsJoin(beforeText);
    PartsJoin(afterText);
  }

  // ── The rows, written out ────────────────────────────────────────────────

  /** What the i-th row holds of a value: all of it when it is at most 57,344 bytes
      and i is 0, else its i-th stretch of 8,000 code units with the number of
      stretches, nothing past the last. */
  ghost predicate IsPiece(value: Option<Text>, i: nat, piece: Option<Part>) {
    match value
    case None => piece.None?
    case Some(text) =>
      if |JsonText.Utf8(text)| <= 57_344 then piece == if i == 0 then Some(Whole(text)) else None
      else if 8_000 * i >= |text| then piece.None?
      else
        && piece.Some? && piece.value.Slice? && piece.value.part == i + 1
        && 8_000 * (piece.value.parts - 1) < |text| <= 8_000 * piece.value.parts
        && piece.value.json == if |text| < 8_000 * (i + 1) then text[8_000 * i..] else text[8_000 * i..8_000 * (i + 1)]
  }

  lemma PieceIs(value: Option<Text>, i: nat)
    ensures IsPiece(value, i, PartAt(SnapshotParts(value), i))
  {
    if value.Some? {
      JsonText.Utf8Counted(value.value);
      CountIs(|value.value|, i);
      hide JsonText.Utf8, Utf8Bytes, SliceCount;
    }
  }

  lemma CountIs(length: nat, i: nat)
    ensures i < SliceCount(length) <==> 8_000 * i < length
    ensures 8_000 * (SliceCount(length) - 1) < length || length == 0
    ensures length <= 8_000 * SliceCount(length)
  {
  }

  /** The i-th row of a change holds the i-th piece of both sides, and there are
      just as many rows as the longer side has pieces, one when neither has any. */
  lemma PiecesRule(beforeText: Option<Text>, afterText: Option<Text>, correlation: nat)
    ensures
      var rows := ChangeRows(SnapshotParts(beforeText), SnapshotParts(afterText), correlation);
      && (forall i :: 0 <= i < |rows| ==>
            IsPiece(beforeText, i, rows[i].before) && IsPiece(afterText, i, rows[i].after))
      && IsPiece(beforeText, |rows|, None) && IsPiece(afterText, |rows|, None)
      && (|rows| > 1 ==> rows[|rows| - 1].before.Some? || rows[|rows| - 1].after.Some?)
  {
    var before, after := SnapshotParts(beforeText), SnapshotParts(afterText);
    var rows := ChangeRows(before, after, correlation);
    hide SnapshotParts, IsPiece;
    forall i | 0 <= i < |rows| ensures IsPiece(beforeText, i, rows[i].before) && IsPiece(afterText, i, rows[i].after) {
      PieceIs(beforeText, i);
      PieceIs(afterText, i);
    }
    PieceIs(beforeText, |rows|);
    PieceIs(afterText, |rows|);
  }
}
