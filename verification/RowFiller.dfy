/** The ledger's row packer: items go into rows in order, a new row starting
    when the next item would pass the row budget. */
module RowFiller {
  import opened Json

  /** The most a before, after or computed snapshot may hold. */
  const LEDGER_MAX_SNAPSHOT_BYTES: nat := 64 * 1024

  /** Rows are packed to seven eighths of the ledger's own cap. */
  const ROW_BUDGET_BYTES: nat := LEDGER_MAX_SNAPSHOT_BYTES / 8 * 7

  datatype Item<+T> = Item(value: T, bytes: nat)

  function ItemSizes<T>(row: seq<Item<T>>): seq<nat> {
    seq(|row|, i requires 0 <= i < |row| => row[i].bytes)
  }

  /** A row's items and commas, on top of `base`, what an empty row costs. */
  predicate Fits<T>(base: nat, row: seq<Item<T>>) {
    base + Joined(ItemSizes(row)) <= ROW_BUDGET_BYTES
  }

  /** The rows after every item of `items` has been added, in order. */
  function Fill<T>(base: nat, items: seq<Item<T>>): seq<seq<Item<T>>> {
    if |items| == 0 then []
    else
      var rows, item := Fill(base, items[..|items| - 1]), items[|items| - 1];
      if rows != [] && Fits(base, rows[|rows| - 1] + [item])
      then rows[..|rows| - 1] + [rows[|rows| - 1] + [item]]
      else rows + [[item]]
  }

  function Values<T>(row: seq<Item<T>>): seq<T> {
    seq(|row|, i requires 0 <= i < |row| => row[i].value)
  }

  function RowValues<T>(rows: seq<seq<Item<T>>>): (values: seq<seq<T>>)
    ensures |values| == |rows|
  {
    seq(|rows|, i requires 0 <= i < |rows| => Values(rows[i]))
  }

  function Concat<T>(rows: seq<seq<T>>): seq<T> {
    if |rows| == 0 then [] else Concat(rows[..|rows| - 1]) + rows[|rows| - 1]
  }

  /** The rows already closed, as values. */
  function Closed<T>(rows: seq<seq<Item<T>>>): seq<seq<T>> {
    if rows == [] then [] else RowValues(rows[..|rows| - 1])
  }

  /** The row being filled; empty before the first item. */
  function Last<T>(rows: seq<seq<Item<T>>>): seq<Item<T>> {
    if rows == [] then [] else rows[|rows| - 1]
  }

  /** What one more item does to the closed rows and to the one being filled. */
  lemma FillAdd<T>(base: nat, items: seq<Item<T>>, item: Item<T>)
    ensures
      var before, after := Fill(base, items), Fill(base, items + [item]);
      var cost := Joined(ItemSizes(Last(before)));
      && after != []
      && (before == [] ==> cost == 0)
      && if before != [] && base + cost + 1 + item.bytes <= ROW_BUDGET_BYTES
         then && Closed(after) == Closed(before)
              && Values(Last(after)) == Values(Last(before)) + [item.value]
              && Joined(ItemSizes(Last(after))) == cost + 1 + item.bytes
         else && Closed(after) == (if before == [] then [] else Closed(before) + [Values(Last(before))])
              && Values(Last(after)) == [item.value]
              && Joined(ItemSizes(Last(after))) == item.bytes
  {
    var before, after := Fill(base, items), Fill(base, items + [item]);
    FillSnoc(base, items, item);
    FillRowsNonEmpty(base, items);
    hide Fill;
    if before != [] && Fits(base, Last(before) + [item]) {
      JoinsRow(before, after, item);
    } else {
      OpensRow(before, after, item);
    }
    if before != [] {
      JoinedSnoc(Last(before), item);
    }
  }

  lemma JoinsRow<T>(before: seq<seq<Item<T>>>, after: seq<seq<Item<T>>>, item: Item<T>)
    requires before != [] && after == before[..|before| - 1] + [Last(before) + [item]]
    ensures Closed(after) == Closed(before) && Last(after) == Last(before) + [item]
    ensures Values(Last(after)) == Values(Last(before)) + [item.value]
  {
    assert after[..|after| - 1] == before[..|before| - 1];
  }

  lemma OpensRow<T>(before: seq<seq<Item<T>>>, after: seq<seq<Item<T>>>, item: Item<T>)
    requires after == before + [[item]]
    ensures Closed(after) == (if before == [] then [] else Closed(before) + [Values(Last(before))])
    ensures Last(after) == [item] && Values(Last(after)) == [item.value]
    ensures Joined(ItemSizes(Last(after))) == item.bytes
    ensures before == [] ==> Joined(ItemSizes(Last(before))) == 0
  {
    JoinedOne(item);
    hide Joined;
    assert after[..|after| - 1] == before;
    if before != [] {
      assert RowValues(before) == RowValues(before[..|before| - 1]) + [Values(Last(before))];
    } else {
      JoinedNone<T>();
    }
  }

  lemma JoinedNone<T>()
    ensures Joined(ItemSizes<T>([])) == 0
  {
  }

  lemma {:induction false} FillRowsNonEmpty<T>(base: nat, items: seq<Item<T>>)
    ensures NonEmpty(Fill(base, items))
  {
    if |items| > 0 {
      FillRowsNonEmpty(base, items[..|items| - 1]);
    }
  }

  ghost predicate NonEmpty<T>(rows: seq<seq<T>>) {
    forall i :: 0 <= i < |rows| ==> rows[i] != []
  }

  /** The packer's three variables after `items`. */
  ghost predicate Holds<T>(base: nat, items: seq<Item<T>>, rows: seq<seq<T>>, current: seq<T>, used: int) {
    var filled := Fill(base, items);
    && rows == Closed(filled)
    && current == Values(Last(filled))
    && used == base + Joined(ItemSizes(Last(filled)))
    && (filled == [] <==> current == [])
  }

  lemma AddHolds<T>(base: nat, items: seq<Item<T>>, rows: seq<seq<T>>, current: seq<T>, used: int, item: Item<T>)
    requires Holds(base, items, rows, current, used)
    ensures current == [] ==> used == base
    ensures if current != [] && used + 1 + item.bytes > ROW_BUDGET_BYTES
            then Holds(base, items + [item], rows + [current], [item.value], base + item.bytes)
            else Holds(base, items + [item], rows, current + [item.value],
                       used + item.bytes + if current == [] then 0 else 1)
  {
    FillAdd(base, items, item);
    hide Fill, Joined, ItemSizes;
  }

  lemma FinishHolds<T>(base: nat, items: seq<Item<T>>, rows: seq<seq<T>>, current: seq<T>, used: int)
    requires Holds(base, items, rows, current, used)
    ensures RowValues(Fill(base, items)) == if current == [] then rows else rows + [current]
  {
    var filled := Fill(base, items);
    if filled != [] {
      assert RowValues(filled) == RowValues(filled[..|filled| - 1]) + [Values(Last(filled))];
    }
  }

  // ── The packer, as the object that is filled ─────────────────────────────

  class Filler<T> {
    const base: nat
    var rows: seq<seq<T>>
    var current: seq<T>
    var used: nat
    ghost var added: seq<Item<T>>

    ghost predicate Valid()
      reads this
    {
      Holds(base, added, rows, current, used)
    }

    constructor (base: nat)
      ensures Valid() && this.base == base && added == []
    {
      this.base := base;
      rows, current, used := [], [], base;
      added := [];
    }

    method Add(item: T, bytes: nat)
      requires Valid()
      modifies this
      ensures Valid() && added == old(added) + [Item(item, bytes)]
    {
      ghost var next := Item(item, bytes);
      AddHolds(base, added, rows, current, used, next);
      hide *;
      var comma := if |current| > 0 then 1 else 0;
      if comma == 1 && used + comma + bytes > ROW_BUDGET_BYTES {
        rows := rows + [current];
        current := [];
        used := base;
      }
      used := used + (if |current| > 0 then 1 else 0) + bytes;
      current := current + [item];
      added := added + [next];
      assert [] + [item] == [item];
      HeldIsValid();
    }

    lemma HeldIsValid()
      requires Holds(base, added, rows, current, used)
      ensures Valid()
    {
    }

    method Finish() returns (filled: seq<seq<T>>)
      requires Valid()
      ensures filled == RowValues(Fill(base, added))
    {
      FinishHolds(base, added, rows, current, used);
      filled := if |current| > 0 then rows + [current] else rows;
    }
  }

  // ── What the packer promises ─────────────────────────────────────────────

  lemma JoinedSnoc<T>(row: seq<Item<T>>, item: Item<T>)
    requires row != []
    ensures Joined(ItemSizes(row + [item])) == Joined(ItemSizes(row)) + 1 + item.bytes
  {
    var sizes := ItemSizes(row + [item]);
    assert sizes[..|sizes| - 1] == ItemSizes(row);
  }

  lemma JoinedOne<T>(item: Item<T>)
    ensures Joined(ItemSizes([item])) == item.bytes
  {
    var sizes := ItemSizes([item]);
    assert sizes[..|sizes| - 1] == [] && Sum(sizes[..|sizes| - 1]) == 0;
  }

  /** Nothing is lost, repeated or moved: the rows, end to end, are the items. */
  lemma {:induction false} FillKeepsItems<T>(base: nat, items: seq<Item<T>>)
    ensures Concat(Fill(base, items)) == items
  {
    if |items| > 0 {
      var before, item := items[..|items| - 1], items[|items| - 1];
      FillKeepsItems(base, before);
      var rows := Fill(base, before);
      assert items == before + [item];
      FillSnoc(base, before, item);
      hide Fill, Fits, Concat;
      if rows != [] && Fits(base, Last(rows) + [item]) {
        var closed, last := rows[..|rows| - 1], Last(rows);
        hide Last;
        ConcatSnoc(closed, last + [item]);
        ConcatSnoc(closed, last);
        assert rows == closed + [last];
        assert Concat(closed) + (last + [item]) == (Concat(closed) + last) + [item];
      } else {
        ConcatSnoc(rows, [item]);
      }
    }
  }

  lemma FillSnoc<T>(base: nat, items: seq<Item<T>>, item: Item<T>)
    ensures
      var before := Fill(base, items);
      Fill(base, items + [item])
      == if before != [] && Fits(base, Last(before) + [item])
         then before[..|before| - 1] + [Last(before) + [item]]
         else before + [[item]]
  {
    assert (items + [item])[..|items + [item]| - 1] == items;
  }

  lemma ConcatSnoc<T>(rows: seq<seq<T>>, row: seq<T>)
    ensures Concat(rows + [row]) == Concat(rows) + row
  {
    assert (rows + [row])[..|rows|] == rows;
  }

  /** A row passes the budget only when it holds a single item that could not
      have fitted an empty row either. */
  ghost predicate FitsOrAlone<T>(base: nat, row: seq<Item<T>>) {
    Fits(base, row) || |row| == 1
  }

  ghost predicate RowsFitOrAlone<T>(base: nat, rows: seq<seq<Item<T>>>) {
    forall i :: 0 <= i < |rows| ==> FitsOrAlone(base, rows[i])
  }

  lemma {:induction false} FillRowsFit<T>(base: nat, items: seq<Item<T>>)
    ensures RowsFitOrAlone(base, Fill(base, items))
  {
    if |items| > 0 {
      FillRowsFit(base, items[..|items| - 1]);
    }
  }

  lemma ConcatMember<T>(rows: seq<seq<T>>, i: nat, k: nat)
    requires i < |rows| && k < |rows[i]|
    ensures rows[i][k] in Concat(rows)
  {
    if i < |rows| - 1 {
      ConcatMember(rows[..|rows| - 1], i, k);
    }
  }

  /** Every row is within the budget exactly when every item fits an empty row. */
  lemma FillFitsIff<T>(base: nat, items: seq<Item<T>>)
    ensures (forall i :: 0 <= i < |Fill(base, items)| ==> Fits(base, Fill(base, items)[i]))
       <==> (forall item :: item in items ==> base + item.bytes <= ROW_BUDGET_BYTES)
  {
    var rows := Fill(base, items);
    FillKeepsItems(base, items);
    FillRowsNonEmpty(base, items);
    FillRowsFit(base, items);
    if forall item :: item in items ==> base + item.bytes <= ROW_BUDGET_BYTES {
      forall i | 0 <= i < |rows| ensures Fits(base, rows[i]) {
        ConcatMember(rows, i, 0);
        JoinedOne(rows[i][0]);
        assert |rows[i]| == 1 ==> rows[i] == [rows[i][0]];
      }
    }
    if forall i :: 0 <= i < |rows| ==> Fits(base, rows[i]) {
      forall item | item in items ensures base + item.bytes <= ROW_BUDGET_BYTES {
        FoundInRow(rows, item);
        var i, k :| 0 <= i < |rows| && 0 <= k < |rows[i]| && rows[i][k] == item;
        assert Fits(base, rows[i]);
        ItemWithinJoined(rows[i], k);
      }
    }
  }

  lemma {:induction false} FoundInRow<T>(rows: seq<seq<T>>, item: T)
    requires item in Concat(rows)
    ensures exists i, k :: 0 <= i < |rows| && 0 <= k < |rows[i]| && rows[i][k] == item
  {
    if item in rows[|rows| - 1] {
      var k :| 0 <= k < |rows[|rows| - 1]| && rows[|rows| - 1][k] == item;
    } else {
      FoundInRow(rows[..|rows| - 1], item);
      var i, k :| 0 <= i < |rows| - 1 && 0 <= k < |rows[..|rows| - 1][i]| && rows[..|rows| - 1][i][k] == item;
      assert rows[i][k] == item;
    }
  }

  lemma ItemWithinJoined<T>(row: seq<Item<T>>, k: nat)
    requires k < |row|
    ensures row[k].bytes <= Joined(ItemSizes(row))
  {
    var sizes := ItemSizes(row);
    SumMonotone(sizes, k + 1);
    assert sizes[..k + 1][..k] == sizes[..k];
  }

  lemma PrefixFits<T>(base: nat, row: seq<Item<T>>, item: Item<T>)
    requires row != [] && FitsOrAlone(base, row + [item])
    ensures Fits(base, row)
  {
    JoinedSnoc(row, item);
  }

  /** The row's last items fit wherever the whole row does. */
  lemma SuffixFits<T>(base: nat, row: seq<Item<T>>, n: nat)
    requires n < |row| && Fits(base, row)
    ensures Fits(base, row[n..])
  {
    var sizes := ItemSizes(row);
    SumConcat(sizes[..n], sizes[n..]);
    assert sizes == sizes[..n] + sizes[n..];
    assert ItemSizes(row[n..]) == sizes[n..];
  }

  /** An in-order split of the items: rows that hold something, and are within
      the budget unless a lone item is itself too big. */
  ghost predicate Split<T>(base: nat, items: seq<Item<T>>, rows: seq<seq<Item<T>>>) {
    && Concat(rows) == items
    && NonEmpty(rows)
    && RowsFitOrAlone(base, rows)
  }

  /** The split with its last item taken off. */
  ghost function Shorter<T>(rows: seq<seq<T>>): seq<seq<T>>
    requires rows != [] && rows[|rows| - 1] != []
  {
    var inits, row := rows[..|rows| - 1], rows[|rows| - 1];
    if |row| == 1 then inits else inits + [row[..|row| - 1]]
  }

  lemma ShorterSplit<T>(base: nat, items: seq<Item<T>>, rows: seq<seq<Item<T>>>)
    requires Split(base, items, rows) && |items| > 0
    ensures rows != [] && rows[|rows| - 1] != []
    ensures Split(base, items[..|items| - 1], Shorter(rows))
    ensures items[|items| - 1] == rows[|rows| - 1][|rows[|rows| - 1]| - 1]
  {
    var inits, row := rows[..|rows| - 1], rows[|rows| - 1];
    assert items == Concat(inits) + row && row != [];
    if |row| == 1 {
      assert items[..|items| - 1] == Concat(inits);
    } else {
      var shorter := row[..|row| - 1];
      assert row == shorter + [row[|row| - 1]];
      assert FitsOrAlone(base, row);
      PrefixFits(base, shorter, row[|row| - 1]);
      assert Shorter(rows)[..|rows| - 1] == inits;
      assert items[..|items| - 1] == Concat(inits) + shorter;
    }
  }

  /** With as many rows as the split, and a last row no longer, the packer has
      room for the split's last item wherever the split did. */
  lemma RoomForLast<T>(base: nat, items: seq<Item<T>>, rows: seq<seq<Item<T>>>)
    requires Split(base, items, rows) && |items| > 0
    requires rows != [] && |rows[|rows| - 1]| > 1
    requires |Fill(base, items[..|items| - 1])| == |rows|
    requires |Fill(base, items[..|items| - 1])[|rows| - 1]| < |rows[|rows| - 1]|
    ensures Fits(base, Fill(base, items[..|items| - 1])[|rows| - 1] + [items[|items| - 1]])
  {
    var before, item := items[..|items| - 1], items[|items| - 1];
    var packed, row := Fill(base, before), rows[|rows| - 1];
    var last := packed[|rows| - 1];
    FillKeepsItems(base, before);
    assert items == before + [item];
    assert FitsOrAlone(base, row);
    LastIsSuffix(items, Concat(packed[..|packed| - 1]), last, item, Concat(rows[..|rows| - 1]), row);
    SuffixFits(base, row, |row| - |last| - 1);
  }

  /** No in-order split uses fewer rows than the packer; and when one uses as
      many, the packer's last row is no longer than its. */
  lemma {:induction false} FillIsOptimal<T>(base: nat, items: seq<Item<T>>, rows: seq<seq<Item<T>>>)
    requires Split(base, items, rows)
    ensures |Fill(base, items)| <= |rows|
    ensures |Fill(base, items)| == |rows| > 0
        ==> |Fill(base, items)[|rows| - 1]| <= |rows[|rows| - 1]|
    decreases |items|
  {
    if |items| > 0 {
      ShorterSplit(base, items, rows);
      FillIsOptimal(base, items[..|items| - 1], Shorter(rows));
      if |rows[|rows| - 1]| > 1 && |Fill(base, items[..|items| - 1])| == |rows| {
        RoomForLast(base, items, rows);
      }
    }
  }

  lemma LastIsSuffix<T>(items: seq<T>, a: seq<T>, last: seq<T>, item: T, b: seq<T>, row: seq<T>)
    requires items == a + last + [item] == b + row
    requires |last| + 1 <= |row|
    ensures row[|row| - |last| - 1..] == last + [item]
  {
    assert items[|items| - |last| - 1..] == last + [item];
    assert items[|items| - |last| - 1..] == row[|row| - |last| - 1..];
  }
}
