/** The text JSON.stringify writes for a value and the bytes it is stored as, which
    the sizes count. */
module JsonText {
  import opened Wrappers
  import opened Json

  type Byte = b: int | 0 <= b < 0x100

  // ── UTF-8 ────────────────────────────────────────────────────────────────

  /** A code point's bytes (section 3 of RFC 3629). */
  function Encoded(point: int): (bytes: seq<Byte>)
    requires 0 <= point < 0x11_0000
  {
    if point < 0x80 then [point]
    else if point < 0x800 then [0xC0 + point / 0x40, 0x80 + point % 0x40]
    else if point < 0x1_0000 then [0xE0 + point / 0x1000, 0x80 + point / 0x40 % 0x40, 0x80 + point % 0x40]
    else [0xF0 + point / 0x4_0000, 0x80 + point / 0x1000 % 0x40, 0x80 + point / 0x40 % 0x40, 0x80 + point % 0x40]
  }

  /** The code point of a surrogate pair. */
  function PairPoint(high: int, low: int): (point: int)
    requires 0xD800 <= high < 0xDC00 <= low < 0xE000
    ensures 0x1_0000 <= point < 0x11_0000
  {
    0x1_0000 + (high - 0xD800) * 0x400 + low - 0xDC00
  }

  /** A text's bytes; half a surrogate pair is written as U+FFFD. */
  function Utf8(text: Text): seq<Byte> {
    if text == [] then []
    else if |text| > 1 && HighSurrogate(text[0]) && LowSurrogate(text[1])
    then Encoded(PairPoint(text[0], text[1])) + Utf8(text[2..])
    else Encoded(if HighSurrogate(text[0]) || LowSurrogate(text[0]) then 0xFFFD else text[0]) + Utf8(text[1..])
  }

  lemma {:induction false} Utf8Counted(text: Text)
    ensures |Utf8(text)| == Utf8Bytes(text)
  {
    if |text| > 1 && HighSurrogate(text[0]) && LowSurrogate(text[1]) {
      Utf8Counted(text[2..]);
    } else if text != [] {
      Utf8Counted(text[1..]);
    }
  }

  // ── JSON.stringify ───────────────────────────────────────────────────────

  /** Lower-case hexadecimal. */
  function HexDigit(n: int): Unit
    requires 0 <= n < 16
  {
    if n < 10 then 0x30 + n else 0x61 + n - 10
  }

  /** A code unit on its own inside a string. */
  function Escaped(u: Unit): Text {
    match u
    case 0x22 => [0x5C, 0x22]
    case 0x5C => [0x5C, 0x5C]
    case 0x08 => [0x5C, 0x62]
    case 0x09 => [0x5C, 0x74]
    case 0x0A => [0x5C, 0x6E]
    case 0x0C => [0x5C, 0x66]
    case 0x0D => [0x5C, 0x72]
    case _ =>
      if u < 0x20 || 0xD800 <= u < 0xE000
      then [0x5C, 0x75, HexDigit(u / 0x1000), HexDigit(u / 0x100 % 16), HexDigit(u / 0x10 % 16), HexDigit(u % 16)]
      else [u]
  }

  function Quoted(text: Text): Text {
    if text == [] then []
    else if |text| > 1 && HighSurrogate(text[0]) && LowSurrogate(text[1]) then text[..2] + Quoted(text[2..])
    else Escaped(text[0]) + Quoted(text[1..])
  }

  function Decimal(n: nat): Text {
    if n < 10 then [0x30 + n] else Decimal(n / 10) + [0x30 + n % 10]
  }

  function Stringify(json: Json): Text
    decreases json
  {
    match json
    case Null => T("null")
    case True => T("true")
    case Num(n) => Decimal(n)
    case Str(text) => [0x22] + Quoted(text) + [0x22]
    case Arr(items) => [0x5B] + StringifyItems(items) + [0x5D]
    case Obj(fields) => [0x7B] + StringifyFields(fields) + [0x7D]
  }

  function StringifyItems(items: seq<Json>): Text
    decreases items
  {
    if items == [] then []
    else Stringify(items[0]) + if |items| == 1 then [] else [0x2C] + StringifyItems(items[1..])
  }

  function StringifyField(f: Field): Text
    decreases f
  {
    [0x22] + Quoted(f.key) + [0x22, 0x3A] + Stringify(f.value)
  }

  function StringifyFields(fields: seq<Field>): Text
    decreases fields
  {
    if fields == [] then []
    else StringifyField(fields[0]) + if |fields| == 1 then [] else [0x2C] + StringifyFields(fields[1..])
  }

  // ── The sizes count the bytes ────────────────────────────────────────────

  /** No half of a surrogate pair at either end of a join. */
  predicate Closed(text: Text) { text == [] || !HighSurrogate(text[|text| - 1]) }

  lemma {:induction false} Utf8Concat(a: Text, b: Text)
    requires Closed(a)
    ensures Utf8Bytes(a + b) == Utf8Bytes(a) + Utf8Bytes(b)
  {
    if a == [] {
      assert a + b == b;
    } else if |a| > 1 && HighSurrogate(a[0]) && LowSurrogate(a[1]) {
      assert (a + b)[2..] == a[2..] + b;
      Utf8Concat(a[2..], b);
    } else {
      assert (a + b)[1..] == a[1..] + b;
      assert |a| == 1 ==> !HighSurrogate(a[0]);
      Utf8Concat(a[1..], b);
    }
  }

  lemma EscapedCounted(u: Unit)
    ensures Closed(Escaped(u)) && Utf8Bytes(Escaped(u)) == UnitBytes(u)
  {
    PlainBytes(Escaped(u));
  }

  /** ASCII is a byte a unit. */
  lemma {:induction false} PlainBytes(text: Text)
    ensures (forall i :: 0 <= i < |text| ==> text[i] < 0x80) ==> Utf8Bytes(text) == |text|
  {
    if text != [] {
      PlainBytes(text[1..]);
    }
  }

  lemma {:induction false} QuotedCounted(text: Text)
    ensures Closed(Quoted(text)) && Utf8Bytes(Quoted(text)) == UnitsBytes(text)
  {
    hide Escaped, UnitBytes, Utf8Bytes;
    if text == [] {
      assert Utf8Bytes([]) == 0 by {
        hide *;
        PlainBytes([]);
      }
    } else if |text| > 1 && HighSurrogate(text[0]) && LowSurrogate(text[1]) {
      QuotedCounted(text[2..]);
      PairCounted(text[0], text[1]);
      assert text[..2] == [text[0], text[1]];
      ClosedConcat(text[..2], Quoted(text[2..]));
    } else {
      QuotedCounted(text[1..]);
      EscapedCounted(text[0]);
      ClosedConcat(Escaped(text[0]), Quoted(text[1..]));
    }
  }

  lemma ClosedConcat(a: Text, b: Text)
    requires Closed(a) && Closed(b)
    ensures Closed(a + b) && Utf8Bytes(a + b) == Utf8Bytes(a) + Utf8Bytes(b)
  {
    Utf8Concat(a, b);
    hide Utf8Bytes;
  }

  lemma PairCounted(high: Unit, low: Unit)
    requires HighSurrogate(high) && LowSurrogate(low)
    ensures Closed([high, low]) && Utf8Bytes([high, low]) == 4
  {
    assert [high, low][2..] == [];
  }

  lemma {:induction false} DecimalCounted(n: nat)
    ensures |Decimal(n)| == Digits(n) && forall i :: 0 <= i < |Decimal(n)| ==> Decimal(n)[i] < 0x80
  {
    if n >= 10 {
      DecimalCounted(n / 10);
    }
  }

  lemma Around(open: Unit, text: Text, close: Unit)
    requires open < 0x80 && close < 0x80 && Closed(text)
    ensures Closed([open] + text + [close]) && Utf8Bytes([open] + text + [close]) == Utf8Bytes(text) + 2
  {
    PlainBytes([open]);
    PlainBytes([close]);
    Utf8Concat([open], text);
    Utf8Concat([open] + text, [close]);
    hide Utf8Bytes;
  }

  lemma Beside(a: Text, plain: Unit, b: Text)
    requires Closed(a) && Closed(b) && plain < 0x80
    ensures Closed(a + [plain] + b) && Utf8Bytes(a + [plain] + b) == Utf8Bytes(a) + 1 + Utf8Bytes(b)
  {
    PlainBytes([plain]);
    Utf8Concat(a, [plain]);
    Utf8Concat(a + [plain], b);
    hide Utf8Bytes;
  }

  lemma SumCons(first: nat, rest: seq<nat>)
    ensures Joined([first] + rest) == first + (if rest == [] then 0 else 1) + Joined(rest)
  {
    SumConcat([first], rest);
    assert [first][..0] == [];
    hide Sum;
  }

  lemma {:induction false} FieldCounted(f: Field)
    ensures Closed(StringifyField(f)) && Utf8Bytes(StringifyField(f)) == FieldCost(f)
    decreases f
  {
    Counted(f.value);
    QuotedCounted(f.key);
    Around(0x22, Quoted(f.key), 0x22);
    hide Utf8Bytes, Quoted, Stringify, Bytes;
    var key := [0x22] + Quoted(f.key) + [0x22];
    Beside(key, 0x3A, Stringify(f.value));
    assert StringifyField(f) == key + [0x3A] + Stringify(f.value);
  }

  lemma {:induction false} FieldsCounted(fields: seq<Field>)
    ensures Closed(StringifyFields(fields)) && Utf8Bytes(StringifyFields(fields)) == Joined(FieldSizes(fields))
    decreases fields
  {
    if fields != [] {
      FieldCounted(fields[0]);
      assert FieldSizes(fields) == [FieldCost(fields[0])] + FieldSizes(fields[1..]);
      SumCons(FieldCost(fields[0]), FieldSizes(fields[1..]));
      FieldsCounted(fields[1..]);
      hide Utf8Bytes, StringifyField, FieldCost, FieldSizes, Joined;
      if |fields| == 1 {
        assert fields[1..] == [];
        assert StringifyFields(fields) == StringifyField(fields[0]);
        NothingJoined();
      } else {
        Beside(StringifyField(fields[0]), 0x2C, StringifyFields(fields[1..]));
        assert StringifyFields(fields) == StringifyField(fields[0]) + [0x2C] + StringifyFields(fields[1..]);
        SizesOf(fields[1..]);
      }
    }
  }

  lemma NothingJoined()
    ensures FieldSizes([]) == [] && Sizes([]) == [] && Joined([]) == 0
  {
  }

  lemma SizesOf(fields: seq<Field>)
    ensures |FieldSizes(fields)| == |fields|
  {
  }

  lemma {:induction false} ItemsCounted(items: seq<Json>)
    ensures Closed(StringifyItems(items)) && Utf8Bytes(StringifyItems(items)) == Joined(Sizes(items))
    decreases items
  {
    if items != [] {
      Counted(items[0]);
      assert Sizes(items) == [Bytes(items[0])] + Sizes(items[1..]);
      assert |Sizes(items[1..])| == |items| - 1;
      SumCons(Bytes(items[0]), Sizes(items[1..]));
      ItemsCounted(items[1..]);
      hide Utf8Bytes, Stringify, Bytes, Sizes, Joined;
      if |items| == 1 {
        assert items[1..] == [];
        assert StringifyItems(items) == Stringify(items[0]);
        NothingJoined();
      } else {
        Beside(Stringify(items[0]), 0x2C, StringifyItems(items[1..]));
        assert StringifyItems(items) == Stringify(items[0]) + [0x2C] + StringifyItems(items[1..]);
      }
    }
  }

  lemma {:induction false} Counted(json: Json)
    ensures Closed(Stringify(json)) && Utf8Bytes(Stringify(json)) == Bytes(json)
    decreases json
  {
    match json
    case Null => PlainBytes(T("null"));
    case True => PlainBytes(T("true"));
    case Num(n) =>
      DecimalCounted(n);
      PlainBytes(Decimal(n));
    case Str(text) =>
      QuotedCounted(text);
      Around(0x22, Quoted(text), 0x22);
    case Arr(items) =>
      ItemsCounted(items);
      Around(0x5B, StringifyItems(items), 0x5D);
    case Obj(fields) =>
      FieldsCounted(fields);
      Around(0x7B, StringifyFields(fields), 0x7D);
  }

  /** The size of a value is the number of bytes its JSON text is stored as. */
  lemma SizeIsStored(json: Json)
    ensures |Utf8(Stringify(json))| == Bytes(json)
  {
    hide *;
    Counted(json);
    Utf8Counted(Stringify(json));
  }
}
