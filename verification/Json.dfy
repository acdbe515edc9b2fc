/** JSON values as the ledger stores them, and the UTF-8 bytes their text costs
    (`snapshotBytes`: the byte length of JSON.stringify). */
module Json {
  import opened Wrappers

  /** One UTF-16 code unit, the unit a JavaScript string is made of. */
  type Unit = u: int | 0 <= u < 0x1_0000

  type Text = seq<Unit>

  datatype Field = Field(key: Text, value: Json)

  datatype Json =
    | Null
    | True
    | Num(n: nat)
    | Str(text: Text)
    | Arr(items: seq<Json>)
    | Obj(fields: seq<Field>)

  /** The code units of a key written in this project, all plain ASCII. */
  function T(s: string): (t: Text)
    ensures |t| == |s|
  {
    seq(|s|, i requires 0 <= i < |s| => if s[i] as int < 0x80 then s[i] as int else 0x3F)
  }

  function OrNull(text: Option<Text>): Json {
    if text.Some? then Str(text.value) else Null
  }

  // ── What text costs ──────────────────────────────────────────────────────

  predicate HighSurrogate(u: Unit) { 0xD800 <= u < 0xDC00 }

  predicate LowSurrogate(u: Unit) { 0xDC00 <= u < 0xE000 }

  /** The UTF-8 length of a text. */
  function Utf8Bytes(text: Text): nat {
    if text == [] then 0
    else if |text| > 1 && HighSurrogate(text[0]) && LowSurrogate(text[1]) then 4 + Utf8Bytes(text[2..])
    else (if text[0] < 0x80 then 1 else if text[0] < 0x800 then 2 else 3) + Utf8Bytes(text[1..])
  }

  /** One code unit on its own: the two-character escapes, the six-character
      escapes (other controls, halves of a surrogate pair), else its UTF-8. */
  function UnitBytes(u: Unit): nat {
    if u == 0x22 || u == 0x5C || u == 8 || u == 9 || u == 10 || u == 12 || u == 13 then 2
    else if u < 0x20 || HighSurrogate(u) || LowSurrogate(u) then 6
    else if u < 0x80 then 1
    else if u < 0x800 then 2
    else 3
  }

  function UnitsBytes(text: Text): nat {
    if |text| == 0 then 0
    else if |text| > 1 && HighSurrogate(text[0]) && LowSurrogate(text[1]) then 4 + UnitsBytes(text[2..])
    else UnitBytes(text[0]) + UnitsBytes(text[1..])
  }

  function StrBytes(text: Text): nat { 2 + UnitsBytes(text) }

  function Digits(n: nat): nat {
    if n < 10 then 1 else 1 + Digits(n / 10)
  }

  function Sum(sizes: seq<nat>): nat {
    if |sizes| == 0 then 0 else Sum(sizes[..|sizes| - 1]) + sizes[|sizes| - 1]
  }

  /** Entries and the commas between them. */
  function Joined(sizes: seq<nat>): nat {
    Sum(sizes) + if |sizes| == 0 then 0 else |sizes| - 1
  }

  function Bytes(json: Json): nat
    decreases json
  {
    match json
    case Null => 4
    case True => 4
    case Num(n) => Digits(n)
    case Str(text) => StrBytes(text)
    case Arr(items) => 2 + Joined(Sizes(items))
    case Obj(fields) => 2 + Joined(FieldSizes(fields))
  }

  function Sizes(items: seq<Json>): seq<nat>
    decreases items
  {
    seq(|items|, i requires 0 <= i < |items| => Bytes(items[i]))
  }

  function FieldSizes(fields: seq<Field>): seq<nat>
    decreases fields
  {
    seq(|fields|, i requires 0 <= i < |fields| => StrBytes(fields[i].key) + 1 + Bytes(fields[i].value))
  }

  function FieldCost(f: Field): nat { StrBytes(f.key) + 1 + Bytes(f.value) }

  /** The entries of a JSON array made from `items`, each written by `json`. */
  function Each<A>(json: A -> Json, items: seq<A>): seq<Json> {
    seq(|items|, i requires 0 <= i < |items| => json(items[i]))
  }

  function EachCost<A>(json: A -> Json, items: seq<A>): nat { Joined(Sizes(Each(json, items))) }

  function FieldsCost(fields: seq<Field>): nat { Sum(FieldSizes(fields)) }

  // ── Laws of the sizes ────────────────────────────────────────────────────

  lemma {:induction false} SumConcat(a: seq<nat>, b: seq<nat>)
    ensures Sum(a + b) == Sum(a) + Sum(b)
  {
    if |b| == 0 {
      assert a + b == a;
    } else {
      assert (a + b)[..|a + b| - 1] == a + b[..|b| - 1];
      SumConcat(a, b[..|b| - 1]);
    }
  }

  lemma FieldsCostConcat(a: seq<Field>, b: seq<Field>)
    ensures FieldsCost(a + b) == FieldsCost(a) + FieldsCost(b)
  {
    assert FieldSizes(a + b) == FieldSizes(a) + FieldSizes(b);
    SumConcat(FieldSizes(a), FieldSizes(b));
  }

  lemma FieldsCostOne(f: Field)
    ensures FieldsCost([f]) == FieldCost(f)
  {
    var sizes := FieldSizes([f]);
    assert sizes[..0] == [] && Sum(sizes[..0]) == 0;
    assert Sum(sizes) == Sum(sizes[..|sizes| - 1]) + sizes[0];
  }

  /** An object by its fields' costs, whatever their order. */
  lemma ObjBytes(fields: seq<Field>)
    ensures Bytes(Obj(fields)) == 2 + FieldsCost(fields) + if fields == [] then 0 else |fields| - 1
  {
    assert |FieldSizes(fields)| == |fields|;
  }

  /** What filling one array-valued field of an object adds: its entries and
      their commas, whatever stands before and after the field. */
  lemma FrameCost(before: seq<Field>, key: Text, items: seq<Json>, after: seq<Field>)
    ensures Bytes(Obj(before + [Field(key, Arr(items))] + after))
         == Bytes(Obj(before + [Field(key, Arr([]))] + after)) + Joined(Sizes(items))
  {
    var full, empty := Field(key, Arr(items)), Field(key, Arr([]));
    FieldsCostConcat(before + [full], after);
    FieldsCostConcat(before, [full]);
    FieldsCostConcat(before + [empty], after);
    FieldsCostConcat(before, [empty]);
    FieldsCostOne(full);
    FieldsCostOne(empty);
    assert Sizes([]) == [];
  }

  lemma EachNone<A>(json: A -> Json)
    ensures Each(json, []) == []
  {
    assert |Each(json, [])| == 0;
  }

  lemma EachCostSnoc<A>(json: A -> Json, items: seq<A>, item: A)
    ensures EachCost(json, items + [item])
         == EachCost(json, items) + Bytes(json(item)) + if items == [] then 0 else 1
  {
    var sizes := Sizes(Each(json, items + [item]));
    assert sizes[..|sizes| - 1] == Sizes(Each(json, items));
  }

  lemma {:induction false} SumMonotone(a: seq<nat>, n: nat)
    requires n <= |a|
    ensures Sum(a[..n]) <= Sum(a)
  {
    SumConcat(a[..n], a[n..]);
    assert a == a[..n] + a[n..];
  }

  lemma {:induction false} DigitsMonotone(a: nat, b: nat)
    requires a <= b
    ensures Digits(a) <= Digits(b)
  {
    if b >= 10 {
      DigitsMonotone(a / 10, b / 10);
    }
  }

  /** However a text is cut, a code unit never costs more than six bytes. */
  lemma {:induction false} UnitsBytesBound(text: Text)
    ensures UnitsBytes(text) <= 6 * |text|
  {
    if |text| > 1 && HighSurrogate(text[0]) && LowSurrogate(text[1]) {
      UnitsBytesBound(text[2..]);
    } else if |text| > 0 {
      UnitsBytesBound(text[1..]);
    }
  }
}
