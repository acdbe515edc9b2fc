/** A stored JSON array, split into the text of its own entries by one pass
    over the column (sections 2 to 7 of RFC 8259). */
module JsonArray {
  import opened Wrappers
  import opened Json

  const QUOTE: Unit := 0x22
  const COMMA: Unit := 0x2C
  const COLON: Unit := 0x3A
  const OPEN_BRACKET: Unit := 0x5B
  const BACKSLASH: Unit := 0x5C
  const CLOSE_BRACKET: Unit := 0x5D
  const OPEN_BRACE: Unit := 0x7B
  const CLOSE_BRACE: Unit := 0x7D

  /** What JSON.parse makes of a text; V stands for the parsed values. */
  datatype Parsed<V> = Invalid | NotArray | Values(values: seq<V>)

  datatype Element<V> = Element(raw: Text, value: V)

  // ── Trimming ─────────────────────────────────────────────────────────────

  /** What String.prototype.trim takes off: the white space and line
      terminators of ECMAScript. */
  predicate Space(u: int) {
    || 9 <= u <= 13 || u == 0x20 || u == 0xA0 || u == 0x1680 || 0x2000 <= u <= 0x200A
    || u == 0x2028 || u == 0x2029 || u == 0x202F || u == 0x205F || u == 0x3000 || u == 0xFEFF
  }

  function TrimStart(text: Text): Text {
    if text != [] && Space(text[0]) then TrimStart(text[1..]) else text
  }

  function TrimEnd(text: Text): Text {
    if text != [] && Space(text[|text| - 1]) then TrimEnd(text[..|text| - 1]) else text
  }

  function Trim(text: Text): Text { TrimEnd(TrimStart(text)) }

  /** Nothing but what trim takes off. */
  predicate Blank(text: Text) { forall i :: 0 <= i < |text| ==> Space(text[i]) }

  lemma {:induction false} TrimBlank(text: Text)
    ensures Trim(text) == [] <==> Blank(text)
  {
    StartBlank(text);
    EndBlank(TrimStart(text));
  }

  lemma {:induction false} StartBlank(text: Text)
    ensures Blank(TrimStart(text)) <==> Blank(text)
  {
    if text != [] && Space(text[0]) {
      StartBlank(text[1..]);
      assert forall i :: 1 <= i < |text| ==> text[i] == text[1..][i - 1];
    }
  }

  lemma {:induction false} EndBlank(text: Text)
    ensures TrimEnd(text) == [] <==> Blank(text)
  {
    if text != [] && Space(text[|text| - 1]) {
      EndBlank(text[..|text| - 1]);
      assert forall i :: 0 <= i < |text| - 1 ==> text[i] == text[..|text| - 1][i];
    }
  }

  // ── The scanner ──────────────────────────────────────────────────────────

  /** The scanner's three variables. */
  datatype Mode = Mode(depth: nat, inString: bool, escaped: bool)

  datatype Action = Pass(next: Mode) | Cut | Stop

  function Act(mode: Mode, unit: Unit): Action {
    if mode.inString then
      Pass(if mode.escaped then mode.(escaped := false)
           else if unit == BACKSLASH then mode.(escaped := true)
           else if unit == QUOTE then mode.(inString := false)
           else mode)
    else if unit == QUOTE then Pass(mode.(inString := true))
    else if unit == OPEN_BRACKET || unit == OPEN_BRACE then Pass(mode.(depth := mode.depth + 1))
    else if (unit == CLOSE_BRACKET || unit == CLOSE_BRACE) && mode.depth > 0 then Pass(mode.(depth := mode.depth - 1))
    else if unit == CLOSE_BRACKET then Stop
    else if unit == COMMA && mode.depth == 0 then Cut
    else Pass(mode)
  }

  /** Outside any string, `depth` brackets in. */
  function Level(depth: nat): Mode { Mode(depth, false, false) }

  /** The entries still to come when the scanner stands at `index`, the entry
      it is in having begun at `start`. */
  function ScanFrom(text: Text, start: nat, index: nat, mode: Mode): seq<Text>
    requires start <= index <= |text|
    decreases |text| - index
  {
    if index == |text| then []
    else
      match Act(mode, text[index])
      case Pass(next) => ScanFrom(text, start, index + 1, next)
      case Cut => [Trim(text[start..index])] + ScanFrom(text, index + 1, index + 1, mode)
      case Stop => if Trim(text[start..index]) == [] then [] else [Trim(text[start..index])]
  }

  /** Where the scanner ends an entry: every cut, then the stop. */
  function CutsFrom(text: Text, index: nat, mode: Mode): seq<nat>
    requires index <= |text|
    decreases |text| - index
  {
    if index == |text| then []
    else
      match Act(mode, text[index])
      case Pass(next) => CutsFrom(text, index + 1, next)
      case Cut => [index] + CutsFrom(text, index + 1, mode)
      case Stop => [index]
  }

  /** One past the first opening bracket, where the first entry begins; 0 when
      there is none. */
  function Begin(text: Text): (begin: nat)
    ensures begin <= |text|
  {
    if OPEN_BRACKET !in text then 0
    else if text[0] == OPEN_BRACKET then 1
    else 1 + Begin(text[1..])
  }

  function RawsOf(text: Text): seq<Text> { ScanFrom(text, Begin(text), Begin(text), Level(0)) }

  function ElementsOf<V>(text: Text, parsed: Parsed<V>): Option<seq<Element<V>>> {
    if !parsed.Values? || |RawsOf(text)| != |parsed.values| then None
    else Some(seq(|parsed.values|, i requires 0 <= i < |parsed.values| => Element(RawsOf(text)[i], parsed.values[i])))
  }

  method JsonArrayElements<V>(text: Text, parsed: Parsed<V>) returns (elements: Option<seq<Element<V>>>)
    ensures elements == ElementsOf(text, parsed)
  {
    hide Trim, Begin;
    if !parsed.Values? {
      return None;
    }
    var raws: seq<Text> := [];
    var depth: nat, inString, escaped := 0, false, false;
    var start: nat := Begin(text);
    var index: nat := start;
    while index < |text|
      invariant start <= index <= |text|
      invariant raws + ScanFrom(text, start, index, Mode(depth, inString, escaped)) == RawsOf(text)
    {
      var unit := text[index];
      if inString {
        if escaped {
          escaped := false;
        } else if unit == BACKSLASH {
          escaped := true;
        } else if unit == QUOTE {
          inString := false;
        }
      } else if unit == QUOTE {
        inString := true;
      } else if unit == OPEN_BRACKET || unit == OPEN_BRACE {
        depth := depth + 1;
      } else if (unit == CLOSE_BRACKET || unit == CLOSE_BRACE) && depth > 0 {
        depth := depth - 1;
      } else if unit == CLOSE_BRACKET {
        var last := Trim(text[start..index]);
        if last != [] {
          raws := raws + [last];
        }
        assert raws == RawsOf(text);
        break;
      } else if unit == COMMA && depth == 0 {
        raws := raws + [Trim(text[start..index])];
        start := index + 1;
      }
      index := index + 1;
    }
    assert raws == RawsOf(text);
    if |raws| != |parsed.values| {
      return None;
    }
    elements := Some(seq(|raws|, i requires 0 <= i < |raws| => Element(raws[i], parsed.values[i])));
  }

  // ── JSON texts, by their grammar ─────────────────────────────────────────

  /** A string's contents: a unit standing for itself, or a backslash and the
      unit after it (the four digits after \u stand for themselves). */
  datatype Piece = Plain(unit: Unit) | Escaped(unit: Unit)

  datatype Tree =
    | Token(text: Text)
    | Quoted(pieces: seq<Piece>)
    | EmptyArray(gap: Text)
    | ArrayOf(items: seq<Padded>)
    | EmptyObject(gap: Text)
    | ObjectOf(members: seq<Member>)

  datatype Padded = Padded(before: Text, value: Tree, after: Text)

  datatype Member = Member(before: Text, key: seq<Piece>, after: Text, value: Padded)

  predicate Gap(text: Text) { forall i :: 0 <= i < |text| ==> text[i] in [0x20, 9, 10, 13] }

  /** A unit of a number or of true, false or null. */
  predicate TokenUnit(u: Unit) {
    0x30 <= u <= 0x39 || 0x41 <= u <= 0x5A || 0x61 <= u <= 0x7A || u == 0x2B || u == 0x2D || u == 0x2E
  }

  predicate ValidPieces(pieces: seq<Piece>) {
    forall i :: 0 <= i < |pieces| ==> pieces[i].Plain? ==> pieces[i].unit != QUOTE && pieces[i].unit != BACKSLASH
  }

  predicate Valid(tree: Tree)
    decreases tree
  {
    match tree
    case Token(text) => text != [] && forall i :: 0 <= i < |text| ==> TokenUnit(text[i])
    case Quoted(pieces) => ValidPieces(pieces)
    case EmptyArray(gap) => Gap(gap)
    case ArrayOf(items) => items != [] && forall i :: 0 <= i < |items| ==> ValidPadded(items[i])
    case EmptyObject(gap) => Gap(gap)
    case ObjectOf(members) => members != [] && forall i :: 0 <= i < |members| ==> ValidMember(members[i])
  }

  predicate ValidPadded(padded: Padded)
    decreases padded
  {
    Gap(padded.before) && Valid(padded.value) && Gap(padded.after)
  }

  predicate ValidMember(member: Member)
    decreases member
  {
    Gap(member.before) && ValidPieces(member.key) && Gap(member.after) && ValidPadded(member.value)
  }

  function RenderPieces(pieces: seq<Piece>): Text {
    if pieces == [] then []
    else (if pieces[0].Plain? then [pieces[0].unit] else [BACKSLASH, pieces[0].unit]) + RenderPieces(pieces[1..])
  }

  function RenderString(pieces: seq<Piece>): Text { [QUOTE] + RenderPieces(pieces) + [QUOTE] }

  function Render(tree: Tree): Text
    decreases tree
  {
    match tree
    case Token(text) => text
    case Quoted(pieces) => RenderString(pieces)
    case EmptyArray(gap) => [OPEN_BRACKET] + gap + [CLOSE_BRACKET]
    case ArrayOf(items) => [OPEN_BRACKET] + RenderItems(items) + [CLOSE_BRACKET]
    case EmptyObject(gap) => [OPEN_BRACE] + gap + [CLOSE_BRACE]
    case ObjectOf(members) => [OPEN_BRACE] + RenderMembers(members) + [CLOSE_BRACE]
  }

  function RenderPadded(padded: Padded): Text
    decreases padded
  {
    padded.before + Render(padded.value) + padded.after
  }

  function RenderMember(member: Member): Text
    decreases member
  {
    member.before + RenderString(member.key) + member.after + [COLON] + RenderPadded(member.value)
  }

  function RenderItems(items: seq<Padded>): Text
    decreases items
  {
    if items == [] then []
    else RenderPadded(items[0]) + if |items| == 1 then [] else [COMMA] + RenderItems(items[1..])
  }

  function RenderMembers(members: seq<Member>): Text
    decreases members
  {
    if members == [] then []
    else RenderMember(members[0]) + if |members| == 1 then [] else [COMMA] + RenderMembers(members[1..])
  }

  // ── A value leaves the scanner where it found it ─────────────────────────

  /** The mode after `text`, if nothing in it cuts or stops. */
  function Run(mode: Mode, text: Text): Option<Mode>
    decreases |text|
  {
    if text == [] then Some(mode)
    else
      match Act(mode, text[0])
      case Pass(next) => Run(next, text[1..])
      case _ => None
  }

  lemma {:induction false} RunConcat(mode: Mode, a: Text, b: Text)
    requires Run(mode, a).Some?
    ensures Run(mode, a + b) == Run(Run(mode, a).value, b)
    decreases |a|
  {
    if a == [] {
      assert a + b == b;
    } else {
      assert (a + b)[1..] == a[1..] + b;
      RunConcat(Act(mode, a[0]).next, a[1..], b);
    }
  }

  ghost predicate Calm(text: Text, depth: nat) { Run(Level(depth), text) == Some(Level(depth)) }

  lemma CalmConcat(a: Text, b: Text, depth: nat)
    requires Calm(a, depth) && Calm(b, depth)
    ensures Calm(a + b, depth)
  {
    RunConcat(Level(depth), a, b);
  }

  predicate Neutral(u: Unit) {
    u !in [QUOTE, COMMA, OPEN_BRACKET, CLOSE_BRACKET, OPEN_BRACE, CLOSE_BRACE]
  }

  lemma {:induction false} CalmNeutral(text: Text, depth: nat)
    requires forall i :: 0 <= i < |text| ==> Neutral(text[i])
    ensures Calm(text, depth)
  {
    if text != [] {
      CalmNeutral(text[1..], depth);
    }
  }

  lemma CalmComma(depth: nat)
    requires depth > 0
    ensures Calm([COMMA], depth)
  {
    assert [COMMA][1..] == [];
  }

  lemma {:induction false} RunPieces(pieces: seq<Piece>, depth: nat)
    requires ValidPieces(pieces)
    ensures Run(Mode(depth, true, false), RenderPieces(pieces)) == Some(Mode(depth, true, false))
  {
    if pieces != [] {
      var mode := Mode(depth, true, false);
      var rest := RenderPieces(pieces[1..]);
      RunPieces(pieces[1..], depth);
      if pieces[0].Plain? {
        assert ([pieces[0].unit] + rest)[1..] == rest;
      } else {
        var all := [BACKSLASH, pieces[0].unit] + rest;
        assert all[1..] == [pieces[0].unit] + rest;
        assert all[1..][1..] == rest;
        assert Act(mode, all[0]) == Pass(mode.(escaped := true));
        assert Act(mode.(escaped := true), all[1]) == Pass(mode);
        assert Run(mode.(escaped := true), all[1..]) == Run(mode, rest);
      }
    }
  }

  lemma CalmString(pieces: seq<Piece>, depth: nat)
    requires ValidPieces(pieces)
    ensures Calm(RenderString(pieces), depth)
  {
    RunPieces(pieces, depth);
    var body := RenderPieces(pieces);
    RunConcat(Mode(depth, true, false), body, [QUOTE]);
    assert ([QUOTE] + body + [QUOTE])[1..] == body + [QUOTE];
    assert [QUOTE][1..] == [];
    assert Run(Mode(depth, true, false), [QUOTE]) == Some(Level(depth));
  }

  lemma CalmNested(open: Unit, body: Text, close: Unit, depth: nat)
    requires open == OPEN_BRACKET || open == OPEN_BRACE
    requires close == CLOSE_BRACKET || close == CLOSE_BRACE
    requires Calm(body, depth + 1)
    ensures Calm([open] + body + [close], depth)
  {
    RunConcat(Level(depth + 1), body, [close]);
    assert ([open] + body + [close])[1..] == body + [close];
    assert [close][1..] == [];
    assert Run(Level(depth + 1), [close]) == Some(Level(depth));
  }

  lemma CalmGap(gap: Text, depth: nat)
    requires Gap(gap)
    ensures Calm(gap, depth)
  {
    CalmNeutral(gap, depth);
  }

  /** Whatever nesting, strings and escapes a value holds, the scanner passes it
      without a cut or a stop and comes out as it went in. */
  lemma {:induction false} CalmTree(tree: Tree, depth: nat)
    requires Valid(tree)
    ensures Calm(Render(tree), depth)
    decreases tree
  {
    hide Calm;
    match tree
    case Token(text) => CalmNeutral(text, depth);
    case Quoted(pieces) => CalmString(pieces, depth);
    case EmptyArray(gap) =>
      CalmGap(gap, depth + 1);
      CalmNested(OPEN_BRACKET, gap, CLOSE_BRACKET, depth);
    case ArrayOf(items) =>
      CalmItems(items, depth + 1);
      CalmNested(OPEN_BRACKET, RenderItems(items), CLOSE_BRACKET, depth);
    case EmptyObject(gap) =>
      CalmGap(gap, depth + 1);
      CalmNested(OPEN_BRACE, gap, CLOSE_BRACE, depth);
    case ObjectOf(members) =>
      CalmMembers(members, depth + 1);
      CalmNested(OPEN_BRACE, RenderMembers(members), CLOSE_BRACE, depth);
  }

  lemma {:induction false} CalmPadded(padded: Padded, depth: nat)
    requires ValidPadded(padded)
    ensures Calm(RenderPadded(padded), depth)
    decreases padded
  {
    hide Calm;
    CalmGap(padded.before, depth);
    CalmTree(padded.value, depth);
    CalmGap(padded.after, depth);
    CalmConcat(padded.before, Render(padded.value), depth);
    CalmConcat(padded.before + Render(padded.value), padded.after, depth);
  }

  lemma {:induction false} CalmItems(items: seq<Padded>, depth: nat)
    requires depth > 0 && forall i :: 0 <= i < |items| ==> ValidPadded(items[i])
    ensures Calm(RenderItems(items), depth)
    decreases items
  {
    if items != [] {
      hide Calm, ValidPadded;
      CalmPadded(items[0], depth);
      if |items| == 1 {
        assert RenderItems(items) == RenderPadded(items[0]);
      } else {
        CalmItems(items[1..], depth);
        CalmComma(depth);
        CalmConcat([COMMA], RenderItems(items[1..]), depth);
        CalmConcat(RenderPadded(items[0]), [COMMA] + RenderItems(items[1..]), depth);
      }
    }
  }

  lemma {:induction false} CalmMember(member: Member, depth: nat)
    requires ValidMember(member)
    ensures Calm(RenderMember(member), depth)
    decreases member
  {
    hide Calm;
    CalmGap(member.before, depth);
    CalmString(member.key, depth);
    CalmGap(member.after, depth);
    CalmNeutral([COLON], depth);
    CalmPadded(member.value, depth);
    CalmConcat(member.before, RenderString(member.key), depth);
    CalmConcat(member.before + RenderString(member.key), member.after, depth);
    CalmConcat(member.before + RenderString(member.key) + member.after, [COLON], depth);
    CalmConcat(member.before + RenderString(member.key) + member.after + [COLON], RenderPadded(member.value), depth);
  }

  lemma {:induction false} CalmMembers(members: seq<Member>, depth: nat)
    requires depth > 0 && forall i :: 0 <= i < |members| ==> ValidMember(members[i])
    ensures Calm(RenderMembers(members), depth)
    decreases members
  {
    if members != [] {
      hide Calm, ValidMember;
      CalmMember(members[0], depth);
      if |members| == 1 {
        assert RenderMembers(members) == RenderMember(members[0]);
      } else {
        CalmMembers(members[1..], depth);
        CalmComma(depth);
        CalmConcat([COMMA], RenderMembers(members[1..]), depth);
        CalmConcat(RenderMember(members[0]), [COMMA] + RenderMembers(members[1..]), depth);
      }
    }
  }

  // ── Trimming gives a padded value back ───────────────────────────────────

  ghost predicate Solid(text: Text) { text != [] && !Space(text[0]) && !Space(text[|text| - 1]) }

  lemma RenderSolid(tree: Tree)
    requires Valid(tree)
    ensures Solid(Render(tree))
  {
    match tree
    case Token(text) => assert TokenUnit(text[0]) && TokenUnit(text[|text| - 1]);
    case _ =>
  }

  lemma {:induction false} TrimPadded(before: Text, body: Text, after: Text)
    requires Gap(before) && Solid(body) && Gap(after)
    ensures Trim(before + body + after) == body
  {
    var text := before + body + after;
    if before != [] {
      assert text[1..] == before[1..] + body + after;
      TrimPadded(before[1..], body, after);
    } else {
      assert text == body + after;
      assert TrimStart(text) == text;
      TrimEndPadded(body, after);
    }
  }

  lemma {:induction false} TrimEndPadded(body: Text, after: Text)
    requires Solid(body) && Gap(after)
    ensures TrimEnd(body + after) == body
  {
    if after == [] {
      assert body + after == body;
    } else {
      assert (body + after)[..|body + after| - 1] == body + after[..|after| - 1];
      TrimEndPadded(body, after[..|after| - 1]);
    }
  }

  // ── The scanner splits at the top level and nowhere else ─────────────────

  lemma {:induction false} ScanPast(text: Text, start: nat, index: nat, mode: Mode, body: Text)
    requires start <= index && index + |body| <= |text| && text[index..index + |body|] == body
    requires Run(mode, body).Some?
    ensures ScanFrom(text, start, index, mode) == ScanFrom(text, start, index + |body|, Run(mode, body).value)
    ensures CutsFrom(text, index, mode) == CutsFrom(text, index + |body|, Run(mode, body).value)
    decreases |body|
  {
    if body != [] {
      assert text[index] == body[0];
      assert text[index + 1..index + 1 + |body[1..]|] == body[1..];
      ScanPast(text, start, index + 1, Act(mode, body[0]).next, body[1..]);
    }
  }

  function Raws(items: seq<Padded>): seq<Text> {
    seq(|items|, i requires 0 <= i < |items| => Render(items[i].value))
  }

  /** Where the entries end when the first begins at `index`: at the commas
      between them, and at the closing bracket. */
  function Ends(items: seq<Padded>, index: nat): seq<nat> {
    if items == [] then []
    else [index + |RenderPadded(items[0])|] + Ends(items[1..], index + |RenderPadded(items[0])| + 1)
  }

  lemma {:induction false} ScanItems(text: Text, index: nat, items: seq<Padded>, after: Text)
    requires items != [] && forall i :: 0 <= i < |items| ==> ValidPadded(items[i])
    requires index <= |text| && text[index..] == RenderItems(items) + [CLOSE_BRACKET] + after
    ensures ScanFrom(text, index, index, Level(0)) == Raws(items)
    ensures CutsFrom(text, index, Level(0)) == Ends(items, index)
    decreases |items|
  {
    hide ValidPadded, Render, RenderPadded, ScanFrom, CutsFrom, Level;
    var first := items[0];
    RawsCons(items);
    hide Raws;
    if |items| == 1 {
      assert RenderItems(items) == RenderPadded(first);
      ScanLast(text, index, first, after);
    } else {
      var rest := RenderItems(items[1..]) + [CLOSE_BRACKET] + after;
      assert RenderItems(items) + [CLOSE_BRACKET] + after == RenderPadded(first) + [COMMA] + rest;
      hide RenderItems;
      ScanComma(text, index, first, rest);
      ScanItems(text, index + |RenderPadded(first)| + 1, items[1..], after);
    }
  }

  lemma RawsCons(items: seq<Padded>)
    requires items != []
    ensures Raws(items) == [Render(items[0].value)] + Raws(items[1..])
    ensures |items| == 1 ==> Raws(items[1..]) == [] && forall index: nat :: Ends(items[1..], index) == []
  {
    hide Render, RenderPadded;
  }

  /** One entry, up to the unit that ends it. */
  lemma ScanFirst(text: Text, index: nat, first: Padded, rest: Text)
    requires ValidPadded(first)
    requires index <= |text| && text[index..] == RenderPadded(first) + rest
    ensures
      var end := index + |RenderPadded(first)|;
      && Trim(text[index..end]) == Render(first.value) != []
      && ScanFrom(text, index, index, Level(0)) == ScanFrom(text, index, end, Level(0))
      && CutsFrom(text, index, Level(0)) == CutsFrom(text, end, Level(0))
      && text[end..] == rest
  {
    hide Valid, Render, Trim, ScanFrom, CutsFrom;
    var body := RenderPadded(first);
    CalmPadded(first, 0);
    assert text[index..index + |body|] == body by {
      assert text[index..][..|body|] == body;
    }
    ScanPast(text, index, index, Level(0), body);
    RenderSolid(first.value);
    TrimPadded(first.before, Render(first.value), first.after);
  }

  lemma ScanComma(text: Text, index: nat, first: Padded, rest: Text)
    requires ValidPadded(first)
    requires index <= |text| && text[index..] == RenderPadded(first) + [COMMA] + rest
    ensures
      var end := index + |RenderPadded(first)|;
      && ScanFrom(text, index, index, Level(0))
         == [Render(first.value)] + ScanFrom(text, end + 1, end + 1, Level(0))
      && CutsFrom(text, index, Level(0)) == [end] + CutsFrom(text, end + 1, Level(0))
      && text[end + 1..] == rest
  {
    hide ValidPadded, Render, RenderPadded, Trim;
    assert RenderPadded(first) + [COMMA] + rest == RenderPadded(first) + ([COMMA] + rest);
    ScanFirst(text, index, first, [COMMA] + rest);
    var end := index + |RenderPadded(first)|;
    assert text[end] == text[end..][0] == COMMA;
    assert text[end + 1..] == text[end..][1..];
  }

  lemma ScanLast(text: Text, index: nat, first: Padded, after: Text)
    requires ValidPadded(first)
    requires index <= |text| && text[index..] == RenderPadded(first) + [CLOSE_BRACKET] + after
    ensures ScanFrom(text, index, index, Level(0)) == [Render(first.value)]
    ensures CutsFrom(text, index, Level(0)) == [index + |RenderPadded(first)|]
  {
    hide ValidPadded, Render, RenderPadded, Trim;
    assert RenderPadded(first) + [CLOSE_BRACKET] + after == RenderPadded(first) + ([CLOSE_BRACKET] + after);
    ScanFirst(text, index, first, [CLOSE_BRACKET] + after);
    var end := index + |RenderPadded(first)|;
    assert text[end] == text[end..][0] == CLOSE_BRACKET;
  }

  lemma {:induction false} BeginAfter(before: Text, rest: Text)
    requires Gap(before)
    ensures Begin(before + [OPEN_BRACKET] + rest) == |before| + 1
  {
    var text := before + [OPEN_BRACKET] + rest;
    assert text[|before|] == OPEN_BRACKET;
    if before != [] {
      assert text[1..] == before[1..] + [OPEN_BRACKET] + rest;
      BeginAfter(before[1..], rest);
    }
  }

  /** Every JSON array text, entries and the white space around it included,
      splits into its entries' own text, and the scanner acts only at the
      commas between them and at the array's closing bracket. */
  lemma ArraySplits(before: Text, items: seq<Padded>, after: Text)
    requires Gap(before) && items != [] && forall i :: 0 <= i < |items| ==> ValidPadded(items[i])
    ensures
      var text := before + Render(ArrayOf(items)) + after;
      && RawsOf(text) == Raws(items)
      && CutsFrom(text, Begin(text), Level(0)) == Ends(items, |before| + 1)
      && |Ends(items, |before| + 1)| == |items|
      && Ends(items, |before| + 1)[|items| - 1] == |text| - |after| - 1
  {
    hide ValidPadded, Raws, ScanFrom, CutsFrom, RenderItems, Begin, Ends;
    var body := RenderItems(items);
    var text := before + Render(ArrayOf(items)) + after;
    var tail := body + [CLOSE_BRACKET] + after;
    LastEnd(items, |before| + 1);
    assert text == before + [OPEN_BRACKET] + tail;
    BeginAfter(before, tail);
    assert text[|before| + 1..] == tail;
    ScanItems(text, |before| + 1, items, after);
  }

  lemma {:induction false} LastEnd(items: seq<Padded>, index: nat)
    requires items != []
    ensures |Ends(items, index)| == |items|
    ensures Ends(items, index)[|items| - 1] == index + |RenderItems(items)|
  {
    hide RenderPadded;
    var first, rest := |RenderPadded(items[0])|, items[1..];
    assert Ends(items, index) == [index + first] + Ends(rest, index + first + 1);
    if |items| == 1 {
      assert Ends(rest, index + first + 1) == [];
    } else {
      assert |RenderItems(items)| == first + 1 + |RenderItems(rest)|;
      LastEnd(rest, index + first + 1);
    }
  }

  lemma EmptyArraySplits(before: Text, gap: Text, after: Text)
    requires Gap(before) && Gap(gap)
    ensures RawsOf(before + Render(EmptyArray(gap)) + after) == []
  {
    var text := before + Render(EmptyArray(gap)) + after;
    assert text == before + [OPEN_BRACKET] + (gap + [CLOSE_BRACKET] + after);
    BeginAfter(before, gap + [CLOSE_BRACKET] + after);
    var index := |before| + 1;
    assert text[index..index + |gap|] == gap;
    CalmGap(gap, 0);
    ScanPast(text, index, index, Level(0), gap);
    TrimGap(gap);
  }

  lemma {:induction false} TrimGap(gap: Text)
    requires Gap(gap)
    ensures Trim(gap) == []
  {
    if gap != [] {
      TrimGap(gap[1..]);
    }
  }

  // ── Joining the entries again ────────────────────────────────────────────

  function Join(raws: seq<Text>): Text {
    if raws == [] then [] else raws[0] + if |raws| == 1 then [] else [COMMA] + Join(raws[1..])
  }

  function ArrayText(raws: seq<Text>): Text { [OPEN_BRACKET] + Join(raws) + [CLOSE_BRACKET] }

  /** The text of one JSON value, nothing around it. */
  ghost predicate ValueText(raw: Text) { exists tree :: Valid(tree) && Render(tree) == raw }

  ghost function TreeOf(raw: Text): (tree: Tree)
    requires ValueText(raw)
    ensures Valid(tree) && Render(tree) == raw
  {
    var tree :| Valid(tree) && Render(tree) == raw;
    tree
  }

  lemma {:induction false} JoinIsItems(items: seq<Padded>)
    requires forall i :: 0 <= i < |items| ==> items[i].before == [] && items[i].after == []
    ensures RenderItems(items) == Join(Raws(items))
  {
    if items != [] {
      hide Render;
      JoinIsItems(items[1..]);
      assert RenderPadded(items[0]) == Render(items[0].value);
      assert Raws(items)[1..] == Raws(items[1..]);
    }
  }

  /** Value texts joined with commas in brackets scan back to themselves. */
  lemma JoinedRescans(raws: seq<Text>)
    requires forall i :: 0 <= i < |raws| ==> ValueText(raws[i])
    ensures RawsOf(ArrayText(raws)) == raws
  {
    hide RawsOf, ValueText;
    if raws == [] {
      EmptyArraySplits([], [], []);
      assert ArrayText(raws) == [] + Render(EmptyArray([])) + [];
    } else {
      var items := seq(|raws|, i requires 0 <= i < |raws| => Padded([], TreeOf(raws[i]), []));
      assert Raws(items) == raws;
      JoinIsItems(items);
      ArraySplits([], items, []);
      assert ArrayText(raws) == [] + Render(ArrayOf(items)) + [];
    }
  }

  /** Splitting and rejoining a JSON array loses nothing but white space
      between entries, and nothing at all the second time. */
  lemma RejoinedRescans(before: Text, items: seq<Padded>, after: Text)
    requires Gap(before) && items != [] && forall i :: 0 <= i < |items| ==> ValidPadded(items[i])
    ensures
      var raws := RawsOf(before + Render(ArrayOf(items)) + after);
      raws == Raws(items) && RawsOf(ArrayText(raws)) == raws
  {
    hide RawsOf, Render, RenderItems;
    ArraySplits(before, items, after);
    forall i | 0 <= i < |items| ensures ValueText(Raws(items)[i]) {
      assert ValidPadded(items[i]);
    }
    JoinedRescans(Raws(items));
  }
}
