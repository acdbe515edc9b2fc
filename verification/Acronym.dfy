/** The three-character code of a contractor, clear of every code taken, and
    what assigning them one by one keeps. */
module Acronym {
  import opened Wrappers
  import JsonArray
  import Sets

  type Code = string

  /** The code kept for internal jobs. */
  const INTERNAL: Code := "INT"

  predicate Letter(c: char) { 'A' <= c <= 'Z' }

  /** The letters of an upper-cased name. */
  function Compact(name: string): (letters: string)
    ensures forall i :: 0 <= i < |letters| ==> Letter(letters[i])
  {
    if name == [] then []
    else if Letter(name[0]) then [name[0]] + Compact(name[1..])
    else Compact(name[1..])
  }

  /** The length of the run of letters a text starts with. */
  function RunLength(text: string): (n: nat)
    ensures n <= |text| && (forall i :: 0 <= i < n ==> Letter(text[i])) && (n < |text| ==> !Letter(text[n]))
  {
    if text == [] || !Letter(text[0]) then 0 else 1 + RunLength(text[1..])
  }

  /** A name's words: its maximal runs of letters. */
  function Words(name: string): (words: seq<string>)
    ensures forall i :: 0 <= i < |words| ==> words[i] != [] && forall k :: 0 <= k < |words[i]| ==> Letter(words[i][k])
    decreases |name|
  {
    if name == [] then []
    else if !Letter(name[0]) then Words(name[1..])
    else [name[..RunLength(name)]] + Words(name[RunLength(name)..])
  }

  lemma {:induction false} WordsAreLetters(name: string)
    ensures Words(name) == [] <==> Compact(name) == []
    decreases |name|
  {
    if name != [] && !Letter(name[0]) {
      WordsAreLetters(name[1..]);
    }
  }

  function Initials(words: seq<string>, n: nat): (initials: string)
    requires n <= |words| && forall i :: 0 <= i < |words| ==> words[i] != []
    ensures |initials| == n && forall i :: 0 <= i < n ==> initials[i] == words[i][0]
  {
    seq(n, i requires 0 <= i < n => words[i][0])
  }

  /** Filled up to three from the first word's letters after its own initial,
      then with X. */
  function Pad(out: string, first: string, i: nat): (padded: string)
    requires |out| <= 3
    ensures |padded| == 3 && out <= padded
    ensures (forall k :: 0 <= k < |out| ==> Letter(out[k])) && (forall k :: 0 <= k < |first| ==> Letter(first[k])) ==>
      forall k :: 0 <= k < 3 ==> Letter(padded[k])
    decreases 3 - |out|
  {
    if |out| == 3 then out
    else if i < |first| then Pad(out + [first[i]], first, i + 1)
    else Pad(out + ['X'], first, i)
  }

  function Base(name: string): (base: Code)
    requires Words(name) != []
    ensures |base| == 3 && forall i :: 0 <= i < 3 ==> Letter(base[i])
  {
    var words := Words(name);
    Pad(Initials(words, if |words| < 3 then |words| else 3), words[0], 1)
  }

  method BaseAcronym(name: string) returns (base: Code)
    ensures base == if Words(name) == [] then [] else Base(name)
  {
    var words := Words(name);
    if words == [] {
      return [];
    }
    var initials := Initials(words, if |words| < 3 then |words| else 3);
    if |initials| >= 3 {
      return initials;
    }
    var first := words[0];
    base := initials;
    var i: nat := 1;
    while |base| < 3 && i < |first|
      invariant |base| <= 3 && Pad(base, first, i) == Pad(initials, first, 1)
    {
      base := base + [first[i]];
      i := i + 1;
    }
    while |base| < 3
      invariant |base| <= 3 && Pad(base, first, i) == Pad(initials, first, 1)
      invariant |base| == 3 || i >= |first|
    {
      base := base + ['X'];
    }
  }

  // ── The candidates, in the order they are tried ──────────────────────────

  function Digit(d: nat): char
    requires d <= 9
  {
    '0' + d as char
  }

  /** The base with the letter at `pos` replaced, for each letter of the name the
      base does not use. */
  function Replaced(base: Code, letters: string, pos: nat): seq<Code>
    requires |base| == 3 && pos < 3
  {
    if letters == [] then []
    else
      var ch := letters[|letters| - 1];
      Replaced(base, letters[..|letters| - 1], pos) + if ch in base then [] else [base[pos := ch]]
  }

  function OneDigit(base: Code, d: nat): Code
    requires |base| == 3 && d <= 9
  {
    base[..2] + [Digit(d)]
  }

  function TwoDigits(base: Code, d: nat): Code
    requires |base| == 3 && d <= 99
  {
    base[..1] + [Digit(d / 10), Digit(d % 10)]
  }

  function Numbered(base: Code): (codes: seq<Code>)
    requires |base| == 3
    ensures |codes| == 98
  {
    seq(8, i requires 0 <= i < 8 => OneDigit(base, i + 2)) + seq(90, i requires 0 <= i < 90 => TwoDigits(base, i + 10))
  }

  function Candidates(name: string): seq<Code> {
    if Words(name) == [] then ["XXX"] + Numbered("XXX")
    else
      var base, letters := Base(name), Compact(name);
      [base] + Replaced(base, letters, 2) + Replaced(base, letters, 1) + Replaced(base, letters, 0)
        + ([base] + Numbered(base))
  }

  function FirstFree(codes: seq<Code>, taken: set<Code>): (free: Option<Code>)
    ensures free.Some? ==> free.value in codes && free.value !in taken
    ensures free.None? ==> forall i :: 0 <= i < |codes| ==> codes[i] in taken
  {
    if codes == [] then None
    else if codes[0] !in taken then Some(codes[0])
    else FirstFree(codes[1..], taken)
  }

  lemma {:induction false} FirstFreeConcat(a: seq<Code>, b: seq<Code>, taken: set<Code>)
    ensures FirstFree(a + b, taken) == if FirstFree(a, taken).Some? then FirstFree(a, taken) else FirstFree(b, taken)
  {
    if a == [] {
      assert a + b == b;
    } else {
      assert (a + b)[1..] == a[1..] + b;
      FirstFreeConcat(a[1..], b, taken);
    }
  }

  /** The digit suffixes; none left is the throw. */
  method Uniquify(base: Code, taken: set<Code>) returns (code: Option<Code>)
    requires |base| == 3
    ensures code == FirstFree([base] + Numbered(base), taken)
  {
    ghost var codes := Numbered(base);
    if base !in taken {
      return Some(base);
    }
    assert ([base] + codes)[1..] == codes;
    hide Numbered;
    var i: nat := 0;
    while i < 8
      invariant 0 <= i <= 8
      invariant FirstFree(codes[i..], taken) == FirstFree(codes, taken)
    {
      var candidate := base[..2] + [Digit(i + 2)];
      NumberedAre(base, i);
      assert codes[i..][1..] == codes[i + 1..];
      if candidate !in taken {
        return Some(candidate);
      }
      i := i + 1;
    }
    while i < 98
      invariant 8 <= i <= 98
      invariant FirstFree(codes[i..], taken) == FirstFree(codes, taken)
    {
      var d := i + 2;
      var candidate := base[..1] + [Digit(d / 10), Digit(d % 10)];
      NumberedAre(base, i);
      assert codes[i..][1..] == codes[i + 1..];
      if candidate !in taken {
        return Some(candidate);
      }
      i := i + 1;
    }
    return None;
  }

  lemma NumberedAre(base: Code, i: nat)
    requires |base| == 3 && i < 98
    ensures Numbered(base)[i] == if i < 8 then OneDigit(base, i + 2) else TwoDigits(base, i + 2)
  {
  }

  /** The letters tried at one place, until one gives a free code. */
  method TryPlace(base: Code, letters: string, pos: nat, taken: set<Code>) returns (code: Option<Code>)
    requires |base| == 3 && pos < 3
    ensures code == FirstFree(Replaced(base, letters, pos), taken)
  {
    for i := 0 to |letters|
      invariant FirstFree(Replaced(base, letters[..i], pos), taken).None?
    {
      assert letters[..i + 1][..|letters[..i + 1]| - 1] == letters[..i];
      var ch := letters[i];
      var before := Replaced(base, letters[..i], pos);
      if ch !in base {
        var candidate := base[pos := ch];
        FirstFreeConcat(before, [candidate], taken);
        if candidate !in taken {
          ReplacedPrefix(base, letters, pos, i + 1, taken);
          return Some(candidate);
        }
      } else {
        assert before + [] == before;
      }
    }
    assert letters[..|letters|] == letters;
    return None;
  }

  lemma {:induction false} ReplacedPrefix(base: Code, letters: string, pos: nat, n: nat, taken: set<Code>)
    requires |base| == 3 && pos < 3 && n <= |letters| && FirstFree(Replaced(base, letters[..n], pos), taken).Some?
    ensures FirstFree(Replaced(base, letters, pos), taken) == FirstFree(Replaced(base, letters[..n], pos), taken)
    decreases |letters|
  {
    if n == |letters| {
      assert letters[..n] == letters;
    } else {
      var m := |letters| - 1;
      assert letters[..m][..n] == letters[..n];
      ReplacedPrefix(base, letters[..m], pos, n, taken);
      var candidate := if letters[m] in base then [] else [base[pos := letters[m]]];
      FirstFreeConcat(Replaced(base, letters[..m], pos), candidate, taken);
    }
  }

  method GenerateAcronym(name: string, taken: set<Code>) returns (code: Option<Code>)
    ensures code == FirstFree(Candidates(name), taken)
  {
    WordsAreLetters(name);
    var compacted := Compact(name);
    if compacted == [] {
      code := Uniquify("XXX", taken);
      return;
    }
    var base := BaseAcronym(name);
    var c2, c1, c0 := Replaced(base, compacted, 2), Replaced(base, compacted, 1), Replaced(base, compacted, 0);
    var rest := [base] + Numbered(base);
    FirstFreeConcat([base] + c2 + c1 + c0, rest, taken);
    FirstFreeConcat([base] + c2 + c1, c0, taken);
    FirstFreeConcat([base] + c2, c1, taken);
    FirstFreeConcat([base], c2, taken);
    hide Replaced, Numbered, Base;
    if base !in taken {
      return Some(base);
    }
    code := TryPlace(base, compacted, 2, taken);
    if code.None? {
      code := TryPlace(base, compacted, 1, taken);
    }
    if code.None? {
      code := TryPlace(base, compacted, 0, taken);
    }
    if code.None? {
      code := Uniquify(base, taken);
    }
  }

  // ── What a generated code is ─────────────────────────────────────────────

  /** Three characters, the first of them a letter. */
  predicate AllThree(codes: seq<Code>) {
    forall i :: 0 <= i < |codes| ==> |codes[i]| == 3 && Letter(codes[i][0])
  }

  lemma {:induction false} ReplacedThree(base: Code, letters: string, pos: nat)
    requires |base| == 3 && pos < 3 && Letter(base[0]) && forall i :: 0 <= i < |letters| ==> Letter(letters[i])
    ensures AllThree(Replaced(base, letters, pos))
  {
    if letters != [] {
      ReplacedThree(base, letters[..|letters| - 1], pos);
    }
  }

  lemma ThreeConcat(a: seq<Code>, b: seq<Code>)
    requires AllThree(a) && AllThree(b)
    ensures AllThree(a + b)
  {
  }

  lemma NumberedThree(base: Code)
    requires |base| == 3 && Letter(base[0])
    ensures AllThree(Numbered(base)) && AllThree([base])
  {
  }

  lemma CandidatesThree(name: string)
    ensures AllThree(Candidates(name))
  {
    hide AllThree, Replaced, Numbered, Base, Compact, Words;
    NumberedThree("XXX");
    ThreeConcat(["XXX"], Numbered("XXX"));
    if Words(name) != [] {
      var base, letters := Base(name), Compact(name);
      ReplacedThree(base, letters, 0);
      ReplacedThree(base, letters, 1);
      ReplacedThree(base, letters, 2);
      NumberedThree(base);
      ThreeConcat([base], Numbered(base));
      ThreeConcat([base], Replaced(base, letters, 2));
      ThreeConcat([base] + Replaced(base, letters, 2), Replaced(base, letters, 1));
      ThreeConcat([base] + Replaced(base, letters, 2) + Replaced(base, letters, 1), Replaced(base, letters, 0));
      ThreeConcat([base] + Replaced(base, letters, 2) + Replaced(base, letters, 1) + Replaced(base, letters, 0),
                  [base] + Numbered(base));
    }
  }

  /** Three characters, a letter first, and not taken. */
  lemma GeneratedIsFree(name: string, taken: set<Code>)
    requires FirstFree(Candidates(name), taken).Some?
    ensures
      var code := FirstFree(Candidates(name), taken).value;
      |code| == 3 && Letter(code[0]) && code !in taken
  {
    CandidatesThree(name);
    hide Candidates;
  }

  lemma DigitsDiffer(a: nat, b: nat)
    requires a < b
    ensures a / 10 != b / 10 || a % 10 != b % 10
  {
  }

  /** The 98 numbered codes differ from each other and from any base of letters. */
  lemma NumberedDiffer(base: Code, i: nat, j: nat)
    requires |base| == 3 && (forall k :: 0 <= k < 3 ==> Letter(base[k])) && i < j < 98
    ensures Numbered(base)[i] != Numbered(base)[j] && Numbered(base)[i] != base && Numbered(base)[j] != base
  {
    CodeAt(base, i);
    CodeAt(base, j);
    DigitsDiffer(i + 2, j + 2);
    hide Numbered;
  }

  lemma CodeAt(base: Code, i: nat)
    requires |base| == 3 && i < 98
    ensures
      var code := Numbered(base)[i];
      && |code| == 3
      && (if i < 8 then code[1] == base[1] && code[2] == Digit(i + 2)
          else code[1] == Digit((i + 2) / 10) && code[2] == Digit((i + 2) % 10))
  {
  }

  lemma BaseAndNumberedDiffer(base: Code, i: nat, j: nat)
    requires |base| == 3 && (forall k :: 0 <= k < 3 ==> Letter(base[k])) && i < j < 99
    ensures ([base] + Numbered(base))[i] != ([base] + Numbered(base))[j]
  {
    hide Numbered;
    if i > 0 {
      NumberedDiffer(base, i - 1, j - 1);
    } else if j < 98 {
      NumberedDiffer(base, j - 1, 97);
    } else {
      NumberedDiffer(base, 0, 97);
    }
  }

  lemma AllTaken(codes: seq<Code>, taken: set<Code>)
    requires forall i :: 0 <= i < |codes| ==> codes[i] in taken
    requires forall i, j :: 0 <= i < j < |codes| ==> codes[i] != codes[j]
    ensures |codes| <= |taken|
  {
    Sets.DistinctSize(codes);
    Sets.SubsetSize(Sets.Elements(codes), taken);
  }

  /** There is no code left only when at least 99 are taken: the base, eight with
      one digit and ninety with two. */
  lemma ThrowsOnlyWhenCrowded(name: string, taken: set<Code>)
    requires FirstFree(Candidates(name), taken).None?
    ensures |taken| >= 99
  {
    var base := if Words(name) == [] then "XXX" else Base(name);
    var last := [base] + Numbered(base);
    var all := Candidates(name);
    TailIsNumbered(name);
    hide *;
    assert |last| == 99;
    forall i | 0 <= i < 99 ensures last[i] in taken {
      assert all[|all| - 99..][i] == all[|all| - 99 + i];
    }
    forall i, j | 0 <= i < j < 99 ensures last[i] != last[j] {
      BaseAndNumberedDiffer(base, i, j);
    }
    AllTaken(last, taken);
  }

  lemma TailIsNumbered(name: string)
    ensures
      var base := if Words(name) == [] then "XXX" else Base(name);
      var all := Candidates(name);
      && |base| == 3 && (forall k :: 0 <= k < 3 ==> Letter(base[k]))
      && |all| >= 99 && all[|all| - 99..] == [base] + Numbered(base)
  {
    hide Numbered;
  }

  // ── The contractors table ────────────────────────────────────────────────

  /** The name is upper-cased. */
  datatype Contractor = Contractor(name: string, acronym: Option<Code>)

  type Contractors = map<int, Contractor>

  /** A code of white space alone counts as none. */
  predicate Blank(code: Code) { forall i :: 0 <= i < |code| ==> JsonArray.Space(code[i] as int) }

  predicate HasCode(table: Contractors, id: int) {
    id in table && table[id].acronym.Some? && !Blank(table[id].acronym.value)
  }

  function TakenCodes(table: Contractors): set<Code> {
    (set id | id in table && table[id].acronym.Some? && table[id].acronym.value != "" :: table[id].acronym.value)
      + {INTERNAL}
  }

  /** The table after one call; `fails` is a failed statement, rolled back. */
  function Ensured(table: Contractors, id: int, fails: bool): Contractors {
    if id !in table || HasCode(table, id) || fails then table
    else
      match FirstFree(Candidates(table[id].name), TakenCodes(table))
      case None => table
      case Some(code) => table[id := table[id].(acronym := Some(code))]
  }

  class Registry {
    var table: Contractors

    constructor (table: Contractors)
      ensures this.table == table
    {
      this.table := table;
    }

    method EnsureContractorAcronym(id: int, fails: bool) returns (code: Option<Code>)
      modifies this
      ensures table == Ensured(old(table), id, fails)
      ensures code.Some? <==> HasCode(table, id)
      ensures code.Some? ==> id in table && table[id].acronym == code
    {
      if id !in table {
        return None;
      }
      if table[id].acronym.Some? && !Blank(table[id].acronym.value) {
        return table[id].acronym;
      }
      if fails {
        return None;
      }
      code := GenerateAcronym(table[id].name, TakenCodes(table));
      if code.Some? {
        GeneratedIsFree(table[id].name, TakenCodes(table));
        table := table[id := table[id].(acronym := code)];
      }
    }
  }

  /** No two contractors share a code, and none has the internal one. */
  ghost predicate CodesDistinct(table: Contractors) {
    && (forall a, b :: a in table && b in table && a != b && HasCode(table, a) && HasCode(table, b) ==>
          table[a].acronym != table[b].acronym)
    && forall a :: a in table ==> table[a].acronym != Some(INTERNAL)
  }

  lemma CodeTaken(table: Contractors, id: int)
    requires HasCode(table, id)
    ensures table[id].acronym.value in TakenCodes(table)
  {
  }

  lemma EnsureKeeps(table: Contractors, id: int, fails: bool)
    requires CodesDistinct(table)
    ensures CodesDistinct(Ensured(table, id, fails))
    ensures forall a :: HasCode(table, a) ==> a in Ensured(table, id, fails) && Ensured(table, id, fails)[a] == table[a]
  {
    hide Candidates;
    if id in table && !HasCode(table, id) && FirstFree(Candidates(table[id].name), TakenCodes(table)).Some? {
      var code := FirstFree(Candidates(table[id].name), TakenCodes(table)).value;
      GeneratedIsFree(table[id].name, TakenCodes(table));
      forall a | HasCode(table, a) ensures table[a].acronym != Some(code) {
        CodeTaken(table, a);
      }
      assert code != INTERNAL;
    }
  }

  datatype Request = Request(id: int, fails: bool)

  function EnsuredAll(table: Contractors, calls: seq<Request>): Contractors {
    if calls == [] then table
    else Ensured(EnsuredAll(table, calls[..|calls| - 1]), calls[|calls| - 1].id, calls[|calls| - 1].fails)
  }

  /** Over any sequence of serialised calls, codes stay distinct and clear of the
      internal one, and a code once assigned never changes. */
  lemma {:induction false} CodesStayDistinct(table: Contractors, calls: seq<Request>)
    requires CodesDistinct(table)
    ensures CodesDistinct(EnsuredAll(table, calls))
    ensures forall a :: HasCode(table, a) ==> a in EnsuredAll(table, calls) && EnsuredAll(table, calls)[a] == table[a]
  {
    hide Ensured, CodesDistinct;
    if calls != [] {
      var n := |calls| - 1;
      CodesStayDistinct(table, calls[..n]);
      EnsureKeeps(EnsuredAll(table, calls[..n]), calls[n].id, calls[n].fails);
    }
  }
}
