/** Which code a contractor gets, written out over the name and the codes taken. */
module AcronymRules {
  import opened Wrappers
  import opened Acronym
  import JsonArray

  const DIGITS := "0123456789"

  // ── A name's words ───────────────────────────────────────────────────────

  predicate IsLetter(c: char) { c in "ABCDEFGHIJKLMNOPQRSTUVWXYZ" }

  /** A word starts at a letter with none before it. */
  predicate StartsWord(name: string, p: int) {
    0 <= p < |name| && IsLetter(name[p]) && (p > 0 ==> !IsLetter(name[p - 1]))
  }

  /** A word goes on to the next character that is no letter. */
  predicate IsWordAt(name: string, p: int, word: string) {
    && StartsWord(name, p) && 0 < |word| <= |name| - p && word == name[p..p + |word|]
    && (forall k :: 0 <= k < |word| ==> IsLetter(word[k]))
    && (p + |word| < |name| ==> !IsLetter(name[p + |word|]))
  }

  /** The words start where words start from `from` on, in order. */
  ghost predicate WordsStart(name: string, from: int, words: seq<string>, starts: seq<int>) {
    && |starts| == |words|
    && (forall k :: 0 <= k < |words| ==> starts[k] >= from && IsWordAt(name, starts[k], words[k]))
    && (forall j, k :: 0 <= j < k < |starts| ==> starts[j] < starts[k])
    && (forall p :: from <= p && StartsWord(name, p) ==> p in starts)
  }

  lemma LettersAre(c: char)
    ensures Letter(c) <==> IsLetter(c)
  {
    var all := "ABCDEFGHIJKLMNOPQRSTUVWXYZ";
    if Letter(c) {
      assert all[c as int - 'A' as int] == c;
    }
  }

  lemma {:induction false} WordsAre(name: string, from: nat) returns (starts: seq<int>)
    requires from <= |name|
    requires from == 0 || from == |name| || !IsLetter(name[from - 1]) || !IsLetter(name[from])
    ensures WordsStart(name, from, Words(name[from..]), starts)
    decreases |name| - from
  {
    starts := [];
    hide IsLetter, WordsStart;
    if from == |name| {
      NoneLeft(name);
    } else {
      LettersAre(name[from]);
      if !Letter(name[from]) {
        assert name[from..][1..] == name[from + 1..];
        starts := WordsAre(name, from + 1);
        NoneHere(name, from, Words(name[from + 1..]), starts);
      } else {
        var n := RunLength(name[from..]);
        var word := name[from..][..n];
        assert name[from..][n..] == name[from + n..];
        LastOfRun(name, from, n);
        var rest := WordsAre(name, from + n);
        WordAt(name, from, n);
        starts := [from] + rest;
        OneMore(name, from, n, Words(name[from + n..]), rest);
      }
    }
  }

  lemma NoneLeft(name: string)
    ensures WordsStart(name, |name|, [], [])
  {
  }

  lemma NoneHere(name: string, from: nat, words: seq<string>, starts: seq<int>)
    requires from < |name| && !IsLetter(name[from]) && WordsStart(name, from + 1, words, starts)
    ensures WordsStart(name, from, words, starts)
  {
    hide IsLetter, IsWordAt;
  }

  lemma LastOfRun(name: string, from: nat, n: nat)
    requires from < |name| && Letter(name[from]) && n == RunLength(name[from..])
    ensures 0 < n && from + n <= |name| && forall p :: from <= p < from + n ==> IsLetter(name[p])
    ensures from + n < |name| ==> !IsLetter(name[from + n])
  {
    forall p | from <= p < from + n ensures IsLetter(name[p]) {
      assert name[p] == name[from..][p - from];
      LettersAre(name[p]);
    }
    if from + n < |name| {
      LettersAre(name[from + n]);
      assert name[from + n] == name[from..][n];
    }
  }

  lemma WordAt(name: string, from: nat, n: nat)
    requires 0 < n && from + n <= |name| && forall p :: from <= p < from + n ==> IsLetter(name[p])
    requires from == 0 || !IsLetter(name[from - 1])
    requires from + n < |name| ==> !IsLetter(name[from + n])
    ensures IsWordAt(name, from, name[from..][..n])
  {
    hide IsLetter;
    assert name[from..][..n] == name[from..from + n];
  }

  lemma OneMore(name: string, from: nat, n: nat, words: seq<string>, rest: seq<int>)
    requires 0 < n && from + n <= |name| && forall p :: from <= p < from + n ==> IsLetter(name[p])
    requires WordsStart(name, from + n, words, rest) && IsWordAt(name, from, name[from..][..n])
    ensures WordsStart(name, from, [name[from..][..n]] + words, [from] + rest)
  {
    hide IsLetter, IsWordAt;
    var starts := [from] + rest;
    forall p | from <= p && StartsWord(name, p) ensures p in starts {
      if from < p < from + n {
        assert false;
      } else if p > from {
        assert p in rest;
      }
    }
  }

  // ── The code the name suggests ───────────────────────────────────────────

  /** Three letters: the initials of the first three words; with fewer, the first
      word's next letters, and X where it has no more. */
  predicate Suggested(base: Code, words: seq<string>)
    requires forall i :: 0 <= i < |words| ==> words[i] != []
  {
    && |base| == 3
    && forall k :: 0 <= k < 3 ==>
       base[k] == if k < |words| then words[k][0]
                  else if words != [] && k - |words| + 1 < |words[0]| then words[0][k - |words| + 1]
                  else 'X'
  }

  lemma {:induction false} PadIs(out: string, first: string, i: nat)
    requires |out| <= 3
    ensures
      var padded := Pad(out, first, i);
      && |padded| == 3 && (forall k :: 0 <= k < |out| ==> padded[k] == out[k])
      && forall k :: |out| <= k < 3 ==>
           padded[k] == if i + k - |out| < |first| then first[i + k - |out|] else 'X'
    decreases 3 - |out|
  {
    if |out| < 3 {
      PadIs(out + [if i < |first| then first[i] else 'X'], first, if i < |first| then i + 1 else i);
    }
  }

  /** The code tried first; a name without letters suggests XXX. */
  function Start(name: string): Code { if Words(name) == [] then "XXX" else Base(name) }

  lemma StartRule(name: string)
    ensures Suggested(Start(name), Words(name))
  {
    var words := Words(name);
    if words != [] {
      PadIs(Initials(words, if |words| < 3 then |words| else 3), words[0], 1);
    }
  }

  /** The name's letters, in order. */
  lemma {:induction false} CompactJoins(a: string, b: string)
    ensures Compact(a + b) == Compact(a) + Compact(b)
    ensures forall c :: Compact([c]) == if IsLetter(c) then [c] else []
  {
    forall c ensures Compact([c]) == if IsLetter(c) then [c] else [] {
      LettersAre(c);
      assert [c][1..] == [];
      assert Compact([]) == [];
    }
    if a == [] {
      assert a + b == b;
    } else {
      assert (a + b)[1..] == a[1..] + b;
      CompactJoins(a[1..], b);
    }
  }

  // ── The first code that is free ──────────────────────────────────────────

  /** The letter at place `pos` swapped for the name's i-th letter, one the
      suggestion has not used, gives a free code. */
  predicate Swaps(base: Code, letters: string, pos: nat, i: int, taken: set<Code>)
    requires pos < |base|
  {
    0 <= i < |letters| && letters[i] !in base && base[pos := letters[i]] !in taken
  }

  ghost predicate NoSwap(base: Code, letters: string, pos: nat, taken: set<Code>)
    requires pos < |base|
  {
    forall i :: 0 <= i < |letters| ==> !Swaps(base, letters, pos, i, taken)
  }

  ghost predicate FirstSwap(base: Code, letters: string, pos: nat, code: Code, taken: set<Code>)
    requires pos < |base|
  {
    exists i :: Swaps(base, letters, pos, i, taken) && code == base[pos := letters[i]]
      && forall k :: 0 <= k < i ==> !Swaps(base, letters, pos, k, taken)
  }

  /** The last letter replaced by a digit, or the last two by a number. */
  function WithNumber(base: Code, n: int): Code
    requires |base| == 3 && 2 <= n <= 99
  {
    if n <= 9 then [base[0], base[1], DIGITS[n]] else [base[0], DIGITS[n / 10], DIGITS[n % 10]]
  }

  ghost predicate FirstNumber(base: Code, code: Code, taken: set<Code>)
    requires |base| == 3
  {
    exists n :: 2 <= n <= 99 && code == WithNumber(base, n) && code !in taken
      && forall k :: 2 <= k < n ==> WithNumber(base, k) in taken
  }

  /** The suggestion, else the first free swap of its last letter, of its middle
      one, of its first, else the least free number. */
  ghost predicate Chosen(base: Code, letters: string, taken: set<Code>, code: Option<Code>)
    requires |base| == 3
  {
    if base !in taken then code == Some(base)
    else if !NoSwap(base, letters, 2, taken) then code.Some? && FirstSwap(base, letters, 2, code.value, taken)
    else if !NoSwap(base, letters, 1, taken) then code.Some? && FirstSwap(base, letters, 1, code.value, taken)
    else if !NoSwap(base, letters, 0, taken) then code.Some? && FirstSwap(base, letters, 0, code.value, taken)
    else if exists n :: 2 <= n <= 99 && WithNumber(base, n) !in taken then
      code.Some? && FirstNumber(base, code.value, taken)
    else code == None
  }

  lemma {:induction false} SwapIs(base: Code, letters: string, pos: nat, taken: set<Code>)
    requires |base| == 3 && pos < 3
    ensures
      match FirstFree(Replaced(base, letters, pos), taken)
      case None => NoSwap(base, letters, pos, taken)
      case Some(code) => FirstSwap(base, letters, pos, code, taken)
  {
    if letters != [] {
      var n := |letters| - 1;
      SwapIs(base, letters[..n], pos, taken);
      var before := Replaced(base, letters[..n], pos);
      var one := if letters[n] in base then [] else [base[pos := letters[n]]];
      assert Replaced(base, letters, pos) == before + one;
      FirstFreeConcat(before, one, taken);
      FirstOfOne(one, taken);
      hide FirstFree, Replaced, NoSwap, FirstSwap;
      if FirstFree(before, taken).Some? {
        SwapLater(base, letters, pos, FirstFree(before, taken).value, taken);
      } else {
        SwapLast(base, letters, pos, taken);
      }
    }
  }

  lemma SwapLater(base: Code, letters: string, pos: nat, code: Code, taken: set<Code>)
    requires |base| == 3 && pos < 3 && letters != [] && FirstSwap(base, letters[..|letters| - 1], pos, code, taken)
    ensures FirstSwap(base, letters, pos, code, taken)
  {
    var before := letters[..|letters| - 1];
    assert forall i :: 0 <= i < |before| ==> Swaps(base, before, pos, i, taken) == Swaps(base, letters, pos, i, taken);
    var i :| Swaps(base, before, pos, i, taken) && code == base[pos := before[i]]
      && forall k :: 0 <= k < i ==> !Swaps(base, before, pos, k, taken);
    assert Swaps(base, letters, pos, i, taken);
  }

  lemma SwapLast(base: Code, letters: string, pos: nat, taken: set<Code>)
    requires |base| == 3 && pos < 3 && letters != [] && NoSwap(base, letters[..|letters| - 1], pos, taken)
    ensures
      var last := |letters| - 1;
      if Swaps(base, letters, pos, last, taken) then FirstSwap(base, letters, pos, base[pos := letters[last]], taken)
      else NoSwap(base, letters, pos, taken)
  {
    var before := letters[..|letters| - 1];
    assert forall i :: 0 <= i < |before| ==> Swaps(base, before, pos, i, taken) == Swaps(base, letters, pos, i, taken);
  }

  lemma FirstOfOne(codes: seq<Code>, taken: set<Code>)
    requires |codes| <= 1
    ensures FirstFree(codes, taken) == if codes == [] || codes[0] in taken then None else Some(codes[0])
  {
    if codes != [] {
      assert codes[1..] == [];
    }
  }

  lemma NumberedIs(base: Code, i: nat)
    requires |base| == 3 && i < 98
    ensures Numbered(base)[i] == WithNumber(base, i + 2)
  {
    NumberedAre(base, i);
    DigitIs((i + 2) / 10);
    DigitIs((i + 2) % 10);
    if i < 8 {
      DigitIs(i + 2);
    }
    hide Numbered;
  }

  lemma DigitIs(d: nat)
    requires d <= 9
    ensures Digit(d) == DIGITS[d]
  {
  }

  lemma {:induction false} FirstFreeAt(codes: seq<Code>, taken: set<Code>) returns (at: nat)
    requires FirstFree(codes, taken).Some?
    ensures at < |codes| && FirstFree(codes, taken) == Some(codes[at]) && codes[at] !in taken
    ensures forall k :: 0 <= k < at ==> codes[k] in taken
  {
    at := 0;
    if codes[0] in taken {
      var k := FirstFreeAt(codes[1..], taken);
      at := k + 1;
      assert forall j :: 1 <= j < at ==> codes[j] == codes[1..][j - 1];
    }
  }

  lemma NumberIs(base: Code, taken: set<Code>)
    requires |base| == 3
    ensures
      match FirstFree(Numbered(base), taken)
      case None => forall n :: 2 <= n <= 99 ==> WithNumber(base, n) in taken
      case Some(code) => FirstNumber(base, code, taken)
  {
    forall i | 0 <= i < 98 ensures Numbered(base)[i] == WithNumber(base, i + 2) {
      NumberedIs(base, i);
    }
    hide Numbered, WithNumber, FirstFree;
    if FirstFree(Numbered(base), taken).None? {
      forall n | 2 <= n <= 99 ensures WithNumber(base, n) in taken {
        assert Numbered(base)[n - 2] in taken;
      }
    } else {
      var at := FirstFreeAt(Numbered(base), taken);
      assert FirstNumber(base, WithNumber(base, at + 2), taken) by {
        forall k | 2 <= k < at + 2 ensures WithNumber(base, k) in taken {
          assert Numbered(base)[k - 2] in taken;
        }
      }
    }
  }

  lemma CandidatesAre(name: string, taken: set<Code>)
    ensures
      var base, letters := Start(name), Compact(name);
      FirstFree(Candidates(name), taken)
      == if base !in taken then Some(base)
         else if FirstFree(Replaced(base, letters, 2), taken).Some? then FirstFree(Replaced(base, letters, 2), taken)
         else if FirstFree(Replaced(base, letters, 1), taken).Some? then FirstFree(Replaced(base, letters, 1), taken)
         else if FirstFree(Replaced(base, letters, 0), taken).Some? then FirstFree(Replaced(base, letters, 0), taken)
         else FirstFree(Numbered(base), taken)
  {
    WordsAreLetters(name);
    var base, letters := Start(name), Compact(name);
    FirstOfOne([base], taken);
    hide Base, Words, Compact, Numbered;
    assert letters == [] ==> forall pos: nat :: pos < 3 ==> Replaced(base, letters, pos) == [];
    hide Replaced, FirstFree;
    var c2, c1, c0, rest := Replaced(base, letters, 2), Replaced(base, letters, 1), Replaced(base, letters, 0),
      Numbered(base);
    FirstFreeConcat([base], rest, taken);
    FirstFreeConcat([base] + c2 + c1 + c0, [base] + rest, taken);
    FirstFreeConcat([base] + c2 + c1, c0, taken);
    FirstFreeConcat([base] + c2, c1, taken);
    FirstFreeConcat([base], c2, taken);
    NothingFree(taken);
  }

  lemma NothingFree(taken: set<Code>)
    ensures FirstFree([], taken).None?
  {
  }

  /** The code a name gets beside the codes taken. */
  lemma ChoiceRule(name: string, taken: set<Code>)
    ensures Suggested(Start(name), Words(name))
    ensures Chosen(Start(name), Compact(name), taken, FirstFree(Candidates(name), taken))
  {
    var base, letters := Start(name), Compact(name);
    StartRule(name);
    CandidatesAre(name, taken);
    SwapIs(base, letters, 2, taken);
    SwapIs(base, letters, 1, taken);
    SwapIs(base, letters, 0, taken);
    NumberIs(base, taken);
    hide *;
    hide Swaps, WithNumber;
    FoundIs(base, letters, taken);
  }

  lemma FoundIs(base: Code, letters: string, taken: set<Code>)
    requires |base| == 3
    ensures forall pos: nat, code :: pos < 3 && FirstSwap(base, letters, pos, code, taken) ==>
              !NoSwap(base, letters, pos, taken)
    ensures forall code :: FirstNumber(base, code, taken) ==> exists n :: 2 <= n <= 99 && WithNumber(base, n) !in taken
  {
    hide WithNumber;
  }

  // ── The contractors ──────────────────────────────────────────────────────

  /** A code is in use when some contractor has it, blank ones of white space
      included; the code of internal jobs always is. */
  lemma InUseRule(table: Contractors, code: Code)
    ensures code in TakenCodes(table) <==>
      code == "INT" || (code != [] && exists id :: id in table && table[id].acronym == Some(code))
  {
  }

  /** Something other than white space stands in it. */
  predicate Written(acronym: Option<Code>) {
    acronym.Some? && exists i :: 0 <= i < |acronym.value| && !JsonArray.Space(acronym.value[i] as int)
  }

  /** Only a contractor without a written code gets one, the one chosen beside
      those in use, unless a statement fails or none is left. */
  lemma EnsureRule(table: Contractors, id: int, fails: bool)
    ensures
      var after := Ensured(table, id, fails);
      if id in table && !Written(table[id].acronym) && !fails then
        exists code: Option<Code> ::
          && Chosen(Start(table[id].name), Compact(table[id].name), TakenCodes(table), code)
          && after == if code.Some? then table[id := Contractor(table[id].name, code)] else table
      else after == table
  {
    if id in table {
      ChoiceRule(table[id].name, TakenCodes(table));
    }
    hide Candidates, FirstFree, Chosen, Start, TakenCodes, Compact;
  }
}
