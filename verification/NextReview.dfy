/** The next review date: the first review nothing has settled, else the next
    lease anniversary. Dates are those of four-digit years, whose text compares
    as the dates do. */
module NextReview {
  import opened Wrappers
  import opened Calendar

  const MAX_ANNIVERSARIES: nat := 2400

  /** A schedule row; `pending` when its own value is still unknown. */
  datatype Review = Review(from: Date, commencement: bool, resolution: bool, pending: bool)

  datatype Input = Input(
    commencement: Option<Date>, last: Option<Date>, resolved: set<Date>, interval: Option<int>, steps: seq<Review>,
    stored: Option<Date>, today: Date, liveFrom: Option<Date>)

  predicate Settled(step: Review, input: Input) {
    || step.resolution
    || step.from in input.resolved
    || (!step.pending
        && if input.liveFrom.None? then !Before(input.today, step.from) else Before(step.from, input.liveFrom.value))
  }

  // ── Sorting by date, keeping rows of one date in their order ─────────────

  function Insert(steps: seq<Review>, step: Review): seq<Review> {
    if steps == [] || Before(step.from, steps[0].from) then [step] + steps
    else [steps[0]] + Insert(steps[1..], step)
  }

  function SortSteps(steps: seq<Review>): seq<Review> {
    if steps == [] then [] else Insert(SortSteps(steps[..|steps| - 1]), steps[|steps| - 1])
  }

  ghost predicate Sorted(steps: seq<Review>) {
    forall i, j :: 0 <= i < j < |steps| ==> !Before(steps[j].from, steps[i].from)
  }

  lemma {:induction false} InsertKeeps(steps: seq<Review>, step: Review)
    ensures multiset(Insert(steps, step)) == multiset(steps) + multiset{step}
  {
    hide Before;
    if steps != [] && !Before(step.from, steps[0].from) {
      assert steps == [steps[0]] + steps[1..];
      InsertKeeps(steps[1..], step);
    }
  }

  lemma {:induction false} InsertSorted(steps: seq<Review>, step: Review)
    requires Sorted(steps)
    ensures Sorted(Insert(steps, step))
  {
    if steps == [] || Before(step.from, steps[0].from) {
      assert forall i :: 1 <= i < |steps| + 1 ==> ([step] + steps)[i] == steps[i - 1];
    } else {
      InsertSorted(steps[1..], step);
      InsertKeeps(steps[1..], step);
      var rest := Insert(steps[1..], step);
      forall j | 0 <= j < |rest| ensures !Before(rest[j].from, steps[0].from) {
        assert rest[j] in multiset(rest);
        assert rest[j] == step || rest[j] in steps[1..];
      }
      hide Before;
      assert forall i :: 1 <= i < |rest| + 1 ==> ([steps[0]] + rest)[i] == rest[i - 1];
    }
  }

  lemma {:induction false} SortSorts(steps: seq<Review>)
    ensures Sorted(SortSteps(steps)) && multiset(SortSteps(steps)) == multiset(steps)
    ensures |SortSteps(steps)| == |steps|
  {
    if steps != [] {
      var n := |steps| - 1;
      SortSorts(steps[..n]);
      InsertSorted(SortSteps(steps[..n]), steps[n]);
      InsertKeeps(SortSteps(steps[..n]), steps[n]);
      assert steps == steps[..n] + [steps[n]];
      assert |multiset(SortSteps(steps))| == |multiset(steps)|;
    }
  }

  // ── The derivation ───────────────────────────────────────────────────────

  predicate OpenReview(step: Review, input: Input) {
    && !step.commencement && !Settled(step, input)
    && (input.last.None? || Before(input.last.value, step.from))
  }

  function FirstOpen(steps: seq<Review>, input: Input): Option<Date> {
    if steps == [] then None
    else if OpenReview(steps[0], input) then Some(steps[0].from)
    else FirstOpen(steps[1..], input)
  }

  function LastCommencement(steps: seq<Review>): Option<Date> {
    if steps == [] then None
    else if steps[|steps| - 1].commencement then Some(steps[|steps| - 1].from)
    else LastCommencement(steps[..|steps| - 1])
  }

  function Anchor(steps: seq<Review>, input: Input): Option<Date> {
    if LastCommencement(steps).Some? then LastCommencement(steps)
    else if input.commencement.Some? then input.commencement
    else if steps != [] then Some(steps[0].from)
    else None
  }

  function Interval(input: Input): (months: int)
    ensures months >= 1
  {
    if input.interval.Some? && input.interval.value > 0 then input.interval.value else 12
  }

  /** The dates of the settled reviews. */
  function SettledDates(steps: seq<Review>, input: Input): set<Date> {
    set i | 0 <= i < |steps| && !steps[i].commencement && Settled(steps[i], input) :: steps[i].from
  }

  /** Everything the anniversary must come after. */
  function Behind(steps: seq<Review>, input: Input, anchor: Date): set<Date> {
    {anchor} + (if input.last.Some? then {input.last.value} else {}) + SettledDates(steps, input) + input.resolved
  }

  /** After every date of the set. */
  predicate AfterAll(d: Date, dates: set<Date>) { forall e :: e in dates ==> Before(e, d) }

  /** The number of the first anniversary after all of `behind`, from the n-th. */
  function FirstAfter(anchor: Date, interval: int, behind: set<Date>, n: nat): Option<nat>
    decreases MAX_ANNIVERSARIES + 1 - n
  {
    if n > MAX_ANNIVERSARIES then None
    else if AfterAll(AddMonthsClamped(anchor, n * interval), behind) then Some(n)
    else FirstAfter(anchor, interval, behind, n + 1)
  }

  function Derive(input: Input): Option<Date> {
    var steps := SortSteps(input.steps);
    if FirstOpen(steps, input).Some? then FirstOpen(steps, input)
    else if Anchor(steps, input).None? || (steps == [] && input.stored.Some?) then None
    else
      var anchor := Anchor(steps, input).value;
      match FirstAfter(anchor, Interval(input), Behind(steps, input, anchor), 1)
      case None => None
      case Some(n) => Some(AddMonthsClamped(anchor, n * Interval(input)))
  }

  /** The latest of the dates, in one pass over them in any order. */
  method Latest(dates: seq<Date>) returns (max: Option<Date>)
    ensures max.None? <==> dates == []
    ensures max.Some? ==> max.value in dates && forall d :: d in dates ==> !Before(max.value, d)
  {
    max := None;
    for i := 0 to |dates|
      invariant max.None? <==> i == 0
      invariant max.Some? ==> max.value in dates && forall k :: 0 <= k < i ==> !Before(max.value, dates[k])
    {
      if max.None? || Before(max.value, dates[i]) {
        max := Some(dates[i]);
      }
    }
  }

  /** The first anniversary after `after`; being after the latest of the settled
      dates is being after all of them. */
  method NextAnniversary(anchor: Date, interval: int, after: Date, ghost behind: set<Date>) returns (next: Option<Date>)
    requires interval >= 1
    requires after in behind && forall d :: d in behind ==> !Before(after, d)
    ensures next == match FirstAfter(anchor, interval, behind, 1)
                    case None => None
                    case Some(n) => Some(AddMonthsClamped(anchor, n * interval))
  {
    hide AddMonthsClamped;
    var n := 1;
    while n <= MAX_ANNIVERSARIES
      invariant 1 <= n <= MAX_ANNIVERSARIES + 1
      invariant FirstAfter(anchor, interval, behind, n) == FirstAfter(anchor, interval, behind, 1)
    {
      var candidate := AddMonthsClamped(anchor, n * interval);
      assert Before(after, candidate) <==> AfterAll(candidate, behind);
      if Before(after, candidate) {
        return Some(candidate);
      }
      n := n + 1;
    }
    return None;
  }

  /** The whole derivation; `resolved` lists the resolved dates in any order. */
  method DeriveNextReviewDate(input: Input, resolved: seq<Date>) returns (next: Option<Date>)
    requires forall d :: d in resolved <==> d in input.resolved
    ensures next == Derive(input)
  {
    hide SortSteps, AddMonthsClamped, Before, Settled;
    var steps := SortSteps(input.steps);
    var open := FirstOpen(steps, input);
    if open.Some? {
      return open;
    }
    var anchor := Anchor(steps, input);
    if anchor.None? || (steps == [] && input.stored.Some?) {
      return None;
    }
    var dates := [anchor.value] + (if input.last.Some? then [input.last.value] else []);
    ghost var first := dates;
    for i := 0 to |steps|
      invariant forall d :: d in dates <==> d in first || d in SettledDates(steps[..i], input)
    {
      SettledSnoc(steps, input, i);
      if !steps[i].commencement && Settled(steps[i], input) {
        dates := dates + [steps[i].from];
      }
    }
    assert steps[..|steps|] == steps;
    dates := dates + resolved;
    ghost var behind := Behind(steps, input, anchor.value);
    assert forall d :: d in dates <==> d in behind;
    assert dates[0] in dates;
    hide Behind, SettledDates;
    var after := Latest(dates);
    next := NextAnniversary(anchor.value, Interval(input), after.value, behind);
  }

  lemma SettledSnoc(steps: seq<Review>, input: Input, i: nat)
    requires i < |steps|
    ensures SettledDates(steps[..i + 1], input)
         == SettledDates(steps[..i], input)
            + if !steps[i].commencement && Settled(steps[i], input) then {steps[i].from} else {}
  {
    hide Settled;
    var before, after := steps[..i], steps[..i + 1];
    assert forall k :: 0 <= k < i ==> before[k] == steps[k] && after[k] == steps[k];
    forall d | d in SettledDates(before, input) ensures d in SettledDates(after, input) {
      var k :| 0 <= k < |before| && !before[k].commencement && Settled(before[k], input) && before[k].from == d;
      assert after[k] == before[k];
    }
    forall d | d in SettledDates(after, input)
      ensures d in SettledDates(before, input)
                   + if !steps[i].commencement && Settled(steps[i], input) then {steps[i].from} else {}
    {
      var k :| 0 <= k < |after| && !after[k].commencement && Settled(after[k], input) && after[k].from == d;
      assert k < i ==> before[k] == after[k];
    }
    assert after[i] == steps[i];
  }

  // ── What the derived date is ─────────────────────────────────────────────

  lemma {:induction false} FirstOpenIs(steps: seq<Review>, input: Input) returns (at: nat)
    requires FirstOpen(steps, input).Some?
    ensures at < |steps| && OpenReview(steps[at], input) && FirstOpen(steps, input) == Some(steps[at].from)
    ensures forall i :: 0 <= i < at ==> !OpenReview(steps[i], input)
  {
    if OpenReview(steps[0], input) {
      at := 0;
    } else {
      var k := FirstOpenIs(steps[1..], input);
      at := k + 1;
    }
  }

  lemma {:induction false} NoneOpen(steps: seq<Review>, input: Input)
    requires FirstOpen(steps, input).None?
    ensures forall i :: 0 <= i < |steps| ==> !OpenReview(steps[i], input)
  {
    if steps != [] {
      NoneOpen(steps[1..], input);
      assert forall i :: 1 <= i < |steps| ==> steps[i] == steps[1..][i - 1];
    }
  }

  lemma {:induction false} FirstAfterIs(anchor: Date, interval: int, behind: set<Date>, n: nat)
    ensures
      match FirstAfter(anchor, interval, behind, n)
      case Some(k) =>
        && n <= k <= MAX_ANNIVERSARIES && AfterAll(AddMonthsClamped(anchor, k * interval), behind)
        && (forall m :: n <= m < k ==> !AfterAll(AddMonthsClamped(anchor, m * interval), behind))
      case None => forall m :: n <= m <= MAX_ANNIVERSARIES ==> !AfterAll(AddMonthsClamped(anchor, m * interval), behind)
    decreases MAX_ANNIVERSARIES + 1 - n
  {
    hide AddMonthsClamped, AfterAll;
    if n <= MAX_ANNIVERSARIES && !AfterAll(AddMonthsClamped(anchor, n * interval), behind) {
      FirstAfterIs(anchor, interval, behind, n + 1);
    }
  }

  /** Strictly after the last review date, whichever way it was derived. */
  lemma DerivedAfterLast(input: Input)
    requires Derive(input).Some? && input.last.Some?
    ensures Before(input.last.value, Derive(input).value)
  {
    var steps := SortSteps(input.steps);
    hide SortSteps, AddMonthsClamped, Before;
    if FirstOpen(steps, input).Some? {
      var at := FirstOpenIs(steps, input);
    } else {
      var anchor := Anchor(steps, input).value;
      FirstAfterIs(anchor, Interval(input), Behind(steps, input, anchor), 1);
      assert input.last.value in Behind(steps, input, anchor);
    }
  }

  /** While some review is open, the earliest of them; otherwise the least
      anniversary of the lease, counted from its latest commencement, after every
      settled and resolved date. */
  lemma DerivedIsLeast(input: Input)
    requires Derive(input).Some?
    ensures
      var next := Derive(input).value;
      if exists step :: step in input.steps && OpenReview(step, input) then
        && (exists step :: step in input.steps && OpenReview(step, input) && step.from == next)
        && forall step :: step in input.steps && OpenReview(step, input) ==> !Before(step.from, next)
      else
        var steps := SortSteps(input.steps);
        && Anchor(steps, input).Some?
        && (var anchor := Anchor(steps, input).value;
            exists n: nat ::
              && 1 <= n <= MAX_ANNIVERSARIES && next == AddMonthsClamped(anchor, n * Interval(input))
              && AfterAll(next, Behind(steps, input, anchor))
              && forall m: nat :: 1 <= m < n ==>
                 !AfterAll(AddMonthsClamped(anchor, m * Interval(input)), Behind(steps, input, anchor)))
  {
    var steps := SortSteps(input.steps);
    SortSorts(input.steps);
    SameMembers(steps, input.steps);
    hide SortSteps, AddMonthsClamped, Before, OpenReview, AfterAll, Behind, Interval, Anchor;
    if FirstOpen(steps, input).Some? {
      var at := FirstOpenIs(steps, input);
      assert steps[at] in input.steps;
      forall step | step in input.steps && OpenReview(step, input) ensures !Before(step.from, steps[at].from) {
        var k :| 0 <= k < |steps| && steps[k] == step;
        SortedPair(steps, at, k, input);
      }
    } else {
      NoneOpen(steps, input);
      var anchor := Anchor(steps, input).value;
      FirstAfterIs(anchor, Interval(input), Behind(steps, input, anchor), 1);
    }
  }

  lemma SameMembers(a: seq<Review>, b: seq<Review>)
    requires multiset(a) == multiset(b)
    ensures forall x :: x in a <==> x in b
  {
    forall x ensures x in a <==> x in b {
      assert x in a <==> x in multiset(a);
      assert x in b <==> x in multiset(b);
    }
  }

  lemma SortedPair(steps: seq<Review>, at: nat, k: nat, input: Input)
    requires Sorted(steps) && at < |steps| && k < |steps|
    requires OpenReview(steps[k], input) && forall i :: 0 <= i < at ==> !OpenReview(steps[i], input)
    ensures !Before(steps[k].from, steps[at].from)
  {
    hide OpenReview;
    assert k >= at;
  }

  // ── Progress ─────────────────────────────────────────────────────────────

  function Resolve(input: Input, d: Date): Input { input.(resolved := input.resolved + {d}) }

  lemma ResolvedStaysSettled(step: Review, input: Input, d: Date)
    ensures Settled(step, input) ==> Settled(step, Resolve(input, d))
    ensures step.from == d ==> Settled(step, Resolve(input, d))
    ensures OpenReview(step, Resolve(input, d)) ==> OpenReview(step, input) && step.from != d
  {
  }

  /** Once the derived review is done, the next derived date is strictly later;
      there is none only when no anniversary up to the cap comes after everything
      settled. */
  lemma DerivedMovesOn(input: Input)
    requires Derive(input).Some? && forall i :: 0 <= i < |input.steps| ==> Valid(input.steps[i].from)
    ensures
      var next := Derive(input).value;
      var after := Derive(Resolve(input, next));
      if after.Some? then Before(next, after.value)
      else
        var steps := SortSteps(input.steps);
        && Anchor(steps, input).Some?
        && (var anchor := Anchor(steps, input).value;
            forall n :: 1 <= n <= MAX_ANNIVERSARIES ==>
              !AfterAll(AddMonthsClamped(anchor, n * Interval(input)), Behind(steps, Resolve(input, next), anchor)))
  {
    var next := Derive(input).value;
    var later := Resolve(input, next);
    var steps := SortSteps(input.steps);
    SortSorts(input.steps);
    SameMembers(steps, input.steps);
    hide SortSteps, AddMonthsClamped;
    if FirstOpen(steps, later).Some? {
      MovesToOpen(input, steps, next);
    } else {
      MovesToAnniversary(input, steps, next);
    }
  }

  lemma MovesToOpen(input: Input, steps: seq<Review>, next: Date)
    requires steps == SortSteps(input.steps) && Sorted(steps)
    requires forall step :: step in steps <==> step in input.steps
    requires forall i :: 0 <= i < |input.steps| ==> Valid(input.steps[i].from)
    requires Derive(input) == Some(next) && FirstOpen(steps, Resolve(input, next)).Some?
    ensures Before(next, FirstOpen(steps, Resolve(input, next)).value)
  {
    hide SortSteps, AddMonthsClamped, Before, Valid;
    var later := Resolve(input, next);
    var k := FirstOpenIs(steps, later);
    ResolvedStaysSettled(steps[k], input, next);
    hide OpenReview;
    if FirstOpen(steps, input).Some? {
      var at := FirstOpenIs(steps, input);
      SortedPair(steps, at, k, input);
      assert steps[at] in input.steps && steps[k] in input.steps;
      if !Before(next, steps[k].from) {
        SameDate(next, steps[k].from);
      }
    } else {
      NoneOpen(steps, input);
      assert false;
    }
  }

  lemma AnchorKept(steps: seq<Review>, input: Input, d: Date)
    ensures Anchor(steps, Resolve(input, d)) == Anchor(steps, input)
    ensures Interval(Resolve(input, d)) == Interval(input)
  {
  }

  lemma MovesToAnniversary(input: Input, steps: seq<Review>, next: Date)
    requires steps == SortSteps(input.steps)
    requires Derive(input) == Some(next) && FirstOpen(steps, Resolve(input, next)).None?
    ensures Anchor(steps, input).Some?
    ensures
      var after := Derive(Resolve(input, next));
      var anchor := Anchor(steps, input).value;
      if after.Some? then Before(next, after.value)
      else forall n :: 1 <= n <= MAX_ANNIVERSARIES ==>
             !AfterAll(AddMonthsClamped(anchor, n * Interval(input)), Behind(steps, Resolve(input, next), anchor))
  {
    hide SortSteps, AddMonthsClamped, Before;
    var later := Resolve(input, next);
    AnchorKept(steps, input, next);
    if FirstOpen(steps, input).Some? {
      assert steps != [];
    }
    var anchor := Anchor(steps, input).value;
    var behind := Behind(steps, later, anchor);
    assert next in behind;
    hide FirstOpen, Anchor, Behind, Interval;
    FirstAfterIs(anchor, Interval(later), behind, 1);
  }

  /** So doing each derived review in turn gives strictly later dates, for as
      long as there is a next one. */
  function DoneTimes(input: Input, n: nat): Option<Input> {
    if n == 0 then Some(input)
    else
      match DoneTimes(input, n - 1)
      case None => None
      case Some(before) => if Derive(before).Some? then Some(Resolve(before, Derive(before).value)) else None
  }

  lemma {:induction false} ReviewsNeverRepeat(input: Input, i: nat, j: nat)
    requires i < j && forall k :: 0 <= k < |input.steps| ==> Valid(input.steps[k].from)
    requires DoneTimes(input, j).Some? && Derive(DoneTimes(input, j).value).Some?
    ensures DoneTimes(input, i).Some? && Derive(DoneTimes(input, i).value).Some?
    ensures Before(Derive(DoneTimes(input, i).value).value, Derive(DoneTimes(input, j).value).value)
    decreases j
  {
    hide Derive;
    var before := DoneTimes(input, j - 1).value;
    StepsKept(input, j - 1);
    DerivedMovesOn(before);
    if i < j - 1 {
      ReviewsNeverRepeat(input, i, j - 1);
    }
  }

  lemma {:induction false} StepsKept(input: Input, n: nat)
    requires DoneTimes(input, n).Some?
    ensures DoneTimes(input, n).value.steps == input.steps
  {
    hide Derive;
    if n > 0 {
      StepsKept(input, n - 1);
    }
  }
}
