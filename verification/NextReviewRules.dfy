/** The next review date over the lease's own records: which reviews are open,
    where the anniversaries are counted from, and what they must come after. */
module NextReviewRules {
  import opened Wrappers
  import opened Calendar
  import opened NextReview

  /** A review still to be done: nothing resolved it, it has not passed, and it is
      after the last review. Without a live date a review passes on its day; with
      one only those before that date have, and a value still unknown never does. */
  ghost predicate StillOpen(step: Review, input: Input) {
    && !step.commencement && !step.resolution && step.from !in input.resolved
    && (|| step.pending
        || (match input.liveFrom
            case None => Before(input.today, step.from)
            case Some(live) => !Before(step.from, live)))
    && (input.last.Some? ==> Before(input.last.value, step.from))
  }

  ghost predicate LatestCommencement(d: Date, steps: seq<Review>) {
    && (exists step :: step in steps && step.commencement && step.from == d)
    && forall step :: step in steps && step.commencement ==> !Before(d, step.from)
  }

  ghost predicate EarliestRow(d: Date, steps: seq<Review>) {
    && (exists step :: step in steps && step.from == d)
    && forall step :: step in steps ==> !Before(step.from, d)
  }

  ghost predicate SomeCommencement(steps: seq<Review>) { exists step :: step in steps && step.commencement }

  /** Where the anniversaries are counted from. */
  ghost predicate CountedFrom(d: Date, input: Input) {
    if SomeCommencement(input.steps) then LatestCommencement(d, input.steps)
    else if input.commencement.Some? then d == input.commencement.value
    else EarliestRow(d, input.steps)
  }

  /** After the lease's start, the last review, every resolved date and every
      review of the schedule. */
  ghost predicate AfterEverything(d: Date, start: Date, input: Input) {
    && Before(start, d)
    && (input.last.Some? ==> Before(input.last.value, d))
    && (forall e :: e in input.resolved ==> Before(e, d))
    && forall step :: step in input.steps && !step.commencement ==> Before(step.from, d)
  }

  function Months(input: Input): int {
    match input.interval
    case Some(months) => if months > 0 then months else 12
    case None => 12
  }

  /** The n-th anniversary, the first of at most 2,400 to come after everything. */
  ghost predicate FirstAnniversary(n: int, start: Date, input: Input) {
    && 1 <= n <= 2400
    && AfterEverything(AddMonthsClamped(start, n * Months(input)), start, input)
    && forall m :: 1 <= m < n ==> !AfterEverything(AddMonthsClamped(start, m * Months(input)), start, input)
  }

  ghost predicate NoAnniversary(start: Date, input: Input) {
    forall m :: 1 <= m <= 2400 ==> !AfterEverything(AddMonthsClamped(start, m * Months(input)), start, input)
  }

  /** No row and no commencement, or no row and a stored date to keep. */
  predicate NothingToCount(input: Input) {
    input.steps == [] && (input.commencement.None? || input.stored.Some?)
  }

  // ── The functions in those words ─────────────────────────────────────────

  lemma OpenIs(step: Review, input: Input)
    ensures OpenReview(step, input) <==> StillOpen(step, input)
  {
  }

  lemma {:induction false} LastCommencementIs(steps: seq<Review>)
    requires Sorted(steps)
    ensures LastCommencement(steps).Some? <==> SomeCommencement(steps)
    ensures LastCommencement(steps).Some? ==> LatestCommencement(LastCommencement(steps).value, steps)
  {
    hide Before;
    if steps != [] {
      var n := |steps| - 1;
      if steps[n].commencement {
        assert steps[n] in steps;
        BeforeSelf(steps[n].from);
      } else {
        LastCommencementIs(steps[..n]);
        assert forall step :: step in steps <==> step in steps[..n] || step == steps[n];
      }
    }
  }

  lemma BeforeSelf(d: Date)
    ensures !Before(d, d)
  {
  }

  lemma AnchorIs(input: Input)
    ensures
      var anchor := Anchor(SortSteps(input.steps), input);
      if anchor.Some? then CountedFrom(anchor.value, input)
      else input.steps == [] && input.commencement.None?
  {
    var steps := SortSteps(input.steps);
    SortSorts(input.steps);
    SameMembers(steps, input.steps);
    LastCommencementIs(steps);
    hide SortSteps, Before, LastCommencement;
    if steps != [] {
      BeforeSelf(steps[0].from);
      assert steps[0] in steps;
    }
  }

  /** With no review open, being after the settled reviews and the last one is
      being after all of them. */
  lemma BehindIs(d: Date, start: Date, input: Input, steps: seq<Review>)
    requires forall step :: step in steps <==> step in input.steps
    requires forall step :: step in steps ==> !OpenReview(step, input)
    ensures AfterAll(d, Behind(steps, input, start)) <==> AfterEverything(d, start, input)
  {
    var behind := Behind(steps, input, start);
    hide Settled, Behind;
    if AfterAll(d, behind) {
      BehindHolds(start, input, steps);
      forall step | step in input.steps && !step.commencement ensures Before(step.from, d) {
        if Settled(step, input) {
          assert step.from in behind;
        } else {
          assert !OpenReview(step, input);
          NotAfter(step.from, input.last.value, d);
        }
      }
    }
    if AfterEverything(d, start, input) {
      forall e | e in behind ensures Before(e, d) {
        BehindOnly(e, start, input, steps);
      }
    }
  }

  lemma NotAfter(a: Date, b: Date, c: Date)
    requires !Before(b, a) && Before(b, c)
    ensures Before(a, c)
  {
  }

  lemma BehindHolds(start: Date, input: Input, steps: seq<Review>)
    ensures start in Behind(steps, input, start) && input.resolved <= Behind(steps, input, start)
    ensures input.last.Some? ==> input.last.value in Behind(steps, input, start)
    ensures forall step :: step in steps && !step.commencement && Settled(step, input) ==>
              step.from in Behind(steps, input, start)
  {
    hide Settled;
    forall step | step in steps && !step.commencement && Settled(step, input)
      ensures step.from in SettledDates(steps, input)
    {
      var i :| 0 <= i < |steps| && steps[i] == step;
    }
  }

  lemma BehindOnly(e: Date, start: Date, input: Input, steps: seq<Review>)
    requires e in Behind(steps, input, start)
    ensures e == start || e in input.resolved || (input.last.Some? && e == input.last.value)
         || exists step :: step in steps && !step.commencement && step.from == e
  {
    hide Settled;
    if e in SettledDates(steps, input) {
      var i :| 0 <= i < |steps| && !steps[i].commencement && Settled(steps[i], input) && steps[i].from == e;
      assert steps[i] in steps;
    }
  }

  // ── The rule ─────────────────────────────────────────────────────────────

  /** While a review is open, the earliest open one. */
  lemma OpenRule(input: Input)
    requires exists step :: step in input.steps && StillOpen(step, input)
    ensures Derive(input).Some?
    ensures exists step :: step in input.steps && StillOpen(step, input) && Derive(input) == Some(step.from)
    ensures forall step :: step in input.steps && StillOpen(step, input) ==> !Before(step.from, Derive(input).value)
  {
    forall step ensures OpenReview(step, input) <==> StillOpen(step, input) {
      OpenIs(step, input);
    }
    SomeOpen(input);
    DerivedIsLeast(input);
    hide *;
  }

  lemma SomeOpen(input: Input)
    requires exists step :: step in input.steps && OpenReview(step, input)
    ensures Derive(input).Some?
  {
    var steps := SortSteps(input.steps);
    SortSorts(input.steps);
    SameMembers(steps, input.steps);
    hide SortSteps, OpenReview;
    if FirstOpen(steps, input).None? {
      NoneOpen(steps, input);
    }
  }

  /** With none open: the first anniversary after everything, and no date exactly
      when there is nothing to count from, or no anniversary of the 2,400 comes
      after everything. */
  lemma AnniversaryRule(input: Input)
    requires forall step :: step in input.steps ==> !StillOpen(step, input)
    ensures NothingToCount(input) ==> Derive(input).None?
    ensures !NothingToCount(input) ==>
      exists start :: CountedFrom(start, input)
        && match Derive(input)
           case Some(next) =>
             exists n :: FirstAnniversary(n, start, input) && next == AddMonthsClamped(start, n * Months(input))
           case None => NoAnniversary(start, input)
  {
    var steps := SortSteps(input.steps);
    SortSorts(input.steps);
    SameMembers(steps, input.steps);
    AnchorIs(input);
    NotOpen(input, steps);
    hide SortSteps, AddMonthsClamped, Before, OpenReview, AfterAll, Behind, Anchor, StillOpen, AfterEverything,
      CountedFrom;
    if !NothingToCount(input) {
      var start := Anchor(steps, input).value;
      assert CountedFrom(start, input);
      FirstAfterIs(start, Interval(input), Behind(steps, input, start), 1);
      forall n ensures AfterAll(AddMonthsClamped(start, n * Interval(input)), Behind(steps, input, start))
                  <==> AfterEverything(AddMonthsClamped(start, n * Interval(input)), start, input) {
        BehindIs(AddMonthsClamped(start, n * Interval(input)), start, input, steps);
      }
      assert Interval(input) == Months(input);
      hide FirstOpen, Interval, Months;
      var found := FirstAfter(start, Interval(input), Behind(steps, input, start), 1);
      if found.Some? {
        assert FirstAnniversary(found.value, start, input);
      }
    }
  }

  lemma {:induction false} NoneFirst(steps: seq<Review>, input: Input)
    requires forall step :: step in steps ==> !OpenReview(step, input)
    ensures FirstOpen(steps, input).None?
  {
    hide OpenReview;
    if steps != [] {
      assert steps[0] in steps;
      NoneFirst(steps[1..], input);
    }
  }

  lemma NotOpen(input: Input, steps: seq<Review>)
    requires forall step :: step in steps <==> step in input.steps
    requires forall step :: step in input.steps ==> !StillOpen(step, input)
    ensures forall step :: step in steps ==> !OpenReview(step, input)
    ensures FirstOpen(steps, input).None?
  {
    forall step | step in steps ensures !OpenReview(step, input) {
      OpenIs(step, input);
    }
    hide OpenReview, StillOpen;
    NoneFirst(steps, input);
  }
}
