/** The schedule rows of an option term: reviews every interval from the day
    after the lease's expiry to the end of the term. */
module OptionTerm {
  import opened Wrappers
  import opened Calendar

  datatype Method = Cpi | Fixed | Market | OtherMethod

  /** `fixedPercent` is in hundredths of a percent. */
  datatype Plan = Plan(fixedPercent: Option<int>, intervalMonths: Option<int>, ongoing: Method, start: Method)

  datatype Step = Step(from: Date, to: Date, id: nat, kind: Method, rate: int)

  datatype Dates = Dates(newExpiry: Date, optionStart: Date, termEnd: Date)

  /** A date as text, read back: only years of four digits are. */
  predicate Readable(d: Date) { Valid(d) && 0 <= d.year <= 9999 }

  function OptionTermDates(expiry: Option<Date>, termMonths: Option<int>): Option<Dates> {
    if expiry.None? || !Readable(expiry.value) || termMonths.None? || termMonths.value < 1 then None
    else
      var start := NextDay(expiry.value);
      var termEnd := ShiftMonths(start, termMonths.value);
      Some(Dates(PreviousDay(termEnd), start, termEnd))
  }

  function Interval(plan: Plan): (months: int)
    ensures months >= 1
  {
    if plan.intervalMonths.Some? && plan.intervalMonths.value >= 1 then plan.intervalMonths.value else 12
  }

  function Rate(plan: Plan, kind: Method): int {
    if kind.Fixed? && plan.fixedPercent.Some? then plan.fixedPercent.value else 0
  }

  function StepAt(start: Date, termEnd: Date, term: int, plan: Plan, months: int, id: nat): Step {
    var next := if months + Interval(plan) < term then months + Interval(plan) else term;
    var kind := if months == 0 then plan.start else plan.ongoing;
    Step(ShiftMonths(start, months), if next >= term then termEnd else ShiftMonths(start, next),
         id, kind, Rate(plan, kind))
  }

  function StepsFrom(start: Date, termEnd: Date, term: int, plan: Plan, months: int, id: nat): seq<Step>
    decreases term - months
  {
    if months >= term then []
    else
      [StepAt(start, termEnd, term, plan, months, id)]
      + StepsFrom(start, termEnd, term, plan, months + Interval(plan), id + 1)
  }

  /** The rows, or the throw of a start that is past the year 9999 and can't be
      read back. */
  datatype Built = Rows(rows: seq<Step>) | Threw

  function OptionSteps(expiry: Option<Date>, termMonths: Option<int>, plan: Plan): Built {
    var dates := OptionTermDates(expiry, termMonths);
    if dates.None? then Rows([])
    else if !Readable(dates.value.optionStart) then Threw
    else Rows(StepsFrom(dates.value.optionStart, dates.value.termEnd, termMonths.value, plan, 0, 0))
  }

  /** Adding the row at `months` to those before it leaves the same rows in all. */
  lemma StepsNext(steps: seq<Step>, start: Date, termEnd: Date, term: int, plan: Plan, months: int)
    requires months < term
    ensures steps + StepsFrom(start, termEnd, term, plan, months, |steps|)
         == steps + [StepAt(start, termEnd, term, plan, months, |steps|)]
            + StepsFrom(start, termEnd, term, plan, months + Interval(plan), |steps| + 1)
  {
    hide ShiftMonths, StepAt;
  }

  method StepRows(start: Date, termEnd: Date, term: int, plan: Plan) returns (steps: seq<Step>)
    ensures steps == StepsFrom(start, termEnd, term, plan, 0, 0)
  {
    hide ShiftMonths, Interval;
    ghost var all := StepsFrom(start, termEnd, term, plan, 0, 0);
    steps := [];
    var months := 0;
    while months < term
      invariant months >= 0
      invariant steps + StepsFrom(start, termEnd, term, plan, months, |steps|) == all
      decreases term - months
    {
      hide StepsFrom;
      var from := ShiftMonths(start, months);
      var nextMonths := if months + Interval(plan) < term then months + Interval(plan) else term;
      var to := if nextMonths >= term then termEnd else ShiftMonths(start, nextMonths);
      var kind := if months == 0 then plan.start else plan.ongoing;
      StepsNext(steps, start, termEnd, term, plan, months);
      steps := steps + [Step(from, to, |steps|, kind, Rate(plan, kind))];
      months := months + Interval(plan);
    }
  }

  method BuildOptionTermSteps(expiry: Option<Date>, termMonths: Option<int>, plan: Plan) returns (built: Built)
    ensures built == OptionSteps(expiry, termMonths, plan)
  {
    hide ShiftMonths, NextDay, PreviousDay, StepsFrom;
    var dates := OptionTermDates(expiry, termMonths);
    if dates.None? {
      return Rows([]);
    }
    if !Readable(dates.value.optionStart) {
      return Threw;
    }
    var steps := StepRows(dates.value.optionStart, dates.value.termEnd, termMonths.value, plan);
    built := Rows(steps);
  }

  // ── The rows tile the term ───────────────────────────────────────────────

  /** Each row starts where the one before ends, and ends later than it starts. */
  ghost predicate Tiles(rows: seq<Step>, from: Date, to: Date) {
    && rows != [] && rows[0].from == from && rows[|rows| - 1].to == to
    && (forall i :: 0 <= i < |rows| ==> Before(rows[i].from, rows[i].to))
    && (forall i :: 0 <= i < |rows| - 1 ==> rows[i].to == rows[i + 1].from)
  }

  lemma {:induction false} StepsTile(start: Date, term: int, plan: Plan, months: int, id: nat)
    requires Valid(start) && 0 <= months < term
    ensures Tiles(StepsFrom(start, ShiftMonths(start, term), term, plan, months, id),
                  ShiftMonths(start, months), ShiftMonths(start, term))
    decreases term - months
  {
    var termEnd := ShiftMonths(start, term);
    var next := months + Interval(plan);
    var rows := StepsFrom(start, termEnd, term, plan, months, id);
    ShiftGrows(start, months, if next < term then next else term);
    hide ShiftMonths, Before;
    if next < term {
      StepsTile(start, term, plan, next, id + 1);
      var rest := StepsFrom(start, termEnd, term, plan, next, id + 1);
      assert rows == [StepAt(start, termEnd, term, plan, months, id)] + rest;
      assert forall i :: 1 <= i < |rows| ==> rows[i] == rest[i - 1];
    } else {
      assert StepsFrom(start, termEnd, term, plan, next, id + 1) == [];
      assert rows == [StepAt(start, termEnd, term, plan, months, id)];
    }
  }

  /** Row `i` is the review `i` intervals in; only the first takes the start
      method. */
  lemma {:induction false} StepsAre(start: Date, termEnd: Date, term: int, plan: Plan, months: int, id: nat, i: nat)
    requires 0 <= months
    ensures
      var rows := StepsFrom(start, termEnd, term, plan, months, id);
      i < |rows| ==>
        && rows[i] == StepAt(start, termEnd, term, plan, months + i * Interval(plan), id + i)
        && months + i * Interval(plan) < term
    decreases i
  {
    if months < term {
      hide ShiftMonths;
      if i > 0 {
        StepsAre(start, termEnd, term, plan, months + Interval(plan), id + 1, i - 1);
        assert months + Interval(plan) + (i - 1) * Interval(plan) == months + i * Interval(plan);
      } else {
        assert i * Interval(plan) == 0;
      }
    }
  }

  /** `n` is the months divided by the interval, rounded up. */
  predicate IsCeiling(n: int, months: int, interval: int) { (n - 1) * interval < months <= n * interval }

  lemma CeilingStep(n: int, months: int, interval: int)
    requires IsCeiling(n, months - interval, interval)
    ensures IsCeiling(n + 1, months, interval)
  {
    assert (n + 1) * interval == n * interval + interval;
    assert n * interval == (n - 1) * interval + interval;
  }

  lemma {:induction false} StepCount(start: Date, termEnd: Date, term: int, plan: Plan, months: int, id: nat)
    requires 0 <= months < term
    ensures IsCeiling(|StepsFrom(start, termEnd, term, plan, months, id)|, term - months, Interval(plan))
    decreases term - months
  {
    hide ShiftMonths, Interval, StepAt;
    var next := months + Interval(plan);
    var rest := StepsFrom(start, termEnd, term, plan, next, id + 1);
    if next < term {
      StepCount(start, termEnd, term, plan, next, id + 1);
      hide IsCeiling;
      CeilingStep(|rest|, term - months, Interval(plan));
    } else {
      assert rest == [];
    }
  }

  /** For every expiry, term and interval the rows tile the span from the option's
      first day to the term's end, in strictly increasing dates, as many as the
      intervals it takes to cover the term, with the start method on the first
      row and no other review carrying it in its place. */
  lemma OptionRowsTile(expiry: Date, term: int, plan: Plan)
    requires Readable(expiry) && term >= 1 && expiry != Date(9999, 12, 31)
    ensures
      var built := OptionSteps(Some(expiry), Some(term), plan);
      var dates := OptionTermDates(Some(expiry), Some(term)).value;
      var interval :=
        if plan.intervalMonths.Some? && plan.intervalMonths.value >= 1 then plan.intervalMonths.value else 12;
      var percent := if plan.fixedPercent.Some? then plan.fixedPercent.value else 0;
      && built.Rows?
      && Tiles(built.rows, NextDay(expiry), ShiftMonths(NextDay(expiry), term))
      && dates.optionStart == NextDay(expiry) && dates.termEnd == ShiftMonths(NextDay(expiry), term)
      && NextDay(dates.newExpiry) == dates.termEnd
      && (|built.rows| - 1) * interval < term <= |built.rows| * interval
      && forall i :: 0 <= i < |built.rows| ==>
           && built.rows[i].from == ShiftMonths(NextDay(expiry), i * interval)
           && built.rows[i].id == i
           && built.rows[i].kind == (if i == 0 then plan.start else plan.ongoing)
           && built.rows[i].rate == if built.rows[i].kind == Fixed then percent else 0
  {
    var start := NextDay(expiry);
    var termEnd := ShiftMonths(start, term);
    StartReadable(expiry);
    ShiftLands(start, 0);
    StepsTile(start, term, plan, 0, 0);
    StepCount(start, termEnd, term, plan, 0, 0);
    var rows := StepsFrom(start, termEnd, term, plan, 0, 0);
    NewExpiryIsDayBefore(expiry, term);
    hide ShiftMonths, NextDay, PreviousDay, StepsFrom, Tiles;
    forall i | 0 <= i < |rows|
      ensures rows[i].from == ShiftMonths(start, i * Interval(plan)) && rows[i].id == i
      ensures rows[i].kind == (if i == 0 then plan.start else plan.ongoing)
      ensures rows[i].rate == Rate(plan, rows[i].kind)
    {
      StepsAre(start, termEnd, term, plan, 0, 0, i);
      PositiveProduct(i, Interval(plan));
    }
  }

  /** The new expiry is the term's last day. */
  lemma NewExpiryIsDayBefore(expiry: Date, term: int)
    requires Readable(expiry) && term >= 1
    ensures NextDay(OptionTermDates(Some(expiry), Some(term)).value.newExpiry)
         == OptionTermDates(Some(expiry), Some(term)).value.termEnd
  {
    StartReadable(expiry);
    StartIsModern(expiry);
    hide ShiftMonths, NextDay, PreviousDay;
    var termEnd := ShiftMonths(NextDay(expiry), term);
    ShiftedIsModern(NextDay(expiry), term);
    PreviousUndoesNext(termEnd);
  }

  lemma ShiftedIsModern(start: Date, months: int)
    requires Valid(start) && start.year >= 100 && months >= 1
    ensures
      var later := ShiftMonths(start, months);
      Valid(later) && later.year >= 100 && later != Date(100, 1, 1)
  {
    ShiftLands(start, months);
    hide ShiftMonths;
  }

  lemma StartIsModern(expiry: Date)
    requires Readable(expiry)
    ensures NextDay(expiry).year >= 100
  {
  }

  lemma PositiveProduct(i: nat, interval: int)
    requires interval >= 1
    ensures i * interval == 0 <==> i == 0
  {
    if i > 0 {
      assert i * interval >= 1;
    }
  }

  lemma StartReadable(expiry: Date)
    requires Readable(expiry)
    ensures Valid(NextDay(expiry)) && NextDay(expiry).year >= 0
    ensures Readable(NextDay(expiry)) <==> expiry != Date(9999, 12, 31)
  {
  }

  /** The rows can't be built for the one expiry whose next day has no
      four-digit year. */
  lemma ThrowsOnLastDay(expiry: Date, term: int, plan: Plan)
    requires Readable(expiry) && term >= 1
    ensures OptionSteps(Some(expiry), Some(term), plan).Threw? <==> expiry == Date(9999, 12, 31)
  {
    StartReadable(expiry);
    hide ShiftMonths, NextDay, PreviousDay, StepsFrom;
  }

  /** There are no rows exactly when the term can't be dated. */
  lemma EmptyWhenUndated(expiry: Option<Date>, termMonths: Option<int>, plan: Plan)
    ensures OptionSteps(expiry, termMonths, plan) == Rows([])
       <==> expiry.None? || !(Valid(expiry.value) && 0 <= expiry.value.year <= 9999)
            || termMonths.None? || termMonths.value < 1
  {
    hide ShiftMonths, NextDay, PreviousDay, Valid;
  }

  /** No gap and no overlap: every date of a tiled span is in exactly one row. */
  lemma {:induction false} InExactlyOneRow(rows: seq<Step>, from: Date, to: Date, d: Date) returns (at: nat)
    requires Tiles(rows, from, to) && !Before(d, from) && Before(d, to)
    ensures at < |rows| && !Before(d, rows[at].from) && Before(d, rows[at].to)
    ensures forall i :: 0 <= i < |rows| && i != at ==> Before(d, rows[i].from) || !Before(d, rows[i].to)
    decreases |rows|
  {
    if |rows| == 1 {
      at := 0;
    } else {
      var rest := rows[1..];
      assert forall i :: 0 <= i < |rest| ==> rest[i] == rows[i + 1];
      if Before(d, rows[0].to) {
        at := 0;
        RowsAfter(rows, d, 0);
      } else {
        assert Tiles(rest, rows[0].to, to);
        var k := InExactlyOneRow(rest, rows[0].to, to, d);
        at := k + 1;
        forall i | 0 <= i < |rows| && i != at ensures Before(d, rows[i].from) || !Before(d, rows[i].to) {
          if i > 0 {
            assert rest[i - 1] == rows[i];
          }
        }
      }
    }
  }

  lemma {:induction false} RowsAfter(rows: seq<Step>, d: Date, at: nat)
    requires at < |rows| && Before(d, rows[at].to)
    requires forall i :: 0 <= i < |rows| ==> Before(rows[i].from, rows[i].to)
    requires forall i :: 0 <= i < |rows| - 1 ==> rows[i].to == rows[i + 1].from
    ensures forall i :: at < i < |rows| ==> Before(d, rows[i].from)
    decreases |rows| - at
  {
    if at + 1 < |rows| {
      RowsAfter(rows, d, at + 1);
    }
  }

  // ── The notice window ────────────────────────────────────────────────────

  const OPENS_MONTHS_BEFORE := 6

  datatype Window =
    | NoWindow
    | NotYet(deadline: Date, opensAt: Date)
    | InWindow(deadline: Date, opensAt: Date)
    | Closed(deadline: Date, opensAt: Date)

  /** `optionsLeft` is whether there is an option still to exercise. */
  function NoticeWindow(expiry: Option<Date>, today: Option<Date>, optionsLeft: bool, noticeMonths: Option<int>)
    : Window
  {
    if expiry.None? || today.None? || !optionsLeft || noticeMonths.None? || noticeMonths.value < 1 then NoWindow
    else
      var deadline := ShiftMonths(expiry.value, -noticeMonths.value);
      var opensAt := ShiftMonths(deadline, -OPENS_MONTHS_BEFORE);
      if Before(today.value, opensAt) then NotYet(deadline, opensAt)
      else if !Before(deadline, today.value) then InWindow(deadline, opensAt)
      else Closed(deadline, opensAt)
  }

  /** The window opens before it closes, and closes before the expiry: the deadline
      is the expiry's day so many months before, the opening the deadline's six
      months before that, and both days are inside. There is one exactly when there
      is an option to exercise, with real dates and at least a month's notice. */
  lemma WindowBeforeExpiry(expiry: Option<Date>, today: Option<Date>, optionsLeft: bool, noticeMonths: Option<int>)
    requires expiry.Some? ==> Valid(expiry.value)
    ensures
      var window := NoticeWindow(expiry, today, optionsLeft, noticeMonths);
      && (window == NoWindow
          <==> !(expiry.Some? && today.Some? && optionsLeft && noticeMonths.Some? && noticeMonths.value >= 1))
      && (window != NoWindow ==>
            var last, n := expiry.value, noticeMonths.value;
            && SameDayIn(last, last.year * 12 + last.month - 1 - n, window.deadline)
            && SameDayIn(window.deadline, last.year * 12 + last.month - 1 - n - 6, window.opensAt)
            && Before(window.opensAt, window.deadline) && Before(window.deadline, last)
            && (window.NotYet? <==> Before(today.value, window.opensAt))
            && (window.Closed? <==> Before(window.deadline, today.value)))
  {
    if NoticeWindow(expiry, today, optionsLeft, noticeMonths) != NoWindow {
      var last, n := expiry.value, noticeMonths.value;
      var deadline := ShiftMonths(last, -n);
      ShiftIsSameDay(last, -n, deadline);
      ShiftLands(last, -n);
      ShiftIsSameDay(deadline, -6, ShiftMonths(deadline, -6));
      ShiftLands(deadline, -6);
      hide ShiftMonths, Valid;
    }
  }
}
