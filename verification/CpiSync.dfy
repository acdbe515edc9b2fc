/** Bringing the stored CPI index into line with freshly fetched series: plan
    every region first, then write all plans in one transaction. */
module CpiSync {
  import opened Wrappers

  type Region = string

  /** A quarter, counted: year * 4 + (quarter - 1). */
  type Quarter = int

  datatype Observation = Observation(period: Quarter, value: real)

  datatype Series = Series(region: Region, base: string, sourceKey: string, dataflow: string,
                           observations: seq<Observation>)

  // ── Reading a series out of a response ───────────────────────────────────

  /** One quarter of the response; the value may be missing. */
  datatype Raw = Raw(period: Quarter, value: Option<real>)

  datatype Fault = NoValue | Empty | WrongStart | Gap | Stale

  function InsertByQuarter(sorted: seq<Observation>, o: Observation): (inserted: seq<Observation>)
    ensures |inserted| == |sorted| + 1
  {
    if sorted == [] || o.period < sorted[0].period then [o] + sorted
    else [sorted[0]] + InsertByQuarter(sorted[1..], o)
  }

  /** The observations sorted by quarter, or none when a value is missing. */
  function Ordered(raw: seq<Raw>): Option<seq<Observation>> {
    if raw == [] then Some([])
    else
      var last := raw[|raw| - 1];
      match Ordered(raw[..|raw| - 1])
      case None => None
      case Some(before) =>
        if last.value.None? then None
        else Some(InsertByQuarter(before, Observation(last.period, last.value.value)))
  }

  /** One observation a quarter, none left out, from `first`. */
  ghost predicate Contiguous(observations: seq<Observation>, first: Quarter) {
    forall i :: 0 <= i < |observations| ==> observations[i].period == first + i
  }

  method ExtractObservations(raw: seq<Raw>, start: Quarter, floor: Quarter)
      returns (extracted: Result<seq<Observation>, Fault>)
    ensures extracted.Ok? <==>
      && Ordered(raw).Some? && Ordered(raw).value != [] && Contiguous(Ordered(raw).value, start)
      && start + |Ordered(raw).value| - 1 >= floor
    ensures extracted.Ok? ==> extracted.value == Ordered(raw).value
    ensures extracted.Err? ==>
      && (extracted.error == NoValue <==> Ordered(raw).None?)
      && (extracted.error == Empty <==> Ordered(raw) == Some([]))
      && (extracted.error == WrongStart ==> Ordered(raw).value[0].period != start)
      && (extracted.error == Gap ==> Ordered(raw).value[0].period == start && !Contiguous(Ordered(raw).value, start))
      && (extracted.error == Stale ==> Contiguous(Ordered(raw).value, start))
  {
    var ordered := Ordered(raw);
    if ordered.None? {
      return Err(NoValue);
    }
    var observations := ordered.value;
    if observations == [] {
      return Err(Empty);
    }
    var first := observations[0].period;
    if first != start {
      return Err(WrongStart);
    }
    for i := 1 to |observations|
      invariant forall k :: 0 <= k < i ==> observations[k].period == start + k
    {
      if observations[i].period != first + i {
        return Err(Gap);
      }
    }
    if observations[|observations| - 1].period < floor {
      return Err(Stale);
    }
    extracted := Ok(observations);
  }

  function Periods(observations: seq<Observation>): multiset<Quarter> {
    if observations == [] then multiset{}
    else Periods(observations[..|observations| - 1]) + multiset{observations[|observations| - 1].period}
  }

  function RawPeriods(raw: seq<Raw>): multiset<Quarter> {
    if raw == [] then multiset{} else RawPeriods(raw[..|raw| - 1]) + multiset{raw[|raw| - 1].period}
  }

  lemma {:induction false} PeriodsConcat(a: seq<Observation>, b: seq<Observation>)
    ensures Periods(a + b) == Periods(a) + Periods(b)
  {
    if b == [] {
      assert a + b == a;
    } else {
      assert (a + b)[..|a + b| - 1] == a + b[..|b| - 1];
      PeriodsConcat(a, b[..|b| - 1]);
    }
  }

  lemma PeriodsCons(o: Observation, rest: seq<Observation>)
    ensures Periods([o] + rest) == multiset{o.period} + Periods(rest)
  {
    assert [o][..0] == [];
    assert Periods([o]) == multiset{o.period};
    PeriodsConcat([o], rest);
  }

  lemma {:induction false} InsertPeriods(sorted: seq<Observation>, o: Observation)
    ensures Periods(InsertByQuarter(sorted, o)) == Periods(sorted) + multiset{o.period}
  {
    hide Periods;
    if sorted == [] || o.period < sorted[0].period {
      PeriodsCons(o, sorted);
    } else {
      InsertPeriods(sorted[1..], o);
      PeriodsCons(sorted[0], InsertByQuarter(sorted[1..], o));
      PeriodsCons(sorted[0], sorted[1..]);
      assert sorted == [sorted[0]] + sorted[1..];
    }
  }

  /** Whatever order the response came in, nothing is lost or repeated by sorting
      it; so an accepted series has each quarter from the start exactly once. */
  lemma {:induction false} OrderedKeepsPeriods(raw: seq<Raw>)
    requires Ordered(raw).Some?
    ensures Periods(Ordered(raw).value) == RawPeriods(raw) && |Ordered(raw).value| == |raw|
  {
    if raw != [] {
      var last := raw[|raw| - 1];
      OrderedKeepsPeriods(raw[..|raw| - 1]);
      InsertPeriods(Ordered(raw[..|raw| - 1]).value, Observation(last.period, last.value.value));
    }
  }

  // ── The stored index ─────────────────────────────────────────────────────

  /** A row as stored; the value is DECIMAL(10,3), kept here in thousandths. */
  datatype Row = Row(value: int, base: Option<string>, sourceKey: Option<string>, dataflow: Option<string>,
                     fetchedAt: nat)

  datatype Key = Key(region: Region, period: Quarter)

  type Table = map<Key, Row>

  function Scaled(value: real): int { (value * 1000.0 + 0.5).Floor }

  /** The value fits DECIMAL(10,3) without rounding. */
  predicate Representable(value: real) {
    var exact := value * 1000.0;
    var off := exact - Scaled(value) as real;
    -10000000.0 < value < 10000000.0 && -0.000001 <= off <= 0.000001
  }

  predicate Matches(row: Row, series: Series, o: Observation) {
    && row.value == Scaled(o.value) && row.base == Some(series.base)
    && row.sourceKey == Some(series.sourceKey) && row.dataflow == Some(series.dataflow)
  }

  function KeyOf(series: Series, o: Observation): Key { Key(series.region, o.period) }

  // ── The plan ─────────────────────────────────────────────────────────────

  datatype Counts = Counts(inserted: nat, updated: nat, restated: nat, same: nat)

  datatype Plan = Plan(series: Series, toWrite: seq<Observation>, counts: Counts)

  predicate Writes(table: Table, series: Series, o: Observation) {
    KeyOf(series, o) !in table || !Matches(table[KeyOf(series, o)], series, o)
  }

  function ToWrite(table: Table, series: Series, observations: seq<Observation>): seq<Observation> {
    if observations == [] then []
    else
      var last := observations[|observations| - 1];
      ToWrite(table, series, observations[..|observations| - 1]) + if Writes(table, series, last) then [last] else []
  }

  function Counted(table: Table, series: Series, observations: seq<Observation>): Counts {
    if observations == [] then Counts(0, 0, 0, 0)
    else
      var before, last := Counted(table, series, observations[..|observations| - 1]), observations[|observations| - 1];
      if KeyOf(series, last) !in table then before.(inserted := before.inserted + 1)
      else
        var row := table[KeyOf(series, last)];
        if Matches(row, series, last) then before.(same := before.same + 1)
        else if row.base.Some? && row.base != Some(series.base) then before.(restated := before.restated + 1)
        else before.(updated := before.updated + 1)
  }

  function LastOf(series: Series): Quarter
    requires series.observations != []
  {
    series.observations[|series.observations| - 1].period
  }

  /** Some stored quarter of the region is later than the series'. */
  ghost predicate Regresses(table: Table, series: Series)
    requires series.observations != []
  {
    exists key :: key in table && key.region == series.region && key.period > LastOf(series)
  }

  function PlanFor(table: Table, series: Series): Plan {
    Plan(series, ToWrite(table, series, series.observations), Counted(table, series, series.observations))
  }

  method PlanRegion(table: Table, series: Series) returns (plan: Option<Plan>)
    requires series.observations != []
    ensures plan.None? <==> Regresses(table, series)
    ensures plan.Some? ==> plan.value == PlanFor(table, series)
  {
    if exists key :: key in table && key.region == series.region && key.period > LastOf(series) {
      return None;
    }
    var toWrite: seq<Observation> := [];
    var inserted: nat, updated: nat, restated: nat, same: nat := 0, 0, 0, 0;
    for i := 0 to |series.observations|
      invariant toWrite == ToWrite(table, series, series.observations[..i])
      invariant Counts(inserted, updated, restated, same) == Counted(table, series, series.observations[..i])
    {
      assert series.observations[..i + 1][..|series.observations[..i + 1]| - 1] == series.observations[..i];
      var o := series.observations[i];
      if KeyOf(series, o) !in table {
        inserted := inserted + 1;
        toWrite := toWrite + [o];
      } else {
        var row := table[KeyOf(series, o)];
        if Matches(row, series, o) {
          same := same + 1;
        } else {
          if row.base.Some? && row.base != Some(series.base) {
            restated := restated + 1;
          } else {
            updated := updated + 1;
          }
          toWrite := toWrite + [o];
        }
      }
    }
    assert series.observations[..|series.observations|] == series.observations;
    plan := Some(Plan(series, toWrite, Counts(inserted, updated, restated, same)));
  }

  // ── The write ────────────────────────────────────────────────────────────

  function RowFor(series: Series, o: Observation, now: nat): Row {
    Row(Scaled(o.value), Some(series.base), Some(series.sourceKey), Some(series.dataflow), now)
  }

  function Upserted(table: Table, series: Series, observations: seq<Observation>, now: nat): Table {
    if observations == [] then table
    else
      var last := observations[|observations| - 1];
      Upserted(table, series, observations[..|observations| - 1], now)[KeyOf(series, last) := RowFor(series, last, now)]
  }

  predicate InRange(series: Series, key: Key) {
    series.observations != [] && key.region == series.region
      && series.observations[0].period <= key.period <= LastOf(series)
  }

  function Confirmed(table: Table, series: Series, now: nat): Table {
    map key | key in table :: if InRange(series, key) then table[key].(fetchedAt := now) else table[key]
  }

  function PlanWritten(table: Table, plan: Plan, now: nat): Table {
    Confirmed(Upserted(table, plan.series, plan.toWrite, now), plan.series, now)
  }

  predicate AllFetched(list: seq<Series>) { forall i :: 0 <= i < |list| ==> list[i].observations != [] }

  function PlansFor(table: Table, list: seq<Series>): seq<Plan> {
    seq(|list|, i requires 0 <= i < |list| => PlanFor(table, list[i]))
  }

  function PlansWritten(table: Table, plans: seq<Plan>, now: nat): Table {
    if plans == [] then table
    else PlanWritten(PlansWritten(table, plans[..|plans| - 1], now), plans[|plans| - 1], now)
  }

  /** Refused before anything is written: a value that would be rounded, or a
      series older than what is stored. */
  ghost predicate Accepted(table: Table, list: seq<Series>)
    requires AllFetched(list)
  {
    && (forall i, k :: 0 <= i < |list| && 0 <= k < |list[i].observations| ==>
          Representable(list[i].observations[k].value))
    && (forall i :: 0 <= i < |list| ==> !Regresses(table, list[i]))
  }

  class CpiIndex {
    var rows: Table

    constructor ()
      ensures rows == map[]
    {
      rows := map[];
    }

    method WritePlans(plans: seq<Plan>, now: nat)
      modifies this
      ensures rows == PlansWritten(old(rows), plans, now)
    {
      hide Confirmed;
      for i := 0 to |plans|
        invariant rows == PlansWritten(old(rows), plans[..i], now)
      {
        assert plans[..i + 1][..|plans[..i + 1]| - 1] == plans[..i];
        var series, toWrite := plans[i].series, plans[i].toWrite;
        ghost var before := rows;
        for k := 0 to |toWrite|
          invariant rows == Upserted(before, series, toWrite[..k], now)
        {
          assert toWrite[..k + 1][..|toWrite[..k + 1]| - 1] == toWrite[..k];
          rows := rows[KeyOf(series, toWrite[k]) := RowFor(series, toWrite[k], now)];
        }
        assert toWrite[..|toWrite|] == toWrite;
        rows := Confirmed(rows, series, now);
      }
      assert plans[..|plans|] == plans;
    }

    /** `fails` is whether some statement fails after the transaction begins. */
    method SyncCpiIndex(list: seq<Series>, now: nat, fails: bool) returns (result: Option<seq<Counts>>)
      requires AllFetched(list)
      modifies this
      ensures result.Some? <==> Accepted(old(rows), list) && !fails
      ensures result.None? ==> rows == old(rows)
      ensures result.Some? ==>
        && rows == PlansWritten(old(rows), PlansFor(old(rows), list), now)
        && |result.value| == |list|
        && forall i :: 0 <= i < |list| ==> result.value[i] == Counted(old(rows), list[i], list[i].observations)
    {
      hide Representable, Counted, ToWrite, PlansWritten;
      for i := 0 to |list|
        invariant rows == old(rows)
        invariant forall j, k ::
          0 <= j < i && 0 <= k < |list[j].observations| ==> Representable(list[j].observations[k].value)
      {
        for k := 0 to |list[i].observations|
          invariant rows == old(rows)
          invariant forall m :: 0 <= m < k ==> Representable(list[i].observations[m].value)
        {
          if !Representable(list[i].observations[k].value) {
            return None;
          }
        }
      }
      var plans: seq<Plan> := [];
      for i := 0 to |list|
        invariant rows == old(rows) && |plans| == i
        invariant forall j :: 0 <= j < i ==> !Regresses(rows, list[j]) && plans[j] == PlanFor(rows, list[j])
      {
        var plan := PlanRegion(rows, list[i]);
        if plan.None? {
          return None;
        }
        plans := plans + [plan.value];
      }
      if fails {
        return None;
      }
      assert plans == PlansFor(rows, list);
      WritePlans(plans, now);
      result := Some(seq(|plans|, i requires 0 <= i < |plans| => plans[i].counts));
    }
  }

  // ── What a sync leaves ───────────────────────────────────────────────────

  /** Every observation is counted once. */
  lemma {:induction false} CountsAddUp(table: Table, series: Series, observations: seq<Observation>)
    ensures
      var counts := Counted(table, series, observations);
      && counts.inserted + counts.updated + counts.restated + counts.same == |observations|
      && counts.inserted + counts.updated + counts.restated == |ToWrite(table, series, observations)|
  {
    if observations != [] {
      CountsAddUp(table, series, observations[..|observations| - 1]);
    }
  }

  function RowIn(table: Table, key: Key): Option<Row> { if key in table then Some(table[key]) else None }

  lemma {:induction false} UpsertedRows(table: Table, series: Series, observations: seq<Observation>, now: nat,
                                        key: Key)
    ensures
      var after := RowIn(Upserted(table, series, observations, now), key);
      if forall i :: 0 <= i < |observations| ==> KeyOf(series, observations[i]) != key then after == RowIn(table, key)
      else exists i :: 0 <= i < |observations| && KeyOf(series, observations[i]) == key
             && after == Some(RowFor(series, observations[i], now))
  {
    hide RowFor;
    if observations != [] {
      var n := |observations| - 1;
      UpsertedRows(table, series, observations[..n], now, key);
      assert forall i :: 0 <= i < n ==> observations[..n][i] == observations[i];
      assert KeyOf(series, observations[n]) == key ==>
        RowIn(Upserted(table, series, observations, now), key) == Some(RowFor(series, observations[n], now));
    }
  }

  lemma {:induction false} ToWriteHas(table: Table, series: Series, observations: seq<Observation>, o: Observation)
    ensures o in ToWrite(table, series, observations) <==> o in observations && Writes(table, series, o)
  {
    hide Writes;
    if observations != [] {
      var n := |observations| - 1;
      ToWriteHas(table, series, observations[..n], o);
      assert observations == observations[..n] + [observations[n]];
    }
  }

  predicate Whole(series: Series) {
    series.observations != []
    && forall i :: 0 <= i < |series.observations| ==> series.observations[i].period == series.observations[0].period + i
  }

  /** A series accepted from a response is whole. */
  lemma AcceptedIsWhole(series: Series, raw: seq<Raw>, start: Quarter)
    requires Ordered(raw) == Some(series.observations) && Contiguous(series.observations, start)
    requires series.observations != []
    ensures Whole(series)
  {
  }

  /** The series' own row at a quarter it has. */
  function FetchedRow(series: Series, key: Key, now: nat): Row
    requires Whole(series) && InRange(series, key)
  {
    RowFor(series, series.observations[key.period - series.observations[0].period], now)
  }

  lemma UpsertLeaves(table: Table, series: Series, now: nat, key: Key)
    requires Whole(series)
    ensures
      var after := RowIn(Upserted(table, series, ToWrite(table, series, series.observations), now), key);
      if InRange(series, key) then after.Some? && after.value.(fetchedAt := now) == FetchedRow(series, key, now)
      else after == RowIn(table, key)
  {
    var toWrite := ToWrite(table, series, series.observations);
    UpsertedRows(table, series, toWrite, now, key);
    hide Upserted, ToWrite, Scaled;
    forall o ensures o in toWrite <==> o in series.observations && Writes(table, series, o) {
      ToWriteHas(table, series, series.observations, o);
    }
    forall i | 0 <= i < |toWrite|
      ensures toWrite[i] in series.observations
      ensures KeyOf(series, toWrite[i]) == key ==>
        InRange(series, key) && toWrite[i] == series.observations[key.period - series.observations[0].period]
    {
      assert toWrite[i] in toWrite;
    }
    if InRange(series, key) {
      var o := series.observations[key.period - series.observations[0].period];
      assert o in series.observations && KeyOf(series, o) == key;
      if Writes(table, series, o) {
        assert o in toWrite;
      } else {
        assert forall i :: 0 <= i < |toWrite| ==> toWrite[i] in toWrite;
      }
    }
  }

  /** After a plan is written, each quarter of the series holds the series' own
      row, confirmed now, and every other row is as it was. */
  lemma PlanLeaves(table: Table, series: Series, now: nat, key: Key)
    requires Whole(series)
    ensures RowIn(PlanWritten(table, PlanFor(table, series), now), key)
         == if InRange(series, key) then Some(FetchedRow(series, key, now)) else RowIn(table, key)
  {
    UpsertLeaves(table, series, now, key);
    hide Upserted, ToWrite, RowFor, Counted, InRange, FetchedRow;
  }

  predicate DistinctRegions(list: seq<Series>) {
    (forall i :: 0 <= i < |list| ==> Whole(list[i]))
    && forall i, j :: 0 <= i < j < |list| ==> list[i].region != list[j].region
  }

  /** A plan depends only on its own region's rows. */
  lemma {:induction false} PlanLocal(a: Table, b: Table, series: Series, observations: seq<Observation>)
    requires forall key: Key :: key.region == series.region ==> RowIn(a, key) == RowIn(b, key)
    ensures ToWrite(a, series, observations) == ToWrite(b, series, observations)
  {
    hide Matches;
    if observations != [] {
      assert RowIn(a, KeyOf(series, observations[|observations| - 1]))
        == RowIn(b, KeyOf(series, observations[|observations| - 1]));
      PlanLocal(a, b, series, observations[..|observations| - 1]);
    }
  }

  /** What a sync of several regions leaves at a key: its region's series where
      the quarter was fetched, and the old row everywhere else. */
  function Expected(table: Table, list: seq<Series>, now: nat, key: Key): Option<Row>
    requires DistinctRegions(list)
  {
    if list == [] then RowIn(table, key)
    else
      var series := list[|list| - 1];
      if InRange(series, key) then Some(FetchedRow(series, key, now))
      else Expected(table, list[..|list| - 1], now, key)
  }

  lemma WrittenUnfolds(table: Table, list: seq<Series>, now: nat)
    requires DistinctRegions(list) && list != []
    ensures
      var n := |list| - 1;
      && DistinctRegions(list[..n]) && Whole(list[n])
      && PlansWritten(table, PlansFor(table, list), now)
         == PlanWritten(PlansWritten(table, PlansFor(table, list[..n]), now), PlanFor(table, list[n]), now)
  {
    hide PlanWritten, PlanFor;
    var n, plans := |list| - 1, PlansFor(table, list);
    assert plans[..n] == PlansFor(table, list[..n]);
    assert plans[n] == PlanFor(table, list[n]);
  }

  lemma {:induction false} SyncLeaves(table: Table, list: seq<Series>, now: nat, key: Key)
    requires DistinctRegions(list)
    ensures RowIn(PlansWritten(table, PlansFor(table, list), now), key) == Expected(table, list, now, key)
    decreases |list|, 1
  {
    if list != [] {
      var n := |list| - 1;
      WrittenUnfolds(table, list, now);
      ExpectedUnfolds(table, list, now, key);
      BeforeSame(table, list, now);
      SyncLeaves(table, list[..n], now, key);
      hide PlanWritten, PlansWritten, ToWrite, Counted, RowFor, Expected, PlansFor, RowIn, FetchedRow, DistinctRegions;
      var before := PlansWritten(table, PlansFor(table, list[..n]), now);
      PlanLocal(table, before, list[n], list[n].observations);
      PlanLeaves(before, list[n], now, key);
      SameWrite(before, PlanFor(table, list[n]), PlanFor(before, list[n]), now);
    }
  }

  /** Writing the other regions' plans leaves the last region's rows alone. */
  lemma BeforeSame(table: Table, list: seq<Series>, now: nat)
    requires DistinctRegions(list) && list != []
    ensures
      var n := |list| - 1;
      forall other: Key :: other.region == list[n].region ==>
        RowIn(table, other) == RowIn(PlansWritten(table, PlansFor(table, list[..n]), now), other)
    decreases |list|, 0
  {
    hide PlansWritten, RowIn, Expected, PlansFor;
    var n := |list| - 1;
    forall other: Key | other.region == list[n].region
      ensures RowIn(table, other) == RowIn(PlansWritten(table, PlansFor(table, list[..n]), now), other)
    {
      SyncLeaves(table, list[..n], now, other);
      ElsewhereExpected(table, list[..n], now, other);
    }
  }

  lemma SameWrite(table: Table, a: Plan, b: Plan, now: nat)
    requires a.series == b.series && a.toWrite == b.toWrite
    ensures PlanWritten(table, a, now) == PlanWritten(table, b, now)
  {
  }

  lemma ExpectedUnfolds(table: Table, list: seq<Series>, now: nat, key: Key)
    requires DistinctRegions(list) && list != []
    ensures
      var series := list[|list| - 1];
      Expected(table, list, now, key)
      == if InRange(series, key) then Some(FetchedRow(series, key, now))
         else Expected(table, list[..|list| - 1], now, key)
  {
    hide RowFor;
  }

  lemma {:induction false} ElsewhereExpected(table: Table, list: seq<Series>, now: nat, key: Key)
    requires DistinctRegions(list) && forall i :: 0 <= i < |list| ==> list[i].region != key.region
    ensures Expected(table, list, now, key) == RowIn(table, key)
  {
    if list != [] {
      ElsewhereExpected(table, list[..|list| - 1], now, key);
    }
  }

  lemma {:induction false} FetchedExpected(table: Table, list: seq<Series>, now: nat, i: nat, k: nat)
    requires DistinctRegions(list) && i < |list| && k < |list[i].observations|
    ensures Expected(table, list, now, KeyOf(list[i], list[i].observations[k]))
      == Some(RowFor(list[i], list[i].observations[k], now))
  {
    hide RowFor;
    if i < |list| - 1 {
      FetchedExpected(table, list[..|list| - 1], now, i, k);
    }
  }

  lemma {:induction false} OutsideExpected(table: Table, list: seq<Series>, now: nat, key: Key)
    requires DistinctRegions(list) && forall i :: 0 <= i < |list| ==> !InRange(list[i], key)
    ensures Expected(table, list, now, key) == RowIn(table, key)
  {
    if list != [] {
      OutsideExpected(table, list[..|list| - 1], now, key);
    }
  }

  /** A committed sync leaves every fetched quarter with the series' value and
      base, confirmed now, and every row outside the fetched ranges untouched. */
  lemma SyncMatchesSeries(table: Table, list: seq<Series>, now: nat)
    requires DistinctRegions(list)
    ensures
      var after := PlansWritten(table, PlansFor(table, list), now);
      && (forall i, k :: 0 <= i < |list| && 0 <= k < |list[i].observations| ==>
            RowIn(after, KeyOf(list[i], list[i].observations[k]))
              == Some(RowFor(list[i], list[i].observations[k], now)))
      && (forall key :: (forall i :: 0 <= i < |list| ==> !InRange(list[i], key)) ==>
            RowIn(after, key) == RowIn(table, key))
  {
    hide RowFor, Expected, PlansWritten, RowIn, InRange;
    forall i, k | 0 <= i < |list| && 0 <= k < |list[i].observations|
      ensures RowIn(PlansWritten(table, PlansFor(table, list), now), KeyOf(list[i], list[i].observations[k]))
           == Some(RowFor(list[i], list[i].observations[k], now))
    {
      SyncLeaves(table, list, now, KeyOf(list[i], list[i].observations[k]));
      FetchedExpected(table, list, now, i, k);
    }
    forall key | forall i :: 0 <= i < |list| ==> !InRange(list[i], key)
      ensures RowIn(PlansWritten(table, PlansFor(table, list), now), key) == RowIn(table, key)
    {
      SyncLeaves(table, list, now, key);
      OutsideExpected(table, list, now, key);
    }
  }

  lemma {:induction false} NothingToWrite(table: Table, series: Series, observations: seq<Observation>)
    requires forall k :: 0 <= k < |observations| ==> !Writes(table, series, observations[k])
    ensures ToWrite(table, series, observations) == []
    ensures Counted(table, series, observations) == Counts(0, 0, 0, |observations|)
  {
    if observations != [] {
      NothingToWrite(table, series, observations[..|observations| - 1]);
    }
  }

  /** The same sync again is accepted, writes no value and counts every quarter
      unchanged. */
  lemma SecondSyncWritesNothing(table: Table, list: seq<Series>, now: nat, i: nat)
    requires DistinctRegions(list) && AllFetched(list) && Accepted(table, list) && i < |list|
    ensures
      var after := PlansWritten(table, PlansFor(table, list), now);
      && !Regresses(after, list[i])
      && PlanFor(after, list[i]).toWrite == []
      && PlanFor(after, list[i]).counts == Counts(0, 0, 0, |list[i].observations|)
  {
    SyncMatchesSeries(table, list, now);
    var after := PlansWritten(table, PlansFor(table, list), now);
    var series := list[i];
    hide PlansWritten, Scaled, Representable;
    forall k | 0 <= k < |series.observations| ensures !Writes(after, series, series.observations[k]) {
      assert RowIn(after, KeyOf(list[i], list[i].observations[k]))
        == Some(RowFor(list[i], list[i].observations[k], now));
    }
    NothingToWrite(after, series, series.observations);
    LatestIsFetched(table, list, now, i);
  }

  /** After a committed sync no stored quarter of a fetched region is later than
      the series' last, which is stored: the latest is exactly what was fetched,
      and a sync that would move it back is refused. */
  lemma LatestIsFetched(table: Table, list: seq<Series>, now: nat, i: nat)
    requires DistinctRegions(list) && AllFetched(list) && Accepted(table, list) && i < |list|
    ensures
      var after := PlansWritten(table, PlansFor(table, list), now);
      && !Regresses(after, list[i]) && Key(list[i].region, LastOf(list[i])) in after
      && forall key :: key in table ==> key in after
  {
    SyncMatchesSeries(table, list, now);
    var after := PlansWritten(table, PlansFor(table, list), now);
    var series := list[i];
    hide PlansWritten, RowFor, Representable;
    var last := |series.observations| - 1;
    assert RowIn(after, KeyOf(list[i], list[i].observations[last])).Some?;
    forall key | key in after && key.region == series.region ensures key.period <= LastOf(series) {
      if !InRange(series, key) {
        assert forall j :: 0 <= j < |list| ==> !InRange(list[j], key);
        assert RowIn(after, key) == RowIn(table, key);
        assert key in table;
      }
    }
    forall key | key in table ensures key in after {
      KeptKey(table, list, now, key);
    }
  }

  lemma KeptKey(table: Table, list: seq<Series>, now: nat, key: Key)
    requires DistinctRegions(list) && key in table
    ensures key in PlansWritten(table, PlansFor(table, list), now)
  {
    SyncLeaves(table, list, now, key);
    ExpectedKept(table, list, now, key);
    hide PlansWritten, Expected;
  }

  lemma {:induction false} ExpectedKept(table: Table, list: seq<Series>, now: nat, key: Key)
    requires DistinctRegions(list) && key in table
    ensures Expected(table, list, now, key).Some?
  {
    if list != [] {
      ExpectedKept(table, list[..|list| - 1], now, key);
    }
  }

  // ── Runs of syncs ────────────────────────────────────────────────────────

  datatype Attempt = Attempt(list: seq<Series>, now: nat, fails: bool)

  ghost predicate Commits(table: Table, attempt: Attempt) {
    DistinctRegions(attempt.list) && AllFetched(attempt.list) && Accepted(table, attempt.list) && !attempt.fails
  }

  ghost function After(table: Table, attempts: seq<Attempt>): Table {
    if attempts == [] then table
    else
      var before, last := After(table, attempts[..|attempts| - 1]), attempts[|attempts| - 1];
      if Commits(before, last) then PlansWritten(before, PlansFor(before, last.list), last.now) else before
  }

  /** Over any run of syncs, failed and refused ones among them, no stored quarter
      is ever lost, so the latest stored period of a region never goes back. */
  lemma {:induction false} NeverGoesBack(table: Table, attempts: seq<Attempt>, i: nat, key: Key)
    requires i <= |attempts| && key in After(table, attempts[..i])
    ensures key in After(table, attempts)
    decreases |attempts|
  {
    hide PlansWritten, PlansFor, Accepted, AllFetched, DistinctRegions;
    if i == |attempts| {
      assert attempts[..i] == attempts;
    } else {
      var n := |attempts| - 1;
      assert attempts[..n][..i] == attempts[..i];
      NeverGoesBack(table, attempts[..n], i, key);
      var before, last := After(table, attempts[..n]), attempts[n];
      assert After(table, attempts)
          == if Commits(before, last) then PlansWritten(before, PlansFor(before, last.list), last.now) else before;
      hide After;
      if Commits(before, last) {
        KeptKey(before, last.list, last.now, key);
      }
    }
  }
}
