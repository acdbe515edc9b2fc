/** What a CPI sync accepts, counts and leaves stored, written out over the response,
    the series and the table alone. */
module CpiRules {
  import opened Wrappers
  import opened CpiSync

  // ── The series read from a response ──────────────────────────────────────

  /** The response's quarters with their values, as they came. */
  function Sent(raw: seq<Raw>): seq<Observation>
    requires forall i :: 0 <= i < |raw| ==> raw[i].value.Some?
  {
    seq(|raw|, i requires 0 <= i < |raw| => Observation(raw[i].period, raw[i].value.value))
  }

  ghost predicate Rising(observations: seq<Observation>) {
    forall i, j :: 0 <= i < j < |observations| ==> observations[i].period <= observations[j].period
  }

  lemma {:induction false} InsertedRises(sorted: seq<Observation>, o: Observation)
    requires Rising(sorted)
    ensures Rising(InsertByQuarter(sorted, o))
    ensures multiset(InsertByQuarter(sorted, o)) == multiset(sorted) + multiset{o}
  {
    if sorted == [] || o.period < sorted[0].period {
      assert multiset([o] + sorted) == multiset([o]) + multiset(sorted);
    } else {
      InsertedRises(sorted[1..], o);
      assert sorted == [sorted[0]] + sorted[1..];
      LaterRises(sorted, o, InsertByQuarter(sorted[1..], o));
    }
  }

  lemma LaterRises(sorted: seq<Observation>, o: Observation, tail: seq<Observation>)
    requires sorted != [] && Rising(sorted) && o.period >= sorted[0].period && Rising(tail)
    requires multiset(tail) == multiset(sorted[1..]) + multiset{o}
    ensures Rising([sorted[0]] + tail)
  {
    forall j | 0 <= j < |tail| ensures sorted[0].period <= tail[j].period {
      assert tail[j] in multiset(tail);
      assert tail[j] == o || tail[j] in sorted[1..];
    }
  }

  lemma {:induction false} OrderedWhenGiven(raw: seq<Raw>)
    ensures Ordered(raw).Some? <==> forall i :: 0 <= i < |raw| ==> raw[i].value.Some?
  {
    if raw != [] {
      var n := |raw| - 1;
      OrderedWhenGiven(raw[..n]);
      assert forall i :: 0 <= i < n ==> raw[..n][i] == raw[i];
    }
  }

  /** The observations are the response's, sorted by quarter; there are none to read
      exactly when a value is missing. */
  lemma {:induction false} OrderedRule(raw: seq<Raw>)
    ensures Ordered(raw).Some? <==> forall i :: 0 <= i < |raw| ==> raw[i].value.Some?
    ensures Ordered(raw).Some? ==>
      Rising(Ordered(raw).value) && multiset(Ordered(raw).value) == multiset(Sent(raw))
  {
    OrderedWhenGiven(raw);
    if Ordered(raw).Some? {
      if raw == [] {
        assert Sent(raw) == [];
      } else {
        var n := |raw| - 1;
        OrderedRule(raw[..n]);
        hide InsertByQuarter, Rising, Sent;
        InsertedRises(Ordered(raw[..n]).value, Observation(raw[n].period, raw[n].value.value));
        SentSnoc(raw);
      }
    }
  }

  lemma SentSnoc(raw: seq<Raw>)
    requires raw != [] && forall i :: 0 <= i < |raw| ==> raw[i].value.Some?
    ensures
      var n := |raw| - 1;
      && (forall i :: 0 <= i < n ==> raw[..n][i].value.Some?)
      && multiset(Sent(raw)) == multiset(Sent(raw[..n])) + multiset{Observation(raw[n].period, raw[n].value.value)}
  {
    var n := |raw| - 1;
    assert forall i :: 0 <= i < n ==> raw[..n][i] == raw[i];
    assert Sent(raw) == Sent(raw[..n]) + [Observation(raw[n].period, raw[n].value.value)];
  }

  // ── What is accepted ─────────────────────────────────────────────────────

  /** A value in thousandths, as near to it as a whole number is, below ten million. */
  ghost predicate InThousandths(value: real, stored: int) {
    var off := 1000.0 * value - stored as real;
    -10_000_000.0 < value < 10_000_000.0 && -0.000001 <= off <= 0.000001
  }

  ghost predicate Fits(value: real) { exists stored: int :: InThousandths(value, stored) }

  /** A sync is accepted exactly when every value is a number of thousandths and no
      region has a stored quarter later than its series' last. */
  lemma AcceptedRule(table: Table, list: seq<Series>)
    requires AllFetched(list)
    ensures Accepted(table, list) <==>
      && (forall i, k :: 0 <= i < |list| && 0 <= k < |list[i].observations| ==>
            Fits(list[i].observations[k].value))
      && forall i, key :: 0 <= i < |list| && key in table && key.region == list[i].region ==>
           key.period <= list[i].observations[|list[i].observations| - 1].period
  {
    hide Representable, Fits;
    forall i, k | 0 <= i < |list| && 0 <= k < |list[i].observations|
      ensures Representable(list[i].observations[k].value) <==> Fits(list[i].observations[k].value)
    {
      StoredIsNearest(list[i].observations[k].value);
    }
    forall i | 0 <= i < |list|
      ensures Regresses(table, list[i])
         <==> exists key :: key in table && key.region == list[i].region
                            && key.period > list[i].observations[|list[i].observations| - 1].period
    {
    }
  }

  lemma StoredIsNearest(value: real)
    ensures Representable(value) <==> Fits(value)
    ensures Representable(value) ==> InThousandths(value, Scaled(value))
  {
    if Representable(value) {
      assert InThousandths(value, Scaled(value));
    }
    if stored: int :| InThousandths(value, stored) {
      assert (1000.0 * value + 0.5).Floor == stored;
    }
  }

  // ── What is left stored ──────────────────────────────────────────────────

  /** The row of an observation: its value in thousandths, with the series' base,
      source and dataflow, fetched now. */
  ghost predicate IsFetched(row: Row, series: Series, o: Observation, now: nat) {
    && InThousandths(o.value, row.value) && row.base == Some(series.base) && row.sourceKey == Some(series.sourceKey)
    && row.dataflow == Some(series.dataflow) && row.fetchedAt == now
  }

  /** The quarter is one of the series' region, from its first to its last. */
  ghost predicate Covered(series: Series, key: Key) {
    && series.observations != [] && key.region == series.region
    && series.observations[0].period <= key.period <= series.observations[|series.observations| - 1].period
  }

  /** After an accepted sync every quarter fetched holds its series' row, and every
      other row is as it was, or missing as it was. */
  lemma StoredRule(table: Table, list: seq<Series>, now: nat)
    requires DistinctRegions(list) && AllFetched(list) && Accepted(table, list)
    ensures
      var after := PlansWritten(table, PlansFor(table, list), now);
      && (forall i, k :: 0 <= i < |list| && 0 <= k < |list[i].observations| ==>
            var key := Key(list[i].region, list[i].observations[k].period);
            key in after && IsFetched(after[key], list[i], list[i].observations[k], now))
      && forall key: Key :: (forall i :: 0 <= i < |list| ==> !Covered(list[i], key)) ==>
           (key in after <==> key in table) && (key in table ==> after[key] == table[key])
  {
    SyncMatchesSeries(table, list, now);
    var after := PlansWritten(table, PlansFor(table, list), now);
    hide PlansWritten, InThousandths, Scaled, Representable, RowFor;
    forall i, k | 0 <= i < |list| && 0 <= k < |list[i].observations|
      ensures
        var key := Key(list[i].region, list[i].observations[k].period);
        key in after && IsFetched(after[key], list[i], list[i].observations[k], now)
    {
      var o := list[i].observations[k];
      StoredIsNearest(o.value);
      RowForIs(list[i], o, now);
      assert KeyOf(list[i], o) == Key(list[i].region, o.period);
      assert RowIn(after, KeyOf(list[i], list[i].observations[k]))
          == Some(RowFor(list[i], list[i].observations[k], now));
    }
    forall key: Key | forall i :: 0 <= i < |list| ==> !Covered(list[i], key)
      ensures (key in after <==> key in table) && (key in table ==> after[key] == table[key])
    {
      assert forall i :: 0 <= i < |list| ==> !InRange(list[i], key);
      assert RowIn(after, key) == RowIn(table, key);
    }
  }

  lemma RowForIs(series: Series, o: Observation, now: nat)
    requires InThousandths(o.value, Scaled(o.value))
    ensures IsFetched(RowFor(series, o, now), series, o, now)
  {
    hide InThousandths, Scaled;
  }

  // ── What is counted and written ──────────────────────────────────────────

  /** How an observation stands to what is stored. */
  datatype Standing = New | Same | OtherBase | Changed

  ghost function StandingOf(table: Table, series: Series, o: Observation): Standing {
    var key := Key(series.region, o.period);
    if key !in table then New
    else if InThousandths(o.value, table[key].value) && table[key].base == Some(series.base)
            && table[key].sourceKey == Some(series.sourceKey) && table[key].dataflow == Some(series.dataflow) then Same
    else if table[key].base.Some? && table[key].base != Some(series.base) then OtherBase
    else Changed
  }

  ghost function HowMany(table: Table, series: Series, observations: seq<Observation>, standing: Standing): nat {
    if observations == [] then 0
    else
      var n := |observations| - 1;
      HowMany(table, series, observations[..n], standing)
      + if StandingOf(table, series, observations[n]) == standing then 1 else 0
  }

  ghost predicate AllInThousandths(observations: seq<Observation>) {
    forall o <- observations :: Fits(o.value)
  }

  lemma StandingIs(table: Table, series: Series, o: Observation)
    requires Fits(o.value)
    ensures KeyOf(series, o) == Key(series.region, o.period)
    ensures KeyOf(series, o) in table ==>
      (Matches(table[KeyOf(series, o)], series, o) <==> StandingOf(table, series, o) == Same)
    ensures Writes(table, series, o) <==> StandingOf(table, series, o) != Same
  {
    StoredIsNearest(o.value);
    if KeyOf(series, o) in table {
      OneNearest(o.value, table[KeyOf(series, o)].value);
    }
    hide InThousandths, Scaled, Representable;
  }

  lemma OneNearest(value: real, stored: int)
    requires InThousandths(value, Scaled(value))
    ensures InThousandths(value, stored) <==> stored == Scaled(value)
  {
  }

  /** A quarter is counted as inserted when it is not stored, unchanged when stored
      the same, restated when stored on another base and updated otherwise, and all
      but the unchanged are written, in order. */
  lemma {:induction false} CountsRule(table: Table, series: Series, observations: seq<Observation>)
    requires AllInThousandths(observations)
    ensures
      var counts := Counted(table, series, observations);
      && counts.inserted == HowMany(table, series, observations, New)
      && counts.same == HowMany(table, series, observations, Same)
      && counts.restated == HowMany(table, series, observations, OtherBase)
      && counts.updated == HowMany(table, series, observations, Changed)
    ensures forall o ::
      o in ToWrite(table, series, observations) <==> o in observations && StandingOf(table, series, o) != Same
  {
    if observations != [] {
      var n := |observations| - 1;
      assert observations[n] in observations && forall o <- observations[..n] :: o in observations;
      CountsRule(table, series, observations[..n]);
      StandingIs(table, series, observations[n]);
      forall o ensures o in ToWrite(table, series, observations)
        <==> o in observations && StandingOf(table, series, o) != Same
      {
        ToWriteHas(table, series, observations, o);
        if o in observations {
          StandingIs(table, series, o);
        }
      }
      hide InThousandths, Matches, Writes, ToWrite;
    }
  }
}
