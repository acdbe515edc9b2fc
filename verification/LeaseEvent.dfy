/** The lease event machine: option exercises and renewals. */
module LeaseEvent {
  import opened Wrappers

  datatype Type = OptionExercise | Renewal

  datatype State =
    | WindowNotOpen | WindowOpen | NoticeReceived | AwaitingApproval | Exercised | Rejected | Lapsed
    | Referred | Renewed | Vacating | Holdover
    | Cancelled

  datatype Event =
    | OpenOption | OpenWindow | RecordNotice | Approve | Reject | Lapse | ReferRenewal | DecideRenewal | Cancel

  datatype Outcome = RenewedOutcome | VacatingOutcome | HoldoverOutcome

  /** A fact left out reads as false, or as none. */
  datatype Facts = Facts(deadlinePassed: bool, directorOverride: bool, noticeInWindow: bool, outcome: Option<Outcome>,
                         windowOpen: bool)

  predicate IsOpen(state: State) {
    state.WindowNotOpen? || state.WindowOpen? || state.NoticeReceived? || state.AwaitingApproval? || state.Referred?
  }

  function TypeOf(state: State): Option<Type> {
    match state
    case Cancelled => None
    case Referred => Some(Renewal)
    case Renewed => Some(Renewal)
    case Vacating => Some(Renewal)
    case Holdover => Some(Renewal)
    case _ => Some(OptionExercise)
  }

  function RuleType(event: Event): Option<Type> {
    match event
    case Cancel => None
    case ReferRenewal => Some(Renewal)
    case DecideRenewal => Some(Renewal)
    case _ => Some(OptionExercise)
  }

  predicate RuleFrom(event: Event, state: Option<State>) {
    match event
    case OpenOption => state.None?
    case ReferRenewal => state.None?
    case OpenWindow => state == Some(WindowNotOpen)
    case RecordNotice => state == Some(WindowNotOpen) || state == Some(WindowOpen) || state == Some(Lapsed)
    case Approve => state == Some(AwaitingApproval) || state == Some(NoticeReceived)
    case Reject => state == Some(AwaitingApproval) || state == Some(NoticeReceived)
    case Lapse => state == Some(WindowNotOpen) || state == Some(WindowOpen)
    case DecideRenewal => state == Some(Referred)
    case Cancel => state.Some? && IsOpen(state.value)
  }

  predicate Guard(event: Event, facts: Facts) {
    (event.OpenWindow? ==> facts.windowOpen) && (event.Lapse? ==> facts.deadlinePassed)
  }

  function Target(event: Event, facts: Facts): Option<State> {
    match event
    case OpenOption => Some(if facts.windowOpen then WindowOpen else WindowNotOpen)
    case OpenWindow => Some(WindowOpen)
    case RecordNotice => Some(if facts.noticeInWindow then AwaitingApproval else NoticeReceived)
    case Approve => if facts.directorOverride then Some(Exercised) else None
    case Reject => Some(Rejected)
    case Lapse => Some(Lapsed)
    case ReferRenewal => Some(Referred)
    case DecideRenewal =>
      (match facts.outcome
       case None => None
       case Some(RenewedOutcome) => Some(Renewed)
       case Some(VacatingOutcome) => Some(Vacating)
       case Some(HoldoverOutcome) => Some(Holdover))
    case Cancel => Some(Cancelled)
  }

  function Next(kind: Type, state: Option<State>, event: Event, facts: Facts): Option<State> {
    if RuleType(event).Some? && RuleType(event) != Some(kind) then None
    else if state.Some? && TypeOf(state.value).Some? && TypeOf(state.value) != Some(kind) then None
    else if !RuleFrom(event, state) || !Guard(event, facts) then None
    else if event.Approve? && state == Some(AwaitingApproval) then Some(Exercised)
    else Target(event, facts)
  }

  // ── Runs ─────────────────────────────────────────────────────────────────

  datatype Taken = Taken(event: Event, facts: Facts)

  /** Where a run of legal events ends, from no event yet. */
  function After(kind: Type, steps: seq<Taken>): Option<Option<State>> {
    if steps == [] then Some(None)
    else
      match After(kind, steps[..|steps| - 1])
      case None => None
      case Some(state) =>
        var next := Next(kind, state, steps[|steps| - 1].event, steps[|steps| - 1].facts);
        if next.None? then None else Some(next)
  }

  function Rank(state: Option<State>): nat {
    match state
    case None => 0
    case Some(WindowNotOpen) => 1
    case Some(WindowOpen) => 2
    case Some(Lapsed) => 3
    case Some(NoticeReceived) => 4
    case Some(AwaitingApproval) => 4
    case Some(Referred) => 4
    case Some(_) => 5
  }

  /** No lease event lives through more than five steps. */
  lemma {:induction false} AtMostFive(kind: Type, steps: seq<Taken>)
    requires After(kind, steps).Some?
    ensures |steps| <= Rank(After(kind, steps).value) <= 5
  {
    if steps != [] {
      AtMostFive(kind, steps[..|steps| - 1]);
    }
  }

  /** And a late notice on a window that opened and lapsed takes all five. */
  lemma FiveIsReached()
    ensures exists steps :: |steps| == 5 && After(OptionExercise, steps) == Some(Some(Exercised))
  {
    var none := Facts(false, false, false, None, false);
    var steps := [Taken(OpenOption, none), Taken(OpenWindow, none.(windowOpen := true)),
                  Taken(Lapse, none.(deadlinePassed := true)), Taken(RecordNotice, none),
                  Taken(Approve, none.(directorOverride := true))];
    assert steps[..4][..3] == steps[..3] && steps[..3][..2] == steps[..2] && steps[..2][..1] == steps[..1]
      && steps[..1][..0] == [];
    assert After(OptionExercise, steps[..1]) == Some(Some(WindowNotOpen));
    assert After(OptionExercise, steps[..2]) == Some(Some(WindowOpen));
    assert After(OptionExercise, steps[..3]) == Some(Some(Lapsed));
    assert After(OptionExercise, steps[..4]) == Some(Some(NoticeReceived));
    assert |steps| == 5 && After(OptionExercise, steps) == Some(Some(Exercised));
  }

  /** The run's last steps are a notice and its approval, the notice dated inside
      the window unless a director overrode it. */
  ghost predicate NoticedAndApproved(steps: seq<Taken>) {
    var n := |steps|;
    && n >= 3
    && steps[n - 1].event.Approve? && steps[n - 2].event.RecordNotice?
    && (steps[n - 2].facts.noticeInWindow || steps[n - 1].facts.directorOverride)
    && forall i :: 0 <= i < n - 2 ==> !steps[i].event.RecordNotice? && !steps[i].event.Approve?
  }

  lemma {:induction false} NoticeMeans(kind: Type, steps: seq<Taken>)
    requires After(kind, steps).Some? && After(kind, steps).value.Some?
    ensures
      var state, n := After(kind, steps).value.value, |steps|;
      && n >= 1
      && (state.NoticeReceived? || state.AwaitingApproval? ==>
            && n >= 2 && steps[n - 1].event.RecordNotice?
               && (state.AwaitingApproval? <==> steps[n - 1].facts.noticeInWindow)
            && forall i :: 0 <= i < n - 1 ==> !steps[i].event.RecordNotice? && !steps[i].event.Approve?)
      && (state.WindowNotOpen? || state.WindowOpen? || state.Lapsed? ==>
            forall i :: 0 <= i < n ==> !steps[i].event.RecordNotice? && !steps[i].event.Approve?)
  {
    var n := |steps| - 1;
    if After(kind, steps[..n]).value.Some? {
      NoticeMeans(kind, steps[..n]);
      assert forall i :: 0 <= i < n ==> steps[..n][i] == steps[i];
    } else if n > 0 {
      AtMostFive(kind, steps[..n]);
    }
  }

  /** An option is exercised exactly by a notice that was recorded and then
      approved: inside the window, or on a director's override. */
  lemma ExercisedHistory(kind: Type, steps: seq<Taken>)
    requires After(kind, steps).Some?
    ensures After(kind, steps) == Some(Some(Exercised)) <==> NoticedAndApproved(steps)
    ensures After(kind, steps) == Some(Some(Exercised)) ==> kind == OptionExercise
  {
    if steps != [] {
      var n := |steps| - 1;
      if After(kind, steps[..n]).value.Some? {
        NoticeMeans(kind, steps[..n]);
        assert forall i :: 0 <= i < n ==> steps[..n][i] == steps[i];
      }
    }
  }

  predicate Terminal(state: State) { !IsOpen(state) && !state.Lapsed? }

  /** Once decided, a lease event stays decided; a lapse alone can be reopened,
      and only by a late notice. */
  lemma DecidedIsFinal(kind: Type, state: State, event: Event, facts: Facts)
    ensures Terminal(state) ==> Next(kind, Some(state), event, facts).None?
    ensures state.Lapsed? && Next(kind, Some(state), event, facts).Some? ==> event.RecordNotice?
  {
  }

  /** The machine read by state: what can happen to a lease event of each type where
      it stands, and where that takes it. */
  function LeadsTo(kind: Type, state: Option<State>, event: Event, facts: Facts): Option<State> {
    match (kind, state, event)
    case (OptionExercise, None, OpenOption) => if facts.windowOpen then Some(WindowOpen) else Some(WindowNotOpen)
    case (OptionExercise, Some(WindowNotOpen), OpenWindow) => if facts.windowOpen then Some(WindowOpen) else None
    case (OptionExercise, Some(WindowNotOpen), RecordNotice) => AfterNotice(facts)
    case (OptionExercise, Some(WindowNotOpen), Lapse) => if facts.deadlinePassed then Some(Lapsed) else None
    case (OptionExercise, Some(WindowOpen), RecordNotice) => AfterNotice(facts)
    case (OptionExercise, Some(WindowOpen), Lapse) => if facts.deadlinePassed then Some(Lapsed) else None
    case (OptionExercise, Some(Lapsed), RecordNotice) => AfterNotice(facts)
    case (OptionExercise, Some(AwaitingApproval), Approve) => Some(Exercised)
    case (OptionExercise, Some(AwaitingApproval), Reject) => Some(Rejected)
    case (OptionExercise, Some(NoticeReceived), Approve) => if facts.directorOverride then Some(Exercised) else None
    case (OptionExercise, Some(NoticeReceived), Reject) => Some(Rejected)
    case (OptionExercise, Some(open), Cancel) =>
      if open in [WindowNotOpen, WindowOpen, NoticeReceived, AwaitingApproval] then Some(Cancelled) else None
    case (Renewal, None, ReferRenewal) => Some(Referred)
    case (Renewal, Some(Referred), DecideRenewal) =>
      if facts.outcome == Some(RenewedOutcome) then Some(Renewed)
      else if facts.outcome == Some(VacatingOutcome) then Some(Vacating)
      else if facts.outcome == Some(HoldoverOutcome) then Some(Holdover)
      else None
    case (Renewal, Some(Referred), Cancel) => Some(Cancelled)
    case _ => None
  }

  function AfterNotice(facts: Facts): Option<State> {
    if facts.noticeInWindow then Some(AwaitingApproval) else Some(NoticeReceived)
  }

  /** The rules by event and the machine by state are one. */
  lemma RulesAreMachine(kind: Type, state: Option<State>, event: Event, facts: Facts)
    ensures Next(kind, state, event, facts) == LeadsTo(kind, state, event, facts)
  {
  }

  /** A renewal is decided exactly by a referral and one decision, the way the
      director decided. */
  lemma RenewalHistory(kind: Type, steps: seq<Taken>)
    ensures After(kind, steps).Some? && kind == Renewal ==>
      var state, n := After(kind, steps).value, |steps|;
      && (state == Some(Referred) <==> n == 1)
      && (state in [Some(Renewed), Some(Vacating), Some(Holdover)] <==> n == 2 && steps[1].event.DecideRenewal?)
      && (n == 2 && steps[1].event.DecideRenewal? ==>
            && (state == Some(Renewed) <==> steps[1].facts.outcome == Some(RenewedOutcome))
            && (state == Some(Vacating) <==> steps[1].facts.outcome == Some(VacatingOutcome))
            && (state == Some(Holdover) <==> steps[1].facts.outcome == Some(HoldoverOutcome)))
      && (state == Some(Cancelled) <==> n == 2 && steps[1].event.Cancel?)
  {
    if steps != [] && After(kind, steps).Some? && kind == Renewal {
      var n := |steps| - 1;
      RenewalHistory(kind, steps[..n]);
      if n > 0 {
        assert After(kind, steps[..n]).Some?;
      }
    }
  }
}
