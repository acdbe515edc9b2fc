/** Where each kind of move takes a job, written out over the job, the person and
    the records. */
module JobRules {
  import opened Wrappers
  import opened Authority
  import AuthorityRules
  import opened JobFlow

  // ── Words of the rules ───────────────────────────────────────────────────

  const WITH_FACILITIES := State(AwaitingApproval, FacilitiesSide)
  const WITH_ACCOUNTS := State(AwaitingApproval, AccountsSide)
  const IN_WORK := State(Work, FacilitiesSide)

  predicate IsStaff(actor: Actor) {
    && actor.User?
    && exists role <- actor.roles ::
         role in [Facilities, Accounts, FacilitiesManager, AccountsManager, Cfo, Director, Admin]
  }

  predicate IsSenior(actor: Actor) {
    actor.User? && exists role <- actor.roles :: role in [FacilitiesManager, AccountsManager, Cfo, Director]
  }

  predicate Counts(row: InvoiceRow) { row.status != Rejected && row.status != Superseded }

  predicate PaidToTheCent(row: InvoiceRow) { row.amount.Amount? && 0 < row.amount.cents <= row.paid }

  /** Past the director's threshold, or with no known amount. */
  ghost predicate DirectorsInvoice(row: InvoiceRow, approval: Facts) {
    if row.amount.Amount? && row.amount.cents >= 0
    then !approval.isResidence && AuthorityRules.PastDirector(row.amount.cents, approval)
    else true
  }

  ghost predicate ApprovedInFull(row: InvoiceRow, approval: Facts) {
    row.status == DirectorApproved || (row.status == Approved && !DirectorsInvoice(row, approval))
  }

  ghost predicate AllPaid(rows: seq<InvoiceRow>) {
    && (exists row <- rows :: Counts(row) && row.incoming)
    && forall row <- rows | Counts(row) && row.incoming :: PaidToTheCent(row)
  }

  ghost predicate Closable(rows: seq<InvoiceRow>, approval: Facts) {
    && (exists row <- rows :: Counts(row) && row.incoming)
    && (forall row <- rows | Counts(row) && row.incoming :: ApprovedInFull(row, approval))
    && (forall row <- rows | Counts(row) && ApprovedInFull(row, approval) :: row.inMyob)
  }

  /** Where a pick of `target` would take the job. */
  function Lands(job: Job, target: Status, isContract: bool, isInternal: bool): Option<State> {
    match (job.state.status, target)
    case (Done, _) => None
    case (_, Tenant) => if job.state.status == Tenant then None else Some(State(Tenant, job.state.side))
    case (Tenant, Work) =>
      Some(if job.preBlock.Some? && job.preBlock.value.status != Tenant && job.preBlock.value.status != Done
           then job.preBlock.value else IN_WORK)
    case (New, Quoting) => if job.state.side == FacilitiesSide then Some(State(Quoting, FacilitiesSide)) else None
    case (New, AwaitingApproval) => if job.state.side == FacilitiesSide then Some(WITH_FACILITIES) else None
    case (New, Work) => if job.state.side == FacilitiesSide && isContract then Some(IN_WORK) else None
    case (Quoting, AwaitingApproval) => if job.state.side == FacilitiesSide then Some(WITH_FACILITIES) else None
    case (AwaitingApproval, Work) => if job.state.side == FacilitiesSide then Some(IN_WORK) else None
    case (Work, AwaitingApproval) => if job.state.side == FacilitiesSide then Some(WITH_ACCOUNTS) else None
    case (_, Done) =>
      if isInternal then Some(State(Done, job.state.side))
      else if job.state == WITH_ACCOUNTS then Some(State(Done, AccountsSide)) else None
    case _ => None
  }

  /** What the records must show for it. */
  ghost predicate Shown(to: State, records: Records) {
    && (to == WITH_FACILITIES ==> records.hasQuote)
    && (to.status == Work ==> records.hasApprovedQuote || records.isContract || records.isInternal)
    && (to.status == Done && !records.isInternal ==> Closable(records.rows, records.approval))
  }

  // ── What the model's words come to ───────────────────────────────────────

  lemma FirstIsOnly(transitions: seq<Transition>, current: State, target: Status)
    requires Determined(transitions)
    ensures forall t <- transitions | t.from == current && t.to.status == target ::
      FirstTo(transitions, current, target) == Some(t.to)
    ensures forall t <- transitions | t.from == current :: FirstOn(transitions, current, t.event) == Some(t.to)
  {
    forall t | t in transitions && t.from == current
      ensures FirstOn(transitions, current, t.event) == Some(t.to)
    {
      var to := FirstOn(transitions, current, t.event).value;
      assert Transition(current, t.event, to) in transitions;
    }
    hide FirstTo, FirstOn;
  }

  lemma TableIs()
    ensures EdgeTo(State(New, FacilitiesSide), Quoting) == Some(State(Quoting, FacilitiesSide))
    ensures EdgeTo(State(New, FacilitiesSide), AwaitingApproval) == Some(WITH_FACILITIES)
    ensures EdgeTo(State(Quoting, FacilitiesSide), AwaitingApproval) == Some(WITH_FACILITIES)
    ensures EdgeTo(WITH_FACILITIES, Work) == Some(IN_WORK)
    ensures EdgeTo(IN_WORK, AwaitingApproval) == Some(WITH_ACCOUNTS)
    ensures EdgeTo(WITH_ACCOUNTS, Done) == Some(State(Done, AccountsSide))
    ensures EdgeOn(State(New, FacilitiesSide), QuoteRequested) == Some(State(Quoting, FacilitiesSide))
    ensures EdgeOn(State(New, FacilitiesSide), QuoteReceived) == Some(WITH_FACILITIES)
    ensures EdgeOn(State(Quoting, FacilitiesSide), QuoteReceived) == Some(WITH_FACILITIES)
    ensures EdgeOn(WITH_FACILITIES, QuoteApproved) == Some(IN_WORK)
    ensures EdgeOn(WITH_FACILITIES, PoCreated) == Some(IN_WORK)
    ensures EdgeOn(IN_WORK, WorkCompleted) == Some(WITH_ACCOUNTS)
    ensures EdgeOn(WITH_ACCOUNTS, InvoiceApproved) == Some(State(Done, AccountsSide))
    ensures EdgeOn(WITH_ACCOUNTS, InvoicePaid) == Some(State(Done, AccountsSide))
  {
    hide EdgeTo, EdgeOn;
    TableHas(Transition(State(New, FacilitiesSide), QuoteRequested, State(Quoting, FacilitiesSide)));
    TableHas(Transition(State(New, FacilitiesSide), QuoteReceived, WITH_FACILITIES));
    TableHas(Transition(State(Quoting, FacilitiesSide), QuoteReceived, WITH_FACILITIES));
    TableHas(Transition(WITH_FACILITIES, QuoteApproved, IN_WORK));
    TableHas(Transition(WITH_FACILITIES, PoCreated, IN_WORK));
    TableHas(Transition(IN_WORK, WorkCompleted, WITH_ACCOUNTS));
    TableHas(Transition(WITH_ACCOUNTS, InvoiceApproved, State(Done, AccountsSide)));
    TableHas(Transition(WITH_ACCOUNTS, InvoicePaid, State(Done, AccountsSide)));
  }

  lemma TableHas(t: Transition)
    requires t in TRANSITIONS
    ensures EdgeTo(t.from, t.to.status) == Some(t.to) && EdgeOn(t.from, t.event) == Some(t.to)
  {
    TableDetermined();
    FirstIsOnly(TRANSITIONS, t.from, t.to.status);
  }

  /** Where each event is from. */
  lemma TableOnly(t: Transition)
    requires t in TRANSITIONS
    ensures
      match t.event
      case QuoteRequested => t.from == State(New, FacilitiesSide)
      case QuoteReceived => t.from == State(New, FacilitiesSide) || t.from == State(Quoting, FacilitiesSide)
      case WorkCompleted => t.from == IN_WORK
      case InvoiceApproved => t.from == WITH_ACCOUNTS
      case InvoicePaid => t.from == WITH_ACCOUNTS
      case _ => t.from == WITH_FACILITIES
  {
  }

  lemma EdgeToLands(current: State, target: Status)
    ensures EdgeTo(current, target)
         == if current.status == Tenant || target == Tenant then None
            else Lands(Job(current, None), target, false, false)
  {
    TableIs();
    EdgeToFollows(current, target);
    hide EdgeTo, EdgeOn;
  }

  lemma StaffEdits(actor: Actor)
    ensures Edits(actor) <==> IsStaff(actor)
    ensures MayReopen(actor) <==> IsSenior(actor)
  {
    if actor.User? {
      var roles := actor.roles;
      forall role | role in roles ensures exists i :: 0 <= i < |roles| && roles[i] == role {
      }
      assert forall role: Role :: JobEditRole(role) <==>
        role in [Facilities, Accounts, FacilitiesManager, AccountsManager, Cfo, Director, Admin];
      assert forall role: Role :: ReopenRole(role) <==> role in [FacilitiesManager, AccountsManager, Cfo, Director];
    }
  }

  lemma InvoicesMean(row: InvoiceRow, approval: Facts)
    ensures Live(row) <==> Counts(row)
    ensures PaidInFull(row) <==> PaidToTheCent(row)
    ensures FullyApproved(row, approval) <==> ApprovedInFull(row, approval)
  {
    AuthorityRules.DirectorRule(Input(Invoice, row.amount, Open, None, None), approval);
    hide DecideAuthority, AuthorityRules.PastDirector;
  }

  lemma RecordsMean(rows: seq<InvoiceRow>, approval: Facts)
    ensures EveryIncomingPaid(rows) <==> AllPaid(rows)
    ensures ReadyToClose(rows, approval) <==> Closable(rows, approval)
  {
    RowsMean(approval);
    hide Live, Counts, PaidInFull, PaidToTheCent, FullyApproved, ApprovedInFull;
    assert forall row :: row in rows <==> exists i :: 0 <= i < |rows| && rows[i] == row;
  }

  // ── The rules ────────────────────────────────────────────────────────────

  /** A person's pick moves the job exactly when they are staff, the pick leads
      somewhere and the records show what is needed there. A hold then remembers
      where the job was, and leaving one forgets it. */
  lemma PickRule(job: Job, actor: Actor, target: Status, records: Records)
    ensures
      var to := Lands(job, target, records.isContract, records.isInternal);
      Apply(job, Guarded(actor, Manual(target), records))
      == if target == job.state.status || !IsStaff(actor) || to.None? || !Shown(to.value, records) then job
         else Job(to.value, if target == Tenant then Some(job.state)
                            else if job.state.status == Tenant then None else job.preBlock)
  {
    StaffEdits(actor);
    EdgeToLands(job.state, target);
    FactsMean(records.rows, records.approval);
    RecordsMean(records.rows, records.approval);
    hide Edits, MayReopen, IsStaff, IsSenior, EdgeTo, EdgeOn, Summary, EveryIncomingPaid, ReadyToClose, AllPaid,
      Closable;
  }

  /** And the reason a pick is refused for, the first that applies. */
  lemma PickAnswer(job: Job, actor: Actor, target: Status, records: Records)
    requires target != job.state.status
    ensures
      var to := Lands(job, target, records.isContract, records.isInternal);
      var rows, approval := records.rows, records.approval;
      GuardTransition(actor, job.state, FactsOf(records), MachineTarget(job, Manual(target), records), Manual(target))
      == if !IsStaff(actor) then Err(RoleNotPermitted)
         else if job.state.status == Done then Err(DoneIsFinal)
         else if to.None? then Err(Illegal)
         else if to.value == WITH_FACILITIES && !records.hasQuote then Err(NoQuote)
         else if to.value.status == Work && !records.hasApprovedQuote && !records.isContract && !records.isInternal
         then Err(QuoteNotApproved)
         else if to.value.status == Done && !records.isInternal && !(exists row <- rows :: Counts(row) && row.incoming)
         then Err(InvoiceMissing)
         else if to.value.status == Done && !records.isInternal
                 && (exists row <- rows :: Counts(row) && row.incoming && !ApprovedInFull(row, approval))
         then Err(InvoiceNotApproved)
         else if to.value.status == Done && !records.isInternal
                 && (exists row <- rows :: Counts(row) && ApprovedInFull(row, approval) && !row.inMyob)
         then Err(InvoiceNotInMyob)
         else Ok(to.value)
  {
    StaffEdits(actor);
    EdgeToLands(job.state, target);
    FactsMean(records.rows, records.approval);
    RowsMean(records.approval);
    hide Edits, MayReopen, IsStaff, IsSenior, EdgeTo, EdgeOn, Summary, Counts, Live, FullyApproved, ApprovedInFull;
  }

  lemma RowsMean(approval: Facts)
    ensures forall row :: Live(row) <==> Counts(row)
    ensures forall row :: FullyApproved(row, approval) <==> ApprovedInFull(row, approval)
    ensures forall row :: PaidInFull(row) <==> PaidToTheCent(row)
  {
    forall row ensures Live(row) <==> Counts(row) {
      InvoicesMean(row, approval);
    }
    forall row ensures FullyApproved(row, approval) <==> ApprovedInFull(row, approval) {
      InvoicesMean(row, approval);
    }
    forall row ensures PaidInFull(row) <==> PaidToTheCent(row) {
      InvoicesMean(row, approval);
    }
  }

  /** A reopen takes a done job back to accounts' approval, or to work when it is
      internal, for a senior with a reason, and does nothing otherwise. */
  lemma ReopenRule(job: Job, actor: Actor, reasoned: bool, records: Records)
    ensures Apply(job, Guarded(actor, Reopen(reasoned), records))
         == if job.state.status == Done && IsSenior(actor) && reasoned
            then job.(state := if records.isInternal then IN_WORK else WITH_ACCOUNTS) else job
  {
    StaffEdits(actor);
    hide Edits, MayReopen, IsStaff, IsSenior, EdgeTo, EdgeOn, Summary;
  }

  /** The payments read back close a job with accounts when all is paid, and only
      the system may say so. */
  lemma PaidRule(job: Job, actor: Actor, records: Records)
    ensures Apply(job, Guarded(actor, InvoicesPaid, records))
         == if actor.System? && job.state == WITH_ACCOUNTS && AllPaid(records.rows)
            then job.(state := State(Done, AccountsSide)) else job
  {
    TableIs();
    EdgeOnFollows(job.state, InvoicePaid);
    FactsMean(records.rows, records.approval);
    RecordsMean(records.rows, records.approval);
    hide EdgeTo, EdgeOn, Summary, EveryIncomingPaid, ReadyToClose, AllPaid, Closable, Follows;
    assert EdgeOn(job.state, InvoicePaid).Some? ==> job.state == WITH_ACCOUNTS by {
      hide *;
      PaidFrom(job.state);
    }
  }

  lemma PaidFrom(current: State)
    ensures EdgeOn(current, InvoicePaid).Some? ==> current == WITH_ACCOUNTS
  {
    hide EdgeOn;
    EdgeOnFollows(current, InvoicePaid);
  }

  /** What the other handlers' events do to a job. */
  lemma EventRule(job: Job, event: JobEvent)
    ensures
      var from := job.state;
      Apply(job, Advance(event))
      == match event
         case QuoteRequested =>
           if from == State(New, FacilitiesSide) then job.(state := State(Quoting, FacilitiesSide)) else job
         case QuoteReceived =>
           if from == State(New, FacilitiesSide) || from == State(Quoting, FacilitiesSide)
           then job.(state := WITH_FACILITIES) else job
         case QuoteApproved => if from == WITH_FACILITIES then job.(state := IN_WORK) else job
         case PoCreated => if from == WITH_FACILITIES then job.(state := IN_WORK) else job
         case WorkCompleted => if from == IN_WORK then job.(state := WITH_ACCOUNTS) else job
         case _ => job
  {
    TableIs();
    EdgeOnFollows(job.state, event);
    var to := EdgeOn(job.state, event);
    assert to.Some? ==> Transition(job.state, event, to.value) in TRANSITIONS;
    hide EdgeTo, EdgeOn;
    if to.Some? {
      TableOnly(Transition(job.state, event, to.value));
    }
  }

  /** An event and the pick that means the same take the job to the same place. */
  lemma EventsMatchPicks(current: State, opts: Options)
    ensures NextState(current, TenantBlocked, opts)
         == if current.status == Tenant then Some(current) else ResolveManualTarget(current, Tenant, opts)
    ensures current.status == Tenant ==>
      NextState(current, TenantUnblocked, opts) == ResolveManualTarget(current, Work, opts)
    ensures current.status != Tenant ==> NextState(current, TenantUnblocked, opts).None?
    ensures current.status == New ==>
      NextState(current, WorkAuthorized, opts) == ResolveManualTarget(current, Work, opts)
    ensures current.status != New ==> NextState(current, WorkAuthorized, opts).None?
    ensures forall event: JobEvent :: !event.TenantBlocked? && !event.TenantUnblocked? && !event.WorkAuthorized? ==>
      NextState(current, event, opts) == EdgeOn(current, event)
  {
    EdgeToLands(current, Work);
    hide EdgeTo, EdgeOn;
  }
}
