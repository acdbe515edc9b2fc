/** Where a job may move, who may move it, and what its invoices must show: the
    state machine, the guard over it and the facts the guard decides on. */
module JobFlow {
  import opened Wrappers
  import opened Authority

  datatype Status = New | Quoting | AwaitingApproval | Work | Tenant | Done

  datatype Side = FacilitiesSide | AccountsSide

  datatype State = State(status: Status, side: Side)

  // ── The machine ──────────────────────────────────────────────────────────

  datatype JobEvent =
    | QuoteRequested | QuoteReceived | QuoteApproved | PoCreated | WorkCompleted | InvoiceApproved
    | TenantBlocked | TenantUnblocked | WorkAuthorized | InvoicePaid

  datatype Options = Options(preBlock: Option<State>, isContract: bool, isInternal: bool)

  datatype Transition = Transition(from: State, event: JobEvent, to: State)

  const TRANSITIONS: seq<Transition> := [
    Transition(State(New, FacilitiesSide), QuoteRequested, State(Quoting, FacilitiesSide)),
    Transition(State(New, FacilitiesSide), QuoteReceived, State(AwaitingApproval, FacilitiesSide)),
    Transition(State(Quoting, FacilitiesSide), QuoteReceived, State(AwaitingApproval, FacilitiesSide)),
    Transition(State(AwaitingApproval, FacilitiesSide), QuoteApproved, State(Work, FacilitiesSide)),
    Transition(State(AwaitingApproval, FacilitiesSide), PoCreated, State(Work, FacilitiesSide)),
    Transition(State(Work, FacilitiesSide), WorkCompleted, State(AwaitingApproval, AccountsSide)),
    Transition(State(AwaitingApproval, AccountsSide), InvoiceApproved, State(Done, AccountsSide)),
    Transition(State(AwaitingApproval, AccountsSide), InvoicePaid, State(Done, AccountsSide))
  ]

  /** The first transition from a state on an event. */
  function FirstOn(transitions: seq<Transition>, current: State, event: JobEvent): (to: Option<State>)
    ensures to.Some? ==> Transition(current, event, to.value) in transitions
    ensures to.None? ==> forall t <- transitions :: t.from == current ==> t.event != event
  {
    if transitions == [] then None
    else if transitions[0].from == current && transitions[0].event == event then Some(transitions[0].to)
    else FirstOn(transitions[1..], current, event)
  }

  /** The first from a state that lands on a status. */
  function FirstTo(transitions: seq<Transition>, current: State, target: Status): (to: Option<State>)
    ensures to.Some? ==> to.value.status == target && exists t <- transitions :: t.from == current && t.to == to.value
    ensures to.None? ==> forall t <- transitions :: t.from == current ==> t.to.status != target
  {
    if transitions == [] then None
    else if transitions[0].from == current && transitions[0].to.status == target then Some(transitions[0].to)
    else FirstTo(transitions[1..], current, target)
  }

  function EdgeOn(current: State, event: JobEvent): Option<State> { FirstOn(TRANSITIONS, current, event) }

  function EdgeTo(current: State, target: Status): Option<State> { FirstTo(TRANSITIONS, current, target) }

  function UnblockTarget(preBlock: Option<State>): State {
    if preBlock.Some? && !preBlock.value.status.Tenant? && !preBlock.value.status.Done? then preBlock.value
    else State(Work, FacilitiesSide)
  }

  function NextState(current: State, event: JobEvent, opts: Options): Option<State> {
    match event
    case TenantBlocked => if current.status.Done? then None else Some(State(Tenant, current.side))
    case TenantUnblocked => if current.status.Tenant? then Some(UnblockTarget(opts.preBlock)) else None
    case WorkAuthorized =>
      if opts.isContract && current == State(New, FacilitiesSide) then Some(State(Work, FacilitiesSide)) else None
    case _ => EdgeOn(current, event)
  }

  predicate CanTransition(current: State, target: Status, opts: Options) {
    && current.status != target && !current.status.Done?
    && (|| target.Tenant?
        || (current.status.Tenant? && target.Work?)
        || (opts.isContract && current == State(New, FacilitiesSide) && target.Work?)
        || (opts.isInternal && target.Done?)
        || EdgeTo(current, target).Some?)
  }

  function ResolveManualTarget(current: State, target: Status, opts: Options): Option<State> {
    if !CanTransition(current, target, opts) then None
    else if target.Tenant? then Some(State(Tenant, current.side))
    else if current.status.Tenant? && target.Work? then Some(UnblockTarget(opts.preBlock))
    else if current.status.New? && target.Work? then Some(State(Work, FacilitiesSide))
    else if opts.isInternal && target.Done? then Some(State(Done, current.side))
    else EdgeTo(current, target)
  }

  /** A state never leaves to two states on one event, nor to two of one status. */
  ghost predicate Determined(transitions: seq<Transition>) {
    forall t <- transitions, u <- transitions ::
      t.from == u.from && (t.event == u.event || t.to.status == u.to.status) ==> t.to == u.to
  }

  /** `event` takes a state to the target status. */
  predicate Takes(transitions: seq<Transition>, current: State, event: JobEvent, target: Status) {
    var to := FirstOn(transitions, current, event);
    to.Some? && to.value.status == target
  }

  /** The two lookups agree on any such table: an edge lands on a status exactly
      when some event takes it there, and then it is that event's edge. */
  lemma ReadingsAgree(transitions: seq<Transition>, current: State, target: Status)
    requires Determined(transitions)
    ensures FirstTo(transitions, current, target).Some? <==> exists event :: Takes(transitions, current, event, target)
    ensures forall event | Takes(transitions, current, event, target) ::
      FirstTo(transitions, current, target) == FirstOn(transitions, current, event)
  {
    var landed := FirstTo(transitions, current, target);
    if landed.Some? {
      var t :| t in transitions && t.from == current && t.to == landed.value;
      var to := FirstOn(transitions, current, t.event);
      assert Transition(current, t.event, to.value) in transitions;
      assert Takes(transitions, current, t.event, target);
    }
    forall event | Takes(transitions, current, event, target)
      ensures landed == FirstOn(transitions, current, event)
    {
      assert Transition(current, event, FirstOn(transitions, current, event).value) in transitions;
    }
  }

  /** Where the table leads, and from where. */
  predicate Follows(from: State, to: State) {
    match to.status
    case Quoting => to.side.FacilitiesSide? && from == State(New, FacilitiesSide)
    case AwaitingApproval =>
      if to.side.AccountsSide? then from == State(Work, FacilitiesSide)
      else from == State(New, FacilitiesSide) || from == State(Quoting, FacilitiesSide)
    case Work => to.side.FacilitiesSide? && from == State(AwaitingApproval, FacilitiesSide)
    case Done => to.side.AccountsSide? && from == State(AwaitingApproval, AccountsSide)
    case _ => false
  }

  /** The status each event lands on. */
  predicate LandsOn(event: JobEvent, status: Status) {
    match event
    case QuoteRequested => status.Quoting?
    case QuoteReceived => status.AwaitingApproval?
    case QuoteApproved => status.Work?
    case PoCreated => status.Work?
    case WorkCompleted => status.AwaitingApproval?
    case InvoiceApproved => status.Done?
    case InvoicePaid => status.Done?
    case _ => false
  }

  lemma EachFollows(t: Transition)
    requires t in TRANSITIONS
    ensures Follows(t.from, t.to) && LandsOn(t.event, t.to.status)
  {
  }

  lemma TableDetermined()
    ensures Determined(TRANSITIONS)
  {
    forall t <- TRANSITIONS, u <- TRANSITIONS
      ensures t.from == u.from && (t.event == u.event || t.to.status == u.to.status) ==> t.to == u.to
    {
      hide Follows, LandsOn;
      EachFollows(t);
      EachFollows(u);
      if t.from == u.from && (t.event == u.event || t.to.status == u.to.status) {
        OneWay(t, u);
      }
    }
  }

  lemma OneWay(t: Transition, u: Transition)
    requires Follows(t.from, t.to) && LandsOn(t.event, t.to.status)
    requires Follows(u.from, u.to) && LandsOn(u.event, u.to.status)
    requires t.from == u.from && (t.event == u.event || t.to.status == u.to.status)
    ensures t.to == u.to
  {
  }

  lemma TableReadings(current: State, target: Status)
    ensures EdgeTo(current, target).Some? <==> exists event :: Takes(TRANSITIONS, current, event, target)
    ensures forall event | Takes(TRANSITIONS, current, event, target) ::
      EdgeTo(current, target) == EdgeOn(current, event)
  {
    TableDetermined();
    hide Determined, FirstOn, FirstTo, Takes;
    ReadingsAgree(TRANSITIONS, current, target);
  }

  lemma EdgeToFollows(current: State, target: Status)
    ensures EdgeTo(current, target).Some? ==>
      EdgeTo(current, target).value.status == target && Follows(current, EdgeTo(current, target).value)
  {
    hide Follows, FirstTo;
    if EdgeTo(current, target).Some? {
      var t :| t in TRANSITIONS && t.from == current && t.to == EdgeTo(current, target).value;
      EachFollows(t);
    }
  }

  lemma EdgeOnFollows(current: State, event: JobEvent)
    ensures EdgeOn(current, event).Some? ==>
      Follows(current, EdgeOn(current, event).value) && LandsOn(event, EdgeOn(current, event).value.status)
  {
    hide Follows, LandsOn, FirstOn;
    if EdgeOn(current, event).Some? {
      EachFollows(Transition(current, event, EdgeOn(current, event).value));
    }
  }

  lemma AccountsClose()
    ensures EdgeTo(State(AwaitingApproval, AccountsSide), Done).Some?
    ensures EdgeOn(State(AwaitingApproval, AccountsSide), InvoicePaid).Some?
  {
    var paid := Transition(State(AwaitingApproval, AccountsSide), InvoicePaid, State(Done, AccountsSide));
    assert TRANSITIONS[7] == paid && paid in TRANSITIONS;
    hide FirstOn, FirstTo;
  }

  // ── The invoices ─────────────────────────────────────────────────────────

  datatype InvoiceStatus = Pending | Approved | DirectorApproved | Rejected | Superseded | OtherStatus

  /** `paid` is the sum, in cents, of the payments marked paid. */
  datatype InvoiceRow = InvoiceRow(status: InvoiceStatus, incoming: bool, amount: Amount, inMyob: bool, paid: int)

  predicate Live(row: InvoiceRow) { !row.status.Rejected? && !row.status.Superseded? }

  predicate DirectorGate(row: InvoiceRow, approval: Facts) {
    DecideAuthority(Input(Invoice, row.amount, Open, None, None), approval).directorRequired
  }

  predicate FullyApproved(row: InvoiceRow, approval: Facts) {
    row.status.DirectorApproved? || (row.status.Approved? && !DirectorGate(row, approval))
  }

  predicate PaidInFull(row: InvoiceRow) {
    row.amount.Amount? && row.amount.cents > 0 && row.paid >= row.amount.cents
  }

  datatype InvoiceFacts = InvoiceFacts(allPaid: bool, approvedNotInMyob: nat, incoming: nat, awaitingApproval: nat)

  /** How many live rows of the job pass a test. */
  function CountLive(rows: seq<InvoiceRow>, test: InvoiceRow -> bool): nat {
    if rows == [] then 0
    else CountLive(rows[..|rows| - 1], test) + if Live(rows[|rows| - 1]) && test(rows[|rows| - 1]) then 1 else 0
  }

  function Summary(rows: seq<InvoiceRow>, approval: Facts): InvoiceFacts {
    var incoming := CountLive(rows, (row: InvoiceRow) => row.incoming);
    InvoiceFacts(
      incoming > 0 && CountLive(rows, (row: InvoiceRow) => row.incoming && !PaidInFull(row)) == 0,
      CountLive(rows, (row: InvoiceRow) => FullyApproved(row, approval) && !row.inMyob),
      incoming,
      CountLive(rows, (row: InvoiceRow) => row.incoming && !FullyApproved(row, approval)))
  }

  method SummariseInvoices(rows: seq<InvoiceRow>, approval: Facts) returns (facts: InvoiceFacts)
    ensures facts == Summary(rows, approval)
  {
    hide DecideAuthority;
    ghost var isIncoming := (row: InvoiceRow) => row.incoming;
    ghost var isUnpaid := (row: InvoiceRow) => row.incoming && !PaidInFull(row);
    ghost var isUnrecorded := (row: InvoiceRow) => FullyApproved(row, approval) && !row.inMyob;
    ghost var isAwaiting := (row: InvoiceRow) => row.incoming && !FullyApproved(row, approval);
    var incoming: nat, awaiting: nat, notInMyob: nat, allPaid := 0, 0, 0, true;
    for i := 0 to |rows|
      invariant incoming == CountLive(rows[..i], isIncoming)
      invariant awaiting == CountLive(rows[..i], isAwaiting)
      invariant notInMyob == CountLive(rows[..i], isUnrecorded)
      invariant allPaid <==> CountLive(rows[..i], isUnpaid) == 0
    {
      assert rows[..i + 1][..|rows[..i + 1]| - 1] == rows[..i];
      var row := rows[i];
      if row.status.Rejected? || row.status.Superseded? {
        continue;
      }
      var directorRequired := DecideAuthority(Input(Invoice, row.amount, Open, None, None), approval).directorRequired;
      var fullyApproved := row.status.DirectorApproved? || (row.status.Approved? && !directorRequired);
      if fullyApproved && !row.inMyob {
        notInMyob := notInMyob + 1;
      }
      if row.incoming {
        incoming := incoming + 1;
        if !fullyApproved {
          awaiting := awaiting + 1;
        }
        if !(row.amount.Amount? && row.amount.cents > 0 && row.paid >= row.amount.cents) {
          allPaid := false;
        }
      }
    }
    assert rows[..|rows|] == rows;
    facts := InvoiceFacts(incoming > 0 && allPaid, notInMyob, incoming, awaiting);
  }

  lemma {:induction false} CountZero(rows: seq<InvoiceRow>, test: InvoiceRow -> bool)
    ensures CountLive(rows, test) == 0 <==> forall i :: 0 <= i < |rows| && Live(rows[i]) ==> !test(rows[i])
  {
    if rows != [] {
      CountZero(rows[..|rows| - 1], test);
    }
  }

  /** Some live incoming invoice, and every one of them paid to the cent. */
  ghost predicate EveryIncomingPaid(rows: seq<InvoiceRow>) {
    && (exists i :: 0 <= i < |rows| && Live(rows[i]) && rows[i].incoming)
    && forall i :: 0 <= i < |rows| && Live(rows[i]) && rows[i].incoming ==> PaidInFull(rows[i])
  }

  /** Some live incoming invoice, every one of them fully approved, and every
      fully approved invoice of either direction marked created in MYOB. */
  ghost predicate ReadyToClose(rows: seq<InvoiceRow>, approval: Facts) {
    && (exists i :: 0 <= i < |rows| && Live(rows[i]) && rows[i].incoming)
    && (forall i :: 0 <= i < |rows| && Live(rows[i]) && rows[i].incoming ==> FullyApproved(rows[i], approval))
    && (forall i :: 0 <= i < |rows| && Live(rows[i]) && FullyApproved(rows[i], approval) ==> rows[i].inMyob)
  }

  /** The counters say exactly that. */
  lemma FactsMean(rows: seq<InvoiceRow>, approval: Facts)
    ensures
      var facts := Summary(rows, approval);
      && (facts.incoming >= 1 <==> exists row <- rows :: Live(row) && row.incoming)
      && (facts.awaitingApproval == 0
          <==> forall row <- rows | Live(row) && row.incoming :: FullyApproved(row, approval))
      && (facts.approvedNotInMyob == 0
          <==> forall row <- rows | Live(row) && FullyApproved(row, approval) :: row.inMyob)
      && (facts.incoming >= 1 && facts.allPaid <==> EveryIncomingPaid(rows))
      && (facts.incoming >= 1 && facts.awaitingApproval == 0 && facts.approvedNotInMyob == 0
          <==> ReadyToClose(rows, approval))
  {
    hide FullyApproved, PaidInFull, Live;
    CountZero(rows, (row: InvoiceRow) => row.incoming);
    CountZero(rows, (row: InvoiceRow) => row.incoming && !PaidInFull(row));
    CountZero(rows, (row: InvoiceRow) => FullyApproved(row, approval) && !row.inMyob);
    CountZero(rows, (row: InvoiceRow) => row.incoming && !FullyApproved(row, approval));
  }

  // ── The guard ────────────────────────────────────────────────────────────

  datatype GuardFacts = GuardFacts(invoices: InvoiceFacts, hasApprovedQuote: bool, hasQuote: bool, isContract: bool,
                                   isInternal: bool)

  datatype Actor = User(roles: seq<Role>) | System

  datatype Request = Manual(target: Status) | Reopen(reasoned: bool) | InvoicesPaid

  datatype Refusal =
    | RoleNotPermitted | DoneIsFinal | Illegal | NoQuote | QuoteNotApproved | InvoiceMissing | InvoiceNotApproved
    | InvoiceNotInMyob | NotDone | ReasonRequired | SystemOnly | InvoicesNotPaid

  predicate JobEditRole(role: Role) { !role.OtherRole? }

  predicate ReopenRole(role: Role) {
    role.FacilitiesManager? || role.AccountsManager? || role.Cfo? || role.Director?
  }

  predicate Edits(actor: Actor) { actor.User? && exists i :: 0 <= i < |actor.roles| && JobEditRole(actor.roles[i]) }

  predicate MayReopen(actor: Actor) { actor.User? && exists i :: 0 <= i < |actor.roles| && ReopenRole(actor.roles[i]) }

  function GuardManual(actor: Actor, current: State, facts: GuardFacts, machine: Option<State>, target: Status)
    : Result<State, Refusal>
  {
    var resuming := current.status.Tenant? && target.Work?;
    if !Edits(actor) then Err(RoleNotPermitted)
    else if current.status.Done? then Err(DoneIsFinal)
    else if machine.None? || (!resuming && machine.value.status != target) then Err(Illegal)
    else if machine.value == State(AwaitingApproval, FacilitiesSide) && !facts.hasQuote then Err(NoQuote)
    else if machine.value.status.Work? && !(facts.hasApprovedQuote || facts.isContract || facts.isInternal)
      then Err(QuoteNotApproved)
    else if machine.value.status.Done? && !facts.isInternal && facts.invoices.incoming < 1 then Err(InvoiceMissing)
    else if machine.value.status.Done? && !facts.isInternal && facts.invoices.awaitingApproval > 0
      then Err(InvoiceNotApproved)
    else if machine.value.status.Done? && !facts.isInternal && facts.invoices.approvedNotInMyob > 0
      then Err(InvoiceNotInMyob)
    else Ok(machine.value)
  }

  function GuardReopen(actor: Actor, current: State, facts: GuardFacts, reasoned: bool): Result<State, Refusal> {
    if !MayReopen(actor) then Err(RoleNotPermitted)
    else if !current.status.Done? then Err(NotDone)
    else if !reasoned then Err(ReasonRequired)
    else Ok(if facts.isInternal then State(Work, FacilitiesSide) else State(AwaitingApproval, AccountsSide))
  }

  function GuardInvoicesPaid(actor: Actor, facts: GuardFacts, machine: Option<State>): Result<State, Refusal> {
    if !actor.System? then Err(SystemOnly)
    else if machine.None? || !machine.value.status.Done? then Err(Illegal)
    else if facts.invoices.incoming < 1 || !facts.invoices.allPaid then Err(InvoicesNotPaid)
    else Ok(machine.value)
  }

  function GuardTransition(actor: Actor, current: State, facts: GuardFacts, machine: Option<State>, request: Request)
    : Result<State, Refusal>
  {
    match request
    case Manual(target) => GuardManual(actor, current, facts, machine, target)
    case Reopen(reasoned) => GuardReopen(actor, current, facts, reasoned)
    case InvoicesPaid => GuardInvoicesPaid(actor, facts, machine)
  }

  // ── Runs of one job ──────────────────────────────────────────────────────

  /** The job row: where it is, and where it was when it was held. */
  datatype Job = Job(state: State, preBlock: Option<State>)

  /** What the job's records show at the moment of a move. */
  datatype Records = Records(rows: seq<InvoiceRow>, approval: Facts, hasApprovedQuote: bool, hasQuote: bool,
                             isContract: bool, isInternal: bool)

  function FactsOf(records: Records): GuardFacts {
    GuardFacts(Summary(records.rows, records.approval), records.hasApprovedQuote, records.hasQuote,
               records.isContract, records.isInternal)
  }

  /** A guarded move, or one of the five events the other handlers raise; those
      advance the job only along the table. */
  datatype Move =
    | Guarded(actor: Actor, request: Request, records: Records)
    | Advance(event: JobEvent)

  predicate Raised(event: JobEvent) {
    event.QuoteRequested? || event.QuoteReceived? || event.QuoteApproved? || event.PoCreated? || event.WorkCompleted?
  }

  function OptionsOf(job: Job, records: Records): Options {
    Options(job.preBlock, records.isContract, records.isInternal)
  }

  function MachineTarget(job: Job, request: Request, records: Records): Option<State> {
    match request
    case Manual(target) => ResolveManualTarget(job.state, target, OptionsOf(job, records))
    case Reopen(_) => None
    case InvoicesPaid => NextState(job.state, InvoicePaid, Options(None, false, false))
  }

  /** A hold captures where the job was; leaving a hold clears it. */
  function Landed(job: Job, to: State): Job {
    if to.status.Tenant? then Job(to, Some(job.state))
    else if job.state.status.Tenant? then Job(to, None)
    else Job(to, job.preBlock)
  }

  function Apply(job: Job, move: Move): Job {
    match move
    case Guarded(actor, request, records) =>
      if request.Manual? && request.target == job.state.status then job
      else
        (match GuardTransition(actor, job.state, FactsOf(records), MachineTarget(job, request, records), request)
         case Err(_) => job
         case Ok(to) => if request.Manual? then Landed(job, to) else job.(state := to))
    case Advance(event) =>
      if !Raised(event) then job
      else
        match EdgeOn(job.state, event)
        case None => job
        case Some(to) => job.(state := to)
  }

  function Jobs(start: Job, moves: seq<Move>): (jobs: seq<Job>)
    ensures |jobs| == |moves| + 1
  {
    if moves == [] then [start]
    else
      var before := Jobs(start, moves[..|moves| - 1]);
      before + [Apply(before[|before| - 1], moves[|moves| - 1])]
  }

  lemma {:induction false} JobsStep(start: Job, moves: seq<Move>, i: nat)
    requires i < |moves|
    ensures Jobs(start, moves)[0] == start
    ensures Jobs(start, moves)[i + 1] == Apply(Jobs(start, moves)[i], moves[i])
    decreases |moves|
  {
    hide Apply;
    var n := |moves| - 1;
    if i < n {
      JobsStep(start, moves[..n], i);
    } else if n > 0 {
      JobsStep(start, moves[..n], 0);
    }
  }

  /** The edge a move may take. */
  lemma MoveEdges(job: Job, move: Move)
    ensures move.Advance? && EdgeOn(job.state, move.event).Some? ==>
      var to := EdgeOn(job.state, move.event).value;
      Follows(job.state, to) && LandsOn(move.event, to.status)
    ensures move.Guarded? && move.request.Manual? && EdgeTo(job.state, move.request.target).Some? ==>
      var to := EdgeTo(job.state, move.request.target).value;
      to.status == move.request.target && Follows(job.state, to)
    ensures EdgeOn(job.state, InvoicePaid).Some? ==> Follows(job.state, EdgeOn(job.state, InvoicePaid).value)
    ensures EdgeOn(job.state, InvoicePaid).Some? ==> EdgeOn(job.state, InvoicePaid).value.status.Done?
    ensures EdgeOn(job.state, InvoicePaid).Some? <==> job.state == State(AwaitingApproval, AccountsSide)
    ensures EdgeTo(job.state, Done).Some? <==> job.state == State(AwaitingApproval, AccountsSide)
  {
    hide EdgeOn, EdgeTo;
    AccountsClose();
    EdgeOnFollows(job.state, InvoicePaid);
    EdgeToFollows(job.state, Done);
    match move
    case Advance(event) => EdgeOnFollows(job.state, event);
    case Guarded(_, Manual(target), _) => EdgeToFollows(job.state, target);
    case _ =>
  }

  /** Into Done, on an internal job: by hand. On any other: from (Awaiting
      Approval, accounts) only, by the system with every incoming invoice paid in
      full, or by a person with every one approved and in MYOB. */
  ghost predicate DoneEarned(job: Job, move: Move) {
    && move.Guarded?
    && (|| (move.request == Manual(Done) && Edits(move.actor) && move.records.isInternal)
        || (job.state == State(AwaitingApproval, AccountsSide)
            && (|| (move.request.InvoicesPaid? && move.actor.System? && EveryIncomingPaid(move.records.rows))
                || (move.request == Manual(Done) && Edits(move.actor)
                    && ReadyToClose(move.records.rows, move.records.approval)))))
  }

  /** Exactly the moves that earn it take a job to Done. */
  lemma DoneIffEarned(job: Job, move: Move)
    requires !job.state.status.Done?
    ensures Apply(job, move).state.status.Done? <==> DoneEarned(job, move)
  {
    MoveEdges(job, move);
    hide EdgeOn, EdgeTo;
    if move.Guarded? {
      FactsMean(move.records.rows, move.records.approval);
      hide Summary, ReadyToClose, EveryIncomingPaid, Edits, MayReopen;
    }
  }

  /** In any run, every entry into Done was earned on the records of that moment. */
  lemma EveryDoneEarned(start: Job, moves: seq<Move>, i: nat)
    requires i < |moves|
    requires !Jobs(start, moves)[i].state.status.Done? && Jobs(start, moves)[i + 1].state.status.Done?
    ensures DoneEarned(Jobs(start, moves)[i], moves[i])
  {
    JobsStep(start, moves, i);
    var job := Jobs(start, moves)[i];
    DoneIffEarned(job, moves[i]);
  }

  /** Done is left only by a manager's reopen, with a reason. */
  lemma DoneLeftByReopen(job: Job, move: Move)
    requires job.state.status.Done?
    ensures Apply(job, move) != job ==>
      && move.Guarded? && move.request == Reopen(true) && MayReopen(move.actor)
      && Apply(job, move).state
         == if move.records.isInternal then State(Work, FacilitiesSide) else State(AwaitingApproval, AccountsSide)
  {
    MoveEdges(job, move);
    hide EdgeOn, EdgeTo;
    hide Summary, Edits, MayReopen;
  }

  ghost predicate Reopens(move: Move) { move.Guarded? && move.request == Reopen(true) && MayReopen(move.actor) }

  /** In any run, a job that was done and no longer is was reopened in between,
      by a manager who gave a reason; otherwise it is as it was. */
  lemma {:induction false} DoneUntilReopened(start: Job, moves: seq<Move>, i: nat, j: nat)
    requires i <= j <= |moves| && Jobs(start, moves)[i].state.status.Done?
    ensures Jobs(start, moves)[j] == Jobs(start, moves)[i] || exists k :: i <= k < j && Reopens(moves[k])
    decreases j - i
  {
    hide Apply, Jobs, MayReopen;
    if i < j {
      DoneUntilReopened(start, moves, i, j - 1);
      JobsStep(start, moves, j - 1);
      if Jobs(start, moves)[j - 1] == Jobs(start, moves)[i] && Jobs(start, moves)[j] != Jobs(start, moves)[i] {
        DoneLeftByReopen(Jobs(start, moves)[j - 1], moves[j - 1]);
        assert Reopens(moves[j - 1]);
      }
    }
  }

  /** Work starts only on an approved quote, a contract or an internal job, when
      a person moves it, or by the quote's approval or the order raised on it. */
  lemma WorkEarned(job: Job, move: Move)
    requires !job.state.status.Work? && Apply(job, move).state.status.Work?
    ensures
      || (move.Advance? && job.state == State(AwaitingApproval, FacilitiesSide)
          && (move.event.QuoteApproved? || move.event.PoCreated?))
      || (move.Guarded? && move.request.Reopen? && job.state.status.Done? && move.records.isInternal)
      || (move.Guarded? && move.request.Manual? && Edits(move.actor)
          && (move.records.hasApprovedQuote || move.records.isContract || move.records.isInternal))
  {
    MoveEdges(job, move);
    hide EdgeOn, EdgeTo;
    hide Summary, Edits, MayReopen;
  }

  // ── Whole runs ───────────────────────────────────────────────────────────

  /** While a job is held, the row remembers exactly where it was held from, a
      place it can go back to. */
  ghost predicate HeldFrom(job: Job, from: State) {
    job.state == State(Tenant, from.side) && job.preBlock == Some(from) && !from.status.Tenant? && !from.status.Done?
  }

  lemma HoldCaptures(job: Job, move: Move)
    requires !job.state.status.Tenant? && Apply(job, move).state.status.Tenant?
    ensures HeldFrom(Apply(job, move), job.state)
  {
    MoveEdges(job, move);
    hide EdgeOn, EdgeTo;
    hide Summary, Edits, MayReopen;
  }

  lemma HoldKept(job: Job, move: Move, from: State)
    requires HeldFrom(job, from)
    ensures HeldFrom(Apply(job, move), from)
         || (move.Guarded? && move.request == Manual(Work) && Apply(job, move) == Job(from, None))
         || (move.Guarded? && move.request == Manual(Done) && move.records.isInternal
             && Apply(job, move).state.status.Done?)
  {
    MoveEdges(job, move);
    hide EdgeOn, EdgeTo;
    hide Summary, Edits, MayReopen;
  }

  /** A hold and the resume that ends it give back the state it was held from,
      whatever was tried in between. */
  lemma {:induction false} HoldThenResume(start: Job, moves: seq<Move>, i: nat, j: nat)
    requires i < j <= |moves|
    requires !Jobs(start, moves)[i].state.status.Tenant?
    requires forall k :: i < k < j ==> Jobs(start, moves)[k].state.status.Tenant?
    requires j > i + 1
    ensures HeldFrom(Jobs(start, moves)[j - 1], Jobs(start, moves)[i].state)
    ensures !Jobs(start, moves)[j].state.status.Tenant? && !Jobs(start, moves)[j].state.status.Done? ==>
      Jobs(start, moves)[j] == Job(Jobs(start, moves)[i].state, None)
    decreases j
  {
    hide Apply, Jobs;
    var from := Jobs(start, moves)[i].state;
    JobsStep(start, moves, j - 1);
    JobsStep(start, moves, j - 2);
    var held, before := Jobs(start, moves)[j - 1], Jobs(start, moves)[j - 2];
    if j == i + 2 {
      HoldCaptures(before, moves[j - 2]);
    } else {
      HoldThenResume(start, moves, i, j - 1);
      HoldKept(before, moves[j - 2], from);
    }
    HoldKept(held, moves[j - 1], from);
  }

  /** The job has been in Work. */
  ghost predicate Worked(jobs: seq<Job>) { exists k :: 0 <= k < |jobs| && jobs[k].state.status.Work? }

  predicate PastWork(state: State) { state.status.Done? || state == State(AwaitingApproval, AccountsSide) }

  lemma PastWorkStep(job: Job, move: Move)
    requires !PastWork(job.state) && (job.state.status.Tenant? && job.preBlock.Some? ==> !PastWork(job.preBlock.value))
    requires !job.state.status.Work?
    requires move.Guarded? ==> !move.records.isInternal
    ensures !PastWork(Apply(job, move).state)
    ensures Apply(job, move).state.status.Tenant? && Apply(job, move).preBlock.Some? ==>
      !PastWork(Apply(job, move).preBlock.value)
  {
    MoveEdges(job, move);
    hide EdgeOn, EdgeTo;
    hide Summary, Edits, MayReopen;
  }

  /** A job that is never internal is not waiting on accounts, and not done,
      before it has been in Work. */
  lemma {:induction false} NothingClosedUnworked(moves: seq<Move>)
    requires forall i :: 0 <= i < |moves| && moves[i].Guarded? ==> !moves[i].records.isInternal
    ensures
      var jobs := Jobs(Job(State(New, FacilitiesSide), None), moves);
      var last := jobs[|moves|];
      Worked(jobs) || (&& !PastWork(last.state)
                       && (last.state.status.Tenant? && last.preBlock.Some? ==> !PastWork(last.preBlock.value)))
    decreases |moves|
  {
    if moves != [] {
      var n := |moves| - 1;
      var start := Job(State(New, FacilitiesSide), None);
      NothingClosedUnworked(moves[..n]);
      var before, jobs := Jobs(start, moves[..n]), Jobs(start, moves);
      assert jobs == before + [Apply(before[n], moves[n])];
      hide Apply, Jobs, PastWork;
      if Worked(before) {
        var k :| 0 <= k < |before| && before[k].state.status.Work?;
        assert jobs[k].state.status.Work?;
      } else {
        PastWorkStep(before[n], moves[n]);
      }
    }
  }
}
