/** Who may approve a quote, invoice or purchase order, and who it escalates to:
    two computations over one table of limits. Amounts and limits are in cents. */
module Authority {
  import opened Wrappers

  datatype Subject = Quote | Invoice | PurchaseOrder

  /** Role names after trimming and lower-casing. */
  datatype Role =
    | Facilities | Accounts | FacilitiesManager | AccountsManager | Cfo | Director | Admin
    | OtherRole(name: string)

  /** A limits row: a NULL limit is unlimited, a limit that is no number is unusable. */
  datatype RoleLimit = NoLimitRow(role: Role) | LimitRow(role: Role, limit: int) | UnusableRow(role: Role)

  /** A limit as found: no usable row, no limit, or up to an amount. */
  datatype Limit = NoRow | NoLimit | Upto(amount: int)

  /** An amount as given; only a finite one from 0 up is known. */
  datatype Amount = NotFinite | Amount(cents: int)

  predicate Known(amount: Amount) { amount.Amount? && amount.cents >= 0 }

  datatype Relationship = Occupant | PropertyManager | Owner | OtherRelationship

  /** A bound of a period: missing, a day as yyyymmdd, or not a day at all. */
  datatype Bound = Open | Day(day: int) | NotADay

  /** `folded` and `exact` place the display name in the order names compare in,
      ignoring case and then exactly. */
  datatype ResidenceApprover = ResidenceApprover(
    userId: int, email: string, folded: int, exact: int, relationship: Relationship, from: Bound, until: Bound)

  /** An e-mail address is trimmed and lower-cased, and empty when there is none. */
  datatype Identity = Identity(userId: Option<int>, email: string, roles: seq<Role>)

  datatype Input = Input(subject: Subject, amount: Amount, at: Bound, createdBy: Option<Identity>,
                         attribution: Option<Identity>)

  datatype Facts = Facts(
    directorThreshold: Option<int>, isResidence: bool, limits: seq<RoleLimit>,
    approvers: seq<ResidenceApprover>, directorFallback: bool, today: Bound)

  datatype Basis = ByLimit | ByThreshold | ByResidence

  datatype Step = RoleStep(basis: Basis, role: Role, limit: Limit) | UserStep(userId: int)

  datatype Authority = Authority(directorRequired: bool, threshold: Option<int>, route: seq<Step>)

  datatype DenyReason =
    | Creator | DirectorRequired | OverLimit | NotEligible | NotResidenceApprover | AttributionRequired
    | AttributionInvalid

  datatype ApprovalBasis = OwnAuthority | Attributed | Residence

  datatype Decision = Allowed(basis: ApprovalBasis) | Denied(actorLimit: Limit, reason: DenyReason)

  // ── Limits ───────────────────────────────────────────────────────────────

  function EligibleRoles(subject: Subject): seq<Role> {
    match subject
    case Invoice => [Accounts, AccountsManager, FacilitiesManager, Cfo, Admin, Director]
    case PurchaseOrder => [FacilitiesManager, AccountsManager, Cfo, Admin, Director]
    case Quote => [FacilitiesManager, Accounts, AccountsManager, Cfo, Admin, Director]
  }

  function AttributedRoles(subject: Subject): seq<Role> {
    if subject.Quote? then [Facilities] else []
  }

  predicate Covers(limit: Limit, amount: int) {
    limit.NoLimit? || (limit.Upto? && limit.amount >= amount)
  }

  function Higher(left: Limit, right: Limit): Limit {
    if left.NoLimit? || right.NoLimit? then NoLimit
    else if left.NoRow? then right
    else if right.NoRow? then left
    else if left.amount >= right.amount then left else right
  }

  function LimitOf(row: RoleLimit): Limit {
    match row
    case NoLimitRow(_) => NoLimit
    case LimitRow(_, limit) => Upto(limit)
    case UnusableRow(_) => NoRow
  }

  /** The highest of a role's rows. */
  function RowLimit(role: Role, limits: seq<RoleLimit>): Limit {
    if limits == [] then NoRow
    else
      var last := limits[|limits| - 1];
      Higher(RowLimit(role, limits[..|limits| - 1]), if last.role == role then LimitOf(last) else NoRow)
  }

  method FindRowLimit(role: Role, limits: seq<RoleLimit>) returns (limit: Limit)
    ensures limit == RowLimit(role, limits)
  {
    limit := NoRow;
    for i := 0 to |limits|
      invariant limit == RowLimit(role, limits[..i]) && !limit.NoLimit?
    {
      assert limits[..i + 1][..|limits[..i + 1]| - 1] == limits[..i];
      var row := limits[i];
      if row.role == role {
        if row.NoLimitRow? {
          NoLimitStays(role, limits, i + 1);
          return NoLimit;
        }
        if row.LimitRow? && (limit.NoRow? || row.limit > limit.amount) {
          limit := Upto(row.limit);
        }
      }
    }
    assert limits[..|limits|] == limits;
  }

  lemma {:induction false} NoLimitStays(role: Role, limits: seq<RoleLimit>, n: nat)
    requires n <= |limits| && RowLimit(role, limits[..n]).NoLimit?
    ensures RowLimit(role, limits).NoLimit?
    decreases |limits|
  {
    if n == |limits| {
      assert limits[..n] == limits;
    } else {
      assert limits[..|limits| - 1][..n] == limits[..n];
      NoLimitStays(role, limits[..|limits| - 1], n);
    }
  }

  /** Roles a person holds, with those they imply; nothing implies admin. */
  predicate Holds(roles: seq<Role>, role: Role) {
    || role in roles
    || (!role.Admin? && Director in roles)
    || (role.Facilities? && FacilitiesManager in roles)
    || (role.Accounts? && AccountsManager in roles)
  }

  function OwnLimit(role: Role, limits: seq<RoleLimit>): Limit {
    if role.Director? then NoLimit else RowLimit(role, limits)
  }

  /** The highest limit among the candidate roles the person holds. */
  function HeldLimit(roles: seq<Role>, candidates: seq<Role>, limits: seq<RoleLimit>): Limit {
    if candidates == [] then NoRow
    else
      var last := candidates[|candidates| - 1];
      Higher(HeldLimit(roles, candidates[..|candidates| - 1], limits),
             if Holds(roles, last) then OwnLimit(last, limits) else NoRow)
  }

  method FindHeldLimit(roles: seq<Role>, candidates: seq<Role>, limits: seq<RoleLimit>) returns (held: Limit)
    ensures held == HeldLimit(roles, candidates, limits)
  {
    held := NoRow;
    for i := 0 to |candidates|
      invariant held == HeldLimit(roles, candidates[..i], limits) && !held.NoLimit?
    {
      assert candidates[..i + 1][..|candidates[..i + 1]| - 1] == candidates[..i];
      var role := candidates[i];
      if Holds(roles, role) {
        var limit := NoLimit;
        if !role.Director? {
          limit := FindRowLimit(role, limits);
        }
        if limit.NoLimit? {
          UnlimitedStays(roles, candidates, limits, i + 1);
          return NoLimit;
        }
        if limit.Upto? && (held.NoRow? || limit.amount > held.amount) {
          held := limit;
        }
      }
    }
    assert candidates[..|candidates|] == candidates;
  }

  lemma {:induction false} UnlimitedStays(roles: seq<Role>, candidates: seq<Role>, limits: seq<RoleLimit>, n: nat)
    requires n <= |candidates| && HeldLimit(roles, candidates[..n], limits).NoLimit?
    ensures HeldLimit(roles, candidates, limits).NoLimit?
    decreases |candidates|
  {
    if n == |candidates| {
      assert candidates[..n] == candidates;
    } else {
      assert candidates[..|candidates| - 1][..n] == candidates[..n];
      UnlimitedStays(roles, candidates[..|candidates| - 1], limits, n);
    }
  }

  /** The highest number on any row but a director's, legacy roles included. */
  function HighestRow(limits: seq<RoleLimit>): Option<int> {
    if limits == [] then None
    else
      var before, last := HighestRow(limits[..|limits| - 1]), limits[|limits| - 1];
      if last.role.Director? || !last.LimitRow? then before
      else if before.None? || last.limit > before.value then Some(last.limit)
      else before
  }

  function Threshold(facts: Facts): Option<int> {
    if facts.directorThreshold.Some? && facts.directorThreshold.value > 0 then facts.directorThreshold
    else HighestRow(facts.limits)
  }

  method FindThreshold(facts: Facts) returns (threshold: Option<int>)
    ensures threshold == Threshold(facts)
  {
    if facts.directorThreshold.Some? && facts.directorThreshold.value > 0 {
      return facts.directorThreshold;
    }
    threshold := None;
    for i := 0 to |facts.limits|
      invariant threshold == HighestRow(facts.limits[..i])
    {
      assert facts.limits[..i + 1][..|facts.limits[..i + 1]| - 1] == facts.limits[..i];
      var row := facts.limits[i];
      if !row.role.Director? && row.LimitRow? && (threshold.None? || row.limit > threshold.value) {
        threshold := Some(row.limit);
      }
    }
    assert facts.limits[..|facts.limits|] == facts.limits;
  }

  predicate NeedsDirector(amount: int, threshold: Option<int>) {
    amount > 0 && threshold.Some? && amount > threshold.value
  }

  // ── The route ────────────────────────────────────────────────────────────

  function LadderRank(role: Role): nat {
    match role
    case Facilities => 0
    case Accounts => 1
    case FacilitiesManager => 2
    case AccountsManager => 3
    case Cfo => 4
    case Director => 5
    case _ => 6
  }

  /** Lower limits first, unlimited last, ties by the ladder. */
  predicate StepBefore(a: Step, b: Step)
    requires a.RoleStep? && b.RoleStep?
  {
    if a.limit != b.limit then
      !a.limit.NoLimit? && (b.limit.NoLimit? || (a.limit.Upto? && b.limit.Upto? && a.limit.amount < b.limit.amount))
    else LadderRank(a.role) < LadderRank(b.role)
  }

  predicate AllRoles(steps: seq<Step>) { forall i :: 0 <= i < |steps| ==> steps[i].RoleStep? }

  /** A stable sort, one step at a time. */
  function InsertStep(steps: seq<Step>, step: Step): (inserted: seq<Step>)
    requires AllRoles(steps) && step.RoleStep?
    ensures AllRoles(inserted) && |inserted| == |steps| + 1
    ensures forall s :: s in inserted <==> s == step || s in steps
  {
    if steps == [] || StepBefore(step, steps[0]) then [step] + steps
    else [steps[0]] + InsertStep(steps[1..], step)
  }

  function SortSteps(steps: seq<Step>): (sorted: seq<Step>)
    requires AllRoles(steps)
    ensures AllRoles(sorted) && |sorted| == |steps|
    ensures forall s :: s in sorted <==> s in steps
  {
    if steps == [] then []
    else
      assert forall s :: s in steps <==> s in steps[..|steps| - 1] || s == steps[|steps| - 1];
      InsertStep(SortSteps(steps[..|steps| - 1]), steps[|steps| - 1])
  }

  predicate OnLadder(role: Role, limits: seq<RoleLimit>, amount: int) {
    !role.Admin? && !role.Director? && Covers(RowLimit(role, limits), amount)
  }

  function Levels(roles: seq<Role>, limits: seq<RoleLimit>, amount: int): (levels: seq<Step>)
    ensures AllRoles(levels)
  {
    if roles == [] then []
    else
      var last := roles[|roles| - 1];
      Levels(roles[..|roles| - 1], limits, amount)
      + if OnLadder(last, limits, amount) then [RoleStep(ByLimit, last, RowLimit(last, limits))] else []
  }

  function DirectorStep(basis: Basis): Step { RoleStep(basis, Director, NoLimit) }

  function LadderRoute(subject: Subject, amount: int, limits: seq<RoleLimit>): seq<Step> {
    SortSteps(Levels(EligibleRoles(subject), limits, amount)) + [DirectorStep(ByLimit)]
  }

  method BuildLadderRoute(subject: Subject, amount: int, limits: seq<RoleLimit>) returns (route: seq<Step>)
    ensures route == LadderRoute(subject, amount, limits)
  {
    var eligible := EligibleRoles(subject);
    var levels: seq<Step> := [];
    for i := 0 to |eligible|
      invariant levels == Levels(eligible[..i], limits, amount)
    {
      assert eligible[..i + 1][..|eligible[..i + 1]| - 1] == eligible[..i];
      var role := eligible[i];
      if !role.Admin? && !role.Director? {
        var limit := FindRowLimit(role, limits);
        if !limit.NoRow? && Covers(limit, amount) {
          levels := levels + [RoleStep(ByLimit, role, limit)];
        }
      }
    }
    assert eligible[..|eligible|] == eligible;
    route := SortSteps(levels) + [DirectorStep(ByLimit)];
  }

  function RelationshipRank(relationship: Relationship): int {
    match relationship
    case Occupant => 0
    case PropertyManager => 0
    case Owner => 1
    case OtherRelationship => -1
  }

  predicate ActiveOn(approver: ResidenceApprover, day: int) {
    && (approver.from.Open? || (approver.from.Day? && approver.from.day <= day))
    && (approver.until.Open? || (approver.until.Day? && day <= approver.until.day))
  }

  predicate ApproverBefore(a: ResidenceApprover, b: ResidenceApprover) {
    if RelationshipRank(a.relationship) != RelationshipRank(b.relationship)
    then RelationshipRank(a.relationship) < RelationshipRank(b.relationship)
    else if a.folded != b.folded then a.folded < b.folded
    else if a.exact != b.exact then a.exact < b.exact
    else a.userId < b.userId
  }

  function InsertApprover(sorted: seq<ResidenceApprover>, approver: ResidenceApprover)
    : (inserted: seq<ResidenceApprover>)
    ensures forall a :: a in inserted <==> a == approver || a in sorted
  {
    if sorted == [] || ApproverBefore(approver, sorted[0]) then [approver] + sorted
    else [sorted[0]] + InsertApprover(sorted[1..], approver)
  }

  /** Those active on the day, in route order. */
  function ActiveApprovers(approvers: seq<ResidenceApprover>, day: Bound): (active: seq<ResidenceApprover>)
    ensures forall a :: a in active <==>
      day.Day? && a in approvers && RelationshipRank(a.relationship) >= 0 && ActiveOn(a, day.day)
  {
    if approvers == [] || !day.Day? then []
    else
      var before, last := ActiveApprovers(approvers[..|approvers| - 1], day), approvers[|approvers| - 1];
      assert forall a :: a in approvers <==> a in approvers[..|approvers| - 1] || a == last;
      if RelationshipRank(last.relationship) >= 0 && ActiveOn(last, day.day)
      then InsertApprover(before, last)
      else before
  }

  function UserSteps(active: seq<ResidenceApprover>): seq<Step> {
    seq(|active|, i requires 0 <= i < |active| => UserStep(active[i].userId))
  }

  function DayOf(input: Input, facts: Facts): Bound { if input.at.Open? then facts.today else input.at }

  function ResidenceRoute(facts: Facts, day: Bound): seq<Step> {
    UserSteps(ActiveApprovers(facts.approvers, day))
    + if facts.directorFallback then [DirectorStep(ByResidence)] else []
  }

  function DecideAuthority(input: Input, facts: Facts): Authority {
    var threshold := Threshold(facts);
    if !Known(input.amount) then Authority(true, threshold, [DirectorStep(ByThreshold)])
    else if facts.isResidence then Authority(false, threshold, ResidenceRoute(facts, DayOf(input, facts)))
    else if NeedsDirector(input.amount.cents, threshold) then Authority(true, threshold, [DirectorStep(ByThreshold)])
    else Authority(false, threshold, LadderRoute(input.subject, input.amount.cents, facts.limits))
  }

  // ── The permission ───────────────────────────────────────────────────────

  predicate Same(leftId: Option<int>, leftEmail: string, rightId: Option<int>, rightEmail: string) {
    (leftId.Some? && leftId == rightId) || (leftEmail != "" && leftEmail == rightEmail)
  }

  predicate SamePerson(left: Identity, right: Identity) { Same(left.userId, left.email, right.userId, right.email) }

  predicate IsApprover(identity: Identity, approver: ResidenceApprover) {
    Same(identity.userId, identity.email, Some(approver.userId), approver.email)
  }

  predicate IsCreator(identity: Identity, input: Input) {
    input.subject.PurchaseOrder? && input.createdBy.Some? && SamePerson(identity, input.createdBy.value)
  }

  predicate HasIdentifier(identity: Identity) { identity.userId.Some? || identity.email != "" }

  function OwnHeld(identity: Identity, input: Input, facts: Facts): Limit {
    HeldLimit(identity.roles, EligibleRoles(input.subject), facts.limits)
  }

  function AttributedHeld(identity: Identity, input: Input, facts: Facts): Limit {
    HeldLimit(identity.roles, AttributedRoles(input.subject), facts.limits)
  }

  function Deny(identity: Identity, input: Input, facts: Facts, reason: DenyReason): Decision {
    Denied(Higher(OwnHeld(identity, input, facts), AttributedHeld(identity, input, facts)), reason)
  }

  function DirectorOnly(identity: Identity, input: Input, facts: Facts): Decision {
    if Director in identity.roles then Allowed(OwnAuthority) else Deny(identity, input, facts, DirectorRequired)
  }

  function CanApprove(identity: Identity, input: Input, facts: Facts): Decision
    decreases input.attribution.Some?
  {
    if IsCreator(identity, input) then Deny(identity, input, facts, Creator)
    else if !Known(input.amount) then DirectorOnly(identity, input, facts)
    else if facts.isResidence then
      var active := ActiveApprovers(facts.approvers, DayOf(input, facts));
      if (exists i :: 0 <= i < |active| && IsApprover(identity, active[i]))
         || (facts.directorFallback && Director in identity.roles)
      then Allowed(Residence) else Deny(identity, input, facts, NotResidenceApprover)
    else if NeedsDirector(input.amount.cents, Threshold(facts)) then DirectorOnly(identity, input, facts)
    else if Covers(OwnHeld(identity, input, facts), input.amount.cents) then Allowed(OwnAuthority)
    else if !Covers(AttributedHeld(identity, input, facts), input.amount.cents) then
      Deny(identity, input, facts,
           if OwnHeld(identity, input, facts).NoRow? && AttributedHeld(identity, input, facts).NoRow?
           then NotEligible else OverLimit)
    else if input.attribution.None? then Deny(identity, input, facts, AttributionRequired)
    else
      var named := input.attribution.value;
      if !HasIdentifier(named) || SamePerson(identity, named) then Deny(identity, input, facts, AttributionInvalid)
      else if CanApprove(named, input.(attribution := None), facts) != Allowed(OwnAuthority)
      then Deny(identity, input, facts, AttributionInvalid)
      else Allowed(Attributed)
  }

  // ── Limits mean what their rows say ──────────────────────────────────────

  lemma {:induction false} RowLimitCovers(role: Role, limits: seq<RoleLimit>, amount: int)
    ensures Covers(RowLimit(role, limits), amount)
       <==> exists row :: row in limits && row.role == role && Covers(LimitOf(row), amount)
  {
    if limits != [] {
      var n := |limits| - 1;
      RowLimitCovers(role, limits[..n], amount);
      assert limits[n] in limits;
      assert forall row :: row in limits <==> row in limits[..n] || row == limits[n];
    }
  }

  lemma {:induction false} HeldLimitCovers(roles: seq<Role>, candidates: seq<Role>, limits: seq<RoleLimit>, amount: int)
    ensures Covers(HeldLimit(roles, candidates, limits), amount)
       <==> exists role :: role in candidates && Holds(roles, role) && Covers(OwnLimit(role, limits), amount)
  {
    if candidates != [] {
      hide Holds, OwnLimit;
      var n := |candidates| - 1;
      HeldLimitCovers(roles, candidates[..n], limits, amount);
      assert candidates[n] in candidates;
      assert forall role :: role in candidates <==> role in candidates[..n] || role == candidates[n];
    }
  }

  /** A limit is what it covers. */
  lemma SameCover(a: Limit, b: Limit)
    requires forall amount: int :: Covers(a, amount) <==> Covers(b, amount)
    ensures a == b
  {
    if a.Upto? {
      assert Covers(a, a.amount) && !Covers(a, a.amount + 1);
    }
    if b.Upto? {
      assert Covers(b, b.amount) && !Covers(b, b.amount + 1);
    }
    assert a.NoLimit? ==> Covers(a, 0);
    assert b.NoLimit? ==> Covers(b, 0);
  }

  ghost predicate SameRows(a: seq<RoleLimit>, b: seq<RoleLimit>) { forall row :: row in a <==> row in b }

  lemma RowLimitOrder(role: Role, a: seq<RoleLimit>, b: seq<RoleLimit>)
    requires SameRows(a, b)
    ensures RowLimit(role, a) == RowLimit(role, b)
  {
    forall amount: int ensures Covers(RowLimit(role, a), amount) <==> Covers(RowLimit(role, b), amount) {
      RowLimitCovers(role, a, amount);
      RowLimitCovers(role, b, amount);
    }
    SameCover(RowLimit(role, a), RowLimit(role, b));
  }

  lemma {:induction false} HighestRowAbove(limits: seq<RoleLimit>, amount: int)
    ensures HighestRow(limits).Some? && HighestRow(limits).value >= amount
       <==> exists row :: row in limits && !row.role.Director? && row.LimitRow? && row.limit >= amount
  {
    if limits != [] {
      var n := |limits| - 1;
      HighestRowAbove(limits[..n], amount);
      assert limits[n] in limits;
      assert forall row :: row in limits <==> row in limits[..n] || row == limits[n];
    }
  }

  lemma HighestRowOrder(a: seq<RoleLimit>, b: seq<RoleLimit>)
    requires SameRows(a, b)
    ensures HighestRow(a) == HighestRow(b)
  {
    if HighestRow(a).Some? {
      HighestRowAbove(a, HighestRow(a).value);
      HighestRowAbove(b, HighestRow(a).value);
    }
    if HighestRow(b).Some? {
      HighestRowAbove(a, HighestRow(b).value);
      HighestRowAbove(b, HighestRow(b).value);
    }
  }

  lemma {:induction false} HeldLimitOrder(roles: seq<Role>, candidates: seq<Role>, a: seq<RoleLimit>, b: seq<RoleLimit>)
    requires SameRows(a, b)
    ensures HeldLimit(roles, candidates, a) == HeldLimit(roles, candidates, b)
  {
    if candidates != [] {
      hide SameRows, Holds;
      HeldLimitOrder(roles, candidates[..|candidates| - 1], a, b);
      RowLimitOrder(candidates[|candidates| - 1], a, b);
    }
  }

  lemma {:induction false} LevelsOrder(roles: seq<Role>, a: seq<RoleLimit>, b: seq<RoleLimit>, amount: int)
    requires SameRows(a, b)
    ensures Levels(roles, a, amount) == Levels(roles, b, amount)
  {
    if roles != [] {
      hide SameRows;
      LevelsOrder(roles[..|roles| - 1], a, b, amount);
      RowLimitOrder(roles[|roles| - 1], a, b);
    }
  }

  lemma ThresholdOrder(facts: Facts, limits: seq<RoleLimit>)
    requires SameRows(facts.limits, limits)
    ensures Threshold(facts) == Threshold(facts.(limits := limits))
  {
    HighestRowOrder(facts.limits, limits);
    hide HighestRow, SameRows;
  }

  lemma RouteOrder(input: Input, facts: Facts, limits: seq<RoleLimit>)
    requires SameRows(facts.limits, limits)
    ensures DecideAuthority(input, facts) == DecideAuthority(input, facts.(limits := limits))
  {
    ThresholdOrder(facts, limits);
    if Known(input.amount) {
      LevelsOrder(EligibleRoles(input.subject), facts.limits, limits, input.amount.cents);
    }
    hide Threshold, SameRows, EligibleRoles, Levels, SortSteps, ActiveApprovers, UserSteps;
  }

  lemma HeldOrder(identity: Identity, input: Input, facts: Facts, limits: seq<RoleLimit>)
    requires SameRows(facts.limits, limits)
    ensures OwnHeld(identity, input, facts) == OwnHeld(identity, input, facts.(limits := limits))
    ensures AttributedHeld(identity, input, facts) == AttributedHeld(identity, input, facts.(limits := limits))
    ensures forall reason ::
      Deny(identity, input, facts, reason) == Deny(identity, input, facts.(limits := limits), reason)
  {
    HeldLimitOrder(identity.roles, EligibleRoles(input.subject), facts.limits, limits);
    HeldLimitOrder(identity.roles, AttributedRoles(input.subject), facts.limits, limits);
    hide SameRows, HeldLimit, EligibleRoles, AttributedRoles, Higher;
  }

  lemma PermissionOrder(identity: Identity, input: Input, facts: Facts, limits: seq<RoleLimit>)
    requires SameRows(facts.limits, limits)
    ensures CanApprove(identity, input, facts) == CanApprove(identity, input, facts.(limits := limits))
    decreases input.attribution.Some?
  {
    ThresholdOrder(facts, limits);
    HeldOrder(identity, input, facts, limits);
    hide SameRows, Threshold, OwnHeld, AttributedHeld, Deny, Same, Covers, ActiveApprovers, NeedsDirector,
         HasIdentifier;
    if input.attribution.Some? {
      PermissionOrder(input.attribution.value, input.(attribution := None), facts, limits);
    }
  }

  /** Both answers depend only on which rows the table holds, not on their order
      or on repeats. */
  lemma OrderOfRowsIrrelevant(identity: Identity, input: Input, facts: Facts, limits: seq<RoleLimit>)
    requires SameRows(facts.limits, limits)
    ensures DecideAuthority(input, facts) == DecideAuthority(input, facts.(limits := limits))
    ensures CanApprove(identity, input, facts) == CanApprove(identity, input, facts.(limits := limits))
  {
    RouteOrder(input, facts, limits);
    PermissionOrder(identity, input, facts, limits);
    hide DecideAuthority, CanApprove, SameRows;
  }
}
