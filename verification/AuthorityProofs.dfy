/** The route and the permission agree, and what an approve click does. */
module AuthorityProofs {
  import opened Wrappers
  import opened Authority

  // ── Answering a step ─────────────────────────────────────────────────────

  /** A person answers a role step by holding the role, or one that implies it,
      and a named approver's step by being an approver active on the day. */
  ghost predicate Answers(identity: Identity, step: Step, active: seq<ResidenceApprover>) {
    match step
    case RoleStep(_, role, _) => Holds(identity.roles, role)
    case UserStep(userId) =>
      exists i :: 0 <= i < |active| && active[i].userId == userId && IsApprover(identity, active[i])
  }

  ghost predicate AnswersSome(identity: Identity, input: Input, facts: Facts) {
    exists step :: step in DecideAuthority(input, facts).route
      && Answers(identity, step, ActiveApprovers(facts.approvers, DayOf(input, facts)))
  }

  /** Allowed, and not on someone else's say-so. */
  predicate AllowedAlone(decision: Decision) { decision.Allowed? && !decision.basis.Attributed? }

  lemma {:induction false} LevelsAre(roles: seq<Role>, limits: seq<RoleLimit>, amount: int, step: Step)
    ensures step in Levels(roles, limits, amount)
       <==> exists role ::
              role in roles && OnLadder(role, limits, amount) && step == RoleStep(ByLimit, role, RowLimit(role, limits))
  {
    if roles != [] {
      hide OnLadder, RowLimit;
      var n := |roles| - 1;
      LevelsAre(roles[..n], limits, amount, step);
      assert roles[n] in roles;
      assert forall role :: role in roles <==> role in roles[..n] || role == roles[n];
    }
  }

  /** On the ladder, having the authority and answering a step are the same. */
  lemma LadderAgrees(identity: Identity, subject: Subject, amount: int, limits: seq<RoleLimit>)
    requires Admin !in identity.roles
    ensures Covers(HeldLimit(identity.roles, EligibleRoles(subject), limits), amount)
       <==> exists step :: step in LadderRoute(subject, amount, limits) && Answers(identity, step, [])
  {
    var eligible := EligibleRoles(subject);
    var route := LadderRoute(subject, amount, limits);
    HeldLimitCovers(identity.roles, eligible, limits, amount);
    assert Director in eligible && route[|route| - 1] == DirectorStep(ByLimit);
    forall step ensures step in route <==> step == DirectorStep(ByLimit) || step in Levels(eligible, limits, amount) {
      assert step in SortSteps(Levels(eligible, limits, amount)) <==> step in Levels(eligible, limits, amount);
    }
    hide LadderRoute, SortSteps, Levels, HeldLimit, RowLimit;
    if role :| role in eligible && Holds(identity.roles, role) && Covers(OwnLimit(role, limits), amount) {
      var step := if role.Director? then DirectorStep(ByLimit) else RoleStep(ByLimit, role, RowLimit(role, limits));
      LevelsAre(eligible, limits, amount, step);
      assert !role.Director? ==> OnLadder(role, limits, amount);
      assert step in route && Answers(identity, step, []);
    }
    if step :| step in route && Answers(identity, step, []) {
      LevelsAre(eligible, limits, amount, step);
      if step == DirectorStep(ByLimit) {
        assert Holds(identity.roles, Director) && Covers(OwnLimit(Director, limits), amount);
      }
    }
  }

  lemma UserStepsAnswered(identity: Identity, active: seq<ResidenceApprover>)
    ensures (exists i :: 0 <= i < |active| && IsApprover(identity, active[i]))
       <==> exists step :: step in UserSteps(active) && Answers(identity, step, active)
  {
    var users := UserSteps(active);
    UsersAre(active);
    hide IsApprover, UserSteps;
    if i :| 0 <= i < |active| && IsApprover(identity, active[i]) {
      assert users[i] in users && Answers(identity, users[i], active);
    }
    if step :| step in users && Answers(identity, step, active) {
      var k :| 0 <= k < |users| && users[k] == step;
      assert exists i :: 0 <= i < |active| && active[i].userId == step.userId && IsApprover(identity, active[i]);
    }
  }

  ghost predicate ResidenceMay(identity: Identity, input: Input, facts: Facts) {
    var active := ActiveApprovers(facts.approvers, DayOf(input, facts));
    || (exists i :: 0 <= i < |active| && IsApprover(identity, active[i]))
    || (facts.directorFallback && Director in identity.roles)
  }

  lemma ResidenceDecides(identity: Identity, input: Input, facts: Facts)
    requires Known(input.amount) && facts.isResidence && !IsCreator(identity, input)
    ensures AllowedAlone(CanApprove(identity, input, facts)) <==> ResidenceMay(identity, input, facts)
  {
    hide ActiveApprovers, IsApprover, HeldLimit;
  }

  lemma ResidenceAgrees(identity: Identity, input: Input, facts: Facts)
    requires Known(input.amount) && facts.isResidence
    ensures ResidenceMay(identity, input, facts) <==> AnswersSome(identity, input, facts)
  {
    var active := ActiveApprovers(facts.approvers, DayOf(input, facts));
    var users, route := UserSteps(active), DecideAuthority(input, facts).route;
    var last := DirectorStep(ByResidence);
    assert route == users + if facts.directorFallback then [last] else [];
    UserStepsAnswered(identity, active);
    hide ActiveApprovers, IsApprover, UserSteps, DecideAuthority, DayOf;
    assert Answers(identity, last, active) <==> Director in identity.roles;
    assert forall step :: step in route <==> step in users || (facts.directorFallback && step == last);
    hide Answers;
  }

  lemma UsersAre(active: seq<ResidenceApprover>)
    ensures |UserSteps(active)| == |active|
    ensures forall i :: 0 <= i < |active| ==> UserSteps(active)[i] == UserStep(active[i].userId)
  {
  }

  lemma DirectorAgrees(identity: Identity, input: Input, facts: Facts)
    requires DecideAuthority(input, facts).route == [DirectorStep(ByThreshold)]
    ensures Director in identity.roles <==> AnswersSome(identity, input, facts)
  {
    hide ActiveApprovers, DecideAuthority, DayOf;
    var step := DirectorStep(ByThreshold);
    assert step in DecideAuthority(input, facts).route;
    assert Answers(identity, step, ActiveApprovers(facts.approvers, DayOf(input, facts)))
      <==> Director in identity.roles;
  }

  /** Routing and permission agree: whoever holds no admin role and did not
      raise the order is allowed on own authority, or as a residence's approver,
      exactly when they answer some step of the route. */
  lemma RouteAndPermissionAgree(identity: Identity, input: Input, facts: Facts)
    requires Admin !in identity.roles && !IsCreator(identity, input)
    ensures AllowedAlone(CanApprove(identity, input, facts))
       <==> AnswersSome(identity, input, facts)
  {
    hide ResidenceMay, AnswersSome, ActiveApprovers, HeldLimit;
    if !Known(input.amount) {
      DirectorAgrees(identity, input, facts);
    } else if facts.isResidence {
      ResidenceAgrees(identity, input, facts);
      ResidenceDecides(identity, input, facts);
    } else if NeedsDirector(input.amount.cents, Threshold(facts)) {
      DirectorAgrees(identity, input, facts);
    } else {
      OnLadderAgrees(identity, input, facts);
    }
  }

  lemma OnLadderAgrees(identity: Identity, input: Input, facts: Facts)
    requires Admin !in identity.roles && !IsCreator(identity, input)
    requires Known(input.amount) && !facts.isResidence && !NeedsDirector(input.amount.cents, Threshold(facts))
    ensures AllowedAlone(CanApprove(identity, input, facts))
       <==> AnswersSome(identity, input, facts)
  {
    var subject, amount := input.subject, input.amount.cents;
    LadderAgrees(identity, subject, amount, facts.limits);
    assert DecideAuthority(input, facts).route == LadderRoute(subject, amount, facts.limits);
    assert CanApprove(identity, input, facts) == Allowed(OwnAuthority)
      <==> Covers(OwnHeld(identity, input, facts), amount);
    var active := ActiveApprovers(facts.approvers, DayOf(input, facts));
    hide ActiveApprovers, LadderRoute, DecideAuthority, CanApprove, Holds, HeldLimit, DayOf, Threshold;
    forall step | step in LadderRoute(subject, amount, facts.limits)
      ensures Answers(identity, step, []) <==> Answers(identity, step, active)
    {
      RouteIsRoles(subject, amount, facts.limits, step);
    }
  }

  lemma RouteIsRoles(subject: Subject, amount: int, limits: seq<RoleLimit>, step: Step)
    requires step in LadderRoute(subject, amount, limits)
    ensures step.RoleStep?
  {
  }

  // ── Smaller amounts ──────────────────────────────────────────────────────

  function At(input: Input, cents: int): Input { input.(amount := Amount(cents)) }

  /** An amount that is allowed stays allowed at every smaller known amount. */
  lemma AllowedStays(identity: Identity, input: Input, facts: Facts, less: int)
    requires Known(input.amount) && 0 <= less <= input.amount.cents
    requires CanApprove(identity, input, facts).Allowed?
    ensures CanApprove(identity, At(input, less), facts).Allowed?
    ensures CanApprove(identity, input, facts) == Allowed(OwnAuthority) ==>
      CanApprove(identity, At(input, less), facts) == Allowed(OwnAuthority)
    decreases input.attribution.Some?
  {
    DirectorCovers(identity, input, facts);
    hide HeldLimit, ActiveApprovers, Threshold, Same;
    if input.attribution.Some? {
      var named := input.attribution.value;
      var theirs := input.(attribution := None);
      if CanApprove(named, theirs, facts) == Allowed(OwnAuthority) {
        AllowedStays(named, theirs, facts, less);
        assert At(input, less).(attribution := None) == At(theirs, less);
      }
    }
  }

  lemma DirectorCovers(identity: Identity, input: Input, facts: Facts)
    ensures Director in identity.roles ==> OwnHeld(identity, input, facts).NoLimit?
  {
    if Director in identity.roles {
      var eligible := EligibleRoles(input.subject);
      var n := |eligible| - 1;
      assert eligible[n] == Director && Holds(identity.roles, Director);
      assert HeldLimit(identity.roles, eligible, facts.limits)
          == Higher(HeldLimit(identity.roles, eligible[..n], facts.limits), NoLimit);
    }
  }

  /** An attributed approval stays within the actor's own attributed row, below
      the director's threshold, and names someone else who could approve it
      themselves. */
  lemma AttributedIsCovered(identity: Identity, input: Input, facts: Facts)
    requires CanApprove(identity, input, facts) == Allowed(Attributed)
    ensures input.subject.Quote? && Known(input.amount) && !facts.isResidence && input.attribution.Some?
    ensures !NeedsDirector(input.amount.cents, Threshold(facts))
    ensures Covers(AttributedHeld(identity, input, facts), input.amount.cents)
    ensures
      var named := input.attribution.value;
      !SamePerson(identity, named) && CanApprove(named, input.(attribution := None), facts) == Allowed(OwnAuthority)
  {
    hide ActiveApprovers, Same;
  }

  // ── The order of the route ───────────────────────────────────────────────

  /** No later step comes before an earlier one. */
  ghost predicate InOrder(steps: seq<Step>) {
    AllRoles(steps) && forall i, j :: 0 <= i < j < |steps| ==> !StepBefore(steps[j], steps[i])
  }

  lemma {:induction false} InsertOrdered(steps: seq<Step>, step: Step)
    requires InOrder(steps) && step.RoleStep? && UsableLimits(steps + [step])
    ensures InOrder(InsertStep(steps, step))
  {
    var inserted := InsertStep(steps, step);
    if steps == [] || StepBefore(step, steps[0]) {
      forall j | 1 <= j < |inserted| ensures !StepBefore(inserted[j], step) {
        assert inserted[j] == steps[j - 1];
        assert (steps + [step])[j - 1] == steps[j - 1] && (steps + [step])[|steps|] == step;
      }
      assert forall i :: 1 <= i < |inserted| ==> inserted[i] == steps[i - 1];
    } else {
      var rest := steps[1..];
      assert UsableLimits(rest + [step]) by {
        assert forall i :: 0 <= i < |rest| + 1 ==> (rest + [step])[i] == (steps + [step])[i + 1];
      }
      InsertOrdered(rest, step);
      var tail := InsertStep(rest, step);
      forall j | 1 <= j < |inserted| ensures !StepBefore(inserted[j], steps[0]) {
        assert inserted[j] == tail[j - 1] && tail[j - 1] in tail;
        assert tail[j - 1] == step || tail[j - 1] in rest;
      }
      assert forall i :: 1 <= i < |inserted| ==> inserted[i] == tail[i - 1];
    }
  }

  predicate UsableLimits(steps: seq<Step>) {
    forall i :: 0 <= i < |steps| ==> steps[i].RoleStep? && !steps[i].limit.NoRow?
  }

  lemma {:induction false} SortOrdered(steps: seq<Step>)
    requires UsableLimits(steps)
    ensures AllRoles(steps) && InOrder(SortSteps(steps))
  {
    if steps != [] {
      var n := |steps| - 1;
      SortOrdered(steps[..n]);
      var sorted := SortSteps(steps[..n]);
      hide SortSteps, InsertStep;
      forall i | 0 <= i < |sorted| + 1
        ensures (sorted + [steps[n]])[i].RoleStep? && !(sorted + [steps[n]])[i].limit.NoRow? {
        if i < |sorted| {
          assert sorted[i] in sorted;
          assert sorted[i] in steps[..n];
        }
      }
      InsertOrdered(sorted, steps[n]);
      SortUnfolds(steps);
    }
  }

  lemma SortUnfolds(steps: seq<Step>)
    requires AllRoles(steps) && steps != []
    ensures SortSteps(steps) == InsertStep(SortSteps(steps[..|steps| - 1]), steps[|steps| - 1])
  {
  }

  /** A route on the ladder rises: limits ascending and unlimited last, ties in
      ladder order, every level covering the amount, and the director ends it. */
  lemma RouteRises(subject: Subject, amount: int, limits: seq<RoleLimit>)
    ensures
      var route := LadderRoute(subject, amount, limits);
      var n := |route| - 1;
      && n >= 0 && route[n] == DirectorStep(ByLimit)
      && InOrder(route[..n])
      && forall i :: 0 <= i < n ==>
           && Covers(route[i].limit, amount) && route[i].role in EligibleRoles(subject)
           && !route[i].role.Admin? && !route[i].role.Director?
  {
    var eligible := EligibleRoles(subject);
    var levels := Levels(eligible, limits, amount);
    var route := LadderRoute(subject, amount, limits);
    hide Levels, EligibleRoles, LadderRoute, RowLimit, SortSteps;
    forall step | step in levels
      ensures step.RoleStep? && !step.limit.NoRow? && Covers(step.limit, amount) && step.role in eligible
           && !step.role.Admin? && !step.role.Director?
    {
      LevelsAre(eligible, limits, amount, step);
    }
    SortOrdered(levels);
    var sorted := SortSteps(levels);
    assert route == sorted + [DirectorStep(ByLimit)] by { RouteUnfolds(subject, amount, limits); }
    assert route[..|route| - 1] == sorted;
    forall i | 0 <= i < |sorted|
      ensures Covers(route[i].limit, amount) && route[i].role in eligible && !route[i].role.Admin?
        && !route[i].role.Director?
    {
      assert sorted[i] in sorted;
    }
  }

  lemma RouteUnfolds(subject: Subject, amount: int, limits: seq<RoleLimit>)
    ensures LadderRoute(subject, amount, limits)
         == SortSteps(Levels(EligibleRoles(subject), limits, amount)) + [DirectorStep(ByLimit)]
  {
  }

  /** A residence's approvers stand in route order: occupants and property
      managers before owners, each group by name. */
  ghost predicate ApproversInOrder(approvers: seq<ResidenceApprover>) {
    forall i, j :: 0 <= i < j < |approvers| ==> !ApproverBefore(approvers[j], approvers[i])
  }

  lemma {:induction false} InsertApproverOrdered(sorted: seq<ResidenceApprover>, approver: ResidenceApprover)
    requires ApproversInOrder(sorted)
    ensures ApproversInOrder(InsertApprover(sorted, approver))
  {
    var inserted := InsertApprover(sorted, approver);
    if sorted == [] || ApproverBefore(approver, sorted[0]) {
      assert forall i :: 1 <= i < |inserted| ==> inserted[i] == sorted[i - 1];
    } else {
      var rest := sorted[1..];
      InsertApproverOrdered(rest, approver);
      var tail := InsertApprover(rest, approver);
      forall j | 1 <= j < |inserted| ensures !ApproverBefore(inserted[j], sorted[0]) {
        assert inserted[j] == tail[j - 1] && tail[j - 1] in tail;
        assert tail[j - 1] == approver || tail[j - 1] in rest;
      }
      assert forall i :: 1 <= i < |inserted| ==> inserted[i] == tail[i - 1];
    }
  }

  lemma {:induction false} ResidenceRouteInOrder(approvers: seq<ResidenceApprover>, day: Bound)
    ensures ApproversInOrder(ActiveApprovers(approvers, day))
  {
    if approvers != [] && day.Day? {
      var n := |approvers| - 1;
      ResidenceRouteInOrder(approvers[..n], day);
      InsertApproverOrdered(ActiveApprovers(approvers[..n], day), approvers[n]);
    }
  }

  // ── An approve click ─────────────────────────────────────────────────────

  datatype Refusal = AdminTestRecordsOnly | Because(reason: DenyReason)

  datatype Outcome =
    | Approved(basis: ApprovalBasis, route: seq<Step>)
    | AwaitingDirector(route: seq<Step>)
    | AwaitingApproval(actorLimit: Limit, route: seq<Step>)
    | RefusedFor(reason: Refusal, route: seq<Step>)

  function WithoutAdminRoles(roles: seq<Role>): seq<Role> {
    if roles == [] then []
    else WithoutAdminRoles(roles[..|roles| - 1]) + if roles[|roles| - 1].Admin? then [] else [roles[|roles| - 1]]
  }

  /** On a real record the admin role counts for nothing. */
  function ActingAs(identity: Identity, isTest: bool): Option<Identity> {
    var others := WithoutAdminRoles(identity.roles);
    if isTest || |others| == |identity.roles| then Some(identity)
    else if others == [] then None
    else Some(identity.(roles := others))
  }

  function ApprovalOutcome(identity: Identity, input: Input, facts: Facts, isTest: bool): Outcome {
    var decided := DecideAuthority(input, facts);
    match ActingAs(identity, isTest)
    case None => RefusedFor(AdminTestRecordsOnly, decided.route)
    case Some(actor) =>
      if decided.directorRequired then AwaitingDirector(decided.route)
      else
        match CanApprove(actor, input, facts)
        case Allowed(basis) => Approved(basis, decided.route)
        case Denied(actorLimit, reason) =>
          if reason.OverLimit?
          then AwaitingApproval(actorLimit, decided.route)
          else RefusedFor(Because(reason), decided.route)
  }

  lemma {:induction false} WithoutAdmin(roles: seq<Role>)
    ensures |WithoutAdminRoles(roles)| <= |roles|
    ensures |WithoutAdminRoles(roles)| == |roles| <==> Admin !in roles
    ensures forall role :: role in WithoutAdminRoles(roles) <==> role in roles && !role.Admin?
    ensures Admin !in roles ==> WithoutAdminRoles(roles) == roles
  {
    if roles != [] {
      var n := |roles| - 1;
      WithoutAdmin(roles[..n]);
      assert roles == roles[..n] + [roles[n]];
    }
  }

  /** On a real record a click approves, other than on a named manager's say-so,
      exactly when the item is not the director's and the person, admin role
      aside, answers a step of the route and did not raise the order. */
  lemma ClickApproves(identity: Identity, input: Input, facts: Facts)
    ensures
      var outcome := ApprovalOutcome(identity, input, facts, false);
      var actor := identity.(roles := WithoutAdminRoles(identity.roles));
      (outcome.Approved? && !outcome.basis.Attributed?)
      <==> && !DecideAuthority(input, facts).directorRequired
           && (Admin in identity.roles ==> actor.roles != [])
           && !IsCreator(identity, input) && AnswersSome(actor, input, facts)
  {
    var actor := identity.(roles := WithoutAdminRoles(identity.roles));
    WithoutAdmin(identity.roles);
    hide WithoutAdminRoles, DecideAuthority, CanApprove, AnswersSome;
    assert ActingAs(identity, false) == if Admin in identity.roles && actor.roles == [] then None else Some(actor);
    assert IsCreator(actor, input) == IsCreator(identity, input);
    if !IsCreator(actor, input) {
      RouteAndPermissionAgree(actor, input, facts);
    } else {
      CreatorDenied(actor, input, facts);
    }
  }

  /** What every click comes to: refused for an administrator and nothing else on a
      real record, put to the director when it is the director's, else as the
      person may, admin role aside on a real record. */
  lemma OutcomeRule(identity: Identity, input: Input, facts: Facts, isTest: bool)
    ensures
      var outcome, decided := ApprovalOutcome(identity, input, facts, isTest), DecideAuthority(input, facts);
      var actor := if isTest then identity else identity.(roles := WithoutAdminRoles(identity.roles));
      if !isTest && Admin in identity.roles && forall role <- identity.roles :: role == Admin then
        outcome == RefusedFor(AdminTestRecordsOnly, decided.route)
      else if decided.directorRequired then outcome == AwaitingDirector(decided.route)
      else
        match CanApprove(actor, input, facts)
        case Allowed(basis) => outcome == Approved(basis, decided.route)
        case Denied(limit, reason) =>
          outcome == if reason == OverLimit then AwaitingApproval(limit, decided.route)
                     else RefusedFor(Because(reason), decided.route)
  {
    WithoutAdmin(identity.roles);
    assert identity.(roles := identity.roles) == identity;
    hide WithoutAdminRoles, DecideAuthority, CanApprove;
    var others := WithoutAdminRoles(identity.roles);
    if others != [] {
      assert others[0] in others;
    }
  }

  lemma CreatorDenied(identity: Identity, input: Input, facts: Facts)
    requires IsCreator(identity, input)
    ensures CanApprove(identity, input, facts).Denied?
  {
  }
}
