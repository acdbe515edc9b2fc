/** The approval rules written out over an item's input and the facts alone:
    what the route and the permission come to, whatever computes them. */
module AuthorityRules {
  import opened Wrappers
  import opened Authority
  import AuthorityProofs

  // ── Words of the rules ───────────────────────────────────────────────────

  /** A role held, or held through a role over it; the director's is over all
      but admin. */
  predicate Acts(roles: seq<Role>, role: Role) {
    match role
    case Admin => Admin in roles
    case Director => Director in roles
    case Facilities => Facilities in roles || FacilitiesManager in roles || Director in roles
    case Accounts => Accounts in roles || AccountsManager in roles || Director in roles
    case _ => role in roles || Director in roles
  }

  /** Every role above facilities has limits of its own on any item, but accounts
      has none on purchase orders. */
  predicate HasLimitOn(subject: Subject, role: Role) {
    match role
    case FacilitiesManager => true
    case AccountsManager => true
    case Cfo => true
    case Admin => true
    case Accounts => !subject.PurchaseOrder?
    case _ => false
  }

  predicate RowCovers(row: RoleLimit, cents: int) { row.NoLimitRow? || (row.LimitRow? && cents <= row.limit) }

  predicate SomeRowCovers(limits: seq<RoleLimit>, role: Role, cents: int) {
    exists row <- limits :: row.role == role && RowCovers(row, cents)
  }

  /** The amount is past the threshold that is set or, with none set, past every
      number on a row of a role other than director. */
  ghost predicate PastDirector(cents: int, facts: Facts) {
    && cents > 0
    && if facts.directorThreshold.Some? && facts.directorThreshold.value > 0
       then cents > facts.directorThreshold.value
       else && (exists row <- facts.limits :: row.LimitRow? && row.role != Director)
            && forall row <- facts.limits | row.LimitRow? && row.role != Director :: row.limit < cents
  }

  predicate SameIdentity(a: Identity, b: Identity) {
    (a.userId.Some? && a.userId == b.userId) || (a.email != "" && a.email == b.email)
  }

  predicate RaisedIt(identity: Identity, input: Input) {
    input.subject.PurchaseOrder? && input.createdBy.Some? && SameIdentity(identity, input.createdBy.value)
  }

  predicate OwnCovers(roles: seq<Role>, subject: Subject, cents: int, limits: seq<RoleLimit>) {
    || Director in roles
    || exists row <- limits :: HasLimitOn(subject, row.role) && Acts(roles, row.role) && RowCovers(row, cents)
  }

  /** On a quote, the limit of facilities counts with someone else's say-so. */
  predicate NamedCovers(roles: seq<Role>, subject: Subject, cents: int, limits: seq<RoleLimit>) {
    subject.Quote? && Acts(roles, Facilities) && SomeRowCovers(limits, Facilities, cents)
  }

  predicate ActiveNow(a: ResidenceApprover, input: Input, facts: Facts) {
    var day := if input.at.Open? then facts.today else input.at;
    && day.Day? && !a.relationship.OtherRelationship?
    && (a.from.Open? || (a.from.Day? && a.from.day <= day.day))
    && (a.until.Open? || (a.until.Day? && day.day <= a.until.day))
  }

  predicate IsThem(identity: Identity, a: ResidenceApprover) {
    identity.userId == Some(a.userId) || (identity.email != "" && identity.email == a.email)
  }

  // ── What the model's words come to ───────────────────────────────────────

  lemma HoldsIsActs(roles: seq<Role>, role: Role)
    ensures Holds(roles, role) <==> Acts(roles, role)
  {
  }

  lemma PastIsNeeded(cents: int, facts: Facts)
    ensures NeedsDirector(cents, Threshold(facts)) <==> PastDirector(cents, facts)
  {
    if facts.directorThreshold.None? || facts.directorThreshold.value <= 0 {
      var limits := facts.limits;
      HighestRowAbove(limits, cents);
      if HighestRow(limits).Some? {
        HighestRowAbove(limits, HighestRow(limits).value);
      }
      forall row | row in limits && row.LimitRow? && row.role != Director ensures HighestRow(limits).Some? {
        HighestRowAbove(limits, row.limit);
      }
      hide HighestRow;
    }
  }

  lemma OwnIsCovered(identity: Identity, input: Input, facts: Facts, cents: int)
    ensures Covers(OwnHeld(identity, input, facts), cents)
       <==> OwnCovers(identity.roles, input.subject, cents, facts.limits)
  {
    var roles, limits, eligible := identity.roles, facts.limits, EligibleRoles(input.subject);
    HeldLimitCovers(roles, eligible, limits, cents);
    forall role: Role
      ensures role in eligible <==> role.Director? || HasLimitOn(input.subject, role)
      ensures Holds(roles, role) <==> Acts(roles, role)
      ensures !role.Director? ==>
        (Covers(OwnLimit(role, limits), cents) <==> exists row <- limits :: row.role == role && RowCovers(row, cents))
    {
      RowLimitCovers(role, limits, cents);
      HoldsIsActs(roles, role);
    }
    assert Covers(OwnLimit(Director, limits), cents);
    hide HeldLimit, EligibleRoles, RowLimit, Holds, OwnLimit;
    assert Director in eligible;
    if row :| row in limits && HasLimitOn(input.subject, row.role) && Acts(roles, row.role) && RowCovers(row, cents) {
      assert row.role in eligible && Holds(roles, row.role) && Covers(OwnLimit(row.role, limits), cents);
    }
  }

  lemma NamedIsCovered(identity: Identity, input: Input, facts: Facts, cents: int)
    ensures Covers(AttributedHeld(identity, input, facts), cents)
       <==> NamedCovers(identity.roles, input.subject, cents, facts.limits)
  {
    HeldLimitCovers(identity.roles, AttributedRoles(input.subject), facts.limits, cents);
    RowLimitCovers(Facilities, facts.limits, cents);
    HoldsIsActs(identity.roles, Facilities);
    assert Covers(OwnLimit(Facilities, facts.limits), cents) <==> SomeRowCovers(facts.limits, Facilities, cents);
    hide HeldLimit, RowLimit, Holds, OwnLimit, Acts;
  }

  // ── The rules ────────────────────────────────────────────────────────────

  /** Off a residence a known amount goes to the director exactly when it is past
      the director's threshold; an unknown amount always does, wherever it is; a
      known one on a residence never does. */
  lemma DirectorRule(input: Input, facts: Facts)
    ensures
      var authority := DecideAuthority(input, facts);
      && (authority.directorRequired
          <==> if input.amount.Amount? && input.amount.cents >= 0
               then !facts.isResidence && PastDirector(input.amount.cents, facts) else true)
      && (authority.directorRequired ==> authority.route == [RoleStep(ByThreshold, Director, NoLimit)])
  {
    if input.amount.Amount? {
      PastIsNeeded(input.amount.cents, facts);
    }
    hide Threshold, NeedsDirector, PastDirector, LadderRoute, ResidenceRoute;
  }

  /** The threshold reported: the one set or, with none set, the highest number on
      a row of a role other than director, if there is one. */
  lemma ThresholdRule(input: Input, facts: Facts)
    ensures
      var threshold := DecideAuthority(input, facts).threshold;
      if facts.directorThreshold.Some? && facts.directorThreshold.value > 0 then threshold == facts.directorThreshold
      else
        && (threshold.Some? ==>
              exists row <- facts.limits :: row.LimitRow? && row.role != Director && row.limit == threshold.value)
        && forall row <- facts.limits | row.LimitRow? && row.role != Director ::
             threshold.Some? && row.limit <= threshold.value
  {
    var limits := facts.limits;
    assert DecideAuthority(input, facts).threshold == Threshold(facts);
    if HighestRow(limits).Some? {
      HighestRowAbove(limits, HighestRow(limits).value);
      HighestRowAbove(limits, HighestRow(limits).value + 1);
    }
    forall row | row in limits && row.LimitRow? && row.role != Director
      ensures HighestRow(limits).Some? && row.limit <= HighestRow(limits).value
    {
      HighestRowAbove(limits, row.limit);
    }
    hide HighestRow, DecideAuthority;
  }

  /** Who raised an order may not approve it. */
  lemma CreatorRule(identity: Identity, input: Input, facts: Facts)
    ensures RaisedIt(identity, input) <==>
      CanApprove(identity, input, facts).Denied? && CanApprove(identity, input, facts).reason == Creator
  {
    hide OwnHeld, AttributedHeld, ActiveApprovers, Threshold;
  }

  /** Where the director is required, a director may and nobody else. */
  lemma DirectorOnlyRule(identity: Identity, input: Input, facts: Facts)
    requires !RaisedIt(identity, input) && DecideAuthority(input, facts).directorRequired
    ensures
      var decision := CanApprove(identity, input, facts);
      if Director in identity.roles then decision == Allowed(OwnAuthority)
      else decision.Denied? && decision.reason == DirectorRequired
  {
    hide OwnHeld, AttributedHeld, ActiveApprovers, Threshold, LadderRoute, ResidenceRoute;
  }

  /** On a residence, exactly its active approvers may, and the director where
      the director stands in. */
  lemma ResidenceRule(identity: Identity, input: Input, facts: Facts)
    requires !RaisedIt(identity, input) && facts.isResidence && input.amount.Amount? && input.amount.cents >= 0
    ensures
      var decision := CanApprove(identity, input, facts);
      if (exists a <- facts.approvers :: ActiveNow(a, input, facts) && IsThem(identity, a))
         || (facts.directorFallback && Director in identity.roles)
      then decision == Allowed(Residence)
      else decision.Denied? && decision.reason == NotResidenceApprover
  {
    var active := ActiveApprovers(facts.approvers, DayOf(input, facts));
    assert forall a :: a in active <==> a in facts.approvers && ActiveNow(a, input, facts);
    assert forall a :: IsApprover(identity, a) <==> IsThem(identity, a);
    hide OwnHeld, AttributedHeld, ActiveApprovers, Threshold, ActiveNow, IsThem, IsApprover, DayOf;
  }

  ghost predicate ByLadder(input: Input, facts: Facts) {
    && input.amount.Amount? && input.amount.cents >= 0 && !facts.isResidence
    && !PastDirector(input.amount.cents, facts)
  }

  /** Everywhere else, exactly who holds a limit of their own that covers the
      amount may on own authority; and on a quote, who holds the limit of facilities
      and names someone else who may. */
  lemma LimitRule(identity: Identity, input: Input, facts: Facts)
    requires !RaisedIt(identity, input) && ByLadder(input, facts)
    ensures
      var decision, cents := CanApprove(identity, input, facts), input.amount.cents;
      var own := OwnCovers(identity.roles, input.subject, cents, facts.limits);
      var named := NamedCovers(identity.roles, input.subject, cents, facts.limits);
      && (decision == Allowed(OwnAuthority) <==> own)
      && (decision == Allowed(Attributed) <==> !own && named && NamesSomeoneWhoMay(identity, input, facts))
      && (decision.Denied? ==> !own)
      && (!own && named && decision.Denied? ==>
            decision.reason == if input.attribution.None? then AttributionRequired else AttributionInvalid)
      && (!own && !named ==>
            && decision.Denied?
            && decision.reason
               == if HoldsAnyLimit(identity.roles, input.subject, facts.limits) then OverLimit else NotEligible)
  {
    var cents := input.amount.cents;
    PastIsNeeded(cents, facts);
    OwnIsCovered(identity, input, facts, cents);
    NamedIsCovered(identity, input, facts, cents);
    AnyLimit(identity, input, facts);
    assert input.attribution.Some? ==>
      (SamePerson(identity, input.attribution.value) <==> SameIdentity(identity, input.attribution.value));
    hide OwnHeld, AttributedHeld, ActiveApprovers, Threshold, NeedsDirector, PastDirector, OwnCovers, NamedCovers,
         HoldsAnyLimit, SamePerson, SameIdentity;
  }

  predicate NamesSomeoneWhoMay(identity: Identity, input: Input, facts: Facts) {
    && input.attribution.Some?
    && (var someone := input.attribution.value;
        && (someone.userId.Some? || someone.email != "") && !SameIdentity(identity, someone)
        && CanApprove(someone, input.(attribution := None), facts) == Allowed(OwnAuthority))
  }

  /** Some row with a limit, or with none, counts for the person. */
  predicate HoldsAnyLimit(roles: seq<Role>, subject: Subject, limits: seq<RoleLimit>) {
    || Director in roles
    || exists row <- limits ::
         && !row.UnusableRow? && Acts(roles, row.role)
         && (HasLimitOn(subject, row.role) || (subject.Quote? && row.role == Facilities))
  }

  /** The lowest number on any row, or 0: what any usable row covers. */
  function Lowest(limits: seq<RoleLimit>): (low: int)
    ensures forall row <- limits :: !row.UnusableRow? <==> RowCovers(row, low)
  {
    if limits == [] then 0
    else
      var last, before := limits[|limits| - 1], Lowest(limits[..|limits| - 1]);
      assert forall row <- limits :: row in limits[..|limits| - 1] || row == last;
      if last.LimitRow? && last.limit < before then last.limit else before
  }

  lemma AnyLimit(identity: Identity, input: Input, facts: Facts)
    ensures HoldsAnyLimit(identity.roles, input.subject, facts.limits)
       <==> !(OwnHeld(identity, input, facts).NoRow? && AttributedHeld(identity, input, facts).NoRow?)
  {
    var own, named := OwnHeld(identity, input, facts), AttributedHeld(identity, input, facts);
    var low := Lowest(facts.limits);
    var lowest := if own.Upto? && own.amount < low then own.amount else low;
    lowest := if named.Upto? && named.amount < lowest then named.amount else lowest;
    OwnIsCovered(identity, input, facts, lowest);
    NamedIsCovered(identity, input, facts, lowest);
    hide OwnHeld, AttributedHeld, Lowest, Acts, HasLimitOn;
    assert forall row <- facts.limits :: !row.UnusableRow? ==> RowCovers(row, lowest);
    if exists row <- facts.limits ::
         !row.UnusableRow? && Acts(identity.roles, row.role) && input.subject.Quote? && row.role == Facilities {
      assert SomeRowCovers(facts.limits, Facilities, lowest);
    }
  }

  /** A refusal reports the highest limit the person has, theirs or with someone's
      say-so: it covers exactly what one of the two covers. */
  lemma ReportedLimit(identity: Identity, input: Input, facts: Facts, cents: int)
    requires CanApprove(identity, input, facts).Denied?
    ensures Covers(CanApprove(identity, input, facts).actorLimit, cents)
       <==> OwnCovers(identity.roles, input.subject, cents, facts.limits)
            || NamedCovers(identity.roles, input.subject, cents, facts.limits)
  {
    OwnIsCovered(identity, input, facts, cents);
    NamedIsCovered(identity, input, facts, cents);
    hide OwnHeld, AttributedHeld, ActiveApprovers, Threshold, OwnCovers, NamedCovers;
    assert CanApprove(identity, input, facts).actorLimit
        == Higher(OwnHeld(identity, input, facts), AttributedHeld(identity, input, facts));
  }

  // ── The routes ───────────────────────────────────────────────────────────

  /** The role's limit: none when a row says so, else the highest on its rows. */
  ghost predicate HighestLimit(limits: seq<RoleLimit>, role: Role, limit: Limit) {
    match limit
    case NoRow => forall row <- limits | row.role == role :: row.UnusableRow?
    case NoLimit => exists row <- limits :: row.role == role && row.NoLimitRow?
    case Upto(amount) =>
      && (exists row <- limits :: row == LimitRow(role, amount))
      && forall row <- limits | row.role == role :: !row.NoLimitRow? && (row.LimitRow? ==> row.limit <= amount)
  }

  lemma RowLimitIsHighest(role: Role, limits: seq<RoleLimit>)
    ensures HighestLimit(limits, role, RowLimit(role, limits))
  {
    var limit := RowLimit(role, limits);
    forall cents: int
      ensures Covers(limit, cents) <==> exists row <- limits :: row.role == role && RowCovers(row, cents)
    {
      RowLimitCovers(role, limits, cents);
    }
    hide RowLimit;
    forall row | row in limits && row.role == role && !row.UnusableRow? ensures !limit.NoRow? {
      var cents := if row.LimitRow? then row.limit else 0;
      assert RowCovers(row, cents);
      assert Covers(limit, cents);
    }
    if limit.Upto? {
      assert Covers(limit, limit.amount) && !Covers(limit, limit.amount + 1);
      forall row | row in limits && row.role == role
        ensures !row.NoLimitRow? && (row.LimitRow? ==> row.limit <= limit.amount) {
        assert !RowCovers(row, limit.amount + 1);
      }
    } else if limit.NoLimit? {
      var past := MoreThanAny(limits);
      assert Covers(limit, past);
    }
  }

  function MoreThanAny(limits: seq<RoleLimit>): (past: int)
    ensures forall row <- limits :: row.LimitRow? ==> row.limit < past
  {
    if limits == [] then 0
    else
      var last, before := limits[|limits| - 1], MoreThanAny(limits[..|limits| - 1]);
      assert forall row <- limits :: row in limits[..|limits| - 1] || row == last;
      if last.LimitRow? && last.limit >= before then last.limit + 1 else before
  }

  /** Lower limits first and no limit last; equal ones from accounts up to the CFO. */
  predicate StandsBefore(a: Step, b: Step)
    requires a.RoleStep? && b.RoleStep?
  {
    || (a.limit.Upto? && b.limit.NoLimit?)
    || (a.limit.Upto? && b.limit.Upto? && a.limit.amount < b.limit.amount)
    || (a.limit == b.limit
        && match a.role
           case Accounts => b.role != Accounts
           case FacilitiesManager => b.role == AccountsManager || b.role == Cfo
           case AccountsManager => b.role == Cfo
           case _ => false)
  }

  predicate IsLevel(step: Step, subject: Subject) {
    step.RoleStep? && step.basis.ByLimit? && HasLimitOn(subject, step.role) && !step.role.Admin? && !step.limit.NoRow?
  }

  /** On the ladder: each role, admin aside, whose limit covers the amount, once,
      with that limit, in order of limit; and the director at the end. */
  lemma LadderRule(input: Input, facts: Facts)
    requires ByLadder(input, facts)
    ensures
      var route := DecideAuthority(input, facts).route;
      var n := |route| - 1;
      && n >= 0 && route[n] == RoleStep(ByLimit, Director, NoLimit)
      && LadderStands(route[..n], input.subject, input.amount.cents, facts.limits)
  {
    var subject, cents, limits := input.subject, input.amount.cents, facts.limits;
    PastIsNeeded(cents, facts);
    assert DecideAuthority(input, facts).route == LadderRoute(subject, cents, limits) by {
      hide LadderRoute, Threshold, PastDirector;
    }
    hide *;
    LadderRouteRule(subject, cents, limits);
  }

  ghost predicate LadderStands(levels: seq<Step>, subject: Subject, cents: int, limits: seq<RoleLimit>) {
    && (forall i :: 0 <= i < |levels| ==>
          IsLevel(levels[i], subject) && HighestLimit(limits, levels[i].role, levels[i].limit))
    && (forall i, j :: 0 <= i < j < |levels| ==> StandsBefore(levels[i], levels[j]))
    && (forall role :: HasStepOf(levels, role)
          <==> HasLimitOn(subject, role) && role != Admin && SomeRowCovers(limits, role, cents))
  }

  predicate HasStepOf(steps: seq<Step>, role: Role) {
    exists i :: 0 <= i < |steps| && steps[i].RoleStep? && steps[i].role == role
  }

  lemma LadderRouteRule(subject: Subject, cents: int, limits: seq<RoleLimit>)
    ensures
      var route := LadderRoute(subject, cents, limits);
      var n := |route| - 1;
      n >= 0 && route[n] == RoleStep(ByLimit, Director, NoLimit) && LadderStands(route[..n], subject, cents, limits)
  {
    var levels := Levels(EligibleRoles(subject), limits, cents);
    var sorted := SortSteps(levels);
    AuthorityProofs.RouteRises(subject, cents, limits);
    AuthorityProofs.RouteUnfolds(subject, cents, limits);
    assert LadderRoute(subject, cents, limits)[..|sorted|] == sorted;
    EligibleOnce(subject);
    LevelsOnce(EligibleRoles(subject), limits, cents);
    SortOnce(levels);
    hide LadderRoute, SortSteps, Levels, EligibleRoles, IsLevel, HighestLimit, HasLimitOn, SomeRowCovers, StandsBefore,
      HasStepOf;
    LevelsStand(subject, cents, limits);
    forall i, j | 0 <= i < j < |sorted| ensures StandsBefore(sorted[i], sorted[j]) {
      InOrderStands(subject, sorted, i, j);
    }
  }

  lemma LevelsStand(subject: Subject, cents: int, limits: seq<RoleLimit>)
    ensures
      var sorted := SortSteps(Levels(EligibleRoles(subject), limits, cents));
      && (forall i :: 0 <= i < |sorted| ==>
            IsLevel(sorted[i], subject) && HighestLimit(limits, sorted[i].role, sorted[i].limit))
      && (forall role :: HasStepOf(sorted, role)
            <==> HasLimitOn(subject, role) && role != Admin && SomeRowCovers(limits, role, cents))
  {
    var eligible := EligibleRoles(subject);
    assert forall role: Role :: role in eligible <==> role.Director? || HasLimitOn(subject, role);
    var levels := Levels(eligible, limits, cents);
    var sorted := SortSteps(levels);
    assert forall step :: step in sorted <==> step in levels;
    hide EligibleRoles, SortSteps, Levels, RowLimit, HasLimitOn, HighestLimit, SomeRowCovers;
    forall i | 0 <= i < |sorted|
      ensures IsLevel(sorted[i], subject) && HighestLimit(limits, sorted[i].role, sorted[i].limit)
    {
      assert sorted[i] in sorted;
      AuthorityProofs.LevelsAre(eligible, limits, cents, sorted[i]);
      RowLimitIsHighest(sorted[i].role, limits);
    }
    forall role ensures HasStepOf(sorted, role)
      <==> HasLimitOn(subject, role) && role != Admin && SomeRowCovers(limits, role, cents)
    {
      LevelOf(subject, limits, cents, role);
      if HasStepOf(sorted, role) {
        var i :| 0 <= i < |sorted| && sorted[i].RoleStep? && sorted[i].role == role;
        assert sorted[i] in levels;
      }
      if step :| step in levels && step.RoleStep? && step.role == role {
        var k :| 0 <= k < |sorted| && sorted[k] == step;
      }
    }
  }

  lemma LevelOf(subject: Subject, limits: seq<RoleLimit>, cents: int, role: Role)
    ensures (exists step ::
               step in Levels(EligibleRoles(subject), limits, cents) && step.RoleStep? && step.role == role)
       <==> HasLimitOn(subject, role) && role != Admin && SomeRowCovers(limits, role, cents)
  {
    var eligible := EligibleRoles(subject);
    assert role in eligible <==> role.Director? || HasLimitOn(subject, role);
    var own := RoleStep(ByLimit, role, RowLimit(role, limits));
    RowLimitCovers(role, limits, cents);
    hide EligibleRoles, HasLimitOn, RowLimit, Levels;
    AuthorityProofs.LevelsAre(eligible, limits, cents, own);
    if step :| step in Levels(eligible, limits, cents) && step.RoleStep? && step.role == role {
      AuthorityProofs.LevelsAre(eligible, limits, cents, step);
    }
    assert HasLimitOn(subject, role) ==> !role.Director? by {
      NoLimitOnDirector(subject);
    }
  }

  lemma NoLimitOnDirector(subject: Subject)
    ensures !HasLimitOn(subject, Director)
  {
  }

  ghost predicate OnePerRole(steps: seq<Step>) {
    AllRoles(steps) && forall i, j :: 0 <= i < j < |steps| ==> steps[i].role != steps[j].role
  }

  lemma EligibleOnce(subject: Subject)
    ensures forall i, j :: 0 <= i < j < |EligibleRoles(subject)| ==>
              EligibleRoles(subject)[i] != EligibleRoles(subject)[j]
  {
  }

  lemma {:induction false} LevelsOnce(roles: seq<Role>, limits: seq<RoleLimit>, cents: int)
    requires forall i, j :: 0 <= i < j < |roles| ==> roles[i] != roles[j]
    ensures OnePerRole(Levels(roles, limits, cents))
  {
    if roles != [] {
      var n := |roles| - 1;
      LevelsOnce(roles[..n], limits, cents);
      var before := Levels(roles[..n], limits, cents);
      hide OnLadder, RowLimit;
      forall i | 0 <= i < |before| ensures before[i].role != roles[n] {
        assert before[i] in before;
        AuthorityProofs.LevelsAre(roles[..n], limits, cents, before[i]);
      }
    }
  }

  lemma {:induction false} InsertOnce(steps: seq<Step>, step: Step)
    requires OnePerRole(steps) && step.RoleStep? && forall s <- steps :: s.role != step.role
    ensures OnePerRole(InsertStep(steps, step))
  {
    if steps != [] && !StepBefore(step, steps[0]) {
      InsertOnce(steps[1..], step);
      var tail := InsertStep(steps[1..], step);
      forall j | 0 <= j < |tail| ensures tail[j].role != steps[0].role {
        assert tail[j] in tail;
      }
    }
  }

  lemma {:induction false} SortOnce(steps: seq<Step>)
    requires OnePerRole(steps)
    ensures OnePerRole(SortSteps(steps))
  {
    if steps != [] {
      var n := |steps| - 1;
      SortOnce(steps[..n]);
      forall s | s in SortSteps(steps[..n]) ensures s.role != steps[n].role {
        assert s in steps[..n];
      }
      InsertOnce(SortSteps(steps[..n]), steps[n]);
    }
  }

  lemma InOrderStands(subject: Subject, sorted: seq<Step>, i: nat, j: nat)
    requires AuthorityProofs.InOrder(sorted) && OnePerRole(sorted) && i < j < |sorted|
    requires IsLevel(sorted[i], subject) && IsLevel(sorted[j], subject)
    ensures StandsBefore(sorted[i], sorted[j])
  {
    assert !StepBefore(sorted[j], sorted[i]) && sorted[i].role != sorted[j].role;
  }

  /** Occupants and property managers before owners, then by name, then by id. */
  predicate Precedes(a: ResidenceApprover, b: ResidenceApprover) {
    var first, second := a.relationship.Owner?, b.relationship.Owner?;
    || (!first && second)
    || (first == second
        && (|| a.folded < b.folded
            || (a.folded == b.folded && (a.exact < b.exact || (a.exact == b.exact && a.userId < b.userId)))))
  }

  /** On a residence: the steps of its approvers active on the day, each as often as
      listed, in order; and the director at the end where the director stands in. */
  lemma ResidenceRouteRule(input: Input, facts: Facts) returns (active: seq<ResidenceApprover>)
    requires facts.isResidence && input.amount.Amount? && input.amount.cents >= 0
    ensures multiset(active) == multiset(Kept(facts.approvers, input, facts))
    ensures forall i, j :: 0 <= i < j < |active| ==> !Precedes(active[j], active[i])
    ensures
      var route := DecideAuthority(input, facts).route;
      var n := |active|;
      && |route| == n + (if facts.directorFallback then 1 else 0)
      && (forall i :: 0 <= i < n ==> route[i] == UserStep(active[i].userId))
      && (facts.directorFallback ==> route[n] == RoleStep(ByResidence, Director, NoLimit))
  {
    var day := DayOf(input, facts);
    active := ActiveApprovers(facts.approvers, day);
    ActiveAreKept(facts.approvers, input, facts);
    AuthorityProofs.ResidenceRouteInOrder(facts.approvers, day);
    forall i, j | 0 <= i < j < |active| ensures !Precedes(active[j], active[i]) {
      assert active[i] in active && active[j] in active;
    }
    assert |UserSteps(active)| == |active|;
    hide ActiveApprovers, DayOf;
  }

  /** The approvers a route is made of, as listed. */
  function Kept(approvers: seq<ResidenceApprover>, input: Input, facts: Facts): seq<ResidenceApprover> {
    if approvers == [] then []
    else
      var last := approvers[|approvers| - 1];
      Kept(approvers[..|approvers| - 1], input, facts) + if ActiveNow(last, input, facts) then [last] else []
  }

  lemma {:induction false} InsertedApprover(sorted: seq<ResidenceApprover>, approver: ResidenceApprover)
    ensures multiset(InsertApprover(sorted, approver)) == multiset(sorted) + multiset{approver}
  {
    if sorted != [] && !ApproverBefore(approver, sorted[0]) {
      InsertedApprover(sorted[1..], approver);
      assert sorted == [sorted[0]] + sorted[1..];
    } else {
      assert multiset([approver] + sorted) == multiset([approver]) + multiset(sorted);
    }
  }

  lemma {:induction false} ActiveAreKept(approvers: seq<ResidenceApprover>, input: Input, facts: Facts)
    ensures multiset(ActiveApprovers(approvers, DayOf(input, facts))) == multiset(Kept(approvers, input, facts))
  {
    var day := DayOf(input, facts);
    if approvers != [] {
      var n := |approvers| - 1;
      ActiveAreKept(approvers[..n], input, facts);
      assert ActiveNow(approvers[n], input, facts)
        <==> day.Day? && RelationshipRank(approvers[n].relationship) >= 0 && ActiveOn(approvers[n], day.day);
      InsertedApprover(ActiveApprovers(approvers[..n], day), approvers[n]);
      hide ActiveNow, ActiveOn, InsertApprover, RelationshipRank;
      if !day.Day? {
        assert ActiveApprovers(approvers, day) == [] == ActiveApprovers(approvers[..n], day);
      }
    }
  }
}
