/** A rise in an order's or invoice's amount that stays approved: a margin on
    the original approved amount, measured over the whole history of rises.
    All amounts are whole cents. */
module Variance {
  import opened Wrappers
  import opened Authority
  import AuthorityProofs
  import AuthorityRules

  /** The margin an administrator sets: a share of the original, and a cap. */
  datatype Margin = Margin(percent: real, cap: int)

  datatype Request = Request(attributedTo: Option<Identity>, overrideReason: bool, rationale: bool)

  datatype Item = PurchaseOrderItem | InvoiceItem

  datatype Code =
    | AmountUnknown | InvoiceNeedsManager | OverMargin | CrossesDirectorLimit | CrossesRoleLimit
    | RationaleRequired | ManagerRequired | ManagerInvalid

  /** `figures` is false when there are no amounts to record. */
  datatype VarianceDecision =
    | NoVariance
    | WithinTolerance
    | DirectorOverride(overridden: Code, figures: bool)
    | VarianceRefused(code: Code)

  predicate Nameable(role: Role) {
    role.FacilitiesManager? || role.AccountsManager? || role.Cfo? || role.Director?
  }

  function NameableRoles(roles: seq<Role>): (kept: seq<Role>)
    ensures forall role :: role in kept <==> role in roles && Nameable(role)
  {
    if roles == [] then []
    else
      assert forall role :: role in roles <==> role in roles[..|roles| - 1] || role == roles[|roles| - 1];
      NameableRoles(roles[..|roles| - 1]) + if Nameable(roles[|roles| - 1]) then [roles[|roles| - 1]] else []
  }

  function WithoutAdmin(identity: Identity): Identity {
    identity.(roles := AuthorityProofs.WithoutAdminRoles(identity.roles))
  }

  function SubjectOf(item: Item): Subject { if item.InvoiceItem? then Invoice else PurchaseOrder }

  function Plain(item: Item, amount: int, at: Bound): Input {
    Input(SubjectOf(item), Amount(amount), at, None, None)
  }

  /** The smaller of the share, rounded down, and the cap. */
  function Allowance(original: int, margin: Margin): int {
    var share := (original as real * margin.percent / 100.0).Floor;
    if share <= margin.cap then share else margin.cap
  }

  predicate Crosses(from: int, to: int, threshold: int) { from <= threshold < to }

  predicate CrossesDirector(from: int, to: int, facts: Facts) {
    Threshold(facts).Some? && Crosses(from, to, Threshold(facts).value)
  }

  predicate CrossesLimit(from: int, to: int, facts: Facts) {
    exists i :: 0 <= i < |facts.limits| && !facts.limits[i].role.Director? && facts.limits[i].LimitRow?
      && Crosses(from, to, facts.limits[i].limit)
  }

  /** What the editor, or the manager they name, may agree to on own authority. */
  predicate EditorMay(item: Item, editor: Identity, next: int, facts: Facts) {
    NameableRoles(editor.roles) != []
      && CanApprove(WithoutAdmin(editor), Plain(item, next, Open), facts) == Allowed(OwnAuthority)
  }

  function AsManager(named: Identity): Identity { named.(roles := NameableRoles(named.roles)) }

  predicate NamedMay(item: Item, editor: Identity, named: Identity, next: int, facts: Facts) {
    && !SamePerson(editor, named)
    && CanApprove(AsManager(named), Plain(item, next, Open), facts) == Allowed(OwnAuthority)
  }

  function MaxOf(a: int, b: int): int { if a >= b then a else b }

  function DecideVariance(item: Item, editor: Identity, next: Option<int>, original: int, accepted: Option<int>,
                          request: Request, margin: Margin, facts: Facts): VarianceDecision {
    if next.None? || next.value < 0 then VarianceRefused(AmountUnknown)
    else if item.InvoiceItem? && next.value > original && Accounts in editor.roles && NameableRoles(editor.roles) == []
    then VarianceRefused(InvoiceNeedsManager)
    else if next.value <= MaxOf(original, if accepted.Some? then accepted.value else 0) then NoVariance
    else if next.value - original > Allowance(original, margin) then VarianceRefused(OverMargin)
    else if CrossesDirector(original, next.value, facts) then VarianceRefused(CrossesDirectorLimit)
    else if CrossesLimit(original, next.value, facts) then VarianceRefused(CrossesRoleLimit)
    else if !request.rationale then VarianceRefused(RationaleRequired)
    else if EditorMay(item, editor, next.value, facts) then WithinTolerance
    else if request.attributedTo.None? then VarianceRefused(ManagerRequired)
    else if !NamedMay(item, editor, request.attributedTo.value, next.value, facts) then VarianceRefused(ManagerInvalid)
    else WithinTolerance
  }

  function DecideWithOverride(item: Item, editor: Identity, next: Option<int>, original: Option<int>,
                              accepted: Option<int>,
                              request: Request, margin: Margin, facts: Facts): VarianceDecision {
    if original.None? || original.value <= 0 then NoVariance
    else
      var decided := DecideVariance(item, editor, next, original.value, accepted, request, margin, facts);
      if decided.VarianceRefused? && Director in editor.roles && request.overrideReason
      then DirectorOverride(decided.code, !decided.code.AmountUnknown? && !decided.code.InvoiceNeedsManager?)
      else decided
  }

  // ── The stored history ───────────────────────────────────────────────────

  /** One accepted rise; `order` is the purchase order it is on, if it is on one. */
  datatype Rise = Rise(jobId: int, order: Option<int>, quoteId: Option<int>, newAmount: int, override: bool,
                       disputed: bool)

  /** Where earlier rises count: one purchase order, or anywhere on the job. */
  datatype Where = OnOrder(order: int) | OnJob(jobId: int)

  predicate Counts(rise: Rise, at: Where, quoteId: int) {
    && !rise.disputed && rise.quoteId == Some(quoteId)
    && if at.OnOrder? then rise.order == Some(at.order) else rise.jobId == at.jobId
  }

  function AcceptedIn(rises: seq<Rise>, at: Where, quoteId: int): Option<int> {
    if rises == [] then None
    else
      var before, last := AcceptedIn(rises[..|rises| - 1], at, quoteId), rises[|rises| - 1];
      if !Counts(last, at, quoteId) then before
      else if before.None? || last.newAmount > before.value then Some(last.newAmount) else before
  }

  function AcceptedAmount(rises: seq<Rise>, at: Where, quoteId: Option<int>): Option<int> {
    if quoteId.None? then None else AcceptedIn(rises, at, quoteId.value)
  }

  /** The job's approved quote, as the check reads it. */
  datatype Quoted = Quoted(amount: Option<int>, quoteId: Option<int>)

  datatype Edit = Edit(item: Item, jobId: int, order: Option<int>, at: Where, editor: Identity, next: Option<int>,
                       request: Request)

  function CheckVariance(rises: seq<Rise>, quoted: Quoted, edit: Edit, margin: Margin, facts: Facts): VarianceDecision {
    if quoted.amount.None? then NoVariance
    else if edit.next.Some? && edit.next.value <= quoted.amount.value then NoVariance
    else DecideWithOverride(edit.item, edit.editor, edit.next, quoted.amount,
                            AcceptedAmount(rises, edit.at, quoted.quoteId), edit.request, margin, facts)
  }

  /** Kept as a rise. An override with no figures is not recorded, and the edit
      fails with it. */
  predicate Recorded(decision: VarianceDecision) {
    decision.WithinTolerance? || (decision.DirectorOverride? && decision.figures)
  }

  /** The MoneyVariances table. */
  class History {
    var rises: seq<Rise>

    constructor ()
      ensures rises == []
    {
      rises := [];
    }

    method AcceptedVarianceAmount(at: Where, quoteId: Option<int>) returns (accepted: Option<int>)
      ensures accepted == AcceptedAmount(rises, at, quoteId)
    {
      if quoteId.None? {
        return None;
      }
      accepted := None;
      for i := 0 to |rises|
        invariant accepted == AcceptedIn(rises[..i], at, quoteId.value)
      {
        assert rises[..i + 1][..|rises[..i + 1]| - 1] == rises[..i];
        if Counts(rises[i], at, quoteId.value) && (accepted.None? || rises[i].newAmount > accepted.value) {
          accepted := Some(rises[i].newAmount);
        }
      }
      assert rises[..|rises|] == rises;
    }

    /** One edit, from the check to the row it leaves. */
    method Apply(quoted: Quoted, edit: Edit, margin: Margin, facts: Facts) returns (decision: VarianceDecision)
      modifies this
      ensures decision == CheckVariance(old(rises), quoted, edit, margin, facts)
      ensures rises == After(old(rises), quoted, edit, margin, facts)
    {
      if quoted.amount.None? || (edit.next.Some? && edit.next.value <= quoted.amount.value) {
        return NoVariance;
      }
      var accepted := AcceptedVarianceAmount(edit.at, quoted.quoteId);
      decision := DecideWithOverride(edit.item, edit.editor, edit.next, quoted.amount, accepted, edit.request, margin,
                                     facts);
      if Recorded(decision) {
        RecordedAmount(old(rises), quoted, edit, margin, facts);
        rises := rises + [Rise(edit.jobId, edit.order, quoted.quoteId, edit.next.value, decision.DirectorOverride?,
                               false)];
      }
    }

    /** The manager named says they did not agree. */
    method Dispute(at: nat)
      requires at < |rises|
      modifies this
      ensures rises == Disputed(old(rises), at)
    {
      rises := rises[at := rises[at].(disputed := true)];
    }
  }

  lemma RecordedAmount(rises: seq<Rise>, quoted: Quoted, edit: Edit, margin: Margin, facts: Facts)
    requires Recorded(CheckVariance(rises, quoted, edit, margin, facts))
    ensures edit.next.Some? && edit.next.value >= 0 && quoted.amount.Some? && edit.next.value > quoted.amount.value > 0
  {
    hide CanApprove, CrossesDirector, CrossesLimit, NameableRoles, Allowance, EditorMay, NamedMay;
  }

  function After(rises: seq<Rise>, quoted: Quoted, edit: Edit, margin: Margin, facts: Facts): seq<Rise> {
    var decision := CheckVariance(rises, quoted, edit, margin, facts);
    if !Recorded(decision) then rises
    else
      RecordedAmount(rises, quoted, edit, margin, facts);
      rises + [Rise(edit.jobId, edit.order, quoted.quoteId, edit.next.value, decision.DirectorOverride?, false)]
  }

  function Disputed(rises: seq<Rise>, at: nat): seq<Rise>
    requires at < |rises|
  {
    rises[at := rises[at].(disputed := true)]
  }

  // ── The bound over any run ───────────────────────────────────────────────

  /** The rise is at most the cap and at most the share of the original. */
  predicate WithinMargin(original: int, amount: int, margin: Margin) {
    amount - original <= margin.cap && 100.0 * (amount - original) as real <= original as real * margin.percent
  }

  /** No threshold stands between: not the director's when one is set, nor a number
      on a row of a role other than director. */
  ghost predicate PassesNothing(original: int, amount: int, facts: Facts) {
    && (facts.directorThreshold.Some? && facts.directorThreshold.value > 0 ==>
          !(original <= facts.directorThreshold.value < amount))
    && forall row <- facts.limits | row.LimitRow? && row.role != Director :: !(original <= row.limit < amount)
  }

  /** Not past the margin, nor past a limit or threshold the original was at or
      under. */
  ghost predicate Bounded(original: int, amount: int, margin: Margin, facts: Facts) {
    (amount <= original || WithinMargin(original, amount, margin)) && PassesNothing(original, amount, facts)
  }

  lemma AllowanceIsMargin(original: int, amount: int, margin: Margin)
    ensures amount - original <= Allowance(original, margin) <==> WithinMargin(original, amount, margin)
  {
    var share := original as real * margin.percent / 100.0;
    assert amount - original <= share.Floor <==> (amount - original) as real <= share;
    assert (amount - original) as real <= share
      <==> 100.0 * (amount - original) as real <= original as real * margin.percent;
  }

  lemma {:induction false} HighestRowIsOne(limits: seq<RoleLimit>)
    ensures HighestRow(limits).Some? ==>
      exists row <- limits :: row.LimitRow? && row.role != Director && row.limit == HighestRow(limits).value
  {
    if HighestRow(limits).Some? {
      HighestRowAbove(limits, HighestRow(limits).value);
      HighestRowAbove(limits, HighestRow(limits).value + 1);
    }
  }

  lemma CrossingIsPassing(original: int, amount: int, facts: Facts)
    ensures !CrossesDirector(original, amount, facts) && !CrossesLimit(original, amount, facts)
       <==> PassesNothing(original, amount, facts)
  {
    HighestRowIsOne(facts.limits);
    hide HighestRow;
    forall row | row in facts.limits && row.LimitRow? && row.role != Director && original <= row.limit < amount
      ensures CrossesLimit(original, amount, facts)
    {
      var i :| 0 <= i < |facts.limits| && facts.limits[i] == row;
    }
  }

  lemma BelowBounded(original: int, amount: int, less: int, margin: Margin, facts: Facts)
    requires Bounded(original, amount, margin, facts) && less <= amount
    ensures Bounded(original, less, margin, facts)
  {
  }

  lemma OriginalBounded(original: int, margin: Margin, facts: Facts)
    ensures Bounded(original, original, margin, facts)
  {
  }

  lemma {:induction false} AcceptedIsARise(rises: seq<Rise>, at: Where, quoteId: int) returns (i: nat)
    requires AcceptedIn(rises, at, quoteId).Some?
    ensures i < |rises| && Counts(rises[i], at, quoteId) && rises[i].newAmount == AcceptedIn(rises, at, quoteId).value
  {
    var n := |rises| - 1;
    if Counts(rises[n], at, quoteId) && AcceptedIn(rises, at, quoteId).value == rises[n].newAmount {
      i := n;
    } else {
      i := AcceptedIsARise(rises[..n], at, quoteId);
    }
  }

  /** Every rise measured from the quote is bounded or a director's override. */
  ghost predicate Sound(rises: seq<Rise>, quoteId: int, original: int, margin: Margin, facts: Facts) {
    forall i :: 0 <= i < |rises| && rises[i].quoteId == Some(quoteId) && !rises[i].override ==>
      || Bounded(original, rises[i].newAmount, margin, facts)
      || exists k ::
           0 <= k < i && rises[k].quoteId == Some(quoteId) && rises[k].override
           && rises[i].newAmount <= rises[k].newAmount
  }

  /** Some director let an amount at least this high through. */
  ghost predicate Overridden(rises: seq<Rise>, quoteId: int, amount: int) {
    exists k ::
      0 <= k < |rises| && rises[k].quoteId == Some(quoteId) && rises[k].override
      && amount <= rises[k].newAmount
  }

  lemma AcceptedBounded(rises: seq<Rise>, at: Where, quoteId: int, original: int, amount: int, margin: Margin,
                        facts: Facts)
    requires Sound(rises, quoteId, original, margin, facts)
    requires AcceptedIn(rises, at, quoteId).Some? && amount <= AcceptedIn(rises, at, quoteId).value
    ensures Bounded(original, amount, margin, facts) || Overridden(rises, quoteId, amount)
  {
    hide Bounded;
    var i := AcceptedIsARise(rises, at, quoteId);
    if Bounded(original, rises[i].newAmount, margin, facts) {
      BelowBounded(original, rises[i].newAmount, amount, margin, facts);
    }
  }

  lemma DecisionBounded(rises: seq<Rise>, quoted: Quoted, edit: Edit, margin: Margin, facts: Facts, quoteId: int)
    requires quoted == Quoted(quoted.amount, Some(quoteId)) && quoted.amount.Some? && quoted.amount.value > 0
    requires Sound(rises, quoteId, quoted.amount.value, margin, facts)
    requires CheckVariance(rises, quoted, edit, margin, facts).NoVariance?
          || CheckVariance(rises, quoted, edit, margin, facts).WithinTolerance?
    ensures edit.next.Some?
    ensures Bounded(quoted.amount.value, edit.next.value, margin, facts) || Overridden(rises, quoteId, edit.next.value)
  {
    var original := quoted.amount.value;
    OriginalBounded(original, margin, facts);
    if edit.next.Some? {
      AllowanceIsMargin(original, edit.next.value, margin);
      CrossingIsPassing(original, edit.next.value, facts);
    }
    hide PassesNothing, WithinMargin;
    hide CanApprove, CrossesDirector, CrossesLimit, NameableRoles, Allowance, EditorMay, NamedMay, Sound, Overridden;
    var next := edit.next.value;
    if next <= original {
      BelowBounded(original, original, next, margin, facts);
    } else if AcceptedIn(rises, edit.at, quoteId).Some? && next <= AcceptedIn(rises, edit.at, quoteId).value {
      AcceptedBounded(rises, edit.at, quoteId, original, next, margin, facts);
    }
  }

  datatype Event = Change(quoted: Quoted, edit: Edit) | Dispute(at: nat)

  /** Edits and disputes in any order, on any jobs and quotes; an event that does
      not apply changes nothing. */
  function Play(rises: seq<Rise>, events: seq<Event>, margin: Margin, facts: Facts): seq<Rise>
    decreases |events|
  {
    if events == [] then rises
    else
      var n := |events| - 1;
      var before := Play(rises, events[..n], margin, facts);
      match events[n]
      case Change(quoted, edit) => After(before, quoted, edit, margin, facts)
      case Dispute(at) => if at < |before| then Disputed(before, at) else before
  }

  /** The quote keeps its amount through the run. */
  ghost predicate QuoteFixed(events: seq<Event>, quoteId: int, original: int) {
    forall i :: 0 <= i < |events| && events[i].Change? && events[i].quoted.quoteId == Some(quoteId) ==>
      events[i].quoted.amount == Some(original)
  }

  lemma AfterSound(rises: seq<Rise>, quoted: Quoted, edit: Edit, margin: Margin, facts: Facts, quoteId: int,
                   original: int)
    requires original > 0 && Sound(rises, quoteId, original, margin, facts)
    requires quoted.quoteId == Some(quoteId) ==> quoted.amount == Some(original)
    ensures Sound(After(rises, quoted, edit, margin, facts), quoteId, original, margin, facts)
  {
    var decision := CheckVariance(rises, quoted, edit, margin, facts);
    if Recorded(decision) && quoted.quoteId == Some(quoteId) && !decision.DirectorOverride? {
      DecisionBounded(rises, quoted, edit, margin, facts, quoteId);
    }
    var after := After(rises, quoted, edit, margin, facts);
    assert forall k :: 0 <= k < |rises| ==> after[k] == rises[k];
    hide CheckVariance, Bounded, After;
    forall i | 0 <= i < |after| && after[i].quoteId == Some(quoteId) && !after[i].override
      ensures || Bounded(original, after[i].newAmount, margin, facts)
              || exists k ::
                   0 <= k < i && after[k].quoteId == Some(quoteId) && after[k].override
                   && after[i].newAmount <= after[k].newAmount
    {
      if !Bounded(original, after[i].newAmount, margin, facts) {
        var k :| 0 <= k < |rises| && k < i && rises[k].quoteId == Some(quoteId) && rises[k].override
          && after[i].newAmount <= rises[k].newAmount;
        assert after[k].override;
      }
    }
  }

  lemma {:induction false} RunSound(events: seq<Event>, margin: Margin, facts: Facts, quoteId: int, original: int)
    requires original > 0 && QuoteFixed(events, quoteId, original)
    ensures Sound(Play([], events, margin, facts), quoteId, original, margin, facts)
    decreases |events|
  {
    hide Sound, After;
    if events == [] {
      NothingSound(quoteId, original, margin, facts);
    } else {
      var n := |events| - 1;
      RunSound(events[..n], margin, facts, quoteId, original);
      var before := Play([], events[..n], margin, facts);
      if events[n].Change? {
        AfterSound(before, events[n].quoted, events[n].edit, margin, facts, quoteId, original);
      } else if events[n].at < |before| {
        DisputedSound(before, events[n].at, quoteId, original, margin, facts);
      }
    }
  }

  lemma NothingSound(quoteId: int, original: int, margin: Margin, facts: Facts)
    ensures Sound([], quoteId, original, margin, facts)
  {
  }

  lemma DisputedSound(rises: seq<Rise>, at: nat, quoteId: int, original: int, margin: Margin, facts: Facts)
    requires at < |rises| && Sound(rises, quoteId, original, margin, facts)
    ensures Sound(Disputed(rises, at), quoteId, original, margin, facts)
  {
    hide Bounded;
    var after := Disputed(rises, at);
    forall i | 0 <= i < |after| && after[i].quoteId == Some(quoteId) && !after[i].override
      ensures || Bounded(original, after[i].newAmount, margin, facts)
              || exists k ::
                   0 <= k < i && after[k].quoteId == Some(quoteId) && after[k].override
                   && after[i].newAmount <= after[k].newAmount
    {
      if !Bounded(original, rises[i].newAmount, margin, facts) {
        var k :| 0 <= k < i && rises[k].quoteId == Some(quoteId) && rises[k].override
          && rises[i].newAmount <= rises[k].newAmount;
        assert after[k].override;
      }
    }
  }

  /** However many rises, disputes and other jobs' edits there have been, an
      amount let through against a positive original is within the margin of
      that original and past no limit or threshold the original was at or under,
      unless a director let at least as much through before. */
  lemma RisesStayBounded(events: seq<Event>, edit: Edit, quoted: Quoted, margin: Margin, facts: Facts, quoteId: int)
    requires quoted == Quoted(quoted.amount, Some(quoteId)) && quoted.amount.Some? && quoted.amount.value > 0
    requires QuoteFixed(events, quoteId, quoted.amount.value)
    requires CheckVariance(Play([], events, margin, facts), quoted, edit, margin, facts).NoVariance?
          || CheckVariance(Play([], events, margin, facts), quoted, edit, margin, facts).WithinTolerance?
    ensures edit.next.Some?
    ensures Bounded(quoted.amount.value, edit.next.value, margin, facts)
         || Overridden(Play([], events, margin, facts), quoteId, edit.next.value)
  {
    RunSound(events, margin, facts, quoteId, quoted.amount.value);
    hide Play, Sound, Bounded, Overridden;
    DecisionBounded(Play([], events, margin, facts), quoted, edit, margin, facts, quoteId);
  }

  // ── What is decided, written out ─────────────────────────────────────────

  /** An earlier rise of the same quote, undisputed, on the same order or job. */
  predicate IsEarlier(rise: Rise, quoted: Quoted, edit: Edit) {
    && !rise.disputed && quoted.quoteId.Some? && rise.quoteId == quoted.quoteId
    && match edit.at
       case OnOrder(order) => rise.order == Some(order)
       case OnJob(jobId) => rise.jobId == jobId
  }

  /** Above the original, and above every earlier rise accepted for it. */
  ghost predicate IsRise(rises: seq<Rise>, quoted: Quoted, edit: Edit, next: int)
    requires quoted.amount.Some?
  {
    next > quoted.amount.value && forall rise <- rises | IsEarlier(rise, quoted, edit) :: rise.newAmount < next
  }

  predicate IsManager(roles: seq<Role>) {
    FacilitiesManager in roles || AccountsManager in roles || Cfo in roles || Director in roles
  }

  /** Accounts staff who are no managers may not raise an invoice. */
  predicate MayNotRaise(edit: Edit) {
    edit.item.InvoiceItem? && Accounts in edit.editor.roles && !IsManager(edit.editor.roles)
  }

  /** `person`, with these roles and no say-so of another, could approve the amount. */
  predicate CouldApprove(person: Identity, roles: seq<Role>, item: Item, next: int, facts: Facts) {
    var subject := if item.InvoiceItem? then Invoice else PurchaseOrder;
    CanApprove(person.(roles := roles), Input(subject, Amount(next), Open, None, None), facts) == Allowed(OwnAuthority)
  }

  /** The editor, a manager, admin aside; or someone else they name, as a manager. */
  ghost predicate SomeoneAgrees(edit: Edit, next: int, facts: Facts) {
    || (IsManager(edit.editor.roles)
        && CouldApprove(edit.editor, WithoutAdmin(edit.editor).roles, edit.item, next, facts))
    || (edit.request.attributedTo.Some?
        && var named := edit.request.attributedTo.value;
           !SamePerson(edit.editor, named) && CouldApprove(named, NameableRoles(named.roles), edit.item, next, facts))
  }

  lemma {:induction false} AcceptedBelow(rises: seq<Rise>, at: Where, quoteId: int, next: int)
    ensures (AcceptedIn(rises, at, quoteId).Some? ==> AcceptedIn(rises, at, quoteId).value < next)
       <==> forall rise <- rises | Counts(rise, at, quoteId) :: rise.newAmount < next
  {
    if rises != [] {
      var n := |rises| - 1;
      AcceptedBelow(rises[..n], at, quoteId, next);
      assert rises[n] in rises && forall rise <- rises :: rise in rises[..n] || rise == rises[n];
      hide Counts;
    }
  }

  lemma RiseIsUncovered(rises: seq<Rise>, quoted: Quoted, edit: Edit, next: int)
    requires quoted.amount.Some?
    ensures
      var accepted := AcceptedAmount(rises, edit.at, quoted.quoteId);
      next > quoted.amount.value && (accepted.Some? ==> next > accepted.value) <==> IsRise(rises, quoted, edit, next)
  {
    if quoted.quoteId.Some? {
      AcceptedBelow(rises, edit.at, quoted.quoteId.value, next);
      assert forall rise :: Counts(rise, edit.at, quoted.quoteId.value) <==> IsEarlier(rise, quoted, edit);
    }
    hide AcceptedIn, Counts;
  }

  lemma ManagersAreNameable(roles: seq<Role>)
    ensures NameableRoles(roles) != [] <==> IsManager(roles)
  {
    var kept := NameableRoles(roles);
    if kept != [] {
      assert kept[0] in kept;
    }
    assert FacilitiesManager in roles ==> FacilitiesManager in kept;
    assert AccountsManager in roles ==> AccountsManager in kept;
    assert Cfo in roles ==> Cfo in kept;
    assert Director in roles ==> Director in kept;
    hide NameableRoles;
  }

  /** What the rule decides, without an override, and exactly when. */
  lemma DecisionRule(rises: seq<Rise>, quoted: Quoted, edit: Edit, margin: Margin, facts: Facts)
    requires quoted.amount.Some? && quoted.amount.value > 0 && edit.next.Some?
    ensures
      var original, next := quoted.amount.value, edit.next.value;
      var decision := CheckVariance(rises, quoted, edit, margin, facts);
      var rise := IsRise(rises, quoted, edit, next);
      var margined := WithinMargin(original, next, margin);
      var clear := PassesNothing(original, next, facts);
      && (decision.NoVariance? <==> next <= original || (!rise && !MayNotRaise(edit)))
      && (decision.WithinTolerance?
          <==> && rise && !MayNotRaise(edit) && margined && clear && edit.request.rationale
               && SomeoneAgrees(edit, next, facts))
      && (decision.DirectorOverride? ==> Director in edit.editor.roles && edit.request.overrideReason)
      && (decision.VarianceRefused? ==> !(Director in edit.editor.roles && edit.request.overrideReason))
      && (decision.DirectorOverride? || decision.VarianceRefused? ==>
            var code := if decision.VarianceRefused? then decision.code else decision.overridden;
            && (code.InvoiceNeedsManager? <==> MayNotRaise(edit))
            && (code.OverMargin? <==> !MayNotRaise(edit) && !margined)
            && (code.CrossesDirectorLimit? || code.CrossesRoleLimit? <==> !MayNotRaise(edit) && margined && !clear)
            && (code.CrossesDirectorLimit? ==>
                  AuthorityRules.PastDirector(next, facts) && !AuthorityRules.PastDirector(original, facts))
            && (code.CrossesRoleLimit? ==>
                  !AuthorityRules.PastDirector(next, facts) || AuthorityRules.PastDirector(original, facts))
            && (code.RationaleRequired? <==> !MayNotRaise(edit) && margined && clear && !edit.request.rationale)
            && (code.ManagerRequired? ==> edit.request.attributedTo.None?)
            && (code.ManagerInvalid? ==> edit.request.attributedTo.Some?)
            && (decision.DirectorOverride? ==> decision.figures == !code.InvoiceNeedsManager?))
  {
    var original, next := quoted.amount.value, edit.next.value;
    AllowanceIsMargin(original, next, margin);
    CrossingIsPassing(original, next, facts);
    AuthorityRules.PastIsNeeded(original, facts);
    AuthorityRules.PastIsNeeded(next, facts);
    assert CrossesDirector(original, next, facts)
      <==> NeedsDirector(next, Threshold(facts)) && !NeedsDirector(original, Threshold(facts)) by { hide Threshold; }
    RiseIsUncovered(rises, quoted, edit, next);
    ManagersAreNameable(edit.editor.roles);
    AgreementIs(edit, next, facts);
    hide Allowance, CrossesDirector, CrossesLimit, AcceptedAmount, NameableRoles, EditorMay, NamedMay, IsRise,
         AuthorityRules.PastDirector, NeedsDirector, Threshold, WithinMargin, PassesNothing, SomeoneAgrees, IsManager;
  }

  lemma AgreementIs(edit: Edit, next: int, facts: Facts)
    ensures SomeoneAgrees(edit, next, facts)
       <==> EditorMay(edit.item, edit.editor, next, facts)
            || (edit.request.attributedTo.Some?
                && NamedMay(edit.item, edit.editor, edit.request.attributedTo.value, next, facts))
  {
    ManagersAreNameable(edit.editor.roles);
    hide CanApprove, NameableRoles, AuthorityProofs.WithoutAdminRoles, SamePerson, IsManager;
  }

  /** What an edit leaves: one undisputed rise when it is within tolerance or
      overridden with its figures, in its own names; else nothing. */
  lemma RecordRule(rises: seq<Rise>, quoted: Quoted, edit: Edit, margin: Margin, facts: Facts)
    ensures
      var decision := CheckVariance(rises, quoted, edit, margin, facts);
      var after := After(rises, quoted, edit, margin, facts);
      if decision.WithinTolerance? || (decision.DirectorOverride? && decision.figures) then
        && edit.next.Some?
        && after == rises + [Rise(edit.jobId, edit.order, quoted.quoteId, edit.next.value, decision.DirectorOverride?,
                                  false)]
      else after == rises
  {
    hide CheckVariance;
    if Recorded(CheckVariance(rises, quoted, edit, margin, facts)) {
      RecordedAmount(rises, quoted, edit, margin, facts);
    }
  }

  /** An amount let through once, and any below it, needs nothing more at the same
      place: on its order, or anywhere on its job. */
  lemma AcceptedStaysAccepted(rises: seq<Rise>, quoted: Quoted, edit: Edit, again: Edit, margin: Margin, facts: Facts)
    requires quoted.quoteId.Some? && edit.next.Some?
    requires CheckVariance(rises, quoted, edit, margin, facts).WithinTolerance?
          || (CheckVariance(rises, quoted, edit, margin, facts).DirectorOverride?
              && CheckVariance(rises, quoted, edit, margin, facts).figures)
    requires (edit.order.Some? && again.at == OnOrder(edit.order.value)) || again.at == OnJob(edit.jobId)
    requires again.next.Some? && 0 <= again.next.value <= edit.next.value && !MayNotRaise(again)
    ensures
      var after := After(rises, quoted, edit, margin, facts);
      CheckVariance(after, quoted, again, margin, facts) == NoVariance
  {
    RecordedAmount(rises, quoted, edit, margin, facts);
    var after := After(rises, quoted, edit, margin, facts);
    var last := after[|rises|];
    assert last in after && IsEarlier(last, quoted, again) && last.newAmount == edit.next.value;
    hide CheckVariance, MayNotRaise, After;
    assert !IsRise(after, quoted, again, again.next.value);
    DecisionRule(after, quoted, again, margin, facts);
  }

  /** A rise in dispute no longer counts, and the others do as before. */
  lemma DisputeRule(rises: seq<Rise>, at: nat, quoted: Quoted, edit: Edit, next: int)
    requires at < |rises| && quoted.amount.Some?
    ensures IsRise(Disputed(rises, at), quoted, edit, next)
       <==> next > quoted.amount.value
            && forall i :: 0 <= i < |rises| && i != at && IsEarlier(rises[i], quoted, edit) ==>
                 rises[i].newAmount < next
  {
    var after := Disputed(rises, at);
    assert !IsEarlier(after[at], quoted, edit);
    hide IsEarlier;
    assert forall i :: 0 <= i < |rises| && i != at ==> after[i] == rises[i] && rises[i] in after;
    forall rise | rise in after && IsEarlier(rise, quoted, edit)
      ensures exists i :: 0 <= i < |rises| && i != at && rises[i] == rise
    {
      var k :| 0 <= k < |after| && after[k] == rise;
    }
  }

  /** With no new amount there is nothing to measure: only a director lets the edit
      through, and no figures are kept. */
  lemma UnknownAmountRule(rises: seq<Rise>, quoted: Quoted, edit: Edit, margin: Margin, facts: Facts)
    requires quoted.amount.Some? && quoted.amount.value > 0 && edit.next.None?
    ensures CheckVariance(rises, quoted, edit, margin, facts)
         == if Director in edit.editor.roles && edit.request.overrideReason
            then DirectorOverride(AmountUnknown, false) else VarianceRefused(AmountUnknown)
  {
  }

  /** Only against a positive original: with none, or one of nothing, every
      amount goes through unmeasured, whoever edits. */
  lemma UnmeasuredWithoutOriginal(rises: seq<Rise>, quoted: Quoted, edit: Edit, margin: Margin, facts: Facts)
    requires quoted.amount.None? || quoted.amount.value <= 0
    ensures CheckVariance(rises, quoted, edit, margin, facts) == NoVariance
  {
  }

  lemma OwnAuthorityAnswers(manager: Identity, item: Item, next: int, facts: Facts)
    requires Admin !in manager.roles
    requires CanApprove(manager, Plain(item, next, Open), facts) == Allowed(OwnAuthority)
    ensures AuthorityProofs.AnswersSome(manager, Plain(item, next, Open), facts)
  {
    hide CanApprove, AuthorityProofs.AnswersSome;
    AuthorityProofs.RouteAndPermissionAgree(manager, Plain(item, next, Open), facts);
  }

  /** A rise within the margin is agreed to by a manager other than by proxy: the
      editor, or someone else they name, who holds a manager's role and answers a
      step of the route for the new amount. */
  lemma RiseIsAgreed(rises: seq<Rise>, quoted: Quoted, edit: Edit, margin: Margin, facts: Facts)
      returns (manager: Identity)
    requires CheckVariance(rises, quoted, edit, margin, facts).WithinTolerance?
    ensures edit.next.Some? && edit.request.rationale
    ensures manager == WithoutAdmin(edit.editor)
         || (edit.request.attributedTo.Some? && !SamePerson(edit.editor, edit.request.attributedTo.value)
             && manager == AsManager(edit.request.attributedTo.value))
    ensures AuthorityProofs.AnswersSome(manager, Plain(edit.item, edit.next.value, Open), facts)
  {
    hide CrossesDirector, CrossesLimit, Allowance, AuthorityProofs.AnswersSome, CanApprove, NameableRoles,
         AuthorityProofs.WithoutAdminRoles, AcceptedAmount, Plain;
    var next := edit.next.value;
    manager := if EditorMay(edit.item, edit.editor, next, facts) then WithoutAdmin(edit.editor)
               else AsManager(edit.request.attributedTo.value);
    AuthorityProofs.WithoutAdmin(edit.editor.roles);
    OwnAuthorityAnswers(manager, edit.item, next, facts);
  }

  /** A disputed rise covers nothing: the accepted amount only ever falls by a
      dispute, and the disputed row no longer counts towards it. */
  lemma {:induction false} DisputeUncovers(rises: seq<Rise>, at: nat, where_: Where, quoteId: int)
    requires at < |rises|
    ensures
      var before, after := AcceptedIn(rises, where_, quoteId), AcceptedIn(Disputed(rises, at), where_, quoteId);
      after.Some? ==> before.Some? && after.value <= before.value
    decreases |rises|
  {
    var n := |rises| - 1;
    var after := Disputed(rises, at);
    if at < n {
      DisputeUncovers(rises[..n], at, where_, quoteId);
      assert after[..n] == Disputed(rises[..n], at);
    } else {
      assert after[..n] == rises[..n];
    }
  }
}
