/** Who each person reports to for leave, and the check that no chain of
    managers comes back on itself. */
module LeavePolicy {
  import opened Wrappers
  import opened Authority
  import Sets

  const MAX_LINKS: nat := 500

  datatype Member = Member(id: int, role: Role)

  datatype Link = Link(userId: int, managerId: int)

  /** An entry of the body: not an object, not two whole numbers, or a link. */
  datatype RawLink = NotAnObject | NotWhole | Raw(link: Link)

  datatype Reason = TooMany | Malformed | NotStaff | NotQualified | Repeated | Cycle

  predicate Senior(role: Role) { role.Cfo? || role.Director? }

  predicate SeniorOnly(role: Role) {
    role.FacilitiesManager? || role.AccountsManager? || role.Admin? || role.Cfo? || role.Director?
      || role == OtherRole("user")
  }

  predicate EligibleManager(subject: Member, manager: Member) {
    && subject.id != manager.id
    && (|| Senior(manager.role)
        || (!SeniorOnly(subject.role) && subject.role.Facilities? && manager.role.FacilitiesManager?)
        || (!SeniorOnly(subject.role) && subject.role.Accounts? && manager.role.AccountsManager?))
  }

  // ── Following managers ───────────────────────────────────────────────────

  /** The manager of the first link that names the person. */
  function Manager(links: seq<Link>, id: int): (manager: Option<int>)
    ensures manager.Some? ==> exists i :: 0 <= i < |links| && links[i] == Link(id, manager.value)
    ensures manager.None? ==> forall i :: 0 <= i < |links| ==> links[i].userId != id
  {
    if links == [] then None
    else if links[0].userId == id then
      assert links[0] == Link(id, links[0].managerId);
      Some(links[0].managerId)
    else
      var rest := Manager(links[1..], id);
      assert forall i :: 0 <= i < |links[1..]| ==> links[1..][i] == links[i + 1];
      rest
  }

  /** The person `steps` managers up, if the chain goes that far. */
  function Follow(links: seq<Link>, id: int, steps: nat): Option<int>
    decreases steps
  {
    if steps == 0 then Some(id)
    else
      match Manager(links, id)
      case None => None
      case Some(manager) => Follow(links, manager, steps - 1)
  }

  /** Nobody is their own manager's manager, however far up. */
  ghost predicate Acyclic(links: seq<Link>) {
    forall id, steps: nat :: steps > 0 ==> Follow(links, id, steps) != Some(id)
  }

  function Managers(links: seq<Link>): set<int> { set i | 0 <= i < |links| :: links[i].managerId }

  function Users(links: seq<Link>): set<int> { set i | 0 <= i < |links| :: links[i].userId }

  /** The walk up from one link: it fails when it meets someone again. */
  predicate WalkEnds(links: seq<Link>, seen: set<int>, cursor: Option<int>)
    requires cursor.Some? ==> cursor.value in Managers(links)
    decreases |Managers(links) - seen|
  {
    if cursor.None? then true
    else if cursor.value in seen then false
    else
      assert Managers(links) - (seen + {cursor.value}) < Managers(links) - seen by {
        assert cursor.value in Managers(links) - seen;
      }
      Sets.SubsetSize(Managers(links) - (seen + {cursor.value}), Managers(links) - seen);
      WalkEnds(links, seen + {cursor.value}, Manager(links, cursor.value))
  }

  method Walk(links: seq<Link>, start: Link) returns (ends: bool)
    requires start in links
    ensures start.managerId in Managers(links) && ends == WalkEnds(links, {start.userId}, Some(start.managerId))
  {
    var seen := {start.userId};
    var cursor := Some(start.managerId);
    ghost var managers := Managers(links);
    while cursor.Some?
      invariant cursor.Some? ==> cursor.value in Managers(links)
      invariant WalkEnds(links, seen, cursor) == WalkEnds(links, {start.userId}, Some(start.managerId))
      decreases |Managers(links) - seen|, if cursor.Some? then 1 else 0
    {
      if cursor.value in seen {
        return false;
      }
      ghost var before := Managers(links) - seen;
      assert cursor.value in before;
      seen := seen + {cursor.value};
      Sets.SubsetSize(Managers(links) - seen, before);
      cursor := Manager(links, cursor.value);
    }
    return true;
  }

  // ── The parse ────────────────────────────────────────────────────────────

  function Find(staff: seq<Member>, id: int): Option<Member> {
    if staff == [] then None else if staff[0].id == id then Some(staff[0]) else Find(staff[1..], id)
  }

  /** Both people are active staff. */
  predicate Active(staff: seq<Member>, link: Link) {
    Find(staff, link.userId).Some? && Find(staff, link.managerId).Some?
  }

  function ActiveLinks(staff: seq<Member>, raw: seq<RawLink>): seq<Link> {
    if raw == [] then []
    else
      var last := raw[|raw| - 1];
      ActiveLinks(staff, raw[..|raw| - 1]) + if last.Raw? && Active(staff, last.link) then [last.link] else []
  }

  predicate Qualified(staff: seq<Member>, link: Link) {
    Active(staff, link) && EligibleManager(Find(staff, link.userId).value, Find(staff, link.managerId).value)
  }

  predicate WellFormed(raw: seq<RawLink>) { forall i :: 0 <= i < |raw| ==> raw[i].Raw? }

  predicate AllQualified(staff: seq<Member>, links: seq<Link>) {
    forall i :: 0 <= i < |links| ==> Qualified(staff, links[i])
  }

  predicate OnePerPerson(links: seq<Link>) {
    forall i, j :: 0 <= i < j < |links| ==> links[i].userId != links[j].userId
  }

  predicate AllWalksEnd(links: seq<Link>, n: nat)
    requires n <= |links|
  {
    forall i :: 0 <= i < n ==>
      (links[i].managerId in Managers(links) && WalkEnds(links, {links[i].userId}, Some(links[i].managerId)))
  }

  function Parsed(staff: seq<Member>, raw: Option<seq<RawLink>>): Result<seq<Link>, Reason> {
    if raw.None? || |raw.value| > MAX_LINKS then Err(TooMany)
    else if exists i :: 0 <= i < |raw.value| && raw.value[i].NotAnObject? && WellFormed(raw.value[..i])
      then Err(Malformed)
    else if !WellFormed(raw.value) then Err(NotStaff)
    else
      var links := ActiveLinks(staff, raw.value);
      if !AllQualified(staff, links) then Err(NotQualified)
      else if |Users(links)| != |links| then Err(Repeated)
      else if !AllWalksEnd(links, |links|) then Err(Cycle)
      else Ok(links)
  }

  method ParseReporting(staff: seq<Member>, raw: Option<seq<RawLink>>) returns (parsed: Result<seq<Link>, Reason>)
    ensures parsed == Parsed(staff, raw)
  {
    if raw.None? || |raw.value| > MAX_LINKS {
      return Err(TooMany);
    }
    hide WalkEnds, Find;
    var entries := raw.value;
    var links: seq<Link> := [];
    for i := 0 to |entries|
      invariant WellFormed(entries[..i])
      invariant links == ActiveLinks(staff, entries[..i])
    {
      assert entries[..i + 1][..|entries[..i + 1]| - 1] == entries[..i];
      if entries[i].NotAnObject? {
        return Err(Malformed);
      }
      if entries[i].NotWhole? {
        assert !entries[i].Raw?;
        assert forall k :: i < k <= |entries| ==> entries[..k][i] == entries[i];
        return Err(NotStaff);
      }
      if Active(staff, entries[i].link) {
        links := links + [entries[i].link];
      }
    }
    assert entries[..|entries|] == entries;
    for i := 0 to |links|
      invariant AllQualified(staff, links[..i])
    {
      if !Qualified(staff, links[i]) {
        return Err(NotQualified);
      }
    }
    assert links[..|links|] == links;
    if |Users(links)| != |links| {
      return Err(Repeated);
    }
    for i := 0 to |links|
      invariant AllWalksEnd(links, i)
    {
      var ends := Walk(links, links[i]);
      if !ends {
        return Err(Cycle);
      }
    }
    parsed := Ok(links);
  }

  // ── The walks accept exactly the chains that never come back ─────────────

  lemma {:induction false} FollowOn(links: seq<Link>, id: int, a: nat, b: nat)
    requires Follow(links, id, a).Some?
    ensures Follow(links, id, a + b) == Follow(links, Follow(links, id, a).value, b)
    decreases a
  {
    if a > 0 {
      FollowOn(links, Manager(links, id).value, a - 1, b);
    }
  }

  lemma {:induction false} FollowBefore(links: seq<Link>, id: int, a: nat, b: nat)
    requires a <= b && Follow(links, id, b).Some?
    ensures Follow(links, id, a).Some?
    decreases a
  {
    if a > 0 {
      FollowBefore(links, Manager(links, id).value, a - 1, b - 1);
    }
  }

  /** A cycle never ends. */
  lemma {:induction false} CycleGoesOn(links: seq<Link>, id: int, steps: nat, n: nat)
    requires steps > 0 && Follow(links, id, steps) == Some(id)
    ensures Follow(links, id, n).Some?
    decreases n
  {
    if n < steps {
      FollowBefore(links, id, n, steps);
    } else {
      CycleGoesOn(links, id, steps, n - steps);
      FollowOn(links, id, steps, n - steps);
    }
  }

  lemma {:induction false} WalkReachesEnd(links: seq<Link>, seen: set<int>, cursor: int) returns (n: nat)
    requires cursor in Managers(links) && WalkEnds(links, seen, Some(cursor))
    ensures Follow(links, cursor, n).None?
    decreases |Managers(links) - seen|
  {
    var next := Manager(links, cursor);
    if next.None? {
      n := 1;
    } else {
      assert cursor in Managers(links) - seen;
      Sets.SubsetSize(Managers(links) - (seen + {cursor}), Managers(links) - seen);
      var rest := WalkReachesEnd(links, seen + {cursor}, next.value);
      n := rest + 1;
    }
  }

  /** `seen` is who the chain from `id` has passed in its first `steps` steps. */
  ghost predicate Passed(links: seq<Link>, id: int, steps: nat, seen: set<int>) {
    forall x :: x in seen ==> exists j: nat :: j < steps && Follow(links, id, j) == Some(x)
  }

  lemma {:induction false} AcyclicWalks(links: seq<Link>, id: int, steps: nat, seen: set<int>, cursor: Option<int>)
    requires Acyclic(links) && Follow(links, id, steps) == cursor && Passed(links, id, steps, seen)
    requires cursor.Some? ==> cursor.value in Managers(links)
    ensures WalkEnds(links, seen, cursor)
    decreases |Managers(links) - seen|
  {
    if cursor.Some? {
      if cursor.value in seen {
        var j: nat :| j < steps && Follow(links, id, j) == cursor;
        FollowOn(links, id, j, steps - j);
        assert false;
      } else {
        assert cursor.value in Managers(links) - seen;
        Sets.SubsetSize(Managers(links) - (seen + {cursor.value}), Managers(links) - seen);
        FollowOn(links, id, steps, 1);
        var next := Manager(links, cursor.value);
        assert Follow(links, cursor.value, 1) == next;
        forall x | x in seen + {cursor.value}
          ensures exists j: nat :: j < steps + 1 && Follow(links, id, j) == Some(x) {
          if x == cursor.value {
            assert Follow(links, id, steps) == Some(x);
          }
        }
        AcyclicWalks(links, id, steps + 1, seen + {cursor.value}, next);
      }
    }
  }

  lemma ManagerOf(links: seq<Link>, i: nat)
    requires OnePerPerson(links) && i < |links|
    ensures Manager(links, links[i].userId) == Some(links[i].managerId)
  {
  }

  /** With one link a person, the walks all end exactly when the links have no
      cycle. */
  lemma WalksEndIffAcyclic(links: seq<Link>)
    requires OnePerPerson(links)
    ensures AllWalksEnd(links, |links|) <==> Acyclic(links)
  {
    if AllWalksEnd(links, |links|) {
      forall id, steps: nat | steps > 0 ensures Follow(links, id, steps) != Some(id) {
        if Follow(links, id, steps) == Some(id) {
          var i :| 0 <= i < |links| && links[i] == Link(id, Manager(links, id).value);
          var n := WalkReachesEnd(links, {id}, links[i].managerId);
          CycleGoesOn(links, id, steps, n + 1);
          assert false;
        }
      }
    }
    if Acyclic(links) {
      forall i | 0 <= i < |links|
        ensures links[i].managerId in Managers(links) && WalkEnds(links, {links[i].userId}, Some(links[i].managerId))
      {
        var id := links[i].userId;
        ManagerOf(links, i);
        assert Follow(links, id, 0) == Some(id);
        assert Follow(links, id, 1) == Some(links[i].managerId);
        AcyclicWalks(links, id, 1, {id}, Some(links[i].managerId));
      }
    }
  }

  lemma UsersSnoc(links: seq<Link>)
    requires links != []
    ensures Users(links) == Users(links[..|links| - 1]) + {links[|links| - 1].userId}
  {
    var n := |links| - 1;
    forall x | x in Users(links) ensures x in Users(links[..n]) + {links[n].userId} {
      var i :| 0 <= i < |links| && links[i].userId == x;
      assert i < n ==> links[..n][i].userId == x;
    }
    forall x | x in Users(links[..n]) ensures x in Users(links) {
      var i :| 0 <= i < n && links[..n][i].userId == x;
      assert links[i].userId == x;
    }
  }

  lemma OnePerPersonSnoc(links: seq<Link>)
    requires links != []
    ensures
      var n := |links| - 1;
      OnePerPerson(links) <==> OnePerPerson(links[..n]) && links[n].userId !in Users(links[..n])
  {
    var n := |links| - 1;
    var before := links[..n];
    assert forall i :: 0 <= i < n ==> before[i] == links[i];
    if links[n].userId in Users(before) {
      var i :| 0 <= i < n && before[i].userId == links[n].userId;
      assert links[i].userId == links[n].userId;
    }
    if OnePerPerson(before) && links[n].userId !in Users(before) {
      forall i, j | 0 <= i < j < |links| ensures links[i].userId != links[j].userId {
        assert before[i].userId in Users(before);
        assert j < n ==> before[j] == links[j];
      }
    }
  }

  lemma {:induction false} UsersDistinct(links: seq<Link>)
    ensures |Users(links)| <= |links|
    ensures |Users(links)| == |links| <==> OnePerPerson(links)
  {
    if links == [] {
      assert Users(links) == {};
    } else {
      var n := |links| - 1;
      UsersDistinct(links[..n]);
      UsersSnoc(links);
      OnePerPersonSnoc(links);
      hide Users, OnePerPerson;
      if links[n].userId in Users(links[..n]) {
        assert Users(links) == Users(links[..n]);
      } else {
        assert |Users(links)| == |Users(links[..n])| + 1;
      }
    }
  }

  /** A body is accepted exactly when it has at most 500 well-formed links, and
      those among active staff name qualified managers, one a person, without a
      cycle; what is kept is those links. */
  lemma ParseAccepts(staff: seq<Member>, raw: Option<seq<RawLink>>)
    ensures Parsed(staff, raw).Ok? <==>
      && raw.Some? && |raw.value| <= MAX_LINKS && WellFormed(raw.value)
      && AllQualified(staff, ActiveLinks(staff, raw.value))
      && OnePerPerson(ActiveLinks(staff, raw.value)) && Acyclic(ActiveLinks(staff, raw.value))
    ensures Parsed(staff, raw).Ok? ==> Parsed(staff, raw).value == ActiveLinks(staff, raw.value)
  {
    if raw.Some? {
      var links := ActiveLinks(staff, raw.value);
      UsersDistinct(links);
      if OnePerPerson(links) {
        WalksEndIffAcyclic(links);
      }
      hide Acyclic, AllWalksEnd, Users, ActiveLinks, Qualified;
    }
  }

  // ── How far a chain goes ─────────────────────────────────────────────────

  ghost function PassedBy(links: seq<Link>, id: int, steps: nat): set<int>
    requires Follow(links, id, steps).Some?
    decreases steps
  {
    if steps == 0 then {} else PassedBy(links, Manager(links, id).value, steps - 1) + {id}
  }

  lemma {:induction false} PassedAre(links: seq<Link>, id: int, steps: nat, x: int)
    requires Follow(links, id, steps).Some? && x in PassedBy(links, id, steps)
    ensures x in Users(links) && exists j: nat :: j < steps && Follow(links, id, j) == Some(x)
    decreases steps
  {
    if x == id {
      assert Follow(links, id, 0) == Some(x);
      var i :| 0 <= i < |links| && links[i] == Link(id, Manager(links, id).value);
      assert links[i].userId == id;
    } else {
      var manager := Manager(links, id).value;
      PassedAre(links, manager, steps - 1, x);
      var j: nat :| j < steps - 1 && Follow(links, manager, j) == Some(x);
      assert Follow(links, id, j + 1) == Some(x);
    }
  }

  lemma ReturnIsCycle(links: seq<Link>, id: int, j: nat)
    requires Manager(links, id).Some? && Follow(links, Manager(links, id).value, j) == Some(id)
    ensures !Acyclic(links)
  {
    assert Follow(links, id, j + 1) == Some(id);
  }

  lemma {:induction false} PassedCount(links: seq<Link>, id: int, steps: nat)
    requires Acyclic(links) && Follow(links, id, steps).Some?
    ensures |PassedBy(links, id, steps)| == steps
    decreases steps
  {
    if steps > 0 {
      var manager := Manager(links, id).value;
      PassedCount(links, manager, steps - 1);
      if id in PassedBy(links, manager, steps - 1) {
        PassedAre(links, manager, steps - 1, id);
        var j: nat :| j < steps - 1 && Follow(links, manager, j) == Some(id);
        ReturnIsCycle(links, id, j);
        assert false;
      }
    }
  }

  /** Without a cycle, following managers from anyone ends within as many steps
      as there are links. */
  lemma ChainsEnd(links: seq<Link>, id: int)
    requires Acyclic(links)
    ensures Follow(links, id, |links| + 1).None?
  {
    if Follow(links, id, |links| + 1).Some? {
      PassedCount(links, id, |links| + 1);
      var passed := PassedBy(links, id, |links| + 1);
      forall x | x in passed ensures x in Users(links) {
        PassedAre(links, id, |links| + 1, x);
      }
      Sets.SubsetSize(passed, Users(links));
      UsersDistinct(links);
      assert false;
    }
  }

  // ── Only the CFO and directors can form one ──────────────────────────────

  /** Whoever is somebody's manager and has a manager of their own reports to
      the CFO or a director. */
  lemma ManagersManager(staff: seq<Member>, links: seq<Link>, a: int, b: int, c: int)
    requires AllQualified(staff, links)
    requires Manager(links, a) == Some(b) && Manager(links, b) == Some(c)
    ensures Find(staff, c).Some? && Senior(Find(staff, c).value.role)
  {
    var i :| 0 <= i < |links| && links[i] == Link(a, b);
    var j :| 0 <= j < |links| && links[j] == Link(b, c);
    assert Qualified(staff, links[i]) && Qualified(staff, links[j]);
  }

  /** Everyone on a cycle of qualified links is the CFO or a director. */
  lemma CyclesAreSenior(staff: seq<Member>, links: seq<Link>, id: int, steps: nat)
    requires AllQualified(staff, links) && steps > 0 && Follow(links, id, steps) == Some(id)
    ensures Find(staff, id).Some? && Senior(Find(staff, id).value.role)
  {
    // Two turns of the cycle give `id` two people in a row below it.
    CycleGoesOn(links, id, steps, steps + steps);
    FollowOn(links, id, steps, steps);
    var n := steps + steps;
    assert Follow(links, id, n) == Some(id) && n >= 2;
    FollowBefore(links, id, n - 2, n);
    FollowOn(links, id, n - 2, 2);
    var a := Follow(links, id, n - 2).value;
    assert Follow(links, a, 2) == Some(id);
    var b := Manager(links, a).value;
    assert Follow(links, b, 1) == Some(id);
    assert Manager(links, b) == Some(id) by {
      assert Follow(links, Manager(links, b).value, 0) == Some(id);
    }
    ManagersManager(staff, links, a, b, id);
  }
}
