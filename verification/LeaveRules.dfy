/** Which reporting links are accepted, written out over the staff and the links
    sent: who may manage whom, and that no chain of links comes back. */
module LeaveRules {
  import opened Wrappers
  import opened Authority
  import opened LeavePolicy

  /** Active staff with that role; of one id listed twice, the first. */
  ghost predicate IsStaff(staff: seq<Member>, id: int, role: Role) {
    exists i :: 0 <= i < |staff| && staff[i] == Member(id, role) && forall k :: 0 <= k < i ==> staff[k].id != id
  }

  /** The CFO and directors manage anyone else; the two managers their own side. */
  ghost predicate MayManage(staff: seq<Member>, link: Link) {
    link.userId != link.managerId
    && exists role, manager :: IsStaff(staff, link.userId, role) && IsStaff(staff, link.managerId, manager)
         && (|| manager == Cfo || manager == Director
             || (role == Facilities && manager == FacilitiesManager)
             || (role == Accounts && manager == AccountsManager))
  }

  predicate OnStaff(staff: seq<Member>, id: int) { exists i :: 0 <= i < |staff| && staff[i].id == id }

  predicate OneEach(links: seq<Link>) {
    forall i, j :: 0 <= i < |links| && 0 <= j < |links| && links[i].userId == links[j].userId ==> i == j
  }

  /** A chain of links: each person reports to the next. */
  ghost predicate Chain(links: seq<Link>, people: seq<int>) {
    forall i :: 0 <= i < |people| - 1 ==> Link(people[i], people[i + 1]) in links
  }

  ghost predicate Loop(links: seq<Link>, people: seq<int>) {
    |people| >= 2 && Chain(links, people) && people[0] == people[|people| - 1]
  }

  ghost predicate NoLoop(links: seq<Link>) { forall people :: !Loop(links, people) }

  // ── Staff ────────────────────────────────────────────────────────────────

  lemma {:induction false} FindIs(staff: seq<Member>, id: int, role: Role)
    ensures Find(staff, id) == Some(Member(id, role)) <==> IsStaff(staff, id, role)
    ensures Find(staff, id).Some? ==> Find(staff, id).value.id == id
    ensures Find(staff, id).Some? <==> OnStaff(staff, id)
  {
    hide IsStaff, OnStaff;
    if staff == [] {
      NoStaff(id, role);
    } else {
      FindIs(staff[1..], id, role);
      IsStaffCons(staff, id, role);
      OnStaffCons(staff, id);
    }
  }

  lemma NoStaff(id: int, role: Role)
    ensures !IsStaff([], id, role) && !OnStaff([], id)
  {
  }

  lemma IsStaffCons(staff: seq<Member>, id: int, role: Role)
    requires staff != []
    ensures IsStaff(staff, id, role)
       <==> if staff[0].id == id then staff[0].role == role else IsStaff(staff[1..], id, role)
  {
    var rest := staff[1..];
    assert forall k :: 1 <= k < |staff| ==> staff[k] == rest[k - 1];
    if staff[0].id != id {
      if IsStaff(staff, id, role) {
        var i :| 0 <= i < |staff| && staff[i] == Member(id, role) && forall k :: 0 <= k < i ==> staff[k].id != id;
        assert rest[i - 1] == staff[i];
      }
      if IsStaff(rest, id, role) {
        var i :| 0 <= i < |rest| && rest[i] == Member(id, role) && forall k :: 0 <= k < i ==> rest[k].id != id;
        assert staff[i + 1] == rest[i];
      }
    } else if staff[0].role == role {
      assert staff[0] == Member(id, role);
    }
  }

  lemma OnStaffCons(staff: seq<Member>, id: int)
    requires staff != []
    ensures OnStaff(staff, id) <==> staff[0].id == id || OnStaff(staff[1..], id)
  {
    if OnStaff(staff, id) && staff[0].id != id {
      var i :| 0 <= i < |staff| && staff[i].id == id;
      assert staff[1..][i - 1].id == id;
    }
    if OnStaff(staff[1..], id) {
      var i :| 0 <= i < |staff| - 1 && staff[1..][i].id == id;
      assert staff[i + 1].id == id;
    }
  }

  lemma MayManageIs(staff: seq<Member>, link: Link)
    ensures Qualified(staff, link) <==> MayManage(staff, link)
  {
    forall id, role ensures Find(staff, id) == Some(Member(id, role)) <==> IsStaff(staff, id, role) {
      FindIs(staff, id, role);
    }
    FindIs(staff, link.userId, Cfo);
    FindIs(staff, link.managerId, Cfo);
    hide Find, IsStaff, OnStaff;
    if Qualified(staff, link) {
      var user, manager := Find(staff, link.userId).value, Find(staff, link.managerId).value;
      assert user == Member(link.userId, user.role) && manager == Member(link.managerId, manager.role);
    }
  }

  function OneLink(link: Link, kept: bool): seq<Link> { if kept then [link] else [] }

  /** The links kept are those between active staff, in the order sent. */
  lemma {:induction false} KeptRule(staff: seq<Member>, a: seq<RawLink>, b: seq<RawLink>)
    ensures ActiveLinks(staff, a + b) == ActiveLinks(staff, a) + ActiveLinks(staff, b)
    ensures forall link ::
      ActiveLinks(staff, [Raw(link)]) == OneLink(link, OnStaff(staff, link.userId) && OnStaff(staff, link.managerId))
  {
    hide Find;
    forall link
      ensures ActiveLinks(staff, [Raw(link)])
           == OneLink(link, OnStaff(staff, link.userId) && OnStaff(staff, link.managerId))
    {
      FindIs(staff, link.userId, Cfo);
      FindIs(staff, link.managerId, Cfo);
      assert [Raw(link)][..0] == [];
      assert ActiveLinks(staff, []) == [];
    }
    hide Active, OnStaff;
    if b == [] {
      assert a + b == a;
    } else {
      assert (a + b)[..|a + b| - 1] == a + b[..|b| - 1];
      KeptRule(staff, a, b[..|b| - 1]);
    }
  }

  // ── Loops ────────────────────────────────────────────────────────────────

  lemma OneEachIs(links: seq<Link>)
    ensures OnePerPerson(links) <==> OneEach(links)
  {
  }

  lemma {:induction false} ChainFollows(links: seq<Link>, people: seq<int>)
    requires OnePerPerson(links) && people != [] && Chain(links, people)
    ensures Follow(links, people[0], |people| - 1) == Some(people[|people| - 1])
    decreases |people|
  {
    if |people| > 1 {
      var rest := people[1..];
      assert Chain(links, rest) by {
        forall i | 0 <= i < |rest| - 1 ensures Link(rest[i], rest[i + 1]) in links {
          assert rest[i] == people[i + 1] && rest[i + 1] == people[i + 2];
        }
      }
      assert Link(people[0], people[0 + 1]) in links;
      var i :| 0 <= i < |links| && links[i] == Link(people[0], people[1]);
      ManagerOf(links, i);
      hide Manager, OnePerPerson, Chain;
      ChainFollows(links, rest);
    }
  }

  lemma {:induction false} FollowedChain(links: seq<Link>, id: int, steps: nat, last: int) returns (people: seq<int>)
    requires Follow(links, id, steps) == Some(last)
    ensures |people| == steps + 1 && people[0] == id && people[steps] == last && Chain(links, people)
    decreases steps
  {
    people := [id];
    if steps > 0 {
      var manager := Manager(links, id).value;
      var i :| 0 <= i < |links| && links[i] == Link(id, manager);
      var rest := FollowedChain(links, manager, steps - 1, last);
      people := [id] + rest;
      forall k | 0 <= k < |people| - 1 ensures Link(people[k], people[k + 1]) in links {
        if k > 0 {
          assert people[k] == rest[k - 1] && people[k + 1] == rest[(k - 1) + 1];
        }
      }
    }
  }

  lemma FollowedLoop(links: seq<Link>, id: int, steps: nat)
    requires steps > 0 && Follow(links, id, steps) == Some(id)
    ensures !NoLoop(links)
  {
    var people := FollowedChain(links, id, steps, id);
    assert Loop(links, people);
  }

  lemma AcyclicIs(links: seq<Link>)
    requires OnePerPerson(links)
    ensures Acyclic(links) <==> NoLoop(links)
  {
    hide OnePerPerson;
    if Acyclic(links) {
      forall people | |people| >= 2 && Chain(links, people) ensures people[0] != people[|people| - 1] {
        ChainFollows(links, people);
        assert Follow(links, people[0], |people| - 1) != Some(people[0]);
      }
    }
    if NoLoop(links) {
      forall id, steps: nat | steps > 0 ensures Follow(links, id, steps) != Some(id) {
        if Follow(links, id, steps) == Some(id) {
          FollowedLoop(links, id, steps);
        }
      }
    }
  }

  // ── What is accepted, and why not ────────────────────────────────────────

  predicate Sent(raw: Option<seq<RawLink>>) { raw.Some? && |raw.value| <= 500 }

  predicate AllRaw(raw: seq<RawLink>) { forall i :: 0 <= i < |raw| ==> raw[i].Raw? }

  /** The first entry that is no link is not even an object. */
  predicate FirstIsNoObject(raw: seq<RawLink>) {
    exists i :: 0 <= i < |raw| && raw[i] == NotAnObject && forall k :: 0 <= k < i ==> raw[k].Raw?
  }

  ghost predicate AllMayManage(staff: seq<Member>, links: seq<Link>) {
    forall i :: 0 <= i < |links| ==> MayManage(staff, links[i])
  }

  /** Accepted are at most 500 links, each naming who may manage whom, one a
      person and without a loop; otherwise the first thing wrong is the reason. */
  lemma LinksRule(staff: seq<Member>, raw: Option<seq<RawLink>>)
    ensures
      Parsed(staff, raw)
      == if !Sent(raw) then Err(TooMany)
         else if FirstIsNoObject(raw.value) then Err(Malformed)
         else if !AllRaw(raw.value) then Err(NotStaff)
         else if !AllMayManage(staff, ActiveLinks(staff, raw.value)) then Err(NotQualified)
         else if !OneEach(ActiveLinks(staff, raw.value)) then Err(Repeated)
         else if !NoLoop(ActiveLinks(staff, raw.value)) then Err(Cycle)
         else Ok(ActiveLinks(staff, raw.value))
  {
    if Sent(raw) {
      var links := ActiveLinks(staff, raw.value);
      FirstIs(raw.value);
      AllMayManageIs(staff, links);
      UsersDistinct(links);
      OneEachIs(links);
      if OnePerPerson(links) {
        WalksEndIffAcyclic(links);
        AcyclicIs(links);
      }
      hide FirstIsNoObject, AllQualified, AllMayManage, Users, OneEach, OnePerPerson, AllWalksEnd, Acyclic, NoLoop,
        ActiveLinks;
    }
  }

  lemma FirstIs(raw: seq<RawLink>)
    ensures FirstIsNoObject(raw) <==> exists i :: 0 <= i < |raw| && raw[i].NotAnObject? && WellFormed(raw[..i])
  {
    if FirstIsNoObject(raw) {
      var i :| 0 <= i < |raw| && raw[i] == NotAnObject && forall k :: 0 <= k < i ==> raw[k].Raw?;
      assert WellFormed(raw[..i]);
    }
    if i :| 0 <= i < |raw| && raw[i].NotAnObject? && WellFormed(raw[..i]) {
      assert forall k :: 0 <= k < i ==> raw[k] == raw[..i][k];
    }
  }

  lemma AllMayManageIs(staff: seq<Member>, links: seq<Link>)
    ensures AllQualified(staff, links) <==> AllMayManage(staff, links)
  {
    forall link ensures Qualified(staff, link) <==> MayManage(staff, link) {
      MayManageIs(staff, link);
    }
    hide Qualified, MayManage;
  }
}
