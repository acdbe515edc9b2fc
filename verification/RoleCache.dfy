/** The caller's roles kept across requests: a short-lived entry and one lookup
    in flight for each person. */
module RoleCache {
  import opened Wrappers

  const TTL: nat := 30_000

  type Oid = string
  type LookupId = nat

  /** `from` is the lookup the roles came from, `storedAt` when they went in. */
  datatype Entry = Entry(roles: seq<string>, expiresAt: nat, from: LookupId, storedAt: nat)

  /** A lookup runs until it settles; `done` once it has answered or failed. */
  datatype Lookup = Lookup(oid: Oid, done: bool)

  datatype State = State(
    now: nat,
    cache: map<Oid, Entry>,
    inflight: map<Oid, LookupId>,
    lookups: map<LookupId, Lookup>,
    started: nat)

  datatype Event =
    | Tick(now: nat)
    | Request(oid: Oid)
    | Answered(lookup: LookupId, roles: seq<string>)
    | Errored(lookup: LookupId)
    | Settled(lookup: LookupId)
    | Clear

  predicate Can(s: State, e: Event) {
    match e
    case Tick(now) => now >= s.now
    case Request(_) => true
    case Answered(l, _) => l in s.lookups && !s.lookups[l].done
    case Errored(l) => l in s.lookups && !s.lookups[l].done
    case Settled(l) => l in s.lookups && s.lookups[l].done
    case Clear => true
  }

  predicate HasFresh(s: State, oid: Oid) { oid in s.cache && s.cache[oid].expiresAt > s.now }

  function Do(s: State, e: Event): State
    requires Can(s, e)
  {
    match e
    case Tick(now) => s.(now := now)
    case Request(oid) =>
      if HasFresh(s, oid) || oid in s.inflight then s
      else
        s.(started := s.started + 1,
           lookups := s.lookups[s.started := Lookup(oid, false)],
           inflight := s.inflight[oid := s.started])
    case Answered(l, roles) =>
      s.(lookups := s.lookups[l := s.lookups[l].(done := true)],
         cache := s.cache[s.lookups[l].oid := Entry(roles, s.now + TTL, l, s.now)])
    case Errored(l) => s.(lookups := s.lookups[l := s.lookups[l].(done := true)])
    case Settled(l) => s.(inflight := s.inflight - {s.lookups[l].oid}, lookups := s.lookups - {l})
    case Clear => s.(cache := map[], inflight := map[])
  }

  datatype Roles = FromCache(roles: seq<string>) | Waiting(lookup: LookupId)

  function Given(s: State, oid: Oid): Roles {
    if HasFresh(s, oid) then FromCache(s.cache[oid].roles)
    else if oid in s.inflight then Waiting(s.inflight[oid])
    else Waiting(s.started)
  }

  class Cache {
    var now: nat
    var cache: map<Oid, Entry>
    var inflight: map<Oid, LookupId>
    var lookups: map<LookupId, Lookup>
    ghost var started: nat

    ghost function View(): State
      reads this
    {
      State(now, cache, inflight, lookups, started)
    }

    constructor ()
      ensures View() == State(0, map[], map[], map[], 0)
    {
      now, cache, inflight, lookups, started := 0, map[], map[], map[], 0;
    }

    /** `promise` is the lookup this call would start. */
    method LookupRolesForOid(oid: Oid, promise: LookupId) returns (roles: Roles)
      requires promise == started
      modifies this
      ensures View() == Do(old(View()), Request(oid))
      ensures roles == Given(old(View()), oid)
    {
      if oid in cache && cache[oid].expiresAt > now {
        return FromCache(cache[oid].roles);
      }
      if oid in inflight {
        return Waiting(inflight[oid]);
      }
      lookups := lookups[promise := Lookup(oid, false)];
      started := started + 1;
      inflight := inflight[oid := promise];
      roles := Waiting(promise);
    }

    method LookupAnswered(lookup: LookupId, roles: seq<string>)
      requires Can(View(), Answered(lookup, roles))
      modifies this
      ensures View() == Do(old(View()), Answered(lookup, roles))
    {
      cache := cache[lookups[lookup].oid := Entry(roles, now + TTL, lookup, now)];
      lookups := lookups[lookup := lookups[lookup].(done := true)];
    }

    method LookupErrored(lookup: LookupId)
      requires Can(View(), Errored(lookup))
      modifies this
      ensures View() == Do(old(View()), Errored(lookup))
    {
      lookups := lookups[lookup := lookups[lookup].(done := true)];
    }

    method LookupSettled(lookup: LookupId)
      requires Can(View(), Settled(lookup))
      modifies this
      ensures View() == Do(old(View()), Settled(lookup))
    {
      inflight := inflight - {lookups[lookup].oid};
      lookups := lookups - {lookup};
    }

    method ClearRoleCache()
      modifies this
      ensures View() == Do(old(View()), Clear)
    {
      cache := map[];
      inflight := map[];
    }
  }

  // ── What an interleaving keeps ───────────────────────────────────────────

  const NOTHING := State(0, map[], map[], map[], 0)

  /** The events, if each can happen in its turn. */
  function Run(s: State, events: seq<Event>): Option<State>
    decreases |events|
  {
    if events == [] then Some(s)
    else if Can(s, events[0]) then Run(Do(s, events[0]), events[1..])
    else None
  }

  /** No clear comes while a lookup has still to settle. */
  predicate ClearsWhenIdle(s: State, events: seq<Event>)
    decreases |events|
  {
    events == [] || !Can(s, events[0])
    || ((events[0].Clear? ==> s.lookups == map[]) && ClearsWhenIdle(Do(s, events[0]), events[1..]))
  }

  /** The slots hold exactly the unsettled lookups, one a person. */
  ghost predicate SlotsHold(s: State) {
    && (forall l <- s.lookups :: l < s.started && s.lookups[l].oid in s.inflight && s.inflight[s.lookups[l].oid] == l)
    && (forall oid <- s.inflight :: s.inflight[oid] in s.lookups && s.lookups[s.inflight[oid]].oid == oid)
  }

  /** An entry lasts as long after it was stored as the cache allows, no more. */
  ghost predicate EntriesHold(s: State) {
    forall oid <- s.cache :: s.cache[oid].storedAt <= s.now && s.cache[oid].expiresAt == s.cache[oid].storedAt + TTL
      && s.cache[oid].from < s.started
  }

  lemma EventKeeps(s: State, e: Event)
    requires Can(s, e) && SlotsHold(s) && (e.Clear? ==> s.lookups == map[])
    ensures SlotsHold(Do(s, e))
  {
  }

  lemma EntryKept(s: State, e: Event)
    requires Can(s, e) && EntriesHold(s) && forall l <- s.lookups :: l < s.started
    ensures EntriesHold(Do(s, e)) && forall l <- Do(s, e).lookups :: l < Do(s, e).started
  {
  }

  lemma {:induction false} RunKeepsSlots(s: State, events: seq<Event>)
    requires SlotsHold(s) && Run(s, events).Some? && ClearsWhenIdle(s, events)
    ensures SlotsHold(Run(s, events).value)
    decreases |events|
  {
    hide SlotsHold, Do, Can;
    if events != [] {
      EventKeeps(s, events[0]);
      RunKeepsSlots(Do(s, events[0]), events[1..]);
    }
  }

  lemma {:induction false} RunKeepsEntries(s: State, events: seq<Event>)
    requires EntriesHold(s) && Run(s, events).Some? && forall l <- s.lookups :: l < s.started
    ensures EntriesHold(Run(s, events).value)
    decreases |events|
  {
    hide EntriesHold, Do, Can;
    if events != [] {
      EntryKept(s, events[0]);
      RunKeepsEntries(Do(s, events[0]), events[1..]);
    }
  }

  /** Nothing that changes what is cached for the person. */
  predicate Quiet(s: State, e: Event, oid: Oid) {
    match e
    case Answered(l, _) => l in s.lookups && s.lookups[l].oid != oid
    case Clear => false
    case _ => true
  }

  predicate AllQuiet(s: State, events: seq<Event>, oid: Oid)
    decreases |events|
  {
    events == [] || !Can(s, events[0]) || (Quiet(s, events[0], oid) && AllQuiet(Do(s, events[0]), events[1..], oid))
  }

  /** Roles answered to a person's lookup are given to every request of theirs for
      the next half minute, whatever others ask, fail or are answered; after it, a
      request waits. */
  lemma {:induction false} AnswerServes(s: State, e: Event, later: seq<Event>)
    requires e.Answered? && Can(s, e) && Run(Do(s, e), later).Some?
    requires AllQuiet(Do(s, e), later, s.lookups[e.lookup].oid)
    ensures
      var after, oid := Run(Do(s, e), later).value, s.lookups[e.lookup].oid;
      if after.now < s.now + 30_000 then Given(after, oid) == FromCache(e.roles) else Given(after, oid).Waiting?
  {
    QuietKeepsEntry(Do(s, e), later, s.lookups[e.lookup].oid);
    hide Run;
  }

  lemma {:induction false} QuietKeepsEntry(s: State, later: seq<Event>, oid: Oid)
    requires oid in s.cache && Run(s, later).Some? && AllQuiet(s, later, oid)
    ensures oid in Run(s, later).value.cache && Run(s, later).value.cache[oid] == s.cache[oid]
    decreases |later|
  {
    if later != [] {
      QuietKeepsEntry(Do(s, later[0]), later[1..], oid);
    }
  }

  /** No person has two lookups running. */
  ghost predicate OneEach(s: State) {
    forall a, b :: a in s.lookups && b in s.lookups && s.lookups[a].oid == s.lookups[b].oid ==> a == b
  }

  /** In every interleaving in which no clear falls between a lookup's start and
      its settling, a person never has two lookups running, and a request starts
      one only when nothing fresh is cached and none is running. */
  lemma OneLookupEach(events: seq<Event>, oid: Oid)
    requires Run(NOTHING, events).Some? && ClearsWhenIdle(NOTHING, events)
    ensures
      var s := Run(NOTHING, events).value;
      && OneEach(s)
      && (Do(s, Request(oid)).started > s.started
          <==> !(oid in s.cache && s.cache[oid].expiresAt > s.now) && forall l <- s.lookups :: s.lookups[l].oid != oid)
      && match Given(s, oid)
         case FromCache(roles) => oid in s.cache && s.cache[oid].roles == roles && s.cache[oid].expiresAt > s.now
         case Waiting(l) =>
           && (oid in s.cache ==> s.cache[oid].expiresAt <= s.now)
           && l in Do(s, Request(oid)).lookups && Do(s, Request(oid)).lookups[l].oid == oid
  {
    RunKeepsSlots(NOTHING, events);
    hide Run, ClearsWhenIdle;
  }

  /** Whatever the interleaving, clears included, roles served from the cache were
      stored by an answered lookup less than the cache's life ago; a failed
      lookup leaves nothing to serve. */
  lemma ServedRolesAreRecent(events: seq<Event>, oid: Oid)
    requires Run(NOTHING, events).Some? && Given(Run(NOTHING, events).value, oid).FromCache?
    ensures
      var s := Run(NOTHING, events).value;
      && oid in s.cache && Given(s, oid) == FromCache(s.cache[oid].roles)
      && s.cache[oid].storedAt <= s.now < s.cache[oid].storedAt + 30_000
  {
    RunKeepsEntries(NOTHING, events);
    hide Run;
  }

  /** The events after a clear, with no further clear during a lookup, leave
      nobody two lookups, whatever they are. */
  ghost predicate StaysOneEach(s: State) {
    forall events :: Run(s, events).Some? && ClearsWhenIdle(s, events) ==> OneEach(Run(s, events).value)
  }

  /** Exactly when a clear is safe: when no lookup has still to settle. From a
      clear during a lookup, that person's next request runs beside it. */
  lemma ClearSafeIffIdle(s: State)
    requires SlotsHold(s)
    ensures StaysOneEach(Do(s, Clear)) <==> s.lookups == map[]
  {
    var cleared := Do(s, Clear);
    if s.lookups == map[] {
      EventKeeps(s, Clear);
      forall events | Run(cleared, events).Some? && ClearsWhenIdle(cleared, events)
        ensures OneEach(Run(cleared, events).value)
      {
        RunKeepsSlots(cleared, events);
      }
    } else {
      var l :| l in s.lookups;
      var again := [Request(s.lookups[l].oid)];
      var twice := Do(cleared, again[0]);
      assert again[1..] == [] && Run(twice, again[1..]) == Some(twice) && ClearsWhenIdle(twice, again[1..]);
      assert Run(cleared, again) == Some(twice) && ClearsWhenIdle(cleared, again);
      assert l in twice.lookups && s.started in twice.lookups && l != s.started;
      assert !OneEach(twice);
    }
  }

  /** A clear during a lookup does break the slots: unlike the Graph token's
      fetch, an old lookup that settles frees the new one's slot, and a third
      request runs beside the second. */
  lemma ClearLosesSlot() returns (events: seq<Event>)
    ensures Run(NOTHING, events).Some? && !ClearsWhenIdle(NOTHING, events)
    ensures
      !OneEach(Run(NOTHING, events).value)
  {
    events := [Request("a"), Clear, Request("a"), Errored(0), Settled(0), Request("a")];
    var s1 := Do(NOTHING, events[0]);
    var s2 := Do(s1, events[1]);
    var s3 := Do(s2, events[2]);
    var s4 := Do(s3, events[3]);
    var s5 := Do(s4, events[4]);
    var s6 := Do(s5, events[5]);
    assert Run(s5, events[5..]) == Some(s6) by {
      assert events[5..][1..] == [];
    }
    assert events[4..][1..] == events[5..] && events[3..][1..] == events[4..] && events[2..][1..] == events[3..];
    assert events[1..][1..] == events[2..];
    assert Run(s4, events[4..]) == Some(s6);
    assert Run(s3, events[3..]) == Some(s6);
    assert Run(s2, events[2..]) == Some(s6);
    assert Run(s1, events[1..]) == Some(s6);
    assert 0 in s1.lookups;
    assert 1 in s6.lookups && 2 in s6.lookups && s6.lookups[1].oid == s6.lookups[2].oid;
  }
}
