/** The Graph token kept across calls: one cached token, one fetch in flight,
    and a generation that a clear moves on. */
module GraphToken {
  import opened Wrappers

  const REFRESH_SKEW: nat := 60_000
  const DEFAULT_TTL_SECONDS: nat := 3_600

  /** A fetch is known by the promise the caller holds, numbered as started. */
  type FetchId = nat

  /** `from` is the fetch the token came from. */
  datatype Cached = Cached(token: int, expiresAt: nat, from: FetchId)

  /** A fetch runs until it settles; `done` once its answer has been dealt with
      and only the freeing of the slot is still to come. */
  datatype Fetch = Fetch(generation: nat, done: bool)

  /** `fetches` are those not yet settled; `cleared` is the number of fetches
      started before the last clear. */
  datatype State = State(
    cached: Option<Cached>,
    inflight: Option<FetchId>,
    generation: nat,
    started: nat,
    fetches: map<FetchId, Fetch>,
    cleared: nat)

  datatype Token = FromCache(token: int) | Waiting(fetch: FetchId)

  /** Everything that happens to the cache, each without interruption: a request,
      a fetch answered with a token and its life or failing, a fetch settling,
      and a clear. */
  datatype Event =
    | Request(now: nat)
    | Answered(fetch: FetchId, token: int, expiresIn: Option<nat>, at: nat)
    | Errored(fetch: FetchId)
    | Settled(fetch: FetchId)
    | Clear

  predicate Can(s: State, e: Event) {
    match e
    case Request(_) => true
    case Answered(f, _, _, _) => f in s.fetches && !s.fetches[f].done
    case Errored(f) => f in s.fetches && !s.fetches[f].done
    case Settled(f) => f in s.fetches && s.fetches[f].done
    case Clear => true
  }

  predicate HasFresh(s: State, now: nat) { s.cached.Some? && s.cached.value.expiresAt > now + REFRESH_SKEW }

  function Life(expiresIn: Option<nat>): nat {
    if expiresIn.Some? && expiresIn.value > 0 then expiresIn.value else DEFAULT_TTL_SECONDS
  }

  function Do(s: State, e: Event): State
    requires Can(s, e)
  {
    match e
    case Request(now) =>
      if HasFresh(s, now) || s.inflight.Some? then s
      else s.(inflight := Some(s.started), started := s.started + 1,
              fetches := s.fetches[s.started := Fetch(s.generation, false)])
    case Answered(f, token, expiresIn, at) =>
      s.(fetches := s.fetches[f := s.fetches[f].(done := true)],
         cached := if s.fetches[f].generation == s.generation
                   then Some(Cached(token, at + Life(expiresIn) * 1000, f)) else s.cached)
    case Errored(f) => s.(fetches := s.fetches[f := s.fetches[f].(done := true)])
    case Settled(f) =>
      s.(fetches := s.fetches - {f}, inflight := if s.inflight == Some(f) then None else s.inflight)
    case Clear => s.(cached := None, inflight := None, generation := s.generation + 1, cleared := s.started)
  }

  function Given(s: State, now: nat): Token {
    if HasFresh(s, now) then FromCache(s.cached.value.token)
    else if s.inflight.Some? then Waiting(s.inflight.value)
    else Waiting(s.started)
  }

  // ── The module's variables ───────────────────────────────────────────────

  class Cache {
    var cached: Option<Cached>
    var inflight: Option<FetchId>
    var generation: nat
    ghost var started: nat
    var fetches: map<FetchId, Fetch>
    ghost var cleared: nat

    ghost function View(): State
      reads this
    {
      State(cached, inflight, generation, started, fetches, cleared)
    }

    constructor ()
      ensures View() == State(None, None, 0, 0, map[], 0)
    {
      cached, inflight, generation, started, fetches, cleared := None, None, 0, 0, map[], 0;
    }

    /** `promise` is the fetch this call would start. */
    method GetGraphToken(now: nat, promise: FetchId) returns (token: Token)
      requires promise == started
      modifies this
      ensures View() == Do(old(View()), Request(now))
      ensures token == Given(old(View()), now)
    {
      if cached.Some? && cached.value.expiresAt > now + REFRESH_SKEW {
        return FromCache(cached.value.token);
      }
      if inflight.Some? {
        return Waiting(inflight.value);
      }
      fetches := fetches[promise := Fetch(generation, false)];
      started := started + 1;
      inflight := Some(promise);
      token := Waiting(promise);
    }

    method FetchAnswered(fetch: FetchId, token: int, expiresIn: Option<nat>, at: nat)
      requires Can(View(), Answered(fetch, token, expiresIn, at))
      modifies this
      ensures View() == Do(old(View()), Answered(fetch, token, expiresIn, at))
    {
      var startedIn := fetches[fetch].generation;
      var ttl := if expiresIn.Some? && expiresIn.value > 0 then expiresIn.value else DEFAULT_TTL_SECONDS;
      if startedIn == generation {
        cached := Some(Cached(token, at + ttl * 1000, fetch));
      }
      fetches := fetches[fetch := Fetch(startedIn, true)];
    }

    method FetchErrored(fetch: FetchId)
      requires Can(View(), Errored(fetch))
      modifies this
      ensures View() == Do(old(View()), Errored(fetch))
    {
      fetches := fetches[fetch := fetches[fetch].(done := true)];
    }

    method FetchSettled(fetch: FetchId)
      requires Can(View(), Settled(fetch))
      modifies this
      ensures View() == Do(old(View()), Settled(fetch))
    {
      if inflight == Some(fetch) {
        inflight := None;
      }
      fetches := fetches - {fetch};
    }

    method ClearGraphTokenCache()
      modifies this
      ensures View() == Do(old(View()), Clear)
    {
      cached := None;
      inflight := None;
      generation := generation + 1;
      cleared := started;
    }
  }

  // ── What every interleaving keeps ────────────────────────────────────────

  /** A fetch is of the current generation exactly when it started after the
      last clear, and then it is the one in the slot. */
  ghost predicate Invariant(s: State) {
    && s.cleared <= s.started
    && (forall f <- s.fetches ::
          && f < s.started && s.fetches[f].generation <= s.generation
          && (s.fetches[f].generation == s.generation <==> f >= s.cleared)
          && (f >= s.cleared ==> s.inflight == Some(f)))
    && (s.inflight.Some? ==> s.inflight.value in s.fetches && s.inflight.value >= s.cleared)
    && (s.cached.Some? ==> s.cleared <= s.cached.value.from < s.started)
  }

  function Run(s: State, events: seq<Event>): Option<State>
    decreases |events|
  {
    if events == [] then Some(s)
    else if Can(s, events[0]) then Run(Do(s, events[0]), events[1..])
    else None
  }

  const NOTHING := State(None, None, 0, 0, map[], 0)

  lemma EventKeeps(s: State, e: Event)
    requires Invariant(s) && Can(s, e)
    ensures Invariant(Do(s, e))
  {
  }

  lemma {:induction false} RunKeeps(s: State, events: seq<Event>)
    requires Invariant(s) && Run(s, events).Some?
    ensures Invariant(Run(s, events).value)
    decreases |events|
  {
    hide Invariant, Do, Can;
    if events != [] {
      EventKeeps(s, events[0]);
      RunKeeps(Do(s, events[0]), events[1..]);
    }
  }

  /** In every interleaving of requests, answers, failures and clears, a cached
      token came from a fetch started after the last clear, and at most one
      fetch started after the last clear is unsettled. */
  lemma CacheIsCurrent(events: seq<Event>)
    requires Run(NOTHING, events).Some?
    ensures
      var s := Run(NOTHING, events).value;
      && (s.cached.Some? ==> s.cached.value.from >= s.cleared)
      && (forall f, g :: f in s.fetches && g in s.fetches && f >= s.cleared && g >= s.cleared ==> f == g)
  {
    RunKeeps(NOTHING, events);
    hide Run;
  }

  /** A fetch from before the last clear changes neither the cache nor the slot,
      however late it is answered, fails or settles. */
  lemma LateFetchIgnored(events: seq<Event>, e: Event)
    requires Run(NOTHING, events).Some? && Can(Run(NOTHING, events).value, e)
    requires e.Answered? || e.Errored? || e.Settled?
    requires e.fetch < Run(NOTHING, events).value.cleared
    ensures
      var s := Run(NOTHING, events).value;
      Do(s, e).cached == s.cached && Do(s, e).inflight == s.inflight
  {
    RunKeeps(NOTHING, events);
    hide Run;
  }

  /** A request starts a fetch only when nothing cached lasts more than a minute and
      no fetch started since the last clear is unsettled. */
  lemma OneFetchServesAll(events: seq<Event>, now: nat)
    requires Run(NOTHING, events).Some?
    ensures
      var s := Run(NOTHING, events).value;
      Do(s, Request(now)).started > s.started
      <==> !(s.cached.Some? && s.cached.value.expiresAt > now + 60_000) && forall f <- s.fetches :: f < s.cleared
  {
    RunKeeps(NOTHING, events);
    hide Run;
  }

  /** A caller is given the cached token while it lasts more than a minute, and else
      waits on the one fetch of the current generation, its own or one running. */
  lemma GivenIsCurrent(events: seq<Event>, now: nat)
    requires Run(NOTHING, events).Some?
    ensures
      var s := Run(NOTHING, events).value;
      match Given(s, now)
      case FromCache(token) =>
        && s.cached.Some? && s.cached.value.token == token && s.cached.value.expiresAt > now + 60_000
        && Do(s, Request(now)) == s
      case Waiting(f) =>
        && (s.cached.Some? ==> s.cached.value.expiresAt <= now + 60_000)
        && f in Do(s, Request(now)).fetches && f >= s.cleared
        && forall g <- Do(s, Request(now)).fetches :: g >= s.cleared ==> g == f
  {
    RunKeeps(NOTHING, events);
    EventKeeps(Run(NOTHING, events).value, Request(now));
    hide Run;
  }

  /** Neither an answer nor a clear. */
  predicate Quiet(e: Event) { e.Request? || e.Errored? || e.Settled? }

  lemma {:induction false} RunOn(s: State, events: seq<Event>, later: seq<Event>)
    ensures Run(s, events + later) == if Run(s, events).None? then None else Run(Run(s, events).value, later)
    decreases |events|
  {
    if events == [] {
      assert events + later == later;
    } else {
      hide Do;
      assert (events + later)[0] == events[0] && (events + later)[1..] == events[1..] + later;
      if Can(s, events[0]) {
        RunOn(Do(s, events[0]), events[1..], later);
      }
    }
  }

  lemma {:induction false} QuietKeepsCache(s: State, later: seq<Event>)
    requires Run(s, later).Some? && forall e <- later :: Quiet(e)
    ensures Run(s, later).value.cached == s.cached
    decreases |later|
  {
    if later != [] {
      assert later[0] in later;
      QuietKeepsCache(Do(s, later[0]), later[1..]);
    }
  }

  /** A token answered to a fetch of the current generation is given to every caller
      from then on, until a minute before the end of the life it was answered with,
      an hour when it names none, whatever else is asked, fails or settles; from
      then on a caller waits. */
  lemma AnswerServes(events: seq<Event>, e: Event, later: seq<Event>, now: nat)
    requires e.Answered? && Run(NOTHING, events + [e] + later).Some?
    requires Run(NOTHING, events).Some? && e.fetch >= Run(NOTHING, events).value.cleared
    requires forall x <- later :: Quiet(x)
    ensures
      var life := if e.expiresIn.Some? && e.expiresIn.value > 0 then e.expiresIn.value else 3_600;
      var given := Given(Run(NOTHING, events + [e] + later).value, now);
      if now + 60_000 < e.at + life * 1000 then given == FromCache(e.token) else given.Waiting?
  {
    RunOn(NOTHING, events + [e], later);
    RunOn(NOTHING, events, [e]);
    RunKeeps(NOTHING, events);
    var s := Run(NOTHING, events).value;
    assert Run(s, [e]) == if Can(s, e) then Some(Do(s, e)) else None by {
      assert [e][1..] == [];
    }
    QuietKeepsCache(Do(s, e), later);
    hide Run;
  }

  /** No failure sticks: once every fetch has settled the slot is free, so the
      next request fetches again unless a fresh token is cached. */
  lemma SlotIsFreed(events: seq<Event>)
    requires Run(NOTHING, events).Some?
    ensures
      var s := Run(NOTHING, events).value;
      s.inflight.None? <==> forall f <- s.fetches :: f < s.cleared
  {
    RunKeeps(NOTHING, events);
    hide Run;
  }
}
