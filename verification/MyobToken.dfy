/** The one stored MYOB link: any number of callers refreshing it, and re-links
    competing with them under the same lock. MYOB rotates refresh tokens: using
    one up issues its only successor (section 6 of RFC 6749). */
module MyobToken {
  import opened Wrappers

  const REFRESH_SKEW: nat := 60_000

  type Caller = nat
  type CompanyFile = nat

  /** MYOB issues access and refresh tokens in pairs, numbered as issued. */
  type Pair = nat

  /** A link stored before files were kept has none. */
  datatype Row = Row(pair: Pair, expiresAt: nat, file: Option<CompanyFile>)

  predicate Fresh(row: Row, now: nat) { row.expiresAt > now + REFRESH_SKEW }

  /** Where one caller stands. A transaction holds the lock from Locked on. */
  datatype Phase =
    | Idle
    | Stale
    | Locked
    | Holding(row: Row)
    | Posted(row: Row)
    | Answered(row: Row, got: Pair)
    | Returned(pair: Pair)
    | Failed
    | Linking(file: CompanyFile)
    | Exchanged(file: CompanyFile, got: Pair)
    | LinkLocked(file: CompanyFile, got: Pair)

  predicate HoldsLock(phase: Phase) {
    phase.Locked? || phase.Holding? || phase.Posted? || phase.Answered? || phase.LinkLocked?
  }

  /** A pair MYOB has issued and the caller has not stored yet. */
  predicate HasPair(phase: Phase) { phase.Answered? || phase.Exchanged? || phase.LinkLocked? }

  /** `live` holds the last refresh token issued on each grant, the only ones
      MYOB still takes; `late` the posts whose caller gave up waiting; `posts`
      and `stored` the refreshes posted and committed so far. `spent` says the
      stored refresh token was used up without its successor being stored, and
      `dropped` that some caller gave up between its post and its commit. */
  datatype State = State(
    now: nat,
    row: Option<Row>,
    lock: Option<Caller>,
    callers: map<Caller, Phase>,
    issued: nat,
    live: set<Pair>,
    late: set<Pair>,
    posts: seq<Pair>,
    stored: nat,
    spent: bool,
    dropped: bool)

  function PhaseOf(s: State, c: Caller): Phase { if c in s.callers then s.callers[c] else Idle }

  function At(s: State, c: Caller, phase: Phase): State { s.(callers := s.callers[c := phase]) }

  predicate Resting(phase: Phase) { phase.Idle? || phase.Returned? || phase.Failed? }

  function FileOf(row: Option<Row>): Option<CompanyFile> { if row.Some? then row.value.file else None }

  function Expected(configured: Option<CompanyFile>, row: Option<Row>): Option<CompanyFile> {
    if configured.Some? then configured else FileOf(row)
  }

  predicate MayLink(configured: Option<CompanyFile>, row: Option<Row>, file: CompanyFile) {
    Expected(configured, row).None? || Expected(configured, row).value == file
  }

  /** What a caller does next. Reading to saving is a caller that wants an access
      token; the others are a re-link, whose code is exchanged, as a grant of its
      own, before the lock is taken. Failing is any throw on the way. */
  datatype Move =
    | Read | TakeLock | ReadAgain | Post | Answer | Save(lifetime: nat)
    | LinkStart(file: CompanyFile) | LinkExchange | LinkLock | LinkStore(linkLifetime: nat)
    | Fail

  predicate Can(configured: Option<CompanyFile>, s: State, c: Caller, move: Move) {
    var phase := PhaseOf(s, c);
    match move
    case Read => Resting(phase)
    case TakeLock => phase.Stale? && s.lock.None?
    case ReadAgain => phase.Locked?
    case Post => phase.Holding?
    case Answer => phase.Posted?
    case Save(_) => phase.Answered?
    case LinkStart(file) => Resting(phase) && MayLink(configured, s.row, file)
    case LinkExchange => phase.Linking?
    case LinkLock => phase.Exchanged? && s.lock.None?
    case LinkStore(_) => phase.LinkLocked? && MayLink(configured, s.row, phase.file)
    case Fail => !Resting(phase)
  }

  /** MYOB takes a live refresh token once and issues its successor. */
  function Rotated(s: State, pair: Pair): State {
    s.(live := s.live - {pair} + {s.issued}, issued := s.issued + 1)
  }

  /** The second look, under the lock: a caller that waited finds the new token
      and ends its transaction, else it keeps the lock. */
  function SecondLook(s: State, c: Caller): State {
    if s.row.None? then At(s, c, Failed).(lock := None)
    else if Fresh(s.row.value, s.now) then At(s, c, Returned(s.row.value.pair)).(lock := None)
    else At(s, c, Holding(s.row.value))
  }

  /** The transaction rolls back. After the post, MYOB may already have used the
      token up, or may still. */
  function RolledBack(s: State, c: Caller): State {
    var phase := PhaseOf(s, c);
    At(s, c, Failed).(lock := if HoldsLock(phase) then None else s.lock,
                      late := if phase.Posted? then s.late + {phase.row.pair} else s.late,
                      spent := s.spent || phase.Answered?,
                      dropped := s.dropped || phase.Posted? || phase.Answered?)
  }

  function Do(configured: Option<CompanyFile>, s: State, c: Caller, move: Move): State
    requires Can(configured, s, c, move)
  {
    var phase := PhaseOf(s, c);
    match move
    case Read =>
      At(s, c, if s.row.None? then Failed else if Fresh(s.row.value, s.now) then Returned(s.row.value.pair) else Stale)
    case TakeLock => At(s, c, Locked).(lock := Some(c))
    case ReadAgain => SecondLook(s, c)
    case Post => At(s, c, Posted(phase.row)).(posts := s.posts + [phase.row.pair])
    case Answer =>
      if phase.row.pair in s.live then At(Rotated(s, phase.row.pair), c, Answered(phase.row, s.issued))
      else At(s, c, Failed).(lock := None)
    case Save(lifetime) =>
      At(s, c, Returned(phase.got)).(row := Some(phase.row.(pair := phase.got, expiresAt := s.now + lifetime)),
                                     lock := None, stored := s.stored + 1, spent := false)
    case LinkStart(file) => At(s, c, Linking(file))
    case LinkExchange =>
      At(s, c, Exchanged(phase.file, s.issued)).(live := s.live + {s.issued}, issued := s.issued + 1)
    case LinkLock => At(s, c, LinkLocked(phase.file, phase.got)).(lock := Some(c))
    case LinkStore(lifetime) =>
      At(s, c, Returned(phase.got)).(row := Some(Row(phase.got, s.now + lifetime, Some(phase.file))), lock := None,
                                     spent := false)
    case Fail => RolledBack(s, c)
  }

  /** A post whose caller is gone is used after all; nobody stores the answer. */
  function LateAnswer(s: State, pair: Pair): State {
    if pair in s.live
    then Rotated(s, pair).(late := s.late - {pair}, spent := s.spent || (s.row.Some? && s.row.value.pair == pair))
    else s.(late := s.late - {pair})
  }

  ghost predicate Step(configured: Option<CompanyFile>, s: State, next: State) {
    || (next.now >= s.now && next == s.(now := next.now))
    || (exists pair: Pair :: pair in s.late && next == LateAnswer(s, pair))
    || (exists c: Caller, move: Move :: Can(configured, s, c, move) && next == Do(configured, s, c, move))
  }

  ghost predicate Initial(s: State) {
    && s.lock.None? && s.late == {} && s.posts == [] && s.stored == 0 && !s.spent && !s.dropped
    && (forall c <- s.callers :: s.callers[c].Idle?)
    && (forall pair <- s.live :: pair < s.issued)
    && (s.row.Some? ==> s.row.value.pair in s.live)
  }

  ghost predicate IsRun(configured: Option<CompanyFile>, run: seq<State>) {
    run != [] && Initial(run[0]) && forall i :: 0 <= i < |run| - 1 ==> Step(configured, run[i], run[i + 1])
  }

  // ── What every run keeps ─────────────────────────────────────────────────

  /** Only the lock's holder is past the lock, and what it read is still stored. */
  ghost predicate CallerHolds(s: State, c: Caller) {
    var phase := PhaseOf(s, c);
    && (HoldsLock(phase) ==> s.lock == Some(c))
    && (phase.Holding? || phase.Posted? || phase.Answered? ==>
          s.row == Some(phase.row) && !Fresh(phase.row, s.now))
    && (phase.Posted? ==> phase.row.pair in s.posts)
    && (phase.Answered? ==> phase.row.pair !in s.live)
    && (HasPair(phase) ==>
          phase.got in s.live && phase.got !in s.posts && (s.row.Some? ==> s.row.value.pair != phase.got))
  }

  /** No two callers hold the same new pair. */
  ghost predicate PairsApart(s: State) {
    forall c: Caller, d: Caller :: c != d && HasPair(PhaseOf(s, c)) && HasPair(PhaseOf(s, d)) ==>
      PhaseOf(s, c).got != PhaseOf(s, d).got
  }

  ghost predicate SomeoneAnswered(s: State) {
    s.lock.Some? && PhaseOf(s, s.lock.value).Answered?
  }

  ghost predicate SomeonePosted(s: State) {
    s.lock.Some? && PhaseOf(s, s.lock.value).Posted?
  }

  /** The stored refresh token is good exactly while it is not spent. */
  ghost predicate RowHolds(s: State) {
    && (forall pair <- s.live :: pair < s.issued)
    && (forall i :: 0 <= i < |s.posts| ==> s.posts[i] < s.issued)
    && (forall pair <- s.late :: pair in s.posts)
    && (s.row.Some? ==> s.row.value.pair < s.issued)
    && (s.row.Some? && !SomeoneAnswered(s) ==> (s.row.value.pair in s.live <==> !s.spent))
  }

  /** With no caller dropped, no token is ever posted twice, none that was
      posted is still live once answered, and posts and commits pair up. */
  ghost predicate PostsHold(s: State) {
    !s.dropped ==>
      && !s.spent && s.late == {}
      && (forall i, j :: 0 <= i < j < |s.posts| ==> s.posts[i] != s.posts[j])
      && (forall i :: 0 <= i < |s.posts| && s.posts[i] in s.live ==>
            SomeonePosted(s) && PhaseOf(s, s.lock.value).row.pair == s.posts[i])
      && |s.posts| == s.stored + if SomeonePosted(s) || SomeoneAnswered(s) then 1 else 0
  }

  ghost predicate Invariant(s: State) {
    (forall c: Caller :: CallerHolds(s, c)) && PairsApart(s) && RowHolds(s) && PostsHold(s)
  }

  lemma OtherHolds(configured: Option<CompanyFile>, s: State, c: Caller, move: Move, d: Caller)
    requires Can(configured, s, c, move) && c != d && RowHolds(s)
    requires CallerHolds(s, c) && CallerHolds(s, d) && PairsApart(s)
    ensures CallerHolds(Do(configured, s, c, move), d)
  {
    hide Fresh, MayLink;
  }

  lemma OwnHolds(configured: Option<CompanyFile>, s: State, c: Caller, move: Move)
    requires Can(configured, s, c, move) && CallerHolds(s, c) && RowHolds(s)
    ensures CallerHolds(Do(configured, s, c, move), c)
  {
    hide MayLink;
  }

  lemma PairIssued(s: State, c: Caller)
    requires CallerHolds(s, c) && RowHolds(s)
    ensures HasPair(PhaseOf(s, c)) ==> PhaseOf(s, c).got < s.issued
  {
  }

  lemma PairsKept(configured: Option<CompanyFile>, s: State, c: Caller, move: Move)
    requires Can(configured, s, c, move)
    requires (forall d: Caller :: CallerHolds(s, d)) && PairsApart(s) && RowHolds(s)
    ensures PairsApart(Do(configured, s, c, move))
  {
    var next := Do(configured, s, c, move);
    forall d: Caller ensures HasPair(PhaseOf(s, d)) ==> PhaseOf(s, d).got < s.issued {
      assert CallerHolds(s, d);
      PairIssued(s, d);
    }
    forall d: Caller | HasPair(PhaseOf(s, d)) ensures PhaseOf(s, d).got != s.issued {
    }
    hide MayLink, Fresh, CallerHolds, RowHolds;
    forall d: Caller, e: Caller | d != e && HasPair(PhaseOf(next, d)) && HasPair(PhaseOf(next, e))
      ensures PhaseOf(next, d).got != PhaseOf(next, e).got
    {
      assert d != c ==> PhaseOf(next, d) == PhaseOf(s, d);
      assert e != c ==> PhaseOf(next, e) == PhaseOf(s, e);
    }
  }

  lemma RowKept(configured: Option<CompanyFile>, s: State, c: Caller, move: Move)
    requires Can(configured, s, c, move) && CallerHolds(s, c) && RowHolds(s)
    requires s.lock.Some? ==> CallerHolds(s, s.lock.value)
    ensures RowHolds(Do(configured, s, c, move))
  {
    hide MayLink, Fresh;
  }

  lemma PostsKept(configured: Option<CompanyFile>, s: State, c: Caller, move: Move)
    requires Can(configured, s, c, move) && CallerHolds(s, c) && RowHolds(s) && PostsHold(s)
    requires s.lock.Some? ==> CallerHolds(s, s.lock.value)
    ensures PostsHold(Do(configured, s, c, move))
  {
    hide MayLink, Fresh;
  }

  lemma MoveKeeps(configured: Option<CompanyFile>, s: State, c: Caller, move: Move)
    requires Invariant(s) && Can(configured, s, c, move)
    ensures Invariant(Do(configured, s, c, move))
  {
    assert CallerHolds(s, c);
    assert s.lock.Some? ==> CallerHolds(s, s.lock.value);
    OwnHolds(configured, s, c, move);
    PairsKept(configured, s, c, move);
    RowKept(configured, s, c, move);
    PostsKept(configured, s, c, move);
    hide CallerHolds, PairsApart, RowHolds, PostsHold, Do, Can;
    forall d: Caller ensures CallerHolds(Do(configured, s, c, move), d) {
      if d != c {
        assert CallerHolds(s, d);
        OtherHolds(configured, s, c, move, d);
      }
    }
  }

  lemma LateKeeps(s: State, pair: Pair)
    requires Invariant(s) && pair in s.late
    ensures Invariant(LateAnswer(s, pair))
  {
    hide Fresh;
    var next := LateAnswer(s, pair);
    assert s.lock.Some? ==> CallerHolds(s, s.lock.value);
    forall d: Caller ensures CallerHolds(next, d) {
      assert CallerHolds(s, d);
    }
    SamePhases(s, next);
  }

  lemma SamePhases(s: State, next: State)
    requires PairsApart(s) && next.callers == s.callers
    ensures PairsApart(next)
  {
    forall c: Caller, d: Caller | c != d && HasPair(PhaseOf(next, c)) && HasPair(PhaseOf(next, d))
      ensures PhaseOf(next, c).got != PhaseOf(next, d).got
    {
      assert PhaseOf(next, c) == PhaseOf(s, c) && PhaseOf(next, d) == PhaseOf(s, d);
    }
  }

  lemma TickKeeps(s: State, now: nat)
    requires Invariant(s) && now >= s.now
    ensures Invariant(s.(now := now))
  {
    var next := s.(now := now);
    SamePhases(s, next);
    forall d: Caller ensures CallerHolds(next, d) {
      assert CallerHolds(s, d);
    }
  }

  lemma StepKeeps(configured: Option<CompanyFile>, s: State, next: State)
    requires Invariant(s) && Step(configured, s, next)
    ensures Invariant(next)
  {
    hide Invariant, Do, Can, LateAnswer;
    if next.now >= s.now && next == s.(now := next.now) {
      TickKeeps(s, next.now);
    } else if pair: Pair :| pair in s.late && next == LateAnswer(s, pair) {
      LateKeeps(s, pair);
    } else {
      var c: Caller, move: Move :| Can(configured, s, c, move) && next == Do(configured, s, c, move);
      MoveKeeps(configured, s, c, move);
    }
  }

  lemma InitialHolds(s: State)
    requires Initial(s)
    ensures Invariant(s)
  {
  }

  lemma {:induction false} EveryRunKeeps(configured: Option<CompanyFile>, run: seq<State>)
    requires IsRun(configured, run)
    ensures Invariant(run[|run| - 1])
    decreases |run|
  {
    hide Invariant, Step;
    if |run| == 1 {
      InitialHolds(run[0]);
    } else {
      var before := run[..|run| - 1];
      assert IsRun(configured, before);
      EveryRunKeeps(configured, before);
      assert Step(configured, run[|run| - 2], run[|run| - 2 + 1]);
      StepKeeps(configured, run[|run| - 2], run[|run| - 1]);
    }
  }

  // ── What callers may rely on ─────────────────────────────────────────────

  lemma HolderSees(s: State, c: Caller)
    requires Invariant(s)
    ensures
      var phase := PhaseOf(s, c);
      && (phase.Holding? || phase.Posted? ==>
            && s.lock == Some(c) && s.row == Some(phase.row) && !Fresh(phase.row, s.now)
            && (phase.row.pair in s.live <==> !s.spent))
      && (phase.Holding? && !s.dropped ==> !s.spent && phase.row.pair !in s.posts)
      && (phase.Posted? && !s.dropped ==> !s.spent)
  {
    assert CallerHolds(s, c);
  }

  /** A refresh posts the token of the stored link, the last one issued on it
      exactly while no answer has been used and not stored; and as long as no
      caller has been dropped between its post and its commit, one that was never
      posted before. */
  lemma PostsLastIssued(configured: Option<CompanyFile>, run: seq<State>, c: Caller)
    requires IsRun(configured, run) && Can(configured, run[|run| - 1], c, Post)
    ensures
      var s := run[|run| - 1];
      && s.row == Some(PhaseOf(s, c).row)
      && (PhaseOf(s, c).row.pair in s.live <==> !s.spent)
      && (!s.dropped ==> !s.spent && PhaseOf(s, c).row.pair !in s.posts)
  {
    EveryRunKeeps(configured, run);
    hide Invariant, IsRun;
    HolderSees(run[|run| - 1], c);
  }

  /** MYOB takes a posted refresh exactly while the stored token is not spent. */
  lemma TakenIffUnspent(configured: Option<CompanyFile>, run: seq<State>, c: Caller)
    requires IsRun(configured, run) && Can(configured, run[|run| - 1], c, Answer)
    ensures
      var s := run[|run| - 1];
      PhaseOf(Do(configured, s, c, Answer), c).Answered? <==> !s.spent
  {
    EveryRunKeeps(configured, run);
    hide Invariant, IsRun;
    HolderSees(run[|run| - 1], c);
  }

  /** So MYOB never refuses such a refresh, and every token posted in the run is
      posted once, each followed by one commit of its successor. */
  lemma EachPostStored(configured: Option<CompanyFile>, run: seq<State>, c: Caller)
    requires IsRun(configured, run) && !run[|run| - 1].dropped
    ensures
      var s := run[|run| - 1];
      && (Can(configured, s, c, Answer) ==> PhaseOf(Do(configured, s, c, Answer), c).Answered?)
      && (forall i, j :: 0 <= i < j < |s.posts| ==> s.posts[i] != s.posts[j])
      && s.stored <= |s.posts| <= s.stored + 1
      && (s.lock.None? ==> |s.posts| == s.stored)
  {
    EveryRunKeeps(configured, run);
    hide IsRun;
    HolderSees(run[|run| - 1], c);
    hide CallerHolds, PairsApart, RowHolds;
  }

  /** Whatever happens, the stored refresh token is good unless it was used up
      by an exchange whose answer was never stored; the next link mends that. */
  lemma StoredTokenGood(configured: Option<CompanyFile>, run: seq<State>)
    requires IsRun(configured, run)
    ensures
      var s := run[|run| - 1];
      s.row.Some? && (s.lock.None? || !PhaseOf(s, s.lock.value).Answered?) ==>
        (s.row.value.pair in s.live <==> !s.spent)
  {
    EveryRunKeeps(configured, run);
    hide IsRun;
  }

  /** Nobody posts while the stored token is fresh: a caller that waited for the
      lock takes the new token, and one refresh serves them all. */
  lemma FreshTokenShared(configured: Option<CompanyFile>, run: seq<State>, i: nat, j: nat)
    requires IsRun(configured, run) && i <= j < |run|
    requires forall k :: i <= k < j ==> run[k].row.Some? && Fresh(run[k].row.value, run[k].now)
    ensures run[j].posts == run[i].posts
    decreases j - i
  {
    hide Invariant, Step, Fresh, Initial;
    if i < j {
      FreshTokenShared(configured, run, i, j - 1);
      assert IsRun(configured, run[..j]);
      EveryRunKeeps(configured, run[..j]);
      assert Step(configured, run[j - 1], run[j - 1 + 1]);
      NoPostWhileFresh(configured, run[j - 1], run[j]);
    }
  }

  lemma NoPostWhileFresh(configured: Option<CompanyFile>, s: State, next: State)
    requires Invariant(s) && Step(configured, s, next) && s.row.Some? && Fresh(s.row.value, s.now)
    ensures next.posts == s.posts
  {
    hide Invariant, Fresh, MayLink;
    if c: Caller, move: Move :| Can(configured, s, c, move) && next == Do(configured, s, c, move) {
      HolderSees(s, c);
    }
  }

  /** `c` commits a pair at this moment, MYOB having issued it to last `lifetime`. */
  ghost predicate Commits(configured: Option<CompanyFile>, s: State, next: State, c: Caller, lifetime: nat) {
    || (Can(configured, s, c, Save(lifetime)) && next == Do(configured, s, c, Save(lifetime)))
    || (Can(configured, s, c, LinkStore(lifetime)) && next == Do(configured, s, c, LinkStore(lifetime)))
  }

  /** A pair committed with a lifetime serves everyone until a minute before it
      ends: up to the next commit nobody posts, and whoever looks, first or after
      waiting for the lock, is given that pair. From then on whoever gets the lock
      keeps it, to refresh. */
  lemma CommittedPairServesAll(configured: Option<CompanyFile>, run: seq<State>, i: nat, c: Caller, lifetime: nat,
                               j: nat, d: Caller)
    requires IsRun(configured, run) && i < j < |run| && Commits(configured, run[i], run[i + 1], c, lifetime)
    requires forall k :: i < k <= j ==> run[k].row == run[i + 1].row
    ensures
      var pair, end, s := PhaseOf(run[i], c).got, run[i].now + lifetime, run[j];
      && (s.now + 60_000 < end ==>
            && s.posts == run[i].posts
            && (Can(configured, s, d, Read) ==> PhaseOf(Do(configured, s, d, Read), d) == Returned(pair))
            && (Can(configured, s, d, ReadAgain) ==> PhaseOf(Do(configured, s, d, ReadAgain), d) == Returned(pair)))
      && (s.now + 60_000 >= end ==>
            && (Can(configured, s, d, Read) ==> PhaseOf(Do(configured, s, d, Read), d) == Stale)
            && (Can(configured, s, d, ReadAgain) ==>
                  && PhaseOf(Do(configured, s, d, ReadAgain), d).Holding?
                  && PhaseOf(Do(configured, s, d, ReadAgain), d).row.pair == pair
                  && Do(configured, s, d, ReadAgain).lock == s.lock))
  {
    CommitStores(configured, run[i], run[i + 1], c, lifetime);
    Looks(configured, run[j], d);
    if run[j].now + 60_000 < run[i].now + lifetime {
      hide Commits, Do, Can, Step, Initial, Looked;
      forall k | i < k < j ensures run[k].row.Some? && Fresh(run[k].row.value, run[k].now) {
        ClockRises(configured, run, k, j);
      }
      FreshTokenShared(configured, run, i + 1, j);
    }
  }

  lemma CommitStores(configured: Option<CompanyFile>, s: State, next: State, c: Caller, lifetime: nat)
    requires Commits(configured, s, next, c, lifetime)
    ensures next.row.Some? && next.row.value.pair == PhaseOf(s, c).got && next.row.value.expiresAt == s.now + lifetime
    ensures next.posts == s.posts && HasPair(PhaseOf(s, c))
  {
    hide MayLink;
  }

  ghost predicate Looked(s: State, next: State, d: Caller) {
    s.row.Some? ==>
      if s.row.value.expiresAt > s.now + 60_000
      then PhaseOf(next, d) == Returned(s.row.value.pair) && next.lock.None?
      else PhaseOf(next, d) == Holding(s.row.value) && next.lock == s.lock
  }

  lemma Looks(configured: Option<CompanyFile>, s: State, d: Caller)
    ensures Can(configured, s, d, ReadAgain) ==> Looked(s, Do(configured, s, d, ReadAgain), d)
    ensures Can(configured, s, d, Read) && s.row.Some? ==>
      PhaseOf(Do(configured, s, d, Read), d)
      == if s.row.value.expiresAt > s.now + 60_000 then Returned(s.row.value.pair) else Stale
  {
    hide MayLink;
  }

  lemma {:induction false} ClockRises(configured: Option<CompanyFile>, run: seq<State>, i: nat, j: nat)
    requires IsRun(configured, run) && i <= j < |run|
    ensures run[i].now <= run[j].now
    decreases j - i
  {
    hide Step, Initial;
    if i < j {
      ClockRises(configured, run, i, j - 1);
      assert Step(configured, run[j - 1], run[j - 1 + 1]);
      ClockStep(configured, run[j - 1], run[j]);
    }
  }

  lemma ClockStep(configured: Option<CompanyFile>, s: State, next: State)
    requires Step(configured, s, next)
    ensures s.now <= next.now
  {
    hide MayLink, Fresh;
  }

  /** Whoever is given a token is given the stored one: fresh as it was found, on
      the first look or after waiting, or stored by this very caller. */
  lemma ReturnedIsStored(configured: Option<CompanyFile>, run: seq<State>, i: nat, c: Caller)
    requires IsRun(configured, run) && i + 1 < |run|
    requires PhaseOf(run[i + 1], c).Returned? && PhaseOf(run[i], c) != PhaseOf(run[i + 1], c)
    ensures
      var s, next := run[i], run[i + 1];
      && next.row.Some? && next.row.value.pair == PhaseOf(next, c).pair && next.posts == s.posts
      && if HasPair(PhaseOf(s, c)) then PhaseOf(next, c).pair == PhaseOf(s, c).got && next.lock.None?
         else next.row == s.row && Fresh(next.row.value, next.now)
  {
    assert Step(configured, run[i], run[i + 1]);
    hide IsRun;
    ReturnStep(configured, run[i], run[i + 1], c);
  }

  lemma ReturnStep(configured: Option<CompanyFile>, s: State, next: State, c: Caller)
    requires Step(configured, s, next) && PhaseOf(next, c).Returned? && PhaseOf(s, c) != PhaseOf(next, c)
    ensures next.row.Some? && next.row.value.pair == PhaseOf(next, c).pair && next.posts == s.posts
    ensures if HasPair(PhaseOf(s, c)) then PhaseOf(next, c).pair == PhaseOf(s, c).got && next.lock.None?
            else next.row == s.row && Fresh(next.row.value, next.now)
  {
    hide Fresh, Can, Do, HasPair;
    var d: Caller, move: Move :| Can(configured, s, d, move) && next == Do(configured, s, d, move);
    OthersStand(configured, s, d, move, c);
    MoveReturns(configured, s, c, move);
  }

  lemma OthersStand(configured: Option<CompanyFile>, s: State, d: Caller, move: Move, c: Caller)
    requires Can(configured, s, d, move)
    ensures c != d ==> PhaseOf(Do(configured, s, d, move), c) == PhaseOf(s, c)
  {
    hide Fresh, MayLink;
  }

  lemma MoveReturns(configured: Option<CompanyFile>, s: State, c: Caller, move: Move)
    requires Can(configured, s, c, move) && PhaseOf(Do(configured, s, c, move), c).Returned?
    requires PhaseOf(s, c) != PhaseOf(Do(configured, s, c, move), c)
    ensures
      var next := Do(configured, s, c, move);
      && next.row.Some? && next.row.value.pair == PhaseOf(next, c).pair && next.posts == s.posts
      && if HasPair(PhaseOf(s, c)) then PhaseOf(next, c).pair == PhaseOf(s, c).got && next.lock.None?
         else next.row == s.row && Fresh(next.row.value, next.now)
  {
    hide MayLink;
  }

  /** A lost answer does strand the link: a run in which one caller is dropped
      after MYOB has answered it, leaving a stored token MYOB no longer takes. */
  lemma LostAnswerStrands() returns (run: seq<State>)
    ensures IsRun(None, run)
    ensures
      var s := run[|run| - 1];
      s.dropped && s.row.Some? && s.row.value.pair !in s.live && s.lock.None?
  {
    var s0 := State(0, Some(Row(0, 0, Some(7))), None, map[], 1, {0}, {}, [], 0, false, false);
    var s1 := Do(None, s0, 1, Read);
    var s2 := Do(None, s1, 1, TakeLock);
    var s3 := Do(None, s2, 1, ReadAgain);
    var s4 := Do(None, s3, 1, Post);
    var s5 := Do(None, s4, 1, Answer);
    var s6 := Do(None, s5, 1, Fail);
    run := [s0, s1, s2, s3, s4, s5, s6];
    forall i | 0 <= i < |run| - 1 ensures Step(None, run[i], run[i + 1]) {
      var move := [Read, TakeLock, ReadAgain, Post, Answer, Fail][i];
      assert Can(None, run[i], 1, move) && run[i + 1] == Do(None, run[i], 1, move);
    }
  }

  /** And so does a post whose caller gave up waiting, when MYOB uses it after all:
      the token the caller left stored is no longer taken. */
  lemma LatePostStrands() returns (run: seq<State>)
    ensures IsRun(None, run)
    ensures
      var s := run[|run| - 1];
      && s.dropped && s.row.Some? && s.row.value.pair !in s.live && s.lock.None?
      && forall i :: 0 <= i < |run| ==> !PhaseOf(run[i], 1).Answered?
  {
    var s0 := State(0, Some(Row(0, 0, Some(7))), None, map[], 1, {0}, {}, [], 0, false, false);
    var s1 := Do(None, s0, 1, Read);
    var s2 := Do(None, s1, 1, TakeLock);
    var s3 := Do(None, s2, 1, ReadAgain);
    var s4 := Do(None, s3, 1, Post);
    var s5 := Do(None, s4, 1, Fail);
    var s6 := LateAnswer(s5, 0);
    run := [s0, s1, s2, s3, s4, s5, s6];
    assert 0 in s5.late;
    forall i | 0 <= i < |run| - 1 ensures Step(None, run[i], run[i + 1]) {
      if i < 5 {
        var move := [Read, TakeLock, ReadAgain, Post, Fail][i];
        assert Can(None, run[i], 1, move) && run[i + 1] == Do(None, run[i], 1, move);
      }
    }
  }

  // ── One company file ─────────────────────────────────────────────────────

  /** What may become of the stored link: neither it nor its file is ever lost, and
      the file stays unless it moves to the configured one or is the first. */
  ghost predicate Followed(configured: Option<CompanyFile>, before: Option<Row>, after: Option<Row>) {
    && (before.Some? ==> after.Some?)
    && (before.Some? && before.value.file.Some? ==> after.value.file.Some?)
    && (after.Some? && after.value.file.Some? ==>
          || configured == after.value.file
          || (before.Some? && before.value.file == after.value.file)
          || (configured.None? && (before.Some? ==> before.value.file.None?)))
  }

  /** Between any two moments of a run: with no file configured, the link stays
      with the one first linked, whenever that was; with one configured, a link
      made or moved is to that one. */
  lemma {:induction false} FileKept(configured: Option<CompanyFile>, run: seq<State>, i: nat, j: nat)
    requires IsRun(configured, run) && i <= j < |run|
    ensures Followed(configured, run[i].row, run[j].row)
    decreases j - i
  {
    hide Invariant, Step, Initial, Followed;
    if i < j {
      FileKept(configured, run, i, j - 1);
      assert IsRun(configured, run[..j]);
      EveryRunKeeps(configured, run[..j]);
      assert Step(configured, run[j - 1], run[j - 1 + 1]);
      FileStep(configured, run[j - 1], run[j]);
      FollowedOn(configured, run[i].row, run[j - 1].row, run[j].row);
    } else {
      FollowedOn(configured, run[i].row, run[i].row, run[i].row);
    }
  }

  lemma FollowedOn(configured: Option<CompanyFile>, a: Option<Row>, b: Option<Row>, c: Option<Row>)
    ensures Followed(configured, a, a)
    ensures Followed(configured, a, b) && Followed(configured, b, c) ==> Followed(configured, a, c)
  {
  }

  lemma FileStep(configured: Option<CompanyFile>, s: State, next: State)
    requires Invariant(s) && Step(configured, s, next)
    ensures Followed(configured, s.row, next.row)
  {
    hide RowHolds, PostsHold, PairsApart;
    if c: Caller, move: Move :| Can(configured, s, c, move) && next == Do(configured, s, c, move) {
      assert CallerHolds(s, c);
      FileMove(configured, s, c, move);
    }
  }

  lemma FileMove(configured: Option<CompanyFile>, s: State, c: Caller, move: Move)
    requires Can(configured, s, c, move)
    requires PhaseOf(s, c).Answered? ==> s.row == Some(PhaseOf(s, c).row)
    ensures Followed(configured, s.row, Do(configured, s, c, move).row)
  {
    hide Fresh;
  }
}
