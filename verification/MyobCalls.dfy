/** Calls to MYOB: what a call must pass, the log row written before each send,
    the one retry, and the daily allowance of writes. */
module MyobCalls {
  import opened Wrappers
  import Sets

  datatype Verb = GET | POST | PUT

  type Path = string
  type Correlation = nat
  type CompanyFile = string

  datatype Operation =
    | FilesList | CompanyFileRead | PurchasesRead
    | QuotesCreate | OrdersCreate | BillsCreate | QuotesUpdate | OrdersUpdate

  /** What the allowlist makes of a call. */
  datatype Classified =
    | NotAllowed
    | OAuth
    | Endpoint(file: Option<CompanyFile>, operation: Operation, floorplanOnly: bool)

  /** The allowlist itself, by verb and path. */
  type Allowlist = (Verb, Path) -> Classified

  // ── The controls ─────────────────────────────────────────────────────────

  datatype Mode = Off | ReadOnly | ReadWrite

  datatype ControlRow = ControlRow(operation: Operation, enabled: bool, dryRun: bool, dailyCap: nat, pausedAll: bool)

  datatype Refusal =
    | NotOnAllowlist | TestRecord | NoRecord | OutsidePeriod | WritesDisabled | Controls | DryRun | CapReached
    | NotFloorplanRecord | BadCredentials

  predicate IsRead(operation: Operation) {
    operation.FilesList? || operation.CompanyFileRead? || operation.PurchasesRead?
  }

  /** Reads share one control row; each write has its own. */
  function ControlFor(operation: Operation): Operation { if IsRead(operation) then PurchasesRead else operation }

  function FindControl(controls: seq<ControlRow>, operation: Operation): Option<ControlRow> {
    if controls == [] then None
    else if controls[0].operation == operation then Some(controls[0])
    else FindControl(controls[1..], operation)
  }

  /** The file's mode and controls; a mode that can't be read is none. */
  datatype FileControls = FileControls(mode: Option<Mode>, rows: seq<ControlRow>)

  function ControlsRefuse(file: CompanyFile, settings: FileControls, operation: Operation, used: nat): Option<Refusal> {
    var control := FindControl(settings.rows, ControlFor(operation));
    if file == "" || settings.mode.None? || settings.mode.value.Off? then Some(Controls)
    else if settings.mode.value.ReadOnly? && !IsRead(operation) then Some(Controls)
    else if settings.rows == [] then Some(Controls)
    else if exists i :: 0 <= i < |settings.rows| && settings.rows[i].pausedAll then Some(Controls)
    else if control.None? || !control.value.enabled then Some(Controls)
    else if IsRead(operation) then None
    else if control.value.dryRun then Some(DryRun)
    else if used >= control.value.dailyCap then Some(CapReached)
    else None
  }

  // ── The guard ────────────────────────────────────────────────────────────

  /** What the guard looks up about one call. */
  datatype Checks = Checks(
    isTest: bool, missing: bool, named: bool, inPeriod: bool, writesEnabled: bool,
    configuredFile: CompanyFile, settings: CompanyFile -> FileControls, ours: bool)

  datatype Call = Call(verb: Verb, path: Path, correlation: Correlation, attempt: nat)

  function FileOf(classified: Classified, checks: Checks): CompanyFile
    requires classified.Endpoint?
  {
    if classified.file.Some? then classified.file.value else checks.configuredFile
  }

  function GuardRefuses(call: Call, classified: Classified, checks: Checks, used: nat): Option<Refusal> {
    match classified
    case NotAllowed => Some(NotOnAllowlist)
    case OAuth => None
    case Endpoint(file, operation, floorplanOnly) =>
      if checks.isTest then Some(TestRecord)
      else if checks.missing || (!call.verb.GET? && !checks.named) then Some(NoRecord)
      else if !checks.inPeriod then Some(OutsidePeriod)
      else if !call.verb.GET? && !checks.writesEnabled then Some(WritesDisabled)
      else
        var of := FileOf(classified, checks);
        match ControlsRefuse(of, checks.settings(of), operation, used)
        case Some(refusal) => Some(refusal)
        case None => if floorplanOnly && !(file.Some? && checks.ours) then Some(NotFloorplanRecord) else None
  }

  // ── The count behind the daily allowance ─────────────────────────────────

  /** A stored request row. */
  datatype Row = Row(day: int, verb: Verb, path: Path, correlation: Correlation, attempt: nat)

  datatype WriteKey = WriteKey(file: CompanyFile, operation: Operation)

  function KeyOf(allow: Allowlist, verb: Verb, path: Path): Option<WriteKey> {
    if verb.GET? then None
    else
      match allow(verb, path)
      case Endpoint(Some(file), operation, _) => if file == "" then None else Some(WriteKey(file, operation))
      case _ => None
  }

  /** The day's calls of one file and operation, each however many rows it has. */
  function CallsToday(allow: Allowlist, rows: seq<Row>, day: int, key: WriteKey): set<(Verb, Path, Correlation)> {
    set i | 0 <= i < |rows| && rows[i].day == day && KeyOf(allow, rows[i].verb, rows[i].path) == Some(key)
      :: (rows[i].verb, rows[i].path, rows[i].correlation)
  }

  function Used(allow: Allowlist, rows: seq<Row>, day: int, key: WriteKey): nat { |CallsToday(allow, rows, day, key)| }

  /** One group of the count's query: how many distinct calls a verb and path have. */
  datatype Group = Group(verb: Verb, path: Path, calls: nat)

  function CallsOf(rows: seq<Row>, day: int, verb: Verb, path: Path): set<(Verb, Path, Correlation)> {
    set i | 0 <= i < |rows| && rows[i].day == day && rows[i].verb == verb && rows[i].path == path
      :: (rows[i].verb, rows[i].path, rows[i].correlation)
  }

  /** The query's answer: the day's writes, one group a verb and path. */
  ghost predicate Grouped(rows: seq<Row>, day: int, groups: seq<Group>) {
    && (forall g :: 0 <= g < |groups| ==>
          !groups[g].verb.GET? && groups[g].calls == |CallsOf(rows, day, groups[g].verb, groups[g].path)|)
    && (forall g, h :: 0 <= g < h < |groups| ==> (groups[g].verb, groups[g].path) != (groups[h].verb, groups[h].path))
    && (forall i :: 0 <= i < |rows| && rows[i].day == day && !rows[i].verb.GET? ==>
          exists g :: 0 <= g < |groups| && groups[g].verb == rows[i].verb && groups[g].path == rows[i].path)
  }

  function Total(allow: Allowlist, groups: seq<Group>, key: WriteKey): nat {
    if groups == [] then 0
    else
      var last := groups[|groups| - 1];
      Total(allow, groups[..|groups| - 1], key)
      + if KeyOf(allow, last.verb, last.path) == Some(key) then last.calls else 0
  }

  method WritesToday(allow: Allowlist, groups: seq<Group>) returns (counts: map<WriteKey, nat>)
    ensures forall key :: (if key in counts then counts[key] else 0) == Total(allow, groups, key)
  {
    counts := map[];
    for i := 0 to |groups|
      invariant forall key :: (if key in counts then counts[key] else 0) == Total(allow, groups[..i], key)
    {
      assert groups[..i + 1][..|groups[..i + 1]| - 1] == groups[..i];
      var key := KeyOf(allow, groups[i].verb, groups[i].path);
      if key.Some? {
        counts := counts[key.value := (if key.value in counts then counts[key.value] else 0) + groups[i].calls];
      }
    }
    assert groups[..|groups|] == groups;
  }

  function CallsOfGroups(allow: Allowlist, rows: seq<Row>, day: int, groups: seq<Group>, key: WriteKey)
    : set<(Verb, Path, Correlation)>
  {
    if groups == [] then {}
    else
      var last := groups[|groups| - 1];
      CallsOfGroups(allow, rows, day, groups[..|groups| - 1], key)
      + if KeyOf(allow, last.verb, last.path) == Some(key) then CallsOf(rows, day, last.verb, last.path) else {}
  }

  lemma {:induction false} GroupsHold(allow: Allowlist, rows: seq<Row>, day: int, groups: seq<Group>, key: WriteKey,
                                      call: (Verb, Path, Correlation))
    ensures call in CallsOfGroups(allow, rows, day, groups, key)
       <==> exists g :: 0 <= g < |groups| && KeyOf(allow, groups[g].verb, groups[g].path) == Some(key)
                        && call in CallsOf(rows, day, groups[g].verb, groups[g].path)
  {
    hide KeyOf, CallsOf;
    if groups != [] {
      var n := |groups| - 1;
      GroupsHold(allow, rows, day, groups[..n], key, call);
      assert forall g :: 0 <= g < n ==> groups[..n][g] == groups[g];
    }
  }

  lemma {:induction false} GroupsAddUp(allow: Allowlist, rows: seq<Row>, day: int, groups: seq<Group>, key: WriteKey)
    requires forall g :: 0 <= g < |groups| ==> groups[g].calls == |CallsOf(rows, day, groups[g].verb, groups[g].path)|
    requires forall g, h ::
      0 <= g < h < |groups| ==> (groups[g].verb, groups[g].path) != (groups[h].verb, groups[h].path)
    ensures Total(allow, groups, key) == |CallsOfGroups(allow, rows, day, groups, key)|
  {
    if groups != [] {
      var n := |groups| - 1;
      GroupsAddUp(allow, rows, day, groups[..n], key);
      var before := CallsOfGroups(allow, rows, day, groups[..n], key);
      var own := CallsOf(rows, day, groups[n].verb, groups[n].path);
      forall call | call in before ensures call !in own {
        GroupsHold(allow, rows, day, groups[..n], key, call);
        var g :| 0 <= g < n && call in CallsOf(rows, day, groups[..n][g].verb, groups[..n][g].path);
        assert groups[..n][g] == groups[g];
      }
      hide CallsOf, KeyOf;
      assert before !! own;
      assert |before + own| == |before| + |own|;
    }
  }

  /** Adding up the query's groups counts each of the day's calls of a file and
      operation exactly once. */
  lemma GroupedCount(allow: Allowlist, rows: seq<Row>, day: int, groups: seq<Group>, key: WriteKey)
    requires Grouped(rows, day, groups)
    ensures Total(allow, groups, key) == Used(allow, rows, day, key)
  {
    GroupsAddUp(allow, rows, day, groups, key);
    forall call ensures call in CallsOfGroups(allow, rows, day, groups, key)
      <==> call in CallsToday(allow, rows, day, key) {
      GroupsHold(allow, rows, day, groups, key, call);
      if call in CallsToday(allow, rows, day, key) {
        var i :| 0 <= i < |rows| && rows[i].day == day && KeyOf(allow, rows[i].verb, rows[i].path) == Some(key)
          && (rows[i].verb, rows[i].path, rows[i].correlation) == call;
        var g :| 0 <= g < |groups| && groups[g].verb == rows[i].verb && groups[g].path == rows[i].path;
        assert call in CallsOf(rows, day, groups[g].verb, groups[g].path);
      }
    }
    assert CallsOfGroups(allow, rows, day, groups, key) == CallsToday(allow, rows, day, key);
  }

  // ── One call ─────────────────────────────────────────────────────────────

  const MAX_TRIES: nat := 2

  /** MYOB's answer to a send, or no answer (a timeout or a network failure). */
  datatype Answer = Status(status: int) | NoAnswer

  /** What happens to a call outside the code: whether its headers can be built,
      which request rows can be stored, and what MYOB answers. */
  datatype World = World(headersFail: bool, badCredentials: bool, stores: nat -> bool, answers: nat -> Answer)

  datatype Step =
    | HeadersBuilt
    | Stored(row: Row)
    | Sent(correlation: Correlation, attempt: nat)
    | Outcome(correlation: Correlation, attempt: nat)

  datatype Result = Refused(refusal: Refusal) | HeadersFailed | NotLogged | Lost | Answered(status: int)

  predicate ShouldRetry(verb: Verb, status: int) { status == 429 || (verb.GET? && status >= 500) }

  function RowOf(call: Call, day: int, tries: nat): Row
    requires tries >= 1
  {
    Row(day, call.verb, call.path, call.correlation, call.attempt + tries - 1)
  }

  /** The tries from the given one on. */
  function Tries(call: Call, day: int, world: World, tries: nat): (seq<Step>, Result)
    requires 1 <= tries <= MAX_TRIES
    decreases MAX_TRIES - tries
  {
    var row := RowOf(call, day, tries);
    if !world.stores(tries) then ([], NotLogged)
    else
      var steps := [Stored(row), Sent(call.correlation, row.attempt), Outcome(call.correlation, row.attempt)];
      match world.answers(tries)
      case NoAnswer => (steps, Lost)
      case Status(status) =>
        if tries < MAX_TRIES && ShouldRetry(call.verb, status) then
          var rest := Tries(call, day, world, tries + 1);
          (steps + rest.0, rest.1)
        else (steps, Answered(status))
  }

  function MyobRequest(call: Call, classified: Classified, checks: Checks, used: nat, day: int, world: World)
    : (seq<Step>, Result)
  {
    match GuardRefuses(call, classified, checks, used)
    case Some(refusal) => ([Outcome(call.correlation, call.attempt)], Refused(refusal))
    case None =>
      if world.headersFail then ([], HeadersFailed)
      else if world.badCredentials && !classified.OAuth?
        then ([HeadersBuilt, Outcome(call.correlation, call.attempt)], Refused(BadCredentials))
      else
        var tried := Tries(call, day, world, 1);
        ([HeadersBuilt] + tried.0, tried.1)
  }

  /** Everything that has been logged and sent. */
  class Client {
    var trace: seq<Step>

    constructor ()
      ensures trace == []
    {
      trace := [];
    }

    method Request(call: Call, classified: Classified, checks: Checks, used: nat, day: int, world: World)
        returns (result: Result)
      modifies this
      ensures trace == old(trace) + MyobRequest(call, classified, checks, used, day, world).0
      ensures result == MyobRequest(call, classified, checks, used, day, world).1
    {
      hide GuardRefuses;
      var refusal := GuardRefuses(call, classified, checks, used);
      if refusal.Some? {
        trace := trace + [Outcome(call.correlation, call.attempt)];
        return Refused(refusal.value);
      }
      if world.headersFail {
        return HeadersFailed;
      }
      if world.badCredentials && !classified.OAuth? {
        trace := trace + [HeadersBuilt, Outcome(call.correlation, call.attempt)];
        return Refused(BadCredentials);
      }
      trace := trace + [HeadersBuilt];
      ghost var all := Tries(call, day, world, 1);
      ghost var start := trace;
      var tries: nat := 1;
      while true
        invariant 1 <= tries <= MAX_TRIES
        invariant trace + Tries(call, day, world, tries).0 == start + all.0
        invariant Tries(call, day, world, tries).1 == all.1
        decreases MAX_TRIES - tries
      {
        var row := RowOf(call, day, tries);
        if !world.stores(tries) {
          assert trace + [] == trace;
          assert trace == old(trace) + ([HeadersBuilt] + all.0);
          return NotLogged;
        }
        ghost var before := trace;
        trace := trace + [Stored(row)];
        trace := trace + [Sent(call.correlation, row.attempt)];
        trace := trace + [Outcome(call.correlation, row.attempt)];
        ghost var steps := [Stored(row), Sent(call.correlation, row.attempt), Outcome(call.correlation, row.attempt)];
        assert trace == before + steps;
        assert start + all.0 == old(trace) + ([HeadersBuilt] + all.0);
        var answer := world.answers(tries);
        if answer.NoAnswer? {
          return Lost;
        }
        if tries < MAX_TRIES && ShouldRetry(call.verb, answer.status) {
          ghost var rest := Tries(call, day, world, tries + 1).0;
          assert before + (steps + rest) == trace + rest;
          tries := tries + 1;
        } else {
          return Answered(answer.status);
        }
      }
    }
  }

  // ── What every call keeps ────────────────────────────────────────────────

  function Sends(steps: seq<Step>): nat {
    if steps == [] then 0 else Sends(steps[..|steps| - 1]) + if steps[|steps| - 1].Sent? then 1 else 0
  }

  lemma TriesAre(call: Call, day: int, world: World)
    ensures
      var steps := Tries(call, day, world, 1).0;
      var one := [Stored(RowOf(call, day, 1)), Sent(call.correlation, call.attempt),
                  Outcome(call.correlation, call.attempt)];
      var two := [Stored(RowOf(call, day, 2)), Sent(call.correlation, call.attempt + 1),
                  Outcome(call.correlation, call.attempt + 1)];
      || (steps == [] && !world.stores(1))
      || (steps == one && world.stores(1))
      || (steps == one + two && world.stores(1) && world.stores(2)
          && world.answers(1).Status? && ShouldRetry(call.verb, world.answers(1).status))
  {
    assert Tries(call, day, world, 2).0 == [] || |Tries(call, day, world, 2).0| == 3;
  }

  /** Each send follows, at once, the stored row of the same call and attempt. */
  lemma SentAfterStored(call: Call, classified: Classified, checks: Checks, used: nat, day: int, world: World, i: nat)
    requires i < |MyobRequest(call, classified, checks, used, day, world).0|
    requires MyobRequest(call, classified, checks, used, day, world).0[i].Sent?
    ensures
      var steps := MyobRequest(call, classified, checks, used, day, world).0;
      && i > 0 && steps[i - 1].Stored?
      && steps[i - 1].row.correlation == steps[i].correlation == call.correlation
      && steps[i - 1].row.attempt == steps[i].attempt
      && (steps[i - 1].row.verb, steps[i - 1].row.path) == (call.verb, call.path)
  {
    hide GuardRefuses;
    TriesAre(call, day, world);
    hide Tries;
  }

  /** At most two sends, and a write goes out again only after a 429. */
  lemma AtMostTwoSends(call: Call, classified: Classified, checks: Checks, used: nat, day: int, world: World)
    ensures
      var n := Sends(MyobRequest(call, classified, checks, used, day, world).0);
      && n <= 2
      && (n == 2 ==> world.answers(1).Status? && ShouldRetry(call.verb, world.answers(1).status))
      && (n == 2 && !call.verb.GET? ==> world.answers(1) == Status(429))
  {
    hide GuardRefuses;
    TriesAre(call, day, world);
    var one := [Stored(RowOf(call, day, 1)), Sent(call.correlation, call.attempt),
                Outcome(call.correlation, call.attempt)];
    var two := [Stored(RowOf(call, day, 2)), Sent(call.correlation, call.attempt + 1),
                Outcome(call.correlation, call.attempt + 1)];
    hide Tries;
    OneSend(one[0], one[1], one[2]);
    OneSend(two[0], two[1], two[2]);
    SendsConcat([HeadersBuilt], one + two);
    SendsConcat([HeadersBuilt], one);
    SendsConcat(one, two);
    NoSend([HeadersBuilt, Outcome(call.correlation, call.attempt)]);
    NoSend([Outcome(call.correlation, call.attempt)]);
    NoSend([HeadersBuilt]);
    assert [HeadersBuilt] + [] == [HeadersBuilt];
  }

  lemma {:induction false} SendsConcat(a: seq<Step>, b: seq<Step>)
    ensures Sends(a + b) == Sends(a) + Sends(b)
  {
    if b == [] {
      assert a + b == a;
    } else {
      assert (a + b)[..|a + b| - 1] == a + b[..|b| - 1];
      SendsConcat(a, b[..|b| - 1]);
    }
  }

  lemma {:induction false} NoSend(steps: seq<Step>)
    requires forall i :: 0 <= i < |steps| ==> !steps[i].Sent?
    ensures Sends(steps) == 0
  {
    if steps != [] {
      NoSend(steps[..|steps| - 1]);
    }
  }

  lemma OneSend(a: Step, b: Step, c: Step)
    requires !a.Sent? && b.Sent? && !c.Sent?
    ensures Sends([a, b, c]) == 1
  {
    NoSend([a]);
    assert [a, b, c][..2] == [a, b] && [a, b][..1] == [a];
  }

  /** A refused call sends nothing and stores no request row; refused by the
      guard, it builds no headers either. */
  lemma RefusedSendsNothing(call: Call, classified: Classified, checks: Checks, used: nat, day: int, world: World)
    requires MyobRequest(call, classified, checks, used, day, world).1.Refused?
    ensures
      var steps := MyobRequest(call, classified, checks, used, day, world).0;
      && (forall i :: 0 <= i < |steps| ==> !steps[i].Sent? && !steps[i].Stored?)
      && (GuardRefuses(call, classified, checks, used).Some? ==> HeadersBuilt !in steps)
  {
    hide GuardRefuses;
    TriesRefuseNothing(call, day, world, 1);
  }

  lemma TriesRefuseNothing(call: Call, day: int, world: World, tries: nat)
    requires 1 <= tries <= MAX_TRIES
    ensures !Tries(call, day, world, tries).1.Refused?
    decreases MAX_TRIES - tries
  {
    if tries < MAX_TRIES {
      TriesRefuseNothing(call, day, world, tries + 1);
    }
  }

  // ── The allowance over a day ─────────────────────────────────────────────

  /** The request rows a call adds to the log. */
  function RowsOf(steps: seq<Step>): seq<Row> {
    if steps == [] then []
    else RowsOf(steps[..|steps| - 1]) + if steps[|steps| - 1].Stored? then [steps[|steps| - 1].row] else []
  }

  lemma {:induction false} RowsOfAre(steps: seq<Step>, i: nat)
    requires i < |RowsOf(steps)|
    ensures exists k :: 0 <= k < |steps| && steps[k] == Stored(RowsOf(steps)[i])
  {
    var n := |steps| - 1;
    if i < |RowsOf(steps[..n])| {
      RowsOfAre(steps[..n], i);
      var k :| 0 <= k < n && steps[..n][k] == Stored(RowsOf(steps[..n])[i]);
      assert steps[k] == steps[..n][k];
    } else {
      assert steps[n] == Stored(RowsOf(steps)[i]);
    }
  }

  /** One call, made when the one before it is over. */
  datatype Made = Made(call: Call, checks: Checks, world: World)

  /** The count a write is checked against: its own file and operation. */
  function UsedFor(allow: Allowlist, rows: seq<Row>, day: int, made: Made): nat {
    var classified := allow(made.call.verb, made.call.path);
    if classified.Endpoint?
    then Used(allow, rows, day, WriteKey(FileOf(classified, made.checks), classified.operation))
    else 0
  }

  function Logged(allow: Allowlist, rows: seq<Row>, day: int, made: Made): seq<Row> {
    rows + RowsOf(MyobRequest(made.call, allow(made.call.verb, made.call.path), made.checks,
                              UsedFor(allow, rows, day, made), day, made.world).0)
  }

  function LoggedAll(allow: Allowlist, rows: seq<Row>, day: int, calls: seq<Made>): seq<Row> {
    if calls == [] then rows
    else Logged(allow, LoggedAll(allow, rows, day, calls[..|calls| - 1]), day, calls[|calls| - 1])
  }

  /** Writes go by POST and PUT, reads by GET. */
  ghost predicate Verbs(allow: Allowlist) {
    forall verb, path :: allow(verb, path).Endpoint? ==> (verb.GET? <==> IsRead(allow(verb, path).operation))
  }

  /** The allowance set for a write is `cap` whenever the call is checked. */
  predicate CapIs(made: Made, key: WriteKey, cap: nat) {
    var control := FindControl(made.checks.settings(key.file).rows, key.operation);
    control.Some? ==> control.value.dailyCap == cap
  }

  lemma CallRows(call: Call, classified: Classified, checks: Checks, used: nat, day: int, world: World, i: nat)
    requires i < |RowsOf(MyobRequest(call, classified, checks, used, day, world).0)|
    ensures
      var row := RowsOf(MyobRequest(call, classified, checks, used, day, world).0)[i];
      && row.day == day && row.verb == call.verb && row.path == call.path && row.correlation == call.correlation
      && GuardRefuses(call, classified, checks, used).None?
  {
    hide GuardRefuses;
    var steps := MyobRequest(call, classified, checks, used, day, world).0;
    RowsOfAre(steps, i);
    TriesAre(call, day, world);
    hide Tries, RowsOf;
  }

  /** A call adds at most itself to the day's calls of a file and operation, and
      only while the allowance lasts. */
  lemma CallWithinCap(allow: Allowlist, rows: seq<Row>, day: int, made: Made, key: WriteKey, cap: nat)
    requires Verbs(allow) && CapIs(made, key, cap) && Used(allow, rows, day, key) <= cap
    ensures Used(allow, Logged(allow, rows, day, made), day, key) <= cap
  {
    var call, classified := made.call, allow(made.call.verb, made.call.path);
    var used := UsedFor(allow, rows, day, made);
    var added := RowsOf(MyobRequest(call, classified, made.checks, used, day, made.world).0);
    var before, after := CallsToday(allow, rows, day, key), CallsToday(allow, rows + added, day, key);
    forall i | 0 <= i < |added|
      ensures added[i].day == day
        && (added[i].verb, added[i].path, added[i].correlation) == (call.verb, call.path, call.correlation)
      ensures GuardRefuses(call, classified, made.checks, used).None?
    {
      CallRows(call, classified, made.checks, used, day, made.world, i);
    }
    hide MyobRequest, RowsOf, KeyOf;
    var this_ := (call.verb, call.path, call.correlation);
    forall c | c in after ensures c in before + {this_} {
      var i :| 0 <= i < |rows + added| && (rows + added)[i].day == day
        && KeyOf(allow, (rows + added)[i].verb, (rows + added)[i].path) == Some(key)
        && ((rows + added)[i].verb, (rows + added)[i].path, (rows + added)[i].correlation) == c;
      if i < |rows| {
        assert (rows + added)[i] == rows[i];
      } else {
        assert (rows + added)[i] == added[i - |rows|];
      }
    }
    Sets.SubsetSize(after, before + {this_});
    if added == [] {
      assert rows + added == rows;
    } else if KeyOf(allow, call.verb, call.path) == Some(key) {
      CallRows(call, classified, made.checks, used, day, made.world, 0);
      AllowedBelowCap(allow, rows, day, made, key, cap);
    } else {
      assert after <= before by {
        forall c | c in after ensures c in before {
          var i :| 0 <= i < |rows + added| && (rows + added)[i].day == day
            && KeyOf(allow, (rows + added)[i].verb, (rows + added)[i].path) == Some(key)
            && ((rows + added)[i].verb, (rows + added)[i].path, (rows + added)[i].correlation) == c;
          assert i < |rows| && (rows + added)[i] == rows[i];
        }
      }
      Sets.SubsetSize(after, before);
    }
  }

  lemma AllowedBelowCap(allow: Allowlist, rows: seq<Row>, day: int, made: Made, key: WriteKey, cap: nat)
    requires Verbs(allow) && CapIs(made, key, cap) && KeyOf(allow, made.call.verb, made.call.path) == Some(key)
    requires GuardRefuses(made.call, allow(made.call.verb, made.call.path), made.checks,
                          UsedFor(allow, rows, day, made)).None?
    ensures Used(allow, rows, day, key) < cap
  {
    hide CallsToday;
    var classified := allow(made.call.verb, made.call.path);
    assert classified.Endpoint? && FileOf(classified, made.checks) == key.file && classified.operation == key.operation;
    assert !IsRead(key.operation) && ControlFor(key.operation) == key.operation;
  }

  /** Over any sequential run of calls in one day, whatever the calls, refusals
      and retries, the writes logged for a file and operation never exceed its
      allowance. */
  lemma {:induction false} DayWithinCap(allow: Allowlist, rows: seq<Row>, day: int, calls: seq<Made>, key: WriteKey,
                                        cap: nat)
    requires Verbs(allow) && Used(allow, rows, day, key) <= cap
    requires forall i :: 0 <= i < |calls| ==> CapIs(calls[i], key, cap)
    ensures Used(allow, LoggedAll(allow, rows, day, calls), day, key) <= cap
  {
    hide Verbs, CapIs, Used, Logged;
    if calls != [] {
      var n := |calls| - 1;
      DayWithinCap(allow, rows, day, calls[..n], key, cap);
      CallWithinCap(allow, LoggedAll(allow, rows, day, calls[..n]), day, calls[n], key, cap);
    }
  }

  /** The allowance counts calls, not sends: a call that repeats a verb, path and
      correlation id already logged that day is not counted again, so it can go
      out for as long as the allowance is not yet reached. */
  lemma RepeatIsFree(allow: Allowlist, rows: seq<Row>, day: int, made: Made, key: WriteKey)
    requires (made.call.verb, made.call.path, made.call.correlation) in CallsToday(allow, rows, day, key)
    ensures Used(allow, Logged(allow, rows, day, made), day, key) == Used(allow, rows, day, key)
  {
    var call, classified := made.call, allow(made.call.verb, made.call.path);
    var used := UsedFor(allow, rows, day, made);
    var added := RowsOf(MyobRequest(call, classified, made.checks, used, day, made.world).0);
    forall i | 0 <= i < |added|
      ensures (added[i].verb, added[i].path, added[i].correlation) == (call.verb, call.path, call.correlation)
    {
      CallRows(call, classified, made.checks, used, day, made.world, i);
    }
    hide MyobRequest, RowsOf, KeyOf;
    var before, after := CallsToday(allow, rows, day, key), CallsToday(allow, rows + added, day, key);
    forall c | c in after ensures c in before {
      var i :| 0 <= i < |rows + added| && (rows + added)[i].day == day
        && KeyOf(allow, (rows + added)[i].verb, (rows + added)[i].path) == Some(key)
        && ((rows + added)[i].verb, (rows + added)[i].path, (rows + added)[i].correlation) == c;
      if i < |rows| {
        assert (rows + added)[i] == rows[i];
      } else {
        assert (rows + added)[i] == added[i - |rows|];
      }
    }
    forall c | c in before ensures c in after {
      var i :| 0 <= i < |rows| && rows[i].day == day && KeyOf(allow, rows[i].verb, rows[i].path) == Some(key)
        && (rows[i].verb, rows[i].path, rows[i].correlation) == c;
      assert (rows + added)[i] == rows[i];
    }
    assert after == before;
  }

  // ── Calls counted, and requests sent ─────────────────────────────────────

  /** The day's request rows of a file and operation, by their place in the log. */
  function RequestsToday(allow: Allowlist, rows: seq<Row>, day: int, key: WriteKey): set<int> {
    set i | 0 <= i < |rows| && rows[i].day == day && KeyOf(allow, rows[i].verb, rows[i].path) == Some(key)
  }

  function CallOf(row: Row): (Verb, Path, Correlation) { (row.verb, row.path, row.correlation) }

  /** No two of them are of one call: no id reused, and nothing sent again. */
  ghost predicate OnceEach(allow: Allowlist, rows: seq<Row>, day: int, key: WriteKey) {
    var requests := RequestsToday(allow, rows, day, key);
    forall i, j :: i in requests && j in requests && CallOf(rows[i]) == CallOf(rows[j]) ==> i == j
  }

  lemma RequestsAreCalls(allow: Allowlist, rows: seq<Row>, day: int, key: WriteKey)
    ensures Used(allow, rows, day, key) <= |RequestsToday(allow, rows, day, key)|
    ensures Used(allow, rows, day, key) == |RequestsToday(allow, rows, day, key)| <==> OnceEach(allow, rows, day, key)
  {
    var requests, calls := RequestsToday(allow, rows, day, key), CallsToday(allow, rows, day, key);
    var call := (i: int) => if 0 <= i < |rows| then CallOf(rows[i]) else (GET, "", 0);
    assert calls == Sets.Image(requests, call) by {
      forall c | c in calls ensures c in Sets.Image(requests, call) {
        var i :| 0 <= i < |rows| && rows[i].day == day && KeyOf(allow, rows[i].verb, rows[i].path) == Some(key)
          && (rows[i].verb, rows[i].path, rows[i].correlation) == c;
        assert i in requests && call(i) == c;
      }
    }
    Sets.ImageSize(requests, call);
    assert forall i :: i in requests ==> call(i) == CallOf(rows[i]);
  }

  /** What a run of calls sends for a file and operation. */
  function SentAll(allow: Allowlist, rows: seq<Row>, day: int, calls: seq<Made>, key: WriteKey): nat {
    if calls == [] then 0
    else
      var n := |calls| - 1;
      SentAll(allow, rows, day, calls[..n], key)
      + if KeyOf(allow, calls[n].call.verb, calls[n].call.path) == Some(key)
        then Sends(StepsOf(allow, LoggedAll(allow, rows, day, calls[..n]), day, calls[n])) else 0
  }

  function StepsOf(allow: Allowlist, rows: seq<Row>, day: int, made: Made): seq<Step> {
    MyobRequest(made.call, allow(made.call.verb, made.call.path), made.checks,
                UsedFor(allow, rows, day, made), day, made.world).0
  }

  /** A call sends once for each request row it stores. */
  lemma SendsAreRows(call: Call, classified: Classified, checks: Checks, used: nat, day: int, world: World)
    ensures
      var steps := MyobRequest(call, classified, checks, used, day, world).0;
      Sends(steps) == |RowsOf(steps)|
  {
    hide GuardRefuses, Sends, RowsOf, Tries;
    var outcome := Outcome(call.correlation, call.attempt);
    TriesBalanced(call, day, world, 1);
    Neither([outcome]);
    Neither([HeadersBuilt, outcome]);
    Neither([HeadersBuilt]);
    Neither([]);
    BothConcat([HeadersBuilt], Tries(call, day, world, 1).0);
  }

  lemma {:induction false} TriesBalanced(call: Call, day: int, world: World, tries: nat)
    requires 1 <= tries <= MAX_TRIES
    ensures Sends(Tries(call, day, world, tries).0) == |RowsOf(Tries(call, day, world, tries).0)|
    decreases MAX_TRIES - tries
  {
    hide Sends, RowsOf;
    Neither([]);
    var row := RowOf(call, day, tries);
    var steps := [Stored(row), Sent(call.correlation, row.attempt), Outcome(call.correlation, row.attempt)];
    BalancedTry(steps[0], steps[1], steps[2]);
    if tries < MAX_TRIES {
      TriesBalanced(call, day, world, tries + 1);
      BothConcat(steps, Tries(call, day, world, tries + 1).0);
    }
  }

  lemma {:induction false} Neither(steps: seq<Step>)
    requires forall step <- steps :: !step.Sent? && !step.Stored?
    ensures Sends(steps) == |RowsOf(steps)| == 0
  {
    if steps != [] {
      Neither(steps[..|steps| - 1]);
    }
  }

  lemma BalancedTry(a: Step, b: Step, c: Step)
    requires a.Stored? && b.Sent? && !c.Sent? && !c.Stored?
    ensures Sends([a, b, c]) == |RowsOf([a, b, c])| == 1
  {
    OneSend(a, b, c);
    assert [a, b, c][..2] == [a, b] && [a, b][..1] == [a] && [a][..0] == [];
    assert RowsOf([a]) == RowsOf([]) + [a.row];
    assert RowsOf([a, b]) == RowsOf([a]) + [];
  }

  lemma BothConcat(a: seq<Step>, b: seq<Step>)
    ensures Sends(a + b) == Sends(a) + Sends(b)
    ensures RowsOf(a + b) == RowsOf(a) + RowsOf(b)
  {
    SendsConcat(a, b);
    RowsConcat(a, b);
  }

  lemma {:induction false} RowsConcat(a: seq<Step>, b: seq<Step>)
    ensures RowsOf(a + b) == RowsOf(a) + RowsOf(b)
  {
    if b == [] {
      assert a + b == a;
    } else {
      assert (a + b)[..|a + b| - 1] == a + b[..|b| - 1];
      RowsConcat(a, b[..|b| - 1]);
    }
  }

  lemma RequestsSnoc(allow: Allowlist, rows: seq<Row>, row: Row, day: int, key: WriteKey)
    ensures
      var own := row.day == day && KeyOf(allow, row.verb, row.path) == Some(key);
      |RequestsToday(allow, rows + [row], day, key)| == |RequestsToday(allow, rows, day, key)| + if own then 1 else 0
  {
    hide KeyOf;
    var was, now_ := RequestsToday(allow, rows, day, key), RequestsToday(allow, rows + [row], day, key);
    assert forall i :: 0 <= i < |rows| ==> (rows + [row])[i] == rows[i];
    assert (rows + [row])[|rows|] == row;
    if row.day == day && KeyOf(allow, row.verb, row.path) == Some(key) {
      assert now_ == was + {|rows|};
    } else {
      assert now_ == was;
    }
  }

  lemma {:induction false} RequestsGrow(allow: Allowlist, rows: seq<Row>, added: seq<Row>, day: int, key: WriteKey,
                                        own: bool)
    requires forall row <- added :: row.day == day && (KeyOf(allow, row.verb, row.path) == Some(key) <==> own)
    ensures |RequestsToday(allow, rows + added, day, key)|
         == |RequestsToday(allow, rows, day, key)| + if own then |added| else 0
    decreases |added|
  {
    hide KeyOf, RequestsToday;
    if added == [] {
      assert rows + added == rows;
    } else {
      var n := |added| - 1;
      RequestsGrow(allow, rows, added[..n], day, key, own);
      assert rows + added == (rows + added[..n]) + [added[n]];
      assert added[n] in added;
      RequestsSnoc(allow, rows + added[..n], added[n], day, key);
    }
  }

  lemma {:induction false} SentAreRequests(allow: Allowlist, rows: seq<Row>, day: int, calls: seq<Made>, key: WriteKey)
    ensures |RequestsToday(allow, LoggedAll(allow, rows, day, calls), day, key)|
         == |RequestsToday(allow, rows, day, key)| + SentAll(allow, rows, day, calls, key)
  {
    if calls != [] {
      var n := |calls| - 1;
      var before, made := LoggedAll(allow, rows, day, calls[..n]), calls[n];
      var used := UsedFor(allow, before, day, made);
      var classified := allow(made.call.verb, made.call.path);
      var added := RowsOf(StepsOf(allow, before, day, made));
      SentAreRequests(allow, rows, day, calls[..n], key);
      SendsAreRows(made.call, classified, made.checks, used, day, made.world);
      forall row | row in added
        ensures row.day == day && row.verb == made.call.verb && row.path == made.call.path
      {
        var i :| 0 <= i < |added| && added[i] == row;
        CallRows(made.call, classified, made.checks, used, day, made.world, i);
      }
      hide MyobRequest, UsedFor, KeyOf, RowsOf, Sends, RequestsToday;
      RequestsGrow(allow, before, added, day, key, KeyOf(allow, made.call.verb, made.call.path) == Some(key));
    }
  }

  /** Exactly when the allowance counts what was sent: when no two of the day's
      requests are of one call. Then the writes sent keep within it as well. */
  lemma SendsWithinCap(allow: Allowlist, rows: seq<Row>, day: int, calls: seq<Made>, key: WriteKey, cap: nat)
    requires Verbs(allow) && Used(allow, rows, day, key) <= cap
    requires forall i :: 0 <= i < |calls| ==> CapIs(calls[i], key, cap)
    ensures
      var after := LoggedAll(allow, rows, day, calls);
      var sent := |RequestsToday(allow, rows, day, key)| + SentAll(allow, rows, day, calls, key);
      && Used(allow, after, day, key) <= sent
      && (Used(allow, after, day, key) == sent <==> OnceEach(allow, after, day, key))
      && (OnceEach(allow, after, day, key) ==> sent <= cap)
  {
    hide Verbs, CapIs, Used, LoggedAll, RequestsToday, SentAll, OnceEach;
    DayWithinCap(allow, rows, day, calls, key, cap);
    SentAreRequests(allow, rows, day, calls, key);
    RequestsAreCalls(allow, LoggedAll(allow, rows, day, calls), day, key);
  }

  /** One write, allowed `2` a day, made again and again with its own id. */
  const AGAIN := Made(
    Call(POST, "/orders", 0, 1),
    Checks(false, false, true, true, true, "file",
           _ => FileControls(Some(ReadWrite), [ControlRow(OrdersCreate, true, false, 2, false)]), true),
    World(false, false, _ => true, _ => Status(201)))

  function OrdersOnly(verb: Verb, path: Path): Classified {
    if verb.POST? && path == "/orders" then Endpoint(Some("file"), OrdersCreate, false) else NotAllowed
  }

  const ORDERS := WriteKey("file", OrdersCreate)

  /** Otherwise they need not: with an allowance of two, a write that reuses its
      id is sent as often as it is made. */
  lemma {:induction false} ReusedIdPassesCap(n: nat)
    ensures Verbs(OrdersOnly) && CapIs(AGAIN, ORDERS, 2)
    ensures LoggedAll(OrdersOnly, [], 0, Times(n, AGAIN)) == Times(n, RowOf(AGAIN.call, 0, 1))
    ensures Used(OrdersOnly, LoggedAll(OrdersOnly, [], 0, Times(n, AGAIN)), 0, ORDERS) <= 1
    ensures SentAll(OrdersOnly, [], 0, Times(n, AGAIN), ORDERS) == n
  {
    var row := RowOf(AGAIN.call, 0, 1);
    OneCallLogged(n);
    if n > 0 {
      var rows := Times(n - 1, row);
      ReusedIdPassesCap(n - 1);
      TimesSnoc(n, AGAIN);
      TimesSnoc(n, row);
      OneCallLogged(n - 1);
      AgainSteps(rows);
      hide MyobRequest, KeyOf, Used, CapIs, Verbs, RowsOf, Sends, Times;
      var calls := Times(n, AGAIN);
      assert LoggedAll(OrdersOnly, [], 0, calls) == Logged(OrdersOnly, rows, 0, AGAIN) == rows + [row];
      assert SentAll(OrdersOnly, [], 0, calls, ORDERS) == n - 1 + 1;
    }
  }

  function Times<T>(n: nat, item: T): seq<T> { seq(n, _ => item) }

  lemma TimesSnoc<T>(n: nat, item: T)
    requires n > 0
    ensures Times(n, item)[..n - 1] == Times(n - 1, item) && Times(n, item) == Times(n - 1, item) + [item]
    ensures Times(n, item)[n - 1] == item
  {
  }

  lemma OneCallLogged(n: nat)
    ensures Used(OrdersOnly, Times(n, RowOf(AGAIN.call, 0, 1)), 0, ORDERS) <= 1
  {
    var row := RowOf(AGAIN.call, 0, 1);
    Sets.SubsetSize(CallsToday(OrdersOnly, Times(n, row), 0, ORDERS), {CallOf(row)});
  }

  lemma AgainSteps(rows: seq<Row>)
    requires Used(OrdersOnly, rows, 0, ORDERS) <= 1
    ensures KeyOf(OrdersOnly, AGAIN.call.verb, AGAIN.call.path) == Some(ORDERS)
    ensures Sends(StepsOf(OrdersOnly, rows, 0, AGAIN)) == 1
    ensures RowsOf(StepsOf(OrdersOnly, rows, 0, AGAIN)) == [RowOf(AGAIN.call, 0, 1)]
  {
    hide Used, Sends, RowsOf;
    var used := UsedFor(OrdersOnly, rows, 0, AGAIN);
    assert used == Used(OrdersOnly, rows, 0, ORDERS);
    var one := [Stored(RowOf(AGAIN.call, 0, 1)), Sent(0, 1), Outcome(0, 1)];
    AgainAllowed(used);
    assert Tries(AGAIN.call, 0, AGAIN.world, 1).0 == one;
    assert StepsOf(OrdersOnly, rows, 0, AGAIN) == [HeadersBuilt] + one;
    hide MyobRequest, Tries;
    BothConcat([HeadersBuilt], one);
    Neither([HeadersBuilt]);
    BalancedTry(one[0], one[1], one[2]);
    FirstRow(one[0], one[1], one[2]);
  }

  lemma FirstRow(a: Step, b: Step, c: Step)
    requires a.Stored? && !b.Stored? && !c.Stored?
    ensures RowsOf([a, b, c]) == [a.row]
  {
    RowsConcat([a], [b, c]);
    RowsConcat([b], [c]);
    assert [a] + [b, c] == [a, b, c] && [b] + [c] == [b, c];
    assert forall step :: RowsOf([step]) == RowsOf([]) + if step.Stored? then [step.row] else [] by {
      assert forall step: Step :: [step][..0] == [];
    }
  }

  lemma AgainAllowed(used: nat)
    requires used <= 1
    ensures GuardRefuses(AGAIN.call, OrdersOnly(POST, "/orders"), AGAIN.checks, used).None?
  {
    var settings := AGAIN.checks.settings("file");
    assert settings.rows == [ControlRow(OrdersCreate, true, false, 2, false)];
    assert FindControl(settings.rows, OrdersCreate) == Some(settings.rows[0]);
  }
}
