/** Which calls to MYOB go out, what each leaves in the log and how it ends,
    written out over the call, the controls and what the world answers. */
module MyobRules {
  import opened Wrappers
  import opened MyobCalls

  predicate Reads(operation: Operation) { operation in {FilesList, CompanyFileRead, PurchasesRead} }

  // ── The guard ────────────────────────────────────────────────────────────

  /** The row that controls the operation: the first of that name, reads going by
      the row for reading purchases. */
  ghost predicate Governs(row: ControlRow, rows: seq<ControlRow>, operation: Operation) {
    var name := if Reads(operation) then PurchasesRead else operation;
    exists i :: 0 <= i < |rows| && rows[i] == row && FirstNamed(rows, i, name)
  }

  predicate FirstNamed(rows: seq<ControlRow>, i: int, name: Operation)
    requires 0 <= i < |rows|
  {
    rows[i].operation == name && forall k :: 0 <= k < i ==> rows[k].operation != name
  }

  /** The file's mode lets the operation through, nothing is paused and its own
      row is switched on. */
  ghost predicate SwitchedOn(file: CompanyFile, settings: FileControls, operation: Operation, row: ControlRow) {
    && file != ""
    && (settings.mode == Some(ReadWrite) || (settings.mode == Some(ReadOnly) && Reads(operation)))
    && (forall other :: other in settings.rows ==> !other.pausedAll)
    && Governs(row, settings.rows, operation) && row.enabled
  }

  ghost predicate FileAllows(file: CompanyFile, settings: FileControls, operation: Operation, used: nat) {
    exists row :: SwitchedOn(file, settings, operation, row)
      && (Reads(operation) || (!row.dryRun && used < row.dailyCap))
  }

  /** The record behind the call and the period it falls in are in order. */
  predicate InOrder(verb: Verb, checks: Checks) {
    && !checks.isTest && !checks.missing && checks.inPeriod
    && (verb == GET || (checks.named && checks.writesEnabled))
  }

  function Target(file: Option<CompanyFile>, checks: Checks): CompanyFile {
    match file
    case Some(named) => named
    case None => checks.configuredFile
  }

  /** When the guard lets a call through: token calls always, others by the
      record, the file's controls and the allowance left. */
  ghost predicate LetThrough(call: Call, classified: Classified, checks: Checks, used: nat) {
    match classified
    case NotAllowed => false
    case OAuth => true
    case Endpoint(file, operation, floorplanOnly) =>
      && InOrder(call.verb, checks)
      && FileAllows(Target(file, checks), checks.settings(Target(file, checks)), operation, used)
      && (floorplanOnly ==> file != None && checks.ours)
  }

  lemma {:induction false} FoundNamed(rows: seq<ControlRow>, name: Operation)
    ensures
      match FindControl(rows, name)
      case Some(row) => exists i :: 0 <= i < |rows| && rows[i] == row && FirstNamed(rows, i, name)
      case None => forall i :: 0 <= i < |rows| ==> rows[i].operation != name
  {
    if rows != [] {
      if rows[0].operation == name {
        assert FirstNamed(rows, 0, name);
      } else {
        FoundNamed(rows[1..], name);
        if FindControl(rows, name).Some? {
          var i :| 0 <= i < |rows[1..]| && rows[1..][i] == FindControl(rows, name).value
            && FirstNamed(rows[1..], i, name);
          assert rows[i + 1] == rows[1..][i];
          assert forall k :: 1 <= k < i + 1 ==> rows[k] == rows[1..][k - 1];
          assert FirstNamed(rows, i + 1, name);
        } else {
          assert forall k :: 1 <= k < |rows| ==> rows[k] == rows[1..][k - 1];
        }
      }
    }
  }

  lemma OneFirst(rows: seq<ControlRow>, name: Operation, i: int, j: int)
    requires 0 <= i < |rows| && 0 <= j < |rows| && FirstNamed(rows, i, name) && FirstNamed(rows, j, name)
    ensures i == j
  {
  }

  lemma ControlIs(rows: seq<ControlRow>, operation: Operation, row: ControlRow)
    ensures FindControl(rows, ControlFor(operation)) == Some(row) <==> Governs(row, rows, operation)
  {
    var name := ControlFor(operation);
    FoundNamed(rows, name);
    hide FindControl, FirstNamed;
    if Governs(row, rows, operation) {
      var i :| 0 <= i < |rows| && rows[i] == row && FirstNamed(rows, i, name);
      assert rows[i].operation == name by {
        FirstHasName(rows, i, name);
      }
      var j :| 0 <= j < |rows| && Some(rows[j]) == FindControl(rows, name) && FirstNamed(rows, j, name);
      OneFirst(rows, name, i, j);
    }
  }

  lemma FirstHasName(rows: seq<ControlRow>, i: int, name: Operation)
    requires 0 <= i < |rows| && FirstNamed(rows, i, name)
    ensures rows[i].operation == name
  {
  }

  lemma NonePaused(rows: seq<ControlRow>)
    ensures (exists i :: 0 <= i < |rows| && rows[i].pausedAll) <==> !(forall row :: row in rows ==> !row.pausedAll)
  {
    if i :| 0 <= i < |rows| && rows[i].pausedAll {
      assert rows[i] in rows;
    }
  }

  lemma FileRule(file: CompanyFile, settings: FileControls, operation: Operation, used: nat)
    ensures ControlsRefuse(file, settings, operation, used).None? <==> FileAllows(file, settings, operation, used)
    ensures ControlsRefuse(file, settings, operation, used) == Some(DryRun) <==>
      !Reads(operation) && exists row :: SwitchedOn(file, settings, operation, row) && row.dryRun
    ensures ControlsRefuse(file, settings, operation, used) == Some(CapReached) <==>
      !Reads(operation)
      && exists row :: SwitchedOn(file, settings, operation, row) && !row.dryRun && used >= row.dailyCap
    ensures ControlsRefuse(file, settings, operation, used) == Some(Controls) <==>
      forall row :: !SwitchedOn(file, settings, operation, row)
  {
    NonePaused(settings.rows);
    forall row ensures FindControl(settings.rows, ControlFor(operation)) == Some(row)
      <==> Governs(row, settings.rows, operation) {
      ControlIs(settings.rows, operation, row);
    }
    assert settings.rows == [] ==> FindControl(settings.rows, ControlFor(operation)).None?;
    hide FindControl, Governs, ControlFor;
  }

  /** A call passes the guard exactly when it is let through. */
  lemma GuardRule(call: Call, classified: Classified, checks: Checks, used: nat)
    ensures GuardRefuses(call, classified, checks, used).None? <==> LetThrough(call, classified, checks, used)
  {
    if classified.Endpoint? {
      var file := Target(classified.file, checks);
      FileRule(file, checks.settings(file), classified.operation, used);
      hide ControlsRefuse, FileAllows;
    }
  }

  /** Otherwise the reason is the first thing wrong, in this order: off the
      allowlist, a test record, no record, outside the period, writes switched
      off, the controls, dry run or the allowance, a record that is not ours. */
  lemma RefusalRule(call: Call, classified: Classified, checks: Checks, used: nat)
    requires classified.Endpoint? && !LetThrough(call, classified, checks, used)
    ensures
      var reason := GuardRefuses(call, classified, checks, used);
      var write, file := call.verb != GET, Target(classified.file, checks);
      var settings, operation := checks.settings(file), classified.operation;
      if checks.isTest then reason == Some(TestRecord)
      else if checks.missing || (write && !checks.named) then reason == Some(NoRecord)
      else if !checks.inPeriod then reason == Some(OutsidePeriod)
      else if write && !checks.writesEnabled then reason == Some(WritesDisabled)
      else if forall row :: !SwitchedOn(file, settings, operation, row) then reason == Some(Controls)
      else if FileAllows(file, settings, operation, used) then reason == Some(NotFloorplanRecord)
      else if exists row :: SwitchedOn(file, settings, operation, row) && row.dryRun then reason == Some(DryRun)
      else reason == Some(CapReached)
  {
    var file := Target(classified.file, checks);
    GuardRule(call, classified, checks, used);
    FileRule(file, checks.settings(file), classified.operation, used);
    OneRow(file, checks.settings(file), classified.operation);
    hide ControlsRefuse, SwitchedOn;
  }

  lemma OneRow(file: CompanyFile, settings: FileControls, operation: Operation)
    ensures forall a, b ::
      SwitchedOn(file, settings, operation, a) && SwitchedOn(file, settings, operation, b) ==> a == b
  {
    hide FindControl, Governs, ControlFor;
    forall a, b | SwitchedOn(file, settings, operation, a) && SwitchedOn(file, settings, operation, b) ensures a == b {
      ControlIs(settings.rows, operation, a);
      ControlIs(settings.rows, operation, b);
    }
  }

  // ── What a call leaves, and how it ends ──────────────────────────────────

  /** The n-th try: its request row first, then the send, then the outcome. */
  function Attempt(call: Call, day: int, n: nat): seq<Step>
    requires n >= 1
  {
    var attempt := call.attempt + (n - 1);
    [Stored(Row(day, call.verb, call.path, call.correlation, attempt)),
     Sent(call.correlation, attempt), Outcome(call.correlation, attempt)]
  }

  /** A 429 means nothing was done; a server error is tried again only on a read. */
  predicate GoesAgain(call: Call, answer: Answer) {
    answer == Status(429) || (call.verb == GET && answer.Status? && answer.status >= 500)
  }

  function Ending(answer: Answer): MyobCalls.Result {
    match answer
    case NoAnswer => Lost
    case Status(status) => Answered(status)
  }

  /** What a call whose headers were built logs and sends, and how it ends. */
  function Sending(call: Call, day: int, world: World): (seq<Step>, MyobCalls.Result) {
    if !world.stores(1) then ([], NotLogged)
    else if !GoesAgain(call, world.answers(1)) then (Attempt(call, day, 1), Ending(world.answers(1)))
    else if !world.stores(2) then (Attempt(call, day, 1), NotLogged)
    else (Attempt(call, day, 1) + Attempt(call, day, 2), Ending(world.answers(2)))
  }

  lemma TriesRule(call: Call, day: int, world: World)
    ensures Tries(call, day, world, 1) == Sending(call, day, world)
  {
    assert Tries(call, day, world, 2)
        == if !world.stores(2) then ([], NotLogged) else (Attempt(call, day, 2), Ending(world.answers(2)));
    assert Attempt(call, day, 1) + [] == Attempt(call, day, 1);
  }

  /** A call let through builds its headers, and with good credentials stores, sends
      and perhaps sends once more; any other leaves one error and nothing sent. */
  lemma RequestRule(call: Call, classified: Classified, checks: Checks, used: nat, day: int, world: World)
    ensures
      var (steps, result) := MyobRequest(call, classified, checks, used, day, world);
      var error := Outcome(call.correlation, call.attempt);
      if !LetThrough(call, classified, checks, used) then steps == [error] && result.Refused?
      else if world.headersFail then steps == [] && result == HeadersFailed
      else if world.badCredentials && classified != OAuth then
        steps == [HeadersBuilt, error] && result == Refused(BadCredentials)
      else (steps, result) == ([HeadersBuilt] + Sending(call, day, world).0, Sending(call, day, world).1)
  {
    GuardRule(call, classified, checks, used);
    TriesRule(call, day, world);
    hide GuardRefuses, LetThrough, Tries, Sending;
  }

  // ── What the allowance counts ────────────────────────────────────────────

  /** The calls counted: those with a request row of that day, sent by POST or PUT,
      that the allowlist knows as the operation on the file named in the path. */
  lemma CountRule(allow: Allowlist, rows: seq<Row>, day: int, key: WriteKey, call: (Verb, Path, Correlation))
    ensures call in CallsToday(allow, rows, day, key) <==>
      && call.0 != GET && key.file != ""
      && (match allow(call.0, call.1)
          case Endpoint(Some(file), operation, _) => file == key.file && operation == key.operation
          case _ => false)
      && exists row :: row in rows && row.day == day && (row.verb, row.path, row.correlation) == call
  {
    hide KeyOf;
    KeyRule(allow, call.0, call.1, key);
    if row :| row in rows && row.day == day && (row.verb, row.path, row.correlation) == call {
      var i :| 0 <= i < |rows| && rows[i] == row;
    }
  }

  lemma KeyRule(allow: Allowlist, verb: Verb, path: Path, key: WriteKey)
    ensures KeyOf(allow, verb, path) == Some(key) <==>
      && verb != GET && key.file != ""
      && match allow(verb, path)
         case Endpoint(Some(file), operation, _) => file == key.file && operation == key.operation
         case _ => false
  {
  }
}
