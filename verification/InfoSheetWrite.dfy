/** Writes to one tenancy's info sheet from any number of clients: row lock,
    version check, edit and ledger rows in one transaction each. */
module InfoSheetWrite {
  import opened Wrappers
  import opened Json
  import opened InfoSheetEdit
  import opened InfoSheetLedger
  import InfoSheetProofs

  type Client = nat

  /** The tenancy's row, as far as these writes use it. */
  datatype Sheet = Sheet(column: Column, version: nat)

  /** `ledgered` is set for deletes, bulk adds and restores. */
  datatype Write = Write(expected: nat, op: Op, ledgered: bool, correlation: nat)

  /** How the parts of a change are written as JSON text for the ledger. */
  datatype Texts = Texts(codec: Codec, removed: Removed -> Text, added: seq<Added> -> Text, names: Op -> Text)

  function BeforeText(texts: Texts, outcome: Outcome): Option<Text>
    requires outcome.Changed?
  {
    if outcome.removed.Some? then Some(texts.removed(outcome.removed.value)) else None
  }

  /** What was restored, else what was added, else the names of what changed. */
  function AfterText(texts: Texts, op: Op, outcome: Outcome): Option<Text>
    requires outcome.Changed?
  {
    if outcome.restored.Some? then Some(texts.removed(outcome.restored.value))
    else if op.AddRows? then Some(texts.added(outcome.added))
    else Some(texts.names(op))
  }

  function LedgerRows(texts: Texts, write: Write, edit: Edit): seq<LedgerRow> {
    if !write.ledgered || !edit.Edited? || !edit.outcome.Changed? then []
    else ChangeRows(SnapshotParts(BeforeText(texts, edit.outcome)),
                    SnapshotParts(AfterText(texts, write.op, edit.outcome)), write.correlation)
  }

  // ── The steps ────────────────────────────────────────────────────────────

  /** Where one client's write stands. Only its own transaction sees `edit` and
      the ledger rows it has sent. */
  datatype Phase =
    | Idle
    | Asking(write: Write)
    | Reading(write: Write, seen: Option<Sheet>)
    | Writing(write: Write, found: Sheet, edit: Edit, sent: nat)
    | Answered(write: Write, done: bool)

  datatype Commit = Commit(write: Write, before: Column, edit: Edit)

  /** `sheet` and `ledger` are what is committed; `commits` is the history. */
  datatype State = State(
    sheet: Option<Sheet>,
    ledger: seq<LedgerRow>,
    lock: Option<Client>,
    clients: map<Client, Phase>,
    commits: seq<Commit>)

  function PhaseOf(s: State, c: Client): Phase { if c in s.clients then s.clients[c] else Idle }

  function At(s: State, c: Client, phase: Phase): State { s.(clients := s.clients[c := phase]) }

  ghost predicate Start(s: State, next: State, c: Client, write: Write) {
    (PhaseOf(s, c).Idle? || PhaseOf(s, c).Answered?) && next == At(s, c, Asking(write))
  }

  /** The locked read waits until no other transaction holds the row. */
  ghost predicate Lock(s: State, next: State, c: Client) {
    && PhaseOf(s, c).Asking? && s.lock.None?
    && next == At(s, c, Reading(PhaseOf(s, c).write, s.sheet)).(lock := Some(c))
  }

  /** Not there, stale or refused by the edit: rolled back. */
  ghost predicate Refuse(texts: Texts, s: State, next: State, c: Client) {
    && PhaseOf(s, c).Reading?
    && (var phase := PhaseOf(s, c);
        && (|| phase.seen.None? || phase.write.expected != phase.seen.value.version
            || EditInfoSheet(texts.codec, phase.seen.value.column, phase.write.op).NotEdited?)
        && next == At(s, c, Answered(phase.write, false)).(lock := None))
  }

  ghost predicate Update(texts: Texts, s: State, next: State, c: Client) {
    && PhaseOf(s, c).Reading?
    && (var phase := PhaseOf(s, c);
        && phase.seen.Some? && phase.write.expected == phase.seen.value.version
        && (var edit := EditInfoSheet(texts.codec, phase.seen.value.column, phase.write.op);
            edit.Edited? && next == At(s, c, Writing(phase.write, phase.seen.value, edit, 0))))
  }

  /** One ledger row sent, inside the transaction. */
  ghost predicate Send(texts: Texts, s: State, next: State, c: Client) {
    && PhaseOf(s, c).Writing?
    && (var phase := PhaseOf(s, c);
        phase.sent < |LedgerRows(texts, phase.write, phase.edit)| && next == At(s, c, phase.(sent := phase.sent + 1)))
  }

  /** Any failure before the commit: the transaction leaves nothing. */
  ghost predicate Fail(s: State, next: State, c: Client) {
    && (PhaseOf(s, c).Asking? || PhaseOf(s, c).Reading? || PhaseOf(s, c).Writing?)
    && next == At(s, c, Answered(PhaseOf(s, c).write, false)).(lock := if s.lock == Some(c) then None else s.lock)
  }

  ghost predicate Committed(texts: Texts, s: State, next: State, c: Client) {
    && PhaseOf(s, c).Writing? && s.sheet.Some?
    && (var phase := PhaseOf(s, c);
        && phase.sent == |LedgerRows(texts, phase.write, phase.edit)|
        && phase.edit.Edited?
        && next == State(Some(Sheet(Stored(phase.edit.json), s.sheet.value.version + 1)),
                         s.ledger + LedgerRows(texts, phase.write, phase.edit)[..phase.sent],
                         None, s.clients[c := Answered(phase.write, true)],
                         s.commits + [Commit(phase.write, phase.found.column, phase.edit)]))
  }

  ghost predicate StepOf(texts: Texts, s: State, next: State, c: Client) {
    || (exists write: Write :: Start(s, next, c, write))
    || Lock(s, next, c) || Refuse(texts, s, next, c) || Update(texts, s, next, c)
    || Send(texts, s, next, c) || Fail(s, next, c) || Committed(texts, s, next, c)
  }

  ghost predicate Step(texts: Texts, s: State, next: State) { exists c: Client :: StepOf(texts, s, next, c) }

  ghost predicate Initial(s: State) {
    s.lock.None? && s.commits == [] && forall c <- s.clients :: s.clients[c].Idle?
  }

  /** Any interleaving of any clients' steps. */
  ghost predicate IsRun(texts: Texts, run: seq<State>) {
    run != [] && Initial(run[0]) && forall i :: 0 <= i < |run| - 1 ==> Step(texts, run[i], run[i + 1])
  }

  // ── What every run keeps ─────────────────────────────────────────────────

  function ColumnAfter(first: Column, commits: seq<Commit>): Column {
    if commits == [] then first
    else if commits[|commits| - 1].edit.Edited? then Stored(commits[|commits| - 1].edit.json)
    else first
  }

  function LedgerAfter(texts: Texts, first: seq<LedgerRow>, commits: seq<Commit>): seq<LedgerRow> {
    if commits == [] then first
    else
      var last := commits[|commits| - 1];
      LedgerAfter(texts, first, commits[..|commits| - 1]) + LedgerRows(texts, last.write, last.edit)
  }

  /** Each commit named the version it found, and was applied to exactly the
      column that version held. */
  ghost predicate Chained(texts: Texts, first: Sheet, commits: seq<Commit>) {
    forall i :: 0 <= i < |commits| ==>
      && commits[i].write.expected == first.version + i
      && commits[i].before == ColumnAfter(first.column, commits[..i])
      && commits[i].edit == EditInfoSheet(texts.codec, commits[i].before, commits[i].write.op)
      && commits[i].edit.Edited?
  }

  ghost predicate PhaseHolds(texts: Texts, s: State, c: Client) {
    match PhaseOf(s, c)
    case Reading(write, seen) => s.lock == Some(c) && seen == s.sheet
    case Writing(write, found, edit, sent) =>
      && s.lock == Some(c) && s.sheet == Some(found) && write.expected == found.version
      && edit == EditInfoSheet(texts.codec, found.column, write.op) && edit.Edited?
      && sent <= |LedgerRows(texts, write, edit)|
    case _ => true
  }

  ghost predicate History(texts: Texts, first: State, s: State) {
    match first.sheet
    case None => s.sheet.None? && s.commits == [] && s.ledger == first.ledger
    case Some(sheet) =>
      && Chained(texts, sheet, s.commits)
      && s.sheet == Some(Sheet(ColumnAfter(sheet.column, s.commits), sheet.version + |s.commits|))
      && s.ledger == LedgerAfter(texts, first.ledger, s.commits)
  }

  ghost predicate Invariant(texts: Texts, first: State, s: State) {
    History(texts, first, s) && forall c: Client :: PhaseHolds(texts, s, c)
  }

  lemma ChainedSnoc(texts: Texts, first: Sheet, commits: seq<Commit>, commit: Commit)
    requires Chained(texts, first, commits)
    requires commit.write.expected == first.version + |commits|
    requires commit.before == ColumnAfter(first.column, commits)
    requires commit.edit == EditInfoSheet(texts.codec, commit.before, commit.write.op) && commit.edit.Edited?
    ensures Chained(texts, first, commits + [commit])
  {
    hide EditInfoSheet, ColumnAfter;
    var after := commits + [commit];
    forall i | 0 <= i < |after|
      ensures after[i].before == ColumnAfter(first.column, after[..i])
    {
      if i < |commits| {
        assert after[..i] == commits[..i];
      } else {
        assert after[..i] == commits;
      }
    }
  }

  lemma AfterSnoc(texts: Texts, first: Column, ledger: seq<LedgerRow>, commits: seq<Commit>, commit: Commit)
    requires commit.edit.Edited?
    ensures ColumnAfter(first, commits + [commit]) == Stored(commit.edit.json)
    ensures LedgerAfter(texts, ledger, commits + [commit])
         == LedgerAfter(texts, ledger, commits) + LedgerRows(texts, commit.write, commit.edit)
  {
    hide LedgerRows;
    assert (commits + [commit])[..|commits|] == commits;
  }

  /** What a commit makes visible. */
  lemma CommitShows(texts: Texts, s: State, next: State, c: Client)
    requires PhaseHolds(texts, s, c) && Committed(texts, s, next, c)
    ensures
      var phase := PhaseOf(s, c);
      var commit := Commit(phase.write, phase.found.column, phase.edit);
      && s.sheet == Some(phase.found) && phase.write.expected == phase.found.version
      && commit.edit == EditInfoSheet(texts.codec, commit.before, commit.write.op) && commit.edit.Edited?
      && next.commits == s.commits + [commit]
      && next.sheet == Some(Sheet(Stored(commit.edit.json), phase.found.version + 1))
      && next.ledger == s.ledger + LedgerRows(texts, commit.write, commit.edit)
  {
    hide LedgerRows, EditInfoSheet;
    var phase := PhaseOf(s, c);
    var rows := LedgerRows(texts, phase.write, phase.edit);
    assert rows[..|rows|] == rows;
  }

  lemma CommitKeeps(texts: Texts, first: State, s: State, next: State, c: Client)
    requires History(texts, first, s) && PhaseHolds(texts, s, c) && Committed(texts, s, next, c)
    ensures History(texts, first, next)
  {
    CommitShows(texts, s, next, c);
    var phase := PhaseOf(s, c);
    hide EditInfoSheet, LedgerRows, Chained, ColumnAfter, LedgerAfter, PhaseHolds, Committed, PhaseOf;
    var commit := Commit(phase.write, phase.found.column, phase.edit);
    ChainedSnoc(texts, first.sheet.value, s.commits, commit);
    AfterSnoc(texts, first.sheet.value.column, first.ledger, s.commits, commit);
  }

  /** A client that does nothing in this step. */
  lemma OtherHolds(texts: Texts, s: State, next: State, c: Client, d: Client)
    requires c != d && PhaseHolds(texts, s, d) && PhaseOf(next, d) == PhaseOf(s, d)
    requires s.lock == Some(c) || (s.sheet == next.sheet && (s.lock == next.lock || s.lock.None?))
    ensures PhaseHolds(texts, next, d)
  {
    hide EditInfoSheet, LedgerRows;
  }

  lemma StepHolds(texts: Texts, s: State, next: State, c: Client, d: Client)
    requires StepOf(texts, s, next, c) && PhaseHolds(texts, s, c) && PhaseHolds(texts, s, d)
    ensures PhaseHolds(texts, next, d)
  {
    hide EditInfoSheet, LedgerRows;
    if d != c {
      OtherHolds(texts, s, next, c, d);
    }
  }

  lemma StepKeeps(texts: Texts, first: State, s: State, next: State)
    requires Invariant(texts, first, s) && Step(texts, s, next)
    ensures Invariant(texts, first, next)
  {
    var c: Client :| StepOf(texts, s, next, c);
    hide PhaseHolds;
    assert PhaseHolds(texts, s, c);
    forall d: Client ensures PhaseHolds(texts, next, d) {
      assert PhaseHolds(texts, s, d);
      StepHolds(texts, s, next, c, d);
    }
    if Committed(texts, s, next, c) {
      CommitKeeps(texts, first, s, next, c);
    } else {
      QuietStep(texts, s, next, c);
    }
  }

  /** Only a commit changes what is committed. */
  lemma QuietStep(texts: Texts, s: State, next: State, c: Client)
    requires StepOf(texts, s, next, c) && !Committed(texts, s, next, c)
    ensures next.sheet == s.sheet && next.ledger == s.ledger && next.commits == s.commits
  {
    hide EditInfoSheet, LedgerRows;
  }

  /** Over any interleaving, the version counts the commits, each commit was
      applied to exactly the sheet at the version its client named, and the
      ledger holds the rows of the committed writes and nothing else. */
  lemma {:induction false} EveryRunKeeps(texts: Texts, run: seq<State>)
    requires IsRun(texts, run)
    ensures Invariant(texts, run[0], run[|run| - 1])
    decreases |run|
  {
    hide PhaseHolds, History, Step;
    if |run| == 1 {
      InitialHolds(texts, run[0]);
    } else {
      var before := run[..|run| - 1];
      assert IsRun(texts, before);
      EveryRunKeeps(texts, before);
      assert Step(texts, run[|run| - 2], run[|run| - 2 + 1]);
      StepKeeps(texts, run[0], run[|run| - 2], run[|run| - 1]);
    }
  }

  lemma InitialHolds(texts: Texts, s: State)
    requires Initial(s)
    ensures Invariant(texts, s, s)
  {
  }

  /** A ledgered write's rows, read back in order, hold exactly what the edit took off,
      and what it put back, else what it added, else the names of what it changed,
      under the write's own correlation id; any other write has none. */
  lemma LedgeredReadsBack(texts: Texts, write: Write, edit: Edit)
    requires edit.Edited? && edit.outcome.Changed?
    ensures
      var rows, outcome := LedgerRows(texts, write, edit), edit.outcome;
      if !write.ledgered then rows == []
      else
        && rows != [] && (forall row <- rows :: row.correlation == write.correlation)
        && JoinParts(BeforeParts(rows)) == (if outcome.removed.Some? then texts.removed(outcome.removed.value) else [])
        && JoinParts(AfterParts(rows))
           == if outcome.restored.Some? then texts.removed(outcome.restored.value)
              else if write.op.AddRows? then texts.added(outcome.added)
              else texts.names(write.op)
  {
    hide ChangeRows, SnapshotParts, JoinParts, BeforeParts, AfterParts;
    if write.ledgered {
      ChangeReadsBack(BeforeText(texts, edit.outcome), AfterText(texts, write.op, edit.outcome), write.correlation);
    }
  }

  /** Two commits never name the same version: of two writes shown the same
      sheet, at most one goes through. */
  lemma NoLostUpdate(texts: Texts, run: seq<State>, i: nat, j: nat)
    requires IsRun(texts, run) && i < j < |run[|run| - 1].commits|
    ensures run[|run| - 1].commits[i].write.expected < run[|run| - 1].commits[j].write.expected
  {
    EveryRunKeeps(texts, run);
  }

  /** The column can be read, and no two of its sections share an id. */
  ghost predicate GoodColumn(codec: Codec, column: Column) {
    EntriesOf(codec, column).Some? && InfoSheetProofs.Distinct(ValuesOf(EntriesOf(codec, column).value))
  }

  lemma EditKeepsGood(codec: Codec, column: Column, op: Op)
    requires Lawful(codec) && InfoSheetProofs.Sent(codec, op)
    requires GoodColumn(codec, column) && EditInfoSheet(codec, column, op).Edited?
    ensures GoodColumn(codec, Stored(EditInfoSheet(codec, column, op).json))
  {
    hide Lawful, EntriesOf, InfoSheetProofs.Distinct, EditEntries, InfoSheetProofs.Sent, Settled, Finite;
    InfoSheetProofs.EditRereads(codec, column, op);
    InfoSheetProofs.SectionIdsKept(codec, EntriesOf(codec, column).value, op);
    var edit := EditInfoSheet(codec, column, op);
    InfoSheetProofs.SettledDistinct(ValuesOf(edit.outcome.entries),
                                    ValuesOf(EntriesOf(codec, Stored(edit.json)).value));
  }

  lemma ChainedPrefix(texts: Texts, first: Sheet, commits: seq<Commit>, n: nat)
    requires Chained(texts, first, commits) && n <= |commits|
    ensures Chained(texts, first, commits[..n])
  {
    hide EditInfoSheet, ColumnAfter;
    forall i | 0 <= i < n ensures commits[..n][..i] == commits[..i] {
    }
  }

  /** Every write's values were read from its request's JSON. */
  ghost predicate AllSent(codec: Codec, commits: seq<Commit>) {
    forall i :: 0 <= i < |commits| ==> InfoSheetProofs.Sent(codec, commits[i].write.op)
  }

  lemma {:induction false} CommitsKeepGood(texts: Texts, first: Sheet, commits: seq<Commit>)
    requires Lawful(texts.codec) && GoodColumn(texts.codec, first.column) && Chained(texts, first, commits)
    requires AllSent(texts.codec, commits)
    ensures GoodColumn(texts.codec, ColumnAfter(first.column, commits))
    decreases |commits|
  {
    hide Lawful, GoodColumn, EditInfoSheet, InfoSheetProofs.Sent;
    if commits != [] {
      var n := |commits| - 1;
      ChainedPrefix(texts, first, commits, n);
      CommitsKeepGood(texts, first, commits[..n]);
      EditKeepsGood(texts.codec, commits[n].before, commits[n].write.op);
    }
  }

  /** From a sheet with distinct sections, no interleaving of writes ever leaves
      one that can't be read or that holds a section twice. */
  lemma SheetStaysGood(texts: Texts, run: seq<State>)
    requires IsRun(texts, run) && Lawful(texts.codec)
    requires run[0].sheet.Some? && GoodColumn(texts.codec, run[0].sheet.value.column)
    requires AllSent(texts.codec, run[|run| - 1].commits)
    ensures run[|run| - 1].sheet.Some? && GoodColumn(texts.codec, run[|run| - 1].sheet.value.column)
  {
    EveryRunKeeps(texts, run);
    hide Lawful, GoodColumn, ColumnAfter, Chained, AllSent;
    CommitsKeepGood(texts, run[0].sheet.value, run[|run| - 1].commits);
  }

  // ── A write left alone is answered ───────────────────────────────────────

  /** One client's steps from `s`, nobody else stepping between. */
  ghost predicate Alone(texts: Texts, s: State, path: seq<State>, c: Client) {
    path != [] && path[0] == s && forall i :: 0 <= i < |path| - 1 ==> StepOf(texts, path[i], path[i + 1], c)
  }

  lemma AloneCons(texts: Texts, s: State, path: seq<State>, c: Client)
    requires path != [] && StepOf(texts, s, path[0], c) && Alone(texts, path[0], path, c)
    ensures Alone(texts, s, [s] + path, c)
  {
    hide StepOf;
    var longer := [s] + path;
    assert forall i :: 1 <= i < |longer| ==> longer[i] == path[i - 1];
  }

  /** The ledger rows still to send, and the commit. */
  lemma {:induction false} Finishes(texts: Texts, s: State, c: Client, write: Write, found: Sheet, edit: Edit,
                                    sent: nat) returns (path: seq<State>)
    requires PhaseOf(s, c) == Writing(write, found, edit, sent) && s.sheet.Some? && edit.Edited?
    requires sent <= |LedgerRows(texts, write, edit)|
    ensures Alone(texts, s, path, c)
    ensures path[|path| - 1]
         == State(Some(Sheet(Stored(edit.json), s.sheet.value.version + 1)), s.ledger + LedgerRows(texts, write, edit),
                  None, s.clients[c := Answered(write, true)], s.commits + [Commit(write, found.column, edit)])
    decreases |LedgerRows(texts, write, edit)| - sent
  {
    hide LedgerRows, Alone;
    var rows := LedgerRows(texts, write, edit);
    if sent == |rows| {
      assert rows[..sent] == rows;
      var next := State(Some(Sheet(Stored(edit.json), s.sheet.value.version + 1)), s.ledger + rows, None,
                        s.clients[c := Answered(write, true)], s.commits + [Commit(write, found.column, edit)]);
      assert Committed(texts, s, next, c);
      AloneNow(texts, next, c);
      path := [next];
    } else {
      var next := At(s, c, Writing(write, found, edit, sent + 1));
      assert Send(texts, s, next, c);
      path := Finishes(texts, next, c, write, found, edit, sent + 1);
      assert next.clients[c := Answered(write, true)] == s.clients[c := Answered(write, true)];
    }
    AloneStarts(texts, path, c);
    AloneCons(texts, s, path, c);
    path := [s] + path;
  }

  lemma AloneNow(texts: Texts, s: State, c: Client)
    ensures Alone(texts, s, [s], c)
  {
  }

  lemma AloneStarts(texts: Texts, path: seq<State>, c: Client)
    ensures forall s :: Alone(texts, s, path, c) ==> path != [] && path[0] == s
  {
    hide StepOf;
  }

  /** A write made while the row is free, and left alone, goes through when it names
      the version there is and the edit is accepted: the edited column, the next
      version and the rows of the ledger, all at once. Otherwise it is refused with
      everything as it was. */
  lemma WriteGoesThrough(texts: Texts, s: State, c: Client, write: Write) returns (path: seq<State>)
    requires (PhaseOf(s, c).Idle? || PhaseOf(s, c).Answered?) && s.lock.None?
    ensures Alone(texts, s, path, c)
    ensures
      var last := path[|path| - 1];
      && last.lock.None? && (forall d :: d != c ==> PhaseOf(last, d) == PhaseOf(s, d))
      && if s.sheet.Some? && write.expected == s.sheet.value.version
            && EditInfoSheet(texts.codec, s.sheet.value.column, write.op).Edited? then
           var edit := EditInfoSheet(texts.codec, s.sheet.value.column, write.op);
           && PhaseOf(last, c) == Answered(write, true)
           && last.sheet == Some(Sheet(Stored(edit.json), write.expected + 1))
           && last.ledger == s.ledger + LedgerRows(texts, write, edit)
         else PhaseOf(last, c) == Answered(write, false) && last.sheet == s.sheet && last.ledger == s.ledger
  {
    hide LedgerRows, EditInfoSheet, Alone;
    var asking := At(s, c, Asking(write));
    assert Start(s, asking, c, write);
    var reading := At(asking, c, Reading(write, s.sheet)).(lock := Some(c));
    assert Lock(asking, reading, c);
    if s.sheet.Some? && write.expected == s.sheet.value.version
       && EditInfoSheet(texts.codec, s.sheet.value.column, write.op).Edited? {
      var edit := EditInfoSheet(texts.codec, s.sheet.value.column, write.op);
      var writing := At(reading, c, Writing(write, s.sheet.value, edit, 0));
      assert Update(texts, reading, writing, c);
      path := Finishes(texts, writing, c, write, s.sheet.value, edit, 0);
    } else {
      var refused := At(reading, c, Answered(write, false)).(lock := None);
      assert Refuse(texts, reading, refused, c);
      AloneNow(texts, refused, c);
      path := [refused];
    }
    AloneStarts(texts, path, c);
    AloneCons(texts, reading, path, c);
    AloneCons(texts, asking, [reading] + path, c);
    AloneCons(texts, s, [asking] + ([reading] + path), c);
    path := [s] + ([asking] + ([reading] + path));
  }
}
