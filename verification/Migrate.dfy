/** The migration runner: files applied in name order, each recorded with its
    checksum, over any number of runs that may fail at any statement. */
module Migrate {
  import opened Wrappers

  /** Files sort by name; a name is its place in that order. */
  type Name = nat

  datatype File = File(name: Name, checksum: int, batches: nat, transactional: bool, valid: bool)

  datatype Effect = Effect(name: Name, batch: nat)

  /** What is committed: the recorded names, with the checksum unless they were
      recorded before there were any, and every batch that has taken effect. */
  datatype Db = Db(recorded: map<Name, Option<int>>, effects: seq<Effect>)

  // ── The status a run starts from ─────────────────────────────────────────

  function Pending(db: Db, files: seq<File>): seq<File> {
    if files == [] then []
    else
      var last := files[|files| - 1];
      Pending(db, files[..|files| - 1]) + if last.name in db.recorded then [] else [last]
  }

  /** A recorded file whose text has changed since. */
  predicate Changed(db: Db, file: File) {
    file.name in db.recorded && db.recorded[file.name].Some? && db.recorded[file.name].value != file.checksum
  }

  predicate Unsafe(db: Db, files: seq<File>) {
    exists i :: 0 <= i < |files| && (Changed(db, files[i]) || (files[i].name !in db.recorded && !files[i].valid))
  }

  // ── Applying a file ──────────────────────────────────────────────────────

  function Effects(name: Name, count: nat): seq<Effect> {
    seq(count, i requires 0 <= i < count => Effect(name, i))
  }

  function Record(db: Db, file: File): Db { db.(recorded := db.recorded[file.name := Some(file.checksum)]) }

  /** The statements of a file: the session setting and the record beside the
      batches, and the two ends of its transaction. */
  function Statements(file: File): nat { file.batches + if file.transactional then 4 else 2 }

  function AppliedWhole(db: Db, file: File): Db {
    Record(db.(effects := db.effects + Effects(file.name, file.batches)), file)
  }

  /** What is left when only `good` of the file's statements succeed: a
      transaction rolls back, without one the earlier batches stay. */
  function AppliedPart(db: Db, file: File, good: nat): Db
    requires good < Statements(file)
  {
    if file.transactional || good == 0 then db
    else db.(effects := db.effects + Effects(file.name, if good - 1 <= file.batches then good - 1 else file.batches))
  }

  function ApplyFile(db: Db, file: File, good: nat): Db {
    if good >= Statements(file) then AppliedWhole(db, file) else AppliedPart(db, file, good)
  }

  // ── A run ────────────────────────────────────────────────────────────────

  /** `applied` counts the pending files applied, in order. */
  datatype Outcome = NotLocked | RefusedUnsafe | Failed(applied: nat) | Finished(applied: nat)

  /** The pending files one after the other; the first failure ends the run. */
  function ApplyAll(db: Db, pending: seq<File>, good: nat): (Db, Outcome)
    decreases |pending|
  {
    if pending == [] then (db, Finished(0))
    else if good < Statements(pending[0]) then (AppliedPart(db, pending[0], good), Failed(0))
    else
      match ApplyAll(AppliedWhole(db, pending[0]), pending[1..], good - Statements(pending[0]))
      case (after, Failed(n)) => (after, Failed(n + 1))
      case (after, Finished(n)) => (after, Finished(n + 1))
      case (after, other) => (after, other)
  }

  /** One run over the files on disk; `good` statements of it succeed. */
  datatype Run = Run(files: seq<File>, locked: bool, good: nat)

  function RunOn(db: Db, run: Run): (Db, Outcome) {
    if !run.locked then (db, NotLocked)
    else if Unsafe(db, run.files) then (db, RefusedUnsafe)
    else ApplyAll(db, Pending(db, run.files), run.good)
  }

  /** The database, as one session changes it. `saved` is what a rollback goes
      back to; `left` is how many more statements succeed. */
  class Session {
    var db: Db
    var saved: Option<Db>
    var left: nat

    constructor (db: Db, good: nat)
      ensures this.db == db && saved.None? && left == good
    {
      this.db := db;
      saved := None;
      left := good;
    }

    method Execute(effect: Option<Effect>) returns (ok: bool)
      modifies this
      ensures ok == (old(left) > 0)
      ensures saved == old(saved) && left == (if ok then old(left) - 1 else 0)
      ensures db == if ok && effect.Some? then old(db).(effects := old(db).effects + [effect.value]) else old(db)
    {
      ok := left > 0;
      if ok {
        left := left - 1;
        if effect.Some? {
          db := db.(effects := db.effects + [effect.value]);
        }
      }
    }

    method Begin() returns (ok: bool)
      modifies this
      ensures ok == (old(left) > 0) && left == (if ok then old(left) - 1 else 0)
      ensures db == old(db) && saved == if ok then Some(old(db)) else old(saved)
    {
      ok := Execute(None);
      if ok {
        saved := Some(db);
      }
    }

    method Commit() returns (ok: bool)
      modifies this
      ensures ok == (old(left) > 0) && left == (if ok then old(left) - 1 else 0)
      ensures db == old(db) && saved == if ok then None else old(saved)
    {
      ok := Execute(None);
      if ok {
        saved := None;
      }
    }

    method Rollback()
      modifies this
      ensures db == (if old(saved).Some? then old(saved).value else old(db)) && saved.None? && left == old(left)
    {
      if saved.Some? {
        db := saved.value;
      }
      saved := None;
    }

    /** The batches in order, until one fails. */
    method Batches(file: File) returns (ok: bool)
      modifies this
      ensures ok == (old(left) >= file.batches)
      ensures saved == old(saved) && left == (if ok then old(left) - file.batches else 0)
      ensures db == old(db).(effects := old(db).effects + Effects(file.name, if ok then file.batches else old(left)))
    {
      assert old(db).effects + Effects(file.name, 0) == old(db).effects;
      var batch := 0;
      while batch < file.batches
        invariant 0 <= batch <= file.batches && batch <= old(left) && left == old(left) - batch && saved == old(saved)
        invariant db == old(db).(effects := old(db).effects + Effects(file.name, batch))
      {
        var done := Execute(Some(Effect(file.name, batch)));
        if !done {
          return false;
        }
        assert Effects(file.name, batch + 1) == Effects(file.name, batch) + [Effect(file.name, batch)];
        batch := batch + 1;
      }
      ok := true;
    }

    method RecordFile(file: File) returns (ok: bool)
      modifies this
      ensures ok == (old(left) > 0) && left == (if ok then old(left) - 1 else 0) && saved == old(saved)
      ensures db == if ok then Record(old(db), file) else old(db)
    {
      ok := Execute(None);
      if ok {
        db := Record(db, file);
      }
    }

    method Apply(file: File) returns (ok: bool)
      requires saved.None?
      modifies this
      ensures ok == (old(left) >= Statements(file))
      ensures db == ApplyFile(old(db), file, old(left)) && saved.None?
      ensures ok ==> left == old(left) - Statements(file)
    {
      assert old(db).effects + Effects(file.name, 0) == old(db).effects;
      ok := Execute(None);
      if !ok {
        return;
      }
      if file.transactional {
        ok := Begin();
        if !ok {
          return;
        }
      }
      ok := Batches(file);
      if ok {
        ok := RecordFile(file);
      }
      if ok && file.transactional {
        ok := Commit();
      }
      if !ok && file.transactional {
        Rollback();
      }
    }

    method RunMigrations(files: seq<File>, locked: bool) returns (outcome: Outcome)
      requires saved.None?
      modifies this
      ensures (db, outcome) == RunOn(old(db), Run(files, locked, old(left)))
    {
      if !locked {
        return NotLocked;
      }
      if Unsafe(db, files) {
        return RefusedUnsafe;
      }
      hide AppliedWhole, AppliedPart, Pending;
      var pending := Pending(db, files);
      var applied := 0;
      while applied < |pending|
        invariant 0 <= applied <= |pending| && saved.None?
        invariant ApplyAll(old(db), pending, old(left))
               == Ahead(ApplyAll(db, pending[applied..], left), applied)
      {
        var file := pending[applied];
        assert pending[applied..][0] == file && pending[applied..][1..] == pending[applied + 1..];
        var done := Apply(file);
        if !done {
          return Failed(applied);
        }
        applied := applied + 1;
      }
      outcome := Finished(applied);
    }
  }

  /** The outcome of the rest of a run, counted from its start. */
  function Ahead(rest: (Db, Outcome), applied: nat): (Db, Outcome) {
    match rest.1
    case Failed(n) => (rest.0, Failed(n + applied))
    case Finished(n) => (rest.0, Finished(n + applied))
    case _ => rest
  }

  // ── What one run does ────────────────────────────────────────────────────

  lemma {:induction false} PendingAre(db: Db, files: seq<File>, i: nat)
    requires i < |Pending(db, files)|
    ensures Pending(db, files)[i] in files && Pending(db, files)[i].name !in db.recorded
  {
    if files != [] && i < |Pending(db, files[..|files| - 1])| {
      PendingAre(db, files[..|files| - 1], i);
    }
  }

  /** In name order, each name once. */
  predicate Ordered(files: seq<File>) {
    forall i, j :: 0 <= i < j < |files| ==> files[i].name < files[j].name
  }

  lemma {:induction false} PendingOrdered(db: Db, files: seq<File>)
    requires Ordered(files)
    ensures Ordered(Pending(db, files))
  {
    if files != [] {
      var n := |files| - 1;
      PendingOrdered(db, files[..n]);
      var before := Pending(db, files[..n]);
      forall i | 0 <= i < |before| ensures before[i].name < files[n].name {
        PendingAre(db, files[..n], i);
        var k :| 0 <= k < n && files[..n][k] == before[i];
        assert files[k].name < files[n].name;
      }
    }
  }

  function AppliedCount(outcome: Outcome): nat {
    match outcome
    case Failed(n) => n
    case Finished(n) => n
    case _ => 0
  }

  /** The first `n` files applied whole, one after the other. */
  function ApplyPrefix(db: Db, pending: seq<File>, n: nat): Db
    requires n <= |pending|
  {
    if n == 0 then db else AppliedWhole(ApplyPrefix(db, pending, n - 1), pending[n - 1])
  }

  lemma {:induction false} PrefixFrom(db: Db, pending: seq<File>, n: nat)
    requires 0 < n <= |pending|
    ensures ApplyPrefix(db, pending, n) == ApplyPrefix(AppliedWhole(db, pending[0]), pending[1..], n - 1)
  {
    hide AppliedWhole;
    if n > 1 {
      PrefixFrom(db, pending, n - 1);
    }
  }

  /** A run applies a prefix of the pending files whole, in order; the one it
      fails in leaves nothing, unless it runs without a transaction. */
  lemma {:induction false} RunAppliesPrefix(db: Db, pending: seq<File>, good: nat)
    ensures
      var result := ApplyAll(db, pending, good);
      var n := AppliedCount(result.1);
      && (result.1.Failed? || result.1.Finished?) && n <= |pending| && (result.1.Finished? ==> n == |pending|)
      && (result.1.Failed? ==> n < |pending|)
      && if result.1.Failed?
         then exists part ::
                0 <= part < Statements(pending[n])
                && result.0 == AppliedPart(ApplyPrefix(db, pending, n), pending[n], part)
         else result.0 == ApplyPrefix(db, pending, n)
    decreases |pending|
  {
    hide AppliedWhole, AppliedPart;
    if pending != [] && good >= Statements(pending[0]) {
      RunAppliesPrefix(AppliedWhole(db, pending[0]), pending[1..], good - Statements(pending[0]));
      var rest := ApplyAll(AppliedWhole(db, pending[0]), pending[1..], good - Statements(pending[0]));
      PrefixFrom(db, pending, AppliedCount(rest.1) + 1);
    } else if pending != [] {
      assert AppliedPart(db, pending[0], good) == AppliedPart(ApplyPrefix(db, pending, 0), pending[0], good);
    }
  }

  /** A run that meets a changed or invalid file applies nothing. */
  lemma UnsafeAppliesNothing(db: Db, run: Run)
    requires Unsafe(db, run.files) || !run.locked
    ensures RunOn(db, run).0 == db
  {
  }

  // ── Any sequence of runs ─────────────────────────────────────────────────

  function EffectsOf(effects: seq<Effect>, name: Name): seq<Effect> {
    if effects == [] then []
    else
      var last := effects[|effects| - 1];
      EffectsOf(effects[..|effects| - 1], name) + if last.name == name then [last] else []
  }

  lemma {:induction false} EffectsOfConcat(a: seq<Effect>, b: seq<Effect>, name: Name)
    ensures EffectsOf(a + b, name) == EffectsOf(a, name) + EffectsOf(b, name)
  {
    if b == [] {
      assert a + b == a;
    } else {
      assert (a + b)[..|a + b| - 1] == a + b[..|b| - 1];
      EffectsOfConcat(a, b[..|b| - 1], name);
    }
  }

  lemma {:induction false} EffectsOfOwn(name: Name, count: nat, other: Name)
    ensures EffectsOf(Effects(name, count), other) == if name == other then Effects(name, count) else []
  {
    if count > 0 {
      EffectsOfOwn(name, count - 1, other);
      assert Effects(name, count)[..count - 1] == Effects(name, count - 1);
    }
  }

  /** Recorded, the batches of the version recorded have taken effect, once and
      in order; unrecorded, none has. */
  ghost predicate AllOrNothing(db: Db, name: Name, version: Option<File>) {
    if name !in db.recorded then EffectsOf(db.effects, name) == []
    else
      && version.Some? && db.recorded[name] == Some(version.value.checksum)
      && EffectsOf(db.effects, name) == Effects(name, version.value.batches)
  }

  /** Applying a file changes nothing of any other. */
  lemma OthersUntouched(db: Db, file: File, good: nat, name: Name)
    requires name != file.name
    ensures
      var after := ApplyFile(db, file, good);
      && EffectsOf(after.effects, name) == EffectsOf(db.effects, name)
      && (name in after.recorded <==> name in db.recorded)
      && (name in db.recorded ==> after.recorded[name] == db.recorded[name])
  {
    var count := if good >= Statements(file) then file.batches
                 else if file.transactional || good == 0 then 0
                 else if good - 1 <= file.batches then good - 1 else file.batches;
    EffectsOfConcat(db.effects, Effects(file.name, count), name);
    EffectsOfOwn(file.name, count, name);
    hide EffectsOf;
  }

  lemma WholeIsAll(db: Db, file: File)
    requires EffectsOf(db.effects, file.name) == []
    ensures AllOrNothing(AppliedWhole(db, file), file.name, Some(file))
  {
    EffectsOfConcat(db.effects, Effects(file.name, file.batches), file.name);
    EffectsOfOwn(file.name, file.batches, file.name);
    hide EffectsOf;
  }

  /** What a step of a run keeps of one file. */
  ghost predicate FileKept(before: Db, after: Db, name: Name) {
    && EffectsOf(after.effects, name) == EffectsOf(before.effects, name)
    && (name in after.recorded <==> name in before.recorded)
    && (name in before.recorded ==> after.recorded[name] == before.recorded[name])
  }

  lemma {:induction false} AllAppliedKeeps(db: Db, pending: seq<File>, good: nat, name: Name)
    requires forall i :: 0 <= i < |pending| ==> pending[i].name != name
    ensures FileKept(db, ApplyAll(db, pending, good).0, name)
    decreases |pending|
  {
    hide EffectsOf;
    if pending != [] {
      OthersUntouched(db, pending[0], good, name);
      if good >= Statements(pending[0]) {
        AllAppliedKeeps(AppliedWhole(db, pending[0]), pending[1..], good - Statements(pending[0]), name);
      }
    }
  }

  /** No recorded file is applied again: whatever is on disk, a run leaves its
      record and its effects alone. */
  lemma RecordedNotReapplied(db: Db, run: Run, name: Name)
    requires name in db.recorded
    ensures FileKept(db, RunOn(db, run).0, name)
  {
    hide EffectsOf, ApplyAll;
    var pending := Pending(db, run.files);
    forall i | 0 <= i < |pending| ensures pending[i].name != name {
      PendingAre(db, run.files, i);
    }
    AllAppliedKeeps(db, pending, run.good, name);
  }

  lemma {:induction false} AllAppliedAllOrNothing(db: Db, pending: seq<File>, good: nat, name: Name)
    returns (version: Option<File>)
    requires name !in db.recorded && EffectsOf(db.effects, name) == [] && Ordered(pending)
    requires forall i :: 0 <= i < |pending| && pending[i].name == name ==> pending[i].transactional
    ensures AllOrNothing(ApplyAll(db, pending, good).0, name, version)
    ensures version.Some? ==> version.value in pending && version.value.name == name
    decreases |pending|
  {
    hide EffectsOf;
    version := None;
    if pending != [] {
      var first, left := pending[0], good - Statements(pending[0]);
      if first.name != name {
        OthersUntouched(db, first, good, name);
        if left >= 0 {
          version := AllAppliedAllOrNothing(AppliedWhole(db, first), pending[1..], left, name);
        }
      } else if left >= 0 {
        WholeIsAll(db, first);
        AllAppliedKeeps(AppliedWhole(db, first), pending[1..], left, name);
        version := Some(first);
      }
    }
  }

  lemma RunAllOrNothing(db: Db, run: Run, name: Name, was: Option<File>) returns (version: Option<File>)
    requires AllOrNothing(db, name, was) && Ordered(run.files)
    requires name !in db.recorded ==>
      forall i :: 0 <= i < |run.files| && run.files[i].name == name ==> run.files[i].transactional
    ensures AllOrNothing(RunOn(db, run).0, name, version)
    ensures name in db.recorded ==> version == was
    ensures name !in db.recorded && version.Some? ==> version.value in run.files && version.value.name == name
  {
    hide EffectsOf, ApplyAll;
    version := None;
    if name in db.recorded {
      RecordedNotReapplied(db, run, name);
      version := was;
    } else if run.locked && !Unsafe(db, run.files) {
      var pending := Pending(db, run.files);
      PendingOrdered(db, run.files);
      forall i | 0 <= i < |pending| ensures pending[i] in run.files {
        PendingAre(db, run.files, i);
      }
      version := AllAppliedAllOrNothing(db, pending, run.good, name);
    }
  }

  function Runs(db: Db, runs: seq<Run>): Db {
    if runs == [] then db else RunOn(Runs(db, runs[..|runs| - 1]), runs[|runs| - 1]).0
  }

  /** Every version of the file that a run meets while its name is unrecorded is
      a transactional one. */
  ghost predicate MetTransactional(db: Db, runs: seq<Run>, name: Name) {
    forall r, file | 0 <= r < |runs| && file in runs[r].files ::
      name !in Runs(db, runs[..r]).recorded && file.name == name ==> file.transactional
  }

  ghost predicate OnDisk(runs: seq<Run>, file: File) { exists r :: 0 <= r < |runs| && file in runs[r].files }

  /** Over any sequence of runs failing at any statement, the file corrected
      between them or not: while its name is unrecorded nothing of any version
      of it has taken effect; once recorded, with the checksum of the version
      that was applied, exactly that version's batches have, once and in order. */
  lemma {:induction false} TransactionalAllOrNothing(db: Db, runs: seq<Run>, name: Name, was: Option<File>)
    returns (version: Option<File>)
    requires AllOrNothing(db, name, was) && MetTransactional(db, runs, name)
    requires forall r :: 0 <= r < |runs| ==> Ordered(runs[r].files)
    ensures AllOrNothing(Runs(db, runs), name, version)
    ensures name in db.recorded ==> version == was
    ensures name !in db.recorded && name in Runs(db, runs).recorded ==>
      version.Some? && version.value.name == name && OnDisk(runs, version.value)
  {
    version := was;
    if runs != [] {
      hide Ordered, RunOn, EffectsOf, OnDisk, MetTransactional, AllOrNothing;
      var n := |runs| - 1;
      var before := Runs(db, runs[..n]);
      MetBefore(db, runs, name);
      var earlier := TransactionalAllOrNothing(db, runs[..n], name, was);
      version := RunAllOrNothing(before, runs[n], name, earlier);
      if name in db.recorded {
        RecordedStays(db, runs[..n], name);
      }
      if name !in db.recorded && name in Runs(db, runs).recorded {
        RecordedHasVersion(Runs(db, runs), name, version);
        if name in before.recorded {
          OnDiskLater(runs, version.value);
        } else {
          assert OnDisk(runs, version.value) by {
            hide *;
            OnDiskAt(runs, n, version.value);
          }
        }
      }
    }
  }

  lemma RecordedHasVersion(db: Db, name: Name, version: Option<File>)
    requires AllOrNothing(db, name, version) && name in db.recorded
    ensures version.Some?
  {
    hide EffectsOf;
  }

  lemma OnDiskAt(runs: seq<Run>, r: nat, file: File)
    requires r < |runs| && file in runs[r].files
    ensures OnDisk(runs, file)
  {
  }

  lemma OnDiskLater(runs: seq<Run>, file: File)
    requires runs != [] && OnDisk(runs[..|runs| - 1], file)
    ensures OnDisk(runs, file)
  {
    var r :| 0 <= r < |runs| - 1 && file in runs[..|runs| - 1][r].files;
    OnDiskAt(runs, r, file);
  }

  lemma MetBefore(db: Db, runs: seq<Run>, name: Name)
    requires runs != [] && MetTransactional(db, runs, name)
    ensures MetTransactional(db, runs[..|runs| - 1], name)
    ensures name !in Runs(db, runs[..|runs| - 1]).recorded ==>
      var last := runs[|runs| - 1].files;
      forall i :: 0 <= i < |last| && last[i].name == name ==> last[i].transactional
  {
    hide Runs;
    var n := |runs| - 1;
    forall r, file | 0 <= r < n && name !in Runs(db, runs[..n][..r]).recorded && file in runs[..n][r].files
      && file.name == name
      ensures file.transactional
    {
      assert runs[..n][..r] == runs[..r] && runs[..n][r] == runs[r];
    }
  }

  /** Once recorded, a file's record and effects stay through every later run. */
  lemma {:induction false} RecordedStays(db: Db, runs: seq<Run>, name: Name)
    requires name in db.recorded
    ensures FileKept(db, Runs(db, runs), name) && name in Runs(db, runs).recorded
  {
    if runs != [] {
      hide EffectsOf, RunOn;
      RecordedStays(db, runs[..|runs| - 1], name);
      RecordedNotReapplied(Runs(db, runs[..|runs| - 1]), runs[|runs| - 1], name);
    }
  }

  /** The exact exception, taking each batch as whole or not at all: an apply that
      fails leaves something behind only where the file runs without a
      transaction, and at least one of its batches had gone through. */
  lemma PartLeftBehind(db: Db, file: File, good: nat)
    requires good < Statements(file)
    ensures ApplyFile(db, file, good) != db <==> !file.transactional && file.batches > 0 && good >= 2
    ensures ApplyFile(db, file, good).recorded == db.recorded
  {
    if !file.transactional && good > 0 {
      var count := if good - 1 <= file.batches then good - 1 else file.batches;
      assert |db.effects + Effects(file.name, count)| == |db.effects| + count;
      if count == 0 {
        assert db.effects + Effects(file.name, count) == db.effects;
      }
    }
  }

  // ── Where the next run starts ────────────────────────────────────────────

  lemma {:induction false} PrefixRecorded(db: Db, pending: seq<File>, n: nat, name: Name)
    requires n <= |pending|
    ensures name in ApplyPrefix(db, pending, n).recorded
       <==> name in db.recorded || exists i :: 0 <= i < n && pending[i].name == name
  {
    if n > 0 {
      PrefixRecorded(db, pending, n - 1, name);
    }
  }

  lemma {:induction false} PendingTwice(db: Db, after: Db, files: seq<File>)
    requires forall name :: name in db.recorded ==> name in after.recorded
    ensures Pending(after, files) == Pending(after, Pending(db, files))
  {
    if files != [] {
      var m := |files| - 1;
      PendingTwice(db, after, files[..m]);
      var before := Pending(db, files[..m]);
      if files[m].name !in db.recorded {
        assert (before + [files[m]])[..|before + [files[m]]| - 1] == before;
      } else {
        assert Pending(db, files) == before + [] == before;
        assert Pending(after, files) == Pending(after, files[..m]) + [] == Pending(after, files[..m]);
      }
    }
  }

  lemma {:induction false} PendingRest(after: Db, pending: seq<File>, n: nat)
    requires n <= |pending| && forall i :: 0 <= i < |pending| ==> (pending[i].name in after.recorded <==> i < n)
    ensures Pending(after, pending) == pending[n..]
  {
    if pending != [] {
      var m := |pending| - 1;
      PendingRest(after, pending[..m], if n <= m then n else m);
    }
  }

  lemma PartRecordsNothing(db: Db, file: File, good: nat)
    requires good < Statements(file)
    ensures AppliedPart(db, file, good).recorded == db.recorded
  {
  }

  /** A later run over the same files resumes at the first file the earlier one
      did not record, in name order. */
  lemma RerunResumes(db: Db, run: Run)
    requires Ordered(run.files) && run.locked && !Unsafe(db, run.files)
    ensures
      var n := AppliedCount(RunOn(db, run).1);
      && n <= |Pending(db, run.files)|
      && Pending(RunOn(db, run).0, run.files) == Pending(db, run.files)[n..]
  {
    var pending := Pending(db, run.files);
    var result := ApplyAll(db, pending, run.good);
    var n := AppliedCount(result.1);
    RunAppliesPrefix(db, pending, run.good);
    PendingOrdered(db, run.files);
    var whole := ApplyPrefix(db, pending, n);
    hide ApplyAll, Pending, AppliedPart, Unsafe, ApplyPrefix;
    if result.1.Failed? {
      var good :| 0 <= good < Statements(pending[n]) && result.0 == AppliedPart(whole, pending[n], good);
      PartRecordsNothing(whole, pending[n], good);
    }
    assert result.0.recorded == whole.recorded;
    forall name ensures name in result.0.recorded
      <==> name in db.recorded || exists i :: 0 <= i < n && pending[i].name == name {
      PrefixRecorded(db, pending, n, name);
    }
    forall i | 0 <= i < |pending| ensures pending[i].name in result.0.recorded <==> i < n {
      PendingAre(db, run.files, i);
    }
    PendingTwice(db, result.0, run.files);
    PendingRest(result.0, pending, n);
  }
}
