/** What one run of the migration runner does, written out over the files on disk
    and the number of statements that succeed. */
module MigrateRules {
  import opened Wrappers
  import opened Migrate

  /** A recorded file of another text, or a new one that cannot be read. */
  ghost predicate SomethingWrong(db: Db, files: seq<File>) {
    exists file :: file in files
      && if file.name in db.recorded then db.recorded[file.name] !in {None, Some(file.checksum)} else !file.valid
  }

  /** The new files, in the order of their names. */
  ghost predicate NewFiles(pending: seq<File>, db: Db, files: seq<File>) {
    && (forall i, j :: 0 <= i < j < |pending| ==> pending[i].name < pending[j].name)
    && forall file :: file in pending <==> file in files && file.name !in db.recorded
  }

  /** A session setting, each batch and the record; with a transaction its two
      ends as well. */
  function Needs(file: File): nat { 1 + file.batches + 1 + if file.transactional then 2 else 0 }

  function NeedsOf(files: seq<File>): nat {
    if files == [] then 0 else NeedsOf(files[..|files| - 1]) + Needs(files[|files| - 1])
  }

  function Batches(file: File, n: nat): seq<Effect> { seq(n, i requires 0 <= i < n => Effect(file.name, i)) }

  function BatchesOf(files: seq<File>): seq<Effect> {
    if files == [] then []
    else BatchesOf(files[..|files| - 1]) + Batches(files[|files| - 1], files[|files| - 1].batches)
  }

  /** The batches that stay of a file that failed after `good` statements: none of
      a transaction, else all that went through after the setting. */
  function Left(file: File, good: nat): seq<Effect> {
    if file.transactional || good == 0 then []
    else Batches(file, if good - 1 < file.batches then good - 1 else file.batches)
  }

  /** The database after the first `n` files went through, with `left` besides. */
  ghost predicate After(db: Db, pending: seq<File>, n: nat, left: seq<Effect>, after: Db)
    requires n <= |pending|
  {
    && after.effects == db.effects + BatchesOf(pending[..n]) + left
    && RecordedAlso(db, pending[..n], after)
  }

  ghost predicate RecordedAlso(db: Db, files: seq<File>, after: Db) {
    && (forall name ::
          name in after.recorded <==> name in db.recorded || exists file :: file in files && file.name == name)
    && (forall file :: file in files ==>
          file.name in after.recorded && after.recorded[file.name] == Some(file.checksum))
    && (forall name :: name in db.recorded ==> name in after.recorded && after.recorded[name] == db.recorded[name])
  }

  // ── The new files ────────────────────────────────────────────────────────

  lemma {:induction false} PendingHas(db: Db, files: seq<File>, file: File)
    ensures file in Pending(db, files) <==> file in files && file.name !in db.recorded
  {
    if files != [] {
      PendingHas(db, files[..|files| - 1], file);
      assert files == files[..|files| - 1] + [files[|files| - 1]];
    }
  }

  lemma PendingAreNew(db: Db, files: seq<File>)
    requires Ordered(files)
    ensures NewFiles(Pending(db, files), db, files)
  {
    PendingOrdered(db, files);
    forall file ensures file in Pending(db, files) <==> file in files && file.name !in db.recorded {
      PendingHas(db, files, file);
    }
    hide Pending;
  }

  // ── The run ──────────────────────────────────────────────────────────────

  lemma WholeIs(db: Db, file: File)
    ensures AppliedWhole(db, file)
         == Db(db.recorded[file.name := Some(file.checksum)], db.effects + Batches(file, file.batches))
  {
    assert Effects(file.name, file.batches) == Batches(file, file.batches);
  }

  lemma PartIs(db: Db, file: File, good: nat)
    requires good < Statements(file)
    ensures AppliedPart(db, file, good) == db.(effects := db.effects + Left(file, good))
  {
    if file.transactional || good == 0 {
      assert db.effects + [] == db.effects;
    } else {
      var n := if good - 1 < file.batches then good - 1 else file.batches;
      assert Effects(file.name, n) == Batches(file, n);
    }
  }

  lemma {:induction false} PrefixIs(db: Db, pending: seq<File>, n: nat)
    requires n <= |pending| && Increasing(pending) && AllNew(db, pending)
    ensures After(db, pending, n, [], ApplyPrefix(db, pending, n))
  {
    hide After, AppliedWhole, Increasing, AllNew;
    if n > 0 {
      PrefixIs(db, pending, n - 1);
      AfterOne(db, pending, n - 1, ApplyPrefix(db, pending, n - 1));
    } else {
      AfterNone(db, pending);
    }
  }

  lemma AfterNone(db: Db, pending: seq<File>)
    ensures After(db, pending, 0, [], db)
  {
    assert pending[..0] == [] && db.effects + [] + [] == db.effects;
  }

  lemma AfterOne(db: Db, pending: seq<File>, n: nat, before: Db)
    requires n < |pending| && Increasing(pending) && AllNew(db, pending) && After(db, pending, n, [], before)
    ensures After(db, pending, n + 1, [], AppliedWhole(before, pending[n]))
  {
    var file := pending[n];
    WholeIs(before, file);
    NotYet(db, pending, n);
    hide AppliedWhole, RecordedAlso, Increasing, AllNew, Batches, BatchesOf;
    assert pending[..n + 1] == pending[..n] + [file];
    AlsoOne(db, pending[..n], before, file, AppliedWhole(before, file));
    BatchesSnoc(pending[..n], file);
    Regroup(db.effects, BatchesOf(pending[..n]), Batches(file, file.batches));
  }

  lemma Regroup(a: seq<Effect>, b: seq<Effect>, c: seq<Effect>)
    ensures a + b + [] + c == a + (b + c) + []
  {
  }

  lemma BatchesSnoc(files: seq<File>, file: File)
    ensures BatchesOf(files + [file]) == BatchesOf(files) + Batches(file, file.batches)
  {
    assert (files + [file])[..|files|] == files;
  }

  predicate Increasing(files: seq<File>) { forall i, j :: 0 <= i < j < |files| ==> files[i].name < files[j].name }

  predicate AllNew(db: Db, files: seq<File>) { forall file :: file in files ==> file.name !in db.recorded }

  lemma NotYet(db: Db, pending: seq<File>, n: nat)
    requires n < |pending| && Increasing(pending) && AllNew(db, pending)
    ensures pending[n].name !in db.recorded && forall file :: file in pending[..n] ==> file.name != pending[n].name
  {
    assert pending[n] in pending;
  }

  lemma AlsoOne(db: Db, files: seq<File>, before: Db, file: File, after: Db)
    requires RecordedAlso(db, files, before) && file.name !in db.recorded
    requires forall other :: other in files ==> other.name != file.name
    requires after.recorded == before.recorded[file.name := Some(file.checksum)]
    ensures RecordedAlso(db, files + [file], after)
  {
    assert forall other :: other in files + [file] <==> other in files || other == file;
    hide Batches;
    if file.name in before.recorded {
      assert false;
    }
  }

  /** How far the statements go: the files before `n`, and not the n-th. */
  ghost predicate Reaches(pending: seq<File>, n: int, good: nat) {
    && 0 <= n <= |pending| && NeedsOf(pending[..n]) <= good
    && (n < |pending| ==> good < NeedsOf(pending[..n]) + Needs(pending[n]))
  }

  lemma {:induction false} NeedsFrom(files: seq<File>)
    requires files != []
    ensures NeedsOf(files) == Needs(files[0]) + NeedsOf(files[1..])
  {
    var n := |files| - 1;
    if n > 0 {
      NeedsFrom(files[..n]);
      assert files[1..][..n - 1] == files[..n][1..];
    } else {
      assert files[..0] == [];
    }
  }

  /** The first `n` applied, and of the next what its share of the statements
      leaves. */
  ghost predicate Ran(db: Db, pending: seq<File>, n: int, good: nat, result: (Db, Outcome)) {
    && Reaches(pending, n, good)
    && result == if n == |pending| then (ApplyPrefix(db, pending, n), Finished(n))
                 else (AppliedPart(ApplyPrefix(db, pending, n), pending[n], good - NeedsOf(pending[..n])), Failed(n))
  }

  lemma {:induction false} RunReaches(db: Db, pending: seq<File>, good: nat) returns (n: nat)
    ensures Ran(db, pending, n, good, ApplyAll(db, pending, good))
    decreases |pending|
  {
    n := 0;
    if pending != [] {
      assert pending[..0] == [];
      if good >= Needs(pending[0]) {
        var next, left := AppliedWhole(db, pending[0]), good - Needs(pending[0]);
        var k := RunReaches(next, pending[1..], left);
        RanFrom(db, pending, k, good, ApplyAll(next, pending[1..], left));
        n := k + 1;
      }
    }
  }

  lemma RanFrom(db: Db, pending: seq<File>, k: nat, good: nat, rest: (Db, Outcome))
    requires pending != [] && good >= Needs(pending[0])
    requires Ran(AppliedWhole(db, pending[0]), pending[1..], k, good - Needs(pending[0]), rest)
    ensures Ran(db, pending, k + 1, good, Ahead(rest, 1))
  {
    hide AppliedWhole, AppliedPart, Needs;
    NeedsFrom(pending[..k + 1]);
    assert pending[..k + 1][1..] == pending[1..][..k];
    PrefixFrom(db, pending, k + 1);
    hide ApplyPrefix, NeedsOf;
  }

  /** The new files that went through, and what the run left and answered. */
  ghost predicate RunLeaves(db: Db, run: Run, pending: seq<File>, n: int, result: (Db, Outcome)) {
    && NewFiles(pending, db, run.files) && Reaches(pending, n, run.good)
    && if n == |pending| then result.1 == Finished(n) && After(db, pending, n, [], result.0)
       else result.1 == Failed(n)
            && After(db, pending, n, Left(pending[n], run.good - NeedsOf(pending[..n])), result.0)
  }

  /** A run without the lock or over files something is wrong with changes
      nothing. Any other applies the new files in name order, whole and recorded,
      for as far as its statements go, and leaves of the next what stays of it. */
  lemma RunRule(db: Db, run: Run)
    requires Ordered(run.files)
    ensures
      if !run.locked then RunOn(db, run) == (db, NotLocked)
      else if SomethingWrong(db, run.files) then RunOn(db, run) == (db, RefusedUnsafe)
      else exists pending, n :: RunLeaves(db, run, pending, n, RunOn(db, run))
  {
    RefusedRule(db, run);
    hide RunOn, ApplyAll, Ran, NewFiles, RunLeaves, Pending, Ordered, SomethingWrong;
    if run.locked && !SomethingWrong(db, run.files) {
      var pending := Pending(db, run.files);
      PendingAreNew(db, run.files);
      var n := RunReaches(db, pending, run.good);
      RanIs(db, run, pending, n);
    }
  }

  lemma RefusedRule(db: Db, run: Run)
    ensures
      RunOn(db, run)
      == if !run.locked then (db, NotLocked)
         else if SomethingWrong(db, run.files) then (db, RefusedUnsafe)
         else ApplyAll(db, Pending(db, run.files), run.good)
  {
    UnsafeIs(db, run.files);
    hide ApplyAll, Pending, SomethingWrong, Unsafe;
  }

  lemma RanIs(db: Db, run: Run, pending: seq<File>, n: nat)
    requires NewFiles(pending, db, run.files) && Ran(db, pending, n, run.good, ApplyAll(db, pending, run.good))
    ensures RunLeaves(db, run, pending, n, ApplyAll(db, pending, run.good))
  {
    hide ApplyPrefix, AppliedPart, ApplyAll, After, Left, NeedsOf;
    assert Increasing(pending) && AllNew(db, pending);
    hide NewFiles;
    PrefixIs(db, pending, n);
    if n < |pending| {
      PartAfter(db, pending, n, run.good - NeedsOf(pending[..n]));
    }
  }

  lemma PartAfter(db: Db, pending: seq<File>, n: nat, good: nat)
    requires n < |pending| && good < Needs(pending[n]) && After(db, pending, n, [], ApplyPrefix(db, pending, n))
    ensures After(db, pending, n, Left(pending[n], good), AppliedPart(ApplyPrefix(db, pending, n), pending[n], good))
  {
    hide ApplyPrefix, AppliedPart, BatchesOf, Left;
    PartIs(ApplyPrefix(db, pending, n), pending[n], good);
  }

  lemma UnsafeIs(db: Db, files: seq<File>)
    ensures Unsafe(db, files) <==> SomethingWrong(db, files)
  {
    if Unsafe(db, files) {
      var i :| 0 <= i < |files| && (Changed(db, files[i]) || (files[i].name !in db.recorded && !files[i].valid));
      assert files[i] in files;
    }
  }
}
