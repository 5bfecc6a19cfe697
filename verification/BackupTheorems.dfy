/**
  What retention, safe copies and restores keep, over every run, and where the documented promises stop.
 */
module BackupTheorems {
  import opened Wrappers
  import Settings
  import opened Backups

  /******* Retention *******/

  // Pruning removes exactly the files past the window that no pre-restore row of the current ledger protects and that
  // can be removed, and with them their ledger rows; no other file, no other row and none of the contents change.
  lemma PruneExact(w: World, now: int, days: int, stuck: set<Name>, stuckExports: set<Name>, n: Name)
    ensures var w' := Prune(w, now, days, stuck, stuckExports);
            var goes := n in w.disk && days > 0 && w.disk[n].mtime < now - days * 86400
                        && !(n in w.db.ledger && w.db.ledger[n].trigger == PreRestore) && n !in stuck;
      && (n in w'.disk <==> n in w.disk && !goes)
      && (n in w'.disk ==> w'.disk[n] == w.disk[n])
      && (n in w'.db.ledger <==> n in w.db.ledger && !goes)
      && (n in w'.db.ledger ==> w'.db.ledger[n] == w.db.ledger[n])
      && w'.db.contents == w.db.contents
  {
  }

  // Of the JSON exports it removes those that belong to a removed file, unless they cannot be removed; and it logs how
  // many files went, if any did.
  lemma PruneRest(w: World, now: int, days: int, stuck: set<Name>, stuckExports: set<Name>, e: Name)
    ensures var w' := Prune(w, now, days, stuck, stuckExports);
            var gone := w.disk.Keys - w'.disk.Keys;
      && (e in w'.exports <==> e in w.exports && (e in stuckExports || forall n :: n in gone ==> ExportOf(w.db.ledger, n) != e))
      && (e in w'.exports ==> w'.exports[e] == w.exports[e])
      && w'.db.audit == w.db.audit + if gone == {} then [] else [Pruned(|gone|)]
  {
    var w' := Prune(w, now, days, stuck, stuckExports);
    var gone := if days <= 0 then {} else ExpiredFiles(w, now - days * DAY, stuck);
    assert w.disk.Keys - w'.disk.Keys == gone;
  }

  lemma PruneAgain(w: World, now: int, days: int, stuck: set<Name>, stuckExports: set<Name>)
    ensures var w' := Prune(w, now, days, stuck, stuckExports);
      Prune(w', now, days, stuck, stuckExports) == w'
  {
    var w' := Prune(w, now, days, stuck, stuckExports);
    if days > 0 {
      var cutoff := now - days * DAY;
      assert ExpiredFiles(w', cutoff, stuck) == {} by {
        forall n | n in w'.disk ensures !Expired(w', cutoff, stuck, n) {
          PruneExact(w, now, days, stuck, stuckExports, n);
        }
      }
      assert ExpiredExports(w', {}, stuckExports) == {};
      assert w'.disk - {} == w'.disk && w'.exports - {} == w'.exports;
    }
  }

  /******* One backup *******/

  // A backup reported as taken has a success row and, on disk, a complete dump of the database it was asked to save,
  // in which the only difference is its own pending row. Other files may be pruned, but none is changed or added.
  lemma BackupIsComplete(w: World, a: Attempt, trigger: Trigger, days: int)
    requires Ready(w, a) && Create(w, a, trigger, days).1
    ensures var w' := Create(w, a, trigger, days).0;
      && a.name !in w.db.ledger
      && a.name in w'.disk && w'.disk[a.name] == File(Some(Opened(w.db, a.name, trigger)), a.now)
      && a.name in w'.db.ledger && w'.db.ledger[a.name] == LedgerRow(Success, trigger, Some(a.name))
      && w'.db.contents == w.db.contents
      && forall n :: n in w'.disk && n != a.name ==> n in w.disk && w'.disk[n] == w.disk[n]
  {
    PruneExact(Stored(w, a, trigger), a.now, days, a.stuck, a.stuckExports, a.name);
  }

  // How each attempt ends in the ledger, in the audit log and on disk, unless its name is taken, which leaves
  // everything as it is.
  lemma BackupOutcomes(w: World, a: Attempt, trigger: Trigger, days: int)
    requires Ready(w, a)
    ensures Create(w, a, trigger, days).1 <==> a.name !in w.db.ledger && a.fate == Completes
    ensures a.name in w.db.ledger ==> Create(w, a, trigger, days).0 == w
    ensures var w' := Create(w, a, trigger, days).0;
      a.name !in w.db.ledger ==>
        && a.name in w'.db.ledger && w'.db.ledger[a.name].trigger == trigger
        && (match a.fate
            case Dies =>
              && w'.db.ledger[a.name] == LedgerRow(Pending, trigger, None) && w'.db.audit == w.db.audit
              && a.name in w'.disk && w'.disk[a.name].image == None
            case Completes =>
              && w'.db.ledger[a.name] == LedgerRow(Success, trigger, Some(a.name)) && w.db.audit + [Created] <= w'.db.audit
              && (a.name in w'.exports ==> w'.exports[a.name] == Settings.Export(w.db.contents.settings, a.order))
              && (days <= 0 ==> a.name in w'.exports)
            case _ =>
              && w'.db.ledger[a.name] == LedgerRow(Failed, trigger, None) && w'.db.audit == w.db.audit + [CreateFailed]
              && (a.name in w'.disk <==> a.leftover))
  {
    if Create(w, a, trigger, days).1 {
      BackupIsComplete(w, a, trigger, days);
      PruneRest(Stored(w, a, trigger), a.now, days, a.stuck, a.stuckExports, a.name);
    }
  }

  // A backup that fails leaves contents, other rows and other files alone.
  lemma FailedBackupFrame(w: World, a: Attempt, trigger: Trigger, days: int, n: Name)
    requires Ready(w, a) && !Create(w, a, trigger, days).1 && n != a.name
    ensures var w' := Create(w, a, trigger, days).0;
      && w'.db.contents == w.db.contents && w'.exports == w.exports
      && (n in w'.disk <==> n in w.disk) && (n in w.disk ==> w'.disk[n] == w.disk[n])
      && (n in w'.db.ledger <==> n in w.db.ledger) && (n in w.db.ledger ==> w'.db.ledger[n] == w.db.ledger[n])
  {
  }

  // What a backup leaves on disk under any name is what was there before, or its own dump.
  lemma BackupDisk(w: World, a: Attempt, trigger: Trigger, days: int, n: Name)
    requires Ready(w, a)
    ensures var w' := Create(w, a, trigger, days).0;
      n in w'.disk ==>
        || (n in w.disk && w'.disk[n] == w.disk[n])
        || (n == a.name && w'.disk[n].image in {None, Some(Opened(w.db, n, trigger))})
  {
    if Create(w, a, trigger, days).1 {
      PruneExact(Stored(w, a, trigger), a.now, days, a.stuck, a.stuckExports, n);
    }
  }

  lemma BackupKeepsContents(w: World, a: Attempt, trigger: Trigger, days: int)
    requires Ready(w, a)
    ensures Create(w, a, trigger, days).0.db.contents == w.db.contents
  {
    if Create(w, a, trigger, days).1 {
      BackupIsComplete(w, a, trigger, days);
    }
  }

  /******* Restore *******/

  predicate Loads(r: Result) {
    r == Done || r == ReplayFailed
  }

  // What a restore reports short of the load.
  lemma RestoreOutcomes(w: World, target: Name, a: Attempt, days: int, psqlOk: bool, replay: bool)
    requires Ready(w, a)
    ensures var (w', r) := Restore(w, target, a, days, psqlOk, replay);
      && (r == NoSuchFile <==> target !in w.disk)
      && (r == SafeCopyFailed <==> target in w.disk && (a.name in w.db.ledger || a.fate != Completes))
      && (r == NoSuchFile ==> w' == w)
      && (r == SafeCopyFailed ==>
            w'.db.audit == w.db.audit
              + if a.name in w.db.ledger || a.fate == Dies then [] else [CreateFailed, RestoreFailed])
  {
    BackupOutcomes(w, a, PreRestore, days);
  }

  // And what it logs last once it has come to the load.
  lemma RestoreLogs(w: World, target: Name, now: int, psqlOk: bool, replay: bool)
    ensures var (w', r) := Load(w, target, now, psqlOk, replay);
            var last := if w'.db.audit == [] then None else Some(w'.db.audit[|w'.db.audit| - 1]);
      && (r == LoadFailed ==> last == Some(RestoreFailed))
      && (r == ReplayFailed ==> last == Some(Restored))
      && (r == Done ==> last == Some(if replay then Replayed else Restored))
  {
  }

  // Without the replay the database after a restore is the dump's, with the restore logged in it.
  lemma RestoredIsTheDump(w: World, target: Name, a: Attempt, days: int, psqlOk: bool)
    requires Ready(w, a) && Loads(Restore(w, target, a, days, psqlOk, false).1)
    ensures var w', r := Restore(w, target, a, days, psqlOk, false).0, Restore(w, target, a, days, psqlOk, false).1;
      && r == Done && target in w'.disk && w'.disk[target].image.Some?
      && var dump := w'.disk[target].image.value;
         w'.db == Db(dump.contents, dump.ledger, dump.audit + [Restored])
  {
  }

  // Whenever a restore replaces the database, a complete safe copy of the database it replaced is on disk, and the
  // pruning of that very run has not taken it.
  lemma SafeCopyFirst(w: World, target: Name, a: Attempt, days: int, psqlOk: bool, replay: bool)
    requires Ready(w, a) && Loads(Restore(w, target, a, days, psqlOk, replay).1)
    ensures var w' := Restore(w, target, a, days, psqlOk, replay).0;
      a.name in w'.disk && w'.disk[a.name] == File(Some(Opened(w.db, a.name, PreRestore)), a.now)
  {
    BackupIsComplete(w, a, PreRestore, days);
  }

  // A restore that stops before the load, or whose load fails, leaves the contents as they were. This rests on the
  // load being all or nothing: a dump that ends early is taken not to load, while the program, on such a file, closes
  // the input of psql, which may then commit the part it has read.
  lemma FailedRestoreKeepsContents(w: World, target: Name, a: Attempt, days: int, psqlOk: bool, replay: bool)
    requires Ready(w, a) && !Loads(Restore(w, target, a, days, psqlOk, replay).1)
    ensures Restore(w, target, a, days, psqlOk, replay).0.db.contents == w.db.contents
  {
    if target in w.disk {
      BackupKeepsContents(w, a, PreRestore, days);
    }
  }

  // When a restore gets as far as replacing the database: the target is there, the safe copy is taken, the load goes
  // through, and the target is complete and left by the pruning, or is the file the safe copy has just been written to.
  lemma ReplacesIff(w: World, target: Name, a: Attempt, days: int, psqlOk: bool, replay: bool)
    requires Ready(w, a)
    ensures Loads(Restore(w, target, a, days, psqlOk, replay).1) <==>
      && target in w.disk && a.name !in w.db.ledger && a.fate == Completes && psqlOk
      && (target == a.name || (
            && w.disk[target].image.Some?
            && (days <= 0 || w.disk[target].mtime >= a.now - days * DAY || Protected(w.db.ledger, target) || target in a.stuck)))
  {
    if target in w.disk && Create(w, a, PreRestore, days).1 {
      PruneExact(Stored(w, a, PreRestore), a.now, days, a.stuck, a.stuckExports, target);
    }
  }

  predicate Replaces(w: World, op: Op, days: int)
    requires Enabled(w, op)
  {
    op.RestoreFrom? && Loads(Restore(w, op.target, op.safe, days, op.psqlOk, op.replay).1)
  }

  // In every run, then: contents change only by ordinary work, or by a restore that leaves a complete copy of the
  // database it replaced.
  lemma ContentsChangeOnlySafely(w: World, op: Op, days: int)
    requires Enabled(w, op) && Next(w, op, days).db.contents != w.db.contents
    ensures op.Work? || Replaces(w, op, days)
    ensures op.RestoreFrom? ==>
      var w' := Next(w, op, days);
      op.safe.name in w'.disk && w'.disk[op.safe.name].image == Some(Opened(w.db, op.safe.name, PreRestore))
  {
    match op
    case TakeBackup(a, trigger) => BackupKeepsContents(w, a, trigger, days);
    case RestoreFrom(target, a, psqlOk, replay) =>
      if Replaces(w, op, days) {
        SafeCopyFirst(w, target, a, days, psqlOk, replay);
      } else {
        FailedRestoreKeepsContents(w, target, a, days, psqlOk, replay);
      }
    case _ =>
  }

  /******* The row that is still pending *******/

  // Each dump holds its own ledger row, if any, as the dump found it: pending, and without the names of its exports.
  ghost predicate SelfPending(name: Name, file: File) {
    file.image.Some? && name in file.image.value.ledger ==>
      var row := file.image.value.ledger[name]; row.status == Pending && row.settingsExport.None?
  }

  ghost predicate Honest(w: World) {
    forall n :: n in w.disk ==> SelfPending(n, w.disk[n])
  }

  lemma CreateKeepsHonest(w: World, a: Attempt, trigger: Trigger, days: int)
    requires Honest(w) && Ready(w, a)
    ensures Honest(Create(w, a, trigger, days).0)
  {
    var w' := Create(w, a, trigger, days).0;
    forall n | n in w'.disk ensures SelfPending(n, w'.disk[n]) {
      BackupDisk(w, a, trigger, days, n);
    }
  }

  lemma RestoreDisk(w: World, target: Name, a: Attempt, days: int, psqlOk: bool, replay: bool)
    requires Ready(w, a) && target in w.disk
    ensures Restore(w, target, a, days, psqlOk, replay).0.disk == Create(w, a, PreRestore, days).0.disk
  {
  }

  lemma NextKeepsHonest(w: World, op: Op, days: int)
    requires Honest(w) && Enabled(w, op) && (op.CopyIn? ==> SelfPending(op.copied, op.file))
    ensures Honest(Next(w, op, days))
  {
    match op
    case TakeBackup(a, trigger) => CreateKeepsHonest(w, a, trigger, days);
    case RestoreFrom(target, a, psqlOk, replay) =>
      if target in w.disk {
        CreateKeepsHonest(w, a, PreRestore, days);
        RestoreDisk(w, target, a, days, psqlOk, replay);
      }
    case PruneNow(now, stuck, stuckExports) =>
      forall n | n in Next(w, op, days).disk ensures SelfPending(n, Next(w, op, days).disk[n]) {
        PruneExact(w, now, days, stuck, stuckExports, n);
      }
    case _ =>
  }

  lemma {:induction false} RunKeepsHonest(w: World, ops: seq<Op>, days: int)
    requires Honest(w) && Runs(w, ops, days)
    requires forall op :: op in ops && op.CopyIn? ==> SelfPending(op.copied, op.file)
    ensures Honest(Run(w, ops, days))
    decreases |ops|
  {
    if ops != [] {
      assert ops[0] in ops;
      NextKeepsHonest(w, ops[0], days);
      RunKeepsHonest(Next(w, ops[0], days), ops[1..], days);
    }
  }

  // The replay of JSON exports looks for their names in the row of the database just restored, and that row is the
  // pending one. So, whatever has happened since the start, opting in replays nothing and cannot fail: the contents
  // after a restore are those of the dump.
  lemma OptedInReplayDoesNothing(w: World, ops: seq<Op>, days: int, target: Name, a: Attempt, psqlOk: bool, replay: bool)
    requires Honest(w) && Runs(w, ops, days) && Ready(Run(w, ops, days), a)
    requires forall op :: op in ops && op.CopyIn? ==> SelfPending(op.copied, op.file)
    ensures var (w', r) := Restore(Run(w, ops, days), target, a, days, psqlOk, replay);
      && r != ReplayFailed
      && (r == Done ==> target in w'.disk && w'.disk[target].image.Some?
                        && w'.db.contents == w'.disk[target].image.value.contents
                        && w'.db.ledger == w'.disk[target].image.value.ledger
                        && (target in w'.db.ledger ==> w'.db.ledger[target].status == Pending))
      && (r != Done ==> w'.db.contents == Run(w, ops, days).db.contents)
  {
    RunKeepsHonest(w, ops, days);
    RestoreHonest(Run(w, ops, days), target, a, days, psqlOk, replay);
  }

  lemma RestoreHonest(w: World, target: Name, a: Attempt, days: int, psqlOk: bool, replay: bool)
    requires Honest(w) && Ready(w, a)
    ensures var (w', r) := Restore(w, target, a, days, psqlOk, replay);
      && r != ReplayFailed
      && (r == Done ==> target in w'.disk && w'.disk[target].image.Some?
                        && w'.db.contents == w'.disk[target].image.value.contents
                        && w'.db.ledger == w'.disk[target].image.value.ledger
                        && (target in w'.db.ledger ==> w'.db.ledger[target].status == Pending))
      && (r != Done ==> w'.db.contents == w.db.contents)
  {
    if target in w.disk {
      CreateKeepsHonest(w, a, PreRestore, days);
      BackupKeepsContents(w, a, PreRestore, days);
    }
  }

  function NamedExport(db: Db, target: Name): Option<Name> {
    if target in db.ledger then db.ledger[target].settingsExport else None
  }

  // What an opted-in replay does once the dump is loaded, decided by the row the dump holds of itself. If that row
  // names no export, the contents are the dump's. If it names one that is on disk, and only then, the settings are the
  // dump's with that export restored into them; if it is missing, the restore fails with the contents replaced.
  lemma ReplayExactly(w: World, target: Name, a: Attempt, days: int)
    requires Ready(w, a) && Loads(Restore(w, target, a, days, true, true).1)
    ensures var w1 := Create(w, a, PreRestore, days).0;
      && target in w1.disk && w1.disk[target].image.Some?
      && var dump, (w', r) := w1.disk[target].image.value, Restore(w, target, a, days, true, true);
        match NamedExport(dump, target)
        case None => r == Done && w'.db.contents == dump.contents
        case Some(e) =>
          && (r == Done <==> e in w1.exports)
          && (r == Done ==>
                w'.db.contents == dump.contents.(settings := Settings.Restore(dump.contents.settings, w1.exports[e], a.now)))
          && (r == ReplayFailed ==> w'.db.contents == dump.contents)
  {
    BackupIsComplete(w, a, PreRestore, days);
  }

  // A dump made elsewhere, whose row names an export that is on disk: the replay brings in a setting the dump lacks.
  lemma ReplayHappens()
    ensures exists w: World, a: Attempt ::
      && Ready(w, a)
      && Restore(w, "old", a, 0, true, true).1 == Done
      && "old" in w.disk && w.disk["old"].image.Some? && w.disk["old"].image.value.contents.settings == map[]
      && "k" in Restore(w, "old", a, 0, true, true).0.db.contents.settings
  {
    var row := LedgerRow(Success, Manual, Some("old"));
    var dump := Db(Contents("", map[]), map["old" := row], []);
    var raw := Settings.Raw(Some("k"), Settings.Text("5"), None, None, false);
    var w := World(Db(Contents("", map[]), map[], []), map["old" := File(Some(dump), 0)], map["old" := [raw]]);
    var a := Attempt("safe", 0, Completes, false, {}, {}, []);
    assert Settings.Listing([], map[]);
    assert Ready(w, a);
    ReplacesIff(w, "old", a, 0, true, true);
    ReplayExactly(w, "old", a, 0);
    Settings.RestoredValue(map[], [raw], 0, 1, "k");
  }

  // When a restore fails after the contents have been replaced.
  lemma ReplayFailsIff(w: World, target: Name, now: int, psqlOk: bool, replay: bool)
    ensures Load(w, target, now, psqlOk, replay).1 == ReplayFailed <==>
      && target in w.disk && w.disk[target].image.Some? && psqlOk && replay
      && target in w.disk[target].image.value.ledger
      && w.disk[target].image.value.ledger[target].settingsExport.Some?
      && w.disk[target].image.value.ledger[target].settingsExport.value !in w.exports
  {
  }

  /******* How long a safe copy is kept *******/

  // No restore of the run replaces the database, and nobody overwrites the file by hand.
  ghost predicate LeavesAlone(w: World, ops: seq<Op>, days: int, n: Name)
    requires Runs(w, ops, days)
    decreases |ops|
  {
    ops == [] || (
      && !Replaces(w, ops[0], days)
      && !(ops[0].CopyIn? && ops[0].copied == n)
      && LeavesAlone(Next(w, ops[0], days), ops[1..], days, n))
  }

  predicate Kept(w: World, n: Name, file: File) {
    n in w.disk && w.disk[n] == file && Protected(w.db.ledger, n)
  }

  lemma CreateKeeps(w: World, a: Attempt, trigger: Trigger, days: int, n: Name, file: File)
    requires Ready(w, a) && Kept(w, n, file)
    ensures Kept(Create(w, a, trigger, days).0, n, file)
  {
    if Create(w, a, trigger, days).1 {
      PruneExact(Stored(w, a, trigger), a.now, days, a.stuck, a.stuckExports, n);
    } else if n != a.name {
      FailedBackupFrame(w, a, trigger, days, n);
    }
  }

  lemma NextKeeps(w: World, op: Op, days: int, n: Name, file: File)
    requires Enabled(w, op) && Kept(w, n, file) && !Replaces(w, op, days) && !(op.CopyIn? && op.copied == n)
    ensures Kept(Next(w, op, days), n, file)
  {
    match op
    case TakeBackup(a, trigger) => CreateKeeps(w, a, trigger, days, n, file);
    case RestoreFrom(target, a, psqlOk, replay) => CreateKeeps(w, a, PreRestore, days, n, file);
    case PruneNow(now, stuck, stuckExports) => PruneExact(w, now, days, stuck, stuckExports, n);
    case _ =>
  }

  // The documented promise, as far as it goes: a safe copy is kept, whatever its age, until a restore next replaces the
  // database.
  lemma {:induction false} KeptUntilReplaced(w: World, ops: seq<Op>, days: int, n: Name, file: File)
    requires Runs(w, ops, days) && LeavesAlone(w, ops, days, n) && Kept(w, n, file)
    ensures Kept(Run(w, ops, days), n, file)
    decreases |ops|
  {
    if ops != [] {
      NextKeeps(w, ops[0], days, n, file);
      KeptUntilReplaced(Next(w, ops[0], days), ops[1..], days, n, file);
    }
  }

  // Where it stops: the restore the copy was made for replaces the ledger by the dump's. The next pruning then removes
  // the copy exactly when it is past the window and the dump's ledger does not list it as a safe copy.
  lemma SafeCopyPrunedIff(w: World, target: Name, a: Attempt, days: int, later: int, stuck: set<Name>)
    requires Ready(w, a) && target in w.disk && w.disk[target].image.Some? && target != a.name
    requires Restore(w, target, a, days, true, false).1 == Done
    ensures var w' := Restore(w, target, a, days, true, false).0;
      a.name in w'.disk
      && (a.name in Prune(w', later, days, stuck, {}).disk <==>
            || days <= 0 || later <= a.now + days * DAY || a.name in stuck
            || Protected(w.disk[target].image.value.ledger, a.name))
  {
    BackupIsComplete(w, a, PreRestore, days);
    PruneExact(Stored(w, a, PreRestore), a.now, days, a.stuck, a.stuckExports, target);
    var w' := Restore(w, target, a, days, true, false).0;
    assert w'.db.ledger == w.disk[target].image.value.ledger;
    PruneExact(w', later, days, stuck, {}, a.name);
  }

  // So the copy of an ordinary restore does not outlive the window: an input for which the promise fails.
  lemma SafeCopyIsLost()
    ensures exists w: World, a: Attempt, later: int ::
      && Ready(w, a)
      && Restore(w, "old", a, 1, true, false).1 == Done
      && a.name in Restore(w, "old", a, 1, true, false).0.disk
      && a.name !in Prune(Restore(w, "old", a, 1, true, false).0, later, 1, {}, {}).disk
  {
    var empty := Db(Contents("", map[]), map[], []);
    var w := World(empty, map["old" := File(Some(empty), 0)], map[]);
    var a := Attempt("safe", 0, Completes, false, {}, {}, []);
    assert Settings.Listing([], map[]);
    assert Ready(w, a);
    ReplacesIff(w, "old", a, 1, true, false);
    SafeCopyPrunedIff(w, "old", a, 1, 2 * DAY, {});
  }

  /******* Going back *******/

  // Restoring the safe copy brings back the contents from before the first restore, whatever the database has become
  // since; it succeeds exactly when the new safe copy can be taken, the load goes through, and the pruning in between
  // has not removed the old copy.
  lemma RevertRoundTrip(w: World, safe: Name, w2: World, a: Attempt, days: int, psqlOk: bool, replay: bool)
    requires safe in w2.disk && w2.disk[safe].image == Some(Opened(w.db, safe, PreRestore))
    requires Ready(w2, a) && safe != a.name
    ensures var (w', r) := Restore(w2, safe, a, days, psqlOk, replay);
      && (r == Done <==>
            && a.name !in w2.db.ledger && a.fate == Completes && psqlOk
            && (days <= 0 || w2.disk[safe].mtime >= a.now - days * DAY || Protected(w2.db.ledger, safe) || safe in a.stuck))
      && (r == Done ==> w'.db.contents == w.db.contents && w'.db.ledger == Opened(w.db, safe, PreRestore).ledger)
      && (r != Done ==> w'.db.contents == w2.db.contents)
  {
    ReplacesIff(w2, safe, a, days, psqlOk, replay);
    BackupKeepsContents(w2, a, PreRestore, days);
    BackupDisk(w2, a, PreRestore, days, safe);
  }

  predicate Writes(op: Op, n: Name) {
    match op
    case CopyIn(name, _) => name == n
    case TakeBackup(a, _) => a.name == n
    case RestoreFrom(_, a, _, _) => a.name == n
    case _ => false
  }

  // The operation prunes nothing, or does so while a file of that time is within the window.
  predicate WithinWindow(op: Op, mtime: int, days: int) {
    match op
    case TakeBackup(a, _) => days <= 0 || a.now <= mtime + days * DAY
    case RestoreFrom(_, a, _, _) => days <= 0 || a.now <= mtime + days * DAY
    case PruneNow(now, _, _) => days <= 0 || now <= mtime + days * DAY
    case _ => true
  }

  lemma CreateKeepsFile(w: World, a: Attempt, trigger: Trigger, days: int, n: Name)
    requires Ready(w, a) && n in w.disk && n != a.name && (days <= 0 || a.now <= w.disk[n].mtime + days * DAY)
    ensures var w' := Create(w, a, trigger, days).0; n in w'.disk && w'.disk[n] == w.disk[n]
  {
    if Create(w, a, trigger, days).1 {
      PruneExact(Stored(w, a, trigger), a.now, days, a.stuck, a.stuckExports, n);
    } else {
      FailedBackupFrame(w, a, trigger, days, n);
    }
  }

  lemma StepKeepsFile(w: World, op: Op, days: int, n: Name)
    requires Enabled(w, op) && n in w.disk && !Writes(op, n) && WithinWindow(op, w.disk[n].mtime, days)
    ensures n in Next(w, op, days).disk && Next(w, op, days).disk[n] == w.disk[n]
  {
    match op
    case TakeBackup(a, trigger) => CreateKeepsFile(w, a, trigger, days, n);
    case RestoreFrom(target, a, psqlOk, replay) =>
      if target in w.disk {
        CreateKeepsFile(w, a, PreRestore, days, n);
        RestoreDisk(w, target, a, days, psqlOk, replay);
      }
    case PruneNow(now, stuck, stuckExports) => PruneExact(w, now, days, stuck, stuckExports, n);
    case _ =>
  }

  lemma {:induction false} RunKeepsFile(w: World, ops: seq<Op>, days: int, n: Name)
    requires Runs(w, ops, days) && n in w.disk
    requires forall op :: op in ops ==> !Writes(op, n) && WithinWindow(op, w.disk[n].mtime, days)
    ensures n in Run(w, ops, days).disk && Run(w, ops, days).disk[n] == w.disk[n]
    decreases |ops|
  {
    if ops != [] {
      assert ops[0] in ops;
      StepKeepsFile(w, ops[0], days, n);
      RunKeepsFile(Next(w, ops[0], days), ops[1..], days, n);
    }
  }

  // For the length of the retention window a restore can be undone, whatever is done in between, further restores
  // included: as long as nothing writes a file of the same name, restoring its safe copy brings back the contents
  // from before it.
  lemma RevertWithinWindow(w: World, first: Op, ops: seq<Op>, b: Attempt, days: int, replay: bool)
    requires Enabled(w, first) && Replaces(w, first, days) && Runs(Next(w, first, days), ops, days)
    requires forall op :: op in ops ==> !Writes(op, first.safe.name) && WithinWindow(op, first.safe.now, days)
    requires var w2 := Run(Next(w, first, days), ops, days);
      Ready(w2, b) && b.name != first.safe.name && b.name !in w2.db.ledger && b.fate == Completes
      && (days <= 0 || b.now <= first.safe.now + days * DAY)
    ensures var (w', r) := Restore(Run(Next(w, first, days), ops, days), first.safe.name, b, days, true, replay);
      r == Done && w'.db.contents == w.db.contents
  {
    var a, w1 := first.safe, Next(w, first, days);
    SafeCopyFirst(w, first.target, a, days, first.psqlOk, first.replay);
    RunKeepsFile(w1, ops, days, a.name);
    RevertRoundTrip(w, a.name, Run(w1, ops, days), b, days, true, replay);
  }

  /******* The ledger *******/

  // Every backup the ledger calls a success has its complete file.
  ghost predicate Truthful(w: World) {
    forall n :: n in w.db.ledger && w.db.ledger[n].status == Success ==> n in w.disk && w.disk[n].image.Some?
  }

  lemma CreateKeepsTruth(w: World, a: Attempt, trigger: Trigger, days: int)
    requires Ready(w, a) && Truthful(w)
    ensures Truthful(Create(w, a, trigger, days).0)
  {
    var w' := Create(w, a, trigger, days).0;
    forall n | n in w'.db.ledger && w'.db.ledger[n].status == Success
      ensures n in w'.disk && w'.disk[n].image.Some?
    {
      if Create(w, a, trigger, days).1 {
        PruneExact(Stored(w, a, trigger), a.now, days, a.stuck, a.stuckExports, n);
      } else if n != a.name {
        FailedBackupFrame(w, a, trigger, days, n);
      }
    }
  }

  lemma NextKeepsTruth(w: World, op: Op, days: int)
    requires Enabled(w, op) && Truthful(w) && !Replaces(w, op, days) && (op.CopyIn? ==> op.file.image.Some?)
    ensures Truthful(Next(w, op, days))
  {
    match op
    case TakeBackup(a, trigger) => CreateKeepsTruth(w, a, trigger, days);
    case RestoreFrom(target, a, psqlOk, replay) => CreateKeepsTruth(w, a, PreRestore, days);
    case PruneNow(now, stuck, stuckExports) =>
      forall n | n in Next(w, op, days).db.ledger && Next(w, op, days).db.ledger[n].status == Success
        ensures n in Next(w, op, days).disk && Next(w, op, days).disk[n].image.Some?
      {
        PruneExact(w, now, days, stuck, stuckExports, n);
      }
    case _ =>
  }

  ghost predicate NeverReplaces(w: World, ops: seq<Op>, days: int)
    requires Runs(w, ops, days)
    decreases |ops|
  {
    ops == [] || (
      && !Replaces(w, ops[0], days)
      && (ops[0].CopyIn? ==> ops[0].file.image.Some?)
      && NeverReplaces(Next(w, ops[0], days), ops[1..], days))
  }

  // Through failures, crashes and prunings, and restores that do not get as far as the load, the ledger's successes
  // are on disk.
  lemma {:induction false} LedgerStaysTruthful(w: World, ops: seq<Op>, days: int)
    requires Runs(w, ops, days) && NeverReplaces(w, ops, days) && Truthful(w)
    ensures Truthful(Run(w, ops, days))
    decreases |ops|
  {
    if ops != [] {
      NextKeepsTruth(w, ops[0], days);
      LedgerStaysTruthful(Next(w, ops[0], days), ops[1..], days);
    }
  }
}
