/**
  Backups as the program carries them out: ledger rows set one after the other, files written and removed one by one,
  and the prune as a loop over the directory; proved against the steps on values.
 */
module BackupManager {
  import opened Wrappers
  import Settings
  import opened Backups

  // The world after the expired files in gone have been removed, before the prune is logged.
  ghost function PrunedTo(w: World, gone: set<Name>, stuckExports: set<Name>): World {
    World(w.db.(ledger := w.db.ledger - gone), w.disk - gone, w.exports - ExpiredExports(w, gone, stuckExports))
  }

  ghost function ExpiredAmong(w: World, cutoff: int, stuck: set<Name>, files: seq<Name>): set<Name> {
    set n | n in files && Expired(w, cutoff, stuck, n)
  }

  lemma ExpiredAmongStep(w: World, cutoff: int, stuck: set<Name>, files: seq<Name>, i: nat)
    requires i < |files|
    requires forall j :: 0 <= j < i ==> files[j] != files[i]
    ensures files[i] !in ExpiredAmong(w, cutoff, stuck, files[..i])
    ensures ExpiredAmong(w, cutoff, stuck, files[..i + 1])
         == ExpiredAmong(w, cutoff, stuck, files[..i]) + if Expired(w, cutoff, stuck, files[i]) then {files[i]} else {}
  {
    assert files[..i + 1] == files[..i] + [files[i]];
  }

  lemma ExpiredExportsStep(w: World, gone: set<Name>, stuckExports: set<Name>, n: Name)
    ensures var e := ExportOf(w.db.ledger, n);
      ExpiredExports(w, gone + {n}, stuckExports)
        == ExpiredExports(w, gone, stuckExports) + if e in stuckExports then {} else {e}
  {
    var names := set m | m in gone :: ExportOf(w.db.ledger, m);
    assert (set m | m in gone + {n} :: ExportOf(w.db.ledger, m)) == names + {ExportOf(w.db.ledger, n)};
  }

  lemma PrunedToNothing(w: World, stuckExports: set<Name>)
    ensures PrunedTo(w, {}, stuckExports) == w
  {
    assert w.db.ledger - {} == w.db.ledger && w.disk - {} == w.disk;
    assert w.exports - ExpiredExports(w, {}, stuckExports) == w.exports;
  }

  lemma AllVisited(w: World, cutoff: int, stuck: set<Name>, files: seq<Name>)
    requires forall n :: n in files <==> n in w.disk
    ensures ExpiredAmong(w, cutoff, stuck, files[..|files|]) == ExpiredFiles(w, cutoff, stuck)
  {
    assert files[..|files|] == files;
  }

  lemma PrunedToStep(w: World, gone: set<Name>, stuckExports: set<Name>, n: Name)
    requires n !in gone
    ensures var t, e := PrunedTo(w, gone, stuckExports), ExportOf(w.db.ledger, n);
      PrunedTo(w, gone + {n}, stuckExports)
        == World(t.db.(ledger := t.db.ledger - {n}), t.disk - {n}, t.exports - if e in stuckExports then {} else {e})
  {
    var t := PrunedTo(w, gone, stuckExports);
    ExpiredExportsStep(w, gone, stuckExports, n);
    assert w.disk - (gone + {n}) == t.disk - {n};
    assert w.db.ledger - (gone + {n}) == t.db.ledger - {n};
  }

  class Manager {
    const days: int
    var contents: Contents
    var ledger: map<Name, LedgerRow>
    var audit: seq<Event>
    var disk: map<Name, File>
    var exports: map<Name, seq<Settings.Raw>>

    function Database(): Db
      reads this
    {
      Db(contents, ledger, audit)
    }

    function Value(): World
      reads this
    {
      World(Database(), disk, exports)
    }

    constructor (w: World, days: int)
      ensures Value() == w && this.days == days
    {
      this.days := days;
      contents := w.db.contents;
      ledger := w.db.ledger;
      audit := w.db.audit;
      disk := w.disk;
      exports := w.exports;
    }

    // One expired file goes, with its export and its ledger row.
    method RemoveFile(n: Name, stuckExports: set<Name>, ghost w: World, ghost gone: set<Name>)
      requires Value() == PrunedTo(w, gone, stuckExports) && n !in gone
      modifies this
      ensures Value() == PrunedTo(w, gone + {n}, stuckExports)
    {
      disk := disk - {n};
      var e := ExportOf(ledger, n);
      PrunedToStep(w, gone, stuckExports, n);
      if e !in stuckExports {
        exports := exports - {e};
      }
      ledger := ledger - {n};
    }

    // The loop body: a file goes if it is past the cutoff, unprotected, and can be removed.
    method VisitFile(n: Name, cutoff: int, stuck: set<Name>, stuckExports: set<Name>, ghost w: World, ghost gone: set<Name>)
      returns (went: bool)
      requires n in w.disk && n !in gone && Value() == PrunedTo(w, gone, stuckExports)
      modifies this
      ensures went <==> Expired(w, cutoff, stuck, n)
      ensures Value() == PrunedTo(w, gone + (if went then {n} else {}), stuckExports)
    {
      if disk[n].mtime >= cutoff {
        return false;
      }
      if n in ledger && ledger[n].trigger == PreRestore {
        return false;
      }
      if n in stuck {
        return false;
      }
      RemoveFile(n, stuckExports, w, gone);
      return true;
    }

    // files is the directory listing, in whatever order the file system gives it.
    method PruneOldBackups(now: int, files: seq<Name>, stuck: set<Name>, stuckExports: set<Name>) returns (removed: nat)
      requires forall n :: n in files <==> n in disk
      requires forall i, j :: 0 <= i < j < |files| ==> files[i] != files[j]
      modifies this
      ensures Value() == Prune(old(Value()), now, days, stuck, stuckExports)
      ensures removed == if days <= 0 then 0 else |ExpiredFiles(old(Value()), now - days * DAY, stuck)|
    {
      removed := 0;
      if days <= 0 {
        return;
      }
      var cutoff := now - days * DAY;
      ghost var w := Value();
      ghost var gone := ExpiredAmong(w, cutoff, stuck, []);
      PrunedToNothing(w, stuckExports);
      var i := 0;
      while i < |files|
        invariant i <= |files|
        invariant gone == ExpiredAmong(w, cutoff, stuck, files[..i])
        invariant removed == |gone|
        invariant Value() == PrunedTo(w, gone, stuckExports)
      {
        ExpiredAmongStep(w, cutoff, stuck, files, i);
        var went := VisitFile(files[i], cutoff, stuck, stuckExports, w, gone);
        if went {
          gone := gone + {files[i]};
          removed := removed + 1;
        }
        i := i + 1;
      }
      AllVisited(w, cutoff, stuck, files);
      if removed > 0 {
        audit := audit + [Event.Pruned(removed)];
      }
    }

    method Log(e: Event)
      modifies this`audit
      ensures audit == old(audit) + [e]
    {
      audit := audit + [e];
    }

    method FailAttempt(name: Name, trigger: Trigger)
      modifies this`ledger, this`audit
      ensures Database() == CloseFailed(old(Database()), name, trigger)
    {
      ledger := ledger[name := LedgerRow(Failed, trigger, None)];
      Log(CreateFailed);
    }

    // The dump is written while its own row is pending; the row is closed afterwards, and old files are pruned last.
    method CreateBackup(a: Attempt, trigger: Trigger, files: seq<Name>) returns (ok: bool)
      requires Ready(Value(), a)
      requires forall n :: n in files <==> n in disk || n == a.name
      requires forall i, j :: 0 <= i < j < |files| ==> files[i] != files[j]
      modifies this
      ensures (Value(), ok) == Create(old(Value()), a, trigger, days)
    {
      ok := false;
      if a.name in ledger {
        return;
      }
      ledger := ledger[a.name := LedgerRow(Pending, trigger, None)];
      if a.fate == DumpFails || a.fate == Dies {
        disk := disk[a.name := File(None, a.now)];
      } else {
        disk := disk[a.name := File(Some(Database()), a.now)];
      }
      if a.fate == Dies {
        return;
      }
      if a.fate == DumpFails || a.fate == ExportsFail {
        FailAttempt(a.name, trigger);
        if !a.leftover {
          assert old(disk)[a.name := disk[a.name]] - {a.name} == old(disk) - {a.name};
          disk := disk - {a.name};
        }
        return;
      }
      exports := exports[a.name := Settings.Export(contents.settings, a.order)];
      ledger := ledger[a.name := LedgerRow(Success, trigger, Some(a.name))];
      Log(Event.Created);
      var _ := PruneOldBackups(a.now, files, a.stuck, a.stuckExports);
      ok := true;
    }

    method ReplayExports(target: Name, now: int) returns (ok: bool)
      modifies this
      ensures (Value(), ok) == Replay(old(Value()), target, now)
    {
      if target in ledger && ledger[target].settingsExport.Some? {
        var e := ledger[target].settingsExport.value;
        if e !in exports {
          return false;
        }
        var store := new Settings.SettingsStore(contents.settings);
        var _ := store.RestoreFromJson(exports[e], now);
        contents := contents.(settings := store.table);
      }
      Log(Event.Replayed);
      return true;
    }

    method LoadDump(target: Name, now: int, psqlOk: bool, replay: bool) returns (r: Result)
      modifies this
      ensures (Value(), r) == Load(old(Value()), target, now, psqlOk, replay)
    {
      if target !in disk || disk[target].image.None? || !psqlOk {
        Log(RestoreFailed);
        return LoadFailed;
      }
      var image := disk[target].image.value;
      contents, ledger, audit := image.contents, image.ledger, image.audit;
      Log(Event.Restored);
      if replay {
        var ok := ReplayExports(target, now);
        if !ok {
          return ReplayFailed;
        }
      }
      return Done;
    }

    method RestoreBackup(target: Name, a: Attempt, psqlOk: bool, replay: bool, files: seq<Name>) returns (r: Result)
      requires Ready(Value(), a)
      requires forall n :: n in files <==> n in disk || n == a.name
      requires forall i, j :: 0 <= i < j < |files| ==> files[i] != files[j]
      modifies this
      ensures (Value(), r) == Restore(old(Value()), target, a, days, psqlOk, replay)
    {
      if target !in disk {
        return NoSuchFile;
      }
      var taken := a.name in ledger;
      var ok := CreateBackup(a, PreRestore, files);
      if !ok {
        if !taken && a.fate != Dies {
          Log(RestoreFailed);
        }
        return SafeCopyFailed;
      }
      r := LoadDump(target, a.now, psqlOk, replay);
    }
  }
}
