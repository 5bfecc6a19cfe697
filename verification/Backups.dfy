/**
  Backups, retention and restore (app/backups/services.py). The ledger of backups is a table of the very database that
  is dumped and replaced; the dump files lie beside it on disk.
 */
module Backups {
  import opened Wrappers
  import opened Settings

  const DAY: nat := 86400

  type Name = string

  datatype Status = Pending | Success | Failed
  datatype Trigger = Scheduled | Manual | PreRestore

  // settingsExport: the JSON export written beside the dump, by the name of the dump whose stem it carries.
  datatype LedgerRow = LedgerRow(status: Status, trigger: Trigger, settingsExport: Option<Name>)

  datatype Contents = Contents(data: string, settings: Table)

  datatype Event = Created | CreateFailed | Pruned(count: nat) | Restored | RestoreFailed | Replayed

  datatype Db = Db(contents: Contents, ledger: map<Name, LedgerRow>, audit: seq<Event>)

  // A dump file: the database it holds, or None while it is cut short.
  datatype File = File(image: Option<Db>, mtime: int)

  datatype World = World(db: Db, disk: map<Name, File>, exports: map<Name, seq<Raw>>)

  // How the environment treats one attempt to dump: the dump fails, the JSON exports fail, the process dies, or none.
  datatype Fate = DumpFails | ExportsFail | Dies | Completes

  // One attempt: its file name and time, its fate, whether a partial file cannot be removed, which old files and
  // exports cannot be removed, and the order in which the settings are listed.
  datatype Attempt = Attempt(
    name: Name, now: int, fate: Fate, leftover: bool, stuck: set<Name>, stuckExports: set<Name>, order: seq<string>)

  /******* Retention *******/

  predicate Protected(ledger: map<Name, LedgerRow>, name: Name) {
    name in ledger && ledger[name].trigger == PreRestore
  }

  predicate Expired(w: World, cutoff: int, stuck: set<Name>, name: Name) {
    name in w.disk && w.disk[name].mtime < cutoff && !Protected(w.db.ledger, name) && name !in stuck
  }

  function ExpiredFiles(w: World, cutoff: int, stuck: set<Name>): set<Name> {
    set name | name in w.disk && Expired(w, cutoff, stuck, name)
  }

  function ExportOf(ledger: map<Name, LedgerRow>, name: Name): Name {
    if name in ledger && ledger[name].settingsExport.Some? then ledger[name].settingsExport.value else name
  }

  function ExpiredExports(w: World, gone: set<Name>, stuckExports: set<Name>): set<Name> {
    (set name | name in gone :: ExportOf(w.db.ledger, name)) - stuckExports
  }

  function Without(db: Db, gone: set<Name>): Db {
    if gone == {} then db
    else db.(ledger := db.ledger - gone, audit := db.audit + [Pruned(|gone|)])
  }

  function Prune(w: World, now: int, days: int, stuck: set<Name>, stuckExports: set<Name>): World {
    if days <= 0 then w
    else
      var gone := ExpiredFiles(w, now - days * DAY, stuck);
      World(Without(w.db, gone), w.disk - gone, w.exports - ExpiredExports(w, gone, stuckExports))
  }

  /******* Taking a backup *******/

  function Log(db: Db, e: Event): Db {
    db.(audit := db.audit + [e])
  }

  function SetRow(db: Db, name: Name, row: LedgerRow): Db {
    db.(ledger := db.ledger[name := row])
  }

  // The database as the dump finds it: the backup's own row is already there, still pending.
  function Opened(db: Db, name: Name, trigger: Trigger): Db {
    SetRow(db, name, LedgerRow(Pending, trigger, None))
  }

  function CloseFailed(db: Db, name: Name, trigger: Trigger): Db {
    Log(SetRow(db, name, LedgerRow(Failed, trigger, None)), CreateFailed)
  }

  function CloseSuccess(db: Db, name: Name, trigger: Trigger): Db {
    Log(SetRow(db, name, LedgerRow(Success, trigger, Some(name))), Created)
  }

  ghost predicate Ready(w: World, a: Attempt) {
    Listing(a.order, w.db.contents.settings)
  }

  // Everything of a completed backup except the pruning that follows it.
  function Stored(w: World, a: Attempt, trigger: Trigger): World
    requires Ready(w, a)
  {
    World(CloseSuccess(Opened(w.db, a.name, trigger), a.name, trigger),
          w.disk[a.name := File(Some(Opened(w.db, a.name, trigger)), a.now)],
          w.exports[a.name := Export(w.db.contents.settings, a.order)])
  }

  function Create(w: World, a: Attempt, trigger: Trigger, days: int): (World, bool)
    requires Ready(w, a)
  {
    var begun := Opened(w.db, a.name, trigger);
    if a.name in w.db.ledger then (w, false)
    else match a.fate
      case Dies => (w.(db := begun, disk := w.disk[a.name := File(None, a.now)]), false)
      case DumpFails =>
        (w.(db := CloseFailed(begun, a.name, trigger),
            disk := if a.leftover then w.disk[a.name := File(None, a.now)] else w.disk - {a.name}), false)
      case ExportsFail =>
        (w.(db := CloseFailed(begun, a.name, trigger),
            disk := if a.leftover then w.disk[a.name := File(Some(begun), a.now)] else w.disk - {a.name}), false)
      case Completes => (Prune(Stored(w, a, trigger), a.now, days, a.stuck, a.stuckExports), true)
  }

  /******* Restoring *******/

  datatype Result = Done | NoSuchFile | SafeCopyFailed | LoadFailed | ReplayFailed

  // The opted-in replay of the settings export named by the ledger row of the restored database.
  function Replay(w: World, target: Name, now: int): (World, bool) {
    var ledger := w.db.ledger;
    if target in ledger && ledger[target].settingsExport.Some? then
      var e := ledger[target].settingsExport.value;
      if e !in w.exports then (w, false)
      else
        var settings := Settings.Restore(w.db.contents.settings, w.exports[e], now);
        (w.(db := Log(w.db.(contents := w.db.contents.(settings := settings)), Replayed)), true)
    else (w.(db := Log(w.db, Replayed)), true)
  }

  // The load itself, after the safe copy: all or nothing.
  function Load(w: World, target: Name, now: int, psqlOk: bool, replay: bool): (World, Result) {
    if target !in w.disk || w.disk[target].image.None? || !psqlOk then (w.(db := Log(w.db, RestoreFailed)), LoadFailed)
    else
      var loaded := w.(db := Log(w.disk[target].image.value, Restored));
      if !replay then (loaded, Done)
      else
        var (w', ok) := Replay(loaded, target, now);
        (w', if ok then Done else ReplayFailed)
  }

  function Restore(w: World, target: Name, a: Attempt, days: int, psqlOk: bool, replay: bool): (World, Result)
    requires Ready(w, a)
  {
    if target !in w.disk then (w, NoSuchFile)
    else
      var (w1, ok) := Create(w, a, PreRestore, days);
      if ok then Load(w1, target, a.now, psqlOk, replay)
      else if a.name in w.db.ledger || a.fate == Dies then (w1, SafeCopyFailed)
      else (w1.(db := Log(w1.db, RestoreFailed)), SafeCopyFailed)
  }

  /******* Runs *******/

  datatype Op =
    | Work(contents: Contents)
    | CopyIn(copied: Name, file: File)
    | TakeBackup(attempt: Attempt, trigger: Trigger)
    | PruneNow(now: int, stuck: set<Name>, stuckExports: set<Name>)
    | RestoreFrom(target: Name, safe: Attempt, psqlOk: bool, replay: bool)

  ghost predicate Enabled(w: World, op: Op) {
    match op
    case TakeBackup(a, _) => Ready(w, a)
    case RestoreFrom(_, a, _, _) => Ready(w, a)
    case _ => true
  }

  function Next(w: World, op: Op, days: int): World
    requires Enabled(w, op)
  {
    match op
    case Work(contents) => w.(db := w.db.(contents := contents))
    case CopyIn(name, file) => w.(disk := w.disk[name := file])
    case TakeBackup(a, trigger) => Create(w, a, trigger, days).0
    case PruneNow(now, stuck, stuckExports) => Prune(w, now, days, stuck, stuckExports)
    case RestoreFrom(target, a, psqlOk, replay) => Restore(w, target, a, days, psqlOk, replay).0
  }

  ghost predicate Runs(w: World, ops: seq<Op>, days: int)
    decreases |ops|
  {
    ops == [] || (Enabled(w, ops[0]) && Runs(Next(w, ops[0], days), ops[1..], days))
  }

  ghost function Run(w: World, ops: seq<Op>, days: int): World
    requires Runs(w, ops, days)
    decreases |ops|
  {
    if ops == [] then w else Run(Next(w, ops[0], days), ops[1..], days)
  }
}
