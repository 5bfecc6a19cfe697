/**
  The idempotency-key protocol (app/idempotency/services.py and decorators.py) as a state machine: any number of
  workers, each serving one guarded POST request, over one table with a unique key column.

  A worker's transaction is the part of its phase that other workers cannot see. A flushed but uncommitted DELETE or
  INSERT locks its key: another worker's flush on that key waits until the first commits or rolls back, so the
  corresponding step is not enabled.
 */
module Idempotency {
  import opened Wrappers
  import Utf8

  const BODY_LIMIT: nat := 65536
  const MAX_ROUNDS: nat := 8

  type Worker = nat
  type RowId = nat

  datatype Request = Request(key: string, endpoint: string, hash: string)

  datatype Cached = Cached(status: int, body: Utf8.Text)

  datatype Row = Row(key: string, endpoint: string, hash: string, response: Option<Cached>, expiresAt: int)

  type Table = map<RowId, Row>

  predicate ShouldCache(status: int): (cache: bool)
    ensures cache <==> status < 400 || status == 422
  {
    if status >= 500 then false
    else if 400 <= status < 500 && status != 422 then false
    else true
  }

  // The body as it is stored: cut to the byte limit and decoded with errors ignored.
  function StoredBody(body: Utf8.Text): Utf8.Text {
    var raw := Utf8.Encode(body);
    if |raw| > BODY_LIMIT then Utf8.DecodeIgnore(raw[..BODY_LIMIT]) else body
  }

  /******* What one round of get_or_create sees *******/

  datatype Finding =
    | Absent
    | Expired(id: RowId)
    | Live(id: RowId)
    | Mismatch(id: RowId)

  ghost predicate Find(table: Table, req: Request, t: int, finding: Finding) {
    match finding
    case Absent => forall id :: id in table ==> table[id].key != req.key
    case Expired(id) => id in table && table[id].key == req.key && table[id].expiresAt <= t
    case Live(id) =>
      id in table && table[id].key == req.key && table[id].expiresAt > t && table[id].hash == req.hash
    case Mismatch(id) =>
      id in table && table[id].key == req.key && table[id].expiresAt > t && table[id].hash != req.hash
  }

  // The unique constraint rejects an INSERT when another row than the one this transaction deleted has the key.
  ghost predicate Clashes(table: Table, key: string, doomed: Option<RowId>) {
    exists id :: id in table && table[id].key == key && Some(id) != doomed
  }

  function NewRow(req: Request, t: int, ttl: int): Row {
    Row(req.key, req.endpoint, req.hash, None, t + ttl)
  }

  function Without(table: Table, doomed: Option<RowId>): Table {
    if doomed.Some? then table - {doomed.value} else table
  }

  // A response that may be replayed is stored in the row; any other deletes the row, so that the key can be retried.
  // A row that is no longer there (it expired and was replaced or pruned) stays away.
  function Record(table: Table, id: RowId, status: int, body: Utf8.Text): Table {
    if id !in table then table
    else if ShouldCache(status) then table[id := table[id].(response := Some(Cached(status, StoredBody(body))))]
    else table - {id}
  }

  /******* The state machine *******/

  datatype Txn = Open(row: Row, doomed: Option<RowId>) | Committed

  datatype Answer =
    | Replay(id: RowId, cached: Cached)
    | Conflict(id: RowId)
    | InProgress(id: RowId)
    | Ran(id: RowId, status: int)
    | Failed

  datatype Phase =
    | Sampling(req: Request, round: nat)
    | Querying(req: Request, round: nat, t: int)
    | Deleting(req: Request, round: nat, t: int, victim: RowId)
    | Inserting(req: Request, round: nat, t: int, doomed: Option<RowId>)
    | Running(req: Request, id: RowId, txn: Txn)
    | Done(req: Request, answer: Answer)

  // History: a row handed out with created=True, that is, one entry of the guarded view.
  datatype Entry = Entry(worker: Worker, req: Request, expiresAt: int, at: int)

  datatype Release = RolledBack | Uncacheable(status: int)

  // The last four fields are history: they never influence a step.
  datatype State = State(
    table: Table,
    workers: map<Worker, Phase>,
    now: int,
    ttl: int,
    nextId: RowId,
    entries: map<RowId, Entry>,
    freed: map<RowId, Release>,
    recorded: map<RowId, Cached>,
    visible: set<RowId>)

  datatype Event =
    | Tick(t: int)
    | Arrive(w: Worker, req: Request)
    | Sample(w: Worker)
    | Query(w: Worker, finding: Finding)
    | DeleteFlush(w: Worker)
    | InsertFlush(w: Worker)
    | ViewCommit(w: Worker)
    | Finish(w: Worker, status: int, body: Utf8.Text)
    | Abandon(w: Worker)
    | Prune(ids: set<RowId>)

  function Held(p: Phase): Option<string> {
    if p.Inserting? && p.doomed.Some? then Some(p.req.key)
    else if p.Running? && p.txn.Open? then Some(p.req.key)
    else None
  }

  ghost predicate KeyFree(s: State, w: Worker, key: string) {
    forall v :: v in s.workers && v != w ==> Held(s.workers[v]) != Some(key)
  }

  // Abandon stands for an exception in the view, an exception while the response is recorded, and the death of the
  // process: each ends in a rollback.
  ghost predicate Enabled(s: State, e: Event) {
    match e
    case Tick(t) => s.now <= t
    case Arrive(w, _) => w !in s.workers
    case Sample(w) => w in s.workers && s.workers[w].Sampling?
    case Query(w, finding) =>
      w in s.workers && s.workers[w].Querying? && Find(s.table, s.workers[w].req, s.workers[w].t, finding)
    case DeleteFlush(w) =>
      && w in s.workers && s.workers[w].Deleting?
      && (s.workers[w].victim in s.table ==> KeyFree(s, w, s.workers[w].req.key))
    case InsertFlush(w) => w in s.workers && s.workers[w].Inserting? && KeyFree(s, w, s.workers[w].req.key)
    case ViewCommit(w) => w in s.workers && s.workers[w].Running? && s.workers[w].txn.Open?
    case Finish(w, _, _) =>
      && w in s.workers && s.workers[w].Running?
      && (s.workers[w].txn.Committed? && s.workers[w].id in s.table ==> KeyFree(s, w, s.workers[w].req.key))
    case Abandon(w) => w in s.workers && !s.workers[w].Done?
    case Prune(ids) =>
      forall id :: id in ids ==>
        && id in s.table && s.table[id].expiresAt < s.now
        && (forall v :: v in s.workers ==> Held(s.workers[v]) != Some(s.table[id].key))
  }

  function Move(s: State, w: Worker, p: Phase): State {
    s.(workers := s.workers[w := p])
  }

  function AfterQuery(s: State, w: Worker, finding: Finding): State
    requires w in s.workers && s.workers[w].Querying?
    requires finding.Live? ==> finding.id in s.table
  {
    var Querying(req, round, t) := s.workers[w];
    Move(s, w,
      match finding
      case Absent => Inserting(req, round, t, None)
      case Expired(id) => Deleting(req, round, t, id)
      case Mismatch(id) => Done(req, Conflict(id))
      case Live(id) =>
        if s.table[id].response.Some? then Done(req, Replay(id, s.table[id].response.value))
        else Done(req, InProgress(id)))
  }

  ghost function AfterInsert(s: State, w: Worker): State
    requires w in s.workers && s.workers[w].Inserting?
  {
    var Inserting(req, round, t, doomed) := s.workers[w];
    if Clashes(s.table, req.key, doomed) then
      Move(s, w, if round + 1 < MAX_ROUNDS then Sampling(req, round + 1) else Done(req, Failed))
    else
      var id, row := s.nextId, NewRow(req, t, s.ttl);
      Move(s, w, Running(req, id, Open(row, doomed)))
        .(nextId := id + 1, entries := s.entries[id := Entry(w, req, row.expiresAt, s.now)])
  }

  function AfterCommit(s: State, w: Worker): State
    requires w in s.workers && s.workers[w].Running? && s.workers[w].txn.Open?
  {
    var Running(req, id, txn) := s.workers[w];
    Move(s, w, Running(req, id, Committed))
      .(table := Without(s.table, txn.doomed)[id := txn.row], visible := s.visible + {id})
  }

  // record_response: within the transaction the view left behind, the row is deleted or completed by its id.
  function AfterFinish(s: State, w: Worker, status: int, body: Utf8.Text): State
    requires w in s.workers && s.workers[w].Running?
  {
    var Running(req, id, txn) := s.workers[w];
    var base := if txn.Open? then Without(s.table, txn.doomed)[id := txn.row] else s.table;
    var s' := Move(s, w, Done(req, Ran(id, status))).(table := Record(base, id, status, body));
    if id !in base then s'
    else if ShouldCache(status) then
      s'.(visible := s.visible + {id}, recorded := s.recorded[id := Cached(status, StoredBody(body))])
    else
      s'.(freed := s.freed[id := Uncacheable(status)])
  }

  function AfterAbandon(s: State, w: Worker): State
    requires w in s.workers
  {
    var p := s.workers[w];
    var s' := Move(s, w, Done(p.req, Failed));
    if p.Running? && p.txn.Open? then s'.(freed := s.freed[p.id := RolledBack]) else s'
  }

  ghost function Next(s: State, e: Event): State
    requires Enabled(s, e)
  {
    match e
    case Tick(t) => s.(now := t)
    case Arrive(w, req) => Move(s, w, Sampling(req, 0))
    case Sample(w) => Move(s, w, Querying(s.workers[w].req, s.workers[w].round, s.now))
    case Query(w, finding) => AfterQuery(s, w, finding)
    case DeleteFlush(w) =>
      var Deleting(req, round, t, victim) := s.workers[w];
      Move(s, w, Inserting(req, round, t, if victim in s.table then Some(victim) else None))
    case InsertFlush(w) => AfterInsert(s, w)
    case ViewCommit(w) => AfterCommit(s, w)
    case Finish(w, status, body) => AfterFinish(s, w, status, body)
    case Abandon(w) => AfterAbandon(s, w)
    case Prune(ids) => s.(table := s.table - ids)
  }

  function Init(now: int, ttl: int): State {
    State(map[], map[], now, ttl, 0, map[], map[], map[], {})
  }

  // states[i] goes to states[i + 1] by events[i].
  ghost predicate Run(states: seq<State>, events: seq<Event>) {
    && |states| == |events| + 1
    && (exists now, ttl :: states[0] == Init(now, ttl))
    && forall i :: 0 <= i < |events| ==> Enabled(states[i], events[i]) && states[i + 1] == Next(states[i], events[i])
  }

  /******* The invariant *******/

  ghost predicate RowsMatchEntries(s: State) {
    forall id :: id in s.table ==>
      && id in s.entries && id in s.visible
      && s.table[id].key == s.entries[id].req.key
      && s.table[id].endpoint == s.entries[id].req.endpoint
      && s.table[id].hash == s.entries[id].req.hash
      && s.table[id].expiresAt == s.entries[id].expiresAt
  }

  ghost predicate UniqueKeys(s: State) {
    forall i, j :: i in s.table && j in s.table && s.table[i].key == s.table[j].key ==> i == j
  }

  ghost predicate Exclusive(s: State) {
    forall v, w :: v in s.workers && w in s.workers && v != w && Held(s.workers[v]).Some? ==>
      Held(s.workers[v]) != Held(s.workers[w])
  }

  ghost predicate Doomable(s: State, key: string, d: RowId) {
    d in s.entries && s.entries[d].req.key == key && s.entries[d].expiresAt <= s.now
  }

  ghost predicate PhaseOk(s: State, w: Worker, p: Phase) {
    match p
    case Sampling(req, round) => round < MAX_ROUNDS
    case Querying(req, round, t) => round < MAX_ROUNDS && t <= s.now
    case Deleting(req, round, t, victim) => round < MAX_ROUNDS && t <= s.now && Doomable(s, req.key, victim)
    case Inserting(req, round, t, doomed) =>
      round < MAX_ROUNDS && t <= s.now && (doomed.Some? ==> doomed.value in s.table && Doomable(s, req.key, doomed.value))
    case Running(req, id, txn) =>
      && id in s.entries && s.entries[id].worker == w && s.entries[id].req == req
      && id !in s.freed && id !in s.recorded
      && (match txn
          case Committed => id in s.table ==> s.table[id].response.None?
          case Open(row, doomed) =>
            && id !in s.visible
            && row == Row(req.key, req.endpoint, req.hash, None, s.entries[id].expiresAt)
            && (doomed.Some? ==> doomed.value in s.table && Doomable(s, req.key, doomed.value))
            && !Clashes(s.table, req.key, doomed))
    case Done(req, answer) =>
      match answer
      case Replay(id, cached) =>
        && id in s.recorded && s.recorded[id] == cached
        && id in s.entries && s.entries[id].req.key == req.key && s.entries[id].req.hash == req.hash
      case Ran(id, status) => id in s.entries && s.entries[id].worker == w
      case _ => true
  }

  ghost predicate PhasesOk(s: State) {
    forall w :: w in s.workers ==> PhaseOk(s, w, s.workers[w])
  }

  ghost predicate HistoryOk(s: State) {
    && (forall id :: id in s.entries ==> id < s.nextId && s.entries[id].at <= s.now)
    && (forall id :: id in s.recorded ==>
          && id in s.entries && id !in s.freed
          && ShouldCache(s.recorded[id].status) && |Utf8.Encode(s.recorded[id].body)| <= BODY_LIMIT)
    && (forall id :: id in s.freed ==>
          && id in s.entries
          && (s.freed[id].RolledBack? ==> id !in s.visible)
          && (s.freed[id].Uncacheable? ==> !ShouldCache(s.freed[id].status)))
    && (forall id :: id in s.visible ==> id in s.entries)
  }

  ghost predicate ResponsesOk(s: State) {
    forall id :: id in s.table && s.table[id].response.Some? ==>
      id in s.recorded && s.recorded[id] == s.table[id].response.value
  }

  ghost predicate OwnedBy(s: State, id: RowId, w: Worker) {
    w in s.workers && s.workers[w].Running? && s.workers[w].id == id && s.workers[w].txn.Open?
  }

  // An entry is over, expired, in the table, or still inside its owner's open transaction.
  ghost predicate Accounted(s: State) {
    forall id :: id in s.entries ==>
      id in s.freed || s.entries[id].expiresAt <= s.now || id in s.table || OwnedBy(s, id, s.entries[id].worker)
  }

  // Ids grow with time, so i < j says that the view was entered for row i before it was entered for row j.
  ghost predicate OncePerLiveKey(s: State) {
    forall i, j :: i in s.entries && j in s.entries && i < j && s.entries[i].req.key == s.entries[j].req.key ==>
      i in s.freed || s.entries[i].expiresAt <= s.entries[j].at
  }

  ghost predicate Inv(s: State) {
    && RowsMatchEntries(s) && UniqueKeys(s) && Exclusive(s) && PhasesOk(s)
    && HistoryOk(s) && ResponsesOk(s) && Accounted(s) && OncePerLiveKey(s)
  }

  /******* Every step keeps the invariant *******/

  lemma StoredBodyFits(body: Utf8.Text)
    ensures |Utf8.Encode(StoredBody(body))| <= BODY_LIMIT
  {
    if |Utf8.Encode(body)| > BODY_LIMIT {
      Utf8.CutDecodesToPrefix(body, BODY_LIMIT);
      Utf8.FitIsLongest(body, BODY_LIMIT, Utf8.Fit(body, BODY_LIMIT));
    }
  }

  lemma TickKeeps(s: State, t: int)
    requires Inv(s) && Enabled(s, Tick(t))
    ensures Inv(Next(s, Tick(t)))
  {
    var s' := Next(s, Tick(t));
    forall w | w in s'.workers ensures PhaseOk(s', w, s'.workers[w]) {
      assert PhaseOk(s, w, s.workers[w]);
    }
    forall id | id in s'.entries && id !in s'.freed && s'.entries[id].expiresAt > s'.now && id !in s'.table
      ensures OwnedBy(s', id, s'.entries[id].worker)
    {
      assert OwnedBy(s, id, s.entries[id].worker);
    }
  }

  // A step of w that touches neither the table nor the history, and takes no lock that another worker holds.
  lemma QuietKeepsAccounted(s: State, w: Worker, p: Phase)
    requires Accounted(s)
    requires w in s.workers ==> !(s.workers[w].Running? && s.workers[w].txn.Open?)
    ensures Accounted(Move(s, w, p))
  {
    var s' := Move(s, w, p);
    forall id | id in s'.entries && id !in s'.freed && s'.entries[id].expiresAt > s'.now && id !in s'.table
      ensures OwnedBy(s', id, s'.entries[id].worker)
    {
      assert OwnedBy(s, id, s.entries[id].worker);
    }
  }

  lemma QuietKeeps(s: State, w: Worker, p: Phase)
    requires Inv(s) && PhaseOk(s, w, p)
    requires w in s.workers ==> !(s.workers[w].Running? && s.workers[w].txn.Open?)
    requires Held(p).Some? ==> KeyFree(s, w, Held(p).value)
    ensures Inv(Move(s, w, p))
  {
    var s' := Move(s, w, p);
    forall v | v in s'.workers ensures PhaseOk(s', v, s'.workers[v]) {
      assert v != w ==> PhaseOk(s, v, s.workers[v]);
    }
    QuietKeepsAccounted(s, w, p);
  }

  // When worker w may insert its key, every earlier entry for that key has been released or has expired.
  lemma EntriesAreOver(s: State, w: Worker, i: RowId)
    requires Inv(s) && Enabled(s, InsertFlush(w))
    requires !Clashes(s.table, s.workers[w].req.key, s.workers[w].doomed)
    requires i in s.entries && s.entries[i].req.key == s.workers[w].req.key
    ensures i in s.freed || s.entries[i].expiresAt <= s.now
  {
    assert PhaseOk(s, w, s.workers[w]);
    assert i in s.table ==> Some(i) == s.workers[w].doomed;
    var v := s.entries[i].worker;
    assert v in s.workers ==> PhaseOk(s, v, s.workers[v]) && (v != w ==> Held(s.workers[v]) != Some(s.workers[w].req.key));
    assert !OwnedBy(s, i, v);
  }

  lemma EnterKeepsOnce(s: State, w: Worker)
    requires Inv(s) && Enabled(s, InsertFlush(w))
    requires !Clashes(s.table, s.workers[w].req.key, s.workers[w].doomed)
    ensures OncePerLiveKey(AfterInsert(s, w))
  {
    var s' := AfterInsert(s, w);
    forall i, j | i in s'.entries && j in s'.entries && i < j && s'.entries[i].req.key == s'.entries[j].req.key
      ensures i in s'.freed || s'.entries[i].expiresAt <= s'.entries[j].at
    {
      if j == s.nextId {
        EntriesAreOver(s, w, i);
      }
    }
  }

  lemma EnterKeepsPhases(s: State, w: Worker)
    requires Inv(s) && Enabled(s, InsertFlush(w))
    requires !Clashes(s.table, s.workers[w].req.key, s.workers[w].doomed)
    ensures PhasesOk(AfterInsert(s, w))
  {
    var s' := AfterInsert(s, w);
    assert PhaseOk(s, w, s.workers[w]);
    assert s.nextId !in s.entries;
    forall v | v in s'.workers ensures PhaseOk(s', v, s'.workers[v]) {
      assert v != w ==> PhaseOk(s, v, s.workers[v]);
    }
  }

  lemma EnterKeepsAccounted(s: State, w: Worker)
    requires Accounted(s) && w in s.workers && s.workers[w].Inserting?
    requires !Clashes(s.table, s.workers[w].req.key, s.workers[w].doomed)
    ensures Accounted(AfterInsert(s, w))
  {
    var s' := AfterInsert(s, w);
    forall i | i in s'.entries && i !in s'.freed && s'.entries[i].expiresAt > s'.now && i !in s'.table
      ensures OwnedBy(s', i, s'.entries[i].worker)
    {
      assert i != s.nextId ==> OwnedBy(s, i, s.entries[i].worker);
    }
  }

  lemma EnterKeeps(s: State, w: Worker)
    requires Inv(s) && Enabled(s, InsertFlush(w))
    requires !Clashes(s.table, s.workers[w].req.key, s.workers[w].doomed)
    ensures Inv(AfterInsert(s, w))
  {
    EnterKeepsOnce(s, w);
    EnterKeepsPhases(s, w);
    EnterKeepsAccounted(s, w);
    assert s.nextId !in s.entries;
    assert Exclusive(AfterInsert(s, w));
  }

  // The row that the open transaction of a worker has deleted.
  function Doomed(p: Phase): Option<RowId> {
    if p.Running? && p.txn.Open? then p.txn.doomed else None
  }

  // What ViewCommit, Finish and Abandon have in common: a worker that runs its view writes only the row it owns,
  // removes only the row it replaces, adds history for its own row only, and no other worker holds the key.
  ghost predicate OwnerMove(s: State, w: Worker, s': State) {
    && w in s.workers && s.workers[w].Running? && w in s'.workers
    && s'.workers == s.workers[w := s'.workers[w]] && s'.now == s.now && s'.entries == s.entries
    && s'.nextId == s.nextId
    && KeyFree(s, w, s.workers[w].req.key)
    && (Held(s'.workers[w]).Some? ==> Held(s'.workers[w]) == Held(s.workers[w]))
  }

  ghost predicate OwnerRow(s: State, w: Worker, s': State)
    requires OwnerMove(s, w, s')
  {
    var id, req := s.workers[w].id, s.workers[w].req;
    && (forall i :: i in s'.table && i != id ==> i in s.table && s'.table[i] == s.table[i])
    && (forall i :: i in s.table && i != id && Some(i) != Doomed(s.workers[w]) ==> i in s'.table)
    && (id in s'.table ==>
          && id in s.entries
          && s'.table[id].key == req.key && s'.table[id].endpoint == req.endpoint && s'.table[id].hash == req.hash
          && s'.table[id].expiresAt == s.entries[id].expiresAt && id in s'.visible
          && (id in s.table || forall i :: i in s'.table && s'.table[i].key == req.key ==> i == id)
          && (s'.table[id].response.Some? ==> id in s'.recorded && s'.recorded[id] == s'.table[id].response.value))
    && (s.workers[w].txn.Open? ==> id in s'.table || id in s'.freed)
    && (id in s.table && id !in s'.table ==> id in s'.freed)
  }

  ghost predicate OwnerHistory(s: State, w: Worker, s': State)
    requires OwnerMove(s, w, s')
  {
    var id := s.workers[w].id;
    && s'.recorded - {id} == s.recorded - {id} && s'.freed - {id} == s.freed - {id}
    && s.visible <= s'.visible <= s.visible + {id}
    && (id in s'.recorded ==>
          id !in s'.freed && ShouldCache(s'.recorded[id].status)
          && |Utf8.Encode(s'.recorded[id].body)| <= BODY_LIMIT)
    && (id in s'.freed ==>
          && (s'.freed[id].RolledBack? ==> id !in s'.visible)
          && (s'.freed[id].Uncacheable? ==> !ShouldCache(s'.freed[id].status)))
  }

  ghost predicate OwnerStep(s: State, w: Worker, s': State) {
    OwnerMove(s, w, s') && OwnerRow(s, w, s') && OwnerHistory(s, w, s')
  }

  lemma HistoryElsewhere(s: State, w: Worker, s': State, i: RowId)
    requires OwnerMove(s, w, s') && OwnerHistory(s, w, s') && i != s.workers[w].id
    ensures (i in s'.recorded <==> i in s.recorded) && (i in s.recorded ==> s'.recorded[i] == s.recorded[i])
    ensures (i in s'.freed <==> i in s.freed) && (i in s.freed ==> s'.freed[i] == s.freed[i])
    ensures i in s'.visible <==> i in s.visible
  {
    var id := s.workers[w].id;
    assert i in s'.recorded <==> i in s'.recorded - {id};
    assert i in s.recorded <==> i in s.recorded - {id};
    assert i in s'.freed <==> i in s'.freed - {id};
    assert i in s.freed <==> i in s.freed - {id};
    assert i in s.recorded ==> (s.recorded - {id})[i] == s.recorded[i] && (s'.recorded - {id})[i] == s'.recorded[i];
    assert i in s.freed ==> (s.freed - {id})[i] == s.freed[i] && (s'.freed - {id})[i] == s'.freed[i];
  }

  lemma OwnerStepOtherView(s: State, w: Worker, s': State, v: Worker)
    requires OwnerStep(s, w, s') && v in s.workers && v != w && s.workers[v].Running?
    requires PhaseOk(s, v, s.workers[v]) && PhaseOk(s, w, s.workers[w]) && RowsMatchEntries(s)
    ensures PhaseOk(s', v, s'.workers[v])
  {
    var p := s.workers[v];
    HistoryElsewhere(s, w, s', p.id);
    assert Held(p) != Some(s.workers[w].req.key);
    if p.txn.Open? {
      forall r | r in s'.table && s'.table[r].key == p.req.key ensures Some(r) == p.txn.doomed {
        assert r != s.workers[w].id ==> r in s.table && s.table[r].key == p.req.key;
      }
    }
  }

  lemma OwnerStepOtherPhase(s: State, w: Worker, s': State, v: Worker)
    requires OwnerStep(s, w, s') && v in s.workers && v != w
    requires PhaseOk(s, v, s.workers[v]) && PhaseOk(s, w, s.workers[w]) && RowsMatchEntries(s)
    ensures PhaseOk(s', v, s'.workers[v])
  {
    var p := s.workers[v];
    match p
    case Inserting(req, round, t, doomed) => assert Held(p) != Some(s.workers[w].req.key);
    case Running(_, _, _) => OwnerStepOtherView(s, w, s', v);
    case Done(_, answer) =>
      if answer.Replay? {
        HistoryElsewhere(s, w, s', answer.id);
      }
    case _ =>
  }

  lemma OwnerStepRows(s: State, w: Worker, s': State)
    requires OwnerStep(s, w, s') && RowsMatchEntries(s) && UniqueKeys(s) && PhaseOk(s, w, s.workers[w])
    ensures RowsMatchEntries(s') && UniqueKeys(s')
  {
  }

  lemma OwnerStepHistory(s: State, w: Worker, s': State)
    requires OwnerStep(s, w, s') && HistoryOk(s) && PhaseOk(s, w, s.workers[w])
    ensures HistoryOk(s')
  {
    var id := s.workers[w].id;
    forall i | i in s'.recorded
      ensures i in s'.entries && i !in s'.freed
      ensures ShouldCache(s'.recorded[i].status) && |Utf8.Encode(s'.recorded[i].body)| <= BODY_LIMIT
    {
      if i != id {
        HistoryElsewhere(s, w, s', i);
      }
    }
    forall i | i in s'.freed
      ensures i in s'.entries
      ensures s'.freed[i].RolledBack? ==> i !in s'.visible
      ensures s'.freed[i].Uncacheable? ==> !ShouldCache(s'.freed[i].status)
    {
      if i != id {
        HistoryElsewhere(s, w, s', i);
      }
    }
  }

  lemma OwnerStepResponses(s: State, w: Worker, s': State)
    requires OwnerStep(s, w, s') && ResponsesOk(s)
    ensures ResponsesOk(s')
  {
    forall i | i in s'.table && s'.table[i].response.Some?
      ensures i in s'.recorded && s'.recorded[i] == s'.table[i].response.value
    {
      if i != s.workers[w].id {
        HistoryElsewhere(s, w, s', i);
      }
    }
  }

  lemma OwnerStepAccounted(s: State, w: Worker, s': State)
    requires OwnerStep(s, w, s') && RowsMatchEntries(s) && Accounted(s) && PhaseOk(s, w, s.workers[w])
    ensures Accounted(s')
  {
    var id := s.workers[w].id;
    forall i | i in s'.entries && i !in s'.freed && s'.entries[i].expiresAt > s'.now && i !in s'.table
      ensures OwnedBy(s', i, s'.entries[i].worker)
    {
      if i != id {
        HistoryElsewhere(s, w, s', i);
      }
      assert OwnedBy(s, i, s.entries[i].worker);
    }
  }

  lemma OwnerStepOnce(s: State, w: Worker, s': State)
    requires OwnerStep(s, w, s') && OncePerLiveKey(s) && PhaseOk(s, w, s.workers[w])
    ensures OncePerLiveKey(s')
  {
    forall i | i in s.freed ensures i in s'.freed {
      if i != s.workers[w].id {
        HistoryElsewhere(s, w, s', i);
      }
    }
  }

  lemma OwnerStepKeeps(s: State, w: Worker, s': State)
    requires Inv(s) && OwnerStep(s, w, s') && PhaseOk(s', w, s'.workers[w])
    ensures Inv(s')
  {
    assert PhaseOk(s, w, s.workers[w]);
    OwnerStepRows(s, w, s');
    OwnerStepHistory(s, w, s');
    OwnerStepResponses(s, w, s');
    OwnerStepAccounted(s, w, s');
    OwnerStepOnce(s, w, s');
    forall v | v in s'.workers ensures PhaseOk(s', v, s'.workers[v]) {
      if v != w {
        OwnerStepOtherPhase(s, w, s', v);
      }
    }
  }

  lemma OpenFacts(s: State, w: Worker)
    requires Inv(s) && w in s.workers && s.workers[w].Running? && s.workers[w].txn.Open?
    ensures KeyFree(s, w, s.workers[w].req.key)
    ensures forall i :: i in s.table && s.table[i].key == s.workers[w].req.key ==> Some(i) == s.workers[w].txn.doomed
    ensures s.workers[w].id !in s.table
  {
    var p := s.workers[w];
    assert PhaseOk(s, w, p);
    assert Held(p) == Some(p.req.key);
    assert !Clashes(s.table, p.req.key, p.txn.doomed);
  }

  lemma CommitKeeps(s: State, w: Worker)
    requires Inv(s) && Enabled(s, ViewCommit(w))
    ensures Inv(AfterCommit(s, w))
  {
    assert PhaseOk(s, w, s.workers[w]);
    OpenFacts(s, w);
    OwnerStepKeeps(s, w, AfterCommit(s, w));
  }

  lemma FinishOpen(s: State, w: Worker, status: int, body: Utf8.Text)
    requires w in s.workers && s.workers[w].Running? && s.workers[w].txn.Open?
    requires PhaseOk(s, w, s.workers[w]) && KeyFree(s, w, s.workers[w].req.key)
    requires s.workers[w].id !in s.table
    requires forall i :: i in s.table && s.table[i].key == s.workers[w].req.key ==> Some(i) == s.workers[w].txn.doomed
    ensures OwnerStep(s, w, AfterFinish(s, w, status, body))
  {
    StoredBodyFits(body);
    var s' := AfterFinish(s, w, status, body);
    var id := s.workers[w].id;
    assert id in s'.table ==> s'.table[id] == s.workers[w].txn.row.(response := s'.table[id].response);
    assert OwnerMove(s, w, s');
    assert OwnerHistory(s, w, s');
  }

  lemma FinishCommittedHistory(s: State, w: Worker, status: int, body: Utf8.Text)
    requires w in s.workers && s.workers[w].Running? && s.workers[w].txn.Committed? && s.workers[w].id in s.table
    requires s.workers[w].id in s.entries && PhaseOk(s, w, s.workers[w]) && KeyFree(s, w, s.workers[w].req.key)
    ensures OwnerMove(s, w, AfterFinish(s, w, status, body)) && OwnerHistory(s, w, AfterFinish(s, w, status, body))
  {
    StoredBodyFits(body);
  }

  lemma FinishCommitted(s: State, w: Worker, status: int, body: Utf8.Text)
    requires RowsMatchEntries(s) && UniqueKeys(s)
    requires w in s.workers && s.workers[w].Running? && s.workers[w].txn.Committed? && s.workers[w].id in s.table
    requires PhaseOk(s, w, s.workers[w]) && KeyFree(s, w, s.workers[w].req.key)
    ensures OwnerStep(s, w, AfterFinish(s, w, status, body))
  {
    FinishCommittedHistory(s, w, status, body);
    assert s.table[s.workers[w].id].key == s.entries[s.workers[w].id].req.key;
  }

  lemma FinishOpenKeeps(s: State, w: Worker, status: int, body: Utf8.Text)
    requires Inv(s) && Enabled(s, Finish(w, status, body)) && s.workers[w].txn.Open?
    ensures Inv(AfterFinish(s, w, status, body))
  {
    assert PhaseOk(s, w, s.workers[w]);
    OpenFacts(s, w);
    FinishOpen(s, w, status, body);
    OwnerStepKeeps(s, w, AfterFinish(s, w, status, body));
  }

  lemma FinishCommittedKeeps(s: State, w: Worker, status: int, body: Utf8.Text)
    requires Inv(s) && Enabled(s, Finish(w, status, body)) && s.workers[w].txn.Committed? && s.workers[w].id in s.table
    ensures Inv(AfterFinish(s, w, status, body))
  {
    assert PhaseOk(s, w, s.workers[w]);
    FinishCommitted(s, w, status, body);
    OwnerStepKeeps(s, w, AfterFinish(s, w, status, body));
  }

  lemma FinishKeeps(s: State, w: Worker, status: int, body: Utf8.Text)
    requires Inv(s) && Enabled(s, Finish(w, status, body))
    ensures Inv(AfterFinish(s, w, status, body))
  {
    var p := s.workers[w];
    if p.txn.Open? {
      FinishOpenKeeps(s, w, status, body);
    } else if p.id in s.table {
      FinishCommittedKeeps(s, w, status, body);
    } else {
      assert PhaseOk(s, w, p);
      QuietKeeps(s, w, Done(p.req, Ran(p.id, status)));
    }
  }

  lemma AbandonKeeps(s: State, w: Worker)
    requires Inv(s) && Enabled(s, Abandon(w))
    ensures Inv(AfterAbandon(s, w))
  {
    var p := s.workers[w];
    assert PhaseOk(s, w, p);
    if p.Running? && p.txn.Open? {
      OpenFacts(s, w);
      OwnerStepKeeps(s, w, AfterAbandon(s, w));
    } else {
      QuietKeeps(s, w, Done(p.req, Failed));
    }
  }

  lemma PruneKeepsPhase(s: State, ids: set<RowId>, w: Worker)
    requires PhasesOk(s) && RowsMatchEntries(s) && Enabled(s, Prune(ids)) && w in s.workers
    ensures PhaseOk(s.(table := s.table - ids), w, s.workers[w])
  {
    var p := s.workers[w];
    assert PhaseOk(s, w, p);
    if p.Inserting? && p.doomed.Some? {
      assert Held(p) == Some(p.req.key);
      assert p.doomed.value !in ids;
    }
    if p.Running? && p.txn.Open? && p.txn.doomed.Some? {
      assert Held(p) == Some(p.req.key);
      assert p.txn.doomed.value !in ids;
    }
  }

  lemma PruneKeepsAccounted(s: State, ids: set<RowId>)
    requires Accounted(s) && RowsMatchEntries(s) && Enabled(s, Prune(ids))
    ensures Accounted(s.(table := s.table - ids))
  {
    var s' := s.(table := s.table - ids);
    forall id | id in s'.entries && id !in s'.freed && s'.entries[id].expiresAt > s'.now && id !in s'.table
      ensures OwnedBy(s', id, s'.entries[id].worker)
    {
      assert OwnedBy(s, id, s.entries[id].worker);
    }
  }

  lemma PruneKeeps(s: State, ids: set<RowId>)
    requires Inv(s) && Enabled(s, Prune(ids))
    ensures Inv(Next(s, Prune(ids)))
  {
    forall w | w in s.workers ensures PhaseOk(Next(s, Prune(ids)), w, s.workers[w]) {
      PruneKeepsPhase(s, ids, w);
    }
    PruneKeepsAccounted(s, ids);
  }

  lemma SampleKeeps(s: State, w: Worker)
    requires Inv(s) && Enabled(s, Sample(w))
    ensures Inv(Next(s, Sample(w)))
  {
    assert PhaseOk(s, w, s.workers[w]);
    QuietKeeps(s, w, Querying(s.workers[w].req, s.workers[w].round, s.now));
  }

  lemma QueryKeeps(s: State, w: Worker, finding: Finding)
    requires Inv(s) && Enabled(s, Query(w, finding))
    ensures Inv(AfterQuery(s, w, finding))
  {
    assert PhaseOk(s, w, s.workers[w]);
    QuietKeeps(s, w, AfterQuery(s, w, finding).workers[w]);
  }

  lemma DeleteKeeps(s: State, w: Worker)
    requires Inv(s) && Enabled(s, DeleteFlush(w))
    ensures Inv(Next(s, DeleteFlush(w)))
  {
    assert PhaseOk(s, w, s.workers[w]);
    QuietKeeps(s, w, Next(s, DeleteFlush(w)).workers[w]);
  }

  lemma InsertKeeps(s: State, w: Worker)
    requires Inv(s) && Enabled(s, InsertFlush(w))
    ensures Inv(AfterInsert(s, w))
  {
    if Clashes(s.table, s.workers[w].req.key, s.workers[w].doomed) {
      assert PhaseOk(s, w, s.workers[w]);
      QuietKeeps(s, w, AfterInsert(s, w).workers[w]);
    } else {
      EnterKeeps(s, w);
    }
  }

  lemma NextKeeps(s: State, e: Event)
    requires Inv(s) && Enabled(s, e)
    ensures Inv(Next(s, e))
  {
    match e
    case Tick(t) => TickKeeps(s, t);
    case Arrive(w, req) => QuietKeeps(s, w, Sampling(req, 0));
    case Sample(w) => SampleKeeps(s, w);
    case Query(w, finding) => QueryKeeps(s, w, finding);
    case DeleteFlush(w) => DeleteKeeps(s, w);
    case InsertFlush(w) => InsertKeeps(s, w);
    case ViewCommit(w) => CommitKeeps(s, w);
    case Finish(w, status, body) => FinishKeeps(s, w, status, body);
    case Abandon(w) => AbandonKeeps(s, w);
    case Prune(ids) => PruneKeeps(s, ids);
  }

  lemma {:induction false} RunInvariant(states: seq<State>, events: seq<Event>, n: nat)
    requires Run(states, events) && n < |states|
    ensures Inv(states[n])
  {
    if n > 0 {
      RunInvariant(states, events, n - 1);
      NextKeeps(states[n - 1], events[n - 1]);
    }
  }
}
