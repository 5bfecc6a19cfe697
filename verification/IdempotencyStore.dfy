/** The service functions and the decorator as they run inside one process, over the table they update in place. */
module IdempotencyStore {
  import opened Wrappers
  import opened Idempotency
  import Utf8

  // What one round of the allocation loop meets: its clock, and the committed table at its query and at its insert.
  datatype Round = Round(now: int, atQuery: Table, atInsert: Table)

  datatype Allocation =
    | Created(row: Row, doomed: Option<RowId>, round: nat)
    | Existing(id: RowId, row: Row, round: nat)
    | KeyConflict(id: RowId, round: nat)
    | NotAllocated

  ghost predicate KeysUnique(table: Table) {
    forall i, j :: i in table && j in table && table[i].key == table[j].key ==> i == j
  }

  // Round i reached the insert, having deleted the row doomed names.
  ghost predicate ReachesInsert(r: Round, req: Request, doomed: Option<RowId>) {
    match doomed
    case None =>
      || Find(r.atQuery, req, r.now, Absent)
      || exists id :: Find(r.atQuery, req, r.now, Expired(id)) && id !in r.atInsert
    case Some(id) => Find(r.atQuery, req, r.now, Expired(id)) && id in r.atInsert
  }

  ghost predicate ClashedRound(r: Round, req: Request) {
    exists doomed :: ReachesInsert(r, req, doomed) && Clashes(r.atInsert, req.key, doomed)
  }

  method FindByKey(table: Table, key: string) returns (found: Option<RowId>)
    ensures found.None? ==> forall id :: id in table ==> table[id].key != key
    ensures found.Some? ==> found.value in table && table[found.value].key == key
  {
    var rest := table.Keys;
    while rest != {}
      invariant rest <= table.Keys
      invariant forall id :: id in table && id !in rest ==> table[id].key != key
      decreases |rest|
    {
      var id :| id in rest;
      if table[id].key == key {
        return Some(id);
      }
      rest := rest - {id};
    }
    return None;
  }

  // The bounded retry loop of get_or_create. Whatever tables the rounds meet, the outcome is decided by the first
  // round that does not clash, and the loop gives up only after MAX_ROUNDS clashes.
  method GetOrCreate(req: Request, ttl: int, rounds: seq<Round>) returns (a: Allocation)
    requires |rounds| == 8 && forall i :: 0 <= i < 8 ==> KeysUnique(rounds[i].atQuery)
    ensures a.NotAllocated? <==> forall i :: 0 <= i < 8 ==> ClashedRound(rounds[i], req)
    ensures !a.NotAllocated? ==> a.round < 8 && forall i :: 0 <= i < a.round ==> ClashedRound(rounds[i], req)
    ensures a.Existing? ==> var r := rounds[a.round];
      Find(r.atQuery, req, r.now, Live(a.id)) && a.row == r.atQuery[a.id]
    ensures a.KeyConflict? ==> Find(rounds[a.round].atQuery, req, rounds[a.round].now, Mismatch(a.id))
    ensures a.Created? ==> var r := rounds[a.round];
      && ReachesInsert(r, req, a.doomed) && !Clashes(r.atInsert, req.key, a.doomed)
      && a.row == NewRow(req, r.now, ttl)
  {
    for n := 0 to MAX_ROUNDS
      invariant forall i :: 0 <= i < n ==> ClashedRound(rounds[i], req)
    {
      var r := rounds[n];
      var doomed: Option<RowId> := None;
      var found := FindByKey(r.atQuery, req.key);
      if found.Some? {
        var row := r.atQuery[found.value];
        if row.expiresAt > r.now {
          if row.hash == req.hash {
            assert Find(r.atQuery, req, r.now, Live(found.value));
            return Existing(found.value, row, n);
          }
          assert Find(r.atQuery, req, r.now, Mismatch(found.value));
          return KeyConflict(found.value, n);
        }
        assert Find(r.atQuery, req, r.now, Expired(found.value));
        if found.value in r.atInsert {
          doomed := found;
        }
      }
      assert ReachesInsert(r, req, doomed);
      var mine := if doomed.Some? then {doomed.value} else {};
      var other := FindByKey(r.atInsert - mine, req.key);
      if other.None? {
        assert forall id :: id in r.atInsert && id !in mine ==> id in r.atInsert - mine;
        assert !Clashes(r.atInsert, req.key, doomed);
        return Created(NewRow(req, r.now, ttl), doomed, n);
      }
      assert Clashes(r.atInsert, req.key, doomed);
    }
    return NotAllocated;
  }

  /******* The decorator *******/

  datatype ViewOutcome = Returned(status: int, body: Utf8.Text) | Raised

  datatype Reply =
    | KeyRequired
    | Conflicted
    | StillInProgress
    | Replayed(cached: Cached)
    | Passed(status: int, body: Utf8.Text)
    | Errored

  // The answer to a request that meets a live row of its key.
  function ReplyTo(row: Row, hash: string): Reply {
    if row.hash != hash then Conflicted
    else if row.response.Some? then Replayed(row.response.value)
    else StillInProgress
  }

  ghost predicate MeetsLiveRow(table: Table, req: Request, now: int, id: RowId) {
    id in table && table[id].key == req.key && table[id].expiresAt > now
  }

  // The table after a request whose query ends in the finding, and the reply.
  function TableAfter(table: Table, nextId: RowId, req: Request, now: int, ttl: int, finding: Finding, view: ViewOutcome): Table {
    if finding.Live? || finding.Mismatch? || view.Raised? then table
    else
      var base := Without(table, if finding.Expired? then Some(finding.id) else None);
      Record(base[nextId := NewRow(req, now, ttl)], nextId, view.status, view.body)
  }

  ghost function ReplyAfter(table: Table, req: Request, finding: Finding, view: ViewOutcome): Reply
    requires finding.Live? || finding.Mismatch? ==> finding.id in table
  {
    match finding
    case Live(id) => ReplyTo(table[id], req.hash)
    case Mismatch(id) => ReplyTo(table[id], req.hash)
    case _ => if view.Raised? then Errored else Passed(view.status, view.body)
  }

  ghost predicate Served(table: Table, nextId: RowId, req: Request, now: int, ttl: int, finding: Finding, view: ViewOutcome,
                         table': Table, reply: Reply) {
    && Find(table, req, now, finding)
    && table' == TableAfter(table, nextId, req, now, ttl, finding, view)
    && reply == ReplyAfter(table, req, finding, view)
  }

  ghost predicate Stores(table: Table, row: Row) {
    exists id :: id in table && table[id] == row
  }

  ghost predicate SameElsewhere(table: Table, table': Table, key: string) {
    && (forall id :: id in table && table[id].key != key ==> id in table' && table'[id] == table[id])
    && (forall id :: id in table' && table'[id].key != key ==> id in table)
  }

  lemma SplitSize(all: set<RowId>, kept: set<RowId>, gone: set<RowId>)
    requires kept == all - gone && gone <= all
    ensures |gone| == |all| - |kept|
  {
    assert all == kept + gone && kept !! gone;
  }

  // A response recorded for a row just inserted is on that row, or the row is gone again.
  lemma RecordedOnNewRow(table: Table, id: RowId, row: Row, status: int, body: Utf8.Text)
    requires id !in table
    ensures var after := Record(table[id := row], id, status, body);
      if status < 400 || status == 422 then Stores(after, row.(response := Some(Cached(status, StoredBody(body)))))
      else after == table
  {
    var after := Record(table[id := row], id, status, body);
    if ShouldCache(status) {
      assert id in after && after[id] == row.(response := Some(Cached(status, StoredBody(body))));
    }
  }

  // What a request that enters the view leaves behind, said without naming the rows it touches.
  lemma ServedEntered(table: Table, nextId: RowId, req: Request, now: int, ttl: int, finding: Finding, view: ViewOutcome,
                      table': Table, reply: Reply)
    requires KeysUnique(table) && nextId !in table && (finding.Absent? || finding.Expired?)
    requires Served(table, nextId, req, now, ttl, finding, view, table', reply)
    ensures forall id :: !MeetsLiveRow(table, req, now, id)
    ensures view.Raised? ==> table' == table && reply == Errored
    ensures view.Returned? ==>
      && reply == Passed(view.status, view.body) && SameElsewhere(table, table', req.key)
      && if view.status < 400 || view.status == 422
         then Stores(table', Row(req.key, req.endpoint, req.hash, Some(Cached(view.status, StoredBody(view.body))), now + ttl))
         else forall id :: id in table' ==> table'[id].key != req.key
  {
    if view.Returned? {
      var base := Without(table, if finding.Expired? then Some(finding.id) else None);
      RecordedOnNewRow(base, nextId, NewRow(req, now, ttl), view.status, view.body);
    }
  }

  // A row of the key that is live and answered decides every later request for the key until it expires: the same hash
  // gets the stored answer, another hash a conflict, and the view is not entered. A live row without an answer gives
  // "in progress" to the same hash.
  lemma LiveRowDecides(table: Table, nextId: RowId, req: Request, now: int, ttl: int, finding: Finding, view: ViewOutcome,
                       table': Table, reply: Reply, id: RowId)
    requires KeysUnique(table) && Served(table, nextId, req, now, ttl, finding, view, table', reply)
    requires id in table && table[id].key == req.key && now < table[id].expiresAt
    ensures table' == table
    ensures table[id].hash != req.hash ==> reply == Conflicted
    ensures table[id].hash == req.hash ==>
      reply == if table[id].response.Some? then Replayed(table[id].response.value) else StillInProgress
  {
    assert finding.id == id;
  }

  // A request and its retry. A first answer with a status below 400 or with 422 is replayed, status and stored body, to
  // every request with the same key and hash before the row expires, and the retry changes nothing; after any other
  // answer, or an exception, the retry enters the view again.
  lemma RetryIsReplayed(table: Table, nextId: RowId, req: Request, now: int, ttl: int, finding: Finding, view: ViewOutcome,
                        first: Table, reply: Reply,
                        nextId': RowId, req': Request, later: int, finding': Finding, view': ViewOutcome,
                        second: Table, reply': Reply)
    requires KeysUnique(table) && KeysUnique(first) && nextId !in table && (finding.Absent? || finding.Expired?)
    requires Served(table, nextId, req, now, ttl, finding, view, first, reply)
    requires Served(first, nextId', req', later, ttl, finding', view', second, reply')
    requires req'.key == req.key && req'.hash == req.hash && now <= later < now + ttl
    ensures view.Returned? && (view.status < 400 || view.status == 422) ==>
      second == first && reply' == Replayed(Cached(view.status, StoredBody(view.body)))
    ensures view.Raised? || (view.status >= 400 && view.status != 422) ==>
      reply' == if view'.Raised? then Errored else Passed(view'.status, view'.body)
  {
    ServedEntered(table, nextId, req, now, ttl, finding, view, first, reply);
    if view.Returned? && (view.status < 400 || view.status == 422) {
      var row := Row(req.key, req.endpoint, req.hash, Some(Cached(view.status, StoredBody(view.body))), now + ttl);
      var id :| id in first && first[id] == row;
      LiveRowDecides(first, nextId', req', later, ttl, finding', view', second, reply', id);
    }
  }

  // One process at a time; the interleaved protocol is module Idempotency.
  class KeyStore {
    var rows: Table
    var nextId: RowId
    const ttl: int

    ghost predicate Valid()
      reads this
    {
      KeysUnique(rows) && forall id :: id in rows ==> id < nextId
    }

    constructor (ttl: int)
      ensures Valid() && rows == map[] && this.ttl == ttl
    {
      rows, nextId, this.ttl := map[], 0, ttl;
    }

    method PruneExpired(now: int) returns (deleted: nat)
      requires Valid()
      modifies this`rows
      ensures Valid()
      ensures forall id :: id in rows <==> id in old(rows) && old(rows)[id].expiresAt >= now
      ensures forall id :: id in rows ==> rows[id] == old(rows)[id]
      ensures deleted == |old(rows)| - |rows|
    {
      var gone := set id | id in rows && rows[id].expiresAt < now;
      var kept := rows - gone;
      SplitSize(rows.Keys, kept.Keys, gone);
      deleted := |gone|;
      rows := kept;
    }

    method RecordResponse(id: RowId, status: int, body: Utf8.Text)
      requires Valid()
      modifies this`rows
      ensures Valid() && rows == Record(old(rows), id, status, body)
      ensures rows ==
        if id !in old(rows) then old(rows)
        else if status < 400 || status == 422 then
          old(rows)[id := old(rows)[id].(response := Some(Cached(status, StoredBody(body))))]
        else old(rows) - {id}
    {
      if id in rows {
        if !ShouldCache(status) {
          rows := rows - {id};
          return;
        }
        var text := body;
        var raw := Utf8.Encode(body);
        if |raw| > BODY_LIMIT {
          text := Utf8.DecodeIgnore(raw[..BODY_LIMIT]);
        }
        rows := rows[id := rows[id].(response := Some(Cached(status, text)))];
      }
    }

    // The wrapper around a view: what it answers, whether it entered the view, and the table it leaves behind.
    method IdempotentPost(key: Option<string>, endpoint: string, hash: string, now: int, view: ViewOutcome)
      returns (reply: Reply, entered: bool)
      requires Valid()
      modifies this
      ensures Valid()
      ensures key.None? ==> reply == KeyRequired && !entered && rows == old(rows)
      ensures key.Some? ==> var req := Request(key.value, endpoint, hash);
        exists finding :: Served(old(rows), old(nextId), req, now, ttl, finding, view, rows, reply)
      ensures key.Some? ==> var req := Request(key.value, endpoint, hash);
        && (entered <==> forall id :: !MeetsLiveRow(old(rows), req, now, id))
        && (!entered ==> rows == old(rows) && exists id :: MeetsLiveRow(rows, req, now, id) && reply == ReplyTo(rows[id], hash))
        && (entered && view.Raised? ==> rows == old(rows) && reply == Errored)
        && (entered && view.Returned? ==>
              && reply == Passed(view.status, view.body)
              && SameElsewhere(old(rows), rows, req.key)
              && if view.status < 400 || view.status == 422
                 then Stores(rows, Row(req.key, endpoint, hash, Some(Cached(view.status, StoredBody(view.body))), now + ttl))
                 else forall id :: id in rows ==> rows[id].key != req.key)
    {
      if key.None? {
        return KeyRequired, false;
      }
      var req := Request(key.value, endpoint, hash);
      var found := FindByKey(rows, req.key);
      if found.Some? && rows[found.value].expiresAt > now {
        var row := rows[found.value];
        assert MeetsLiveRow(rows, req, now, found.value);
        if row.hash != hash {
          reply := Conflicted;
        } else if row.response.Some? {
          reply := Replayed(row.response.value);
        } else {
          reply := StillInProgress;
        }
        ghost var finding := if row.hash == hash then Live(found.value) else Mismatch(found.value);
        assert Served(old(rows), old(nextId), req, now, ttl, finding, view, rows, reply);
        return reply, false;
      }
      ghost var finding := if found.Some? then Expired(found.value) else Absent;
      reply := RunView(req, found, now, view);
      assert Served(old(rows), old(nextId), req, now, ttl, finding, view, rows, reply);
      ServedEntered(old(rows), old(nextId), req, now, ttl, finding, view, rows, reply);
      return reply, true;
    }

    // A row of its own for the request, then the view: an exception rolls both back, a response is recorded.
    method RunView(req: Request, found: Option<RowId>, now: int, view: ViewOutcome) returns (reply: Reply)
      requires Valid() && (found.Some? ==> found.value in rows && rows[found.value].key == req.key)
      requires forall id :: id in rows && rows[id].key == req.key ==> found == Some(id)
      modifies this
      ensures Valid()
      ensures rows == TableAfter(old(rows), old(nextId), req, now, ttl, if found.Some? then Expired(found.value) else Absent, view)
      ensures reply == if view.Raised? then Errored else Passed(view.status, view.body)
    {
      var before := rows;
      rows := Without(rows, found);
      var id := nextId;
      nextId := nextId + 1;
      rows := rows[id := NewRow(req, now, ttl)];
      match view {
        case Raised =>
          rows := before;
          return Errored;
        case Returned(status, body) =>
          RecordResponse(id, status, body);
          return Passed(status, body);
      }
    }
  }
}
