/**
  The decorator run by one worker without interruption is a run of the protocol: what IdempotencyStore.KeyStore does to
  the table, and what it answers, is what the interleaved machine does when the other workers stand still.
 */
module IdempotencyRefinement {
  import opened Wrappers
  import opened Idempotency
  import S = IdempotencyStore
  import T = IdempotencyTheorems
  import Utf8

  /******* Adding a step to a run *******/

  ghost function Last(states: seq<State>): State
    requires states != []
  {
    states[|states| - 1]
  }

  lemma Extend(states: seq<State>, events: seq<Event>, e: Event) returns (states': seq<State>, events': seq<Event>)
    requires Run(states, events) && Enabled(Last(states), e)
    ensures Run(states', events') && states <= states' && events <= events' && |events'| == |events| + 1
    ensures Last(states') == Next(Last(states), e)
  {
    states', events' := states + [Next(Last(states), e)], events + [e];
    forall i | 0 <= i < |events'|
      ensures Enabled(states'[i], events'[i]) && states'[i + 1] == Next(states'[i], events'[i])
    {
      if i < |events| {
        assert states'[i] == states[i] && states'[i + 1] == states[i + 1] && events'[i] == events[i];
      }
    }
  }

  lemma MoveTwice(s: State, w: Worker, p: Phase, q: Phase)
    ensures Move(Move(s, w, p), w, q) == Move(s, w, q)
  {
    assert s.workers[w := p][w := q] == s.workers[w := q];
  }

  lemma MoveKeepsFree(s: State, w: Worker, p: Phase, key: string)
    requires KeyFree(s, w, key)
    ensures KeyFree(Move(s, w, p), w, key)
  {
  }

  /******* One request, from its arrival on *******/

  // Up to the query.
  lemma AskAlone(states: seq<State>, events: seq<Event>, w: Worker, req: Request)
    returns (states': seq<State>, events': seq<Event>)
    requires Run(states, events) && w !in Last(states).workers
    ensures Run(states', events') && events <= events' && |events'| == |events| + 2
    ensures Last(states') == Move(Last(states), w, Querying(req, 0, Last(states).now))
  {
    var s := Last(states);
    states', events' := Extend(states, events, Arrive(w, req));
    states', events' := Extend(states', events', Sample(w));
    MoveTwice(s, w, Sampling(req, 0), Querying(req, 0, s.now));
  }

  // From a query that finds no row to the insert.
  lemma PassAbsent(states: seq<State>, events: seq<Event>, s: State, w: Worker, req: Request)
    returns (states': seq<State>, events': seq<Event>)
    requires Run(states, events) && Last(states) == Move(s, w, Querying(req, 0, s.now)) && Find(s.table, req, s.now, Absent)
    ensures Run(states', events') && events <= events' && |events'| == |events| + 1
    ensures Last(states') == Move(s, w, Inserting(req, 0, s.now, None))
  {
    states', events' := Extend(states, events, Query(w, Absent));
    MoveTwice(s, w, Querying(req, 0, s.now), Inserting(req, 0, s.now, None));
  }

  // From a query that finds an expired row, through its deletion, to the insert.
  lemma PassExpired(states: seq<State>, events: seq<Event>, s: State, w: Worker, req: Request, id: RowId)
    returns (states': seq<State>, events': seq<Event>)
    requires Run(states, events) && Last(states) == Move(s, w, Querying(req, 0, s.now))
    requires Find(s.table, req, s.now, Expired(id)) && KeyFree(s, w, req.key)
    ensures Run(states', events') && events <= events' && |events'| == |events| + 2
    ensures Last(states') == Move(s, w, Inserting(req, 0, s.now, Some(id)))
  {
    var deleting := Deleting(req, 0, s.now, id);
    states', events' := Extend(states, events, Query(w, Expired(id)));
    MoveTwice(s, w, Querying(req, 0, s.now), deleting);
    MoveKeepsFree(s, w, deleting, req.key);
    states', events' := Extend(states', events', DeleteFlush(w));
    MoveTwice(s, w, deleting, Inserting(req, 0, s.now, Some(id)));
  }

  // The row a finding leaves to be replaced.
  function Replaces(finding: Finding): Option<RowId> {
    if finding.Expired? then Some(finding.id) else None
  }

  predicate Enters(finding: Finding) {
    finding.Absent? || finding.Expired?
  }

  // The state in which the view runs.
  ghost function Entered(s: State, w: Worker, req: Request, doomed: Option<RowId>): State {
    Move(s, w, Running(req, s.nextId, Open(NewRow(req, s.now, s.ttl), doomed)))
      .(nextId := s.nextId + 1, entries := s.entries[s.nextId := Entry(w, req, s.now + s.ttl, s.now)])
  }

  lemma InsertAlone(s: State, w: Worker, req: Request, finding: Finding)
    requires UniqueKeys(s) && Find(s.table, req, s.now, finding) && Enters(finding)
    ensures var t := Move(s, w, Inserting(req, 0, s.now, Replaces(finding)));
      !Clashes(s.table, req.key, Replaces(finding)) && AfterInsert(t, w) == Entered(s, w, req, Replaces(finding))
  {
    MoveTwice(s, w, Inserting(req, 0, s.now, Replaces(finding)),
              Running(req, s.nextId, Open(NewRow(req, s.now, s.ttl), Replaces(finding))));
  }

  lemma EnterAlone(states: seq<State>, events: seq<Event>, w: Worker, req: Request, finding: Finding)
    returns (states': seq<State>, events': seq<Event>)
    requires Run(states, events) && w !in Last(states).workers && KeyFree(Last(states), w, req.key) && Enters(finding)
    requires Find(Last(states).table, req, Last(states).now, finding)
    ensures Run(states', events') && events <= events'
    ensures Last(states') == Entered(Last(states), w, req, Replaces(finding))
  {
    var s := Last(states);
    RunInvariant(states, events, |events|);
    states', events' := AskAlone(states, events, w, req);
    if finding.Absent? {
      states', events' := PassAbsent(states', events', s, w, req);
    } else {
      states', events' := PassExpired(states', events', s, w, req, finding.id);
    }
    MoveKeepsFree(s, w, Inserting(req, 0, s.now, Replaces(finding)), req.key);
    InsertAlone(s, w, req, finding);
    states', events' := Extend(states', events', InsertFlush(w));
  }

  /******* The answer *******/

  // What the client is told, and the phase in which the machine leaves the worker.
  ghost predicate Tells(p: Phase, req: Request, reply: S.Reply) {
    && p.Done? && p.req == req
    && match reply
       case Conflicted => p.answer.Conflict?
       case StillInProgress => p.answer.InProgress?
       case Replayed(cached) => p.answer.Replay? && p.answer.cached == cached
       case Passed(status, _) => p.answer.Ran? && p.answer.status == status
       case Errored => p.answer == Failed
       case KeyRequired => false
  }

  lemma AnswerAlone(states: seq<State>, events: seq<Event>, w: Worker, req: Request, finding: Finding)
    returns (states': seq<State>, events': seq<Event>)
    requires Run(states, events) && w !in Last(states).workers && !Enters(finding)
    requires Find(Last(states).table, req, Last(states).now, finding)
    ensures Run(states', events') && events <= events' && Last(states').table == Last(states).table
    ensures w in Last(states').workers && Tells(Last(states').workers[w], req, S.ReplyTo(Last(states).table[finding.id], req.hash))
  {
    states', events' := AskAlone(states, events, w, req);
    states', events' := Extend(states', events', Query(w, finding));
  }

  lemma FinishAlone(s: State, w: Worker, req: Request, finding: Finding, status: int, body: Utf8.Text)
    requires Find(s.table, req, s.now, finding) && Enters(finding)
    ensures var t := Entered(s, w, req, Replaces(finding));
      && Enabled(t, Finish(w, status, body))
      && AfterFinish(t, w, status, body).table
           == S.TableAfter(s.table, s.nextId, req, s.now, s.ttl, finding, S.Returned(status, body))
  {
  }

  // The view raises, or returns and its answer is recorded.
  lemma RunViewAlone(states: seq<State>, events: seq<Event>, s: State, w: Worker, req: Request, finding: Finding, view: S.ViewOutcome)
    returns (states': seq<State>, events': seq<Event>)
    requires Run(states, events) && Find(s.table, req, s.now, finding) && Enters(finding)
    requires Last(states) == Entered(s, w, req, Replaces(finding))
    ensures Run(states', events') && events <= events'
    ensures Last(states').table == S.TableAfter(s.table, s.nextId, req, s.now, s.ttl, finding, view)
    ensures w in Last(states').workers && Tells(Last(states').workers[w], req, S.ReplyAfter(s.table, req, finding, view))
  {
    match view {
      case Raised => states', events' := Extend(states, events, Abandon(w));
      case Returned(status, body) =>
        FinishAlone(s, w, req, finding, status, body);
        states', events' := Extend(states, events, Finish(w, status, body));
    }
  }

  // Whatever the other workers have done before and wherever they stand, as long as none of them holds the key: from
  // that point the worker's own events lead to the table and the answer of the decorator.
  lemma DecoratorIsARun(states: seq<State>, events: seq<Event>, w: Worker, req: Request, finding: Finding, view: S.ViewOutcome)
    returns (states': seq<State>, events': seq<Event>)
    requires Run(states, events) && w !in Last(states).workers && KeyFree(Last(states), w, req.key)
    requires Find(Last(states).table, req, Last(states).now, finding)
    ensures Run(states', events') && events <= events'
    ensures var s, s' := Last(states), Last(states');
      && s'.table == S.TableAfter(s.table, s.nextId, req, s.now, s.ttl, finding, view)
      && w in s'.workers && Tells(s'.workers[w], req, S.ReplyAfter(s.table, req, finding, view))
  {
    if !Enters(finding) {
      states', events' := AnswerAlone(states, events, w, req, finding);
    } else {
      states', events' := EnterAlone(states, events, w, req, finding);
      states', events' := RunViewAlone(states', events', Last(states), w, req, finding, view);
    }
  }

  /******* A run that leaves a row orphaned *******/

  // The view commits, then its process dies: from any reachable state with a fresh worker and the key free.
  lemma OrphanWitness(states: seq<State>, events: seq<Event>, w: Worker, req: Request, finding: Finding)
    returns (states': seq<State>, events': seq<Event>)
    requires Run(states, events) && w !in Last(states).workers && KeyFree(Last(states), w, req.key) && Enters(finding)
    requires Find(Last(states).table, req, Last(states).now, finding)
    ensures Run(states', events') && events <= events'
    ensures T.Orphaned(Last(states'), Last(states).nextId)
    ensures Last(states').table[Last(states).nextId] == NewRow(req, Last(states).now, Last(states).ttl)
    ensures Last(states').now == Last(states).now
  {
    states', events' := EnterAlone(states, events, w, req, finding);
    states', events' := Extend(states', events', ViewCommit(w));
    states', events' := Extend(states', events', Abandon(w));
  }

  lemma OrphanFromScratch(w: Worker, req: Request, now: int, ttl: int)
    returns (states: seq<State>, events: seq<Event>)
    ensures Run(states, events) && T.Orphaned(Last(states), 0) && Last(states).now == now
    ensures Last(states).table[0] == NewRow(req, now, ttl)
  {
    states, events := [Init(now, ttl)], [];
    assert Run(states, events);
    states, events := OrphanWitness(states, events, w, req, Absent);
  }
}
