/** What clients of an idempotency key may rely on, over every run of the protocol. */
module IdempotencyTheorems {
  import opened Wrappers
  import opened Idempotency
  import Utf8

  /******* The stored body *******/

  // The stored body is the longest prefix of the body, counted in code points, that fits in the limit.
  lemma StoredBodyIsLongestPrefix(body: Utf8.Text, k: nat)
    requires k <= |body|
    ensures StoredBody(body) <= body
    ensures |Utf8.Encode(body[..k])| <= 65536 <==> k <= |StoredBody(body)|
  {
    Utf8.FitIsLongest(body, BODY_LIMIT, k);
    assert body[..|body|] == body;
    Utf8.FitIsLongest(body, BODY_LIMIT, |body|);
    if |Utf8.Encode(body)| > BODY_LIMIT {
      Utf8.CutDecodesToPrefix(body, BODY_LIMIT);
    }
  }

  /******* Findings are total and unambiguous *******/

  lemma FindTotal(s: State, req: Request, t: int)
    requires UniqueKeys(s)
    ensures exists finding :: Find(s.table, req, t, finding)
    ensures forall f, g :: Find(s.table, req, t, f) && Find(s.table, req, t, g) ==> f == g
  {
    if id :| id in s.table && s.table[id].key == req.key {
      var finding := if s.table[id].expiresAt <= t then Expired(id)
                     else if s.table[id].hash == req.hash then Live(id) else Mismatch(id);
      assert Find(s.table, req, t, finding);
    } else {
      assert Find(s.table, req, t, Absent);
    }
  }

  /******* Ownership *******/

  lemma OneRowOneOwner(states: seq<State>, events: seq<Event>, n: nat)
    requires Run(states, events) && n < |states|
    ensures UniqueKeys(states[n])
    ensures forall v, w ::
      (v in states[n].workers && w in states[n].workers
       && states[n].workers[v].Running? && states[n].workers[w].Running?
       && states[n].workers[v].id == states[n].workers[w].id) ==> v == w
  {
    RunInvariant(states, events, n);
    var s := states[n];
    forall w | w in s.workers && s.workers[w].Running? ensures s.entries[s.workers[w].id].worker == w {
      assert PhaseOk(s, w, s.workers[w]);
    }
  }

  // Only its owner writes a row, and a row that has not expired is removed only by its owner, to free the key after
  // an answer that may not be replayed.
  ghost predicate OwnerOnly(s: State, e: Event, id: RowId)
    requires Enabled(s, e) && id in s.table && id in s.entries
  {
    var s' := Next(s, e);
    var byOwner := e.Finish? && e.w == s.entries[id].worker;
    && (id in s'.table && s'.table[id] != s.table[id] ==> byOwner)
    && (id !in s'.table && s.table[id].expiresAt > s.now ==> byOwner && !ShouldCache(e.status))
  }

  lemma OwnerOnlyStep(s: State, e: Event, id: RowId)
    requires PhasesOk(s) && Enabled(s, e)
    requires id in s.table && id in s.entries && id in s.visible && s.table[id].expiresAt == s.entries[id].expiresAt
    ensures OwnerOnly(s, e, id)
  {
    match e
    case ViewCommit(w) => assert PhaseOk(s, w, s.workers[w]);
    case Finish(w, _, _) => assert PhaseOk(s, w, s.workers[w]);
    case _ =>
  }

  lemma OnlyOwnerTouchesLiveRow(states: seq<State>, events: seq<Event>, n: nat, id: RowId)
    requires Run(states, events) && n < |events| && id in states[n].table
    ensures id in states[n].entries && OwnerOnly(states[n], events[n], id)
  {
    RunInvariant(states, events, n);
    OwnerOnlyStep(states[n], events[n], id);
  }

  /******* History only grows *******/

  ghost predicate Extends(s: State, s': State) {
    && s.now <= s'.now && s.visible <= s'.visible
    && (forall id :: id in s.entries ==> id in s'.entries && s'.entries[id] == s.entries[id])
    && (forall id :: id in s.recorded ==> id in s'.recorded && s'.recorded[id] == s.recorded[id])
    && (forall id :: id in s.freed ==> id in s'.freed && s'.freed[id] == s.freed[id])
  }

  lemma StepExtends(s: State, e: Event)
    requires HistoryOk(s) && PhasesOk(s) && Enabled(s, e)
    ensures Extends(s, Next(s, e))
  {
    match e
    case InsertFlush(w) => assert s.nextId !in s.entries;
    case Finish(w, status, body) =>
      assert PhaseOk(s, w, s.workers[w]);
      FinishExtends(s, w, status, body);
    case Abandon(w) => assert PhaseOk(s, w, s.workers[w]);
    case _ =>
  }

  lemma FinishExtends(s: State, w: Worker, status: int, body: Utf8.Text)
    requires w in s.workers && s.workers[w].Running? && PhaseOk(s, w, s.workers[w])
    ensures Extends(s, AfterFinish(s, w, status, body))
  {
  }

  lemma ExtendsFurther(s: State, t: State, u: State)
    requires Extends(s, t) && Extends(t, u)
    ensures Extends(s, u)
  {
  }

  lemma RunStepExtends(states: seq<State>, events: seq<Event>, n: nat)
    requires Run(states, events) && n < |events|
    ensures Extends(states[n], states[n + 1])
  {
    RunInvariant(states, events, n);
    StepExtends(states[n], events[n]);
  }

  ghost predicate Chain(states: seq<State>) {
    forall i :: 0 <= i < |states| - 1 ==> Extends(states[i], states[i + 1])
  }

  lemma RunIsChain(states: seq<State>, events: seq<Event>)
    requires Run(states, events)
    ensures Chain(states)
  {
    forall i | 0 <= i < |states| - 1 ensures Extends(states[i], states[i + 1]) {
      RunStepExtends(states, events, i);
    }
  }

  lemma {:induction false} ChainExtends(states: seq<State>, m: nat, n: nat)
    requires Chain(states) && m <= n < |states|
    ensures Extends(states[m], states[n])
    decreases n - m
  {
    if m < n {
      ChainExtends(states, m, n - 1);
      ExtendsFurther(states[m], states[n - 1], states[n]);
    }
  }

  lemma RunExtends(states: seq<State>, events: seq<Event>, m: nat, n: nat)
    requires Run(states, events) && m <= n < |states|
    ensures Extends(states[m], states[n])
  {
    RunIsChain(states, events);
    ChainExtends(states, m, n);
  }

  /******* The guarded view runs once per live key *******/

  // A step that enters the view for row j is an insert; every earlier entry for the same key has expired by then, or
  // was released by then: rolled back without a trace, or answered with a status that may not be replayed.
  lemma ViewEnteredOncePerLiveRow(states: seq<State>, events: seq<Event>, n: nat, i: RowId, j: RowId)
    requires Run(states, events) && n < |events|
    requires j in states[n + 1].entries && j !in states[n].entries
    requires i in states[n].entries && states[n].entries[i].req.key == states[n + 1].entries[j].req.key
    ensures events[n] == InsertFlush(states[n + 1].entries[j].worker)
    ensures
      || states[n].entries[i].expiresAt <= states[n].now
      || (i in states[n].freed && states[n].freed[i].Uncacheable? && !ShouldCache(states[n].freed[i].status))
      || (i in states[n].freed && forall m :: 0 <= m <= n ==> i !in states[m].table)
  {
    RunInvariant(states, events, n);
    var s := states[n];
    EntriesAreOver(s, events[n].w, i);
    if s.entries[i].expiresAt > s.now && s.freed[i].RolledBack? {
      forall m | 0 <= m <= n ensures i !in states[m].table {
        RunInvariant(states, events, m);
        RunExtends(states, events, m, n);
      }
    }
  }

  // Two executions for one key whose answers may be replayed never overlap: the first row had expired.
  lemma CompletedOncePerLifetime(states: seq<State>, events: seq<Event>, n: nat, i: RowId, j: RowId)
    requires Run(states, events) && n < |states|
    requires i in states[n].recorded && i in states[n].entries && j in states[n].entries && i < j
    requires states[n].entries[i].req.key == states[n].entries[j].req.key
    ensures states[n].entries[i].expiresAt <= states[n].entries[j].at
  {
    RunInvariant(states, events, n);
  }

  /******* Replays *******/

  lemma StepRecords(s: State, e: Event, id: RowId)
    requires HistoryOk(s) && PhasesOk(s) && Enabled(s, e) && id in Next(s, e).recorded && id !in s.recorded
    ensures e.Finish? && id in s.entries && s.entries[id].worker == e.w
    ensures Next(s, e).recorded[id] == Cached(e.status, StoredBody(e.body))
  {
    assert e.Finish?;
    assert PhaseOk(s, e.w, s.workers[e.w]);
    assert AfterFinish(s, e.w, e.status, e.body).recorded.Keys <= s.recorded.Keys + {s.workers[e.w].id};
  }

  lemma {:induction false} RecordedByOwner(states: seq<State>, events: seq<Event>, n: nat, id: RowId) returns (m: nat)
    requires Run(states, events) && n < |states| && id in states[n].recorded
    ensures m < n && events[m].Finish? && id in states[n].entries && events[m].w == states[n].entries[id].worker
    ensures states[n].recorded[id] == Cached(events[m].status, StoredBody(events[m].body))
  {
    assert n > 0;
    m := n - 1;
    RunInvariant(states, events, m);
    StepExtends(states[m], events[m]);
    if id in states[m].recorded {
      m := RecordedByOwner(states, events, m, id);
    } else {
      StepRecords(states[m], events[m], id);
    }
  }

  // A replay answers with the status and the stored body that the owner of the row recorded, for a request with the
  // same key and the same hash, and only with a status that may be replayed.
  lemma ReplayIsFaithful(states: seq<State>, events: seq<Event>, n: nat, w: Worker) returns (m: nat)
    requires Run(states, events) && n < |states| && w in states[n].workers
    requires states[n].workers[w].Done? && states[n].workers[w].answer.Replay?
    ensures var Done(req, Replay(id, cached)) := states[n].workers[w];
      && m < n && events[m].Finish? && id in states[n].entries
      && events[m].w == states[n].entries[id].worker
      && states[n].entries[id].req.key == req.key && states[n].entries[id].req.hash == req.hash
      && cached == Cached(events[m].status, StoredBody(events[m].body))
      && (cached.status < 400 || cached.status == 422)
  {
    RunInvariant(states, events, n);
    assert PhaseOk(states[n], w, states[n].workers[w]);
    m := RecordedByOwner(states, events, n, states[n].workers[w].answer.id);
  }

  // Two replays of one row agree, whenever they happen.
  lemma ReplaysAgree(states: seq<State>, events: seq<Event>, m: nat, n: nat, v: Worker, w: Worker)
    requires Run(states, events) && m <= n < |states|
    requires v in states[m].workers && states[m].workers[v].Done? && states[m].workers[v].answer.Replay?
    requires w in states[n].workers && states[n].workers[w].Done? && states[n].workers[w].answer.Replay?
    requires states[m].workers[v].answer.id == states[n].workers[w].answer.id
    ensures states[m].workers[v].answer == states[n].workers[w].answer
  {
    RunInvariant(states, events, m);
    RunInvariant(states, events, n);
    assert PhaseOk(states[m], v, states[m].workers[v]) && PhaseOk(states[n], w, states[n].workers[w]);
    RunExtends(states, events, m, n);
  }

  /******* Rows that are settled *******/

  // The owner of the row is through with it.
  ghost predicate Settled(s: State, id: RowId) {
    id in s.table && id in s.entries && s.entries[id].worker in s.workers && s.workers[s.entries[id].worker].Done?
  }

  ghost predicate SettledAlike(s: State, s': State, id: RowId)
    requires Settled(s, id)
  {
    Settled(s', id) && s'.table[id] == s.table[id]
  }

  lemma CommitLeavesSettled(s: State, w: Worker, id: RowId)
    requires PhasesOk(s) && Enabled(s, ViewCommit(w)) && Settled(s, id) && id in s.visible
    requires s.now < s.table[id].expiresAt && s.table[id].expiresAt == s.entries[id].expiresAt
    ensures SettledAlike(s, AfterCommit(s, w), id)
  {
    assert PhaseOk(s, w, s.workers[w]);
  }

  lemma FinishLeavesSettled(s: State, w: Worker, status: int, body: Utf8.Text, id: RowId)
    requires PhasesOk(s) && Enabled(s, Finish(w, status, body)) && Settled(s, id) && id in s.visible
    requires s.now < s.table[id].expiresAt && s.table[id].expiresAt == s.entries[id].expiresAt
    ensures SettledAlike(s, AfterFinish(s, w, status, body), id)
  {
    assert PhaseOk(s, w, s.workers[w]);
  }

  lemma StepLeavesSettled(s: State, e: Event, id: RowId)
    requires PhasesOk(s) && Enabled(s, e)
    requires Settled(s, id) && s.now < s.table[id].expiresAt && s.table[id].expiresAt == s.entries[id].expiresAt
    requires id < s.nextId && id in s.visible
    ensures SettledAlike(s, Next(s, e), id)
  {
    match e
    case ViewCommit(w) => CommitLeavesSettled(s, w, id);
    case Finish(w, status, body) => FinishLeavesSettled(s, w, status, body, id);
    case _ =>
  }

  lemma {:induction false} SettledStays(states: seq<State>, events: seq<Event>, m: nat, n: nat, id: RowId)
    requires Run(states, events) && m <= n < |states| && Settled(states[m], id)
    requires states[n].now < states[m].table[id].expiresAt
    ensures SettledAlike(states[m], states[n], id)
    decreases n - m
  {
    if m < n {
      RunExtends(states, events, m, n);
      RunInvariant(states, events, m);
      StepLeavesSettled(states[m], events[m], id);
      SettledStays(states, events, m + 1, n, id);
    }
  }

  /******* What the protocol does promise: an answer is kept *******/

  // The owner finishes with a status below 400 or with 422, inside its first transaction or with its row still there.
  ghost predicate Answers(s: State, e: Event, id: RowId) {
    && e.Finish? && (e.status < 400 || e.status == 422)
    && e.w in s.workers && s.workers[e.w].Running? && s.workers[e.w].id == id
    && (s.workers[e.w].txn.Open? || id in s.table)
  }

  lemma AnswerIsStored(s: State, e: Event, id: RowId)
    requires Enabled(s, e) && Answers(s, e, id) && PhaseOk(s, e.w, s.workers[e.w]) && RowsMatchEntries(s)
    ensures var s', req := Next(s, e), s.workers[e.w].req;
      && Settled(s', id) && s'.entries == s.entries
      && s'.table[id].key == req.key && s'.table[id].hash == req.hash && s'.table[id].expiresAt == s.entries[id].expiresAt
      && s'.table[id].response == Some(Cached(e.status, StoredBody(e.body)))
  {
  }

  // Any other status frees the key: no row of it is left.
  lemma RefusalFreesKey(states: seq<State>, events: seq<Event>, m: nat)
    requires Run(states, events) && m < |events| && events[m].Finish?
    requires events[m].status >= 400 && events[m].status != 422
    requires states[m].workers[events[m].w].txn.Open? || states[m].workers[events[m].w].id in states[m].table
    ensures var table, key := states[m + 1].table, states[m].workers[events[m].w].req.key;
      forall i :: i in table ==> table[i].key != key
  {
    RunInvariant(states, events, m);
    var s, w := states[m], events[m].w;
    var p := s.workers[w];
    assert PhaseOk(s, w, p);
    if p.txn.Open? {
      OpenFacts(s, w);
    }
  }

  // A row is made with the request's key, endpoint and hash, no answer, and the configured life from the moment the
  // worker looked at the clock.
  lemma EnteredRow(s: State, e: Event, id: RowId)
    requires Enabled(s, e) && id in Next(s, e).entries && id !in s.entries
    ensures e.InsertFlush?
    ensures var s', w := Next(s, e), e.w;
      && w in s.workers && s.workers[w].Inserting? && w in s'.workers
      && var req, t := s.workers[w].req, s.workers[w].t;
        && s'.workers[w].Running? && s'.workers[w].id == id && s'.workers[w].txn.Open?
        && s'.workers[w].txn.row == Row(req.key, req.endpoint, req.hash, None, t + s.ttl)
        && s'.entries[id] == Entry(w, req, t + s.ttl, s.now)
  {
  }

  // An answer with a status below 400 or with 422 is what the key holds until its row expires, whatever the other
  // workers do: every query for the key finds that row, a query with the same hash is answered with the recorded
  // status and stored body, and one with another hash is refused.
  lemma AnswerIsKept(states: seq<State>, events: seq<Event>, m: nat, n: nat, id: RowId)
    requires Run(states, events) && m < n < |states| && Answers(states[m], events[m], id)
    requires id in states[m].entries && states[n].now < states[m].entries[id].expiresAt
    ensures id in states[n].table
    ensures states[n].table[id].response == Some(Cached(events[m].status, StoredBody(events[m].body)))
    ensures states[n].table[id].key == states[m].workers[events[m].w].req.key
    ensures states[n].table[id].hash == states[m].workers[events[m].w].req.hash
    ensures states[n].table[id].expiresAt == states[m].entries[id].expiresAt
  {
    RunInvariant(states, events, m);
    assert PhaseOk(states[m], events[m].w, states[m].workers[events[m].w]);
    AnswerIsStored(states[m], events[m], id);
    SettledStays(states, events, m + 1, n, id);
  }

  lemma KeptAnswerIsGiven(states: seq<State>, events: seq<Event>, m: nat, n: nat, id: RowId, v: Worker)
    requires Run(states, events) && m < n < |events| && Answers(states[m], events[m], id)
    requires id in states[m].entries && states[n].now < states[m].entries[id].expiresAt
    requires events[n].Query? && events[n].w == v
    requires states[n].workers[v].req.key == states[m].workers[events[m].w].req.key
    ensures v in states[n + 1].workers
    ensures var req := states[n].workers[v].req;
      states[n + 1].workers[v] ==
        if req.hash == states[m].workers[events[m].w].req.hash
        then Done(req, Replay(id, Cached(events[m].status, StoredBody(events[m].body))))
        else Done(req, Conflict(id))
  {
    AnswerIsKept(states, events, m, n, id);
    RunInvariant(states, events, n);
    var s := states[n];
    assert PhaseOk(s, v, s.workers[v]);
    var req, t := s.workers[v].req, s.workers[v].t;
    assert Find(s.table, req, t, if req.hash == s.table[id].hash then Live(id) else Mismatch(id));
    FindTotal(s, req, t);
  }

  /******* What the protocol does not promise *******/

  // A row whose owner is through with it and has left no answer.
  ghost predicate Orphaned(s: State, id: RowId) {
    Settled(s, id) && s.table[id].response.None?
  }

  // A row whose owner is still inside its view, past a commit.
  ghost predicate InView(s: State, id: RowId) {
    && id in s.entries && s.entries[id].worker in s.workers
    && var p := s.workers[s.entries[id].worker]; p.Running? && p.id == id && p.txn.Committed?
  }

  ghost predicate OwnerOk(s: State, id: RowId) {
    id in s.entries ==>
      && s.entries[id].worker in s.workers
      && var p := s.workers[s.entries[id].worker]; p.Done? || (p.Running? && p.id == id)
  }

  lemma StepKeepsOwner(s: State, e: Event, id: RowId)
    requires Enabled(s, e) && OwnerOk(s, id)
    ensures OwnerOk(Next(s, e), id)
  {
  }

  // The owner of a row is in the view for that very row, or through.
  lemma {:induction false} OwnerRunsOrIsDone(states: seq<State>, events: seq<Event>, n: nat, id: RowId)
    requires Run(states, events) && n < |states|
    ensures OwnerOk(states[n], id)
  {
    if n > 0 {
      OwnerRunsOrIsDone(states, events, n - 1, id);
      StepKeepsOwner(states[n - 1], events[n - 1], id);
    }
  }

  // In every run a row without an answer is orphaned, or its owner is still in the view; never both.
  lemma UnansweredIsOrphanedOrInView(states: seq<State>, events: seq<Event>, n: nat, id: RowId)
    requires Run(states, events) && n < |states|
    requires id in states[n].table && states[n].table[id].response.None?
    ensures Orphaned(states[n], id) <==> !InView(states[n], id)
  {
    RunInvariant(states, events, n);
    OwnerRunsOrIsDone(states, events, n, id);
    var s := states[n];
    var w := s.entries[id].worker;
    assert PhaseOk(s, w, s.workers[w]);
  }

  // The owner gives up its committed, still unanswered row: its view or the recording raised, or the process died.
  ghost predicate AbandonsCommitted(s: State, e: Event, id: RowId) {
    e.Abandon? && id in s.table && InView(s, id) && e.w == s.entries[id].worker
  }

  lemma FinishAnswers(s: State, w: Worker, status: int, body: Utf8.Text, id: RowId)
    requires PhasesOk(s) && w in s.workers && s.workers[w].Running? && OwnerOk(s, id)
    requires !Orphaned(s, id)
    ensures !Orphaned(AfterFinish(s, w, status, body), id)
  {
    assert PhaseOk(s, w, s.workers[w]);
  }

  lemma CommitAnswers(s: State, w: Worker, id: RowId)
    requires PhasesOk(s) && w in s.workers && s.workers[w].Running? && s.workers[w].txn.Open? && !Orphaned(s, id)
    ensures !Orphaned(AfterCommit(s, w), id)
  {
    assert PhaseOk(s, w, s.workers[w]);
  }

  lemma AbandonOrphansIff(s: State, w: Worker, id: RowId)
    requires PhasesOk(s) && Enabled(s, Abandon(w)) && OwnerOk(s, id) && !Orphaned(s, id)
    requires id in s.table ==> id in s.entries && id in s.visible
    ensures Orphaned(AfterAbandon(s, w), id) <==> AbandonsCommitted(s, Abandon(w), id)
  {
    assert PhaseOk(s, w, s.workers[w]);
  }

  lemma OthersOrphanNothing(s: State, e: Event, id: RowId)
    requires PhasesOk(s) && Enabled(s, e) && OwnerOk(s, id) && !Orphaned(s, id) && s.nextId !in s.table
    requires !e.Abandon? && !e.Finish? && !e.ViewCommit?
    ensures !Orphaned(Next(s, e), id)
  {
  }

  // How a row comes to be orphaned: exactly by its owner abandoning it after a commit in the view.
  lemma OrphanedExactlyBy(states: seq<State>, events: seq<Event>, n: nat, id: RowId)
    requires Run(states, events) && n < |events| && !Orphaned(states[n], id)
    ensures Orphaned(states[n + 1], id) <==> AbandonsCommitted(states[n], events[n], id)
  {
    var s, e := states[n], events[n];
    RunInvariant(states, events, n);
    OwnerRunsOrIsDone(states, events, n, id);
    match e
    case Abandon(w) => AbandonOrphansIff(s, w, id);
    case Finish(w, status, body) =>
      FinishAnswers(s, w, status, body, id);
    case ViewCommit(w) => CommitAnswers(s, w, id);
    case _ => OthersOrphanNothing(s, e, id);
  }

  // A row whose owner is through with it stays as it is until it expires.
  lemma OrphanStays(states: seq<State>, events: seq<Event>, m: nat, n: nat, id: RowId)
    requires Run(states, events) && m <= n < |states| && Orphaned(states[m], id)
    requires states[n].now < states[m].table[id].expiresAt
    ensures Orphaned(states[n], id) && states[n].table[id] == states[m].table[id]
  {
    SettledStays(states, events, m, n, id);
  }

  // A row whose owner is gone without recording an answer never gets one: until it expires, every request for its key
  // is told that it is in progress or in conflict, and the view is not entered.
  lemma OrphanBlocksKeyUntilExpiry(states: seq<State>, events: seq<Event>, m: nat, n: nat, id: RowId, req: Request, t: int)
    requires Run(states, events) && m <= n < |states| && Orphaned(states[m], id)
    requires req.key == states[m].table[id].key
    requires t <= states[n].now < states[m].table[id].expiresAt
    ensures id in states[n].table && states[n].table[id].response.None?
    ensures Find(states[n].table, req, t, if req.hash == states[m].table[id].hash then Live(id) else Mismatch(id))
  {
    OrphanStays(states, events, m, n, id);
  }
}
