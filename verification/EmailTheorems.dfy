/**
  What holds over every run of the email queue: dispatch cycles, crashes inside a delivery, administrators' retries and
  cancels, and new arrivals, in any order.
 */
module EmailTheorems {
  import opened Wrappers
  import opened EmailQueue

  ghost predicate Runs(q: Queue, ops: seq<Op>)
    decreases |ops|
  {
    && |q.rows| == |q.hist|
    && (ops == [] || (Enabled(q, ops[0]) && Runs(Next(q, ops[0]), ops[1..])))
  }

  ghost function Run(q: Queue, ops: seq<Op>): (q': Queue)
    requires Runs(q, ops)
    ensures |q.rows| <= |q'.rows| == |q'.hist|
    decreases |ops|
  {
    if ops == [] then q else Run(Next(q, ops[0]), ops[1..])
  }

  lemma {:induction false} RunKeeps(q: Queue, ops: seq<Op>)
    requires Inv(q) && Runs(q, ops)
    ensures Inv(Run(q, ops))
    decreases |ops|
  {
    if ops != [] {
      NextKeeps(q, ops[0]);
      RunKeeps(Next(q, ops[0]), ops[1..]);
    }
  }

  lemma BackoffTotals(n: nat)
    requires n <= MAX_ATTEMPTS
    ensures BackoffUpTo(n) <= 156 * 60 && BackoffUpTo(MAX_ATTEMPTS) == 156 * 60
  {
    assert BackoffUpTo(1) == 60;
    assert BackoffUpTo(2) == 360;
    assert BackoffUpTo(3) == 2160;
    assert BackoffUpTo(4) == 9360;
  }

  // Whatever crashes and whoever presses which button, the mail server accepts a row at most once; it is offered at
  // most five times plus once per administrator's retry; the stored count is the number of failures, capped; and the
  // waiting times handed out never add up to more than 156 minutes.
  lemma DeliveredAtMostOnce(q: Queue, ops: seq<Op>, i: nat)
    requires Inv(q) && Runs(q, ops) && i < |Run(q, ops).rows|
    ensures var r, h := Run(q, ops).rows[i], Run(q, ops).hist[i];
      && h.accepted <= 1
      && (r.status == Sent ==> h.accepted == 1)
      && (h.accepted == 1 ==> r.status == Sent || r.status == Sending)
      && h.deliveries <= MAX_ATTEMPTS + h.retries
      && EffectiveCount(r) == Min(MAX_ATTEMPTS, h.failures)
      && (r.status == Failed ==> h.failures == MAX_ATTEMPTS + h.retries)
      && h.backoff <= 156 * 60
  {
    RunKeeps(q, ops);
    var r, h := Run(q, ops).rows[i], Run(q, ops).hist[i];
    assert RowOk(r, h);
    BackoffTotals(Min(MAX_ATTEMPTS, h.failures));
  }

  // A row once sent, cancelled, or left in the middle of a delivery by a crash is never touched again.
  lemma {:induction false} SettledForever(q: Queue, ops: seq<Op>, i: nat)
    requires Runs(q, ops) && i < |q.rows|
    requires q.rows[i].status in {Sent, Cancelled, Sending}
    ensures Run(q, ops).rows[i] == q.rows[i] && Run(q, ops).hist[i] == q.hist[i]
    decreases |ops|
  {
    if ops != [] {
      match ops[0] {
        case Cycle(now, limit, outcomes) => var k := CycleStep(q, now, limit, outcomes, i);
        case _ =>
      }
      SettledForever(Next(q, ops[0]), ops[1..], i);
    }
  }

  // Between cycles a row is Sending exactly if the process died in a delivery of that very row, and then it was its
  // last delivery.
  lemma SendingIffDied(q: Queue, ops: seq<Op>, i: nat)
    requires Inv(q) && Runs(q, ops) && i < |Run(q, ops).rows|
    ensures Run(q, ops).hist[i].deaths <= 1
    ensures Run(q, ops).rows[i].status == Sending <==> Run(q, ops).hist[i].deaths == 1
  {
    RunKeeps(q, ops);
    assert RowOk(Run(q, ops).rows[i], Run(q, ops).hist[i]);
  }

  // A pending row that waits for t is not offered to the mail server by any cycle before t.
  lemma {:induction false} WaitsItsTurn(q: Queue, ops: seq<Op>, i: nat, t: int)
    requires Runs(q, ops) && i < |q.rows|
    requires q.rows[i].status == Cancelled || (q.rows[i].status == Pending && q.rows[i].nextAt == Some(t))
    requires forall op :: op in ops && op.Cycle? ==> op.cycleAt < t
    ensures Run(q, ops).hist[i] == q.hist[i]
    ensures Run(q, ops).rows[i] == q.rows[i] || Run(q, ops).rows[i] == Cancel(q.rows[i])
    decreases |ops|
  {
    if ops != [] {
      assert ops[0] in ops;
      match ops[0] {
        case Cycle(now, limit, outcomes) => var k := CycleStep(q, now, limit, outcomes, i);
        case _ =>
      }
      WaitsItsTurn(Next(q, ops[0]), ops[1..], i, t);
    }
  }

  // A refused delivery asks the backoff table only for its first four entries; the fifth, twelve hours, is never used.
  lemma BackoffArguments(r: Row, h: Hist, now: int, error: string)
    requires RowOk(r, h) && r.status == Pending
    ensures var d := Deliver(r, now, Refused(error));
      && (d.status == Pending || d.status == Failed)
      && (d.status == Pending ==>
            && 1 <= EffectiveCount(d) <= 4
            && d.nextAt.Some?
            && d.nextAt.value - now in {60, 300, 1800, 7200})
  {
    DeliverKeeps(r, h, now, Refused(error));
  }

  /******* What each operation does *******/

  // A delivery. Accepted: sent at that moment, no error, nothing scheduled. Refused: the error is kept, one attempt more
  // is counted, and the row waits one minute, five, thirty or two hours after its first four attempts and has failed
  // with the fifth. Where the process dies, the row stays claimed. In each case it has the address it was queued for.
  lemma DeliveryEffects(r: Row, now: int, o: Outcome)
    requires r.status == Pending && EffectiveCount(r) <= 5
    ensures var d, n := Deliver(r, now, o), if r.attemptCount.Some? then r.attemptCount.value else r.attempts;
      && d.to == r.to && d.scheduledAt == r.scheduledAt
      && d.recipient == (if r.recipient.None? || r.recipient.value == "" then Some(r.to) else r.recipient)
      && d.attemptCount == Some(d.attempts)
      && (o == Accepted ==>
            d.status == Sent && d.sentAt == Some(now) && d.lastError == None && d.nextAt == None && d.attempts == n)
      && (o.Refused? && n < 4 ==>
            && d.status == Pending && d.attempts == n + 1 && d.lastError == Some(o.error) && d.sentAt == r.sentAt
            && d.nextAt == Some(now + if n == 0 then 60 else if n == 1 then 300 else if n == 2 then 1800 else 7200))
      && (o.Refused? && n >= 4 ==>
            d.status == Failed && d.attempts == 5 && d.lastError == Some(o.error) && d.nextAt == None && d.sentAt == r.sentAt)
      && (o == DiedBefore || o == DiedAfter ==> d.status == Sending && d.attempts == n && d.sentAt == r.sentAt)
  {
  }

  // The compatibility fields: a missing address is the original one, the newer count follows the older where it is
  // missing and the older follows the newer, and a pending row without a time gets the one it was scheduled for.
  lemma SyncEffects(r: Row)
    ensures var s := Sync(r);
      && s.recipient == (if r.recipient == None || r.recipient == Some("") then Some(r.to) else r.recipient)
      && s.attemptCount == Some(if r.attemptCount == None then r.attempts else r.attemptCount.value)
      && s.attempts == s.attemptCount.value
      && s.nextAt == (if r.nextAt == None && r.status == Pending then Some(r.scheduledAt) else r.nextAt)
      && s == r.(recipient := s.recipient, attemptCount := s.attemptCount, attempts := s.attempts, nextAt := s.nextAt)
  {
  }

  // A mail is queued under the next place, pending, without attempts, and due at once; the others stay.
  lemma EnqueueEffects(q: Queue, to: string, now: int)
    requires |q.rows| == |q.hist|
    ensures var q' := Next(q, Enqueue(to, now));
      && |q'.rows| == |q.rows| + 1 && q.rows <= q'.rows && q.hist <= q'.hist
      && var r := q'.rows[|q.rows|];
         r.status == Pending && r.to == to && r.recipient == Some(to) && r.attempts == 0 && r.attemptCount == Some(0)
         && r.nextAt == Some(now) && r.sentAt == None
  {
  }

  // An administrator's cancel takes a pending row out: its status is cancelled, nothing is scheduled, and in every
  // continuation it stays so and is never offered again. A row in any other status keeps its whole value, and so do
  // all other rows.
  lemma CancelTakesOut(q: Queue, i: nat, ops: seq<Op>)
    requires |q.rows| == |q.hist| && i < |q.rows| && Runs(Next(q, AdminCancel(i)), ops)
    ensures var q1, q' := Next(q, AdminCancel(i)), Run(Next(q, AdminCancel(i)), ops);
      && |q1.rows| == |q.rows| && q1.hist == q.hist
      && (forall j :: 0 <= j < |q.rows| && j != i ==> q1.rows[j] == q.rows[j])
      && (q.rows[i].status != Pending ==> q1.rows[i] == q.rows[i])
      && (q.rows[i].status == Pending ==>
            && q1.rows[i].status == Cancelled && q1.rows[i].nextAt == None && q1.rows[i].attemptCount == Some(EffectiveCount(q.rows[i]))
            && q'.rows[i] == q1.rows[i] && q'.hist[i] == q.hist[i])
  {
    if q.rows[i].status == Pending {
      SettledForever(Next(q, AdminCancel(i)), ops, i);
    }
  }

  // A retry puts a failed row back, due at once, with its attempts as they are; any other row keeps its whole value.
  lemma RetryPutsBack(q: Queue, i: nat, now: int)
    requires |q.rows| == |q.hist| && i < |q.rows|
    ensures var q1 := Next(q, AdminRetry(i, now));
      && |q1.rows| == |q.rows|
      && (forall j :: 0 <= j < |q.rows| && j != i ==> q1.rows[j] == q.rows[j] && q1.hist[j] == q.hist[j])
      && (q.rows[i].status != Failed ==> q1.rows[i] == q.rows[i] && q1.hist[i] == q.hist[i])
      && (q.rows[i].status == Failed ==>
            && q1.rows[i].status == Pending && q1.rows[i].nextAt == Some(now)
            && q1.rows[i].attemptCount == Some(EffectiveCount(q.rows[i]))
            && q1.hist[i] == q.hist[i].(retries := q.hist[i].retries + 1))
  {
  }

  // The pending rows whose time has come.
  ghost function DueSet(rows: seq<Row>, now: int): set<nat> {
    set k: nat | k < |rows| && rows[k].status == Pending && (rows[k].nextAt.None? || rows[k].nextAt.value <= now)
  }

  ghost function Members(s: seq<nat>): set<nat> {
    set k: nat | k in s
  }

  lemma {:induction false} DistinctSize(s: seq<nat>)
    requires forall a, b :: 0 <= a < b < |s| ==> s[a] != s[b]
    ensures |Members(s)| == |s|
  {
    if s != [] {
      var rest, last := s[..|s| - 1], s[|s| - 1];
      DistinctSize(rest);
      assert s == rest + [last] && last !in rest;
      assert Members(s) == Members(rest) + {last};
    }
  }

  lemma DueSetIsDue(rows: seq<Row>, now: int, k: nat)
    ensures k in DueSet(rows, now) <==> k < |rows| && IsDue(rows[k], now)
  {
  }

  lemma RoomTakes(rows: seq<Row>, now: int, limit: nat, i: nat)
    requires i in DueSet(rows, now) && |DueSet(rows, now)| <= limit
    ensures i in Batch(rows, now, limit)
  {
    var batch := Batch(rows, now, limit);
    BatchIsEarliest(rows, now, limit, i);
    DistinctSize(batch);
    assert Members(batch) <= DueSet(rows, now);
    if i !in batch {
      Smaller(Members(batch), DueSet(rows, now), i);
    }
  }

  lemma Smaller(a: set<nat>, b: set<nat>, x: nat)
    requires a <= b && x in b && x !in a
    ensures |a| < |b|
  {
    assert b == a + (b - a) && x in b - a;
  }

  // A cycle with room for all due rows offers every one of them to the mail server once, unless the process dies on
  // the way.
  lemma DueRowIsOffered(q: Queue, op: Op, i: nat)
    requires |q.rows| == |q.hist| && op.Cycle? && Enabled(q, op) && NoneDies(op)
    requires i in DueSet(q.rows, op.cycleAt) && |DueSet(q.rows, op.cycleAt)| <= op.limit
    ensures Next(q, op).hist[i].deliveries == q.hist[i].deliveries + 1
  {
    var batch := Batch(q.rows, op.cycleAt, op.limit);
    RoomTakes(q.rows, op.cycleAt, op.limit, i);
    BatchReady(q.rows, op.cycleAt, op.limit);
    assert |op.outcomes| == |batch|;
    var k: nat :| k < |batch| && batch[k] == i;
    DeliverFirstEach(q, batch, op.cycleAt, op.outcomes, |op.outcomes|, k);
  }

  predicate NoneDies(op: Op)
    requires op.Cycle?
  {
    forall k :: 0 <= k < |op.outcomes| ==> op.outcomes[k] != DiedBefore && op.outcomes[k] != DiedAfter
  }

  // A row put back by a retry is offered by the next cycle that has room.
  lemma RetriedRowIsOffered(q: Queue, i: nat, now: int, op: Op)
    requires |q.rows| == |q.hist| && i < |q.rows| && q.rows[i].status == Failed
    requires var q1 := Next(q, AdminRetry(i, now));
      op.Cycle? && op.cycleAt >= now && Enabled(q1, op) && NoneDies(op) && |DueSet(q1.rows, op.cycleAt)| <= op.limit
    ensures Next(Next(q, AdminRetry(i, now)), op).hist[i].deliveries == q.hist[i].deliveries + 1
  {
    RetryPutsBack(q, i, now);
    DueRowIsOffered(Next(q, AdminRetry(i, now)), op, i);
  }

  // Who goes first: in a batch, and before every due row that is left out, rows without a time come before rows with
  // one, earlier times before later ones, and lower ids before higher ones.
  predicate GoesFirst(a: Row, i: nat, b: Row, j: nat) {
    || (a.nextAt.None? && (b.nextAt.Some? || i < j))
    || (a.nextAt.Some? && b.nextAt.Some? && (a.nextAt.value < b.nextAt.value || (a.nextAt.value == b.nextAt.value && i < j)))
  }

  lemma BatchOrder(rows: seq<Row>, now: int, limit: nat, i: nat)
    requires i in DueSet(rows, now)
    ensures var s := Batch(rows, now, limit);
      && (forall k :: 0 <= k < |s| ==> s[k] in DueSet(rows, now))
      && (forall a, b :: 0 <= a < b < |s| ==> GoesFirst(rows[s[a]], s[a], rows[s[b]], s[b]))
      && (i !in s ==> |s| == limit && forall k :: 0 <= k < |s| ==> GoesFirst(rows[s[k]], s[k], rows[i], i))
  {
    BatchIsEarliest(rows, now, limit, i);
    var s := Batch(rows, now, limit);
    forall k | 0 <= k < |s| ensures s[k] in DueSet(rows, now) {
      assert s[k] in s;
    }
    forall a, b | 0 <= a < b < |s| ensures GoesFirst(rows[s[a]], s[a], rows[s[b]], s[b]) {
      assert Earlier(rows, s[a], s[b]);
    }
    if i !in s {
      forall k | 0 <= k < |s| ensures GoesFirst(rows[s[k]], s[k], rows[i], i) {
        assert Earlier(rows, s[k], i);
      }
    }
  }

  /******* Draining *******/

  function Remaining(r: Row): nat {
    if r.status == Pending then Max(1, MAX_ATTEMPTS - EffectiveCount(r)) else 0
  }

  function LoadUpTo(rows: seq<Row>, n: nat): nat
    requires n <= |rows|
  {
    if n == 0 then 0 else LoadUpTo(rows, n - 1) + Remaining(rows[n - 1])
  }

  // The attempts the queue has left.
  function Load(rows: seq<Row>): nat {
    LoadUpTo(rows, |rows|)
  }

  lemma {:induction false} LoadUpdate(rows: seq<Row>, i: nat, r: Row, n: nat)
    requires i < |rows| && n <= |rows|
    ensures LoadUpTo(rows[i := r], n) == LoadUpTo(rows, n) + if i < n then Remaining(r) - Remaining(rows[i]) else 0
  {
    if n > 0 {
      LoadUpdate(rows, i, r, n - 1);
    }
  }

  lemma {:induction false} LoadCovers(rows: seq<Row>, i: nat, n: nat)
    requires i < n <= |rows|
    ensures LoadUpTo(rows, n) >= Remaining(rows[i])
  {
    if i < n - 1 {
      LoadCovers(rows, i, n - 1);
    }
  }

  // However a delivery ends, one attempt of the row's remaining ones is spent.
  lemma DeliverSpends(r: Row, now: int, o: Outcome)
    requires r.status == Pending
    ensures Remaining(Deliver(r, now, o)) < Remaining(r)
  {
  }

  lemma DeliverAtSpends(q: Queue, i: nat, now: int, o: Outcome)
    requires i < |q.rows| == |q.hist| && q.rows[i].status == Pending
    ensures Load(DeliverAt(q, i, now, o).rows) < Load(q.rows)
  {
    var d := Deliver(q.rows[i], now, o);
    DeliverSpends(q.rows[i], now, o);
    LoadUpdate(q.rows, i, d, |q.rows|);
  }

  // The step of the next lemma: the state after the first n rows has the next one as the batch found it.
  lemma NextRowSpends(q: Queue, batch: seq<nat>, now: int, outcomes: seq<Outcome>, n: nat)
    requires |q.rows| == |q.hist| && n < |outcomes| <= |batch| && Indexes(batch, |q.rows|)
    requires q.rows[batch[n]].status == Pending
    requires forall a, b :: 0 <= a < b < |batch| ==> batch[a] != batch[b]
    ensures Load(DeliverFirst(q, batch, now, outcomes, n + 1).rows) < Load(DeliverFirst(q, batch, now, outcomes, n).rows)
  {
    var t := DeliverFirst(q, batch, now, outcomes, n);
    DeliverFirstEach(q, batch, now, outcomes, n, n);
    DeliverAtSpends(t, batch[n], now, outcomes[n]);
  }

  lemma {:induction false} BatchSpends(q: Queue, batch: seq<nat>, now: int, outcomes: seq<Outcome>, n: nat)
    requires |q.rows| == |q.hist| && n <= |outcomes| <= |batch| && Indexes(batch, |q.rows|)
    requires forall k :: 0 <= k < |batch| ==> q.rows[batch[k]].status == Pending
    requires forall a, b :: 0 <= a < b < |batch| ==> batch[a] != batch[b]
    ensures Load(DeliverFirst(q, batch, now, outcomes, n).rows) <= Load(q.rows) - n
  {
    if n > 0 {
      BatchSpends(q, batch, now, outcomes, n - 1);
      NextRowSpends(q, batch, now, outcomes, n - 1);
    }
  }

  // A run of cycles that each take at least one row: no arrivals, retries or cancels.
  ghost predicate OnlyCycles(ops: seq<Op>) {
    forall op :: op in ops ==> op.Cycle? && op.limit >= 1
  }

  // Some row is due when the cycle starts.
  ghost predicate MeetsDueRow(q: Queue, op: Op) {
    op.Cycle? && exists i :: 0 <= i < |q.rows| && IsDue(q.rows[i], op.cycleAt)
  }

  // The number of cycles of the run that meet a due row.
  ghost function Busy(q: Queue, ops: seq<Op>): nat
    requires Runs(q, ops)
    decreases |ops|
  {
    if ops == [] then 0 else (if MeetsDueRow(q, ops[0]) then 1 else 0) + Busy(Next(q, ops[0]), ops[1..])
  }

  lemma CycleTakesSome(q: Queue, op: Op)
    requires |q.rows| == |q.hist| && op.Cycle? && op.limit >= 1 && Enabled(q, op) && MeetsDueRow(q, op)
    ensures |op.outcomes| >= 1
  {
    var i: nat :| i < |q.rows| && IsDue(q.rows[i], op.cycleAt);
    BatchIsEarliest(q.rows, op.cycleAt, op.limit, i);
  }

  lemma CycleSpends(q: Queue, op: Op)
    requires |q.rows| == |q.hist| && op.Cycle? && op.limit >= 1 && Enabled(q, op)
    ensures Load(Next(q, op).rows) <= Load(q.rows) - if MeetsDueRow(q, op) then 1 else 0
  {
    BatchReady(q.rows, op.cycleAt, op.limit);
    BatchSpends(q, Batch(q.rows, op.cycleAt, op.limit), op.cycleAt, op.outcomes, |op.outcomes|);
    if MeetsDueRow(q, op) {
      CycleTakesSome(q, op);
    }
  }

  // Every cycle that meets a due row spends at least one of the attempts the queue has left, whatever waits beside it.
  lemma {:induction false} BusyCyclesSpend(q: Queue, ops: seq<Op>)
    requires Runs(q, ops) && OnlyCycles(ops)
    ensures Load(Run(q, ops).rows) + Busy(q, ops) <= Load(q.rows)
    decreases |ops|
  {
    if ops != [] {
      assert ops[0] in ops;
      CycleSpends(q, ops[0]);
      BusyCyclesSpend(Next(q, ops[0]), ops[1..]);
    }
  }

  // One row through a run of cycles: it spends at most its remaining attempts.
  lemma {:induction false} RowSpends(q: Queue, ops: seq<Op>, i: nat)
    requires Runs(q, ops) && OnlyCycles(ops) && i < |q.rows|
    ensures Run(q, ops).hist[i].deliveries + Remaining(Run(q, ops).rows[i]) <= q.hist[i].deliveries + Remaining(q.rows[i])
    decreases |ops|
  {
    if ops != [] {
      var op := ops[0];
      assert op in ops;
      var k := CycleStep(q, op.cycleAt, op.limit, op.outcomes, i);
      if k.Some? {
        DeliverSpends(q.rows[i], op.cycleAt, op.outcomes[k.value]);
      }
      RowSpends(Next(q, op), ops[1..], i);
    }
  }

  // Where a run of cycles can take a row: nowhere, on with waiting, to sent or failed, or, by a death, to sending.
  lemma {:induction false} RowEnds(q: Queue, ops: seq<Op>, i: nat)
    requires Runs(q, ops) && OnlyCycles(ops) && i < |q.rows|
    ensures var r, h := Run(q, ops).rows[i], Run(q, ops).hist[i];
      && r.status in {q.rows[i].status, Sent, Failed, Sending}
      && (r.status == Sending && q.rows[i].status != Sending ==> h.deaths > q.hist[i].deaths)
      && h.deaths >= q.hist[i].deaths
    decreases |ops|
  {
    if ops != [] {
      var op := ops[0];
      assert op in ops;
      var k := CycleStep(q, op.cycleAt, op.limit, op.outcomes, i);
      RowEnds(Next(q, op), ops[1..], i);
    }
  }

  // With no arrivals, retries or cancels, as many cycles that meet a due row as there are attempts left empty the
  // queue, however small the batches and whatever else waits: no row stays pending, none is offered more often than
  // it had attempts left, and a row that was pending ends sent or failed, unless a process died in its delivery.
  lemma QueueDrains(q: Queue, ops: seq<Op>, i: nat)
    requires Runs(q, ops) && OnlyCycles(ops) && Busy(q, ops) >= Load(q.rows) && i < |q.rows|
    ensures Run(q, ops).rows[i].status != Pending
    ensures Run(q, ops).hist[i].deliveries - q.hist[i].deliveries <= Remaining(q.rows[i]) <= MAX_ATTEMPTS
    ensures q.rows[i].status == Pending ==>
      Run(q, ops).rows[i].status in {Sent, Failed} || Run(q, ops).hist[i].deaths > q.hist[i].deaths
  {
    RowSpends(q, ops, i);
    RowEnds(q, ops, i);
    BusyCyclesSpend(q, ops);
    LoadCovers(Run(q, ops).rows, i, |Run(q, ops).rows|);
  }

  /******* How long draining takes *******/

  const LONGEST_WAIT: nat := 7200

  // Every pending row is due at the horizon at the latest.
  ghost predicate DueBy(q: Queue, horizon: int) {
    forall i :: 0 <= i < |q.rows| && q.rows[i].status == Pending ==> IsDue(q.rows[i], horizon)
  }

  // The cycles start in order, at most gap seconds apart, the first at most gap after last.
  ghost predicate Paced(ops: seq<Op>, last: int, gap: nat)
    requires OnlyCycles(ops)
    decreases |ops|
  {
    ops == [] || (
      assert ops[0] in ops;
      last <= ops[0].cycleAt <= last + gap && Paced(ops[1..], ops[0].cycleAt, gap))
  }

  ghost function LastStart(ops: seq<Op>, last: int): int
    requires OnlyCycles(ops)
  {
    if ops == [] then last else assert ops[|ops| - 1] in ops; ops[|ops| - 1].cycleAt
  }

  lemma DeliverDueBy(r: Row, now: int, o: Outcome)
    requires r.status == Pending
    ensures Deliver(r, now, o).status == Pending ==> IsDue(Deliver(r, now, o), now + LONGEST_WAIT)
  {
  }

  lemma CycleDueBy(q: Queue, op: Op, horizon: int)
    requires |q.rows| == |q.hist| && op.Cycle? && Enabled(q, op) && DueBy(q, horizon)
    ensures DueBy(Next(q, op), Max(horizon, op.cycleAt + LONGEST_WAIT))
    ensures !MeetsDueRow(q, op) ==> DueBy(Next(q, op), horizon)
  {
    var q' := Next(q, op);
    forall i | 0 <= i < |q'.rows| && q'.rows[i].status == Pending
      ensures IsDue(q'.rows[i], Max(horizon, op.cycleAt + LONGEST_WAIT))
      ensures !MeetsDueRow(q, op) ==> IsDue(q'.rows[i], horizon)
    {
      var k := CycleStep(q, op.cycleAt, op.limit, op.outcomes, i);
      if k.Some? {
        DeliverDueBy(q.rows[i], op.cycleAt, op.outcomes[k.value]);
      }
    }
  }

  lemma {:induction false} LoadMeansPending(rows: seq<Row>, n: nat) returns (i: nat)
    requires n <= |rows| && LoadUpTo(rows, n) > 0
    ensures i < n && rows[i].status == Pending
  {
    if Remaining(rows[n - 1]) > 0 {
      i := n - 1;
    } else {
      i := LoadMeansPending(rows, n - 1);
    }
  }

  lemma BatchMeetsDueRow(rows: seq<Row>, now: int, limit: nat)
    ensures Batch(rows, now, limit) != [] ==> exists i :: 0 <= i < |rows| && IsDue(rows[i], now)
  {
    var batch := Batch(rows, now, limit);
    if batch != [] {
      assert batch[0] in batch;
    }
  }

  lemma IdleKeeps(q: Queue, op: Op)
    requires |q.rows| == |q.hist| && op.Cycle? && Enabled(q, op) && !MeetsDueRow(q, op)
    ensures Next(q, op) == q
  {
    BatchMeetsDueRow(q.rows, op.cycleAt, op.limit);
  }

  // The time the attempts left can take: the longest wait and one gap each.
  function Allowance(load: nat, gap: nat): nat {
    load * (LONGEST_WAIT + gap)
  }

  lemma AllowanceShrinks(load: nat, load': nat, gap: nat)
    requires load' < load
    ensures Allowance(load', gap) + LONGEST_WAIT + gap <= Allowance(load, gap)
  {
    assert (load' + 1) * (LONGEST_WAIT + gap) <= load * (LONGEST_WAIT + gap);
  }

  // The horizon after one cycle: where it moves on, an attempt has been spent to pay for it.
  lemma HorizonStep(q: Queue, op: Op, last: int, gap: nat, horizon: int) returns (horizon': int)
    requires |q.rows| == |q.hist| && op.Cycle? && op.limit >= 1 && Enabled(q, op)
    requires DueBy(q, horizon) && last <= horizon && last <= op.cycleAt <= last + gap && Load(q.rows) > 0
    ensures DueBy(Next(q, op), horizon') && op.cycleAt <= horizon'
    ensures horizon' + Allowance(Load(Next(q, op).rows), gap) <= horizon + Allowance(Load(q.rows), gap)
  {
    CycleDueBy(q, op, horizon);
    if MeetsDueRow(q, op) {
      CycleSpends(q, op);
      AllowanceShrinks(Load(q.rows), Load(Next(q, op).rows), gap);
      horizon' := Max(horizon, op.cycleAt + LONGEST_WAIT);
    } else {
      horizon' := horizon;
      var i := LoadMeansPending(q.rows, |q.rows|);
      assert IsDue(q.rows[i], horizon) && !IsDue(q.rows[i], op.cycleAt);
      IdleKeeps(q, op);
    }
  }

  lemma {:induction false} DrainTime(q: Queue, ops: seq<Op>, last: int, gap: nat, horizon: int)
    requires Runs(q, ops) && OnlyCycles(ops) && Paced(ops, last, gap) && DueBy(q, horizon) && last <= horizon
    requires Load(Run(q, ops).rows) > 0
    ensures LastStart(ops, last) + Allowance(Load(Run(q, ops).rows), gap) <= horizon + Allowance(Load(q.rows), gap)
    decreases |ops|
  {
    if ops != [] {
      assert ops[0] in ops;
      BusyCyclesSpend(q, ops);
      var horizon' := HorizonStep(q, ops[0], last, gap, horizon);
      DrainTime(Next(q, ops[0]), ops[1..], ops[0].cycleAt, gap, horizon');
      assert LastStart(ops[1..], ops[0].cycleAt) == LastStart(ops, last);
    }
  }

  // The schedule: cycles at most gap seconds apart leave no row pending once the attempts left, at the longest wait
  // and one gap each, have run out after the time by which every pending row was due.
  lemma DrainsInTime(q: Queue, ops: seq<Op>, last: int, gap: nat, horizon: int, i: nat)
    requires Runs(q, ops) && OnlyCycles(ops) && Paced(ops, last, gap) && DueBy(q, horizon) && last <= horizon
    requires LastStart(ops, last) >= horizon + Load(q.rows) * (LONGEST_WAIT + gap) && i < |q.rows|
    ensures Run(q, ops).rows[i].status != Pending
  {
    var left := Load(Run(q, ops).rows);
    LoadCovers(Run(q, ops).rows, i, |Run(q, ops).rows|);
    if left > 0 {
      DrainTime(q, ops, last, gap, horizon);
      AllowanceShrinks(left, 0, gap);
    }
  }
}
