/**
  The email retry queue (app/email/scheduler.py and models.py, the retry and cancel routes of app/admin/routes.py).
  One dispatcher runs at a time; administrators act between its cycles. Times are seconds.
 */
module EmailQueue {
  import opened Wrappers

  const MAX_ATTEMPTS: nat := 5
  const RETRY_BACKOFF: seq<nat> := [60, 300, 1800, 7200, 43200]

  datatype Status = Pending | Sending | Sent | Failed | Cancelled

  datatype Row = Row(
    status: Status,
    recipient: Option<string>,
    to: string,
    attempts: nat,
    attemptCount: Option<nat>,
    scheduledAt: int,
    nextAt: Option<int>,
    sentAt: Option<int>,
    lastError: Option<string>)

  /******* One row *******/

  function EffectiveCount(r: Row): nat {
    if r.attemptCount.Some? then r.attemptCount.value else r.attempts
  }

  function Sync(r: Row): Row {
    r.(recipient := if r.recipient.None? || r.recipient.value == "" then Some(r.to) else r.recipient,
       attemptCount := Some(EffectiveCount(r)),
       attempts := EffectiveCount(r),
       nextAt := if r.nextAt.None? && r.status == Pending then Some(r.scheduledAt) else r.nextAt)
  }

  function Min(a: int, b: int): int {
    if a <= b then a else b
  }

  function Max(a: int, b: int): int {
    if a <= b then b else a
  }

  function Backoff(attempts: nat): nat {
    RETRY_BACKOFF[Max(0, Min(attempts - 1, |RETRY_BACKOFF| - 1))]
  }

  // How the send ended: accepted, refused with an answer or an exception, or the process died around it.
  datatype Outcome = Accepted | Refused(error: string) | DiedBefore | DiedAfter

  predicate Died(o: Outcome) {
    o == DiedBefore || o == DiedAfter
  }

  // What the first commit of a delivery leaves behind.
  function Claimed(r: Row): Row {
    Sync(r).(status := Sending)
  }

  function Deliver(r: Row, now: int, o: Outcome): Row {
    var c := Claimed(r);
    match o
    case DiedBefore => c
    case DiedAfter => c
    case Accepted => Sync(c.(status := Sent, sentAt := Some(now), lastError := None, nextAt := None))
    case Refused(error) =>
      var tried := c.(attemptCount := Some(Min(MAX_ATTEMPTS, EffectiveCount(c) + 1)), lastError := Some(error));
      if EffectiveCount(tried) >= MAX_ATTEMPTS then Sync(tried.(status := Failed, nextAt := None))
      else Sync(tried.(status := Pending, nextAt := Some(now + Backoff(EffectiveCount(tried)))))
  }

  function Retry(r: Row, now: int): Row {
    if r.status != Failed then r else Sync(r.(status := Pending, nextAt := Some(now)))
  }

  function Cancel(r: Row): Row {
    if r.status != Pending then r else Sync(r.(status := Cancelled, nextAt := None))
  }

  /******* One batch *******/

  predicate IsDue(r: Row, now: int) {
    r.status == Pending && (r.nextAt.None? || r.nextAt.value <= now)
  }

  // ORDER BY next_attempt_at ASC NULLS FIRST, id ASC; ids are positions in the table.
  predicate Earlier(rows: seq<Row>, i: nat, j: nat)
    requires i < |rows| && j < |rows|
  {
    match (rows[i].nextAt, rows[j].nextAt)
    case (None, None) => i < j
    case (None, Some(_)) => true
    case (Some(_), None) => false
    case (Some(a), Some(b)) => a < b || (a == b && i < j)
  }

  predicate Indexes(s: seq<nat>, n: nat) {
    forall k :: 0 <= k < |s| ==> s[k] < n
  }

  function InsertInto(rows: seq<Row>, sorted: seq<nat>, i: nat): (s: seq<nat>)
    requires i < |rows| && Indexes(sorted, |rows|)
    ensures forall k :: k in s <==> k == i || k in sorted
  {
    if sorted == [] then [i]
    else if Earlier(rows, i, sorted[0]) then [i] + sorted
    else
      var rest := InsertInto(rows, sorted[1..], i);
      assert forall k :: k in sorted <==> k == sorted[0] || k in sorted[1..];
      [sorted[0]] + rest
  }

  // Row i joins the rows before it, if it is due.
  function AddDue(rows: seq<Row>, now: int, sorted: seq<nat>, i: nat): (s: seq<nat>)
    requires i < |rows| && Indexes(sorted, i)
    ensures Indexes(s, i + 1)
    ensures forall k :: k in s <==> k in sorted || (k == i && IsDue(rows[i], now))
  {
    if IsDue(rows[i], now) then
      var s := InsertInto(rows, sorted, i);
      assert forall k :: 0 <= k < |s| ==> s[k] in s;
      s
    else sorted
  }

  // The due rows among the first n, in order.
  function DueRows(rows: seq<Row>, now: int, n: nat): (s: seq<nat>)
    requires n <= |rows|
    ensures Indexes(s, n)
  {
    if n == 0 then [] else AddDue(rows, now, DueRows(rows, now, n - 1), n - 1)
  }

  lemma {:induction false} DueRowsMembers(rows: seq<Row>, now: int, n: nat)
    requires n <= |rows|
    ensures forall k: nat :: k in DueRows(rows, now, n) <==> k < n && IsDue(rows[k], now)
  {
    if n > 0 {
      DueRowsMembers(rows, now, n - 1);
    }
  }

  function Batch(rows: seq<Row>, now: int, limit: nat): (s: seq<nat>)
    ensures |s| <= limit && Indexes(s, |rows|)
    ensures forall k: nat :: k in s ==> k < |rows| && IsDue(rows[k], now)
  {
    DueRowsMembers(rows, now, |rows|);
    var due := DueRows(rows, now, |rows|);
    if |due| <= limit then due else due[..limit]
  }

  ghost predicate Ordered(rows: seq<Row>, s: seq<nat>) {
    Indexes(s, |rows|) && forall a, b :: 0 <= a < b < |s| ==> Earlier(rows, s[a], s[b])
  }

  lemma InsertIntoIndexes(rows: seq<Row>, sorted: seq<nat>, i: nat)
    requires i < |rows| && Indexes(sorted, |rows|)
    ensures Indexes(InsertInto(rows, sorted, i), |rows|)
  {
    var s := InsertInto(rows, sorted, i);
    assert forall k :: 0 <= k < |s| ==> s[k] in s;
  }

  lemma {:induction false} InsertIntoOrdered(rows: seq<Row>, sorted: seq<nat>, i: nat)
    requires i < |rows| && Ordered(rows, sorted) && i !in sorted
    ensures Ordered(rows, InsertInto(rows, sorted, i))
  {
    InsertIntoIndexes(rows, sorted, i);
    if sorted != [] {
      if Earlier(rows, i, sorted[0]) {
        forall b | 0 <= b < |sorted| ensures Earlier(rows, i, sorted[b]) {
          if b > 0 {
            assert Earlier(rows, sorted[0], sorted[b]);
          }
        }
      } else {
        InsertIntoOrdered(rows, sorted[1..], i);
        var rest := InsertInto(rows, sorted[1..], i);
        forall b | 0 <= b < |rest| ensures rest[b] < |rows| && Earlier(rows, sorted[0], rest[b]) {
          assert rest[b] in rest;
        }
      }
    }
  }

  lemma AddDueOrdered(rows: seq<Row>, now: int, sorted: seq<nat>, i: nat)
    requires i < |rows| && Indexes(sorted, i) && Ordered(rows, sorted)
    ensures Ordered(rows, AddDue(rows, now, sorted, i))
  {
    assert i !in sorted;
    InsertIntoOrdered(rows, sorted, i);
  }

  lemma {:induction false} DueRowsOrdered(rows: seq<Row>, now: int, n: nat)
    requires n <= |rows|
    ensures Ordered(rows, DueRows(rows, now, n))
  {
    if n > 0 {
      DueRowsOrdered(rows, now, n - 1);
      AddDueOrdered(rows, now, DueRows(rows, now, n - 1), n - 1);
    }
  }

  // A batch is ordered, without repetition, and every due row it leaves out comes after all of its rows; it leaves out
  // a row only when it is full.
  lemma BatchIsEarliest(rows: seq<Row>, now: int, limit: nat, i: nat)
    requires i < |rows| && IsDue(rows[i], now)
    ensures var s := Batch(rows, now, limit);
      && Ordered(rows, s)
      && (forall a, b :: 0 <= a < b < |s| ==> s[a] != s[b])
      && (i !in s ==> |s| == limit && forall k :: 0 <= k < |s| ==> Earlier(rows, s[k], i))
  {
    DueRowsOrdered(rows, now, |rows|);
    DueRowsMembers(rows, now, |rows|);
    var due, s := DueRows(rows, now, |rows|), Batch(rows, now, limit);
    assert i in due;
    var p :| 0 <= p < |due| && due[p] == i;
    if p < |s| {
      assert s[p] == i;
    }
  }

  /******* The queue over time *******/

  // History of one row.
  datatype Hist = Hist(deliveries: nat, accepted: nat, failures: nat, deaths: nat, retries: nat, backoff: nat)

  datatype Queue = Queue(rows: seq<Row>, hist: seq<Hist>)

  datatype Op =
    | Enqueue(to: string, now: int)
    | Cycle(cycleAt: int, limit: nat, outcomes: seq<Outcome>)
    | AdminRetry(retryRow: nat, retryAt: int)
    | AdminCancel(cancelRow: nat)

  function NewRow(to: string, now: int): Row {
    Row(Pending, Some(to), to, 0, Some(0), now, Some(now), None, None)
  }

  function Record(h: Hist, r: Row, now: int, o: Outcome): Hist {
    var d := Deliver(r, now, o);
    Hist(h.deliveries + 1,
         h.accepted + (if o == Accepted || o == DiedAfter then 1 else 0),
         h.failures + (if o.Refused? then 1 else 0),
         h.deaths + (if Died(o) then 1 else 0),
         h.retries,
         h.backoff + if o.Refused? && d.status == Pending then Backoff(EffectiveCount(d)) else 0)
  }

  function DeliverAt(q: Queue, i: nat, now: int, o: Outcome): Queue
    requires i < |q.rows| == |q.hist|
  {
    Queue(q.rows[i := Deliver(q.rows[i], now, o)], q.hist[i := Record(q.hist[i], q.rows[i], now, o)])
  }

  // The outcomes of the rows of a batch that are reached: all of them, unless the process dies at the last one.
  predicate Fits(outcomes: seq<Outcome>, batch: seq<nat>) {
    && |outcomes| <= |batch|
    && (forall k :: 0 <= k < |outcomes| - 1 ==> !Died(outcomes[k]))
    && (|outcomes| < |batch| ==> outcomes != [] && Died(outcomes[|outcomes| - 1]))
  }

  // The queue after the first n rows of the batch.
  function DeliverFirst(q: Queue, batch: seq<nat>, now: int, outcomes: seq<Outcome>, n: nat): (q': Queue)
    requires |q.rows| == |q.hist| && n <= |outcomes| <= |batch| && Indexes(batch, |q.rows|)
    ensures |q'.rows| == |q'.hist| == |q.rows|
  {
    if n == 0 then q
    else
      DeliverAt(DeliverFirst(q, batch, now, outcomes, n - 1), batch[n - 1], now, outcomes[n - 1])
  }

  predicate Enabled(q: Queue, op: Op) {
    match op
    case Enqueue(_, _) => true
    case Cycle(now, limit, outcomes) => Fits(outcomes, Batch(q.rows, now, limit))
    case AdminRetry(i, _) => i < |q.rows|
    case AdminCancel(i) => i < |q.rows|
  }

  function Next(q: Queue, op: Op): Queue
    requires |q.rows| == |q.hist| && Enabled(q, op)
  {
    match op
    case Enqueue(to, now) => Queue(q.rows + [NewRow(to, now)], q.hist + [Hist(0, 0, 0, 0, 0, 0)])
    case Cycle(now, limit, outcomes) =>
      DeliverFirst(q, Batch(q.rows, now, limit), now, outcomes, |outcomes|)
    case AdminRetry(i, now) =>
      Queue(q.rows[i := Retry(q.rows[i], now)],
            q.hist[i := q.hist[i].(retries := q.hist[i].retries + if q.rows[i].status == Failed then 1 else 0)])
    case AdminCancel(i) => q.(rows := q.rows[i := Cancel(q.rows[i])])
  }

  function BackoffUpTo(failures: nat): nat {
    if failures == 0 then 0 else BackoffUpTo(failures - 1) + if failures < MAX_ATTEMPTS then Backoff(failures) else 0
  }

  // What a row and its history have to do with each other.
  predicate RowOk(r: Row, h: Hist) {
    && EffectiveCount(r) == Min(MAX_ATTEMPTS, h.failures)
    && h.backoff == BackoffUpTo(Min(MAX_ATTEMPTS, h.failures))
    && h.deaths == (if r.status == Sending then 1 else 0)
    && match r.status
       case Pending => h.accepted == 0 && h.deliveries == h.failures
                       && (if h.retries == 0 then h.failures < MAX_ATTEMPTS else h.failures == MAX_ATTEMPTS - 1 + h.retries)
       case Failed => h.accepted == 0 && h.deliveries == h.failures == MAX_ATTEMPTS + h.retries
       case Sent => h.accepted == 1 && h.deliveries == h.failures + 1 <= MAX_ATTEMPTS + h.retries
       case Sending => h.accepted <= 1 && h.deliveries == h.failures + 1 <= MAX_ATTEMPTS + h.retries
       case Cancelled => h.accepted == 0 && h.deliveries == h.failures <= MAX_ATTEMPTS + h.retries
  }

  ghost predicate Inv(q: Queue) {
    |q.rows| == |q.hist| && forall i :: 0 <= i < |q.rows| ==> RowOk(q.rows[i], q.hist[i])
  }

  lemma DeliverKeeps(r: Row, h: Hist, now: int, o: Outcome)
    requires RowOk(r, h) && r.status == Pending
    ensures RowOk(Deliver(r, now, o), Record(h, r, now, o))
    ensures Deliver(r, now, o).status == Sending <==> Died(o)
    ensures o == Accepted ==> Deliver(r, now, o).status == Sent && Deliver(r, now, o).sentAt == Some(now)
    ensures o.Refused? && Deliver(r, now, o).status == Pending ==>
      1 <= EffectiveCount(Deliver(r, now, o)) <= MAX_ATTEMPTS - 1 && Deliver(r, now, o).nextAt.Some?
  {
  }

  lemma RetryKeeps(r: Row, h: Hist, now: int)
    requires RowOk(r, h)
    ensures RowOk(Retry(r, now), h.(retries := h.retries + if r.status == Failed then 1 else 0))
  {
  }

  // The rows a batch reaches are each delivered once, from the state the batch found them in; no other row changes.
  lemma {:induction false} DeliverFirstEach(q: Queue, batch: seq<nat>, now: int, outcomes: seq<Outcome>, n: nat, k: nat)
    requires |q.rows| == |q.hist| && n <= |outcomes| <= |batch| && Indexes(batch, |q.rows|)
    requires forall a, b :: 0 <= a < b < |batch| ==> batch[a] != batch[b]
    requires k < |batch|
    ensures var q' := DeliverFirst(q, batch, now, outcomes, n);
            var i := batch[k];
      && (k < n ==> q'.rows[i] == Deliver(q.rows[i], now, outcomes[k])
                    && q'.hist[i] == Record(q.hist[i], q.rows[i], now, outcomes[k]))
      && (k >= n ==> q'.rows[i] == q.rows[i] && q'.hist[i] == q.hist[i])
  {
    if n > 0 {
      DeliverFirstEach(q, batch, now, outcomes, n - 1, k);
    }
  }

  lemma {:induction false} DeliverFirstFrame(q: Queue, batch: seq<nat>, now: int, outcomes: seq<Outcome>, n: nat, i: nat)
    requires |q.rows| == |q.hist| && n <= |outcomes| <= |batch| && Indexes(batch, |q.rows|)
    requires i < |q.rows| && i !in batch
    ensures var q' := DeliverFirst(q, batch, now, outcomes, n); q'.rows[i] == q.rows[i] && q'.hist[i] == q.hist[i]
  {
    if n > 0 {
      DeliverFirstFrame(q, batch, now, outcomes, n - 1, i);
      assert batch[n - 1] in batch;
    }
  }

  lemma BatchReady(rows: seq<Row>, now: int, limit: nat)
    ensures var batch := Batch(rows, now, limit);
      && (forall k :: 0 <= k < |batch| ==> rows[batch[k]].status == Pending)
      && (forall a, b :: 0 <= a < b < |batch| ==> batch[a] != batch[b])
  {
    DueRowsOrdered(rows, now, |rows|);
    var batch := Batch(rows, now, limit);
    assert forall k :: 0 <= k < |batch| ==> batch[k] in batch;
  }

  // What one cycle does to one row: nothing, or one delivery of a pending row.
  lemma CycleStep(q: Queue, now: int, limit: nat, outcomes: seq<Outcome>, i: nat) returns (k: Option<nat>)
    requires |q.rows| == |q.hist| && Enabled(q, Cycle(now, limit, outcomes)) && i < |q.rows|
    ensures var q' := Next(q, Cycle(now, limit, outcomes));
      match k
      case None => q'.rows[i] == q.rows[i] && q'.hist[i] == q.hist[i]
      case Some(j) => j < |outcomes| && q.rows[i].status == Pending && IsDue(q.rows[i], now)
                      && q'.rows[i] == Deliver(q.rows[i], now, outcomes[j])
                      && q'.hist[i] == Record(q.hist[i], q.rows[i], now, outcomes[j])
  {
    var batch := Batch(q.rows, now, limit);
    BatchReady(q.rows, now, limit);
    if i in batch {
      var j: nat :| j < |batch| && batch[j] == i;
      DeliverFirstEach(q, batch, now, outcomes, |outcomes|, j);
      k := if j < |outcomes| then Some(j) else None;
    } else {
      DeliverFirstFrame(q, batch, now, outcomes, |outcomes|, i);
      k := None;
    }
  }

  lemma NextKeeps(q: Queue, op: Op)
    requires Inv(q) && Enabled(q, op)
    ensures Inv(Next(q, op))
  {
    match op
    case Cycle(now, limit, outcomes) =>
      var q' := Next(q, op);
      forall i | 0 <= i < |q'.rows| ensures RowOk(q'.rows[i], q'.hist[i]) {
        var k := CycleStep(q, now, limit, outcomes, i);
        if k.Some? {
          DeliverKeeps(q.rows[i], q.hist[i], now, outcomes[k.value]);
        }
      }
    case AdminRetry(i, now) => RetryKeeps(q.rows[i], q.hist[i], now);
    case _ =>
  }
}
