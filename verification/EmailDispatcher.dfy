/**
  The dispatcher as the program runs it: it updates mail rows in place, field by field, and is proved against
  the queue's value-level steps.
 */
module EmailDispatcher {
  import opened Wrappers
  import opened EmailQueue

  class OutgoingEmail {
    var status: Status
    var recipient: Option<string>
    const to: string
    var attempts: nat
    var attemptCount: Option<nat>
    const scheduledAt: int
    var nextAt: Option<int>
    var sentAt: Option<int>
    var lastError: Option<string>

    function Value(): Row
      reads this
    {
      Row(status, recipient, to, attempts, attemptCount, scheduledAt, nextAt, sentAt, lastError)
    }

    constructor (to: string, now: int)
      ensures Value() == NewRow(to, now)
    {
      this.to := to;
      scheduledAt := now;
      status := Pending;
      recipient := Some(to);
      attempts := 0;
      attemptCount := Some(0);
      nextAt := Some(now);
      sentAt := None;
      lastError := None;
    }

    method SyncCompatFields()
      modifies this
      ensures Value() == Sync(old(Value()))
    {
      if recipient.None? || recipient.value == "" {
        recipient := Some(to);
      }
      if attemptCount.None? {
        attemptCount := Some(attempts);
      }
      attempts := attemptCount.value;
      if nextAt.None? && status == Pending {
        nextAt := Some(scheduledAt);
      }
    }

    method Deliver(now: int, o: Outcome)
      modifies this
      ensures Value() == EmailQueue.Deliver(old(Value()), now, o)
    {
      SyncCompatFields();
      status := Sending;
      match o {
        case DiedBefore => return;
        case DiedAfter => return;
        case Accepted =>
          status := Sent;
          sentAt := Some(now);
          lastError := None;
          nextAt := None;
        case Refused(error) =>
          attemptCount := Some(Min(MAX_ATTEMPTS, attemptCount.value + 1));
          lastError := Some(error);
      }
      if status != Sent {
        var tries := attemptCount.value;
        if tries >= MAX_ATTEMPTS {
          status := Failed;
          nextAt := None;
        } else {
          status := Pending;
          nextAt := Some(now + Backoff(tries));
        }
      }
      SyncCompatFields();
    }

    method Retry(now: int) returns (ok: bool)
      modifies this
      ensures ok <==> old(status) == Failed
      ensures Value() == EmailQueue.Retry(old(Value()), now)
    {
      if status != Failed {
        return false;
      }
      status := Pending;
      nextAt := Some(now);
      SyncCompatFields();
      return true;
    }

    method Cancel() returns (ok: bool)
      modifies this
      ensures ok <==> old(status) == Pending
      ensures Value() == EmailQueue.Cancel(old(Value()))
    {
      if status != Pending {
        return false;
      }
      status := Cancelled;
      nextAt := None;
      SyncCompatFields();
      return true;
    }
  }

  function Values(rows: seq<OutgoingEmail>): (vs: seq<Row>)
    reads rows
    ensures |vs| == |rows|
  {
    seq(|rows|, i requires 0 <= i < |rows| reads rows => rows[i].Value())
  }

  ghost predicate Distinct(rows: seq<OutgoingEmail>) {
    forall i, j :: 0 <= i < j < |rows| ==> rows[i] != rows[j]
  }

  // The loop body: one row delivered in place, the other rows of the table unchanged.
  method DeliverRow(rows: seq<OutgoingEmail>, i: nat, now: int, o: Outcome)
    requires Distinct(rows) && i < |rows|
    modifies rows[i]
    ensures Values(rows) == old(Values(rows))[i := EmailQueue.Deliver(old(rows[i].Value()), now, o)]
  {
    rows[i].Deliver(now, o);
  }

  // The rows of a batch, delivered in order; a death inside a delivery ends the cycle there.
  method ProcessEmailQueue(rows: seq<OutgoingEmail>, ghost hist: seq<Hist>, now: int, limit: nat, outcomes: seq<Outcome>)
    returns (processed: nat)
    requires Distinct(rows) && |hist| == |rows|
    requires Fits(outcomes, Batch(Values(rows), now, limit))
    modifies rows
    ensures Values(rows) == Next(Queue(old(Values(rows)), hist), Cycle(now, limit, outcomes)).rows
    ensures processed == |outcomes| <= limit
  {
    var batch := Batch(Values(rows), now, limit);
    ghost var q := Queue(Values(rows), hist);
    processed := 0;
    while processed < |outcomes|
      invariant processed <= |outcomes|
      invariant Values(rows) == DeliverFirst(q, batch, now, outcomes, processed).rows
    {
      var i := batch[processed];
      DeliverRow(rows, i, now, outcomes[processed]);
      processed := processed + 1;
    }
  }
}
