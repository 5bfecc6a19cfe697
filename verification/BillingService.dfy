/** The billing service functions as they run, updating the rows of the lease and invoice tables in place. */
module BillingService {
  import opened Wrappers
  import opened Calendar
  import opened Money
  import opened PeriodKeys
  import B = Billing
  import Leases
  import Invoices

  class BillingStore {
    var leases: map<nat, Leases.Lease>
    var invoices: map<nat, Invoices.Invoice>
    var nextLease: nat
    var nextInvoice: nat
    ghost var log: seq<B.Bill>
    ghost var touched: set<nat>

    ghost function Contents(today: Date): B.State
      reads this
    {
      B.State(leases, invoices, nextLease, nextInvoice, today, log, touched)
    }

    constructor ()
      ensures forall today :: ValidDate(today) ==> B.Init(Contents(today))
    {
      leases, invoices, nextLease, nextInvoice, log, touched := map[], map[], 1, 1, [], {};
    }

    /******* Leases *******/

    method CreateLease(n: Leases.NewLease) returns (ok: bool)
      modifies this`leases, this`nextLease
      ensures ok <==> Leases.Create(n).Some?
      ensures leases == if ok then old(leases)[old(nextLease) := Leases.Create(n).value] else old(leases)
      ensures nextLease == if ok then old(nextLease) + 1 else old(nextLease)
    {
      if n.cycle == OtherCycle || !n.unit.To? || !n.guest.To? || n.reservation.Missing? {
        return false;
      }
      if !n.start.Day? || n.end.BadDate? || (n.end.Day? && Before(n.end.date, n.start.date)) {
        return false;
      }
      var rent := ParseAmount(n.rent);
      if rent.None? {
        return false;
      }
      var deposit := Leases.ParseOptionalAmount(n.deposit);
      if deposit.None? {
        return false;
      }
      var reservation := if n.reservation.To? then Some(n.reservation.id) else None;
      var end := if n.end.Day? then Some(n.end.date) else None;
      leases := leases[nextLease := Leases.Lease(
        n.org, n.unit.id, n.guest.id, reservation, n.start.date, end, rent.value, deposit.value, n.cycle,
        Leases.Draft, n.notes, None, None)];
      nextLease := nextLease + 1;
      return true;
    }

    method PatchParties(l: Leases.Lease, p: Leases.Patch) returns (r: Option<Leases.Lease>)
      ensures r.Some? <==>
        && (p.unit.Some? || p.guest.Some? || p.reservation.Some? ==> l.status == Leases.Draft)
        && (p.unit.Some? ==> p.unit.value.To?) && (p.guest.Some? ==> p.guest.value.To?)
        && (p.reservation.Some? ==> !p.reservation.value.Missing?)
      ensures r.Some? ==> r.value == l.(
        unit := if p.unit.Some? then p.unit.value.id else l.unit,
        guest := if p.guest.Some? then p.guest.value.id else l.guest,
        reservation := if p.reservation.None? then l.reservation
                       else if p.reservation.value.To? then Some(p.reservation.value.id) else None)
    {
      if (p.unit.Some? || p.guest.Some? || p.reservation.Some?) && l.status != Leases.Draft {
        return None;
      }
      var row := l;
      if p.unit.Some? {
        if !p.unit.value.To? {
          return None;
        }
        row := row.(unit := p.unit.value.id);
      }
      if p.guest.Some? {
        if !p.guest.value.To? {
          return None;
        }
        row := row.(guest := p.guest.value.id);
      }
      if p.reservation.Some? {
        if p.reservation.value.Missing? {
          return None;
        }
        row := row.(reservation := if p.reservation.value.To? then Some(p.reservation.value.id) else None);
      }
      return Some(row);
    }

    method PatchTerms(l: Leases.Lease, p: Leases.Patch) returns (r: Option<Leases.Lease>)
      ensures r.Some? <==>
        && (p.rent.Some? ==> ParseAmount(p.rent.value).Some?)
        && (p.deposit.Some? ==> Leases.ParseOptionalAmount(p.deposit.value).Some?)
        && (p.cycle.Some? ==> l.status == Leases.Draft && p.cycle.value != OtherCycle)
      ensures r.Some? ==> r.value == l.(
        rent := if p.rent.Some? then ParseAmount(p.rent.value).value else l.rent,
        deposit := if p.deposit.Some? then Leases.ParseOptionalAmount(p.deposit.value).value else l.deposit,
        cycle := if p.cycle.Some? then p.cycle.value else l.cycle)
    {
      var row := l;
      if p.rent.Some? {
        var rent := ParseAmount(p.rent.value);
        if rent.None? {
          return None;
        }
        row := row.(rent := rent.value);
      }
      if p.deposit.Some? {
        var deposit := Leases.ParseOptionalAmount(p.deposit.value);
        if deposit.None? {
          return None;
        }
        row := row.(deposit := deposit.value);
      }
      if p.cycle.Some? {
        if l.status != Leases.Draft || p.cycle.value == OtherCycle {
          return None;
        }
        row := row.(cycle := p.cycle.value);
      }
      return Some(row);
    }

    function Dated(l: Leases.Lease, p: Leases.Patch): Leases.Lease {
      l.(start := if p.start.Some? && p.start.value.Day? then p.start.value.date else l.start,
         end := if p.end.None? then l.end else if p.end.value.Day? then Some(p.end.value.date) else None)
    }

    method PatchDates(l: Leases.Lease, p: Leases.Patch) returns (r: Option<Leases.Lease>)
      ensures r.Some? <==>
        && (p.start.Some? ==> l.status == Leases.Draft && p.start.value.Day?)
        && (p.end.Some? && !p.end.value.BlankDate? ==>
              (l.status == Leases.Draft || l.status == Leases.Active) && p.end.value.Day?)
        && Leases.DatesOk(Dated(l, p))
      ensures r.Some? ==> r.value == Dated(l, p)
    {
      var row := l;
      if p.start.Some? {
        if l.status != Leases.Draft || !p.start.value.Day? {
          return None;
        }
        row := row.(start := p.start.value.date);
      }
      if p.end.Some? {
        if p.end.value.BlankDate? {
          row := row.(end := None);
        } else {
          if (l.status != Leases.Draft && l.status != Leases.Active) || p.end.value.BadDate? {
            return None;
          }
          row := row.(end := Some(p.end.value.date));
        }
      }
      if row.end.Some? && Before(row.end.value, row.start) {
        return None;
      }
      return Some(row);
    }

    // The row is changed field by field; an error on the way leaves the table as it was.
    method PatchLease(l: Leases.Lease, p: Leases.Patch) returns (r: Option<Leases.Lease>)
      ensures r == Leases.Update(l, p)
    {
      if Leases.Closed(l.status) && !Leases.NotesOnly(p) {
        return None;
      }
      var parties := PatchParties(l, p);
      if parties.None? {
        return None;
      }
      var dates := PatchDates(parties.value, p);
      if dates.None? {
        return None;
      }
      var terms := PatchTerms(dates.value, p);
      if terms.None? {
        return None;
      }
      var row := terms.value;
      if p.notes.Some? {
        row := row.(notes := p.notes.value);
      }
      return Some(row);
    }

    method UpdateLease(id: nat, org: int, p: Leases.Patch) returns (ok: bool)
      modifies this`leases
      ensures ok <==> id in old(leases) && old(leases)[id].org == org && Leases.Update(old(leases)[id], p).Some?
      ensures leases == if ok then old(leases)[id := Leases.Update(old(leases)[id], p).value] else old(leases)
    {
      if id !in leases || leases[id].org != org {
        return false;
      }
      var row := PatchLease(leases[id], p);
      if row.None? {
        return false;
      }
      leases := leases[id := row.value];
      return true;
    }

    method ActivateLease(id: nat, org: int) returns (ok: bool)
      modifies this`leases
      ensures ok <==> id in old(leases) && old(leases)[id].org == org && Leases.Activate(old(leases)[id]).Some?
      ensures leases == if ok then old(leases)[id := Leases.Activate(old(leases)[id]).value] else old(leases)
    {
      if id !in leases || leases[id].org != org {
        return false;
      }
      var row := leases[id];
      if row.status != Leases.Draft && row.status != Leases.PendingSignature {
        return false;
      }
      leases := leases[id := row.(status := Leases.Active)];
      return true;
    }

    method EndLease(id: nat, org: int, end: Leases.DatePatch, today: Date) returns (ok: bool)
      modifies this`leases
      ensures ok <==> id in old(leases) && old(leases)[id].org == org && Leases.End(old(leases)[id], end, today).Some?
      ensures leases == if ok then old(leases)[id := Leases.End(old(leases)[id], end, today).value] else old(leases)
    {
      if id !in leases || leases[id].org != org {
        return false;
      }
      var row := leases[id];
      if row.status != Leases.Active || end.BadDate? {
        return false;
      }
      var day := today;
      if end.Day? {
        day := end.date;
      }
      if Before(day, row.start) {
        return false;
      }
      row := row.(end := Some(day));
      row := row.(status := Leases.Ended);
      leases := leases[id := row];
      return true;
    }

    method CancelLease(id: nat, org: int) returns (ok: bool)
      modifies this`leases
      ensures ok <==> id in old(leases) && old(leases)[id].org == org && Leases.Cancel(old(leases)[id]).Some?
      ensures leases == if ok then old(leases)[id := Leases.Cancel(old(leases)[id]).value] else old(leases)
    {
      if id !in leases || leases[id].org != org || leases[id].status == Leases.Ended || leases[id].status == Leases.Cancelled {
        return false;
      }
      leases := leases[id := leases[id].(status := Leases.Cancelled)];
      return true;
    }

    // emailed tells whether the signing email could be sent or queued: when it could not, the error comes after the
    // commit.
    method SendLeaseForSigning(id: nat, org: int, token: Leases.Token, hasEmail: bool, emailed: bool) returns (ok: bool)
      modifies this`leases
      ensures ok <==> emailed && id in old(leases) && old(leases)[id].org == org
                      && Leases.SendForSigning(old(leases)[id], token, hasEmail).Some?
      ensures leases == if id in old(leases) && old(leases)[id].org == org && Leases.SendForSigning(old(leases)[id], token, hasEmail).Some?
        then old(leases)[id := Leases.SendForSigning(old(leases)[id], token, hasEmail).value] else old(leases)
    {
      if id !in leases || leases[id].org != org || !hasEmail {
        return false;
      }
      var row := leases[id];
      if row.status == Leases.Ended || row.status == Leases.Cancelled {
        return false;
      }
      row := row.(token := Some(token));
      row := row.(status := Leases.PendingSignature);
      leases := leases[id := row];
      return emailed;
    }

    // The first row with the token's hash, whatever its status.
    method SignLeaseWithToken(token: Leases.Token, now: int) returns (found: Option<nat>)
      modifies this`leases
      ensures found.None? ==> leases == old(leases) && forall id :: id in leases ==> leases[id].token != Some(token)
      ensures found.Some? ==> found.value in old(leases) && old(leases)[found.value].token == Some(token)
      ensures found.Some? ==>
        leases == old(leases)[found.value := Leases.Apply(old(leases)[found.value], Leases.Signing(token, now))]
    {
      var rest := leases.Keys;
      while rest != {}
        invariant rest <= leases.Keys && leases == old(leases)
        invariant forall id :: id in leases && id !in rest ==> leases[id].token != Some(token)
        decreases |rest|
      {
        var id :| id in rest;
        var row := leases[id];
        if row.token == Some(token) {
          if row.signedAt.None? {
            row := row.(signedAt := Some(now));
            row := row.(status := Leases.Active);
            leases := leases[id := row];
          }
          return Some(id);
        }
        rest := rest - {id};
      }
      return None;
    }

    /******* Invoices *******/

    method MarkInvoicePaid(id: nat, org: int, now: int) returns (ok: bool)
      modifies this`invoices
      ensures ok <==> id in old(invoices) && old(invoices)[id].org == org && Invoices.MarkPaid(old(invoices)[id], now).Some?
      ensures invoices == if ok then old(invoices)[id := Invoices.MarkPaid(old(invoices)[id], now).value] else old(invoices)
    {
      if id !in invoices || invoices[id].org != org {
        return false;
      }
      var row := invoices[id];
      if row.status == Invoices.Paid || row.status == Invoices.Cancelled || row.status == Invoices.Draft {
        return false;
      }
      row := row.(status := Invoices.Paid);
      row := row.(paidAt := Some(now));
      invoices := invoices[id := row];
      return true;
    }

    method CancelInvoice(id: nat, org: int) returns (ok: bool)
      modifies this`invoices
      ensures ok <==> id in old(invoices) && old(invoices)[id].org == org && Invoices.Cancel(old(invoices)[id]).Some?
      ensures invoices == if ok then old(invoices)[id := Invoices.Cancel(old(invoices)[id]).value] else old(invoices)
    {
      if id !in invoices || invoices[id].org != org {
        return false;
      }
      var row := invoices[id];
      if row.status == Invoices.Paid {
        return false;
      }
      if row.status != Invoices.Cancelled {
        invoices := invoices[id := row.(status := Invoices.Cancelled)];
      }
      return true;
    }

    // Answers how many invoices it marked.
    method MarkOverdueInvoices(org: Option<int>, today: Date) returns (count: nat)
      modifies this`invoices
      ensures invoices == B.Chase(old(invoices), org, today)
      ensures count == |B.PastDueRows(old(invoices), org, today)|
    {
      var rows := B.PastDueRows(invoices, org, today);
      var todo := rows;
      count := 0;
      while todo != {}
        invariant todo <= rows && rows <= invoices.Keys && invoices.Keys == old(invoices).Keys
        invariant count == |rows| - |todo|
        invariant forall x :: x in rows && x !in todo ==> invoices[x] == old(invoices)[x].(status := Invoices.Overdue)
        invariant forall x :: x in invoices && (x !in rows || x in todo) ==> invoices[x] == old(invoices)[x]
        decreases |todo|
      {
        var x :| x in todo;
        invoices := invoices[x := invoices[x].(status := Invoices.Overdue)];
        todo := todo - {x};
        count := count + 1;
      }
      B.ChasedPointwise(old(invoices), invoices, org, today);
    }

    method PatchMoney(row: Invoices.Invoice, p: Invoices.Patch, defaultRate: Rate) returns (r: Option<Invoices.Invoice>)
      ensures r.None? <==> Invoices.PatchedSubtotal(p).None? || Invoices.PatchedRate(p, defaultRate).None?
      ensures r.Some? ==> r.value == Invoices.PatchAmounts(
        row, Invoices.PatchedSubtotal(p).value, Invoices.PatchedRate(p, defaultRate).value)
    {
      var sub := Invoices.PatchedSubtotal(p);
      if sub.None? {
        return None;
      }
      var rate := Invoices.PatchedRate(p, defaultRate);
      if rate.None? {
        return None;
      }
      var patched := row;
      if sub.value.Some? || rate.value.Some? {
        var baseSub := if sub.value.Some? then sub.value.value else row.subtotal;
        var baseRate := if rate.value.Some? then rate.value.value else row.rate;
        var lines := ComputeVatLines(baseSub, baseRate);
        patched := patched.(subtotal := lines.subtotal, rate := baseRate, vat := lines.vat);
        patched := patched.(total := lines.total, amount := lines.total);
      }
      return Some(patched);
    }

    // The row is changed field by field; an error on the way leaves the table as it was.
    method PatchRow(i: Invoices.Invoice, p: Invoices.Patch, defaultRate: Rate) returns (r: Option<Invoices.Invoice>)
      ensures r == Invoices.Update(i, p, defaultRate)
    {
      if !Invoices.KeysAllowed(i.status, p) {
        return None;
      }
      var row := i;
      if p.description.Some? {
        row := row.(description := p.description.value);
      }
      if p.period.Some? {
        row := row.(period := p.period.value);
      }
      if Invoices.Editable(row.status) {
        var money := PatchMoney(row, p, defaultRate);
        if money.None? {
          return None;
        }
        row := money.value;
        if p.currency.Some? {
          if p.currency.value.None? {
            return None;
          }
          row := row.(currency := p.currency.value.value);
        }
        if p.due.Some? {
          if p.due.value.None? {
            return None;
          }
          row := row.(due := p.due.value.value);
        }
        if !Invoices.RefOk(p.guest) || !Invoices.RefOk(p.reservation) || !Invoices.RefOk(p.lease) {
          return None;
        }
        row := row.(guest := Invoices.PatchRef(row.guest, p.guest));
        row := row.(reservation := Invoices.PatchRef(row.reservation, p.reservation));
        row := row.(lease := Invoices.PatchRef(row.lease, p.lease));
      }
      return Some(row);
    }

    method UpdateInvoiceLimited(id: nat, org: int, p: Invoices.Patch, defaultRate: Rate) returns (ok: bool)
      modifies this`invoices, this`touched
      ensures ok <==> id in old(invoices) && old(invoices)[id].org == org && Invoices.Update(old(invoices)[id], p, defaultRate).Some?
      ensures invoices == if ok then old(invoices)[id := Invoices.Update(old(invoices)[id], p, defaultRate).value] else old(invoices)
      ensures touched == if ok && B.Edits(old(invoices)[id], Invoices.Updating(p, defaultRate)) then old(touched) + {id} else old(touched)
    {
      if id !in invoices || invoices[id].org != org {
        return false;
      }
      var row := PatchRow(invoices[id], p, defaultRate);
      if row.None? {
        return false;
      }
      if row.value.lease != invoices[id].lease || row.value.period != invoices[id].period {
        touched := touched + {id};
      }
      invoices := invoices[id := row.value];
      return true;
    }

    // The before-insert hook works on the pending row before it reaches the table.
    method HookedAmounts(subtotal: Cents, rate: Rate) returns (a: Invoices.NewAmounts)
      ensures a == Invoices.CoerceLegacy(Invoices.AmountsOf(subtotal, rate))
    {
      var row := new Invoices.PendingInvoice(Invoices.AmountsOf(subtotal, rate));
      row.CoerceLegacyAmountOnly();
      a := row.Amounts();
    }

    // The checks in their order; None is the error.
    method ParseNewInvoice(n: Invoices.NewInvoice, defaultRate: Rate) returns (money: Option<(Cents, Rate)>)
      ensures money.Some? <==> Invoices.Accepts(n, B.FindLease(leases, n.org, n.lease))
      ensures money.Some? ==> money.value == (ParseAmount(n.subtotal).value, Invoices.RateOf(n, defaultRate))
    {
      if !n.hasActor || n.status.None? || !Invoices.Editable(n.status.value) {
        return None;
      }
      var subtotal := ParseAmount(n.subtotal);
      if subtotal.None? {
        return None;
      }
      var rate := ParseRate(n.rate);
      if rate.None? || n.due.None? || n.currency.None? {
        return None;
      }
      if n.lease.Some? && (n.lease.value !in leases || leases[n.lease.value].org != n.org) {
        return None;
      }
      if n.reservation.Missing? || n.guest.Missing? {
        return None;
      }
      return Some((subtotal.value, if rate.value.Some? then rate.value.value else defaultRate));
    }

    method CreateInvoice(n: Invoices.NewInvoice, defaultRate: Rate) returns (id: Option<nat>)
      modifies this`invoices, this`nextInvoice
      ensures var row := Invoices.Create(n, B.FindLease(leases, n.org, n.lease), defaultRate);
        if row.None? then id.None? && invoices == old(invoices) && nextInvoice == old(nextInvoice)
        else id == Some(old(nextInvoice)) && nextInvoice == old(nextInvoice) + 1
             && invoices == old(invoices)[old(nextInvoice) := row.value]
    {
      var money := ParseNewInvoice(n, defaultRate);
      if money.None? {
        return None;
      }
      var a := HookedAmounts(money.value.0, money.value.1);
      ghost var found := B.FindLease(leases, n.org, n.lease);
      Invoices.CreateThroughHook(n, found, defaultRate, a);
      id := Some(nextInvoice);
      invoices := invoices[nextInvoice := Invoices.RowOf(n, B.FindLease(leases, n.org, n.lease), a)];
      nextInvoice := nextInvoice + 1;
    }

    /******* The biller *******/

    method FindInvoice(org: int, lease: nat, period: Option<string>) returns (found: bool)
      ensures found <==> !B.NoneCarries(invoices, org, lease, period)
    {
      var rest := invoices.Keys;
      while rest != {}
        invariant rest <= invoices.Keys
        invariant forall x :: x in invoices && x !in rest ==> !B.Carries(invoices[x], org, lease, period)
        decreases |rest|
      {
        var x :| x in rest;
        var row := invoices[x];
        if row.org == org && row.lease == Some(lease) && (period.None? || row.period == period) {
          assert B.Carries(invoices[x], org, lease, period);
          return true;
        }
        rest := rest - {x};
      }
      return false;
    }

    method ShouldCreate(id: nat, runDate: Date, ghost today: Date) returns (due: bool)
      requires id in leases
      ensures due <==> B.ShouldBill(Contents(today), id, runDate)
    {
      var lease := leases[id];
      if lease.cycle == OtherCycle || !Due(lease.cycle, runDate) {
        return false;
      }
      var taken := FindInvoice(lease.org, id, Some(PeriodKey(lease.cycle, runDate)));
      if taken {
        return false;
      }
      if lease.cycle == OneTime {
        var already := FindInvoice(lease.org, id, None);
        return !already;
      }
      return true;
    }

    // The request for the lease's invoice always passes the checks that the model does not leave to the outcome.
    method BillLease(id: nat, runDate: Date, rate: Rate) returns (x: nat)
      requires id in leases && leases[id].cycle != OtherCycle
      modifies this`invoices, this`nextInvoice
      ensures x == old(nextInvoice) && nextInvoice == x + 1
      ensures invoices == old(invoices)[x := B.BillRow(leases[id], id, runDate, rate)]
    {
      B.BillAccepted(leases[id], id, runDate, rate);
      var made := CreateInvoice(B.LeaseInvoice(leases[id], id, runDate), rate);
      x := made.value;
    }

    // The loop body: one active lease, and the counts after it.
    method VisitLease(id: nat, runDate: Date, outcome: B.Outcome, rate: Rate, before: B.Summary, ghost today: Date)
      returns (after: B.Summary)
      requires id in leases
      modifies this`invoices, this`nextInvoice, this`log
      ensures Contents(today) == B.BillOne(old(Contents(today)), id, runDate, outcome, rate)
      ensures after == B.Count(before, old(Contents(today)), id, runDate, outcome)
    {
      var due := ShouldCreate(id, runDate, today);
      if !due {
        return before.(skipped := before.skipped + 1);
      }
      if outcome == B.FailsBeforeCommit {
        return before.(errors := before.errors + 1, skipped := before.skipped + 1);
      }
      var x := BillLease(id, runDate, rate);
      log := log + [B.Bill(x, id, leases[id].cycle, runDate)];
      if outcome == B.FailsAfterCommit {
        return before.(errors := before.errors + 1, skipped := before.skipped + 1);
      }
      return before.(created := before.created + 1);
    }

    // order is the order in which the query returns the active leases.
    method GenerateDueLeaseInvoices(runDate: Date, order: seq<nat>, outcomes: seq<B.Outcome>, rate: Rate, ghost today: Date)
      returns (summary: B.Summary)
      requires B.ActiveOrder(Contents(today), order) && |outcomes| == |order|
      modifies this`invoices, this`nextInvoice, this`log
      ensures Contents(today) == B.BillFirst(old(Contents(today)), runDate, order, outcomes, rate, |order|)
      ensures summary == B.CountFirst(old(Contents(today)), runDate, order, outcomes, rate, |order|)
    {
      summary := B.Summary(0, 0, 0);
      for n := 0 to |order|
        invariant Contents(today) == B.BillFirst(old(Contents(today)), runDate, order, outcomes, rate, n)
        invariant summary == B.CountFirst(old(Contents(today)), runDate, order, outcomes, rate, n)
      {
        summary := VisitLease(order[n], runDate, outcomes[n], rate, summary, today);
      }
    }
  }
}
