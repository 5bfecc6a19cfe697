/** What holds over every run of lease, invoice and biller operations. */
module BillingTheorems {
  import opened Wrappers
  import opened Calendar
  import opened Money
  import opened PeriodKeys
  import opened Billing
  import Leases
  import Invoices

  /******* No period is billed twice *******/

  // Two automatic invoices of one lease never share a period or a due date, and a one-time lease never has two, unless
  // an edit has given the older one another lease or period. Cancelling or paying it makes no difference.
  lemma NoPeriodBilledTwice(states: seq<State>, ops: seq<Op>, n: nat, j: nat, k: nat)
    requires Run(states, ops) && n < |states| && j < k < |states[n].log|
    requires states[n].log[j].lease == states[n].log[k].lease
    ensures var older, newer := states[n].log[j], states[n].log[k];
      older.invoice !in states[n].touched ==>
        && newer.cycle == older.cycle && newer.cycle != OneTime && newer.cycle != OtherCycle
        && PeriodKey(newer.cycle, newer.day) != PeriodKey(older.cycle, older.day) && newer.day != older.day
  {
    RunInvariant(states, ops, n);
    var s := states[n];
    assert BillOk(s, s.log[j]) && BillOk(s, s.log[k]) && FirstForPeriod(s, s.log[k]);
  }

  // The same against every older invoice, automatic or not: the biller never makes the second invoice of a period,
  // and bills a one-time lease only when the lease has no invoice.
  lemma BillerNeverMakesTheSecond(states: seq<State>, ops: seq<Op>, n: nat, x: nat, k: nat)
    requires Run(states, ops) && n < |states| && k < |states[n].log|
    requires x in states[n].invoices && x < states[n].log[k].invoice && x !in states[n].touched
    requires states[n].log[k].lease in states[n].leases
    requires states[n].invoices[x].lease == Some(states[n].log[k].lease)
    requires states[n].invoices[x].org == states[n].leases[states[n].log[k].lease].org
    ensures var b := states[n].log[k];
      b.cycle != OneTime && b.cycle != OtherCycle && states[n].invoices[x].period != Some(PeriodKey(b.cycle, b.day))
  {
    RunInvariant(states, ops, n);
    var s := states[n];
    assert BillOk(s, s.log[k]) && FirstForPeriod(s, s.log[k]);
    assert Carries(s.invoices[x], s.leases[s.log[k].lease].org, s.log[k].lease, None);
  }

  // Distinct due dates of one cycle are distinct periods, so what is prevented is exactly billing a date twice.
  lemma PeriodsAreDueDates(states: seq<State>, ops: seq<Op>, n: nat, j: nat, k: nat)
    requires Run(states, ops) && n < |states| && j < |states[n].log| && k < |states[n].log|
    requires states[n].log[j].cycle == states[n].log[k].cycle && states[n].log[j].cycle != OneTime
    ensures var a, b := states[n].log[j], states[n].log[k];
      a.cycle != OtherCycle && b.cycle != OtherCycle
      && (PeriodKey(a.cycle, a.day) == PeriodKey(b.cycle, b.day) <==> a.day == b.day)
  {
    RunInvariant(states, ops, n);
    var s := states[n];
    assert BillOk(s, s.log[j]) && BillOk(s, s.log[k]);
    KeysAreFaithful(s.log[j].cycle, s.log[j].day, s.log[k].day);
  }

  // What one run of the biller adds to the log.
  ghost predicate Billed(log: seq<Bill>, from: nat, id: nat) {
    exists k :: from <= k < |log| && log[k].lease == id
  }

  // Every invoice has a number below the next one.
  ghost predicate Numbered(s: State) {
    forall x :: x in s.invoices ==> x < s.nextInvoice
  }

  lemma BillOneNumbered(s: State, id: nat, day: Date, outcome: Outcome, rate: Rate)
    requires Numbered(s) && id in s.leases
    ensures Numbered(BillOne(s, id, day, outcome, rate))
  {
  }

  ghost predicate Known(s: State, order: seq<nat>) {
    forall i :: 0 <= i < |order| ==> order[i] in s.leases
  }

  lemma {:induction false} BillFirstNumbered(s: State, day: Date, order: seq<nat>, outcomes: seq<Outcome>, rate: Rate, n: nat)
    requires Numbered(s) && Known(s, order) && n <= |order| == |outcomes|
    ensures Numbered(BillFirst(s, day, order, outcomes, rate, n))
  {
    if n > 0 {
      var t := BillFirst(s, day, order, outcomes, rate, n - 1);
      assert BillFirst(s, day, order, outcomes, rate, n) == BillOne(t, order[n - 1], day, outcomes[n - 1], rate);
      BillFirstNumbered(s, day, order, outcomes, rate, n - 1);
      BillOneNumbered(t, order[n - 1], day, outcomes[n - 1], rate);
    }
  }

  lemma OthersKeepShould(s: State, id: nat, other: nat, day: Date, outcome: Outcome, rate: Rate)
    requires Numbered(s) && id in s.leases && other in s.leases && other != id
    ensures ShouldBill(BillOne(s, other, day, outcome, rate), id, day) <==> ShouldBill(s, id, day)
    ensures var t := BillOne(s, other, day, outcome, rate); s.log <= t.log && !Billed(t.log, |s.log|, id)
  {
    var t := BillOne(s, other, day, outcome, rate);
    forall period ensures NoneCarries(t.invoices, s.leases[id].org, id, period) <==> NoneCarries(s.invoices, s.leases[id].org, id, period) {
      OthersKeepCarries(s, id, other, day, outcome, rate, period);
    }
  }

  lemma OthersKeepCarries(s: State, id: nat, other: nat, day: Date, outcome: Outcome, rate: Rate, period: Option<string>)
    requires Numbered(s) && id in s.leases && other in s.leases && other != id
    ensures var t := BillOne(s, other, day, outcome, rate);
      NoneCarries(t.invoices, s.leases[id].org, id, period) <==> NoneCarries(s.invoices, s.leases[id].org, id, period)
  {
    var t := BillOne(s, other, day, outcome, rate);
    forall x | x in s.invoices ensures x in t.invoices && t.invoices[x] == s.invoices[x] {
    }
  }

  // Up to its turn in the run a lease is neither billed nor kept from being billed.
  lemma {:induction false} BeforeItsTurn(s: State, day: Date, order: seq<nat>, outcomes: seq<Outcome>, rate: Rate, n: nat, id: nat)
    requires Numbered(s) && Known(s, order) && n <= |order| == |outcomes| && id in s.leases
    requires forall i :: 0 <= i < n ==> order[i] != id
    ensures var t := BillFirst(s, day, order, outcomes, rate, n);
      && (ShouldBill(t, id, day) <==> ShouldBill(s, id, day))
      && s.log <= t.log && !Billed(t.log, |s.log|, id)
  {
    if n > 0 {
      BeforeItsTurn(s, day, order, outcomes, rate, n - 1, id);
      BillFirstNumbered(s, day, order, outcomes, rate, n - 1);
      OthersKeepShould(BillFirst(s, day, order, outcomes, rate, n - 1), id, order[n - 1], day, outcomes[n - 1], rate);
    }
  }

  lemma BillOneLogs(s: State, id: nat, day: Date, outcome: Outcome, rate: Rate)
    requires id in s.leases && outcome != FailsBeforeCommit
    ensures BillOne(s, id, day, outcome, rate).log
         == s.log + if ShouldBill(s, id, day) then [Bill(s.nextInvoice, id, s.leases[id].cycle, day)] else []
  {
  }

  lemma BilledExtends(log: seq<Bill>, longer: seq<Bill>, from: nat, id: nat)
    requires log <= longer && from <= |log| && !Billed(longer, |log|, id)
    ensures Billed(longer, from, id) <==> Billed(log, from, id)
  {
    if Billed(log, from, id) {
      var k :| from <= k < |log| && log[k].lease == id;
      assert longer[k].lease == id;
    }
  }

  lemma OthersLeaveBilled(u: State, id: nat, other: nat, day: Date, outcome: Outcome, rate: Rate, from: nat)
    requires Numbered(u) && id in u.leases && other in u.leases && other != id && from <= |u.log|
    ensures var t := BillOne(u, other, day, outcome, rate);
      u.log <= t.log && (Billed(t.log, from, id) <==> Billed(u.log, from, id))
  {
    OthersKeepShould(u, id, other, day, outcome, rate);
    BilledExtends(u.log, BillOne(u, other, day, outcome, rate).log, from, id);
  }

  lemma AtItsTurn(s: State, day: Date, order: seq<nat>, outcomes: seq<Outcome>, rate: Rate, p: nat, id: nat)
    requires Numbered(s) && Known(s, order) && p < |order| == |outcomes| && order[p] == id
    requires outcomes[p] != FailsBeforeCommit && forall i :: 0 <= i < p ==> order[i] != id
    ensures var t := BillFirst(s, day, order, outcomes, rate, p + 1);
      s.log <= t.log && (Billed(t.log, |s.log|, id) <==> ShouldBill(s, id, day))
  {
    var u := BillFirst(s, day, order, outcomes, rate, p);
    BeforeItsTurn(s, day, order, outcomes, rate, p, id);
    BillOneLogs(u, id, day, outcomes[p], rate);
    if ShouldBill(s, id, day) {
      assert BillOne(u, id, day, outcomes[p], rate).log[|u.log|].lease == id;
    }
  }

  // From its turn on a lease is billed by the run exactly if it was to be billed when the run began.
  lemma {:induction false} FromItsTurn(s: State, day: Date, order: seq<nat>, outcomes: seq<Outcome>, rate: Rate, p: nat, n: nat, id: nat)
    requires Numbered(s) && Known(s, order) && p < n <= |order| == |outcomes| && order[p] == id
    requires outcomes[p] != FailsBeforeCommit && forall i :: 0 <= i < n && i != p ==> order[i] != id
    ensures var t := BillFirst(s, day, order, outcomes, rate, n);
      s.log <= t.log && (Billed(t.log, |s.log|, id) <==> ShouldBill(s, id, day))
    decreases n
  {
    if p == n - 1 {
      AtItsTurn(s, day, order, outcomes, rate, p, id);
    } else {
      var u := BillFirst(s, day, order, outcomes, rate, n - 1);
      assert BillFirst(s, day, order, outcomes, rate, n) == BillOne(u, order[n - 1], day, outcomes[n - 1], rate);
      BillFirstNumbered(s, day, order, outcomes, rate, n - 1);
      FromItsTurn(s, day, order, outcomes, rate, p, n - 1, id);
      OthersLeaveBilled(u, id, order[n - 1], day, outcomes[n - 1], rate, |s.log|);
    }
  }

  // Every bill of a run bears the day of the run and the cycle of its lease.
  lemma {:induction false} NewBills(s: State, day: Date, order: seq<nat>, outcomes: seq<Outcome>, rate: Rate, n: nat, k: nat)
    requires n <= |order| == |outcomes| && forall i :: 0 <= i < |order| ==> order[i] in s.leases
    requires |s.log| <= k < |BillFirst(s, day, order, outcomes, rate, n).log|
    ensures var b := BillFirst(s, day, order, outcomes, rate, n).log[k];
      b.day == day && b.lease in s.leases && b.cycle == s.leases[b.lease].cycle
  {
    if n > 0 && k < |BillFirst(s, day, order, outcomes, rate, n - 1).log| {
      NewBills(s, day, order, outcomes, rate, n - 1, k);
    }
  }

  // A run bills a lease exactly if the lease is active, due, and no invoice of its organization carries the period, or,
  // for a one-time lease, the lease.
  lemma RunBillsIff(s: State, day: Date, order: seq<nat>, outcomes: seq<Outcome>, rate: Rate, id: nat)
    requires Inv(s) && Enabled(s, RunBiller(day, order, outcomes, rate)) && id in s.leases
    requires forall i :: 0 <= i < |order| && order[i] == id ==> outcomes[i] != FailsBeforeCommit
    ensures Billed(Next(s, RunBiller(day, order, outcomes, rate)).log, |s.log|, id) <==>
      s.leases[id].status == Leases.Active && ShouldBill(s, id, day)
  {
    if id in order {
      var p :| 0 <= p < |order| && order[p] == id;
      FromItsTurn(s, day, order, outcomes, rate, p, |order|, id);
    } else {
      BeforeItsTurn(s, day, order, outcomes, rate, |order|, id);
    }
  }

  // The same in plain terms: the first of the month for monthly leases, Mondays for weekly ones (ordinal 1, the first
  // of January of year 1, is a Monday), any day for one-time leases.
  lemma RunBillsPlainly(s: State, day: Date, order: seq<nat>, outcomes: seq<Outcome>, rate: Rate, id: nat)
    requires Inv(s) && Enabled(s, RunBiller(day, order, outcomes, rate)) && id in s.leases
    requires forall i :: 0 <= i < |order| && order[i] == id ==> outcomes[i] != FailsBeforeCommit
    ensures var l := s.leases[id];
      Billed(Next(s, RunBiller(day, order, outcomes, rate)).log, |s.log|, id) <==>
        && l.status == Leases.Active
        && (l.cycle == Monthly ==> day.day == 1)
        && (l.cycle == Weekly ==> (Ordinal(day) - 1) % 7 == 0)
        && (forall x :: x in s.invoices && s.invoices[x].org == l.org && s.invoices[x].lease == Some(id) ==>
              l.cycle != OneTime && s.invoices[x].period != Some(PeriodKey(l.cycle, day)))
  {
    RunBillsIff(s, day, order, outcomes, rate, id);
    DueDays(s.leases[id].cycle, day);
    var l := s.leases[id];
    assert l.cycle != OtherCycle;
    forall x | x in s.invoices
      ensures Carries(s.invoices[x], l.org, id, None) <==> s.invoices[x].org == l.org && s.invoices[x].lease == Some(id)
      ensures Carries(s.invoices[x], l.org, id, Some(PeriodKey(l.cycle, day))) <==>
        s.invoices[x].org == l.org && s.invoices[x].lease == Some(id) && s.invoices[x].period == Some(PeriodKey(l.cycle, day))
    {
    }
  }

  /******* What a run charges *******/

  // The invoice charges the rent, at the default rate, in euros, to the guest and for the reservation of the lease. An
  // invoice of nothing loses its rate in the insert hook.
  ghost predicate Charges(i: Invoices.Invoice, l: Leases.Lease, id: nat, day: Date, rate: Rate) {
    && i.org == l.org && i.lease == Some(id) && i.guest == Some(l.guest) && i.reservation == l.reservation
    && i.subtotal == l.rent && i.total == l.rent + i.vat && i.amount == i.total && i.currency == "EUR"
    && -10000 < 2 * (10000 * i.vat - l.rent * rate) <= 10000
    && i.rate == (if i.total == 0 then 0 else rate)
    && i.status == Invoices.Open && i.paidAt == None && i.due == day
    && l.cycle != OtherCycle && i.period == Some(PeriodKey(l.cycle, day)) && i.description == Some(Description(id, l.cycle))
  }

  lemma VatOfProduct(product: int)
    requires product >= 0
    ensures HalfUp(product) >= 0 && -10000 < 2 * (10000 * HalfUp(product) - product) <= 10000
  {
    HalfUpNearest(product, HalfUp(product));
  }

  lemma HookOnLines(subtotal: nat, vat: nat, rate: Rate)
    ensures var total := subtotal + vat;
      Invoices.CoerceLegacy(Invoices.NewAmounts(Some(total as real), Some(subtotal), Some(vat), Some(total), Some(rate)))
        == Invoices.NewAmounts(Some(total as real), Some(subtotal), Some(vat), Some(total), Some(if total == 0 then 0 else rate))
  {
  }

  lemma ProductNotNegative(rent: nat, rate: Rate)
    requires rate >= 0
    ensures rent * rate >= 0
  {
  }

  lemma HookedRent(rent: nat, rate: Rate)
    requires rate >= 0
    ensures var vat := HalfUp(rent * rate);
      && vat >= 0 && -10000 < 2 * (10000 * vat - rent * rate) <= 10000
      && Invoices.CoerceLegacy(Invoices.AmountsOf(rent, rate))
           == Invoices.NewAmounts(Some((rent + vat) as real), Some(rent), Some(vat), Some(rent + vat),
                                  Some(if rent + vat == 0 then 0 else rate))
  {
    ProductNotNegative(rent, rate);
    VatOfProduct(rent * rate);
    HookOnLines(rent, HalfUp(rent * rate), rate);
  }

  // The columns the biller's row gets.
  function ChargedAmounts(rent: nat, rate: Rate): Invoices.NewAmounts {
    var vat := HalfUp(rent * rate);
    Invoices.NewAmounts(Some((rent + vat) as real), Some(rent), Some(vat), Some(rent + vat),
                        Some(if rent + vat == 0 then 0 else rate))
  }

  lemma BillRowIs(l: Leases.Lease, id: nat, day: Date, rate: Rate)
    requires l.cycle != OtherCycle && rate >= 0
    ensures Invoices.Accepts(LeaseInvoice(l, id, day), Invoices.Found(id, l.guest))
    ensures Invoices.ConsistentNew(ChargedAmounts(l.rent, rate))
    ensures BillRow(l, id, day, rate)
         == Invoices.RowOf(LeaseInvoice(l, id, day), Invoices.Found(id, l.guest), ChargedAmounts(l.rent, rate))
  {
    RentParses(l.rent);
    HookedRent(l.rent, rate);
    Invoices.CreateThroughHook(LeaseInvoice(l, id, day), Invoices.Found(id, l.guest), rate, ChargedAmounts(l.rent, rate));
  }

  lemma BillCharges(l: Leases.Lease, id: nat, day: Date, rate: Rate)
    requires l.cycle != OtherCycle && rate >= 0
    ensures Charges(BillRow(l, id, day, rate), l, id, day, rate)
  {
    BillRowIs(l, id, day, rate);
    HookedRent(l.rent, rate);
  }

  lemma {:induction false} NewBillRows(s: State, day: Date, order: seq<nat>, outcomes: seq<Outcome>, rate: Rate, n: nat, k: nat)
    requires Known(s, order) && n <= |order| == |outcomes|
    requires |s.log| <= k < |BillFirst(s, day, order, outcomes, rate, n).log|
    ensures var t := BillFirst(s, day, order, outcomes, rate, n);
            var b := t.log[k];
      && b.lease in s.leases && s.leases[b.lease].cycle != OtherCycle
      && b.invoice < t.nextInvoice && b.invoice in t.invoices
      && t.invoices[b.invoice] == BillRow(s.leases[b.lease], b.lease, day, rate)
  {
    if n > 0 {
      var t := BillFirst(s, day, order, outcomes, rate, n - 1);
      assert BillFirst(s, day, order, outcomes, rate, n) == BillOne(t, order[n - 1], day, outcomes[n - 1], rate);
      if k < |t.log| {
        NewBillRows(s, day, order, outcomes, rate, n - 1, k);
      }
    }
  }

  // Over every history, every invoice a run of the biller adds charges the rent its lease has at that moment.
  lemma NewBillsCharge(states: seq<State>, ops: seq<Op>, n: nat, k: nat)
    requires Run(states, ops) && n < |ops| && ops[n].RunBiller? && ops[n].rate >= 0
    requires |states[n].log| <= k < |states[n + 1].log|
    ensures var s, s', b := states[n], states[n + 1], states[n + 1].log[k];
      && b.lease in s.leases && b.invoice in s'.invoices && b.invoice !in s.invoices
      && s.leases[b.lease].status == Leases.Active && b.day == ops[n].runDate && b.cycle == s.leases[b.lease].cycle
      && Charges(s'.invoices[b.invoice], s.leases[b.lease], b.lease, ops[n].runDate, ops[n].rate)
  {
    RunInvariant(states, ops, n);
    var s, op := states[n], ops[n];
    NewBills(s, op.runDate, op.order, op.outcomes, op.rate, |op.order|, k);
    NewBillRows(s, op.runDate, op.order, op.outcomes, op.rate, |op.order|, k);
    NewBillIds(s, op.runDate, op.order, op.outcomes, op.rate, |op.order|, k);
    BillCharges(s.leases[states[n + 1].log[k].lease], states[n + 1].log[k].lease, op.runDate, op.rate);
  }

  // A new bill has a new number and belongs to a lease the run visits.
  lemma {:induction false} NewBillIds(s: State, day: Date, order: seq<nat>, outcomes: seq<Outcome>, rate: Rate, n: nat, k: nat)
    requires Known(s, order) && n <= |order| == |outcomes|
    requires |s.log| <= k < |BillFirst(s, day, order, outcomes, rate, n).log|
    ensures s.nextInvoice <= BillFirst(s, day, order, outcomes, rate, n).log[k].invoice
    ensures BillFirst(s, day, order, outcomes, rate, n).log[k].lease in order
  {
    if n > 0 {
      var t := BillFirst(s, day, order, outcomes, rate, n - 1);
      assert BillFirst(s, day, order, outcomes, rate, n) == BillOne(t, order[n - 1], day, outcomes[n - 1], rate);
      if k < |t.log| {
        NewBillIds(s, day, order, outcomes, rate, n - 1, k);
      } else {
        IdsGrow(s, day, order, outcomes, rate, n - 1);
      }
    }
  }

  lemma {:induction false} IdsGrow(s: State, day: Date, order: seq<nat>, outcomes: seq<Outcome>, rate: Rate, n: nat)
    requires Known(s, order) && n <= |order| == |outcomes|
    ensures s.nextInvoice <= BillFirst(s, day, order, outcomes, rate, n).nextInvoice
  {
    if n > 0 {
      IdsGrow(s, day, order, outcomes, rate, n - 1);
    }
  }

  // When a billed period is billed again. In every history, for every bill b in the log and every run of the biller
  // whose day has the key of b's period: the run bills the lease once more if and only if the lease is active, the day
  // is due, and no invoice of the organization carries the lease with that period any longer, or, for a one-time
  // lease, no invoice carries the lease at all.
  lemma BilledAgainIff(states: seq<State>, ops: seq<Op>, n: nat, k: nat,
                       day: Date, order: seq<nat>, outcomes: seq<Outcome>, rate: Rate)
    requires Run(states, ops) && n < |states| && k < |states[n].log|
    requires Enabled(states[n], RunBiller(day, order, outcomes, rate))
    requires forall i :: 0 <= i < |order| && order[i] == states[n].log[k].lease ==> outcomes[i] != FailsBeforeCommit
    ensures var s, b := states[n], states[n].log[k];
      && b.lease in s.leases && b.cycle != OtherCycle && b.cycle == s.leases[b.lease].cycle
      && (PeriodKey(b.cycle, day) == PeriodKey(b.cycle, b.day) ==>
            (Billed(Next(s, RunBiller(day, order, outcomes, rate)).log, |s.log|, b.lease) <==>
               var org := s.leases[b.lease].org;
               && s.leases[b.lease].status == Leases.Active && Due(b.cycle, day)
               && NoneCarries(s.invoices, org, b.lease, Some(PeriodKey(b.cycle, b.day)))
               && (b.cycle == OneTime ==> NoneCarries(s.invoices, org, b.lease, None))))
  {
    RunInvariant(states, ops, n);
    assert BillOk(states[n], states[n].log[k]);
    RunBillsIff(states[n], day, order, outcomes, rate, states[n].log[k].lease);
  }

  // Taking the period out of an invoice makes its lease billable again on the same day.
  lemma ClearedPeriodIsDueAgain(s: State, id: nat, day: Date, rate: Rate, p: Invoices.Patch)
    requires Inv(s) && id in s.leases && ShouldBill(s, id, day) && s.leases[id].cycle != OneTime
    requires Invoices.OnlyTextKeys(p, false) && p.period == Some(None)
    ensures var x, first := s.nextInvoice, AddBill(s, id, day, rate);
      && Enabled(first, ChangeInvoice(x, Invoices.Updating(p, rate)))
      && var edited := Next(first, ChangeInvoice(x, Invoices.Updating(p, rate)));
         ShouldBill(edited, id, day) && edited.log == first.log && edited.leases == s.leases
         && edited.nextInvoice == x + 1 && x in edited.touched
  {
    var l, x, first := s.leases[id], s.nextInvoice, AddBill(s, id, day, rate);
    var edited := Next(first, ChangeInvoice(x, Invoices.Updating(p, rate)));
    assert Invoices.Update(first.invoices[x], p, rate).Some?;
    assert edited.invoices == first.invoices[x := edited.invoices[x]] && edited.invoices[x].period == None;
    forall y | y in edited.invoices
      ensures !Carries(edited.invoices[y], l.org, id, Some(PeriodKey(l.cycle, day)))
    {
      assert y != x ==> y in s.invoices && edited.invoices[y] == s.invoices[y];
    }
  }

  lemma TwoBills(s: State, edited: State, id: nat, day: Date, rate: Rate)
    requires id in s.leases && ShouldBill(s, id, day) && edited.leases == s.leases && ShouldBill(edited, id, day)
    requires edited.log == AddBill(s, id, day, rate).log && edited.nextInvoice == s.nextInvoice + 1
    ensures var x := s.nextInvoice;
      BillOne(edited, id, day, Fine, rate).log
        == s.log + [Bill(x, id, s.leases[id].cycle, day), Bill(x + 1, id, s.leases[id].cycle, day)]
  {
  }

  // An edit of the metadata lets the biller bill the same lease twice for one day.
  lemma EditAllowsDoubleBilling(s: State, id: nat, day: Date, rate: Rate, p: Invoices.Patch)
    requires Inv(s) && id in s.leases && ShouldBill(s, id, day) && s.leases[id].cycle != OneTime
    requires Invoices.OnlyTextKeys(p, false) && p.period == Some(None)
    ensures var x := s.nextInvoice;
      var first := BillOne(s, id, day, Fine, rate);
      var edit := ChangeInvoice(x, Invoices.Updating(p, rate));
      && Enabled(first, edit)
      && var second := BillOne(Next(first, edit), id, day, Fine, rate);
        && x in Next(first, edit).touched
        && second.log == s.log + [Bill(x, id, s.leases[id].cycle, day), Bill(x + 1, id, s.leases[id].cycle, day)]
  {
    ClearedPeriodIsDueAgain(s, id, day, rate, p);
    TwoBills(s, Next(AddBill(s, id, day, rate), ChangeInvoice(s.nextInvoice, Invoices.Updating(p, rate))), id, day, rate);
  }

  /******* A history that bills one day twice *******/

  lemma Extend(states: seq<State>, ops: seq<Op>, op: Op) returns (states': seq<State>, ops': seq<Op>)
    requires Run(states, ops) && Enabled(states[|ops|], op)
    ensures Run(states', ops') && |ops'| == |ops| + 1 && states'[|ops'|] == Next(states[|ops|], op)
  {
    states', ops' := states + [Next(states[|ops|], op)], ops + [op];
    forall i | 0 <= i < |ops'| ensures Enabled(states'[i], ops'[i]) && states'[i + 1] == Next(states'[i], ops'[i]) {
      if i < |ops| {
        assert states'[i] == states[i] && states'[i + 1] == states[i + 1] && ops'[i] == ops[i];
      }
    }
  }

  lemma RunOfOne(s: State, day: Date, id: nat, rate: Rate)
    requires s.leases.Keys == {id} && s.leases[id].status == Leases.Active && ValidDate(day)
    ensures Enabled(s, RunBiller(day, [id], [Fine], rate))
    ensures Next(s, RunBiller(day, [id], [Fine], rate)) == BillOne(s, id, day, Fine, rate)
  {
    assert BillFirst(s, day, [id], [Fine], rate, 0) == s;
  }

  // A monthly lease is made and activated.
  lemma OneActiveLease(day: Date) returns (states: seq<State>, ops: seq<Op>)
    requires ValidDate(day)
    ensures Run(states, ops)
    ensures var s := states[|ops|];
      && s.leases.Keys == {1} && s.leases[1].status == Leases.Active && s.leases[1].cycle == Monthly
      && s.invoices == map[] && s.log == [] && s.nextInvoice == 1
  {
    var n := Leases.NewLease(1, Leases.To(1), Leases.To(1), Leases.Clear, Leases.Day(day), Leases.BlankDate,
                             Number(0.0), Blank, Monthly, None);
    states, ops := [State(map[], map[], 1, 1, day, [], {})], [];
    RentParses(0);
    assert Leases.Create(n).Some?;
    states, ops := Extend(states, ops, CreateLease(n));
    states, ops := Extend(states, ops, ChangeLease(1, Leases.Activating));
  }

  // A billed lease, the edit and the second run, as three operations.
  lemma BillEditBill(s: State, day: Date, p: Invoices.Patch)
    requires Inv(s) && s.leases.Keys == {1} && s.leases[1].status == Leases.Active && ValidDate(day)
    requires ShouldBill(s, 1, day) && s.leases[1].cycle == Monthly && s.nextInvoice == 1 && s.log == []
    requires Invoices.OnlyTextKeys(p, false) && p.period == Some(None)
    ensures var run, edit := RunBiller(day, [1], [Fine], 0), ChangeInvoice(1, Invoices.Updating(p, 0));
      && Enabled(s, run) && Enabled(Next(s, run), edit)
      && var edited := Next(Next(s, run), edit);
         Enabled(edited, run) && Next(edited, run).log == [Bill(1, 1, Monthly, day), Bill(2, 1, Monthly, day)]
  {
    RunOfOne(s, day, 1, 0);
    ClearedPeriodIsDueAgain(s, 1, day, 0, p);
    var edited := Next(AddBill(s, 1, day, 0), ChangeInvoice(1, Invoices.Updating(p, 0)));
    RunOfOne(edited, day, 1, 0);
    TwoBills(s, edited, 1, day, 0);
  }

  // From empty tables, on any first of a month: the lease is billed, the period is edited out of the invoice, and the
  // biller bills the lease for the same day again.
  lemma DoubleBillingHappens(day: Date) returns (states: seq<State>, ops: seq<Op>)
    requires ValidDate(day) && day.day == 1
    ensures Run(states, ops)
    ensures states[|ops|].log == [Bill(1, 1, Monthly, day), Bill(2, 1, Monthly, day)]
  {
    states, ops := OneActiveLease(day);
    RunInvariant(states, ops, |ops|);
    var p := Invoices.Patch(None, Some(None), None, None, None, None, None, None, None, None, false);
    BillEditBill(states[|ops|], day, p);
    states, ops := Extend(states, ops, RunBiller(day, [1], [Fine], 0));
    states, ops := Extend(states, ops, ChangeInvoice(1, Invoices.Updating(p, 0)));
    states, ops := Extend(states, ops, RunBiller(day, [1], [Fine], 0));
  }

  /******* What one run of the biller does *******/

  ghost predicate NoFailures(outcomes: seq<Outcome>) {
    forall i :: 0 <= i < |outcomes| ==> outcomes[i] != FailsBeforeCommit
  }

  lemma BilledStaysBilled(s: State, id: nat, other: nat, day: Date, outcome: Outcome, rate: Rate)
    requires Numbered(s) && id in s.leases && other in s.leases && !ShouldBill(s, id, day)
    ensures !ShouldBill(BillOne(s, other, day, outcome, rate), id, day)
  {
    var s' := BillOne(s, other, day, outcome, rate);
    var l := s.leases[id];
    if l.cycle != OtherCycle && Due(l.cycle, day) {
      forall x, period | x in s.invoices && Carries(s.invoices[x], l.org, id, period)
        ensures x in s'.invoices && Carries(s'.invoices[x], l.org, id, period)
      {
      }
    }
  }

  lemma NowBilled(s: State, id: nat, day: Date, outcome: Outcome, rate: Rate)
    requires id in s.leases && outcome != FailsBeforeCommit
    ensures !ShouldBill(BillOne(s, id, day, outcome, rate), id, day)
  {
    if ShouldBill(s, id, day) {
      var s' := AddBill(s, id, day, rate);
      assert s.nextInvoice in s'.invoices;
      assert Carries(s'.invoices[s.nextInvoice], s.leases[id].org, id, Some(PeriodKey(s.leases[id].cycle, day)));
    }
  }

  // The lease at position i is still to be billed after the first n leases of the run.
  ghost predicate StillToBill(s: State, day: Date, order: seq<nat>, outcomes: seq<Outcome>, rate: Rate, n: nat, i: nat)
    requires Known(s, order) && i < |order| == |outcomes| && n <= |order|
  {
    ShouldBill(BillFirst(s, day, order, outcomes, rate, n), order[i], day)
  }

  lemma BilledAtItsTurn(s: State, day: Date, order: seq<nat>, outcomes: seq<Outcome>, rate: Rate, i: nat)
    requires Numbered(s) && Known(s, order) && i < |order| == |outcomes| && outcomes[i] != FailsBeforeCommit
    ensures !StillToBill(s, day, order, outcomes, rate, i + 1, i)
  {
    var t := BillFirst(s, day, order, outcomes, rate, i);
    assert BillFirst(s, day, order, outcomes, rate, i + 1) == BillOne(t, order[i], day, outcomes[i], rate);
    NowBilled(t, order[i], day, outcomes[i], rate);
  }

  lemma BilledLaterToo(s: State, day: Date, order: seq<nat>, outcomes: seq<Outcome>, rate: Rate, n: nat, i: nat)
    requires Numbered(s) && Known(s, order) && i < n < |order| == |outcomes|
    requires !StillToBill(s, day, order, outcomes, rate, n, i)
    ensures !StillToBill(s, day, order, outcomes, rate, n + 1, i)
  {
    BillFirstNumbered(s, day, order, outcomes, rate, n);
    var t := BillFirst(s, day, order, outcomes, rate, n);
    assert BillFirst(s, day, order, outcomes, rate, n + 1) == BillOne(t, order[n], day, outcomes[n], rate);
    BilledStaysBilled(t, order[i], order[n], day, outcomes[n], rate);
  }

  lemma {:induction false} RunBillsAll(s: State, day: Date, order: seq<nat>, outcomes: seq<Outcome>, rate: Rate, n: nat, i: nat)
    requires Numbered(s) && Known(s, order) && i < n <= |order| == |outcomes| && NoFailures(outcomes)
    ensures !StillToBill(s, day, order, outcomes, rate, n, i)
    decreases n
  {
    if i == n - 1 {
      BilledAtItsTurn(s, day, order, outcomes, rate, i);
    } else {
      RunBillsAll(s, day, order, outcomes, rate, n - 1, i);
      BilledLaterToo(s, day, order, outcomes, rate, n - 1, i);
    }
  }

  lemma {:induction false} NothingDue(s: State, day: Date, order: seq<nat>, outcomes: seq<Outcome>, rate: Rate, n: nat)
    requires n <= |order| == |outcomes| && forall i :: 0 <= i < |order| ==> order[i] in s.leases && !ShouldBill(s, order[i], day)
    ensures BillFirst(s, day, order, outcomes, rate, n) == s
    ensures CountFirst(s, day, order, outcomes, rate, n) == Summary(0, n, 0)
  {
    if n > 0 {
      NothingDue(s, day, order, outcomes, rate, n - 1);
    }
  }

  // A second run for the same day finds nothing to do, whatever the order, when no invoice failed before its commit
  // in the first.
  lemma RerunIsNoOp(s: State, day: Date, order: seq<nat>, outcomes: seq<Outcome>, rate: Rate,
                    order': seq<nat>, outcomes': seq<Outcome>, rate': Rate)
    requires Inv(s) && Enabled(s, RunBiller(day, order, outcomes, rate)) && NoFailures(outcomes)
    requires Enabled(Next(s, RunBiller(day, order, outcomes, rate)), RunBiller(day, order', outcomes', rate'))
    ensures var s' := Next(s, RunBiller(day, order, outcomes, rate));
      && Next(s', RunBiller(day, order', outcomes', rate')) == s'
      && CountFirst(s', day, order', outcomes', rate', |order'|) == Summary(0, |order'|, 0)
  {
    var s' := Next(s, RunBiller(day, order, outcomes, rate));
    forall i | 0 <= i < |order'| ensures order'[i] in s'.leases && !ShouldBill(s', order'[i], day) {
      assert order'[i] in order;
      var k :| 0 <= k < |order| && order[k] == order'[i];
      RunBillsAll(s, day, order, outcomes, rate, |order|, k);
    }
    NothingDue(s', day, order', outcomes', rate', |order'|);
  }

  // Every active lease is counted once. An invoice whose follow-up failed after the commit exists, and yet its lease
  // is counted as skipped: created + errors bounds the new invoices from above, created from below.
  lemma {:induction false} RunAccounting(s: State, day: Date, order: seq<nat>, outcomes: seq<Outcome>, rate: Rate, n: nat)
    requires n <= |order| == |outcomes| && forall i :: 0 <= i < |order| ==> order[i] in s.leases
    ensures var t, c := BillFirst(s, day, order, outcomes, rate, n), CountFirst(s, day, order, outcomes, rate, n);
      && c.created + c.skipped == n && c.errors <= c.skipped
      && c.created <= |t.log| - |s.log| <= c.created + c.errors
      && t.nextInvoice - s.nextInvoice == |t.log| - |s.log|
      && ((forall i :: 0 <= i < n ==> outcomes[i] == Fine) ==> |t.log| - |s.log| == c.created)
  {
    if n > 0 {
      RunAccounting(s, day, order, outcomes, rate, n - 1);
    }
  }

  /******* Histories of single rows *******/

  ghost predicate InvoiceEvolves(i: Invoices.Invoice, j: Invoices.Invoice) {
    && Invoices.MayBecome(i.status, j.status) && i.org == j.org
    && (!Invoices.Editable(i.status) ==> Invoices.SameMoneyAndDue(i, j))
    && (Invoices.Settled(i.status) ==> j.paidAt == i.paidAt)
  }

  lemma InvoiceStep(s: State, op: Op, x: nat)
    requires Inv(s) && Enabled(s, op) && x in s.invoices
    ensures x in Next(s, op).invoices && InvoiceEvolves(s.invoices[x], Next(s, op).invoices[x])
  {
    match op
    case ChangeInvoice(id, c) => Invoices.ChangeKeeps(s.invoices[id], c);
    case ChaseOverdue(org) => Invoices.ChangeKeeps(s.invoices[x], Invoices.Chasing(org, s.today));
    case RunBiller(day, order, outcomes, rate) => BillerLeavesInvoices(s, day, order, outcomes, rate, |order|, x);
    case _ =>
  }

  lemma {:induction false} BillerLeavesInvoices(s: State, day: Date, order: seq<nat>, outcomes: seq<Outcome>, rate: Rate, n: nat, x: nat)
    requires Inv(s) && ValidDate(day) && ActiveOrder(s, order) && n <= |order| == |outcomes| && x in s.invoices
    ensures var t := BillFirst(s, day, order, outcomes, rate, n); x in t.invoices && t.invoices[x] == s.invoices[x]
    ensures s.nextInvoice <= BillFirst(s, day, order, outcomes, rate, n).nextInvoice
  {
    if n > 0 {
      BillerLeavesInvoices(s, day, order, outcomes, rate, n - 1, x);
    }
  }

  // Paid and cancelled are final, money and due date are frozen once the invoice is neither draft nor open, and no
  // operation opens a draft: a draft invoice is never paid.
  lemma {:induction false} InvoiceHistory(states: seq<State>, ops: seq<Op>, m: nat, n: nat, x: nat)
    requires Run(states, ops) && m <= n < |states| && x in states[m].invoices
    ensures x in states[n].invoices && InvoiceEvolves(states[m].invoices[x], states[n].invoices[x])
    ensures Invoices.InvoiceOk(states[n].invoices[x])
    decreases n - m
  {
    RunInvariant(states, ops, n);
    if m < n {
      RunInvariant(states, ops, m);
      InvoiceStep(states[m], ops[m], x);
      InvoiceHistory(states, ops, m + 1, n, x);
      Invoices.StatusesTransitive(states[m].invoices[x].status, states[m + 1].invoices[x].status,
                                  states[n].invoices[x].status);
    }
  }

  // Every invoice of every history has exact amounts, VAT within half a cent of the subtotal times the rate, and, for
  // rates from 0 to 100, VAT between nothing and the subtotal.
  lemma ReachableAmounts(states: seq<State>, ops: seq<Op>, n: nat, x: nat)
    requires Run(states, ops) && n < |states| && x in states[n].invoices
    ensures var i := states[n].invoices[x];
      && 0 <= i.subtotal && i.amount == i.total == i.subtotal + i.vat
      && 2 * Abs(FULL_RATE * i.vat - i.subtotal * i.rate) <= FULL_RATE
      && (0 <= i.rate <= FULL_RATE ==> 0 <= i.vat <= i.subtotal)
  {
    RunInvariant(states, ops, n);
    var i := states[n].invoices[x];
    VatWithinHalfCent(i.subtotal, i.rate);
    if 0 <= i.rate <= FULL_RATE {
      Invoices.VatWithinSubtotal(i);
    }
  }

  // And between any two of them, the one with no less subtotal and no less rate has no less VAT and no less total.
  lemma ReachableVatMonotone(states: seq<State>, ops: seq<Op>, m: nat, n: nat, x: nat, y: nat)
    requires Run(states, ops) && m < |states| && n < |states| && x in states[m].invoices && y in states[n].invoices
    requires states[m].invoices[x].subtotal <= states[n].invoices[y].subtotal
    requires 0 <= states[m].invoices[x].rate <= states[n].invoices[y].rate
    ensures states[m].invoices[x].vat <= states[n].invoices[y].vat && states[m].invoices[x].total <= states[n].invoices[y].total
  {
    RunInvariant(states, ops, m);
    RunInvariant(states, ops, n);
    var i, j := states[m].invoices[x], states[n].invoices[y];
    VatMonotone(i.subtotal, i.rate, j.subtotal, j.rate);
  }

  lemma LeaseStep(s: State, op: Op, id: nat)
    requires Inv(s) && Enabled(s, op) && id in s.leases
    ensures id in Next(s, op).leases && Leases.Frozen(s.leases[id], Next(s, op).leases[id])
  {
    if op.ChangeLease? {
      Leases.ChangeKeeps(s.leases[op.lease], op.leaseChange);
    }
  }

  lemma {:induction false} LeaseHistory(states: seq<State>, ops: seq<Op>, m: nat, n: nat, id: nat)
    requires Run(states, ops) && m <= n < |states| && id in states[m].leases
    ensures id in states[n].leases && Leases.Frozen(states[m].leases[id], states[n].leases[id])
    ensures Leases.DatesOk(states[n].leases[id])
    decreases n - m
  {
    RunInvariant(states, ops, n);
    if m < n {
      RunInvariant(states, ops, m);
      LeaseStep(states[m], ops[m], id);
      LeaseHistory(states, ops, m + 1, n, id);
    }
  }

  // Every overdue invoice is past its due date, and a second pass on the same day changes nothing.
  lemma OverdueIsPastDue(states: seq<State>, ops: seq<Op>, n: nat, x: nat, org: Option<int>)
    requires Run(states, ops) && n < |states| && x in states[n].invoices
    ensures states[n].invoices[x].status == Invoices.Overdue ==> Before(states[n].invoices[x].due, states[n].today)
    ensures var once := Next(states[n], ChaseOverdue(org)); Next(once, ChaseOverdue(org)) == once
  {
    RunInvariant(states, ops, n);
    var s := states[n];
    var once := Chase(s.invoices, org, s.today);
    var twice := Chase(once, org, s.today);
    forall y | y in once ensures twice[y] == once[y] {
    }
    assert twice == once;
  }
}
