/**
  Leases, invoices and the periodic biller in one state machine. Biller runs are serial: the source takes no lock
  around them, and neither does this model allow two at once.
 */
module Billing {
  import opened Wrappers
  import opened Calendar
  import opened Money
  import opened PeriodKeys
  import Leases
  import Invoices

  // History: one automatic invoice.
  datatype Bill = Bill(invoice: nat, lease: nat, cycle: Cycle, day: Date)

  // log and touched are history: the automatic invoices so far, and the invoices to which an edit through
  // update_invoice_limited has given another lease or another billing period.
  datatype State = State(
    leases: map<nat, Leases.Lease>,
    invoices: map<nat, Invoices.Invoice>,
    nextLease: nat,
    nextInvoice: nat,
    today: Date,
    log: seq<Bill>,
    touched: set<nat>)

  // How create_invoice and what follows it ended for one lease.
  datatype Outcome = Fine | FailsBeforeCommit | FailsAfterCommit

  datatype Summary = Summary(created: nat, skipped: nat, errors: nat)

  /******* The biller *******/

  ghost predicate Carries(i: Invoices.Invoice, org: int, lease: nat, period: Option<string>) {
    i.org == org && i.lease == Some(lease) && (period.Some? ==> i.period == period)
  }

  // No invoice of the organization carries the lease, and the period if one is given.
  ghost predicate NoneCarries(invoices: map<nat, Invoices.Invoice>, org: int, lease: nat, period: Option<string>) {
    forall x :: x in invoices ==> !Carries(invoices[x], org, lease, period)
  }

  ghost predicate ShouldBill(s: State, id: nat, day: Date)
    requires id in s.leases
  {
    var l := s.leases[id];
    && l.cycle != OtherCycle && Due(l.cycle, day)
    && NoneCarries(s.invoices, l.org, id, Some(PeriodKey(l.cycle, day)))
    && (l.cycle == OneTime ==> NoneCarries(s.invoices, l.org, id, None))
  }

  function DecimalText(n: nat): string {
    if n < 10 then [Digit(n)] else DecimalText(n / 10) + [Digit(n)]
  }

  function Description(id: nat, cycle: Cycle): string {
    var name := match cycle
      case Monthly => "monthly"
      case Weekly => "weekly"
      case _ => "one_time";
    "Lease #" + DecimalText(id) + " (" + name + ")"
  }

  lemma DescriptionAsWritten()
    ensures Description(12, Weekly) == "Lease #12 (weekly)" && Description(7, OneTime) == "Lease #7 (one_time)"
    ensures Description(105, Monthly) == "Lease #105 (monthly)"
  {
    assert DecimalText(12) == "12" && DecimalText(7) == "7" && DecimalText(10) == "10";
    assert DecimalText(105) == DecimalText(10) + "5";
  }

  // The request the biller makes of create_invoice. That the lease has no actor, or that its guest or reservation is no
  // longer found, is one of the ways to fail before the commit.
  function LeaseInvoice(l: Leases.Lease, id: nat, day: Date): Invoices.NewInvoice
    requires l.cycle != OtherCycle
  {
    Invoices.NewInvoice(l.org, true, Some(Invoices.Open), Number(l.rent as real / 100.0), Blank, Some(day), Some("EUR"),
                        Some(id), if l.reservation.Some? then Invoices.To(l.reservation.value) else Invoices.Clear,
                        Invoices.To(l.guest), Some(Description(id, l.cycle)), Some(PeriodKey(l.cycle, day)))
  }

  lemma RentParses(rent: nat)
    ensures ParseAmount(Number(rent as real / 100.0)) == Some(rent)
  {
    assert rent as real / 100.0 * 100.0 == rent as real;
  }

  lemma BillAccepted(l: Leases.Lease, id: nat, day: Date, rate: Rate)
    requires l.cycle != OtherCycle
    ensures Invoices.Create(LeaseInvoice(l, id, day), Invoices.Found(id, l.guest), rate).Some?
  {
    RentParses(l.rent);
  }

  // The invoice the biller makes.
  function BillRow(l: Leases.Lease, id: nat, day: Date, rate: Rate): (i: Invoices.Invoice)
    requires l.cycle != OtherCycle
    ensures i.status == Invoices.Open && i.due == day
    ensures i.org == l.org && i.lease == Some(id) && i.guest == Some(l.guest) && i.period == Some(PeriodKey(l.cycle, day))
  {
    BillAccepted(l, id, day, rate);
    Invoices.Create(LeaseInvoice(l, id, day), Invoices.Found(id, l.guest), rate).value
  }

  lemma BillRowOk(l: Leases.Lease, id: nat, day: Date, rate: Rate)
    requires l.cycle != OtherCycle
    ensures Invoices.InvoiceOk(BillRow(l, id, day, rate))
  {
    BillAccepted(l, id, day, rate);
    Invoices.CreateOk(LeaseInvoice(l, id, day), Invoices.Found(id, l.guest), rate);
  }

  function AddBill(s: State, id: nat, day: Date, rate: Rate): State
    requires id in s.leases && s.leases[id].cycle != OtherCycle
  {
    var l := s.leases[id];
    s.(invoices := s.invoices[s.nextInvoice := BillRow(l, id, day, rate)],
       nextInvoice := s.nextInvoice + 1,
       log := s.log + [Bill(s.nextInvoice, id, l.cycle, day)])
  }

  ghost function BillOne(s: State, id: nat, day: Date, outcome: Outcome, rate: Rate): State
    requires id in s.leases
  {
    if ShouldBill(s, id, day) && outcome != FailsBeforeCommit then AddBill(s, id, day, rate) else s
  }

  ghost function Count(summary: Summary, s: State, id: nat, day: Date, outcome: Outcome): Summary
    requires id in s.leases
  {
    if !ShouldBill(s, id, day) then summary.(skipped := summary.skipped + 1)
    else if outcome == Fine then summary.(created := summary.created + 1)
    else summary.(skipped := summary.skipped + 1, errors := summary.errors + 1)
  }

  // The state after the first n leases of the run.
  ghost function BillFirst(s: State, day: Date, order: seq<nat>, outcomes: seq<Outcome>, rate: Rate, n: nat): (s': State)
    requires n <= |order| == |outcomes| && forall i :: 0 <= i < |order| ==> order[i] in s.leases
    ensures s'.leases == s.leases && s'.today == s.today && s'.nextLease == s.nextLease && s'.touched == s.touched
  {
    if n == 0 then s
    else BillOne(BillFirst(s, day, order, outcomes, rate, n - 1), order[n - 1], day, outcomes[n - 1], rate)
  }

  ghost function CountFirst(s: State, day: Date, order: seq<nat>, outcomes: seq<Outcome>, rate: Rate, n: nat): Summary
    requires n <= |order| == |outcomes| && forall i :: 0 <= i < |order| ==> order[i] in s.leases
  {
    if n == 0 then Summary(0, 0, 0)
    else Count(CountFirst(s, day, order, outcomes, rate, n - 1), BillFirst(s, day, order, outcomes, rate, n - 1),
               order[n - 1], day, outcomes[n - 1])
  }

  // The active leases, each once, in whatever order the query returns them.
  ghost predicate ActiveOrder(s: State, order: seq<nat>) {
    && (forall i, j :: 0 <= i < j < |order| ==> order[i] != order[j])
    && (forall i :: 0 <= i < |order| ==> order[i] in s.leases && s.leases[order[i]].status == Leases.Active)
    && (forall id :: id in s.leases && s.leases[id].status == Leases.Active ==> id in order)
  }

  /******* The operations *******/

  datatype Op =
    | NewDay(day: Date)
    | CreateLease(newLease: Leases.NewLease)
    | ChangeLease(lease: nat, leaseChange: Leases.Change)
    | CreateInvoice(newInvoice: Invoices.NewInvoice, defaultRate: Rate)
    | ChangeInvoice(invoice: nat, invoiceChange: Invoices.Change)
    | ChaseOverdue(org: Option<int>)
    | RunBiller(runDate: Date, order: seq<nat>, outcomes: seq<Outcome>, rate: Rate)

  predicate RefersOk(s: State, p: Option<Invoices.RefPatch>) {
    p.Some? && p.value.To? ==> p.value.id in s.leases
  }

  ghost predicate Enabled(s: State, op: Op) {
    match op
    case NewDay(day) => ValidDate(day) && !Before(day, s.today)
    case CreateLease(_) => true
    case ChangeLease(id, _) => id in s.leases
    case CreateInvoice(_, _) => true
    case ChangeInvoice(id, c) => id in s.invoices && !c.Chasing? && (c.Updating? ==> RefersOk(s, c.patch.lease))
    case ChaseOverdue(_) => true
    case RunBiller(day, order, outcomes, _) => ValidDate(day) && ActiveOrder(s, order) && |outcomes| == |order|
  }

  // The change gives the invoice another lease or another billing period.
  predicate Edits(i: Invoices.Invoice, c: Invoices.Change) {
    Invoices.Apply(i, c).lease != i.lease || Invoices.Apply(i, c).period != i.period
  }

  function FindLease(leases: map<nat, Leases.Lease>, org: int, lease: Option<nat>): Invoices.FoundLease {
    if lease.None? then Invoices.NoLease
    else if lease.value in leases && leases[lease.value].org == org then
      Invoices.Found(lease.value, leases[lease.value].guest)
    else Invoices.NotFound
  }

  function Chase(invoices: map<nat, Invoices.Invoice>, org: Option<int>, today: Date): map<nat, Invoices.Invoice> {
    map x | x in invoices :: Invoices.MarkOverdue(invoices[x], org, today)
  }

  function PastDueRows(invoices: map<nat, Invoices.Invoice>, org: Option<int>, today: Date): set<nat> {
    set x | x in invoices && Invoices.PastDue(invoices[x], org, today)
  }

  lemma FindLeasePlainly(leases: map<nat, Leases.Lease>, org: int, lease: Option<nat>)
    ensures FindLease(leases, org, lease) == Invoices.NoLease <==> lease == None
    ensures forall id, guest :: FindLease(leases, org, lease) == Invoices.Found(id, guest) <==>
      lease == Some(id) && id in leases && leases[id].org == org && leases[id].guest == guest
  {
  }

  lemma ChasedPointwise(before: map<nat, Invoices.Invoice>, after: map<nat, Invoices.Invoice>, org: Option<int>, today: Date)
    requires after.Keys == before.Keys
    requires forall x :: x in PastDueRows(before, org, today) ==> after[x] == before[x].(status := Invoices.Overdue)
    requires forall x :: x in before && x !in PastDueRows(before, org, today) ==> after[x] == before[x]
    ensures after == Chase(before, org, today)
  {
    var chased := Chase(before, org, today);
    forall x | x in before ensures after[x] == chased[x] {
    }
  }

  ghost function Next(s: State, op: Op): State
    requires Enabled(s, op)
  {
    match op
    case NewDay(day) => s.(today := day)
    case CreateLease(n) =>
      if Leases.Create(n).None? then s
      else s.(leases := s.leases[s.nextLease := Leases.Create(n).value], nextLease := s.nextLease + 1)
    case ChangeLease(id, c) => s.(leases := s.leases[id := Leases.Apply(s.leases[id], c)])
    case CreateInvoice(n, defaultRate) =>
      var row := Invoices.Create(n, FindLease(s.leases, n.org, n.lease), defaultRate);
      if row.None? then s
      else s.(invoices := s.invoices[s.nextInvoice := row.value], nextInvoice := s.nextInvoice + 1)
    case ChangeInvoice(id, c) =>
      s.(invoices := s.invoices[id := Invoices.Apply(s.invoices[id], c)],
         touched := if Edits(s.invoices[id], c) then s.touched + {id} else s.touched)
    case ChaseOverdue(org) => s.(invoices := Chase(s.invoices, org, s.today))
    case RunBiller(day, order, outcomes, rate) => BillFirst(s, day, order, outcomes, rate, |order|)
  }

  ghost predicate Init(s: State) {
    s.leases == map[] && s.invoices == map[] && s.log == [] && s.touched == {} && ValidDate(s.today)
  }

  ghost predicate Run(states: seq<State>, ops: seq<Op>) {
    && |states| == |ops| + 1 && Init(states[0])
    && forall i :: 0 <= i < |ops| ==> Enabled(states[i], ops[i]) && states[i + 1] == Next(states[i], ops[i])
  }

  /******* The invariant *******/

  ghost predicate RowsOk(s: State) {
    && (forall l :: l in s.leases ==> l < s.nextLease && Leases.LeaseOk(s.leases[l]))
    && (forall x :: x in s.invoices ==> x < s.nextInvoice && Invoices.InvoiceOk(s.invoices[x]))
  }

  ghost predicate OverdueOk(s: State) {
    forall x :: x in s.invoices && s.invoices[x].status == Invoices.Overdue ==> Before(s.invoices[x].due, s.today)
  }

  // What a bill says is still true of its lease, and of its invoice unless that was edited.
  ghost predicate BillOk(s: State, b: Bill) {
    && b.invoice in s.invoices && b.lease in s.leases && ValidDate(b.day)
    && b.cycle != OtherCycle && Due(b.cycle, b.day)
    && s.leases[b.lease].status != Leases.Draft && s.leases[b.lease].cycle == b.cycle
    && (b.invoice !in s.touched ==>
          Carries(s.invoices[b.invoice], s.leases[b.lease].org, b.lease, Some(PeriodKey(b.cycle, b.day))))
  }

  // No unedited older invoice of the lease has the period of the bill, and a one-time lease had no invoice.
  ghost predicate FirstForPeriod(s: State, b: Bill)
    requires BillOk(s, b)
  {
    forall x :: x in s.invoices && x < b.invoice && x !in s.touched
                && Carries(s.invoices[x], s.leases[b.lease].org, b.lease, None) ==>
      s.invoices[x].period != Some(PeriodKey(b.cycle, b.day)) && b.cycle != OneTime
  }

  ghost predicate LogOk(s: State) {
    && (forall k :: 0 <= k < |s.log| ==> BillOk(s, s.log[k]) && FirstForPeriod(s, s.log[k]))
    && (forall j, k :: 0 <= j < k < |s.log| ==> s.log[j].invoice < s.log[k].invoice)
  }

  ghost predicate Inv(s: State) {
    RowsOk(s) && OverdueOk(s) && LogOk(s) && ValidDate(s.today)
  }

  // What every operation does to the rows that are already there.
  ghost predicate RowsEvolve(s: State, s': State) {
    && (forall l :: l in s.leases ==> l in s'.leases && Leases.Frozen(s.leases[l], s'.leases[l]))
    && (forall x :: x in s.invoices ==>
          && x in s'.invoices && s'.invoices[x].org == s.invoices[x].org
          && (x !in s'.touched ==> s'.invoices[x].lease == s.invoices[x].lease && s'.invoices[x].period == s.invoices[x].period))
    && (forall x :: x in s'.invoices && x !in s.invoices ==> s.nextInvoice <= x)
    && s.touched <= s'.touched
  }

  lemma LogSurvives(s: State, s': State)
    requires RowsOk(s) && LogOk(s) && RowsEvolve(s, s') && s'.log == s.log
    ensures LogOk(s')
  {
    forall k | 0 <= k < |s'.log| ensures BillOk(s', s'.log[k]) && FirstForPeriod(s', s'.log[k]) {
      BillSurvives(s, s', s.log[k]);
    }
  }

  lemma BillSurvives(s: State, s': State, b: Bill)
    requires RowsOk(s) && RowsEvolve(s, s') && BillOk(s, b) && FirstForPeriod(s, b)
    ensures BillOk(s', b) && FirstForPeriod(s', b)
  {
    assert Leases.Frozen(s.leases[b.lease], s'.leases[b.lease]);
    forall x | x in s'.invoices && x < b.invoice && x !in s'.touched
               && Carries(s'.invoices[x], s'.leases[b.lease].org, b.lease, None)
      ensures s'.invoices[x].period != Some(PeriodKey(b.cycle, b.day)) && b.cycle != OneTime
    {
      assert x in s.invoices && Carries(s.invoices[x], s.leases[b.lease].org, b.lease, None);
    }
  }

  lemma AddBillKeepsLog(s: State, id: nat, day: Date, rate: Rate)
    requires RowsOk(s) && LogOk(s)
    requires id in s.leases && s.leases[id].status == Leases.Active && ValidDate(day) && ShouldBill(s, id, day)
    ensures LogOk(AddBill(s, id, day, rate))
  {
    var s' := AddBill(s, id, day, rate);
    NewBillFirst(s, id, day, rate);
    assert RowsEvolve(s, s');
    forall k | 0 <= k < |s'.log| ensures BillOk(s', s'.log[k]) && FirstForPeriod(s', s'.log[k]) {
      if k < |s.log| {
        BillSurvives(s, s', s.log[k]);
      }
    }
    forall k | 0 <= k < |s.log| ensures s.log[k].invoice < s.nextInvoice {
      assert BillOk(s, s.log[k]);
    }
  }

  lemma AddBillKeeps(s: State, id: nat, day: Date, rate: Rate)
    requires Inv(s) && id in s.leases && s.leases[id].status == Leases.Active && ValidDate(day) && ShouldBill(s, id, day)
    ensures Inv(AddBill(s, id, day, rate))
  {
    AddBillKeepsLog(s, id, day, rate);
    BillRowOk(s.leases[id], id, day, rate);
  }

  lemma NewBillFirst(s: State, id: nat, day: Date, rate: Rate)
    requires RowsOk(s) && id in s.leases && s.leases[id].status == Leases.Active && ValidDate(day) && ShouldBill(s, id, day)
    ensures var b, s' := Bill(s.nextInvoice, id, s.leases[id].cycle, day), AddBill(s, id, day, rate);
      BillOk(s', b) && FirstForPeriod(s', b)
  {
    var s' := AddBill(s, id, day, rate);
    var l := s.leases[id];
    var key := PeriodKey(l.cycle, day);
    assert BillOk(s', Bill(s.nextInvoice, id, l.cycle, day));
    forall x | x in s'.invoices && x < s.nextInvoice && Carries(s'.invoices[x], l.org, id, None)
      ensures s'.invoices[x].period != Some(key) && l.cycle != OneTime
    {
      assert !Carries(s.invoices[x], l.org, id, Some(key));
    }
  }

  lemma {:induction false} BillFirstKeeps(s: State, day: Date, order: seq<nat>, outcomes: seq<Outcome>, rate: Rate, n: nat)
    requires Inv(s) && ValidDate(day) && ActiveOrder(s, order) && n <= |order| == |outcomes|
    ensures Inv(BillFirst(s, day, order, outcomes, rate, n))
  {
    if n > 0 {
      BillFirstKeeps(s, day, order, outcomes, rate, n - 1);
      var t := BillFirst(s, day, order, outcomes, rate, n - 1);
      if ShouldBill(t, order[n - 1], day) {
        assert order[n - 1] in order;
        AddBillKeeps(t, order[n - 1], day, rate);
      }
    }
  }

  lemma BeforeTransitive(d: Date, e: Date, f: Date)
    requires Before(d, e) && !Before(f, e)
    ensures Before(d, f)
  {
  }

  lemma NewDayKeeps(s: State, day: Date)
    requires Inv(s) && Enabled(s, NewDay(day))
    ensures Inv(Next(s, NewDay(day)))
  {
    var s' := Next(s, NewDay(day));
    forall x | x in s'.invoices && s'.invoices[x].status == Invoices.Overdue ensures Before(s'.invoices[x].due, day) {
      BeforeTransitive(s.invoices[x].due, s.today, day);
    }
    LogSurvives(s, s');
  }

  lemma ChaseKeeps(s: State, org: Option<int>)
    requires Inv(s)
    ensures Inv(Next(s, ChaseOverdue(org)))
  {
    var s' := Next(s, ChaseOverdue(org));
    forall x | x in s.invoices ensures Invoices.InvoiceOk(s'.invoices[x]) {
      Invoices.ChangeKeeps(s.invoices[x], Invoices.Chasing(org, s.today));
    }
    LogSurvives(s, s');
  }

  lemma ChangeLeaseKeeps(s: State, id: nat, c: Leases.Change)
    requires Inv(s) && id in s.leases
    ensures Inv(Next(s, ChangeLease(id, c)))
  {
    Leases.ChangeKeeps(s.leases[id], c);
    LogSurvives(s, Next(s, ChangeLease(id, c)));
  }

  lemma CreateInvoiceKeeps(s: State, n: Invoices.NewInvoice, defaultRate: Rate)
    requires Inv(s)
    ensures Inv(Next(s, CreateInvoice(n, defaultRate)))
  {
    var lease := FindLease(s.leases, n.org, n.lease);
    if Invoices.Create(n, lease, defaultRate).Some? {
      Invoices.CreateOk(n, lease, defaultRate);
    }
    LogSurvives(s, Next(s, CreateInvoice(n, defaultRate)));
  }

  lemma NextKeeps(s: State, op: Op)
    requires Inv(s) && Enabled(s, op)
    ensures Inv(Next(s, op))
  {
    match op
    case NewDay(day) => NewDayKeeps(s, day);
    case CreateLease(n) =>
      if Leases.Create(n).Some? {
        Leases.CreateOk(n);
      }
      LogSurvives(s, Next(s, op));
    case ChangeLease(id, c) => ChangeLeaseKeeps(s, id, c);
    case CreateInvoice(n, defaultRate) => CreateInvoiceKeeps(s, n, defaultRate);
    case ChangeInvoice(id, c) => ChangeInvoiceKeeps(s, id, c);
    case ChaseOverdue(org) => ChaseKeeps(s, org);
    case RunBiller(day, order, outcomes, rate) => BillFirstKeeps(s, day, order, outcomes, rate, |order|);
  }

  lemma ChangeInvoiceKeeps(s: State, id: nat, c: Invoices.Change)
    requires Inv(s) && Enabled(s, ChangeInvoice(id, c))
    ensures Inv(Next(s, ChangeInvoice(id, c)))
  {
    var s' := Next(s, ChangeInvoice(id, c));
    Invoices.ChangeKeeps(s.invoices[id], c);
    assert RowsEvolve(s, s') by {
      UneditedStays(s.invoices[id], c);
    }
    LogSurvives(s, s');
  }

  lemma UneditedStays(i: Invoices.Invoice, c: Invoices.Change)
    ensures !Edits(i, c) ==> Invoices.Apply(i, c).lease == i.lease && Invoices.Apply(i, c).period == i.period
    ensures Invoices.Apply(i, c).org == i.org
  {
  }

  lemma {:induction false} RunInvariant(states: seq<State>, ops: seq<Op>, n: nat)
    requires Run(states, ops) && n < |states|
    ensures Inv(states[n])
  {
    if n > 0 {
      RunInvariant(states, ops, n - 1);
      NextKeeps(states[n - 1], ops[n - 1]);
    }
  }
}
