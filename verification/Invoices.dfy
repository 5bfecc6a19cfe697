/** Invoices: creation with its insert hook, limited updates, and the status machine (app/billing). */
module Invoices {
  import opened Wrappers
  import opened Calendar
  import opened Money

  datatype Status = Draft | Open | Paid | Overdue | Cancelled

  // period is the "lease_billing_period" entry of metadata_json.
  datatype Invoice = Invoice(
    org: int,
    lease: Option<nat>,
    reservation: Option<nat>,
    guest: Option<nat>,
    amount: Cents,
    subtotal: Cents,
    vat: Cents,
    total: Cents,
    rate: Rate,
    currency: string,
    due: Date,
    status: Status,
    paidAt: Option<int>,
    description: Option<string>,
    period: Option<string>)

  predicate Settled(s: Status) {
    s == Paid || s == Cancelled
  }

  predicate Editable(s: Status) {
    s == Draft || s == Open
  }

  /******* The insert hook *******/

  // The amount columns of a row about to be inserted; amount is in cents, before it is rounded to whole ones.
  datatype NewAmounts = NewAmounts(
    amount: Option<real>, subtotal: Option<Cents>, vat: Option<Cents>, total: Option<Cents>, rate: Option<Rate>)

  function CoerceLegacy(a: NewAmounts): NewAmounts {
    if a.amount.None? then a
    else if a.total.None? || a.total.value == 0 then
      var cents := HalfEven(a.amount.value);
      NewAmounts(Some(cents as real), Some(cents), Some(0), Some(cents), Some(0))
    else a
  }

  // The hook as it runs: it assigns to the columns of the target row.
  class PendingInvoice {
    var amount: Option<real>
    var subtotal: Option<Cents>
    var vat: Option<Cents>
    var total: Option<Cents>
    var rate: Option<Rate>

    function Amounts(): NewAmounts
      reads this
    {
      NewAmounts(amount, subtotal, vat, total, rate)
    }

    constructor (a: NewAmounts)
      ensures Amounts() == a
    {
      amount, subtotal, vat, total, rate := a.amount, a.subtotal, a.vat, a.total, a.rate;
    }

    method CoerceLegacyAmountOnly()
      modifies this
      ensures Amounts() == CoerceLegacy(old(Amounts()))
    {
      if amount.None? {
        return;
      }
      if total.None? || total.value == 0 {
        var cents := HalfEven(amount.value);
        amount := Some(cents as real);
        total := Some(cents);
        subtotal := Some(cents);
        vat := Some(0);
        rate := Some(0);
      }
    }
  }

  predicate ConsistentAmounts(amount: Cents, subtotal: Cents, vat: Cents, total: Cents, rate: Rate) {
    amount == total && total == subtotal + vat && vat == HalfUp(subtotal * rate)
  }

  predicate Consistent(i: Invoice) {
    ConsistentAmounts(i.amount, i.subtotal, i.vat, i.total, i.rate)
  }

  predicate ConsistentNew(a: NewAmounts) {
    && a.amount.Some? && a.subtotal.Some? && a.vat.Some? && a.total.Some? && a.rate.Some?
    && a.amount.value == a.total.value as real
    && ConsistentAmounts(a.total.value, a.subtotal.value, a.vat.value, a.total.value, a.rate.value)
  }

  function AmountsOf(subtotal: Cents, rate: Rate): NewAmounts {
    var l := ComputeVatLines(subtotal, rate);
    NewAmounts(Some(l.total as real), Some(l.subtotal), Some(l.vat), Some(l.total), Some(rate))
  }

  // The hook leaves consistent amounts behind for a computed invoice and for a row with an amount only. It treats a
  // computed total of zero as a legacy row, so the requested rate survives unless the total is zero.
  lemma HookKeepsConsistency(subtotal: Cents, rate: Rate, legacy: real)
    ensures var a := CoerceLegacy(AmountsOf(subtotal, rate));
      && ConsistentNew(a)
      && (a.rate == Some(rate) <==> a.total != Some(0) || rate == 0)
      && (a.subtotal == Some(subtotal) <==> a.total != Some(0) || subtotal == 0)
    ensures var a := CoerceLegacy(NewAmounts(Some(legacy), None, None, None, None));
      ConsistentNew(a) && a.vat == Some(0) && -0.5 <= legacy - a.amount.value <= 0.5
  {
    assert HalfUp(0) == 0;
  }

  /******* Creation *******/

  // A request to create an invoice. A due date, currency or status that does not parse is None; a guest or reservation
  // that is not in the organization is Missing.
  datatype NewInvoice = NewInvoice(
    org: int, hasActor: bool, status: Option<Status>, subtotal: RawNumber, rate: RawNumber, due: Option<Date>,
    currency: Option<string>, lease: Option<nat>, reservation: RefPatch, guest: RefPatch,
    description: Option<string>, period: Option<string>)

  // What the lookup of the named lease within the organization came to.
  datatype FoundLease = NoLease | Found(id: nat, guest: nat) | NotFound

  // Paid, overdue and cancelled are refused as initial statuses.
  predicate Accepts(n: NewInvoice, lease: FoundLease) {
    && n.hasActor && n.status.Some? && Editable(n.status.value)
    && ParseAmount(n.subtotal).Some? && ParseRate(n.rate).Some? && n.due.Some? && n.currency.Some?
    && !lease.NotFound? && !n.reservation.Missing? && !n.guest.Missing?
  }

  function RateOf(n: NewInvoice, defaultRate: Rate): Rate
    requires ParseRate(n.rate).Some?
  {
    if ParseRate(n.rate).value.Some? then ParseRate(n.rate).value.value else defaultRate
  }

  // A request without a guest takes the guest of the lease.
  function RowOf(n: NewInvoice, lease: FoundLease, a: NewAmounts): Invoice
    requires Accepts(n, lease) && ConsistentNew(a)
  {
    Invoice(n.org, if lease.Found? then Some(lease.id) else None, if n.reservation.To? then Some(n.reservation.id) else None,
            if n.guest.To? then Some(n.guest.id) else if lease.Found? then Some(lease.guest) else None,
            a.total.value, a.subtotal.value, a.vat.value, a.total.value, a.rate.value,
            n.currency.value, n.due.value, n.status.value, None, n.description, n.period)
  }

  // The row as the hook lets it into the table. None: the service raised an error and stored nothing.
  function Create(n: NewInvoice, lease: FoundLease, defaultRate: Rate): Option<Invoice> {
    if !Accepts(n, lease) then None
    else
      var subtotal, rate := ParseAmount(n.subtotal).value, RateOf(n, defaultRate);
      HookKeepsConsistency(subtotal, rate, 0.0);
      Some(RowOf(n, lease, CoerceLegacy(AmountsOf(subtotal, rate))))
  }

  lemma CreateThroughHook(n: NewInvoice, lease: FoundLease, defaultRate: Rate, a: NewAmounts)
    requires Accepts(n, lease) && a == CoerceLegacy(AmountsOf(ParseAmount(n.subtotal).value, RateOf(n, defaultRate)))
    ensures ConsistentNew(a) && Create(n, lease, defaultRate) == Some(RowOf(n, lease, a))
  {
    HookKeepsConsistency(ParseAmount(n.subtotal).value, RateOf(n, defaultRate), 0.0);
  }

  /******* Limited updates *******/

  // A reference in the request: cleared, found in the organization, or not found there.
  datatype RefPatch = Clear | To(id: nat) | Missing

  // The keys present in the request. A due date or currency that does not parse is Some(None).
  datatype Patch = Patch(
    description: Option<Option<string>>,
    period: Option<Option<string>>,
    subtotal: Option<RawNumber>,
    amount: Option<RawNumber>,
    rate: Option<RawNumber>,
    currency: Option<Option<string>>,
    due: Option<Option<Date>>,
    guest: Option<RefPatch>,
    reservation: Option<RefPatch>,
    lease: Option<RefPatch>,
    otherKeys: bool)

  predicate OnlyTextKeys(p: Patch, dueToo: bool) {
    && p.subtotal.None? && p.amount.None? && p.rate.None? && p.currency.None? && (p.due.None? || dueToo)
    && p.guest.None? && p.reservation.None? && p.lease.None? && !p.otherKeys
  }

  predicate KeysAllowed(status: Status, p: Patch) {
    if Settled(status) then OnlyTextKeys(p, false)
    else if status == Overdue then OnlyTextKeys(p, true)
    else true
  }

  function PatchRef(old_: Option<nat>, p: Option<RefPatch>): Option<nat> {
    if p.None? || p.value.Missing? then old_ else if p.value.Clear? then None else Some(p.value.id)
  }

  predicate RefOk(p: Option<RefPatch>) {
    p.None? || !p.value.Missing?
  }

  // The new subtotal, if the request names one: subtotal_excl_vat wins over amount. None is a parse error.
  function PatchedSubtotal(p: Patch): Option<Option<Cents>> {
    if p.subtotal.Some? then
      (var v := ParseAmount(p.subtotal.value); if v.None? then None else Some(v))
    else if p.amount.Some? then
      (var v := ParseAmount(p.amount.value); if v.None? then None else Some(v))
    else Some(None)
  }

  function PatchedRate(p: Patch, defaultRate: Rate): Option<Option<Rate>> {
    if p.rate.None? then Some(None)
    else
      var parsed := ParseRate(p.rate.value);
      if parsed.None? then None
      else if parsed.value.None? then Some(Some(defaultRate)) else parsed
  }

  function PatchAmounts(i: Invoice, subtotal: Option<Cents>, rate: Option<Rate>): Invoice {
    if subtotal.None? && rate.None? then i
    else
      var newRate := if rate.Some? then rate.value else i.rate;
      var l := ComputeVatLines(if subtotal.Some? then subtotal.value else i.subtotal, newRate);
      i.(subtotal := l.subtotal, rate := newRate, vat := l.vat, total := l.total, amount := l.total)
  }

  // None: the service raised an error, and the row stays as it was.
  function Update(i: Invoice, p: Patch, defaultRate: Rate): Option<Invoice> {
    if !KeysAllowed(i.status, p) then None
    else
      var text := i.(description := if p.description.Some? then p.description.value else i.description,
                     period := if p.period.Some? then p.period.value else i.period);
      if !Editable(i.status) then Some(text)
      else
        var sub, rate := PatchedSubtotal(p), PatchedRate(p, defaultRate);
        if sub.None? || rate.None? || p.currency == Some(None) || p.due == Some(None)
           || !RefOk(p.guest) || !RefOk(p.reservation) || !RefOk(p.lease) then None
        else
          Some(PatchAmounts(text, sub.value, rate.value).(
            currency := if p.currency.Some? then p.currency.value.value else i.currency,
            due := if p.due.Some? then p.due.value.value else i.due,
            guest := PatchRef(i.guest, p.guest),
            reservation := PatchRef(i.reservation, p.reservation),
            lease := PatchRef(i.lease, p.lease)))
  }

  /******* The status machine *******/

  function MarkPaid(i: Invoice, now: int): Option<Invoice> {
    if i.status == Paid || i.status == Cancelled || i.status == Draft then None
    else Some(i.(status := Paid, paidAt := Some(now)))
  }

  // Cancelling a cancelled invoice answers normally and changes nothing.
  function Cancel(i: Invoice): Option<Invoice> {
    if i.status == Paid then None
    else if i.status == Cancelled then Some(i)
    else Some(i.(status := Cancelled))
  }

  predicate PastDue(i: Invoice, org: Option<int>, today: Date) {
    i.status == Open && Before(i.due, today) && (org.Some? ==> i.org == org.value)
  }

  function MarkOverdue(i: Invoice, org: Option<int>, today: Date): Invoice {
    if PastDue(i, org, today) then i.(status := Overdue) else i
  }

  // What one operation may do to one invoice, whatever the operation.
  datatype Change =
    | Updating(patch: Patch, defaultRate: Rate)
    | Paying(now: int)
    | Cancelling
    | Chasing(org: Option<int>, today: Date)

  function Apply(i: Invoice, c: Change): Invoice {
    var result := match c
      case Updating(p, defaultRate) => Update(i, p, defaultRate)
      case Paying(now) => MarkPaid(i, now)
      case Cancelling => Cancel(i)
      case Chasing(org, today) => Some(MarkOverdue(i, org, today));
    if result.Some? then result.value else i
  }

  predicate SameMoneyAndDue(i: Invoice, j: Invoice) {
    && i.amount == j.amount && i.subtotal == j.subtotal && i.vat == j.vat && i.total == j.total && i.rate == j.rate
    && i.currency == j.currency && i.due == j.due
    && i.lease == j.lease && i.guest == j.guest && i.reservation == j.reservation
  }

  predicate InvoiceOk(i: Invoice) {
    Consistent(i) && 0 <= i.subtotal && (i.paidAt.Some? <==> i.status == Paid)
  }

  // One way through the statuses: a draft can only be cancelled, an overdue invoice never reopens, and paid and
  // cancelled are final.
  predicate MayBecome(s: Status, t: Status) {
    match s
    case Draft => t == Draft || t == Cancelled
    case Open => t != Draft
    case Overdue => t == Overdue || t == Paid || t == Cancelled
    case Paid => t == Paid
    case Cancelled => t == Cancelled
  }

  lemma HookKeepsSign(subtotal: Cents, rate: Rate)
    requires 0 <= subtotal
    ensures var a := CoerceLegacy(AmountsOf(subtotal, rate)); ConsistentNew(a) && 0 <= a.subtotal.value
  {
    HookKeepsConsistency(subtotal, rate, 0.0);
  }

  lemma RowOk(n: NewInvoice, lease: FoundLease, a: NewAmounts)
    requires Accepts(n, lease) && ConsistentNew(a) && 0 <= a.subtotal.value
    ensures InvoiceOk(RowOf(n, lease, a)) && RowOf(n, lease, a).status == n.status.value
  {
  }

  lemma CreateOk(n: NewInvoice, lease: FoundLease, defaultRate: Rate)
    requires Create(n, lease, defaultRate).Some?
    ensures InvoiceOk(Create(n, lease, defaultRate).value)
    ensures Some(Create(n, lease, defaultRate).value.status) == n.status
  {
    var subtotal, rate := ParseAmount(n.subtotal).value, RateOf(n, defaultRate);
    var a := CoerceLegacy(AmountsOf(subtotal, rate));
    HookKeepsSign(subtotal, rate);
    CreateThroughHook(n, lease, defaultRate, a);
    RowOk(n, lease, a);
  }

  lemma VatWithinSubtotal(i: Invoice)
    requires InvoiceOk(i) && 0 <= i.rate <= FULL_RATE
    ensures 0 <= i.vat <= i.subtotal
  {
    VatBounds(i.subtotal, i.rate);
  }

  lemma ChangeKeeps(i: Invoice, c: Change)
    requires InvoiceOk(i)
    ensures var j := Apply(i, c);
      && InvoiceOk(j) && MayBecome(i.status, j.status) && j.org == i.org
      && (!Editable(i.status) ==> SameMoneyAndDue(i, j) && (Settled(i.status) ==> j.paidAt == i.paidAt))
      && (j.status == Overdue && i.status != Overdue ==> c.Chasing? && Before(i.due, c.today) && j.due == i.due)
  {
  }

  lemma {:induction false} StatusesTransitive(s: Status, t: Status, u: Status)
    requires MayBecome(s, t) && MayBecome(t, u)
    ensures MayBecome(s, u)
  {
  }

  function ApplyAll(i: Invoice, changes: seq<Change>): Invoice
    decreases |changes|
  {
    if changes == [] then i else ApplyAll(Apply(i, changes[0]), changes[1..])
  }

  // Over every run of operations on an invoice: amounts stay consistent, paid_at marks exactly the paid ones, statuses
  // only move forward, and money, due date and references are frozen from the first status after draft and open.
  lemma {:induction false} LifeOfAnInvoice(i: Invoice, changes: seq<Change>)
    requires InvoiceOk(i)
    ensures var j := ApplyAll(i, changes);
      && InvoiceOk(j) && MayBecome(i.status, j.status)
      && (!Editable(i.status) ==> SameMoneyAndDue(i, j) && (Settled(i.status) ==> j.paidAt == i.paidAt))
    decreases |changes|
  {
    if changes != [] {
      ChangeKeeps(i, changes[0]);
      LifeOfAnInvoice(Apply(i, changes[0]), changes[1..]);
      StatusesTransitive(i.status, Apply(i, changes[0]).status, ApplyAll(i, changes).status);
    }
  }

  // A due date in the request is accepted for an overdue invoice and then ignored.
  lemma OverdueDueDateIgnored(i: Invoice, p: Patch, defaultRate: Rate, day: Option<Date>)
    requires i.status == Overdue && OnlyTextKeys(p, true)
    ensures Update(i, p.(due := Some(day)), defaultRate) == Update(i, p.(due := None), defaultRate)
    ensures Update(i, p.(due := Some(day)), defaultRate).Some?
  {
  }

  /******* What each operation does, in plain terms *******/

  // Which requests make an invoice.
  lemma CreatedIff(n: NewInvoice, lease: FoundLease, defaultRate: Rate)
    ensures Create(n, lease, defaultRate).Some? <==>
      && n.hasActor && n.status in {Some(Draft), Some(Open)}
      && AmountReads(n.subtotal) && RateReads(n.rate) && n.due.Some? && n.currency.Some?
      && lease != NotFound && n.reservation != Missing && n.guest != Missing
  {
  }

  lemma CreatedFields(n: NewInvoice, lease: FoundLease, defaultRate: Rate)
    requires Create(n, lease, defaultRate).Some?
    ensures var i := Create(n, lease, defaultRate).value;
      && i.org == n.org && Some(i.status) == n.status && Some(i.due) == n.due && Some(i.currency) == n.currency
      && i.description == n.description && i.period == n.period && i.paidAt == None
      && i.lease == (match lease case Found(id, _) => Some(id) case _ => None)
      && i.reservation == (match n.reservation case To(id) => Some(id) case _ => None)
      && i.guest == (match n.guest
                     case To(id) => Some(id)
                     case _ => match lease case Found(_, guest) => Some(guest) case _ => None)
  {
    CreateThroughHook(n, lease, defaultRate, CoerceLegacy(AmountsOf(ParseAmount(n.subtotal).value, RateOf(n, defaultRate))));
  }

  // The amounts are those requested: the subtotal to the cent, and the rate, or the default where none is given. The
  // insert hook keeps them except where the total is nothing.
  lemma CreatedAmounts(n: NewInvoice, lease: FoundLease, defaultRate: Rate)
    requires Create(n, lease, defaultRate).Some?
    ensures var i := Create(n, lease, defaultRate).value;
      && i.amount == i.total == i.subtotal + i.vat
      && (i.total != 0 ==> Means(n.subtotal, i.subtotal))
      && (i.total != 0 && n.rate == Blank ==> i.rate == defaultRate)
      && (i.total != 0 && n.rate.Number? ==> Means(n.rate, i.rate))
  {
    var subtotal, rate := ParseAmount(n.subtotal).value, RateOf(n, defaultRate);
    HookKeepsConsistency(subtotal, rate, 0.0);
    CreateThroughHook(n, lease, defaultRate, CoerceLegacy(AmountsOf(subtotal, rate)));
  }

  predicate TextOnly(p: Patch) {
    && p.subtotal.None? && p.amount.None? && p.rate.None? && p.currency.None? && p.guest.None? && p.reservation.None?
    && p.lease.None? && !p.otherKeys
  }

  // Which updates are accepted: only texts on a paid or cancelled invoice, a due date besides on an overdue one, and
  // whatever can be read and found on a draft or open one; other keys are ignored there.
  lemma UpdatedIff(i: Invoice, p: Patch, defaultRate: Rate)
    ensures Update(i, p, defaultRate).Some? <==>
      match i.status
      case Paid => TextOnly(p) && p.due.None?
      case Cancelled => TextOnly(p) && p.due.None?
      case Overdue => TextOnly(p)
      case _ =>
        && (p.subtotal.Some? ==> AmountReads(p.subtotal.value))
        && (p.subtotal.None? && p.amount.Some? ==> AmountReads(p.amount.value))
        && (p.rate.Some? ==> RateReads(p.rate.value))
        && p.currency != Some(None) && p.due != Some(None)
        && p.guest != Some(Missing) && p.reservation != Some(Missing) && p.lease != Some(Missing)
  {
  }

  // What an accepted update changes.
  lemma UpdatedFields(i: Invoice, p: Patch, defaultRate: Rate)
    requires Update(i, p, defaultRate).Some?
    ensures var j := Update(i, p, defaultRate).value;
      && j.org == i.org && j.status == i.status && j.paidAt == i.paidAt
      && j.description == (if p.description.Some? then p.description.value else i.description)
      && j.period == (if p.period.Some? then p.period.value else i.period)
      && (i.status != Draft && i.status != Open ==> j == i.(description := j.description, period := j.period))
  {
  }

  lemma UpdatedMoney(i: Invoice, p: Patch, defaultRate: Rate)
    requires Update(i, p, defaultRate).Some? && (i.status == Draft || i.status == Open)
    ensures var j := Update(i, p, defaultRate).value;
      && (p.subtotal.Some? ==> Means(p.subtotal.value, j.subtotal))
      && (p.subtotal.None? && p.amount.Some? ==> Means(p.amount.value, j.subtotal))
      && (p.subtotal.None? && p.amount.None? ==> j.subtotal == i.subtotal)
      && (p.rate.None? ==> j.rate == i.rate)
      && (p.rate == Some(Blank) ==> j.rate == defaultRate)
      && (p.rate.Some? && p.rate.value.Number? ==> Means(p.rate.value, j.rate))
      && (p.subtotal.None? && p.amount.None? && p.rate.None? ==> j.vat == i.vat && j.total == i.total && j.amount == i.amount)
      && (p.subtotal.Some? || p.amount.Some? || p.rate.Some? ==> Consistent(j))
  {
  }

  lemma UpdatedRest(i: Invoice, p: Patch, defaultRate: Rate)
    requires Update(i, p, defaultRate).Some? && (i.status == Draft || i.status == Open)
    ensures var j := Update(i, p, defaultRate).value;
      && (if p.currency.Some? then Some(j.currency) == p.currency.value else j.currency == i.currency)
      && (if p.due.Some? then Some(j.due) == p.due.value else j.due == i.due)
      && (match p.guest case None => j.guest == i.guest case Some(To(id)) => j.guest == Some(id) case _ => j.guest == None)
      && (match p.lease case None => j.lease == i.lease case Some(To(id)) => j.lease == Some(id) case _ => j.lease == None)
      && (match p.reservation
          case None => j.reservation == i.reservation
          case Some(To(id)) => j.reservation == Some(id)
          case _ => j.reservation == None)
  {
  }

  // Paying: an open or overdue invoice becomes paid now. Cancelling: any but a paid one becomes cancelled. The overdue
  // pass: an open invoice of the organization whose due date has passed becomes overdue. Nothing else changes.
  lemma StatusOperations(i: Invoice, now: int, org: Option<int>, today: Date)
    ensures Apply(i, Paying(now)) == if i.status == Open || i.status == Overdue then i.(status := Paid, paidAt := Some(now)) else i
    ensures MarkPaid(i, now).Some? <==> i.status == Open || i.status == Overdue
    ensures Apply(i, Cancelling) == if i.status == Paid then i else i.(status := Cancelled)
    ensures Cancel(i).None? <==> i.status == Paid
    ensures Apply(i, Chasing(org, today)) ==
      if i.status == Open && Before(i.due, today) && (org == None || org == Some(i.org)) then i.(status := Overdue) else i
  {
  }
}
