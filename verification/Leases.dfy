/** Leases: creation, updates, the status machine and signing (app/billing/services.py). */
module Leases {
  import opened Wrappers
  import opened Calendar
  import opened Money
  import opened PeriodKeys

  datatype Status = Draft | PendingSignature | Active | Ended | Cancelled

  // A signing token; the row stores its hash, and hashing is taken to be injective.
  type Token = string

  datatype Lease = Lease(
    org: int,
    unit: nat,
    guest: nat,
    reservation: Option<nat>,
    start: Date,
    end: Option<Date>,
    rent: nat,
    deposit: nat,
    cycle: Cycle,
    status: Status,
    notes: Option<string>,
    token: Option<Token>,
    signedAt: Option<int>)

  predicate DatesOk(l: Lease) {
    l.end.Some? ==> !Before(l.end.value, l.start)
  }

  predicate Closed(s: Status) {
    s == Ended || s == Cancelled
  }

  // A reference in the request: found in the organization or not; reservations can also be cleared.
  datatype RefPatch = Clear | To(id: nat) | Missing

  // A date in the request: blank, a date, or text that is not an ISO date.
  datatype DatePatch = BlankDate | Day(date: Date) | BadDate

  /******* Creation *******/

  datatype NewLease = NewLease(
    org: int, unit: RefPatch, guest: RefPatch, reservation: RefPatch, start: DatePatch, end: DatePatch,
    rent: RawNumber, deposit: RawNumber, cycle: Cycle, notes: Option<string>)

  // A blank deposit counts as zero.
  function ParseOptionalAmount(raw: RawNumber): Option<Cents> {
    if raw == Blank then Some(0) else ParseAmount(raw)
  }

  // None: the service raised an error and stored nothing.
  function Create(n: NewLease): Option<Lease> {
    var rent, deposit := ParseAmount(n.rent), ParseOptionalAmount(n.deposit);
    if n.cycle == OtherCycle || !n.unit.To? || !n.guest.To? || n.reservation.Missing? || !n.start.Day? || n.end.BadDate?
       || (n.end.Day? && Before(n.end.date, n.start.date)) || rent.None? || deposit.None? then None
    else
      Some(Lease(n.org, n.unit.id, n.guest.id, if n.reservation.To? then Some(n.reservation.id) else None,
                 n.start.date, if n.end.Day? then Some(n.end.date) else None, rent.value, deposit.value,
                 n.cycle, Draft, n.notes, None, None))
  }

  /******* Updates *******/

  // The keys present in the request.
  datatype Patch = Patch(
    unit: Option<RefPatch>,
    guest: Option<RefPatch>,
    reservation: Option<RefPatch>,
    start: Option<DatePatch>,
    end: Option<DatePatch>,
    rent: Option<RawNumber>,
    deposit: Option<RawNumber>,
    cycle: Option<Cycle>,
    notes: Option<Option<string>>,
    otherKeys: bool)

  predicate NotesOnly(p: Patch) {
    && p.unit.None? && p.guest.None? && p.reservation.None? && p.start.None? && p.end.None?
    && p.rent.None? && p.deposit.None? && p.cycle.None? && !p.otherKeys
  }

  // The fields the request names may be changed in this status.
  predicate Permitted(s: Status, p: Patch) {
    && (Closed(s) ==> NotesOnly(p))
    && (p.unit.Some? || p.guest.Some? || p.reservation.Some? || p.start.Some? || p.cycle.Some? ==> s == Draft)
    && (p.end.Some? && p.end.value != BlankDate ==> s == Draft || s == Active)
  }

  // The values the request carries can be parsed and found.
  predicate Parses(p: Patch) {
    && (p.unit.Some? ==> p.unit.value.To?)
    && (p.guest.Some? ==> p.guest.value.To?)
    && (p.reservation.Some? ==> !p.reservation.value.Missing?)
    && (p.start.Some? ==> p.start.value.Day?)
    && (p.end.Some? ==> !p.end.value.BadDate?)
    && (p.rent.Some? ==> ParseAmount(p.rent.value).Some?)
    && (p.deposit.Some? ==> ParseOptionalAmount(p.deposit.value).Some?)
    && (p.cycle.Some? ==> p.cycle.value != OtherCycle)
  }

  function Update(l: Lease, p: Patch): Option<Lease> {
    if !Permitted(l.status, p) || !Parses(p) then None
    else
      var l' := l.(
        unit := if p.unit.Some? then p.unit.value.id else l.unit,
        guest := if p.guest.Some? then p.guest.value.id else l.guest,
        reservation := if p.reservation.None? then l.reservation
                       else if p.reservation.value.To? then Some(p.reservation.value.id) else None,
        start := if p.start.Some? then p.start.value.date else l.start,
        end := if p.end.None? then l.end else if p.end.value.Day? then Some(p.end.value.date) else None,
        rent := if p.rent.Some? then ParseAmount(p.rent.value).value else l.rent,
        deposit := if p.deposit.Some? then ParseOptionalAmount(p.deposit.value).value else l.deposit,
        cycle := if p.cycle.Some? then p.cycle.value else l.cycle,
        notes := if p.notes.Some? then p.notes.value else l.notes);
      if DatesOk(l') then Some(l') else None
  }

  /******* The status machine *******/

  function Activate(l: Lease): Option<Lease> {
    if l.status == Draft || l.status == PendingSignature then Some(l.(status := Active)) else None
  }

  // A blank end date means today.
  function End(l: Lease, end: DatePatch, today: Date): Option<Lease> {
    if l.status != Active || end.BadDate? then None
    else
      var day := if end.Day? then end.date else today;
      if Before(day, l.start) then None else Some(l.(end := Some(day), status := Ended))
  }

  function Cancel(l: Lease): Option<Lease> {
    if Closed(l.status) then None else Some(l.(status := Cancelled))
  }

  // Active leases are accepted as well. A failing signing email is reported after the change is committed.
  function SendForSigning(l: Lease, token: Token, hasEmail: bool): Option<Lease> {
    if !hasEmail || Closed(l.status) then None
    else Some(l.(token := Some(token), status := PendingSignature))
  }

  // There is no check of the status here.
  function Sign(l: Lease, token: Token, now: int): Option<Lease> {
    if l.token != Some(token) then None
    else if l.signedAt.Some? then Some(l)
    else Some(l.(signedAt := Some(now), status := Active))
  }

  datatype Change =
    | Updating(patch: Patch)
    | Activating
    | Ending(end: DatePatch, today: Date)
    | Cancelling
    | Sending(token: Token, hasEmail: bool)
    | Signing(signedToken: Token, now: int)

  function Result(l: Lease, c: Change): Option<Lease> {
    match c
    case Updating(p) => Update(l, p)
    case Activating => Activate(l)
    case Ending(end, today) => End(l, end, today)
    case Cancelling => Cancel(l)
    case Sending(token, hasEmail) => SendForSigning(l, token, hasEmail)
    case Signing(token, now) => Sign(l, token, now)
  }

  function Apply(l: Lease, c: Change): Lease {
    if Result(l, c).Some? then Result(l, c).value else l
  }

  function ApplyAll(l: Lease, changes: seq<Change>): Lease
    decreases |changes|
  {
    if changes == [] then l else ApplyAll(Apply(l, changes[0]), changes[1..])
  }

  predicate LeaseOk(l: Lease) {
    DatesOk(l) && l.cycle != OtherCycle
  }

  // What no operation changes once the lease has left draft, and the signature once it is there.
  predicate Frozen(l: Lease, m: Lease) {
    && (l.status != Draft ==>
          && m.status != Draft && m.unit == l.unit && m.guest == l.guest && m.reservation == l.reservation
          && m.start == l.start && m.cycle == l.cycle)
    && (l.signedAt.Some? ==> m.signedAt == l.signedAt)
    && m.org == l.org
  }

  lemma CreateOk(n: NewLease)
    requires Create(n).Some?
    ensures LeaseOk(Create(n).value) && Create(n).value.status == Draft && Create(n).value.signedAt.None?
  {
  }

  lemma ChangeKeeps(l: Lease, c: Change)
    requires LeaseOk(l)
    ensures LeaseOk(Apply(l, c)) && Frozen(l, Apply(l, c))
  {
    match c
    case Updating(p) =>
    case _ =>
  }

  // Over every run: draft is never re-entered, the identity of the lease is frozen once draft is left, the end never
  // precedes the start, and a signature stays.
  lemma {:induction false} LifeOfALease(l: Lease, changes: seq<Change>)
    requires LeaseOk(l)
    ensures LeaseOk(ApplyAll(l, changes)) && Frozen(l, ApplyAll(l, changes))
    decreases |changes|
  {
    if changes != [] {
      ChangeKeeps(l, changes[0]);
      LifeOfALease(Apply(l, changes[0]), changes[1..]);
    }
  }

  // Later sign calls change nothing at all.
  lemma SecondSignatureIgnored(l: Lease, token: Token, now: int)
    requires l.signedAt.Some?
    ensures Apply(l, Signing(token, now)) == l
  {
  }

  // Ended and cancelled are not absorbing: exactly a first signature with the stored token revives such a lease.
  lemma ClosedLeaseRevivedIff(l: Lease, c: Change)
    requires Closed(l.status)
    ensures Apply(l, c).status != l.status <==> c.Signing? && l.token == Some(c.signedToken) && l.signedAt.None?
    ensures Apply(l, c).status == l.status || Apply(l, c).status == Active
  {
  }

  // A run that ends with a cancelled lease being active.
  lemma CancelledLeaseBecomesActive(l: Lease, token: Token, now: int)
    requires l.status == Draft && l.signedAt.None?
    ensures ApplyAll(l, [Sending(token, true), Cancelling]).status == Cancelled
    ensures ApplyAll(l, [Sending(token, true), Cancelling, Signing(token, now)]).status == Active
  {
    var sent := Apply(l, Sending(token, true));
    var cancelled := Apply(sent, Cancelling);
    assert ApplyAll(cancelled, []) == cancelled;
    assert [Sending(token, true), Cancelling][1..] == [Cancelling];
    assert ApplyAll(sent, [Cancelling]) == cancelled;
    assert [Sending(token, true), Cancelling, Signing(token, now)][1..] == [Cancelling, Signing(token, now)];
    assert [Cancelling, Signing(token, now)][1..] == [Signing(token, now)];
    var signed := Apply(cancelled, Signing(token, now));
    assert ApplyAll(signed, []) == signed;
    assert ApplyAll(cancelled, [Signing(token, now)]) == signed;
  }

  // A signed lease that is sent for signing again waits for a signature that can no longer be given: among the
  // operations only a manual activation makes it active.
  lemma ResentLeaseOnlyActivatedByHand(l: Lease, c: Change)
    requires l.status == PendingSignature && l.signedAt.Some?
    ensures Apply(l, c).status == Active <==> c.Activating?
  {
  }

  /******* What each operation does, in plain terms *******/

  lemma CreatedIff(n: NewLease)
    ensures Create(n).Some? <==>
      && n.cycle in {Monthly, Weekly, OneTime} && n.unit.To? && n.guest.To? && n.reservation != Missing
      && n.start.Day? && n.end != BadDate && (n.end.Day? ==> !Before(n.end.date, n.start.date))
      && AmountReads(n.rent) && (n.deposit == Blank || AmountReads(n.deposit))
  {
  }

  // The new lease is the one asked for: rent and deposit each to the cent, a blank deposit being nothing.
  lemma CreatedFields(n: NewLease)
    requires Create(n).Some?
    ensures var l := Create(n).value;
      && l.org == n.org && n.unit == To(l.unit) && n.guest == To(l.guest) && n.start == Day(l.start) && l.cycle == n.cycle
      && l.reservation == (match n.reservation case To(id) => Some(id) case _ => None)
      && l.end == (match n.end case Day(date) => Some(date) case _ => None)
      && Means(n.rent, l.rent) && (if n.deposit == Blank then l.deposit == 0 else Means(n.deposit, l.deposit))
      && l.notes == n.notes && l.status == Draft && l.token == None && l.signedAt == None
  {
  }

  // Which updates are accepted: notes always; on a lease that is not closed amounts and the removal of the end; a new
  // end on a draft or active one; everything else on a draft only; and the end never before the start.
  lemma UpdatedIff(l: Lease, p: Patch)
    ensures Update(l, p).Some? <==>
      var start := if p.start.Some? && p.start.value.Day? then p.start.value.date else l.start;
      var end := match p.end case None => l.end case Some(Day(date)) => Some(date) case _ => None;
      && (l.status in {Ended, Cancelled} ==> p == Patch(None, None, None, None, None, None, None, None, p.notes, false))
      && (p.unit.Some? || p.guest.Some? || p.reservation.Some? || p.start.Some? || p.cycle.Some? ==> l.status == Draft)
      && (p.end.Some? && p.end != Some(BlankDate) ==> l.status in {Draft, Active})
      && (p.unit.Some? ==> p.unit.value.To?) && (p.guest.Some? ==> p.guest.value.To?) && p.reservation != Some(Missing)
      && (p.start.Some? ==> p.start.value.Day?) && p.end != Some(BadDate)
      && (p.rent.Some? ==> AmountReads(p.rent.value))
      && (p.deposit.Some? ==> p.deposit.value == Blank || AmountReads(p.deposit.value))
      && p.cycle != Some(OtherCycle)
      && (end.Some? ==> !Before(end.value, start))
  {
  }

  lemma UpdatedFields(l: Lease, p: Patch)
    requires Update(l, p).Some?
    ensures var m := Update(l, p).value;
      && m.org == l.org && m.status == l.status && m.token == l.token && m.signedAt == l.signedAt
      && (if p.unit.Some? then p.unit == Some(To(m.unit)) else m.unit == l.unit)
      && (if p.guest.Some? then p.guest == Some(To(m.guest)) else m.guest == l.guest)
      && (match p.reservation
          case None => m.reservation == l.reservation
          case Some(To(id)) => m.reservation == Some(id)
          case _ => m.reservation == None)
      && (if p.start.Some? then p.start == Some(Day(m.start)) else m.start == l.start)
      && (match p.end case None => m.end == l.end case Some(Day(date)) => m.end == Some(date) case _ => m.end == None)
      && (if p.rent.Some? then Means(p.rent.value, m.rent) else m.rent == l.rent)
      && (if p.deposit.None? then m.deposit == l.deposit
          else if p.deposit == Some(Blank) then m.deposit == 0 else Means(p.deposit.value, m.deposit))
      && (if p.cycle.Some? then p.cycle == Some(m.cycle) else m.cycle == l.cycle)
      && (if p.notes.Some? then p.notes == Some(m.notes) else m.notes == l.notes)
  {
  }

  // Activating, ending, cancelling, sending for signing and signing: when each does something, and what. The end that is
  // set is the day given, or today.
  lemma StatusOperations(l: Lease, end: DatePatch, today: Date, token: Token, hasEmail: bool, now: int)
    ensures Apply(l, Activating) == if l.status in {Draft, PendingSignature} then l.(status := Active) else l
    ensures Apply(l, Ending(end, today)) ==
      (match end
       case BadDate => l
       case Day(date) => if l.status == Active && !Before(date, l.start) then l.(end := Some(date), status := Ended) else l
       case BlankDate => if l.status == Active && !Before(today, l.start) then l.(end := Some(today), status := Ended) else l)
    ensures Apply(l, Cancelling) == if l.status in {Draft, PendingSignature, Active} then l.(status := Cancelled) else l
    ensures Apply(l, Sending(token, hasEmail)) ==
      if hasEmail && l.status in {Draft, PendingSignature, Active} then l.(token := Some(token), status := PendingSignature) else l
    ensures Apply(l, Signing(token, now)) ==
      if l.token == Some(token) && l.signedAt == None then l.(signedAt := Some(now), status := Active) else l
  {
  }
}
