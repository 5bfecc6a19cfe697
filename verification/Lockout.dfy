/**
  Login lockout (app/auth/services.py): a sliding window over the table of login attempts. Times are seconds; a login
  reads the clock twice, when it checks the lock and when it records the attempt.
 */
module Lockout {
  import opened Wrappers

  const WINDOW: int := 900

  datatype Attempt = Attempt(email: string, at: int, success: bool)

  // What looking up the account and checking the password come to.
  datatype Verdict = NoSuchUser | Inactive | WrongPassword | Right

  datatype Outcome = MissingIdentifier | AccountLocked | Rejected(reason: Verdict) | LoggedIn

  // The email is already stripped and lower-cased.
  datatype Login = Login(email: string, checkAt: int, recordAt: int, verdict: Verdict)

  // The configured limit; None when it is not a number.
  function MaxAttempts(configured: Option<int>): (max: nat)
    ensures max >= 1
    ensures configured.None? ==> max == 5
    ensures configured.Some? && configured.value >= 1 ==> max == configured.value
  {
    if configured.None? then 5 else if configured.value < 1 then 1 else configured.value
  }

  predicate Failure(a: Attempt, email: string, since: int) {
    a.email == email && !a.success && a.at >= since
  }

  function CountFailures(log: seq<Attempt>, email: string, since: int): nat {
    |set i | 0 <= i < |log| && Failure(log[i], email, since)|
  }

  predicate Locked(log: seq<Attempt>, email: string, now: int, max: nat) {
    CountFailures(log, email, now - WINDOW) > max
  }

  function WithoutFailures(log: seq<Attempt>, email: string): seq<Attempt> {
    if log == [] then []
    else
      var a := log[|log| - 1];
      WithoutFailures(log[..|log| - 1], email) + if a.email == email && !a.success then [] else [a]
  }

  function Authenticate(log: seq<Attempt>, l: Login, max: nat): (seq<Attempt>, Outcome) {
    var failed := log + [Attempt(l.email, l.recordAt, false)];
    if l.email == "" then (log, MissingIdentifier)
    else if Locked(log, l.email, l.checkAt, max) then (failed, AccountLocked)
    else if l.verdict != Right then (failed, Rejected(l.verdict))
    else (WithoutFailures(log + [Attempt(l.email, l.recordAt, true)], l.email), LoggedIn)
  }

  // The log after the first n logins.
  function After(log: seq<Attempt>, ls: seq<Login>, n: nat, max: nat): seq<Attempt>
    requires n <= |ls|
  {
    if n == 0 then log else Authenticate(After(log, ls, n - 1, max), ls[n - 1], max).0
  }

  function OutcomeOf(log: seq<Attempt>, ls: seq<Login>, k: nat, max: nat): Outcome
    requires k < |ls|
  {
    Authenticate(After(log, ls, k, max), ls[k], max).1
  }

  /******* What a login answers *******/

  // The answer, decided by the log, the email and the verdict: within the last fifteen minutes before the check, the
  // moment exactly fifteen minutes before included, at most max failures of the email open the way to the password
  // check, and more of them lock it.
  ghost predicate AnswerIs(log: seq<Attempt>, l: Login, max: nat, answer: Outcome) {
    var failures := set i | 0 <= i < |log| && log[i].email == l.email && !log[i].success && log[i].at >= l.checkAt - 900;
    && (l.email == "" <==> answer == MissingIdentifier)
    && (l.email != "" && |failures| > max <==> answer == AccountLocked)
    && (l.email != "" && |failures| <= max && l.verdict == Right <==> answer == LoggedIn)
    && (l.email != "" && |failures| <= max && l.verdict != Right <==> answer == Rejected(l.verdict))
  }

  // What it leaves in the log: nothing without an email, a failure after any refusal, and after a success the success,
  // with the email's failures gone.
  ghost predicate LogIs(log: seq<Attempt>, l: Login, answer: Outcome, log': seq<Attempt>) {
    && (answer == MissingIdentifier ==> log' == log)
    && (answer == AccountLocked || answer.Rejected? ==> log' == log + [Attempt(l.email, l.recordAt, false)])
    && (answer == LoggedIn ==> forall a: Attempt :: (
          multiset(log')[a] == if a.email == l.email && !a.success then 0
                               else multiset(log)[a] + if a == Attempt(l.email, l.recordAt, true) then 1 else 0))
  }

  lemma CountIsPlain(log: seq<Attempt>, email: string, since: int)
    ensures CountFailures(log, email, since)
         == |set i | 0 <= i < |log| && log[i].email == email && !log[i].success && log[i].at >= since|
  {
    assert (set i | 0 <= i < |log| && Failure(log[i], email, since))
        == set i | 0 <= i < |log| && log[i].email == email && !log[i].success && log[i].at >= since;
  }

  lemma AnswersExactly(log: seq<Attempt>, l: Login, max: nat)
    ensures AnswerIs(log, l, max, Authenticate(log, l, max).1)
  {
    CountIsPlain(log, l.email, l.checkAt - WINDOW);
  }

  lemma LogsExactly(log: seq<Attempt>, l: Login, max: nat)
    ensures LogIs(log, l, Authenticate(log, l, max).1, Authenticate(log, l, max).0)
  {
    var (log', answer) := Authenticate(log, l, max);
    if answer == LoggedIn {
      var longer := log + [Attempt(l.email, l.recordAt, true)];
      forall a: Attempt
        ensures multiset(log')[a] == if a.email == l.email && !a.success then 0 else multiset(longer)[a]
      {
        WithoutExactly(longer, l.email, a);
      }
    }
  }

  /******* As the program runs it *******/

  class LoginGuard {
    var log: seq<Attempt>
    const max: nat

    constructor (configured: Option<int>)
      ensures log == [] && max == MaxAttempts(configured)
    {
      log := [];
      max := MaxAttempts(configured);
    }

    method RecordLoginAttempt(email: string, at: int, success: bool)
      modifies this
      ensures log == old(log) + [Attempt(email, at, success)]
    {
      log := log + [Attempt(email, at, success)];
    }

    method ResetFailedAttempts(email: string)
      modifies this
      ensures log == WithoutFailures(old(log), email)
    {
      var kept: seq<Attempt> := [];
      var i := 0;
      while i < |log|
        invariant i <= |log| && log == old(log)
        invariant kept == WithoutFailures(log[..i], email)
      {
        assert log[..i + 1][..i] == log[..i];
        if log[i].email != email || log[i].success {
          kept := kept + [log[i]];
        }
        i := i + 1;
      }
      assert log[..|log|] == log;
      log := kept;
    }

    method AuthenticateUser(l: Login) returns (outcome: Outcome)
      modifies this
      ensures (log, outcome) == Authenticate(old(log), l, max)
      ensures AnswerIs(old(log), l, max, outcome) && LogIs(old(log), l, outcome, log)
    {
      AnswersExactly(log, l, max);
      LogsExactly(log, l, max);
      if l.email == "" {
        return MissingIdentifier;
      }
      if Locked(log, l.email, l.checkAt, max) {
        RecordLoginAttempt(l.email, l.recordAt, false);
        return AccountLocked;
      }
      if l.verdict != Right {
        RecordLoginAttempt(l.email, l.recordAt, false);
        return Rejected(l.verdict);
      }
      RecordLoginAttempt(l.email, l.recordAt, true);
      ResetFailedAttempts(l.email);
      return LoggedIn;
    }
  }

  /******* How many attempts get past the lock *******/

  lemma CountGrowsBackwards(log: seq<Attempt>, email: string, since: int, earlier: int)
    requires earlier <= since
    ensures CountFailures(log, email, since) <= CountFailures(log, email, earlier)
  {
    var late := set i | 0 <= i < |log| && Failure(log[i], email, since);
    var all := set i | 0 <= i < |log| && Failure(log[i], email, earlier);
    assert all == late + (all - late);
  }

  lemma CountAppend(log: seq<Attempt>, a: Attempt, email: string, since: int)
    ensures CountFailures(log + [a], email, since)
         == CountFailures(log, email, since) + if Failure(a, email, since) then 1 else 0
  {
    var before := set i | 0 <= i < |log| && Failure(log[i], email, since);
    var after := set i | 0 <= i < |log + [a]| && Failure((log + [a])[i], email, since);
    assert after == before + if Failure(a, email, since) then {|log|} else {};
  }

  lemma {:induction false} CountWithout(log: seq<Attempt>, cleared: string, email: string, since: int)
    ensures CountFailures(WithoutFailures(log, cleared), email, since)
         == if email == cleared then 0 else CountFailures(log, email, since)
  {
    if log != [] {
      var rest, a := log[..|log| - 1], log[|log| - 1];
      CountWithout(rest, cleared, email, since);
      CountAppend(WithoutFailures(rest, cleared), a, email, since);
      CountAppend(rest, a, email, since);
      assert log == rest + [a];
      if a.email == cleared && !a.success {
        assert WithoutFailures(log, cleared) == WithoutFailures(rest, cleared);
      }
    }
  }

  // Clearing an email removes its failures and keeps every other entry as often as it was there.
  lemma {:induction false} WithoutExactly(log: seq<Attempt>, email: string, a: Attempt)
    ensures multiset(WithoutFailures(log, email))[a]
         == if a.email == email && !a.success then 0 else multiset(log)[a]
  {
    if log != [] {
      WithoutExactly(log[..|log| - 1], email, a);
      assert log == log[..|log| - 1] + [log[|log| - 1]];
    }
  }

  // One login, seen from one email: another's login changes none of its counts; its own adds a failure or clears all.
  lemma CountAfterOne(log: seq<Attempt>, l: Login, max: nat, email: string, since: int)
    requires email != ""
    ensures var (log', o) := Authenticate(log, l, max);
      CountFailures(log', email, since) ==
        if l.email != email then CountFailures(log, email, since)
        else if o == LoggedIn then 0
        else CountFailures(log, email, since) + if l.recordAt >= since then 1 else 0
  {
    if Authenticate(log, l, max).1 == LoggedIn {
      var right := Attempt(l.email, l.recordAt, true);
      CountAppend(log, right, email, since);
      CountWithout(log + [right], l.email, email, since);
    } else {
      CountAppend(log, Attempt(l.email, l.recordAt, false), email, since);
    }
  }

  predicate PastLock(o: Outcome) {
    o == LoggedIn || o.Rejected?
  }

  // The logins among the first n on this email that got past the lock within the closed window that starts at t.
  function PassedWithin(log: seq<Attempt>, ls: seq<Login>, n: nat, max: nat, email: string, t: int): nat
    requires n <= |ls|
  {
    if n == 0 then 0
    else
      var l := ls[n - 1];
      PassedWithin(log, ls, n - 1, max, email, t)
        + if l.email == email && PastLock(OutcomeOf(log, ls, n - 1, max)) && t <= l.recordAt && l.checkAt <= t + WINDOW
          then 1 else 0
  }

  ghost predicate NoSuccess(log: seq<Attempt>, ls: seq<Login>, n: nat, max: nat, email: string)
    requires n <= |ls|
  {
    forall k :: 0 <= k < n && ls[k].email == email ==> OutcomeOf(log, ls, k, max) != LoggedIn
  }

  lemma {:induction false} PassedAreCounted(log: seq<Attempt>, ls: seq<Login>, n: nat, max: nat, email: string, t: int)
    requires n <= |ls| && email != "" && NoSuccess(log, ls, n, max, email)
    ensures PassedWithin(log, ls, n, max, email, t) <= CountFailures(After(log, ls, n, max), email, t)
  {
    if n > 0 {
      PassedAreCounted(log, ls, n - 1, max, email, t);
      CountAfterOne(After(log, ls, n - 1, max), ls[n - 1], max, email, t);
    }
  }

  // A login is counted only if, at its check, no more than max failures lay within the window.
  lemma CountedWasUnlocked(log: seq<Attempt>, ls: seq<Login>, n: nat, max: nat, email: string, t: int)
    requires 0 < n <= |ls| && email != ""
    requires PassedWithin(log, ls, n, max, email, t) != PassedWithin(log, ls, n - 1, max, email, t)
    ensures PassedWithin(log, ls, n, max, email, t) == PassedWithin(log, ls, n - 1, max, email, t) + 1
    ensures CountFailures(After(log, ls, n - 1, max), email, t) <= max
  {
    var l, before := ls[n - 1], After(log, ls, n - 1, max);
    CountGrowsBackwards(before, email, t, l.checkAt - WINDOW);
  }

  // While an email sees no successful login, any closed window of fifteen minutes holds at most max + 1 attempts on it
  // that get past the lock, whatever the log held before, however attempts on other emails are mixed in and whatever
  // the clock does. The last of them may be the success that ends the series.
  lemma {:induction false} AtMostMaxPlusOne(log: seq<Attempt>, ls: seq<Login>, n: nat, max: nat, email: string, t: int)
    requires n <= |ls| && email != "" && (n > 0 ==> NoSuccess(log, ls, n - 1, max, email))
    ensures PassedWithin(log, ls, n, max, email, t) <= max + 1
  {
    if n > 0 {
      AtMostMaxPlusOne(log, ls, n - 1, max, email, t);
      if PassedWithin(log, ls, n, max, email, t) != PassedWithin(log, ls, n - 1, max, email, t) {
        CountedWasUnlocked(log, ls, n, max, email, t);
        PassedAreCounted(log, ls, n - 1, max, email, t);
      }
    }
  }

  lemma FailureAdds(log: seq<Attempt>, l: Login, max: nat, since: int)
    requires l.email != "" && l.verdict != Right
    ensures CountFailures(Authenticate(log, l, max).0, l.email, since)
         == CountFailures(log, l.email, since) + if l.recordAt >= since then 1 else 0
  {
    CountAppend(log, Attempt(l.email, l.recordAt, false), l.email, since);
  }

  // The bound is reached, for every limit: max + 1 wrong passwords in one second all get through.
  lemma {:induction false} BarrageCount(ls: seq<Login>, email: string, max: nat, n: nat, since: int)
    requires email != "" && n <= |ls| && since <= 0
    requires forall k :: 0 <= k < n ==> ls[k] == Login(email, 0, 0, WrongPassword)
    ensures CountFailures(After([], ls, n, max), email, since) == n
  {
    if n > 0 {
      BarrageCount(ls, email, max, n - 1, since);
      FailureAdds(After([], ls, n - 1, max), ls[n - 1], max, since);
    }
  }

  lemma PassesIff(log: seq<Attempt>, l: Login, max: nat)
    requires l.email != ""
    ensures PastLock(Authenticate(log, l, max).1) <==> CountFailures(log, l.email, l.checkAt - WINDOW) <= max
  {
  }

  lemma {:induction false} BoundIsReached(ls: seq<Login>, email: string, max: nat, n: nat)
    requires email != "" && n <= |ls| && n <= max + 1
    requires forall k :: 0 <= k < n ==> ls[k] == Login(email, 0, 0, WrongPassword)
    ensures PassedWithin([], ls, n, max, email, 0) == n
  {
    if n > 0 {
      BoundIsReached(ls, email, max, n - 1);
      assert PastLock(OutcomeOf([], ls, n - 1, max)) by {
        BarrageCount(ls, email, max, n - 1, 0 - WINDOW);
        PassesIff(After([], ls, n - 1, max), ls[n - 1], max);
      }
    }
  }

  /******* When a right password gets in *******/

  // The logins on the email among the first n that were recorded at or after the moment.
  function TriesSince(ls: seq<Login>, n: nat, email: string, since: int): nat
    requires n <= |ls|
  {
    if n == 0 then 0
    else TriesSince(ls, n - 1, email, since) + if ls[n - 1].email == email && ls[n - 1].recordAt >= since then 1 else 0
  }

  lemma {:induction false} FailuresAreTries(log: seq<Attempt>, ls: seq<Login>, n: nat, max: nat, email: string, since: int)
    requires n <= |ls| && email != ""
    ensures CountFailures(After(log, ls, n, max), email, since) <= CountFailures(log, email, since) + TriesSince(ls, n, email, since)
  {
    if n > 0 {
      FailuresAreTries(log, ls, n - 1, max, email, since);
      CountAfterOne(After(log, ls, n - 1, max), ls[n - 1], max, email, since);
    }
  }

  // In any run, after at most max tries and old failures of the email within fifteen minutes, its right password is
  // accepted, whatever happened on other emails.
  lemma RightPasswordLogsIn(log: seq<Attempt>, ls: seq<Login>, k: nat, max: nat)
    requires k < |ls| && ls[k].email != "" && ls[k].verdict == Right
    requires var since := ls[k].checkAt - 900;
      |set i | 0 <= i < |log| && log[i].email == ls[k].email && !log[i].success && log[i].at >= since|
        + TriesSince(ls, k, ls[k].email, since) <= max
    ensures OutcomeOf(log, ls, k, max) == LoggedIn
  {
    var email, since := ls[k].email, ls[k].checkAt - 900;
    CountIsPlain(log, email, since);
    FailuresAreTries(log, ls, k, max, email, since);
  }

  /******* When the lock opens *******/

  lemma {:induction false} SilenceUnlocks(log: seq<Attempt>, ls: seq<Login>, n: nat, max: nat, email: string, now: int)
    requires n <= |ls| && email != ""
    requires CountFailures(log, email, now - WINDOW) == 0
    requires forall k :: 0 <= k < n && ls[k].email == email ==> ls[k].recordAt < now - WINDOW
    ensures CountFailures(After(log, ls, n, max), email, now - WINDOW) == 0
    ensures !Locked(After(log, ls, n, max), email, now, max)
  {
    if n > 0 {
      SilenceUnlocks(log, ls, n - 1, max, email, now);
      CountAfterOne(After(log, ls, n - 1, max), ls[n - 1], max, email, now - WINDOW);
    }
  }

  lemma SuccessUnlocks(log: seq<Attempt>, l: Login, max: nat, now: int)
    requires Authenticate(log, l, max).1 == LoggedIn
    ensures !Locked(Authenticate(log, l, max).0, l.email, now, max)
  {
    CountAfterOne(log, l, max, l.email, now - WINDOW);
  }

  // The two logins are the same, or differ in the verdict alone, while the email is locked.
  predicate SameUnlessLocked(log: seq<Attempt>, l: Login, l': Login, max: nat) {
    l' == l || (Locked(log, l.email, l.checkAt, max) && l' == l.(verdict := l'.verdict))
  }

  ghost predicate AlikeUpTo(log: seq<Attempt>, ls: seq<Login>, ls': seq<Login>, n: nat, max: nat)
    requires n <= |ls| == |ls'|
  {
    forall k :: 0 <= k < n ==> SameUnlessLocked(After(log, ls, k, max), ls[k], ls'[k], max)
  }

  // While an email is locked, the right password and a wrong one cannot be told apart, now or by anything later: runs
  // that differ only in the verdicts of logins that meet the lock have the same log and the same outcomes throughout.
  lemma {:induction false} LockHidesVerdicts(log: seq<Attempt>, ls: seq<Login>, ls': seq<Login>, n: nat, max: nat)
    requires n <= |ls| == |ls'| && AlikeUpTo(log, ls, ls', n, max)
    ensures After(log, ls', n, max) == After(log, ls, n, max)
    ensures n > 0 ==> OutcomeOf(log, ls', n - 1, max) == OutcomeOf(log, ls, n - 1, max)
  {
    if n > 0 {
      LockHidesVerdicts(log, ls, ls', n - 1, max);
      var before := After(log, ls, n - 1, max);
      assert SameUnlessLocked(before, ls[n - 1], ls'[n - 1], max);
      LockedAlike(before, ls[n - 1], ls'[n - 1], max);
    }
  }

  lemma LockedAlike(log: seq<Attempt>, l: Login, l': Login, max: nat)
    requires SameUnlessLocked(log, l, l', max)
    ensures Authenticate(log, l', max) == Authenticate(log, l, max)
  {
  }

  /******* One email and the others *******/

  function LoginsOf(ls: seq<Login>, n: nat, email: string): (own: seq<Login>)
    requires n <= |ls|
    ensures |own| <= n
  {
    if n == 0 then []
    else LoginsOf(ls, n - 1, email) + if ls[n - 1].email == email then [ls[n - 1]] else []
  }

  lemma {:induction false} AfterPrefix(log: seq<Attempt>, ls: seq<Login>, more: seq<Login>, n: nat, max: nat)
    requires n <= |ls|
    ensures After(log, ls + more, n, max) == After(log, ls, n, max)
  {
    if n > 0 {
      AfterPrefix(log, ls, more, n - 1, max);
    }
  }

  ghost predicate SameFor(email: string, a: seq<Attempt>, b: seq<Attempt>) {
    forall since :: CountFailures(a, email, since) == CountFailures(b, email, since)
  }

  lemma OneSameFor(a: seq<Attempt>, b: seq<Attempt>, l: Login, max: nat, email: string)
    requires email != "" && SameFor(email, a, b) && l.email == email
    ensures SameFor(email, Authenticate(a, l, max).0, Authenticate(b, l, max).0)
    ensures Authenticate(a, l, max).1 == Authenticate(b, l, max).1
  {
    assert CountFailures(a, email, l.checkAt - WINDOW) == CountFailures(b, email, l.checkAt - WINDOW);
    forall since
      ensures CountFailures(Authenticate(a, l, max).0, email, since) == CountFailures(Authenticate(b, l, max).0, email, since)
    {
      CountAfterOne(a, l, max, email, since);
      CountAfterOne(b, l, max, email, since);
      assert CountFailures(a, email, since) == CountFailures(b, email, since);
    }
  }

  // Whether an email is locked depends on the logins on that email alone: striking all others from a run changes no
  // count of its failures, hence no outcome of its next login.
  lemma {:induction false} OthersDoNotMatter(log: seq<Attempt>, ls: seq<Login>, n: nat, max: nat, email: string)
    requires n <= |ls| && email != ""
    ensures var own := LoginsOf(ls, n, email);
      SameFor(email, After(log, ls, n, max), After(log, own, |own|, max))
  {
    if n > 0 {
      OthersDoNotMatter(log, ls, n - 1, max, email);
      var l, before := ls[n - 1], After(log, ls, n - 1, max);
      var own := LoginsOf(ls, n - 1, email);
      if l.email == email {
        AfterPrefix(log, own, [l], |own|, max);
        OneSameFor(before, After(log, own, |own|, max), l, max, email);
      } else {
        assert LoginsOf(ls, n, email) == own;
        forall since
          ensures CountFailures(After(log, ls, n, max), email, since) == CountFailures(After(log, own, |own|, max), email, since)
        {
          CountAfterOne(before, l, max, email, since);
          assert CountFailures(before, email, since) == CountFailures(After(log, own, |own|, max), email, since);
        }
      }
    }
  }
}
