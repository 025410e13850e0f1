/**
 * The sliding-window login limiter (cmd/server/auth.go). Login transactions on a key are
 * serialized by its advisory lock, but each reads its clock before it waits for the lock, so
 * the instants may come in any order. Clocks are read in nanoseconds, and the database keeps
 * instants to the nearest microsecond.
 */
module LoginLimiter {
  import opened Prelude

  const SECOND: int := 1_000_000_000
  const MICROSECOND: int := 1000

  /** In microseconds. */
  const WINDOW: int := 900_000_000
  const EMAIL_IP_LIMIT: nat := 5
  const IP_LIMIT: nat := 20

  /** The digests are taken as injective. */
  datatype Key = EmailIp(email: string, ip: string) | Ip(ip: string)

  /** `at` is in microseconds. */
  datatype Failure = Failure(key: Key, at: int)

  /** A login as the limiter sees it: `user` is whom its credentials identify. */
  datatype Login = Login(email: string, ip: string, user: Option<nat>, now: int)

  datatype Outcome = RateLimited(retryAfter: int) | InvalidCredentials | LoggedIn(user: nat)

  datatype User = User(id: nat, password: string, active: bool)

  datatype Audit = Audit(success: bool, actor: Option<nat>, at: int)

  /** An instant as the database keeps it: the nearest microsecond. */
  function Stored(now: int): int
  {
    (now + MICROSECOND / 2) / MICROSECOND
  }

  function Limit(key: Key): nat
  {
    if key.EmailIp? then EMAIL_IP_LIMIT else IP_LIMIT
  }

  predicate IsActive(f: Failure, key: Key, now: int)
  {
    f.key == key && f.at + WINDOW > now
  }

  function ActiveCount(failures: seq<Failure>, key: Key, now: int): (n: nat)
  {
    if failures == [] then 0
    else
      ActiveCount(failures[..|failures| - 1], key, now)
      + if IsActive(failures[|failures| - 1], key, now) then 1 else 0
  }

  /** The first instant at which one of the active failures stops counting. */
  function FirstExpiry(failures: seq<Failure>, key: Key, now: int): (first: Option<int>)
    ensures first.None? <==> ActiveCount(failures, key, now) == 0
    ensures first.Some? ==> first.value > now
    ensures first.Some? ==> exists i :: 0 <= i < |failures| && ExpiresAt(failures[i], key, now, first.value)
  {
    if failures == [] then None
    else
      var last, rest := failures[|failures| - 1], FirstExpiry(failures[..|failures| - 1], key, now);
      assert rest.Some? ==> exists i :: 0 <= i < |failures| && ExpiresAt(failures[i], key, now, rest.value) by {
        if rest.Some? {
          var init := failures[..|failures| - 1];
          var i :| 0 <= i < |init| && ExpiresAt(init[i], key, now, rest.value);
          assert ExpiresAt(failures[i], key, now, rest.value);
        }
      }
      if !IsActive(last, key, now) then rest
      else
        assert ExpiresAt(failures[|failures| - 1], key, now, last.at + WINDOW);
        if rest.None? || last.at + WINDOW < rest.value then Some(last.at + WINDOW) else rest
  }

  predicate ExpiresAt(f: Failure, key: Key, now: int, instant: int)
  {
    IsActive(f, key, now) && f.at + WINDOW == instant
  }

  /** The delay in whole seconds, rounded up. */
  function RetryAfter(failures: seq<Failure>, key: Key, now: int): (seconds: int)
  {
    match FirstExpiry(failures, key, Stored(now))
    case None => 0
    case Some(first) => (first * MICROSECOND - now + SECOND - 1) / SECOND
  }

  function DropKey(failures: seq<Failure>, key: Key): seq<Failure>
  {
    if failures == [] then []
    else
      DropKey(failures[..|failures| - 1], key)
      + if failures[|failures| - 1].key == key then [] else [failures[|failures| - 1]]
  }

  /** The active user with that email and password. */
  function Identified(users: map<string, User>, email: string, password: string): Option<nat>
  {
    if email != "" && password != "" && email in users && users[email].active && users[email].password == password then
      Some(users[email].id)
    else None
  }

  /** One login transaction. */
  function LogIn(failures: seq<Failure>, l: Login): (seq<Failure>, Outcome)
  {
    var k1, k2, at := EmailIp(l.email, l.ip), Ip(l.ip), Stored(l.now);
    if ActiveCount(failures, k1, at) >= EMAIL_IP_LIMIT || ActiveCount(failures, k2, at) >= IP_LIMIT then
      (failures, RateLimited(Max(1, Max(RetryAfter(failures, k1, l.now), RetryAfter(failures, k2, l.now)))))
    else if l.user.None? then (failures + [Failure(k1, at), Failure(k2, at)], InvalidCredentials)
    else (DropKey(failures, k1), LoggedIn(l.user.value))
  }

  function Run(failures: seq<Failure>, logins: seq<Login>): seq<Failure>
    decreases |logins|
  {
    if logins == [] then failures else LogIn(Run(failures, logins[..|logins| - 1]), logins[|logins| - 1]).0
  }

  // ------------------------------------------------------------ the window bound

  /** The stored failures of a key in the half-open window from `from`. */
  function CountIn(failures: seq<Failure>, key: Key, from: int): nat
  {
    if failures == [] then 0
    else
      CountIn(failures[..|failures| - 1], key, from)
      + if InWindow(failures[|failures| - 1], key, from) then 1 else 0
  }

  predicate InWindow(f: Failure, key: Key, from: int)
  {
    f.key == key && from <= f.at < from + WINDOW
  }

  /** Every failure of the window is active at any instant of the window. */
  lemma {:induction false} WindowIsActive(failures: seq<Failure>, key: Key, from: int, now: int)
    requires from <= now < from + WINDOW
    ensures CountIn(failures, key, from) <= ActiveCount(failures, key, now)
  {
    if failures == [] {
    } else {
      WindowIsActive(failures[..|failures| - 1], key, from, now);
    }
  }

  lemma CountInAppend(failures: seq<Failure>, f: Failure, key: Key, from: int)
    ensures CountIn(failures + [f], key, from) == CountIn(failures, key, from) + if InWindow(f, key, from) then 1 else 0
  {
    assert (failures + [f])[..|failures|] == failures;
  }

  lemma {:induction false} DropKeyCountsIn(failures: seq<Failure>, dropped: Key, key: Key, from: int)
    ensures CountIn(DropKey(failures, dropped), key, from) == if key == dropped then 0 else CountIn(failures, key, from)
  {
    if failures == [] {
    } else {
      var init, last := failures[..|failures| - 1], failures[|failures| - 1];
      DropKeyCountsIn(init, dropped, key, from);
      CountInAppend(DropKey(init, dropped), last, key, from);
      assert DropKey(init, dropped) + [] == DropKey(init, dropped);
    }
  }

  lemma {:induction false} DropKeyCountsActive(failures: seq<Failure>, dropped: Key, key: Key, now: int)
    ensures ActiveCount(DropKey(failures, dropped), key, now) == if key == dropped then 0
            else ActiveCount(failures, key, now)
  {
    if failures == [] {
    } else {
      var init, last := failures[..|failures| - 1], failures[|failures| - 1];
      DropKeyCountsActive(init, dropped, key, now);
      ActiveAppend(DropKey(init, dropped), last, key, now);
      assert DropKey(init, dropped) + [] == DropKey(init, dropped);
    }
  }

  lemma ActiveAppend(failures: seq<Failure>, f: Failure, key: Key, now: int)
    ensures ActiveCount(failures + [f], key, now) == ActiveCount(failures, key, now) + if IsActive(f, key, now) then 1
            else 0
  {
    assert (failures + [f])[..|failures|] == failures;
  }

  /** What one login does to the counts of one key. */
  lemma LogInCounts(failures: seq<Failure>, l: Login, key: Key, from: int, now: int)
    ensures var (after, outcome) := LogIn(failures, l);
            var own := key == EmailIp(l.email, l.ip) || key == Ip(l.ip);
            if outcome.InvalidCredentials? && own then
              && CountIn(after, key, from) == CountIn(failures, key, from)
                   + (if from <= Stored(l.now) < from + WINDOW then 1 else 0)
              && ActiveCount(after, key, now) == ActiveCount(failures, key, now)
                   + (if Stored(l.now) + WINDOW > now then 1 else 0)
              && ActiveCount(failures, key, Stored(l.now)) < Limit(key)
            else
              && CountIn(after, key, from) <= CountIn(failures, key, from)
              && ActiveCount(after, key, now) <= ActiveCount(failures, key, now)
  {
    var k1, k2 := EmailIp(l.email, l.ip), Ip(l.ip);
    match LogIn(failures, l).1
    case RateLimited(_) =>
    case InvalidCredentials => FailureCounts(failures, k1, k2, Stored(l.now), key, from, now);
    case LoggedIn(_) =>
      DropKeyCountsIn(failures, k1, key, from);
      DropKeyCountsActive(failures, k1, key, now);
  }

  lemma FailureCounts(failures: seq<Failure>, k1: Key, k2: Key, at: int, key: Key, from: int, now: int)
    requires k1 != k2
    ensures var after, own := failures + [Failure(k1, at), Failure(k2, at)], key == k1 || key == k2;
            && CountIn(after, key, from) == CountIn(failures, key, from) + (if own && from <= at < from + WINDOW then 1
                else 0)
            && ActiveCount(after, key, now) == ActiveCount(failures, key, now) + (if own && at + WINDOW > now then 1
                else 0)
  {
    var f1, f2 := Failure(k1, at), Failure(k2, at);
    assert failures + [f1, f2] == (failures + [f1]) + [f2];
    CountInAppend(failures, f1, key, from);
    CountInAppend(failures + [f1], f2, key, from);
    ActiveAppend(failures, f1, key, now);
    ActiveAppend(failures + [f1], f2, key, now);
  }

  /**
   * After any logins, whatever instants they read and in whatever order, every window of
   * fifteen minutes holds at most five stored failures per email and address and at most
   * twenty per address.
   */
  lemma {:induction false} WindowBound(logins: seq<Login>, key: Key, from: int)
    ensures CountIn(Run([], logins), key, from) <= Limit(key)
    decreases |logins|
  {
    if logins == [] {
    } else {
      var before, l := Run([], logins[..|logins| - 1]), logins[|logins| - 1];
      WindowBound(logins[..|logins| - 1], key, from);
      LogInCounts(before, l, key, from, Stored(l.now));
      if from <= Stored(l.now) < from + WINDOW {
        WindowIsActive(before, key, from, Stored(l.now));
      }
    }
  }

  /** Five failures of an email from an address, and twenty of the address. */
  lemma WindowBoundInNumbers(logins: seq<Login>, email: string, ip: string, from: int)
    ensures CountIn(Run([], logins), EmailIp(email, ip), from) <= 5
    ensures CountIn(Run([], logins), Ip(ip), from) <= 20
  {
    WindowBound(logins, EmailIp(email, ip), from);
    WindowBound(logins, Ip(ip), from);
  }

  lemma {:induction false} DropKeyKeepsOthers(failures: seq<Failure>, key: Key, f: Failure)
    ensures multiset(DropKey(failures, key))[f] == if f.key == key then 0 else multiset(failures)[f]
  {
    if failures == [] {
    } else {
      var init, last := failures[..|failures| - 1], failures[|failures| - 1];
      DropKeyKeepsOthers(init, key, f);
      assert failures == init + [last];
      assert DropKey(init, key) + [] == DropKey(init, key);
    }
  }

  /** What a login answers and leaves behind, whoever its credentials identify. */
  lemma LogInMeaning(failures: seq<Failure>, l: Login, f: Failure)
    ensures var (after, outcome) := LogIn(failures, l);
            var own, address, at := EmailIp(l.email, l.ip), Ip(l.ip), Stored(l.now);
            && (outcome.RateLimited? <==>
                  ActiveCount(failures, own, at) >= 5 || ActiveCount(failures, address, at) >= 20)
            && (outcome.RateLimited? ==>
                  && after == failures && outcome.retryAfter >= 1
                  && outcome.retryAfter >= RetryAfter(failures, own, l.now)
                  && outcome.retryAfter >= RetryAfter(failures, address, l.now)
                  && outcome.retryAfter in {1, RetryAfter(failures, own, l.now), RetryAfter(failures, address, l.now)})
            && (outcome.InvalidCredentials? ==>
                  l.user.None? && after == failures + [Failure(own, at), Failure(address, at)])
            && (outcome.LoggedIn? ==>
                  l.user == Some(outcome.user)
                  && multiset(after)[f] == if f.key == own then 0 else multiset(failures)[f])
  {
    DropKeyKeepsOthers(failures, EmailIp(l.email, l.ip), f);
  }

  // --------------------------------------------------------------- Retry-After

  predicate Monotone(logins: seq<Login>)
  {
    forall i, j :: 0 <= i < j < |logins| ==> logins[i].now <= logins[j].now
  }

  ghost predicate NoneAfter(failures: seq<Failure>, now: int)
  {
    forall i :: 0 <= i < |failures| ==> failures[i].at <= now
  }

  lemma {:induction false} DropKeyKeepsInstants(failures: seq<Failure>, key: Key, now: int)
    requires NoneAfter(failures, now)
    ensures NoneAfter(DropKey(failures, key), now)
  {
    if failures == [] {
    } else {
      DropKeyKeepsInstants(failures[..|failures| - 1], key, now);
    }
  }

  lemma {:induction false} RunKeepsInstants(logins: seq<Login>, now: int)
    requires forall i :: 0 <= i < |logins| ==> logins[i].now <= now
    ensures NoneAfter(Run([], logins), Stored(now))
    decreases |logins|
  {
    if logins == [] {
    } else {
      var before, l := Run([], logins[..|logins| - 1]), logins[|logins| - 1];
      RunKeepsInstants(logins[..|logins| - 1], now);
      DropKeyKeepsInstants(before, EmailIp(l.email, l.ip), Stored(now));
    }
  }

  /** With no failure in the future, the active failures are those of one window. */
  lemma {:induction false} ActiveIsWindow(failures: seq<Failure>, key: Key, now: int)
    requires NoneAfter(failures, now)
    ensures ActiveCount(failures, key, now) == CountIn(failures, key, now - WINDOW + 1)
  {
    if failures == [] {
    } else {
      ActiveIsWindow(failures[..|failures| - 1], key, now);
    }
  }

  lemma {:induction false} ActiveOnlyShrinks(failures: seq<Failure>, key: Key, now: int, later: int)
    requires now <= later
    ensures ActiveCount(failures, key, later) <= ActiveCount(failures, key, now)
    ensures (exists i ::
               0 <= i < |failures| && IsActive(failures[i], key, now) && !IsActive(failures[i], key, later)) ==>
              ActiveCount(failures, key, later) < ActiveCount(failures, key, now)
  {
    if failures == [] {
    } else {
      var init := failures[..|failures| - 1];
      ActiveOnlyShrinks(init, key, now, later);
      if i :| 0 <= i < |failures| && IsActive(failures[i], key, now) && !IsActive(failures[i], key, later) {
        assert i < |init| ==> init[i] == failures[i];
      }
    }
  }

  /** It is the first indeed: no active failure stops counting before it. */
  lemma {:induction false} FirstExpiryIsFirst(failures: seq<Failure>, key: Key, now: int, i: nat)
    requires i < |failures| && IsActive(failures[i], key, now)
    ensures FirstExpiry(failures, key, now).Some? && FirstExpiry(failures, key, now).value <= failures[i].at + WINDOW
  {
    if i < |failures| - 1 {
      FirstExpiryIsFirst(failures[..|failures| - 1], key, now, i);
    }
  }

  /** Once the first of them expired, fewer failures are active. */
  lemma FirstExpiryFrees(failures: seq<Failure>, key: Key, now: int, later: int)
    requires FirstExpiry(failures, key, now).Some? && later >= FirstExpiry(failures, key, now).value
    ensures ActiveCount(failures, key, later) < ActiveCount(failures, key, now)
  {
    var first := FirstExpiry(failures, key, now).value;
    var i :| 0 <= i < |failures| && ExpiresAt(failures[i], key, now, first);
    assert IsActive(failures[i], key, now) && !IsActive(failures[i], key, later);
    ActiveOnlyShrinks(failures, key, now, later);
  }

  lemma RetryCoversExpiry(failures: seq<Failure>, key: Key, now: int)
    ensures var r := RetryAfter(failures, key, now);
            match FirstExpiry(failures, key, Stored(now))
            case None => r == 0
            case Some(first) => (r - 1) * SECOND < first * MICROSECOND - now <= r * SECOND
  {
  }

  /** The login adds no failure for the address: it succeeds, is limited, or comes from elsewhere. */
  predicate AddsNothing(failures: seq<Failure>, l: Login, ip: string)
  {
    l.ip != ip || !LogIn(failures, l).1.InvalidCredentials?
  }

  /** `more` adds no further failure for the address. */
  predicate Quiet(failures: seq<Failure>, more: seq<Login>, ip: string)
    decreases |more|
  {
    more == [] ||
    (Quiet(failures, more[..|more| - 1], ip) && AddsNothing(Run(failures, more[..|more| - 1]), more[|more| - 1], ip))
  }

  lemma {:induction false} QuietOnlyShrinks(failures: seq<Failure>, more: seq<Login>, email: string, ip: string,
                                            now: int)
    requires Quiet(failures, more, ip)
    ensures ActiveCount(Run(failures, more), EmailIp(email, ip), now) <= ActiveCount(failures, EmailIp(email, ip), now)
    ensures ActiveCount(Run(failures, more), Ip(ip), now) <= ActiveCount(failures, Ip(ip), now)
    decreases |more|
  {
    if more == [] {
    } else {
      var before, l := Run(failures, more[..|more| - 1]), more[|more| - 1];
      QuietOnlyShrinks(failures, more[..|more| - 1], email, ip, now);
      LogInCounts(before, l, EmailIp(email, ip), 0, now);
      LogInCounts(before, l, Ip(ip), 0, now);
    }
  }

  /** One key is below its limit again by the time its own retry delay is over. */
  lemma KeyIsFree(failures: seq<Failure>, key: Key, now: int, later: int)
    requires ActiveCount(failures, key, Stored(now)) <= Limit(key)
    requires later >= now + RetryAfter(failures, key, now) * SECOND
    ensures ActiveCount(failures, key, Stored(later)) < Limit(key)
  {
    RetryCoversExpiry(failures, key, now);
    if FirstExpiry(failures, key, Stored(now)).Some? {
      FirstExpiryFrees(failures, key, Stored(now), Stored(later));
    } else {
      ActiveOnlyShrinks(failures, key, Stored(now), Stored(later));
    }
  }

  /**
   * Retry-After is sufficient, and never longer than the window except by the one second that
   * rounding the clock up to a microsecond can cost: with a monotone clock, a client that was told
   * to wait `r` seconds and makes no further failure meanwhile is not limited then.
   */
  lemma RetryAfterSuffices(logins: seq<Login>, l: Login, more: seq<Login>, retry: Login)
    requires Monotone(logins + [l])
    requires LogIn(Run([], logins), l).1.RateLimited?
    requires Quiet(Run([], logins), more, l.ip)
    requires retry.email == l.email && retry.ip == l.ip
    requires retry.now >= l.now + LogIn(Run([], logins), l).1.retryAfter * SECOND
    ensures 1 <= LogIn(Run([], logins), l).1.retryAfter <= if RoundsUp(l.now) then 901 else 900
    ensures !LogIn(Run(Run([], logins), more), retry).1.RateLimited?
  {
    var failures := Run([], logins);
    forall i | 0 <= i < |logins|
      ensures logins[i].now <= l.now
    {
      assert (logins + [l])[i] == logins[i] && (logins + [l])[|logins|] == l;
    }
    RunKeepsInstants(logins, l.now);
    var k1, k2 := EmailIp(l.email, l.ip), Ip(l.ip);
    KeyOfRetry(logins, k1, l.now);
    KeyOfRetry(logins, k2, l.now);
    KeyIsFree(failures, k1, l.now, retry.now);
    KeyIsFree(failures, k2, l.now, retry.now);
    QuietOnlyShrinks(failures, more, l.email, l.ip, Stored(retry.now));
  }

  /** The database's instant is later than the clock that was read. */
  predicate RoundsUp(now: int)
  {
    Stored(now) * MICROSECOND > now
  }

  lemma KeyOfRetry(logins: seq<Login>, key: Key, now: int)
    requires NoneAfter(Run([], logins), Stored(now))
    ensures ActiveCount(Run([], logins), key, Stored(now)) <= Limit(key)
    ensures 0 <= RetryAfter(Run([], logins), key, now) <= if RoundsUp(now) then 901 else 900
    ensures RetryAfter(Run([], logins), key, now) == 901
            <==> RoundsUp(now) && FirstExpiry(Run([], logins), key, Stored(now)) == Some(Stored(now) + WINDOW)
  {
    var failures := Run([], logins);
    ActiveIsWindow(failures, key, Stored(now));
    WindowBound(logins, key, Stored(now) - WINDOW + 1);
    if FirstExpiry(failures, key, Stored(now)).Some? {
      var first := FirstExpiry(failures, key, Stored(now)).value;
      var i :| 0 <= i < |failures| && ExpiresAt(failures[i], key, Stored(now), first);
      assert failures[i].at <= Stored(now);
      DelayBound(first, now);
    }
  }

  lemma DelayBound(first: int, now: int)
    requires Stored(now) < first <= Stored(now) + WINDOW
    ensures var r := (first * MICROSECOND - now + SECOND - 1) / SECOND;
            && 0 <= r <= (if RoundsUp(now) then 901 else 900)
            && (r == 901 <==> RoundsUp(now) && first == Stored(now) + WINDOW)
  {
  }

  const OWN_KEY: Key := EmailIp("a@b", "::1")
  const ADDRESS_KEY: Key := Ip("::1")
  const ROUNDED_UP: Login := Login("a@b", "::1", None, 500)

  lemma AppendedFailure(failures: seq<Failure>, f: Failure, key: Key, now: int)
    ensures FirstExpiry(failures + [f], key, now)
            == (var rest := FirstExpiry(failures, key, now);
                if !IsActive(f, key, now) then rest
                else if rest.None? || f.at + WINDOW < rest.value then Some(f.at + WINDOW) else rest)
  {
    assert (failures + [f])[..|failures|] == failures;
  }

  /** The counts of one key of the example, after `n` failures at instant 1. */
  predicate AfterFailures(failures: seq<Failure>, key: Key, n: nat)
  {
    && ActiveCount(failures, key, 1) == n
    && FirstExpiry(failures, key, 1) == if n == 0 then None else Some(1 + WINDOW)
  }

  lemma OneMoreFailure(failures: seq<Failure>, n: nat)
    requires n < EMAIL_IP_LIMIT && AfterFailures(failures, OWN_KEY, n) && AfterFailures(failures, ADDRESS_KEY, n)
    ensures var after := LogIn(failures, ROUNDED_UP).0;
            AfterFailures(after, OWN_KEY, n + 1) && AfterFailures(after, ADDRESS_KEY, n + 1)
  {
    var f1, f2 := Failure(OWN_KEY, 1), Failure(ADDRESS_KEY, 1);
    assert Stored(500) == 1;
    assert LogIn(failures, ROUNDED_UP).0 == (failures + [f1]) + [f2];
    BothFailures(failures, OWN_KEY, n);
    BothFailures(failures, ADDRESS_KEY, n);
  }

  lemma BothFailures(failures: seq<Failure>, key: Key, n: nat)
    requires key == OWN_KEY || key == ADDRESS_KEY
    requires AfterFailures(failures, key, n)
    ensures AfterFailures((failures + [Failure(OWN_KEY, 1)]) + [Failure(ADDRESS_KEY, 1)], key, n + 1)
  {
    var f1, f2 := Failure(OWN_KEY, 1), Failure(ADDRESS_KEY, 1);
    ActiveAppend(failures, f1, key, 1);
    ActiveAppend(failures + [f1], f2, key, 1);
    AppendedFailure(failures, f1, key, 1);
    AppendedFailure(failures + [f1], f2, key, 1);
  }

  lemma {:induction false} RepeatedFailures(logins: seq<Login>)
    requires |logins| <= EMAIL_IP_LIMIT && forall i :: 0 <= i < |logins| ==> logins[i] == ROUNDED_UP
    ensures AfterFailures(Run([], logins), OWN_KEY, |logins|) && AfterFailures(Run([], logins), ADDRESS_KEY, |logins|)
    decreases |logins|
  {
    if logins == [] {
    } else {
      RepeatedFailures(logins[..|logins| - 1]);
      OneMoreFailure(Run([], logins[..|logins| - 1]), |logins| - 1);
    }
  }

  /**
   * After five failures half a microsecond before the instant that is stored for them, the delay is a
   * second more than the window.
   */
  lemma RoundedUpExample()
    ensures var logins := [ROUNDED_UP, ROUNDED_UP, ROUNDED_UP, ROUNDED_UP, ROUNDED_UP];
            LogIn(Run([], logins), ROUNDED_UP).1 == RateLimited(901)
  {
    var logins := [ROUNDED_UP, ROUNDED_UP, ROUNDED_UP, ROUNDED_UP, ROUNDED_UP];
    RepeatedFailures(logins);
    assert Stored(500) == 1;
  }

  // ------------------------------------------------------------------- the table

  class FailureTable {
    var failures: seq<Failure>
    var audits: seq<Audit>

    constructor ()
      ensures failures == [] && audits == []
    {
      failures, audits := [], [];
    }

    /** SELECT count(*), min(expires_at), and the ceiling of the delay. */
    method ActiveFailureCount(key: Key, now: int) returns (count: nat, retryAfter: int)
      ensures count == ActiveCount(failures, key, Stored(now))
      ensures retryAfter == RetryAfter(failures, key, now)
    {
      var first;
      count, first := CountAndMin(key, Stored(now));
      retryAfter := 0;
      if first.Some? {
        var delay := first.value * MICROSECOND - now;
        if delay > 0 {
          retryAfter := (delay + SECOND - 1) / SECOND;
        }
      }
    }

    /** The query: one pass over the rows. */
    method CountAndMin(key: Key, at: int) returns (count: nat, first: Option<int>)
      ensures count == ActiveCount(failures, key, at) && first == FirstExpiry(failures, key, at)
    {
      count, first := 0, None;
      for k := 0 to |failures|
        invariant count == ActiveCount(failures[..k], key, at) && first == FirstExpiry(failures[..k], key, at)
      {
        assert failures[..k + 1][..k] == failures[..k];
        var f := failures[k];
        if f.key == key && f.at + WINDOW > at {
          count := count + 1;
          if first.None? || f.at + WINDOW < first.value {
            first := Some(f.at + WINDOW);
          }
        }
      }
      assert failures[..|failures|] == failures;
    }

    /** DELETE ... WHERE key_digest = $1. */
    method ClearKey(key: Key)
      modifies this`failures
      ensures failures == DropKey(old(failures), key)
    {
      var kept := [];
      for k := 0 to |failures|
        invariant kept == DropKey(failures[..k], key) && failures == old(failures)
      {
        assert failures[..k + 1][..k] == failures[..k];
        if failures[k].key != key {
          kept := kept + [failures[k]];
        }
      }
      assert failures[..|failures|] == failures;
      failures := kept;
    }

    /** The login transaction; the credentials are looked at only below both limits. */
    method LoginUser(users: map<string, User>, email: string, password: string, ip: string, now: int)
      returns (outcome: Outcome)
      modifies this
      ensures (failures, outcome) == LogIn(old(failures), Login(email, ip, Identified(users, email, password), now))
      ensures var actor := if outcome.RateLimited? || email !in users then None else Some(users[email].id);
              audits == old(audits) + [Audit(outcome.LoggedIn?, actor, now)]
      ensures var own, address := EmailIp(email, ip), Ip(ip);
              var below := ActiveCount(old(failures), own, Stored(now)) < 5
                           && ActiveCount(old(failures), address, Stored(now)) < 20;
              var matches := email != "" && password != "" && email in users
                             && users[email] == User(users[email].id, password, true);
              && (outcome.RateLimited? <==> !below)
              && (outcome.LoggedIn? <==> below && matches)
              && (outcome.InvalidCredentials? <==> below && !matches)
              && (outcome.LoggedIn? ==> outcome.user == users[email].id)
    {
      var emailIpCount, emailIpRetry := ActiveFailureCount(EmailIp(email, ip), now);
      var ipCount, ipRetry := ActiveFailureCount(Ip(ip), now);
      if emailIpCount >= EMAIL_IP_LIMIT || ipCount >= IP_LIMIT {
        var retryAfter := emailIpRetry;
        if ipRetry > retryAfter {
          retryAfter := ipRetry;
        }
        if retryAfter < 1 {
          retryAfter := 1;
        }
        audits := audits + [Audit(false, None, now)];
        return RateLimited(retryAfter);
      }
      var actor: Option<nat> := if email in users then Some(users[email].id) else None;
      var valid := email != "" && password != "" && email in users && users[email].active
        && users[email].password == password;
      if !valid {
        failures := failures + [Failure(EmailIp(email, ip), Stored(now))];
        failures := failures + [Failure(Ip(ip), Stored(now))];
        assert failures == old(failures) + [Failure(EmailIp(email, ip), Stored(now)), Failure(Ip(ip), Stored(now))];
        audits := audits + [Audit(false, actor, now)];
        return InvalidCredentials;
      }
      ClearKey(EmailIp(email, ip));
      audits := audits + [Audit(true, actor, now)];
      return LoggedIn(users[email].id);
    }
  }
}
