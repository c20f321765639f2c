/** Password sign-in with account lockout.

    Five wrong passwords lock an account for fifteen minutes; a periodic sweep clears locks that have
    run out.  Times are in seconds. */
module Lockout {
  import opened Wrappers

  const MAX_FAILED_ATTEMPTS := 5
  const LOCKOUT_SECONDS := 900

  datatype Account = Account(attempts: nat, lockedUntil: Option<nat>, banned: bool, active: bool)

  datatype Outcome = SignedIn | RefusedBanned | RefusedLocked | BadCredentials

  datatype Action =
    | Login(passwordOk: bool)
    | Sweep
    | ResetPassword
    | SetStanding(banned: bool, active: bool)

  datatype Event = Event(at: nat, action: Action)

  predicate IsLocked(a: Account, now: nat) {
    a.lockedUntil.Some? && a.lockedUntil.value > now
  }

  // The backend hands out a session only to an active, unbanned, unlocked account.
  predicate CanAuthenticate(a: Account, now: nat) {
    a.active && !a.banned && !IsLocked(a, now)
  }

  function LoginOutcome(a: Account, passwordOk: bool, now: nat): Outcome {
    if passwordOk && CanAuthenticate(a, now) then SignedIn
    else if a.banned then RefusedBanned
    else if IsLocked(a, now) then RefusedLocked
    else BadCredentials
  }

  function Failed(a: Account, now: nat): Account {
    var n := a.attempts + 1;
    a.(attempts := n, lockedUntil := if n >= MAX_FAILED_ATTEMPTS then Some(now + LOCKOUT_SECONDS) else a.lockedUntil)
  }

  function Cleared(a: Account): Account { a.(attempts := 0, lockedUntil := None) }

  function Step(a: Account, e: Event): Account {
    match e.action
    case Login(ok) => (
      match LoginOutcome(a, ok, e.at)
      case SignedIn => Cleared(a)
      case BadCredentials => Failed(a, e.at)
      case _ => a)
    case Sweep => if a.lockedUntil.Some? && a.lockedUntil.value < e.at then Cleared(a) else a
    case ResetPassword => Cleared(a)
    case SetStanding(banned, active) => a.(banned := banned, active := active)
  }

  // ---- runs ------------------------------------------------------------------------------------

  function Run(a: Account, events: seq<Event>): Account {
    if events == [] then a else Step(Run(a, events[..|events| - 1]), events[|events| - 1])
  }

  ghost predicate Timed(events: seq<Event>) {
    forall i, j | 0 <= i < j < |events| :: events[i].at <= events[j].at
  }

  // The wrong passwords that were counted against the account during a run.
  function CountedFailures(a: Account, events: seq<Event>): nat {
    if events == [] then 0
    else
      var was, e := Run(a, events[..|events| - 1]), events[|events| - 1];
      CountedFailures(a, events[..|events| - 1])
      + if e.action.Login? && LoginOutcome(was, e.action.passwordOk, e.at) == BadCredentials then 1 else 0
  }

  // Counted failures that locked the account.
  function Locks(a: Account, events: seq<Event>): nat {
    if events == [] then 0
    else
      var was, e := Run(a, events[..|events| - 1]), events[|events| - 1];
      Locks(a, events[..|events| - 1])
      + if e.action.Login? && LoginOutcome(was, e.action.passwordOk, e.at) == BadCredentials
           && was.attempts + 1 >= MAX_FAILED_ATTEMPTS then 1 else 0
  }

  // Nobody signed in and no password was reset.
  predicate NothingCleared(a: Account, events: seq<Event>) {
    events == [] ||
    var was, e := Run(a, events[..|events| - 1]), events[|events| - 1];
    && NothingCleared(a, events[..|events| - 1])
    && !e.action.ResetPassword?
    && !(e.action.Login? && LoginOutcome(was, e.action.passwordOk, e.at) == SignedIn)
  }

  const FRESH := Account(0, None, false, true)

  // A lock is on record exactly while the counter stands at the threshold.
  predicate Coherent(a: Account) {
    a.attempts >= MAX_FAILED_ATTEMPTS <==> a.lockedUntil.Some?
  }

  lemma {:induction false} EveryRunIsCoherent(a: Account, events: seq<Event>)
    requires Coherent(a)
    ensures Coherent(Run(a, events))
  {
    if events != [] { EveryRunIsCoherent(a, events[..|events| - 1]); }
  }

  // Between clearings, each lock absorbs at most five failures, and the n-th lock cannot end before
  // n full lockouts have passed since `start`.
  lemma {:induction false} LocksPaceFailures(a: Account, events: seq<Event>, start: nat)
    requires Coherent(a) && Timed(events) && NothingCleared(a, events)
    requires forall e | e in events :: e.at >= start
    ensures var now, n := Run(a, events), Locks(a, events);
            && CountedFailures(a, events) <= 5 * n + (if now.lockedUntil.None? then now.attempts else 0)
            && (n > 0 ==> events != [])
            && (n > 0 && now.lockedUntil.Some? ==>
                  && now.lockedUntil.value >= start + LOCKOUT_SECONDS * n
                  && now.lockedUntil.value <= events[|events| - 1].at + LOCKOUT_SECONDS)
            && (n > 0 && now.lockedUntil.None? ==> events[|events| - 1].at >= start + LOCKOUT_SECONDS * n)
  {
    EveryRunIsCoherent(a, events);
    if events != [] {
      var init, e := events[..|events| - 1], events[|events| - 1];
      EveryRunIsCoherent(a, init);
      LocksPaceFailures(a, init, start);
      if init != [] { assert init[|init| - 1] == events[|init| - 1]; }
    }
  }

  // From any reachable account: in the `span` seconds after `start`, without a success or a reset,
  // at most five failures are counted per started lockout period, however sweeps are interleaved.
  lemma FailuresAreBounded(before: seq<Event>, events: seq<Event>, start: nat, span: nat)
    requires Timed(events) && NothingCleared(Run(FRESH, before), events)
    requires forall e | e in events :: start <= e.at <= start + span
    ensures CountedFailures(Run(FRESH, before), events) <= 5 * (1 + span / LOCKOUT_SECONDS)
  {
    var a := Run(FRESH, before);
    EveryRunIsCoherent(FRESH, before);
    LocksPaceFailures(a, events, start);
    EveryRunIsCoherent(a, events);
    var n := Locks(a, events);
    if n > 0 {
      assert events[|events| - 1] in events;
      assert LOCKOUT_SECONDS * n <= span + LOCKOUT_SECONDS;
    }
  }

  // While a lock is on record and has time to run, nothing short of a password reset lifts it: no
  // sign-in succeeds, no failure is counted and the lock is not extended.
  lemma {:induction false} LockHolds(a: Account, events: seq<Event>)
    requires a.lockedUntil.Some?
    requires forall e | e in events :: e.at < a.lockedUntil.value && !e.action.ResetPassword?
    ensures NothingCleared(a, events)
    ensures CountedFailures(a, events) == 0
    ensures Run(a, events).lockedUntil == a.lockedUntil && Run(a, events).attempts == a.attempts
  {
    if events != [] {
      var init, e := events[..|events| - 1], events[|events| - 1];
      assert forall x | x in init :: x in events;
      LockHolds(a, init);
      assert e in events;
    }
  }

  // ---- who gets in -----------------------------------------------------------------------------

  // The standing an administrator gave last; a new account is active and not banned.
  function Banned(events: seq<Event>): bool {
    if events == [] then false
    else if events[|events| - 1].action.SetStanding? then events[|events| - 1].action.banned
    else Banned(events[..|events| - 1])
  }

  function Enabled(events: seq<Event>): bool {
    if events == [] then true
    else if events[|events| - 1].action.SetStanding? then events[|events| - 1].action.active
    else Enabled(events[..|events| - 1])
  }

  lemma {:induction false} StandingIsTheLastGiven(events: seq<Event>)
    ensures Run(FRESH, events).banned == Banned(events) && Run(FRESH, events).active == Enabled(events)
  {
    if events != [] { StandingIsTheLastGiven(events[..|events| - 1]); }
  }

  // After any history a sign-in is decided by the password, the standing and the lock alone: a banned
  // account is told so, a locked one is told so, and of the rest exactly the active ones with the right
  // password get in.  Getting in clears counter and lock, a run-out lock that no sweep has seen included.
  lemma SignInIsDecidedExactly(before: seq<Event>, passwordOk: bool, at: nat)
    ensures var a, after := Run(FRESH, before), Step(Run(FRESH, before), Event(at, Login(passwordOk)));
            var outcome := LoginOutcome(a, passwordOk, at);
            var locked := a.lockedUntil.Some? && at < a.lockedUntil.value;
            && (outcome == SignedIn <==> passwordOk && Enabled(before) && !Banned(before) && !locked)
            && (outcome == RefusedBanned <==> Banned(before))
            && (outcome == RefusedLocked <==> !Banned(before) && locked)
            && (outcome == BadCredentials <==> !Banned(before) && !locked && (!passwordOk || !Enabled(before)))
            && after.banned == a.banned && after.active == a.active
            && (outcome == SignedIn ==> after.attempts == 0 && after.lockedUntil == None)
            && (outcome == BadCredentials ==>
                  && after.attempts == a.attempts + 1
                  && after.lockedUntil == if a.attempts >= 4 then Some(at + 900) else None)
            && (outcome == RefusedBanned || outcome == RefusedLocked ==> after == a)
  {
    StandingIsTheLastGiven(before);
    EveryRunIsCoherent(FRESH, before);
  }

  // A sweep clears counter and lock exactly if a lock has run out, and a reset always.
  lemma SweepClearsExactlyWhatRanOut(before: seq<Event>, at: nat)
    ensures var a := Run(FRESH, before);
            var swept, reset := Step(a, Event(at, Sweep)), Step(a, Event(at, ResetPassword));
            && (a.lockedUntil.Some? && a.lockedUntil.value < at ==>
                  swept.attempts == 0 && swept.lockedUntil == None
                  && swept.banned == a.banned && swept.active == a.active)
            && (!(a.lockedUntil.Some? && a.lockedUntil.value < at) ==> swept == a)
            && reset == Account(0, None, a.banned, a.active)
  {}

  function Guesses(times: seq<nat>, n: nat): seq<Event>
    requires n <= |times|
  {
    if n == 0 then [] else Guesses(times, n - 1) + [Event(times[n - 1], Login(false))]
  }

  lemma {:induction false} GuessesCount(times: seq<nat>, n: nat)
    requires n <= |times| && n <= 5
    ensures Run(FRESH, Guesses(times, n))
            == Account(n, if n < 5 then None else Some(times[4] + 900), false, true)
  {
    if n > 0 {
      GuessesCount(times, n - 1);
      hide Run, Guesses;
      GuessesOneMore(times, n);
      RunOneMore(FRESH, Guesses(times, n - 1), Event(times[n - 1], Login(false)));
    }
  }

  lemma GuessesOneMore(times: seq<nat>, n: nat)
    requires 0 < n <= |times|
    ensures Guesses(times, n) == Guesses(times, n - 1) + [Event(times[n - 1], Login(false))]
  {}

  lemma RunOneMore(a: Account, events: seq<Event>, e: Event)
    ensures Run(a, events + [e]) == Step(Run(a, events), e)
  {
    assert (events + [e])[..|events|] == events;
  }

  // Four wrong passwords change nothing for the right one.  The fifth keeps it out for exactly fifteen
  // minutes, and then lets it in without any sweep.
  lemma FifthWrongPasswordLocksForFifteenMinutes(times: seq<nat>, n: nat, at: nat)
    requires n <= |times| == 5
    ensures var a := Run(FRESH, Guesses(times, n));
            LoginOutcome(a, true, at) == if n == 5 && at < times[4] + 900 then RefusedLocked else SignedIn
    ensures Run(FRESH, Guesses(times, n) + [Event(at, Login(true))])
            == if n == 5 && at < times[4] + 900 then Run(FRESH, Guesses(times, n)) else FRESH
  {
    GuessesCount(times, n);
    hide Run, Guesses;
    RunOneMore(FRESH, Guesses(times, n), Event(at, Login(true)));
  }

  // ---- the service -----------------------------------------------------------------------------

  class LoginService {
    var attempts: nat
    var lockedUntil: Option<nat>
    var banned: bool
    var active: bool

    constructor ()
      ensures State() == FRESH
    {
      attempts, lockedUntil, banned, active := 0, None, false, true;
    }

    function State(): Account
      reads this
    {
      Account(attempts, lockedUntil, banned, active)
    }

    method RegisterFailure(now: nat)
      modifies `attempts, `lockedUntil
      ensures State() == Failed(old(State()), now)
    {
      attempts := attempts + 1;
      if attempts >= MAX_FAILED_ATTEMPTS {
        lockedUntil := Some(now + LOCKOUT_SECONDS);
      }
    }

    method Authenticate(passwordOk: bool, now: nat) returns (outcome: Outcome)
      modifies `attempts, `lockedUntil
      ensures outcome == LoginOutcome(old(State()), passwordOk, now)
      ensures State() == Step(old(State()), Event(now, Login(passwordOk)))
    {
      if !(passwordOk && CanAuthenticate(State(), now)) {
        if banned {
          return RefusedBanned;
        }
        if IsLocked(State(), now) {
          return RefusedLocked;
        }
        RegisterFailure(now);
        return BadCredentials;
      }
      attempts, lockedUntil := 0, None;
      outcome := SignedIn;
    }

    method UnlockExpired(now: nat)
      modifies `attempts, `lockedUntil
      ensures State() == Step(old(State()), Event(now, Sweep))
    {
      if lockedUntil.Some? && lockedUntil.value < now {
        attempts, lockedUntil := 0, None;
      }
    }

    method Reset()
      modifies `attempts, `lockedUntil
      ensures forall now :: State() == Step(old(State()), Event(now, ResetPassword))
    {
      attempts, lockedUntil := 0, None;
    }
  }
}
