/** Brute-force protection of `auth.rs`: throttle, record and clear, in the order in which `login` uses them. */
module LoginThrottling {
  import opened Wrappers
  import opened Numbers

  const MAX_ATTEMPTS := 5
  const LOCKOUT_SECONDS := 900

  /** How many failures, and when the first of them was recorded. Times are seconds on the monotonic clock. */
  datatype Attempts = Attempts(count: nat, first: real)

  type Table = map<string, Attempts>

  /** Whole seconds since an earlier instant, saturating at zero. */
  function Seconds(now: real, since: real): nat {
    if now >= since then (now - since).Floor else 0
  }

  predicate Locked(a: Attempts, now: real) {
    a.count >= MAX_ATTEMPTS && Seconds(now, a.first) < LOCKOUT_SECONDS
  }

  predicate LockExpired(a: Attempts, now: real) {
    a.count >= MAX_ATTEMPTS && Seconds(now, a.first) >= LOCKOUT_SECONDS
  }

  function Throttled(table: Table, user: string, now: real): (Table, bool) {
    if user in table && Locked(table[user], now) then (table, true)
    else if user in table && LockExpired(table[user], now) then (table - {user}, false)
    else (table, false)
  }

  function Failed(table: Table, user: string, now: real): Table {
    if user in table && table[user].count > 0
    then table[user := Attempts(table[user].count + 1, table[user].first)]
    else table[user := Attempts(1, now)]
  }

  /** What the user table and the password check say. */
  datatype Verdict = QueryFailed | Disabled | NoSuchUser | WrongPassword | Success

  datatype Reply = TooManyRequests(remaining: nat) | InternalError | Forbidden | Unauthorized | Ok

  /** One login: when the throttle looks at it, and when its failure would be recorded. */
  datatype Login = Login(user: string, verdict: Verdict, checkedAt: real, recordedAt: real)

  predicate Recorded(v: Verdict) {
    v == NoSuchUser || v == WrongPassword
  }

  function Handled(table: Table, l: Login): Table {
    var (checked, locked) := Throttled(table, l.user, l.checkedAt);
    if locked then checked
    else if Recorded(l.verdict) then Failed(checked, l.user, l.recordedAt)
    else if l.verdict == Success then checked - {l.user}
    else checked
  }

  class LoginThrottle {
    var attempts: Table

    constructor ()
      ensures attempts == map[]
    {
      attempts := map[];
    }

    /** None if the login may go on, otherwise how many seconds of the lockout remain. */
    method CheckLoginThrottle(user: string, now: real) returns (remaining: Option<nat>)
      modifies this
      ensures (attempts, remaining.Some?) == Throttled(old(attempts), user, now)
      ensures remaining.Some? ==>
                && 0 < remaining.value <= LOCKOUT_SECONDS
                && remaining.value + Seconds(now, old(attempts)[user].first) == LOCKOUT_SECONDS
    {
      if user in attempts {
        var a := attempts[user];
        if a.count >= MAX_ATTEMPTS {
          var elapsed := Seconds(now, a.first);
          if elapsed < LOCKOUT_SECONDS {
            return Some(LOCKOUT_SECONDS - elapsed);
          } else {
            attempts := attempts - {user};
          }
        }
      }
      remaining := None;
    }

    method RecordFailedLogin(user: string, now: real)
      modifies this
      ensures attempts == Failed(old(attempts), user, now)
    {
      ghost var was := attempts;
      if user !in attempts {
        attempts := attempts[user := Attempts(0, now)];
      }
      attempts := attempts[user := attempts[user].(count := attempts[user].count + 1)];
      if attempts[user].count == 1 {
        attempts := attempts[user := attempts[user].(first := now)];
      }
      assert attempts == was[user := attempts[user]];
    }

    method ClearFailedLogin(user: string)
      modifies this
      ensures attempts == old(attempts) - {user}
    {
      attempts := attempts - {user};
    }

    method HandleLogin(l: Login) returns (reply: Reply)
      modifies this
      ensures attempts == Handled(old(attempts), l)
      ensures reply.TooManyRequests? <==> Throttled(old(attempts), l.user, l.checkedAt).1
      ensures reply.TooManyRequests? ==>
                && l.user in old(attempts) && old(attempts)[l.user].count >= 5 && 0 < reply.remaining <= 900
                && reply.remaining + Seconds(l.checkedAt, old(attempts)[l.user].first) == 900
                && attempts == old(attempts)
      ensures !reply.TooManyRequests? ==>
                var checked := Throttled(old(attempts), l.user, l.checkedAt).0;
                match l.verdict
                case NoSuchUser | WrongPassword =>
                  && reply == Unauthorized && l.user in attempts
                  && attempts[l.user].count == 1 + (if l.user in checked then checked[l.user].count else 0)
                case Disabled => reply == Forbidden && attempts == checked
                case QueryFailed => reply == InternalError && attempts == checked
                case Success => reply == Ok && l.user !in attempts
    {
      var remaining := CheckLoginThrottle(l.user, l.checkedAt);
      if remaining.Some? {
        return TooManyRequests(remaining.value);
      }
      match l.verdict {
        case QueryFailed => reply := InternalError;
        case Disabled => reply := Forbidden;
        case NoSuchUser | WrongPassword =>
          RecordFailedLogin(l.user, l.recordedAt);
          reply := Unauthorized;
        case Success =>
          ClearFailedLogin(l.user);
          reply := Ok;
      }
    }
  }

  // ---- Runs: the logins of one user are handled one at a time, those of different users overlap freely ----

  function After(logins: seq<Login>): Table {
    if logins == [] then map[] else Handled(After(logins[..|logins| - 1]), logins[|logins| - 1])
  }

  predicate Chronological(logins: seq<Login>) {
    && (forall i :: 0 <= i < |logins| ==> logins[i].checkedAt <= logins[i].recordedAt)
    && (forall i, j :: 0 <= i < j < |logins| && logins[i].user == logins[j].user ==>
          logins[i].recordedAt <= logins[j].checkedAt)
  }

  predicate Refused(logins: seq<Login>, n: nat)
    requires n < |logins|
  {
    Throttled(After(logins[..n]), logins[n].user, logins[n].checkedAt).1
  }

  /** The times of a user's recorded failures since the last success. */
  function Failures(logins: seq<Login>, user: string): seq<real> {
    if logins == [] then [] else
      var n := |logins| - 1;
      var earlier, l := Failures(logins[..n], user), logins[n];
      if l.user != user || Refused(logins, n) then earlier
      else if Recorded(l.verdict) then earlier + [l.recordedAt]
      else if l.verdict == Success then []
      else earlier
  }

  /** What one more login does, verdict by verdict; a refused one does nothing. */
  lemma {:induction false} VerdictsAreLogged(logins: seq<Login>, l: Login)
    ensures var (more, before) := (logins + [l], After(logins));
            var (checked, refused) := Throttled(before, l.user, l.checkedAt);
            if refused then After(more) == before && Failures(more, l.user) == Failures(logins, l.user)
            else match l.verdict
              case NoSuchUser | WrongPassword =>
                && Failures(more, l.user) == Failures(logins, l.user) + [l.recordedAt]
                && After(more) == Failed(checked, l.user, l.recordedAt)
              case Disabled | QueryFailed =>
                Failures(more, l.user) == Failures(logins, l.user) && After(more) == checked
              case Success => Failures(more, l.user) == [] && After(more) == checked - {l.user}
  {
    assert (logins + [l])[..|logins|] == logins;
  }

  /** And it does nothing to other users. */
  lemma OthersAreNotLogged(logins: seq<Login>, l: Login, user: string)
    requires user != l.user
    ensures Failures(logins + [l], user) == Failures(logins, user)
    ensures user in After(logins + [l]) <==> user in After(logins)
    ensures user in After(logins) ==> After(logins + [l])[user] == After(logins)[user]
  {
    assert (logins + [l])[..|logins|] == logins;
  }

  /** Failures come in groups of five; a group starts no sooner than 900 seconds after the group before it. */
  ghost predicate Grouped(log: seq<real>) {
    && (forall i, j :: 0 <= i <= j < |log| ==> log[i] <= log[j])
    && (forall g: nat :: 5 * (g + 1) < |log| ==> Apart(log, g))
  }

  /** Group g + 1 started at least 900 seconds after group g. */
  predicate Apart(log: seq<real>, g: nat)
    requires 5 * (g + 1) < |log|
  {
    log[5 * (g + 1)] >= log[5 * g] + 900.0
  }

  /** The table holds the last group, unless its lockout has expired and it was dropped. */
  ghost predicate Tracks(table: Table, user: string, log: seq<real>, clock: real) {
    && Grouped(log)
    && (forall i :: 0 <= i < |log| ==> log[i] <= clock)
    && (user in table ==>
          && 1 <= table[user].count <= 5 && table[user].count <= |log|
          && (|log| - table[user].count) % 5 == 0
          && table[user].first == log[|log| - table[user].count])
    && (user !in table ==> |log| % 5 == 0 && (log != [] ==> clock >= log[|log| - 5] + 900.0))
  }

  lemma TracksLater(table: Table, user: string, log: seq<real>, clock: real, later: real)
    requires Tracks(table, user, log, clock) && clock <= later
    ensures Tracks(table, user, log, later)
  {}

  lemma ThrottledTracks(table: Table, user: string, log: seq<real>, clock: real, now: real)
    requires Tracks(table, user, log, clock) && clock <= now
    ensures Tracks(Throttled(table, user, now).0, user, log, now)
    ensures !Throttled(table, user, now).1 ==>
              user !in Throttled(table, user, now).0 || Throttled(table, user, now).0[user].count < 5
  {}

  lemma FailedTracks(table: Table, user: string, log: seq<real>, clock: real, now: real)
    requires Tracks(table, user, log, clock) && clock <= now
    requires user in table ==> table[user].count < 5
    ensures Tracks(Failed(table, user, now), user, log + [now], now)
  {
    GroupedMore(log, now);
    hide Grouped;
  }

  /** One more failure keeps the grouping if it is late enough to begin a group, or begins none. */
  lemma GroupedMore(log: seq<real>, now: real)
    requires Grouped(log) && forall i :: 0 <= i < |log| ==> log[i] <= now
    requires log != [] && |log| % 5 == 0 ==> now >= log[|log| - 5] + 900.0
    ensures Grouped(log + [now])
  {
    var after := log + [now];
    forall g: nat | 5 * (g + 1) < |after|
      ensures Apart(after, g)
    {
      if 5 * (g + 1) < |log| {
        assert Apart(log, g);
      } else {
        assert 5 * g == |log| - 5;
      }
    }
  }

  lemma HandledTracks(table: Table, l: Login, log: seq<real>, clock: real)
    requires Tracks(table, l.user, log, clock) && clock <= l.checkedAt <= l.recordedAt
    ensures var refused := Throttled(table, l.user, l.checkedAt).1;
            Tracks(Handled(table, l), l.user,
                   if refused then log
                   else if Recorded(l.verdict) then log + [l.recordedAt]
                   else if l.verdict == Success then []
                   else log, l.recordedAt)
  {
    ThrottledTracks(table, l.user, log, clock, l.checkedAt);
    var (checked, locked) := Throttled(table, l.user, l.checkedAt);
    TracksLater(checked, l.user, log, l.checkedAt, l.recordedAt);
    if !locked && Recorded(l.verdict) {
      FailedTracks(checked, l.user, log, l.checkedAt, l.recordedAt);
    }
    hide Tracks, Throttled, Failed;
    assert l.verdict == Success ==> Tracks(checked - {l.user}, l.user, [], l.recordedAt) by {
      NothingTracked(checked - {l.user}, l.user, l.recordedAt);
    }
  }

  lemma NothingTracked(table: Table, user: string, clock: real)
    requires user !in table
    ensures Tracks(table, user, [], clock)
  {}

  /** A login leaves the entries of all other users alone. */
  lemma StrangerTracks(table: Table, l: Login, user: string, log: seq<real>, clock: real)
    requires Tracks(table, user, log, clock) && l.user != user
    ensures Tracks(Handled(table, l), user, log, clock)
  {
    assert user in Handled(table, l) <==> user in table;
    assert user in table ==> Handled(table, l)[user] == table[user];
    hide Handled;
  }

  /** All logins of the user that have been handled are over. */
  predicate OverBy(logins: seq<Login>, user: string, clock: real) {
    forall i :: 0 <= i < |logins| && logins[i].user == user ==> logins[i].recordedAt <= clock
  }

  lemma {:induction false} RunTracks(logins: seq<Login>, user: string, clock: real)
    requires Chronological(logins) && OverBy(logins, user, clock)
    ensures Tracks(After(logins), user, Failures(logins, user), clock)
  {
    if logins == [] {
      NothingTracked(map[], user, clock);
    } else {
      var n := |logins| - 1;
      var l, earlier := logins[n], Failures(logins[..n], user);
      if l.user == user {
        RunTracks(logins[..n], user, l.checkedAt);
        hide Tracks, Throttled, Handled;
        HandledTracks(After(logins[..n]), l, earlier, l.checkedAt);
        TracksLater(After(logins), user, Failures(logins, user), l.recordedAt, clock);
      } else {
        RunTracks(logins[..n], user, clock);
        hide Tracks, Throttled, Handled;
        StrangerTracks(After(logins[..n]), l, user, earlier, clock);
      }
    }
  }

  /** Some time by which all logins of a run are over. */
  function End(logins: seq<Login>): real {
    if logins == [] then 0.0 else Max(End(logins[..|logins| - 1]), logins[|logins| - 1].recordedAt)
  }

  lemma {:induction false} OverAtEnd(logins: seq<Login>, user: string)
    ensures OverBy(logins, user, End(logins))
  {
    if logins != [] {
      OverAtEnd(logins[..|logins| - 1], user);
    }
  }

  lemma CountNeverExceedsFive(logins: seq<Login>, user: string)
    requires Chronological(logins)
    ensures user in After(logins) ==> 1 <= After(logins)[user].count <= 5
  {
    OverAtEnd(logins, user);
    RunTracks(logins, user, End(logins));
    hide After, Failures, Grouped;
  }

  /**
   * A login is refused exactly when the failures so far fill their groups, and the last group began less than
   * 900 seconds ago.
   */
  lemma RefusedExactly(logins: seq<Login>, n: nat)
    requires Chronological(logins) && n < |logins|
    ensures var log := Failures(logins[..n], logins[n].user);
            Refused(logins, n) <==>
            log != [] && |log| % 5 == 0 && logins[n].checkedAt < log[|log| - 5] + 900.0
  {
    var l := logins[n];
    RunTracks(logins[..n], l.user, l.checkedAt);
    hide After, Failures;
    ThrottledIff(After(logins[..n]), l.user, Failures(logins[..n], l.user), l.checkedAt);
  }

  lemma ThrottledIff(table: Table, user: string, log: seq<real>, now: real)
    requires Tracks(table, user, log, now)
    ensures Throttled(table, user, now).1 <==> log != [] && |log| % 5 == 0 && now < log[|log| - 5] + 900.0
  {
    hide Grouped;
  }

  function CountIn(log: seq<real>, from: real, until: real): nat {
    if log == [] then 0 else
      CountIn(log[..|log| - 1], from, until) + (if from <= log[|log| - 1] < until then 1 else 0)
  }

  lemma {:induction false} CountSpan(log: seq<real>, from: real, until: real) returns (i: nat, j: nat)
    requires CountIn(log, from, until) > 0
    ensures i <= j < |log| && from <= log[i] < until && from <= log[j] < until
    ensures CountIn(log, from, until) <= j - i + 1
  {
    var n := |log| - 1;
    if CountIn(log[..n], from, until) == 0 {
      i, j := n, n;
    } else {
      i, j := CountSpan(log[..n], from, until);
      if from <= log[n] < until {
        j := n;
      }
    }
  }

  lemma {:induction false} GroupsApart(log: seq<real>, g: nat, k: nat)
    requires Grouped(log) && 5 * (g + k) < |log|
    ensures log[5 * (g + k)] >= log[5 * g] + 900.0 * k as real
  {
    if k > 0 {
      GroupsApart(log, g, k - 1);
      assert Apart(log, g + k - 1);
    }
  }

  /** 5 * k + 5 consecutive failures contain the starts of k + 1 groups. */
  lemma ManyFailuresTakeLong(log: seq<real>, i: nat, j: nat, k: nat)
    requires Grouped(log) && j < |log| && j - i + 1 >= 5 * k + 5
    ensures log[j] >= log[i] + 900.0 * k as real
  {
    var g := (i + 4) / 5;
    assert i <= 5 * g <= i + 4 && 5 * (g + k) <= j;
    GroupsApart(log, g, k);
  }

  /** In any half-open window of 900 * k seconds fewer than 5 * (k + 1) failures are recorded. */
  lemma LockoutBound(logins: seq<Login>, user: string, from: real, k: nat)
    requires Chronological(logins)
    ensures CountIn(Failures(logins, user), from, from + 900.0 * k as real) <= 5 * k + 4
  {
    var log, until := Failures(logins, user), from + 900.0 * k as real;
    OverAtEnd(logins, user);
    RunTracks(logins, user, End(logins));
    hide Failures, CountIn;
    if CountIn(log, from, until) > 0 {
      var i, j := CountSpan(log, from, until);
      if j - i + 1 >= 5 * k + 5 {
        ManyFailuresTakeLong(log, i, j, k);
      }
    }
  }

  // ---- The bound is reached ----

  /** A run of one user's logins, all over by time t. */
  predicate UpTo(logins: seq<Login>, user: string, t: real) {
    Chronological(logins) && OverBy(logins, user, t) && forall i :: 0 <= i < |logins| ==> logins[i].user == user
  }

  lemma FailOnce(logins: seq<Login>, user: string, t: real, t': real) returns (more: seq<Login>)
    requires UpTo(logins, user, t) && t <= t'
    requires user in After(logins) ==> !Locked(After(logins)[user], t')
    ensures UpTo(more, user, t')
    ensures After(more) == Failed(Throttled(After(logins), user, t').0, user, t')
    ensures Failures(more, user) == Failures(logins, user) + [t']
  {
    more := logins + [Login(user, WrongPassword, t', t')];
    assert more[..|logins|] == logins;
  }

  function Times(n: nat, t: real): seq<real> {
    seq(n, _ => t)
  }

  /** The entry of a user after a run. */
  predicate Holds(logins: seq<Login>, user: string, a: Attempts) {
    user in After(logins) && After(logins)[user] == a
  }

  lemma FailAgain(logins: seq<Login>, user: string, t: real, t': real, a: Attempts) returns (more: seq<Login>)
    requires UpTo(logins, user, t) && t <= t' && Holds(logins, user, a) && 0 < a.count < 5
    ensures UpTo(more, user, t') && Holds(more, user, a.(count := a.count + 1))
    ensures Failures(more, user) == Failures(logins, user) + [t']
  {
    more := FailOnce(logins, user, t, t');
  }

  /** Failures at one instant that do not run into the limit. */
  lemma {:induction false} Burst(logins: seq<Login>, user: string, t: real, t': real, a: Attempts, n: nat)
      returns (more: seq<Login>)
    requires UpTo(logins, user, t) && t <= t' && Holds(logins, user, a) && 0 < a.count && a.count + n <= 5
    ensures UpTo(more, user, t') && Holds(more, user, a.(count := a.count + n))
    ensures Failures(more, user) == Failures(logins, user) + Times(n, t')
  {
    hide Failures, Holds;
    if n == 0 {
      more := logins;
      assert Failures(logins, user) + Times(0, t') == Failures(logins, user);
    } else {
      var some := Burst(logins, user, t, t', a, n - 1);
      hide UpTo;
      more := FailAgain(some, user, t', t', a.(count := a.count + n - 1));
      assert Times(n, t') == Times(n - 1, t') + [t'];
      assert Failures(logins, user) + Times(n - 1, t') + [t'] == Failures(logins, user) + Times(n, t');
    }
  }

  lemma {:induction false} CountTimes(log: seq<real>, n: nat, t: real, from: real, until: real)
    ensures CountIn(log + Times(n, t), from, until) == CountIn(log, from, until) + (if from <= t < until then n else 0)
  {
    if n == 0 {
      assert log + Times(0, t) == log;
    } else {
      CountTimes(log, n - 1, t, from, until);
      assert (log + Times(n, t))[..|log| + n - 1] == log + Times(n - 1, t);
    }
  }

  /** Once a lockout is over, five more failures at the same instant. */
  lemma FailFive(logins: seq<Login>, user: string, t: real, t': real, first: real) returns (more: seq<Login>)
    requires UpTo(logins, user, t) && t <= t' && Holds(logins, user, Attempts(5, first)) && t' >= first + 900.0
    ensures UpTo(more, user, t') && Holds(more, user, Attempts(5, t'))
    ensures Failures(more, user) == Failures(logins, user) + Times(5, t')
  {
    var some := FailOnce(logins, user, t, t');
    assert Holds(some, user, Attempts(1, t'));
    hide UpTo, Holds, Failures;
    more := Burst(some, user, t', t', Attempts(1, t'), 4);
    assert [t'] + Times(4, t') == Times(5, t');
    assert Failures(logins, user) + [t'] + Times(4, t') == Failures(logins, user) + ([t'] + Times(4, t'));
  }

  /** When lockout number k ends. */
  function Release(k: nat): real {
    900.0 * k as real
  }

  /** One failure at 0 and four at 899: the first lockout, of which one second is left. */
  lemma FirstFive(user: string) returns (logins: seq<Login>)
    ensures UpTo(logins, user, 899.0) && Holds(logins, user, Attempts(5, 0.0))
    ensures Failures(logins, user) == Times(1, 0.0) + Times(4, 899.0)
  {
    assert After([]) == map[] && Failures([], user) == [] && UpTo([], user, 0.0);
    logins := FailOnce([], user, 0.0, 0.0);
    assert Holds(logins, user, Attempts(1, 0.0));
    hide UpTo, Holds, Failures;
    logins := Burst(logins, user, 0.0, 899.0, Attempts(1, 0.0), 4);
    assert [] + [0.0] == Times(1, 0.0);
  }

  lemma FirstFiveCount(until: real)
    requires until > 899.0
    ensures CountIn(Times(1, 0.0) + Times(4, 899.0), 899.0, until) == 4
  {
    CountTimes([], 1, 0.0, 899.0, until);
    CountTimes([] + Times(1, 0.0), 4, 899.0, 899.0, until);
    assert [] + Times(1, 0.0) == Times(1, 0.0);
    assert CountIn([], 899.0, until) == 0;
  }

  /** The first five, and then five more at the end of each of k lockouts. */
  lemma {:induction false} Besiege(user: string, k: nat, until: real) returns (logins: seq<Login>, t: real)
    requires until > 899.0 && until > Release(k)
    ensures UpTo(logins, user, t) && t < Release(k + 1) && Holds(logins, user, Attempts(5, Release(k)))
    ensures CountIn(Failures(logins, user), 899.0, until) == 5 * k + 4
  {
    hide UpTo, Holds, Failures, CountIn;
    if k == 0 {
      logins := FirstFive(user);
      t := 899.0;
      FirstFiveCount(until);
    } else {
      var some, earlier := Besiege(user, k - 1, until);
      t := Release(k);
      logins := FailFive(some, user, earlier, t, Release(k - 1));
      CountTimes(Failures(some, user), 5, t, 899.0, until);
    }
  }

  /** For every k >= 1 the bound is reached: some window of 900 * k seconds has 5 * k + 4 failures. */
  lemma BoundIsReached(user: string, k: nat) returns (logins: seq<Login>)
    requires k >= 1
    ensures Chronological(logins)
    ensures CountIn(Failures(logins, user), 899.0, 899.0 + 900.0 * k as real) == 5 * k + 4
  {
    var t;
    hide CountIn, Failures;
    logins, t := Besiege(user, k, 899.0 + 900.0 * k as real);
  }

  /** The failures of the user in the 900 * k seconds from a time on. */
  function FailuresWithin(logins: seq<Login>, user: string, from: real, k: nat): nat {
    CountIn(Failures(logins, user), from, from + 900.0 * k as real)
  }

  /** No run has more than b failures of the user in any half-open window of 900 * k seconds. */
  ghost predicate Bounds(user: string, k: nat, b: int) {
    forall logins, from: real | Chronological(logins) :: FailuresWithin(logins, user, from, k) <= b
  }

  /** The bound is exact: b bounds the failures of every run in 900 * k seconds if and only if b >= 5 * k + 4. */
  lemma BoundsIff(user: string, k: nat, b: int)
    requires k >= 1
    ensures Bounds(user, k, b) <==> b >= 5 * k + 4
  {
    hide Chronological, CountIn, Failures;
    if b >= 5 * k + 4 {
      forall logins, from: real | Chronological(logins)
        ensures FailuresWithin(logins, user, from, k) <= b
      {
        LockoutBound(logins, user, from, k);
      }
    } else {
      var logins := BoundIsReached(user, k);
      assert Chronological(logins) && FailuresWithin(logins, user, 899.0, k) > b;
    }
  }
}
