/**
 * Signing in by having a person approve a code (deviceLogin in internal/cli/login.go): the loop that polls for the answer,
 * as section 3.5 of RFC 8628 has it. What the server answers, how long each poll takes and whether the command was
 * cancelled meanwhile are unknown, so they are given as functions of the number of polls made before.
 */
module DeviceLogin {

  datatype Answer =
    | Approved(token: string)
    | AuthorizationPending
    | SlowDown
    | AccessDenied
    | ExpiredToken
    | DeadlineExceeded
    | Other(error: string)

  datatype Outcome = Token(token: string) | NotInTime | Refused | Expired | Failed(error: string)

  const SECOND := 1_000_000_000

  function Max(a: int, b: int): int
  {
    if a < b then b else a
  }

  /** What the world does: to the k-th poll the answer, the time spent on it beyond the sleep, and the command's own context. */
  datatype World = World(answers: nat -> Answer, took: nat -> nat, cancelled: nat -> bool)

  datatype Start = Start(interval: int, expiresIn: int) {

    function Shortest(): int
    {
      Max(interval, 1)
    }

    function Lifetime(): int
    {
      Max(expiresIn, 60)
    }
  }

  function SlowDowns(w: World, k: nat): (n: nat)
  {
    if k == 0 then 0 else SlowDowns(w, k - 1) + (if w.answers(k - 1).SlowDown? then 1 else 0)
  }

  /** The pause before the k-th poll, in seconds. */
  function Pause(s: Start, w: World, k: nat): int
  {
    s.Shortest() + 5 * SlowDowns(w, k)
  }

  /** The time from the start until k polls were answered. */
  function Elapsed(s: Start, w: World, k: nat): int
  {
    if k == 0 then 0 else Elapsed(s, w, k - 1) + Pause(s, w, k - 1) * SECOND + w.took(k - 1)
  }

  predicate Waits(a: Answer)
  {
    a.AuthorizationPending? || a.SlowDown?
  }

  /** Whether the context that ends with the code is done after k polls. */
  predicate Done(s: Start, w: World, k: nat)
    requires k > 0
  {
    Elapsed(s, w, k) >= s.Lifetime() * SECOND || w.cancelled(k - 1)
  }

  /** The k-th poll leaves the question open and time to ask again. */
  predicate Goes(s: Start, w: World, k: nat)
  {
    Waits(w.answers(k)) && !Done(s, w, k + 1)
  }

  function Verdict(a: Answer): Outcome
  {
    match a
    case Approved(token) => Token(token)
    case AccessDenied => Refused
    case ExpiredToken => Expired
    case Other(error) => Failed(error)
    case DeadlineExceeded => NotInTime
    case AuthorizationPending => NotInTime
    case SlowDown => NotInTime
  }

  /**
   * The loop ends with the first poll that is answered for good or after which time is up, with what that poll says; before
   * each it pauses for the interval and five seconds more for each slow_down so far; and it ends.
   */
  method DeviceLogin(s: Start, w: World) returns (outcome: Outcome, pauses: seq<int>)
    ensures |pauses| > 0
    ensures forall k :: 0 <= k < |pauses| ==> pauses[k] == (Max(s.interval, 1) + 5 * SlowDowns(w, k)) * 1_000_000_000
    ensures forall k :: 0 <= k < |pauses| - 1 ==> Goes(s, w, k)
    ensures !Goes(s, w, |pauses| - 1)
    ensures outcome == Verdict(w.answers(|pauses| - 1))
  {
    var interval := Max(s.interval, 1) * SECOND;
    var deadline := Max(s.expiresIn, 60) * SECOND;
    var clock := 0;
    pauses := [];
    while true
      invariant interval == Pause(s, w, |pauses|) * SECOND
      invariant clock == Elapsed(s, w, |pauses|)
      invariant forall k :: 0 <= k < |pauses| ==> pauses[k] == Pause(s, w, k) * SECOND
      invariant forall k :: 0 <= k < |pauses| ==> Goes(s, w, k)
      invariant |pauses| > 0 ==> clock < deadline
      decreases deadline - clock
    {
      var k := |pauses|;
      pauses := pauses + [interval];
      clock := clock + interval + w.took(k);
      match w.answers(k) {
        case Approved(token) => return Token(token), pauses;
        case DeadlineExceeded => return NotInTime, pauses;
        case AuthorizationPending =>
        case SlowDown => interval := interval + 5 * SECOND;
        case AccessDenied => return Refused, pauses;
        case ExpiredToken => return Expired, pauses;
        case Other(error) => return Failed(error), pauses;
      }
      if clock >= deadline || w.cancelled(k) {
        return NotInTime, pauses;
      }
    }
  }

  /** What the last poll's answer comes to: a token if and only if it gave that token, and likewise for every other end. */
  lemma VerdictSays(a: Answer)
    ensures forall token :: Verdict(a) == Token(token) <==> a == Approved(token)
    ensures Verdict(a) == Refused <==> a == AccessDenied
    ensures Verdict(a) == Expired <==> a == ExpiredToken
    ensures forall error :: Verdict(a) == Failed(error) <==> a == Other(error)
    ensures Verdict(a) == NotInTime <==> a in {DeadlineExceeded, AuthorizationPending, SlowDown}
  {
  }

  /** What the loop's contract says of a number of polls. */
  ghost predicate Polls(s: Start, w: World, n: nat)
  {
    && n > 0
    && (forall k :: 0 <= k < n - 1 ==> Goes(s, w, k))
    && !Goes(s, w, n - 1)
  }

  /** The polls and the answer depend on nothing else. */
  lemma OneWayToEnd(s: Start, w: World, m: nat, n: nat)
    requires Polls(s, w, m) && Polls(s, w, n)
    ensures m == n
  {
    var i: nat, j: nat := m - 1, n - 1;
    assert i < j ==> Goes(s, w, i);
    assert j < i ==> Goes(s, w, j);
  }

  /** The seconds slept before the first k polls. */
  function Slept(s: Start, w: World, k: nat): int
  {
    if k == 0 then 0 else Slept(s, w, k - 1) + Pause(s, w, k - 1)
  }

  lemma {:induction false} TimePassesWhileAsleep(s: Start, w: World, k: nat)
    ensures Elapsed(s, w, k) >= Slept(s, w, k) * SECOND
  {
    if k > 0 {
      TimePassesWhileAsleep(s, w, k - 1);
    }
  }

  /** k polls take k times the interval, and what every slow_down adds to each pause after it. */
  lemma {:induction false} PausesAddUp(s: Start, w: World, k: nat, j: nat)
    requires j <= k
    ensures Slept(s, w, k) >= Product(k, s.Shortest()) + 5 * Product(k - j, SlowDowns(w, j))
    ensures SlowDowns(w, j) <= SlowDowns(w, k)
  {
    if j < k {
      PausesAddUp(s, w, k - 1, j);
    } else if k > 0 {
      PausesAddUp(s, w, k - 1, k - 1);
    }
  }

  function Product(n: nat, a: int): (p: int)
    ensures p == n * a
    ensures a >= 1 ==> p >= n
  {
    if n == 0 then 0 else a + Product(n - 1, a)
  }

  /**
   * The polls fit in the life of the code: all but the last, at least the interval apart and further apart after each
   * slow_down, come before it ends. In particular there are at most as many as the code lives seconds.
   */
  lemma PollsFitInTheLifetime(s: Start, w: World, n: nat, j: nat)
    requires Polls(s, w, n) && j <= n - 1
    ensures (n - 1) * s.Shortest() + 5 * ((n - 1 - j) * SlowDowns(w, j)) < s.Lifetime()
    ensures n <= Max(s.expiresIn, 60)
  {
    if n > 1 {
      var last := n - 2;
      assert Goes(s, w, last);
      TimePassesWhileAsleep(s, w, n - 1);
      PausesAddUp(s, w, n - 1, j);
      PausesAddUp(s, w, n - 1, 0);
    }
  }
}
