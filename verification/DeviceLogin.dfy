/** The device-code login loop: polling interval, slow-down, and the local deadline (section 3.5 of RFC 8628). */
module DeviceLogin {
  import opened Basics
  import opened TokenState

  datatype PollResult =
    | Success(token: TokenInfo)
    | Denied
    | Expired
    | Pending(slowDown: bool)
    | PollThrows

  datatype LoginOutcome =
    | LoggedIn(token: TokenInfo)
    | AuthorizationDenied
    | TimedOut
    | Aborted
    | Failed
    | OutOfCodes  // the server's device codes, as given, are used up

  /** One poll: when it started, what came back, and how long the loop slept afterwards. */
  datatype Poll = Poll(at: real, result: PollResult, wait: real)

  /** Wall-clock seconds and everything the loop cannot control: answers, aborts and delays are arbitrary. */
  class World {
    var time: real
    var stored: Option<TokenInfo>

    constructor (start: real)
      ensures time == start && stored.None?
    {
      time, stored := start, None;
    }

    function Now(): int
      reads this
    {
      time.Floor
    }

    method Sleep(seconds: real)
      requires seconds >= 0.0
      modifies this`time
      ensures time >= old(time) + seconds
    {
      var delay: real := *;
      time := time + seconds + if delay > 0.0 then delay else 0.0;
    }

    method AskServer() returns (result: PollResult)
      modifies this`time
      ensures time >= old(time)
    {
      result := *;
      Sleep(0.0);
    }

    /** Requesting a device code and showing it to the user. */
    method RequestCode()
      modifies this`time
      ensures time >= old(time)
    {
      Sleep(0.0);
    }

    method SignalAborted() returns (aborted: bool) {
      aborted := *;
    }
  }

  function Max(a: real, b: real): real { if a > b then a else b }

  function SlowDowns(polls: seq<Poll>): nat {
    if polls == [] then 0
    else SlowDowns(polls[..|polls| - 1]) + if polls[|polls| - 1].result == Pending(true) then 1 else 0
  }

  /** The wait owed after these polls: the server's interval, at least a second, and five more per slow-down. */
  function WaitAfter(interval: real, polls: seq<Poll>): real {
    Max(interval, 1.0) + 5.0 * SlowDowns(polls) as real
  }

  /** The polls made for one device code keep the pace: each starts in time and after the wait owed. */
  ghost predicate WellPaced(interval: real, start: real, deadlineAt: int, polls: seq<Poll>) {
    polls != [] ==>
      var before, last := polls[..|polls| - 1], polls[|polls| - 1];
      && WellPaced(interval, start, deadlineAt, before)
      && start <= last.at && last.at.Floor < deadlineAt
      && (before != [] ==> before[|before| - 1].result.Pending?
                           && last.at >= before[|before| - 1].at + before[|before| - 1].wait)
      && (last.result.Pending? ==> last.wait == WaitAfter(interval, polls))
  }

  lemma {:induction false} WellPacedPrefix(interval: real, start: real, deadlineAt: int, polls: seq<Poll>, k: nat)
    requires WellPaced(interval, start, deadlineAt, polls) && k <= |polls|
    ensures WellPaced(interval, start, deadlineAt, polls[..k])
    decreases |polls|
  {
    if k < |polls| {
      WellPacedPrefix(interval, start, deadlineAt, polls[..|polls| - 1], k);
      assert polls[..|polls| - 1][..k] == polls[..k];
    } else {
      assert polls[..k] == polls;
    }
  }

  /**
   What the pace means for the k-th poll: the interval plus five seconds per slow-down so far, within the
   deadline.
   */
  lemma PollAt(interval: real, start: real, deadlineAt: int, polls: seq<Poll>, k: nat)
    requires WellPaced(interval, start, deadlineAt, polls) && k < |polls|
    ensures start <= polls[k].at && polls[k].at.Floor < deadlineAt
    ensures k + 1 < |polls| ==> polls[k].result.Pending?
    ensures k > 0 ==> polls[k].at >= polls[k - 1].at + polls[k - 1].wait
    ensures polls[k].result.Pending? ==> polls[k].wait == WaitAfter(interval, polls[..k + 1])
  {
    WellPacedPrefix(interval, start, deadlineAt, polls, k + 1);
    assert polls[..k + 1][..k] == polls[..k];
    if k + 1 < |polls| {
      WellPacedPrefix(interval, start, deadlineAt, polls, k + 2);
      assert polls[..k + 2][..k + 1] == polls[..k + 1];
    }
  }

  lemma {:induction false} SlowDownsGrow(polls: seq<Poll>, i: nat, j: nat)
    requires i <= j <= |polls|
    ensures SlowDowns(polls[..i]) <= SlowDowns(polls[..j])
    decreases j
  {
    if i < j {
      SlowDownsGrow(polls, i, j - 1);
      assert polls[..j][..j - 1] == polls[..j - 1];
    }
  }

  lemma SlowDownsStep(polls: seq<Poll>, k: nat)
    requires k < |polls|
    ensures SlowDowns(polls[..k + 1]) == SlowDowns(polls[..k]) + if polls[k].result == Pending(true) then 1 else 0
  {
    assert polls[..k + 1][..k] == polls[..k];
  }

  /**
   One wait from the one before: five seconds more exactly after a slow-down.  The first is the server's interval,
   but at least a second.
   */
  lemma WaitFromWait(interval: real, start: real, deadlineAt: int, polls: seq<Poll>, k: nat)
    requires WellPaced(interval, start, deadlineAt, polls) && k < |polls| && polls[k].result.Pending?
    ensures polls[k].wait == (if k > 0 then polls[k - 1].wait else if interval < 1.0 then 1.0 else interval)
                             + (if polls[k].result == Pending(true) then 5.0 else 0.0)
    ensures k > 0 ==> polls[k].at >= polls[k - 1].at + polls[k - 1].wait
  {
    PollAt(interval, start, deadlineAt, polls, k);
    SlowDownsStep(polls, k);
    if k > 0 {
      PollAt(interval, start, deadlineAt, polls, k - 1);
    }
    hide WellPaced, SlowDowns;
    if k == 0 { NoSlowDowns(polls); }
  }

  lemma NoSlowDowns(polls: seq<Poll>)
    ensures SlowDowns(polls[..0]) == 0
  {
  }

  /** Waits never shrink. */
  lemma WaitsGrow(interval: real, start: real, deadlineAt: int, polls: seq<Poll>, i: nat, k: nat)
    requires WellPaced(interval, start, deadlineAt, polls) && i <= k < |polls| && polls[k].result.Pending?
    ensures Max(interval, 1.0) <= polls[i].wait <= polls[k].wait
  {
    PollAt(interval, start, deadlineAt, polls, i);
    PollAt(interval, start, deadlineAt, polls, k);
    SlowDownsGrow(polls, i + 1, k + 1);
  }

  /** `k` intervals of length `m`. */
  function Span(k: nat, m: real): real { k as real * m }

  lemma SpanStep(k: nat, m: real)
    ensures Span(k + 1, m) == Span(k, m) + m
  {
    assert (k + 1) as real == k as real + 1.0;
  }

  lemma {:induction false} SpanAtLeast(k: nat, m: real)
    requires m >= 1.0
    ensures Span(k, m) >= k as real
  {
    hide Span;
    if k == 0 {
      SpanOfNone(m);
    } else {
      SpanStep(k - 1, m);
      SpanAtLeast(k - 1, m);
    }
  }

  lemma SpanOfNone(m: real)
    ensures Span(0, m) == 0.0
  {
  }

  /** No poll comes earlier than the interval allows. */
  lemma {:induction false} PollTimes(interval: real, start: real, deadlineAt: int, polls: seq<Poll>, k: nat)
    requires WellPaced(interval, start, deadlineAt, polls) && k < |polls|
    ensures polls[k].at >= start + Span(k, Max(interval, 1.0))
  {
    hide Span, WellPaced, WaitAfter, Max;
    PollAt(interval, start, deadlineAt, polls, k);
    if k == 0 {
      SpanOfNone(Max(interval, 1.0));
    } else {
      PollAt(interval, start, deadlineAt, polls, k - 1);
      WaitsGrow(interval, start, deadlineAt, polls, k - 1, k - 1);
      PollTimes(interval, start, deadlineAt, polls, k - 1);
      SpanStep(k - 1, Max(interval, 1.0));
    }
  }

  /**
   The loop is bounded by its own pace: fewer than one poll per interval fits before the deadline,
   so a deadline `budget` seconds after the login began allows at most `budget` polls per device code.
   */
  lemma PollsAreBounded(interval: real, start: real, deadlineAt: int, polls: seq<Poll>, budget: nat)
    requires WellPaced(interval, start, deadlineAt, polls) && deadlineAt <= start.Floor + budget
    ensures |polls| > 0 ==> Span(|polls| - 1, Max(interval, 1.0)) < budget as real
    ensures |polls| <= budget
  {
    if |polls| > 0 {
      var n := |polls| - 1;
      SpanAtLeast(n, Max(interval, 1.0));
      hide Span, WellPaced, WaitAfter, Max;
      PollTimes(interval, start, deadlineAt, polls, n);
      PollAt(interval, start, deadlineAt, polls, n);
      Before(polls[n].at, deadlineAt);
      assert start.Floor as real <= start;
      assert deadlineAt as real <= start.Floor as real + budget as real;
    }
  }

  lemma Before(t: real, deadlineAt: int)
    requires t.Floor < deadlineAt
    ensures t < deadlineAt as real
  {
    assert t < (t.Floor + 1) as real;
  }

  predicate EndsExpired(polls: seq<Poll>) { polls != [] && polls[|polls| - 1].result.Expired? }

  /** Polls with one device code until something other than `pending` happens; `None` asks for a new code. */
  method PollDeviceCode(world: World, interval: real, deadlineAt: int)
    returns (outcome: Option<LoginOutcome>, polls: seq<Poll>)
    modifies world
    ensures WellPaced(interval, old(world.time), deadlineAt, polls)
    ensures world.time >= old(world.time)
    ensures world.stored == if outcome.Some? && outcome.value.LoggedIn? then Some(outcome.value.token)
        else old(world.stored)
    ensures match outcome
            case None => EndsExpired(polls)
            case Some(LoggedIn(t)) => polls != [] && polls[|polls| - 1].result == Success(t)
            case Some(AuthorizationDenied) => polls != [] && polls[|polls| - 1].result.Denied?
            case Some(Failed) => polls != [] && polls[|polls| - 1].result.PollThrows?
            case Some(TimedOut) => world.Now() >= deadlineAt && AllPending(polls)
            case Some(Aborted) => AllPending(polls)
            case Some(OutOfCodes) => false
  {
    polls := [];
    var currentInterval := Max(interval, 1.0);
    while true
      invariant WellPaced(interval, old(world.time), deadlineAt, polls)
      invariant forall k :: 0 <= k < |polls| ==> polls[k].result.Pending?
      invariant currentInterval == WaitAfter(interval, polls)
      invariant world.time >= old(world.time)
      invariant polls != [] ==> world.time >= polls[|polls| - 1].at + polls[|polls| - 1].wait
      invariant world.stored == old(world.stored)
      decreases deadlineAt as real - world.time
    {
      var aborted := world.SignalAborted();
      if aborted { return Some(Aborted), polls; }
      if world.Now() >= deadlineAt { return Some(TimedOut), polls; }
      var at := world.time;
      var result := world.AskServer();
      if !result.Pending? {
        assert (polls + [Poll(at, result, 0.0)])[..|polls|] == polls;
        polls := polls + [Poll(at, result, 0.0)];
        match result
        case Success(token) =>
          world.stored := Some(token);
          return Some(LoggedIn(token)), polls;
        case Denied => return Some(AuthorizationDenied), polls;
        case Expired => return None, polls;
        case PollThrows => return Some(Failed), polls;
      }
      if result.slowDown {
        currentInterval := currentInterval + 5.0;
      }
      var p := Poll(at, result, currentInterval);
      assert (polls + [p])[..|polls|] == polls;
      polls := polls + [p];
      world.Sleep(currentInterval);
    }
  }

  lemma {:induction false} StartEarlier(interval: real, earlier: real, start: real, deadlineAt: int, polls: seq<Poll>)
    requires earlier <= start && WellPaced(interval, start, deadlineAt, polls)
    ensures WellPaced(interval, earlier, deadlineAt, polls)
    decreases |polls|
  {
    if polls != [] { StartEarlier(interval, earlier, start, deadlineAt, polls[..|polls| - 1]); }
  }

  predicate AllPending(polls: seq<Poll>) { forall p :: p in polls ==> p.result.Pending? }

  /** The last answer the server gave for the last device code. */
  function LastResult(rounds: seq<seq<Poll>>): Option<PollResult>
    requires rounds != []
  {
    var polls := rounds[|rounds| - 1];
    if polls == [] then None else Some(polls[|polls| - 1].result)
  }

  function CeilSeconds(ms: nat): nat { (ms + 999) / 1000 }

  /** The least whole number of seconds that covers the milliseconds. */
  lemma SecondsCover(ms: nat)
    ensures 1000 * CeilSeconds(ms) >= ms > 1000 * (CeilSeconds(ms) - 1)
  {
  }

  /**
   `intervals` are the polling intervals of the device codes the server will hand out, in order; `requestedAt` is
   when each was asked for, a further one only before the deadline.
   */
  method Login(world: World, intervals: seq<real>, deviceCodeTimeoutMs: nat)
    returns (outcome: LoginOutcome, rounds: seq<seq<Poll>>, requestedAt: seq<real>)
    modifies world
    ensures |rounds| <= |intervals|
    ensures |requestedAt| == |rounds| && forall r :: 0 <= r < |rounds| ==> requestedAt[r] >= old(world.time)
    ensures forall r :: 0 < r < |rounds| ==>
              requestedAt[r].Floor < old(world.Now()) + CeilSeconds(deviceCodeTimeoutMs)
    ensures forall r :: 0 <= r < |rounds| ==> |rounds[r]| <= CeilSeconds(deviceCodeTimeoutMs)
    ensures forall r :: 0 <= r < |rounds| ==>
              WellPaced(intervals[r], requestedAt[r], old(world.Now()) + CeilSeconds(deviceCodeTimeoutMs), rounds[r])
    ensures outcome.LoggedIn? ==> world.stored == Some(outcome.token)
    ensures !outcome.LoggedIn? ==> world.stored == old(world.stored)
    ensures outcome.TimedOut? ==> world.Now() >= old(world.Now()) + CeilSeconds(deviceCodeTimeoutMs)
    ensures forall r :: 0 <= r < |rounds| - 1 ==> EndsExpired(rounds[r])
    ensures match outcome
            case LoggedIn(t) => rounds != [] && LastResult(rounds) == Some(Success(t))
            case AuthorizationDenied => rounds != [] && LastResult(rounds) == Some(Denied)
            case Failed => rounds != [] && LastResult(rounds) == Some(PollThrows)
            case TimedOut => rounds != [] && (AllPending(rounds[|rounds| - 1]) || EndsExpired(rounds[|rounds| - 1]))
            case Aborted => rounds != [] && AllPending(rounds[|rounds| - 1])
            case OutOfCodes => |rounds| == |intervals| && (rounds != [] ==> EndsExpired(rounds[|rounds| - 1]))
  {
    var startedAt := world.Now();
    var budget := CeilSeconds(deviceCodeTimeoutMs);
    var deadlineAt := startedAt + budget;
    rounds, requestedAt := [], [];
    for code := 0 to |intervals|
      invariant |rounds| == |requestedAt| == code
      invariant code > 0 ==> world.Now() < deadlineAt
      invariant forall r :: 0 <= r < code ==> requestedAt[r] >= old(world.time)
      invariant forall r :: 0 < r < code ==> requestedAt[r].Floor < deadlineAt
      invariant world.time >= old(world.time) && world.stored == old(world.stored)
      invariant forall r :: 0 <= r < code ==> |rounds[r]| <= budget
      invariant forall r :: 0 <= r < code ==> EndsExpired(rounds[r])
      invariant forall r :: 0 <= r < code ==> WellPaced(intervals[r], requestedAt[r], deadlineAt, rounds[r])
    {
      requestedAt := requestedAt + [world.time];
      world.RequestCode();
      ghost var start := world.time;
      var settled, polls := PollDeviceCode(world, intervals[code], deadlineAt);
      PollsAreBounded(intervals[code], start, deadlineAt, polls, budget);
      StartEarlier(intervals[code], requestedAt[code], start, deadlineAt, polls);
      rounds := rounds + [polls];
      if settled.Some? {
        return settled.value, rounds, requestedAt;
      }
      if world.Now() >= deadlineAt {
        return TimedOut, rounds, requestedAt;
      }
    }
    return OutOfCodes, rounds, requestedAt;
  }
}
