/** The in-flight slot of one manager: which call of `ensureFresh` starts a refresh, and which joins one. */
module Coalescer {
  import opened Basics

  /** A run of `doEnsureFresh`: working; settled but its `finally` still to come; or over. */
  datatype RunPhase = Working | Settled | Over
  datatype Run = Run(force: bool, phase: RunPhase)

  /** A caller either shares the promise of a run or waits for a run to be over before it tries again. */
  datatype Wait = Shares(run: nat) | Behind(run: nat)
  datatype Caller = Caller(force: bool, wait: Wait)

  datatype Slot = Slot(run: nat, force: bool)

  /** Runs and callers are known by their position, in order of arrival. */
  datatype Book = Book(inFlight: Option<Slot>, runs: seq<Run>, callers: seq<Caller>)

  datatype Event =
    | Enter(force: bool)   // a new call of ensureFresh
    | Settle(run: nat)     // the body of doEnsureFresh returns or throws
    | Finally(run: nat)    // its finally callback runs; then its promise settles
    | Retry(caller: nat)   // a forced caller that waited calls ensureFresh again

  predicate Enabled(b: Book, e: Event) {
    match e
    case Enter(_) => true
    case Settle(r) => r < |b.runs| && b.runs[r].phase.Working?
    case Finally(r) => r < |b.runs| && b.runs[r].phase.Settled?
    case Retry(c) => c < |b.callers| && b.callers[c].wait.Behind?
                     && b.callers[c].wait.run < |b.runs| && b.runs[b.callers[c].wait.run].phase.Over?
  }

  /** What a call of ensureFresh does to the slot and the runs, and what its caller waits for. */
  function Dispatch(b: Book, force: bool): (Book, Wait) {
    match b.inFlight
    case Some(current) =>
      if !force || current.force then (b, Shares(current.run)) else (b, Behind(current.run))
    case None =>
      (b.(runs := b.runs + [Run(force, Working)], inFlight := Some(Slot(|b.runs|, force))), Shares(|b.runs|))
  }

  function Apply(b: Book, e: Event): Book
    requires Enabled(b, e)
  {
    match e
    case Enter(force) =>
      var (b', w) := Dispatch(b, force);
      b'.(callers := b'.callers + [Caller(force, w)])
    case Settle(r) => b.(runs := b.runs[r := b.runs[r].(phase := Settled)])
    case Finally(r) =>
      b.(runs := b.runs[r := b.runs[r].(phase := Over)],
         inFlight := if b.inFlight.Some? && b.inFlight.value.run == r then None else b.inFlight)
    case Retry(c) =>
      var (b', w) := Dispatch(b, b.callers[c].force);
      b'.(callers := b'.callers[c := b'.callers[c].(wait := w)])
  }

  predicate Inv(b: Book) {
    // the slot denotes exactly the run that is not over
    && (forall r :: 0 <= r < |b.runs| ==>
          (!b.runs[r].phase.Over? <==> b.inFlight == Some(Slot(r, b.runs[r].force))))
    && (b.inFlight.Some? ==>
          var slot := b.inFlight.value;
          slot.run < |b.runs| && !b.runs[slot.run].phase.Over? && slot.force == b.runs[slot.run].force)
    && forall c :: 0 <= c < |b.callers| ==> CallerOk(b, b.callers[c])
  }

  /** A forced caller shares forced runs only; it is made to wait only behind runs that were not forced. */
  predicate CallerOk(b: Book, caller: Caller) {
    && caller.wait.run < |b.runs|
    && (caller.wait.Shares? && caller.force ==> b.runs[caller.wait.run].force)
    && (caller.wait.Behind? ==> caller.force && !b.runs[caller.wait.run].force)
  }

  lemma EventKeepsInv(b: Book, e: Event)
    requires Inv(b) && Enabled(b, e)
    ensures Inv(Apply(b, e))
  {
    var b' := Apply(b, e);
    forall c | 0 <= c < |b'.callers| ensures CallerOk(b', b'.callers[c]) {
      if c < |b.callers| { assert CallerOk(b, b.callers[c]); }
    }
  }

  predicate IsSchedule(books: seq<Book>, events: seq<Event>) {
    && |books| == |events| + 1
    && books[0] == Book(None, [], [])
    && forall i :: 0 <= i < |events| ==> Enabled(books[i], events[i]) && books[i + 1] == Apply(books[i], events[i])
  }

  lemma {:induction false} ScheduleKeepsInv(books: seq<Book>, events: seq<Event>, k: nat)
    requires IsSchedule(books, events) && k < |books|
    ensures Inv(books[k])
  {
    if k > 0 {
      ScheduleKeepsInv(books, events, k - 1);
      EventKeepsInv(books[k - 1], events[k - 1]);
    }
  }

  /** A caller that shares a run shares that same run for ever, and the run never changes its kind. */
  lemma {:induction false} CallersKeepTheirRun(books: seq<Book>, events: seq<Event>, i: nat, k: nat, c: nat)
    requires IsSchedule(books, events) && i <= k < |books| && c < |books[i].callers|
    requires books[i].callers[c].wait.Shares? && books[i].callers[c].wait.run < |books[i].runs|
    ensures c < |books[k].callers| && books[k].callers[c] == books[i].callers[c]
    ensures var r := books[i].callers[c].wait.run;
            r < |books[k].runs| && books[k].runs[r].force == books[i].runs[r].force
    decreases k
  {
    if i < k {
      CallersKeepTheirRun(books, events, i, k - 1, c);
      assert books[k] == Apply(books[k - 1], events[k - 1]);
    }
  }

  predicate UnderWay(b: Book, r: int) {
    0 <= r < |b.runs| && !b.runs[r].phase.Over?
  }

  /**
   At every point of every schedule: two runs are never under way at once; while one is, the slot
   names it; a `finally` always finds its own run in the slot, so it never evicts a later one; and
   a run is started only when the slot is empty.
   */
  lemma OneRunAtATime(books: seq<Book>, events: seq<Event>, k: nat)
    requires IsSchedule(books, events) && k < |books|
    ensures forall r, q :: UnderWay(books[k], r) && UnderWay(books[k], q) ==> r == q
    ensures forall r :: UnderWay(books[k], r) ==>
              books[k].inFlight == Some(Slot(r, books[k].runs[r].force))
    ensures k < |events| && events[k].Finally? ==>
              books[k].inFlight.Some? && books[k].inFlight.value.run == events[k].run && books[k + 1].inFlight.None?
    ensures k < |events| && |books[k + 1].runs| != |books[k].runs| ==>
              forall r :: !UnderWay(books[k], r)
  {
    ScheduleKeepsInv(books, events, k);
    if k < |events| { assert books[k + 1] == Apply(books[k], events[k]); }
  }

  /** Whoever forced a refresh is answered, if at all, by a run that was itself forced. */
  lemma ForcedCallersShareForcedRuns(books: seq<Book>, events: seq<Event>, k: nat, c: nat)
    requires IsSchedule(books, events) && k < |books| && c < |books[k].callers|
    requires books[k].callers[c].force
    ensures books[k].callers[c].wait.run < |books[k].runs|
    ensures books[k].callers[c].wait.Shares? <==> books[k].runs[books[k].callers[c].wait.run].force
  {
    ScheduleKeepsInv(books, events, k);
    assert CallerOk(books[k], books[k].callers[c]);
  }

  /** Which run a call shares or waits behind, given the run under way, if any, when it comes or comes back. */
  ghost predicate Answered(before: Book, after: Book, force: bool, wait: Wait) {
    && (forall r :: UnderWay(before, r) ==>
          after.runs == before.runs && wait == if force && !before.runs[r].force then Behind(r) else Shares(r))
    && ((forall r :: 0 <= r < |before.runs| ==> !UnderWay(before, r)) ==>
          after.runs == before.runs + [Run(force, Working)] && wait == Shares(|before.runs|))
  }

  /**
   A call while a run is under way joins it, unless it forces a refresh that the run does not: then it waits
   behind it.  A call while none is starts one of its own kind.  A caller that comes back is treated the same.
   */
  lemma CallsJoinOrStart(books: seq<Book>, events: seq<Event>, k: nat)
    requires IsSchedule(books, events) && k < |events|
    ensures match events[k]
            case Enter(force) =>
              && |books[k + 1].callers| == |books[k].callers| + 1
              && var caller := books[k + 1].callers[|books[k].callers|];
              && books[k + 1].callers == books[k].callers + [Caller(force, caller.wait)]
              && Answered(books[k], books[k + 1], force, caller.wait)
            case Retry(c) =>
              && c < |books[k].callers| == |books[k + 1].callers|
              && var force, wait := books[k].callers[c].force, books[k + 1].callers[c].wait;
              && books[k + 1].callers == books[k].callers[c := Caller(force, wait)]
              && Answered(books[k], books[k + 1], force, wait)
            case Settle(r) =>
              && r < |books[k].runs| && books[k + 1].callers == books[k].callers
              && books[k + 1].runs == books[k].runs[r := Run(books[k].runs[r].force, Settled)]
            case Finally(r) =>
              && r < |books[k].runs| && books[k + 1].callers == books[k].callers
              && books[k + 1].runs == books[k].runs[r := Run(books[k].runs[r].force, Over)]
  {
    ScheduleKeepsInv(books, events, k);
    assert books[k + 1] == Apply(books[k], events[k]);
    assert books[k].inFlight.Some? ==> UnderWay(books[k], books[k].inFlight.value.run);
    hide CallerOk;
  }

  /** The slot as the manager keeps it, with the runs and callers made visible. */
  class RefreshCoalescer {
    var inFlightRefresh: Option<Slot>
    var runs: seq<Run>
    var callers: seq<Caller>

    function Current(): Book
      reads this
    {
      Book(inFlightRefresh, runs, callers)
    }

    constructor ()
      ensures Current() == Book(None, [], []) && Inv(Current())
    {
      inFlightRefresh, runs, callers := None, [], [];
    }

    method JoinOrStart(force: bool) returns (wait: Wait)
      modifies this`inFlightRefresh, this`runs
      ensures (Current(), wait) == Dispatch(old(Current()), force)
    {
      if inFlightRefresh.Some? {
        var current := inFlightRefresh.value;
        if !force || current.force {
          return Shares(current.run);
        }
        return Behind(current.run);
      }
      var run := |runs|;
      runs := runs + [Run(force, Working)];
      inFlightRefresh := Some(Slot(run, force));
      return Shares(run);
    }

    method EnsureFresh(force: bool) returns (caller: nat)
      requires Inv(Current())
      modifies this
      ensures Inv(Current()) && Current() == Apply(old(Current()), Enter(force))
      ensures caller == |old(callers)|
      ensures old(inFlightRefresh).Some? ==> runs == old(runs) && inFlightRefresh == old(inFlightRefresh)
    {
      EventKeepsInv(Current(), Enter(force));
      caller := |callers|;
      var wait := JoinOrStart(force);
      callers := callers + [Caller(force, wait)];
    }

    method RunSettles(run: nat)
      requires Inv(Current()) && Enabled(Current(), Settle(run))
      modifies this`runs
      ensures Inv(Current()) && Current() == Apply(old(Current()), Settle(run))
    {
      EventKeepsInv(Current(), Settle(run));
      runs := runs[run := runs[run].(phase := Settled)];
    }

    method RunFinally(run: nat)
      requires Inv(Current()) && Enabled(Current(), Finally(run))
      modifies this`runs, this`inFlightRefresh
      ensures Inv(Current()) && Current() == Apply(old(Current()), Finally(run))
      ensures inFlightRefresh.None?
    {
      EventKeepsInv(Current(), Finally(run));
      runs := runs[run := runs[run].(phase := Over)];
      if inFlightRefresh.Some? && inFlightRefresh.value.run == run {
        inFlightRefresh := None;
      }
    }

    method CallerRetries(caller: nat)
      requires Inv(Current()) && Enabled(Current(), Retry(caller))
      modifies this
      ensures Inv(Current()) && Current() == Apply(old(Current()), Retry(caller))
    {
      EventKeepsInv(Current(), Retry(caller));
      var wait := JoinOrStart(callers[caller].force);
      callers := callers[caller := callers[caller].(wait := wait)];
    }
  }
}
