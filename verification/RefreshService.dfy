/**
 The two halves together: the runs that one manager's slot hands out are the calls of one process of the
 refresh protocol, and a caller is answered with the outcome of the run it shares.
 */
module RefreshService {
  import opened Basics
  import opened TokenState
  import P = RefreshProtocol
  import C = Coalescer

  /** `results` are the outcomes of the runs that have settled. */
  datatype State = State(world: P.World, book: C.Book, results: map<nat, P.Phase>)

  datatype Move = Protocol(step: P.Step) | Manager(event: C.Event)

  predicate Starts(b: C.Book, e: C.Event)
    requires C.Enabled(b, e)
  {
    (e.Enter? || e.Retry?) && b.inFlight.None?
  }

  function ForceOf(b: C.Book, e: C.Event): bool
    requires C.Enabled(b, e)
  {
    match e
    case Enter(force) => force
    case Retry(c) => b.callers[c].force
    case _ => false
  }

  /** The manager is process `me`: only its slot starts a call there, and its run settles when that call is done. */
  predicate Enabled(s: State, me: nat, move: Move) {
    me < |s.world.procs| &&
    match move
    case Protocol(step) => P.Enabled(s.world, step) && !(step.Call? && step.p == me)
    case Manager(e) =>
      && C.Enabled(s.book, e)
      && (e.Settle? ==> s.world.procs[me].Done?)
      && (Starts(s.book, e) ==> P.Enabled(s.world, P.Call(me, ForceOf(s.book, e))))
  }

  function Apply(s: State, me: nat, move: Move): State
    requires Enabled(s, me, move)
  {
    match move
    case Protocol(step) => s.(world := P.Apply(s.world, step))
    case Manager(e) =>
      State(if Starts(s.book, e) then P.Apply(s.world, P.Call(me, ForceOf(s.book, e))) else s.world,
            C.Apply(s.book, e),
            if e.Settle? then s.results[e.run := s.world.procs[me]] else s.results)
  }

  predicate IsHistory(states: seq<State>, moves: seq<Move>, me: nat) {
    && |states| == |moves| + 1
    && P.Init(states[0].world) && me < |states[0].world.procs|
    && states[0].book == C.Book(None, [], []) && states[0].results == map[]
    && forall i :: 0 <= i < |moves| ==>
        Enabled(states[i], me, moves[i]) && states[i + 1] == Apply(states[i], me, moves[i])
  }

  // ---------------------------------------------------------------- what every move keeps

  predicate Rests(ph: P.Phase) { ph.Idle? || ph.Done? }

  predicate Running(b: C.Book) {
    b.inFlight.Some? && b.inFlight.value.run < |b.runs| && b.runs[b.inFlight.value.run].phase.Working?
  }

  /** While the slot's run works the process is in a call of the same kind; otherwise it rests. */
  predicate Linked(w: P.World, b: C.Book, me: nat) {
    && me < |w.procs|
    && if Running(b) then !w.procs[me].Idle? && w.procs[me].force == b.runs[b.inFlight.value.run].force
       else Rests(w.procs[me])
  }

  predicate ResultOk(w: P.World, run: C.Run, result: P.Phase) {
    result.Done? && result.force == run.force && P.OutcomeOk(w, result.force, result.first, result.outcome)
  }

  predicate ResultsOk(w: P.World, b: C.Book, results: map<nat, P.Phase>) {
    forall r: nat :: r in results ==> r < |b.runs| && !b.runs[r].phase.Working? && ResultOk(w, b.runs[r], results[r])
  }

  predicate Inv(s: State, me: nat) {
    P.Inv(s.world) && C.Inv(s.book) && Linked(s.world, s.book, me) && ResultsOk(s.world, s.book, s.results)
  }

  /** Answers stay as new as they were, whatever the processes do next. */
  lemma OutcomeKept(w: P.World, step: P.Step, force: bool, first: Option<TokenInfo>, outcome: P.Outcome)
    requires P.Inv(w) && P.Enabled(w, step) && P.OutcomeOk(w, force, first, outcome)
    ensures P.OutcomeOk(P.Apply(w, step), force, first, outcome)
  {
    P.StepKeepsInv(w, step);
    if !step.Revoke? {
      assert P.PhaseOk(w, step.p);
      P.SavedMoves(w, step);
    }
    IssuedGrows(w, step);
    hide P.Apply, P.Inv, P.PhaseOk, P.FileOk;
    if step.Revoke? { SavedByRevoke(w); }
    P.OutcomeStays(w, P.Apply(w, step), force, first, outcome);
  }

  lemma IssuedGrows(w: P.World, step: P.Step)
    requires P.Enabled(w, step)
    ensures w.server.issued <= P.Apply(w, step).server.issued
  {
    hide P.AfterLoad, P.AfterReread, P.AfterRecover;
  }

  lemma SavedByRevoke(w: P.World)
    requires P.Inv(w)
    ensures P.Enabled(w, P.Revoke)
    ensures P.Saved(P.Apply(w, P.Revoke)) == P.Saved(w) < |P.Apply(w, P.Revoke).server.issued|
  {
  }

  /** A process keeps the kind of its call, and leaves rest only by a new one. */
  lemma KeepsForce(w: P.World, step: P.Step, me: nat)
    requires P.Enabled(w, step) && me < |w.procs| && !(step.Call? && step.p == me)
    ensures var w' := P.Apply(w, step);
            && me < |w'.procs|
            && (w.procs[me].Idle? <==> w'.procs[me].Idle?)
            && (!w.procs[me].Idle? ==> w'.procs[me].force == w.procs[me].force)
            && (Rests(w.procs[me]) ==> w'.procs[me] == w.procs[me])
  {
    hide ClassifyToken, RevokedTombstone, ShouldRefresh, P.ChangedWhileWaiting, P.NewToken;
  }

  lemma ProtocolKeeps(s: State, me: nat, step: P.Step)
    requires Inv(s, me) && Enabled(s, me, Protocol(step))
    ensures Inv(Apply(s, me, Protocol(step)), me)
  {
    var w' := P.Apply(s.world, step);
    P.StepKeepsInv(s.world, step);
    KeepsForce(s.world, step, me);
    hide P.Inv, C.Inv, P.Apply, P.Enabled, P.OutcomeOk;
    forall r: nat | r in s.results ensures ResultOk(w', s.book.runs[r], s.results[r]) {
      OutcomeKept(s.world, step, s.results[r].force, s.results[r].first, s.results[r].outcome);
    }
  }

  /** What a manager's event does to the runs. */
  lemma RunsAfter(b: C.Book, e: C.Event)
    requires C.Inv(b) && C.Enabled(b, e)
    ensures var b' := C.Apply(b, e);
            && |b.runs| <= |b'.runs|
            && (forall r :: 0 <= r < |b.runs| ==>
                  && b'.runs[r].force == b.runs[r].force
                  && (b'.runs[r].phase.Working? ==> b.runs[r].phase.Working?))
            && (Starts(b, e) ==> Running(b') && !Running(b) && b'.runs[b'.inFlight.value.run].force == ForceOf(b, e))
            && (!Starts(b, e) && !e.Settle? ==>
                  (Running(b') <==> Running(b)) && (Running(b) ==> b'.inFlight == b.inFlight))
            && (e.Settle? ==>
                  Running(b) && e.run == b.inFlight.value.run && !Running(b') && !b'.runs[e.run].phase.Working?)
  {
  }

  lemma ManagerKeeps(s: State, me: nat, e: C.Event)
    requires Inv(s, me) && Enabled(s, me, Manager(e))
    ensures Inv(Apply(s, me, Manager(e)), me)
  {
    var s' := Apply(s, me, Manager(e));
    C.EventKeepsInv(s.book, e);
    RunsAfter(s.book, e);
    if Starts(s.book, e) {
      StartKeeps(s, me, e);
    } else {
      if e.Settle? { DoneIsOk(s.world, me); }
      hide P.Inv, C.Inv, P.OutcomeOk, C.Apply, P.Enabled, Running;
      forall r: nat | r in s'.results
        ensures r < |s'.book.runs| && !s'.book.runs[r].phase.Working?
            && ResultOk(s'.world, s'.book.runs[r], s'.results[r])
      {
        if !(e.Settle? && e.run == r) { assert r in s.results; }
      }
    }
  }

  lemma DoneIsOk(w: P.World, me: nat)
    requires P.Inv(w) && me < |w.procs| && w.procs[me].Done?
    ensures P.OutcomeOk(w, w.procs[me].force, w.procs[me].first, w.procs[me].outcome)
  {
    assert P.PhaseOk(w, me);
  }

  lemma StartKeeps(s: State, me: nat, e: C.Event)
    requires Inv(s, me) && Enabled(s, me, Manager(e)) && Starts(s.book, e) && C.Inv(C.Apply(s.book, e))
    ensures Inv(Apply(s, me, Manager(e)), me)
  {
    var call := P.Call(me, ForceOf(s.book, e));
    var s' := Apply(s, me, Manager(e));
    RunsAfter(s.book, e);
    P.StepKeepsInv(s.world, call);
    assert s'.world.procs[me] == P.Loading(ForceOf(s.book, e));
    hide P.Inv, C.Inv, P.OutcomeOk, C.Apply, P.Apply, P.Enabled, Running;
    forall r: nat | r in s'.results ensures ResultOk(s'.world, s'.book.runs[r], s'.results[r]) {
      OutcomeKept(s.world, call, s.results[r].force, s.results[r].first, s.results[r].outcome);
    }
  }

  lemma {:induction false} HistoryKeepsInv(states: seq<State>, moves: seq<Move>, me: nat, k: nat)
    requires IsHistory(states, moves, me) && k < |states|
    ensures Inv(states[k], me)
  {
    if k == 0 {
      P.InitKeepsInv(states[0].world);
    } else {
      HistoryKeepsInv(states, moves, me, k - 1);
      hide Inv;
      match moves[k - 1] {
        case Protocol(step) => ProtocolKeeps(states[k - 1], me, step);
        case Manager(e) => ManagerKeeps(states[k - 1], me, e);
      }
    }
  }

  /** The protocol never stands in the way of the slot: whenever the slot is free, the process can be called. */
  lemma FreeSlotCanStart(states: seq<State>, moves: seq<Move>, me: nat, k: nat, e: C.Event)
    requires IsHistory(states, moves, me) && k < |states|
    requires C.Enabled(states[k].book, e) && !e.Settle?
    ensures Enabled(states[k], me, Manager(e))
  {
    HistoryKeepsInv(states, moves, me, k);
    assert |states[k].world.server.issued| > 0;
  }

  /**
   What a caller is promised, whether it started its run or joined it: the run's own snapshot is the
   measure.  The answer is a token no older than the one the run first read, and for a caller that forced
   the refresh it is a strictly newer one.
   */
  lemma SharedAnswer(states: seq<State>, moves: seq<Move>, me: nat, k: nat, c: nat)
    requires IsHistory(states, moves, me) && k < |states| && c < |states[k].book.callers|
    requires var wait := states[k].book.callers[c].wait; wait.Shares? && wait.run in states[k].results
    ensures var s := states[k];
            var result := s.results[s.book.callers[c].wait.run];
            && result.Done?
            && (s.book.callers[c].force ==> result.force)
            && (result.outcome.Returned? ==>
                  && result.first.Some?
                  && P.NotOlder(s.world.server.issued, result.first.value, result.outcome.accessToken,
                                s.book.callers[c].force, |s.world.server.issued| - 1))
  {
    HistoryKeepsInv(states, moves, me, k);
    var s := states[k];
    var r := s.book.callers[c].wait.run;
    assert C.CallerOk(s.book, s.book.callers[c]);
    assert ResultOk(s.world, s.book.runs[r], s.results[r]);
    hide P.PhaseOk, P.FileOk, C.Inv, IsHistory, Linked, ResultsOk;
    var result := s.results[r];
    if result.outcome.Returned? {
      var issued := s.world.server.issued;
      var i, j :| 0 <= i <= j <= P.Saved(s.world) < |issued| && issued[i] == result.first.value
                  && issued[j].accessToken == result.outcome.accessToken && (result.force ==> i < j);
    }
  }
}
