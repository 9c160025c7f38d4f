/** When the answer to a forced refresh was issued, measured against the moment its call read the file. */
module RefreshFreshness {
  import opened Basics
  import opened TokenState
  import opened RefreshProtocol

  /** The states that follow `w`, whatever happened before it. */
  predicate Continues(w: World, worlds: seq<World>, steps: seq<Step>) {
    && |worlds| == |steps| + 1
    && worlds[0] == w
    && forall i :: 0 <= i < |steps| ==> Enabled(worlds[i], steps[i]) && worlds[i + 1] == Apply(worlds[i], steps[i])
  }

  /** One call of `p`, from its first read on. */
  predicate LoadsFirst(steps: seq<Step>, p: nat) {
    && steps != [] && steps[0].Load? && steps[0].p == p
    && forall i :: 0 < i < |steps| ==> !IsCallOf(steps[i], p)
  }

  predicate IsCallOf(step: Step, p: nat) { step.Call? && step.p == p }

  predicate IssuedSince(issued: seq<TokenInfo>, n: nat, accessToken: string) {
    exists j :: n <= j < |issued| && issued[j].accessToken == accessToken
  }

  function Answer(ph: Phase): Option<string> {
    if (ph.Done? || ph.Releasing?) && ph.outcome.Returned? then Some(ph.outcome.accessToken) else None
  }

  /** If `p` has an answer, it is a token the server issued after the first `n`. */
  predicate AnswersSince(w: World, p: nat, n: nat) {
    p < |w.procs| && match Answer(w.procs[p]) case None => true case Some(a) => IssuedSince(w.server.issued, n, a)
  }

  /** The forced call still works from the snapshot `s`. */
  predicate WorksFrom(ph: Phase, s: TokenInfo) {
    match ph
    case Idle => false
    case Loading(_) => false
    case Done(force, first, outcome) => force && (outcome.Returned? ==> first == Some(s))
    case _ => ph.force && ph.snapshot == s
  }

  lemma StepWorksFrom(w: World, step: Step, p: nat, s: TokenInfo)
    requires Enabled(w, step) && p < |w.procs| && WorksFrom(w.procs[p], s) && !IsCallOf(step, p)
    ensures p < |Apply(w, step).procs| && WorksFrom(Apply(w, step).procs[p], s)
    ensures w.server.issued <= Apply(w, step).server.issued
  {
    hide ClassifyToken, ShouldRefresh, ChangedWhileWaiting, RevokedTombstone, NewToken;
  }

  lemma FirstReadIssuesNothing(w: World, step: Step)
    requires Enabled(w, step) && step.Load?
    ensures Apply(w, step).server == w.server
  {
  }

  lemma {:induction false} CallWorksFrom(w: World, worlds: seq<World>, steps: seq<Step>, p: nat, s: TokenInfo, k: nat)
    requires Inv(w) && Continues(w, worlds, steps) && LoadsFirst(steps, p) && 0 < k < |worlds|
    requires p < |worlds[1].procs| && WorksFrom(worlds[1].procs[p], s)
    ensures Inv(worlds[k]) && w.server.issued <= worlds[k].server.issued
    ensures p < |worlds[k].procs| && WorksFrom(worlds[k].procs[p], s)
  {
    hide Inv, WorksFrom, Enabled, PhaseAllows, Apply;
    if k == 1 {
      FirstReadIssuesNothing(w, steps[0]);
    } else {
      CallWorksFrom(w, worlds, steps, p, s, k - 1);
      StepWorksFrom(worlds[k - 1], steps[k - 1], p, s);
    }
    StepKeepsInv(worlds[k - 1], steps[k - 1]);
  }

  /** A strictly newer token than the newest at the time was issued since. */
  lemma NewerIsSince(issued: seq<TokenInfo>, n: nat, a: string, hi: int)
    requires Honest(issued) && 0 < n <= |issued| && NotOlder(issued, issued[n - 1], a, true, hi)
    ensures IssuedSince(issued, n, a)
  {
    var i, j :| 0 <= i <= j <= hi < |issued| && issued[i] == issued[n - 1] && issued[j].accessToken == a && i < j;
    assert i == n - 1;
  }

  /** With no save pending at the read, the answer was issued after it. */
  lemma AnswerPostdatesLoad(w: World, p: nat, worlds: seq<World>, steps: seq<Step>)
    requires Inv(w) && p < |w.procs| && w.procs[p] == Loading(true) && !SavePending(w)
    requires Continues(w, worlds, steps) && LoadsFirst(steps, p)
    ensures AnswersSince(worlds[|steps|], p, |w.server.issued|)
  {
    var n, k := |w.server.issued|, |steps|;
    var newest := w.server.issued[n - 1];
    assert worlds[1] == Apply(w, steps[0]);
    CallWorksFrom(w, worlds, steps, p, newest, k);
    var w' := worlds[k];
    hide Apply, Enabled, Continues, LoadsFirst, SavePending;
    assert PhaseOk(w', p);
    hide Inv;
    if Answer(w'.procs[p]).Some? {
      assert w'.server.issued[n - 1] == newest;
      NewerIsSince(w'.server.issued, n, w'.procs[p].outcome.accessToken, Saved(w'));
    }
  }

  /** With a save pending, the peer saves and releases while the forced call waits, and answers it. */
  function PeerFinishes(p: nat, q: nat): seq<Step> {
    [Load(p, 0.0, 0.0), Save(q), Release(q), Acquire(p), Reread(p, 0.0, 0.0)]
  }

  lemma SaveThenRelease(w: World, p: nat, q: nat, prior: TokenInfo)
    requires |w.server.issued| > 0 && p < |w.procs| && q < |w.procs| && p != q
    requires w.procs[p] == Waiting(true, prior) && w.procs[q].Saving?
    ensures Enabled(w, Save(q))
    ensures var w2 := Apply(w, Save(q));
            && Enabled(w2, Release(q))
            && var w3 := Apply(w2, Release(q));
               && w3.storage == Some(w.procs[q].renewed) && w3.lock.None? && w3.server == w.server
               && |w3.procs| == |w.procs| && w3.procs[p] == w.procs[p]
  {
  }

  lemma RereadAnswers(w: World, p: nat, prior: TokenInfo, renewed: TokenInfo)
    requires |w.server.issued| > 0 && p < |w.procs| && w.procs[p] == Waiting(true, prior)
    requires w.lock.None? && w.storage == Some(renewed)
    requires |renewed.accessToken| > 0 && renewed.accessToken != prior.accessToken
    ensures Enabled(w, Acquire(p))
    ensures var w4 := Apply(w, Acquire(p));
            && Enabled(w4, Reread(p, 0.0, 0.0))
            && var w5 := Apply(w4, Reread(p, 0.0, 0.0));
               && w5.server == w.server && |w5.procs| == |w.procs|
               && Answer(w5.procs[p]) == Some(renewed.accessToken)
  {
  }

  lemma LoadReads(w: World, p: nat, prior: TokenInfo)
    requires |w.server.issued| > 0 && p < |w.procs| && w.procs[p] == Loading(true)
    requires w.storage == Some(prior) && |prior.accessToken| > 0
    ensures Enabled(w, Load(p, 0.0, 0.0)) && Apply(w, Load(p, 0.0, 0.0)) == Move(w, p, Waiting(true, prior))
  {
  }

  lemma PeerHoldsTheLast(w: World, p: nat)
    requires Inv(w) && p < |w.procs| && w.procs[p].Loading? && SavePending(w)
    ensures var issued, q := w.server.issued, w.lock.value;
            && q != p && |issued| > 1
            && w.procs[q].renewed == issued[|issued| - 1] && w.storage == Some(issued[|issued| - 2])
            && |issued[|issued| - 2].accessToken| > 0 && |issued[|issued| - 1].accessToken| > 0
            && issued[|issued| - 1].accessToken != issued[|issued| - 2].accessToken
  {
    assert PhaseOk(w, w.lock.value);
  }

  lemma PendingSaveMayAnswer(w: World, p: nat) returns (worlds: seq<World>, steps: seq<Step>)
    requires Inv(w) && p < |w.procs| && w.procs[p] == Loading(true) && SavePending(w)
    ensures Continues(w, worlds, steps) && LoadsFirst(steps, p)
    ensures var w', issued := worlds[|steps|], w.server.issued;
            w'.server == w.server && p < |w'.procs| && Answer(w'.procs[p]) == Some(issued[|issued| - 1].accessToken)
  {
    var q, issued := w.lock.value, w.server.issued;
    var last, prior := issued[|issued| - 1], issued[|issued| - 2];
    PeerHoldsTheLast(w, p);
    hide Inv, SavePending;
    steps := PeerFinishes(p, q);
    LoadReads(w, p, prior);
    var w1 := Apply(w, steps[0]);
    hide Enabled, Apply;
    assert w1.procs[p] == Waiting(true, prior) && w1.procs[q] == w.procs[q];
    SaveThenRelease(w1, p, q, prior);
    var w2 := Apply(w1, steps[1]);
    var w3 := Apply(w2, steps[2]);
    RereadAnswers(w3, p, prior, last);
    var w4 := Apply(w3, steps[3]);
    worlds := [w, w1, w2, w3, w4, Apply(w4, steps[4])];
    forall i | 0 <= i < 5 ensures Enabled(worlds[i], steps[i]) && worlds[i + 1] == Apply(worlds[i], steps[i]) {
      assert i == 0 || i == 1 || i == 2 || i == 3 || i == 4;
    }
  }

  /**
   Exactly when a forced call can be sure of a token issued after its own read of the file: if, at that
   read, no peer holds a redeemed token that it has not yet saved.  Then every way the run can go on
   answers with such a token; otherwise there is a way to be answered with the peer's.
   */
  lemma ForcedAnswerPostdatesLoadIff(w: World, p: nat)
    requires Inv(w) && p < |w.procs| && w.procs[p] == Loading(true)
    ensures !SavePending(w) <==>
            forall worlds: seq<World>, steps: seq<Step> :: Continues(w, worlds, steps) && LoadsFirst(steps, p) ==>
              AnswersSince(worlds[|steps|], p, |w.server.issued|)
  {
    hide Inv;
    if SavePending(w) {
      var worlds, steps := PendingSaveMayAnswer(w, p);
      hide SavePending, Continues, LoadsFirst;
      assert Honest(w.server.issued) by { HonestInv(w); }
      assert !AnswersSince(worlds[|steps|], p, |w.server.issued|);
    } else {
      forall worlds: seq<World>, steps: seq<Step> | Continues(w, worlds, steps) && LoadsFirst(steps, p)
        ensures AnswersSince(worlds[|steps|], p, |w.server.issued|)
      {
        AnswerPostdatesLoad(w, p, worlds, steps);
      }
    }
  }

  lemma HonestInv(w: World)
    requires Inv(w)
    ensures Honest(w.server.issued)
  {
  }

  /** The same within a whole run: a forced call that reads while no save is pending is answered with a later token. */
  lemma ForcedAnswerPostdatesLoad(worlds: seq<World>, steps: seq<Step>, b: nat, k: nat, p: nat)
    requires IsRun(worlds, steps) && b < k < |worlds|
    requires steps[b].Load? && steps[b].p == p && p < |worlds[b].procs| && worlds[b].procs[p] == Loading(true)
    requires forall i :: b < i < k ==> !IsCallOf(steps[i], p)
    requires !SavePending(worlds[b])
    ensures AnswersSince(worlds[k], p, |worlds[b].server.issued|)
  {
    RunKeepsInv(worlds, steps, b);
    var ws, ss := worlds[b..k + 1], steps[b..k];
    hide Inv, SavePending, Enabled, Apply, Init;
    forall i | 0 <= i < |ss| ensures Enabled(ws[i], ss[i]) && ws[i + 1] == Apply(ws[i], ss[i]) {
      assert ws[i] == worlds[b + i] && ss[i] == steps[b + i];
      assert worlds[b + i + 1] == Apply(worlds[b + i], steps[b + i]);
    }
    AnswerPostdatesLoad(worlds[b], p, ws, ss);
  }
}
