/**
 Token refresh by any number of processes that share one token file, one cross-process lock
 and one server which rotates refresh tokens.  Each `await` of `doEnsureFresh` ends one atomic
 step; steps of different processes interleave freely.
 */
module RefreshProtocol {
  import opened Basics
  import opened TokenState

  datatype Outcome = Returned(accessToken: string) | Unauthorized | OtherError

  /** Where one call of `doEnsureFresh` stands.  `snapshot` is the token of its first read. */
  datatype Phase =
    | Idle
    | Loading(force: bool)
    | Waiting(force: bool, snapshot: TokenInfo)
    | Rereading(force: bool, snapshot: TokenInfo)
    | Redeeming(force: bool, snapshot: TokenInfo, active: TokenInfo)
    | Saving(force: bool, snapshot: TokenInfo, renewed: TokenInfo)
    | Recovering(force: bool, snapshot: TokenInfo, active: TokenInfo)
    | Tombstoning(force: bool, snapshot: TokenInfo, active: TokenInfo)
    | Releasing(force: bool, snapshot: TokenInfo, outcome: Outcome)
    | Done(force: bool, first: Option<TokenInfo>, outcome: Outcome)

  /** `issued` lists every token the server ever gave out; only the last one can be redeemed. */
  datatype Server = Server(issued: seq<TokenInfo>, revoked: bool)

  datatype World = World(storage: Option<TokenInfo>, lock: Option<nat>, server: Server, procs: seq<Phase>)

  datatype Step =
    | Call(p: nat, force: bool)
    | Load(p: nat, now: real, threshold: real)
    | Acquire(p: nat)
    | LockFails(p: nat)
    | Reread(p: nat, now: real, threshold: real)
    | RedeemAccepted(p: nat, renewed: TokenInfo)
    | RedeemRejected(p: nat)
    | RedeemFails(p: nat)
    | Save(p: nat)
    | Recover(p: nat)
    | Tombstone(p: nat)
    | Release(p: nat)
    | Revoke

  function Current(w: World): string
    requires |w.server.issued| > 0
  {
    w.server.issued[|w.server.issued| - 1].refreshToken
  }

  /** The server never repeats a token and never hands out an empty one. */
  predicate NewToken(issued: seq<TokenInfo>, t: TokenInfo) {
    && |t.accessToken| > 0 && |t.refreshToken| > 0
    && forall i :: 0 <= i < |issued| ==>
         issued[i].refreshToken != t.refreshToken && issued[i].accessToken != t.accessToken
  }

  predicate Enabled(w: World, step: Step) {
    && |w.server.issued| > 0
    && (step.Revoke? || (step.p < |w.procs| && PhaseAllows(w, step)))
  }

  predicate PhaseAllows(w: World, step: Step)
    requires !step.Revoke? && step.p < |w.procs| && |w.server.issued| > 0
  {
    var ph := w.procs[step.p];
    match step
    case Call(_, _) => ph.Idle? || ph.Done?
    case Load(_, _, _) => ph.Loading?
    case Acquire(_) => ph.Waiting? && w.lock.None?
    case LockFails(_) => ph.Waiting?
    case Reread(_, _, _) => ph.Rereading?
    case RedeemAccepted(_, renewed) =>
      ph.Redeeming? && !w.server.revoked && ph.active.refreshToken == Current(w) && NewToken(w.server.issued, renewed)
    case RedeemRejected(_) => ph.Redeeming? && (w.server.revoked || ph.active.refreshToken != Current(w))
    case RedeemFails(_) => ph.Redeeming?
    case Save(_) => ph.Saving?
    case Recover(_) => ph.Recovering?
    case Tombstone(_) => ph.Tombstoning?
    case Release(_) => ph.Releasing?
  }

  function AfterLoad(stored: Option<TokenInfo>, force: bool, now: real, threshold: real): Phase {
    match ClassifyToken(stored)
    case Missing => Done(force, None, Unauthorized)
    case Revoked(_, _) => Done(force, None, Unauthorized)
    case Valid(token) =>
      if ShouldRefresh(token, force, now, threshold) then Waiting(force, token)
      else Done(force, Some(token), Returned(token.accessToken))
  }

  predicate ChangedWhileWaiting(after: TokenInfo, snapshot: TokenInfo) {
    || after.refreshToken != snapshot.refreshToken
    || after.accessToken != snapshot.accessToken
    || after.expiresAt != snapshot.expiresAt
    || after.expiresIn != snapshot.expiresIn
  }

  function Activate(force: bool, snapshot: TokenInfo, active: TokenInfo): Phase {
    if |active.refreshToken| == 0 then Releasing(force, snapshot, Unauthorized)
    else Redeeming(force, snapshot, active)
  }

  function AfterReread(stored: Option<TokenInfo>, force: bool, snapshot: TokenInfo, now: real, threshold: real): Phase {
    match ClassifyToken(stored)
    case Revoked(_, _) => Releasing(force, snapshot, Unauthorized)
    case Missing => Activate(force, snapshot, snapshot)
    case Valid(after) =>
      if !ShouldRefresh(after, force, now, threshold) then Releasing(force, snapshot, Returned(after.accessToken))
      else if force && ChangedWhileWaiting(after, snapshot) then Releasing(force, snapshot, Returned(after.accessToken))
      else Activate(force, snapshot, after)
  }

  function AfterRecover(stored: Option<TokenInfo>, force: bool, snapshot: TokenInfo, active: TokenInfo): Phase {
    match ClassifyToken(stored)
    case Valid(token) =>
      if token.refreshToken != active.refreshToken then Releasing(force, snapshot, Returned(token.accessToken))
      else Tombstoning(force, snapshot, active)
    case _ => Tombstoning(force, snapshot, active)
  }

  function Move(w: World, p: nat, phase: Phase): World
    requires p < |w.procs|
  {
    w.(procs := w.procs[p := phase])
  }

  function Apply(w: World, step: Step): World
    requires Enabled(w, step)
  {
    if step.Revoke? then w.(server := w.server.(revoked := true)) else
    var ph := w.procs[step.p];
    match step
    case Call(p, force) => Move(w, p, Loading(force))
    case Load(p, now, threshold) => Move(w, p, AfterLoad(w.storage, ph.force, now, threshold))
    case Acquire(p) => Move(w, p, Rereading(ph.force, ph.snapshot)).(lock := Some(p))
    case LockFails(p) => Move(w, p, Done(ph.force, Some(ph.snapshot), OtherError))
    case Reread(p, now, threshold) => Move(w, p, AfterReread(w.storage, ph.force, ph.snapshot, now, threshold))
    case RedeemAccepted(p, renewed) =>
      Move(w, p, Saving(ph.force, ph.snapshot, renewed)).(server := w.server.(issued := w.server.issued + [renewed]))
    case RedeemRejected(p) => Move(w, p, Recovering(ph.force, ph.snapshot, ph.active))
    case RedeemFails(p) => Move(w, p, Releasing(ph.force, ph.snapshot, OtherError))
    case Save(p) =>
      Move(w, p, Releasing(ph.force, ph.snapshot, Returned(ph.renewed.accessToken))).(storage := Some(ph.renewed))
    case Recover(p) => Move(w, p, AfterRecover(w.storage, ph.force, ph.snapshot, ph.active))
    case Tombstone(p) =>
      Move(w, p, Releasing(ph.force, ph.snapshot, Unauthorized)).(storage := Some(RevokedTombstone(ph.active)))
    case Release(p) => Move(w, p, Done(ph.force, Some(ph.snapshot), ph.outcome)).(lock := None)
  }

  /** The file holds the token of the last login, the only one this history counts. */
  predicate Init(w: World) {
    && |w.server.issued| == 1
    && Honest(w.server.issued)
    && !w.server.revoked
    && w.storage == Some(w.server.issued[0])
    && w.lock.None?
    && forall p :: 0 <= p < |w.procs| ==> w.procs[p].Idle?
  }

  predicate Honest(issued: seq<TokenInfo>) {
    && (forall i :: 0 <= i < |issued| ==> |issued[i].accessToken| > 0 && |issued[i].refreshToken| > 0)
    && forall i, j :: 0 <= i < j < |issued| ==>
         issued[i].refreshToken != issued[j].refreshToken && issued[i].accessToken != issued[j].accessToken
  }

  /** `worlds` are the states a run passes through, `steps[i]` leading from the i-th to the next. */
  predicate IsRun(worlds: seq<World>, steps: seq<Step>) {
    && |worlds| == |steps| + 1
    && Init(worlds[0])
    && forall i :: 0 <= i < |steps| ==> Enabled(worlds[i], steps[i]) && worlds[i + 1] == Apply(worlds[i], steps[i])
  }

  // ---------------------------------------------------------------- the inductive invariant

  predicate InCriticalSection(ph: Phase) {
    ph.Rereading? || ph.Redeeming? || ph.Saving? || ph.Recovering? || ph.Tombstoning? || ph.Releasing?
  }

  predicate Redeems(step: Step) { step.RedeemAccepted? || step.RedeemRejected? || step.RedeemFails? }

  predicate SavePending(w: World) {
    w.lock.Some? && w.lock.value < |w.procs| && w.procs[w.lock.value].Saving?
  }

  /** Position, among the issued tokens, of the newest token that reached the file. */
  function Saved(w: World): int {
    if SavePending(w) then |w.server.issued| - 2 else |w.server.issued| - 1
  }

  predicate IsTombstone(stored: Option<TokenInfo>) { ClassifyToken(stored).Revoked? }

  predicate IssuedUpTo(issued: seq<TokenInfo>, t: TokenInfo, hi: int) {
    exists i :: 0 <= i <= hi < |issued| && issued[i] == t
  }

  /** The access token belongs to a token issued after `older` (or also to `older`, when not `strict`). */
  predicate NotOlder(issued: seq<TokenInfo>, older: TokenInfo, accessToken: string, strict: bool, hi: int) {
    exists i, j :: 0 <= i <= j <= hi < |issued| && issued[i] == older && issued[j].accessToken == accessToken
                   && (strict ==> i < j)
  }

  predicate OutcomeOk(w: World, force: bool, first: Option<TokenInfo>, outcome: Outcome) {
    outcome.Returned? ==> first.Some? && NotOlder(w.server.issued, first.value, outcome.accessToken, force, Saved(w))
  }

  predicate PhaseOk(w: World, p: nat)
    requires p < |w.procs| && |w.server.issued| > 0
  {
    var ph := w.procs[p];
    var issued := w.server.issued;
    var last := issued[|issued| - 1];
    && (InCriticalSection(ph) <==> w.lock == Some(p))
    && match ph
       case Idle => true
       case Loading(_) => true
       case Waiting(_, s) => IssuedUpTo(issued, s, Saved(w))
       case Rereading(_, s) => IssuedUpTo(issued, s, Saved(w))
       case Redeeming(force, s, a) =>
         IssuedUpTo(issued, s, Saved(w)) && a == last && w.storage == Some(last) && (force ==> s == a)
       case Saving(_, s, renewed) =>
         && |issued| > 1 && IssuedUpTo(issued, s, |issued| - 2)
         && renewed == last && w.storage == Some(issued[|issued| - 2])
       case Recovering(_, s, a) => w.server.revoked && a == last && w.storage == Some(last)
       case Tombstoning(_, s, a) => w.server.revoked && a == last && w.storage == Some(last)
       case Releasing(force, s, outcome) => OutcomeOk(w, force, Some(s), outcome)
       case Done(force, first, outcome) => OutcomeOk(w, force, first, outcome)
  }

  /** The file holds the newest token saved, or else the tombstone of a revoked one. */
  predicate FileOk(w: World) {
    && |w.server.issued| > 0
    && Honest(w.server.issued)
    && (w.lock.Some? ==> w.lock.value < |w.procs|)
    && (SavePending(w) ==> |w.server.issued| > 1)
    && ( || w.storage == Some(w.server.issued[Saved(w)])
         || (IsTombstone(w.storage) && w.server.revoked))
  }

  predicate Inv(w: World) {
    FileOk(w) && forall p :: 0 <= p < |w.procs| ==> PhaseOk(w, p)
  }

  lemma InitKeepsInv(w: World)
    requires Init(w)
    ensures Inv(w)
  {
  }

  /** What a step of another process leaves alone for `q`: all it relies on, or all but newer tokens. */
  predicate LeavesAlone(w: World, w': World, q: nat) {
    && |w.procs| == |w'.procs| && q < |w.procs|
    && w'.procs[q] == w.procs[q]
    && |w.server.issued| > 0 && w.server.issued <= w'.server.issued
    && (w.server.revoked ==> w'.server.revoked)
    && Saved(w) <= Saved(w') < |w'.server.issued|
    && (w.lock == Some(q) <==> w'.lock == Some(q))
    && (w.lock == Some(q) ==> w'.storage == w.storage && w'.server.issued == w.server.issued && Saved(w') == Saved(w))
  }

  lemma OthersUnaffected(w: World, w': World, q: nat)
    requires LeavesAlone(w, w', q) && PhaseOk(w, q)
    ensures PhaseOk(w', q)
  {
    hide Saved, IssuedUpTo, OutcomeOk;
    var ph := w.procs[q];
    match ph
    case Waiting(_, s) => CarriesSnapshot(w, w', s, Saved(w));
    case Rereading(_, s) => CarriesSnapshot(w, w', s, Saved(w));
    case Redeeming(_, s, _) => CarriesSnapshot(w, w', s, Saved(w));
    case Releasing(force, s, outcome) => OutcomeStays(w, w', force, Some(s), outcome);
    case Done(force, first, outcome) => OutcomeStays(w, w', force, first, outcome);
    case _ =>
  }

  lemma OutcomeStays(w: World, w': World, force: bool, first: Option<TokenInfo>, outcome: Outcome)
    requires OutcomeOk(w, force, first, outcome)
    requires w.server.issued <= w'.server.issued
    requires Saved(w) <= Saved(w') < |w'.server.issued|
    ensures OutcomeOk(w', force, first, outcome)
  {
    hide Saved;
    if outcome.Returned? {
      var i, j :| 0 <= i <= j <= Saved(w) && w.server.issued[i] == first.value
                  && w.server.issued[j].accessToken == outcome.accessToken && (force ==> i < j);
      assert w'.server.issued[i] == first.value && w'.server.issued[j].accessToken == outcome.accessToken;
    }
  }

  /** The phase of the moving process says what it knows before the step, in particular whether it holds the lock. */
  lemma StepLeavesAlone(w: World, step: Step, q: nat)
    requires Inv(w) && Enabled(w, step) && !step.Revoke? && q < |w.procs| && q != step.p
    ensures LeavesAlone(w, Apply(w, step), q)
  {
    assert PhaseOk(w, step.p);
    hide PhaseOk, Honest, IssuedUpTo, NotOlder, OutcomeOk, ClassifyToken, RevokedTombstone, ShouldRefresh,
         ChangedWhileWaiting, NewToken;
    SavedMoves(w, step);
    hide AfterLoad, AfterReread, AfterRecover;
  }

  lemma SavedMoves(w: World, step: Step)
    requires FileOk(w) && Enabled(w, step) && !step.Revoke?
    requires InCriticalSection(w.procs[step.p]) <==> w.lock == Some(step.p)
    ensures var w' := Apply(w, step);
            && Saved(w) <= Saved(w') < |w'.server.issued|
            && (!step.Save? ==> Saved(w') == Saved(w))
            && (InCriticalSection(w'.procs[step.p]) <==> w'.lock == Some(step.p))
  {
    hide Honest, ClassifyToken, RevokedTombstone, ShouldRefresh, ChangedWhileWaiting, NewToken;
  }

  /** The file changes only when a redeemed token or, after a revocation, a tombstone is written. */
  lemma StepKeepsFile(w: World, step: Step)
    requires Inv(w) && Enabled(w, step)
    ensures FileOk(Apply(w, step))
  {
    hide IssuedUpTo, NotOlder, OutcomeOk;
    if !step.Revoke? {
      assert PhaseOk(w, step.p);
      SavedMoves(w, step);
      IssuedStaysHonest(w, step);
      hide Honest, AfterLoad, AfterReread, AfterRecover, ShouldRefresh, NewToken;
    }
  }

  lemma IssuedStaysHonest(w: World, step: Step)
    requires FileOk(w) && Enabled(w, step)
    ensures Honest(Apply(w, step).server.issued)
  {
    hide AfterLoad, AfterReread, AfterRecover, ClassifyToken, Saved;
  }

  lemma StepKeepsInv(w: World, step: Step)
    requires Inv(w) && Enabled(w, step)
    ensures Inv(Apply(w, step))
  {
    var w' := Apply(w, step);
    StepKeepsFile(w, step);
    hide FileOk;
    forall q | 0 <= q < |w'.procs| ensures PhaseOk(w', q) {
      assert PhaseOk(w, q);
      if step.Revoke? {
        RevokedPhase(w, q);
      } else if q == step.p {
        MoverOk(w, step);
      } else {
        hide PhaseOk;
        StepLeavesAlone(w, step, q);
        OthersUnaffected(w, w', q);
      }
    }
  }

  lemma RevokedPhase(w: World, q: nat)
    requires |w.server.issued| > 0 && q < |w.procs| && PhaseOk(w, q)
    ensures PhaseOk(Apply(w, Revoke), q)
  {
    hide IssuedUpTo, NotOlder;
  }

  /** The moving process satisfies its part of the invariant afterwards. */
  lemma MoverOk(w: World, step: Step)
    requires Inv(w) && Enabled(w, step) && !step.Revoke?
    ensures PhaseOk(Apply(w, step), step.p)
  {
    var w' := Apply(w, step);
    var ph := w.procs[step.p];
    assert PhaseOk(w, step.p);
    hide Inv;
    SavedMoves(w, step);
    match step
    case Load(p, now, threshold) => LoadOk(w, p, now, threshold);
    case Reread(p, now, threshold) => RereadOk(w, p, now, threshold);
    case RedeemAccepted(p, renewed) => RedeemOk(w, p, renewed);
    case Acquire(p) => CarriesSnapshot(w, w', ph.snapshot, Saved(w));
    case Save(p) => SaveOk(w, p);
    case Release(p) => OutcomeStays(w, w', ph.force, Some(ph.snapshot), ph.outcome);
    case _ =>
  }

  lemma LoadOk(w: World, p: nat, now: real, threshold: real)
    requires Inv(w) && Enabled(w, Load(p, now, threshold))
    ensures PhaseOk(Apply(w, Load(p, now, threshold)), p)
  {
    var w' := Apply(w, Load(p, now, threshold));
    assert PhaseOk(w, p);
    SavedMoves(w, Load(p, now, threshold));
    if ClassifyToken(w.storage).Valid? {
      assert w'.server.issued[Saved(w')] == w.storage.value;
    }
    hide Honest, ShouldRefresh;
  }

  lemma SaveOk(w: World, p: nat)
    requires Inv(w) && Enabled(w, Save(p))
    ensures PhaseOk(Apply(w, Save(p)), p)
  {
    var w' := Apply(w, Save(p));
    assert PhaseOk(w, p);
    var issued, ph := w.server.issued, w.procs[p];
    var i :| 0 <= i <= |issued| - 2 && issued[i] == ph.snapshot;
    assert Saved(w') == |issued| - 1 && issued[|issued| - 1] == ph.renewed;
    hide Honest;
    assert NotOlder(issued, ph.snapshot, ph.renewed.accessToken, true, |issued| - 1);
  }

  lemma CarriesSnapshot(w: World, w': World, s: TokenInfo, hi: int)
    requires IssuedUpTo(w.server.issued, s, hi) && w.server.issued <= w'.server.issued
    requires hi <= Saved(w') < |w'.server.issued|
    ensures IssuedUpTo(w'.server.issued, s, Saved(w'))
  {
    var i :| 0 <= i <= hi && w.server.issued[i] == s;
    assert w'.server.issued[i] == s;
  }

  lemma RereadOk(w: World, p: nat, now: real, threshold: real)
    requires Inv(w) && Enabled(w, Reread(p, now, threshold))
    ensures PhaseOk(Apply(w, Reread(p, now, threshold)), p)
  {
    var w' := Apply(w, Reread(p, now, threshold));
    assert PhaseOk(w, p);
    var issued, s := w.server.issued, w.procs[p].snapshot;
    var i :| 0 <= i <= Saved(w) && issued[i] == s;
    assert Saved(w') == |issued| - 1 == Saved(w);
    if ClassifyToken(w.storage).Valid? {
      assert issued[Saved(w)] == w.storage.value;
      assert ChangedWhileWaiting(w.storage.value, s) <==> i < Saved(w);
    }
  }

  lemma RedeemOk(w: World, p: nat, renewed: TokenInfo)
    requires Inv(w) && Enabled(w, RedeemAccepted(p, renewed))
    ensures PhaseOk(Apply(w, RedeemAccepted(p, renewed)), p)
  {
    var w' := Apply(w, RedeemAccepted(p, renewed));
    assert PhaseOk(w, p);
    assert w'.server.issued[|w.server.issued|] == renewed;
    var i :| 0 <= i <= Saved(w) && w.server.issued[i] == w.procs[p].snapshot;
    assert w'.server.issued[i] == w.procs[p].snapshot;
  }

  // ---------------------------------------------------------------- whole runs

  lemma {:induction false} RunKeepsInv(worlds: seq<World>, steps: seq<Step>, k: nat)
    requires IsRun(worlds, steps) && k < |worlds|
    ensures Inv(worlds[k])
  {
    if k == 0 {
      InitKeepsInv(worlds[0]);
    } else {
      RunKeepsInv(worlds, steps, k - 1);
      StepKeepsInv(worlds[k - 1], steps[k - 1]);
    }
  }

  /** Between two points of a run the server only adds tokens, and revocation is permanent. */
  lemma {:induction false} ServerGrows(worlds: seq<World>, steps: seq<Step>, i: nat, j: nat)
    requires IsRun(worlds, steps) && i <= j < |worlds|
    ensures worlds[i].server.issued <= worlds[j].server.issued
    ensures worlds[i].server.revoked ==> worlds[j].server.revoked
    ensures worlds[j].server.revoked && !worlds[i].server.revoked ==> exists k :: i <= k < j && steps[k].Revoke?
    ensures |worlds[i].procs| == |worlds[j].procs|
    decreases j
  {
    if i < j { ServerGrows(worlds, steps, i, j - 1); }
  }

  /** The refresh token a redeem step sends to the server. */
  function Presented(w: World, step: Step): string
    requires Enabled(w, step) && Redeems(step)
  {
    w.procs[step.p].active.refreshToken
  }

  /** A token once accepted is superseded for the rest of the run. */
  lemma SpentForGood(worlds: seq<World>, steps: seq<Step>, i: nat, j: nat)
    requires IsRun(worlds, steps) && i < j < |worlds| && steps[i].RedeemAccepted?
    ensures |worlds[j].server.issued| > 0 && Presented(worlds[i], steps[i]) != Current(worlds[j])
  {
    hide Inv, Init, AfterLoad, AfterReread, AfterRecover;
    var last := |worlds[i].server.issued| - 1;
    assert worlds[i + 1] == Apply(worlds[i], steps[i]);
    ServerGrows(worlds, steps, i + 1, j);
    assert worlds[i].server.issued <= worlds[i + 1].server.issued <= worlds[j].server.issued;
    assert worlds[j].server.issued[last] == worlds[i].server.issued[last];
    assert last < |worlds[j].server.issued| - 1;
    assert Honest(worlds[j].server.issued) by { HonestAt(worlds, steps, j); }
  }

  lemma HonestAt(worlds: seq<World>, steps: seq<Step>, k: nat)
    requires IsRun(worlds, steps) && k < |worlds|
    ensures Honest(worlds[k].server.issued)
  {
    hide IsRun, Honest, PhaseOk;
    RunKeepsInv(worlds, steps, k);
  }

  /**
   Rotation safety.  Without server-side revocation every redeem presents the server's current
   token, the server therefore never rejects one, no token is redeemed twice, and no tombstone
   is ever written.
   */
  lemma RotationSafety(worlds: seq<World>, steps: seq<Step>)
    requires IsRun(worlds, steps)
    requires forall i :: 0 <= i < |steps| ==> !steps[i].Revoke?
    ensures forall i :: 0 <= i < |steps| && Redeems(steps[i]) ==>
              Presented(worlds[i], steps[i]) == Current(worlds[i]) && !steps[i].RedeemRejected?
    ensures forall i, j :: 0 <= i < j < |steps| && steps[i].RedeemAccepted? && steps[j].RedeemAccepted? ==>
              Presented(worlds[i], steps[i]) != Presented(worlds[j], steps[j])
    ensures forall i :: 0 <= i < |worlds| ==> ClassifyToken(worlds[i].storage).Valid?
  {
    forall i | 0 <= i < |worlds| ensures Inv(worlds[i]) && !worlds[i].server.revoked {
      hide Inv;
      RunKeepsInv(worlds, steps, i);
      ServerGrows(worlds, steps, 0, i);
    }
    forall i | 0 <= i < |worlds| ensures ClassifyToken(worlds[i].storage).Valid? {
      hide IsRun, PhaseOk;
    }
    hide Init, AfterLoad, AfterReread, AfterRecover, Apply, ClassifyToken, Honest;
    forall i | 0 <= i < |steps| && Redeems(steps[i])
      ensures Presented(worlds[i], steps[i]) == Current(worlds[i]) && !steps[i].RedeemRejected?
    {
      assert PhaseOk(worlds[i], steps[i].p);
    }
    hide Inv;
    forall i, j | 0 <= i < j < |steps| && steps[i].RedeemAccepted? && steps[j].RedeemAccepted?
      ensures Presented(worlds[i], steps[i]) != Presented(worlds[j], steps[j])
    {
      SpentForGood(worlds, steps, i, j);
    }
  }

  /** Issued tokens but the last are exactly the ones whose redemption the server accepted, in order. */
  lemma {:induction false} SupersededWasRedeemed(worlds: seq<World>, steps: seq<Step>, k: nat, i: nat)
    requires IsRun(worlds, steps) && k < |worlds|
    requires 0 <= i < |worlds[k].server.issued| - 1
    ensures exists n :: 0 <= n < k && steps[n].RedeemAccepted?
                        && Presented(worlds[n], steps[n]) == worlds[k].server.issued[i].refreshToken
  {
    var m := k - 1;
    assert worlds[m + 1] == Apply(worlds[m], steps[m]);
    if i < |worlds[m].server.issued| - 1 {
      SupersededWasRedeemed(worlds, steps, m, i);
      ServerGrows(worlds, steps, m, k);
    } else {
      assert steps[m].RedeemAccepted?;
      assert Presented(worlds[m], steps[m]) == worlds[k].server.issued[i].refreshToken;
    }
  }

  /** How often the server accepted `refreshToken` during the first `k` steps. */
  ghost function Redemptions(worlds: seq<World>, steps: seq<Step>, refreshToken: string, k: nat): nat
    requires IsRun(worlds, steps) && k <= |steps|
  {
    if k == 0 then 0 else
    Redemptions(worlds, steps, refreshToken, k - 1)
      + if steps[k - 1].RedeemAccepted? && Presented(worlds[k - 1], steps[k - 1]) == refreshToken then 1 else 0
  }

  lemma {:induction false} NoRedemptionYet(worlds: seq<World>, steps: seq<Step>, refreshToken: string, k: nat)
    requires IsRun(worlds, steps) && k <= |steps|
    requires forall n :: 0 <= n < k && steps[n].RedeemAccepted? ==> Presented(worlds[n], steps[n]) != refreshToken
    ensures Redemptions(worlds, steps, refreshToken, k) == 0
  {
    if k > 0 { NoRedemptionYet(worlds, steps, refreshToken, k - 1); }
  }

  /** Even when the server may revoke, it never accepts the same token twice. */
  lemma {:induction false} RedeemedAtMostOnce(worlds: seq<World>, steps: seq<Step>, refreshToken: string, k: nat)
    requires IsRun(worlds, steps) && k <= |steps|
    ensures Redemptions(worlds, steps, refreshToken, k) <= 1
    ensures (exists n :: 0 <= n < k && steps[n].RedeemAccepted? && Presented(worlds[n], steps[n]) == refreshToken)
            ==> Redemptions(worlds, steps, refreshToken, k) == 1
  {
    if k > 0 {
      RedeemedAtMostOnce(worlds, steps, refreshToken, k - 1);
      if steps[k - 1].RedeemAccepted? && Presented(worlds[k - 1], steps[k - 1]) == refreshToken {
        forall n | 0 <= n < k - 1 && steps[n].RedeemAccepted? ensures Presented(worlds[n], steps[n]) != refreshToken {
          SpentForGood(worlds, steps, n, k - 1);
        }
        NoRedemptionYet(worlds, steps, refreshToken, k - 1);
      }
    }
  }

  /**
   A call that returns hands out a token no older than the one it first read; a forced call hands
   out a strictly newer one, so the token it first read has by then been redeemed exactly once in
   the run, however many forced callers held that same token.
   */
  lemma ForcedRefreshIsFresh(worlds: seq<World>, steps: seq<Step>, k: nat, p: nat)
    requires IsRun(worlds, steps) && k < |worlds| && p < |worlds[k].procs|
    requires worlds[k].procs[p].Done? && worlds[k].procs[p].outcome.Returned?
    ensures var ph := worlds[k].procs[p];
            && ph.first.Some?
            && NotOlder(worlds[k].server.issued, ph.first.value, ph.outcome.accessToken, ph.force,
                        |worlds[k].server.issued| - 1)
            && (ph.force ==> Redemptions(worlds, steps, ph.first.value.refreshToken, k) == 1)
  {
    RunKeepsInv(worlds, steps, k);
    assert PhaseOk(worlds[k], p);
    var ph := worlds[k].procs[p];
    var issued, first := worlds[k].server.issued, ph.first.value;
    var i, j :| 0 <= i <= j <= Saved(worlds[k]) && issued[i] == first
                && issued[j].accessToken == ph.outcome.accessToken && (ph.force ==> i < j);
    if ph.force {
      SupersededWasRedeemed(worlds, steps, k, i);
      RedeemedAtMostOnce(worlds, steps, first.refreshToken, k);
    }
  }

  predicate EndsUnauthorized(ph: Phase) {
    (ph.Done? || ph.Releasing?) && ph.outcome == Unauthorized
  }

  /**
   A tombstone is absorbing.  From the state that holds one, the file never changes again, no
   process redeems or saves, and every read, before or under the lock, ends unauthorized.
   */
  lemma {:induction false} TombstoneIsAbsorbing(worlds: seq<World>, steps: seq<Step>, i: nat, j: nat)
    requires IsRun(worlds, steps) && i <= j < |worlds|
    requires IsTombstone(worlds[i].storage)
    ensures worlds[j].storage == worlds[i].storage
    ensures j < |steps| ==> !Redeems(steps[j]) && !steps[j].Save? && !steps[j].Tombstone?
    ensures j < |steps| && steps[j].Load? ==>
              EndsUnauthorized(worlds[j + 1].procs[steps[j].p])
    ensures j < |steps| && steps[j].Reread? ==>
              EndsUnauthorized(worlds[j + 1].procs[steps[j].p])
    decreases j
  {
    RunKeepsInv(worlds, steps, j);
    if i < j {
      TombstoneIsAbsorbing(worlds, steps, i, j - 1);
      assert worlds[j] == Apply(worlds[j - 1], steps[j - 1]);
    }
    if j < |steps| {
      assert worlds[j + 1] == Apply(worlds[j], steps[j]);
      if !steps[j].Revoke? { assert PhaseOk(worlds[j], steps[j].p); }
    }
  }

  /** A call begun after the tombstone is stored can only end unauthorized. */
  lemma {:induction false} LateCallsFail(worlds: seq<World>, steps: seq<Step>, i: nat, a: nat, k: nat, p: nat)
    requires IsRun(worlds, steps) && i <= a < k < |worlds|
    requires IsTombstone(worlds[i].storage)
    requires steps[a].Call? && steps[a].p == p
    requires forall b :: a < b < k ==> steps[b].Revoke? || steps[b].p != p || !steps[b].Call?
    ensures p < |worlds[k].procs|
    ensures worlds[k].procs[p].Loading? || (worlds[k].procs[p].Done? && worlds[k].procs[p].outcome == Unauthorized)
    decreases k
  {
    var m := k - 1;
    assert worlds[m + 1] == Apply(worlds[m], steps[m]);
    if a < m {
      LateCallsFail(worlds, steps, i, a, m, p);
      TombstoneIsAbsorbing(worlds, steps, i, m);
    }
  }

  /** Only a real revocation leads to a tombstone, and under the lock the recovery read never finds a peer's token. */
  lemma TombstoneMeansRevoked(worlds: seq<World>, steps: seq<Step>, k: nat)
    requires IsRun(worlds, steps) && k < |worlds|
    ensures IsTombstone(worlds[k].storage) ==> exists i :: 0 <= i < k && steps[i].Revoke?
    ensures k < |steps| && steps[k].Recover? ==> worlds[k + 1].procs[steps[k].p].Tombstoning?
  {
    RunKeepsInv(worlds, steps, k);
    ServerGrows(worlds, steps, 0, k);
    if k < |steps| && steps[k].Recover? { assert PhaseOk(worlds[k], steps[k].p); }
  }

  /** Process 0 redeems; before it saves, process 1 begins a forced call and is then answered with the saved token. */
  function Overtaken(first: TokenInfo, renewed: TokenInfo): seq<World> {
    var s0, s1 := Server([first], false), Server([first, renewed], false);
    var f, r, answer := Some(first), Some(renewed), Returned(renewed.accessToken);
    [World(f, None, s0, [Idle, Idle]),
     World(f, None, s0, [Loading(true), Idle]),
     World(f, None, s0, [Waiting(true, first), Idle]),
     World(f, Some(0), s0, [Rereading(true, first), Idle]),
     World(f, Some(0), s0, [Redeeming(true, first, first), Idle]),
     World(f, Some(0), s1, [Saving(true, first, renewed), Idle]),
     World(f, Some(0), s1, [Saving(true, first, renewed), Loading(true)]),
     World(f, Some(0), s1, [Saving(true, first, renewed), Waiting(true, first)]),
     World(r, Some(0), s1, [Releasing(true, first, answer), Waiting(true, first)]),
     World(r, None, s1, [Done(true, f, answer), Waiting(true, first)]),
     World(r, Some(1), s1, [Done(true, f, answer), Rereading(true, first)]),
     World(r, Some(1), s1, [Done(true, f, answer), Releasing(true, first, answer)])]
  }

  function OvertakingSteps(renewed: TokenInfo): seq<Step> {
    [Call(0, true), Load(0, 0.0, 0.0), Acquire(0), Reread(0, 0.0, 0.0), RedeemAccepted(0, renewed),
     Call(1, true), Load(1, 0.0, 0.0), Save(0), Release(0), Acquire(1), Reread(1, 0.0, 0.0)]
  }

  lemma OvertakenStep(first: TokenInfo, renewed: TokenInfo, i: nat)
    requires Honest([first]) && NewToken([first], renewed) && i < 11
    ensures var w, step := Overtaken(first, renewed)[i], OvertakingSteps(renewed)[i];
            Enabled(w, step) && Overtaken(first, renewed)[i + 1] == Apply(w, step)
  {
    assert [first][0] == first;
  }

  /**
   "Newer than the snapshot" cannot be read as "issued after the snapshot was taken": a peer that has
   redeemed but not yet saved lets a forced call start from the old file and be answered with a token
   the server had issued before that call even began.
   */
  lemma PeerTokenMayPredateTheCall(first: TokenInfo, renewed: TokenInfo) returns (worlds: seq<World>, steps: seq<Step>)
    requires Honest([first]) && NewToken([first], renewed)
    ensures IsRun(worlds, steps) && |steps| == 11
    ensures steps[5] == Call(1, true) && worlds[5].server.issued == [first, renewed]
    ensures |worlds[11].procs| == 2 && worlds[11].procs[1] == Releasing(true, first, Returned(renewed.accessToken))
  {
    worlds, steps := Overtaken(first, renewed), OvertakingSteps(renewed);
    assert [first][0] == first;
    hide Apply, Enabled, Honest, NewToken;
    forall i | 0 <= i < 11 ensures Enabled(worlds[i], steps[i]) && worlds[i + 1] == Apply(worlds[i], steps[i]) {
      OvertakenStep(first, renewed, i);
    }
  }
}
