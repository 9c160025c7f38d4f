/** What each step of a refresh call does, in terms of the file, the clock and the server's reply alone. */
module RefreshReads {
  import opened Basics
  import opened TokenState
  import opened RefreshProtocol

  /** Steps from any state at all, with or without a token file; every run is such a path. */
  predicate IsPath(worlds: seq<World>, steps: seq<Step>) {
    && |worlds| == |steps| + 1
    && forall i :: 0 <= i < |steps| ==> Enabled(worlds[i], steps[i]) && worlds[i + 1] == Apply(worlds[i], steps[i])
  }

  /** Step `k` of the path moves process `p` and changes nothing but the phase of `p`. */
  predicate OnlyMoves(worlds: seq<World>, k: nat, p: nat, after: Phase)
    requires k + 1 < |worlds|
  {
    && p < |worlds[k].procs|
    && worlds[k + 1] == World(worlds[k].storage, worlds[k].lock, worlds[k].server, worlds[k].procs[p := after])
  }

  /**
   The first read.  No record, or one without an access token, ends the call unauthorized.  An unforced call
   answers with the token it has just read exactly if that token never expires or has at least the threshold
   left; every other call goes on to the lock with the token as its snapshot.
   */
  lemma FirstRead(worlds: seq<World>, steps: seq<Step>, k: nat, p: nat, now: real, threshold: real)
    requires IsPath(worlds, steps) && k < |steps| && steps[k] == Load(p, now, threshold)
    ensures p < |worlds[k].procs| && worlds[k].procs[p].Loading?
    ensures var file, force := worlds[k].storage, worlds[k].procs[p].force;
            && (file.None? || file.value.accessToken == "" ==> OnlyMoves(worlds, k, p, Done(force, None, Unauthorized)))
            && (file.Some? && file.value.accessToken != "" ==>
                  var t := file.value;
                  && (!force && (t.expiresAt == 0.0 || t.expiresAt - now >= threshold) <==>
                        OnlyMoves(worlds, k, p, Done(force, Some(t), Returned(t.accessToken))))
                  && (force || (t.expiresAt != 0.0 && t.expiresAt - now < threshold) <==>
                        OnlyMoves(worlds, k, p, Waiting(force, t))))
  {
    assert worlds[k + 1] == Apply(worlds[k], steps[k]);
    assert worlds[k + 1].procs[p] == worlds[k].procs[p := worlds[k + 1].procs[p]][p];
  }

  /** The four fields by which a forced call tells a peer's token from its own snapshot. */
  predicate SameAsSnapshot(t: TokenInfo, snapshot: TokenInfo) {
    && t.refreshToken == snapshot.refreshToken && t.accessToken == snapshot.accessToken
    && t.expiresAt == snapshot.expiresAt && t.expiresIn == snapshot.expiresIn
  }

  /** Under the lock: is the token just read the answer? */
  predicate AnswersUnderLock(t: TokenInfo, force: bool, snapshot: TokenInfo, now: real, threshold: real) {
    if force then !SameAsSnapshot(t, snapshot) else t.expiresAt == 0.0 || t.expiresAt - now >= threshold
  }

  /**
   The read under the lock.  A tombstone ends the call unauthorized.  A token that answers (not due, for an
   unforced call; changed by a peer, for a forced one) is returned.  Otherwise that token, or the snapshot if
   the file is gone, is redeemed, unless it has no refresh token.
   */
  lemma SecondRead(worlds: seq<World>, steps: seq<Step>, k: nat, p: nat, now: real, threshold: real)
    requires IsPath(worlds, steps) && k < |steps| && steps[k] == Reread(p, now, threshold)
    ensures p < |worlds[k].procs| && worlds[k].procs[p].Rereading?
    ensures var file, force, snapshot := worlds[k].storage, worlds[k].procs[p].force, worlds[k].procs[p].snapshot;
            && (file.Some? && file.value.accessToken == "" ==>
                  OnlyMoves(worlds, k, p, Releasing(force, snapshot, Unauthorized)))
            && (file.None? ==>
                  OnlyMoves(worlds, k, p, if snapshot.refreshToken == "" then Releasing(force, snapshot, Unauthorized)
                                          else Redeeming(force, snapshot, snapshot)))
            && (file.Some? && file.value.accessToken != "" ==>
                  var t := file.value;
                  && (AnswersUnderLock(t, force, snapshot, now, threshold) ==>
                        OnlyMoves(worlds, k, p, Releasing(force, snapshot, Returned(t.accessToken))))
                  && (!AnswersUnderLock(t, force, snapshot, now, threshold) && t.refreshToken == "" ==>
                        OnlyMoves(worlds, k, p, Releasing(force, snapshot, Unauthorized)))
                  && (!AnswersUnderLock(t, force, snapshot, now, threshold) && t.refreshToken != "" ==>
                        OnlyMoves(worlds, k, p, Redeeming(force, snapshot, t))))
  {
    assert worlds[k + 1] == Apply(worlds[k], steps[k]);
  }

  /**
   The server's reply.  An accepted redeem adds its token to the issued ones and leaves it to be saved; a
   rejected one leads to the recovery read; any other failure ends the call with that error.  The file is not
   touched.
   */
  lemma Reply(worlds: seq<World>, steps: seq<Step>, k: nat)
    requires IsPath(worlds, steps) && k < |steps| && Redeems(steps[k])
    ensures var p, w := steps[k].p, worlds[k];
            && p < |w.procs| && w.procs[p].Redeeming?
            && match steps[k]
               case RedeemAccepted(_, renewed) =>
                 worlds[k + 1] == World(w.storage, w.lock, Server(w.server.issued + [renewed], w.server.revoked),
                                        w.procs[p := Saving(w.procs[p].force, w.procs[p].snapshot, renewed)])
               case RedeemRejected(_) =>
                 OnlyMoves(worlds, k, p, Recovering(w.procs[p].force, w.procs[p].snapshot, w.procs[p].active))
               case _ => OnlyMoves(worlds, k, p, Releasing(w.procs[p].force, w.procs[p].snapshot, OtherError))
  {
    assert worlds[k + 1] == Apply(worlds[k], steps[k]);
  }

  /**
   What is written: the renewed token, which is then the answer; or, after a rejection that no peer explains,
   a record without tokens or expiry that keeps scope and type, and the call ends unauthorized.
   */
  lemma Writes(worlds: seq<World>, steps: seq<Step>, k: nat)
    requires IsPath(worlds, steps) && k < |steps| && (steps[k].Save? || steps[k].Tombstone?)
    ensures var p, w := steps[k].p, worlds[k];
            && p < |w.procs|
            && (steps[k].Save? ==>
                  && w.procs[p].Saving?
                  && worlds[k + 1] == World(Some(w.procs[p].renewed), w.lock, w.server,
                       w.procs[p := Releasing(w.procs[p].force, w.procs[p].snapshot,
                                              Returned(w.procs[p].renewed.accessToken))]))
            && (steps[k].Tombstone? ==>
                  && w.procs[p].Tombstoning?
                  && worlds[k + 1] == World(
                       Some(TokenInfo("", "", 0.0, w.procs[p].active.scope, w.procs[p].active.tokenType, 0.0)),
                       w.lock, w.server, w.procs[p := Releasing(w.procs[p].force, w.procs[p].snapshot, Unauthorized)]))
  {
    assert worlds[k + 1] == Apply(worlds[k], steps[k]);
  }

  /** The recovery read: another refresh token in the file is the answer, everything else leads to the tombstone. */
  lemma RecoveryRead(worlds: seq<World>, steps: seq<Step>, k: nat, p: nat)
    requires IsPath(worlds, steps) && k < |steps| && steps[k] == Recover(p)
    ensures p < |worlds[k].procs| && worlds[k].procs[p].Recovering?
    ensures var file, ph := worlds[k].storage, worlds[k].procs[p];
            OnlyMoves(worlds, k, p,
              if file.Some? && file.value.accessToken != "" && file.value.refreshToken != ph.active.refreshToken
              then Releasing(ph.force, ph.snapshot, Returned(file.value.accessToken))
              else Tombstoning(ph.force, ph.snapshot, ph.active))
  {
    assert worlds[k + 1] == Apply(worlds[k], steps[k]);
  }

  /**
   Calling, and the lock: it is taken when free, given back at the end, and a call that fails to get it
   ends in error.
   */
  lemma LockSteps(worlds: seq<World>, steps: seq<Step>, k: nat)
    requires IsPath(worlds, steps) && k < |steps|
    requires steps[k].Call? || steps[k].Acquire? || steps[k].LockFails? || steps[k].Release?
    ensures var p, w := steps[k].p, worlds[k];
            && p < |w.procs|
            && match steps[k]
               case Call(_, force) => OnlyMoves(worlds, k, p, Loading(force))
               case Acquire(_) =>
                 && w.lock.None? && w.procs[p].Waiting?
                 && worlds[k + 1] == World(w.storage, Some(p), w.server,
                                           w.procs[p := Rereading(w.procs[p].force, w.procs[p].snapshot)])
               case LockFails(_) =>
                 && w.procs[p].Waiting?
                 && OnlyMoves(worlds, k, p, Done(w.procs[p].force, Some(w.procs[p].snapshot), OtherError))
               case _ =>
                 && w.procs[p].Releasing?
                 && worlds[k + 1] == World(w.storage, None, w.server,
                      w.procs[p := Done(w.procs[p].force, Some(w.procs[p].snapshot), w.procs[p].outcome)])
  {
    assert worlds[k + 1] == Apply(worlds[k], steps[k]);
  }

  /**
   Which steps a process can take next, by where its call stands: never none, and a choice only where the lock or
   the server decides.
   */
  lemma NextSteps(w: World, step: Step)
    requires |w.server.issued| > 0 && !step.Revoke? && step.p < |w.procs|
    ensures var latest := w.server.issued[|w.server.issued| - 1].refreshToken;
            Enabled(w, step) <==>
            match w.procs[step.p]
            case Idle => step.Call?
            case Done(_, _, _) => step.Call?
            case Loading(_) => step.Load?
            case Waiting(_, _) => step.LockFails? || (step.Acquire? && w.lock == None)
            case Rereading(_, _) => step.Reread?
            case Redeeming(_, _, active) =>
              || step.RedeemFails?
              || (step.RedeemRejected? && (w.server.revoked || active.refreshToken != latest))
              || (step.RedeemAccepted? && !w.server.revoked && active.refreshToken == latest
                  && step.renewed.accessToken != "" && step.renewed.refreshToken != ""
                  && forall t :: t in w.server.issued ==>
                       t.refreshToken != step.renewed.refreshToken && t.accessToken != step.renewed.accessToken)
            case Saving(_, _, _) => step.Save?
            case Recovering(_, _, _) => step.Recover?
            case Tombstoning(_, _, _) => step.Tombstone?
            case Releasing(_, _, _) => step.Release?
  {
    if step.RedeemAccepted? && NewToken(w.server.issued, step.renewed) {
      forall t | t in w.server.issued
        ensures t.refreshToken != step.renewed.refreshToken && t.accessToken != step.renewed.accessToken
      {
        var i :| 0 <= i < |w.server.issued| && w.server.issued[i] == t;
      }
    }
  }
}
