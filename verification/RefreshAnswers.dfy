/**
 * What a call of `doEnsureFresh` answers, and why, in terms of the store it read and of what
 * the lock and the server did.
 */
module RefreshAnswers {
  import opened Wrappers
  import opened RefreshProtocol

  /**
   * The token will do: it never expires, or at least 300 seconds and at least half of a positive
   * lifetime are left.
   */
  predicate LeftEnough(token: Token, now: int) {
    token.expiresAt == 0 ||
    (token.expiresAt - now >= 300 && (token.expiresIn > 0 ==> 2 * (token.expiresAt - now) >= token.expiresIn))
  }

  /** There is a token in the store, and it is no tombstone. */
  predicate HasToken(stored: Option<Token>) {
    stored.Some? && stored.value.accessToken != ""
  }

  /** A forced call never answers from the store at once; an unforced one does exactly when the token will do. */
  lemma StartAnswersIff(s: State, p: Pid, force: bool, now: int)
    requires Apply(s, Start(p, force, now)).Some?
    ensures var process := At(Apply(s, Start(p, force, now)).value, p);
      if !HasToken(s.stored) then process == Done(Unauthorized)
      else if !force && LeftEnough(s.stored.value, now) then process == Done(Got(s.stored.value.accessToken))
      else process == WaitingForLock(force, s.stored.value)
  {
  }

  /**
   * Under the lock an unforced call answers from the store exactly when the token there will do, and
   * a forced one exactly when a peer has rotated it; else the stored token is presented to the server.
   */
  lemma RereadAnswersIff(s: State, p: Pid, now: int)
    requires Reachable(s) && At(s, p).Rereading?
    ensures var snapshot, process := At(s, p).snapshot, At(Apply(s, Reread(p, now)).value, p);
      && s.stored.Some?
      && if !HasToken(s.stored) then process == Releasing(Unauthorized)
         else if (if At(s, p).force then s.stored.value.refreshToken != snapshot.refreshToken
                  else LeftEnough(s.stored.value, now))
         then process == Releasing(Got(s.stored.value.accessToken))
         else if s.stored.value.refreshToken == "" then process == Releasing(Unauthorized)
         else process == Calling(s.stored.value)
  {
    ReachableInv(s);
    assert ProcessOk(s, s.processes[p]);
  }

  /** A tombstone has nothing to present or to use, and keeps what kind of login the stored token came from. */
  lemma CondemnLeavesTombstone(s: State, p: Pid)
    requires Reachable(s) && Apply(s, Condemn(p)).Some?
    ensures var before, after := s.stored, Apply(s, Condemn(p)).value.stored;
      && HasToken(before) && after.Some? && !HasToken(after) && after.value.refreshToken == ""
      && after.value.scope == before.value.scope && after.value.tokenType == before.value.tokenType
      && after.value.expiresAt == after.value.expiresIn == 0
  {
    ReachableInv(s);
    assert ProcessOk(s, s.processes[p]);
  }

  /** Step `i` of the run, taken by `p`, read a token that will do, or for a forced call one of another rotation. */
  ghost predicate ReadAt(s: State, steps: seq<Step>, i: nat, p: Pid, force: bool, snapshot: Token, answer: string) {
    i < |steps| && Run(s, steps[..i]).Some? &&
    var stored := Run(s, steps[..i]).value.stored;
    && HasToken(stored) && stored.value.accessToken == answer
    && match steps[i]
       case Start(q, _, now) => q == p && !force && LeftEnough(stored.value, now)
       case Reread(q, now) =>
         q == p && if force then stored.value.refreshToken != snapshot.refreshToken else LeftEnough(stored.value, now)
       case _ => false
  }

  /** Step `i` of the run, taken by `p`, found no token or none that can be refreshed. */
  ghost predicate NothingAt(s: State, steps: seq<Step>, i: nat, p: Pid) {
    i < |steps| && (steps[i].Start? || steps[i].Reread?) && steps[i].p == p && Run(s, steps[..i]).Some? &&
    var stored := Run(s, steps[..i]).value.stored;
    !HasToken(stored) || (steps[i].Reread? && stored.value.refreshToken == "")
  }

  /** After step `i` of the run, taken by `p` upon a denial, a tombstone is stored. */
  ghost predicate CondemnedAt(s: State, steps: seq<Step>, i: nat, p: Pid) {
    i < |steps| && steps[i] == Condemn(p) && Run(s, steps[..i + 1]).Some? &&
    var stored := Run(s, steps[..i + 1]).value.stored;
    stored.Some? && stored.value.accessToken == "" && stored.value.refreshToken == ""
  }

  ghost predicate GrantedAt(steps: seq<Step>, i: nat, p: Pid, answer: string) {
    i < |steps| && steps[i].ServerGrants? && steps[i].p == p && steps[i].rotated.accessToken == answer
  }

  ghost predicate FailedAt(steps: seq<Step>, i: nat, p: Pid) {
    i < |steps| && (steps[i] == AcquireFails(p) || steps[i] == ServerUnavailable(p))
  }

  /** Why a call of `p` ended as it did, in terms of what happened in the run. */
  ghost predicate Explained(s: State, steps: seq<Step>, p: Pid, force: bool, snapshot: Token, result: Result) {
    match result
    case Got(answer) =>
      (exists i :: GrantedAt(steps, i, p, answer)) || (exists i :: ReadAt(s, steps, i, p, force, snapshot, answer))
    case Unauthorized => (exists i :: NothingAt(s, steps, i, p)) || (exists i :: CondemnedAt(s, steps, i, p))
    case OtherError => exists i :: FailedAt(steps, i, p)
  }

  /** How far the call has got: what it remembers is what it started with and what it was granted. */
  ghost predicate OnItsWay(s: State, steps: seq<Step>, p: Pid, force: bool, snapshot: Token, process: Process) {
    match process
    case Idle => false
    case WaitingForLock(f, snap) => f == force && snap == snapshot
    case Rereading(f, snap) => f == force && snap == snapshot
    case Refreshed(token) => exists i :: GrantedAt(steps, i, p, token.accessToken)
    case Releasing(result) => Explained(s, steps, p, force, snapshot, result)
    case Done(result) => Explained(s, steps, p, force, snapshot, result)
    case _ => true
  }

  /** One call of `p`: it starts first and does not start again. */
  ghost predicate IsCall(steps: seq<Step>, p: Pid, force: bool) {
    && steps != [] && steps[0].Start? && steps[0].p == p && steps[0].force == force
    && forall step <- steps[1..] :: !(step.Start? && step.p == p)
  }

  lemma ExplainedLater(s: State, steps: seq<Step>, step: Step, p: Pid, force: bool, snapshot: Token, result: Result)
    requires Explained(s, steps, p, force, snapshot, result)
    ensures Explained(s, steps + [step], p, force, snapshot, result)
  {
    var more := steps + [step];
    hide Run, LeftEnough;
    match result
    case Got(answer) =>
      if i :| GrantedAt(steps, i, p, answer) {
        assert GrantedAt(more, i, p, answer);
      } else {
        var i :| ReadAt(s, steps, i, p, force, snapshot, answer);
        SamePrefix(steps, step, i);
        assert ReadAt(s, more, i, p, force, snapshot, answer);
      }
    case Unauthorized =>
      if i :| NothingAt(s, steps, i, p) {
        SamePrefix(steps, step, i);
        assert NothingAt(s, more, i, p);
      } else {
        var i :| CondemnedAt(s, steps, i, p);
        SamePrefix(steps, step, i);
        assert CondemnedAt(s, more, i, p);
      }
    case OtherError =>
      var i :| FailedAt(steps, i, p);
      assert FailedAt(more, i, p);
  }

  lemma SamePrefix(steps: seq<Step>, step: Step, i: nat)
    requires i < |steps|
    ensures var more := steps + [step]; more[i] == steps[i] && more[..i] == steps[..i] && more[..i + 1] == steps[..i + 1]
  {
  }

  /** A step of somebody else, or one that leaves the call where it was. */
  lemma OnItsWayLater(s: State, steps: seq<Step>, step: Step, p: Pid, force: bool, snapshot: Token, process: Process)
    requires OnItsWay(s, steps, p, force, snapshot, process)
    ensures OnItsWay(s, steps + [step], p, force, snapshot, process)
  {
    hide Explained;
    var more := steps + [step];
    match process
    case Refreshed(token) =>
      var i :| GrantedAt(steps, i, p, token.accessToken);
      assert GrantedAt(more, i, p, token.accessToken);
    case Releasing(result) => ExplainedLater(s, steps, step, p, force, snapshot, result);
    case Done(result) => ExplainedLater(s, steps, step, p, force, snapshot, result);
    case _ =>
  }

  ghost predicate IsStepOf(s: State, steps: seq<Step>, step: Step, p: Pid) {
    && Run(s, steps).Some? && Inv(Run(s, steps).value)
    && !step.Start? && !step.RevokeAtServer? && !step.Logout? && step.p == p
    && Apply(Run(s, steps).value, step).Some?
    && Run(s, steps + [step]) == Apply(Run(s, steps).value, step)
  }

  lemma OnItsWayReread(s: State, steps: seq<Step>, p: Pid, now: int, force: bool, snapshot: Token)
    requires IsStepOf(s, steps, Reread(p, now), p)
    requires OnItsWay(s, steps, p, force, snapshot, At(Run(s, steps).value, p))
    ensures OnItsWay(s, steps + [Reread(p, now)], p, force, snapshot, At(Apply(Run(s, steps).value, Reread(p, now)).value, p))
  {
    var n, more, before := |steps|, steps + [Reread(p, now)], Run(s, steps).value;
    assert more[n] == Reread(p, now) && more[..n] == steps;
    assert ProcessOk(before, before.processes[p]);
    hide Run, Inv;
    var after := At(Apply(before, Reread(p, now)).value, p);
    if after.Releasing? {
      if after.result.Got? {
        assert ReadAt(s, more, n, p, force, snapshot, after.result.accessToken);
      } else {
        assert NothingAt(s, more, n, p);
      }
    }
  }

  lemma OnItsWayFails(s: State, steps: seq<Step>, step: Step, p: Pid, force: bool, snapshot: Token)
    requires IsStepOf(s, steps, step, p) && step in {AcquireFails(p), ServerUnavailable(p)}
    ensures OnItsWay(s, steps + [step], p, force, snapshot, At(Apply(Run(s, steps).value, step).value, p))
  {
    hide Run, Inv;
    assert (steps + [step])[|steps|] == step;
    assert FailedAt(steps + [step], |steps|, p);
  }

  lemma OnItsWayCondemns(s: State, steps: seq<Step>, p: Pid, force: bool, snapshot: Token)
    requires IsStepOf(s, steps, Condemn(p), p)
    ensures OnItsWay(s, steps + [Condemn(p)], p, force, snapshot, At(Apply(Run(s, steps).value, Condemn(p)).value, p))
  {
    hide Run, Inv;
    var n, more := |steps|, steps + [Condemn(p)];
    assert more[n] == Condemn(p) && more[..n + 1] == more;
    assert CondemnedAt(s, more, n, p);
  }

  lemma OnItsWayInside(s: State, steps: seq<Step>, step: Step, p: Pid, force: bool, snapshot: Token)
    requires IsStepOf(s, steps, step, p) && (step.Acquire? || step.ServerGrants? || step.ServerDenies? || step.Recover?)
    requires OnItsWay(s, steps, p, force, snapshot, At(Run(s, steps).value, p))
    ensures OnItsWay(s, steps + [step], p, force, snapshot, At(Apply(Run(s, steps).value, step).value, p))
  {
    var before := Run(s, steps).value;
    assert ProcessOk(before, before.processes[p]);
    assert (steps + [step])[|steps|] == step;
    hide Run, Inv, Explained;
    if step.ServerGrants? { assert GrantedAt(steps + [step], |steps|, p, step.rotated.accessToken); }
  }

  lemma OnItsWayOut(s: State, steps: seq<Step>, step: Step, p: Pid, force: bool, snapshot: Token)
    requires IsStepOf(s, steps, step, p) && (step.Save? || step.Release?)
    requires OnItsWay(s, steps, p, force, snapshot, At(Run(s, steps).value, p))
    ensures OnItsWay(s, steps + [step], p, force, snapshot, At(Apply(Run(s, steps).value, step).value, p))
  {
    hide Run, Inv;
    OnItsWayLater(s, steps, step, p, force, snapshot, At(Run(s, steps).value, p));
  }

  /** A step of the call itself. */
  lemma {:induction false} OnItsWayStep(s: State, steps: seq<Step>, step: Step, p: Pid, force: bool, snapshot: Token)
    requires IsStepOf(s, steps, step, p)
    requires OnItsWay(s, steps, p, force, snapshot, At(Run(s, steps).value, p))
    ensures OnItsWay(s, steps + [step], p, force, snapshot, At(Apply(Run(s, steps).value, step).value, p))
  {
    hide OnItsWay, Apply, Run, Inv;
    match step
    case Reread(_, now) => OnItsWayReread(s, steps, p, now, force, snapshot);
    case AcquireFails(_) => OnItsWayFails(s, steps, step, p, force, snapshot);
    case ServerUnavailable(_) => OnItsWayFails(s, steps, step, p, force, snapshot);
    case Condemn(_) => OnItsWayCondemns(s, steps, p, force, snapshot);
    case Save(_) => OnItsWayOut(s, steps, step, p, force, snapshot);
    case Release(_) => OnItsWayOut(s, steps, step, p, force, snapshot);
    case _ => OnItsWayInside(s, steps, step, p, force, snapshot);
  }

  lemma OnItsWayStart(s: State, p: Pid, force: bool, now: int)
    requires Apply(s, Start(p, force, now)).Some?
    ensures var steps, next := [Start(p, force, now)], Apply(s, Start(p, force, now)).value;
      OnItsWay(s, steps, p, force, s.stored.GetOr(NO_TOKEN), At(next, p))
  {
    var steps := [Start(p, force, now)];
    assert steps[..0] == [];
    RunNothing(s);
    hide Run;
    if !HasToken(s.stored) {
      assert NothingAt(s, steps, 0, p);
    } else if !force && LeftEnough(s.stored.value, now) {
      assert ReadAt(s, steps, 0, p, force, s.stored.value, s.stored.value.accessToken);
    }
  }

  const NO_TOKEN := Token("", "", 0, 0, "", "")

  lemma {:induction false} CallIsOnItsWay(s: State, steps: seq<Step>, p: Pid, force: bool)
    requires Inv(s) && IsCall(steps, p, force) && QuietLogouts(s, steps) && Run(s, steps).Some?
    ensures Inv(Run(s, steps).value)
    ensures OnItsWay(s, steps, p, force, s.stored.GetOr(NO_TOKEN), At(Run(s, steps).value, p))
    decreases |steps|
  {
    hide Inv, Apply, OnItsWay, QuietLogouts;
    RunKeepsInv(s, steps);
    var snapshot, n := s.stored.GetOr(NO_TOKEN), |steps| - 1;
    if n == 0 {
      OnItsWayStart(s, p, force, steps[0].now);
      RunOne(s, steps, Apply(s, steps[0]).value);
      RunNothing(Apply(s, steps[0]).value);
      assert steps == [Start(p, force, steps[0].now)];
    } else {
      var front, step := steps[..n], steps[n];
      assert steps == front + [step];
      PrefixRuns(s, front, step);
      var before := Run(s, front).value;
      CallIsOnItsWay(s, front, p, force);
      if !step.RevokeAtServer? && !step.Logout? && step.p == p {
        OnItsWayStep(s, front, step, p, force, snapshot);
      } else {
        OtherStepKeepsProcess(before, step, p);
        OnItsWayLater(s, front, step, p, force, snapshot, At(before, p));
      }
    }
  }

  lemma OtherStepKeepsProcess(s: State, step: Step, p: Pid)
    requires Apply(s, step).Some? && (step.RevokeAtServer? || step.Logout? || step.p != p)
    ensures At(Apply(s, step).value, p) == At(s, p)
  {
  }

  lemma {:induction false} PrefixRuns(s: State, front: seq<Step>, step: Step)
    requires Run(s, front + [step]).Some?
    ensures Run(s, front).Some? && Run(s, front + [step]) == Apply(Run(s, front).value, step)
    ensures QuietLogouts(s, front + [step]) ==> QuietLogouts(s, front)
    decreases |front|
  {
    hide Apply, Quiet;
    var all := front + [step];
    if front == [] {
      assert all[1..] == [];
    } else {
      assert all[1..] == front[1..] + [step];
      PrefixRuns(Apply(s, front[0]).value, front[1..], step);
    }
  }

  /**
   * Whatever a call answers is explained by its run: a token it was granted or, unforced, one it read
   * that will do or, forced, one of another rotation than it started from; a refusal by an empty store or
   * a denial that left a tombstone; another error by the lock or the server.
   */
  lemma {:induction false} CallIsExplained(s: State, steps: seq<Step>, p: Pid, force: bool)
    requires Reachable(s) && IsCall(steps, p, force) && QuietLogouts(s, steps) && Run(s, steps).Some?
    requires At(Run(s, steps).value, p).Done?
    ensures Explained(s, steps, p, force, s.stored.GetOr(NO_TOKEN), At(Run(s, steps).value, p).result)
  {
    hide Inv, Apply, Run, Explained, QuietLogouts;
    ReachableInv(s);
    CallIsOnItsWay(s, steps, p, force);
  }
}
