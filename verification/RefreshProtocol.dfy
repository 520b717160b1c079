/**
 * Many processes refreshing one OAuth token: a shared store, a cross-process lock, and a
 * server that rotates refresh tokens (sections 6 and 10.4 of RFC 6749).
 *
 * Each process runs `doEnsureFresh` again and again; a step is what happens between two
 * awaits.  Assumed: the lock excludes, reads and saves are atomic and succeed, and a
 * request that fails for other reasons than rejection has no effect at the server.
 */
module RefreshProtocol {
  import opened Wrappers

  type Pid = nat

  datatype Token = Token(accessToken: string, refreshToken: string, expiresAt: int, expiresIn: int,
                         scope: string, tokenType: string)

  datatype TokenState = Missing | Revoked | Valid(token: Token)

  function ClassifyToken(stored: Option<Token>): (state: TokenState) {
    if stored.None? then Missing
    else if stored.value.accessToken == "" then Revoked
    else Valid(stored.value)
  }

  function RevokedTombstone(prior: Token): (tombstone: Token)
    ensures ClassifyToken(Some(tombstone)) == Revoked
  {
    Token("", "", 0, 0, prior.scope, prior.tokenType)
  }

  /** Less than the threshold is left: 300 seconds, or half the lifetime if that is more. */
  predicate BelowThreshold(remaining: int, expiresIn: int) {
    remaining < 300 || (expiresIn > 0 && 2 * remaining < expiresIn)
  }

  predicate ShouldRefreshToken(token: Token, force: bool, now: int) {
    force || (token.expiresAt != 0 && BelowThreshold(token.expiresAt - now, token.expiresIn))
  }

  // ---------- The state ----------

  datatype Result = Got(accessToken: string) | Unauthorized | OtherError

  /** Where one process is in `doEnsureFresh`. */
  datatype Process =
    | Idle
    | Done(result: Result)
    | WaitingForLock(force: bool, snapshot: Token)
    | Rereading(force: bool, snapshot: Token)
    | Calling(active: Token)
    | Refreshed(token: Token)
    | Denied(active: Token)
    | Condemning(active: Token)
    | Releasing(result: Result)
  {
    predicate HoldsLock() {
      Rereading? || Calling? || Refreshed? || Denied? || Condemning? || Releasing?
    }
  }

  /** The server: the refresh token it issued last, whether it still honours it, and its history. */
  datatype Server = Server(latest: string, live: bool, issued: set<string>, spent: seq<string>)

  datatype State = State(processes: map<Pid, Process>, lock: Option<Pid>, stored: Option<Token>, server: Server)

  datatype Step =
    | Start(p: Pid, force: bool, now: int)
    | Acquire(p: Pid)
    | AcquireFails(p: Pid)
    | Reread(p: Pid, now: int)
    | ServerGrants(p: Pid, rotated: Token)
    | ServerDenies(p: Pid)
    | ServerUnavailable(p: Pid)
    | Save(p: Pid)
    | Recover(p: Pid)
    | Condemn(p: Pid)
    | Release(p: Pid)
    | RevokeAtServer
    | Logout

  // ---------- The steps ----------

  /** `doEnsureFresh` up to the lock. */
  function Begin(stored: Option<Token>, force: bool, now: int): (process: Process) {
    match ClassifyToken(stored)
    case Missing => Done(Unauthorized)
    case Revoked => Done(Unauthorized)
    case Valid(token) =>
      if ShouldRefreshToken(token, force, now) then WaitingForLock(force, token) else Done(Got(token.accessToken))
  }

  /** The re-read under the lock, up to the request. */
  function AfterLock(stored: Option<Token>, force: bool, snapshot: Token, now: int): (process: Process) {
    match ClassifyToken(stored)
    case Revoked => Releasing(Unauthorized)
    case Missing => Request(snapshot)
    case Valid(after) =>
      if !ShouldRefreshToken(after, force, now) then Releasing(Got(after.accessToken))
      else if force && Changed(after, snapshot) then Releasing(Got(after.accessToken))
      else Request(after)
  }

  predicate Changed(after: Token, snapshot: Token) {
    || after.refreshToken != snapshot.refreshToken
    || after.accessToken != snapshot.accessToken
    || after.expiresAt != snapshot.expiresAt
    || after.expiresIn != snapshot.expiresIn
  }

  function Request(active: Token): (process: Process) {
    if active.refreshToken == "" then Releasing(Unauthorized) else Calling(active)
  }

  /** After a rejection and a pause: a peer's rotated token, or none. */
  function AfterDenial(stored: Option<Token>, active: Token): (process: Process) {
    match ClassifyToken(stored)
    case Valid(recovered) =>
      if recovered.refreshToken != active.refreshToken then Releasing(Got(recovered.accessToken)) else Condemning(active)
    case _ => Condemning(active)
  }

  function At(s: State, p: Pid): (process: Process) {
    if p in s.processes then s.processes[p] else Idle
  }

  function Moved(s: State, p: Pid, process: Process): (s': State) {
    s.(processes := s.processes[p := process])
  }

  /** The next state, or None if the step cannot be taken. */
  function Apply(s: State, step: Step): (next: Option<State>) {
    match step
    case Start(p, force, now) =>
      if At(s, p).Idle? || At(s, p).Done? then Some(Moved(s, p, Begin(s.stored, force, now))) else None
    case Acquire(p) =>
      if At(s, p).WaitingForLock? && s.lock.None?
      then Some(Moved(s, p, Rereading(At(s, p).force, At(s, p).snapshot)).(lock := Some(p))) else None
    case AcquireFails(p) =>
      if At(s, p).WaitingForLock? then Some(Moved(s, p, Done(OtherError))) else None
    case Reread(p, now) =>
      if At(s, p).Rereading?
      then Some(Moved(s, p, AfterLock(s.stored, At(s, p).force, At(s, p).snapshot, now))) else None
    case ServerGrants(p, rotated) =>
      if At(s, p).Calling? && s.server.live && At(s, p).active.refreshToken == s.server.latest
         && rotated.refreshToken !in s.server.issued && rotated.refreshToken != "" && rotated.accessToken != ""
      then Some(Moved(s, p, Refreshed(rotated)).(server :=
             Server(rotated.refreshToken, true, s.server.issued + {rotated.refreshToken}, s.server.spent + [s.server.latest])))
      else None
    case ServerDenies(p) =>
      if At(s, p).Calling? && !(s.server.live && At(s, p).active.refreshToken == s.server.latest)
      then Some(Moved(s, p, Denied(At(s, p).active))) else None
    case ServerUnavailable(p) =>
      if At(s, p).Calling? then Some(Moved(s, p, Releasing(OtherError))) else None
    case Save(p) =>
      if At(s, p).Refreshed?
      then Some(Moved(s, p, Releasing(Got(At(s, p).token.accessToken))).(stored := Some(At(s, p).token))) else None
    case Recover(p) =>
      if At(s, p).Denied? then Some(Moved(s, p, AfterDenial(s.stored, At(s, p).active))) else None
    case Condemn(p) =>
      if At(s, p).Condemning?
      then Some(Moved(s, p, Releasing(Unauthorized)).(stored := Some(RevokedTombstone(At(s, p).active)))) else None
    case Release(p) =>
      if At(s, p).Releasing? then Some(Moved(s, p, Done(At(s, p).result)).(lock := None)) else None
    case RevokeAtServer =>
      Some(s.(server := s.server.(live := false)))
    case Logout =>
      Some(s.(stored := None))
  }

  /** Taking the steps one after another. */
  function Run(s: State, steps: seq<Step>): (end: Option<State>)
    decreases |steps|
  {
    if steps == [] then Some(s) else
      match Apply(s, steps[0])
      case None => None
      case Some(s') => Run(s', steps[1..])
  }

  // ---------- The invariant ----------

  ghost predicate ServerOk(server: Server) {
    && server.latest in server.issued
    && server.latest !in server.spent
    && (forall t <- server.spent :: t in server.issued)
    && (forall i, j :: 0 <= i < j < |server.spent| ==> server.spent[i] != server.spent[j])
  }

  /** Exactly the process named by the lock is in the critical section. */
  ghost predicate Exclusive(s: State) {
    && (forall p <- s.processes :: s.processes[p].HoldsLock() ==> s.lock == Some(p))
    && (s.lock.Some? ==> At(s, s.lock.value).HoldsLock())
  }

  /** The stored token is the latest one, except between the rotation and the save. */
  ghost predicate StoreCurrent(s: State) {
    ClassifyToken(s.stored).Valid? && s.stored.value.refreshToken != "" ==>
      && s.stored.value.refreshToken in s.server.issued
      && (s.stored.value.refreshToken == s.server.latest || InFlight(s).Some?)
  }

  /** The token the server has issued but the store does not hold yet. */
  function InFlight(s: State): (token: Option<Token>) {
    if s.lock.Some? && At(s, s.lock.value).Refreshed? then Some(At(s, s.lock.value).token) else None
  }

  /** What the lock holder knows. */
  ghost predicate HolderOk(stored: Option<Token>, server: Server, process: Process) {
    match process
    case Calling(active) => active.refreshToken != "" && stored == Some(active) && ClassifyToken(stored).Valid?
    case Denied(active) => stored == Some(active) && ClassifyToken(stored).Valid? && !server.live
    case Condemning(active) => stored == Some(active) && ClassifyToken(stored).Valid? && !server.live
    case Refreshed(token) =>
      && token.refreshToken == server.latest && token.refreshToken != "" && token.accessToken != ""
      && ClassifyToken(stored).Valid? && stored.value.refreshToken != token.refreshToken
    case _ => true
  }

  /** What a process that has taken a snapshot knows about it. */
  ghost predicate SnapshotOk(stored: Option<Token>, issued: set<string>, inFlight: Option<Token>, snapshot: Token) {
    && stored.Some?
    && (snapshot.refreshToken == "" || snapshot.refreshToken in issued)
    && (ClassifyToken(stored).Valid? && stored.value.refreshToken == snapshot.refreshToken ==> stored == Some(snapshot))
    && (inFlight.Some? ==> inFlight.value.refreshToken != snapshot.refreshToken)
  }

  ghost predicate ProcessOk(s: State, process: Process) {
    && HolderOk(s.stored, s.server, process)
    && (process.WaitingForLock? || process.Rereading? ==>
          SnapshotOk(s.stored, s.server.issued, InFlight(s), process.snapshot))
  }

  ghost predicate Inv(s: State) {
    && ServerOk(s.server)
    && Exclusive(s)
    && StoreCurrent(s)
    && forall p <- s.processes :: ProcessOk(s, s.processes[p])
  }

  /** Nobody is refreshing, and the stored token, if there is one, is the one issued last. */
  ghost predicate Init(s: State) {
    && ServerOk(s.server)
    && s.lock.None?
    && (forall p <- s.processes :: s.processes[p].Idle?)
    && (ClassifyToken(s.stored).Valid? ==> s.stored.value.refreshToken in {"", s.server.latest})
  }

  lemma InitInv(s: State)
    requires Init(s)
    ensures Inv(s)
  {
  }

  /** Steps that leave store, server and the unsaved token alone affect nobody else. */
  lemma LocalStep(s: State, p: Pid, s': State)
    requires Inv(s) && s'.stored == s.stored && s'.server == s.server && InFlight(s') == InFlight(s)
    requires p in s'.processes && s' == Moved(s, p, s'.processes[p]).(lock := s'.lock)
    requires Exclusive(s') && ProcessOk(s', s'.processes[p])
    ensures Inv(s')
  {
    forall q <- s'.processes
      ensures ProcessOk(s', s'.processes[q])
    {
      if q != p { assert ProcessOk(s, s.processes[q]); }
    }
  }

  lemma StartKeepsInv(s: State, p: Pid, force: bool, now: int)
    requires Inv(s) && Apply(s, Start(p, force, now)).Some?
    ensures Inv(Apply(s, Start(p, force, now)).value)
  {
    LocalStep(s, p, Apply(s, Start(p, force, now)).value);
  }

  lemma LockKeepsInv(s: State, p: Pid, step: Step)
    requires Inv(s) && Apply(s, step).Some? && step in {Acquire(p), AcquireFails(p), Release(p)}
    ensures Inv(Apply(s, step).value)
  {
    LocalStep(s, p, Apply(s, step).value);
  }

  lemma InsideKeepsInv(s: State, p: Pid, now: int, step: Step)
    requires Inv(s) && Apply(s, step).Some?
    requires step in {Reread(p, now), ServerDenies(p), ServerUnavailable(p), Recover(p)}
    ensures Inv(Apply(s, step).value)
  {
    assert ProcessOk(s, s.processes[p]);
    LocalStep(s, p, Apply(s, step).value);
  }

  lemma GrantKeepsInv(s: State, p: Pid, rotated: Token)
    requires Inv(s) && Apply(s, ServerGrants(p, rotated)).Some?
    ensures Inv(Apply(s, ServerGrants(p, rotated)).value)
  {
    var s' := Apply(s, ServerGrants(p, rotated)).value;
    forall q <- s'.processes
      ensures ProcessOk(s', s'.processes[q])
    {
      assert ProcessOk(s, s.processes[q]);
    }
  }

  lemma WriteKeepsInv(s: State, p: Pid, step: Step)
    requires Inv(s) && Apply(s, step).Some? && step in {Save(p), Condemn(p)}
    ensures Inv(Apply(s, step).value)
  {
    var s' := Apply(s, step).value;
    forall q <- s'.processes
      ensures ProcessOk(s', s'.processes[q])
    {
      assert ProcessOk(s, s.processes[q]) && ProcessOk(s, s.processes[p]);
    }
  }

  /** Every step other than a logout keeps the invariant. */
  lemma {:induction false} StepKeepsInv(s: State, step: Step)
    requires Inv(s) && Apply(s, step).Some? && !step.Logout?
    ensures Inv(Apply(s, step).value)
  {
    hide Apply, Inv;
    match step
    case Start(p, force, now) => StartKeepsInv(s, p, force, now);
    case Acquire(p) => LockKeepsInv(s, p, step);
    case AcquireFails(p) => LockKeepsInv(s, p, step);
    case Release(p) => LockKeepsInv(s, p, step);
    case Reread(p, now) => InsideKeepsInv(s, p, now, step);
    case ServerDenies(p) => InsideKeepsInv(s, p, 0, step);
    case ServerUnavailable(p) => InsideKeepsInv(s, p, 0, step);
    case Recover(p) => InsideKeepsInv(s, p, 0, step);
    case ServerGrants(p, rotated) => GrantKeepsInv(s, p, rotated);
    case Save(p) => WriteKeepsInv(s, p, step);
    case Condemn(p) => WriteKeepsInv(s, p, step);
    case RevokeAtServer => RevokeKeepsInv(s);
  }

  lemma RevokeKeepsInv(s: State)
    requires Inv(s)
    ensures Inv(Apply(s, RevokeAtServer).value)
  {
    var s' := Apply(s, RevokeAtServer).value;
    assert InFlight(s') == InFlight(s);
    forall q <- s'.processes
      ensures ProcessOk(s', s'.processes[q])
    {
      assert ProcessOk(s, s.processes[q]);
    }
  }

  /** No process is between its first read and its last use of the stored token. */
  ghost predicate Quiet(s: State) {
    forall p <- s.processes :: s.processes[p].Idle? || s.processes[p].Done? || s.processes[p].Releasing?
  }

  /** A logout keeps the invariant exactly when nobody is using the token it removes. */
  lemma LogoutKeepsInvIff(s: State)
    requires Inv(s)
    ensures Inv(Apply(s, Logout).value) <==> Quiet(s)
  {
    var s' := Apply(s, Logout).value;
    if Quiet(s) {
      assert forall p <- s'.processes :: ProcessOk(s', s'.processes[p]);
    } else {
      var p :| p in s.processes && !(s.processes[p].Idle? || s.processes[p].Done? || s.processes[p].Releasing?);
      assert !ProcessOk(s', s'.processes[p]);
    }
  }

  /** Every logout of the run comes when nobody is using the token. */
  ghost predicate QuietLogouts(s: State, steps: seq<Step>)
    decreases |steps|
  {
    steps != [] ==>
    && (steps[0].Logout? ==> Quiet(s))
    && (Apply(s, steps[0]).Some? ==> QuietLogouts(Apply(s, steps[0]).value, steps[1..]))
  }

  lemma {:induction false} RunKeepsInv(s: State, steps: seq<Step>)
    requires Inv(s) && QuietLogouts(s, steps) && Run(s, steps).Some?
    ensures Inv(Run(s, steps).value)
    decreases |steps|
  {
    hide Inv, Apply, Quiet;
    if steps != [] {
      if steps[0].Logout? { LogoutKeepsInvIff(s); } else { StepKeepsInv(s, steps[0]); }
      RunKeepsInv(Apply(s, steps[0]).value, steps[1..]);
    }
  }

  // ---------- What the invariant means ----------

  ghost predicate Reachable(s: State) {
    exists start, steps :: Init(start) && QuietLogouts(start, steps) && Run(start, steps) == Some(s)
  }

  lemma ReachableInv(s: State)
    requires Reachable(s)
    ensures Inv(s)
  {
    hide Inv, Init;
    var start, steps :| Init(start) && QuietLogouts(start, steps) && Run(start, steps) == Some(s);
    InitInv(start);
    RunKeepsInv(start, steps);
  }

  /** Whenever the lock is free, the stored refresh token is the one the server issued last. */
  lemma StoredTokenIsLatest(s: State)
    requires Reachable(s) && s.lock.None?
    requires ClassifyToken(s.stored).Valid? && s.stored.value.refreshToken != ""
    ensures s.stored.value.refreshToken == s.server.latest
  {
    ReachableInv(s);
  }

  /** At most one process is between taking the lock and releasing it. */
  lemma MutualExclusion(s: State, p: Pid, q: Pid)
    requires Reachable(s) && At(s, p).HoldsLock() && At(s, q).HoldsLock()
    ensures p == q
  {
    ReachableInv(s);
  }

  /** No request ever presents a token other than the latest: a spent token is never replayed. */
  lemma NoReplay(s: State, p: Pid)
    requires Reachable(s) && At(s, p).Calling?
    ensures At(s, p).active.refreshToken == s.server.latest && At(s, p).active.refreshToken !in s.server.spent
  {
    ReachableInv(s);
    assert ProcessOk(s, s.processes[p]);
  }

  /** No token is successfully spent twice. */
  lemma SpentOnce(s: State)
    requires Reachable(s)
    ensures forall i, j :: 0 <= i < j < |s.server.spent| ==> s.server.spent[i] != s.server.spent[j]
  {
    ReachableInv(s);
  }

  /** A denial means the server has withdrawn the token; so a live token is never tombstoned. */
  lemma OnlyDeadTokensCondemned(s: State, p: Pid)
    requires Reachable(s) && (At(s, p).Denied? || At(s, p).Condemning?)
    ensures !s.server.live && s.stored == Some(At(s, p).active)
  {
    ReachableInv(s);
    assert ProcessOk(s, s.processes[p]);
  }

  /** Under the lock the peer-rotation branch after a denial is never taken. */
  lemma RecoveryAlwaysCondemns(s: State, p: Pid)
    requires Reachable(s) && At(s, p).Denied?
    ensures AfterDenial(s.stored, At(s, p).active) == Condemning(At(s, p).active)
  {
    OnlyDeadTokensCondemned(s, p);
  }

  /** A forced refresh that settles for a peer's token never returns the one it started from. */
  lemma ForcedRefreshIsNew(s: State, p: Pid, now: int)
    requires Reachable(s) && At(s, p).Rereading? && At(s, p).force
    ensures var after := AfterLock(s.stored, true, At(s, p).snapshot, now);
      after.Releasing? && after.result.Got? ==>
        && ClassifyToken(s.stored).Valid? && after.result == Got(s.stored.value.accessToken)
        && s.stored.value.refreshToken != At(s, p).snapshot.refreshToken
  {
    ReachableInv(s);
    assert ProcessOk(s, s.processes[p]);
  }

  predicate IsServerCall(step: Step) {
    step.ServerGrants? || step.ServerDenies? || step.ServerUnavailable?
  }

  /** With no valid token stored the next step neither calls the server nor stores one. */
  lemma {:induction false} TombstoneStep(s: State, step: Step)
    requires Inv(s) && !ClassifyToken(s.stored).Valid? && Apply(s, step).Some?
    ensures !IsServerCall(step)
    ensures Apply(s, step).value.stored == if step.Logout? then None else s.stored
  {
    if !step.RevokeAtServer? && !step.Logout? && step.p in s.processes {
      assert ProcessOk(s, s.processes[step.p]);
    }
  }

  /** After a tombstone no process calls the server again, however the run goes on, and no token comes back. */
  lemma {:induction false} TombstoneIsFinal(s: State, steps: seq<Step>)
    requires Inv(s) && !ClassifyToken(s.stored).Valid?
    requires QuietLogouts(s, steps) && Run(s, steps).Some?
    ensures forall step <- steps :: !IsServerCall(step)
    ensures Run(s, steps).value.stored == if exists step <- steps :: step.Logout? then None else s.stored
    decreases |steps|
  {
    hide Inv, Apply, Quiet;
    if steps != [] {
      TombstoneStep(s, steps[0]);
      if steps[0].Logout? { LogoutKeepsInvIff(s); } else { StepKeepsInv(s, steps[0]); }
      TombstoneIsFinal(Apply(s, steps[0]).value, steps[1..]);
      assert steps == [steps[0]] + steps[1..];
    }
  }

  // ---------- Why other logouts are excluded ----------

  const OLD := Token("a0", "r0", 1000, 3600, "", "")
  const NEW := Token("a1", "r1", 5000, 3600, "", "")

  const FRESH_START := State(map[], None, Some(OLD), Server("r0", true, {"r0"}, []))

  /** Two processes find the token stale, and one of them asks for a new one. */
  const ASK: seq<Step> := [Start(0, false, 999), Start(1, false, 999), Acquire(1), Reread(1, 999)]

  const ASKING := State(map[0 := WaitingForLock(false, OLD), 1 := Calling(OLD)], Some(1), Some(OLD),
                        FRESH_START.server)

  /** It gets it, saves it and leaves. */
  const ANSWER: seq<Step> := [ServerGrants(1, NEW), Save(1), Release(1)]

  const ROTATED := State(map[0 := WaitingForLock(false, OLD), 1 := Done(Got("a1"))], None, Some(NEW),
                         Server("r1", true, {"r0", "r1"}, ["r0"]))

  /** The user logs out, and the other process goes on. */
  const GO_ON: seq<Step> := [Logout, Acquire(0), Reread(0, 999)]

  lemma RunOne(s: State, steps: seq<Step>, next: State)
    requires steps != [] && Apply(s, steps[0]) == Some(next)
    ensures Run(s, steps) == Run(next, steps[1..])
  {
  }

  lemma AskRuns()
    ensures Run(FRESH_START, ASK) == Some(ASKING)
  {
    hide Run;
    var s1 := Moved(FRESH_START, 0, WaitingForLock(false, OLD));
    var s2 := Moved(s1, 1, WaitingForLock(false, OLD));
    var s3 := Moved(s2, 1, Rereading(false, OLD)).(lock := Some(1));
    assert Moved(s3, 1, Calling(OLD)) == ASKING;
    RunOne(FRESH_START, ASK, s1);
    RunOne(s1, ASK[1..], s2);
    RunOne(s2, ASK[2..], s3);
    RunOne(s3, ASK[3..], ASKING);
    RunNothing(ASKING);
    assert ASK[4..] == [];
  }

  lemma AnswerRuns()
    ensures Run(ASKING, ANSWER) == Some(ROTATED)
  {
    hide Run;
    var s5 := Moved(ASKING, 1, Refreshed(NEW)).(server := ROTATED.server);
    var s6 := Moved(s5, 1, Releasing(Got("a1"))).(stored := Some(NEW));
    assert {"r0"} + {"r1"} == {"r0", "r1"} && [] + ["r0"] == ["r0"];
    assert Moved(s6, 1, Done(Got("a1"))).(lock := None) == ROTATED;
    RunOne(ASKING, ANSWER, s5);
    RunOne(s5, ANSWER[1..], s6);
    RunOne(s6, ANSWER[2..], ROTATED);
    RunNothing(ROTATED);
    assert ANSWER[3..] == [];
  }

  lemma RunNothing(s: State)
    ensures Run(s, []) == Some(s)
  {
  }

  /**
   * A logout while a process waits for the lock makes it fall back to the snapshot it took before:
   * it presents a token that is no longer the latest exactly when a peer has rotated it meanwhile.
   */
  lemma LogoutReplaysIff(s: State, p: Pid, now: int)
    requires s.lock.None? && At(s, p).WaitingForLock?
    ensures var end, snapshot := Run(s, [Logout, Acquire(p), Reread(p, now)]), At(s, p).snapshot;
      && end.Some? && At(end.value, p) == Request(snapshot)
      && (At(end.value, p).Calling? && At(end.value, p).active.refreshToken != end.value.server.latest
          <==> snapshot.refreshToken != "" && snapshot.refreshToken != s.server.latest)
  {
    var steps := [Logout, Acquire(p), Reread(p, now)];
    var s1 := s.(stored := None);
    var s2 := Moved(s1, p, Rereading(At(s, p).force, At(s, p).snapshot)).(lock := Some(p));
    var s3 := Moved(s2, p, Request(At(s, p).snapshot));
    hide Run;
    RunOne(s, steps, s1);
    RunOne(s1, steps[1..], s2);
    RunOne(s2, steps[2..], s3);
    RunNothing(s3);
    assert steps[3..] == [];
  }

  /** The same for the process that has the lock and has not read the store again yet. */
  lemma LogoutReplaysInsideIff(s: State, p: Pid, now: int)
    requires At(s, p).Rereading?
    ensures var end, snapshot := Run(s, [Logout, Reread(p, now)]), At(s, p).snapshot;
      && end.Some? && At(end.value, p) == Request(snapshot)
      && (At(end.value, p).Calling? && At(end.value, p).active.refreshToken != end.value.server.latest
          <==> snapshot.refreshToken != "" && snapshot.refreshToken != s.server.latest)
  {
    var steps := [Logout, Reread(p, now)];
    var s1 := s.(stored := None);
    var s2 := Moved(s1, p, Request(At(s, p).snapshot));
    hide Run;
    RunOne(s, steps, s1);
    RunOne(s1, steps[1..], s2);
    RunNothing(s2);
    assert steps[2..] == [];
  }

  /** That happens: a run from an initial state in which a spent token is presented again. */
  lemma LogoutReplays()
    ensures Init(FRESH_START)
    ensures Run(FRESH_START, ASK + ANSWER + GO_ON).Some?
    ensures var s := Run(FRESH_START, ASK + ANSWER + GO_ON).value;
      At(s, 0) == Calling(OLD) && OLD.refreshToken in s.server.spent
  {
    AskRuns();
    AnswerRuns();
    RunAppend(FRESH_START, ASK, ANSWER);
    RunAppend(FRESH_START, ASK + ANSWER, GO_ON);
    GoOnRuns();
  }

  lemma GoOnRuns()
    ensures var s := Moved(ROTATED, 0, Calling(OLD)).(stored := None, lock := Some(0));
      Run(ROTATED, GO_ON) == Some(s)
  {
    var s8 := ROTATED.(stored := None);
    var s9 := Moved(s8, 0, Rereading(false, OLD)).(lock := Some(0));
    var s10 := Moved(s9, 0, Calling(OLD));
    hide Run;
    assert s10 == Moved(ROTATED, 0, Calling(OLD)).(stored := None, lock := Some(0));
    RunOne(ROTATED, GO_ON, s8);
    RunOne(s8, GO_ON[1..], s9);
    RunOne(s9, GO_ON[2..], s10);
    RunNothing(s10);
    assert GO_ON[3..] == [];
  }

  lemma {:induction false} RunAppend(s: State, a: seq<Step>, b: seq<Step>)
    requires Run(s, a).Some?
    ensures Run(s, a + b) == Run(Run(s, a).value, b)
    decreases |a|
  {
    hide Apply;
    if a == [] {
      assert a + b == b;
    } else {
      RunAppend(Apply(s, a[0]).value, a[1..], b);
      assert (a + b)[1..] == a[1..] + b;
    }
  }
}
