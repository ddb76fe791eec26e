/** Cleaning up expired records cannot be noticed, with two exceptions that are stated exactly. */
module AuthCleanup {
  import opened Wrappers
  import opened AuthState
  import opened AuthInvariant

  // ----- What callers see -----

  lemma SessionsAfter(s: Auth, b: Bounds, doomed: set<string>, ceremonies: set<string>, sessions: set<string>,
                      next: Auth, i: string)
    requires CleansUp(s, b, doomed, ceremonies, sessions, next)
    ensures i in next.sessions ==>
              i in s.sessions && next.sessions[i] == s.sessions[i] && s.sessions[i].accountId !in doomed
    ensures i in s.sessions && i !in next.sessions ==>
              s.sessions[i].accountId in doomed || StaleSession(s.sessions[i], b)
  {
  }

  lemma CeremoniesAfter(s: Auth, b: Bounds, doomed: set<string>, ceremonies: set<string>, sessions: set<string>,
                        next: Auth, c: string)
    requires CleansUp(s, b, doomed, ceremonies, sessions, next)
    ensures c in next.ceremonies ==>
              && c in s.ceremonies && next.ceremonies[c] == s.ceremonies[c]
              && !(s.ceremonies[c].accountId.Some? && s.ceremonies[c].accountId.value in doomed)
    ensures c in s.ceremonies && c !in next.ceremonies ==>
              || (s.ceremonies[c].accountId.Some? && s.ceremonies[c].accountId.value in doomed)
              || StaleCeremony(s.ceremonies[c], b)
  {
  }

  lemma AccountsAfter(s: Auth, b: Bounds, doomed: set<string>, ceremonies: set<string>, sessions: set<string>,
                      next: Auth)
    requires CleansUp(s, b, doomed, ceremonies, sessions, next)
    ensures next.accounts == s.accounts - doomed
    ensures forall a :: a in doomed ==> a in s.accounts && Abandoned(s.accounts[a], b)
  {
  }

  /** From now on, every cookie resolves to the same session and account as without the cleanup. */
  lemma ResolutionUnchanged(s: Auth, b: Bounds, doomed: set<string>, ceremonies: set<string>, sessions: set<string>,
                            next: Auth,
                            sessionId: string, secretHash: string, t: int)
    requires ValidBounds(b) && CleansUp(s, b, doomed, ceremonies, sessions, next) && t >= b.now
    ensures ResolveSession(next, sessionId, secretHash, t) == ResolveSession(s, sessionId, secretHash, t)
  {
    SessionsAfter(s, b, doomed, ceremonies, sessions, next, sessionId);
    AccountsAfter(s, b, doomed, ceremonies, sessions, next);
    hide CleansUp;
  }

  /** From now on, a rotation has the same outcome exactly unless it rotates a session of a deleted pending account. */
  lemma RotationUnchangedUnlessDoomed(s: Auth, b: Bounds, doomed: set<string>, ceremonies: set<string>,
                                      sessions: set<string>,
                                      next: Auth, input: Rotation)
    requires ValidBounds(b) && CleansUp(s, b, doomed, ceremonies, sessions, next) && input.authenticatedAt >= b.now
    ensures RotateResult(next, input) == RotateResult(s, input)
       <==> !(MayRotate(s, input) && input.accountId in doomed)
  {
    SessionsAfter(s, b, doomed, ceremonies, sessions, next, input.sessionId);
    hide CleansUp;
  }

  /** From now on, a ceremony is consumed with the same outcome exactly unless it is that of a deleted account. */
  lemma ConsumptionUnchangedUnlessDoomed(s: Auth, b: Bounds, doomed: set<string>, ceremonies: set<string>,
                                         sessions: set<string>,
                                         next: Auth, input: Consumption)
    requires ValidBounds(b) && CleansUp(s, b, doomed, ceremonies, sessions, next) && input.now >= b.now
    ensures ConsumeResult(next, input) == ConsumeResult(s, input)
       <==> !(MayConsume(s, input) && s.ceremonies[input.ceremonyId].accountId.Some?
              && s.ceremonies[input.ceremonyId].accountId.value in doomed)
  {
    CeremoniesAfter(s, b, doomed, ceremonies, sessions, next, input.ceremonyId);
    hide CleansUp;
  }

  /** Nothing of an active account is touched, but for its stale ceremonies and sessions. */
  lemma ActiveAccountsUntouched(s: Auth, b: Bounds, doomed: set<string>, ceremonies: set<string>, sessions: set<string>,
                                next: Auth, a: string)
    requires CleansUp(s, b, doomed, ceremonies, sessions, next) && a in s.accounts && s.accounts[a].status.Active?
    ensures a in next.accounts && next.accounts[a] == s.accounts[a]
    ensures forall c :: c in s.credentials && s.credentials[c].accountId == a ==>
              c in next.credentials && next.credentials[c] == s.credentials[c]
    ensures forall k :: k in s.bundles && s.bundles[k].accountId == a ==>
              k in next.bundles && next.bundles[k] == s.bundles[k]
    ensures forall i :: i in s.sessions && s.sessions[i].accountId == a && !StaleSession(s.sessions[i], b) ==>
              i in next.sessions && next.sessions[i] == s.sessions[i]
  {
    AccountsAfter(s, b, doomed, ceremonies, sessions, next);
    forall i | i in s.sessions && s.sessions[i].accountId == a && !StaleSession(s.sessions[i], b)
      ensures i in next.sessions && next.sessions[i] == s.sessions[i]
    {
      SessionsAfter(s, b, doomed, ceremonies, sessions, next, i);
    }
    hide StaleCeremonies, AbandonedAccounts, IsOldestBatch, StaleSessions;
  }

  // ----- When sessions are only started for active accounts -----

  ghost predicate SessionsOfActive(s: Auth) {
    forall i :: i in s.sessions ==>
      s.sessions[i].accountId in s.accounts && s.accounts[s.sessions[i].accountId].status.Active?
  }

  predicate StartsForActive(s: Auth, op: AuthOp) {
    op.Start? && op.session.accountId in s.accounts ==> s.accounts[op.session.accountId].status.Active?
  }

  lemma SessionStepKeeps(s: Auth, op: AuthOp, next: Auth)
    requires SessionsOfActive(s) && Steps(s, op, next) && IsFresh(op) && StartsForActive(s, op)
    ensures SessionsOfActive(next)
  {
    hide CleansUp, MayUpdate, MayConsume, Updated, HandleTaken, HasBundle, ActiveRootKeys, ActiveCredentials;
    if op.Clean? {
      CleanKeepsSessions(s, op.bounds, op.doomed, op.ceremonies, op.sessions, next);
    } else if op.Revoke? {
      assert next.accounts == s.accounts;
    } else if op.Create? || op.Finalize? {
      assert next.sessions == s.sessions;
    }
  }

  lemma CleanKeepsSessions(s: Auth, b: Bounds, doomed: set<string>, ceremonies: set<string>, sessions: set<string>,
                           next: Auth)
    requires SessionsOfActive(s) && CleansUp(s, b, doomed, ceremonies, sessions, next)
    ensures SessionsOfActive(next)
  {
  }

  lemma {:induction false} SessionsStayOfActive(states: seq<Auth>, ops: seq<AuthOp>, n: nat)
    requires IsRun(states, ops) && n < |states|
    requires forall i :: 0 <= i < |ops| ==> IsFresh(ops[i]) && StartsForActive(states[i], ops[i])
    ensures SessionsOfActive(states[n])
  {
    hide SessionsOfActive, IsFresh, StartsForActive;
    if n > 0 {
      SessionsStayOfActive(states, ops, n - 1);
      assert Steps(states[n - 1], ops[n - 1], states[n - 1 + 1]);
      SessionStepKeeps(states[n - 1], ops[n - 1], states[n]);
    } else {
      NoSessions();
    }
  }

  lemma NoSessions()
    ensures SessionsOfActive(EMPTY_AUTH)
  {
  }

  /** In every run that starts sessions for active accounts only, rotation too cannot tell whether cleanup ran. */
  lemma RotationUnchangedInRuns(states: seq<Auth>, ops: seq<AuthOp>, n: nat, b: Bounds, doomed: set<string>,
                                ceremonies: set<string>, sessions: set<string>, next: Auth, input: Rotation)
    requires IsRun(states, ops) && n < |states|
    requires forall i :: 0 <= i < |ops| ==> IsFresh(ops[i]) && StartsForActive(states[i], ops[i])
    requires ValidBounds(b) && CleansUp(states[n], b, doomed, ceremonies, sessions, next)
             && input.authenticatedAt >= b.now
    ensures RotateResult(next, input) == RotateResult(states[n], input)
  {
    hide CleansUp, IsFresh, StartsForActive;
    var s := states[n];
    SessionsStayOfActive(states, ops, n);
    AccountsAfter(s, b, doomed, ceremonies, sessions, next);
    RotationUnchangedUnlessDoomed(s, b, doomed, ceremonies, sessions, next, input);
  }

  const PENDING_ACCOUNT := Account([], Pending, 0, None)
  const REGISTRATION := Ceremony(RegisterAccount, Some("a"), "challenge", 100, 0, 1, None)
  const EARLY_SESSION := Session("a", "secret", "csrf", 0, 100, 0, None, None)
  const CLEANUP_BOUNDS := Bounds(10, 5, 5, 5, 1)

  /** An account is registered, given a session before it is active, and cleaned up. */
  const PENDING_STATES := [
    EMPTY_AUTH,
    Auth(map["a" := PENDING_ACCOUNT], map["c" := REGISTRATION], map[], map[], map[]),
    Auth(map["a" := PENDING_ACCOUNT], map["c" := REGISTRATION], map[], map["i" := EARLY_SESSION], map[]),
    EMPTY_AUTH]
  const PENDING_OPS := [
    Create("a", PENDING_ACCOUNT, "c", REGISTRATION), Start("i", EARLY_SESSION), Clean(CLEANUP_BOUNDS, {"a"}, {}, {})]

  lemma CleansUpPendingAccount()
    ensures CleansUp(PENDING_STATES[2], CLEANUP_BOUNDS, {"a"}, {}, {}, EMPTY_AUTH)
  {
    var s, b := PENDING_STATES[2], CLEANUP_BOUNDS;
    assert AbandonedAccounts(s, b) == map["a" := 0];
    assert IsOldestBatch({"a"}, AbandonedAccounts(s, b), 1);
    var left := DeleteAccounts(s, {"a"});
    assert left == EMPTY_AUTH;
    assert StaleCeremonies(left, b) == map[] && StaleSessions(left, b) == map[];
    assert left.ceremonies - {} == map[] && left.sessions - {} == map[];
  }

  /**
   A run from the empty store, with nothing out of the ordinary but a session for a pending account, after which a
   cleanup turns a rotation that would have succeeded into one that fails.
   */
  lemma RotationOfPendingAccountChanges()
    ensures IsRun(PENDING_STATES, PENDING_OPS) && forall i :: 0 <= i < |PENDING_OPS| ==> IsFresh(PENDING_OPS[i])
    ensures var input := Rotation("i", "a", "secret2", "csrf2", 200, 20, false);
            && input.authenticatedAt >= CLEANUP_BOUNDS.now
            && RotateResult(PENDING_STATES[2], input).Ok? && RotateResult(PENDING_STATES[3], input).Err?
  {
    hide CleansUp, HandleTaken;
    CleansUpPendingAccount();
    NoHandles();
    forall i | 0 <= i < |PENDING_OPS| ensures Steps(PENDING_STATES[i], PENDING_OPS[i], PENDING_STATES[i + 1]) {
    }
  }

  lemma NoHandles()
    ensures !HandleTaken(EMPTY_AUTH, [])
  {
  }

  // ----- Draining -----

  function Backlog(s: Auth, b: Bounds): nat {
    |AbandonedAccounts(s, b).Keys| + |StaleCeremonies(s, b).Keys| + |StaleSessions(s, b).Keys|
  }

  lemma SubsetSizes<T>(small: set<T>, large: set<T>)
    requires small <= large
    ensures |small| <= |large|
    ensures |large - small| == |large| - |small|
  {
  }

  lemma BatchSize(chosen: set<string>, ages: map<string, int>, batchSize: int)
    requires IsOldestBatch(chosen, ages, batchSize) && batchSize >= 1
    ensures chosen <= ages.Keys && (chosen == {} <==> ages == map[])
    ensures |ages.Keys| == |ages|
  {
  }

  lemma BacklogAfter(s: Auth, b: Bounds, doomed: set<string>, ceremonies: set<string>, sessions: set<string>,
                     next: Auth)
    requires CleansUp(s, b, doomed, ceremonies, sessions, next)
    ensures AbandonedAccounts(next, b).Keys == AbandonedAccounts(s, b).Keys - doomed
    ensures StaleCeremonies(next, b).Keys == StaleCeremonies(DeleteAccounts(s, doomed), b).Keys - ceremonies
    ensures StaleSessions(next, b).Keys == StaleSessions(DeleteAccounts(s, doomed), b).Keys - sessions
    ensures StaleCeremonies(DeleteAccounts(s, doomed), b).Keys <= StaleCeremonies(s, b).Keys
    ensures StaleSessions(DeleteAccounts(s, doomed), b).Keys <= StaleSessions(s, b).Keys
  {
    hide IsOldestBatch, Abandoned, StaleCeremony, StaleSession;
  }

  /** Every pass takes what it reports off the backlog, and reports nothing only when nothing is left. */
  lemma PassReducesBacklog(s: Auth, b: Bounds, doomed: set<string>, ceremonies: set<string>, sessions: set<string>,
                           next: Auth)
    requires ValidBounds(b) && CleansUp(s, b, doomed, ceremonies, sessions, next)
    ensures Backlog(next, b) + |doomed| + |ceremonies| + |sessions| <= Backlog(s, b)
    ensures |doomed| + |ceremonies| + |sessions| == 0 <==> Backlog(s, b) == 0
  {
    BacklogAfter(s, b, doomed, ceremonies, sessions, next);
    var left := DeleteAccounts(s, doomed);
    BatchSize(doomed, AbandonedAccounts(s, b), b.batchSize);
    BatchSize(ceremonies, StaleCeremonies(left, b), b.batchSize);
    BatchSize(sessions, StaleSessions(left, b), b.batchSize);
    hide CleansUp, AbandonedAccounts, StaleCeremonies, StaleSessions, DeleteAccounts, IsOldestBatch;
    SubsetSizes(doomed, AbandonedAccounts(s, b).Keys);
    SubsetSizes(ceremonies, StaleCeremonies(left, b).Keys);
    SubsetSizes(sessions, StaleSessions(left, b).Keys);
    SubsetSizes(StaleCeremonies(left, b).Keys, StaleCeremonies(s, b).Keys);
    SubsetSizes(StaleSessions(left, b).Keys, StaleSessions(s, b).Keys);
    if |doomed| + |ceremonies| + |sessions| == 0 {
      NothingDoomed(s);
    }
  }

  lemma NothingDoomed(s: Auth)
    ensures DeleteAccounts(s, {}) == s
  {
  }

  ghost predicate IsPass(s: Auth, b: Bounds, next: Auth) {
    exists doomed, ceremonies, sessions :: CleansUp(s, b, doomed, ceremonies, sessions, next)
  }

  /** As many passes as there are stale records leave none, whatever the batch size. */
  lemma {:induction false} PassesDrain(states: seq<Auth>, b: Bounds)
    requires ValidBounds(b) && |states| > 0
    requires forall i :: 0 <= i < |states| - 1 ==> IsPass(states[i], b, states[i + 1])
    ensures var first, passes := Backlog(states[0], b), |states| - 1;
            Backlog(states[|states| - 1], b) <= (if first > passes then first - passes else 0)
    decreases |states|
  {
    hide CleansUp, Backlog;
    if |states| > 1 {
      var earlier, last := states[..|states| - 1], |states| - 1;
      PassesDrain(earlier, b);
      assert IsPass(states[last - 1], b, states[last - 1 + 1]);
      var doomed, ceremonies, sessions :| CleansUp(states[last - 1], b, doomed, ceremonies, sessions, states[last]);
      PassReducesBacklog(states[last - 1], b, doomed, ceremonies, sessions, states[last]);
    }
  }
}
