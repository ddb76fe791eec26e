/** What every run of the authentication store keeps, and what its cleanup can and cannot change. */
module AuthInvariant {
  import opened Wrappers
  import opened EventOrder
  import opened AuthState

  // ----- Choosing a batch -----

  predicate Older(x: string, y: string, ages: map<string, int>)
    requires x in ages && y in ages
  {
    ages[x] < ages[y] || (ages[x] == ages[y] && CompareStrings(x, y) < 0)
  }

  /** The oldest candidates, as many as a batch takes. */
  predicate IsOldestBatch(chosen: set<string>, ages: map<string, int>, batchSize: int) {
    && chosen <= ages.Keys
    && |chosen| == (if |ages| <= batchSize then |ages| else if batchSize < 0 then 0 else batchSize)
    && forall x, y :: x in chosen && y in ages && y !in chosen ==> Older(x, y, ages)
  }

  datatype Cleaned = Cleaned(accounts: nat, ceremonies: nat, sessions: nat)

  /** One pass: abandoned accounts with everything of theirs, then stale ceremonies, then stale sessions. */
  ghost predicate CleansUp(s: Auth, b: Bounds, doomed: set<string>, ceremonies: set<string>, sessions: set<string>,
                           next: Auth) {
    && IsOldestBatch(doomed, AbandonedAccounts(s, b), b.batchSize)
    && var left := DeleteAccounts(s, doomed);
    && IsOldestBatch(ceremonies, StaleCeremonies(left, b), b.batchSize)
    && IsOldestBatch(sessions, StaleSessions(left, b), b.batchSize)
    && next == left.(ceremonies := left.ceremonies - ceremonies, sessions := left.sessions - sessions)
  }

  // ----- Runs -----

  datatype AuthOp =
    | Create(accountId: string, account: Account, ceremonyId: string, ceremony: Ceremony)
    | Put(ceremonyId: string, ceremony: Ceremony)
    | Consume(input: Consumption)
    | Finalize(accountId: string, credentialId: string, credential: Credential, bundle: Bundle, at: int)
    | Add(accountId: string, credentialId: string, credential: Credential, bundle: Bundle)
    | Complete(update: Update, sessionId: string, session: Session)
    | UpdateOp(update: Update)
    | Revoke(accountId: string, credentialId: string, at: int)
    | Start(sessionId: string, session: Session)
    | Rotate(rotation: Rotation)
    | End(sessionId: string, at: int)
    | Clean(bounds: Bounds, doomed: set<string>, ceremonies: set<string>, sessions: set<string>)

  /** An operation that fails changes nothing. */
  function Settle(s: Auth, outcome: AuthOutcome): Auth {
    if outcome.Ok? then outcome.value else s
  }

  ghost predicate Steps(s: Auth, op: AuthOp, next: Auth) {
    match op
    case Create(a, account, c, ceremony) => next == Settle(s, CreateProvisionalAccount(s, a, account, c, ceremony))
    case Put(c, ceremony) => next == Settle(s, PutCeremony(s, c, ceremony))
    case Consume(input) => next == ConsumeCeremony(s, input)
    case Finalize(a, c, credential, b, at) => next == Settle(s, FinalizeFirstCredential(s, a, c, credential, b, at))
    case Add(a, c, credential, b) => next == Settle(s, AddCredentialTo(s, a, c, credential, b))
    case Complete(update, i, session) => next == Settle(s, CompleteAuthentication(s, update, i, session))
    case UpdateOp(update) => next == Settle(s, UpdateCredential(s, update))
    case Revoke(a, c, at) => next == Settle(s, RevokeCredential(s, a, c, at))
    case Start(i, session) => next == Settle(s, PutSession(s, i, session))
    case Rotate(rotation) => next == Settle(s, RotateSession(s, rotation))
    case End(i, at) => next == RevokeSession(s, i, at)
    case Clean(b, doomed, ceremonies, sessions) => CleansUp(s, b, doomed, ceremonies, sessions, next)
  }

  /** New accounts are pending and new credentials are not revoked. */
  predicate IsFresh(op: AuthOp) {
    && (op.Create? ==> op.account.status.Pending?)
    && (op.Finalize? || op.Add? ==> op.credential.revokedAt.None?)
  }

  ghost predicate IsRun(states: seq<Auth>, ops: seq<AuthOp>) {
    && |states| == |ops| + 1 && states[0] == EMPTY_AUTH
    && forall i :: 0 <= i < |ops| ==> Steps(states[i], ops[i], states[i + 1])
  }

  // ----- The root invariant -----

  /** The one bundle of an unrevoked credential is stored under the credential and the root key of its account. */
  predicate BundleHolds(s: Auth, k: BundleKey)
    requires k in s.bundles
  {
    var b := s.bundles[k];
    && KeyOf(b) == k && b.kind == RootSeed && b.wrapped.kind == RootSeed
    && b.credentialId in s.credentials && s.credentials[b.credentialId].revokedAt.None?
    && s.credentials[b.credentialId].accountId == b.accountId
  }

  ghost predicate BundlesHold(s: Auth) {
    forall k :: k in s.bundles ==> BundleHolds(s, k)
  }

  ghost predicate IsWrapped(s: Auth, c: string) {
    exists k :: k in s.bundles && k.credentialId == c
  }

  /** Every unrevoked credential wraps the root, once. */
  ghost predicate CredentialsWrapped(s: Auth) {
    && (forall c :: c in s.credentials && s.credentials[c].revokedAt.None? ==> IsWrapped(s, c))
    && (forall k, l :: k in s.bundles && l in s.bundles && k.credentialId == l.credentialId ==> k == l)
  }

  ghost predicate OneRootKey(s: Auth) {
    forall k, l :: k in s.bundles && l in s.bundles && s.bundles[k].accountId == s.bundles[l].accountId ==>
      s.bundles[k].publicKey == s.bundles[l].publicKey
  }

  ghost predicate OwnersActive(s: Auth) {
    forall c :: c in s.credentials ==>
      s.credentials[c].accountId in s.accounts && s.accounts[s.credentials[c].accountId].status.Active?
  }

  predicate Usable(s: Auth, a: string) {
    a in s.accounts && s.accounts[a].status.Active? ==> ActiveCredentials(s, a) != {}
  }

  /** Credentials belong to active accounts, and every active account can be signed in to. */
  ghost predicate AccountsUsable(s: Auth) {
    OwnersActive(s) && forall a :: Usable(s, a)
  }

  ghost predicate RootInvariant(s: Auth) {
    BundlesHold(s) && CredentialsWrapped(s) && OneRootKey(s) && AccountsUsable(s)
  }

  // ----- One operation -----

  lemma NewBundleHolds(s: Auth, next: Auth, a: string, c: string, credential: Credential, b: Bundle)
    requires BundlesHold(s) && OneRootKey(s)
    requires IsRootBundleOf(b, a, c) && c !in s.credentials && credential.accountId == a && credential.revokedAt.None?
    requires forall k :: k in s.bundles && s.bundles[k].accountId == a ==> s.bundles[k].publicKey == b.publicKey
    requires next.credentials == s.credentials[c := credential] && next.bundles == s.bundles[KeyOf(b) := b]
    ensures BundlesHold(next) && OneRootKey(next)
  {
  }

  lemma NewCredentialWrapped(s: Auth, next: Auth, c: string, credential: Credential, b: Bundle)
    requires BundlesHold(s) && CredentialsWrapped(s) && b.credentialId == c && c !in s.credentials
    requires next.credentials == s.credentials[c := credential] && next.bundles == s.bundles[KeyOf(b) := b]
    ensures CredentialsWrapped(next)
  {
  }

  /** Storing a new unrevoked credential with a bundle of the account's root keeps bundles and credentials matched. */
  lemma NewCredentialKeeps(s: Auth, next: Auth, a: string, c: string, credential: Credential, b: Bundle)
    requires BundlesHold(s) && CredentialsWrapped(s) && OneRootKey(s)
    requires IsRootBundleOf(b, a, c) && c !in s.credentials && credential.accountId == a && credential.revokedAt.None?
    requires forall k :: k in s.bundles && s.bundles[k].accountId == a ==> s.bundles[k].publicKey == b.publicKey
    requires next.credentials == s.credentials[c := credential] && next.bundles == s.bundles[KeyOf(b) := b]
    ensures BundlesHold(next) && CredentialsWrapped(next) && OneRootKey(next)
  {
    NewBundleHolds(s, next, a, c, credential, b);
    NewCredentialWrapped(s, next, c, credential, b);
  }

  lemma NewCredentialUsable(s: Auth, next: Auth, a: string, c: string, credential: Credential)
    requires AccountsUsable(s) && c !in s.credentials && credential.accountId == a && credential.revokedAt.None?
    requires next.credentials == s.credentials[c := credential]
    requires a in next.accounts && next.accounts[a].status.Active?
    requires forall x :: x != a ==>
               (x in next.accounts <==> x in s.accounts) && (x in s.accounts ==> next.accounts[x] == s.accounts[x])
    ensures AccountsUsable(next)
  {
    hide ActiveCredentials;
    forall x ensures Usable(next, x) {
      if x == a {
        assert c in ActiveCredentials(next, x);
      } else if x in next.accounts && next.accounts[x].status.Active? {
        assert Usable(s, x);
        var y :| y in ActiveCredentials(s, x);
        assert y in ActiveCredentials(next, x);
      }
    }
  }

  lemma NoBundleYet(s: Auth, a: string)
    requires !HasBundle(s, a)
    ensures forall k :: k in s.bundles ==> s.bundles[k].accountId != a
  {
  }

  lemma FinalizeKeeps(s: Auth, a: string, c: string, credential: Credential, b: Bundle, at: int)
    requires RootInvariant(s) && credential.revokedAt.None?
    ensures RootInvariant(Settle(s, FinalizeFirstCredential(s, a, c, credential, b, at)))
  {
    hide BundlesHold, CredentialsWrapped, OneRootKey, AccountsUsable, HasBundle, IsRootBundleOf;
    if FinalizeFirstCredential(s, a, c, credential, b, at).Ok? {
      var next := FinalizeFirstCredential(s, a, c, credential, b, at).value;
      NoBundleYet(s, a);
      NewCredentialKeeps(s, next, a, c, credential, b);
      NewCredentialUsable(s, next, a, c, credential);
    }
  }

  lemma RootIsShared(s: Auth, a: string, publicKey: string)
    requires BundlesHold(s) && ActiveRootKeys(s, a) == {publicKey}
    ensures forall k :: k in s.bundles && s.bundles[k].accountId == a ==> s.bundles[k].publicKey == publicKey
  {
  }

  lemma AddKeeps(s: Auth, a: string, c: string, credential: Credential, b: Bundle)
    requires RootInvariant(s) && credential.revokedAt.None?
    ensures RootInvariant(Settle(s, AddCredentialTo(s, a, c, credential, b)))
  {
    hide BundlesHold, CredentialsWrapped, OneRootKey, AccountsUsable, IsRootBundleOf, ActiveRootKeys;
    if AddCredentialTo(s, a, c, credential, b).Ok? {
      var next := AddCredentialTo(s, a, c, credential, b).value;
      RootIsShared(s, a, b.publicKey);
      NewCredentialKeeps(s, next, a, c, credential, b);
      NewCredentialUsable(s, next, a, c, credential);
    }
  }

  lemma OtherActiveCredential(s: Auth, a: string, c: string, x: string)
    requires c in s.credentials && s.credentials[c].accountId == a && |ActiveCredentials(s, a)| > 1
    requires ActiveCredentials(s, x) != {}
    ensures exists y :: y in ActiveCredentials(s, x) && y != c
  {
    hide ActiveCredentials;
    if x == a {
      assert ActiveCredentials(s, x) != {c};
    } else {
      var y :| y in ActiveCredentials(s, x);
    }
  }

  /** Without the bundles of a revoked credential, the others still match. */
  lemma RevokeKeepsBundles(s: Auth, next: Auth, c: string)
    requires BundlesHold(s) && CredentialsWrapped(s) && OneRootKey(s) && c in s.credentials
    requires next.credentials.Keys == s.credentials.Keys && next.credentials[c].revokedAt.Some?
    requires forall x :: x in s.credentials && x != c ==> next.credentials[x] == s.credentials[x]
    requires forall k :: k in next.bundles <==> k in s.bundles && s.bundles[k].credentialId != c
    requires forall k :: k in next.bundles ==> next.bundles[k] == s.bundles[k]
    ensures BundlesHold(next) && CredentialsWrapped(next) && OneRootKey(next)
  {
  }

  lemma StillUsable(s: Auth, next: Auth, c: string, x: string)
    requires c in s.credentials && |ActiveCredentials(s, s.credentials[c].accountId)| > 1 && Usable(s, x)
    requires next.accounts == s.accounts
    requires forall y :: y in s.credentials && y != c ==>
               y in next.credentials && next.credentials[y] == s.credentials[y]
    ensures Usable(next, x)
  {
    hide ActiveCredentials;
    if ActiveCredentials(s, x) != {} {
      OtherActiveCredential(s, s.credentials[c].accountId, c, x);
      var y :| y in ActiveCredentials(s, x) && y != c;
      assert y in ActiveCredentials(next, x);
    }
  }

  lemma RevokeKeepsUsable(s: Auth, next: Auth, c: string)
    requires AccountsUsable(s) && c in s.credentials && |ActiveCredentials(s, s.credentials[c].accountId)| > 1
    requires next.accounts == s.accounts
    requires forall y :: y in next.credentials <==> y in s.credentials
    requires next.credentials[c].accountId == s.credentials[c].accountId
    requires forall y :: y in s.credentials && y != c ==>
               y in next.credentials && next.credentials[y] == s.credentials[y]
    ensures AccountsUsable(next)
  {
    hide ActiveCredentials, Usable;
    forall x ensures Usable(next, x) {
      StillUsable(s, next, c, x);
    }
    assert OwnersActive(next);
  }

  lemma RevokeKeeps(s: Auth, a: string, c: string, at: int)
    requires RootInvariant(s)
    ensures RootInvariant(Settle(s, RevokeCredential(s, a, c, at)))
  {
    hide BundlesHold, CredentialsWrapped, OneRootKey, AccountsUsable, ActiveCredentials, RevokedSession;
    if RevokeCredential(s, a, c, at).Ok? {
      var next := RevokeCredential(s, a, c, at).value;
      RevokeKeepsBundles(s, next, c);
      RevokeKeepsUsable(s, next, c);
    }
  }

  /** The same credentials, up to their counters, for the same accounts. */
  predicate SameCredentials(s: Auth, next: Auth) {
    && next.credentials.Keys == s.credentials.Keys
    && forall c :: c in s.credentials ==>
         && next.credentials[c].accountId == s.credentials[c].accountId
         && next.credentials[c].revokedAt == s.credentials[c].revokedAt
  }

  predicate SameActiveAccounts(s: Auth, next: Auth) {
    && (forall a :: a in s.accounts && s.accounts[a].status.Active? ==>
        a in next.accounts && next.accounts[a].status.Active?)
    && (forall a :: a in next.accounts && next.accounts[a].status.Active? ==>
        a in s.accounts && s.accounts[a].status.Active?)
  }

  lemma SameBundlesHold(s: Auth, next: Auth)
    requires SameCredentials(s, next) && next.bundles == s.bundles
    requires BundlesHold(s) && CredentialsWrapped(s) && OneRootKey(s)
    ensures BundlesHold(next) && CredentialsWrapped(next) && OneRootKey(next)
  {
  }

  lemma SameAccountsUsable(s: Auth, next: Auth)
    requires SameCredentials(s, next) && SameActiveAccounts(s, next) && AccountsUsable(s)
    ensures AccountsUsable(next)
  {
    hide ActiveCredentials;
    forall x ensures Usable(next, x) {
      assert Usable(s, x);
      if ActiveCredentials(s, x) != {} {
        var y :| y in ActiveCredentials(s, x);
        assert y in ActiveCredentials(next, x);
      }
    }
  }

  /** Changes to counters, sessions, ceremonies and pending accounts leave the roots alone. */
  lemma SameRoots(s: Auth, next: Auth)
    requires RootInvariant(s) && next.bundles == s.bundles && SameCredentials(s, next) && SameActiveAccounts(s, next)
    ensures RootInvariant(next)
  {
    hide BundlesHold, CredentialsWrapped, OneRootKey, AccountsUsable, SameCredentials, SameActiveAccounts;
    SameBundlesHold(s, next);
    SameAccountsUsable(s, next);
  }

  /** Deleting pending accounts deletes no credential and no bundle. */
  lemma DeletedArePending(s: Auth, doomed: set<string>)
    requires RootInvariant(s) && forall a :: a in doomed ==> a in s.accounts && s.accounts[a].status.Pending?
    ensures DeleteAccounts(s, doomed).credentials == s.credentials && DeleteAccounts(s, doomed).bundles == s.bundles
  {
    hide CredentialsWrapped, OneRootKey, ActiveCredentials;
    forall k | k in s.bundles ensures s.bundles[k].accountId !in doomed {
      assert BundleHolds(s, k);
    }
  }

  lemma DoomedArePending(s: Auth, b: Bounds, doomed: set<string>)
    requires IsOldestBatch(doomed, AbandonedAccounts(s, b), b.batchSize)
    ensures forall a :: a in doomed ==> a in s.accounts && s.accounts[a].status.Pending?
  {
  }

  lemma SameAfterCleaning(s: Auth, next: Auth, doomed: set<string>)
    requires next.accounts == s.accounts - doomed && next.credentials == s.credentials
    requires forall a :: a in doomed ==> a in s.accounts && s.accounts[a].status.Pending?
    ensures SameCredentials(s, next) && SameActiveAccounts(s, next)
  {
  }

  lemma CleanKeeps(s: Auth, b: Bounds, doomed: set<string>, ceremonies: set<string>, sessions: set<string>, next: Auth)
    requires RootInvariant(s) && CleansUp(s, b, doomed, ceremonies, sessions, next)
    ensures RootInvariant(next)
  {
    hide RootInvariant, StaleCeremonies, StaleSessions, AbandonedAccounts, IsOldestBatch, SameCredentials,
      SameActiveAccounts;
    DoomedArePending(s, b, doomed);
    DeletedArePending(s, doomed);
    SameAfterCleaning(s, next, doomed);
    SameRoots(s, next);
  }

  lemma AuthenticationKeeps(s: Auth, op: AuthOp, next: Auth)
    requires Steps(s, op, next) && (op.Complete? || op.UpdateOp?)
    ensures next.bundles == s.bundles && SameCredentials(s, next) && SameActiveAccounts(s, next)
  {
  }

  lemma CreationKeeps(s: Auth, op: AuthOp, next: Auth)
    requires Steps(s, op, next) && IsFresh(op) && op.Create?
    ensures next.bundles == s.bundles && SameCredentials(s, next) && SameActiveAccounts(s, next)
  {
  }

  /** The operations that touch neither a root nor the set of active accounts. */
  lemma OtherStepsKeep(s: Auth, op: AuthOp, next: Auth)
    requires Steps(s, op, next) && IsFresh(op)
    requires !(op.Finalize? || op.Add? || op.Revoke? || op.Clean?)
    ensures next.bundles == s.bundles && SameCredentials(s, next) && SameActiveAccounts(s, next)
  {
    if op.Complete? || op.UpdateOp? {
      AuthenticationKeeps(s, op, next);
    } else if op.Create? {
      CreationKeeps(s, op, next);
    } else {
      hide MayConsume, RotateResult, IsFresh;
      assert next.credentials == s.credentials && next.accounts == s.accounts;
    }
  }

  lemma StepKeepsRoots(s: Auth, op: AuthOp, next: Auth)
    requires RootInvariant(s) && Steps(s, op, next) && IsFresh(op)
    ensures RootInvariant(next)
  {
    hide RootInvariant, CleansUp, FinalizeFirstCredential, AddCredentialTo, RevokeCredential, SameCredentials,
      SameActiveAccounts, CreateProvisionalAccount, PutCeremony, ConsumeCeremony, CompleteAuthentication,
      UpdateCredential, PutSession, RotateSession, RevokeSession, Settle;
    match op
    case Finalize(a, c, credential, b, at) => FinalizeKeeps(s, a, c, credential, b, at);
    case Add(a, c, credential, b) => AddKeeps(s, a, c, credential, b);
    case Revoke(a, c, at) => RevokeKeeps(s, a, c, at);
    case Clean(b, doomed, ceremonies, sessions) => CleanKeeps(s, b, doomed, ceremonies, sessions, next);
    case _ =>
      OtherStepsKeep(s, op, next);
      SameRoots(s, next);
  }

  /**
   In every state of every run whose accounts start pending and whose credentials start unrevoked: each active account
   has an unrevoked credential, unrevoked credentials and bundles match one to one, and the bundles of an account all
   hold the same root.
   */
  lemma {:induction false} RootsHoldInEveryRun(states: seq<Auth>, ops: seq<AuthOp>, n: nat)
    requires IsRun(states, ops) && n < |states| && forall i :: 0 <= i < |ops| ==> IsFresh(ops[i])
    ensures RootInvariant(states[n])
  {
    hide RootInvariant, IsFresh;
    if n > 0 {
      RootsHoldInEveryRun(states, ops, n - 1);
      assert Steps(states[n - 1], ops[n - 1], states[n - 1 + 1]);
      StepKeepsRoots(states[n - 1], ops[n - 1], states[n]);
    } else {
      NothingStored();
    }
  }

  lemma NothingStored()
    ensures RootInvariant(EMPTY_AUTH)
  {
  }

  // ----- Counters -----

  /** A stored counter never falls, and a counter in use rises with every authentication. */
  lemma CountersRise(s: Auth, op: AuthOp, next: Auth, c: string)
    requires Steps(s, op, next) && c in s.credentials && c in next.credentials
    ensures next.credentials[c].counter >= s.credentials[c].counter
    ensures op.Complete? && next != s && op.update.credentialId == c && s.credentials[c].counter != 0 ==>
              next.credentials[c].counter > s.credentials[c].counter
  {
    hide IsOldestBatch;
  }
}
