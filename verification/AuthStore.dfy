/** The store that keeps the authentication records in five maps and updates them in place. */
module AuthStore {
  import opened Wrappers
  import opened EventOrder
  import opened AuthState
  import opened AuthInvariant

  function Failure(outcome: AuthOutcome): Result<(), AuthFault> {
    if outcome.Ok? then Ok(()) else Err(outcome.error)
  }

  function Members(xs: seq<string>): set<string> {
    set x | x in xs
  }

  // ----- Sorting by age -----

  lemma OlderTotal(x: string, y: string, ages: map<string, int>)
    requires x in ages && y in ages && x != y
    ensures Older(x, y, ages) <==> !Older(y, x, ages)
  {
    CompareStringsAntisymmetric(x, y);
    CompareStringsAntisymmetric(y, x);
  }

  lemma OlderTransitive(x: string, y: string, z: string, ages: map<string, int>)
    requires x in ages && y in ages && z in ages && Older(x, y, ages) && Older(y, z, ages)
    ensures Older(x, z, ages)
  {
    if ages[x] == ages[y] == ages[z] {
      CompareStringsTransitive(x, y, z);
    }
  }

  ghost predicate Ascending(xs: seq<string>, ages: map<string, int>) {
    && (forall i :: 0 <= i < |xs| ==> xs[i] in ages)
    && forall i, j :: 0 <= i < j < |xs| ==> Older(xs[i], xs[j], ages)
  }

  lemma InsertAscending(xs: seq<string>, x: string, k: nat, ages: map<string, int>)
    requires Ascending(xs, ages) && x in ages && x !in xs && k <= |xs|
    requires forall i :: 0 <= i < k ==> Older(xs[i], x, ages)
    requires k < |xs| ==> Older(x, xs[k], ages)
    ensures Ascending(xs[..k] + [x] + xs[k..], ages)
  {
    hide Older;
    forall i | k <= i < |xs| ensures Older(x, xs[i], ages) {
      if k < i {
        OlderTransitive(x, xs[k], xs[i], ages);
      }
    }
  }

  method InsertByAge(xs: seq<string>, x: string, ages: map<string, int>) returns (r: seq<string>)
    requires Ascending(xs, ages) && x in ages && x !in xs
    ensures Ascending(r, ages) && multiset(r) == multiset(xs) + multiset{x}
  {
    hide Older;
    var k := 0;
    while k < |xs| && Older(xs[k], x, ages)
      invariant k <= |xs| && forall i :: 0 <= i < k ==> Older(xs[i], x, ages)
    {
      k := k + 1;
    }
    if k < |xs| {
      OlderTotal(xs[k], x, ages);
    }
    InsertAscending(xs, x, k, ages);
    assert xs == xs[..k] + xs[k..];
    r := xs[..k] + [x] + xs[k..];
  }

  /** The keys with the lowest ages, in order, at most as many as a batch takes. */
  method OldestBatch(ages: map<string, int>, batchSize: nat) returns (chosen: seq<string>)
    ensures IsOldestBatch(Members(chosen), ages, batchSize)
    ensures |Members(chosen)| == |chosen|
  {
    hide Older;
    var sorted: seq<string> := [];
    var remaining := ages.Keys;
    while remaining != {}
      invariant remaining <= ages.Keys && Ascending(sorted, ages)
      invariant forall x :: x in sorted <==> x in ages && x !in remaining
      invariant |sorted| + |remaining| == |ages.Keys|
      decreases remaining
    {
      var x :| x in remaining;
      var next := InsertByAge(sorted, x, ages);
      SameMembers(sorted, next, x);
      sorted := next;
      remaining := remaining - {x};
    }
    chosen := if |sorted| <= batchSize then sorted else sorted[..batchSize];
    KeysSize(ages);
    assert sorted[..|chosen|] == chosen;
    FirstAreOldest(sorted, |chosen|, ages);
  }

  lemma KeysSize(ages: map<string, int>)
    ensures |ages.Keys| == |ages|
  {
  }

  lemma SameMembers(xs: seq<string>, r: seq<string>, x: string)
    requires multiset(r) == multiset(xs) + multiset{x}
    ensures forall y :: y in r <==> y in xs || y == x
    ensures |r| == |xs| + 1
  {
    assert |multiset(r)| == |r| && |multiset(xs)| == |xs|;
    forall y ensures y in r <==> y in xs || y == x {
      assert y in r <==> y in multiset(r);
    }
  }

  lemma FirstAreOldest(sorted: seq<string>, n: nat, ages: map<string, int>)
    requires Ascending(sorted, ages) && n <= |sorted| && forall x :: x in ages ==> x in sorted
    ensures var chosen := Members(sorted[..n]);
            && chosen <= ages.Keys && |chosen| == n
            && forall x, y :: x in chosen && y in ages && y !in chosen ==> Older(x, y, ages)
  {
    hide Older;
    var chosen := Members(sorted[..n]);
    AscendingDistinct(sorted[..n], ages);
    DistinctSize(sorted[..n]);
    forall x, y | x in chosen && y in ages && y !in chosen ensures Older(x, y, ages) {
      var i :| 0 <= i < n && sorted[i] == x;
      var j :| 0 <= j < |sorted| && sorted[j] == y;
      assert forall m :: 0 <= m < n ==> sorted[..n][m] == sorted[m] && sorted[m] in chosen;
    }
  }

  lemma AscendingDistinct(xs: seq<string>, ages: map<string, int>)
    requires Ascending(xs, ages)
    ensures forall i, j :: 0 <= i < j < |xs| ==> xs[i] != xs[j]
  {
  }

  lemma {:induction false} DistinctSize(xs: seq<string>)
    requires forall i, j :: 0 <= i < j < |xs| ==> xs[i] != xs[j]
    ensures |Members(xs)| == |xs|
  {
    if xs != [] {
      var last := |xs| - 1;
      DistinctSize(xs[..last]);
      assert xs == xs[..last] + [xs[last]];
      assert Members(xs) == Members(xs[..last]) + {xs[last]};
    }
  }

  // ----- The store -----

  class MemoryAuthStore {
    var accounts: map<string, Account>
    var ceremonies: map<string, Ceremony>
    var credentials: map<string, Credential>
    var sessions: map<string, Session>
    var bundles: map<BundleKey, Bundle>

    function Model(): Auth
      reads this
    {
      Auth(accounts, ceremonies, credentials, sessions, bundles)
    }

    constructor ()
      ensures Model() == EMPTY_AUTH
    {
      accounts, ceremonies, credentials, sessions, bundles := map[], map[], map[], map[], map[];
    }

    method IsHandleTaken(handle: seq<bv8>) returns (taken: bool)
      ensures taken <==> HandleTaken(Model(), handle)
    {
      var remaining := accounts.Keys;
      while remaining != {}
        invariant remaining <= accounts.Keys
        invariant forall a :: a in accounts && a !in remaining ==> accounts[a].userHandle != handle
        decreases remaining
      {
        var a :| a in remaining;
        if accounts[a].userHandle == handle {
          return true;
        }
        remaining := remaining - {a};
      }
      return false;
    }

    method CreateProvisionalAccount(accountId: string, account: Account, ceremonyId: string, ceremony: Ceremony)
      returns (r: Result<(), AuthFault>)
      modifies this`accounts, this`ceremonies
      ensures r == Failure(AuthState.CreateProvisionalAccount(old(Model()), accountId, account, ceremonyId, ceremony))
      ensures Model() == Settle(old(Model()),
                                AuthState.CreateProvisionalAccount(old(Model()), accountId, account, ceremonyId,
                                                                   ceremony))
    {
      var taken := IsHandleTaken(account.userHandle);
      if accountId in accounts || taken || ceremonyId in ceremonies || ceremony.accountId != Some(accountId) {
        return Err(InvalidRequest);
      }
      accounts := accounts[accountId := account];
      ceremonies := ceremonies[ceremonyId := ceremony];
      r := Ok(());
    }

    method PutCeremony(ceremonyId: string, ceremony: Ceremony) returns (r: Result<(), AuthFault>)
      modifies this`ceremonies
      ensures r == Failure(AuthState.PutCeremony(old(Model()), ceremonyId, ceremony))
      ensures Model() == Settle(old(Model()), AuthState.PutCeremony(old(Model()), ceremonyId, ceremony))
    {
      if ceremonyId in ceremonies || (ceremony.accountId.Some? && ceremony.accountId.value !in accounts) {
        return Err(InvalidRequest);
      }
      ceremonies := ceremonies[ceremonyId := ceremony];
      r := Ok(());
    }

    method ConsumeCeremony(input: Consumption) returns (r: Option<Ceremony>)
      modifies this`ceremonies
      ensures r == ConsumeResult(old(Model()), input)
      ensures Model() == AuthState.ConsumeCeremony(old(Model()), input)
    {
      if input.ceremonyId !in ceremonies {
        return None;
      }
      var ceremony := ceremonies[input.ceremonyId];
      if ceremony.purpose != input.purpose || ceremony.consumedAt.Some? || ceremony.attempts >= ceremony.maxAttempts
         || ceremony.expiresAt <= input.now || (ceremony.accountId.Some? && ceremony.accountId != input.accountId) {
        return None;
      }
      var consumed := Consumed(ceremony, input);
      ceremonies := ceremonies[input.ceremonyId := consumed];
      r := Some(consumed);
    }

    method AccountHasBundle(accountId: string) returns (found: bool)
      ensures found <==> HasBundle(Model(), accountId)
    {
      var remaining := bundles.Keys;
      while remaining != {}
        invariant remaining <= bundles.Keys
        invariant forall k :: k in bundles && k !in remaining ==> bundles[k].accountId != accountId
        decreases remaining
      {
        var k :| k in remaining;
        if bundles[k].accountId == accountId {
          return true;
        }
        remaining := remaining - {k};
      }
      return false;
    }

    method FinalizeFirstCredential(accountId: string, credentialId: string, credential: Credential, bundle: Bundle,
                                   activatedAt: int) returns (r: Result<(), AuthFault>)
      modifies this`accounts, this`credentials, this`bundles
      ensures var outcome := AuthState.FinalizeFirstCredential(old(Model()), accountId, credentialId, credential,
                                                               bundle, activatedAt);
              r == Failure(outcome) && Model() == Settle(old(Model()), outcome)
    {
      hide HasBundle;
      if !IsRootBundleOf(bundle, accountId, credentialId) {
        return Err(BundleInvalid);
      }
      var bound := AccountHasBundle(accountId);
      assert Model() == old(Model());
      if accountId !in accounts || !accounts[accountId].status.Pending? || credential.accountId != accountId
         || credentialId in credentials || bound {
        return Err(CredentialDuplicate);
      }
      credentials := credentials[credentialId := credential];
      bundles := bundles[KeyOf(bundle) := bundle];
      accounts := accounts[accountId := accounts[accountId].(status := Active, activatedAt := Some(activatedAt))];
      r := Ok(());
    }

    method ActiveRootPublicKeys(accountId: string) returns (keys: set<string>)
      ensures keys == ActiveRootKeys(Model(), accountId)
    {
      keys := {};
      var remaining := bundles.Keys;
      while remaining != {}
        invariant remaining <= bundles.Keys
        invariant keys == set k | k in bundles && k !in remaining && bundles[k].accountId == accountId
                                  && bundles[k].kind == RootSeed
                                  && (bundles[k].credentialId in credentials ==>
                                      credentials[bundles[k].credentialId].revokedAt.None?)
                               :: bundles[k].publicKey
        decreases remaining
      {
        var k :| k in remaining;
        var b := bundles[k];
        if b.accountId == accountId && b.kind == RootSeed
           && (b.credentialId in credentials ==> credentials[b.credentialId].revokedAt.None?) {
          keys := keys + {b.publicKey};
        }
        remaining := remaining - {k};
      }
    }

    method AddCredential(accountId: string, credentialId: string, credential: Credential, bundle: Bundle)
      returns (r: Result<(), AuthFault>)
      modifies this`credentials, this`bundles
      ensures var outcome := AddCredentialTo(old(Model()), accountId, credentialId, credential, bundle);
              r == Failure(outcome) && Model() == Settle(old(Model()), outcome)
    {
      hide ActiveRootKeys;
      if !IsRootBundleOf(bundle, accountId, credentialId) {
        return Err(BundleInvalid);
      }
      var roots := ActiveRootPublicKeys(accountId);
      assert Model() == old(Model());
      if accountId !in accounts || !accounts[accountId].status.Active? || credential.accountId != accountId
         || credentialId in credentials {
        return Err(CredentialDuplicate);
      }
      if |roots| != 1 || bundle.publicKey !in roots {
        return Err(BundleInvalid);
      }
      OnlyMember(roots, bundle.publicKey);
      credentials := credentials[credentialId := credential];
      bundles := bundles[KeyOf(bundle) := bundle];
      r := Ok(());
    }

    method CompleteAuthentication(update: Update, sessionId: string, session: Session)
      returns (r: Result<(), AuthFault>)
      modifies this`credentials, this`sessions
      ensures var outcome := AuthState.CompleteAuthentication(old(Model()), update, sessionId, session);
              r == Failure(outcome) && Model() == Settle(old(Model()), outcome)
    {
      if !MayUpdate(Model(), update) {
        return Err(VerificationFailed);
      }
      var credential := credentials[update.credentialId];
      if credential.accountId !in accounts || !accounts[credential.accountId].status.Active?
         || session.accountId != credential.accountId || session.revokedAt.Some? || sessionId in sessions {
        return Err(VerificationFailed);
      }
      credentials := credentials[update.credentialId := Updated(credential, update)];
      sessions := sessions[sessionId := session];
      r := Ok(());
    }

    method UpdateCredentialAfterAuthentication(update: Update) returns (r: Result<(), AuthFault>)
      modifies this`credentials
      ensures var outcome := UpdateCredential(old(Model()), update);
              r == Failure(outcome) && Model() == Settle(old(Model()), outcome)
    {
      if !MayUpdate(Model(), update) {
        return Err(VerificationFailed);
      }
      credentials := credentials[update.credentialId := Updated(credentials[update.credentialId], update)];
      r := Ok(());
    }

    method CountActiveCredentials(accountId: string) returns (count: nat)
      ensures count == |ActiveCredentials(Model(), accountId)|
    {
      count := 0;
      ghost var counted: set<string> := {};
      var remaining := credentials.Keys;
      while remaining != {}
        invariant remaining <= credentials.Keys
        invariant counted == set c | c in credentials && c !in remaining && credentials[c].accountId == accountId
                                     && credentials[c].revokedAt.None?
        invariant count == |counted|
        decreases remaining
      {
        var c :| c in remaining;
        if credentials[c].accountId == accountId && credentials[c].revokedAt.None? {
          counted := counted + {c};
          count := count + 1;
        }
        remaining := remaining - {c};
      }
      assert counted == ActiveCredentials(Model(), accountId);
    }

    method RevokeCredential(accountId: string, credentialId: string, revokedAt: int) returns (r: Result<(), AuthFault>)
      modifies this`credentials, this`bundles, this`sessions
      ensures var outcome := AuthState.RevokeCredential(old(Model()), accountId, credentialId, revokedAt);
              r == Failure(outcome) && Model() == Settle(old(Model()), outcome)
    {
      hide ActiveCredentials;
      var active := CountActiveCredentials(accountId);
      assert Model() == old(Model());
      if credentialId !in credentials || credentials[credentialId].accountId != accountId
         || credentials[credentialId].revokedAt.Some? {
        return Err(CredentialUnavailable);
      }
      if active <= 1 {
        return Err(LastCredential);
      }
      credentials := credentials[credentialId := credentials[credentialId].(revokedAt := Some(revokedAt))];
      DeleteBundlesOf(credentialId);
      RevokeSessionsOf(accountId, revokedAt);
      r := Ok(());
    }

    method DeleteBundlesOf(credentialId: string)
      modifies this`bundles
      ensures bundles == map k | k in old(bundles) && old(bundles)[k].credentialId != credentialId :: old(bundles)[k]
    {
      ghost var before := bundles;
      var remaining := bundles.Keys;
      while remaining != {}
        invariant remaining <= before.Keys
        invariant bundles == map k | k in before
                  && (k in remaining || before[k].credentialId != credentialId) :: before[k]
        decreases remaining
      {
        var k :| k in remaining;
        if bundles[k].credentialId == credentialId {
          bundles := bundles - {k};
        }
        remaining := remaining - {k};
      }
    }

    method RevokeSessionsOf(accountId: string, revokedAt: int)
      modifies this`sessions
      ensures sessions == map i | i in old(sessions) :: RevokedSession(old(sessions)[i], accountId, revokedAt)
    {
      ghost var before := sessions;
      var remaining := sessions.Keys;
      while remaining != {}
        invariant remaining <= before.Keys
        invariant sessions == map i | i in before ::
                                if i in remaining then before[i] else RevokedSession(before[i], accountId, revokedAt)
        decreases remaining
      {
        var i :| i in remaining;
        if sessions[i].accountId == accountId && sessions[i].revokedAt.None? {
          sessions := sessions[i := sessions[i].(revokedAt := Some(revokedAt))];
        }
        remaining := remaining - {i};
      }
    }

    method PutSession(sessionId: string, session: Session) returns (r: Result<(), AuthFault>)
      modifies this`sessions
      ensures var outcome := AuthState.PutSession(old(Model()), sessionId, session);
              r == Failure(outcome) && Model() == Settle(old(Model()), outcome)
    {
      if sessionId in sessions || session.accountId !in accounts {
        return Err(VerificationFailed);
      }
      sessions := sessions[sessionId := session];
      r := Ok(());
    }

    method RotateSession(input: Rotation) returns (r: Result<Session, AuthFault>)
      modifies this`sessions
      ensures r == RotateResult(old(Model()), input)
      ensures Model() == Settle(old(Model()), AuthState.RotateSession(old(Model()), input))
    {
      if input.sessionId !in sessions || sessions[input.sessionId].accountId != input.accountId
         || sessions[input.sessionId].revokedAt.Some? || sessions[input.sessionId].expiresAt <= input.authenticatedAt {
        return Err(SessionRequired);
      }
      var rotated := Rotated(sessions[input.sessionId], input);
      sessions := sessions[input.sessionId := rotated];
      r := Ok(rotated);
    }

    method RevokeSession(sessionId: string, revokedAt: int)
      modifies this`sessions
      ensures Model() == AuthState.RevokeSession(old(Model()), sessionId, revokedAt)
    {
      if sessionId in sessions && sessions[sessionId].revokedAt.None? {
        sessions := sessions[sessionId := sessions[sessionId].(revokedAt := Some(revokedAt))];
      }
    }

    // ----- Retention -----

    method DeleteCeremoniesOf(accountId: string)
      modifies this`ceremonies
      ensures ceremonies == map c | c in old(ceremonies)
              && old(ceremonies)[c].accountId != Some(accountId) :: old(ceremonies)[c]
    {
      ghost var before := ceremonies;
      var remaining := ceremonies.Keys;
      while remaining != {}
        invariant remaining <= before.Keys
        invariant ceremonies == map c | c in before
                  && (c in remaining || before[c].accountId != Some(accountId)) :: before[c]
        decreases remaining
      {
        var c :| c in remaining;
        if ceremonies[c].accountId == Some(accountId) {
          ceremonies := ceremonies - {c};
        }
        remaining := remaining - {c};
      }
    }

    method DeleteCredentialsOf(accountId: string)
      modifies this`credentials
      ensures credentials == map c | c in old(credentials)
              && old(credentials)[c].accountId != accountId :: old(credentials)[c]
    {
      ghost var before := credentials;
      var remaining := credentials.Keys;
      while remaining != {}
        invariant remaining <= before.Keys
        invariant credentials == map c | c in before
                  && (c in remaining || before[c].accountId != accountId) :: before[c]
        decreases remaining
      {
        var c :| c in remaining;
        if credentials[c].accountId == accountId {
          credentials := credentials - {c};
        }
        remaining := remaining - {c};
      }
    }

    method DeleteSessionsOf(accountId: string)
      modifies this`sessions
      ensures sessions == map i | i in old(sessions) && old(sessions)[i].accountId != accountId :: old(sessions)[i]
    {
      ghost var before := sessions;
      var remaining := sessions.Keys;
      while remaining != {}
        invariant remaining <= before.Keys
        invariant sessions == map i | i in before && (i in remaining || before[i].accountId != accountId) :: before[i]
        decreases remaining
      {
        var i :| i in remaining;
        if sessions[i].accountId == accountId {
          sessions := sessions - {i};
        }
        remaining := remaining - {i};
      }
    }

    method DeleteBundlesOfAccount(accountId: string)
      modifies this`bundles
      ensures bundles == map k | k in old(bundles) && old(bundles)[k].accountId != accountId :: old(bundles)[k]
    {
      ghost var before := bundles;
      var remaining := bundles.Keys;
      while remaining != {}
        invariant remaining <= before.Keys
        invariant bundles == map k | k in before && (k in remaining || before[k].accountId != accountId) :: before[k]
        decreases remaining
      {
        var k :| k in remaining;
        if bundles[k].accountId == accountId {
          bundles := bundles - {k};
        }
        remaining := remaining - {k};
      }
    }

    method DeleteAccountCascade(accountId: string)
      modifies this
      ensures Model() == DeleteAccounts(old(Model()), {accountId})
    {
      hide DeleteAccounts;
      ghost var s := Model();
      accounts := accounts - {accountId};
      DeleteCeremoniesOf(accountId);
      DeleteCredentialsOf(accountId);
      DeleteSessionsOf(accountId);
      DeleteBundlesOfAccount(accountId);
      DeletesOne(s, accountId);
    }

    /** One maintenance pass, unless its bounds are invalid. */
    method CleanupExpired(b: Bounds) returns (r: Result<Cleaned, AuthFault>)
      modifies this
      ensures r.Ok? <==> ValidBounds(b)
      ensures r.Err? ==> r.error == BadBounds && Model() == old(Model())
      ensures r.Ok? ==> exists doomed, ceremonies, sessions ::
                && CleansUp(old(Model()), b, doomed, ceremonies, sessions, Model())
                && r.value == Cleaned(|doomed|, |ceremonies|, |sessions|)
    {
      hide IsOldestBatch, DeleteAccounts, Members, AbandonedAccounts, StaleCeremonies, StaleSessions;
      if !ValidBounds(b) {
        return Err(BadBounds);
      }
      ghost var s := Model();
      var doomed := OldestBatch(AbandonedAccounts(Model(), b), b.batchSize);
      NoMembers();
      DeleteNobody(s);
      for n := 0 to |doomed|
        invariant Model() == DeleteAccounts(s, Members(doomed[..n]))
      {
        DeleteOneMore(s, doomed, n);
        DeleteAccountCascade(doomed[n]);
      }
      assert doomed[..|doomed|] == doomed;
      ghost var left := Model();
      var stale := OldestBatch(StaleCeremonies(Model(), b), b.batchSize);
      for n := 0 to |stale|
        invariant Model() == left.(ceremonies := left.ceremonies - Members(stale[..n]))
      {
        RemoveOneMore(left.ceremonies, stale, n);
        ceremonies := ceremonies - {stale[n]};
      }
      assert stale[..|stale|] == stale;
      ghost var middle := Model();
      OtherCeremoniesSameSessions(left, middle.ceremonies, b);
      var ended := OldestBatch(StaleSessions(Model(), b), b.batchSize);
      for n := 0 to |ended|
        invariant Model() == middle.(sessions := middle.sessions - Members(ended[..n]))
      {
        RemoveOneMore(middle.sessions, ended, n);
        sessions := sessions - {ended[n]};
      }
      assert ended[..|ended|] == ended;
      assert CleansUp(s, b, Members(doomed), Members(stale), Members(ended), Model());
      r := Ok(Cleaned(|doomed|, |stale|, |ended|));
    }
  }

  lemma OnlyMember(s: set<string>, x: string)
    requires |s| == 1 && x in s
    ensures s == {x}
  {
    assert |s - {x}| == 0;
  }

  lemma DeletesOne(s: Auth, a: string)
    ensures DeleteAccounts(s, {a}) == Auth(
              s.accounts - {a},
              map c | c in s.ceremonies && s.ceremonies[c].accountId != Some(a) :: s.ceremonies[c],
              map c | c in s.credentials && s.credentials[c].accountId != a :: s.credentials[c],
              map i | i in s.sessions && s.sessions[i].accountId != a :: s.sessions[i],
              map k | k in s.bundles && s.bundles[k].accountId != a :: s.bundles[k])
  {
  }

  lemma DeleteNobody(s: Auth)
    ensures DeleteAccounts(s, Members([])) == s
  {
  }

  lemma NoMembers()
    ensures Members([]) == {}
  {
  }

  lemma RemoveOneMore<T>(records: map<string, T>, keys: seq<string>, n: nat)
    requires n < |keys|
    ensures records - Members(keys[..n + 1]) == (records - Members(keys[..n])) - {keys[n]}
  {
    assert Members(keys[..n + 1]) == Members(keys[..n]) + {keys[n]};
  }

  lemma OtherCeremoniesSameSessions(s: Auth, ceremonies: map<string, Ceremony>, b: Bounds)
    ensures StaleSessions(s.(ceremonies := ceremonies), b) == StaleSessions(s, b)
  {
  }

  lemma DeleteOneMore(s: Auth, doomed: seq<string>, n: nat)
    requires n < |doomed|
    ensures DeleteAccounts(DeleteAccounts(s, Members(doomed[..n])), {doomed[n]})
         == DeleteAccounts(s, Members(doomed[..n + 1]))
  {
    var some := Members(doomed[..n]);
    assert Members(doomed[..n + 1]) == some + {doomed[n]};
    DeleteTwice(s, some, {doomed[n]});
  }

  lemma DeleteTwice(s: Auth, x: set<string>, y: set<string>)
    ensures DeleteAccounts(DeleteAccounts(s, x), y) == DeleteAccounts(s, x + y)
  {
  }
}
