/** The records of the authentication service, and what each operation on them means. Times are instants. */
module AuthState {
  import opened Wrappers

  datatype AuthFault =
    | InvalidRequest | CredentialDuplicate | BundleInvalid | VerificationFailed | CredentialUnavailable
    | LastCredential | SessionRequired | BadBounds

  datatype AccountStatus = Pending | Active

  datatype Account = Account(userHandle: seq<bv8>, status: AccountStatus, createdAt: int, activatedAt: Option<int>)

  datatype Purpose = RegisterAccount | Authenticate | StepUp | AddCredential

  datatype Ceremony = Ceremony(purpose: Purpose, accountId: Option<string>, challengeHash: string, expiresAt: int,
    attempts: nat, maxAttempts: nat, consumedAt: Option<int>)

  datatype Credential = Credential(accountId: string, publicKey: string, counter: int, deviceType: string,
    backedUp: bool, createdAt: int, lastUsedAt: Option<int>, revokedAt: Option<int>)

  datatype Session = Session(accountId: string, secretHash: string, csrfHash: string, createdAt: int, expiresAt: int,
    lastAuthenticatedAt: int, stepUpAt: Option<int>, revokedAt: Option<int>)

  datatype KeyKind = RootSeed | OtherKey

  datatype WrappedKey = WrappedKey(kind: KeyKind, publicKey: string, ciphertext: string)

  datatype Bundle = Bundle(accountId: string, credentialId: string, kind: KeyKind, publicKey: string,
                           wrapped: WrappedKey)

  datatype BundleKey = BundleKey(credentialId: string, kind: KeyKind, publicKey: string)

  function KeyOf(b: Bundle): BundleKey {
    BundleKey(b.credentialId, b.kind, b.publicKey)
  }

  datatype Auth = Auth(
    accounts: map<string, Account>,
    ceremonies: map<string, Ceremony>,
    credentials: map<string, Credential>,
    sessions: map<string, Session>,
    bundles: map<BundleKey, Bundle>)

  const EMPTY_AUTH := Auth(map[], map[], map[], map[], map[])

  type AuthOutcome = Result<Auth, AuthFault>

  // ----- Accounts and ceremonies -----

  predicate HandleTaken(s: Auth, handle: seq<bv8>) {
    exists a :: a in s.accounts && s.accounts[a].userHandle == handle
  }

  function CreateProvisionalAccount(s: Auth, accountId: string, account: Account, ceremonyId: string,
                                    ceremony: Ceremony)
    : AuthOutcome
  {
    if accountId in s.accounts || HandleTaken(s, account.userHandle) || ceremonyId in s.ceremonies
       || ceremony.accountId != Some(accountId)
    then Err(InvalidRequest)
    else Ok(s.(accounts := s.accounts[accountId := account], ceremonies := s.ceremonies[ceremonyId := ceremony]))
  }

  function PutCeremony(s: Auth, ceremonyId: string, ceremony: Ceremony): AuthOutcome {
    if ceremonyId in s.ceremonies || (ceremony.accountId.Some? && ceremony.accountId.value !in s.accounts)
    then Err(InvalidRequest)
    else Ok(s.(ceremonies := s.ceremonies[ceremonyId := ceremony]))
  }

  datatype Consumption = Consumption(ceremonyId: string, purpose: Purpose, accountId: Option<string>, now: int)

  predicate MayConsume(s: Auth, input: Consumption) {
    && input.ceremonyId in s.ceremonies
    && var ceremony := s.ceremonies[input.ceremonyId];
    && ceremony.purpose == input.purpose && ceremony.consumedAt.None? && ceremony.attempts < ceremony.maxAttempts
    && ceremony.expiresAt > input.now && (ceremony.accountId.Some? ==> ceremony.accountId == input.accountId)
  }

  function Consumed(ceremony: Ceremony, input: Consumption): Ceremony {
    ceremony.(accountId := if ceremony.accountId.None? then input.accountId else ceremony.accountId,
              attempts := ceremony.attempts + 1, consumedAt := Some(input.now))
  }

  /** What the caller of a consumption gets. */
  function ConsumeResult(s: Auth, input: Consumption): Option<Ceremony> {
    if MayConsume(s, input) then Some(Consumed(s.ceremonies[input.ceremonyId], input)) else None
  }

  function ConsumeCeremony(s: Auth, input: Consumption): Auth {
    if MayConsume(s, input)
    then s.(ceremonies := s.ceremonies[input.ceremonyId := Consumed(s.ceremonies[input.ceremonyId], input)])
    else s
  }

  // ----- Credentials and root bundles -----

  predicate IsRootBundleOf(b: Bundle, accountId: string, credentialId: string) {
    && b.accountId == accountId && b.credentialId == credentialId && b.kind == RootSeed
    && b.wrapped.kind == RootSeed && b.publicKey == b.wrapped.publicKey
  }

  predicate HasBundle(s: Auth, accountId: string) {
    exists k :: k in s.bundles && s.bundles[k].accountId == accountId
  }

  function WithCredential(s: Auth, credentialId: string, credential: Credential, b: Bundle): Auth {
    s.(credentials := s.credentials[credentialId := credential], bundles := s.bundles[KeyOf(b) := b])
  }

  function FinalizeFirstCredential(s: Auth, accountId: string, credentialId: string, credential: Credential, b: Bundle,
                                   activatedAt: int): AuthOutcome
  {
    if !IsRootBundleOf(b, accountId, credentialId) then Err(BundleInvalid)
    else if accountId !in s.accounts || !s.accounts[accountId].status.Pending? || credential.accountId != accountId
            || credentialId in s.credentials || HasBundle(s, accountId)
    then Err(CredentialDuplicate)
    else
      var account := s.accounts[accountId].(status := Active, activatedAt := Some(activatedAt));
      Ok(WithCredential(s, credentialId, credential, b).(accounts := s.accounts[accountId := account]))
  }

  /** The root keys that the unrevoked credentials of an account wrap. */
  function ActiveRootKeys(s: Auth, accountId: string): (keys: set<string>)
    ensures forall k :: k in s.bundles && s.bundles[k].accountId == accountId && s.bundles[k].kind == RootSeed
                        && (s.bundles[k].credentialId in s.credentials ==>
                              s.credentials[s.bundles[k].credentialId].revokedAt.None?)
              ==> s.bundles[k].publicKey in keys
  {
    set k | k in s.bundles && s.bundles[k].accountId == accountId && s.bundles[k].kind == RootSeed
            && (s.bundles[k].credentialId in s.credentials ==> s.credentials[s.bundles[k].credentialId].revokedAt.None?)
         :: s.bundles[k].publicKey
  }

  predicate MayAddCredential(s: Auth, accountId: string, credentialId: string, credential: Credential) {
    && accountId in s.accounts && s.accounts[accountId].status.Active? && credential.accountId == accountId
    && credentialId !in s.credentials
  }

  function AddCredentialTo(s: Auth, accountId: string, credentialId: string, credential: Credential,
                           b: Bundle): AuthOutcome {
    if !IsRootBundleOf(b, accountId, credentialId) then Err(BundleInvalid)
    else if !MayAddCredential(s, accountId, credentialId, credential) then Err(CredentialDuplicate)
    else if ActiveRootKeys(s, accountId) != {b.publicKey} then Err(BundleInvalid)
    else Ok(WithCredential(s, credentialId, credential, b))
  }

  // ----- Authentication -----

  const MAX_SAFE_INTEGER := 9_007_199_254_740_991

  predicate IsSafe(n: int) {
    -MAX_SAFE_INTEGER <= n <= MAX_SAFE_INTEGER
  }

  predicate CounterAdvances(previous: int, next: int) {
    IsSafe(previous) && IsSafe(next) && previous >= 0 && next >= 0 && next >= previous
        && (previous == 0 || next > previous)
  }

  datatype Update = Update(credentialId: string, previousCounter: int, newCounter: int, deviceType: string,
    backedUp: bool, usedAt: int)

  predicate MayUpdate(s: Auth, update: Update) {
    && update.credentialId in s.credentials
    && var credential := s.credentials[update.credentialId];
    && credential.revokedAt.None? && credential.counter == update.previousCounter
    && CounterAdvances(update.previousCounter, update.newCounter)
  }

  function Updated(credential: Credential, update: Update): Credential {
    credential.(counter := update.newCounter, deviceType := update.deviceType, backedUp := update.backedUp,
                lastUsedAt := Some(update.usedAt))
  }

  function UpdateCredential(s: Auth, update: Update): AuthOutcome {
    if !MayUpdate(s, update) then Err(VerificationFailed)
    else
      var credential := Updated(s.credentials[update.credentialId], update);
      Ok(s.(credentials := s.credentials[update.credentialId := credential]))
  }

  function CompleteAuthentication(s: Auth, update: Update, sessionId: string, session: Session): AuthOutcome {
    if !MayUpdate(s, update) then Err(VerificationFailed)
    else
      var accountId := s.credentials[update.credentialId].accountId;
      if accountId !in s.accounts || !s.accounts[accountId].status.Active? || session.accountId != accountId
         || session.revokedAt.Some? || sessionId in s.sessions
      then Err(VerificationFailed)
      else
        var credential := Updated(s.credentials[update.credentialId], update);
        Ok(s.(credentials := s.credentials[update.credentialId := credential],
              sessions := s.sessions[sessionId := session]))
  }

  /** The credentials of an account that are in use. */
  function ActiveCredentials(s: Auth, accountId: string): (active: set<string>)
    ensures forall c :: c in active <==>
              c in s.credentials && s.credentials[c].accountId == accountId && s.credentials[c].revokedAt.None?
  {
    set c | c in s.credentials && s.credentials[c].accountId == accountId && s.credentials[c].revokedAt.None?
  }

  function RevokedSession(session: Session, accountId: string, at: int): Session {
    if session.accountId == accountId && session.revokedAt.None? then session.(revokedAt := Some(at)) else session
  }

  function RevokeCredential(s: Auth, accountId: string, credentialId: string, at: int): AuthOutcome {
    if credentialId !in s.credentials || s.credentials[credentialId].accountId != accountId
       || s.credentials[credentialId].revokedAt.Some?
    then Err(CredentialUnavailable)
    else if |ActiveCredentials(s, accountId)| <= 1 then Err(LastCredential)
    else
      Ok(s.(credentials := s.credentials[credentialId := s.credentials[credentialId].(revokedAt := Some(at))],
            bundles := map k | k in s.bundles && s.bundles[k].credentialId != credentialId :: s.bundles[k],
            sessions := map i | i in s.sessions :: RevokedSession(s.sessions[i], accountId, at)))
  }

  // ----- Sessions -----

  function PutSession(s: Auth, sessionId: string, session: Session): AuthOutcome {
    if sessionId in s.sessions || session.accountId !in s.accounts then Err(VerificationFailed)
    else Ok(s.(sessions := s.sessions[sessionId := session]))
  }

  datatype Rotation = Rotation(sessionId: string, accountId: string, secretHash: string, csrfHash: string,
    expiresAt: int, authenticatedAt: int, stepUp: bool)

  predicate IsLive(session: Session, now: int) {
    session.revokedAt.None? && session.expiresAt > now
  }

  function Rotated(session: Session, input: Rotation): Session {
    session.(secretHash := input.secretHash, csrfHash := input.csrfHash, expiresAt := input.expiresAt,
             lastAuthenticatedAt := input.authenticatedAt,
             stepUpAt := if input.stepUp then Some(input.authenticatedAt) else session.stepUpAt)
  }

  predicate MayRotate(s: Auth, input: Rotation) {
    && input.sessionId in s.sessions && s.sessions[input.sessionId].accountId == input.accountId
    && IsLive(s.sessions[input.sessionId], input.authenticatedAt)
  }

  /** What the caller of a rotation gets. */
  function RotateResult(s: Auth, input: Rotation): Result<Session, AuthFault> {
    if MayRotate(s, input) then Ok(Rotated(s.sessions[input.sessionId], input)) else Err(SessionRequired)
  }

  function RotateSession(s: Auth, input: Rotation): AuthOutcome {
    var rotated :- RotateResult(s, input);
    Ok(s.(sessions := s.sessions[input.sessionId := rotated]))
  }

  function RevokeSession(s: Auth, sessionId: string, at: int): Auth {
    if sessionId in s.sessions && s.sessions[sessionId].revokedAt.None?
    then s.(sessions := s.sessions[sessionId := s.sessions[sessionId].(revokedAt := Some(at))])
    else s
  }

  /** The session and the account that a cookie stands for. */
  function ResolveSession(s: Auth, sessionId: string, secretHash: string, now: int): Option<(Session, Account)> {
    if sessionId !in s.sessions || !IsLive(s.sessions[sessionId], now) || s.sessions[sessionId].secretHash != secretHash
    then None
    else
      var session := s.sessions[sessionId];
      if session.accountId in s.accounts && s.accounts[session.accountId].status.Active?
      then Some((session, s.accounts[session.accountId]))
      else None
  }

  // ----- Retention -----

  datatype Bounds = Bounds(now: int, pendingBefore: int, ceremonyBefore: int, sessionBefore: int, batchSize: int)

  predicate ValidBounds(b: Bounds) {
    && b.pendingBefore <= b.now && b.ceremonyBefore <= b.now && b.sessionBefore <= b.now
    && 1 <= b.batchSize <= 5_000
  }

  predicate Abandoned(account: Account, b: Bounds) {
    account.status.Pending? && account.createdAt <= b.pendingBefore
  }

  predicate StaleCeremony(ceremony: Ceremony, b: Bounds) {
    ceremony.expiresAt <= b.ceremonyBefore
        || (ceremony.consumedAt.Some? && ceremony.consumedAt.value <= b.ceremonyBefore)
  }

  predicate StaleSession(session: Session, b: Bounds) {
    session.expiresAt <= b.sessionBefore || (session.revokedAt.Some? && session.revokedAt.value <= b.sessionBefore)
  }

  function AbandonedAccounts(s: Auth, b: Bounds): map<string, int> {
    map a | a in s.accounts && Abandoned(s.accounts[a], b) :: s.accounts[a].createdAt
  }

  /** The stale ceremonies, each with the instant since when it is inactive. */
  function StaleCeremonies(s: Auth, b: Bounds): map<string, int> {
    map c | c in s.ceremonies && StaleCeremony(s.ceremonies[c], b) ::
      if s.ceremonies[c].consumedAt.Some? then s.ceremonies[c].consumedAt.value else s.ceremonies[c].expiresAt
  }

  function StaleSessions(s: Auth, b: Bounds): map<string, int> {
    map i | i in s.sessions && StaleSession(s.sessions[i], b) ::
      if s.sessions[i].revokedAt.Some? then s.sessions[i].revokedAt.value else s.sessions[i].expiresAt
  }

  /** Everything of an account goes with it. */
  function DeleteAccounts(s: Auth, doomed: set<string>): Auth {
    Auth(
      s.accounts - doomed,
      map c | c in s.ceremonies && !(s.ceremonies[c].accountId.Some? && s.ceremonies[c].accountId.value in doomed)
           :: s.ceremonies[c],
      map c | c in s.credentials && s.credentials[c].accountId !in doomed :: s.credentials[c],
      map i | i in s.sessions && s.sessions[i].accountId !in doomed :: s.sessions[i],
      map k | k in s.bundles && s.bundles[k].accountId !in doomed :: s.bundles[k])
  }
}
