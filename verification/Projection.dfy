/**
 What the indexer's projection means: its maps as values, and how one event, with one treatment of its
 off-chain manifest, takes them from one value to the next. The store below is proved against this.
 */
module Projection {
  import opened Wrappers
  import opened EventOrder
  import opened ProtocolEvents

  /** The error codes that projection operations throw. */
  datatype Fault = ManifestRequired | ManifestMismatch | MissingIdentity | StaleEvent | EventConflict

  type Outcome<T> = Result<T, Fault>

  datatype Stamp = Stamp(slot: nat, time: string)

  function StampOf(e: Event): Stamp {
    Stamp(e.pos.slot, e.blockTime)
  }

  /** Program-derived addresses, as functions nothing is assumed about. */
  datatype Derivations = Derivations(
    recoveryPolicy: Address -> Address,
    recoveryRequest: (Address, string) -> Address,
    membership: (Address, Address) -> Address,
    proposal: (Address, Digest) -> Address,
    vote: (Address, Address) -> Address)

  // ----- Manifests -----

  datatype ManifestKind = ProfileManifest | PostManifest | CommunityManifest | MembershipManifest | TombstoneManifest

  /** An off-chain object whose hash, signature and author were verified before it reached the store. */
  datatype Manifest = Manifest(
    kind: ManifestKind, objectId: ObjectId, cid: string, payloadHash: Digest, schemaVersion: nat,
    signingKeyId: string, createdAt: string, content: string,
    replacementSequence: nat, supersedes: Option<ObjectId>)

  /** How an event enters the projection. */
  datatype Treatment =
    | Accept(manifest: Option<Manifest>)
    | Defer
    | Quarantine(code: string)
    | Suppress

  function MembershipObjectId(manifestHash: Digest): ObjectId {
    "wetdroolobj:v1:community-membership:" + manifestHash
  }

  /** The checks on the signer of a community or membership manifest. */
  predicate SignerMatches(e: Event, m: Manifest) {
    match e.body
    case CommunityCreated(creator, _, authority, _, _, _, _, _, _, _, _, _) =>
      m.schemaVersion == 2 && m.signingKeyId == creator + "#root/" + authority
    case MembershipChanged(actor, _, _, _, authority, _, _, _, _, _, _, _, _, _, _, _) =>
      && m.schemaVersion == 2
      && (m.signingKeyId == actor + "#root/" + authority || m.signingKeyId == actor + "#delegation/" + authority)
    case _ => true
  }

  function RequireManifest(e: Event, manifest: Option<Manifest>, expected: ManifestKind): Outcome<Manifest> {
    if manifest.None? then Err(ManifestRequired)
    else if manifest.value.kind != expected then Err(ManifestMismatch)
    else if !SignerMatches(e, manifest.value) then Err(ManifestMismatch)
    else Ok(manifest.value)
  }

  // ----- The maps -----

  datatype Identity = Identity(
    address: Address, root: Address, rotationCount: nat, active: bool, sequence: nat,
    created: Stamp, updated: Stamp, deactivated: Option<Stamp>)

  datatype RootEpoch = RootEpoch(authority: Address, rotationCount: nat, sequence: nat, pos: Position)

  datatype Delegation = Delegation(
    identity: IdentityId, delegate: Address, delegationSequence: nat, sequence: nat, scopes: bv16,
    rotationCount: nat, expiresAtSlot: nat, stateSequence: nat, updatedAt: string,
    createdPosition: Position, revokedPosition: Option<Position>)

  datatype Identities = Identities(
    config: Option<Address>,
    records: map<IdentityId, Identity>,
    positions: map<IdentityId, Position>,
    deactivations: map<IdentityId, Position>,
    roots: map<IdentityId, seq<RootEpoch>>,
    delegations: map<Address, Delegation>)

  datatype Handle = Handle(
    identity: IdentityId, authority: Address, sequence: nat, digest: Digest, handle: string,
    claimed: Stamp, active: bool, released: Option<Stamp>)

  datatype Handles = Handles(byAddress: map<Address, Handle>, addressByName: map<string, Address>)

  datatype Policy = Policy(
    policy: Address, root: Address, policySequence: nat, sequence: nat, rotationCount: nat,
    guardians: seq<Address>, threshold: nat, delaySlots: nat, active: bool, updated: Stamp)

  datatype RequestStatus = Pending | Cancelled | Executed

  datatype Request = Request(
    identity: IdentityId, policy: Address, policySequence: nat, root: Address, sequence: nat,
    rotationCount: nat, target: Address, guardians: seq<Address>, threshold: nat,
    approvalsMask: bv32, approved: seq<Address>, approvalCount: nat, requested: Stamp,
    executeAfterSlot: nat, status: RequestStatus, updated: Stamp,
    terminalSequence: Option<nat>, closedBy: Option<Address>)

  datatype Recovery = Recovery(policies: map<IdentityId, Policy>, requests: map<Address, Request>)

  datatype Profile = Profile(objectId: ObjectId, cid: string, payloadHash: Digest, schemaVersion: nat,
    content: string, updated: Stamp)

  datatype Post = Post(author: IdentityId, cid: string, payloadHash: Digest, signingKeyId: string,
    content: string, created: Stamp, signature: string, tombstonedAt: Option<string>)

  datatype Content = Content(
    profiles: map<IdentityId, Profile>,
    latestProfile: map<IdentityId, Coordinate>,
    posts: map<ObjectId, Post>,
    references: map<Address, ObjectId>)

  datatype Edge = Edge(active: bool, stateSequence: nat, updated: Stamp)

  datatype Reaction = Reaction(reaction: Address, authority: Address, sequence: nat, edge: Edge)

  datatype Social = Social(
    follows: map<(IdentityId, IdentityId), Edge>,
    blocks: map<(IdentityId, IdentityId), Edge>,
    reactions: map<(IdentityId, Address, nat), Reaction>)

  datatype CommunityCore = CommunityCore(
    creator: IdentityId, manifestAuthority: Address, latestAuthority: Address, creatorSequence: nat,
    manifestCid: string, manifestHash: Digest, governanceVersion: nat, strategyHash: Digest,
    visibility: Visibility, joinPolicy: JoinPolicy, policySequence: nat, membershipSequence: nat,
    created: Stamp, updated: Stamp)

  /** What the verified manifest adds to a community that the chain alone already established. */
  datatype CommunityProof = CommunityProof(objectId: ObjectId, signingKeyId: string, createdAt: string, content: string)

  datatype Community = Community(core: CommunityCore, proof: Option<CommunityProof>)

  datatype MembershipCore = MembershipCore(
    address: Address, actor: IdentityId, authority: Address, actorSequence: nat, memberActionSequence: nat,
    policySequence: nat, membershipSequence: nat, activeSince: nat, stateSequence: nat,
    action: MembershipAction, status: MembershipStatus, manifestCid: string, manifestHash: Digest,
    roles: nat, active: bool, updated: Stamp, pos: Position)

  datatype MembershipProof = MembershipProof(signingKeyId: string, createdAt: string)

  datatype Membership = Membership(core: MembershipCore, proof: Option<MembershipProof>)

  type MemberKey = (Address, IdentityId)

  datatype Communities = Communities(communities: map<Address, Community>, memberships: map<MemberKey, Membership>)

  datatype ProposalOutcome = Undecided | Accepted | Rejected

  datatype Proposal = Proposal(
    community: Address, proposer: IdentityId, sequence: nat, manifestHash: Digest, governanceVersion: nat,
    strategyHash: Digest, eligible: nat, membershipSequence: nat, opensAtSlot: nat, closesAtSlot: nat,
    quorumBps: nat, approvalBps: nat, yes: nat, no: nat, abstain: nat, stateSequence: nat,
    outcome: ProposalOutcome, created: Stamp, finalized: Option<Stamp>)

  datatype Vote = Vote(proposal: Address, voter: IdentityId, membership: Address, sequence: nat,
    membershipStateSequence: nat, stateSequence: nat, choice: Choice, cast: Stamp)

  datatype Governance = Governance(
    proposals: map<Address, Proposal>,
    byManifest: map<(Address, Digest), Address>,
    votes: map<Address, Vote>,
    voteByVoter: map<(Address, IdentityId), Address>,
    lastVoterSequence: map<IdentityId, nat>)

  /** The raw event log in ingestion order, and what is known about the manifests of its events. */
  datatype Ledger = Ledger(log: seq<Event>, pending: set<Coordinate>, terminal: map<Coordinate, string>)

  datatype State = State(
    ledger: Ledger, identities: Identities, handles: Handles, recovery: Recovery, content: Content,
    social: Social, communities: Communities, governance: Governance)

  const EMPTY := State(
    Ledger([], {}, map[]),
    Identities(None, map[], map[], map[], map[], map[]),
    Handles(map[], map[]),
    Recovery(map[], map[]),
    Content(map[], map[], map[], map[]),
    Social(map[], map[], map[]),
    Communities(map[], map[]),
    Governance(map[], map[], map[], map[], map[]))

  // ----- Identity lifecycle -----

  /** The identities an event needs to be active, in the order in which they are checked. */
  function ActiveIdentities(b: Body): seq<IdentityId> {
    match b
    case ProtocolInitialized(_) => []
    case IdentityCreated(_, _, _) => []
    case ProposalFinalized(_, _, _, _, _, _, _, _, _, _, _, _, _, _, _) => []
    case FollowChanged(follower, subject, active, _, _) => if active then [follower, subject] else [follower]
    case BlockChanged(blocker, subject, _, _, _, _, _) => [blocker, subject]
    case MembershipChanged(actor, member, _, _, _, action, _, _, _, _, _, _, _, _, _, _) =>
      if IsSelfAction(action) then [actor, member] else [actor]
    case _ => [b.identity]
  }

  /** Whether the event must carry the next sequence of its identity. */
  predicate AdvancesSequence(b: Body) {
    !( b.ProtocolInitialized? || b.IdentityCreated? || b.RecoveryRequested? || b.RecoveryApproved?
    || b.RecoveryExecuted? || b.ProposalFinalized?)
  }

  /** Whether the event must carry the current sequence of its identity. */
  predicate SnapshotsSequence(b: Body) {
    b.RecoveryRequested? || b.RecoveryExecuted?
  }

  function CheckActive(records: map<IdentityId, Identity>, needed: seq<IdentityId>): Outcome<()> {
    if needed == [] then Ok(())
    else if needed[0] !in records then Err(MissingIdentity)
    else if !records[needed[0]].active then Err(StaleEvent)
    else CheckActive(records, needed[1..])
  }

  function ValidateLifecycle(ids: Identities, e: Event): Outcome<()> {
    if e.body.IdentityDeactivated? then Ok(())
    else
      var _ :- CheckActive(ids.records, ActiveIdentities(e.body));
      if SnapshotsSequence(e.body) && e.body.identity !in ids.records then Err(MissingIdentity)
      else if SnapshotsSequence(e.body) && ids.records[e.body.identity].sequence != e.body.sequence then Err(StaleEvent)
      else if !AdvancesSequence(e.body) then Ok(())
      else if e.body.identity !in ids.records then Err(MissingIdentity)
      else if NextFor(ids, e) then Ok(())
      else Err(StaleEvent)
  }

  /** The event carries exactly the next sequence of its identity and a later position. */
  predicate NextFor(ids: Identities, e: Event)
    requires AdvancesSequence(e.body)
  {
    && e.body.identity in ids.records && e.body.identity in ids.positions
    && e.body.sequence == ids.records[e.body.identity].sequence + 1
    && Before(ids.positions[e.body.identity], e.pos)
  }

  /** Closes an accepted event: its identity moves to the sequence and position of the event. */
  function Advance(ids: Identities, e: Event): Identities {
    if AdvancesSequence(e.body) && !e.body.IdentityDeactivated? && e.body.identity in ids.records then
      var id := e.body.identity;
      ids.(records := ids.records[id := ids.records[id].(sequence := e.body.sequence, updated := StampOf(e))],
           positions := ids.positions[id := e.pos])
    else ids
  }

  // ----- Families of events, each with the maps it changes -----

  datatype Family = OfIdentity | OfHandle | OfRecovery | OfContent | OfSocial | OfCommunity | OfGovernance

  function FamilyOf(b: Body): Family {
    if b.ProtocolInitialized? || b.IdentityCreated? || b.IdentityDeactivated? || b.RootRotated?
       || b.DelegationCreated? || b.DelegationRevoked? then OfIdentity
    else if b.HandleClaimed? || b.HandleReleased? then OfHandle
    else if b.ProfileUpdated? || b.PostPublished? || b.Tombstoned? then OfContent
    else if b.FollowChanged? || b.BlockChanged? || b.ReactionChanged? then OfSocial
    else if b.CommunityCreated? || b.GovernanceUpdated? || b.MembershipChanged? then OfCommunity
    else if b.ProposalCreated? || b.VoteCast? || b.ProposalFinalized? then OfGovernance
    else OfRecovery
  }

  // ----- Identities, roots and delegations -----

  predicate MayDeactivate(ids: Identities, e: Event)
    requires e.body.IdentityDeactivated? && e.body.identity in ids.records
  {
    var identity := ids.records[e.body.identity];
    && ids.config == Some(e.body.config)
    && identity.address == e.body.address && identity.root == e.body.root
    && NextFor(ids, e)
    && identity.active
  }

  predicate MayRevoke(ids: Identities, b: Body)
    requires b.DelegationRevoked?
  {
    && b.delegation in ids.delegations
    && var d := ids.delegations[b.delegation];
    && d.identity == b.identity && d.delegate == b.delegate && d.delegationSequence == b.delegationSequence
    && d.revokedPosition.None? && b.stateSequence > d.stateSequence
  }

  function NewIdentity(e: Event): Identity
    requires e.body.IdentityCreated?
  {
    Identity(e.body.address, e.body.root, 0, true, 0, StampOf(e), StampOf(e), None)
  }

  function NewDelegation(e: Event): Delegation
    requires e.body.DelegationCreated?
  {
    var b := e.body;
    Delegation(b.identity, b.delegate, b.delegationSequence, b.sequence, b.scopes, b.rotationCount,
               b.expiresAtSlot, 1, e.blockTime, e.pos, None)
  }

  function IdentityEffect(ids: Identities, e: Event): Outcome<Identities>
    requires FamilyOf(e.body) == OfIdentity
  {
    match e.body
    case ProtocolInitialized(config) => Ok(ids.(config := Some(config)))
    case IdentityCreated(id, _, root) =>
      Ok(ids.(records := ids.records[id := NewIdentity(e)],
              positions := ids.positions[id := e.pos],
              roots := ids.roots[id := [RootEpoch(root, 0, 0, e.pos)]]))
    case IdentityDeactivated(id, _, _, _, sequence) =>
      if id !in ids.records then Err(MissingIdentity)
      else if !MayDeactivate(ids, e) then Err(StaleEvent)
      else
        Ok(ids.(records := ids.records[id := ids.records[id].(active := false, sequence := sequence,
                                             updated := StampOf(e), deactivated := Some(StampOf(e)))],
                positions := ids.positions[id := e.pos],
                deactivations := ids.deactivations[id := e.pos]))
    case RootRotated(id, previous, new_, sequence, count) =>
      if id !in ids.records then Err(MissingIdentity)
      else if ids.records[id].root != previous || count != ids.records[id].rotationCount + 1 then Err(StaleEvent)
      else
        var history := if id in ids.roots then ids.roots[id] else [];
        Ok(ids.(records := ids.records[id := ids.records[id].(root := new_, rotationCount := count,
                                                              updated := StampOf(e))],
                roots := ids.roots[id := history + [RootEpoch(new_, count, sequence, e.pos)]]))
    case DelegationCreated(id, delegation, _, _, _, _, count, _) =>
      if id !in ids.records then Err(MissingIdentity)
      else if ids.records[id].rotationCount != count || delegation in ids.delegations then Err(StaleEvent)
      else Ok(ids.(delegations := ids.delegations[delegation := NewDelegation(e)]))
    case DelegationRevoked(id, delegation, _, _, sequence, stateSequence) =>
      if id !in ids.records then Err(MissingIdentity)
      else if !MayRevoke(ids, e.body) then Err(StaleEvent)
      else
        Ok(ids.(delegations := ids.delegations[delegation := ids.delegations[delegation].(sequence := sequence,
                  stateSequence := stateSequence, revokedPosition := Some(e.pos), updatedAt := e.blockTime)]))
  }

  // ----- Handles -----

  predicate HasAuthority(ids: Identities, id: IdentityId, authority: Address)
    requires id in ids.records
  {
    ids.records[id].root == authority
  }

  /** The projection that a claim would replace: the one at its address, else the one of its name. */
  function CurrentClaim(h: Handles, b: Body): Option<(Address, Handle)>
    requires b.HandleClaimed?
  {
    if b.claim in h.byAddress then Some((b.claim, h.byAddress[b.claim]))
    else if b.handle in h.addressByName && h.addressByName[b.handle] in h.byAddress then
      Some((h.addressByName[b.handle], h.byAddress[h.addressByName[b.handle]]))
    else None
  }

  predicate MayClaim(h: Handles, e: Event)
    requires e.body.HandleClaimed?
  {
    var b := e.body;
    && !(b.claim in h.byAddress && b.handle in h.addressByName && h.addressByName[b.handle] in h.byAddress
         && h.addressByName[b.handle] != b.claim)
    && (var current := CurrentClaim(h, b);
        current.Some? ==>
          && var (address, claim) := current.value;
          && !claim.active && address == b.claim && claim.handle == b.handle && claim.digest == b.digest
          && (claim.released.Some? ==> e.pos.slot >= claim.released.value.slot)
          && (claim.identity == b.identity ==> b.sequence > claim.sequence))
  }

  predicate MayRelease(h: Handles, e: Event)
    requires e.body.HandleReleased?
  {
    var b := e.body;
    && b.claim in h.byAddress
    && var current := h.byAddress[b.claim];
    && current.active && b.handle in h.addressByName && h.addressByName[b.handle] == b.claim
    && current.identity == b.identity && current.handle == b.handle && current.digest == b.digest
    && e.pos.slot >= current.claimed.slot && b.sequence > current.sequence
  }

  function HandleEffect(h: Handles, ids: Identities, e: Event): Outcome<Handles>
    requires FamilyOf(e.body) == OfHandle
  {
    if e.body.identity !in ids.records then Err(MissingIdentity)
    else if !HasAuthority(ids, e.body.identity, e.body.authority) then Err(StaleEvent)
    else
      match e.body
      case HandleClaimed(id, claim, authority, sequence, name, digest) =>
        if !MayClaim(h, e) then Err(StaleEvent)
        else Ok(Handles(h.byAddress[claim := Handle(id, authority, sequence, digest, name, StampOf(e), true, None)],
                        h.addressByName[name := claim]))
      case HandleReleased(_, claim, authority, sequence, _, _) =>
        if !MayRelease(h, e) then Err(StaleEvent)
        else Ok(h.(byAddress := h.byAddress[claim := h.byAddress[claim].(authority := authority,
                                             sequence := sequence, active := false, released := Some(StampOf(e)))]))
  }

  // ----- Social recovery -----

  /** n lies above every identity sequence that the recovery records of an identity mention. */
  predicate AboveRecoveryHistory(r: Recovery, id: IdentityId, n: nat) {
    && n > 0
    && (id in r.policies ==> n > r.policies[id].sequence)
    && forall a :: a in r.requests && r.requests[a].identity == id ==>
         n > r.requests[a].sequence
             && (r.requests[a].terminalSequence.Some? ==> n > r.requests[a].terminalSequence.value)
  }

  function Bit(index: nat): bv32 {
    (1 as bv32) << (index % 32)
  }

  predicate RootEpochMatches(ids: Identities, id: IdentityId, root: Address, count: nat)
    requires id in ids.records
  {
    ids.records[id].root == root && ids.records[id].rotationCount == count
  }

  predicate MayConfigure(r: Recovery, ids: Identities, pda: Derivations, b: Body)
    requires b.PolicyConfigured? && b.identity in ids.records
  {
    && RootEpochMatches(ids, b.identity, b.root, b.rotationCount)
    && b.policy == pda.recoveryPolicy(ids.records[b.identity].address)
    && b.policySequence == (if b.identity in r.policies then r.policies[b.identity].policySequence else 0) + 1
    && AboveRecoveryHistory(r, b.identity, b.sequence)
    && (b.identity in r.policies ==> r.policies[b.identity].policy == b.policy)
  }

  predicate MayDisable(r: Recovery, ids: Identities, b: Body)
    requires b.PolicyDisabled? && b.identity in ids.records
  {
    && b.identity in r.policies
    && var policy := r.policies[b.identity];
    && RootEpochMatches(ids, b.identity, b.root, b.rotationCount)
    && policy.policy == b.policy && policy.active && b.policySequence == policy.policySequence + 1
    && AboveRecoveryHistory(r, b.identity, b.sequence)
  }

  predicate MayRequest(r: Recovery, ids: Identities, pda: Derivations, e: Event)
    requires e.body.RecoveryRequested? && e.body.identity in ids.records
  {
    var b := e.body;
    && b.identity in r.policies
    && var policy := r.policies[b.identity];
    && RootEpochMatches(ids, b.identity, b.root, b.rotationCount)
    && policy.policy == b.policy && policy.active && policy.policySequence == b.policySequence
    && policy.threshold == b.threshold && |policy.guardians| == b.guardianCount
    && b.executeAfterSlot == e.pos.slot + policy.delaySlots
    && AboveRecoveryHistory(r, b.identity, b.sequence + 1)
    && b.root !in policy.guardians
    && IndexOf(policy.guardians, b.guardian) >= 0
    && b.request == pda.recoveryRequest(ids.records[b.identity].address, b.nonce)
    && b.request !in r.requests
  }

  predicate MayApprove(r: Recovery, ids: Identities, b: Body)
    requires b.RecoveryApproved? && b.identity in ids.records
  {
    && b.identity in r.policies && b.request in r.requests
    && var policy, request := r.policies[b.identity], r.requests[b.request];
    && RootEpochMatches(ids, b.identity, request.root, request.rotationCount)
    && policy.policy == b.policy && policy.active && policy.policySequence == b.policySequence
    && request.identity == b.identity && request.policy == b.policy && request.policySequence == b.policySequence
    && request.status == Pending && request.threshold == b.threshold
    && b.guardianIndex < |request.guardians| && request.guardians[b.guardianIndex] == b.guardian
    && request.approvalsMask & Bit(b.guardianIndex) == 0
    && b.approvalCount == request.approvalCount + 1
  }

  predicate MayCancel(r: Recovery, ids: Identities, b: Body)
    requires b.RecoveryCancelled? && b.identity in ids.records
  {
    && b.request in r.requests
    && var request := r.requests[b.request];
    && RootEpochMatches(ids, b.identity, b.root, b.rotationCount)
    && request.identity == b.identity && request.policy == b.policy && request.policySequence == b.policySequence
    && request.target == b.target && request.status == Pending
    && AboveRecoveryHistory(r, b.identity, b.sequence)
  }

  /** The last root epoch of the identity is the rotation this execution reports, earlier in the same transaction. */
  predicate RotationIsLatest(ids: Identities, e: Event)
    requires e.body.RecoveryExecuted?
  {
    var b := e.body;
    && b.identity in ids.roots && ids.roots[b.identity] != []
    && var last := ids.roots[b.identity][|ids.roots[b.identity]| - 1];
    && last.sequence == b.sequence && last.rotationCount == b.rotationCount && last.authority == b.newRoot
    && last.pos.slot == e.pos.slot && last.pos.signature == e.pos.signature
    && last.pos.transactionIndex == e.pos.transactionIndex && last.pos.logIndex < e.pos.logIndex
  }

  predicate MayExecute(r: Recovery, ids: Identities, e: Event)
    requires e.body.RecoveryExecuted? && e.body.identity in ids.records
  {
    var b := e.body;
    && b.identity in r.policies && b.request in r.requests
    && var policy, request := r.policies[b.identity], r.requests[b.request];
    && RootEpochMatches(ids, b.identity, b.newRoot, b.rotationCount)
    && policy.policy == b.policy && policy.active && policy.policySequence == b.policySequence
    && request.identity == b.identity && request.policy == b.policy && request.policySequence == b.policySequence
    && request.root == b.previousRoot && request.target == b.newRoot && request.status == Pending
    && request.threshold == b.threshold && request.approvalCount == b.approvalCount
    && b.approvalCount >= b.threshold
    && b.sequence == request.sequence + 1
    && AboveRecoveryHistory(r, b.identity, b.sequence)
    && b.rotationCount == request.rotationCount + 1
    && e.pos.slot >= request.executeAfterSlot
    && RotationIsLatest(ids, e)
  }

  function NewPolicy(e: Event): Policy
    requires e.body.PolicyConfigured?
  {
    var b := e.body;
    Policy(b.policy, b.root, b.policySequence, b.sequence, b.rotationCount, b.guardians, b.threshold,
           b.delaySlots, true, StampOf(e))
  }

  function NewRequest(policy: Policy, e: Event): Request
    requires e.body.RecoveryRequested? && IndexOf(policy.guardians, e.body.guardian) >= 0
  {
    var b := e.body;
    Request(b.identity, b.policy, b.policySequence, b.root, b.sequence, b.rotationCount, b.target,
            policy.guardians, b.threshold, Bit(IndexOf(policy.guardians, b.guardian)), [b.guardian],
            b.approvalCount, StampOf(e), b.executeAfterSlot, Pending, StampOf(e), None, None)
  }

  function Approve(request: Request, e: Event): Request
    requires e.body.RecoveryApproved?
  {
    request.(approvalsMask := request.approvalsMask | Bit(e.body.guardianIndex),
             approved := request.approved + [e.body.guardian],
             approvalCount := e.body.approvalCount, updated := StampOf(e))
  }

  function RecoveryEffect(r: Recovery, ids: Identities, pda: Derivations, e: Event): Outcome<Recovery>
    requires FamilyOf(e.body) == OfRecovery
  {
    if e.body.identity !in ids.records then Err(MissingIdentity)
    else
      match e.body
      case PolicyConfigured(id, _, _, _, _, _, _, _, _) =>
        if !MayConfigure(r, ids, pda, e.body) then Err(StaleEvent)
        else Ok(r.(policies := r.policies[id := NewPolicy(e)]))
      case PolicyDisabled(id, _, root, policySequence, sequence, count) =>
        if !MayDisable(r, ids, e.body) then Err(StaleEvent)
        else Ok(r.(policies := r.policies[id := r.policies[id].(root := root, policySequence := policySequence,
                     sequence := sequence, rotationCount := count, active := false, updated := StampOf(e))]))
      case RecoveryRequested(id, _, request, _, _, _, _, _, _, _, _, _, _, _) =>
        if !MayRequest(r, ids, pda, e) then Err(StaleEvent)
        else Ok(r.(requests := r.requests[request := NewRequest(r.policies[id], e)]))
      case RecoveryApproved(_, _, request, _, _, _, _, _) =>
        if !MayApprove(r, ids, e.body) then Err(StaleEvent)
        else Ok(r.(requests := r.requests[request := Approve(r.requests[request], e)]))
      case RecoveryCancelled(_, _, request, root, _, _, sequence, _) =>
        if !MayCancel(r, ids, e.body) then Err(StaleEvent)
        else Ok(r.(requests := r.requests[request := r.requests[request].(status := Cancelled, updated := StampOf(e),
                     terminalSequence := Some(sequence), closedBy := Some(root))]))
      case RecoveryExecuted(_, _, request, executor, _, _, _, _, _, sequence, _) =>
        if !MayExecute(r, ids, e) then Err(StaleEvent)
        else Ok(r.(requests := r.requests[request := r.requests[request].(status := Executed, updated := StampOf(e),
                     terminalSequence := Some(sequence), closedBy := Some(executor))]))
  }

  // ----- Profiles, posts and tombstones -----

  function NewProfile(e: Event, m: Manifest): Profile {
    Profile(m.objectId, m.cid, m.payloadHash, m.schemaVersion, m.content, StampOf(e))
  }

  function NewPost(e: Event, m: Manifest, tombstonedAt: Option<string>): Post
    requires e.body.PostPublished?
  {
    Post(e.body.identity, m.cid, m.payloadHash, m.signingKeyId, m.content, StampOf(e), e.pos.signature, tombstonedAt)
  }

  function WithReference(c: Content, reference: Option<Address>, objectId: ObjectId): Content {
    if reference.Some? then c.(references := c.references[reference.value := objectId]) else c
  }

  /** The newest pointer replaces the served profile, whether or not its bytes are there. */
  function ProfileEffect(c: Content, e: Event, t: Treatment): Outcome<Content>
    requires e.body.ProfileUpdated?
  {
    var id := e.body.identity;
    var latest := c.latestProfile[id := CoordinateOf(e.pos)];
    if t.Accept? then
      var m :- RequireManifest(e, t.manifest, ProfileManifest);
      Ok(c.(profiles := c.profiles[id := NewProfile(e, m)], latestProfile := latest))
    else Ok(c.(profiles := c.profiles - {id}, latestProfile := latest))
  }

  function PostEffect(c: Content, e: Event, t: Treatment): Outcome<Content>
    requires e.body.PostPublished?
  {
    if t.Accept? then
      var m :- RequireManifest(e, t.manifest, PostManifest);
      Ok(WithReference(c.(posts := c.posts[m.objectId := NewPost(e, m, None)]), e.body.postReference, m.objectId))
    else Ok(WithReference(c, e.body.postReference, e.body.objectId))
  }

  function TombstoneEffect(c: Content, e: Event, t: Treatment): Content
    requires e.body.Tombstoned?
  {
    var o := e.body.objectId;
    if o in c.posts && (t.Accept? || c.posts[o].author == e.body.identity)
    then c.(posts := c.posts[o := c.posts[o].(tombstonedAt := Some(e.blockTime))])
    else c
  }

  function ContentEffect(c: Content, e: Event, t: Treatment): Outcome<Content>
    requires FamilyOf(e.body) == OfContent
  {
    if e.body.ProfileUpdated? then ProfileEffect(c, e, t)
    else if e.body.PostPublished? then PostEffect(c, e, t)
    else Ok(TombstoneEffect(c, e, t))
  }

  // ----- Follows, blocks and reactions -----

  function SocialEffect(s: Social, c: Content, ids: Identities, e: Event): Outcome<Social>
    requires FamilyOf(e.body) == OfSocial
  {
    if e.body.identity !in ids.records then Err(MissingIdentity)
    else
      var edge := Edge(e.body.active, e.body.stateSequence, StampOf(e));
      match e.body
      case FollowChanged(id, subject, _, _, stateSequence) =>
        if subject !in ids.records then Err(MissingIdentity)
        else if (id, subject) in s.follows && stateSequence <= s.follows[(id, subject)].stateSequence
        then Err(StaleEvent)
        else Ok(s.(follows := s.follows[(id, subject) := edge]))
      case BlockChanged(id, subject, _, _, _, _, stateSequence) =>
        if subject !in ids.records then Err(MissingIdentity)
        else if (id, subject) in s.blocks && stateSequence <= s.blocks[(id, subject)].stateSequence then Err(StaleEvent)
        else Ok(s.(blocks := s.blocks[(id, subject) := edge]))
      case ReactionChanged(id, reaction, target, kind, authority, _, sequence, stateSequence) =>
        if target !in c.references then Err(MissingIdentity)
        else if (id, target, kind) in s.reactions && stateSequence <= s.reactions[(id, target, kind)].edge.stateSequence
        then Err(StaleEvent)
        else Ok(s.(reactions := s.reactions[(id, target, kind) := Reaction(reaction, authority, sequence, edge)]))
  }

  // ----- Communities and memberships -----

  function NewCommunity(e: Event): CommunityCore
    requires e.body.CommunityCreated?
  {
    var b := e.body;
    CommunityCore(b.identity, b.authority, b.authority, b.sequence, b.manifestCid, b.manifestHash,
                  b.governanceVersion, b.strategyHash, b.visibility, b.joinPolicy, b.policySequence,
                  b.membershipSequence, StampOf(e), StampOf(e))
  }

  function CommunityProofOf(m: Manifest): CommunityProof {
    CommunityProof(m.objectId, m.signingKeyId, m.createdAt, m.content)
  }

  function MembershipProofOf(m: Manifest): MembershipProof {
    MembershipProof(m.signingKeyId, m.createdAt)
  }

  predicate TransitionAllowed(current: MembershipStatus, action: MembershipAction) {
    match current
    case Active => !action.Join?
    case Left => action.Join? || action.Ban?
    case Removed => action.Join? || action.Ban?
    case Banned => false
  }

  predicate MayUpdateGovernance(c: Communities, b: Body)
    requires b.GovernanceUpdated?
  {
    && b.community in c.communities
    && var core := c.communities[b.community].core;
    && core.creator == b.identity && core.governanceVersion == b.previousVersion
    && core.strategyHash == b.previousStrategyHash && b.sequence > core.creatorSequence
  }

  /** The event continues the policy and the sequence of its community. */
  predicate ContinuesPolicy(core: CommunityCore, b: Body)
    requires b.MembershipChanged?
  {
    && core.policySequence == b.policySequence
    && b.membershipSequence == core.membershipSequence + 1
    && (IsSelfAction(b.action) ==> b.identity == b.member)
    && (!IsSelfAction(b.action) ==> b.identity == core.creator)
    && (b.action.Join? ==> core.joinPolicy.Open? && !core.visibility.Private?)
  }

  /** The manifest of a transition, when there is one, continues the replacement chain of the membership. */
  predicate ContinuesChain(previousHash: Option<Digest>, stateSequence: nat, m: Manifest) {
    && m.replacementSequence == stateSequence
    && m.supersedes == (if previousHash.Some? then Some(MembershipObjectId(previousHash.value)) else None)
  }

  predicate IdentifiesTransition(b: Body, m: Manifest)
    requires b.MembershipChanged?
  {
    m.objectId == MembershipObjectId(b.manifestHash) && m.payloadHash == b.manifestHash && m.cid == b.manifestCid
  }

  function CurrentMembership(c: Communities, b: Body): Option<MembershipCore>
    requires b.MembershipChanged?
  {
    if (b.community, b.member) in c.memberships then Some(c.memberships[(b.community, b.member)].core) else None
  }

  /** The event advances the state and the action sequences of its membership by exactly one step. */
  predicate ContinuesMembership(core: CommunityCore, current: Option<MembershipCore>, b: Body)
    requires b.MembershipChanged?
  {
    && (current.None? ==> b.action.Join? && b.stateSequence == 1)
    && (current.Some? ==>
          && b.stateSequence == current.value.stateSequence + 1
          && b.membership == current.value.address
          && TransitionAllowed(current.value.status, b.action))
    && (b.action.Join? ==>
          && b.memberActionSequence == b.sequence && b.activeSince == b.membershipSequence
          && (current.Some? ==> b.memberActionSequence > current.value.memberActionSequence))
    && (b.action.Leave? ==>
          && b.memberActionSequence == b.sequence && current.Some?
          && b.memberActionSequence > current.value.memberActionSequence)
    && (!IsSelfAction(b.action) ==>
          && current.Some? && b.memberActionSequence == current.value.memberActionSequence
          && b.sequence > core.creatorSequence)
  }

  /** No other membership holds the address of this one. */
  predicate AddressIsFree(c: Communities, b: Body)
    requires b.MembershipChanged?
  {
    forall k :: k in c.memberships && c.memberships[k].core.address == b.membership ==> k == (b.community, b.member)
  }

  function NewMembership(e: Event): MembershipCore
    requires e.body.MembershipChanged?
  {
    var b := e.body;
    MembershipCore(b.membership, b.identity, b.authority, b.sequence, b.memberActionSequence, b.policySequence,
                   b.membershipSequence, b.activeSince, b.stateSequence, b.action, b.status, b.manifestCid,
                   b.manifestHash, b.roles, b.status.Active?, StampOf(e), e.pos)
  }

  function CommunityAfter(core: CommunityCore, e: Event): CommunityCore
    requires e.body.MembershipChanged?
  {
    var moved := core.(membershipSequence := e.body.membershipSequence, updated := StampOf(e));
    if IsSelfAction(e.body.action) then moved
    else moved.(latestAuthority := e.body.authority, creatorSequence := e.body.sequence)
  }

  /** Everything a transition must satisfy; its result is what the manifest proves, if there is one. */
  function CheckTransition(c: Communities, ids: Identities, pda: Derivations, e: Event, manifest: Option<Manifest>)
    : Outcome<Option<MembershipProof>>
    requires e.body.MembershipChanged?
  {
    var b := e.body;
    if b.member !in ids.records || b.identity !in ids.records || b.community !in c.communities then Err(MissingIdentity)
    else
      var core := c.communities[b.community].core;
      if !ContinuesPolicy(core, b) || b.membership != pda.membership(b.community, ids.records[b.member].address)
      then Err(StaleEvent)
      else
        var current := CurrentMembership(c, b);
        if manifest.None? then
          if ContinuesMembership(core, current, b) && AddressIsFree(c, b) then Ok(None) else Err(StaleEvent)
        else
          var m :- RequireManifest(e, manifest, MembershipManifest);
          if && ContinuesMembership(core, current, b) && AddressIsFree(c, b) && IdentifiesTransition(b, m)
             && ContinuesChain(HashOf(current), b.stateSequence, m)
          then Ok(Some(MembershipProofOf(m)))
          else Err(StaleEvent)
  }

  function HashOf(current: Option<MembershipCore>): Option<Digest> {
    if current.Some? then Some(current.value.manifestHash) else None
  }

  function Transition(c: Communities, e: Event, proof: Option<MembershipProof>): Communities
    requires e.body.MembershipChanged? && e.body.community in c.communities
  {
    var community := c.communities[e.body.community];
    Communities(c.communities[e.body.community := community.(core := CommunityAfter(community.core, e))],
                c.memberships[(e.body.community, e.body.member) := Membership(NewMembership(e), proof)])
  }

  function MembershipEffect(c: Communities, ids: Identities, pda: Derivations, e: Event, manifest: Option<Manifest>)
    : Outcome<Communities>
    requires e.body.MembershipChanged?
  {
    var proof :- CheckTransition(c, ids, pda, e, manifest);
    Ok(Transition(c, e, proof))
  }

  function CommunityEffect(c: Communities, ids: Identities, pda: Derivations, e: Event,
                           t: Treatment): Outcome<Communities>
    requires FamilyOf(e.body) == OfCommunity
  {
    if e.body.identity !in ids.records then Err(MissingIdentity)
    else
      match e.body
      case CommunityCreated(_, address, _, _, _, _, _, _, _, _, _, _) =>
        if address in c.communities then Err(StaleEvent)
        else if t.Accept? then
          var m :- RequireManifest(e, t.manifest, CommunityManifest);
          Ok(c.(communities := c.communities[address := Community(NewCommunity(e), Some(CommunityProofOf(m)))]))
        else Ok(c.(communities := c.communities[address := Community(NewCommunity(e), None)]))
      case GovernanceUpdated(_, address, authority, sequence, _, version, _, strategy) =>
        if !MayUpdateGovernance(c, e.body) then Err(StaleEvent)
        else
          var community := c.communities[address];
          Ok(c.(communities := c.communities[address := community.(core := community.core.(
                  latestAuthority := authority, creatorSequence := sequence, governanceVersion := version,
                  strategyHash := strategy, updated := StampOf(e)))]))
      case MembershipChanged(_, _, _, _, _, _, _, _, _, _, _, _, _, _, _, _) =>
        MembershipEffect(c, ids, pda, e, if t.Accept? then t.manifest else None)
  }

  // ----- Governance -----

  predicate CountsAsMember(m: MembershipCore) {
    m.active && m.roles % 2 == 1
  }

  /** The members whose votes a proposal of this community would count, if it were created now. */
  function EligibleMembers(c: Communities, community: Address): set<IdentityId> {
    set k | k in c.memberships && k.0 == community && CountsAsMember(c.memberships[k].core) :: k.1
  }

  predicate MayPropose(g: Governance, c: Communities, pda: Derivations, b: Body)
    requires b.ProposalCreated? && b.community in c.communities
  {
    var core := c.communities[b.community].core;
    && core.creator == b.identity
    && b.previousSequence == core.creatorSequence && b.sequence > core.creatorSequence
    && b.membershipSequence == core.membershipSequence
    && b.governanceVersion == core.governanceVersion && b.strategyHash == core.strategyHash
    && b.proposal == pda.proposal(b.community, b.manifestHash)
    && b.proposal !in g.proposals && (b.community, b.manifestHash) !in g.byManifest
    && b.eligible == |EligibleMembers(c, b.community)|
  }

  function NewProposal(e: Event): Proposal
    requires e.body.ProposalCreated?
  {
    var b := e.body;
    Proposal(b.community, b.identity, b.sequence, b.manifestHash, b.governanceVersion, b.strategyHash, b.eligible,
             b.membershipSequence, b.opensAtSlot, b.closesAtSlot, b.quorumBps, b.approvalBps, 0, 0, 0,
             b.stateSequence, Undecided, StampOf(e), None)
  }

  /** The membership of the voter is one that the eligibility snapshot of the proposal counted. */
  predicate MembershipCounts(c: Communities, p: Proposal, b: Body)
    requires b.VoteCast?
  {
    && (b.community, b.identity) in c.memberships
    && var m := c.memberships[(b.community, b.identity)].core;
    && m.address == b.membership && m.stateSequence == b.membershipStateSequence
    && CountsAsMember(m) && m.activeSince <= p.membershipSequence
  }

  function Tally(p: Proposal, choice: Choice): (nat, nat, nat) {
    (p.yes + (if choice.Yes? then 1 else 0), p.no + (if choice.No? then 1 else 0),
     p.abstain + (if choice.Abstain? then 1 else 0))
  }

  /** Everything a vote must satisfy, except that the votes may not outnumber the eligible members. */
  predicate VoteIsRegular(g: Governance, c: Communities, ids: Identities, pda: Derivations, e: Event)
    requires e.body.VoteCast? && e.body.identity in ids.records
  {
    var b := e.body;
    && b.proposal in g.proposals
    && var p := g.proposals[b.proposal];
    && p.community == b.community && p.outcome.Undecided?
    && p.opensAtSlot <= e.pos.slot < p.closesAtSlot
    && b.vote == pda.vote(b.proposal, ids.records[b.identity].address)
    && b.membership == pda.membership(b.community, ids.records[b.identity].address)
    && MembershipCounts(c, p, b)
    && b.vote !in g.votes && (b.proposal, b.identity) !in g.voteByVoter
    && (b.identity in g.lastVoterSequence ==> b.sequence > g.lastVoterSequence[b.identity])
    && b.stateSequence == p.stateSequence + 1
    && (b.yes, b.no, b.abstain) == Tally(p, b.choice)
  }

  predicate MayVote(g: Governance, c: Communities, ids: Identities, pda: Derivations, e: Event)
    requires e.body.VoteCast? && e.body.identity in ids.records
  {
    && VoteIsRegular(g, c, ids, pda, e)
    && e.body.yes + e.body.no + e.body.abstain <= g.proposals[e.body.proposal].eligible
  }

  predicate QuorumMet(p: Proposal) {
    (p.yes + p.no + p.abstain) * BASIS_POINTS >= p.eligible * p.quorumBps
  }

  predicate ApprovalMet(p: Proposal) {
    p.yes + p.no > 0 && p.yes * BASIS_POINTS >= (p.yes + p.no) * p.approvalBps
  }

  predicate MayFinalize(g: Governance, e: Event)
    requires e.body.ProposalFinalized?
  {
    var b := e.body;
    && b.proposal in g.proposals
    && var p := g.proposals[b.proposal];
    && p.community == b.community && p.outcome.Undecided? && p.finalized.None?
    && e.pos.slot >= p.closesAtSlot && b.stateSequence == p.stateSequence + 1
    && b.eligible == p.eligible && b.yes == p.yes && b.no == p.no && b.abstain == p.abstain
    && b.quorumBps == p.quorumBps && b.approvalBps == p.approvalBps
    && b.participating == p.yes + p.no + p.abstain && b.decisive == p.yes + p.no
    && b.quorumMet == QuorumMet(p) && b.approvalMet == ApprovalMet(p)
    && b.accepted == (QuorumMet(p) && ApprovalMet(p))
  }

  function CastVote(g: Governance, e: Event): Governance
    requires e.body.VoteCast? && e.body.proposal in g.proposals
  {
    var b := e.body;
    g.(votes := g.votes[b.vote := Vote(b.proposal, b.identity, b.membership, b.sequence, b.membershipStateSequence,
                                      b.stateSequence, b.choice, StampOf(e))],
       voteByVoter := g.voteByVoter[(b.proposal, b.identity) := b.vote],
       lastVoterSequence := g.lastVoterSequence[b.identity := b.sequence],
       proposals := g.proposals[b.proposal := g.proposals[b.proposal].(yes := b.yes, no := b.no, abstain := b.abstain,
                                              stateSequence := b.stateSequence)])
  }

  function Propose(c: Communities, e: Event): Communities
    requires e.body.ProposalCreated? && e.body.community in c.communities
  {
    var community := c.communities[e.body.community];
    c.(communities := c.communities[e.body.community := community.(core := community.core.(
         latestAuthority := e.body.authority, creatorSequence := e.body.sequence, updated := StampOf(e)))])
  }

  function GovernanceEffect(g: Governance, c: Communities, ids: Identities, pda: Derivations, e: Event)
    : Outcome<(Governance, Communities)>
    requires FamilyOf(e.body) == OfGovernance
  {
    match e.body
    case ProposalCreated(id, community, proposal, _, _, _, manifestHash, _, _, _, _, _, _, _, _, _) =>
      if id !in ids.records || community !in c.communities then Err(MissingIdentity)
      else if !MayPropose(g, c, pda, e.body) then Err(StaleEvent)
      else Ok((g.(proposals := g.proposals[proposal := NewProposal(e)],
                  byManifest := g.byManifest[(community, manifestHash) := proposal]),
               Propose(c, e)))
    case VoteCast(id, _, _, _, _, _, _, _, _, _, _, _, _) =>
      if id !in ids.records then Err(MissingIdentity)
      else if !MayVote(g, c, ids, pda, e) then Err(StaleEvent)
      else Ok((CastVote(g, e), c))
    case ProposalFinalized(_, proposal, _, stateSequence, _, _, _, _, _, _, _, _, _, _, accepted) =>
      if !MayFinalize(g, e) then Err(StaleEvent)
      else Ok((g.(proposals := g.proposals[proposal := g.proposals[proposal].(stateSequence := stateSequence,
                    outcome := if accepted then Accepted else Rejected, finalized := Some(StampOf(e)))]), c))
  }

  // ----- One event -----

  function Effect(pda: Derivations, s: State, e: Event, t: Treatment): Outcome<State> {
    match FamilyOf(e.body)
    case OfIdentity => var x :- IdentityEffect(s.identities, e); Ok(s.(identities := x))
    case OfHandle => var x :- HandleEffect(s.handles, s.identities, e); Ok(s.(handles := x))
    case OfRecovery => var x :- RecoveryEffect(s.recovery, s.identities, pda, e); Ok(s.(recovery := x))
    case OfContent => var x :- ContentEffect(s.content, e, t); Ok(s.(content := x))
    case OfSocial => var x :- SocialEffect(s.social, s.content, s.identities, e); Ok(s.(social := x))
    case OfCommunity => var x :- CommunityEffect(s.communities, s.identities, pda, e, t); Ok(s.(communities := x))
    case OfGovernance =>
      var x :- GovernanceEffect(s.governance, s.communities, s.identities, pda, e);
      Ok(s.(governance := x.0, communities := x.1))
  }

  /** The events whose manifest may be awaited. */
  predicate MayDefer(b: Body) {
    b.ProfileUpdated? || b.PostPublished? || b.CommunityCreated? || b.MembershipChanged?
  }

  /** The fault, if any, of treating this kind of event in this way. */
  function TreatmentFault(b: Body, t: Treatment): Option<Fault> {
    match t
    case Accept(_) => None
    case Defer => if MayDefer(b) then None else Some(ManifestMismatch)
    case Quarantine(_) => if MayDefer(b) || b.Tombstoned? then None else Some(ManifestMismatch)
    case Suppress => if b.ProfileUpdated? || b.PostPublished? then None else Some(EventConflict)
  }

  function Record(l: Ledger, e: Event, t: Treatment): Ledger {
    var c := CoordinateOf(e.pos);
    Ledger(l.log + [e], if t.Defer? then l.pending + {c} else l.pending,
           if t.Quarantine? then l.terminal[c := t.code] else l.terminal)
  }

  /** The recorded event at a coordinate. */
  function Lookup(log: seq<Event>, c: Coordinate): (r: Option<Event>)
    ensures r.Some? ==> r.value in log && CoordinateOf(r.value.pos) == c
    ensures r.None? ==> forall i :: 0 <= i < |log| ==> CoordinateOf(log[i].pos) != c
  {
    if log == [] then None
    else if CoordinateOf(log[0].pos) == c then Some(log[0])
    else Lookup(log[1..], c)
  }

  /** Takes in an event that the log does not hold yet. */
  function Ingest(pda: Derivations, s: State, e: Event, t: Treatment): Outcome<State> {
    if TreatmentFault(e.body, t).Some? then Err(TreatmentFault(e.body, t).value)
    else if Lookup(s.ledger.log, CoordinateOf(e.pos)).Some? then Err(EventConflict)
    else
      var _ :- ValidateLifecycle(s.identities, e);
      var x :- Effect(pda, s, e, t);
      Ok(x.(identities := Advance(x.identities, e), ledger := Record(s.ledger, e, t)))
  }
}
