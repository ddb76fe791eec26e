/** Finalized protocol events of one network, and the schema rules that the projection relies on. */
module ProtocolEvents {
  import opened Wrappers
  import opened EventOrder

  type Address = string
  type IdentityId = string
  type ObjectId = string
  type Digest = string

  datatype Visibility = Public | Unlisted | Private
  datatype JoinPolicy = Open | OnRequest | ByInvite
  datatype MembershipAction = Join | Leave | Remove | Ban
  datatype MembershipStatus = Active | Left | Removed | Banned
  datatype Choice = Yes | No | Abstain

  datatype Event = Event(pos: Position, blockTime: string, body: Body)

  /** In every body, `identity` is the identity that acts and `sequence` is that identity's sequence. */
  datatype Body =
    | ProtocolInitialized(config: Address)
    | IdentityCreated(identity: IdentityId, address: Address, root: Address)
    | IdentityDeactivated(identity: IdentityId, config: Address, address: Address, root: Address, sequence: nat)
    | RootRotated(identity: IdentityId, previousRoot: Address, newRoot: Address, sequence: nat, rotationCount: nat)
    | DelegationCreated(identity: IdentityId, delegation: Address, delegate: Address, delegationSequence: nat,
        sequence: nat, scopes: bv16, rotationCount: nat, expiresAtSlot: nat)
    | DelegationRevoked(identity: IdentityId, delegation: Address, delegate: Address, delegationSequence: nat,
        sequence: nat, stateSequence: nat)
    | HandleClaimed(identity: IdentityId, claim: Address, authority: Address, sequence: nat, handle: string,
                    digest: Digest)
    | HandleReleased(identity: IdentityId, claim: Address, authority: Address, sequence: nat, handle: string,
                     digest: Digest)
    | PolicyConfigured(identity: IdentityId, policy: Address, root: Address, policySequence: nat, sequence: nat,
        rotationCount: nat, guardians: seq<Address>, threshold: nat, delaySlots: nat)
    | PolicyDisabled(identity: IdentityId, policy: Address, root: Address, policySequence: nat, sequence: nat,
        rotationCount: nat)
    | RecoveryRequested(identity: IdentityId, policy: Address, request: Address, guardian: Address, nonce: string,
        policySequence: nat, root: Address, sequence: nat, rotationCount: nat, target: Address, threshold: nat,
        guardianCount: nat, approvalCount: nat, executeAfterSlot: nat)
    | RecoveryApproved(identity: IdentityId, policy: Address, request: Address, guardian: Address,
        guardianIndex: nat, policySequence: nat, approvalCount: nat, threshold: nat)
    | RecoveryCancelled(identity: IdentityId, policy: Address, request: Address, root: Address, target: Address,
        policySequence: nat, sequence: nat, rotationCount: nat)
    | RecoveryExecuted(identity: IdentityId, policy: Address, request: Address, executor: Address,
        previousRoot: Address, newRoot: Address, policySequence: nat, approvalCount: nat, threshold: nat,
        sequence: nat, rotationCount: nat)
    | ProfileUpdated(identity: IdentityId, objectId: ObjectId, payloadHash: Digest, sequence: nat)
    | PostPublished(identity: IdentityId, postReference: Option<Address>, objectId: ObjectId, payloadHash: Digest,
        sequence: nat)
    | Tombstoned(identity: IdentityId, objectId: ObjectId, sequence: nat)
    | FollowChanged(identity: IdentityId, subject: IdentityId, active: bool, sequence: nat, stateSequence: nat)
    | BlockChanged(identity: IdentityId, subject: IdentityId, edge: Address, authority: Address, active: bool,
        sequence: nat, stateSequence: nat)
    | ReactionChanged(identity: IdentityId, reaction: Address, target: Address, reactionKind: nat,
        authority: Address, active: bool, sequence: nat, stateSequence: nat)
    | CommunityCreated(identity: IdentityId, community: Address, authority: Address, sequence: nat,
        manifestCid: string, manifestHash: Digest, governanceVersion: nat, strategyHash: Digest,
        visibility: Visibility, joinPolicy: JoinPolicy, policySequence: nat, membershipSequence: nat)
    | GovernanceUpdated(identity: IdentityId, community: Address, authority: Address, sequence: nat,
        previousVersion: nat, governanceVersion: nat, previousStrategyHash: Digest, strategyHash: Digest)
    | MembershipChanged(identity: IdentityId, member: IdentityId, community: Address, membership: Address,
        authority: Address, action: MembershipAction, status: MembershipStatus, stateSequence: nat,
        memberActionSequence: nat, sequence: nat, policySequence: nat, membershipSequence: nat, activeSince: nat,
        roles: nat, manifestCid: string, manifestHash: Digest)
    | ProposalCreated(identity: IdentityId, community: Address, proposal: Address, authority: Address,
        sequence: nat, previousSequence: nat, manifestHash: Digest, governanceVersion: nat, strategyHash: Digest,
        eligible: nat, membershipSequence: nat, opensAtSlot: nat, closesAtSlot: nat, quorumBps: nat,
        approvalBps: nat, stateSequence: nat)
    | VoteCast(identity: IdentityId, community: Address, proposal: Address, vote: Address, membership: Address,
        authority: Address, sequence: nat, membershipStateSequence: nat, stateSequence: nat, choice: Choice,
        yes: nat, no: nat, abstain: nat)
    | ProposalFinalized(community: Address, proposal: Address, finalizer: Address, stateSequence: nat,
        eligible: nat, yes: nat, no: nat, abstain: nat, participating: nat, decisive: nat, quorumBps: nat,
        approvalBps: nat, quorumMet: bool, approvalMet: bool, accepted: bool)

  const QUORUM_BPS := 5_000
  const APPROVAL_BPS := 5_001
  const BASIS_POINTS := 10_000

  function StatusAfter(action: MembershipAction): MembershipStatus {
    match action
    case Join => Active
    case Leave => Left
    case Remove => Removed
    case Ban => Banned
  }

  predicate IsSelfAction(action: MembershipAction) {
    action.Join? || action.Leave?
  }

  predicate AllDistinct(xs: seq<Address>) {
    forall i, j :: 0 <= i < j < |xs| ==> xs[i] != xs[j]
  }

  /** The schema rules on event bodies that relate several of their fields. */
  predicate ValidEvent(e: Event) {
    match e.body
    case RootRotated(_, previous, new_, sequence, count) => previous != new_ && sequence > 0 && count > 0
    case DelegationCreated(_, _, _, _, _, scopes, _, expires) => expires > e.pos.slot && scopes != 0
    case PolicyConfigured(_, _, root, _, _, _, guardians, threshold, delay) =>
      && 2 <= |guardians| <= 5 && AllDistinct(guardians) && 2 <= threshold <= |guardians|
      && root !in guardians && 2 <= delay <= 1_000_000
    case RecoveryRequested(_, _, _, _, _, _, root, _, _, target, threshold, count, approvals, after) =>
      && 2 <= threshold <= count <= 5 && approvals == 1 && target != root
      && e.pos.slot + 2 <= after <= e.pos.slot + 1_000_000
    case RecoveryApproved(_, _, _, _, index, _, approvals, threshold) =>
      index <= 4 && 2 <= approvals <= 5 && 2 <= threshold <= 5
    case RecoveryExecuted(_, _, _, _, previous, new_, _, approvals, threshold, _, _) =>
      previous != new_ && 2 <= threshold <= approvals <= 5
    case FollowChanged(follower, subject, _, _, _) => follower != subject
    case BlockChanged(blocker, subject, _, _, _, _, _) => blocker != subject
    case GovernanceUpdated(_, _, _, _, previous, version, _, _) => version > previous
    case MembershipChanged(actor, member, _, _, _, action, status, state, _, _, _, sequence, since, roles, _, _) =>
      && status == StatusAfter(action)
      && state > 0 && sequence > 0
      && (if status.Active? then roles == 1 && since > 0 else roles == 0 && since == 0)
      && (IsSelfAction(action) <==> actor == member)
    case ProposalCreated(_, _, _, _, sequence, previous, _, _, _, eligible, _, opens, closes, quorum, approval,
                         state) =>
      && sequence > previous && eligible > 0
      && e.pos.slot <= opens <= e.pos.slot + 100_000
      && opens + 2 <= closes <= opens + 1_000_000
      && quorum == QUORUM_BPS && approval == APPROVAL_BPS && state == 1
    case VoteCast(_, _, _, _, _, _, _, _, _, _, yes, no, abstain) => yes + no + abstain > 0
    case _ => true
  }
}
