/**
 The store that keeps the projection in maps which every operation updates in place. Each operation is proved
 against the function that says what it means.
 */
module MemoryStore {
  import opened Wrappers
  import opened EventOrder
  import opened ProtocolEvents
  import opened Projection
  import opened ManifestLifecycle
  import opened Rebuild
  import opened Authorization
  import opened HandleIndex
  import opened Suppression
  import opened ReplaySource

  function Done<T>(outcome: Outcome<T>): Outcome<()> {
    if outcome.Ok? then Ok(()) else Err(outcome.error)
  }

  class MemoryProjectionStore {
    const pda: Derivations

    var config: Option<Address>
    var identities: map<IdentityId, Identity>
    var sequencePositions: map<IdentityId, Position>
    var deactivationPositions: map<IdentityId, Position>
    var rootHistory: map<IdentityId, seq<RootEpoch>>
    var delegations: map<Address, Delegation>
    var handlesByAddress: map<Address, Handle>
    var handleAddressesByName: map<string, Address>
    var recoveryPolicies: map<IdentityId, Policy>
    var recoveryRequests: map<Address, Request>
    var profiles: map<IdentityId, Profile>
    var latestProfileEvents: map<IdentityId, Coordinate>
    var posts: map<ObjectId, Post>
    var postReferences: map<Address, ObjectId>
    var follows: map<(IdentityId, IdentityId), Edge>
    var blocks: map<(IdentityId, IdentityId), Edge>
    var reactions: map<(IdentityId, Address, nat), Reaction>
    var communities: map<Address, Community>
    var memberships: map<MemberKey, Membership>
    var proposals: map<Address, Proposal>
    var proposalByManifest: map<(Address, Digest), Address>
    var votes: map<Address, Vote>
    var voteByVoter: map<(Address, IdentityId), Address>
    var lastVoterSequence: map<IdentityId, nat>
    var events: seq<Event>
    var pendingEvents: set<Coordinate>
    var terminalFailures: map<Coordinate, string>

    // ----- What the maps stand for -----

    function IdentityPart(): Identities
      reads this`config, this`identities, this`sequencePositions, this`deactivationPositions,
            this`rootHistory, this`delegations
    {
      Identities(config, identities, sequencePositions, deactivationPositions, rootHistory, delegations)
    }

    function HandlePart(): Handles
      reads this`handlesByAddress, this`handleAddressesByName
    {
      Handles(handlesByAddress, handleAddressesByName)
    }

    function RecoveryPart(): Recovery
      reads this`recoveryPolicies, this`recoveryRequests
    {
      Recovery(recoveryPolicies, recoveryRequests)
    }

    function ContentPart(): Content
      reads this`profiles, this`latestProfileEvents, this`posts, this`postReferences
    {
      Content(profiles, latestProfileEvents, posts, postReferences)
    }

    function SocialPart(): Social
      reads this`follows, this`blocks, this`reactions
    {
      Social(follows, blocks, reactions)
    }

    function CommunityPart(): Communities
      reads this`communities, this`memberships
    {
      Communities(communities, memberships)
    }

    function GovernancePart(): Governance
      reads this`proposals, this`proposalByManifest, this`votes, this`voteByVoter, this`lastVoterSequence
    {
      Governance(proposals, proposalByManifest, votes, voteByVoter, lastVoterSequence)
    }

    function LedgerPart(): Ledger
      reads this`events, this`pendingEvents, this`terminalFailures
    {
      Ledger(events, pendingEvents, terminalFailures)
    }

    function Model(): (s: State)
      reads this
      ensures s.ledger == LedgerPart() && s.identities == IdentityPart() && s.handles == HandlePart()
      ensures s.recovery == RecoveryPart() && s.content == ContentPart() && s.social == SocialPart()
      ensures s.communities == CommunityPart() && s.governance == GovernancePart()
    {
      State(LedgerPart(), IdentityPart(), HandlePart(), RecoveryPart(), ContentPart(), SocialPart(), CommunityPart(),
            GovernancePart())
    }

    constructor (pda: Derivations)
      ensures Model() == EMPTY && this.pda == pda
    {
      this.pda := pda;
      config := None;
      identities, sequencePositions, deactivationPositions, rootHistory, delegations := map[], map[], map[], map[],
        map[];
      handlesByAddress, handleAddressesByName := map[], map[];
      recoveryPolicies, recoveryRequests := map[], map[];
      profiles, latestProfileEvents, posts, postReferences := map[], map[], map[], map[];
      follows, blocks, reactions := map[], map[], map[];
      communities, memberships := map[], map[];
      proposals, proposalByManifest, votes, voteByVoter, lastVoterSequence := map[], map[], map[], map[], map[];
      events, pendingEvents, terminalFailures := [], {}, map[];
    }

    // ----- Checks and searches -----

    method ValidateIdentityLifecycle(e: Event) returns (r: Outcome<()>)
      ensures r == ValidateLifecycle(IdentityPart(), e)
    {
      if e.body.IdentityDeactivated? {
        return Ok(());
      }
      var needed := ActiveIdentities(e.body);
      var i := 0;
      while i < |needed|
        invariant i <= |needed|
        invariant CheckActive(identities, needed) == CheckActive(identities, needed[i..])
      {
        if needed[i] !in identities {
          return Err(MissingIdentity);
        }
        if !identities[needed[i]].active {
          return Err(StaleEvent);
        }
        assert needed[i..][1..] == needed[i + 1..];
        i := i + 1;
      }
      if SnapshotsSequence(e.body) {
        if e.body.identity !in identities {
          return Err(MissingIdentity);
        }
        if identities[e.body.identity].sequence != e.body.sequence {
          return Err(StaleEvent);
        }
      }
      if !AdvancesSequence(e.body) {
        return Ok(());
      }
      if e.body.identity !in identities {
        return Err(MissingIdentity);
      }
      if e.body.identity in sequencePositions {
        CompareAntisymmetric(sequencePositions[e.body.identity], e.pos);
      }
      if e.body.sequence != identities[e.body.identity].sequence + 1 || e.body.identity !in sequencePositions
         || Compare(e.pos, sequencePositions[e.body.identity]) <= 0 {
        return Err(StaleEvent);
      }
      return Ok(());
    }

    /** The largest identity sequence among the recovery records of an identity. */
    method LatestRecoverySequence(id: IdentityId) returns (latest: nat)
      ensures forall n: nat :: AboveRecoveryHistory(RecoveryPart(), id, n) <==> n > latest
    {
      latest := if id in recoveryPolicies then recoveryPolicies[id].sequence else 0;
      var remaining := recoveryRequests.Keys;
      while remaining != {}
        invariant remaining <= recoveryRequests.Keys
        invariant id in recoveryPolicies ==> recoveryPolicies[id].sequence <= latest
        invariant forall a :: a in recoveryRequests && a !in remaining && recoveryRequests[a].identity == id ==>
                    NotAbove(recoveryRequests[a], latest)
        invariant latest > 0 ==> Mentioned(RecoveryPart(), id, latest)
        decreases remaining
      {
        var a :| a in remaining;
        var request := recoveryRequests[a];
        if request.identity == id {
          if request.sequence > latest {
            latest := request.sequence;
          }
          if request.terminalSequence.Some? && request.terminalSequence.value > latest {
            latest := request.terminalSequence.value;
          }
        }
        remaining := remaining - {a};
      }
      LatestDecides(RecoveryPart(), id, latest);
    }

    /** The latest tombstone of a post by its author at a later position. */
    method LaterTombstoneAt(post: Event) returns (latest: Option<Event>)
      requires post.body.PostPublished?
      ensures latest == LaterTombstone(events, post)
    {
      latest := None;
      for i := 0 to |events|
        invariant latest == LaterTombstone(events[..i], post)
      {
        var candidate := events[i];
        assert events[..i + 1][..i] == events[..i];
        if candidate.body.Tombstoned? && candidate.body.identity == post.body.identity
           && candidate.body.objectId == post.body.objectId && Compare(candidate.pos, post.pos) > 0 {
          CompareAntisymmetric(post.pos, candidate.pos);
          if latest.Some? {
            CompareAntisymmetric(latest.value.pos, candidate.pos);
          }
          if latest.None? || Compare(candidate.pos, latest.value.pos) > 0 {
            latest := Some(candidate);
          }
        } else {
          CompareAntisymmetric(post.pos, candidate.pos);
        }
      }
      assert events[..|events|] == events;
    }

    /** The manifest hash of the recorded transition that a membership transition follows. */
    method PreviousTransitionHash(b: Body) returns (hash: Option<Digest>)
      requires b.MembershipChanged?
      ensures hash == PreviousHash(events, b)
    {
      if b.stateSequence <= 1 {
        return None;
      }
      for i := 0 to |events|
        invariant FindTransition(events[..i], b.membership, b.stateSequence - 1) == None
      {
        assert events[..i + 1][..i] == events[..i];
        var candidate := events[i].body;
        if candidate.MembershipChanged? && candidate.membership == b.membership
           && candidate.stateSequence == b.stateSequence - 1 {
          FoundEarly(events, i, b.membership, b.stateSequence - 1);
          return Some(candidate.manifestHash);
        }
      }
      assert events[..|events|] == events;
      return None;
    }

    method CountEligibleMembers(community: Address) returns (count: nat)
      ensures count == |EligibleMembers(CommunityPart(), community)|
    {
      count := 0;
      ghost var counted: set<IdentityId> := {};
      var remaining := memberships.Keys;
      while remaining != {}
        invariant remaining <= memberships.Keys
        invariant counted == (set k | k in memberships && k !in remaining && k.0 == community
                                      && CountsAsMember(memberships[k].core) :: k.1)
        invariant count == |counted|
        decreases remaining
      {
        var k :| k in remaining;
        if k.0 == community && memberships[k].core.active && memberships[k].core.roles % 2 == 1 {
          assert k.1 !in counted;
          counted := counted + {k.1};
          count := count + 1;
        }
        remaining := remaining - {k};
      }
      assert counted == EligibleMembers(CommunityPart(), community);
    }

    /** Whether any membership but one's own holds an address. */
    method AddressIsTaken(b: Body) returns (taken: bool)
      requires b.MembershipChanged?
      ensures taken <==> !AddressIsFree(CommunityPart(), b)
    {
      var remaining := memberships.Keys;
      while remaining != {}
        invariant remaining <= memberships.Keys
        invariant forall k :: k in memberships && k !in remaining && memberships[k].core.address == b.membership ==>
                    k == (b.community, b.member)
        decreases remaining
      {
        var k :| k in remaining;
        if memberships[k].core.address == b.membership && k != (b.community, b.member) {
          return true;
        }
        remaining := remaining - {k};
      }
      return false;
    }

    // ----- Reading -----

    /** Whether a key could sign for an identity at a past position. */
    method AuthorizeSigningKey(q: Query) returns (authorized: bool)
      ensures authorized <==> Authorization.AuthorizeSigningKey(IdentityPart(), q)
    {
      hide DelegationMatches, InForceAt, Compare;
      if q.identity !in rootHistory {
        return false;
      }
      if q.identity in deactivationPositions && Compare(q.pos, deactivationPositions[q.identity]) >= 0 {
        return false;
      }
      var root := RootInForce(rootHistory[q.identity], q.pos);
      if root.None? {
        return false;
      }
      if q.isRoot {
        return q.authority == root.value.authority;
      }
      var scope := ScopeForObjectType(q.objectType);
      if scope.None? {
        return false;
      }
      var remaining := delegations.Keys;
      while remaining != {}
        invariant remaining <= delegations.Keys
        invariant forall a :: a in delegations && a !in remaining ==>
                    !(InForceAt(delegations[a], q.pos)
                      && DelegationMatches(delegations[a], q, root.value.rotationCount, scope.value))
        decreases remaining
      {
        var a :| a in remaining;
        if InForceAt(delegations[a], q.pos)
            && DelegationMatches(delegations[a], q, root.value.rotationCount, scope.value) {
          return true;
        }
        remaining := remaining - {a};
      }
      return false;
    }

    /** The latest epoch of a root history that had begun at a position. */
    method RootInForce(history: seq<RootEpoch>, q: Position) returns (root: Option<RootEpoch>)
      ensures root == RootAt(history, q)
    {
      hide Compare;
      root := None;
      for i := 0 to |history|
        invariant root == RootAt(history[..i], q)
      {
        assert history[..i + 1][..i] == history[..i];
        if Compare(history[i].pos, q) <= 0 && (root.None? || Before(root.value.pos, history[i].pos)) {
          root := Some(history[i]);
        }
      }
      assert history[..|history|] == history;
    }

    method LookupHandle(name: string) returns (handle: Option<Handle>)
      ensures handle == GetHandle(HandlePart(), name)
    {
      if name !in handleAddressesByName {
        return None;
      }
      var address := handleAddressesByName[name];
      if address in handlesByAddress && handlesByAddress[address].active {
        return Some(handlesByAddress[address]);
      }
      return None;
    }

    // ----- Applying one event to its family of maps -----

    method ApplyIdentityEvent(e: Event) returns (r: Outcome<()>)
      requires FamilyOf(e.body) == OfIdentity
      modifies this`config, this`identities, this`sequencePositions, this`deactivationPositions, this`rootHistory,
               this`delegations
      ensures r == Done(IdentityEffect(old(IdentityPart()), e))
      ensures IdentityPart() == if r.Ok? then IdentityEffect(old(IdentityPart()), e).value else old(IdentityPart())
    {
      match e.body {
        case ProtocolInitialized(address) =>
          config := Some(address);
        case IdentityCreated(id, _, root) =>
          identities := identities[id := NewIdentity(e)];
          sequencePositions := sequencePositions[id := e.pos];
          rootHistory := rootHistory[id := [RootEpoch(root, 0, 0, e.pos)]];
        case IdentityDeactivated(id, _, _, _, sequence) =>
          if id !in identities {
            return Err(MissingIdentity);
          }
          if !MayDeactivate(IdentityPart(), e) {
            return Err(StaleEvent);
          }
          identities := identities[id := identities[id].(active := false, sequence := sequence, updated := StampOf(e),
                                         deactivated := Some(StampOf(e)))];
          sequencePositions := sequencePositions[id := e.pos];
          deactivationPositions := deactivationPositions[id := e.pos];
        case RootRotated(id, previous, next, sequence, count) =>
          if id !in identities {
            return Err(MissingIdentity);
          }
          if identities[id].root != previous || count != identities[id].rotationCount + 1 {
            return Err(StaleEvent);
          }
          identities := identities[id := identities[id].(root := next, rotationCount := count, updated := StampOf(e))];
          var history := if id in rootHistory then rootHistory[id] else [];
          rootHistory := rootHistory[id := history + [RootEpoch(next, count, sequence, e.pos)]];
        case DelegationCreated(id, delegation, _, _, _, _, count, _) =>
          if id !in identities {
            return Err(MissingIdentity);
          }
          if identities[id].rotationCount != count || delegation in delegations {
            return Err(StaleEvent);
          }
          delegations := delegations[delegation := NewDelegation(e)];
        case DelegationRevoked(id, delegation, _, _, sequence, stateSequence) =>
          if id !in identities {
            return Err(MissingIdentity);
          }
          if !MayRevoke(IdentityPart(), e.body) {
            return Err(StaleEvent);
          }
          delegations := delegations[delegation := delegations[delegation].(sequence := sequence,
                                stateSequence := stateSequence, revokedPosition := Some(e.pos),
                                  updatedAt := e.blockTime)];
      }
      r := Ok(());
    }

    method ApplyHandleEvent(e: Event) returns (r: Outcome<()>)
      requires FamilyOf(e.body) == OfHandle
      modifies this`handlesByAddress, this`handleAddressesByName
      ensures r == Done(HandleEffect(old(HandlePart()), old(IdentityPart()), e))
      ensures HandlePart() == if r.Ok? then HandleEffect(old(HandlePart()), old(IdentityPart()), e).value
                              else old(HandlePart())
    {
      if e.body.identity !in identities {
        return Err(MissingIdentity);
      }
      if identities[e.body.identity].root != e.body.authority {
        return Err(StaleEvent);
      }
      match e.body {
        case HandleClaimed(id, claim, authority, sequence, name, digest) =>
          if !MayClaim(HandlePart(), e) {
            return Err(StaleEvent);
          }
          handlesByAddress := handlesByAddress[claim := Handle(id, authority, sequence, digest, name, StampOf(e), true,
                                                               None)];
          handleAddressesByName := handleAddressesByName[name := claim];
        case HandleReleased(_, claim, authority, sequence, _, _) =>
          if !MayRelease(HandlePart(), e) {
            return Err(StaleEvent);
          }
          handlesByAddress := handlesByAddress[claim := handlesByAddress[claim].(authority := authority,
                                          sequence := sequence, active := false, released := Some(StampOf(e)))];
      }
      r := Ok(());
    }

    method ApplySocialEvent(e: Event) returns (r: Outcome<()>)
      requires FamilyOf(e.body) == OfSocial
      modifies this`follows, this`blocks, this`reactions
      ensures r == Done(SocialEffect(old(SocialPart()), old(ContentPart()), old(IdentityPart()), e))
      ensures SocialPart()
           == if r.Ok? then SocialEffect(old(SocialPart()), old(ContentPart()), old(IdentityPart()), e).value
              else old(SocialPart())
    {
      if e.body.identity !in identities {
        return Err(MissingIdentity);
      }
      var edge := Edge(e.body.active, e.body.stateSequence, StampOf(e));
      match e.body {
        case FollowChanged(id, subject, _, _, stateSequence) =>
          if subject !in identities {
            return Err(MissingIdentity);
          }
          if (id, subject) in follows && stateSequence <= follows[(id, subject)].stateSequence {
            return Err(StaleEvent);
          }
          follows := follows[(id, subject) := edge];
        case BlockChanged(id, subject, _, _, _, _, stateSequence) =>
          if subject !in identities {
            return Err(MissingIdentity);
          }
          if (id, subject) in blocks && stateSequence <= blocks[(id, subject)].stateSequence {
            return Err(StaleEvent);
          }
          blocks := blocks[(id, subject) := edge];
        case ReactionChanged(id, reaction, target, kind, authority, _, sequence, stateSequence) =>
          if target !in postReferences {
            return Err(MissingIdentity);
          }
          if (id, target, kind) in reactions && stateSequence <= reactions[(id, target, kind)].edge.stateSequence {
            return Err(StaleEvent);
          }
          reactions := reactions[(id, target, kind) := Reaction(reaction, authority, sequence, edge)];
      }
      r := Ok(());
    }

    method ApplyContentEvent(e: Event, t: Treatment) returns (r: Outcome<()>)
      requires FamilyOf(e.body) == OfContent
      modifies this`profiles, this`latestProfileEvents, this`posts, this`postReferences
      ensures r == Done(ContentEffect(old(ContentPart()), e, t))
      ensures ContentPart() == if r.Ok? then ContentEffect(old(ContentPart()), e, t).value else old(ContentPart())
    {
      match e.body {
        case ProfileUpdated(id, _, _, _) =>
          if t.Accept? {
            var verified := RequireManifest(e, t.manifest, ProfileManifest);
            if verified.Err? {
              return Err(verified.error);
            }
            profiles := profiles[id := NewProfile(e, verified.value)];
          } else {
            profiles := profiles - {id};
          }
          latestProfileEvents := latestProfileEvents[id := CoordinateOf(e.pos)];
        case PostPublished(_, reference, objectId, _, _) =>
          var stored := objectId;
          if t.Accept? {
            var verified := RequireManifest(e, t.manifest, PostManifest);
            if verified.Err? {
              return Err(verified.error);
            }
            stored := verified.value.objectId;
            posts := posts[stored := NewPost(e, verified.value, None)];
          }
          if reference.Some? {
            postReferences := postReferences[reference.value := stored];
          }
        case Tombstoned(id, objectId, _) =>
          if objectId in posts && (t.Accept? || posts[objectId].author == id) {
            posts := posts[objectId := posts[objectId].(tombstonedAt := Some(e.blockTime))];
          }
      }
      r := Ok(());
    }

    method ApplyRecoveryEvent(e: Event) returns (r: Outcome<()>)
      requires FamilyOf(e.body) == OfRecovery
      modifies this`recoveryPolicies, this`recoveryRequests
      ensures r == Done(RecoveryEffect(old(RecoveryPart()), old(IdentityPart()), pda, e))
      ensures RecoveryPart() == if r.Ok? then RecoveryEffect(old(RecoveryPart()), old(IdentityPart()), pda, e).value
                                else old(RecoveryPart())
    {
      hide AboveRecoveryHistory, RotationIsLatest, RootEpochMatches, Bit, IndexOf;
      if e.body.identity !in identities {
        return Err(MissingIdentity);
      }
      if e.body.RecoveryRequested? {
        r := RequestRecovery(e);
        return;
      }
      if e.body.RecoveryExecuted? {
        r := ExecuteRecovery(e);
        return;
      }
      var latest := LatestRecoverySequence(e.body.identity);
      assert RecoveryPart() == old(RecoveryPart());
      match e.body {
        case PolicyConfigured(id, policy, root, policySequence, sequence, count, _, _, _) =>
          var previous := if id in recoveryPolicies then recoveryPolicies[id].policySequence else 0;
          if !RootEpochMatches(IdentityPart(), id, root, count) || policy != pda.recoveryPolicy(identities[id].address)
             || policySequence != previous + 1 || sequence <= latest
             || (id in recoveryPolicies && recoveryPolicies[id].policy != policy) {
            return Err(StaleEvent);
          }
          recoveryPolicies := recoveryPolicies[id := NewPolicy(e)];
        case PolicyDisabled(id, policy, root, policySequence, sequence, count) =>
          if id !in recoveryPolicies || !RootEpochMatches(IdentityPart(), id, root, count)
             || recoveryPolicies[id].policy != policy || !recoveryPolicies[id].active
             || policySequence != recoveryPolicies[id].policySequence + 1 || sequence <= latest {
            return Err(StaleEvent);
          }
          recoveryPolicies := recoveryPolicies[id := recoveryPolicies[id].(root := root,
                                                                           policySequence := policySequence,
                                sequence := sequence, rotationCount := count, active := false, updated := StampOf(e))];
        case RecoveryApproved(_, _, request, _, _, _, _, _) =>
          if !MayApprove(RecoveryPart(), IdentityPart(), e.body) {
            return Err(StaleEvent);
          }
          recoveryRequests := recoveryRequests[request := Approve(recoveryRequests[request], e)];
        case RecoveryCancelled(id, policy, request, root, target, policySequence, sequence, count) =>
          if request !in recoveryRequests || !RootEpochMatches(IdentityPart(), id, root, count)
             || recoveryRequests[request].identity != id || recoveryRequests[request].policy != policy
             || recoveryRequests[request].policySequence != policySequence || recoveryRequests[request].target != target
             || recoveryRequests[request].status != Pending || sequence <= latest {
            return Err(StaleEvent);
          }
          recoveryRequests := recoveryRequests[request := recoveryRequests[request].(status := Cancelled,
                                updated := StampOf(e), terminalSequence := Some(sequence), closedBy := Some(root))];
      }
      r := Ok(());
    }

    method RequestRecovery(e: Event) returns (r: Outcome<()>)
      requires e.body.RecoveryRequested? && e.body.identity in identities
      modifies this`recoveryRequests
      ensures r == if MayRequest(old(RecoveryPart()), old(IdentityPart()), pda, e) then Ok(()) else Err(StaleEvent)
      ensures recoveryRequests
           == if r.Ok? then
                old(recoveryRequests)[e.body.request := NewRequest(old(recoveryPolicies)[e.body.identity], e)]
              else old(recoveryRequests)
    {
      hide RootEpochMatches, Bit, IndexOf, AboveRecoveryHistory;
      var b := e.body;
      var latest := LatestRecoverySequence(b.identity);
      assert RecoveryPart() == old(RecoveryPart());
      if b.identity !in recoveryPolicies {
        return Err(StaleEvent);
      }
      var policy := recoveryPolicies[b.identity];
      if !RootEpochMatches(IdentityPart(), b.identity, b.root, b.rotationCount)
         || policy.policy != b.policy || !policy.active || policy.policySequence != b.policySequence
         || policy.threshold != b.threshold || |policy.guardians| != b.guardianCount
         || b.executeAfterSlot != e.pos.slot + policy.delaySlots || b.sequence + 1 <= latest
         || b.root in policy.guardians || IndexOf(policy.guardians, b.guardian) < 0
         || b.request != pda.recoveryRequest(identities[b.identity].address, b.nonce)
         || b.request in recoveryRequests {
        return Err(StaleEvent);
      }
      recoveryRequests := recoveryRequests[b.request := NewRequest(policy, e)];
      r := Ok(());
    }

    method ExecuteRecovery(e: Event) returns (r: Outcome<()>)
      requires e.body.RecoveryExecuted? && e.body.identity in identities
      modifies this`recoveryRequests
      ensures r == if MayExecute(old(RecoveryPart()), old(IdentityPart()), e) then Ok(()) else Err(StaleEvent)
      ensures r.Ok? ==> e.body.request in old(recoveryRequests)
      ensures recoveryRequests == if r.Ok? then
                old(recoveryRequests)[e.body.request := old(recoveryRequests)[e.body.request].(status := Executed,
                  updated := StampOf(e), terminalSequence := Some(e.body.sequence), closedBy := Some(e.body.executor))]
              else old(recoveryRequests)
    {
      hide RootEpochMatches, RotationIsLatest, AboveRecoveryHistory;
      var b := e.body;
      var latest := LatestRecoverySequence(b.identity);
      assert RecoveryPart() == old(RecoveryPart());
      if b.identity !in recoveryPolicies || b.request !in recoveryRequests {
        return Err(StaleEvent);
      }
      var policy, request := recoveryPolicies[b.identity], recoveryRequests[b.request];
      if !RootEpochMatches(IdentityPart(), b.identity, b.newRoot, b.rotationCount)
         || policy.policy != b.policy || !policy.active || policy.policySequence != b.policySequence
         || request.identity != b.identity || request.policy != b.policy || request.policySequence != b.policySequence
         || request.root != b.previousRoot || request.target != b.newRoot || request.status != Pending
         || request.threshold != b.threshold || request.approvalCount != b.approvalCount
             || b.approvalCount < b.threshold
         || b.sequence != request.sequence + 1 || b.sequence <= latest || b.rotationCount != request.rotationCount + 1
         || e.pos.slot < request.executeAfterSlot || !RotationIsLatest(IdentityPart(), e) {
        return Err(StaleEvent);
      }
      recoveryRequests := recoveryRequests[b.request := request.(status := Executed, updated := StampOf(e),
                                             terminalSequence := Some(b.sequence), closedBy := Some(b.executor))];
      r := Ok(());
    }

    method ProjectCommunityMembershipTransition(e: Event, manifest: Option<Manifest>) returns (r: Outcome<()>)
      requires e.body.MembershipChanged?
      modifies this`communities, this`memberships
      ensures r == Done(MembershipEffect(old(CommunityPart()), old(IdentityPart()), pda, e, manifest))
      ensures CommunityPart()
           == if r.Ok? then MembershipEffect(old(CommunityPart()), old(IdentityPart()), pda, e, manifest).value
              else old(CommunityPart())
    {
      hide ContinuesPolicy, ContinuesMembership, AddressIsFree, IdentifiesTransition, ContinuesChain, CommunityAfter,
        NewMembership, SignerMatches;
      var b := e.body;
      if b.member !in identities || b.identity !in identities || b.community !in communities {
        return Err(MissingIdentity);
      }
      var community := communities[b.community];
      if !ContinuesPolicy(community.core, b)
          || b.membership != pda.membership(b.community, identities[b.member].address) {
        return Err(StaleEvent);
      }
      var key := (b.community, b.member);
      var current := if key in memberships then Some(memberships[key].core) else None;
      var taken := AddressIsTaken(b);
      var proof: Option<MembershipProof> := None;
      if manifest.Some? {
        var verified := RequireManifest(e, manifest, MembershipManifest);
        if verified.Err? {
          return Err(verified.error);
        }
        if !IdentifiesTransition(b, verified.value)
            || !ContinuesChain(HashOf(current), b.stateSequence, verified.value) {
          return Err(StaleEvent);
        }
        proof := Some(MembershipProofOf(verified.value));
      }
      if taken || !ContinuesMembership(community.core, current, b) {
        return Err(StaleEvent);
      }
      memberships := memberships[key := Membership(NewMembership(e), proof)];
      communities := communities[b.community := community.(core := CommunityAfter(community.core, e))];
      r := Ok(());
    }

    method ApplyCommunityEvent(e: Event, t: Treatment) returns (r: Outcome<()>)
      requires FamilyOf(e.body) == OfCommunity
      modifies this`communities, this`memberships
      ensures r == Done(CommunityEffect(old(CommunityPart()), old(IdentityPart()), pda, e, t))
      ensures CommunityPart()
           == if r.Ok? then CommunityEffect(old(CommunityPart()), old(IdentityPart()), pda, e, t).value
              else old(CommunityPart())
    {
      hide MembershipEffect, SignerMatches;
      if e.body.identity !in identities {
        return Err(MissingIdentity);
      }
      match e.body {
        case CommunityCreated(_, address, _, _, _, _, _, _, _, _, _, _) =>
          if address in communities {
            return Err(StaleEvent);
          }
          var proof: Option<CommunityProof> := None;
          if t.Accept? {
            var verified := RequireManifest(e, t.manifest, CommunityManifest);
            if verified.Err? {
              return Err(verified.error);
            }
            proof := Some(CommunityProofOf(verified.value));
          }
          communities := communities[address := Community(NewCommunity(e), proof)];
        case GovernanceUpdated(_, address, authority, sequence, _, version, _, strategy) =>
          if !MayUpdateGovernance(CommunityPart(), e.body) {
            return Err(StaleEvent);
          }
          communities := communities[address := communities[address].(core := communities[address].core.(
                            latestAuthority := authority, creatorSequence := sequence, governanceVersion := version,
                            strategyHash := strategy, updated := StampOf(e)))];
        case MembershipChanged(_, _, _, _, _, _, _, _, _, _, _, _, _, _, _, _) =>
          r := ProjectCommunityMembershipTransition(e, if t.Accept? then t.manifest else None);
          return;
      }
      r := Ok(());
    }

    method ApplyGovernanceEvent(e: Event) returns (r: Outcome<()>)
      requires FamilyOf(e.body) == OfGovernance
      modifies this`proposals, this`proposalByManifest, this`votes, this`voteByVoter, this`lastVoterSequence,
               this`communities
      ensures r == Done(GovernanceEffect(old(GovernancePart()), old(CommunityPart()), old(IdentityPart()), pda, e))
      ensures (GovernancePart(), CommunityPart())
           == if r.Ok? then
                GovernanceEffect(old(GovernancePart()), old(CommunityPart()), old(IdentityPart()), pda, e).value
              else (old(GovernancePart()), old(CommunityPart()))
    {
      hide EligibleMembers, QuorumMet, ApprovalMet, Tally, CountsAsMember, MembershipCounts;
      match e.body {
        case ProposalCreated(id, address, proposal, authority, sequence, previous, manifestHash, version, strategy,
                             eligible, membershipSequence, _, _, _, _, _) =>
          if id !in identities || address !in communities {
            return Err(MissingIdentity);
          }
          var community := communities[address].core;
          var count := CountEligibleMembers(address);
          if community.creator != id || previous != community.creatorSequence || sequence <= community.creatorSequence
             || membershipSequence != community.membershipSequence || version != community.governanceVersion
             || strategy != community.strategyHash || proposal != pda.proposal(address, manifestHash)
             || proposal in proposals || (address, manifestHash) in proposalByManifest || eligible != count {
            return Err(StaleEvent);
          }
          proposals := proposals[proposal := NewProposal(e)];
          proposalByManifest := proposalByManifest[(address, manifestHash) := proposal];
          communities := communities[address := communities[address].(core := community.(latestAuthority := authority,
                                       creatorSequence := sequence, updated := StampOf(e)))];
        case VoteCast(id, _, proposal, vote, membership, _, sequence, memberState, stateSequence, choice, yes, no,
                      abstain) =>
          if id !in identities {
            return Err(MissingIdentity);
          }
          if !MayVote(GovernancePart(), CommunityPart(), IdentityPart(), pda, e) {
            return Err(StaleEvent);
          }
          votes := votes[vote := Vote(proposal, id, membership, sequence, memberState, stateSequence, choice,
                                      StampOf(e))];
          voteByVoter := voteByVoter[(proposal, id) := vote];
          lastVoterSequence := lastVoterSequence[id := sequence];
          proposals := proposals[proposal := proposals[proposal].(yes := yes, no := no, abstain := abstain,
                                   stateSequence := stateSequence)];
        case ProposalFinalized(_, proposal, _, stateSequence, _, _, _, _, _, _, _, _, _, _, accepted) =>
          if !MayFinalize(GovernancePart(), e) {
            return Err(StaleEvent);
          }
          proposals := proposals[proposal := proposals[proposal].(stateSequence := stateSequence,
                                   outcome := if accepted then Accepted else Rejected, finalized := Some(StampOf(e)))];
      }
      r := Ok(());
    }

    // ----- Taking in a new event -----

    /** Applies an event to the maps of its family. */
    method ApplyEffect(e: Event, t: Treatment) returns (r: Outcome<()>)
      modifies this
      ensures r == Done(Effect(pda, old(Model()), e, t))
      ensures Model() == if r.Ok? then Effect(pda, old(Model()), e, t).value else old(Model())
    {
      hide IdentityEffect, HandleEffect, RecoveryEffect, ContentEffect, SocialEffect, CommunityEffect, GovernanceEffect,
        FamilyOf, Model, IdentityPart, HandlePart, RecoveryPart, ContentPart, SocialPart, CommunityPart, GovernancePart;
      var family := FamilyOf(e.body);
      if family == OfIdentity || family == OfHandle || family == OfRecovery {
        r := ApplyKeyEffect(e, t);
      } else if family == OfContent || family == OfSocial {
        r := ApplyPublicEffect(e, t);
      } else if family == OfCommunity {
        r := ApplyCommunityEvent(e, t);
      } else {
        r := ApplyGovernanceEvent(e);
      }
    }

    method ApplyKeyEffect(e: Event, t: Treatment) returns (r: Outcome<()>)
      requires FamilyOf(e.body) == OfIdentity || FamilyOf(e.body) == OfHandle || FamilyOf(e.body) == OfRecovery
      modifies this
      ensures r == Done(Effect(pda, old(Model()), e, t))
      ensures Model() == if r.Ok? then Effect(pda, old(Model()), e, t).value else old(Model())
    {
      hide IdentityEffect, HandleEffect, RecoveryEffect, ContentEffect, SocialEffect, CommunityEffect, GovernanceEffect,
        FamilyOf, Model, IdentityPart, HandlePart, RecoveryPart, ContentPart, SocialPart, CommunityPart, GovernancePart;
      match FamilyOf(e.body) {
        case OfIdentity => r := ApplyIdentityEvent(e);
        case OfHandle => r := ApplyHandleEvent(e);
        case OfRecovery => r := ApplyRecoveryEvent(e);
      }
    }

    method ApplyPublicEffect(e: Event, t: Treatment) returns (r: Outcome<()>)
      requires FamilyOf(e.body) == OfContent || FamilyOf(e.body) == OfSocial
      modifies this
      ensures r == Done(Effect(pda, old(Model()), e, t))
      ensures Model() == if r.Ok? then Effect(pda, old(Model()), e, t).value else old(Model())
    {
      hide IdentityEffect, HandleEffect, RecoveryEffect, ContentEffect, SocialEffect, CommunityEffect, GovernanceEffect,
        FamilyOf, Model, IdentityPart, HandlePart, RecoveryPart, ContentPart, SocialPart, CommunityPart, GovernancePart;
      match FamilyOf(e.body) {
        case OfContent => r := ApplyContentEvent(e, t);
        case OfSocial => r := ApplySocialEvent(e);
      }
    }

    /** Moves the identity of an accepted event to the sequence and the position of the event. */
    method AdvanceIdentity(e: Event)
      modifies this`identities, this`sequencePositions
      ensures IdentityPart() == Advance(old(IdentityPart()), e)
    {
      if AdvancesSequence(e.body) && !e.body.IdentityDeactivated? && e.body.identity in identities {
        var id := e.body.identity;
        identities := identities[id := identities[id].(sequence := e.body.sequence, updated := StampOf(e))];
        sequencePositions := sequencePositions[id := e.pos];
      }
    }

    method RecordEvent(e: Event, t: Treatment)
      modifies this`events, this`pendingEvents, this`terminalFailures
      ensures LedgerPart() == Record(old(LedgerPart()), e, t)
    {
      events := events + [e];
      if t.Defer? {
        pendingEvents := pendingEvents + {CoordinateOf(e.pos)};
      }
      if t.Quarantine? {
        terminalFailures := terminalFailures[CoordinateOf(e.pos) := t.code];
      }
    }

    method CloseEvent(e: Event, t: Treatment)
      modifies this`identities, this`sequencePositions, this`events, this`pendingEvents, this`terminalFailures
      ensures Model() == old(Model()).(identities := Advance(old(Model()).identities, e),
                                       ledger := Record(old(Model()).ledger, e, t))
    {
      hide Advance, Record,
        Model, IdentityPart, HandlePart, RecoveryPart, ContentPart, SocialPart, CommunityPart, GovernancePart,
          LedgerPart;
      AdvanceIdentity(e);
      RecordEvent(e, t);
    }

    method IngestEvent(e: Event, t: Treatment) returns (r: Outcome<()>)
      requires TreatmentFault(e.body, t).None? && Lookup(events, CoordinateOf(e.pos)).None?
      modifies this
      ensures r == Done(Ingest(pda, old(Model()), e, t))
      ensures Model() == if r.Ok? then Ingest(pda, old(Model()), e, t).value else old(Model())
    {
      hide Effect, ValidateLifecycle, Advance, Record,
        Model, IdentityPart, HandlePart, RecoveryPart, ContentPart, SocialPart, CommunityPart, GovernancePart;
      r := ValidateIdentityLifecycle(e);
      if r.Err? {
        return;
      }
      r := ApplyEffect(e, t);
      if r.Err? {
        return;
      }
      EffectKeepsLedger(pda, old(Model()), e, t);
      CloseEvent(e, t);
    }

    // ----- The operations of the store -----

    method ApplyUnlocked(e: Event, manifest: Option<Manifest>) returns (r: Outcome<bool>)
      modifies this
      ensures Performs(Apply(pda, old(Model()), e, manifest), r, old(Model()), Model())
    {
      hide Ingest;
      var c := CoordinateOf(e.pos);
      var recorded := Lookup(events, c);
      if recorded.Some? {
        if recorded.value != e || c in pendingEvents || c in terminalFailures {
          return Err(EventConflict);
        }
        return Ok(false);
      }
      var ingested := IngestEvent(e, Accept(manifest));
      r := if ingested.Ok? then Ok(true) else Err(ingested.error);
    }

    method DeferManifestEvent(e: Event) returns (r: Outcome<bool>)
      modifies this
      ensures Performs(DeferEvent(pda, old(Model()), e), r, old(Model()), Model())
    {
      hide Ingest;
      if !MayDefer(e.body) {
        return Err(ManifestMismatch);
      }
      var c := CoordinateOf(e.pos);
      var recorded := Lookup(events, c);
      if recorded.Some? {
        if recorded.value == e && c in pendingEvents && c !in terminalFailures {
          return Ok(false);
        }
        return Err(EventConflict);
      }
      var ingested := IngestEvent(e, Defer);
      r := if ingested.Ok? then Ok(true) else Err(ingested.error);
    }

    method QuarantineManifestEvent(e: Event, code: string) returns (r: Outcome<bool>)
      modifies this
      ensures Performs(QuarantineEvent(pda, old(Model()), e, code), r, old(Model()), Model())
    {
      hide Ingest;
      if !(MayDefer(e.body) || e.body.Tombstoned?) {
        return Err(ManifestMismatch);
      }
      var c := CoordinateOf(e.pos);
      var recorded := Lookup(events, c);
      if recorded.Some? {
        if recorded.value == e && c in terminalFailures && terminalFailures[c] == code {
          return Ok(false);
        }
        return Err(EventConflict);
      }
      var ingested := IngestEvent(e, Quarantine(code));
      r := if ingested.Ok? then Ok(true) else Err(ingested.error);
    }

    /** Takes in an accepted event whose manifest no longer matters. */
    method ApplySuppressed(e: Event) returns (r: Outcome<()>)
      modifies this
      ensures r == Done(Ingest(pda, old(Model()), e, Suppress))
      ensures Model() == if r.Ok? then Ingest(pda, old(Model()), e, Suppress).value else old(Model())
    {
      hide Effect, ValidateLifecycle, Advance;
      if !(e.body.ProfileUpdated? || e.body.PostPublished?) {
        return Err(EventConflict);
      }
      if Lookup(events, CoordinateOf(e.pos)).Some? {
        return Err(EventConflict);
      }
      hide Ingest;
      r := IngestEvent(e, Suppress);
    }

    method RejectPendingManifestEvent(e: Event, code: string) returns (r: Outcome<bool>)
      modifies this`pendingEvents, this`terminalFailures
      ensures Performs(Reject(old(Model()), e, code), r, old(Model()), Model())
    {
      hide Model, IdentityPart, HandlePart, RecoveryPart, ContentPart, SocialPart, CommunityPart, GovernancePart,
        Lookup, MayDefer, CoordinateOf;
      var c := CoordinateOf(e.pos);
      if !MayDefer(e.body) {
        return Err(ManifestMismatch);
      }
      var recorded := Lookup(events, c);
      if recorded.None? {
        return Err(StaleEvent);
      }
      if recorded.value != e {
        return Err(EventConflict);
      }
      if c in terminalFailures {
        if terminalFailures[c] != code {
          return Err(EventConflict);
        }
        return Ok(false);
      }
      if c !in pendingEvents {
        return Err(EventConflict);
      }
      pendingEvents := pendingEvents - {c};
      terminalFailures := terminalFailures[c := code];
      r := Ok(true);
    }

    method PromoteContentManifest(e: Event, m: Manifest)
      requires e.body.ProfileUpdated? || e.body.PostPublished?
      modifies this`profiles, this`posts
      ensures ContentPart() == PromoteContent(old(ContentPart()), events, e, m)
    {
      hide LaterTombstone;
      if e.body.ProfileUpdated? {
        var id := e.body.identity;
        if id in latestProfileEvents && latestProfileEvents[id] == CoordinateOf(e.pos) {
          profiles := profiles[id := NewProfile(e, m)];
        }
      } else {
        var tombstone := LaterTombstoneAt(e);
        posts := posts[m.objectId := NewPost(e, m, if tombstone.Some? then Some(tombstone.value.blockTime) else None)];
      }
    }

    method PromoteCommunityManifest(e: Event, m: Manifest)
      requires e.body.CommunityCreated? || e.body.MembershipChanged?
      modifies this`communities, this`memberships
      ensures CommunityPart() == PromoteCommunities(old(CommunityPart()), e, m)
    {
      if e.body.CommunityCreated? {
        var address := e.body.community;
        if address in communities {
          communities := communities[address := communities[address].(proof := Some(CommunityProofOf(m)))];
        }
      } else if IsCurrentTransition(CommunityPart(), e.body) {
        var key := (e.body.community, e.body.member);
        memberships := memberships[key := memberships[key].(proof := Some(MembershipProofOf(m)))];
      }
    }

    method ResolvePending(c: Coordinate)
      modifies this`pendingEvents
      ensures LedgerPart() == old(LedgerPart()).(pending := old(pendingEvents) - {c})
    {
      pendingEvents := pendingEvents - {c};
    }

    method PromoteManifestEvent(e: Event, m: Manifest) returns (r: Outcome<bool>)
      modifies this`profiles, this`posts, this`communities, this`memberships, this`pendingEvents
      ensures Performs(Promote(old(Model()), e, m), r, old(Model()), Model())
    {
      hide PreviousHash, ContinuesChain, RequireManifest, PromoteContent, PromoteCommunities, FamilyOf;
      var c := CoordinateOf(e.pos);
      if !MayDefer(e.body) {
        return Err(ManifestMismatch);
      }
      var recorded := Lookup(events, c);
      if recorded.None? {
        return Err(StaleEvent);
      }
      if recorded.value != e || c in terminalFailures {
        return Err(EventConflict);
      }
      if c !in pendingEvents {
        return Ok(false);
      }
      var verified := RequireManifest(e, Some(m), KindFor(e.body));
      if verified.Err? {
        return Err(verified.error);
      }
      VerifiedIsGiven(e, m);
      if e.body.ProfileUpdated? && e.body.identity !in identities {
        return Err(MissingIdentity);
      }
      if e.body.CommunityCreated? && e.body.community !in communities {
        return Err(StaleEvent);
      }
      if e.body.MembershipChanged? {
        var previous := PreviousTransitionHash(e.body);
        if !ContinuesChain(previous, e.body.stateSequence, m) {
          return Err(StaleEvent);
        }
      }
      PromoteVerified(e, m);
      r := Ok(true);
    }

    method PromoteVerified(e: Event, m: Manifest)
      requires MayDefer(e.body)
      modifies this`profiles, this`posts, this`communities, this`memberships, this`pendingEvents
      ensures Model() == Promoted(old(Model()), e, m)
    {
      hide PromoteContent, PromoteCommunities,
        Model, IdentityPart, HandlePart, RecoveryPart, ContentPart, SocialPart, CommunityPart, GovernancePart;
      OtherPartsStay(old(Model()), e, m);
      if e.body.ProfileUpdated? || e.body.PostPublished? {
        PromoteContentManifest(e, m);
      } else {
        PromoteCommunityManifest(e, m);
      }
      ResolvePending(CoordinateOf(e.pos));
    }

    /** One operation of a run. */
    method PerformOp(op: Op) returns (r: Outcome<bool>)
      modifies this
      ensures Performs(Perform(pda, old(Model()), op), r, old(Model()), Model())
    {
      hide Apply, DeferEvent, Promote, Reject, QuarantineEvent;
      match op {
        case ApplyOp(e, manifest) => r := ApplyUnlocked(e, manifest);
        case DeferOp(e) => r := DeferManifestEvent(e);
        case PromoteOp(e, m) => r := PromoteManifestEvent(e, m);
        case RejectOp(e, code) => r := RejectPendingManifestEvent(e, code);
        case QuarantineOp(e, code) => r := QuarantineManifestEvent(e, code);
      }
    }

    // ----- Rebuilding from the raw log -----

    /** The items by coordinate, unless two of them share one. */
    method CollectSupplied(items: seq<Item>) returns (r: Outcome<map<Coordinate, Item>>)
      ensures r.Ok? <==> DistinctItems(items)
      ensures r.Ok? ==> Indexes(r.value, items)
    {
      hide CoordinateOf;
      var supplied: map<Coordinate, Item> := map[];
      for i := 0 to |items|
        invariant Indexes(supplied, items[..i]) && DistinctItems(items[..i])
      {
        var c := ItemCoordinate(items[i]);
        IndexNext(supplied, items, i);
        if c in supplied {
          return Err(if supplied[c].event != items[i].event then EventConflict else StaleEvent);
        }
        supplied := supplied[c := items[i]];
      }
      assert items[..|items|] == items;
      r := Ok(supplied);
    }

    method SuppressionsAreCanonical(items: seq<Item>, reasons: map<Coordinate, Justification>) returns (canonical: bool)
      requires DistinctItems(items)
      ensures canonical <==> CanonicalSuppressions(Sort(EventsOf(items), EventPosition), SuppressedKeys(items), reasons)
    {
      hide CoordinateOf, ScannedFrom, CanonicalSuppressions, IsCanonicalAt, Sort;
      var keys := SuppressedKeys(items);
      if keys == {} {
        NothingToJustify(Sort(EventsOf(items), EventPosition), reasons);
        return true;
      }
      var ordered := Sort(EventsOf(items), EventPosition);
      DistinctSorted(EventsOf(items));
      var expected := DeriveAcceptedManifestSuppressions(ordered, keys);
      AllCanonical(ordered, keys, reasons);
      for k := 0 to |ordered|
        invariant forall i :: 0 <= i < k ==> IsCanonicalAt(ordered, i, keys, reasons)
      {
        var c := CoordinateOf(ordered[k].pos);
        DecidedByScan(ordered, keys, expected, k, reasons);
        if c in keys && (c !in reasons || c !in expected || expected[c] != reasons[c]) {
          return false;
        }
      }
      canonical := true;
    }

    /** Whether the items are exactly the recorded events, as they are classified now. */
    method MatchesLedger(items: seq<Item>, supplied: map<Coordinate, Item>) returns (r: Outcome<()>)
      requires Indexes(supplied, items)
      ensures r.Ok? <==> RepeatsLedger(LedgerPart(), items)
    {
      hide CoordinateOf, TerminalCode;
      if |events| != |supplied| {
        return Err(StaleEvent);
      }
      for i := 0 to |events|
        invariant forall j :: 0 <= j < i ==> IsRepeated(LedgerPart(), events[j], items)
      {
        var c := CoordinateOf(events[i].pos);
        if c !in supplied {
          return Err(StaleEvent);
        }
        if !Repeats(LedgerPart(), events[i], supplied[c]) {
          return Err(EventConflict);
        }
      }
      r := Ok(());
    }

    /** Replays one item into a store that does not hold its event yet. */
    method ReplayItem(item: Item) returns (r: Outcome<()>)
      requires Lookup(events, ItemCoordinate(item)).None?
      modifies this
      ensures r == Done(Ingest(pda, old(Model()), item.event, item.treatment))
      ensures Model() == if r.Ok? then Ingest(pda, old(Model()), item.event, item.treatment).value else old(Model())
    {
      hide Ingest, IdentityPart, HandlePart, RecoveryPart, ContentPart, SocialPart, CommunityPart, GovernancePart;
      match item.treatment {
        case Defer =>
          IngestFaults(pda, Model(), item.event, Defer);
          var applied := DeferManifestEvent(item.event);
          r := if applied.Ok? then Ok(()) else Err(applied.error);
        case Suppress =>
          r := ApplySuppressed(item.event);
        case Accept(manifest) =>
          var applied := ApplyUnlocked(item.event, manifest);
          r := if applied.Ok? then Ok(()) else Err(applied.error);
        case Quarantine(code) =>
          IngestFaults(pda, Model(), item.event, Quarantine(code));
          var applied := QuarantineManifestEvent(item.event, code);
          r := if applied.Ok? then Ok(()) else Err(applied.error);
      }
    }

    /** Replaces every projected map, and keeps the raw log with what is known about its manifests. */
    method ReplaceNetworkState(replacement: MemoryProjectionStore)
      requires replacement != this
      modifies this
      ensures Model() == replacement.Model().(ledger := old(LedgerPart()))
    {
      hide Model, IdentityPart, HandlePart, RecoveryPart, ContentPart, SocialPart, CommunityPart, GovernancePart,
        LedgerPart;
      ReplaceKeys(replacement);
      ReplaceContent(replacement);
      ReplaceCommunities(replacement);
    }

    method ReplaceKeys(replacement: MemoryProjectionStore)
      requires replacement != this
      modifies this`config, this`identities, this`sequencePositions, this`deactivationPositions, this`rootHistory,
               this`delegations, this`handlesByAddress, this`handleAddressesByName, this`recoveryPolicies,
               this`recoveryRequests
      ensures IdentityPart() == replacement.IdentityPart() && HandlePart() == replacement.HandlePart()
      ensures RecoveryPart() == replacement.RecoveryPart()
    {
      config := replacement.config;
      identities := replacement.identities;
      sequencePositions := replacement.sequencePositions;
      deactivationPositions := replacement.deactivationPositions;
      rootHistory := replacement.rootHistory;
      handlesByAddress := replacement.handlesByAddress;
      handleAddressesByName := replacement.handleAddressesByName;
      delegations := replacement.delegations;
      recoveryPolicies := replacement.recoveryPolicies;
      recoveryRequests := replacement.recoveryRequests;
    }

    method ReplaceContent(replacement: MemoryProjectionStore)
      requires replacement != this
      modifies this`profiles, this`latestProfileEvents, this`posts, this`postReferences, this`follows, this`blocks,
               this`reactions
      ensures ContentPart() == replacement.ContentPart() && SocialPart() == replacement.SocialPart()
    {
      profiles := replacement.profiles;
      latestProfileEvents := replacement.latestProfileEvents;
      posts := replacement.posts;
      postReferences := replacement.postReferences;
      follows := replacement.follows;
      blocks := replacement.blocks;
      reactions := replacement.reactions;
    }

    method ReplaceCommunities(replacement: MemoryProjectionStore)
      requires replacement != this
      modifies this`communities, this`memberships, this`proposals, this`proposalByManifest, this`votes,
               this`voteByVoter, this`lastVoterSequence
      ensures CommunityPart() == replacement.CommunityPart() && GovernancePart() == replacement.GovernancePart()
    {
      communities := replacement.communities;
      memberships := replacement.memberships;
      proposals := replacement.proposals;
      proposalByManifest := replacement.proposalByManifest;
      votes := replacement.votes;
      voteByVoter := replacement.voteByVoter;
      lastVoterSequence := replacement.lastVoterSequence;
    }

    /** The checks that come before a replay. */
    method CheckSource(items: seq<Item>, reasons: map<Coordinate, Justification>) returns (r: Result<(), RebuildFault>)
      ensures r.Ok? <==> MayRebuild(LedgerPart(), items, reasons)
    {
      hide DistinctItems, RepeatsLedger, CanonicalSuppressions, Unambiguous, Indexes, LedgerPart;
      var supplied := CollectSupplied(items);
      if supplied.Err? {
        return Err(Faulty(supplied.error));
      }
      var canonical := SuppressionsAreCanonical(items, reasons);
      if !canonical {
        return Err(Faulty(EventConflict));
      }
      var matched := MatchesLedger(items, supplied.value);
      if matched.Err? {
        return Err(Faulty(matched.error));
      }
      var unambiguous := AssertUnambiguousEventOrder(PositionsOfItems(items));
      r := if unambiguous then Ok(()) else Err(Ambiguous);
    }

    /**
     Replays the supplied items, in event order, into an empty store, and takes over its maps. It succeeds exactly when
     the items are the recorded events with their present classification and the replay succeeds; if it does not
     succeed, nothing changes.
     */
    method RebuildProjection(items: seq<Item>, reasons: map<Coordinate, Justification>)
      returns (r: Result<(), RebuildFault>)
      modifies this
      ensures r.Ok? <==> MayRebuild(old(LedgerPart()), items, reasons) && Replay(pda, Sort(items, ItemPosition)).Ok?
      ensures Model()
           == if r.Ok? then Replay(pda, Sort(items, ItemPosition)).value.(ledger := old(LedgerPart()))
              else old(Model())
    {
      hide Ingest, Replay, RepeatsLedger, CanonicalSuppressions,
        Model, IdentityPart, HandlePart, RecoveryPart, ContentPart, SocialPart, CommunityPart, GovernancePart,
          LedgerPart;
      r := CheckSource(items, reasons);
      if r.Err? {
        return;
      }
      var replacement, replayed := ReplayAll(items);
      if replayed.Err? {
        return Err(Faulty(replayed.error));
      }
      ReplaceNetworkState(replacement);
      r := Ok(());
    }

    method ReplayAll(items: seq<Item>) returns (replacement: MemoryProjectionStore, r: Outcome<()>)
      requires DistinctItems(items)
      ensures fresh(replacement)
      ensures r.Ok? <==> Replay(pda, Sort(items, ItemPosition)).Ok?
      ensures r.Ok? ==> replacement.Model() == Replay(pda, Sort(items, ItemPosition)).value
    {
      hide Ingest, IdentityPart, HandlePart, RecoveryPart, ContentPart, SocialPart, CommunityPart, GovernancePart,
        Sort;
      var sorted := Sort(items, ItemPosition);
      DistinctSortedItems(items);
      replacement := new MemoryProjectionStore(pda);
      for i := 0 to |sorted|
        invariant fresh(replacement) && replacement.pda == pda
        invariant Replay(pda, sorted[..i]) == Ok(replacement.Model())
      {
        assert sorted[..i + 1][..i] == sorted[..i];
        NotReplayedYet(pda, sorted, i);
        r := replacement.ReplayItem(sorted[i]);
        if r.Err? {
          FailsForGood(pda, sorted, i + 1);
          return;
        }
      }
      assert sorted[..|sorted|] == sorted;
      r := Ok(());
    }
  }

  /** The result of an operation, and the state it leaves, are those that its meaning gives. */
  predicate Performs(outcome: Outcome<Step>, r: Outcome<bool>, before: State, after: State) {
    && r == (if outcome.Ok? then Ok(outcome.value.applied) else Err(outcome.error))
    && after == if outcome.Ok? then outcome.value.state else before
  }

  lemma AllCanonical(ordered: seq<Event>, keys: set<Coordinate>, reasons: map<Coordinate, Justification>)
    ensures (forall i :: 0 <= i < |ordered| ==> IsCanonicalAt(ordered, i, keys, reasons))
            <==> CanonicalSuppressions(ordered, keys, reasons)
  {
  }

  lemma NothingToJustify(ordered: seq<Event>, reasons: map<Coordinate, Justification>)
    ensures CanonicalSuppressions(ordered, {}, reasons)
  {
  }

  /** Comparing with the scan decides whether one suppression is canonical, and one that is not spoils them all. */
  lemma DecidedByScan(ordered: seq<Event>, keys: set<Coordinate>, expected: map<Coordinate, Justification>, k: int,
                      reasons: map<Coordinate, Justification>)
    requires DistinctEvents(ordered) && ScannedFrom(ordered, keys, 0, expected) && 0 <= k < |ordered|
    ensures var c := CoordinateOf(ordered[k].pos);
            IsCanonicalAt(ordered, k, keys, reasons)
            <==> !(c in keys && (c !in reasons || c !in expected || expected[c] != reasons[c]))
    ensures !IsCanonicalAt(ordered, k, keys, reasons) ==> !CanonicalSuppressions(ordered, keys, reasons)
  {
    hide CoordinateOf, ScannedFrom, Justifies, DistinctEvents;
    var c := CoordinateOf(ordered[k].pos);
    if c in keys && c in reasons {
      DerivedIsCanonical(ordered, keys, expected, k, reasons[c]);
    }
  }

  lemma VerifiedIsGiven(e: Event, m: Manifest)
    ensures var verified := RequireManifest(e, Some(m), KindFor(e.body));
            verified.Ok? ==> verified.value == m
  {
  }

  /** A content manifest changes no community, and a community manifest no content. */
  lemma OtherPartsStay(s: State, e: Event, m: Manifest)
    ensures e.body.ProfileUpdated? || e.body.PostPublished? ==> PromoteCommunities(s.communities, e, m) == s.communities
    ensures e.body.CommunityCreated? || e.body.MembershipChanged? ==>
              forall log :: PromoteContent(s.content, log, e, m) == s.content
  {
  }

  lemma IngestFaults(pda: Derivations, s: State, e: Event, t: Treatment)
    ensures TreatmentFault(e.body, t).Some? ==> Ingest(pda, s, e, t) == Err(TreatmentFault(e.body, t).value)
  {
  }

  /** The map holds the items by their coordinates, and nothing else. */
  ghost predicate Indexes(supplied: map<Coordinate, Item>, items: seq<Item>) {
    && (forall i :: 0 <= i < |items| ==>
        ItemCoordinate(items[i]) in supplied && supplied[ItemCoordinate(items[i])] == items[i])
    && (forall c :: c in supplied ==>
        exists i :: 0 <= i < |items| && items[i] == supplied[c] && ItemCoordinate(items[i]) == c)
    && |supplied| == |items|
  }

  lemma IndexNext(supplied: map<Coordinate, Item>, items: seq<Item>, i: nat)
    requires i < |items| && Indexes(supplied, items[..i]) && DistinctItems(items[..i])
    ensures ItemCoordinate(items[i]) in supplied ==> !DistinctItems(items)
    ensures ItemCoordinate(items[i]) !in supplied ==>
              DistinctItems(items[..i + 1]) && Indexes(supplied[ItemCoordinate(items[i]) := items[i]], items[..i + 1])
  {
    hide CoordinateOf;
    var c := ItemCoordinate(items[i]);
    assert items[..i + 1] == items[..i] + [items[i]];
    if c in supplied {
      var k :| 0 <= k < i && items[..i][k] == supplied[c] && ItemCoordinate(items[..i][k]) == c;
      assert ItemCoordinate(items[k]) == ItemCoordinate(items[i]);
    } else {
      IndexGrows(supplied, items[..i], items[i]);
    }
  }

  lemma IndexGrows(supplied: map<Coordinate, Item>, items: seq<Item>, item: Item)
    requires Indexes(supplied, items) && ItemCoordinate(item) !in supplied && DistinctItems(items)
    ensures Indexes(supplied[ItemCoordinate(item) := item], items + [item]) && DistinctItems(items + [item])
  {
    hide CoordinateOf;
    var next, items' := supplied[ItemCoordinate(item) := item], items + [item];
    assert items'[|items|] == item;
    forall c | c in next
      ensures exists i :: 0 <= i < |items'| && items'[i] == next[c] && ItemCoordinate(items'[i]) == c {
      if c in supplied {
        var i :| 0 <= i < |items| && items[i] == supplied[c] && ItemCoordinate(items[i]) == c;
        assert items'[i] == next[c];
      }
    }
  }

  predicate NotAbove(request: Request, n: nat) {
    request.sequence <= n && (request.terminalSequence.Some? ==> request.terminalSequence.value <= n)
  }

  /** A recovery record of the identity carries this very sequence. */
  ghost predicate Mentioned(r: Recovery, id: IdentityId, n: nat) {
    || (id in r.policies && r.policies[id].sequence == n)
    || exists a :: a in r.requests && r.requests[a].identity == id
                   && (r.requests[a].sequence == n || r.requests[a].terminalSequence == Some(n))
  }

  lemma LatestDecides(r: Recovery, id: IdentityId, latest: nat)
    requires id in r.policies ==> r.policies[id].sequence <= latest
    requires forall a :: a in r.requests && r.requests[a].identity == id ==> NotAbove(r.requests[a], latest)
    requires latest > 0 ==> Mentioned(r, id, latest)
    ensures forall n: nat :: AboveRecoveryHistory(r, id, n) <==> n > latest
  {
  }

  lemma {:induction false} FoundEarly(log: seq<Event>, i: nat, address: Address, stateSequence: nat)
    requires i < |log| && FindTransition(log[..i], address, stateSequence) == None
    requires ManifestLifecycle.IsTransition(log[i], address, stateSequence)
    ensures FindTransition(log, address, stateSequence) == Some(log[i])
  {
    var last := |log| - 1;
    if i < last {
      assert log[..last][..i] == log[..i];
      FoundEarly(log[..last], i, address, stateSequence);
    }
  }
}
