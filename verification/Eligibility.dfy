/**
 Who may vote. The eligibility snapshot of a proposal is the set of active members when it is created; a vote is
 only accepted from someone who was in it and has stayed a member ever since.
 */
module Eligibility {
  import opened Wrappers
  import opened EventOrder
  import opened ProtocolEvents
  import opened Projection
  import opened ManifestLifecycle
  import opened ChainState
  import opened Membership
  import opened GovernanceTally

  /** The members that a proposal was created for. */
  function Snapshot(pda: Derivations, log: seq<Event>, proposal: Address): set<IdentityId>
    requires Chain(pda, log).Ok?
  {
    if log == [] then {}
    else
      var last := log[|log| - 1];
      var before := log[..|log| - 1];
      if last.body.ProposalCreated? && last.body.proposal == proposal
      then EligibleMembers(Chain(pda, before).value.communities, last.body.community)
      else Snapshot(pda, before, proposal)
  }

  /** The membership is active since no later than a given membership sequence of its community. */
  predicate ActiveSince(c: Communities, community: Address, id: IdentityId, sequence: nat) {
    && (community, id) in c.memberships
    && CountsAsMember(c.memberships[(community, id)].core)
    && c.memberships[(community, id)].core.activeSince <= sequence
  }

  ghost predicate SnapshotHolds(g: Governance, c: Communities, proposal: Address, snapshot: set<IdentityId>)
    requires proposal in g.proposals
  {
    var p := g.proposals[proposal];
    && p.community in c.communities && p.membershipSequence <= c.communities[p.community].core.membershipSequence
    && p.eligible == |snapshot|
    && VotersOf(g, proposal) <= snapshot
    && forall id :: ActiveSince(c, p.community, id, p.membershipSequence) ==> id in snapshot
  }

  ghost predicate SnapshotsHold(pda: Derivations, log: seq<Event>)
    requires Chain(pda, log).Ok?
  {
    var s := Chain(pda, log).value;
    forall a :: a in s.governance.proposals ==> SnapshotHolds(s.governance, s.communities, a, Snapshot(pda, log, a))
  }

  // ----- Membership transitions only ever shrink the members of a snapshot -----

  /** The membership sequence of every community only grows, and nobody becomes active at or below it. */
  ghost predicate NoNewElders(c: Communities, next: Communities) {
    && (forall k :: k in c.communities ==>
          && k in next.communities
          && c.communities[k].core.membershipSequence <= next.communities[k].core.membershipSequence)
    && (forall k, id, n: nat :: k in c.communities && n <= c.communities[k].core.membershipSequence
                           && ActiveSince(next, k, id, n)
          ==> ActiveSince(c, k, id, n) && next.memberships[(k, id)].core == c.memberships[(k, id)].core)
  }

  lemma TransitionAddsNoElders(c: Communities, next: Communities, e: Event, proof: Option<MembershipProof>)
    requires e.body.MembershipChanged? && AllowedTransition(c, next, e, proof) && ValidEvent(e)
    ensures NoNewElders(c, next)
  {
    StatusFollowsAction(e);
    hide ValidEvent;
  }

  lemma KeptAddsNoElders(c: Communities, next: Communities, e: Event)
    requires CommunitiesKept(c, next, e)
    ensures NoNewElders(c, next)
  {
  }

  lemma IngestAddsNoElders(pda: Derivations, s: State, e: Event, t: Treatment)
    requires Ingest(pda, s, e, t).Ok? && ValidEvent(e)
    ensures NoNewElders(s.communities, Ingest(pda, s, e, t).value.communities)
  {
    hide Ingest, NoNewElders, CommunitiesKept, AllowedTransition, ValidEvent;
    var next := Ingest(pda, s, e, t).value.communities;
    if e.body.MembershipChanged? {
      IngestTransition(pda, s, e, t);
      var proof :| AllowedTransition(s.communities, next, e, proof);
      TransitionAddsNoElders(s.communities, next, e, proof);
    } else {
      CommunitiesKeptByOthers(pda, s, e, t);
      KeptAddsNoElders(s.communities, next, e);
    }
  }

  // ----- The snapshot invariant -----

  /** What an event does to a proposal that is already there, as far as its snapshot is concerned. */
  predicate ProposalKept(g: Governance, next: Governance, c: Communities, e: Event, proposal: Address)
    requires proposal in g.proposals
  {
    && proposal in next.proposals
    && (e.body.ProposalCreated? ==> e.body.proposal != proposal)
    && var p, q := g.proposals[proposal], next.proposals[proposal];
    && q.community == p.community && q.membershipSequence == p.membershipSequence && q.eligible == p.eligible
    && forall id :: id in VotersOf(next, proposal) ==>
         id in VotersOf(g, proposal) || ActiveSince(c, p.community, id, p.membershipSequence)
  }

  lemma GovernanceKeepsProposal(g: Governance, c: Communities, ids: Identities, pda: Derivations, e: Event,
                                proposal: Address)
    requires FamilyOf(e.body) == OfGovernance && GovernanceEffect(g, c, ids, pda, e).Ok? && proposal in g.proposals
    ensures ProposalKept(g, GovernanceEffect(g, c, ids, pda, e).value.0, c, e, proposal)
  {
    hide QuorumMet, ApprovalMet, Tally, VotersOf, CountsAsMember;
    if e.body.VoteCast? {
      VotersAfter(g, e, proposal);
    } else {
      SameVotes(g, GovernanceEffect(g, c, ids, pda, e).value.0, proposal);
    }
  }

  lemma NothingKeepsProposal(g: Governance, c: Communities, e: Event, proposal: Address)
    requires FamilyOf(e.body) != OfGovernance && proposal in g.proposals
    ensures ProposalKept(g, g, c, e, proposal)
  {
  }

  lemma IngestKeepsProposal(pda: Derivations, s: State, e: Event, t: Treatment, proposal: Address)
    requires Ingest(pda, s, e, t).Ok? && proposal in s.governance.proposals
    ensures ProposalKept(s.governance, Ingest(pda, s, e, t).value.governance, s.communities, e, proposal)
  {
    hide Ingest, ProposalKept, GovernanceEffect;
    IngestGovernance(pda, s, e, t);
    if FamilyOf(e.body) == OfGovernance {
      GovernanceKeepsProposal(s.governance, s.communities, s.identities, pda, e, proposal);
    } else {
      NothingKeepsProposal(s.governance, s.communities, e, proposal);
    }
  }

  lemma KeptSnapshotHolds(g: Governance, next: Governance, c: Communities, d: Communities, e: Event, proposal: Address,
                          snapshot: set<IdentityId>)
    requires proposal in g.proposals && SnapshotHolds(g, c, proposal, snapshot)
    requires ProposalKept(g, next, c, e, proposal) && NoNewElders(c, d)
    ensures SnapshotHolds(next, d, proposal, snapshot)
  {
  }

  lemma CreatedSnapshotHolds(g: Governance, c: Communities, ids: Identities, pda: Derivations, e: Event)
    requires e.body.ProposalCreated? && GovernanceEffect(g, c, ids, pda, e).Ok? && GovernanceInvariant(g)
    ensures var (next, d) := GovernanceEffect(g, c, ids, pda, e).value;
            && e.body.proposal in next.proposals
            && SnapshotHolds(next, d, e.body.proposal, EligibleMembers(c, e.body.community))
  {
  }

  /** No proposals but created ones. */
  lemma NewProposalIsCreated(pda: Derivations, s: State, e: Event, t: Treatment, proposal: Address)
    requires Ingest(pda, s, e, t).Ok? && proposal !in s.governance.proposals
    requires proposal in Ingest(pda, s, e, t).value.governance.proposals
    ensures e.body.ProposalCreated? && e.body.proposal == proposal
    ensures GovernanceEffect(s.governance, s.communities, s.identities, pda, e).Ok?
    ensures var next := Ingest(pda, s, e, t).value;
            (next.governance, next.communities) == GovernanceEffect(s.governance, s.communities, s.identities, pda,
                                                                    e).value
  {
    hide ValidateLifecycle, Advance, IdentityEffect, HandleEffect, RecoveryEffect, SocialEffect, ContentEffect,
      CommunityEffect, MayPropose, MembershipCounts, Tally, QuorumMet, ApprovalMet;
  }

  lemma SnapshotAfter(pda: Derivations, log: seq<Event>, proposal: Address)
    requires log != [] && Chain(pda, log).Ok? && Chain(pda, log[..|log| - 1]).Ok?
    requires GovernanceInvariant(Chain(pda, log[..|log| - 1]).value.governance) && ValidEvent(log[|log| - 1])
    requires SnapshotsHold(pda, log[..|log| - 1]) && proposal in Chain(pda, log).value.governance.proposals
    ensures var s := Chain(pda, log).value;
            SnapshotHolds(s.governance, s.communities, proposal, Snapshot(pda, log, proposal))
  {
    hide Ingest, GovernanceEffect, GovernanceInvariant, SnapshotHolds, NoNewElders, ValidEvent, EligibleMembers;
    var s, e := Chain(pda, log[..|log| - 1]).value, log[|log| - 1];
    var t, next := Bare(e.body), Chain(pda, log).value;
    if proposal in s.governance.proposals {
      IngestKeepsProposal(pda, s, e, t, proposal);
      IngestAddsNoElders(pda, s, e, t);
      KeptSnapshotHolds(s.governance, next.governance, s.communities, next.communities, e, proposal,
                        Snapshot(pda, log[..|log| - 1], proposal));
    } else {
      NewProposalIsCreated(pda, s, e, t, proposal);
      CreatedSnapshotHolds(s.governance, s.communities, s.identities, pda, e);
    }
  }

  /** In every state that a log leads to, the voters of a proposal are among the members it was created for. */
  lemma {:induction false} VotersWereEligible(pda: Derivations, log: seq<Event>)
    requires Chain(pda, log).Ok? && ValidLog(log)
    ensures SnapshotsHold(pda, log)
  {
    hide Ingest, SnapshotHolds, GovernanceInvariant, ValidEvent;
    if log != [] {
      var last := |log| - 1;
      VotersWereEligible(pda, log[..last]);
      GovernanceHolds(pda, log[..last]);
      forall a | a in Chain(pda, log).value.governance.proposals
        ensures var s := Chain(pda, log).value;
                SnapshotHolds(s.governance, s.communities, a, Snapshot(pda, log, a))
      {
        SnapshotAfter(pda, log, a);
      }
    }
  }

  // ----- The count guard is redundant -----

  lemma OneMoreVoter(g: Governance, c: Communities, e: Event, snapshot: set<IdentityId>)
    requires e.body.VoteCast? && e.body.proposal in g.proposals && SnapshotHolds(g, c, e.body.proposal, snapshot)
    requires TallyIsVotes(g, e.body.proposal) && (e.body.proposal, e.body.identity) !in g.voteByVoter
    requires var p := g.proposals[e.body.proposal];
             && ActiveSince(c, p.community, e.body.identity, p.membershipSequence)
             && (e.body.yes, e.body.no, e.body.abstain) == Tally(p, e.body.choice)
    ensures e.body.yes + e.body.no + e.body.abstain <= g.proposals[e.body.proposal].eligible
  {
    hide VotersOf, ActiveSince, VotesFor;
    var voters := VotersOf(g, e.body.proposal);
    assert e.body.identity !in voters;
    SubsetSize(voters + {e.body.identity}, snapshot);
  }

  /** In every reachable state, a vote that passes every other check cannot outnumber the eligible members. */
  lemma CountGuardIsRedundant(pda: Derivations, log: seq<Event>, e: Event)
    requires Chain(pda, log).Ok? && ValidLog(log) && e.body.VoteCast?
    requires e.body.identity in Chain(pda, log).value.identities.records
    ensures var s := Chain(pda, log).value;
            MayVote(s.governance, s.communities, s.identities, pda, e)
            <==> VoteIsRegular(s.governance, s.communities, s.identities, pda, e)
  {
    hide Ingest, SnapshotHolds, VotesFor, TallyIsVotes, Decided, VotersOf, Tally;
    VotersWereEligible(pda, log);
    GovernanceHolds(pda, log);
    var s := Chain(pda, log).value;
    if VoteIsRegular(s.governance, s.communities, s.identities, pda, e) {
      OneMoreVoter(s.governance, s.communities, e, Snapshot(pda, log, e.body.proposal));
    }
  }

  lemma SameCoresSameVoteChecks(g: Governance, a: Communities, b: Communities, ids: Identities, pda: Derivations,
                                e: Event)
    requires SameCores(a, b) && e.body.VoteCast? && e.body.identity in ids.records
    ensures VoteIsRegular(g, a, ids, pda, e) <==> VoteIsRegular(g, b, ids, pda, e)
  {
    hide Tally, CountsAsMember;
    assert forall p :: MembershipCounts(a, p, e.body) <==> MembershipCounts(b, p, e.body);
  }

  /** So it is in every state that a run leads to, whatever became of its manifests. */
  lemma CountGuardIsRedundantInRuns(pda: Derivations, ops: seq<Op>, e: Event)
    requires ValidLog(Run(pda, ops).ledger.log) && e.body.VoteCast?
    requires e.body.identity in Run(pda, ops).identities.records
    ensures var s := Run(pda, ops);
            MayVote(s.governance, s.communities, s.identities, pda, e)
            <==> VoteIsRegular(s.governance, s.communities, s.identities, pda, e)
  {
    hide Perform, Ingest, SameCores, VoteIsRegular, ValidLog;
    var s := Run(pda, ops);
    RunFollowsChain(pda, ops);
    CountGuardIsRedundant(pda, s.ledger.log, e);
    SameCoresSameVoteChecks(s.governance, s.communities, Chain(pda, s.ledger.log).value.communities, s.identities, pda,
                            e);
  }

  // ----- Voters stayed members -----

  lemma {:induction false} ProposalStays(pda: Derivations, log: seq<Event>, i: nat, n: nat)
    requires Chain(pda, log).Ok? && ValidLog(log) && i < n <= |log| && log[i].body.ProposalCreated?
    ensures Chain(pda, log[..n]).Ok?
    ensures var s, b := Chain(pda, log[..n]).value, log[i].body;
            && b.proposal in s.governance.proposals
            && s.governance.proposals[b.proposal].community == b.community
            && s.governance.proposals[b.proposal].membershipSequence == b.membershipSequence
            && b.community in s.communities.communities
            && b.membershipSequence <= s.communities.communities[b.community].core.membershipSequence
    decreases n
  {
    hide Ingest, ValidEvent, NoNewElders;
    ChainStep(pda, log, n - 1);
    var s, e, b := Chain(pda, log[..n - 1]).value, log[n - 1], log[i].body;
    if i < n - 1 {
      ProposalStays(pda, log, i, n - 1);
      IngestKeepsProposal(pda, s, e, Bare(e.body), b.proposal);
      IngestAddsNoElders(pda, s, e, Bare(e.body));
      SequencesGrow(s.communities, Chain(pda, log[..n]).value.communities, b.community);
    } else {
      ProposalIsStored(pda, s, e, Bare(e.body));
    }
  }

  lemma SequencesGrow(c: Communities, next: Communities, k: Address)
    requires NoNewElders(c, next) && k in c.communities
    ensures k in next.communities
         && c.communities[k].core.membershipSequence <= next.communities[k].core.membershipSequence
  {
  }

  lemma ProposalIsStored(pda: Derivations, s: State, e: Event, t: Treatment)
    requires Ingest(pda, s, e, t).Ok? && e.body.ProposalCreated?
    ensures var next, b := Ingest(pda, s, e, t).value, e.body;
            && b.proposal in next.governance.proposals
            && next.governance.proposals[b.proposal].community == b.community
            && next.governance.proposals[b.proposal].membershipSequence == b.membershipSequence
            && b.community in next.communities.communities
            && b.membershipSequence == next.communities.communities[b.community].core.membershipSequence
            && b.community in s.communities.communities
            && b.membershipSequence == s.communities.communities[b.community].core.membershipSequence
  {
    hide ValidateLifecycle, Advance, IdentityEffect, HandleEffect, RecoveryEffect, SocialEffect, ContentEffect,
      CommunityEffect, MayVote, MayFinalize;
  }

  /** Being a member since before a snapshot is inherited backwards, up to the snapshot. */
  lemma {:induction false} StayedActive(pda: Derivations, log: seq<Event>, i: nat, k: nat, j: nat, id: IdentityId)
    requires Chain(pda, log).Ok? && ValidLog(log) && i <= k <= j <= |log| && i < |log| && log[i].body.ProposalCreated?
    requires Chain(pda, log[..j]).Ok?
    requires ActiveSince(Chain(pda, log[..j]).value.communities, log[i].body.community, id,
                         log[i].body.membershipSequence)
    ensures Chain(pda, log[..k]).Ok?
    ensures ActiveSince(Chain(pda, log[..k]).value.communities, log[i].body.community, id,
                        log[i].body.membershipSequence)
    ensures Chain(pda, log[..k]).value.communities.memberships[(log[i].body.community, id)].core
         == Chain(pda, log[..j]).value.communities.memberships[(log[i].body.community, id)].core
    decreases j
  {
    hide Ingest, ValidEvent, NoNewElders;
    if k < j {
      ChainStep(pda, log, j - 1);
      ChainStep(pda, log, i);
      var s, e, b := Chain(pda, log[..j - 1]).value, log[j - 1], log[i].body;
      ProposalIsStored(pda, Chain(pda, log[..i]).value, log[i], Bare(b));
      if i < j - 1 {
        ProposalStays(pda, log, i, j - 1);
      }
      IngestAddsNoElders(pda, s, e, Bare(e.body));
      WasActive(s.communities, Chain(pda, log[..j]).value.communities, b.community, id, b.membershipSequence);
      StayedActive(pda, log, i, k, j - 1, id);
    }
  }

  lemma WasActive(c: Communities, next: Communities, k: Address, id: IdentityId, n: nat)
    requires NoNewElders(c, next) && k in c.communities && n <= c.communities[k].core.membershipSequence
    requires ActiveSince(next, k, id, n)
    ensures ActiveSince(c, k, id, n) && next.memberships[(k, id)].core == c.memberships[(k, id)].core
  {
  }

  lemma VoterIsActive(pda: Derivations, s: State, e: Event, t: Treatment)
    requires Ingest(pda, s, e, t).Ok? && e.body.VoteCast?
    ensures e.body.proposal in s.governance.proposals
    ensures var p := s.governance.proposals[e.body.proposal];
            p.community == e.body.community
                && ActiveSince(s.communities, p.community, e.body.identity, p.membershipSequence)
  {
    hide ValidateLifecycle, Advance, IdentityEffect, HandleEffect, RecoveryEffect, SocialEffect, ContentEffect,
      CommunityEffect, MayPropose, MayFinalize;
  }

  /** From the creation of a proposal up to an accepted vote on it, the voter was an eligible member all along. */
  lemma VoterStayedEligible(pda: Derivations, log: seq<Event>, i: nat, k: nat, j: nat)
    requires Chain(pda, log).Ok? && ValidLog(log) && i <= k <= j < |log| && i < j
    requires log[i].body.ProposalCreated? && log[j].body.VoteCast? && log[i].body.proposal == log[j].body.proposal
    ensures Chain(pda, log[..k]).Ok? && log[j].body.community == log[i].body.community
    ensures log[j].body.identity in EligibleMembers(Chain(pda, log[..k]).value.communities, log[i].body.community)
  {
    hide Ingest, ValidEvent, EligibleMembers, ActiveSince;
    ChainStep(pda, log, j);
    ProposalStays(pda, log, i, j);
    VoterIsActive(pda, Chain(pda, log[..j]).value, log[j], Bare(log[j].body));
    var id, b := log[j].body.identity, log[i].body;
    StayedActive(pda, log, i, k, j, id);
    ActiveIsEligible(Chain(pda, log[..k]).value.communities, b.community, id, b.membershipSequence);
  }

  lemma ActiveIsEligible(c: Communities, community: Address, id: IdentityId, n: nat)
    requires ActiveSince(c, community, id, n)
    ensures id in EligibleMembers(c, community)
  {
  }
}
