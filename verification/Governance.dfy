/** What holds of proposals and votes in every state that a log of well-formed events leads to. */
module GovernanceTally {
  import opened Wrappers
  import opened ProtocolEvents
  import opened Projection
  import opened ManifestLifecycle
  import opened ChainState
  import opened Membership

  // ----- Tallies are the stored votes -----

  function VotesFor(g: Governance, proposal: Address, choice: Choice): (votes: set<Address>)
    ensures forall a :: a in votes <==> a in g.votes && g.votes[a].proposal == proposal && g.votes[a].choice == choice
  {
    set a | a in g.votes && g.votes[a].proposal == proposal && g.votes[a].choice == choice
  }

  function VotersOf(g: Governance, proposal: Address): (ids: set<IdentityId>)
    ensures forall id :: id in ids <==> (proposal, id) in g.voteByVoter
  {
    set k | k in g.voteByVoter && k.0 == proposal :: k.1
  }

  /** The counts of a proposal are the numbers of its stored votes, and its states count its votes and its end. */
  predicate TallyIsVotes(g: Governance, proposal: Address)
    requires proposal in g.proposals
  {
    var p := g.proposals[proposal];
    && p.yes == |VotesFor(g, proposal, Yes)| && p.no == |VotesFor(g, proposal, No)|
    && p.abstain == |VotesFor(g, proposal, Abstain)|
    && p.yes + p.no + p.abstain == |VotersOf(g, proposal)|
    && p.stateSequence == 1 + p.yes + p.no + p.abstain + (if p.finalized.Some? then 1 else 0)
  }

  predicate Decided(p: Proposal) {
    && p.quorumBps == QUORUM_BPS && p.approvalBps == APPROVAL_BPS
    && (p.finalized.None? <==> p.outcome.Undecided?)
    && (p.finalized.Some? ==> (p.outcome.Accepted? <==> QuorumMet(p) && ApprovalMet(p)))
  }

  /** The table of votes by voter is the inverse of the votes: one vote for each voter of each proposal. */
  predicate VoterTableInverse(g: Governance) {
    && (forall a :: a in g.votes ==>
          && (g.votes[a].proposal, g.votes[a].voter) in g.voteByVoter
          && g.voteByVoter[(g.votes[a].proposal, g.votes[a].voter)] == a
          && g.votes[a].proposal in g.proposals)
    && (forall k :: k in g.voteByVoter ==>
          && g.voteByVoter[k] in g.votes
          && (g.votes[g.voteByVoter[k]].proposal, g.votes[g.voteByVoter[k]].voter) == k)
  }

  predicate Tallied(g: Governance) {
    && (forall a :: a in g.proposals ==> TallyIsVotes(g, a))
    && (forall a :: a in g.proposals ==> Decided(g.proposals[a]))
  }

  ghost predicate GovernanceInvariant(g: Governance) {
    VoterTableInverse(g) && Tallied(g)
  }

  // ----- The three governance events -----

  /** A vote as the guard lets it through. */
  predicate AllowedVote(g: Governance, next: Governance, e: Event) {
    && e.body.VoteCast? && e.body.proposal in g.proposals
    && var p := g.proposals[e.body.proposal];
    && p.outcome.Undecided? && e.body.vote !in g.votes && (e.body.proposal, e.body.identity) !in g.voteByVoter
    && e.body.stateSequence == p.stateSequence + 1 && (e.body.yes, e.body.no, e.body.abstain) == Tally(p, e.body.choice)
    && next == CastVote(g, e)
  }

  predicate AllowedProposal(g: Governance, next: Governance, e: Event) {
    && e.body.ProposalCreated? && e.body.proposal !in g.proposals
    && next.proposals == g.proposals[e.body.proposal := NewProposal(e)]
    && next.votes == g.votes && next.voteByVoter == g.voteByVoter
  }

  predicate AllowedEnd(g: Governance, next: Governance, e: Event) {
    && e.body.ProposalFinalized? && e.body.proposal in g.proposals && MayFinalize(g, e)
    && next == g.(proposals := g.proposals[e.body.proposal := g.proposals[e.body.proposal].(
                    stateSequence := e.body.stateSequence,
                    outcome := if e.body.accepted then Accepted else Rejected, finalized := Some(StampOf(e)))])
  }

  lemma GovernanceSteps(g: Governance, c: Communities, ids: Identities, pda: Derivations, e: Event)
    requires FamilyOf(e.body) == OfGovernance && GovernanceEffect(g, c, ids, pda, e).Ok?
    ensures var next := GovernanceEffect(g, c, ids, pda, e).value.0;
            AllowedVote(g, next, e) || AllowedProposal(g, next, e) || AllowedEnd(g, next, e)
  {
  }

  lemma VotesAfter(g: Governance, e: Event, proposal: Address, choice: Choice)
    requires e.body.VoteCast? && e.body.proposal in g.proposals && e.body.vote !in g.votes
    ensures |VotesFor(CastVote(g, e), proposal, choice)|
         == |VotesFor(g, proposal, choice)| + if proposal == e.body.proposal && choice == e.body.choice then 1 else 0
  {
    hide VotesFor;
    var vote := CastVote(g, e).votes[e.body.vote];
    assert vote.proposal == e.body.proposal && vote.choice == e.body.choice;
    AddedVote(g, CastVote(g, e), e.body.vote, vote, proposal, choice);
  }

  lemma AddedVote(g: Governance, next: Governance, a: Address, vote: Vote, proposal: Address, choice: Choice)
    requires a !in g.votes && next.votes == g.votes[a := vote]
    ensures |VotesFor(next, proposal, choice)|
         == |VotesFor(g, proposal, choice)| + if proposal == vote.proposal && choice == vote.choice then 1 else 0
  {
    hide VotesFor;
    var before, after := VotesFor(g, proposal, choice), VotesFor(next, proposal, choice);
    forall x | x != a ensures x in after <==> x in before {
      assert x in next.votes <==> x in g.votes;
    }
    assert a !in before && (a in after <==> proposal == vote.proposal && choice == vote.choice);
    assert after == before + if a in after then {a} else {};
  }

  lemma VotersAfter(g: Governance, e: Event, proposal: Address)
    requires e.body.VoteCast? && e.body.proposal in g.proposals && (e.body.proposal, e.body.identity) !in g.voteByVoter
    ensures VotersOf(CastVote(g, e), proposal)
         == VotersOf(g, proposal) + if proposal == e.body.proposal then {e.body.identity} else {}
    ensures proposal == e.body.proposal ==> e.body.identity !in VotersOf(g, proposal)
  {
  }

  lemma VoteMovesTally(g: Governance, next: Governance, e: Event, a: Address)
    requires AllowedVote(g, next, e) && a in g.proposals && TallyIsVotes(g, a) && Decided(g.proposals[a])
    ensures a in next.proposals && TallyIsVotes(next, a) && Decided(next.proposals[a])
  {
    hide VotesFor, VotersOf, QuorumMet, ApprovalMet;
    VotersAfter(g, e, a);
    VotesAfter(g, e, a, Yes);
    VotesAfter(g, e, a, No);
    VotesAfter(g, e, a, Abstain);
  }

  lemma VoteKeepsTally(g: Governance, next: Governance, e: Event)
    requires AllowedVote(g, next, e) && Tallied(g)
    ensures Tallied(next)
  {
    forall a | a in next.proposals ensures TallyIsVotes(next, a) && Decided(next.proposals[a]) {
      VoteMovesTally(g, next, e, a);
    }
    hide TallyIsVotes, Decided;
  }

  lemma VoteKeepsTable(g: Governance, next: Governance, e: Event)
    requires AllowedVote(g, next, e) && VoterTableInverse(g)
    ensures VoterTableInverse(next)
  {
  }

  lemma SameVotes(g: Governance, next: Governance, proposal: Address)
    requires next.votes == g.votes && next.voteByVoter == g.voteByVoter
    ensures VotersOf(next, proposal) == VotersOf(g, proposal)
    ensures forall choice :: VotesFor(next, proposal, choice) == VotesFor(g, proposal, choice)
  {
  }

  lemma NoVotesYet(g: Governance, next: Governance, e: Event)
    requires AllowedProposal(g, next, e) && ValidEvent(e) && GovernanceInvariant(g)
    ensures TallyIsVotes(next, e.body.proposal) && Decided(next.proposals[e.body.proposal])
  {
    hide VotesFor, VotersOf;
    var a := e.body.proposal;
    assert VotersOf(next, a) == {};
    assert VotesFor(next, a, Yes) == {} && VotesFor(next, a, No) == {} && VotesFor(next, a, Abstain) == {};
  }

  lemma ProposalKeepsTally(g: Governance, next: Governance, e: Event)
    requires AllowedProposal(g, next, e) && ValidEvent(e) && GovernanceInvariant(g)
    ensures Tallied(next)
  {
    NoVotesYet(g, next, e);
    hide TallyIsVotes, Decided, ValidEvent, VoterTableInverse;
    forall a | a in next.proposals ensures TallyIsVotes(next, a) {
      if a != e.body.proposal {
        SameTally(g, next, a);
      }
    }
  }

  lemma SameTally(g: Governance, next: Governance, proposal: Address)
    requires proposal in g.proposals && proposal in next.proposals
    requires next.proposals[proposal] == g.proposals[proposal]
    requires next.votes == g.votes && next.voteByVoter == g.voteByVoter && TallyIsVotes(g, proposal)
    ensures TallyIsVotes(next, proposal)
  {
    SameVotes(g, next, proposal);
  }

  lemma EndKeepsTally(g: Governance, next: Governance, e: Event)
    requires AllowedEnd(g, next, e) && Tallied(g)
    ensures Tallied(next)
  {
    hide VotesFor, VotersOf;
    forall a | a in next.proposals ensures TallyIsVotes(next, a) {
      assert TallyIsVotes(g, a);
      SameVotes(g, next, a);
    }
    forall a | a in next.proposals ensures Decided(next.proposals[a]) {
      assert Decided(g.proposals[a]);
      if a == e.body.proposal {
        assert QuorumMet(next.proposals[a]) == QuorumMet(g.proposals[a]);
        assert ApprovalMet(next.proposals[a]) == ApprovalMet(g.proposals[a]);
      }
    }
  }

  lemma StepKeepsGovernance(g: Governance, next: Governance, e: Event)
    requires AllowedVote(g, next, e) || AllowedProposal(g, next, e) || AllowedEnd(g, next, e)
    requires GovernanceInvariant(g) && ValidEvent(e)
    ensures GovernanceInvariant(next)
  {
    hide ValidEvent, Tallied, VoterTableInverse, AllowedVote, AllowedProposal, AllowedEnd;
    if AllowedVote(g, next, e) {
      VoteKeepsTally(g, next, e);
      VoteKeepsTable(g, next, e);
    } else if AllowedProposal(g, next, e) {
      ProposalKeepsTally(g, next, e);
      TableKept(g, next, e);
    } else {
      EndKeepsTally(g, next, e);
      TableKept(g, next, e);
    }
  }

  lemma TableKept(g: Governance, next: Governance, e: Event)
    requires AllowedProposal(g, next, e) || AllowedEnd(g, next, e)
    requires VoterTableInverse(g)
    ensures VoterTableInverse(next)
  {
  }

  lemma IngestGovernance(pda: Derivations, s: State, e: Event, t: Treatment)
    requires Ingest(pda, s, e, t).Ok?
    ensures var next := Ingest(pda, s, e, t).value.governance;
            if FamilyOf(e.body) == OfGovernance then
              && GovernanceEffect(s.governance, s.communities, s.identities, pda, e).Ok?
              && next == GovernanceEffect(s.governance, s.communities, s.identities, pda, e).value.0
            else next == s.governance
  {
    hide ValidateLifecycle, Advance, IdentityEffect, HandleEffect, RecoveryEffect, SocialEffect, ContentEffect,
      CommunityEffect, GovernanceEffect;
  }

  lemma NoProposals()
    ensures GovernanceInvariant(EMPTY.governance)
  {
  }

  /** In every state that a log leads to, tallies are the stored votes and outcomes follow from the tallies. */
  lemma {:induction false} GovernanceHolds(pda: Derivations, log: seq<Event>)
    requires Chain(pda, log).Ok? && ValidLog(log)
    ensures GovernanceInvariant(Chain(pda, log).value.governance)
  {
    hide Ingest, GovernanceInvariant, ValidEvent, GovernanceEffect, AllowedVote, AllowedProposal, AllowedEnd;
    if log != [] {
      var last := |log| - 1;
      GovernanceHolds(pda, log[..last]);
      var s, e := Chain(pda, log[..last]).value, log[last];
      IngestGovernance(pda, s, e, Bare(e.body));
      if FamilyOf(e.body) == OfGovernance {
        GovernanceSteps(s.governance, s.communities, s.identities, pda, e);
        StepKeepsGovernance(s.governance, Chain(pda, log).value.governance, e);
      }
    } else {
      NoProposals();
    }
  }

  /** Whatever operations a store went through, its tallies are its stored votes. */
  lemma RunKeepsGovernanceInvariant(pda: Derivations, ops: seq<Op>)
    requires ValidLog(Run(pda, ops).ledger.log)
    ensures GovernanceInvariant(Run(pda, ops).governance)
  {
    hide Perform, Ingest, GovernanceInvariant, SameCores, ValidLog;
    RunFollowsChain(pda, ops);
    GovernanceHolds(pda, Run(pda, ops).ledger.log);
  }

  // ----- Finalized proposals are frozen -----

  predicate IsFinalized(g: Governance, proposal: Address) {
    proposal in g.proposals && g.proposals[proposal].finalized.Some? && !g.proposals[proposal].outcome.Undecided?
  }

  lemma StepKeepsFinalized(g: Governance, next: Governance, e: Event, proposal: Address)
    requires AllowedVote(g, next, e) || AllowedProposal(g, next, e) || AllowedEnd(g, next, e)
    requires IsFinalized(g, proposal)
    ensures proposal in next.proposals && next.proposals[proposal] == g.proposals[proposal]
    ensures forall choice :: VotesFor(next, proposal, choice) == VotesFor(g, proposal, choice)
  {
  }

  /** Once a proposal is finalized no log changes it, or its votes, again. */
  lemma {:induction false} FinalizedForever(pda: Derivations, log: seq<Event>, n: nat, proposal: Address)
    requires n <= |log| && Chain(pda, log).Ok? && Chain(pda, log[..n]).Ok?
    requires IsFinalized(Chain(pda, log[..n]).value.governance, proposal)
    ensures var g, then_ := Chain(pda, log).value.governance, Chain(pda, log[..n]).value.governance;
            && proposal in g.proposals && g.proposals[proposal] == then_.proposals[proposal]
            && forall choice :: VotesFor(g, proposal, choice) == VotesFor(then_, proposal, choice)
    decreases |log|
  {
    hide Ingest, VotesFor, GovernanceEffect, AllowedVote, AllowedProposal, AllowedEnd;
    if n < |log| {
      var last := |log| - 1;
      assert log[..last][..n] == log[..n];
      FinalizedForever(pda, log[..last], n, proposal);
      var s, e := Chain(pda, log[..last]).value, log[last];
      IngestGovernance(pda, s, e, Bare(e.body));
      if FamilyOf(e.body) == OfGovernance {
        GovernanceSteps(s.governance, s.communities, s.identities, pda, e);
        StepKeepsFinalized(s.governance, Chain(pda, log).value.governance, e, proposal);
      }
    } else {
      assert log[..n] == log;
    }
  }

  // ----- What approval means -----

  /** Approval is a majority by at least one part in 5,000 of the decisive votes. */
  lemma ApprovalIsAMargin(p: Proposal)
    requires p.approvalBps == APPROVAL_BPS
    ensures ApprovalMet(p) <==> p.yes + p.no > 0 && 5_000 * (p.yes - p.no) >= p.yes + p.no
    ensures ApprovalMet(p) ==> p.yes > p.no
    ensures p.yes + p.no <= 5_000 ==> (ApprovalMet(p) <==> p.yes > p.no)
  {
    assert (p.yes + p.no) * 5_001 == 5_001 * p.yes + 5_001 * p.no;
  }

  /** The smallest majority that is not an approval takes 5,001 decisive votes. */
  lemma ApprovalFirstDiffers(p: Proposal)
    requires p.approvalBps == APPROVAL_BPS && p.yes > p.no && p.yes + p.no <= 5_001
    ensures ApprovalMet(p) <==> !(p.yes == 2_501 && p.no == 2_500)
  {
    assert (p.yes + p.no) * 5_001 == 5_001 * p.yes + 5_001 * p.no;
  }
}
