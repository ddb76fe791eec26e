/** What holds of communities and their members in every state that a log of well-formed events leads to. */
module Membership {
  import opened Wrappers
  import opened ProtocolEvents
  import opened Projection
  import opened ManifestLifecycle
  import opened ChainState
  import opened Rebuild

  ghost predicate ValidLog(log: seq<Event>) {
    forall i :: 0 <= i < |log| ==> ValidEvent(log[i])
  }

  // ----- Totals over maps -----

  ghost function Total<K>(m: map<K, nat>): nat
    decreases |m|
  {
    if m == map[] then 0
    else
      var k :| k in m;
      m[k] + Total(m - {k})
  }

  lemma {:induction false} TotalWithout<K>(m: map<K, nat>, k: K)
    requires k in m
    ensures Total(m) == m[k] + Total(m - {k})
    decreases |m|
  {
    var j :| j in m && Total(m) == m[j] + Total(m - {j});
    if j != k {
      TotalWithout(m - {j}, k);
      TotalWithout(m - {k}, j);
      assert m - {j} - {k} == m - {k} - {j};
    }
  }

  lemma TotalUpdate<K>(m: map<K, nat>, k: K, v: nat)
    ensures Total(m[k := v]) == Total(m) - (if k in m then m[k] else 0) + v
  {
    TotalWithout(m[k := v], k);
    if k in m {
      TotalWithout(m, k);
      assert m[k := v] - {k} == m - {k};
    } else {
      assert m[k := v] - {k} == m;
    }
  }

  // ----- The invariant -----

  /** How many state changes each member of a community has been through. */
  function StatesOf(c: Communities, community: Address): map<IdentityId, nat> {
    map id | id in MembersOf(c, community) :: c.memberships[(community, id)].core.stateSequence
  }

  function MembersOf(c: Communities, community: Address): (ids: set<IdentityId>)
    ensures forall id :: id in ids <==> (community, id) in c.memberships
  {
    set k | k in c.memberships && k.0 == community :: k.1
  }

  /** The membership sequence that a community was created with. */
  function CreationSequence(log: seq<Event>, community: Address): nat {
    if log == [] then 0
    else
      var last := log[|log| - 1];
      if last.body.CommunityCreated? && last.body.community == community then last.body.membershipSequence
      else CreationSequence(log[..|log| - 1], community)
  }

  /** The membership sequence of a community counts the state changes of its members, no more and no less. */
  ghost predicate Conserves(c: Communities, log: seq<Event>, community: Address)
    requires community in c.communities
  {
    c.communities[community].core.membershipSequence == CreationSequence(log, community) + Total(StatesOf(c, community))
  }

  predicate WellFormedMember(c: Communities, key: MemberKey)
    requires key in c.memberships
  {
    var m := c.memberships[key].core;
    && key.0 in c.communities
    && m.stateSequence > 0
    && (m.active <==> m.status.Active?) && (m.active <==> m.activeSince > 0) && m.roles == (if m.active then 1 else 0)
    && m.activeSince <= c.communities[key.0].core.membershipSequence
  }

  ghost predicate MembersWellFormed(c: Communities) {
    forall k :: k in c.memberships ==> WellFormedMember(c, k)
  }

  predicate JoinedApart(c: Communities, community: Address, id: IdentityId, other: IdentityId)
    requires (community, id) in c.memberships && (community, other) in c.memberships
  {
    id != other && c.memberships[(community, id)].core.active && c.memberships[(community, other)].core.active
    ==> c.memberships[(community, id)].core.activeSince != c.memberships[(community, other)].core.activeSince
  }

  /** No two active members of a community joined at the same membership sequence. */
  ghost predicate JoinsDistinct(c: Communities) {
    forall community, id, other :: (community, id) in c.memberships && (community, other) in c.memberships ==>
      JoinedApart(c, community, id, other)
  }

  ghost predicate Conserved(c: Communities, log: seq<Event>) {
    forall k :: k in c.communities ==> Conserves(c, log, k)
  }

  // ----- One event -----

  /** Outside of membership transitions, communities keep their membership sequences. */
  ghost predicate CommunitiesKept(c: Communities, next: Communities, e: Event) {
    && next.memberships == c.memberships
    && (forall k :: k in c.communities ==>
          && k in next.communities
          && next.communities[k].core.membershipSequence == c.communities[k].core.membershipSequence
          && (e.body.CommunityCreated? ==> k != e.body.community))
    && (forall k :: k in next.communities && k !in c.communities ==>
          && e.body.CommunityCreated? && e.body.community == k
          && next.communities[k].core.membershipSequence == e.body.membershipSequence)
  }

  lemma CommunityEffectKeeps(c: Communities, ids: Identities, pda: Derivations, e: Event, t: Treatment)
    requires FamilyOf(e.body) == OfCommunity && CommunityEffect(c, ids, pda, e, t).Ok? && !e.body.MembershipChanged?
    ensures CommunitiesKept(c, CommunityEffect(c, ids, pda, e, t).value, e)
  {
    hide RequireManifest, SignerMatches;
  }

  lemma GovernanceEffectKeeps(g: Governance, c: Communities, ids: Identities, pda: Derivations, e: Event)
    requires FamilyOf(e.body) == OfGovernance && GovernanceEffect(g, c, ids, pda, e).Ok?
    ensures CommunitiesKept(c, GovernanceEffect(g, c, ids, pda, e).value.1, e)
  {
  }

  lemma CommunitiesKeptByOthers(pda: Derivations, s: State, e: Event, t: Treatment)
    requires Ingest(pda, s, e, t).Ok? && !e.body.MembershipChanged?
    ensures CommunitiesKept(s.communities, Ingest(pda, s, e, t).value.communities, e)
  {
    hide ValidateLifecycle, Advance, IdentityEffect, HandleEffect, RecoveryEffect, SocialEffect, ContentEffect,
      CommunityEffect, GovernanceEffect, CommunitiesKept;
    if FamilyOf(e.body) == OfCommunity {
      CommunityEffectKeeps(s.communities, s.identities, pda, e, t);
    } else if FamilyOf(e.body) == OfGovernance {
      GovernanceEffectKeeps(s.governance, s.communities, s.identities, pda, e);
    } else {
      NothingHappens(s.communities, e);
    }
  }

  lemma NothingHappens(c: Communities, e: Event)
    requires FamilyOf(e.body) != OfCommunity
    ensures CommunitiesKept(c, c, e)
  {
  }

  lemma SameStates(c: Communities, next: Communities, k: Address)
    requires forall id :: (k, id) in next.memberships <==> (k, id) in c.memberships
    requires forall id :: (k, id) in c.memberships ==>
               next.memberships[(k, id)].core.stateSequence == c.memberships[(k, id)].core.stateSequence
    ensures StatesOf(next, k) == StatesOf(c, k)
  {
  }

  lemma CreationAfter(log: seq<Event>, e: Event, k: Address)
    ensures CreationSequence(log + [e], k)
         == if e.body.CommunityCreated? && e.body.community == k then e.body.membershipSequence
            else CreationSequence(log, k)
  {
  }

  lemma NoMembersYet(c: Communities, k: Address)
    requires MembersWellFormed(c) && k !in c.communities
    ensures StatesOf(c, k) == map[]
  {
  }

  lemma KeptConserves(c: Communities, next: Communities, log: seq<Event>, e: Event)
    requires CommunitiesKept(c, next, e) && Conserved(c, log) && MembersWellFormed(c)
    ensures Conserved(next, log + [e])
  {
    hide StatesOf, MembersWellFormed, CreationSequence;
    forall k | k in next.communities ensures Conserves(next, log + [e], k) {
      SameStates(c, next, k);
      CreationAfter(log, e, k);
      if k in c.communities {
        assert Conserves(c, log, k);
      } else {
        NoMembersYet(c, k);
      }
    }
  }

  lemma KeptStaysWellFormed(c: Communities, next: Communities, e: Event)
    requires CommunitiesKept(c, next, e) && MembersWellFormed(c) && JoinsDistinct(c)
    ensures MembersWellFormed(next) && JoinsDistinct(next)
  {
  }

  /** A transition as the guard lets it through. */
  predicate AllowedTransition(c: Communities, next: Communities, e: Event, proof: Option<MembershipProof>)
    requires e.body.MembershipChanged?
  {
    && e.body.community in c.communities
    && ContinuesPolicy(c.communities[e.body.community].core, e.body)
    && ContinuesMembership(c.communities[e.body.community].core, CurrentMembership(c, e.body), e.body)
    && next == Transition(c, e, proof)
  }

  /** A transition moves exactly one member, by exactly one state. */
  lemma TransitionMovesOne(c: Communities, next: Communities, e: Event, proof: Option<MembershipProof>, k: Address)
    requires e.body.MembershipChanged? && AllowedTransition(c, next, e, proof)
    ensures StatesOf(next, k) == if k == e.body.community then StatesOf(c, k)[e.body.member := e.body.stateSequence]
                                 else StatesOf(c, k)
    ensures e.body.stateSequence == 1 + if e.body.member in StatesOf(c, e.body.community)
                                        then StatesOf(c, e.body.community)[e.body.member] else 0
  {
    hide ContinuesPolicy;
  }

  lemma TransitionConserves(c: Communities, next: Communities, log: seq<Event>, e: Event,
                            proof: Option<MembershipProof>)
    requires e.body.MembershipChanged? && AllowedTransition(c, next, e, proof) && Conserved(c, log)
    ensures Conserved(next, log + [e])
  {
    hide StatesOf, CreationSequence, ContinuesMembership;
    var b := e.body;
    forall k | k in next.communities ensures Conserves(next, log + [e], k) {
      assert Conserves(c, log, k);
      CreationAfter(log, e, k);
      TransitionMovesOne(c, next, e, proof, k);
      TotalUpdate(StatesOf(c, k), b.member, b.stateSequence);
    }
  }

  lemma TransitionStaysWellFormed(c: Communities, next: Communities, e: Event, proof: Option<MembershipProof>)
    requires e.body.MembershipChanged? && AllowedTransition(c, next, e, proof) && ValidEvent(e) && MembersWellFormed(c)
    ensures MembersWellFormed(next)
  {
    forall k | k in next.memberships ensures WellFormedMember(next, k) {
      if k != (e.body.community, e.body.member) {
        assert WellFormedMember(c, k);
      }
    }
  }

  lemma TransitionKeepsJoinsDistinct(c: Communities, next: Communities, e: Event, proof: Option<MembershipProof>)
    requires e.body.MembershipChanged? && AllowedTransition(c, next, e, proof) && ValidEvent(e)
    requires MembersWellFormed(c) && JoinsDistinct(c)
    ensures JoinsDistinct(next)
  {
    hide ValidEvent;
    assert e.body.status == StatusAfter(e.body.action) by {
      StatusFollowsAction(e);
    }
    forall community, id, other | (community, id) in next.memberships && (community, other) in next.memberships
      ensures JoinedApart(next, community, id, other)
    {
      if (community, id) in c.memberships {
        assert WellFormedMember(c, (community, id));
      }
      if (community, other) in c.memberships {
        assert WellFormedMember(c, (community, other));
      }
      if (community, id) in c.memberships && (community, other) in c.memberships {
        assert JoinedApart(c, community, id, other);
      }
    }
  }

  lemma StatusFollowsAction(e: Event)
    requires e.body.MembershipChanged? && ValidEvent(e)
    ensures e.body.status == StatusAfter(e.body.action)
  {
  }

  ghost predicate MembershipInvariant(c: Communities, log: seq<Event>) {
    Conserved(c, log) && MembersWellFormed(c) && JoinsDistinct(c)
  }

  lemma IngestTransition(pda: Derivations, s: State, e: Event, t: Treatment)
    requires e.body.MembershipChanged? && Ingest(pda, s, e, t).Ok?
    ensures exists proof :: AllowedTransition(s.communities, Ingest(pda, s, e, t).value.communities, e, proof)
  {
    MembershipsChangeOnlyInTransitions(pda, s, e, t);
    hide Ingest, ContinuesPolicy, ContinuesMembership, Transition;
    var proof :| Ingest(pda, s, e, t).value.communities == Transition(s.communities, e, proof);
    assert AllowedTransition(s.communities, Ingest(pda, s, e, t).value.communities, e, proof);
  }

  lemma IngestKeepsInvariant(pda: Derivations, s: State, e: Event, t: Treatment)
    requires Ingest(pda, s, e, t).Ok? && ValidEvent(e) && MembershipInvariant(s.communities, s.ledger.log)
    ensures MembershipInvariant(Ingest(pda, s, e, t).value.communities, s.ledger.log + [e])
  {
    hide Ingest, Conserved, MembersWellFormed, JoinsDistinct, CommunitiesKept, AllowedTransition, ValidEvent;
    var c, next := s.communities, Ingest(pda, s, e, t).value.communities;
    if e.body.MembershipChanged? {
      IngestTransition(pda, s, e, t);
      var proof :| AllowedTransition(c, next, e, proof);
      TransitionConserves(c, next, s.ledger.log, e, proof);
      TransitionStaysWellFormed(c, next, e, proof);
      TransitionKeepsJoinsDistinct(c, next, e, proof);
    } else {
      CommunitiesKeptByOthers(pda, s, e, t);
      KeptConserves(c, next, s.ledger.log, e);
      KeptStaysWellFormed(c, next, e);
    }
  }

  lemma NoCommunities()
    ensures MembershipInvariant(EMPTY.communities, [])
  {
  }

  /** Every state that a log leads to keeps the membership invariant. */
  lemma {:induction false} MembershipHolds(pda: Derivations, log: seq<Event>)
    requires Chain(pda, log).Ok? && ValidLog(log)
    ensures MembershipInvariant(Chain(pda, log).value.communities, log)
  {
    hide Ingest, MembershipInvariant, ValidEvent;
    if log != [] {
      var last := |log| - 1;
      MembershipHolds(pda, log[..last]);
      ChainPrefix(pda, log, last);
      IngestKeepsInvariant(pda, Chain(pda, log[..last]).value, log[last], Bare(log[last].body));
      assert log == log[..last] + [log[last]];
    } else {
      NoCommunities();
    }
  }

  lemma SameCoresConserve(a: Communities, b: Communities, log: seq<Event>)
    requires SameCores(a, b) && Conserved(b, log)
    ensures Conserved(a, log)
  {
    hide StatesOf;
    forall k | k in a.communities ensures Conserves(a, log, k) {
      assert Conserves(b, log, k);
      SameStates(a, b, k);
    }
  }

  lemma SameCoresWellFormed(a: Communities, b: Communities)
    requires SameCores(a, b) && MembersWellFormed(b) && JoinsDistinct(b)
    ensures MembersWellFormed(a) && JoinsDistinct(a)
  {
  }

  /** Whatever operations a store went through, its memberships are conserved, well-formed and apart. */
  lemma RunKeepsMembershipInvariant(pda: Derivations, ops: seq<Op>)
    requires ValidLog(Run(pda, ops).ledger.log)
    ensures MembershipInvariant(Run(pda, ops).communities, Run(pda, ops).ledger.log)
  {
    hide Perform, Ingest, Conserved, MembersWellFormed, JoinsDistinct, SameCores, ValidLog;
    var s := Run(pda, ops);
    RunFollowsChain(pda, ops);
    MembershipHolds(pda, s.ledger.log);
    SameCoresConserve(s.communities, Chain(pda, s.ledger.log).value.communities, s.ledger.log);
    SameCoresWellFormed(s.communities, Chain(pda, s.ledger.log).value.communities);
  }

  // ----- Bans are final -----

  predicate IsBanned(c: Communities, key: MemberKey) {
    key in c.memberships && c.memberships[key].core.status.Banned?
  }

  lemma BanSurvives(pda: Derivations, s: State, e: Event, t: Treatment, key: MemberKey)
    requires Ingest(pda, s, e, t).Ok? && IsBanned(s.communities, key)
    ensures var next := Ingest(pda, s, e, t).value.communities;
            key in next.memberships && next.memberships[key] == s.communities.memberships[key]
  {
    MembershipsChangeOnlyInTransitions(pda, s, e, t);
    hide Ingest, ContinuesPolicy;
  }

  /** From the moment a member is banned, no log changes the record again. */
  lemma {:induction false} BannedForever(pda: Derivations, log: seq<Event>, n: nat, key: MemberKey)
    requires n <= |log| && Chain(pda, log).Ok? && Chain(pda, log[..n]).Ok?
    requires IsBanned(Chain(pda, log[..n]).value.communities, key)
    ensures IsBanned(Chain(pda, log).value.communities, key)
    ensures Chain(pda, log).value.communities.memberships[key]
         == Chain(pda, log[..n]).value.communities.memberships[key]
    decreases |log|
  {
    hide Ingest;
    if n < |log| {
      var last := |log| - 1;
      assert log[..last][..n] == log[..n];
      BannedForever(pda, log[..last], n, key);
      BanSurvives(pda, Chain(pda, log[..last]).value, log[last], Bare(log[last].body), key);
    } else {
      assert log[..n] == log;
    }
  }
}
