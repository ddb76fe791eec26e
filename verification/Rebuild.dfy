/**
 Rebuilding the projection from its raw log: replaying every event once, in order, with the treatment its
 manifest finally got, gives the state the store is already in.
 */
module Rebuild {
  import opened Wrappers
  import opened EventOrder
  import opened ProtocolEvents
  import opened Projection
  import opened ManifestLifecycle
  import opened ChainState

  // ----- What the store leaves to the chain and to the manifest verifier -----

  /** The verifier only lets a manifest through that is the object the event points to. */
  predicate ManifestMatches(e: Event, m: Manifest) {
    match e.body
    case PostPublished(_, _, objectId, _, _) => m.objectId == objectId
    case MembershipChanged(_, _, _, _, _, _, _, _, _, _, _, _, _, _, _, _) => IdentifiesTransition(e.body, m)
    case _ => true
  }

  predicate TreatmentMatches(e: Event, t: Treatment) {
    t.Accept? && t.manifest.Some? ==> ManifestMatches(e, t.manifest.value)
  }

  /** Events arrive in the canonical order of their positions. */
  ghost predicate InCanonicalOrder(log: seq<Event>) {
    forall i, j :: 0 <= i < j < |log| ==> Before(log[i].pos, log[j].pos)
  }

  /** Two events of the log publish different posts, and tombstones name posts of their own author. */
  predicate PostsAreConsistent(e: Event, f: Event) {
    && (e.body.PostPublished? && f.body.PostPublished? && e.body.objectId == f.body.objectId ==> e == f)
    && (e.body.PostPublished? && f.body.Tombstoned? && e.body.objectId == f.body.objectId ==>
          e.body.identity == f.body.identity)
  }

  ghost predicate ConsistentPosts(log: seq<Event>) {
    forall i, j :: 0 <= i < |log| && 0 <= j < |log| ==> PostsAreConsistent(log[i], log[j])
  }

  ghost predicate OrderlyLog(log: seq<Event>) {
    InCanonicalOrder(log) && ConsistentPosts(log)
  }

  // ----- Memberships and the transitions that made them -----

  predicate Shows(c: Communities, e: Event) {
    && (e.body.CommunityCreated? ==> e.body.community in c.communities)
    && (e.body.MembershipChanged? ==>
          && (e.body.community, e.body.member) in c.memberships
          && var core := c.memberships[(e.body.community, e.body.member)].core;
          && core.address == e.body.membership && core.stateSequence >= e.body.stateSequence > 0)
  }

  predicate MadeBy(core: MembershipCore, key: MemberKey, e: Event) {
    e.body.MembershipChanged? && (e.body.community, e.body.member) == key && core == NewMembership(e)
  }

  predicate OrderedTransitions(e: Event, f: Event) {
    e.body.MembershipChanged? && f.body.MembershipChanged? && e.body.membership == f.body.membership
    ==> e.body.stateSequence < f.body.stateSequence
  }

  /** Memberships come from the transitions in the log, and each address goes through its states once, in order. */
  ghost predicate MembershipsFollowLog(c: Communities, log: seq<Event>) {
    && (forall i :: 0 <= i < |log| ==> Shows(c, log[i]))
    && (forall k :: k in c.memberships ==> exists i :: 0 <= i < |log| && MadeBy(c.memberships[k].core, k, log[i]))
    && (forall i, j :: 0 <= i < j < |log| ==> OrderedTransitions(log[i], log[j]))
  }

  lemma TransitionFollowsLog(c: Communities, log: seq<Event>, e: Event, proof: Option<MembershipProof>)
    requires e.body.MembershipChanged? && e.body.community in c.communities && MembershipsFollowLog(c, log)
    requires ContinuesMembership(c.communities[e.body.community].core, CurrentMembership(c, e.body), e.body)
    requires AddressIsFree(c, e.body)
    ensures MembershipsFollowLog(Transition(c, e, proof), log + [e])
  {
    hide CommunityAfter;
    var next := Transition(c, e, proof);
    var log' := log + [e];
    var key := (e.body.community, e.body.member);
    forall i | 0 <= i < |log| && log[i].body.MembershipChanged? && log[i].body.membership == e.body.membership
      ensures (log[i].body.community, log[i].body.member) == key && log[i].body.stateSequence < e.body.stateSequence
    {
      assert Shows(c, log[i]);
    }
    forall i | 0 <= i < |log'| ensures Shows(next, log'[i]) {
      if i < |log| {
        assert Shows(c, log[i]);
      }
    }
    forall k | k in next.memberships
      ensures exists i :: 0 <= i < |log'| && MadeBy(next.memberships[k].core, k, log'[i])
    {
      if k == key {
        assert MadeBy(next.memberships[k].core, k, log'[|log|]);
      } else {
        var i :| 0 <= i < |log| && MadeBy(c.memberships[k].core, k, log[i]);
        assert MadeBy(next.memberships[k].core, k, log'[i]);
      }
    }
    forall i, j | 0 <= i < j < |log'| ensures OrderedTransitions(log'[i], log'[j]) {
      if j < |log| {
        assert OrderedTransitions(log[i], log[j]);
      }
    }
  }

  lemma OtherEventsFollowLog(c: Communities, next: Communities, log: seq<Event>, e: Event)
    requires MembershipsFollowLog(c, log) && !e.body.MembershipChanged? && next.memberships == c.memberships
    requires c.communities.Keys <= next.communities.Keys
    requires e.body.CommunityCreated? ==> e.body.community in next.communities
    ensures MembershipsFollowLog(next, log + [e])
  {
    var log' := log + [e];
    forall i | 0 <= i < |log'| ensures Shows(next, log'[i]) {
      if i < |log| {
        assert Shows(c, log[i]);
      }
    }
    forall k | k in next.memberships
      ensures exists i :: 0 <= i < |log'| && MadeBy(next.memberships[k].core, k, log'[i])
    {
      var i :| 0 <= i < |log| && MadeBy(c.memberships[k].core, k, log[i]);
      assert MadeBy(next.memberships[k].core, k, log'[i]);
    }
    forall i, j | 0 <= i < j < |log'| ensures OrderedTransitions(log'[i], log'[j]) {
      if j < |log| {
        assert OrderedTransitions(log[i], log[j]);
      }
    }
  }

  /** Only membership transitions change memberships, and communities stay. */
  lemma MembershipsChangeOnlyInTransitions(pda: Derivations, s: State, e: Event, t: Treatment)
    requires Ingest(pda, s, e, t).Ok?
    ensures var next := Ingest(pda, s, e, t).value;
            if e.body.MembershipChanged? then
              && e.body.community in s.communities.communities
              && ContinuesPolicy(s.communities.communities[e.body.community].core, e.body)
              && ContinuesMembership(s.communities.communities[e.body.community].core,
                                     CurrentMembership(s.communities, e.body), e.body)
              && AddressIsFree(s.communities, e.body)
              && exists proof :: next.communities == Transition(s.communities, e, proof)
            else next.communities.memberships == s.communities.memberships
    ensures var next := Ingest(pda, s, e, t).value;
            && s.communities.communities.Keys <= next.communities.communities.Keys
            && (e.body.CommunityCreated? ==> e.body.community in next.communities.communities)
  {
    hide ValidateLifecycle, Advance, IdentityEffect, HandleEffect, RecoveryEffect, SocialEffect, ContentEffect,
      MayPropose,
      MayVote, MayFinalize, MayUpdateGovernance, ContinuesPolicy, ContinuesMembership, AddressIsFree, ContinuesChain,
      CommunityAfter, NewMembership;
    if e.body.MembershipChanged? {
      var proof := CheckTransition(s.communities, s.identities, pda, e, if t.Accept? then t.manifest else None).value;
      assert Ingest(pda, s, e, t).value.communities == Transition(s.communities, e, proof);
    }
  }

  lemma IngestFollowsLog(pda: Derivations, s: State, e: Event, t: Treatment)
    requires Ingest(pda, s, e, t).Ok? && MembershipsFollowLog(s.communities, s.ledger.log)
    ensures MembershipsFollowLog(Ingest(pda, s, e, t).value.communities, s.ledger.log + [e])
  {
    MembershipsChangeOnlyInTransitions(pda, s, e, t);
    hide Ingest, MembershipsFollowLog, ContinuesMembership, ContinuesPolicy, AddressIsFree, Transition;
    if e.body.MembershipChanged? {
      var proof :| Ingest(pda, s, e, t).value.communities == Transition(s.communities, e, proof);
      TransitionFollowsLog(s.communities, s.ledger.log, e, proof);
    } else {
      OtherEventsFollowLog(s.communities, Ingest(pda, s, e, t).value.communities, s.ledger.log, e);
    }
  }

  /** A membership's manifest hash is the one of the first recorded transition to its state. */
  lemma {:induction false} FindsTransition(log: seq<Event>, i: nat)
    requires i < |log| && log[i].body.MembershipChanged?
    requires forall j, k :: 0 <= j < k < |log| ==> OrderedTransitions(log[j], log[k])
    ensures FindTransition(log, log[i].body.membership, log[i].body.stateSequence) == Some(log[i])
  {
    var earlier, last := log[..|log| - 1], log[|log| - 1];
    if i < |log| - 1 {
      FindsTransition(earlier, i);
    } else {
      forall j | 0 <= j < |earlier|
        ensures !IsTransition(earlier[j], log[i].body.membership, log[i].body.stateSequence)
      {
        assert OrderedTransitions(log[j], log[i]);
      }
      if FindTransition(earlier, log[i].body.membership, log[i].body.stateSequence).Some? {
        var _ := FoundTransition(earlier, log[i].body.membership, log[i].body.stateSequence);
      }
    }
  }

  lemma {:induction false} FoundTransition(log: seq<Event>, address: Address, stateSequence: nat) returns (i: nat)
    requires FindTransition(log, address, stateSequence).Some?
    ensures i < |log| && IsTransition(log[i], address, stateSequence)
    ensures FindTransition(log, address, stateSequence) == Some(log[i])
  {
    if FindTransition(log[..|log| - 1], address, stateSequence).Some? {
      i := FoundTransition(log[..|log| - 1], address, stateSequence);
    } else {
      i := |log| - 1;
    }
  }

  /** The hash a late manifest must supersede, looked up in the whole log, is the one that was current at ingestion. */
  lemma PreviousHashIsCurrent(before: Communities, log: seq<Event>, whole: seq<Event>, core: CommunityCore, b: Body)
    requires b.MembershipChanged? && ContinuesMembership(core, CurrentMembership(before, b), b) && b.stateSequence > 0
    requires MembershipsFollowLog(before, log) && log <= whole
    requires forall j, k :: 0 <= j < k < |whole| ==> OrderedTransitions(whole[j], whole[k])
    ensures PreviousHash(whole, b)
         == HashOf(CurrentMembership(before, b))
  {
    var current := CurrentMembership(before, b);
    if current.Some? {
      var key := (b.community, b.member);
      var i :| 0 <= i < |log| && MadeBy(before.memberships[key].core, key, log[i]);
      assert whole[i] == log[i];
      FindsTransition(whole, i);
      assert Shows(before, log[i]);
    }
  }

  // ----- Promotion commutes with everything that happens later -----

  predicate Verified(e: Event, m: Manifest) {
    MayDefer(e.body) && RequireManifest(e, Some(m), KindFor(e.body)).Ok? && ManifestMatches(e, m)
  }

  lemma {:induction false} NoLaterTombstone(log: seq<Event>, post: Event)
    requires post.body.PostPublished?
    requires forall i :: 0 <= i < |log| ==> !Before(post.pos, log[i].pos)
    ensures LaterTombstone(log, post).None?
  {
    if log != [] {
      NoLaterTombstone(log[..|log| - 1], post);
    }
  }

  lemma {:induction false} LaterTombstoneIsRecorded(log: seq<Event>, post: Event)
    requires post.body.PostPublished? && LaterTombstone(log, post).Some?
    ensures LaterTombstone(log, post).value in log
  {
    if LaterTombstone(log[..|log| - 1], post).Some? {
      LaterTombstoneIsRecorded(log[..|log| - 1], post);
    }
  }

  lemma PromoteContentAtOnce(c: Content, log: seq<Event>, e: Event, m: Manifest)
    requires FamilyOf(e.body) == OfContent && Verified(e, m)
    requires e.body.PostPublished? ==> LaterTombstone(log, e).None?
    ensures ContentEffect(c, e, Accept(Some(m))) == Ok(PromoteContent(ContentEffect(c, e, Defer).value, log, e, m))
  {
    if e.body.ProfileUpdated? {
      var id := e.body.identity;
      assert (c.profiles - {id})[id := NewProfile(e, m)] == c.profiles[id := NewProfile(e, m)];
    }
  }

  lemma PromoteCommunitiesAtOnce(c: Communities, ids: Identities, pda: Derivations, e: Event, m: Manifest)
    requires FamilyOf(e.body) == OfCommunity && Verified(e, m) && CommunityEffect(c, ids, pda, e, Defer).Ok?
    requires e.body.MembershipChanged? ==>
               ContinuesChain(HashOf(CurrentMembership(c, e.body)), e.body.stateSequence, m)
    ensures CommunityEffect(c, ids, pda, e, Accept(Some(m)))
         == Ok(PromoteCommunities(CommunityEffect(c, ids, pda, e, Defer).value, e, m))
  {
    hide ContinuesPolicy, ContinuesMembership, AddressIsFree, CommunityAfter, ContinuesChain;
    var x := CommunityEffect(c, ids, pda, e, Defer).value;
    if e.body.CommunityCreated? {
      var a := e.body.community;
      assert x.communities[a := x.communities[a].(proof := Some(CommunityProofOf(m)))]
          == c.communities[a := Community(NewCommunity(e), Some(CommunityProofOf(m)))];
    } else {
      var key := (e.body.community, e.body.member);
      assert x.memberships[key := x.memberships[key].(proof := Some(MembershipProofOf(m)))]
          == c.memberships[key := Membership(NewMembership(e), Some(MembershipProofOf(m)))];
    }
  }

  /** Ingesting an event with its manifest is ingesting it without, and promoting it right away. */
  lemma PromoteAtOnce(pda: Derivations, s: State, e: Event, m: Manifest)
    requires Ingest(pda, s, e, Defer).Ok? && Verified(e, m)
    requires forall i :: 0 <= i < |s.ledger.log| ==> Before(s.ledger.log[i].pos, e.pos)
    requires CoordinateOf(e.pos) !in s.ledger.pending
    requires e.body.MembershipChanged? ==>
               ContinuesChain(HashOf(CurrentMembership(s.communities, e.body)), e.body.stateSequence, m)
    ensures Ingest(pda, s, e, Accept(Some(m))) == Ok(Promoted(Ingest(pda, s, e, Defer).value, e, m))
  {
    hide ValidateLifecycle, ContentEffect, CommunityEffect, ContinuesChain, IdentityEffect, HandleEffect,
      RecoveryEffect,
      SocialEffect, GovernanceEffect;
    var log := s.ledger.log + [e];
    assert s.ledger.pending + {CoordinateOf(e.pos)} - {CoordinateOf(e.pos)} == s.ledger.pending;
    if e.body.PostPublished? {
      forall i | 0 <= i < |log| ensures !Before(e.pos, log[i].pos) {
        CompareAntisymmetric(log[i].pos, e.pos);
        CompareAntisymmetric(e.pos, log[i].pos);
      }
      NoLaterTombstone(log, e);
    }
    if FamilyOf(e.body) == OfContent {
      PromoteContentAtOnce(s.content, log, e, m);
    } else {
      PromoteCommunitiesAtOnce(s.communities, s.identities, pda, e, m);
    }
    hide Before, Verified, LaterTombstone;
    assert FamilyOf(e.body) == OfContent ==> forall c :: PromoteCommunities(c, e, m) == c;
    assert FamilyOf(e.body) == OfCommunity ==> forall c, l :: PromoteContent(c, l, e, m) == c;
  }

  lemma LaterTombstoneAfter(log: seq<Event>, f: Event, post: Event)
    requires post.body.PostPublished?
    requires forall i :: 0 <= i < |log| ==> Before(log[i].pos, f.pos)
    ensures LaterTombstone(log + [f], post) == if Tombstones(f, post) then Some(f) else LaterTombstone(log, post)
  {
    assert (log + [f])[..|log|] == log;
    if LaterTombstone(log, post).Some? {
      LaterTombstoneIsRecorded(log, post);
    }
  }

  lemma PostCommutesWithTombstone(c: Content, log: seq<Event>, e: Event, m: Manifest, f: Event, t: Treatment)
    requires f.body.Tombstoned? && e.body.PostPublished? && Verified(e, m) && PostsAreConsistent(e, f)
    requires LaterTombstone(log + [f], e) == if Tombstones(f, e) then Some(f) else LaterTombstone(log, e)
    requires Before(e.pos, f.pos)
    ensures TombstoneEffect(PromoteContent(c, log, e, m), f, t)
         == PromoteContent(TombstoneEffect(c, f, t), log + [f], e, m)
  {
    hide Before, CoordinateOf, SignerMatches, LaterTombstone;
    var p, y, o, o' := PromoteContent(c, log, e, m), TombstoneEffect(c, f, t), m.objectId, f.body.objectId;
    if o' == o {
      assert p.posts[o := p.posts[o].(tombstonedAt := Some(f.blockTime))]
          == y.posts[o := NewPost(e, m, Some(f.blockTime))];
    } else if o' in c.posts {
      assert p.posts[o' := p.posts[o'].(tombstonedAt := Some(f.blockTime))]
          == c.posts[o' := c.posts[o'].(tombstonedAt := Some(f.blockTime))][o := p.posts[o]];
    }
  }

  lemma PostCommutesWithPost(c: Content, log: seq<Event>, e: Event, m: Manifest, f: Event, t: Treatment)
    requires f.body.PostPublished? && PostEffect(c, f, t).Ok? && e.body.PostPublished?
    requires Verified(e, m) && TreatmentMatches(f, t) && PostsAreConsistent(e, f) && e != f
    requires LaterTombstone(log + [f], e) == LaterTombstone(log, e)
    ensures PostEffect(PromoteContent(c, log, e, m), f,
                       t) == Ok(PromoteContent(PostEffect(c, f, t).value, log + [f], e, m))
  {
    hide CoordinateOf, SignerMatches, LaterTombstone;
    var p, o := PromoteContent(c, log, e, m), m.objectId;
    if t.Accept? {
      var o' := t.manifest.value.objectId;
      assert p.posts[o' := NewPost(f, t.manifest.value, None)]
          == c.posts[o' := NewPost(f, t.manifest.value, None)][o := p.posts[o]];
    }
  }

  lemma PostCommutesWithProfile(c: Content, log: seq<Event>, e: Event, m: Manifest, f: Event, t: Treatment)
    requires f.body.ProfileUpdated? && ProfileEffect(c, f, t).Ok? && e.body.PostPublished?
    requires LaterTombstone(log + [f], e) == LaterTombstone(log, e)
    ensures ProfileEffect(PromoteContent(c, log, e, m), f,
                          t) == Ok(PromoteContent(ProfileEffect(c, f, t).value, log + [f], e, m))
  {
  }

  lemma PromotePostCommutes(c: Content, log: seq<Event>, e: Event, m: Manifest, f: Event, t: Treatment)
    requires FamilyOf(f.body) == OfContent && ContentEffect(c, f, t).Ok? && e.body.PostPublished?
    requires Verified(e, m) && TreatmentMatches(f, t) && PostsAreConsistent(e, f)
    requires e != f && Before(e.pos, f.pos)
    requires forall i :: 0 <= i < |log| ==> Before(log[i].pos, f.pos)
    ensures ContentEffect(PromoteContent(c, log, e, m), f, t)
         == Ok(PromoteContent(ContentEffect(c, f, t).value, log + [f], e, m))
  {
    LaterTombstoneAfter(log, f, e);
    hide Before, CoordinateOf, LaterTombstone, PostEffect, ProfileEffect, TombstoneEffect, PromoteContent, Verified,
      TreatmentMatches, PostsAreConsistent;
    if f.body.Tombstoned? {
      PostCommutesWithTombstone(c, log, e, m, f, t);
    } else if f.body.PostPublished? {
      PostCommutesWithPost(c, log, e, m, f, t);
    } else {
      PostCommutesWithProfile(c, log, e, m, f, t);
    }
  }

  lemma ProfileCommutesWithProfile(c: Content, log: seq<Event>, e: Event, m: Manifest, f: Event, t: Treatment)
    requires f.body.ProfileUpdated? && ProfileEffect(c, f, t).Ok? && e.body.ProfileUpdated?
    requires CoordinateOf(e.pos) != CoordinateOf(f.pos)
    ensures ProfileEffect(PromoteContent(c, log, e, m), f,
                          t) == Ok(PromoteContent(ProfileEffect(c, f, t).value, log + [f], e, m))
  {
    hide SignerMatches, CoordinateOf;
    if e.body.identity in c.latestProfile {
      var id, id', late := e.body.identity, f.body.identity, NewProfile(e, m);
      if t.Accept? {
        var next := NewProfile(f, t.manifest.value);
        assert c.profiles[id := late][id' := next]
            == if id == id' then c.profiles[id' := next] else c.profiles[id' := next][id := late];
      } else {
        assert c.profiles[id := late] - {id'}
            == if id == id' then c.profiles - {id'} else (c.profiles - {id'})[id := late];
      }
    }
  }

  lemma ProfileCommutesWithPosts(c: Content, log: seq<Event>, e: Event, m: Manifest, f: Event, t: Treatment)
    requires (f.body.PostPublished? || f.body.Tombstoned?) && ContentEffect(c, f, t).Ok? && e.body.ProfileUpdated?
    ensures ContentEffect(PromoteContent(c, log, e, m), f, t)
         == Ok(PromoteContent(ContentEffect(c, f, t).value, log + [f], e, m))
  {
  }

  lemma PromoteProfileCommutes(c: Content, log: seq<Event>, e: Event, m: Manifest, f: Event, t: Treatment)
    requires FamilyOf(f.body) == OfContent && ContentEffect(c, f, t).Ok? && e.body.ProfileUpdated?
    requires CoordinateOf(e.pos) != CoordinateOf(f.pos)
    ensures ContentEffect(PromoteContent(c, log, e, m), f, t)
         == Ok(PromoteContent(ContentEffect(c, f, t).value, log + [f], e, m))
  {
    hide CoordinateOf, ProfileEffect, PostEffect, TombstoneEffect, PromoteContent;
    if f.body.ProfileUpdated? {
      ProfileCommutesWithProfile(c, log, e, m, f, t);
    } else {
      ProfileCommutesWithPosts(c, log, e, m, f, t);
    }
  }

  /** Events of the other families leave alone what a late content manifest will be compared with. */
  lemma PromoteContentUnaffected(c: Content, log: seq<Event>, e: Event, m: Manifest, f: Event)
    requires FamilyOf(f.body) != OfContent
    requires forall i :: 0 <= i < |log| ==> Before(log[i].pos, f.pos)
    ensures PromoteContent(c, log + [f], e, m) == PromoteContent(c, log, e, m)
  {
  }

  lemma PromoteKeepsCores(c: Communities, e: Event, m: Manifest)
    ensures SameCores(PromoteCommunities(c, e, m), c)
  {
  }

  lemma PromoteTransitionCommutes(c: Communities, e: Event, m: Manifest, f: Event, proof: Option<MembershipProof>)
    requires f.body.MembershipChanged? && f.body.community in c.communities && Shows(c, e)
    requires (f.body.community, f.body.member) in c.memberships ==>
               f.body.stateSequence > c.memberships[(f.body.community, f.body.member)].core.stateSequence
    ensures Transition(PromoteCommunities(c, e, m), f, proof) == PromoteCommunities(Transition(c, f, proof), e, m)
  {
    hide CommunityAfter;
    var q, r := Transition(PromoteCommunities(c, e, m), f, proof), PromoteCommunities(Transition(c, f, proof), e, m);
    assert q.communities == r.communities;
    assert q.memberships == r.memberships;
  }

  lemma PromoteMembershipCommutes(c: Communities, ids: Identities, pda: Derivations, e: Event, m: Manifest,
                                  f: Event, t: Option<Manifest>)
    requires f.body.MembershipChanged? && MembershipEffect(c, ids, pda, f, t).Ok? && Shows(c, e)
    ensures MembershipEffect(PromoteCommunities(c, e, m), ids, pda, f, t)
         == Ok(PromoteCommunities(MembershipEffect(c, ids, pda, f, t).value, e, m))
  {
    PromoteKeepsCores(c, e, m);
    CheckAgrees(c, PromoteCommunities(c, e, m), ids, pda, f, t);
    PromoteTransitionCommutes(c, e, m, f, CheckTransition(c, ids, pda, f, t).value);
  }

  lemma PromoteCommunityCommutes(c: Communities, ids: Identities, pda: Derivations, e: Event, m: Manifest,
                                 f: Event, t: Treatment)
    requires FamilyOf(f.body) == OfCommunity && CommunityEffect(c, ids, pda, f, t).Ok? && Shows(c, e)
    ensures CommunityEffect(PromoteCommunities(c, e, m), ids, pda, f, t)
         == Ok(PromoteCommunities(CommunityEffect(c, ids, pda, f, t).value, e, m))
  {
    PromoteKeepsCores(c, e, m);
    if f.body.MembershipChanged? {
      PromoteMembershipCommutes(c, ids, pda, e, m, f, if t.Accept? then t.manifest else None);
    } else if f.body.CommunityCreated? {
      PromoteNewCommunityCommutes(c, ids, pda, e, m, f, t);
    } else {
      PromoteUpdateCommutes(c, ids, pda, e, m, f, t);
    }
    hide MembershipEffect, PromoteCommunities, MayUpdateGovernance, RequireManifest;
  }

  /** A community at a new address is none of the business of a promotion. */
  lemma NewCommunityKeepsPromotion(c: Communities, e: Event, m: Manifest, address: Address, added: Community)
    requires address !in c.communities && Shows(c, e)
    ensures address !in PromoteCommunities(c, e, m).communities
    ensures PromoteCommunities(c, e, m).(communities := PromoteCommunities(c, e, m).communities[address := added])
         == PromoteCommunities(c.(communities := c.communities[address := added]), e, m)
  {
    if e.body.CommunityCreated? {
      var a := e.body.community;
      var promoted := c.communities[a].(proof := Some(CommunityProofOf(m)));
      assert c.communities[a := promoted][address := added] == c.communities[address := added][a := promoted];
    }
  }

  lemma PromoteNewCommunityCommutes(c: Communities, ids: Identities, pda: Derivations, e: Event, m: Manifest,
                                    f: Event, t: Treatment)
    requires f.body.CommunityCreated? && Shows(c, e) && CommunityEffect(c, ids, pda, f, t).Ok?
    ensures CommunityEffect(PromoteCommunities(c, e, m), ids, pda, f, t)
         == Ok(PromoteCommunities(CommunityEffect(c, ids, pda, f, t).value, e, m))
  {
    var proof := if t.Accept? then Some(CommunityProofOf(t.manifest.value)) else None;
    var added := Community(NewCommunity(f), proof);
    NewCommunityKeepsPromotion(c, e, m, f.body.community, added);
    hide MembershipEffect, SignerMatches, NewCommunity, PromoteCommunities;
  }

  lemma PromoteUpdateCommutes(c: Communities, ids: Identities, pda: Derivations, e: Event, m: Manifest, f: Event,
                              t: Treatment)
    requires f.body.GovernanceUpdated? && Shows(c, e) && CommunityEffect(c, ids, pda, f, t).Ok?
    ensures CommunityEffect(PromoteCommunities(c, e, m), ids, pda, f, t)
         == Ok(PromoteCommunities(CommunityEffect(c, ids, pda, f, t).value, e, m))
  {
    hide MembershipEffect, RequireManifest, NewCommunity, MembershipProofOf;
    var q := CommunityEffect(PromoteCommunities(c, e, m), ids, pda, f, t).value;
    var r := PromoteCommunities(CommunityEffect(c, ids, pda, f, t).value, e, m);
    assert q.communities == r.communities;
    assert q.memberships == r.memberships;
  }

  lemma PromoteProposeCommutes(c: Communities, e: Event, m: Manifest, f: Event)
    requires f.body.ProposalCreated? && f.body.community in c.communities && Shows(c, e)
    ensures Propose(PromoteCommunities(c, e, m), f) == PromoteCommunities(Propose(c, f), e, m)
  {
  }

  lemma PromoteGovernanceCommutes(g: Governance, c: Communities, ids: Identities, pda: Derivations, e: Event,
                                  m: Manifest,
                                  f: Event)
    requires FamilyOf(f.body) == OfGovernance && GovernanceEffect(g, c, ids, pda, f).Ok? && Shows(c, e)
    ensures var y := GovernanceEffect(g, c, ids, pda, f).value;
            GovernanceEffect(g, PromoteCommunities(c, e, m), ids, pda, f) == Ok((y.0, PromoteCommunities(y.1, e, m)))
  {
    PromoteKeepsCores(c, e, m);
    GovernanceAgrees(g, c, PromoteCommunities(c, e, m), ids, pda, f);
    hide MayPropose, MayVote, MayFinalize, CastVote, NewProposal, PromoteCommunities, Propose, Shows;
    if f.body.ProposalCreated? {
      PromoteProposeCommutes(c, e, m, f);
    }
  }

  function PromotedUnder(y: State, log: seq<Event>, e: Event, m: Manifest, ledger: Ledger): State {
    y.(content := PromoteContent(y.content, log, e, m), communities := PromoteCommunities(y.communities, e, m),
       ledger := ledger)
  }

  lemma PromoteEffectCommutes(pda: Derivations, x: State, e: Event, m: Manifest, f: Event, t: Treatment)
    requires Effect(pda, x, f, t).Ok? && Verified(e, m) && TreatmentMatches(f, t)
    requires Shows(x.communities, e) && PostsAreConsistent(e, f) && e != f
    requires CoordinateOf(e.pos) != CoordinateOf(f.pos) && Before(e.pos, f.pos)
    requires forall i :: 0 <= i < |x.ledger.log| ==> Before(x.ledger.log[i].pos, f.pos)
    ensures Effect(pda, Promoted(x, e, m), f, t)
         == Ok(PromotedUnder(Effect(pda, x, f, t).value, x.ledger.log + [f], e, m, Promoted(x, e, m).ledger))
  {
    hide IdentityEffect, HandleEffect, RecoveryEffect, CommunityEffect, GovernanceEffect, ContentEffect,
      PromoteCommunities, Shows, PostsAreConsistent, TreatmentMatches, Before, CoordinateOf;
    if FamilyOf(f.body) == OfContent {
      if e.body.PostPublished? {
        PromotePostCommutes(x.content, x.ledger.log, e, m, f, t);
      } else if e.body.ProfileUpdated? {
        PromoteProfileCommutes(x.content, x.ledger.log, e, m, f, t);
      }
    } else {
      PromoteContentUnaffected(x.content, x.ledger.log, e, m, f);
    }
    hide PromoteContent, Verified;
    match FamilyOf(f.body)
    case OfSocial => PromoteReferences(x.content, x.ledger.log, e, m);
    case OfCommunity => PromoteCommunityCommutes(x.communities, x.identities, pda, e, m, f, t);
    case OfGovernance => PromoteGovernanceCommutes(x.governance, x.communities, x.identities, pda, e, m, f);
    case _ =>
  }

  lemma PromoteReferences(c: Content, log: seq<Event>, e: Event, m: Manifest)
    ensures PromoteContent(c, log, e, m).references == c.references
  {
  }

  /** Taking in a later event and promoting an earlier one can be done in either order. */
  lemma PromoteCommutes(pda: Derivations, x: State, e: Event, m: Manifest, f: Event, t: Treatment)
    requires Ingest(pda, x, f, t).Ok? && Verified(e, m) && TreatmentMatches(f, t)
    requires Shows(x.communities, e) && PostsAreConsistent(e, f) && e != f
    requires CoordinateOf(e.pos) != CoordinateOf(f.pos) && Before(e.pos, f.pos)
    requires forall i :: 0 <= i < |x.ledger.log| ==> Before(x.ledger.log[i].pos, f.pos)
    ensures Ingest(pda, Promoted(x, e, m), f, t) == Ok(Promoted(Ingest(pda, x, f, t).value, e, m))
  {
    hide Effect, ValidateLifecycle, Advance, PromoteCommunities, PromoteContent, Shows, PostsAreConsistent,
      TreatmentMatches, Before, Verified;
    PromoteEffectCommutes(pda, x, e, m, f, t);
    var c, d := CoordinateOf(e.pos), CoordinateOf(f.pos);
    assert (x.ledger.pending - {c}) + {d} == (x.ledger.pending + {d}) - {c};
    EffectKeepsLedger(pda, x, f, t);
  }

  lemma EffectKeepsLedger(pda: Derivations, s: State, e: Event, t: Treatment)
    requires Effect(pda, s, e, t).Ok?
    ensures Effect(pda, s, e, t).value.ledger == s.ledger
  {
    hide IdentityEffect, HandleEffect, RecoveryEffect, CommunityEffect, GovernanceEffect, ContentEffect, SocialEffect;
  }

  // ----- Rejection commutes as well -----

  lemma EffectIgnoresLedger(pda: Derivations, s: State, l: Ledger, e: Event, t: Treatment)
    requires Effect(pda, s, e, t).Ok?
    ensures Effect(pda, s.(ledger := l), e, t) == Ok(Effect(pda, s, e, t).value.(ledger := l))
  {
    hide IdentityEffect, HandleEffect, RecoveryEffect, CommunityEffect, GovernanceEffect, ContentEffect, SocialEffect;
  }

  lemma RejectCommutes(pda: Derivations, x: State, e: Event, code: string, f: Event, t: Treatment)
    requires Ingest(pda, x, f, t).Ok? && CoordinateOf(e.pos) != CoordinateOf(f.pos)
    ensures Ingest(pda, RejectedState(x, e, code), f, t) == Ok(RejectedState(Ingest(pda, x, f, t).value, e, code))
  {
    hide Effect, ValidateLifecycle, Advance;
    EffectIgnoresLedger(pda, x, RejectedState(x, e, code).ledger, f, t);
    EffectKeepsLedger(pda, x, f, t);
    var c, d := CoordinateOf(e.pos), CoordinateOf(f.pos);
    assert (x.ledger.pending - {c}) + {d} == (x.ledger.pending + {d}) - {c};
    if t.Quarantine? {
      assert x.ledger.terminal[c := code][d := t.code] == x.ledger.terminal[d := t.code][c := code];
    }
  }

  lemma QuarantineIsDeferral(pda: Derivations, s: State, e: Event, code: string)
    requires MayDefer(e.body)
    ensures Effect(pda, s, e, Quarantine(code)) == Effect(pda, s, e, Defer)
  {
  }

  lemma RejectAtOnce(pda: Derivations, s: State, e: Event, code: string)
    requires Ingest(pda, s, e, Defer).Ok? && CoordinateOf(e.pos) !in s.ledger.pending
    ensures Ingest(pda, s, e, Quarantine(code)) == Ok(RejectedState(Ingest(pda, s, e, Defer).value, e, code))
  {
    hide Effect, ValidateLifecycle, Advance;
    QuarantineIsDeferral(pda, s, e, code);
    EffectKeepsLedger(pda, s, e, Defer);
    assert s.ledger.pending + {CoordinateOf(e.pos)} - {CoordinateOf(e.pos)} == s.ledger.pending;
  }

  // ----- The ledger of a replay -----

  function ItemPosition(item: Item): Position {
    item.event.pos
  }

  function ItemCoordinate(item: Item): Coordinate {
    CoordinateOf(item.event.pos)
  }

  ghost predicate DistinctItems(items: seq<Item>) {
    forall i, j :: 0 <= i < j < |items| ==> ItemCoordinate(items[i]) != ItemCoordinate(items[j])
  }

  /** The ledger records exactly the treatments of the items. */
  ghost predicate LedgerMatches(l: Ledger, items: seq<Item>) {
    && l.log == EventsOf(items)
    && (forall c :: c in l.pending ==>
        exists i :: 0 <= i < |items| && ItemCoordinate(items[i]) == c && items[i].treatment.Defer?)
    && (forall i :: 0 <= i < |items| && items[i].treatment.Defer? ==> ItemCoordinate(items[i]) in l.pending)
    && (forall c :: c in l.terminal ==>
          exists i :: 0 <= i < |items| && ItemCoordinate(items[i]) == c
              && items[i].treatment == Quarantine(l.terminal[c]))
    && (forall i :: 0 <= i < |items| && items[i].treatment.Quarantine? ==> ItemCoordinate(items[i]) in l.terminal)
  }

  lemma IngestedLedger(pda: Derivations, s: State, e: Event, t: Treatment)
    requires Ingest(pda, s, e, t).Ok?
    ensures Ingest(pda, s, e, t).value.ledger == Record(s.ledger, e, t)
    ensures forall i :: 0 <= i < |s.ledger.log| ==> CoordinateOf(s.ledger.log[i].pos) != CoordinateOf(e.pos)
  {
    hide Effect, ValidateLifecycle, Advance;
  }

  lemma RecordMatches(l: Ledger, items: seq<Item>, item: Item)
    requires LedgerMatches(l, items) && DistinctItems(items)
    requires forall i :: 0 <= i < |items| ==> ItemCoordinate(items[i]) != ItemCoordinate(item)
    ensures LedgerMatches(Record(l, item.event, item.treatment), items + [item]) && DistinctItems(items + [item])
  {
    var l', items' := Record(l, item.event, item.treatment), items + [item];
    assert EventsOf(items') == EventsOf(items) + [item.event];
    assert items'[|items|] == item;
    forall c | c in l'.pending
      ensures exists i :: 0 <= i < |items'| && ItemCoordinate(items'[i]) == c && items'[i].treatment.Defer?
    {
      if c in l.pending {
        var i :| 0 <= i < |items| && ItemCoordinate(items[i]) == c && items[i].treatment.Defer?;
        assert items'[i] == items[i];
      }
    }
    forall c | c in l'.terminal
      ensures exists i :: 0 <= i < |items'| && ItemCoordinate(items'[i]) == c
                          && items'[i].treatment == Quarantine(l'.terminal[c])
    {
      if c in l.terminal {
        var i :| 0 <= i < |items| && ItemCoordinate(items[i]) == c && items[i].treatment == Quarantine(l.terminal[c]);
        assert items'[i] == items[i];
      }
    }
  }

  lemma {:induction false} ReplayLedger(pda: Derivations, items: seq<Item>)
    requires Replay(pda, items).Ok?
    ensures LedgerMatches(Replay(pda, items).value.ledger, items) && DistinctItems(items)
  {
    hide Ingest;
    if items != [] {
      var earlier, item := items[..|items| - 1], items[|items| - 1];
      ReplayLedger(pda, earlier);
      var l := Replay(pda, earlier).value.ledger;
      IngestedLedger(pda, Replay(pda, earlier).value, item.event, item.treatment);
      forall i | 0 <= i < |earlier| ensures ItemCoordinate(earlier[i]) != ItemCoordinate(item) {
        assert l.log[i] == earlier[i].event;
      }
      RecordMatches(l, earlier, item);
      assert items == earlier + [item];
    }
  }

  lemma {:induction false} ReplayFollowsLog(pda: Derivations, items: seq<Item>)
    requires Replay(pda, items).Ok?
    ensures MembershipsFollowLog(Replay(pda, items).value.communities, EventsOf(items))
  {
    hide Ingest, MembershipsFollowLog;
    if items != [] {
      var earlier, item := items[..|items| - 1], items[|items| - 1];
      ReplayFollowsLog(pda, earlier);
      ReplayLedger(pda, earlier);
      IngestFollowsLog(pda, Replay(pda, earlier).value, item.event, item.treatment);
      assert EventsOf(items) == EventsOf(earlier) + [item.event];
    } else {
      EmptyFollowsLog();
    }
  }

  lemma EmptyFollowsLog()
    ensures MembershipsFollowLog(EMPTY.communities, [])
  {
  }

  lemma {:induction false} ReplayPrefix(pda: Derivations, items: seq<Item>, i: nat)
    requires Replay(pda, items).Ok? && i <= |items|
    ensures Replay(pda, items[..i]).Ok?
  {
    hide Ingest;
    if i < |items| {
      ReplayPrefix(pda, items[..|items| - 1], i);
      assert items[..|items| - 1][..i] == items[..i];
    } else {
      assert items[..i] == items;
    }
  }

  // ----- Rewriting one item of a replay -----

  ghost predicate ItemsMatch(items: seq<Item>) {
    forall i :: 0 <= i < |items| ==> TreatmentMatches(items[i].event, items[i].treatment)
  }

  /** Facts about the events before and at a pending item that its promotion needs. */
  ghost predicate MayPromoteAt(pda: Derivations, items: seq<Item>, i: nat, m: Manifest)
    requires i < |items|
  {
    && items[i].treatment.Defer? && Verified(items[i].event, m) && Replay(pda, items[..i]).Ok?
    && (items[i].event.body.MembershipChanged? ==>
          ContinuesChain(HashOf(CurrentMembership(Replay(pda, items[..i]).value.communities, items[i].event.body)),
                         items[i].event.body.stateSequence, m))
  }

  lemma FreshInReplay(pda: Derivations, items: seq<Item>, i: nat)
    requires Replay(pda, items).Ok? && i < |items| && Replay(pda, items[..i]).Ok?
    ensures ItemCoordinate(items[i]) !in Replay(pda, items[..i]).value.ledger.pending
    ensures Replay(pda, items[..i]).value.ledger.log == EventsOf(items[..i])
  {
    ReplayLedger(pda, items);
    ReplayLedger(pda, items[..i]);
  }

  /** What the promotion of an earlier item needs to know about the last one. */
  lemma LastItemFollows(pda: Derivations, items: seq<Item>, i: nat)
    requires i < |items| - 1 && Replay(pda, items).Ok? && OrderlyLog(EventsOf(items))
    requires Replay(pda, items[..|items| - 1]).Ok?
    ensures var e, f := items[i].event, items[|items| - 1].event;
            && PostsAreConsistent(e, f) && Before(e.pos, f.pos) && e != f && CoordinateOf(e.pos) != CoordinateOf(f.pos)
            && Shows(Replay(pda, items[..|items| - 1]).value.communities, e)
  {
    hide Ingest, PostsAreConsistent, Before, CoordinateOf, LedgerMatches;
    var earlier, log := items[..|items| - 1], EventsOf(items);
    ReplayLedger(pda, items);
    ReplayFollowsLog(pda, earlier);
    assert Shows(Replay(pda, earlier).value.communities, EventsOf(earlier)[i]);
    assert PostsAreConsistent(log[i], log[|items| - 1]) && Before(log[i].pos, log[|items| - 1].pos);
    assert ItemCoordinate(items[i]) != ItemCoordinate(items[|items| - 1]);
  }

  lemma LogBeforeLast(pda: Derivations, items: seq<Item>)
    requires items != [] && Replay(pda, items).Ok? && Replay(pda, items[..|items| - 1]).Ok?
    requires InCanonicalOrder(EventsOf(items))
    ensures var log := Replay(pda, items[..|items| - 1]).value.ledger.log;
            forall j :: 0 <= j < |log| ==> Before(log[j].pos, items[|items| - 1].event.pos)
  {
    hide Ingest, Before, CoordinateOf;
    var log := Replay(pda, items[..|items| - 1]).value.ledger.log;
    FreshInReplay(pda, items, |items| - 1);
    forall j | 0 <= j < |log| ensures Before(log[j].pos, items[|items| - 1].event.pos) {
      assert Before(EventsOf(items)[j].pos, EventsOf(items)[|items| - 1].pos);
    }
  }

  /** Replaying with a manifest from the start is replaying without it, and promoting at the end. */
  lemma {:induction false} PromoteReplay(pda: Derivations, items: seq<Item>, i: nat, m: Manifest)
    requires i < |items| && Replay(pda, items).Ok? && OrderlyLog(EventsOf(items)) && ItemsMatch(items)
    requires MayPromoteAt(pda, items, i, m)
    ensures Replay(pda, items[i := Item(items[i].event, Accept(Some(m)))])
         == Ok(Promoted(Replay(pda, items).value, items[i].event, m))
    decreases |items|
  {
    hide Ingest, Promoted, Verified, ContinuesChain, CurrentMembership, ConsistentPosts, InCanonicalOrder, Before,
      Shows,
      PostsAreConsistent, TreatmentMatches, CoordinateOf;
    var n := |items| - 1;
    var earlier, item := items[..n], items[n];
    var changed := items[i := Item(items[i].event, Accept(Some(m)))];
    LogBeforeLast(pda, items);
    var x := Replay(pda, earlier).value;
    if i == n {
      FreshInReplay(pda, items, n);
      assert changed[..n] == earlier && items[..i] == earlier;
      PromoteAtOnce(pda, x, item.event, m);
    } else {
      assert earlier[..i] == items[..i];
      assert changed[..n] == earlier[i := changed[i]];
      OrderlyEvents(items);
      PromoteReplay(pda, earlier, i, m);
      LastItemFollows(pda, items, i);
      PromoteCommutes(pda, x, items[i].event, m, item.event, item.treatment);
    }
  }

  lemma OrderlyEvents(items: seq<Item>)
    requires items != [] && OrderlyLog(EventsOf(items))
    ensures OrderlyLog(EventsOf(items[..|items| - 1]))
  {
    hide OrderlyLog;
    assert EventsOf(items[..|items| - 1]) == EventsOf(items)[..|items| - 1];
    OrderlyPrefix(EventsOf(items), EventsOf(items[..|items| - 1]));
  }

  /** Replaying an event as quarantined is replaying it as pending, and rejecting it at the end. */
  lemma {:induction false} RejectReplay(pda: Derivations, items: seq<Item>, i: nat, code: string)
    requires i < |items| && Replay(pda, items).Ok? && items[i].treatment.Defer? && MayDefer(items[i].event.body)
    ensures Replay(pda, items[i := Item(items[i].event, Quarantine(code))])
         == Ok(RejectedState(Replay(pda, items).value, items[i].event, code))
    decreases |items|
  {
    hide Ingest, RejectedState, DistinctItems, LedgerMatches, MayDefer, CoordinateOf;
    var n := |items| - 1;
    var earlier, item := items[..n], items[n];
    var changed := items[i := Item(items[i].event, Quarantine(code))];
    var x := Replay(pda, earlier).value;
    if i == n {
      assert changed[..n] == earlier;
      FreshInReplay(pda, items, n);
      RejectAtOnce(pda, x, item.event, code);
    } else {
      assert changed[..n] == earlier[i := changed[i]];
      RejectReplay(pda, earlier, i, code);
      DifferentItems(pda, items, i, n);
      RejectCommutes(pda, x, items[i].event, code, item.event, item.treatment);
    }
  }

  lemma DifferentItems(pda: Derivations, items: seq<Item>, i: nat, j: nat)
    requires Replay(pda, items).Ok? && i < j < |items|
    ensures CoordinateOf(items[i].event.pos) != CoordinateOf(items[j].event.pos)
  {
    ReplayLedger(pda, items);
    hide Replay, CoordinateOf, LedgerMatches;
    assert ItemCoordinate(items[i]) != ItemCoordinate(items[j]);
  }

  lemma RetreatIsUpdate(items: seq<Item>, i: nat, t: Treatment)
    requires DistinctItems(items) && i < |items|
    ensures Retreat(items, ItemCoordinate(items[i]), t) == items[i := Item(items[i].event, t)]
  {
  }

  /** The item behind a recorded event whose manifest is pending. */
  lemma PendingItem(pda: Derivations, items: seq<Item>, e: Event) returns (i: nat)
    requires Replay(pda, items).Ok? && CoordinateOf(e.pos) in Replay(pda, items).value.ledger.pending
    requires Lookup(Replay(pda, items).value.ledger.log, CoordinateOf(e.pos)) == Some(e)
    ensures i < |items| && items[i] == Item(e, Defer)
  {
    hide Ingest;
    ReplayLedger(pda, items);
    i :| 0 <= i < |items| && ItemCoordinate(items[i]) == CoordinateOf(e.pos) && items[i].treatment.Defer?;
    var log := Replay(pda, items).value.ledger.log;
    var j :| 0 <= j < |log| && log[j] == e;
    if i < j {
      assert ItemCoordinate(items[i]) != ItemCoordinate(items[j]);
    } else if j < i {
      assert ItemCoordinate(items[j]) != ItemCoordinate(items[i]);
    }
  }

  /** What the store checks when a late manifest arrives is what it would have checked at ingestion. */
  lemma LateCheckIsEarlyCheck(pda: Derivations, items: seq<Item>, i: nat, m: Manifest)
    requires Replay(pda, items).Ok? && i < |items| && items[i].treatment.Defer? && Verified(items[i].event, m)
    requires items[i].event.body.MembershipChanged? ==>
               ContinuesChain(PreviousHash(EventsOf(items), items[i].event.body), items[i].event.body.stateSequence, m)
    ensures MayPromoteAt(pda, items, i, m)
  {
    ReplayPrefix(pda, items, i);
    if items[i].event.body.MembershipChanged? {
      ReplayPrefix(pda, items, i + 1);
      assert items[..i + 1][..i] == items[..i];
      var s, e := Replay(pda, items[..i]).value, items[i].event;
      MembershipsChangeOnlyInTransitions(pda, s, e, Defer);
      ReplayFollowsLog(pda, items);
      ReplayFollowsLog(pda, items[..i]);
      hide Ingest, ContinuesMembership, ContinuesPolicy, AddressIsFree, Shows, MadeBy, Transition;
      assert EventsOf(items[..i]) <= EventsOf(items);
      StateSequencePositive(s.communities.communities[e.body.community].core, CurrentMembership(s.communities, e.body),
                            e.body);
      PreviousHashIsCurrent(s.communities, EventsOf(items[..i]), EventsOf(items),
                            s.communities.communities[e.body.community].core, e.body);
    }
  }

  lemma StateSequencePositive(core: CommunityCore, current: Option<MembershipCore>, b: Body)
    requires b.MembershipChanged? && ContinuesMembership(core, current, b)
    ensures b.stateSequence > 0
  {
  }

  // ----- The theorem -----

  ghost predicate OpsMatch(ops: seq<Op>) {
    forall k :: 0 <= k < |ops| ==> TreatmentMatches(ops[k].event, TreatmentOf(ops[k]))
  }

  lemma OrderlyPrefix(log: seq<Event>, prefix: seq<Event>)
    requires OrderlyLog(log) && prefix <= log
    ensures OrderlyLog(prefix)
  {
  }

  lemma PerformedLog(pda: Derivations, s: State, op: Op)
    requires Perform(pda, s, op).Ok? && Perform(pda, s, op).value.applied
    ensures var next := Perform(pda, s, op).value.state;
            if op.PromoteOp? || op.RejectOp? then next.ledger.log == s.ledger.log
            else next.ledger.log == s.ledger.log + [op.event] && Ingest(pda, s, op.event, TreatmentOf(op)) == Ok(next)
  {
    hide Effect, ValidateLifecycle, Advance;
  }

  /** What the guards of a promotion that goes through have established. */
  lemma PromotionGuards(s: State, e: Event, m: Manifest)
    requires Promote(s, e, m).Ok? && Promote(s, e, m).value.applied && ManifestMatches(e, m)
    ensures Promote(s, e, m).value.state == Promoted(s, e, m) && Verified(e, m)
    ensures CoordinateOf(e.pos) in s.ledger.pending && Lookup(s.ledger.log, CoordinateOf(e.pos)) == Some(e)
    ensures e.body.MembershipChanged? ==>
              ContinuesChain(PreviousHash(s.ledger.log, e.body), e.body.stateSequence, m)
  {
    hide Promoted, ManifestMatches, PreviousHash;
  }

  lemma PromotedStep(pda: Derivations, items: seq<Item>, s: State, e: Event, m: Manifest)
    requires Replay(pda, items) == Ok(s) && OrderlyLog(s.ledger.log) && ItemsMatch(items) && ManifestMatches(e, m)
    requires Promote(s, e, m).Ok? && Promote(s, e, m).value.applied
    ensures Replay(pda, Retreat(items, CoordinateOf(e.pos), Accept(Some(m)))) == Ok(Promote(s, e, m).value.state)
    ensures ItemsMatch(Retreat(items, CoordinateOf(e.pos), Accept(Some(m))))
  {
    PromotionGuards(s, e, m);
    hide Ingest, Promote, Promoted, Verified, ManifestMatches, ContinuesChain, PreviousHash;
    ReplayLedger(pda, items);
    var i := PendingItem(pda, items, e);
    hide LedgerMatches;
    assert s.ledger.log == EventsOf(items) by {
      assert LedgerMatches(s.ledger, items);
      ReplayFollowsChain(pda, items);
    }
    RetreatIsUpdate(items, i, Accept(Some(m)));
    LateCheckIsEarlyCheck(pda, items, i, m);
    PromoteReplay(pda, items, i, m);
  }

  lemma RejectedStep(pda: Derivations, items: seq<Item>, s: State, e: Event, code: string)
    requires Replay(pda, items) == Ok(s) && ItemsMatch(items)
    requires Reject(s, e, code).Ok? && Reject(s, e, code).value.applied
    ensures Replay(pda, Retreat(items, CoordinateOf(e.pos), Quarantine(code))) == Ok(Reject(s, e, code).value.state)
    ensures ItemsMatch(Retreat(items, CoordinateOf(e.pos), Quarantine(code)))
  {
    hide Ingest, RejectedState;
    assert Lookup(s.ledger.log, CoordinateOf(e.pos)) == Some(e);
    ReplayLedger(pda, items);
    var i := PendingItem(pda, items, e);
    RetreatIsUpdate(items, i, Quarantine(code));
    RejectReplay(pda, items, i, code);
  }

  /**
   Whatever order manifests arrived in, were promoted or were given up, the store is in the state that one
   replay of its log reaches with the treatments the manifests finally got.
   */
  lemma {:induction false} RunIsReplay(pda: Derivations, ops: seq<Op>)
    requires OpsMatch(ops) && OrderlyLog(Run(pda, ops).ledger.log)
    ensures Replay(pda, Execute(pda, ops).items) == Ok(Run(pda, ops))
    ensures ItemsMatch(Execute(pda, ops).items)
  {
    hide Perform, Ingest, OrderlyLog;
    if ops != [] {
      var earlier, op := ops[..|ops| - 1], ops[|ops| - 1];
      var x := Execute(pda, earlier);
      var outcome := Perform(pda, x.state, op);
      if outcome.Ok? && outcome.value.applied {
        PerformedLog(pda, x.state, op);
      }
      OrderlyPrefix(Run(pda, ops).ledger.log, x.state.ledger.log);
      RunIsReplay(pda, earlier);
      if outcome.Ok? && outcome.value.applied {
        assert TreatmentMatches(op.event, TreatmentOf(op));
        LastStep(pda, x, op);
      }
    }
  }

  lemma LastArrival(pda: Derivations, items: seq<Item>, s: State, item: Item, next: State)
    requires Replay(pda, items) == Ok(s) && ItemsMatch(items) && TreatmentMatches(item.event, item.treatment)
    requires Ingest(pda, s, item.event, item.treatment) == Ok(next)
    ensures Replay(pda, items + [item]) == Ok(next) && ItemsMatch(items + [item])
  {
    hide Ingest, TreatmentMatches;
    assert (items + [item])[..|items|] == items;
  }

  lemma LastStep(pda: Derivations, x: Execution, op: Op)
    requires Replay(pda, x.items) == Ok(x.state) && OrderlyLog(x.state.ledger.log) && ItemsMatch(x.items)
    requires TreatmentMatches(op.event, TreatmentOf(op))
    requires Perform(pda, x.state, op).Ok? && Perform(pda, x.state, op).value.applied
    ensures Replay(pda, Continue(pda, x, op).items) == Ok(Continue(pda, x, op).state)
    ensures ItemsMatch(Continue(pda, x, op).items)
  {
    hide Ingest, OrderlyLog, Promote, Reject, Apply, DeferEvent, QuarantineEvent, Replay, ItemsMatch, Retreat;
    match op
    case PromoteOp(e, m) => PromotedStep(pda, x.items, x.state, e, m);
    case RejectOp(e, code) => RejectedStep(pda, x.items, x.state, e, code);
    case _ =>
      PerformedLog(pda, x.state, op);
      hide Perform;
      LastArrival(pda, x.items, x.state, Item(op.event, TreatmentOf(op)), Continue(pda, x, op).state);
  }

  /** The guard on the positions of a run's log, as the rebuild applies it before sorting. */
  ghost predicate OrderableItems(items: seq<Item>) {
    Orderable(items, ItemPosition)
  }

  /**
   Rebuilding from the raw events, supplied in any order with their final treatments, succeeds and restores
   exactly the state that the store is in.
   */
  lemma RebuildRestores(pda: Derivations, ops: seq<Op>, supplied: seq<Item>)
    requires OpsMatch(ops) && OrderlyLog(Run(pda, ops).ledger.log)
    requires OrderableItems(Execute(pda, ops).items) && multiset(supplied) == multiset(Execute(pda, ops).items)
    ensures Replay(pda, Sort(supplied, ItemPosition)) == Ok(Run(pda, ops))
  {
    hide Perform, Ingest, Orderable;
    var items := Execute(pda, ops).items;
    RunIsReplay(pda, ops);
    ReplayFollowsChain(pda, items);
    forall i, j | 0 <= i < j < |items| ensures Before(ItemPosition(items[i]), ItemPosition(items[j])) {
      assert EventsOf(items)[i] == items[i].event && EventsOf(items)[j] == items[j].event;
    }
    SortIsCanonical(items, supplied, ItemPosition);
    SortedUnique(Sort(items, ItemPosition), items, ItemPosition);
  }

  /** Two runs that end with the same log and the same treatments end in the same state. */
  lemma TimingIsIrrelevant(pda: Derivations, ops: seq<Op>, others: seq<Op>)
    requires OpsMatch(ops) && OpsMatch(others) && OrderlyLog(Run(pda, ops).ledger.log)
    requires Execute(pda, ops).items == Execute(pda, others).items
    requires OrderlyLog(Run(pda, others).ledger.log)
    ensures Run(pda, ops) == Run(pda, others)
  {
    RunIsReplay(pda, ops);
    RunIsReplay(pda, others);
  }

  // ----- Why tombstones must name their author's posts -----

  lemma LastTombstone(log: seq<Event>, e: Event, f: Event)
    requires e.body.PostPublished? && f.body.Tombstoned? && f.body.objectId == e.body.objectId
    requires Before(e.pos, f.pos) && LaterTombstone(log, e).None?
    ensures LaterTombstone(log + [f], e) == if f.body.identity == e.body.identity then Some(f) else None
  {
    hide Before;
    assert (log + [f])[..|log|] == log;
  }

  lemma StoredThenHidden(c: Content, e: Event, m: Manifest, f: Event)
    requires e.body.PostPublished? && f.body.Tombstoned? && f.body.objectId == m.objectId
    ensures TombstoneEffect(c.(posts := c.posts[m.objectId := NewPost(e, m, None)]), f, Accept(None))
         == c.(posts := c.posts[m.objectId := NewPost(e, m, Some(f.blockTime))])
  {
  }

  lemma HiddenThenStored(c: Content, f: Event, o: ObjectId, post: Post)
    requires f.body.Tombstoned? && f.body.objectId == o
    ensures var hidden := TombstoneEffect(c, f, Accept(None));
            hidden.(posts := hidden.posts[o := post]) == c.(posts := c.posts[o := post])
  {
  }

  /**
   A live tombstone hides its target whoever sent it; a late post only looks for tombstones by its own author.
   The two agree exactly when the sender is the author.
   */
  lemma TombstoneCommutesOnlyForAuthors(c: Content, log: seq<Event>, e: Event, m: Manifest, f: Event)
    requires e.body.PostPublished? && f.body.Tombstoned? && f.body.objectId == e.body.objectId
    requires Verified(e, m) && Before(e.pos, f.pos) && LaterTombstone(log, e).None?
    ensures var tombstoned := ContentEffect(PromoteContent(c, log, e, m), f, Accept(None)).value;
            var promoted := PromoteContent(ContentEffect(c, f, Accept(None)).value, log + [f], e, m);
            tombstoned == promoted <==> f.body.identity == e.body.identity
  {
    LastTombstone(log, e, f);
    var o, late := m.objectId, LaterTombstone(log + [f], e);
    assert o == f.body.objectId;
    var hiddenAt := if late.Some? then Some(late.value.blockTime) else None;
    StoredThenHidden(c, e, m, f);
    HiddenThenStored(c, f, o, NewPost(e, m, hiddenAt));
    hide Before, Verified, LaterTombstone, TombstoneEffect;
    assert c.posts[o := NewPost(e, m, Some(f.blockTime))][o].tombstonedAt == Some(f.blockTime);
    assert c.posts[o := NewPost(e, m, hiddenAt)][o].tombstonedAt == hiddenAt;
  }

  // ----- Why posts must have different object identifiers -----

  /** The post that a promotion stores. */
  function PromotedPost(log: seq<Event>, e: Event, m: Manifest): Post
    requires e.body.PostPublished?
  {
    var tombstone := LaterTombstone(log, e);
    NewPost(e, m, if tombstone.Some? then Some(tombstone.value.blockTime) else None)
  }

  /** Two late posts can be promoted in either order exactly when they are different posts, or the very same record. */
  lemma PromotionsCommuteOnlyForDifferentPosts(c: Content, log: seq<Event>, e: Event, m: Manifest, f: Event,
                                               n: Manifest)
    requires e.body.PostPublished? && f.body.PostPublished?
    ensures (PromoteContent(PromoteContent(c, log, e, m), log, f, n)
             == PromoteContent(PromoteContent(c, log, f, n), log, e, m))
       <==> m.objectId != n.objectId || PromotedPost(log, e, m) == PromotedPost(log, f, n)
  {
    hide LaterTombstone, NewPost;
    var one := PromoteContent(PromoteContent(c, log, e, m), log, f, n);
    var other := PromoteContent(PromoteContent(c, log, f, n), log, e, m);
    assert one.posts == c.posts[m.objectId := PromotedPost(log, e, m)][n.objectId := PromotedPost(log, f, n)];
    assert other.posts == c.posts[n.objectId := PromotedPost(log, f, n)][m.objectId := PromotedPost(log, e, m)];
    if m.objectId == n.objectId {
      assert one.posts[m.objectId] == PromotedPost(log, f, n) && other.posts[m.objectId] == PromotedPost(log, e, m);
    } else {
      assert one.posts == other.posts;
    }
  }
}
