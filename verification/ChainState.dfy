/**
 The part of the projection that the chain alone decides. It is a function of the raw log: which manifests
 were available, when they arrived and whether they were any good makes no difference to it.
 */
module ChainState {
  import opened Wrappers
  import opened ProtocolEvents
  import opened Projection
  import opened ManifestLifecycle

  /** Ingestion that never looks at a manifest. */
  function Bare(b: Body): Treatment {
    if MayDefer(b) then Defer else Accept(None)
  }

  function Chain(pda: Derivations, log: seq<Event>): Outcome<State> {
    if log == [] then Ok(EMPTY)
    else
      var s :- Chain(pda, log[..|log| - 1]);
      Ingest(pda, s, log[|log| - 1], Bare(log[|log| - 1].body))
  }

  ghost predicate SameCores(a: Communities, b: Communities) {
    && a.communities.Keys == b.communities.Keys
    && (forall k :: k in a.communities ==> a.communities[k].core == b.communities[k].core)
    && a.memberships.Keys == b.memberships.Keys
    && (forall k :: k in a.memberships ==> a.memberships[k].core == b.memberships[k].core)
  }

  /** Two states differ at most in what manifests contribute. */
  ghost predicate Agrees(a: State, b: State) {
    && a.ledger.log == b.ledger.log
    && a.identities == b.identities && a.handles == b.handles && a.recovery == b.recovery
    && a.social == b.social && a.governance == b.governance
    && a.content.latestProfile == b.content.latestProfile
    && a.content.references.Keys == b.content.references.Keys
    && SameCores(a.communities, b.communities)
  }

  // ----- One event -----

  lemma PostAgrees(a: Content, b: Content, e: Event, t: Treatment)
    requires e.body.PostPublished? && PostEffect(a, e, t).Ok?
    requires a.latestProfile == b.latestProfile && a.references.Keys == b.references.Keys
    ensures PostEffect(b, e, Bare(e.body)).Ok?
    ensures var x, y := PostEffect(a, e, t).value, PostEffect(b, e, Bare(e.body)).value;
            x.latestProfile == y.latestProfile && x.references.Keys == y.references.Keys
  {
  }

  lemma ProfileAgrees(a: Content, b: Content, e: Event, t: Treatment)
    requires e.body.ProfileUpdated? && ProfileEffect(a, e, t).Ok?
    requires a.latestProfile == b.latestProfile && a.references.Keys == b.references.Keys
    ensures ProfileEffect(b, e, Bare(e.body)).Ok?
    ensures var x, y := ProfileEffect(a, e, t).value, ProfileEffect(b, e, Bare(e.body)).value;
            x.latestProfile == y.latestProfile && x.references.Keys == y.references.Keys
  {
  }

  lemma ContentAgrees(a: Content, b: Content, e: Event, t: Treatment)
    requires FamilyOf(e.body) == OfContent && ContentEffect(a, e, t).Ok?
    requires a.latestProfile == b.latestProfile && a.references.Keys == b.references.Keys
    ensures ContentEffect(b, e, Bare(e.body)).Ok?
    ensures var x, y := ContentEffect(a, e, t).value, ContentEffect(b, e, Bare(e.body)).value;
            x.latestProfile == y.latestProfile && x.references.Keys == y.references.Keys
  {
    hide ProfileEffect, PostEffect;
    if e.body.ProfileUpdated? {
      ProfileAgrees(a, b, e, t);
    } else if e.body.PostPublished? {
      PostAgrees(a, b, e, t);
    }
  }

  /** The checks on a transition read the cores only, and a manifest can only make them stricter. */
  lemma CheckAgrees(a: Communities, b: Communities, ids: Identities, pda: Derivations, e: Event, m: Option<Manifest>)
    requires e.body.MembershipChanged? && SameCores(a, b)
    ensures CheckTransition(a, ids, pda, e, m) == CheckTransition(b, ids, pda, e, m)
    ensures CheckTransition(a, ids, pda, e, m).Ok? ==> CheckTransition(a, ids, pda, e, None).Ok?
  {
    hide ContinuesPolicy, ContinuesMembership, IdentifiesTransition, ContinuesChain;
    assert CurrentMembership(a, e.body) == CurrentMembership(b, e.body);
    assert AddressIsFree(a, e.body) == AddressIsFree(b, e.body) by {
      assert forall k :: k in a.memberships ==> a.memberships[k].core.address == b.memberships[k].core.address;
    }
  }

  lemma TransitionAgrees(a: Communities, b: Communities, e: Event, p: Option<MembershipProof>,
                         q: Option<MembershipProof>)
    requires e.body.MembershipChanged? && SameCores(a, b) && e.body.community in a.communities
    ensures SameCores(Transition(a, e, p), Transition(b, e, q))
  {
  }

  lemma OtherCommunityEventAgrees(a: Communities, b: Communities, ids: Identities, pda: Derivations, e: Event,
                                  t: Treatment)
    requires e.body.CommunityCreated? || e.body.GovernanceUpdated?
    requires CommunityEffect(a, ids, pda, e, t).Ok? && SameCores(a, b)
    ensures CommunityEffect(b, ids, pda, e, Bare(e.body)).Ok?
    ensures SameCores(CommunityEffect(a, ids, pda, e, t).value, CommunityEffect(b, ids, pda, e, Bare(e.body)).value)
  {
    hide MembershipEffect, SignerMatches, NewCommunity;
  }

  lemma CommunityAgrees(a: Communities, b: Communities, ids: Identities, pda: Derivations, e: Event, t: Treatment)
    requires FamilyOf(e.body) == OfCommunity && CommunityEffect(a, ids, pda, e, t).Ok? && SameCores(a, b)
    ensures CommunityEffect(b, ids, pda, e, Bare(e.body)).Ok?
    ensures SameCores(CommunityEffect(a, ids, pda, e, t).value, CommunityEffect(b, ids, pda, e, Bare(e.body)).value)
  {
    hide CheckTransition, Transition, SameCores, RequireManifest, MayUpdateGovernance;
    if e.body.MembershipChanged? {
      var m := if t.Accept? then t.manifest else None;
      CheckAgrees(a, b, ids, pda, e, m);
      CheckAgrees(a, b, ids, pda, e, None);
      TransitionIsKnown(a, ids, pda, e, m);
      TransitionAgrees(a, b, e, CheckTransition(a, ids, pda, e, m).value, None);
    } else {
      OtherCommunityEventAgrees(a, b, ids, pda, e, t);
    }
  }

  lemma TransitionIsKnown(c: Communities, ids: Identities, pda: Derivations, e: Event, m: Option<Manifest>)
    requires e.body.MembershipChanged?
    ensures CheckTransition(c, ids, pda, e, m).Ok? ==> e.body.community in c.communities
    ensures CheckTransition(c, ids, pda, e, None).Ok? ==> CheckTransition(c, ids, pda, e, None).value == None
  {
  }

  lemma EligibleAgrees(a: Communities, b: Communities, community: Address)
    requires SameCores(a, b)
    ensures EligibleMembers(a, community) == EligibleMembers(b, community)
  {
  }

  lemma GovernanceAgrees(g: Governance, a: Communities, b: Communities, ids: Identities, pda: Derivations, e: Event)
    requires FamilyOf(e.body) == OfGovernance && GovernanceEffect(g, a, ids, pda, e).Ok? && SameCores(a, b)
    ensures GovernanceEffect(g, b, ids, pda, e).Ok?
    ensures var x, y := GovernanceEffect(g, a, ids, pda, e).value, GovernanceEffect(g, b, ids, pda, e).value;
            x.0 == y.0 && SameCores(x.1, y.1)
  {
    if e.body.ProposalCreated? {
      EligibleAgrees(a, b, e.body.community);
    }
  }

  lemma EffectAgrees(pda: Derivations, a: State, b: State, e: Event, t: Treatment)
    requires Agrees(a, b) && Effect(pda, a, e, t).Ok?
    ensures Effect(pda, b, e, Bare(e.body)).Ok?
    ensures Agrees(Effect(pda, a, e, t).value, Effect(pda, b, e, Bare(e.body)).value)
  {
    hide IdentityEffect, HandleEffect, RecoveryEffect, ContentEffect, CommunityEffect, GovernanceEffect, SameCores;
    match FamilyOf(e.body)
    case OfContent => ContentAgrees(a.content, b.content, e, t);
    case OfCommunity => CommunityAgrees(a.communities, b.communities, a.identities, pda, e, t);
    case OfGovernance => GovernanceAgrees(a.governance, a.communities, b.communities, a.identities, pda, e);
    case _ =>
  }

  lemma IngestAgrees(pda: Derivations, a: State, b: State, e: Event, t: Treatment)
    requires Agrees(a, b) && Ingest(pda, a, e, t).Ok?
    ensures Ingest(pda, b, e, Bare(e.body)).Ok?
    ensures Agrees(Ingest(pda, a, e, t).value, Ingest(pda, b, e, Bare(e.body)).value)
  {
    hide Effect, ValidateLifecycle, Advance, SameCores;
    EffectAgrees(pda, a, b, e, t);
  }

  lemma PromotedAgrees(a: State, b: State, e: Event, m: Manifest)
    requires Agrees(a, b)
    ensures Agrees(Promoted(a, e, m), b)
  {
  }

  // ----- Whole runs -----

  /** What an operation that changes the store does to the log, and to its agreement with the chain. */
  lemma PerformAgrees(pda: Derivations, s: State, c: State, op: Op)
    requires Agrees(s, c) && Perform(pda, s, op).Ok? && Perform(pda, s, op).value.applied
    ensures var next := Perform(pda, s, op).value.state;
            if op.PromoteOp? || op.RejectOp? then next.ledger.log == s.ledger.log && Agrees(next, c)
            else
              && next.ledger.log == s.ledger.log + [op.event]
              && Ingest(pda, s, op.event, TreatmentOf(op)) == Ok(next)
              && Ingest(pda, c, op.event, Bare(op.event.body)).Ok?
              && Agrees(next, Ingest(pda, c, op.event, Bare(op.event.body)).value)
  {
    hide Effect, ValidateLifecycle, Advance, SameCores, PromoteContent, PromoteCommunities;
    match op
    case PromoteOp(e, m) => PromotedAgrees(s, c, e, m);
    case RejectOp(e, code) =>
    case ApplyOp(e, m) => IngestAgrees(pda, s, c, e, TreatmentOf(op));
    case DeferOp(e) => IngestAgrees(pda, s, c, e, TreatmentOf(op));
    case QuarantineOp(e, code) => IngestAgrees(pda, s, c, e, TreatmentOf(op));
  }

  lemma EmptyAgrees()
    ensures Agrees(EMPTY, EMPTY)
  {
  }

  /** After any run whatsoever, the chain's part of the projection is what the raw log alone determines. */
  lemma {:induction false} RunFollowsChain(pda: Derivations, ops: seq<Op>)
    ensures Chain(pda, Run(pda, ops).ledger.log).Ok?
    ensures Agrees(Run(pda, ops), Chain(pda, Run(pda, ops).ledger.log).value)
  {
    hide Ingest, Perform, Agrees;
    if ops != [] {
      var earlier, op := ops[..|ops| - 1], ops[|ops| - 1];
      RunFollowsChain(pda, earlier);
      var s := Run(pda, earlier);
      var outcome := Perform(pda, s, op);
      if outcome.Ok? && outcome.value.applied {
        PerformAgrees(pda, s, Chain(pda, s.ledger.log).value, op);
        assert Run(pda, ops) == outcome.value.state;
        assert (s.ledger.log + [op.event])[..|s.ledger.log|] == s.ledger.log;
      }
    } else {
      EmptyAgrees();
    }
  }

  /** Replaying raw events, under any treatments that succeed, agrees with the chain as well. */
  lemma {:induction false} ReplayFollowsChain(pda: Derivations, items: seq<Item>)
    requires Replay(pda, items).Ok?
    ensures Replay(pda, items).value.ledger.log == EventsOf(items)
    ensures Chain(pda, EventsOf(items)).Ok?
    ensures Agrees(Replay(pda, items).value, Chain(pda, EventsOf(items)).value)
  {
    hide Ingest, Agrees;
    if items != [] {
      var earlier, item := items[..|items| - 1], items[|items| - 1];
      ReplayFollowsChain(pda, earlier);
      IngestedLog(pda, Replay(pda, earlier).value, item.event, item.treatment);
      assert EventsOf(items) == EventsOf(earlier) + [item.event];
      assert EventsOf(items)[..|items| - 1] == EventsOf(earlier);
      IngestAgrees(pda, Replay(pda, earlier).value, Chain(pda, EventsOf(earlier)).value, item.event, item.treatment);
    } else {
      EmptyAgrees();
    }
  }

  // ----- Prefixes of a log -----

  lemma IngestedLog(pda: Derivations, s: State, e: Event, t: Treatment)
    requires Ingest(pda, s, e, t).Ok?
    ensures Ingest(pda, s, e, t).value.ledger.log == s.ledger.log + [e]
  {
    hide Effect, ValidateLifecycle, Advance;
  }

  lemma {:induction false} ChainPrefix(pda: Derivations, log: seq<Event>, i: nat)
    requires Chain(pda, log).Ok? && i <= |log|
    ensures Chain(pda, log[..i]).Ok? && Chain(pda, log[..i]).value.ledger.log == log[..i]
    decreases |log|
  {
    hide Ingest;
    if i < |log| {
      ChainPrefix(pda, log[..|log| - 1], i);
      assert log[..|log| - 1][..i] == log[..i];
    } else if log != [] {
      ChainPrefix(pda, log[..|log| - 1], |log| - 1);
      assert log[..|log| - 1][..|log| - 1] == log[..|log| - 1];
      var e := log[|log| - 1];
      IngestedLog(pda, Chain(pda, log[..|log| - 1]).value, e, Bare(e.body));
      assert log[..i] == log == log[..|log| - 1] + [e];
    }
  }

  /** The state after i events, and the event that follows it. */
  lemma ChainStep(pda: Derivations, log: seq<Event>, i: nat)
    requires Chain(pda, log).Ok? && i < |log|
    ensures Chain(pda, log[..i]).Ok? && Chain(pda, log[..i + 1]).Ok?
    ensures Ingest(pda, Chain(pda, log[..i]).value, log[i], Bare(log[i].body)) == Chain(pda, log[..i + 1])
    ensures Chain(pda, log[..i]).value.ledger.log == log[..i]
  {
    ChainPrefix(pda, log, i);
    ChainPrefix(pda, log, i + 1);
    assert log[..i + 1][..i] == log[..i] && log[..i + 1][i] == log[i];
  }
}
