/**
 Whether a key could sign for an identity at some past position. The store answers from the history it keeps;
 the answer is the one that the current root, the live delegations and the active flag gave at that position.
 */
module Authorization {
  import opened Wrappers
  import opened EventOrder
  import opened ProtocolEvents
  import opened Projection
  import opened ManifestLifecycle
  import opened ChainState
  import opened Rebuild

  datatype Query = Query(identity: IdentityId, authority: Address, isRoot: bool, objectType: string, pos: Position)

  function ScopeForObjectType(objectType: string): Option<bv16> {
    if objectType == "profile" then Some(1)
    else if objectType == "post" then Some(2)
    else if objectType == "community" then Some(8)
    else if objectType == "community-membership" then Some(8)
    else None
  }

  predicate AtOrBefore(p: Position, q: Position) {
    Compare(p, q) <= 0
  }

  // ----- The historical answer -----

  /** The latest root epoch that had begun at a position. */
  function RootAt(history: seq<RootEpoch>, q: Position): Option<RootEpoch> {
    if history == [] then None
    else
      var earlier := RootAt(history[..|history| - 1], q);
      var epoch := history[|history| - 1];
      if AtOrBefore(epoch.pos, q) && (earlier.Some? ==> Before(earlier.value.pos, epoch.pos)) then Some(epoch)
      else earlier
  }

  predicate DelegationMatches(d: Delegation, q: Query, rotationCount: nat, scope: bv16) {
    && d.identity == q.identity && d.delegate == q.authority && d.rotationCount == rotationCount
    && d.expiresAtSlot >= q.pos.slot && d.scopes & scope == scope
  }

  predicate InForceAt(d: Delegation, q: Position) {
    AtOrBefore(d.createdPosition, q) && (d.revokedPosition.Some? ==> Before(q, d.revokedPosition.value))
  }

  predicate AuthorizeSigningKey(ids: Identities, q: Query) {
    && q.identity in ids.roots
    && !(q.identity in ids.deactivations && Compare(q.pos, ids.deactivations[q.identity]) >= 0)
    && var root := RootAt(ids.roots[q.identity], q.pos);
    && root.Some?
    && if q.isRoot then q.authority == root.value.authority
       else
         var scope := ScopeForObjectType(q.objectType);
         && scope.Some?
         && exists a :: a in ids.delegations && InForceAt(ids.delegations[a], q.pos)
                        && DelegationMatches(ids.delegations[a], q, root.value.rotationCount, scope.value)
  }

  // ----- The answer of a store that has only just reached the position -----

  /** The key is the current root, or holds a live delegation of the current root, of an active identity. */
  predicate AuthorizedNow(ids: Identities, q: Query) {
    && q.identity in ids.records && ids.records[q.identity].active
    && var record := ids.records[q.identity];
       if q.isRoot then q.authority == record.root
       else
         var scope := ScopeForObjectType(q.objectType);
         && scope.Some?
         && exists a :: a in ids.delegations && ids.delegations[a].revokedPosition.None?
                        && DelegationMatches(ids.delegations[a], q, record.rotationCount, scope.value)
  }

  // ----- What the identity records keep -----

  ghost predicate PositionIn(p: Position, log: seq<Event>) {
    exists i :: 0 <= i < |log| && log[i].pos == p
  }

  ghost predicate CreatesOnce(log: seq<Event>) {
    forall i, j :: 0 <= i < j < |log| && log[i].body.IdentityCreated? && log[j].body.IdentityCreated? ==>
      log[i].body.identity != log[j].body.identity
  }

  ghost predicate KnownIdentity(ids: Identities, log: seq<Event>, id: IdentityId) {
    id in ids.records <==> exists i :: 0 <= i < |log| && log[i].body.IdentityCreated? && log[i].body.identity == id
  }

  /** The history of an identity ascends through the log and ends at its current root. */
  ghost predicate HistoryIsCurrent(ids: Identities, id: IdentityId, log: seq<Event>)
    requires id in ids.records && id in ids.roots
  {
    var history := ids.roots[id];
    && history != []
    && history[|history| - 1].authority == ids.records[id].root
    && history[|history| - 1].rotationCount == ids.records[id].rotationCount
    && (forall i :: 0 <= i < |history| ==> PositionIn(history[i].pos, log))
    && (forall i, j :: 0 <= i < j < |history| ==> Before(history[i].pos, history[j].pos))
  }

  ghost predicate KnownIdentities(ids: Identities, log: seq<Event>) {
    forall id :: KnownIdentity(ids, log, id)
  }

  ghost predicate HistoriesAreCurrent(ids: Identities, log: seq<Event>) {
    && ids.roots.Keys == ids.records.Keys
    && forall id :: id in ids.roots ==> id in ids.records && HistoryIsCurrent(ids, id, log)
  }

  ghost predicate DeactivationsFollowLog(ids: Identities, log: seq<Event>) {
    forall id :: id in ids.deactivations ==> PositionIn(ids.deactivations[id], log)
  }

  /** Exactly the identities without a deactivation are active. */
  ghost predicate ActiveFlags(ids: Identities) {
    && (forall id :: id in ids.deactivations ==> id in ids.records)
    && (forall id :: id in ids.records ==> (ids.records[id].active <==> id !in ids.deactivations))
  }

  ghost predicate RootsFollowLog(ids: Identities, log: seq<Event>) {
    KnownIdentities(ids, log) && HistoriesAreCurrent(ids, log) && DeactivationsFollowLog(ids, log) && ActiveFlags(ids)
  }

  ghost predicate DelegationsFollowLog(ids: Identities, log: seq<Event>) {
    forall a :: a in ids.delegations ==>
      && PositionIn(ids.delegations[a].createdPosition, log)
      && (ids.delegations[a].revokedPosition.Some? ==> PositionIn(ids.delegations[a].revokedPosition.value, log))
  }

  lemma PositionStays(p: Position, log: seq<Event>, e: Event)
    ensures PositionIn(p, log) ==> PositionIn(p, log + [e])
    ensures PositionIn(e.pos, log + [e])
  {
    assert (log + [e])[|log|] == e;
    if PositionIn(p, log) {
      var i :| 0 <= i < |log| && log[i].pos == p;
      assert (log + [e])[i].pos == p;
    }
  }

  lemma KnownAfter(ids: Identities, next: Identities, log: seq<Event>, e: Event, id: IdentityId)
    requires KnownIdentity(ids, log, id)
    requires id in next.records <==> id in ids.records || (e.body.IdentityCreated? && e.body.identity == id)
    ensures KnownIdentity(next, log + [e], id)
  {
    var log' := log + [e];
    assert log'[|log|] == e;
    if id in ids.records {
      var i :| 0 <= i < |log| && log[i].body.IdentityCreated? && log[i].body.identity == id;
      assert log'[i] == log[i];
    } else if exists i :: 0 <= i < |log'| && log'[i].body.IdentityCreated? && log'[i].body.identity == id {
      var i :| 0 <= i < |log'| && log'[i].body.IdentityCreated? && log'[i].body.identity == id;
      assert i < |log| ==> log[i] == log'[i];
    }
  }

  lemma HistoryStays(ids: Identities, next: Identities, id: IdentityId, log: seq<Event>, e: Event)
    requires id in ids.records && id in ids.roots && HistoryIsCurrent(ids, id, log)
    requires id in next.records && id in next.roots && next.roots[id] == ids.roots[id]
    requires next.records[id].root == ids.records[id].root
    requires next.records[id].rotationCount == ids.records[id].rotationCount
    ensures HistoryIsCurrent(next, id, log + [e])
  {
    hide PositionIn;
    forall i | 0 <= i < |ids.roots[id]| ensures PositionIn(next.roots[id][i].pos, log + [e]) {
      PositionStays(ids.roots[id][i].pos, log, e);
    }
  }

  lemma HistoryGrows(ids: Identities, next: Identities, id: IdentityId, log: seq<Event>, e: Event, epoch: RootEpoch)
    requires id in next.records && id in next.roots && epoch.pos == e.pos
    requires id in ids.roots ==> id in ids.records && HistoryIsCurrent(ids, id, log)
    requires next.roots[id] == (if id in ids.roots then ids.roots[id] else []) + [epoch]
    requires next.records[id].root == epoch.authority && next.records[id].rotationCount == epoch.rotationCount
    requires forall i :: 0 <= i < |log| ==> Before(log[i].pos, e.pos)
    ensures HistoryIsCurrent(next, id, log + [e])
  {
    var history := if id in ids.roots then ids.roots[id] else [];
    PositionStays(e.pos, log, e);
    forall i | 0 <= i < |history|
      ensures PositionIn(history[i].pos, log + [e]) && Before(history[i].pos, e.pos)
    {
      PositionStays(history[i].pos, log, e);
    }
  }

  /** The identities after one event. */
  function IdentitiesAfter(ids: Identities, e: Event): Outcome<Identities> {
    if FamilyOf(e.body) != OfIdentity then Ok(Advance(ids, e))
    else
      var next :- IdentityEffect(ids, e);
      Ok(Advance(next, e))
  }

  lemma IngestIdentities(pda: Derivations, s: State, e: Event, t: Treatment)
    requires Ingest(pda, s, e, t).Ok?
    ensures IdentitiesAfter(s.identities, e) == Ok(Ingest(pda, s, e, t).value.identities)
    ensures Ingest(pda, s, e, t).value.ledger.log == s.ledger.log + [e]
    ensures ValidateLifecycle(s.identities, e).Ok?
  {
    hide IdentityEffect, HandleEffect, RecoveryEffect, ContentEffect, SocialEffect, CommunityEffect, GovernanceEffect,
      ValidateLifecycle, Advance;
  }

  /** What one event does to the root history of an identity: nothing, or one more epoch, which is then current. */
  predicate HistoryStep(ids: Identities, next: Identities, e: Event, id: IdentityId)
    requires id in next.roots
  {
    && id in next.records
    && if id in ids.roots && next.roots[id] == ids.roots[id] then
         && id in ids.records && next.records[id].root == ids.records[id].root
         && next.records[id].rotationCount == ids.records[id].rotationCount
       else
         && next.roots[id] != []
         && var epoch := next.roots[id][|next.roots[id]| - 1];
         && epoch.pos == e.pos && next.roots[id] == (if id in ids.roots then ids.roots[id] else []) + [epoch]
         && next.records[id].root == epoch.authority && next.records[id].rotationCount == epoch.rotationCount
  }

  /** Moving an identity to the next sequence touches neither its keys nor its active flag. */
  lemma AdvanceKeeps(ids: Identities, e: Event)
    ensures var next := Advance(ids, e);
            && next.roots == ids.roots && next.deactivations == ids.deactivations && next.delegations == ids.delegations
            && next.records.Keys == ids.records.Keys
            && forall id :: id in ids.records ==>
                 && next.records[id].root == ids.records[id].root && next.records[id].active == ids.records[id].active
                 && next.records[id].rotationCount == ids.records[id].rotationCount
  {
  }

  lemma HistorySteps(ids: Identities, e: Event)
    requires FamilyOf(e.body) == OfIdentity && IdentityEffect(ids, e).Ok? && ids.roots.Keys == ids.records.Keys
    requires e.body.IdentityCreated? ==> e.body.identity !in ids.records
    ensures var next := IdentityEffect(ids, e).value;
            && next.roots.Keys == next.records.Keys
            && forall id :: id in next.roots ==> HistoryStep(ids, next, e, id)
  {
  }

  lemma ActiveSteps(ids: Identities, e: Event)
    requires FamilyOf(e.body) == OfIdentity && IdentityEffect(ids, e).Ok? && ActiveFlags(ids)
    requires e.body.IdentityCreated? ==> e.body.identity !in ids.records
    ensures ActiveFlags(IdentityEffect(ids, e).value)
  {
    hide MayRevoke, NextFor;
  }

  lemma ActiveAfter(ids: Identities, e: Event)
    requires IdentitiesAfter(ids, e).Ok? && ActiveFlags(ids)
    requires e.body.IdentityCreated? ==> e.body.identity !in ids.records
    ensures ActiveFlags(IdentitiesAfter(ids, e).value)
  {
    if FamilyOf(e.body) == OfIdentity {
      ActiveSteps(ids, e);
      hide IdentityEffect, Advance;
      AdvanceKeeps(IdentityEffect(ids, e).value, e);
    } else {
      hide IdentityEffect, Advance;
      AdvanceKeeps(ids, e);
    }
  }

  lemma DeactivationSteps(ids: Identities, e: Event)
    requires IdentitiesAfter(ids, e).Ok?
    ensures var next := IdentitiesAfter(ids, e).value;
            forall id :: id in next.deactivations ==>
              || (id in ids.deactivations && next.deactivations[id] == ids.deactivations[id])
              || next.deactivations[id] == e.pos
  {
  }

  lemma DeactivationsAfter(ids: Identities, log: seq<Event>, e: Event)
    requires IdentitiesAfter(ids, e).Ok? && DeactivationsFollowLog(ids, log)
    ensures DeactivationsFollowLog(IdentitiesAfter(ids, e).value, log + [e])
  {
    DeactivationSteps(ids, e);
    hide IdentitiesAfter, PositionIn;
    var next := IdentitiesAfter(ids, e).value;
    forall id | id in next.deactivations ensures PositionIn(next.deactivations[id], log + [e]) {
      PositionStays(next.deactivations[id], log, e);
    }
  }

  lemma RecordKeys(ids: Identities, e: Event)
    requires IdentitiesAfter(ids, e).Ok?
    ensures IdentitiesAfter(ids, e).value.records.Keys
         == ids.records.Keys + if e.body.IdentityCreated? then {e.body.identity} else {}
  {
    hide MayRevoke, MayDeactivate;
  }

  lemma KnownIdentitiesAfter(ids: Identities, log: seq<Event>, e: Event)
    requires IdentitiesAfter(ids, e).Ok? && KnownIdentities(ids, log)
    ensures KnownIdentities(IdentitiesAfter(ids, e).value, log + [e])
  {
    RecordKeys(ids, e);
    hide IdentitiesAfter, KnownIdentity;
    forall id ensures KnownIdentity(IdentitiesAfter(ids, e).value, log + [e], id) {
      assert KnownIdentity(ids, log, id);
      KnownAfter(ids, IdentitiesAfter(ids, e).value, log, e, id);
    }
  }

  lemma HistoryStepsAfter(ids: Identities, e: Event)
    requires IdentitiesAfter(ids, e).Ok? && ids.roots.Keys == ids.records.Keys
    requires e.body.IdentityCreated? ==> e.body.identity !in ids.records
    ensures var next := IdentitiesAfter(ids, e).value;
            && next.roots.Keys == next.records.Keys
            && forall id :: id in next.roots ==> HistoryStep(ids, next, e, id)
  {
    hide IdentityEffect, Advance;
    if FamilyOf(e.body) == OfIdentity {
      HistorySteps(ids, e);
      AdvanceKeeps(IdentityEffect(ids, e).value, e);
    } else {
      AdvanceKeeps(ids, e);
    }
  }

  lemma HistoriesAfter(ids: Identities, log: seq<Event>, e: Event)
    requires IdentitiesAfter(ids, e).Ok? && HistoriesAreCurrent(ids, log)
    requires forall i :: 0 <= i < |log| ==> Before(log[i].pos, e.pos)
    requires e.body.IdentityCreated? ==> e.body.identity !in ids.records
    ensures HistoriesAreCurrent(IdentitiesAfter(ids, e).value, log + [e])
  {
    HistoryStepsAfter(ids, e);
    hide IdentitiesAfter, PositionIn, HistoryIsCurrent, Before;
    var next := IdentitiesAfter(ids, e).value;
    forall id | id in next.roots ensures id in next.records && HistoryIsCurrent(next, id, log + [e]) {
      assert HistoryStep(ids, next, e, id);
      if id in ids.roots && next.roots[id] == ids.roots[id] {
        HistoryStays(ids, next, id, log, e);
      } else {
        HistoryGrows(ids, next, id, log, e, next.roots[id][|next.roots[id]| - 1]);
      }
    }
  }

  lemma DelegationSteps(ids: Identities, e: Event)
    requires (e.body.DelegationCreated? || e.body.DelegationRevoked?) && IdentityEffect(ids, e).Ok?
    ensures var next := IdentityEffect(ids, e).value;
            forall a :: a in next.delegations ==>
              || (a in ids.delegations && next.delegations[a] == ids.delegations[a])
              || (next.delegations[a].createdPosition == e.pos && next.delegations[a].revokedPosition.None?)
              || (a in ids.delegations && next.delegations[a].createdPosition == ids.delegations[a].createdPosition
                  && next.delegations[a].revokedPosition == Some(e.pos))
  {
  }

  lemma DelegationsStay(ids: Identities, next: Identities, log: seq<Event>, e: Event)
    requires DelegationsFollowLog(ids, log) && next.delegations == ids.delegations
    ensures DelegationsFollowLog(next, log + [e])
  {
    hide PositionIn;
    forall p ensures PositionIn(p, log) ==> PositionIn(p, log + [e]) {
      PositionStays(p, log, e);
    }
  }

  lemma DelegationsAfter(ids: Identities, log: seq<Event>, e: Event)
    requires DelegationsFollowLog(ids, log) && IdentitiesAfter(ids, e).Ok?
    ensures DelegationsFollowLog(IdentitiesAfter(ids, e).value, log + [e])
  {
    hide PositionIn, IdentityEffect, Advance;
    var next := IdentitiesAfter(ids, e).value;
    if e.body.DelegationCreated? || e.body.DelegationRevoked? {
      DelegationSteps(ids, e);
      AdvanceKeeps(IdentityEffect(ids, e).value, e);
      forall p ensures PositionIn(p, log) ==> PositionIn(p, log + [e]) {
        PositionStays(p, log, e);
      }
      PositionStays(e.pos, log, e);
    } else {
      NoGrant(ids, e);
      DelegationsStay(ids, next, log, e);
    }
  }

  /** Along any log in canonical order that creates each identity once, the histories stay current. */
  lemma {:induction false} IdentitiesFollowLog(pda: Derivations, log: seq<Event>)
    requires Chain(pda, log).Ok? && InCanonicalOrder(log) && CreatesOnce(log)
    ensures RootsFollowLog(Chain(pda, log).value.identities, log)
    ensures DelegationsFollowLog(Chain(pda, log).value.identities, log)
  {
    hide Ingest, IdentitiesAfter, RootsFollowLog, DelegationsFollowLog, Before;
    if log != [] {
      var earlier, e := log[..|log| - 1], log[|log| - 1];
      IdentitiesFollowLog(pda, earlier);
      var s := Chain(pda, earlier).value;
      IngestIdentities(pda, s, e, Bare(e.body));
      DelegationsAfter(s.identities, earlier, e);
      assert log == earlier + [e];
      RootsFollow(s.identities, earlier, e);
    } else {
      NothingKnown();
    }
  }

  lemma RootsFollow(ids: Identities, log: seq<Event>, e: Event)
    requires RootsFollowLog(ids, log) && IdentitiesAfter(ids, e).Ok? && CreatesOnce(log + [e])
    requires forall i :: 0 <= i < |log| ==> Before(log[i].pos, e.pos)
    ensures RootsFollowLog(IdentitiesAfter(ids, e).value, log + [e])
  {
    hide IdentitiesAfter, HistoriesAreCurrent, KnownIdentities, DeactivationsFollowLog, ActiveFlags, Before,
      CreatesOnce;
    NotCreatedYet(ids, log, e);
    KnownIdentitiesAfter(ids, log, e);
    HistoriesAfter(ids, log, e);
    DeactivationsAfter(ids, log, e);
    ActiveAfter(ids, e);
  }

  lemma NothingKnown()
    ensures RootsFollowLog(EMPTY.identities, []) && DelegationsFollowLog(EMPTY.identities, [])
  {
  }

  lemma NotCreatedYet(ids: Identities, log: seq<Event>, e: Event)
    requires KnownIdentities(ids, log) && CreatesOnce(log + [e])
    ensures e.body.IdentityCreated? ==> e.body.identity !in ids.records
  {
    if e.body.IdentityCreated? {
      var log' := log + [e];
      assert KnownIdentity(ids, log, e.body.identity);
      forall i | 0 <= i < |log| && log[i].body.IdentityCreated? ensures log[i].body.identity != e.body.identity {
        assert log'[i] == log[i] && log'[|log|] == e;
      }
    }
  }

  // ----- At the position of the query, history and present agree -----

  lemma {:induction false} RootAtIsLast(history: seq<RootEpoch>, q: Position)
    requires forall i :: 0 <= i < |history| ==> AtOrBefore(history[i].pos, q)
    requires forall i, j :: 0 <= i < j < |history| ==> Before(history[i].pos, history[j].pos)
    requires history != []
    ensures RootAt(history, q) == Some(history[|history| - 1])
  {
    hide Before, AtOrBefore;
    if |history| > 1 {
      RootAtIsLast(history[..|history| - 1], q);
    }
  }

  lemma PresentAnswer(ids: Identities, log: seq<Event>, q: Query)
    requires RootsFollowLog(ids, log) && DelegationsFollowLog(ids, log)
    requires forall i :: 0 <= i < |log| ==> AtOrBefore(log[i].pos, q.pos)
    ensures AuthorizeSigningKey(ids, q) <==> AuthorizedNow(ids, q)
  {
    hide KnownIdentity, DelegationMatches, ScopeForObjectType, Compare;
    forall p | PositionIn(p, log) ensures AtOrBefore(p, q.pos) && Compare(q.pos, p) >= 0 {
      CompareAntisymmetric(p, q.pos);
      CompareAntisymmetric(q.pos, p);
    }
    if q.identity in ids.roots {
      RootAtIsLast(ids.roots[q.identity], q.pos);
    }
  }

  // ----- Later events never change the answer -----

  lemma RootAtIgnoresLater(history: seq<RootEpoch>, epoch: RootEpoch, q: Position)
    requires !AtOrBefore(epoch.pos, q)
    ensures RootAt(history + [epoch], q) == RootAt(history, q)
  {
  }

  lemma LaterPosition(q: Position, p: Position)
    requires Before(q, p)
    ensures !AtOrBefore(p, q) && Compare(q, p) < 0
  {
    CompareAntisymmetric(q, p);
  }

  predicate SameGrant(d: Delegation, f: Delegation, q: Query) {
    && (InForceAt(d, q.pos) <==> InForceAt(f, q.pos))
    && f.identity == d.identity && f.delegate == d.delegate && f.rotationCount == d.rotationCount
    && f.expiresAtSlot == d.expiresAtSlot && f.scopes == d.scopes
  }

  /** A new identity, or a new root, begins an epoch that the query does not see. */
  lemma LaterEpochKeepsAnswer(ids: Identities, next: Identities, q: Query, epoch: RootEpoch, id: IdentityId)
    requires !AtOrBefore(epoch.pos, q.pos)
    requires next.roots == ids.roots[id := (if id in ids.roots then ids.roots[id] else []) + [epoch]]
    requires next.deactivations == ids.deactivations && next.delegations == ids.delegations
    ensures AuthorizeSigningKey(next, q) <==> AuthorizeSigningKey(ids, q)
  {
    hide AtOrBefore, Compare, ScopeForObjectType, InForceAt, RootAt, DelegationMatches;
    RootAtIgnoresLater(if id in ids.roots then ids.roots[id] else [], epoch, q.pos);
    RootAtEmpty(q.pos);
  }

  lemma LaterGrantKeepsAnswer(ids: Identities, next: Identities, e: Event, q: Query)
    requires IdentitiesAfter(ids, e) == Ok(next) && Before(q.pos, e.pos) && !AtOrBefore(e.pos, q.pos)
    requires !e.body.IdentityCreated? && !e.body.RootRotated?
    requires q.identity in next.deactivations && q.identity !in ids.deactivations ==>
               Compare(q.pos, next.deactivations[q.identity]) < 0
    requires q.identity in ids.deactivations ==>
               q.identity in next.deactivations && next.deactivations[q.identity] == ids.deactivations[q.identity]
    ensures AuthorizeSigningKey(next, q) <==> AuthorizeSigningKey(ids, q)
  {
    DelegationsInForce(ids, next, e, q);
    hide IdentitiesAfter, Compare, ScopeForObjectType, RootAt, InForceAt, Before;
  }

  lemma DeactivationStays(ids: Identities, e: Event, id: IdentityId)
    requires IdentitiesAfter(ids, e).Ok?
    requires id in ids.deactivations && id in ids.records ==> !ids.records[id].active
    ensures var next := IdentitiesAfter(ids, e).value;
            && (id in ids.deactivations ==> id in next.deactivations && next.deactivations[id] == ids.deactivations[id])
            && (id in next.deactivations && id !in ids.deactivations ==> next.deactivations[id] == e.pos)
  {
  }

  /** An event after the position changes no answer, except that creating an identity again erases its history. */
  lemma LaterEventKeepsAnswer(ids: Identities, e: Event, q: Query)
    requires IdentitiesAfter(ids, e).Ok? && Before(q.pos, e.pos)
    requires forall id :: id in ids.deactivations && id in ids.records ==> !ids.records[id].active
    requires e.body.IdentityCreated? ==> e.body.identity !in ids.roots
    ensures AuthorizeSigningKey(IdentitiesAfter(ids, e).value, q) <==> AuthorizeSigningKey(ids, q)
  {
    hide Compare, AuthorizeSigningKey, MayRevoke, MayDeactivate, NextFor;
    LaterPosition(q.pos, e.pos);
    var next := IdentitiesAfter(ids, e).value;
    if e.body.IdentityCreated? {
      assert [] + [RootEpoch(e.body.root, 0, 0, e.pos)] == [RootEpoch(e.body.root, 0, 0, e.pos)];
      LaterEpochKeepsAnswer(ids, next, q, RootEpoch(e.body.root, 0, 0, e.pos), e.body.identity);
    } else if e.body.RootRotated? {
      LaterEpochKeepsAnswer(ids, next, q, RootEpoch(e.body.newRoot, e.body.rotationCount, e.body.sequence, e.pos),
                            e.body.identity);
    } else {
      hide IdentitiesAfter;
      DeactivationStays(ids, e, q.identity);
      LaterGrantKeepsAnswer(ids, next, e, q);
    }
  }

  lemma RootAtEmpty(q: Position)
    ensures RootAt([], q) == None
  {
  }

  /** A grant or a revocation after the position leaves every grant as it was there, and adds none. */
  ghost predicate SameGrants(ids: Identities, next: Identities, q: Query) {
    && (forall a :: a in ids.delegations ==>
        a in next.delegations && SameGrant(ids.delegations[a], next.delegations[a], q))
    && (forall a :: a in next.delegations && a !in ids.delegations ==> !InForceAt(next.delegations[a], q.pos))
  }

  lemma LaterGrant(ids: Identities, e: Event, q: Query)
    requires e.body.DelegationCreated? && IdentityEffect(ids, e).Ok? && !AtOrBefore(e.pos, q.pos)
    ensures SameGrants(ids, IdentityEffect(ids, e).value, q)
  {
  }

  lemma LaterRevocation(ids: Identities, e: Event, q: Query)
    requires e.body.DelegationRevoked? && IdentityEffect(ids, e).Ok? && Before(q.pos, e.pos)
    ensures SameGrants(ids, IdentityEffect(ids, e).value, q)
  {
  }

  lemma NoGrant(ids: Identities, e: Event)
    requires IdentitiesAfter(ids, e).Ok? && !(e.body.DelegationCreated? || e.body.DelegationRevoked?)
    ensures IdentitiesAfter(ids, e).value.delegations == ids.delegations
  {
  }

  lemma SameDelegations(ids: Identities, next: Identities, q: Query)
    requires next.delegations == ids.delegations
    ensures SameGrants(ids, next, q)
  {
  }

  lemma KeepsRoots(ids: Identities, e: Event)
    requires IdentitiesAfter(ids, e).Ok? && !e.body.IdentityCreated? && !e.body.RootRotated?
    ensures IdentitiesAfter(ids, e).value.roots == ids.roots
  {
  }

  lemma DelegationsInForce(ids: Identities, next: Identities, e: Event, q: Query)
    requires IdentitiesAfter(ids, e) == Ok(next) && Before(q.pos, e.pos) && !AtOrBefore(e.pos, q.pos)
    requires !e.body.IdentityCreated? && !e.body.RootRotated?
    ensures next.roots == ids.roots && SameGrants(ids, next, q)
  {
    hide Before, AtOrBefore, SameGrant, InForceAt, IdentityEffect, Advance;
    KeepsRoots(ids, e);
    if e.body.DelegationCreated? {
      LaterGrant(ids, e, q);
      AdvanceKeeps(IdentityEffect(ids, e).value, e);
    } else if e.body.DelegationRevoked? {
      LaterRevocation(ids, e, q);
      AdvanceKeeps(IdentityEffect(ids, e).value, e);
    } else {
      NoGrant(ids, e);
      SameDelegations(ids, next, q);
    }
  }

  /** After an identity is created again, every answer about an earlier position is no, whatever it was before. */
  lemma CreatingAgainForgets(ids: Identities, e: Event, q: Query)
    requires e.body.IdentityCreated? && e.body.identity == q.identity && Before(q.pos, e.pos)
    ensures IdentitiesAfter(ids, e).Ok? && !AuthorizeSigningKey(IdentitiesAfter(ids, e).value, q)
  {
    hide Compare;
    LaterPosition(q.pos, e.pos);
    RootAtIgnoresLater([], RootEpoch(e.body.root, 0, 0, e.pos), q.pos);
    assert [] + [RootEpoch(e.body.root, 0, 0, e.pos)] == [RootEpoch(e.body.root, 0, 0, e.pos)];
  }

  // ----- The theorem -----

  /** The log splits at the position of a query: n events at or before it, the others after it. */
  ghost predicate SplitsAt(log: seq<Event>, q: Position, n: nat) {
    && n <= |log|
    && (forall i :: 0 <= i < n ==> AtOrBefore(log[i].pos, q))
    && (forall i :: n <= i < |log| ==> Before(q, log[i].pos))
  }

  lemma {:induction false} QuerySplits(log: seq<Event>, q: Position) returns (n: nat)
    requires InCanonicalOrder(log) && forall i :: 0 <= i < |log| ==> Compatible(log[i].pos, q)
    requires forall i, j :: 0 <= i < |log| && 0 <= j < |log| ==> Compatible(log[i].pos, log[j].pos)
    ensures SplitsAt(log, q, n)
  {
    hide Before, Compatible, Compare;
    if log == [] {
      n := 0;
    } else {
      var last := |log| - 1;
      n := QuerySplits(log[..last], q);
      if n == last {
        if AtOrBefore(log[last].pos, q) {
          n := |log|;
        } else {
          AfterOrNot(log[last].pos, q);
        }
      } else {
        AfterIsTransitive(q, log[n].pos, log[last].pos);
      }
    }
  }

  lemma AfterOrNot(p: Position, q: Position)
    requires !AtOrBefore(p, q)
    ensures Before(q, p)
  {
    CompareAntisymmetric(q, p);
  }

  lemma AfterIsTransitive(q: Position, p: Position, r: Position)
    requires Compatible(p, q) && Compatible(p, r) && Compatible(r, q) && Before(q, p) && Before(p, r)
    ensures Before(q, r)
  {
  }

  /** Whatever is appended to a log after the position of a query, the answer stays. */
  lemma {:induction false} AppendingKeepsAnswer(pda: Derivations, log: seq<Event>, q: Query, n: nat)
    requires Chain(pda, log).Ok? && InCanonicalOrder(log) && CreatesOnce(log) && n <= |log|
    requires forall i :: n <= i < |log| ==> Before(q.pos, log[i].pos)
    ensures Chain(pda, log[..n]).Ok?
    ensures AuthorizeSigningKey(Chain(pda, log).value.identities, q)
       <==> AuthorizeSigningKey(Chain(pda, log[..n]).value.identities, q)
    decreases |log|
  {
    hide Ingest, AuthorizeSigningKey, Before, IdentitiesAfter, HistoryIsCurrent, PositionIn, DelegationsFollowLog;
    if n < |log| {
      var earlier, e := log[..|log| - 1], log[|log| - 1];
      AppendingKeepsAnswer(pda, earlier, q, n);
      assert earlier[..n] == log[..n];
      var s := Chain(pda, earlier).value;
      IngestIdentities(pda, s, e, Bare(e.body));
      IdentitiesFollowLog(pda, earlier);
      assert log == earlier + [e];
      NotCreatedYet(s.identities, earlier, e);
      LaterEventKeepsAnswer(s.identities, e, q);
    } else {
      assert log[..n] == log;
    }
  }

  /** The historical answer is the present answer of the log's prefix up to the position of the query. */
  lemma HistoricalAnswerIsPrefixAnswer(pda: Derivations, log: seq<Event>, q: Query, n: nat)
    requires Chain(pda, log).Ok? && InCanonicalOrder(log) && CreatesOnce(log) && SplitsAt(log, q.pos, n)
    ensures Chain(pda, log[..n]).Ok?
    ensures AuthorizeSigningKey(Chain(pda, log).value.identities, q)
       <==> AuthorizedNow(Chain(pda, log[..n]).value.identities, q)
  {
    hide Ingest, AuthorizeSigningKey, AuthorizedNow, Before, AtOrBefore, RootsFollowLog, DelegationsFollowLog;
    AppendingKeepsAnswer(pda, log, q, n);
    IdentitiesFollowLog(pda, log[..n]);
    PresentAnswer(Chain(pda, log[..n]).value.identities, log[..n], q);
  }

  /** The positions of a run's events, and of a query, pass the guard together. */
  ghost predicate WithinLogOrder(log: seq<Event>, q: Position) {
    forall i :: 0 <= i < |log| ==> Compatible(log[i].pos, q) && forall j :: 0 <= j < |log| ==>
        Compatible(log[i].pos, log[j].pos)
  }

  /** After any run, a historical query answers what a store would have answered that stopped at that position. */
  lemma HistoricalAuthorization(pda: Derivations, ops: seq<Op>, q: Query) returns (n: nat)
    requires var log := Run(pda, ops).ledger.log;
             InCanonicalOrder(log) && CreatesOnce(log) && WithinLogOrder(log, q.pos)
    ensures var log := Run(pda, ops).ledger.log;
            && SplitsAt(log, q.pos, n) && Chain(pda, log[..n]).Ok?
            && (AuthorizeSigningKey(Run(pda, ops).identities, q)
                <==> AuthorizedNow(Chain(pda, log[..n]).value.identities, q))
  {
    hide Perform, Ingest, AuthorizeSigningKey, AuthorizedNow, Before, AtOrBefore, Compatible, SameCores, SplitsAt;
    var log := Run(pda, ops).ledger.log;
    RunFollowsChain(pda, ops);
    n := QuerySplits(log, q.pos);
    HistoricalAnswerIsPrefixAnswer(pda, log, q, n);
  }
}
