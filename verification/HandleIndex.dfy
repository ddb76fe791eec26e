/** The two handle maps stay inverse to each other, and together they answer who holds a name. */
module HandleIndex {
  import opened Wrappers
  import opened ProtocolEvents
  import opened Projection
  import opened ManifestLifecycle
  import opened ChainState

  predicate Inverse(h: Handles) {
    && (forall a :: a in h.byAddress ==>
          h.byAddress[a].handle in h.addressByName && h.addressByName[h.byAddress[a].handle] == a)
    && (forall n :: n in h.addressByName ==>
          h.addressByName[n] in h.byAddress && h.byAddress[h.addressByName[n]].handle == n)
  }

  /** What a lookup of a name answers. */
  function GetHandle(h: Handles, name: string): Option<Handle> {
    if name in h.addressByName && h.addressByName[name] in h.byAddress && h.byAddress[h.addressByName[name]].active
    then Some(h.byAddress[h.addressByName[name]])
    else None
  }

  /** The last claim of a name, unless the name was released since. */
  function LastClaim(log: seq<Event>, name: string): Option<Handle> {
    if log == [] then None
    else
      var e := log[|log| - 1];
      if e.body.HandleClaimed? && e.body.handle == name then
        Some(Handle(e.body.identity, e.body.authority, e.body.sequence, e.body.digest, name, StampOf(e), true, None))
      else if e.body.HandleReleased? && e.body.handle == name then None
      else LastClaim(log[..|log| - 1], name)
  }

  ghost predicate AnswersLastClaim(h: Handles, log: seq<Event>) {
    forall name :: GetHandle(h, name) == LastClaim(log, name)
  }

  lemma HandleSteps(h: Handles, ids: Identities, e: Event)
    requires FamilyOf(e.body) == OfHandle && HandleEffect(h, ids, e).Ok? && Inverse(h)
    ensures Inverse(HandleEffect(h, ids, e).value)
    ensures forall name :: name != e.body.handle ==>
              GetHandle(HandleEffect(h, ids, e).value, name) == GetHandle(h, name)
    ensures GetHandle(HandleEffect(h, ids, e).value, e.body.handle)
         == if e.body.HandleClaimed? then LastClaim([e], e.body.handle) else None
  {
  }

  lemma OtherEventsKeepClaims(log: seq<Event>, e: Event, name: string)
    ensures LastClaim(log + [e], name)
         == if FamilyOf(e.body) == OfHandle && e.body.handle == name then LastClaim([e], name) else LastClaim(log, name)
  {
  }

  lemma IngestHandles(pda: Derivations, s: State, e: Event, t: Treatment)
    requires Ingest(pda, s, e, t).Ok?
    ensures var next := Ingest(pda, s, e, t).value.handles;
            if FamilyOf(e.body) == OfHandle then HandleEffect(s.handles, s.identities, e) == Ok(next)
            else next == s.handles
  {
    hide ValidateLifecycle, Advance, IdentityEffect, HandleEffect, RecoveryEffect, SocialEffect, ContentEffect,
      CommunityEffect, GovernanceEffect;
  }

  lemma HandlesAfter(h: Handles, next: Handles, ids: Identities, log: seq<Event>, e: Event)
    requires Inverse(h) && AnswersLastClaim(h, log)
    requires if FamilyOf(e.body) == OfHandle then HandleEffect(h, ids, e) == Ok(next) else next == h
    ensures Inverse(next) && AnswersLastClaim(next, log + [e])
  {
    hide GetHandle, HandleEffect, LastClaim, Inverse;
    if FamilyOf(e.body) == OfHandle {
      HandleSteps(h, ids, e);
    }
    forall name ensures GetHandle(next, name) == LastClaim(log + [e], name) {
      OtherEventsKeepClaims(log, e, name);
      NoClaimInRelease(e, name);
    }
  }

  lemma NoClaimInRelease(e: Event, name: string)
    ensures e.body.HandleReleased? ==> LastClaim([e], name) == None
  {
  }

  lemma NoHandles()
    ensures Inverse(EMPTY.handles) && AnswersLastClaim(EMPTY.handles, [])
  {
  }

  /** Over all claims, releases and reclaims, a lookup answers the last claim in the log, unless released since. */
  lemma {:induction false} HandlesFollowLog(pda: Derivations, log: seq<Event>)
    requires Chain(pda, log).Ok?
    ensures Inverse(Chain(pda, log).value.handles) && AnswersLastClaim(Chain(pda, log).value.handles, log)
  {
    hide Ingest, Inverse, AnswersLastClaim, HandleEffect;
    if log != [] {
      var last := |log| - 1;
      HandlesFollowLog(pda, log[..last]);
      var s, e := Chain(pda, log[..last]).value, log[last];
      IngestHandles(pda, s, e, Bare(e.body));
      HandlesAfter(s.handles, Chain(pda, log).value.handles, s.identities, log[..last], e);
      assert log == log[..last] + [e];
    } else {
      NoHandles();
    }
  }

  /** After any run, whatever became of its manifests. */
  lemma RunAnswersLastClaim(pda: Derivations, ops: seq<Op>)
    ensures Inverse(Run(pda, ops).handles) && AnswersLastClaim(Run(pda, ops).handles, Run(pda, ops).ledger.log)
  {
    hide Ingest, Perform, Inverse, AnswersLastClaim, SameCores;
    RunFollowsChain(pda, ops);
    HandlesFollowLog(pda, Run(pda, ops).ledger.log);
  }
}
