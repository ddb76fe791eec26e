/** What an executed recovery means, and why a recovery can execute at most once per identity sequence. */
module RecoverySafety {
  import opened Wrappers
  import opened EventOrder
  import opened ProtocolEvents
  import opened Projection
  import opened ManifestLifecycle
  import opened ChainState
  import opened Rebuild
  import opened Membership
  import opened Authorization

  // ----- The approval mask -----

  predicate Meets(mask: bv32, bits: bv32) {
    mask & bits != 0
  }

  predicate Marks(mask: bv32, i: int) {
    0 <= i < 32 && Meets(mask, Bit(i))
  }

  /** The positions at which an approval mask is set. */
  function Population(mask: bv32): set<int> {
    set i | 0 <= i < 32 && Marks(mask, i)
  }

  lemma BitsAreDisjoint(i: nat, j: nat)
    requires i < 32 && j < 32
    ensures Meets(Bit(i), Bit(j)) <==> i == j
  {
  }

  lemma UnionDistributes(mask: bv32, x: bv32, y: bv32)
    ensures (mask | x) & y == (mask & y) | (x & y)
  {
  }

  lemma UnionIsZero(x: bv32, y: bv32)
    ensures x | y == 0 <==> x == 0 && y == 0
  {
  }

  lemma MarkedAfter(mask: bv32, x: bv32, y: bv32)
    ensures Meets(mask | x, y) <==> Meets(mask, y) || Meets(x, y)
  {
    UnionDistributes(mask, x, y);
    UnionIsZero(mask & y, x & y);
  }

  lemma PopulationAfter(mask: bv32, i: nat)
    requires i < 32
    ensures forall j :: Marks(mask | Bit(i), j) <==> Marks(mask, j) || j == i
    ensures Population(mask | Bit(i)) == Population(mask) + {i}
  {
    forall j: int ensures Marks(mask | Bit(i), j) <==> Marks(mask, j) || j == i {
      MarksAfter(mask, i, j);
    }
    hide Marks, Bit;
    forall j: int ensures j in Population(mask | Bit(i)) <==> j in Population(mask) + {i} {
      assert Marks(mask | Bit(i), j) <==> Marks(mask, j) || j == i;
      PopulationIs(mask, j);
      PopulationIs(mask | Bit(i), j);
    }
  }

  lemma PopulationIs(mask: bv32, j: int)
    ensures j in Population(mask) <==> Marks(mask, j)
  {
  }

  lemma MeetsAfter(mask: bv32, i: nat, j: nat)
    requires i < 32 && j < 32
    ensures Meets(mask | Bit(i), Bit(j)) <==> Meets(mask, Bit(j)) || j == i
  {
    hide *;
    MarkedAfter(mask, Bit(i), Bit(j));
    BitsAreDisjoint(i, j);
  }

  lemma MarksAfter(mask: bv32, i: nat, j: int)
    requires i < 32
    ensures Marks(mask | Bit(i), j) <==> Marks(mask, j) || j == i
  {
    hide Bit, Meets;
    if 0 <= j < 32 {
      MeetsAfter(mask, i, j);
    }
  }

  // ----- Approvals are distinct guardians -----

  ghost predicate Distinct(xs: seq<Address>) {
    forall i, j :: 0 <= i < j < |xs| ==> xs[i] != xs[j]
  }

  /** The approval count, the population of the mask and the list of approvers agree; approvers are guardians. */
  ghost predicate ApprovalsAgree(r: Request) {
    && |r.guardians| <= 5 && Distinct(r.guardians)
    && r.approvalCount == |r.approved| == |Population(r.approvalsMask)|
    && Distinct(r.approved)
    && (forall x :: x in r.approved ==> x in r.guardians)
    && (forall i :: Marks(r.approvalsMask, i) <==> 0 <= i < |r.guardians| && r.guardians[i] in r.approved)
  }

  lemma ZeroUnion(x: bv32)
    ensures 0 | x == x
  {
  }

  lemma SingleBit(n: nat)
    requires n < 32
    ensures Population(Bit(n)) == {n} && forall i :: Marks(Bit(n), i) <==> i == n
  {
    hide Bit, Marks, Population;
    NothingMarked();
    PopulationAfter(0, n);
    ZeroUnion(Bit(n));
    forall i ensures Marks(Bit(n), i) <==> i == n {
      assert Marks(0 | Bit(n), i) <==> Marks(0, i) || i == n;
    }
  }

  lemma OnlyAt(xs: seq<Address>, n: int, x: Address)
    requires Distinct(xs) && 0 <= n < |xs| && xs[n] == x
    ensures forall i :: 0 <= i < |xs| ==> (xs[i] == x <==> i == n)
  {
  }

  lemma FirstApproval(guardians: seq<Address>, guardian: Address)
    requires |guardians| <= 5 && Distinct(guardians) && IndexOf(guardians, guardian) >= 0
    ensures Population(Bit(IndexOf(guardians, guardian))) == {IndexOf(guardians, guardian)}
    ensures forall i ::
              Marks(Bit(IndexOf(guardians, guardian)), i) <==> 0 <= i < |guardians| && guardians[i] in [guardian]
  {
    hide Bit, Marks, Population, Distinct;
    SingleBit(IndexOf(guardians, guardian));
    OnlyAt(guardians, IndexOf(guardians, guardian), guardian);
  }

  lemma NothingMarked()
    ensures Population(0) == {} && forall i :: !Marks(0, i)
  {
  }

  lemma NextMark(r: Request, i: nat, x: Address, j: int)
    requires ApprovalsAgree(r) && i < |r.guardians| && r.guardians[i] == x
    ensures Marks(r.approvalsMask | Bit(i), j) <==>
              0 <= j < |r.guardians| && (r.guardians[j] in r.approved || r.guardians[j] == x)
  {
    hide Bit, Marks, Population, Distinct;
    MarksAfter(r.approvalsMask, i, j);
    OnlyAt(r.guardians, i, x);
    assert Marks(r.approvalsMask, j) <==> 0 <= j < |r.guardians| && r.guardians[j] in r.approved;
  }

  lemma NextMarks(r: Request, i: nat, x: Address)
    requires ApprovalsAgree(r) && i < |r.guardians| && r.guardians[i] == x && !Marks(r.approvalsMask, i)
    ensures |Population(r.approvalsMask | Bit(i))| == |Population(r.approvalsMask)| + 1
    ensures forall j :: Marks(r.approvalsMask | Bit(i), j) <==>
              0 <= j < |r.guardians| && (r.guardians[j] in r.approved || r.guardians[j] == x)
    ensures x !in r.approved
  {
    hide Bit, Marks, Population, Distinct;
    PopulationAfter(r.approvalsMask, i);
    PopulationIs(r.approvalsMask, i);
    forall j: int ensures Marks(r.approvalsMask | Bit(i), j) <==>
                            0 <= j < |r.guardians| && (r.guardians[j] in r.approved || r.guardians[j] == x)
    {
      NextMark(r, i, x, j);
    }
    assert Marks(r.approvalsMask, i) <==> r.guardians[i] in r.approved;
  }

  lemma NextApproval(r: Request, e: Event)
    requires ApprovalsAgree(r) && e.body.RecoveryApproved?
    requires e.body.guardianIndex < |r.guardians| && r.guardians[e.body.guardianIndex] == e.body.guardian
    requires !Marks(r.approvalsMask, e.body.guardianIndex) && e.body.approvalCount == r.approvalCount + 1
    ensures ApprovalsAgree(Approve(r, e))
  {
    hide Bit, Marks, Population;
    NextMarks(r, e.body.guardianIndex, e.body.guardian);
  }

  // ----- Requests and the events that made them -----

  ghost predicate PoliciesValid(r: Recovery) {
    forall id :: id in r.policies ==> |r.policies[id].guardians| <= 5 && Distinct(r.policies[id].guardians)
  }

  /** The request is the one that an event asked for. */
  predicate RequestedBy(r: Request, a: Address, e: Event) {
    && e.body.RecoveryRequested? && e.body.request == a && r.identity == e.body.identity
    && r.sequence == e.body.sequence && r.rotationCount == e.body.rotationCount && r.root == e.body.root
    && r.target == e.body.target && r.threshold == e.body.threshold && r.executeAfterSlot == e.body.executeAfterSlot
  }

  /** Everything about a request but its approvals and its status is fixed when it is made. */
  predicate SameRequest(r: Request, next: Request) {
    && next.identity == r.identity && next.sequence == r.sequence && next.rotationCount == r.rotationCount
    && next.root == r.root && next.target == r.target && next.threshold == r.threshold
    && next.executeAfterSlot == r.executeAfterSlot && next.guardians == r.guardians
    && (!r.status.Pending? ==> next.status == r.status && next.terminalSequence == r.terminalSequence)
  }

  /** What one event does to the requests. */
  ghost predicate RequestsStep(r: Recovery, next: Recovery, e: Event) {
    && (forall a :: a in r.requests ==> a in next.requests && SameRequest(r.requests[a], next.requests[a]))
    && (forall a :: a in next.requests && a !in r.requests ==>
          RequestedBy(next.requests[a], a, e) && next.requests[a].status.Pending?)
  }

  lemma RequestSteps(r: Recovery, ids: Identities, pda: Derivations, e: Event)
    requires e.body.RecoveryRequested? && RecoveryEffect(r, ids, pda, e).Ok?
    ensures RequestsStep(r, RecoveryEffect(r, ids, pda, e).value, e)
  {
    hide AboveRecoveryHistory, RootEpochMatches, Bit;
  }

  lemma ApprovalSteps(r: Recovery, ids: Identities, pda: Derivations, e: Event)
    requires e.body.RecoveryApproved? && RecoveryEffect(r, ids, pda, e).Ok?
    ensures RequestsStep(r, RecoveryEffect(r, ids, pda, e).value, e)
  {
    hide RootEpochMatches, Bit;
  }

  lemma EndSteps(r: Recovery, ids: Identities, pda: Derivations, e: Event)
    requires e.body.RecoveryCancelled? || e.body.RecoveryExecuted?
    requires RecoveryEffect(r, ids, pda, e).Ok?
    ensures RequestsStep(r, RecoveryEffect(r, ids, pda, e).value, e)
  {
    hide AboveRecoveryHistory, RootEpochMatches, RotationIsLatest;
  }

  lemma PolicySteps(r: Recovery, ids: Identities, pda: Derivations, e: Event)
    requires e.body.PolicyConfigured? || e.body.PolicyDisabled?
    requires RecoveryEffect(r, ids, pda, e).Ok?
    ensures RequestsStep(r, RecoveryEffect(r, ids, pda, e).value, e)
  {
    hide MayConfigure, MayDisable;
  }

  lemma RecoverySteps(r: Recovery, ids: Identities, pda: Derivations, e: Event)
    requires FamilyOf(e.body) == OfRecovery && RecoveryEffect(r, ids, pda, e).Ok?
    ensures RequestsStep(r, RecoveryEffect(r, ids, pda, e).value, e)
  {
    hide RecoveryEffect, RequestsStep;
    if e.body.RecoveryRequested? {
      RequestSteps(r, ids, pda, e);
    } else if e.body.RecoveryApproved? {
      ApprovalSteps(r, ids, pda, e);
    } else if e.body.RecoveryCancelled? || e.body.RecoveryExecuted? {
      EndSteps(r, ids, pda, e);
    } else {
      PolicySteps(r, ids, pda, e);
    }
  }

  lemma RecoveryKeepsPolicies(r: Recovery, ids: Identities, pda: Derivations, e: Event)
    requires FamilyOf(e.body) == OfRecovery && RecoveryEffect(r, ids, pda, e).Ok? && PoliciesValid(r) && ValidEvent(e)
    ensures PoliciesValid(RecoveryEffect(r, ids, pda, e).value)
  {
    hide AboveRecoveryHistory, RootEpochMatches, Bit, MayConfigure, MayRequest, MayApprove, MayExecute, MayCancel;
  }

  ghost predicate ApprovalsHold(r: Recovery) {
    forall a :: a in r.requests ==> ApprovalsAgree(r.requests[a])
  }

  lemma RequestApprovals(r: Recovery, ids: Identities, pda: Derivations, e: Event)
    requires e.body.RecoveryRequested? && RecoveryEffect(r, ids, pda, e).Ok?
    requires PoliciesValid(r) && ValidEvent(e)
    ensures ApprovalsAgree(RecoveryEffect(r, ids, pda, e).value.requests[e.body.request])
  {
    hide AboveRecoveryHistory, RootEpochMatches, Bit, Marks, Population;
    var guardians := r.policies[e.body.identity].guardians;
    FirstApproval(guardians, e.body.guardian);
    GuardianListed(guardians, e.body.guardian);
  }

  lemma GuardianListed(guardians: seq<Address>, guardian: Address)
    requires IndexOf(guardians, guardian) >= 0
    ensures guardian in guardians
  {
  }

  lemma ApprovalApprovals(r: Recovery, ids: Identities, pda: Derivations, e: Event)
    requires e.body.RecoveryApproved? && RecoveryEffect(r, ids, pda, e).Ok? && ApprovalsHold(r)
    ensures e.body.request in r.requests
    ensures ApprovalsAgree(Approve(r.requests[e.body.request], e))
  {
    hide RootEpochMatches, Bit, Population, Approve;
    var request := r.requests[e.body.request];
    assert ApprovalsAgree(request);
    NextApproval(request, e);
  }

  /** Other events leave the approvals of every request as they are. */
  predicate SameApprovals(r: Request, next: Request) {
    && next.guardians == r.guardians && next.approvalsMask == r.approvalsMask && next.approved == r.approved
    && next.approvalCount == r.approvalCount
  }

  lemma OtherEventsKeepApprovals(r: Recovery, ids: Identities, pda: Derivations, e: Event)
    requires FamilyOf(e.body) == OfRecovery && RecoveryEffect(r, ids, pda, e).Ok?
    requires !e.body.RecoveryRequested? && !e.body.RecoveryApproved?
    ensures var next := RecoveryEffect(r, ids, pda, e).value;
            forall a :: a in next.requests ==> a in r.requests && SameApprovals(r.requests[a], next.requests[a])
  {
  }

  lemma ApprovalEventKeepsOthers(r: Recovery, ids: Identities, pda: Derivations, e: Event)
    requires e.body.RecoveryRequested? || e.body.RecoveryApproved?
    requires RecoveryEffect(r, ids, pda, e).Ok?
    ensures var next := RecoveryEffect(r, ids, pda, e).value;
            && e.body.request in next.requests
            && (e.body.RecoveryApproved? ==>
                  e.body.request in r.requests
                      && next.requests[e.body.request] == Approve(r.requests[e.body.request], e))
            && forall a :: a in next.requests && a != e.body.request ==>
                a in r.requests && next.requests[a] == r.requests[a]
  {
  }

  lemma SameApprovalsAgree(r: Request, next: Request)
    requires ApprovalsAgree(r) && SameApprovals(r, next)
    ensures ApprovalsAgree(next)
  {
    hide Distinct, Marks, Population;
  }

  lemma ApprovalEventKeepsApprovals(r: Recovery, ids: Identities, pda: Derivations, e: Event)
    requires (e.body.RecoveryRequested? || e.body.RecoveryApproved?) && RecoveryEffect(r, ids, pda, e).Ok?
    requires PoliciesValid(r) && ApprovalsHold(r) && ValidEvent(e)
    ensures ApprovalsHold(RecoveryEffect(r, ids, pda, e).value)
  {
    hide RecoveryEffect, ValidEvent, PoliciesValid, Approve, ApprovalsAgree;
    ApprovalEventKeepsOthers(r, ids, pda, e);
    if e.body.RecoveryRequested? {
      RequestApprovals(r, ids, pda, e);
    } else {
      ApprovalApprovals(r, ids, pda, e);
    }
  }

  lemma RecoveryKeepsApprovals(r: Recovery, ids: Identities, pda: Derivations, e: Event)
    requires FamilyOf(e.body) == OfRecovery && RecoveryEffect(r, ids, pda, e).Ok?
    requires PoliciesValid(r) && ApprovalsHold(r) && ValidEvent(e)
    ensures ApprovalsHold(RecoveryEffect(r, ids, pda, e).value)
  {
    hide RecoveryEffect, ValidEvent, PoliciesValid, ApprovalsAgree, SameApprovals;
    if e.body.RecoveryRequested? || e.body.RecoveryApproved? {
      ApprovalEventKeepsApprovals(r, ids, pda, e);
    } else {
      OtherEventsKeepApprovals(r, ids, pda, e);
      var next := RecoveryEffect(r, ids, pda, e).value;
      forall a | a in next.requests ensures ApprovalsAgree(next.requests[a]) {
        SameApprovalsAgree(r.requests[a], next.requests[a]);
      }
    }
  }

  // ----- Runs of the log -----

  lemma IngestRecovery(pda: Derivations, s: State, e: Event, t: Treatment)
    requires Ingest(pda, s, e, t).Ok?
    ensures var next := Ingest(pda, s, e, t).value.recovery;
            if FamilyOf(e.body) == OfRecovery then
              && RecoveryEffect(s.recovery, s.identities, pda, e).Ok?
              && next == RecoveryEffect(s.recovery, s.identities, pda, e).value
            else next == s.recovery
    ensures ValidateLifecycle(s.identities, e).Ok?
  {
    hide ValidateLifecycle, Advance, IdentityEffect, HandleEffect, RecoveryEffect, SocialEffect, ContentEffect,
      CommunityEffect, GovernanceEffect;
  }

  lemma NoRecovery()
    ensures PoliciesValid(EMPTY.recovery) && ApprovalsHold(EMPTY.recovery)
  {
  }

  /** In every state that a log leads to, the approvals of every request are those of distinct guardians of it. */
  lemma {:induction false} ApprovalsAlwaysAgree(pda: Derivations, log: seq<Event>)
    requires Chain(pda, log).Ok? && ValidLog(log)
    ensures PoliciesValid(Chain(pda, log).value.recovery) && ApprovalsHold(Chain(pda, log).value.recovery)
  {
    hide Ingest, RecoveryEffect, PoliciesValid, ApprovalsHold, ValidEvent;
    if log != [] {
      var last := |log| - 1;
      ApprovalsAlwaysAgree(pda, log[..last]);
      var s, e := Chain(pda, log[..last]).value, log[last];
      IngestRecovery(pda, s, e, Bare(e.body));
      if FamilyOf(e.body) == OfRecovery {
        RecoveryKeepsPolicies(s.recovery, s.identities, pda, e);
        RecoveryKeepsApprovals(s.recovery, s.identities, pda, e);
      }
    } else {
      NoRecovery();
    }
  }

  /** The request that an event refers to was made by an earlier event. */
  ghost predicate RequestsFollowLog(r: Recovery, log: seq<Event>) {
    forall a :: a in r.requests ==> exists i :: 0 <= i < |log| && RequestedBy(r.requests[a], a, log[i])
  }

  lemma RequestsAfter(r: Recovery, next: Recovery, log: seq<Event>, e: Event)
    requires RequestsFollowLog(r, log) && RequestsStep(r, next, e)
    ensures RequestsFollowLog(next, log + [e])
  {
    var log' := log + [e];
    assert log'[|log|] == e;
    forall a | a in next.requests ensures exists i :: 0 <= i < |log'| && RequestedBy(next.requests[a], a, log'[i]) {
      if a in r.requests {
        var i :| 0 <= i < |log| && RequestedBy(r.requests[a], a, log[i]);
        assert RequestedBy(next.requests[a], a, log'[i]);
      } else {
        assert RequestedBy(next.requests[a], a, log'[|log|]);
      }
    }
  }

  lemma NothingStep(r: Recovery, e: Event)
    ensures RequestsStep(r, r, e)
  {
  }

  lemma IngestRequests(pda: Derivations, s: State, e: Event, t: Treatment)
    requires Ingest(pda, s, e, t).Ok?
    ensures RequestsStep(s.recovery, Ingest(pda, s, e, t).value.recovery, e)
  {
    hide Ingest, RecoveryEffect, RequestsStep;
    IngestRecovery(pda, s, e, t);
    if FamilyOf(e.body) == OfRecovery {
      RecoverySteps(s.recovery, s.identities, pda, e);
    } else {
      NothingStep(s.recovery, e);
    }
  }

  lemma {:induction false} RequestsAlwaysFollowLog(pda: Derivations, log: seq<Event>)
    requires Chain(pda, log).Ok?
    ensures RequestsFollowLog(Chain(pda, log).value.recovery, log)
  {
    hide Ingest, RequestsFollowLog, RequestsStep;
    if log != [] {
      var last := |log| - 1;
      RequestsAlwaysFollowLog(pda, log[..last]);
      IngestRequests(pda, Chain(pda, log[..last]).value, log[last], Bare(log[last].body));
      RequestsAfter(Chain(pda, log[..last]).value.recovery, Chain(pda, log).value.recovery, log[..last], log[last]);
      assert log == log[..last] + [log[last]];
    } else {
      NoRequests();
    }
  }

  lemma NoRequests()
    ensures RequestsFollowLog(EMPTY.recovery, [])
  {
  }

  // ----- At most one recovery for each identity sequence -----

  /** An execution came after its delay, with enough approvals, one sequence after the request. */
  predicate ExecutedWell(r: Request) {
    r.status.Executed? ==>
      r.terminalSequence == Some(r.sequence + 1) && r.approvalCount >= r.threshold
          && r.updated.slot >= r.executeAfterSlot
  }

  ghost predicate ExecutionsHold(r: Recovery) {
    forall a :: a in r.requests ==> ExecutedWell(r.requests[a])
  }

  lemma RecoveryKeepsExecutions(r: Recovery, ids: Identities, pda: Derivations, e: Event)
    requires FamilyOf(e.body) == OfRecovery && RecoveryEffect(r, ids, pda, e).Ok? && ExecutionsHold(r)
    ensures ExecutionsHold(RecoveryEffect(r, ids, pda, e).value)
  {
    hide AboveRecoveryHistory, RootEpochMatches, RotationIsLatest, Bit, MayConfigure, MayDisable, MayRequest, MayCancel;
  }

  lemma {:induction false} ExecutionsAlwaysHold(pda: Derivations, log: seq<Event>)
    requires Chain(pda, log).Ok?
    ensures ExecutionsHold(Chain(pda, log).value.recovery)
  {
    hide Ingest, RecoveryEffect, ExecutedWell;
    if log != [] {
      var last := |log| - 1;
      ExecutionsAlwaysHold(pda, log[..last]);
      var s, e := Chain(pda, log[..last]).value, log[last];
      IngestRecovery(pda, s, e, Bare(e.body));
      if FamilyOf(e.body) == OfRecovery {
        RecoveryKeepsExecutions(s.recovery, s.identities, pda, e);
      }
    }
  }

  /** A request that has not executed, of an identity for which another one, made no earlier, has. */
  predicate Superseded(r: Recovery, y: Address, x: Address) {
    && x in r.requests && y in r.requests
    && r.requests[x].status.Executed? && !r.requests[y].status.Executed?
    && r.requests[x].identity == r.requests[y].identity && r.requests[y].sequence <= r.requests[x].sequence
  }

  lemma SupersededStays(r: Recovery, ids: Identities, pda: Derivations, e: Event, y: Address, x: Address)
    requires FamilyOf(e.body) == OfRecovery && RecoveryEffect(r, ids, pda, e).Ok?
    requires Superseded(r, y, x) && ExecutedWell(r.requests[x])
    ensures Superseded(RecoveryEffect(r, ids, pda, e).value, y, x)
  {
    hide RootEpochMatches, RotationIsLatest, Bit, MayConfigure, MayDisable;
  }

  /**
   Once a recovery has executed, every other request that was pending for the same identity, made at that or an
   earlier sequence, can never execute.
   */
  lemma {:induction false} SupersededNeverExecutes(pda: Derivations, log: seq<Event>, n: nat, y: Address, x: Address)
    requires n <= |log| && Chain(pda, log).Ok? && Chain(pda, log[..n]).Ok?
    requires Superseded(Chain(pda, log[..n]).value.recovery, y, x)
    ensures Superseded(Chain(pda, log).value.recovery, y, x)
    decreases |log|
  {
    hide Ingest, RecoveryEffect, ExecutedWell, Superseded;
    if n < |log| {
      var last := |log| - 1;
      assert log[..last][..n] == log[..n];
      SupersededNeverExecutes(pda, log[..last], n, y, x);
      var s, e := Chain(pda, log[..last]).value, log[last];
      IngestRecovery(pda, s, e, Bare(e.body));
      if FamilyOf(e.body) == OfRecovery {
        ExecutionsAlwaysHold(pda, log[..last]);
        SupersededIsThere(s.recovery, y, x);
        SupersededStays(s.recovery, s.identities, pda, e, y, x);
      }
    } else {
      assert log[..n] == log;
    }
  }

  lemma SupersededIsThere(r: Recovery, y: Address, x: Address)
    requires Superseded(r, y, x)
    ensures x in r.requests && y in r.requests
  {
  }

  // ----- The sequence of an identity counts the events that advance it -----

  /** The event moves the identity to its next sequence. */
  predicate Moves(e: Event, id: IdentityId) {
    AdvancesSequence(e.body) && e.body.identity == id
  }

  lemma MovesBy(ids: Identities, e: Event, id: IdentityId)
    requires IdentitiesAfter(ids, e).Ok? && ValidateLifecycle(ids, e).Ok? && id in ids.records
    requires e.body.IdentityCreated? ==> e.body.identity !in ids.records
    ensures var next := IdentitiesAfter(ids, e).value;
            && id in next.records
            && next.records[id].sequence == ids.records[id].sequence + (if Moves(e, id) then 1 else 0)
            && (Moves(e, id) ==> e.body.sequence == next.records[id].sequence)
  {
  }

  /** The sequence of an identity after n events. */
  function SequenceAt(pda: Derivations, log: seq<Event>, n: nat, id: IdentityId): int
    requires n <= |log|
  {
    var c := Chain(pda, log[..n]);
    if c.Ok? && id in c.value.identities.records then c.value.identities.records[id].sequence else -1
  }

  lemma SequenceStep(pda: Derivations, log: seq<Event>, n: nat, id: IdentityId)
    requires Chain(pda, log).Ok? && InCanonicalOrder(log) && CreatesOnce(log) && n < |log|
    ensures SequenceAt(pda, log, n, id) >= 0 ==>
              && SequenceAt(pda, log, n + 1, id) == SequenceAt(pda, log, n, id) + (if Moves(log[n], id) then 1 else 0)
              && (Moves(log[n], id) ==> log[n].body.sequence == SequenceAt(pda, log, n + 1, id))
    ensures Moves(log[n], id) ==> SequenceAt(pda, log, n, id) >= 0
  {
    hide Ingest, IdentitiesAfter, HistoryIsCurrent, PositionIn, Before, DelegationsFollowLog, ValidateLifecycle;
    ChainStep(pda, log, n);
    var s := Chain(pda, log[..n]).value;
    IdentitiesFollowLog(pda, log[..n]);
    assert log[..n + 1] == log[..n] + [log[n]];
    NotCreatedYet(s.identities, log[..n], log[n]);
    IngestIdentities(pda, s, log[n], Bare(log[n].body));
    if id in s.identities.records {
      MovesBy(s.identities, log[n], id);
    }
    if Moves(log[n], id) {
      MoverIsKnown(s.identities, log[n], id);
    }
  }

  lemma MoverIsKnown(ids: Identities, e: Event, id: IdentityId)
    requires IdentitiesAfter(ids, e).Ok? && ValidateLifecycle(ids, e).Ok? && Moves(e, id)
    ensures id in ids.records
  {
  }

  /** Between two points of a log, the sequence of an identity never falls. */
  lemma {:induction false} SequenceGrows(pda: Derivations, log: seq<Event>, i: nat, j: nat, id: IdentityId)
    requires Chain(pda, log).Ok? && InCanonicalOrder(log) && CreatesOnce(log) && i <= j <= |log|
    requires SequenceAt(pda, log, i, id) >= 0
    ensures SequenceAt(pda, log, i, id) <= SequenceAt(pda, log, j, id)
    decreases j
  {
    hide SequenceAt, Moves, InCanonicalOrder, CreatesOnce;
    if i < j {
      SequenceGrows(pda, log, i, j - 1, id);
      SequenceStep(pda, log, j - 1, id);
    }
  }

  /** A mover strictly between two points whose sequences are one apart is the only one. */
  lemma OnlyMover(pda: Derivations, log: seq<Event>, i: nat, m: nat, k: nat, j: nat, id: IdentityId)
    requires Chain(pda, log).Ok? && InCanonicalOrder(log) && CreatesOnce(log) && i <= m < j <= |log| && i <= k < j
    requires 0 <= SequenceAt(pda, log, i, id) && SequenceAt(pda, log, j, id) <= SequenceAt(pda, log, i, id) + 1
    requires Moves(log[m], id) && Moves(log[k], id)
    ensures k == m
  {
    hide SequenceAt, Moves, InCanonicalOrder, CreatesOnce, Chain;
    var a, b := if m < k then m else k, if m < k then k else m;
    SequenceGrows(pda, log, i, a, id);
    SequenceStep(pda, log, a, id);
    if a < b {
      SequenceGrows(pda, log, a + 1, b, id);
      SequenceStep(pda, log, b, id);
      SequenceGrows(pda, log, b + 1, j, id);
    }
  }

  // ----- Root epochs come from rotations -----

  predicate RotatedBy(epoch: RootEpoch, id: IdentityId, e: Event) {
    if e.body.RootRotated? then
      e.body.identity == id && epoch == RootEpoch(e.body.newRoot, e.body.rotationCount, e.body.sequence, e.pos)
    else e.body.IdentityCreated? && epoch.sequence == 0
  }

  ghost predicate EpochFollowsLog(epoch: RootEpoch, id: IdentityId, log: seq<Event>) {
    exists i :: 0 <= i < |log| && RotatedBy(epoch, id, log[i])
  }

  ghost predicate EpochsFollowLog(ids: Identities, log: seq<Event>) {
    forall id, n :: id in ids.roots && 0 <= n < |ids.roots[id]| ==> EpochFollowsLog(ids.roots[id][n], id, log)
  }

  lemma EpochStays(epoch: RootEpoch, id: IdentityId, log: seq<Event>, e: Event)
    ensures EpochFollowsLog(epoch, id, log) ==> EpochFollowsLog(epoch, id, log + [e])
    ensures RotatedBy(epoch, id, e) ==> EpochFollowsLog(epoch, id, log + [e])
  {
    hide RotatedBy;
    assert (log + [e])[|log|] == e;
    if EpochFollowsLog(epoch, id, log) {
      var i :| 0 <= i < |log| && RotatedBy(epoch, id, log[i]);
      assert RotatedBy(epoch, id, (log + [e])[i]);
    }
  }

  lemma EpochSteps(ids: Identities, e: Event)
    requires IdentitiesAfter(ids, e).Ok?
    ensures var next := IdentitiesAfter(ids, e).value;
            forall id, n :: id in next.roots && 0 <= n < |next.roots[id]| ==>
              || (id in ids.roots && n < |ids.roots[id]| && next.roots[id][n] == ids.roots[id][n])
              || RotatedBy(next.roots[id][n], id, e)
  {
    hide MayRevoke, MayDeactivate, NextFor;
  }

  lemma EpochsAfter(ids: Identities, log: seq<Event>, e: Event)
    requires IdentitiesAfter(ids, e).Ok? && EpochsFollowLog(ids, log)
    ensures EpochsFollowLog(IdentitiesAfter(ids, e).value, log + [e])
  {
    EpochSteps(ids, e);
    hide IdentitiesAfter, RotatedBy, EpochFollowsLog;
    var next := IdentitiesAfter(ids, e).value;
    forall id, n | id in next.roots && 0 <= n < |next.roots[id]|
      ensures EpochFollowsLog(next.roots[id][n], id, log + [e]) {
      EpochStays(next.roots[id][n], id, log, e);
    }
  }

  lemma {:induction false} EpochsAlwaysFollowLog(pda: Derivations, log: seq<Event>)
    requires Chain(pda, log).Ok?
    ensures EpochsFollowLog(Chain(pda, log).value.identities, log)
  {
    hide Ingest, IdentitiesAfter, EpochFollowsLog;
    if log != [] {
      var last := |log| - 1;
      EpochsAlwaysFollowLog(pda, log[..last]);
      IngestIdentities(pda, Chain(pda, log[..last]).value, log[last], Bare(log[last].body));
      EpochsAfter(Chain(pda, log[..last]).value.identities, log[..last], log[last]);
      assert log == log[..last] + [log[last]];
    }
  }

  // ----- What an execution means -----

  /** The facts that the guard of an execution establishes about the state it is applied to. */
  lemma ExecutionFacts(pda: Derivations, s: State, e: Event, t: Treatment)
    requires Ingest(pda, s, e, t).Ok? && e.body.RecoveryExecuted?
    ensures e.body.request in s.recovery.requests && e.body.identity in s.identities.records
    ensures s.identities.records[e.body.identity].sequence == e.body.sequence
    ensures var r := s.recovery.requests[e.body.request];
            && r.identity == e.body.identity && r.target == e.body.newRoot && r.root == e.body.previousRoot
            && e.body.sequence == r.sequence + 1 && e.pos.slot >= r.executeAfterSlot && r.approvalCount >= r.threshold
    ensures RotationIsLatest(s.identities, e)
  {
    IngestRecovery(pda, s, e, t);
    hide Ingest, RootEpochMatches, AboveRecoveryHistory, RotationIsLatest;
  }

  lemma RequestFacts(pda: Derivations, s: State, e: Event, t: Treatment)
    requires Ingest(pda, s, e, t).Ok? && e.body.RecoveryRequested?
    ensures e.body.identity in s.identities.records && s.identities.records[e.body.identity].sequence == e.body.sequence
    ensures e.body.identity in s.recovery.policies
         && e.body.executeAfterSlot == e.pos.slot + s.recovery.policies[e.body.identity].delaySlots
    ensures var next := Ingest(pda, s, e, t).value.recovery;
            && e.body.request in next.requests
            && next.requests[e.body.request].guardians == s.recovery.policies[e.body.identity].guardians
  {
    IngestRecovery(pda, s, e, t);
    hide Ingest, RootEpochMatches, AboveRecoveryHistory;
  }

  /** The fixed part of a request, guardians included, is what it was right after it was made. */
  lemma {:induction false} RequestStays(pda: Derivations, log: seq<Event>, i: nat, j: nat, a: Address)
    requires Chain(pda, log).Ok? && i <= j <= |log| && Chain(pda, log[..i]).Ok?
    requires a in Chain(pda, log[..i]).value.recovery.requests
    ensures Chain(pda, log[..j]).Ok? && a in Chain(pda, log[..j]).value.recovery.requests
    ensures Chain(pda, log[..j]).value.recovery.requests[a].guardians
         == Chain(pda, log[..i]).value.recovery.requests[a].guardians
    decreases j
  {
    hide Ingest;
    if i < j {
      ChainStep(pda, log, j - 1);
      RequestStays(pda, log, i, j - 1, a);
      IngestRequests(pda, Chain(pda, log[..j - 1]).value, log[j - 1], Bare(log[j - 1].body));
    }
  }

  /** The rotation that an execution reports: an earlier event of the same transaction, and of the log. */
  lemma ReportedRotation(pda: Derivations, log: seq<Event>, j: nat) returns (m: nat)
    requires Chain(pda, log).Ok? && j < |log| && log[j].body.RecoveryExecuted?
    ensures m < j && log[m].body.RootRotated? && log[m].body.identity == log[j].body.identity
    ensures log[m].body.newRoot == log[j].body.newRoot && log[m].body.sequence == log[j].body.sequence
    ensures log[m].pos.slot == log[j].pos.slot && log[m].pos.signature == log[j].pos.signature
  {
    hide Ingest, EpochFollowsLog;
    ChainStep(pda, log, j);
    var s, e := Chain(pda, log[..j]).value, log[j];
    ExecutionFacts(pda, s, e, Bare(e.body));
    EpochsAlwaysFollowLog(pda, log[..j]);
    var history := s.identities.roots[e.body.identity];
    m := EpochOrigin(history[|history| - 1], e.body.identity, log[..j]);
  }

  lemma EpochOrigin(epoch: RootEpoch, id: IdentityId, log: seq<Event>) returns (m: nat)
    requires EpochFollowsLog(epoch, id, log)
    ensures m < |log| && RotatedBy(epoch, id, log[m])
  {
    m :| m < |log| && RotatedBy(epoch, id, log[m]);
  }

  /** Where the request of an execution was made. */
  lemma RequestOrigin(pda: Derivations, log: seq<Event>, j: nat) returns (i: nat)
    requires Chain(pda, log).Ok? && j < |log| && log[j].body.RecoveryExecuted?
    ensures i < j && log[i].body.RecoveryRequested? && log[i].body.request == log[j].body.request
    ensures log[i].body.identity == log[j].body.identity && log[i].body.sequence + 1 == log[j].body.sequence
    ensures log[i].body.target == log[j].body.newRoot && log[i].body.root == log[j].body.previousRoot
    ensures log[j].pos.slot >= log[i].body.executeAfterSlot
  {
    hide Ingest;
    ChainStep(pda, log, j);
    var s, e := Chain(pda, log[..j]).value, log[j];
    ExecutionFacts(pda, s, e, Bare(e.body));
    RequestsAlwaysFollowLog(pda, log[..j]);
    i :| 0 <= i < j && RequestedBy(s.recovery.requests[e.body.request], e.body.request, log[..j][i]);
  }

  /**
   An executed recovery was requested at an earlier event i; since then exactly one event m moved the identity, the
   rotation to the requested key in the transaction of the execution; the delay of the policy passed; and at least
   the threshold of distinct guardians of the request approved, as the list, the count and the mask all say.
   */
  lemma ExecutedRecoveryIsJustified(pda: Derivations, log: seq<Event>, j: nat) returns (i: nat, m: nat)
    requires Chain(pda, log).Ok? && ValidLog(log) && InCanonicalOrder(log) && CreatesOnce(log)
    requires j < |log| && log[j].body.RecoveryExecuted?
    ensures i < m < j && log[i].body.RecoveryRequested? && log[m].body.RootRotated?
    ensures log[i].body.request == log[j].body.request && log[i].body.identity == log[j].body.identity
    ensures log[m].body.identity == log[i].body.identity && log[m].body.newRoot == log[i].body.target
    ensures log[m].pos.slot == log[j].pos.slot && log[m].pos.signature == log[j].pos.signature
    ensures forall k :: i <= k < j ==> (Moves(log[k], log[i].body.identity) <==> k == m)
    ensures Chain(pda, log[..i]).Ok? && log[i].body.identity in Chain(pda, log[..i]).value.recovery.policies
    ensures var policy := Chain(pda, log[..i]).value.recovery.policies[log[i].body.identity];
            log[j].pos.slot >= log[i].pos.slot + policy.delaySlots
    ensures Chain(pda, log[..j]).Ok? && log[j].body.request in Chain(pda, log[..j]).value.recovery.requests
    ensures var r := Chain(pda, log[..j]).value.recovery.requests[log[j].body.request];
            && ApprovalsAgree(r) && |r.approved| >= r.threshold
            && r.guardians == Chain(pda, log[..i]).value.recovery.policies[log[i].body.identity].guardians
  {
    hide Ingest, SequenceAt, InCanonicalOrder, CreatesOnce, ApprovalsAgree, ValidEvent, PoliciesValid;
    i := RequestOrigin(pda, log, j);
    m := ReportedRotation(pda, log, j);
    var id := log[j].body.identity;
    SequenceFacts(pda, log, i, m, j);
    forall k | i <= k < j ensures Moves(log[k], id) <==> k == m {
      if Moves(log[k], id) {
        OnlyMover(pda, log, i, m, k, j, id);
      }
    }
    ChainStep(pda, log, i);
    RequestFacts(pda, Chain(pda, log[..i]).value, log[i], Bare(log[i].body));
    RequestStays(pda, log, i + 1, j, log[i].body.request);
    ChainStep(pda, log, j);
    ExecutionFacts(pda, Chain(pda, log[..j]).value, log[j], Bare(log[j].body));
    ApprovalsAlwaysAgree(pda, log[..j]);
    EnoughApprovals(Chain(pda, log[..j]).value.recovery, log[j].body.request);
  }

  lemma EnoughApprovals(r: Recovery, a: Address)
    requires ApprovalsHold(r) && a in r.requests
    ensures ApprovalsAgree(r.requests[a]) && r.requests[a].approvalCount == |r.requests[a].approved|
  {
  }

  lemma SequenceFacts(pda: Derivations, log: seq<Event>, i: nat, m: nat, j: nat)
    requires Chain(pda, log).Ok? && InCanonicalOrder(log) && CreatesOnce(log) && i < j < |log| && m < j
    requires log[i].body.RecoveryRequested? && log[j].body.RecoveryExecuted? && log[m].body.RootRotated?
    requires log[i].body.identity == log[j].body.identity == log[m].body.identity
    requires log[i].body.sequence + 1 == log[j].body.sequence == log[m].body.sequence
    ensures i < m && 0 <= SequenceAt(pda, log, i, log[j].body.identity)
    ensures SequenceAt(pda, log, j, log[j].body.identity) <= SequenceAt(pda, log, i, log[j].body.identity) + 1
  {
    hide Ingest, InCanonicalOrder, CreatesOnce;
    var id := log[j].body.identity;
    ChainStep(pda, log, i);
    ChainStep(pda, log, j);
    RequestFacts(pda, Chain(pda, log[..i]).value, log[i], Bare(log[i].body));
    ExecutionFacts(pda, Chain(pda, log[..j]).value, log[j], Bare(log[j].body));
    SequenceStep(pda, log, m, id);
    hide SequenceAt;
    if m < i {
      SequenceGrows(pda, log, m + 1, i, id);
    }
  }
}
