/**
 What happens to an event after it was ingested with its manifest pending: promotion once the bytes arrive,
 or rejection for good. And whole runs of the store's operations.
 */
module ManifestLifecycle {
  import opened Wrappers
  import opened EventOrder
  import opened ProtocolEvents
  import opened Projection

  /** Whether an operation changed anything, and the state it leaves. */
  datatype Step = Step(applied: bool, state: State)

  // ----- Looking back into the log -----

  predicate Tombstones(candidate: Event, post: Event)
    requires post.body.PostPublished?
  {
    && candidate.body.Tombstoned?
    && candidate.body.identity == post.body.identity && candidate.body.objectId == post.body.objectId
    && Before(post.pos, candidate.pos)
  }

  /** The latest tombstone of a post by its author, among the recorded events at later positions. */
  function LaterTombstone(log: seq<Event>, post: Event): Option<Event>
    requires post.body.PostPublished?
  {
    if log == [] then None
    else
      var earlier := LaterTombstone(log[..|log| - 1], post);
      var candidate := log[|log| - 1];
      if Tombstones(candidate, post) && (earlier.Some? ==> Before(earlier.value.pos, candidate.pos))
      then Some(candidate)
      else earlier
  }

  predicate IsTransition(e: Event, address: Address, stateSequence: nat) {
    e.body.MembershipChanged? && e.body.membership == address && e.body.stateSequence == stateSequence
  }

  /** The first recorded transition of a membership to a given state sequence. */
  function FindTransition(log: seq<Event>, address: Address, stateSequence: nat): Option<Event> {
    if log == [] then None
    else
      var earlier := FindTransition(log[..|log| - 1], address, stateSequence);
      if earlier.Some? then earlier
      else if IsTransition(log[|log| - 1], address, stateSequence) then Some(log[|log| - 1])
      else None
  }

  /** The manifest hash that a late membership manifest must supersede. */
  function PreviousHash(log: seq<Event>, b: Body): Option<Digest>
    requires b.MembershipChanged?
  {
    if b.stateSequence <= 1 then None
    else
      var previous := FindTransition(log, b.membership, b.stateSequence - 1);
      if previous.Some? && previous.value.body.MembershipChanged? then Some(previous.value.body.manifestHash) else None
  }

  // ----- Promotion and rejection -----

  function KindFor(b: Body): ManifestKind {
    if b.ProfileUpdated? then ProfileManifest
    else if b.PostPublished? then PostManifest
    else if b.CommunityCreated? then CommunityManifest
    else MembershipManifest
  }

  function PromoteContent(c: Content, log: seq<Event>, e: Event, m: Manifest): Content {
    match e.body
    case ProfileUpdated(id, _, _, _) =>
      if id in c.latestProfile && c.latestProfile[id] == CoordinateOf(e.pos)
      then c.(profiles := c.profiles[id := NewProfile(e, m)])
      else c
    case PostPublished(_, _, _, _, _) =>
      var tombstone := LaterTombstone(log, e);
      var tombstonedAt := if tombstone.Some? then Some(tombstone.value.blockTime) else None;
      c.(posts := c.posts[m.objectId := NewPost(e, m, tombstonedAt)])
    case _ => c
  }

  /** The membership is still in the state that this event gave it. */
  predicate IsCurrentTransition(c: Communities, b: Body)
    requires b.MembershipChanged?
  {
    && (b.community, b.member) in c.memberships
    && var core := c.memberships[(b.community, b.member)].core;
    && core.address == b.membership && core.stateSequence == b.stateSequence && core.manifestHash == b.manifestHash
  }

  function PromoteCommunities(c: Communities, e: Event, m: Manifest): Communities {
    match e.body
    case CommunityCreated(_, address, _, _, _, _, _, _, _, _, _, _) =>
      if address in c.communities
      then c.(communities := c.communities[address := c.communities[address].(proof := Some(CommunityProofOf(m)))])
      else c
    case MembershipChanged(_, member, community, _, _, _, _, _, _, _, _, _, _, _, _, _) =>
      if IsCurrentTransition(c, e.body)
      then c.(memberships := c.memberships[(community, member) :=
               c.memberships[(community, member)].(proof := Some(MembershipProofOf(m)))])
      else c
    case _ => c
  }

  /** The state in which the manifest of a pending event is known to be good. */
  function Promoted(s: State, e: Event, m: Manifest): State {
    s.(content := PromoteContent(s.content, s.ledger.log, e, m),
       communities := PromoteCommunities(s.communities, e, m),
       ledger := s.ledger.(pending := s.ledger.pending - {CoordinateOf(e.pos)}))
  }

  function Promote(s: State, e: Event, m: Manifest): Outcome<Step> {
    var c := CoordinateOf(e.pos);
    var recorded := Lookup(s.ledger.log, c);
    if !MayDefer(e.body) then Err(ManifestMismatch)
    else if recorded.None? then Err(StaleEvent)
    else if recorded.value != e || c in s.ledger.terminal then Err(EventConflict)
    else if c !in s.ledger.pending then Ok(Step(false, s))
    else
      var verified :- RequireManifest(e, Some(m), KindFor(e.body));
      if e.body.ProfileUpdated? && e.body.identity !in s.identities.records then Err(MissingIdentity)
      else if e.body.CommunityCreated? && e.body.community !in s.communities.communities then Err(StaleEvent)
      else if && e.body.MembershipChanged?
              && !ContinuesChain(PreviousHash(s.ledger.log, e.body), e.body.stateSequence, verified)
      then Err(StaleEvent)
      else Ok(Step(true, Promoted(s, e, verified)))
  }

  function RejectedState(s: State, e: Event, code: string): State {
    var c := CoordinateOf(e.pos);
    s.(ledger := s.ledger.(pending := s.ledger.pending - {c}, terminal := s.ledger.terminal[c := code]))
  }

  function Reject(s: State, e: Event, code: string): Outcome<Step> {
    var c := CoordinateOf(e.pos);
    var recorded := Lookup(s.ledger.log, c);
    if !MayDefer(e.body) then Err(ManifestMismatch)
    else if recorded.None? then Err(StaleEvent)
    else if recorded.value != e then Err(EventConflict)
    else if c in s.ledger.terminal then
      if s.ledger.terminal[c] == code then Ok(Step(false, s)) else Err(EventConflict)
    else if c !in s.ledger.pending then Err(EventConflict)
    else Ok(Step(true, RejectedState(s, e, code)))
  }

  // ----- First arrivals -----

  function Apply(pda: Derivations, s: State, e: Event, manifest: Option<Manifest>): Outcome<Step> {
    var c := CoordinateOf(e.pos);
    var recorded := Lookup(s.ledger.log, c);
    if recorded.Some? then
      if recorded.value != e || c in s.ledger.pending || c in s.ledger.terminal then Err(EventConflict)
      else Ok(Step(false, s))
    else
      var next :- Ingest(pda, s, e, Accept(manifest));
      Ok(Step(true, next))
  }

  function DeferEvent(pda: Derivations, s: State, e: Event): Outcome<Step> {
    var c := CoordinateOf(e.pos);
    var recorded := Lookup(s.ledger.log, c);
    if !MayDefer(e.body) then Err(ManifestMismatch)
    else if recorded.Some? then
      if recorded.value == e && c in s.ledger.pending && c !in s.ledger.terminal then Ok(Step(false, s))
      else Err(EventConflict)
    else
      var next :- Ingest(pda, s, e, Defer);
      Ok(Step(true, next))
  }

  function QuarantineEvent(pda: Derivations, s: State, e: Event, code: string): Outcome<Step> {
    var c := CoordinateOf(e.pos);
    var recorded := Lookup(s.ledger.log, c);
    if TreatmentFault(e.body, Quarantine(code)).Some? then Err(ManifestMismatch)
    else if recorded.Some? then
      if recorded.value == e && c in s.ledger.terminal && s.ledger.terminal[c] == code then Ok(Step(false, s))
      else Err(EventConflict)
    else
      var next :- Ingest(pda, s, e, Quarantine(code));
      Ok(Step(true, next))
  }

  // ----- Runs -----

  datatype Op =
    | ApplyOp(event: Event, manifest: Option<Manifest>)
    | DeferOp(event: Event)
    | PromoteOp(event: Event, verified: Manifest)
    | RejectOp(event: Event, code: string)
    | QuarantineOp(event: Event, code: string)

  function Perform(pda: Derivations, s: State, op: Op): Outcome<Step> {
    match op
    case ApplyOp(e, manifest) => Apply(pda, s, e, manifest)
    case DeferOp(e) => DeferEvent(pda, s, e)
    case PromoteOp(e, m) => Promote(s, e, m)
    case RejectOp(e, code) => Reject(s, e, code)
    case QuarantineOp(e, code) => QuarantineEvent(pda, s, e, code)
  }

  /** A raw event and the treatment that its manifest has been given so far. */
  datatype Item = Item(event: Event, treatment: Treatment)

  function TreatmentOf(op: Op): Treatment {
    match op
    case ApplyOp(_, manifest) => Accept(manifest)
    case DeferOp(_) => Defer
    case PromoteOp(_, m) => Accept(Some(m))
    case RejectOp(_, code) => Quarantine(code)
    case QuarantineOp(_, code) => Quarantine(code)
  }

  function Retreat(items: seq<Item>, c: Coordinate, t: Treatment): (r: seq<Item>)
    ensures |r| == |items|
    ensures forall i :: 0 <= i < |items| ==> r[i].event == items[i].event
  {
    seq(|items|, i requires 0 <= i < |items| =>
      if CoordinateOf(items[i].event.pos) == c then Item(items[i].event, t) else items[i])
  }

  /** The state of the store, beside what a replay of its log would be given. */
  datatype Execution = Execution(state: State, items: seq<Item>)

  /** An operation that fails leaves the store as it was. */
  function Continue(pda: Derivations, x: Execution, op: Op): Execution {
    var outcome := Perform(pda, x.state, op);
    if outcome.Err? || !outcome.value.applied then x
    else if op.PromoteOp? || op.RejectOp? then
      Execution(outcome.value.state, Retreat(x.items, CoordinateOf(op.event.pos), TreatmentOf(op)))
    else Execution(outcome.value.state, x.items + [Item(op.event, TreatmentOf(op))])
  }

  function Execute(pda: Derivations, ops: seq<Op>): Execution {
    if ops == [] then Execution(EMPTY, [])
    else Continue(pda, Execute(pda, ops[..|ops| - 1]), ops[|ops| - 1])
  }

  /** The state that the store reaches after a run. */
  function Run(pda: Derivations, ops: seq<Op>): State {
    Execute(pda, ops).state
  }

  /** Takes in raw events one after another, each with its treatment, from an empty store. */
  function Replay(pda: Derivations, items: seq<Item>): Outcome<State> {
    if items == [] then Ok(EMPTY)
    else
      var s :- Replay(pda, items[..|items| - 1]);
      Ingest(pda, s, items[|items| - 1].event, items[|items| - 1].treatment)
  }

  function EventsOf(items: seq<Item>): (r: seq<Event>)
    ensures |r| == |items| && forall i :: 0 <= i < |items| ==> r[i] == items[i].event
  {
    seq(|items|, i requires 0 <= i < |items| => items[i].event)
  }
}
