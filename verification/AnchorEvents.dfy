/** The events that the program emits: the fields of each, in order, behind a discriminator of eight bytes. */
module AnchorEvents {
  import opened Wrappers
  import opened Borsh

  datatype EventKind =
    | ProtocolInitialized | IdentityCreated | IdentityDeactivated | HandleClaimed | HandleReleased
    | ProfileReferenceUpdated | PostReferencePublished | FollowStateChanged | PostTombstoned
    | RootAuthorityRotated | DelegationCreated | DelegationRevoked | BlockStateChanged | CommunityCreated
    | CommunityGovernanceUpdated | CommunityMembershipChanged | ReactionStateChanged
    | RecoveryPolicyConfigured | RecoveryPolicyDisabled | RecoveryRequested | RecoveryApproved
    | RecoveryCancelled | RecoveryExecuted | PaymentConfigInitialized | PaymentConfigUpdated
    | PaymentAuthorityRotated | SubscriptionOfferingCreated | SubscriptionOfferingRetired | WokeTipSettled
    | SubscriptionSettled | ProposalCreated | VoteCast | ProposalFinalized

  const U8 := Unsigned(1)
  const U16 := Unsigned(2)
  const U64 := Unsigned(8)
  const Key := Bytes(32)

  /** The fields in the order in which they are read. */
  function LayoutOf(kind: EventKind): seq<Kind> {
    match kind
    case ProtocolInitialized =>
      [U16, Key, U64]
    case IdentityCreated =>
      [U16, Key, Key, Key, Bytes(16), U64]
    case IdentityDeactivated =>
      [U16, Key, Key, Key, U64, U64]
    case HandleClaimed =>
      [U16, Key, Key, Key, Key, U64, Bytes(32), Text, U64]
    case HandleReleased =>
      [U16, Key, Key, Key, Key, U64, Bytes(32), Text, U64]
    case ProfileReferenceUpdated =>
      [U16, Key, Key, Key, U64, Bytes(32), Bytes(32), Text, U64, TrailingU16]
    case PostReferencePublished =>
      [U16, Key, Key, Key, Key, Bytes(16), U64, Bytes(32), Text, U64]
    case FollowStateChanged =>
      [U16, Key, Key, Key, Key, U64, U64, Bool, U64]
    case PostTombstoned =>
      [U16, Key, Key, Key, Key, U64, Bytes(32), Variant(0, 2), U64]
    case RootAuthorityRotated =>
      [U16, Key, Key, Key, Key, U64, U64, U64]
    case DelegationCreated =>
      [U16, Key, Key, Key, Key, U64, U64, U16, U64, U64, U64]
    case DelegationRevoked =>
      [U16, Key, Key, Key, Key, U64, U64, U64, U64]
    case BlockStateChanged =>
      [U16, Key, Key, Key, Key, Key, U64, U64, Bool, U64]
    case CommunityCreated =>
      [U16, Key, Key, Key, Key, Bytes(16), U64, Bytes(32), Text, U16, Bytes(32), Variant(0, 2), Variant(0, 2), U64,
       U64, U64]
    case CommunityGovernanceUpdated =>
      [U16, Key, Key, Key, Key, U64, U16, U16, Bytes(32), Bytes(32), U64]
    case CommunityMembershipChanged =>
      [U16, Key, Key, Key, Key, Key, Key, Variant(0, 3), Variant(0, 3), U64, U64, U64, U64, U64, U64, U16, Bytes(32),
       Text, U64]
    case ReactionStateChanged =>
      [U16, Key, Key, Key, Key, Key, U8, U64, U64, Bool, U64]
    case RecoveryPolicyConfigured =>
      [U16, Key, Key, Key, Key, U64, U64, U64, KeyVector, U8, U64, U64]
    case RecoveryPolicyDisabled =>
      [U16, Key, Key, Key, Key, U64, U64, U64, U64]
    case RecoveryRequested =>
      [U16, Key, Key, Key, Key, Key, Bytes(16), U64, Key, U64, U64, Key, U8, U8, U8, U64, U64]
    case RecoveryApproved =>
      [U16, Key, Key, Key, Key, Key, U8, U64, U8, U8, U64]
    case RecoveryCancelled =>
      [U16, Key, Key, Key, Key, Key, Key, U64, U64, U64, U64]
    case RecoveryExecuted =>
      [U16, Key, Key, Key, Key, Key, Key, Key, U64, U8, U8, U64, U64, U64]
    case PaymentConfigInitialized =>
      [U16, Key, Key, Key, Key, Key, U16, U64, Bool, U64]
    case PaymentConfigUpdated =>
      [U16, Key, Key, Key, Key, Key, U16, U16, Bool, Bool, U64, U64]
    case PaymentAuthorityRotated =>
      [U16, Key, Key, Key, Key, U64, U64]
    case SubscriptionOfferingCreated =>
      [U16, Key, Key, Key, Key, Key, Bytes(16), Bytes(32), Text, U64, Variant(0, 0), SplitVector, Bytes(32), U16,
       U64, U64, U64, U64]
    case SubscriptionOfferingRetired =>
      [U16, Key, Key, Key, Key, Bytes(32), U64, U64, U64]
    case WokeTipSettled =>
      [U16, Key, Key, Key, Key, Key, Key, Key, Bytes(16), Variant(0, 0), U64, U64, U64, U16, Key, U64, U64, U64, I64,
       U64]
    case SubscriptionSettled =>
      [U16, Key, Key, Key, Key, Key, Key, Key, Key, Bytes(16), Variant(1, 1), U64, U64, U64, Bytes(32), Bytes(32),
       U64, U16, Key, U64, U64, SplitVector, AmountVector, U64, U64, I64, I64, I64, U64]
    case ProposalCreated =>
      [U16, Key, Key, Key, Key, Key, U64, U64, Bytes(32), Text, U16, Bytes(32), Variant(0, 0), U64, U64, U64, U64,
       U16, U16, U64, U64]
    case VoteCast =>
      [U16, Key, Key, Key, Key, Key, Key, Key, U64, U64, U64, Variant(0, 2), U64, U64, U64, U64]
    case ProposalFinalized =>
      [U16, Key, Key, Key, Key, U64, U64, U64, U64, U64, U64, U64, U16, U16, Bool, Bool, Variant(0, 2), U64]
  }

  const ALL_KINDS: seq<EventKind> := [
    ProtocolInitialized, IdentityCreated, IdentityDeactivated, HandleClaimed, HandleReleased,
    ProfileReferenceUpdated, PostReferencePublished, FollowStateChanged, PostTombstoned, RootAuthorityRotated,
    DelegationCreated, DelegationRevoked, BlockStateChanged, CommunityCreated, CommunityGovernanceUpdated,
    CommunityMembershipChanged, ReactionStateChanged, RecoveryPolicyConfigured, RecoveryPolicyDisabled,
    RecoveryRequested, RecoveryApproved, RecoveryCancelled, RecoveryExecuted, PaymentConfigInitialized,
    PaymentConfigUpdated, PaymentAuthorityRotated, SubscriptionOfferingCreated, SubscriptionOfferingRetired,
    WokeTipSettled, SubscriptionSettled, ProposalCreated, VoteCast, ProposalFinalized]

  // ----- Decoding a log entry -----

  const DISCRIMINATOR_LENGTH := 8

  datatype Decoded = Decoded(kind: EventKind, values: seq<Value>)

  /** The eight bytes in front of the fields. */
  function DiscriminatorOf(kind: EventKind): (d: seq<Byte>)
    ensures |d| == DISCRIMINATOR_LENGTH
  {
    match kind
    case ProtocolInitialized => [173, 122, 168, 254, 9, 118, 76, 132]
    case IdentityCreated => [247, 185, 231, 174, 133, 94, 200, 142]
    case IdentityDeactivated => [19, 21, 51, 7, 82, 100, 132, 255]
    case HandleClaimed => [23, 183, 225, 13, 62, 87, 199, 150]
    case HandleReleased => [46, 27, 52, 76, 216, 175, 174, 128]
    case ProfileReferenceUpdated => [251, 63, 9, 200, 203, 176, 143, 98]
    case PostReferencePublished => [65, 16, 116, 252, 204, 196, 161, 100]
    case FollowStateChanged => [134, 25, 152, 20, 65, 243, 107, 118]
    case PostTombstoned => [228, 246, 184, 38, 105, 108, 147, 36]
    case RootAuthorityRotated => [45, 188, 81, 157, 31, 106, 151, 77]
    case DelegationCreated => [20, 93, 12, 34, 227, 63, 100, 136]
    case DelegationRevoked => [59, 158, 142, 49, 164, 116, 220, 8]
    case BlockStateChanged => [172, 189, 73, 239, 129, 119, 51, 239]
    case CommunityCreated => [218, 186, 205, 161, 125, 58, 101, 64]
    case CommunityGovernanceUpdated => [196, 91, 184, 153, 102, 11, 202, 176]
    case CommunityMembershipChanged => [140, 136, 245, 151, 152, 11, 75, 249]
    case ReactionStateChanged => [183, 83, 52, 150, 209, 41, 13, 94]
    case RecoveryPolicyConfigured => [60, 86, 49, 242, 0, 181, 29, 253]
    case RecoveryPolicyDisabled => [34, 63, 210, 140, 136, 130, 70, 177]
    case RecoveryRequested => [127, 3, 38, 230, 145, 28, 53, 141]
    case RecoveryApproved => [97, 50, 186, 253, 67, 239, 34, 47]
    case RecoveryCancelled => [191, 25, 236, 86, 25, 77, 117, 96]
    case RecoveryExecuted => [161, 218, 6, 191, 85, 217, 12, 144]
    case PaymentConfigInitialized => [12, 146, 193, 194, 231, 51, 227, 9]
    case PaymentConfigUpdated => [186, 235, 216, 17, 194, 224, 181, 66]
    case PaymentAuthorityRotated => [163, 98, 210, 236, 171, 187, 204, 62]
    case SubscriptionOfferingCreated => [55, 231, 216, 246, 111, 122, 144, 233]
    case SubscriptionOfferingRetired => [168, 40, 69, 55, 165, 163, 200, 123]
    case WokeTipSettled => [142, 81, 75, 163, 58, 30, 248, 115]
    case SubscriptionSettled => [146, 48, 250, 127, 131, 180, 247, 174]
    case ProposalCreated => [186, 8, 160, 108, 81, 13, 51, 206]
    case VoteCast => [39, 53, 195, 104, 188, 17, 225, 213]
    case ProposalFinalized => [159, 104, 210, 220, 86, 209, 61, 51]
  }

  /** The event whose discriminator ends in a byte: the last byte already tells every two of them apart. */
  function KindEndingIn(last: Byte): Option<EventKind> {
    match last
    case 132 => Some(ProtocolInitialized)
    case 142 => Some(IdentityCreated)
    case 255 => Some(IdentityDeactivated)
    case 150 => Some(HandleClaimed)
    case 128 => Some(HandleReleased)
    case 98 => Some(ProfileReferenceUpdated)
    case 100 => Some(PostReferencePublished)
    case 118 => Some(FollowStateChanged)
    case 36 => Some(PostTombstoned)
    case 77 => Some(RootAuthorityRotated)
    case 136 => Some(DelegationCreated)
    case 8 => Some(DelegationRevoked)
    case 239 => Some(BlockStateChanged)
    case 64 => Some(CommunityCreated)
    case 176 => Some(CommunityGovernanceUpdated)
    case 249 => Some(CommunityMembershipChanged)
    case 94 => Some(ReactionStateChanged)
    case 253 => Some(RecoveryPolicyConfigured)
    case 177 => Some(RecoveryPolicyDisabled)
    case 141 => Some(RecoveryRequested)
    case 47 => Some(RecoveryApproved)
    case 96 => Some(RecoveryCancelled)
    case 144 => Some(RecoveryExecuted)
    case 9 => Some(PaymentConfigInitialized)
    case 66 => Some(PaymentConfigUpdated)
    case 62 => Some(PaymentAuthorityRotated)
    case 233 => Some(SubscriptionOfferingCreated)
    case 123 => Some(SubscriptionOfferingRetired)
    case 115 => Some(WokeTipSettled)
    case 174 => Some(SubscriptionSettled)
    case 206 => Some(ProposalCreated)
    case 213 => Some(VoteCast)
    case 51 => Some(ProposalFinalized)
    case _ => None
  }

  lemma LastByteTells(kind: EventKind)
    ensures KindEndingIn(DiscriminatorOf(kind)[DISCRIMINATOR_LENGTH - 1]) == Some(kind)
  {
  }

  /** Different events have different discriminators. */
  lemma DiscriminatorsDiffer(j: EventKind, k: EventKind)
    ensures DiscriminatorOf(j) == DiscriminatorOf(k) ==> j == k
  {
    LastByteTells(j);
    LastByteTells(k);
  }

  /** The first kind, in the order in which they are tried, whose discriminator the data begins with. */
  function KindFor(prefix: seq<Byte>, candidates: seq<EventKind>): Option<EventKind> {
    if candidates == [] then None
    else if DiscriminatorOf(candidates[0]) == prefix then Some(candidates[0])
    else KindFor(prefix, candidates[1..])
  }

  function DecodeEvent(data: seq<Byte>): Result<Decoded, DecodingFault> {
    if |data| < DISCRIMINATOR_LENGTH then Err(TooShort)
    else
      var kind := KindFor(data[..DISCRIMINATOR_LENGTH], ALL_KINDS);
      if kind.None? then Err(Borsh.Unsupported)
      else
        var values :- ReadAll(LayoutOf(kind.value), data[DISCRIMINATOR_LENGTH..]);
        Ok(Decoded(kind.value, values))
  }

  function EncodeEvent(e: Decoded): seq<Byte>
    requires AllFit(LayoutOf(e.kind), e.values)
  {
    DiscriminatorOf(e.kind) + WriteAll(LayoutOf(e.kind), e.values)
  }

  lemma NoTrailer(kinds: seq<Kind>)
    requires TrailingU16 !in kinds
    ensures IsLayout(kinds)
  {
  }

  lemma LayoutsAreSound(kind: EventKind)
    ensures IsLayout(LayoutOf(kind))
  {
    if !kind.ProfileReferenceUpdated? {
      hide IsLayout;
      assert TrailingU16 !in LayoutOf(kind);
      NoTrailer(LayoutOf(kind));
    }
  }

  lemma AllKindsListed(kind: EventKind)
    ensures kind in ALL_KINDS
  {
  }

  lemma {:induction false} FindsKind(kind: EventKind, candidates: seq<EventKind>)
    requires kind in candidates
    ensures KindFor(DiscriminatorOf(kind), candidates) == Some(kind)
  {
    hide DiscriminatorOf;
    DiscriminatorsDiffer(candidates[0], kind);
    if candidates[0] != kind {
      FindsKind(kind, candidates[1..]);
    }
  }

  lemma {:induction false} FoundKind(prefix: seq<Byte>, candidates: seq<EventKind>)
    ensures var kind := KindFor(prefix, candidates);
            kind.Some? ==> DiscriminatorOf(kind.value) == prefix
  {
    hide DiscriminatorOf;
    if candidates != [] && DiscriminatorOf(candidates[0]) != prefix {
      FoundKind(prefix, candidates[1..]);
    }
  }

  /** Every event of every kind decodes to itself, and only what an event is encoded as decodes to it. */
  lemma DecodingInvertsEncoding(data: seq<Byte>, e: Decoded)
    ensures DecodeEvent(data) == Ok(e)
       <==> AllFit(LayoutOf(e.kind), e.values) && data == EncodeEvent(e)
  {
    hide LayoutOf, DiscriminatorOf, AllFit, ReadAll, WriteAll, KindFor, IsLayout;
    LayoutsAreSound(e.kind);
    AllKindsListed(e.kind);
    FindsKind(e.kind, ALL_KINDS);
    if |data| >= DISCRIMINATOR_LENGTH {
      var prefix, rest := data[..DISCRIMINATOR_LENGTH], data[DISCRIMINATOR_LENGTH..];
      assert data == prefix + rest;
      FoundKind(prefix, ALL_KINDS);
      ReaderInvertsWriter(LayoutOf(e.kind), rest, e.values);
    }
    if AllFit(LayoutOf(e.kind), e.values) && data == EncodeEvent(e) {
      assert data[..DISCRIMINATOR_LENGTH] == DiscriminatorOf(e.kind);
      assert data[DISCRIMINATOR_LENGTH..] == WriteAll(LayoutOf(e.kind), e.values);
    }
  }

  /** Decodes the bytes of a log entry with a reader that moves along them. */
  method DecodeAnchorEventLog(data: seq<Byte>) returns (r: Result<Decoded, DecodingFault>)
    ensures r == DecodeEvent(data)
  {
    hide LayoutOf, DiscriminatorOf, ReadAll, KindFor;
    if |data| < DISCRIMINATOR_LENGTH {
      return Err(TooShort);
    }
    var reader := new BorshReader(data[DISCRIMINATOR_LENGTH..]);
    var kind := KindFor(data[..DISCRIMINATOR_LENGTH], ALL_KINDS);
    if kind.None? {
      return Err(Borsh.Unsupported);
    }
    var values := reader.TakeEvent(LayoutOf(kind.value));
    r := if values.Ok? then Ok(Decoded(kind.value, values.value)) else Err(values.error);
  }
}
