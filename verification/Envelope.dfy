/**
 The common envelope, its references and its framed identity
 (`crates/o7-a1-contracts/src/envelope.rs`, `refs.rs`). Bytes fields are their bytes; the
 two version numbers are frozen at 1 in the original's types and are constants here.
 */
module Envelope {
  import opened Base
  import opened Kinds
  import opened Framing

  const MAX_CONTROL_ARTIFACT_BYTES: nat := 0x10_0000
  const MAX_EVIDENCE_BLOB_BYTES: nat := 0x400_0000
  const MAX_STRING_BYTES: nat := 65536
  const MAX_ARTIFACT_REFS: nat := 256
  const VERSION: u32 := 1

  datatype ArtifactRef = ArtifactRef(kind: ArtifactKind, mediaType: Bytes, digest: Bytes, size: u64)

  datatype Envelope = Envelope(
    messageKind: MessageKind,
    messageId: Bytes, rootGoalId: Bytes, taskId: Bytes, campaignId: Bytes,
    roundId: Option<Bytes>, causationId: Option<Bytes>, correlationId: Bytes,
    role: Role, executionId: Bytes, adapterVersion: Bytes,
    modelIdentity: Option<Bytes>, promptDigest: Option<Bytes>, toolPolicyDigest: Option<Bytes>,
    contractDigest: Bytes, expectedInputHead: Option<Bytes>, payloadDigest: Bytes,
    refs: Refs, receiptRef: Option<ArtifactRef>, createdAt: Bytes)

  type Refs = r: seq<ArtifactRef> | |r| < TWO_64

  /** The framing domain: "o7-a1-envelope", zero, "v1", zero. */
  const DOMAIN: Bytes := Ascii("o7-a1-envelope") + [0] + Ascii("v1") + [0]

  // ---------------------------------------------------------------- framing

  function KindText(k: ArtifactKind): Bytes { Ascii(KindName(k)) }

  function MessageText(m: MessageKind): Bytes { Ascii(MessageName(m)) }

  function RoleText(r: Role): Bytes { Ascii(RoleName(r)) }

  function ReceiptDigest(r: Option<ArtifactRef>): Option<Bytes> { if r.Some? then Some(r.value.digest) else None }

  function GoalFields(e: Envelope): seq<Bytes> {
    [U32(VERSION), MessageText(e.messageKind), U32(VERSION),
     e.messageId, e.rootGoalId, e.taskId, e.campaignId, OrEmpty(e.roundId), OrEmpty(e.causationId), e.correlationId]
  }

  function ProducerFields(e: Envelope): seq<Bytes> {
    [RoleText(e.role), e.executionId, e.adapterVersion,
     OrEmpty(e.modelIdentity), OrEmpty(e.promptDigest), OrEmpty(e.toolPolicyDigest)]
  }

  function BindingFields(e: Envelope): seq<Bytes> {
    [e.contractDigest, OrEmpty(e.expectedInputHead), e.payloadDigest, OrEmpty(ReceiptDigest(e.receiptRef)), U64(|e.refs|)]
  }

  /** Every field before the references, in framing order. */
  function HeadFields(e: Envelope): seq<Bytes> { GoalFields(e) + (ProducerFields(e) + BindingFields(e)) }

  function RefFields(r: ArtifactRef): seq<Bytes> { [KindText(r.kind), r.mediaType, r.digest, U64(r.size)] }

  function RefsFields(refs: seq<ArtifactRef>): seq<Bytes>
    decreases |refs|
  {
    if refs == [] then [] else RefsFields(refs[..|refs| - 1]) + RefFields(refs[|refs| - 1])
  }

  function PreimageOf(e: Envelope): Bytes { DOMAIN + FrameAll(HeadFields(e) + RefsFields(e.refs)) }

  method FrameGoal(p: Preimage, e: Envelope)
    requires p.Valid()
    modifies p
    ensures p.Valid() && p.fields == old(p.fields) + GoalFields(e)
  {
    hide MessageName, FrameAll, LittleEndian;
    p.FrameU32(VERSION);
    p.Frame(MessageText(e.messageKind));
    p.FrameU32(VERSION);
    p.Frame(e.messageId);
    p.Frame(e.rootGoalId);
    p.Frame(e.taskId);
    p.Frame(e.campaignId);
    p.FrameOptional(e.roundId);
    p.FrameOptional(e.causationId);
    p.Frame(e.correlationId);
  }

  method FrameProducer(p: Preimage, e: Envelope)
    requires p.Valid()
    modifies p
    ensures p.Valid() && p.fields == old(p.fields) + ProducerFields(e)
  {
    hide RoleName, FrameAll;
    p.Frame(RoleText(e.role));
    p.Frame(e.executionId);
    p.Frame(e.adapterVersion);
    p.FrameOptional(e.modelIdentity);
    p.FrameOptional(e.promptDigest);
    p.FrameOptional(e.toolPolicyDigest);
  }

  method FrameBindings(p: Preimage, e: Envelope)
    requires p.Valid()
    modifies p
    ensures p.Valid() && p.fields == old(p.fields) + BindingFields(e)
  {
    hide FrameAll, LittleEndian;
    p.Frame(e.contractDigest);
    p.FrameOptional(e.expectedInputHead);
    p.Frame(e.payloadDigest);
    p.FrameOptional(ReceiptDigest(e.receiptRef));
    p.FrameU64(|e.refs|);
  }

  method FrameRef(p: Preimage, r: ArtifactRef)
    requires p.Valid()
    modifies p
    ensures p.Valid() && p.fields == old(p.fields) + RefFields(r)
  {
    hide KindName, FrameAll, LittleEndian;
    p.Frame(KindText(r.kind));
    p.Frame(r.mediaType);
    p.Frame(r.digest);
    p.FrameU64(r.size);
  }

  /** Extend the buffer field by field, then reference by reference, and hash it. */
  method FramedDigest(hash: Bytes -> Digest, e: Envelope) returns (d: Digest)
    ensures d == hash(PreimageOf(e))
  {
    hide FrameAll, GoalFields, ProducerFields, BindingFields, RefFields;
    var p := new Preimage(DOMAIN);
    FrameGoal(p, e);
    FrameProducer(p, e);
    FrameBindings(p, e);
    assert p.fields == HeadFields(e);
    for i := 0 to |e.refs|
      invariant p.Valid() && fresh(p)
      invariant p.fields == HeadFields(e) + RefsFields(e.refs[..i])
    {
      FrameRef(p, e.refs[i]);
      assert e.refs[..i + 1][..i] == e.refs[..i];
    }
    assert e.refs[..|e.refs|] == e.refs;
    d := hash(p.buf);
  }

  /** What the framing can see of an envelope. */
  ghost predicate SameFraming(a: Envelope, b: Envelope) {
    && a.messageKind == b.messageKind
    && a.messageId == b.messageId && a.rootGoalId == b.rootGoalId && a.taskId == b.taskId && a.campaignId == b.campaignId
    && OrEmpty(a.roundId) == OrEmpty(b.roundId) && OrEmpty(a.causationId) == OrEmpty(b.causationId)
    && a.correlationId == b.correlationId && a.role == b.role
    && a.executionId == b.executionId && a.adapterVersion == b.adapterVersion
    && OrEmpty(a.modelIdentity) == OrEmpty(b.modelIdentity) && OrEmpty(a.promptDigest) == OrEmpty(b.promptDigest)
    && OrEmpty(a.toolPolicyDigest) == OrEmpty(b.toolPolicyDigest)
    && a.contractDigest == b.contractDigest && OrEmpty(a.expectedInputHead) == OrEmpty(b.expectedInputHead)
    && a.payloadDigest == b.payloadDigest
    && OrEmpty(ReceiptDigest(a.receiptRef)) == OrEmpty(ReceiptDigest(b.receiptRef))
    && a.refs == b.refs
  }

  lemma {:induction false} RefsFieldsLength(refs: seq<ArtifactRef>)
    ensures |RefsFields(refs)| == 4 * |refs|
    decreases |refs|
  {
    if refs != [] {
      RefsFieldsLength(refs[..|refs| - 1]);
    }
  }

  lemma RefFieldsInjective(a: ArtifactRef, b: ArtifactRef)
    requires RefFields(a) == RefFields(b)
    ensures a == b
  {
    hide KindName;
    var x, y := RefFields(a), RefFields(b);
    assert x[0] == y[0] && x[1] == y[1] && x[2] == y[2] && x[3] == y[3];
    KindNameInjective(a.kind, b.kind);
    WidthsFit();
    LittleEndianInjective(a.size, b.size, 8);
  }

  lemma {:induction false} RefsFieldsInjective(a: seq<ArtifactRef>, b: seq<ArtifactRef>)
    requires RefsFields(a) == RefsFields(b)
    ensures a == b
    decreases |a|
  {
    hide RefFields;
    RefsFieldsLength(a);
    RefsFieldsLength(b);
    if a != [] {
      var m := |a| - 1;
      RefsFieldsLength(a[..m]);
      RefsFieldsLength(b[..m]);
      SplitAt(RefsFields(a[..m]), RefFields(a[m]), RefsFields(b[..m]), RefFields(b[m]));
      RefsFieldsInjective(a[..m], b[..m]);
      RefFieldsInjective(a[m], b[m]);
      assert a == a[..m] + [a[m]] && b == b[..m] + [b[m]];
    }
  }

  lemma SplitAt<T>(a: seq<T>, b: seq<T>, c: seq<T>, d: seq<T>)
    requires a + b == c + d && |a| == |c|
    ensures a == c && b == d
  {
    assert (a + b)[..|a|] == a && (c + d)[..|a|] == c;
    assert (a + b)[|a|..] == b && (c + d)[|a|..] == d;
  }

  lemma MessageTextInjective(a: MessageKind, b: MessageKind)
    requires MessageText(a) == MessageText(b)
    ensures a == b
  {
    hide MessageName;
    KindNameInjective(Message(a), Message(b));
  }

  lemma GoalFieldsInjective(a: Envelope, b: Envelope)
    requires GoalFields(a) == GoalFields(b)
    ensures && a.messageKind == b.messageKind
            && a.messageId == b.messageId && a.rootGoalId == b.rootGoalId && a.taskId == b.taskId && a.campaignId == b.campaignId
            && OrEmpty(a.roundId) == OrEmpty(b.roundId) && OrEmpty(a.causationId) == OrEmpty(b.causationId)
            && a.correlationId == b.correlationId
  {
    hide MessageText, OrEmpty;
    var x, y := GoalFields(a), GoalFields(b);
    assert x[1] == y[1] && x[3] == y[3] && x[4] == y[4] && x[5] == y[5] && x[6] == y[6];
    assert x[7] == y[7] && x[8] == y[8] && x[9] == y[9];
    MessageTextInjective(a.messageKind, b.messageKind);
  }

  lemma ProducerFieldsInjective(a: Envelope, b: Envelope)
    requires ProducerFields(a) == ProducerFields(b)
    ensures && a.role == b.role && a.executionId == b.executionId && a.adapterVersion == b.adapterVersion
            && OrEmpty(a.modelIdentity) == OrEmpty(b.modelIdentity) && OrEmpty(a.promptDigest) == OrEmpty(b.promptDigest)
            && OrEmpty(a.toolPolicyDigest) == OrEmpty(b.toolPolicyDigest)
  {
    hide RoleName, OrEmpty;
    var x, y := ProducerFields(a), ProducerFields(b);
    assert x[0] == y[0] && x[1] == y[1] && x[2] == y[2] && x[3] == y[3] && x[4] == y[4] && x[5] == y[5];
    RoleNameInjective(a.role, b.role);
  }

  lemma BindingFieldsInjective(a: Envelope, b: Envelope)
    requires BindingFields(a) == BindingFields(b)
    ensures && a.contractDigest == b.contractDigest && OrEmpty(a.expectedInputHead) == OrEmpty(b.expectedInputHead)
            && a.payloadDigest == b.payloadDigest
            && OrEmpty(ReceiptDigest(a.receiptRef)) == OrEmpty(ReceiptDigest(b.receiptRef))
  {
    hide OrEmpty;
    var x, y := BindingFields(a), BindingFields(b);
    assert x[0] == y[0] && x[1] == y[1] && x[2] == y[2] && x[3] == y[3];
  }

  /** Every text of the envelope fits in memory. */
  predicate Bounded(e: Envelope) {
    && |e.messageId| < TWO_64 && |e.rootGoalId| < TWO_64 && |e.taskId| < TWO_64 && |e.campaignId| < TWO_64
    && |OrEmpty(e.roundId)| < TWO_64 && |OrEmpty(e.causationId)| < TWO_64 && |e.correlationId| < TWO_64
    && |e.executionId| < TWO_64 && |e.adapterVersion| < TWO_64 && |OrEmpty(e.modelIdentity)| < TWO_64
    && |OrEmpty(e.promptDigest)| < TWO_64 && |OrEmpty(e.toolPolicyDigest)| < TWO_64
    && |e.contractDigest| < TWO_64 && |OrEmpty(e.expectedInputHead)| < TWO_64 && |e.payloadDigest| < TWO_64
    && |OrEmpty(ReceiptDigest(e.receiptRef))| < TWO_64
    && forall i :: 0 <= i < |e.refs| ==> |e.refs[i].mediaType| < TWO_64 && |e.refs[i].digest| < TWO_64
  }

  lemma NamesInMemory(m: MessageKind, r: Role, k: ArtifactKind)
    ensures |MessageText(m)| < 32 && |RoleText(r)| < 32 && |KindText(k)| < 32
  {
    KindNamesAreShort(Message(m));
    KindNamesAreShort(k);
    hide KindName;
  }

  lemma HeadInMemory(e: Envelope)
    requires Bounded(e)
    ensures InMemory(HeadFields(e))
  {
    NamesInMemory(e.messageKind, e.role, Diff);
    hide MessageText, RoleText, OrEmpty, ReceiptDigest, LittleEndian;
    assert InMemory(GoalFields(e)) && InMemory(ProducerFields(e)) && InMemory(BindingFields(e));
  }

  lemma {:induction false} RefsInMemory(refs: seq<ArtifactRef>)
    requires forall i :: 0 <= i < |refs| ==> |refs[i].mediaType| < TWO_64 && |refs[i].digest| < TWO_64
    ensures InMemory(RefsFields(refs))
    decreases |refs|
  {
    if refs != [] {
      var n := |refs| - 1;
      RefsInMemory(refs[..n]);
      NamesInMemory(WorkOrder, Human, refs[n].kind);
      hide KindText, LittleEndian;
      assert InMemory(RefFields(refs[n]));
    }
  }

  /**
   Two envelopes have the same preimage bytes exactly when they agree on every framed
   field and on the whole reference list: absent counts as empty, and `created_at` and
   the receipt reference's kind, media type and size are not seen at all.
   */
  lemma FramingExactly(a: Envelope, b: Envelope)
    requires Bounded(a) && Bounded(b)
    ensures PreimageOf(a) == PreimageOf(b) <==> SameFraming(a, b)
  {
    HeadInMemory(a);
    HeadInMemory(b);
    RefsInMemory(a.refs);
    RefsInMemory(b.refs);
    hide FrameAll, MessageText, RoleText, OrEmpty, U32, U64, Bounded;
    if PreimageOf(a) == PreimageOf(b) {
      SplitAt(DOMAIN, FrameAll(HeadFields(a) + RefsFields(a.refs)), DOMAIN, FrameAll(HeadFields(b) + RefsFields(b.refs)));
      FrameAllInjective(HeadFields(a) + RefsFields(a.refs), HeadFields(b) + RefsFields(b.refs));
      SplitAt(HeadFields(a), RefsFields(a.refs), HeadFields(b), RefsFields(b.refs));
      SplitAt(GoalFields(a), ProducerFields(a) + BindingFields(a), GoalFields(b), ProducerFields(b) + BindingFields(b));
      SplitAt(ProducerFields(a), BindingFields(a), ProducerFields(b), BindingFields(b));
      GoalFieldsInjective(a, b);
      ProducerFieldsInjective(a, b);
      BindingFieldsInjective(a, b);
      RefsFieldsInjective(a.refs, b.refs);
    }
  }

  // ---------------------------------------------------------------- admission

  datatype RefError = EmptyMediaType | MediaTypeTooLong | WrongMediaType | SizeAboveBound

  datatype EnvelopeError =
    | MissingProviderField(field: string)
    | ForbiddenProviderField(field: string)
    | WrongProducerRole
    | BadRef(index: nat, source: RefError)
    | BadReceiptRef(source: RefError)

  /** The media type of a typed artifact is fixed by its kind and version. */
  function TypedMediaType(k: ArtifactKind): Bytes {
    KindNamesAreShort(k);
    Ascii("application/vnd.o7.a1.") + Ascii(KindName(k)) + Ascii("+json; v=1")
  }

  lemma KindNamesAreShort(k: ArtifactKind)
    ensures |KindName(k)| < 32
  {
    KindNamePrint(k);
    hide KindName;
  }

  function MaxSize(k: ArtifactKind): nat {
    if k.Message? then 2 * MAX_CONTROL_ARTIFACT_BYTES
    else if HasControlSizeBound(k) then MAX_CONTROL_ARTIFACT_BYTES
    else MAX_EVIDENCE_BLOB_BYTES
  }

  function CheckRef(r: ArtifactRef): Result<(), RefError> {
    if r.mediaType == [] then Err(EmptyMediaType)
    else if |r.mediaType| > MAX_STRING_BYTES then Err(MediaTypeTooLong)
    else if IsTyped(r.kind) && r.mediaType != TypedMediaType(r.kind) then Err(WrongMediaType)
    else if r.size > MaxSize(r.kind) then Err(SizeAboveBound)
    else Ok(())
  }

  function ProviderEvidence(e: Envelope): seq<(string, bool)> {
    [("model_identity", e.modelIdentity.Some?), ("prompt_digest", e.promptDigest.Some?),
     ("tool_policy_digest", e.toolPolicyDigest.Some?), ("provider_execution_receipt_ref", e.receiptRef.Some?)]
  }

  ghost predicate EvidenceFits(e: Envelope) { forall i :: 0 <= i < 4 ==> ProviderEvidence(e)[i].1 == IsProviderRole(e.role) }

  /** Provider evidence exactly for provider roles, the authorised author, admissible references. */
  ghost predicate Admissible(e: Envelope) {
    && EvidenceFits(e)
    && e.role == AuthorizedRole(e.messageKind)
    && (forall i :: 0 <= i < |e.refs| ==> CheckRef(e.refs[i]).Ok?)
    && (e.receiptRef.Some? ==> CheckRef(e.receiptRef.value).Ok?)
  }

  /** The first violated rule, in the order the rules are checked. */
  method Validate(e: Envelope) returns (r: Result<(), EnvelopeError>)
    ensures r.Ok? <==> Admissible(e)
    ensures r.Err? && r.error.MissingProviderField? ==> IsProviderRole(e.role) && (r.error.field, false) in ProviderEvidence(e)
    ensures r.Err? && r.error.ForbiddenProviderField? ==> !IsProviderRole(e.role) && (r.error.field, true) in ProviderEvidence(e)
    ensures r == Err(WrongProducerRole) ==> e.role != AuthorizedRole(e.messageKind) && EvidenceFits(e)
    ensures r.Err? && r.error.BadRef? ==>
              && r.error.index < |e.refs| && CheckRef(e.refs[r.error.index]) == Err(r.error.source)
              && EvidenceFits(e) && e.role == AuthorizedRole(e.messageKind)
              && forall j :: 0 <= j < r.error.index ==> CheckRef(e.refs[j]).Ok?
    ensures r.Err? && r.error.BadReceiptRef? ==>
              && e.receiptRef.Some? && CheckRef(e.receiptRef.value) == Err(r.error.source)
              && EvidenceFits(e) && e.role == AuthorizedRole(e.messageKind)
              && forall j :: 0 <= j < |e.refs| ==> CheckRef(e.refs[j]).Ok?
  {
    hide CheckRef;
    var provider := IsProviderRole(e.role);
    var evidence := ProviderEvidence(e);
    for i := 0 to |evidence|
      invariant forall j :: 0 <= j < i ==> evidence[j].1 == provider
    {
      var (field, present) := evidence[i];
      if provider && !present {
        assert evidence[i] in evidence;
        return Err(MissingProviderField(field));
      }
      if !provider && present {
        assert evidence[i] in evidence;
        return Err(ForbiddenProviderField(field));
      }
    }
    if e.role != AuthorizedRole(e.messageKind) {
      return Err(WrongProducerRole);
    }
    for i := 0 to |e.refs|
      invariant forall j :: 0 <= j < i ==> CheckRef(e.refs[j]).Ok?
    {
      var c := CheckRef(e.refs[i]);
      if c.Err? {
        return Err(BadRef(i, c.error));
      }
    }
    if e.receiptRef.Some? {
      var c := CheckRef(e.receiptRef.value);
      if c.Err? {
        return Err(BadReceiptRef(c.error));
      }
    }
    r := Ok(());
  }

  predicate Short(t: Bytes) { |t| <= MAX_STRING_BYTES }

  /** What the scalar types already refuse, as far as framing is concerned. */
  predicate ScalarsOk(e: Envelope) {
    && Short(e.messageId) && Short(e.rootGoalId) && Short(e.taskId) && Short(e.campaignId)
    && Short(OrEmpty(e.roundId)) && Short(OrEmpty(e.causationId)) && Short(e.correlationId)
    && Short(e.executionId) && Short(e.adapterVersion) && Short(OrEmpty(e.modelIdentity))
    && Short(OrEmpty(e.promptDigest)) && Short(OrEmpty(e.toolPolicyDigest))
    && Short(e.contractDigest) && Short(OrEmpty(e.expectedInputHead)) && Short(e.payloadDigest)
    && Short(OrEmpty(ReceiptDigest(e.receiptRef)))
    && (forall i :: 0 <= i < |e.refs| ==> Short(e.refs[i].mediaType) && Short(e.refs[i].digest))
    && (e.roundId.Some? ==> e.roundId.value != []) && (e.causationId.Some? ==> e.causationId.value != [])
    && (e.expectedInputHead.Some? ==> e.expectedInputHead.value != [])
    && |e.refs| <= MAX_ARTIFACT_REFS
  }

  /** An envelope without what its identity deliberately ignores. */
  function Unclocked(e: Envelope): Envelope {
    e.(createdAt := [],
       receiptRef := if e.receiptRef.Some? then Some(ArtifactRef(ProviderExecutionReceipt, [], e.receiptRef.value.digest, 0)) else None)
  }

  /**
   On admitted envelopes the identity loses nothing else: absent and empty no longer
   meet, because the role decides which provider fields are there.
   */
  lemma AdmittedIdentityExactly(a: Envelope, b: Envelope)
    requires Admissible(a) && Admissible(b) && ScalarsOk(a) && ScalarsOk(b)
    ensures PreimageOf(a) == PreimageOf(b) <==> Unclocked(a) == Unclocked(b)
  {
    hide CheckRef;
    FramingExactly(a, b);
    hide PreimageOf;
    PresenceByRole(a);
    PresenceByRole(b);
  }

  lemma PresenceByRole(e: Envelope)
    requires Admissible(e)
    ensures e.modelIdentity.Some? == e.promptDigest.Some? == e.toolPolicyDigest.Some? == e.receiptRef.Some? == IsProviderRole(e.role)
  {
    hide CheckRef;
    var v := ProviderEvidence(e);
    assert v[0].1 == v[1].1 == v[2].1 == v[3].1 == IsProviderRole(e.role);
  }

  /** Which references are admitted, class by class. */
  lemma AdmittedRefExactly(r: ArtifactRef)
    ensures CheckRef(r).Ok? <==>
            && 1 <= |r.mediaType| <= 65536
            && (r.kind.Message? ==> r.size <= 2097152)
            && (r.kind in {ProviderExecutionReceipt, ScopeContract, CampaignEventPayload} ==> r.size <= 1048576)
            && r.size <= 67108864
            && (r.kind.Message? || r.kind in {ProviderExecutionReceipt, ScopeContract, CampaignEventPayload, InteractionManifest} ==>
                  r.mediaType == Ascii("application/vnd.o7.a1." + KindName(r.kind) + "+json; v=1"))
  {
    MediaTypeText(r.kind);
    hide TypedMediaType;
  }

  lemma MediaTypeText(k: ArtifactKind)
    ensures TypedMediaType(k) == Ascii("application/vnd.o7.a1." + KindName(k) + "+json; v=1")
  {
    hide KindName;
  }

  /** The kind alone decides who wrote an admitted envelope and whether it carries provider evidence. */
  lemma KindDecidesEvidence(e: Envelope)
    requires Admissible(e)
    ensures e.modelIdentity.Some? <==> e.messageKind in {CoderReport, ReviewerReport}
    ensures e.receiptRef.Some? <==> e.messageKind in {CoderReport, ReviewerReport}
    ensures e.role == Human <==> e.messageKind == HumanCommandRequest
    ensures e.role == Coder <==> e.messageKind == CoderReport
    ensures e.role == Reviewer <==> e.messageKind == ReviewerReport
  {
    hide CheckRef;
    PresenceByRole(e);
  }
}
