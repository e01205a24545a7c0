/**
 What resolution checks of a stored object (`crates/o7-a1-cas/src/session.rs`). The hash
 and the JSON codec are parameters; storage is any function from digests to answers.
 */
module Resolver {
  import opened Base
  import opened Kinds
  import opened Framing
  import opened Envelope

  datatype Codec = Codec(hash: Bytes -> Digest, encode: Envelope -> Bytes, parse: Bytes -> Option<Envelope>)

  type Storage = Digest -> Option<Bytes>

  datatype ResolveError =
    | WrongKindForSlot | WrongMediaTypeForSlot | NotOpaque
    | ObjectMissing | DigestMismatch | SizeMismatch(declared: nat, stored: nat)
    | ClosureBytesExceeded(actual: nat, max: nat) | ClosureObjectsExceeded(actual: nat, max: nat)
    | EnvelopeInadmissible | FramedDigestMismatch | EnvelopeKindMismatch
    | PayloadMissing | PayloadDigestMismatch | HalvesSizeMismatch(declared: nat, stored: nat)
    | SessionPoisoned

  datatype Resolved =
    | OpaqueObject(kind: ArtifactKind, mediaType: Bytes, digest: Bytes, bytes: Bytes)
    | EnvelopeObject(envelope: Envelope, framed: Digest, payload: Bytes, envelopeSize: nat)

  function SatAdd(a: nat, b: nat, width: nat): nat
    requires width > 0
  {
    if a + b < width then a + b else width - 1
  }

  /** Both halves of an artifact together. */
  function RefSize(envelopeBytes: nat, payloadBytes: nat): nat { SatAdd(envelopeBytes, payloadBytes, TWO_64) }

  /** How many stored bytes a returned value stands for. */
  function StoredSize(r: Resolved): nat {
    match r
    case OpaqueObject(_, _, _, bytes) => |bytes|
    case EnvelopeObject(_, _, payload, envelopeSize) => RefSize(envelopeSize, |payload|)
  }

  function ReadOpaque(c: Codec, get: Storage, ref: ArtifactRef): Result<Resolved, ResolveError> {
    match get(ref.digest)
    case None => Err(ObjectMissing)
    case Some(bytes) =>
      if c.hash(bytes) != ref.digest then Err(DigestMismatch)
      else if |bytes| != ref.size then Err(SizeMismatch(ref.size, |bytes|))
      else Ok(OpaqueObject(ref.kind, ref.mediaType, ref.digest, bytes))
  }

  function ReadEnvelope(c: Codec, get: Storage, kind: MessageKind, ref: ArtifactRef): Result<Resolved, ResolveError> {
    match get(ref.digest)
    case None => Err(ObjectMissing)
    case Some(bytes) =>
      match c.parse(bytes)
      case None => Err(EnvelopeInadmissible)
      case Some(e) =>
        if c.hash(PreimageOf(e)) != ref.digest then Err(FramedDigestMismatch)
        else if e.messageKind != kind then Err(EnvelopeKindMismatch)
        else match get(e.payloadDigest)
          case None => Err(PayloadMissing)
          case Some(payload) =>
            if c.hash(payload) != e.payloadDigest then Err(PayloadDigestMismatch)
            else if RefSize(|bytes|, |payload|) != ref.size then Err(HalvesSizeMismatch(ref.size, RefSize(|bytes|, |payload|)))
            else Ok(EnvelopeObject(e, ref.digest, payload, |bytes|))
  }
}
