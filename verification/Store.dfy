/**
 The owned in-memory store (`crates/o7-a1-cas/src/store.rs`). Contents are keyed by the
 hash of their bytes, envelopes by the hash of their framed preimage, in one key space;
 the first accepted bytes of an envelope stay, contents are written unconditionally.
 */
module Store {
  import opened Base
  import opened Kinds
  import opened Framing
  import opened Envelope
  import opened Resolver

  datatype PutError = PayloadNotBound | EncodingTooLarge

  type Objects = map<Digest, Bytes>

  predicate Fits(c: Codec, e: Envelope) { |c.encode(e)| <= MAX_CONTROL_ARTIFACT_BYTES }

  predicate Binds(c: Codec, e: Envelope, payload: Bytes) { c.hash(payload) == e.payloadDigest }

  function FramedKey(c: Codec, e: Envelope): Digest { c.hash(PreimageOf(e)) }

  function OrInsert(objects: Objects, key: Digest, bytes: Bytes): Objects {
    if key in objects then objects else objects[key := bytes]
  }

  datatype Op = Put(bytes: Bytes) | PutEnvelope(e: Envelope, payload: Bytes)

  predicate Accepted(c: Codec, op: Op) { op.PutEnvelope? && Binds(c, op.e, op.payload) && Fits(c, op.e) }

  /** The store after one call; a refused call changes nothing. */
  function Do(c: Codec, objects: Objects, op: Op): Objects {
    match op
    case Put(bytes) => objects[c.hash(bytes) := bytes]
    case PutEnvelope(e, payload) =>
      if Accepted(c, op) then OrInsert(OrInsert(objects, e.payloadDigest, payload), FramedKey(c, e), c.encode(e))
      else objects
  }

  function DoAll(c: Codec, ops: seq<Op>): Objects
    decreases |ops|
  {
    if ops == [] then map[] else Do(c, DoAll(c, ops[..|ops| - 1]), ops[|ops| - 1])
  }

  class MemoryStore {
    var objects: Objects

    constructor ()
      ensures objects == map[]
    {
      objects := map[];
    }

    method Put(c: Codec, bytes: Bytes) returns (d: Digest)
      modifies this
      ensures objects == Do(c, old(objects), Op.Put(bytes))
      ensures d == c.hash(bytes) && d in objects && objects[d] == bytes
    {
      d := c.hash(bytes);
      objects := objects[d := bytes];
    }

    /** Both checks come before any write, so a refusal leaves the store as it was. */
    method PutEnvelope(c: Codec, e: Envelope, payload: Bytes) returns (r: Result<(Digest, nat), PutError>)
      modifies this
      ensures objects == Do(c, old(objects), Op.PutEnvelope(e, payload))
      ensures r.Ok? <==> c.hash(payload) == e.payloadDigest && |c.encode(e)| <= 1024 * 1024
      ensures r.Err? ==> objects == old(objects) && (r.error.PayloadNotBound? <==> c.hash(payload) != e.payloadDigest)
      ensures r.Ok? ==> r.value.0 == c.hash(PreimageOf(e)) && r.value.0 in objects
                        && r.value.1 == RefSize(|objects[r.value.0]|, |payload|)
    {
      if !Binds(c, e, payload) {
        return Err(PayloadNotBound);
      }
      var bytes := c.encode(e);
      if |bytes| > MAX_CONTROL_ARTIFACT_BYTES {
        return Err(EncodingTooLarge);
      }
      var framed := FramedDigest(c.hash, e);
      if e.payloadDigest !in objects {
        objects := objects[e.payloadDigest := payload];
      }
      if framed !in objects {
        objects := objects[framed := bytes];
      }
      r := Ok((framed, RefSize(|objects[framed]|, |payload|)));
    }
  }

  // ---------------------------------------------------------------- reading back

  function Get(objects: Objects): Storage { d => if d in objects then Some(objects[d]) else None }

  /** Codec and hash do what their names say, and framed preimages are not JSON documents. */
  ghost predicate Faithful(c: Codec) {
    && CollisionFree(c.hash)
    && (forall e: Envelope :: Admissible(e) && ScalarsOk(e) && Fits(c, e) ==> c.parse(c.encode(e)) == Some(e))
    && (forall b, e :: c.parse(b) == Some(e) ==> ScalarsOk(e))
    && (forall e: Envelope :: c.parse(PreimageOf(e)) == None)
  }

  /** Envelope values are admitted ones: the original has no others. */
  ghost predicate Typed(ops: seq<Op>) {
    forall i :: 0 <= i < |ops| && ops[i].PutEnvelope? ==> Admissible(ops[i].e) && ScalarsOk(ops[i].e)
  }

  /** The byte string a call writes under its own content hash, if any. */
  function Content(c: Codec, op: Op): Option<Bytes> {
    match op
    case Put(bytes) => Some(bytes)
    case PutEnvelope(_, payload) => if Accepted(c, op) then Some(payload) else None
  }

  /** No content is itself the framed preimage of an accepted envelope. */
  ghost predicate Separated(c: Codec, ops: seq<Op>) {
    forall i, j :: 0 <= i < |ops| && 0 <= j < |ops| && Accepted(c, ops[j]) && Content(c, ops[i]).Some?
      ==> Content(c, ops[i]).value != PreimageOf(ops[j].e)
  }

  /** The first accepted envelope with a given preimage. */
  function First(c: Codec, ops: seq<Op>, pre: Bytes): Option<Envelope>
    decreases |ops|
  {
    if ops == [] then None
    else
      var n := |ops| - 1;
      if First(c, ops[..n], pre).Some? then First(c, ops[..n], pre)
      else if Accepted(c, ops[n]) && PreimageOf(ops[n].e) == pre then Some(ops[n].e)
      else None
  }

  /** The size handed back by call `j`. */
  function ReturnedSize(c: Codec, ops: seq<Op>, j: nat): u64
    requires j < |ops| && Accepted(c, ops[j])
  {
    var after := DoAll(c, ops[..j + 1]);
    if FramedKey(c, ops[j].e) in after then RefSize(|after[FramedKey(c, ops[j].e)]|, |ops[j].payload|) else 0
  }

  lemma {:induction false} FirstIsAccepted(c: Codec, ops: seq<Op>, pre: Bytes)
    ensures First(c, ops, pre).Some? <==> exists j :: 0 <= j < |ops| && Accepted(c, ops[j]) && PreimageOf(ops[j].e) == pre
    ensures First(c, ops, pre).Some? ==>
              exists j :: 0 <= j < |ops| && Accepted(c, ops[j]) && PreimageOf(ops[j].e) == pre && First(c, ops, pre) == Some(ops[j].e)
    decreases |ops|
  {
    hide PreimageOf;
    if ops != [] {
      FirstIsAccepted(c, ops[..|ops| - 1], pre);
    }
  }

  lemma SeparatedPrefix(c: Codec, ops: seq<Op>)
    requires ops != [] && Separated(c, ops)
    ensures Separated(c, ops[..|ops| - 1])
  {
    hide PreimageOf;
  }

  /** Under separation no content shares a key with an accepted envelope. */
  lemma KeysApart(c: Codec, ops: seq<Op>, i: nat, pre: Bytes)
    requires CollisionFree(c.hash) && Separated(c, ops)
    requires i < |ops| && Content(c, ops[i]).Some? && First(c, ops, pre).Some?
    ensures c.hash(Content(c, ops[i]).value) != c.hash(pre)
  {
    hide PreimageOf, First;
    FirstIsAccepted(c, ops, pre);
  }

  lemma FirstSnoc(c: Codec, ops: seq<Op>, pre: Bytes)
    requires ops != []
    ensures First(c, ops[..|ops| - 1], pre).Some? ==> First(c, ops, pre) == First(c, ops[..|ops| - 1], pre)
    ensures First(c, ops, pre).Some? && First(c, ops[..|ops| - 1], pre).None? ==>
              Accepted(c, ops[|ops| - 1]) && PreimageOf(ops[|ops| - 1].e) == pre && First(c, ops, pre) == Some(ops[|ops| - 1].e)
  {
    hide PreimageOf;
  }

  /** A later write under a content key writes the same bytes. */
  lemma ContentStays(c: Codec, ops: seq<Op>, i: nat)
    requires CollisionFree(c.hash) && ops != [] && i < |ops| - 1 && Content(c, ops[i]).Some?
    requires var b, o := Content(c, ops[i]).value, DoAll(c, ops[..|ops| - 1]); c.hash(b) in o && o[c.hash(b)] == b
    ensures var b, o := Content(c, ops[i]).value, DoAll(c, ops); c.hash(b) in o && o[c.hash(b)] == b
  {
    hide PreimageOf;
  }

  ghost predicate HoldsContent(c: Codec, ops: seq<Op>, objects: Objects) {
    forall i :: 0 <= i < |ops| && Content(c, ops[i]).Some? ==>
      var b := Content(c, ops[i]).value; c.hash(b) in objects && objects[c.hash(b)] == b
  }

  ghost predicate HoldsEnvelopes(c: Codec, ops: seq<Op>, objects: Objects) {
    forall pre :: First(c, ops, pre).Some? ==>
      c.hash(pre) in objects && objects[c.hash(pre)] == c.encode(First(c, ops, pre).value)
  }

  ghost predicate KeyExplained(c: Codec, ops: seq<Op>, key: Digest) {
    || (exists i :: 0 <= i < |ops| && Content(c, ops[i]).Some? && c.hash(Content(c, ops[i]).value) == key)
    || (exists pre :: First(c, ops, pre).Some? && c.hash(pre) == key)
  }

  ghost predicate HoldsOnly(c: Codec, ops: seq<Op>, objects: Objects) {
    forall key :: key in objects ==> KeyExplained(c, ops, key)
  }

  lemma {:induction false} HoldsAll(c: Codec, ops: seq<Op>)
    requires Faithful(c) && Separated(c, ops)
    ensures HoldsContent(c, ops, DoAll(c, ops)) && HoldsEnvelopes(c, ops, DoAll(c, ops)) && HoldsOnly(c, ops, DoAll(c, ops))
    decreases |ops|
  {
    hide PreimageOf, Faithful;
    if ops != [] {
      SeparatedPrefix(c, ops);
      HoldsAll(c, ops[..|ops| - 1]);
      StepHoldsContent(c, ops);
      StepHoldsEnvelopes(c, ops);
      StepHoldsOnly(c, ops);
    }
  }

  lemma StepHoldsContent(c: Codec, ops: seq<Op>)
    requires Faithful(c) && Separated(c, ops) && ops != []
    requires HoldsContent(c, ops[..|ops| - 1], DoAll(c, ops[..|ops| - 1]))
    requires HoldsOnly(c, ops[..|ops| - 1], DoAll(c, ops[..|ops| - 1]))
    ensures HoldsContent(c, ops, DoAll(c, ops))
  {
    hide PreimageOf, First;
    var n := |ops| - 1;
    var init := ops[..n];
    forall i | 0 <= i < |ops| && Content(c, ops[i]).Some?
      ensures var b := Content(c, ops[i]).value; c.hash(b) in DoAll(c, ops) && DoAll(c, ops)[c.hash(b)] == b
    {
      if i < n {
        assert init[i] == ops[i];
        ContentStays(c, ops, i);
      } else if ops[n].PutEnvelope? {
        PayloadLands(c, ops);
      }
    }
  }

  /** The payload slot is free, or holds these very bytes already. */
  lemma PayloadLands(c: Codec, ops: seq<Op>)
    requires Faithful(c) && Separated(c, ops) && ops != [] && Accepted(c, ops[|ops| - 1])
    requires HoldsContent(c, ops[..|ops| - 1], DoAll(c, ops[..|ops| - 1]))
    requires HoldsOnly(c, ops[..|ops| - 1], DoAll(c, ops[..|ops| - 1]))
    ensures var op := ops[|ops| - 1]; op.e.payloadDigest in DoAll(c, ops) && DoAll(c, ops)[op.e.payloadDigest] == op.payload
  {
    hide PreimageOf, First;
    var n := |ops| - 1;
    var init := ops[..n];
    var o, key := DoAll(c, init), c.hash(ops[n].payload);
    if key in o {
      assert KeyExplained(c, init, key);
      if i :| 0 <= i < |init| && Content(c, init[i]).Some? && c.hash(Content(c, init[i]).value) == key {
        assert o[key] == ops[n].payload;
      } else {
        var pre :| First(c, init, pre).Some? && c.hash(pre) == key;
        FirstSnoc(c, ops, pre);
        KeysApart(c, ops, n, pre);
      }
    }
  }

  lemma EnvelopeHeld(c: Codec, ops: seq<Op>, pre: Bytes)
    requires Faithful(c) && Separated(c, ops) && ops != []
    requires HoldsEnvelopes(c, ops[..|ops| - 1], DoAll(c, ops[..|ops| - 1]))
    requires HoldsOnly(c, ops[..|ops| - 1], DoAll(c, ops[..|ops| - 1]))
    requires First(c, ops, pre).Some?
    ensures c.hash(pre) in DoAll(c, ops) && DoAll(c, ops)[c.hash(pre)] == c.encode(First(c, ops, pre).value)
  {
    hide PreimageOf, First, Faithful, Separated, HoldsOnly;
    var n := |ops| - 1;
    var init := ops[..n];
    assert CollisionFree(c.hash) by {
      FaithfulHash(c);
    }
    hide CollisionFree;
    FirstSnoc(c, ops, pre);
    if Content(c, ops[n]).Some? {
      KeysApart(c, ops, n, pre);
    }
    if First(c, init, pre).None? {
      EnvelopeSlotFree(c, ops, pre);
      assert FramedKey(c, ops[n].e) == c.hash(pre);
    }
  }

  lemma FaithfulHash(c: Codec)
    requires Faithful(c)
    ensures CollisionFree(c.hash)
  {
  }

  lemma StepHoldsEnvelopes(c: Codec, ops: seq<Op>)
    requires Faithful(c) && Separated(c, ops) && ops != []
    requires HoldsEnvelopes(c, ops[..|ops| - 1], DoAll(c, ops[..|ops| - 1]))
    requires HoldsOnly(c, ops[..|ops| - 1], DoAll(c, ops[..|ops| - 1]))
    ensures HoldsEnvelopes(c, ops, DoAll(c, ops))
  {
    hide PreimageOf, First, Faithful, Separated, DoAll, HoldsOnly;
    forall pre | First(c, ops, pre).Some?
      ensures c.hash(pre) in DoAll(c, ops) && DoAll(c, ops)[c.hash(pre)] == c.encode(First(c, ops, pre).value)
    {
      EnvelopeHeld(c, ops, pre);
    }
  }

  /** The first envelope of its identity finds its key unused. */
  lemma EnvelopeSlotFree(c: Codec, ops: seq<Op>, pre: Bytes)
    requires Faithful(c) && Separated(c, ops) && ops != []
    requires HoldsOnly(c, ops[..|ops| - 1], DoAll(c, ops[..|ops| - 1]))
    requires First(c, ops, pre).Some? && First(c, ops[..|ops| - 1], pre).None?
    ensures c.hash(pre) !in DoAll(c, ops[..|ops| - 1])
  {
    hide PreimageOf, First;
    var init := ops[..|ops| - 1];
    var key := c.hash(pre);
    if key in DoAll(c, init) {
      assert KeyExplained(c, init, key);
      if i :| 0 <= i < |init| && Content(c, init[i]).Some? && c.hash(Content(c, init[i]).value) == key {
        KeysApart(c, ops, i, pre);
      }
    }
  }

  lemma StepHoldsOnly(c: Codec, ops: seq<Op>)
    requires ops != []
    requires HoldsOnly(c, ops[..|ops| - 1], DoAll(c, ops[..|ops| - 1]))
    ensures HoldsOnly(c, ops, DoAll(c, ops))
  {
    hide PreimageOf, First;
    var n := |ops| - 1;
    var init := ops[..n];
    forall key | key in DoAll(c, ops) ensures KeyExplained(c, ops, key) {
      if key in DoAll(c, init) {
        assert KeyExplained(c, init, key);
        if pre :| First(c, init, pre).Some? && c.hash(pre) == key {
          FirstSnoc(c, ops, pre);
        } else {
          var i :| 0 <= i < |init| && Content(c, init[i]).Some? && c.hash(Content(c, init[i]).value) == key;
          assert ops[i] == init[i];
        }
      } else if ops[n].PutEnvelope? && key == FramedKey(c, ops[n].e) {
        FirstIsAccepted(c, ops, PreimageOf(ops[n].e));
      } else {
        assert Content(c, ops[n]).Some? && c.hash(Content(c, ops[n]).value) == key;
      }
    }
  }

  /** Reading an artifact back by the key and size its writer was given. */
  function ReadBack(c: Codec, objects: Objects, e: Envelope, size: u64): Result<Resolved, ResolveError> {
    ReadEnvelope(c, Get(objects), e.messageKind, ArtifactRef(Message(e.messageKind), [], FramedKey(c, e), size))
  }

  lemma FirstStable(c: Codec, ops: seq<Op>, n: nat, pre: Bytes)
    requires n <= |ops| && First(c, ops[..n], pre).Some?
    ensures First(c, ops, pre) == First(c, ops[..n], pre)
    decreases |ops|
  {
    hide PreimageOf, First;
    if n < |ops| {
      assert ops[..|ops| - 1][..n] == ops[..n];
      FirstStable(c, ops[..|ops| - 1], n, pre);
      FirstSnoc(c, ops, pre);
    } else {
      assert ops[..n] == ops;
    }
  }

  /**
   Write-then-resolve. Under separation every accepted artifact still reads back, by the
   key and size its own call returned and through every later call, as the first
   accepted envelope of its identity with its own payload.
   */
  lemma WriteThenResolve(c: Codec, ops: seq<Op>, j: nat)
    requires Faithful(c) && Typed(ops) && Separated(c, ops) && j < |ops| && Accepted(c, ops[j])
    ensures First(c, ops, PreimageOf(ops[j].e)).Some?
    ensures var first := First(c, ops, PreimageOf(ops[j].e)).value;
            && Unclocked(first) == Unclocked(ops[j].e)
            && ReadBack(c, DoAll(c, ops), ops[j].e, ReturnedSize(c, ops, j))
               == Ok(EnvelopeObject(first, FramedKey(c, ops[j].e), ops[j].payload, |c.encode(first)|))
  {
    var op := ops[j];
    var pre := PreimageOf(op.e);
    SameFirst(c, ops, j);
    FirstFits(c, ops, pre);
    SizeReturned(c, ops, j);
    HoldsAll(c, ops);
    hide PreimageOf, Admissible, ScalarsOk, First, ReturnedSize, Faithful, Typed, Separated;
    assert Content(c, op) == Some(op.payload);
  }

  /** The first accepted envelope of an identity is the one this call wrote or found, up to what identity ignores. */
  lemma SameFirst(c: Codec, ops: seq<Op>, j: nat)
    requires Faithful(c) && Typed(ops) && j < |ops| && Accepted(c, ops[j])
    ensures var pre, upto := PreimageOf(ops[j].e), ops[..j + 1];
            && First(c, upto, pre).Some? && First(c, ops, pre) == First(c, upto, pre)
            && PreimageOf(First(c, ops, pre).value) == pre && First(c, ops, pre).value.payloadDigest == ops[j].e.payloadDigest
            && Unclocked(First(c, ops, pre).value) == Unclocked(ops[j].e)
  {
    var pre, upto := PreimageOf(ops[j].e), ops[..j + 1];
    hide PreimageOf, Admissible, ScalarsOk;
    assert upto[j] == ops[j];
    FirstIsAccepted(c, upto, pre);
    FirstStable(c, ops, j + 1, pre);
    FirstIsAccepted(c, ops, pre);
    hide First;
    AdmittedIdentityExactly(First(c, ops, pre).value, ops[j].e);
  }

  lemma SizeReturned(c: Codec, ops: seq<Op>, j: nat)
    requires Faithful(c) && Typed(ops) && Separated(c, ops) && j < |ops| && Accepted(c, ops[j])
    ensures First(c, ops, PreimageOf(ops[j].e)).Some?
    ensures ReturnedSize(c, ops, j) == RefSize(|c.encode(First(c, ops, PreimageOf(ops[j].e)).value)|, |ops[j].payload|)
  {
    SameFirst(c, ops, j);
    hide PreimageOf, Admissible, ScalarsOk, First, Content;
    SeparatedUpTo(c, ops, j + 1);
    HoldsAll(c, ops[..j + 1]);
    hide Faithful, Typed, Separated, HoldsContent, KeyExplained, Accepted, DoAll;
  }

  lemma SeparatedUpTo(c: Codec, ops: seq<Op>, n: nat)
    requires Separated(c, ops) && Typed(ops) && n <= |ops|
    ensures Separated(c, ops[..n]) && Typed(ops[..n])
  {
    hide PreimageOf, Accepted, Admissible, ScalarsOk;
  }

  lemma FirstFits(c: Codec, ops: seq<Op>, pre: Bytes)
    requires Faithful(c) && Typed(ops) && First(c, ops, pre).Some?
    ensures c.parse(c.encode(First(c, ops, pre).value)) == Some(First(c, ops, pre).value)
  {
    hide PreimageOf, Admissible, ScalarsOk;
    FirstIsAccepted(c, ops, pre);
  }

  lemma {:induction false} PutSticks(c: Codec, ops: seq<Op>, i: nat)
    requires CollisionFree(c.hash) && i < |ops| && ops[i].Put?
    ensures var o, key := DoAll(c, ops), c.hash(ops[i].bytes); key in o && o[key] == ops[i].bytes
    decreases |ops|
  {
    hide PreimageOf;
    if i < |ops| - 1 {
      PutSticks(c, ops[..|ops| - 1], i);
      ContentStays(c, ops, i);
    }
  }

  lemma SameKeySamePayload(c: Codec, a: Envelope, b: Envelope)
    requires CollisionFree(c.hash) && ScalarsOk(a) && ScalarsOk(b) && FramedKey(c, a) == FramedKey(c, b)
    ensures a.payloadDigest == b.payloadDigest
  {
    assert PreimageOf(a) == PreimageOf(b);
    FramingExactly(a, b);
    hide PreimageOf;
  }

  /** If every accepted artifact reads back, each content is stored under its own hash. */
  lemma ReadableMeansStored(c: Codec, ops: seq<Op>, i: nat)
    requires Faithful(c) && Typed(ops) && i < |ops| && Content(c, ops[i]).Some?
    requires ops[i].PutEnvelope? ==> ReadBack(c, DoAll(c, ops), ops[i].e, ReturnedSize(c, ops, i)).Ok?
    ensures var o, b := DoAll(c, ops), Content(c, ops[i]).value; c.hash(b) in o && o[c.hash(b)] == b
  {
    hide PreimageOf, DoAll;
    if ops[i].Put? {
      PutSticks(c, ops, i);
    } else {
      SameKeySamePayload(c, ReadBack(c, DoAll(c, ops), ops[i].e, ReturnedSize(c, ops, i)).value.envelope, ops[i].e);
    }
  }

  /** When a content is an accepted envelope's preimage, its writer's artifact or that envelope is lost. */
  lemma CollisionLoses(c: Codec, ops: seq<Op>, i: nat, j: nat)
    requires Faithful(c) && Typed(ops) && i < |ops| && j < |ops| && Accepted(c, ops[j])
    requires Content(c, ops[i]) == Some(PreimageOf(ops[j].e))
    ensures || (Accepted(c, ops[i]) && ReadBack(c, DoAll(c, ops), ops[i].e, ReturnedSize(c, ops, i)).Err?)
            || ReadBack(c, DoAll(c, ops), ops[j].e, ReturnedSize(c, ops, j)) == Err(EnvelopeInadmissible)
  {
    hide PreimageOf, DoAll;
    if ops[i].Put? || ReadBack(c, DoAll(c, ops), ops[i].e, ReturnedSize(c, ops, i)).Ok? {
      ReadableMeansStored(c, ops, i);
    }
  }

  /** Separation is exactly what the shared key space needs: without it some artifact is lost. */
  lemma ReadableExactlyWhenSeparated(c: Codec, ops: seq<Op>)
    requires Faithful(c) && Typed(ops)
    ensures (forall j :: 0 <= j < |ops| && Accepted(c, ops[j]) ==> ReadBack(c, DoAll(c, ops), ops[j].e, ReturnedSize(c, ops, j)).Ok?)
            <==> Separated(c, ops)
  {
    if Separated(c, ops) {
      forall j | 0 <= j < |ops| && Accepted(c, ops[j])
        ensures ReadBack(c, DoAll(c, ops), ops[j].e, ReturnedSize(c, ops, j)).Ok?
      {
        WriteThenResolve(c, ops, j);
      }
    } else {
      var i, j :| 0 <= i < |ops| && 0 <= j < |ops| && Accepted(c, ops[j]) && Content(c, ops[i]).Some?
        && Content(c, ops[i]).value == PreimageOf(ops[j].e);
      CollisionLoses(c, ops, i, j);
    }
  }
}
