/**
 One resolution and its accounting (`crates/o7-a1-cas/src/session.rs`, `bounds.rs`).
 Declared sizes are charged once per `(kind, digest)`, before anything is read, under
 the smaller of the campaign's policy and the protocol's hard maximum; the first failure
 ends the resolution.
 */
module Session {
  import opened Base
  import opened Kinds
  import opened Framing
  import opened Envelope
  import opened Resolver
  import S = Store

  const MAX_REACHABLE_CLOSURE_BYTES: nat := 0x1000_0000
  const MAX_REACHABLE_CLOSURE_OBJECTS: nat := 2048

  datatype BudgetPolicy = BudgetPolicy(maxProviderTurns: u32, maxWallTimeSeconds: u32, evidenceBudgetBytes: u64, closureObjectBudget: u32)

  datatype BudgetPolicyError = ZeroProviderTurns | ZeroWallTime | EvidenceBudgetTooLarge | ClosureObjectBudgetTooLarge

  function CheckPolicy(p: BudgetPolicy): Result<(), BudgetPolicyError> {
    if p.maxProviderTurns < 1 then Err(ZeroProviderTurns)
    else if p.maxWallTimeSeconds < 1 then Err(ZeroWallTime)
    else if p.evidenceBudgetBytes > MAX_REACHABLE_CLOSURE_BYTES then Err(EvidenceBudgetTooLarge)
    else if p.closureObjectBudget > MAX_REACHABLE_CLOSURE_OBJECTS then Err(ClosureObjectBudgetTooLarge)
    else Ok(())
  }

  function Min(a: nat, b: nat): nat { if a < b then a else b }

  datatype Limits = Limits(bytes: nat, objects: nat)

  function EffectiveLimits(p: BudgetPolicy): Limits {
    Limits(Min(p.evidenceBudgetBytes, MAX_REACHABLE_CLOSURE_BYTES), Min(p.closureObjectBudget, MAX_REACHABLE_CLOSURE_OBJECTS))
  }

  predicate ValidLimits(lim: Limits) {
    lim.bytes <= MAX_REACHABLE_CLOSURE_BYTES && lim.objects <= MAX_REACHABLE_CLOSURE_OBJECTS
  }

  datatype Identity = Identity(kind: ArtifactKind, digest: Digest)

  datatype Account = Account(seen: set<Identity>, bytes: u64, objects: u32, poisoned: bool)

  const OPENED := Account({}, 0, 0, false)

  function IdentityOf(ref: ArtifactRef): Identity { Identity(ref.kind, ref.digest) }

  /** Deduplicate, then account, then bound; a refused charge leaves no trace. */
  function Charge(lim: Limits, acc: Account, ref: ArtifactRef): (Result<(), ResolveError>, Account) {
    if IdentityOf(ref) in acc.seen then (Ok(()), acc)
    else
      var objects: u32 := SatAdd(acc.objects, 1, TWO_32);
      if objects > lim.objects then (Err(ClosureObjectsExceeded(objects, lim.objects)), acc)
      else
        var bytes: u64 := SatAdd(acc.bytes, ref.size, TWO_64);
        if bytes > lim.bytes then (Err(ClosureBytesExceeded(bytes, lim.bytes)), acc)
        else (Ok(()), acc.(seen := acc.seen + {IdentityOf(ref)}, objects := objects, bytes := bytes))
  }

  /** One call on the session, with whatever storage it is handed. */
  datatype Request =
    | OpaqueRequest(slotKind: ArtifactKind, slotMedia: Bytes, ref: ArtifactRef, get: Storage)
    | EnvelopeRequest(slotMessage: MessageKind, ref: ArtifactRef, get: Storage)

  /** The slot's expectation, which is checked before anything is charged. */
  function CheckSlot(rq: Request): Result<(), ResolveError> {
    match rq
    case OpaqueRequest(kind, media, ref, _) =>
      if ref.kind != kind then Err(WrongKindForSlot)
      else if ref.mediaType != media then Err(WrongMediaTypeForSlot)
      else if IsTyped(kind) then Err(NotOpaque)
      else Ok(())
    case EnvelopeRequest(m, ref, _) =>
      if ref.kind != Message(m) then Err(WrongKindForSlot)
      else if ref.mediaType != TypedMediaType(Message(m)) then Err(WrongMediaTypeForSlot)
      else Ok(())
  }

  function Read(c: Codec, rq: Request): Result<Resolved, ResolveError> {
    match rq
    case OpaqueRequest(_, _, ref, get) => ReadOpaque(c, get, ref)
    case EnvelopeRequest(m, ref, get) => ReadEnvelope(c, get, m, ref)
  }

  function ResolveInner(c: Codec, lim: Limits, acc: Account, rq: Request): (Result<Resolved, ResolveError>, Account) {
    if CheckSlot(rq).Err? then (Err(CheckSlot(rq).error), acc)
    else
      var (charged, acc') := Charge(lim, acc, rq.ref);
      if charged.Err? then (Err(charged.error), acc') else (Read(c, rq), acc')
  }

  /** Refuse if already failed, and record a failure for ever. */
  function Resolve(c: Codec, lim: Limits, acc: Account, rq: Request): (Result<Resolved, ResolveError>, Account) {
    if acc.poisoned then (Err(SessionPoisoned), acc)
    else
      var (r, acc') := ResolveInner(c, lim, acc, rq);
      (r, if r.Err? then acc'.(poisoned := true) else acc')
  }

  class ResolutionSession {
    const limits: Limits
    var seen: set<Identity>
    var bytes: u64
    var objects: u32
    var poisoned: bool

    function Books(): Account
      reads this
    {
      Account(seen, bytes, objects, poisoned)
    }

    constructor (limits: Limits)
      ensures Books() == OPENED && this.limits == limits
    {
      this.limits := limits;
      seen, bytes, objects, poisoned := {}, 0, 0, false;
    }

    method ChargeFor(ref: ArtifactRef) returns (r: Result<(), ResolveError>)
      modifies this
      ensures (r, Books()) == Charge(limits, old(Books()), ref)
    {
      var identity := IdentityOf(ref);
      if identity in seen {
        return Ok(());
      }
      var newObjects := SatAdd(objects, 1, TWO_32);
      if newObjects > limits.objects {
        return Err(ClosureObjectsExceeded(newObjects, limits.objects));
      }
      var newBytes := SatAdd(bytes, ref.size, TWO_64);
      if newBytes > limits.bytes {
        return Err(ClosureBytesExceeded(newBytes, limits.bytes));
      }
      seen := seen + {identity};
      objects := newObjects;
      bytes := newBytes;
      r := Ok(());
    }

    /** Slot, charge, read, in that order, ended by the first failure. */
    method Attempt(c: Codec, rq: Request) returns (r: Result<Resolved, ResolveError>)
      modifies this
      ensures (r, Books()) == Resolve(c, limits, old(Books()), rq)
    {
      hide ReadOpaque, ReadEnvelope, CheckSlot;
      if poisoned {
        return Err(SessionPoisoned);
      }
      var slot := CheckSlot(rq);
      if slot.Err? {
        poisoned := true;
        return Err(slot.error);
      }
      var charged := ChargeFor(rq.ref);
      if charged.Err? {
        poisoned := true;
        return Err(charged.error);
      }
      r := Read(c, rq);
      if r.Err? {
        poisoned := true;
      }
    }
  }

  /** A session exists only under a policy within the hard maxima, and then enforces exactly that policy. */
  method Enter(policy: BudgetPolicy) returns (r: Result<ResolutionSession, BudgetPolicyError>)
    ensures r.Ok? <==>
              && 1 <= policy.maxProviderTurns && 1 <= policy.maxWallTimeSeconds
              && policy.evidenceBudgetBytes <= 256 * 1024 * 1024 && policy.closureObjectBudget <= 2048
    ensures r.Err? ==> match r.error
                       case ZeroProviderTurns => policy.maxProviderTurns == 0
                       case ZeroWallTime => policy.maxWallTimeSeconds == 0
                       case EvidenceBudgetTooLarge => policy.evidenceBudgetBytes > 256 * 1024 * 1024
                       case ClosureObjectBudgetTooLarge => policy.closureObjectBudget > 2048
    ensures r.Ok? ==> fresh(r.value) && r.value.Books() == OPENED && ValidLimits(r.value.limits)
                      && r.value.limits == Limits(policy.evidenceBudgetBytes, policy.closureObjectBudget)
  {
    var checked := CheckPolicy(policy);
    if checked.Err? {
      return Err(checked.error);
    }
    var session := new ResolutionSession(EffectiveLimits(policy));
    r := Ok(session);
  }

  // ---------------------------------------------------------------- whole sessions

  /** What was charged, in order: each identity with the size its first reference declared. */
  type Log = seq<(Identity, nat)>

  function Sum(log: Log): nat
    decreases |log|
  {
    if log == [] then 0 else Sum(log[..|log| - 1]) + log[|log| - 1].1
  }

  function Ids(log: Log): set<Identity> { set i | 0 <= i < |log| :: log[i].0 }

  lemma IdsSnoc(log: Log, id: Identity, n: nat)
    ensures Ids(log + [(id, n)]) == Ids(log) + {id}
  {
    var all := log + [(id, n)];
    forall x | x in Ids(log) + {id} ensures x in Ids(all) {
      if x == id {
        assert all[|log|].0 == x;
      } else {
        var i :| 0 <= i < |log| && log[i].0 == x;
        assert all[i].0 == x;
      }
    }
  }

  datatype State = State(account: Account, log: Log)

  /** One call, with the log entry it makes if it charges. */
  function Step(c: Codec, lim: Limits, s: State, rq: Request): (Result<Resolved, ResolveError>, State) {
    var (r, acc) := Resolve(c, lim, s.account, rq);
    (r, State(acc, if acc.seen == s.account.seen then s.log else s.log + [(IdentityOf(rq.ref), rq.ref.size as nat)]))
  }

  function After(c: Codec, lim: Limits, rqs: seq<Request>): State
    decreases |rqs|
  {
    if rqs == [] then State(OPENED, []) else Step(c, lim, After(c, lim, rqs[..|rqs| - 1]), rqs[|rqs| - 1]).1
  }

  /** The answer to the last of a sequence of calls. */
  function Answer(c: Codec, lim: Limits, rqs: seq<Request>): Result<Resolved, ResolveError>
    requires rqs != []
  {
    Step(c, lim, After(c, lim, rqs[..|rqs| - 1]), rqs[|rqs| - 1]).0
  }

  /** Objects and bytes are exactly the count and the sum of the charged identities, within bounds. */
  ghost predicate Balanced(lim: Limits, s: State) {
    && s.account.seen == Ids(s.log)
    && (forall i, j :: 0 <= i < j < |s.log| ==> s.log[i].0 != s.log[j].0)
    && s.account.objects == |s.log| == |s.account.seen| <= lim.objects
    && s.account.bytes == Sum(s.log) <= lim.bytes
  }

  /** A call either charges nothing or charges one new identity its exact declared size. */
  lemma StepEffect(c: Codec, lim: Limits, s: State, rq: Request)
    requires ValidLimits(lim) && s.account.objects <= lim.objects && s.account.bytes <= lim.bytes
    ensures var t, id := Step(c, lim, s, rq).1, IdentityOf(rq.ref);
            || (t.account.(poisoned := s.account.poisoned) == s.account && t.log == s.log)
            || (&& id !in s.account.seen && CheckSlot(rq).Ok?
                && t.account.seen == s.account.seen + {id} && t.log == s.log + [(id, rq.ref.size as nat)]
                && t.account.objects == s.account.objects + 1 <= lim.objects
                && t.account.bytes == s.account.bytes + rq.ref.size <= lim.bytes)
  {
    hide Read, CheckSlot;
    var id := IdentityOf(rq.ref);
    assert id !in s.account.seen ==> s.account.seen + {id} != s.account.seen;
  }

  lemma BalancedSnoc(lim: Limits, s: State, t: State, id: Identity, n: nat)
    requires Balanced(lim, s) && id !in s.account.seen
    requires t.account.seen == s.account.seen + {id} && t.log == s.log + [(id, n)]
    requires t.account.objects == s.account.objects + 1 <= lim.objects
    requires t.account.bytes == s.account.bytes + n <= lim.bytes
    ensures Balanced(lim, t)
  {
    assert t.log[..|t.log| - 1] == s.log;
    IdsSnoc(s.log, id, n);
    forall i, j | 0 <= i < j < |t.log| ensures t.log[i].0 != t.log[j].0 {
      if j == |s.log| {
        assert t.log[i].0 in Ids(s.log);
      }
    }
  }

  lemma StepBalanced(c: Codec, lim: Limits, s: State, rq: Request)
    requires ValidLimits(lim) && Balanced(lim, s)
    ensures Balanced(lim, Step(c, lim, s, rq).1)
  {
    hide Step, Sum;
    StepEffect(c, lim, s, rq);
    var t := Step(c, lim, s, rq).1;
    if t.log != s.log {
      BalancedSnoc(lim, s, t, IdentityOf(rq.ref), rq.ref.size);
    }
  }

  /** Accounting holds after every sequence of calls: saturation never hides an overflow. */
  lemma {:induction false} AlwaysBalanced(c: Codec, lim: Limits, rqs: seq<Request>)
    requires ValidLimits(lim)
    ensures Balanced(lim, After(c, lim, rqs))
    decreases |rqs|
  {
    hide Step;
    if rqs != [] {
      AlwaysBalanced(c, lim, rqs[..|rqs| - 1]);
      StepBalanced(c, lim, After(c, lim, rqs[..|rqs| - 1]), rqs[|rqs| - 1]);
    }
  }

  /** After the first failure no call returns a value and the accounts never move again. */
  lemma {:induction false} FailureIsFinal(c: Codec, lim: Limits, rqs: seq<Request>, n: nat)
    requires 0 < n < |rqs| && Answer(c, lim, rqs[..n]).Err?
    ensures Answer(c, lim, rqs) == Err(SessionPoisoned)
    ensures After(c, lim, rqs) == After(c, lim, rqs[..n])
    decreases |rqs|
  {
    hide Read, CheckSlot, Charge;
    var init := rqs[..|rqs| - 1];
    if n < |rqs| - 1 {
      assert init[..n] == rqs[..n];
      FailureIsFinal(c, lim, init, n);
      assert After(c, lim, init).account.poisoned by {
        PoisonedAfter(c, lim, rqs[..n]);
      }
    } else {
      assert init == rqs[..n];
      PoisonedAfter(c, lim, init);
    }
  }

  lemma PoisonedAfter(c: Codec, lim: Limits, rqs: seq<Request>)
    requires rqs != [] && Answer(c, lim, rqs).Err?
    ensures After(c, lim, rqs).account.poisoned
  {
    hide Read, CheckSlot, Charge;
  }

  // ---------------------------------------------------------------- paid in full

  /** The size charged for an identity. */
  ghost predicate Paid(s: State, id: Identity, n: nat) { exists i :: 0 <= i < |s.log| && s.log[i] == (id, n) }

  /** An opaque charge is backed by bytes of exactly that many under that digest. */
  ghost predicate OpaqueBacked(c: Codec, s: State) {
    forall i :: 0 <= i < |s.log| && !s.log[i].0.kind.Message? ==>
      exists b: Bytes :: c.hash(b) == s.log[i].0.digest && |b| == s.log[i].1
  }

  /** The size of both halves of the artifact a store holds under a key. */
  function HeldSize(c: Codec, get: Storage, digest: Digest): nat {
    match get(digest)
    case None => 0
    case Some(bytes) =>
      match c.parse(bytes)
      case None => 0
      case Some(e) => match get(e.payloadDigest) case None => 0 case Some(p) => RefSize(|bytes|, |p|)
  }

  /** An envelope charge is the size of what this store holds. */
  ghost predicate EnvelopeBacked(c: Codec, get: Storage, s: State) {
    forall i :: 0 <= i < |s.log| && s.log[i].0.kind.Message? ==> s.log[i].1 == HeldSize(c, get, s.log[i].0.digest)
  }

  lemma ReadMatches(c: Codec, rq: Request)
    requires CheckSlot(rq).Ok? && Read(c, rq).Ok?
    ensures StoredSize(Read(c, rq).value) == rq.ref.size
    ensures rq.OpaqueRequest? <==> !rq.ref.kind.Message?
    ensures rq.OpaqueRequest? ==> exists b: Bytes :: c.hash(b) == rq.ref.digest && |b| == rq.ref.size
    ensures rq.EnvelopeRequest? ==> rq.ref.size == HeldSize(c, rq.get, rq.ref.digest)
  {
    hide PreimageOf, KindName;
    if rq.OpaqueRequest? {
      var b := Read(c, rq).value.bytes;
      assert c.hash(b) == rq.ref.digest && |b| == rq.ref.size;
    }
  }

  /** A successful call has a size on its account, and repeats of it have the same one. */
  lemma SuccessEffect(c: Codec, lim: Limits, s: State, rq: Request)
    requires ValidLimits(lim) && Balanced(lim, s) && Step(c, lim, s, rq).0.Ok?
    ensures var (r, t) := Step(c, lim, s, rq);
            && !s.account.poisoned && !t.account.poisoned
            && CheckSlot(rq).Ok? && r == Read(c, rq)
            && ((t.log == s.log && IdentityOf(rq.ref) in s.account.seen)
                || t.log == s.log + [(IdentityOf(rq.ref), rq.ref.size as nat)])
  {
    hide Read, CheckSlot;
    var id := IdentityOf(rq.ref);
    assert id !in s.account.seen ==> s.account.seen + {id} != s.account.seen;
  }

  /** Every state that has not failed is one whose last call, if any, succeeded. */
  lemma UnpoisonedMeansOk(c: Codec, lim: Limits, s: State, rq: Request)
    requires !Step(c, lim, s, rq).1.account.poisoned
    ensures Step(c, lim, s, rq).0.Ok? && !s.account.poisoned
  {
    hide Read, CheckSlot, Charge;
  }

  lemma OpaqueStep(c: Codec, lim: Limits, s: State, rq: Request)
    requires CollisionFree(c.hash) && ValidLimits(lim) && Balanced(lim, s) && OpaqueBacked(c, s)
    requires Step(c, lim, s, rq).0.Ok?
    ensures OpaqueBacked(c, Step(c, lim, s, rq).1)
    ensures rq.OpaqueRequest? ==> Paid(Step(c, lim, s, rq).1, IdentityOf(rq.ref), StoredSize(Step(c, lim, s, rq).0.value))
  {
    hide Step, Read, CheckSlot, StoredSize;
    SuccessEffect(c, lim, s, rq);
    ReadMatches(c, rq);
    var t := Step(c, lim, s, rq).1;
    if t.log != s.log {
      assert t.log[|s.log|] == (IdentityOf(rq.ref), rq.ref.size as nat);
    } else if rq.OpaqueRequest? {
      var i :| 0 <= i < |s.log| && s.log[i].0 == IdentityOf(rq.ref);
      var b: Bytes :| c.hash(b) == s.log[i].0.digest && |b| == s.log[i].1;
      assert t.log[i] == (IdentityOf(rq.ref), rq.ref.size as nat);
    }
  }

  lemma EnvelopeStep(c: Codec, lim: Limits, get: Storage, s: State, rq: Request)
    requires ValidLimits(lim) && Balanced(lim, s) && EnvelopeBacked(c, get, s)
    requires Step(c, lim, s, rq).0.Ok? && (rq.EnvelopeRequest? ==> rq.get == get)
    ensures EnvelopeBacked(c, get, Step(c, lim, s, rq).1)
    ensures rq.EnvelopeRequest? ==> Paid(Step(c, lim, s, rq).1, IdentityOf(rq.ref), StoredSize(Step(c, lim, s, rq).0.value))
  {
    hide Step, Read, CheckSlot, StoredSize, HeldSize;
    SuccessEffect(c, lim, s, rq);
    ReadMatches(c, rq);
    var t := Step(c, lim, s, rq).1;
    if t.log != s.log {
      assert t.log[|s.log|] == (IdentityOf(rq.ref), rq.ref.size as nat);
    } else if rq.EnvelopeRequest? {
      var i :| 0 <= i < |s.log| && s.log[i].0 == IdentityOf(rq.ref);
      assert t.log[i] == (IdentityOf(rq.ref), rq.ref.size as nat);
    }
  }

  lemma {:induction false} AlwaysOpaqueBacked(c: Codec, lim: Limits, rqs: seq<Request>)
    requires CollisionFree(c.hash) && ValidLimits(lim) && !After(c, lim, rqs).account.poisoned
    ensures OpaqueBacked(c, After(c, lim, rqs))
    decreases |rqs|
  {
    hide Step;
    if rqs != [] {
      var s, rq := After(c, lim, rqs[..|rqs| - 1]), rqs[|rqs| - 1];
      UnpoisonedMeansOk(c, lim, s, rq);
      AlwaysBalanced(c, lim, rqs[..|rqs| - 1]);
      AlwaysOpaqueBacked(c, lim, rqs[..|rqs| - 1]);
      OpaqueStep(c, lim, s, rq);
    }
  }

  ghost predicate OneStore(get: Storage, rqs: seq<Request>) {
    forall i :: 0 <= i < |rqs| && rqs[i].EnvelopeRequest? ==> rqs[i].get == get
  }

  lemma {:induction false} AlwaysEnvelopeBacked(c: Codec, lim: Limits, get: Storage, rqs: seq<Request>)
    requires ValidLimits(lim) && !After(c, lim, rqs).account.poisoned && OneStore(get, rqs)
    ensures EnvelopeBacked(c, get, After(c, lim, rqs))
    decreases |rqs|
  {
    hide Step;
    if rqs != [] {
      var s, rq := After(c, lim, rqs[..|rqs| - 1]), rqs[|rqs| - 1];
      UnpoisonedMeansOk(c, lim, s, rq);
      AlwaysBalanced(c, lim, rqs[..|rqs| - 1]);
      AlwaysEnvelopeBacked(c, lim, get, rqs[..|rqs| - 1]);
      EnvelopeStep(c, lim, get, s, rq);
    }
  }

  /**
   Paid in full. After any calls, the stored size of a returned opaque object is the size
   charged for its identity, even for a store that answers differently on every read; for
   a returned envelope it is so when all envelope calls read one store.
   */
  lemma PaidInFull(c: Codec, lim: Limits, rqs: seq<Request>, get: Storage)
    requires CollisionFree(c.hash) && ValidLimits(lim) && rqs != [] && Answer(c, lim, rqs).Ok?
    ensures var rq := rqs[|rqs| - 1];
            rq.OpaqueRequest? || OneStore(get, rqs) ==>
              Paid(After(c, lim, rqs), IdentityOf(rq.ref), StoredSize(Answer(c, lim, rqs).value))
  {
    var init := rqs[..|rqs| - 1];
    var s, rq := After(c, lim, init), rqs[|rqs| - 1];
    AlwaysBalanced(c, lim, init);
    SuccessEffect(c, lim, s, rq);
    hide Step, After;
    if rq.OpaqueRequest? {
      AlwaysOpaqueBacked(c, lim, init);
      OpaqueStep(c, lim, s, rq);
    } else if OneStore(get, rqs) {
      AlwaysEnvelopeBacked(c, lim, get, init);
      EnvelopeStep(c, lim, get, s, rq);
    }
  }

  /** A charge is single-valued: an identity is never on the account with two sizes. */
  lemma PaidOnce(c: Codec, lim: Limits, rqs: seq<Request>, id: Identity, m: nat, n: nat)
    requires ValidLimits(lim) && Paid(After(c, lim, rqs), id, m) && Paid(After(c, lim, rqs), id, n)
    ensures m == n
  {
    AlwaysBalanced(c, lim, rqs);
    hide After;
  }

  /** References to one identity always declare one size. */
  ghost predicate Consistent(rqs: seq<Request>) {
    forall i, j :: 0 <= i < |rqs| && 0 <= j < |rqs| && IdentityOf(rqs[i].ref) == IdentityOf(rqs[j].ref)
      ==> rqs[i].ref.size == rqs[j].ref.size
  }

  ghost predicate DeclaredPaid(s: State, rqs: seq<Request>) {
    forall i :: 0 <= i < |rqs| ==> Paid(s, IdentityOf(rqs[i].ref), rqs[i].ref.size)
  }

  /** Every logged size was declared by some request. */
  ghost predicate Declared(s: State, rqs: seq<Request>) {
    forall k :: 0 <= k < |s.log| ==> exists i :: 0 <= i < |rqs| && s.log[k] == (IdentityOf(rqs[i].ref), rqs[i].ref.size as nat)
  }

  lemma {:induction false} AlwaysDeclared(c: Codec, lim: Limits, rqs: seq<Request>)
    requires ValidLimits(lim)
    ensures Declared(After(c, lim, rqs), rqs)
    decreases |rqs|
  {
    hide Step;
    if rqs != [] {
      var init := rqs[..|rqs| - 1];
      var s, rq := After(c, lim, init), rqs[|rqs| - 1];
      AlwaysDeclared(c, lim, init);
      AlwaysBalanced(c, lim, init);
      StepEffect(c, lim, s, rq);
      var t := Step(c, lim, s, rq).1;
      forall k | 0 <= k < |t.log| ensures exists i :: 0 <= i < |rqs| && t.log[k] == (IdentityOf(rqs[i].ref), rqs[i].ref.size as nat) {
        if k < |s.log| {
          var i :| 0 <= i < |init| && s.log[k] == (IdentityOf(init[i].ref), init[i].ref.size as nat);
          assert rqs[i] == init[i];
        } else {
          assert t.log[k] == (IdentityOf(rqs[|rqs| - 1].ref), rqs[|rqs| - 1].ref.size as nat);
        }
      }
    }
  }

  lemma SuccessSees(c: Codec, lim: Limits, s: State, rq: Request)
    requires Step(c, lim, s, rq).0.Ok?
    ensures Step(c, lim, s, rq).1.account.seen == s.account.seen + {IdentityOf(rq.ref)}
  {
    hide Read, CheckSlot;
  }

  lemma {:induction false} AllSeen(c: Codec, lim: Limits, rqs: seq<Request>)
    requires !After(c, lim, rqs).account.poisoned
    ensures forall i :: 0 <= i < |rqs| ==> IdentityOf(rqs[i].ref) in After(c, lim, rqs).account.seen
    decreases |rqs|
  {
    hide Step;
    if rqs != [] {
      var init := rqs[..|rqs| - 1];
      var s, rq := After(c, lim, init), rqs[|rqs| - 1];
      UnpoisonedMeansOk(c, lim, s, rq);
      AllSeen(c, lim, init);
      SuccessSees(c, lim, s, rq);
    }
  }

  /** Call `i` returned a value whose stored size is the size on the account for its identity. */
  ghost predicate PaidAt(c: Codec, lim: Limits, rqs: seq<Request>, i: nat)
    requires i < |rqs|
  {
    var answer := Answer(c, lim, rqs[..i + 1]);
    answer.Ok? && Paid(After(c, lim, rqs), IdentityOf(rqs[i].ref), StoredSize(answer.value))
  }

  ghost predicate AllPaid(c: Codec, lim: Limits, rqs: seq<Request>) {
    forall i :: 0 <= i < |rqs| ==> PaidAt(c, lim, rqs, i)
  }

  /** Every call of a session that has not failed returned a value of the declared size. */
  lemma {:induction false} ReturnedAsDeclared(c: Codec, lim: Limits, rqs: seq<Request>, i: nat)
    requires ValidLimits(lim) && !After(c, lim, rqs).account.poisoned && i < |rqs|
    ensures Answer(c, lim, rqs[..i + 1]).Ok? && StoredSize(Answer(c, lim, rqs[..i + 1]).value) == rqs[i].ref.size
    decreases |rqs|
  {
    hide Step, StoredSize, Read;
    var init := rqs[..|rqs| - 1];
    var s, rq := After(c, lim, init), rqs[|rqs| - 1];
    UnpoisonedMeansOk(c, lim, s, rq);
    if i < |init| {
      ReturnedAsDeclared(c, lim, init, i);
      assert init[..i + 1] == rqs[..i + 1];
    } else {
      assert rqs[..i + 1] == rqs;
      AlwaysBalanced(c, lim, init);
      SuccessEffect(c, lim, s, rq);
      ReadMatches(c, rq);
    }
  }

  lemma PaidAsDeclared(c: Codec, lim: Limits, rqs: seq<Request>)
    requires ValidLimits(lim) && !After(c, lim, rqs).account.poisoned
    ensures AllPaid(c, lim, rqs) <==> DeclaredPaid(After(c, lim, rqs), rqs)
  {
    hide After, Answer, StoredSize, Paid;
    if AllPaid(c, lim, rqs) {
      forall i | 0 <= i < |rqs| ensures Paid(After(c, lim, rqs), IdentityOf(rqs[i].ref), rqs[i].ref.size) {
        assert PaidAt(c, lim, rqs, i);
        ReturnedAsDeclared(c, lim, rqs, i);
      }
    }
    if DeclaredPaid(After(c, lim, rqs), rqs) {
      forall i | 0 <= i < |rqs| ensures PaidAt(c, lim, rqs, i) {
        ReturnedAsDeclared(c, lim, rqs, i);
      }
    }
  }

  /**
   With arbitrary storage, a session in which every call succeeded is paid in full exactly
   when references to one identity declare one size.
   */
  lemma PaidExactlyWhenConsistent(c: Codec, lim: Limits, rqs: seq<Request>)
    requires ValidLimits(lim) && !After(c, lim, rqs).account.poisoned
    ensures AllPaid(c, lim, rqs) <==> Consistent(rqs)
  {
    var s := After(c, lim, rqs);
    PaidAsDeclared(c, lim, rqs);
    AlwaysBalanced(c, lim, rqs);
    AlwaysDeclared(c, lim, rqs);
    AllSeen(c, lim, rqs);
    hide After, AllPaid;
    if DeclaredPaid(s, rqs) {
      PaidIsConsistent(lim, s, rqs);
    }
    if Consistent(rqs) {
      ConsistentIsPaid(s, rqs);
    }
  }

  lemma PaidIsConsistent(lim: Limits, s: State, rqs: seq<Request>)
    requires Balanced(lim, s) && DeclaredPaid(s, rqs)
    ensures Consistent(rqs)
  {
    forall i, j | 0 <= i < |rqs| && 0 <= j < |rqs| && IdentityOf(rqs[i].ref) == IdentityOf(rqs[j].ref)
      ensures rqs[i].ref.size == rqs[j].ref.size
    {
      var k :| 0 <= k < |s.log| && s.log[k] == (IdentityOf(rqs[i].ref), rqs[i].ref.size as nat);
      var l :| 0 <= l < |s.log| && s.log[l] == (IdentityOf(rqs[j].ref), rqs[j].ref.size as nat);
      assert k == l;
    }
  }

  lemma ConsistentIsPaid(s: State, rqs: seq<Request>)
    requires Declared(s, rqs) && Consistent(rqs)
    requires forall i :: 0 <= i < |rqs| ==> IdentityOf(rqs[i].ref) in Ids(s.log)
    ensures DeclaredPaid(s, rqs)
  {
    forall i | 0 <= i < |rqs| ensures Paid(s, IdentityOf(rqs[i].ref), rqs[i].ref.size) {
      assert IdentityOf(rqs[i].ref) in Ids(s.log);
      var k :| 0 <= k < |s.log| && s.log[k].0 == IdentityOf(rqs[i].ref);
      var j :| 0 <= j < |rqs| && s.log[k] == (IdentityOf(rqs[j].ref), rqs[j].ref.size as nat);
      assert s.log[k] == (IdentityOf(rqs[i].ref), rqs[i].ref.size as nat);
    }
  }

  function OneArtifact(framed: Digest, bytes: Bytes, payloadDigest: Digest, payload: Bytes): Storage {
    d => if d == framed then Some(bytes) else if d == payloadDigest then Some(payload) else None
  }

  /**
   One store is needed for envelopes: two stores that hold differently dated encodings of
   one identity give a session that returns more bytes than it charged.
   */
  lemma TwoStoresUnderpay(c: Codec, lim: Limits, a: Envelope, b: Envelope, x: Bytes, y: Bytes, payload: Bytes)
    requires ValidLimits(lim) && lim.objects >= 1 && |x| + |payload| < |y| + |payload| <= lim.bytes
    requires c.parse(x) == Some(a) && c.parse(y) == Some(b) && Bounded(a) && Bounded(b) && PreimageOf(a) == PreimageOf(b)
    requires c.hash(payload) == a.payloadDigest && a.payloadDigest != c.hash(PreimageOf(a))
    ensures var m, framed := a.messageKind, c.hash(PreimageOf(a));
            var media := TypedMediaType(Message(m));
            var first := EnvelopeRequest(m, ArtifactRef(Message(m), media, framed, |x| + |payload|), OneArtifact(framed, x, a.payloadDigest, payload));
            var second := EnvelopeRequest(m, ArtifactRef(Message(m), media, framed, |y| + |payload|), OneArtifact(framed, y, a.payloadDigest, payload));
            && Answer(c, lim, [first, second]).Ok?
            && StoredSize(Answer(c, lim, [first, second]).value) > After(c, lim, [first, second]).account.bytes
  {
    FramingExactly(a, b);
    hide PreimageOf;
    var m, framed := a.messageKind, c.hash(PreimageOf(a));
    hide KindName;
    var media := TypedMediaType(Message(m));
    var first := EnvelopeRequest(m, ArtifactRef(Message(m), media, framed, |x| + |payload|), OneArtifact(framed, x, a.payloadDigest, payload));
    var second := EnvelopeRequest(m, ArtifactRef(Message(m), media, framed, |y| + |payload|), OneArtifact(framed, y, a.payloadDigest, payload));
    hide TypedMediaType;
    assert Read(c, first).Ok? && Read(c, second) == Ok(EnvelopeObject(b, framed, payload, |y|));
    hide ReadEnvelope;
    var none: seq<Request> := [];
    var one, two := [first], [first, second];
    assert one[..0] == none && two[..1] == one && two[1] == second && one[0] == first;
    var s0 := State(OPENED, []);
    assert After(c, lim, none) == s0;
    var s1 := Step(c, lim, s0, first).1;
    assert s1.account == Account({IdentityOf(first.ref)}, |x| + |payload|, 1, false);
    assert After(c, lim, one) == s1;
    assert Resolve(c, lim, s1.account, second) == (Read(c, second), s1.account);
  }

  /**
   The write path and the session agree: a reference made of what `put_envelope` returned
   resolves in a session with room for it, to the first accepted envelope and its payload.
   */
  lemma WrittenArtifactsResolve(c: Codec, lim: Limits, ops: seq<S.Op>, j: nat)
    requires S.Faithful(c) && S.Typed(ops) && S.Separated(c, ops) && j < |ops| && S.Accepted(c, ops[j])
    requires ValidLimits(lim) && lim.objects >= 1 && S.ReturnedSize(c, ops, j) <= lim.bytes
    ensures var e := ops[j].e;
            var ref := ArtifactRef(Message(e.messageKind), TypedMediaType(Message(e.messageKind)), S.FramedKey(c, e), S.ReturnedSize(c, ops, j));
            var r := Resolve(c, lim, OPENED, EnvelopeRequest(e.messageKind, ref, S.Get(S.DoAll(c, ops)))).0;
            && r.Ok? && r.value.EnvelopeObject? && r.value.payload == ops[j].payload
            && S.First(c, ops, PreimageOf(e)) == Some(r.value.envelope)
  {
    hide PreimageOf, KindName, S.DoAll, S.First, S.Faithful, S.Separated, S.Typed;
    S.WriteThenResolve(c, ops, j);
    hide TypedMediaType, Unclocked;
  }

  /** The reference is what the slot expects, and storage holds what the reference names. */
  ghost predicate Resolvable(c: Codec, rq: Request) {
    match rq
    case OpaqueRequest(kind, media, ref, get) =>
      && ref.kind == kind && ref.mediaType == media && !IsTyped(kind)
      && exists b: Bytes :: get(ref.digest) == Some(b) && c.hash(b) == ref.digest && |b| == ref.size
    case EnvelopeRequest(m, ref, get) =>
      && ref.kind == Message(m) && ref.mediaType == TypedMediaType(Message(m))
      && exists b: Bytes, e: Envelope, p: Bytes ::
           && get(ref.digest) == Some(b) && c.parse(b) == Some(e) && get(e.payloadDigest) == Some(p)
           && c.hash(PreimageOf(e)) == ref.digest && e.messageKind == m && c.hash(p) == e.payloadDigest
           && ref.size == (if |b| + |p| < TWO_64 then |b| + |p| else TWO_64 - 1)
  }

  lemma ResolvableExactly(c: Codec, rq: Request)
    ensures CheckSlot(rq).Ok? && Read(c, rq).Ok? <==> Resolvable(c, rq)
  {
    hide PreimageOf, TypedMediaType, IsTyped;
  }

  /** The identity is on the account already, or both bounds leave room for it. */
  ghost predicate Affordable(lim: Limits, s: State, ref: ArtifactRef) {
    || (exists n: nat :: Paid(s, IdentityOf(ref), n))
    || (|s.log| + 1 <= lim.objects && Sum(s.log) + ref.size <= lim.bytes)
  }

  lemma ChargeExactly(lim: Limits, s: State, ref: ArtifactRef)
    requires ValidLimits(lim) && Balanced(lim, s)
    ensures Charge(lim, s.account, ref).0.Ok? <==> Affordable(lim, s, ref)
  {
    var id := IdentityOf(ref);
    if id in Ids(s.log) {
      var i :| 0 <= i < |s.log| && s.log[i].0 == id;
      assert Paid(s, id, s.log[i].1);
    }
  }

  /**
   A call succeeds exactly when no call failed before it, it can be afforded, and storage
   holds what it names: nothing that fits is refused, and nothing else gets through.
   */
  lemma CallSucceedsExactly(c: Codec, lim: Limits, rqs: seq<Request>)
    requires ValidLimits(lim) && rqs != []
    ensures var before, rq := rqs[..|rqs| - 1], rqs[|rqs| - 1];
            Answer(c, lim, rqs).Ok? <==>
            && (forall i :: 0 < i <= |before| ==> Answer(c, lim, before[..i]).Ok?)
            && Affordable(lim, After(c, lim, before), rq.ref) && Resolvable(c, rq)
  {
    var before, rq := rqs[..|rqs| - 1], rqs[|rqs| - 1];
    AlwaysBalanced(c, lim, before);
    ChargeExactly(lim, After(c, lim, before), rq.ref);
    ResolvableExactly(c, rq);
    PoisonedExactly(c, lim, before);
    hide After, Charge, Read, CheckSlot, Resolvable, Affordable, Balanced;
  }

  lemma {:induction false} PoisonedExactly(c: Codec, lim: Limits, rqs: seq<Request>)
    ensures !After(c, lim, rqs).account.poisoned <==> forall i :: 0 < i <= |rqs| ==> Answer(c, lim, rqs[..i]).Ok?
    decreases |rqs|
  {
    hide Step;
    if rqs != [] {
      var n := |rqs| - 1;
      PoisonedExactly(c, lim, rqs[..n]);
      assert rqs[..|rqs|] == rqs;
      assert forall i :: 0 < i <= n ==> rqs[..n][..i] == rqs[..i];
      if !After(c, lim, rqs).account.poisoned {
        UnpoisonedMeansOk(c, lim, After(c, lim, rqs[..n]), rqs[n]);
      }
      if After(c, lim, rqs).account.poisoned && Answer(c, lim, rqs).Ok? {
        OkMeansUnpoisoned(c, lim, After(c, lim, rqs[..n]), rqs[n]);
      }
    }
  }

  lemma OkMeansUnpoisoned(c: Codec, lim: Limits, s: State, rq: Request)
    requires Step(c, lim, s, rq).0.Ok?
    ensures !Step(c, lim, s, rq).1.account.poisoned
  {
    hide Read, CheckSlot;
  }

  /** What a successful read returns. */
  lemma ReadIsGenuine(c: Codec, rq: Request)
    requires CheckSlot(rq).Ok? && Read(c, rq).Ok?
    ensures var r := Read(c, rq).value;
            && (rq.OpaqueRequest? ==>
                  && r == OpaqueObject(rq.slotKind, rq.slotMedia, rq.ref.digest, r.bytes) && !IsTyped(rq.slotKind)
                  && rq.get(rq.ref.digest) == Some(r.bytes) && c.hash(r.bytes) == rq.ref.digest && |r.bytes| == rq.ref.size)
            && (rq.EnvelopeRequest? ==>
                  && r.EnvelopeObject? && r.envelope.messageKind == rq.slotMessage && rq.ref.kind == Message(rq.slotMessage)
                  && rq.ref.mediaType == TypedMediaType(rq.ref.kind)
                  && r.framed == rq.ref.digest == c.hash(PreimageOf(r.envelope))
                  && c.hash(r.payload) == r.envelope.payloadDigest && rq.get(r.envelope.payloadDigest) == Some(r.payload)
                  && rq.get(rq.ref.digest).Some? && c.parse(rq.get(rq.ref.digest).value) == Some(r.envelope)
                  && r.envelopeSize == |rq.get(rq.ref.digest).value|
                  && rq.ref.size == (if r.envelopeSize + |r.payload| < TWO_64 then r.envelopeSize + |r.payload| else TWO_64 - 1))
  {
    hide PreimageOf, TypedMediaType, IsTyped;
  }

  /**
   Whatever the storage answers, a returned value is what the slot expects and the
   reference names: the bytes hash to it, and an envelope frames to it and binds its payload.
   */
  lemma ResolvedIsGenuine(c: Codec, lim: Limits, rqs: seq<Request>)
    requires ValidLimits(lim) && rqs != [] && Answer(c, lim, rqs).Ok?
    ensures var rq, r := rqs[|rqs| - 1], Answer(c, lim, rqs).value;
            && (rq.OpaqueRequest? ==>
                  && r == OpaqueObject(rq.slotKind, rq.slotMedia, rq.ref.digest, r.bytes) && !IsTyped(rq.slotKind)
                  && rq.get(rq.ref.digest) == Some(r.bytes) && c.hash(r.bytes) == rq.ref.digest && |r.bytes| == rq.ref.size)
            && (rq.EnvelopeRequest? ==>
                  && r.EnvelopeObject? && r.envelope.messageKind == rq.slotMessage && rq.ref.kind == Message(rq.slotMessage)
                  && rq.ref.mediaType == TypedMediaType(rq.ref.kind)
                  && r.framed == rq.ref.digest == c.hash(PreimageOf(r.envelope))
                  && c.hash(r.payload) == r.envelope.payloadDigest && rq.get(r.envelope.payloadDigest) == Some(r.payload)
                  && rq.get(rq.ref.digest).Some? && c.parse(rq.get(rq.ref.digest).value) == Some(r.envelope)
                  && r.envelopeSize == |rq.get(rq.ref.digest).value|
                  && rq.ref.size == (if r.envelopeSize + |r.payload| < TWO_64 then r.envelopeSize + |r.payload| else TWO_64 - 1))
  {
    AlwaysBalanced(c, lim, rqs[..|rqs| - 1]);
    SuccessEffect(c, lim, After(c, lim, rqs[..|rqs| - 1]), rqs[|rqs| - 1]);
    hide After, Step, PreimageOf, TypedMediaType, Read, CheckSlot, Balanced;
    ReadIsGenuine(c, rqs[|rqs| - 1]);
  }
}
