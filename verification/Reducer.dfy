/**
 The canonical run reducer (`crates/o7-run/src/reduce.rs`) on event kinds, with
 the dispatch classifier that recovery reads off the reduced state
 (`src/recovery.rs`). Contracts built by `src/events.rs` declare no policies and no
 sandbox requirements, so the event kinds that discharge those are always refused
 and do not occur here. Envelope checks (sequence, digest, chain) are in Journal.
 */
module Reducer {
  import opened Base

  datatype Artifact = Artifact(locator: string, digest: Digest)

  datatype Applicability = Applicable | Waived(environment: string, reason: string)

  datatype GateObligation = GateObligation(gate: string, required: bool, applicability: Applicability)

  datatype Contract = Contract(
    gates: seq<GateObligation>,
    agentRequired: bool,
    environment: string,
    candidateSchema: Option<nat>)

  datatype AgentOutcome = ExitedNormally(code: int) | FailedToStart | Faulted

  datatype GateOutcome = GatePass | GateFail | GateWarn | GateBlocked | GateNotApplicable | GateError

  datatype Kind =
    | RunStarted(contract: Contract, task: Artifact)
    | WorktreeCreated(worktree: Artifact)
    | AgentStarted
    | AgentExited(outcome: AgentOutcome)
    | PatchCaptured(patch: Artifact)
    | GateStarted(gate: string)
    | GateFinished(gate: string, gateOutcome: GateOutcome, log: Option<Artifact>)
    | ProviderSessionCaptured(session: Artifact)
    | CommandBindingCaptured(binding: Artifact)
    | CandidateStateCaptured(receipt: Artifact)
    | CandidateStateMaterialized(source: Artifact, sourcePatch: Artifact)
    | RunSealed

  datatype Lifecycle = NotObserved | Started | Exited(outcome: AgentOutcome)

  datatype GateProgress = InProgress | Finished(outcome: GateOutcome)

  datatype Verdict = Pass | Fail | Blocked | Error

  datatype Phase = NotStarted | Running | Sealed

  datatype RunState = RunState(
    phase: Phase,
    contract: Option<Contract>,
    worktree: Option<Artifact>,
    patch: Option<Artifact>,
    agent: Lifecycle,
    gates: map<string, GateProgress>,
    session: Option<Artifact>,
    binding: Option<Artifact>,
    candidate: Option<Artifact>,
    materialized: Option<Artifact>,
    verdict: Option<Verdict>)

  datatype ReduceError =
    | EventAfterSeal | MissingRunStarted | DuplicateStart | BadContract | BadArtifact
    | Duplicate | DisallowedAgentEvent | MaterializationMissing | AgentExitBeforeStart
    | UnknownGate | GateNotStarted | CaptureTooEarly | MaterializationTooLate

  const Initial := RunState(NotStarted, None, None, None, NotObserved, map[], None, None, None, None, None)

  const CONTRACT_SCHEMA: nat := 1

  predicate ValidArtifact(a: Artifact) { a.locator != "" }

  /** The Unicode White_Space code points, which trimming removes. */
  predicate IsWhitespace(c: char) {
    || '\U{9}' <= c <= '\U{D}' || c == ' ' || c == '\U{85}' || c == '\U{A0}' || c == '\U{1680}'
    || '\U{2000}' <= c <= '\U{200A}' || c == '\U{2028}' || c == '\U{2029}' || c == '\U{202F}'
    || c == '\U{205F}' || c == '\U{3000}'
  }

  /** Exactly the 25 code points that Unicode gives the property White_Space. */
  lemma WhitespaceExactly(c: char)
    ensures IsWhitespace(c) <==>
            c as int in {9, 10, 11, 12, 13, 32, 133, 160, 5760, 8192, 8193, 8194, 8195, 8196, 8197, 8198, 8199, 8200, 8201, 8202,
                         8232, 8233, 8239, 8287, 12288}
  {
  }

  /** A text that trims to nothing. */
  predicate Blank(s: string) {
    forall i :: 0 <= i < |s| ==> IsWhitespace(s[i])
  }

  predicate ValidContract(c: Contract) {
    && (c.candidateSchema.Some? ==> c.candidateSchema.value == CONTRACT_SCHEMA)
    && (forall i, j :: 0 <= i < j < |c.gates| ==> c.gates[i].gate != c.gates[j].gate)
    && (forall i :: 0 <= i < |c.gates| && c.gates[i].applicability.Waived? ==>
          c.gates[i].applicability.environment == c.environment && !Blank(c.gates[i].applicability.reason))
  }

  predicate Declares(c: Contract, gate: string) {
    exists i :: 0 <= i < |c.gates| && c.gates[i].gate == gate
  }

  /** Fold one event kind into the state, or refuse it. */
  function Apply(s: RunState, k: Kind): (r: Result<RunState, ReduceError>)
  {
    if s.phase.Sealed? then Err(EventAfterSeal)
    else if k.RunStarted? then
      if !s.phase.NotStarted? then Err(DuplicateStart)
      else if !ValidContract(k.contract) then Err(BadContract)
      else if !ValidArtifact(k.task) then Err(BadArtifact)
      else Ok(s.(phase := Running, contract := Some(k.contract)))
    else if s.phase.NotStarted? || s.contract.None? then Err(MissingRunStarted)
    else ApplyRunning(s, s.contract.value, k)
  }

  function ApplyRunning(s: RunState, c: Contract, k: Kind): (r: Result<RunState, ReduceError>)
    requires !k.RunStarted?
  {
    match k
    case WorktreeCreated(w) =>
      if !ValidArtifact(w) then Err(BadArtifact)
      else if s.worktree.Some? then Err(Duplicate)
      else Ok(s.(worktree := Some(w)))
    case PatchCaptured(p) =>
      if !ValidArtifact(p) then Err(BadArtifact)
      else if s.patch.Some? then Err(Duplicate)
      else Ok(s.(patch := Some(p)))
    case AgentStarted =>
      if !c.agentRequired then Err(DisallowedAgentEvent)
      else if !s.agent.NotObserved? then Err(Duplicate)
      else if c.candidateSchema.Some? && s.binding.Some? && s.materialized.None? then Err(MaterializationMissing)
      else Ok(s.(agent := Started))
    case AgentExited(o) =>
      if !c.agentRequired then Err(DisallowedAgentEvent)
      else if s.agent.NotObserved? && !o.FailedToStart? then Err(AgentExitBeforeStart)
      else if s.agent.Exited? then Err(Duplicate)
      else Ok(s.(agent := Exited(o)))
    case GateStarted(g) =>
      if !Declares(c, g) then Err(UnknownGate)
      else if g in s.gates then Err(Duplicate)
      else Ok(s.(gates := s.gates[g := InProgress]))
    case GateFinished(g, o, log) =>
      if !Declares(c, g) then Err(UnknownGate)
      else if log.Some? && !ValidArtifact(log.value) then Err(BadArtifact)
      else if g !in s.gates then Err(GateNotStarted)
      else if s.gates[g].Finished? then Err(Duplicate)
      else Ok(s.(gates := s.gates[g := Finished(o)]))
    case ProviderSessionCaptured(a) =>
      if !ValidArtifact(a) then Err(BadArtifact)
      else if s.session.Some? then Err(Duplicate)
      else Ok(s.(session := Some(a)))
    case CommandBindingCaptured(a) =>
      if !ValidArtifact(a) then Err(BadArtifact)
      else if s.binding.Some? then Err(Duplicate)
      else Ok(s.(binding := Some(a)))
    case CandidateStateCaptured(a) =>
      if !ValidArtifact(a) then Err(BadArtifact)
      else if s.candidate.Some? then Err(Duplicate)
      else if s.patch.None? || (c.agentRequired && !s.agent.Exited?) then Err(CaptureTooEarly)
      else Ok(s.(candidate := Some(a)))
    case CandidateStateMaterialized(a, p) =>
      if !ValidArtifact(a) || !ValidArtifact(p) then Err(BadArtifact)
      else if s.materialized.Some? then Err(Duplicate)
      else if s.binding.None? || !s.agent.NotObserved? then Err(MaterializationTooLate)
      else Ok(s.(materialized := Some(a)))
    case RunSealed => Ok(s.(phase := Sealed, verdict := Some(ComputeVerdict(s, c))))
  }

  predicate RequiredApplicable(o: GateObligation) { o.required && o.applicability.Applicable? }

  predicate GateErrs(s: RunState, o: GateObligation) {
    RequiredApplicable(o) && o.gate in s.gates &&
    (s.gates[o.gate].InProgress? || s.gates[o.gate].outcome.GateError?)
  }

  predicate GateFails(s: RunState, o: GateObligation) {
    RequiredApplicable(o) && o.gate in s.gates && s.gates[o.gate] == Finished(GateFail)
  }

  predicate GateIsBlocked(s: RunState, o: GateObligation) {
    RequiredApplicable(o) &&
    (o.gate in s.gates ==> s.gates[o.gate] == Finished(GateBlocked) || s.gates[o.gate] == Finished(GateNotApplicable))
  }

  /** Precedence `Error > Fail > Blocked > Pass` over every obligation. */
  function ComputeVerdict(s: RunState, c: Contract): (v: Verdict)
  {
    if (c.agentRequired && s.agent != Exited(ExitedNormally(0)))
       || (exists i :: 0 <= i < |c.gates| && GateErrs(s, c.gates[i])) then Error
    else if exists i :: 0 <= i < |c.gates| && GateFails(s, c.gates[i]) then Fail
    else if (c.candidateSchema.Some? && s.candidate.None?)
            || (exists i :: 0 <= i < |c.gates| && GateIsBlocked(s, c.gates[i])) then Blocked
    else Pass
  }

  /** Left fold, fail-fast. */
  function ReduceFrom(s: RunState, ks: seq<Kind>): (r: Result<RunState, ReduceError>)
    decreases |ks|
  {
    if ks == [] then Ok(s)
    else match Apply(s, ks[0])
         case Err(e) => Err(e)
         case Ok(s') => ReduceFrom(s', ks[1..])
  }

  function Reduce(ks: seq<Kind>): Result<RunState, ReduceError> { ReduceFrom(Initial, ks) }

  lemma {:induction false} ReduceConcat(s: RunState, a: seq<Kind>, b: seq<Kind>)
    ensures ReduceFrom(s, a + b) ==
            match ReduceFrom(s, a) case Err(e) => Err(e) case Ok(s') => ReduceFrom(s', b)
    decreases |a|
  {
    if a == [] {
      assert a + b == b;
    } else {
      assert (a + b)[0] == a[0] && (a + b)[1..] == a[1..] + b;
      match Apply(s, a[0]) {
        case Err(_) =>
        case Ok(s') => ReduceConcat(s', a[1..], b);
      }
    }
  }

  /** Every prefix of an accepted stream is accepted. */
  lemma PrefixAccepted(ks: seq<Kind>, n: nat)
    requires n <= |ks| && Reduce(ks).Ok?
    ensures Reduce(ks[..n]).Ok?
    ensures ReduceFrom(Reduce(ks[..n]).value, ks[n..]) == Reduce(ks)
  {
    assert ks == ks[..n] + ks[n..];
    ReduceConcat(Initial, ks[..n], ks[n..]);
  }

  lemma ReduceSnoc(ks: seq<Kind>, k: Kind)
    requires Reduce(ks + [k]).Ok?
    ensures Reduce(ks).Ok? && Apply(Reduce(ks).value, k) == Reduce(ks + [k])
  {
    ReduceConcat(Initial, ks, [k]);
  }

  /** A verdict is present exactly when the run is sealed. */
  lemma {:induction false} VerdictIffSealed(ks: seq<Kind>)
    requires Reduce(ks).Ok?
    ensures Reduce(ks).value.verdict.Some? <==> Reduce(ks).value.phase.Sealed?
    decreases |ks|
  {
    if ks != [] {
      var init, k := ks[..|ks| - 1], ks[|ks| - 1];
      assert ks == init + [k];
      ReduceSnoc(init, k);
      VerdictIffSealed(init);
    }
  }

  /** Nothing follows a seal, so a sealed prefix of an accepted stream is the whole stream. */
  lemma SealedPrefixIsWhole(ks: seq<Kind>, n: nat)
    requires n <= |ks| && Reduce(ks).Ok?
    requires Reduce(ks[..n]).Ok? && Reduce(ks[..n]).value.verdict.Some?
    ensures n == |ks|
  {
    PrefixAccepted(ks, n);
    VerdictIffSealed(ks[..n]);
  }

  // ---------------------------------------------------------------- dispatch boundary

  /** How far an unsealed record got past the durable dispatch boundary. */
  datatype Progress = NoDispatch | AtAgentStarted | AtAgentExited | AtSessionCaptured | AtPostProvider

  function DispatchProgress(s: RunState): (p: Progress)
  {
    if s.patch.Some? || s.gates != map[] then AtPostProvider
    else if s.session.Some? then AtSessionCaptured
    else if s.agent.Exited? then AtAgentExited
    else if s.agent.Started? then AtAgentStarted
    else NoDispatch
  }

  function Rank(p: Progress): nat
  {
    match p
    case NoDispatch => 0
    case AtAgentStarted => 1
    case AtAgentExited => 2
    case AtSessionCaptured => 3
    case AtPostProvider => 4
  }

  /** The kinds whose presence counts as dispatch evidence. */
  predicate DispatchEvidence(k: Kind) {
    k.AgentStarted? || k.AgentExited? || k.PatchCaptured? || k.GateStarted? || k.ProviderSessionCaptured?
  }

  /**
   On every stream the reducer accepts, the classifier says "not dispatched" exactly
   when no evidence kind occurs. In particular an `AgentStarted` is never missed.
   */
  lemma {:induction false} DispatchProgressExact(ks: seq<Kind>)
    requires Reduce(ks).Ok?
    ensures DispatchProgress(Reduce(ks).value) == NoDispatch <==>
            forall i :: 0 <= i < |ks| ==> !DispatchEvidence(ks[i])
    decreases |ks|
  {
    if ks != [] {
      var init, k := ks[..|ks| - 1], ks[|ks| - 1];
      assert ks == init + [k];
      ReduceSnoc(init, k);
      DispatchProgressExact(init);
      ApplyProgress(Reduce(init).value, k);
      hide Apply, ReduceFrom, DispatchProgress, DispatchEvidence;
      assert forall i :: 0 <= i < |init| ==> ks[i] == init[i];
    }
  }

  /** One accepted event leaves the run undispatched exactly if it was and the event is no evidence. */
  lemma ApplyProgress(s: RunState, k: Kind)
    requires Apply(s, k).Ok?
    ensures DispatchProgress(Apply(s, k).value) == NoDispatch <==> DispatchProgress(s) == NoDispatch && !DispatchEvidence(k)
  {
    if k.GateStarted? || k.GateFinished? {
      assert k.gate in Apply(s, k).value.gates;
    }
  }

  // Which kinds a stream holds.
  ghost predicate HasAgentStarted(ks: seq<Kind>) { exists k :: k in ks && k.AgentStarted? }
  ghost predicate HasAgentExited(ks: seq<Kind>) { exists k :: k in ks && k.AgentExited? }
  ghost predicate HasSession(ks: seq<Kind>) { exists k :: k in ks && k.ProviderSessionCaptured? }
  ghost predicate HasPatch(ks: seq<Kind>) { exists k :: k in ks && k.PatchCaptured? }
  ghost predicate HasGate(ks: seq<Kind>) { exists k :: k in ks && k.GateStarted? }
  ghost predicate HasSeal(ks: seq<Kind>) { RunSealed in ks }

  /** The reduced state shows exactly which of the kinds that matter for recovery occurred. */
  ghost predicate Shows(s: RunState, ks: seq<Kind>) {
    && (s.patch.Some? <==> HasPatch(ks)) && (s.gates != map[] <==> HasGate(ks)) && (s.session.Some? <==> HasSession(ks))
    && (s.agent.Exited? <==> HasAgentExited(ks)) && (s.agent.Started? <==> HasAgentStarted(ks) && !HasAgentExited(ks))
    && (s.phase.Sealed? <==> HasSeal(ks)) && (s.verdict.Some? <==> HasSeal(ks))
  }

  lemma HasSnoc(ks: seq<Kind>, k: Kind)
    ensures HasPatch(ks + [k]) <==> HasPatch(ks) || k.PatchCaptured?
    ensures HasGate(ks + [k]) <==> HasGate(ks) || k.GateStarted?
    ensures HasSession(ks + [k]) <==> HasSession(ks) || k.ProviderSessionCaptured?
    ensures HasAgentExited(ks + [k]) <==> HasAgentExited(ks) || k.AgentExited?
    ensures HasAgentStarted(ks + [k]) <==> HasAgentStarted(ks) || k.AgentStarted?
    ensures HasSeal(ks + [k]) <==> HasSeal(ks) || k.RunSealed?
  {
    assert forall x :: x in ks + [k] <==> x in ks || x == k;
    assert k in ks + [k];
  }

  lemma {:induction false} StateShowsKinds(ks: seq<Kind>)
    requires Reduce(ks).Ok?
    ensures Shows(Reduce(ks).value, ks)
    decreases |ks|
  {
    if ks != [] {
      var init, k := ks[..|ks| - 1], ks[|ks| - 1];
      assert ks == init + [k];
      ReduceSnoc(init, k);
      StateShowsKinds(init);
      HasSnoc(init, k);
      hide HasPatch, HasGate, HasSession, HasAgentExited, HasAgentStarted, HasSeal, ReduceFrom;
      ApplyShows(Reduce(init).value, k);
    }
  }

  lemma ApplyShows(s: RunState, k: Kind)
    requires Apply(s, k).Ok? && (s.verdict.Some? <==> s.phase.Sealed?)
    ensures var t := Apply(s, k).value;
            && (t.patch.Some? <==> s.patch.Some? || k.PatchCaptured?)
            && (t.gates != map[] <==> s.gates != map[] || k.GateStarted?)
            && (t.session.Some? <==> s.session.Some? || k.ProviderSessionCaptured?)
            && (t.agent.Exited? <==> s.agent.Exited? || k.AgentExited?)
            && (t.agent.Started? <==> (s.agent.Started? || k.AgentStarted?) && !k.AgentExited?)
            && (k.AgentStarted? ==> !s.agent.Exited?)
            && (t.phase.Sealed? <==> k.RunSealed?) && (t.verdict.Some? <==> k.RunSealed?) && !s.phase.Sealed?
  {
    if k.GateStarted? || k.GateFinished? {
      assert k.gate in Apply(s, k).value.gates;
    }
  }

  /** How far a stream got is read off the kinds it holds, the furthest first. */
  lemma ProgressExactly(ks: seq<Kind>)
    requires Reduce(ks).Ok?
    ensures var p := DispatchProgress(Reduce(ks).value);
            && (p == AtPostProvider <==> HasPatch(ks) || HasGate(ks))
            && (p == AtSessionCaptured <==> HasSession(ks) && !HasPatch(ks) && !HasGate(ks))
            && (p == AtAgentExited <==> HasAgentExited(ks) && !HasSession(ks) && !HasPatch(ks) && !HasGate(ks))
            && (p == AtAgentStarted <==> HasAgentStarted(ks) && !HasAgentExited(ks) && !HasSession(ks) && !HasPatch(ks) && !HasGate(ks))
  {
    StateShowsKinds(ks);
  }

  lemma ApplyMonotone(s: RunState, k: Kind)
    requires Apply(s, k).Ok?
    ensures Rank(DispatchProgress(s)) <= Rank(DispatchProgress(Apply(s, k).value))
  {
    if s.gates != map[] && (k.GateStarted? || k.GateFinished?) {
      assert k.gate in Apply(s, k).value.gates;
    }
  }

  /** Dispatch progress never goes backwards as a record grows. */
  lemma {:induction false} DispatchProgressMonotone(ks: seq<Kind>, n: nat)
    requires n <= |ks| && Reduce(ks).Ok?
    ensures Reduce(ks[..n]).Ok?
    ensures Rank(DispatchProgress(Reduce(ks[..n]).value)) <= Rank(DispatchProgress(Reduce(ks).value))
    decreases |ks|
  {
    PrefixAccepted(ks, n);
    if n < |ks| {
      var init, k := ks[..|ks| - 1], ks[|ks| - 1];
      assert ks == init + [k];
      ReduceSnoc(init, k);
      assert init[..n] == ks[..n];
      DispatchProgressMonotone(init, n);
      ApplyMonotone(Reduce(init).value, k);
    } else {
      assert ks[..n] == ks;
    }
  }

  // ---------------------------------------------------------------- what the reducer accepts

  ghost predicate HasWorktree(ks: seq<Kind>) { exists k :: k in ks && k.WorktreeCreated? }
  ghost predicate HasBinding(ks: seq<Kind>) { exists k :: k in ks && k.CommandBindingCaptured? }
  ghost predicate HasCandidate(ks: seq<Kind>) { exists k :: k in ks && k.CandidateStateCaptured? }
  ghost predicate HasMaterialized(ks: seq<Kind>) { exists k :: k in ks && k.CandidateStateMaterialized? }
  ghost predicate HasFinished(ks: seq<Kind>, gate: string) { exists k :: k in ks && k.GateFinished? && k.gate == gate }
  ghost predicate FinishedAs(ks: seq<Kind>, gate: string, o: GateOutcome) {
    exists k :: k in ks && k.GateFinished? && k.gate == gate && k.gateOutcome == o
  }

  /** A schema this version knows, distinct gates, and reasoned waivers for the run's own environment. */
  ghost predicate Openable(c: Contract) {
    && c.candidateSchema in {None, Some(1)}
    && (forall i, j :: 0 <= i < |c.gates| && 0 <= j < |c.gates| && c.gates[i].gate == c.gates[j].gate ==> i == j)
    && (forall o :: o in c.gates && o.applicability.Waived? ==>
          o.applicability.environment == c.environment && exists ch :: ch in o.applicability.reason && !IsWhitespace(ch))
  }

  ghost predicate Named(c: Contract, gate: string) { exists o :: o in c.gates && o.gate == gate }

  /** Which kind may come next, said of the kinds before it. */
  ghost predicate MayFollow(ks: seq<Kind>, k: Kind) {
    if k.RunStarted? then ks == [] && Openable(k.contract) && k.task.locator != ""
    else
      && ks != [] && ks[0].RunStarted? && RunSealed !in ks
      && var c := ks[0].contract;
      match k
      case WorktreeCreated(w) => w.locator != "" && !HasWorktree(ks)
      case PatchCaptured(p) => p.locator != "" && !HasPatch(ks)
      case AgentStarted =>
        c.agentRequired && !HasAgentStarted(ks) && !HasAgentExited(ks)
        && (c.candidateSchema.Some? && HasBinding(ks) ==> HasMaterialized(ks))
      case AgentExited(o) => c.agentRequired && !HasAgentExited(ks) && (HasAgentStarted(ks) || o.FailedToStart?)
      case GateStarted(g) => Named(c, g) && GateStarted(g) !in ks
      case GateFinished(g, _, log) =>
        Named(c, g) && GateStarted(g) in ks && !HasFinished(ks, g) && (log.Some? ==> log.value.locator != "")
      case ProviderSessionCaptured(a) => a.locator != "" && !HasSession(ks)
      case CommandBindingCaptured(a) => a.locator != "" && !HasBinding(ks)
      case CandidateStateCaptured(a) =>
        a.locator != "" && !HasCandidate(ks) && HasPatch(ks) && (c.agentRequired ==> HasAgentExited(ks))
      case CandidateStateMaterialized(a, p) =>
        a.locator != "" && p.locator != "" && !HasMaterialized(ks) && HasBinding(ks) && !HasAgentStarted(ks) && !HasAgentExited(ks)
      case RunSealed => true
  }

  lemma ContractsAgree(c: Contract)
    ensures ValidContract(c) <==> Openable(c)
    ensures forall g :: Declares(c, g) <==> Named(c, g)
  {
    forall g ensures Declares(c, g) <==> Named(c, g) {
      assert forall i :: 0 <= i < |c.gates| ==> c.gates[i] in c.gates;
    }
    forall o | o in c.gates && o.applicability.Waived?
      ensures Blank(o.applicability.reason) <==> forall ch :: ch in o.applicability.reason ==> IsWhitespace(ch)
    {
      assert forall i :: 0 <= i < |o.applicability.reason| ==> o.applicability.reason[i] in o.applicability.reason;
    }
    assert forall i :: 0 <= i < |c.gates| ==> c.gates[i] in c.gates;
    hide IsWhitespace, Blank, Declares, Named;
  }

  /** The state holds exactly the contract and the receipts of the stream. */
  ghost predicate RemembersMarks(s: RunState, ks: seq<Kind>) {
    && (ks == [] ==> s == Initial)
    && (ks != [] ==> ks[0].RunStarted? && s.contract == Some(ks[0].contract) && !s.phase.NotStarted?)
    && (s.worktree.Some? <==> HasWorktree(ks)) && (s.binding.Some? <==> HasBinding(ks))
    && (s.candidate.Some? <==> HasCandidate(ks)) && (s.materialized.Some? <==> HasMaterialized(ks))
  }

  /** The state holds exactly the agent's end and the gates of the stream. */
  ghost predicate RemembersGates(s: RunState, ks: seq<Kind>) {
    && (forall o :: s.agent == Exited(o) <==> AgentExited(o) in ks)
    && (forall g :: g in s.gates <==> GateStarted(g) in ks)
    && (forall g :: g in s.gates && s.gates[g].Finished? <==> HasFinished(ks, g))
    && (forall g, o :: g in s.gates && s.gates[g] == Finished(o) <==> FinishedAs(ks, g, o))
  }

  ghost predicate Remembers(s: RunState, ks: seq<Kind>) { RemembersMarks(s, ks) && RemembersGates(s, ks) }

  lemma MoreSnoc(ks: seq<Kind>, k: Kind)
    ensures HasWorktree(ks + [k]) <==> HasWorktree(ks) || k.WorktreeCreated?
    ensures HasBinding(ks + [k]) <==> HasBinding(ks) || k.CommandBindingCaptured?
    ensures HasCandidate(ks + [k]) <==> HasCandidate(ks) || k.CandidateStateCaptured?
    ensures HasMaterialized(ks + [k]) <==> HasMaterialized(ks) || k.CandidateStateMaterialized?
    ensures forall g :: HasFinished(ks + [k], g) <==> HasFinished(ks, g) || (k.GateFinished? && k.gate == g)
    ensures forall g, o :: FinishedAs(ks + [k], g, o) <==> FinishedAs(ks, g, o) || (k.GateFinished? && k.gate == g && k.gateOutcome == o)
    ensures forall x :: x in ks + [k] <==> x in ks || x == k
  {
    assert forall x :: x in ks + [k] <==> x in ks || x == k;
    assert k in ks + [k];
  }

  lemma ApplyRemembersMarks(s: RunState, k: Kind)
    requires Apply(s, k).Ok?
    ensures var t := Apply(s, k).value;
            && (t.worktree.Some? <==> s.worktree.Some? || k.WorktreeCreated?)
            && (t.binding.Some? <==> s.binding.Some? || k.CommandBindingCaptured?)
            && (t.candidate.Some? <==> s.candidate.Some? || k.CandidateStateCaptured?)
            && (t.materialized.Some? <==> s.materialized.Some? || k.CandidateStateMaterialized?)
            && !t.phase.NotStarted?
            && (k.RunStarted? <==> s.phase.NotStarted?)
            && t.contract == (if k.RunStarted? then Some(k.contract) else s.contract)
  {
  }

  lemma ApplyRemembersRest(s: RunState, k: Kind)
    requires Apply(s, k).Ok?
    ensures var t := Apply(s, k).value;
            && (forall o :: t.agent == Exited(o) <==> s.agent == Exited(o) || k == AgentExited(o))
            && (forall g :: g in t.gates <==> g in s.gates || k == GateStarted(g))
            && (forall g :: g in t.gates && t.gates[g].Finished? <==> (g in s.gates && s.gates[g].Finished?) || (k.GateFinished? && k.gate == g))
            && (forall g, o :: g in t.gates && t.gates[g] == Finished(o) <==>
                  (g in s.gates && s.gates[g] == Finished(o)) || (k.GateFinished? && k.gate == g && k.gateOutcome == o))
  {
  }

  lemma {:induction false} StateRemembers(ks: seq<Kind>)
    requires Reduce(ks).Ok?
    ensures Remembers(Reduce(ks).value, ks)
    decreases |ks|
  {
    if ks != [] {
      var init, k := ks[..|ks| - 1], ks[|ks| - 1];
      assert ks == init + [k];
      ReduceSnoc(init, k);
      StateRemembers(init);
      MarksStep(Reduce(init).value, init, k);
      GatesStep(Reduce(init).value, init, k);
      hide RemembersMarks, RemembersGates, Apply, ReduceFrom;
    }
  }

  lemma MarksStep(s: RunState, ks: seq<Kind>, k: Kind)
    requires RemembersMarks(s, ks) && Apply(s, k).Ok?
    ensures RemembersMarks(Apply(s, k).value, ks + [k])
  {
    MoreSnoc(ks, k);
    ApplyRemembersMarks(s, k);
    hide HasWorktree, HasBinding, HasCandidate, HasMaterialized, Apply;
  }

  lemma GatesStep(s: RunState, ks: seq<Kind>, k: Kind)
    requires RemembersGates(s, ks) && Apply(s, k).Ok?
    ensures RemembersGates(Apply(s, k).value, ks + [k])
  {
    MoreSnoc(ks, k);
    ApplyRemembersRest(s, k);
    hide HasFinished, FinishedAs, Apply;
  }

  lemma ApplyExactly(s: RunState, ks: seq<Kind>, k: Kind)
    requires Shows(s, ks) && Remembers(s, ks)
    ensures Apply(s, k).Ok? <==> MayFollow(ks, k)
  {
    if k.RunStarted? {
      ContractsAgree(k.contract);
    } else if ks != [] {
      ContractsAgree(ks[0].contract);
    }
    hide HasPatch, HasGate, HasSession, HasAgentStarted, HasWorktree, HasBinding, HasCandidate, HasMaterialized, HasFinished, FinishedAs;
    hide ValidContract, Openable, Declares, Named;
  }

  /** The reducer accepts exactly the streams in which every kind may follow those before it. */
  lemma {:induction false} AcceptedExactly(ks: seq<Kind>)
    ensures Reduce(ks).Ok? <==> forall i :: 0 <= i < |ks| ==> MayFollow(ks[..i], ks[i])
    decreases |ks|
  {
    if ks != [] {
      var n := |ks| - 1;
      var init, k := ks[..n], ks[n];
      AcceptedExactly(init);
      ReduceConcat(Initial, init, [k]);
      assert ks == init + [k];
      assert forall i :: 0 <= i < n ==> init[..i] == ks[..i];
      if Reduce(init).Ok? {
        StateShowsKinds(init);
        StateRemembers(init);
        ApplyExactly(Reduce(init).value, init, k);
      }
      hide MayFollow, Apply;
    }
  }

  // ---------------------------------------------------------------- what a verdict means

  /** A required gate that has to run, under the contract the stream opened with. */
  predicate MustRun(c: Contract, o: GateObligation) { o in c.gates && o.required && o.applicability.Applicable? }

  /** The agent did not end cleanly, or a required gate is unfinished or ended in an error. */
  ghost predicate Erring(c: Contract, ks: seq<Kind>) {
    || (c.agentRequired && AgentExited(ExitedNormally(0)) !in ks)
    || exists o :: MustRun(c, o) && GateStarted(o.gate) in ks && (!HasFinished(ks, o.gate) || FinishedAs(ks, o.gate, GateError))
  }

  ghost predicate Failing(c: Contract, ks: seq<Kind>) { exists o :: MustRun(c, o) && FinishedAs(ks, o.gate, GateFail) }

  /** The candidate the contract asks for is missing, or a required gate never ran. */
  ghost predicate Blocking(c: Contract, ks: seq<Kind>) {
    || (c.candidateSchema.Some? && !HasCandidate(ks))
    || exists o :: MustRun(c, o) && (GateStarted(o.gate) !in ks || FinishedAs(ks, o.gate, GateBlocked) || FinishedAs(ks, o.gate, GateNotApplicable))
  }

  /**
   The verdict of a sealed stream, said of the kinds it holds: what makes it an error, then
   a failure, then blocked, and otherwise PASS.
   */
  lemma VerdictExactly(ks: seq<Kind>)
    requires Reduce(ks).Ok? && RunSealed in ks
    ensures ks[0].RunStarted? && Reduce(ks).value.verdict.Some?
    ensures var c, v := ks[0].contract, Reduce(ks).value.verdict.value;
            && (v == Error <==> Erring(c, ks))
            && (v == Fail <==> !Erring(c, ks) && Failing(c, ks))
            && (v == Blocked <==> !Erring(c, ks) && !Failing(c, ks) && Blocking(c, ks))
            && (v == Pass <==> !Erring(c, ks) && !Failing(c, ks) && !Blocking(c, ks))
  {
    SealIsLast(ks);
    var init := ks[..|ks| - 1];
    assert ks == init + [RunSealed];
    ReduceSnoc(init, RunSealed);
    StateRemembers(init);
    var s, c := Reduce(init).value, ks[0].contract;
    assert init[0] == ks[0];
    assert Reduce(ks).value.verdict == Some(ComputeVerdict(s, c));
    SealRemembers(s, init);
    ComputedExactly(s, ks, c);
    hide Reduce, ComputeVerdict, Erring, Failing, Blocking;
  }

  lemma ComputedExactly(s: RunState, ks: seq<Kind>, c: Contract)
    requires RemembersGates(s, ks) && (s.candidate.Some? <==> HasCandidate(ks))
    ensures var v := ComputeVerdict(s, c);
            && (v == Error <==> Erring(c, ks))
            && (v == Fail <==> !Erring(c, ks) && Failing(c, ks))
            && (v == Blocked <==> !Erring(c, ks) && !Failing(c, ks) && Blocking(c, ks))
  {
    GatesDecide(s, ks, c);
    hide HasFinished, FinishedAs, HasCandidate, GateErrs, GateFails, GateIsBlocked, MustRun;
  }

  lemma SealRemembers(s: RunState, ks: seq<Kind>)
    requires Remembers(s, ks)
    ensures RemembersGates(s, ks + [RunSealed]) && (s.candidate.Some? <==> HasCandidate(ks + [RunSealed]))
  {
    MoreSnoc(ks, RunSealed);
    hide HasFinished, FinishedAs, HasCandidate;
  }

  /** The three scans over the obligations, said of the kinds. */
  lemma GatesDecide(s: RunState, ks: seq<Kind>, c: Contract)
    requires RemembersGates(s, ks)
    ensures (exists i :: 0 <= i < |c.gates| && GateErrs(s, c.gates[i])) <==>
            exists o :: MustRun(c, o) && GateStarted(o.gate) in ks && (!HasFinished(ks, o.gate) || FinishedAs(ks, o.gate, GateError))
    ensures (exists i :: 0 <= i < |c.gates| && GateFails(s, c.gates[i])) <==> exists o :: MustRun(c, o) && FinishedAs(ks, o.gate, GateFail)
    ensures (exists i :: 0 <= i < |c.gates| && GateIsBlocked(s, c.gates[i])) <==>
            exists o :: MustRun(c, o) && (GateStarted(o.gate) !in ks || FinishedAs(ks, o.gate, GateBlocked) || FinishedAs(ks, o.gate, GateNotApplicable))
  {
    hide HasFinished, FinishedAs;
    assert forall i :: 0 <= i < |c.gates| ==> c.gates[i] in c.gates;
  }

  /** The seal of an accepted stream is its last event. */
  lemma SealIsLast(ks: seq<Kind>)
    requires Reduce(ks).Ok? && RunSealed in ks
    ensures ks[|ks| - 1] == RunSealed && RunSealed !in ks[..|ks| - 1] && |ks| > 1
  {
    var i :| 0 <= i < |ks| && ks[i] == RunSealed;
    AcceptedExactly(ks);
    hide Reduce;
    assert forall j :: i < j < |ks| ==> ks[..j][i] == RunSealed;
    assert MayFollow(ks[..i], ks[i]);
  }
}
