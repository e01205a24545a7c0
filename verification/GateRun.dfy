/**
 Gate manifests, their execution and the canonical streams built from it (`src/gate.rs`,
 `src/verdict.rs`, `src/events.rs`, the live loop of `src/main.rs`). The outcome of each
 command is a parameter; log files live in a record directory that runs write and read.
 */
module GateRun {
  import opened Base
  import R = Reducer

  datatype StepDef = StepDef(name: string, required: bool, env: Option<string>, waiveReason: Option<string>)

  /** What running a step's command produces: an exit with output, or a failure to spawn. */
  datatype Outcome = Exited(success: bool, code: Option<int>, output: Bytes) | SpawnFailed(message: Bytes)

  datatype Verdict = Pass | Fail | Error | Warn | Blocked | NotApplicable

  datatype StepVerdict = StepVerdict(name: string, required: bool, verdict: Verdict, exitCode: Option<int>, log: string, waived: Option<string>)

  datatype ManifestError = BlankName | DuplicateName | LogCollision

  const WINDOWS := "windows"
  const RUNNER_ENVIRONMENT := "linux"

  predicate IsPlain(c: char) {
    'a' <= c <= 'z' || 'A' <= c <= 'Z' || '0' <= c <= '9' || c == '-' || c == '_'
  }

  function Sanitize(s: string): string {
    seq(|s|, i requires 0 <= i < |s| => if IsPlain(s[i]) then s[i] else '-')
  }

  function LogName(step: StepDef): string { "gate/" + Sanitize(step.name) + ".log" }

  predicate Skipped(step: StepDef) { step.env == Some(WINDOWS) }

  predicate HasWaiver(step: StepDef) { step.waiveReason.Some? && !R.Blank(step.waiveReason.value) }

  // ---------------------------------------------------------------- validation

  ghost predicate ValidManifest(steps: seq<StepDef>) {
    && (forall i :: 0 <= i < |steps| ==> !R.Blank(steps[i].name))
    && (forall i, j :: 0 <= i < j < |steps| ==> steps[i].name != steps[j].name && Sanitize(steps[i].name) != Sanitize(steps[j].name))
  }

  method Validate(steps: seq<StepDef>) returns (r: Result<(), ManifestError>)
    ensures r.Ok? <==> ValidManifest(steps)
  {
    hide Sanitize, R.Blank;
    var names: set<string> := {};
    var logs: map<string, string> := map[];
    for i := 0 to |steps|
      invariant ValidManifest(steps[..i])
      invariant forall x :: x in names <==> exists j :: 0 <= j < i && steps[j].name == x
      invariant forall x :: x in logs <==> exists j :: 0 <= j < i && Sanitize(steps[j].name) == x
    {
      var step := steps[i];
      if R.Blank(step.name) {
        return Err(BlankName);
      }
      if step.name in names {
        return Err(DuplicateName);
      }
      names := names + {step.name};
      var log := Sanitize(step.name);
      if log in logs {
        return Err(LogCollision);
      }
      logs := logs[log := step.name];
    }
    assert steps[..|steps|] == steps;
    r := Ok(());
  }

  lemma LogNamesDistinct(steps: seq<StepDef>, i: nat, j: nat)
    requires ValidManifest(steps) && i < j < |steps|
    ensures LogName(steps[i]) != LogName(steps[j])
  {
    hide R.Blank;
    var a, b := Sanitize(steps[i].name), Sanitize(steps[j].name);
    hide Sanitize;
    assert ("gate/" + a + ".log")[5..5 + |a|] == a && ("gate/" + b + ".log")[5..5 + |b|] == b;
  }

  // ---------------------------------------------------------------- execution

  function OutputOf(o: Outcome): Bytes { if o.Exited? then o.output else o.message }

  function ExecutedVerdict(o: Outcome): Verdict {
    match o
    case SpawnFailed(_) => Error
    case Exited(success, _, _) => if success then Pass else Fail
  }

  // What a step's command did, for a step that is run at all.
  predicate Passed(step: StepDef, o: Outcome) { !Skipped(step) && o.Exited? && o.success }
  predicate Failed(step: StepDef, o: Outcome) { !Skipped(step) && o.Exited? && !o.success }
  predicate Unspawned(step: StepDef, o: Outcome) { !Skipped(step) && o.SpawnFailed? }

  /** The result of a step, said of its definition and of what its command did. */
  function StepResult(step: StepDef, o: Outcome): StepVerdict {
    StepVerdict(
      step.name, step.required,
      if Passed(step, o) then Pass else if Failed(step, o) then Fail else if Unspawned(step, o) then Error
      else if HasWaiver(step) then NotApplicable else Blocked,
      if Skipped(step) || o.SpawnFailed? then None else o.code,
      if Skipped(step) then "" else LogName(step),
      if Skipped(step) && HasWaiver(step) then step.waiveReason else None)
  }

  /** The run's record directory. */
  class RecordDir {
    var files: map<string, Bytes>

    constructor ()
      ensures files == map[]
    {
      files := map[];
    }

    method RunOneStep(step: StepDef, o: Outcome) returns (v: StepVerdict)
      modifies this
      ensures v == StepResult(step, o)
      ensures v.verdict == Pass <==> !Skipped(step) && o.Exited? && o.success
      ensures v.verdict == Fail <==> !Skipped(step) && o.Exited? && !o.success
      ensures v.verdict == Error <==> !Skipped(step) && o.SpawnFailed?
      ensures v.verdict == NotApplicable <==> Skipped(step) && HasWaiver(step)
      ensures files == if Skipped(step) then old(files) else old(files)[LogName(step) := OutputOf(o)]
    {
      if step.env == Some(WINDOWS) {
        if step.waiveReason.Some? && !R.Blank(step.waiveReason.value) {
          return StepVerdict(step.name, step.required, NotApplicable, None, "", step.waiveReason);
        }
        return StepVerdict(step.name, step.required, Blocked, None, "", None);
      }
      var output := match o case Exited(_, _, bytes) => bytes case SpawnFailed(message) => message;
      files := files[LogName(step) := output];
      v := StepVerdict(step.name, step.required, ExecutedVerdict(o), if o.Exited? then o.code else None, LogName(step), None);
    }
  }

  // ---------------------------------------------------------------- event streams

  function GateOutcomeOf(v: Verdict): R.GateOutcome {
    match v
    case Pass => R.GatePass
    case Fail => R.GateFail
    case Warn => R.GateWarn
    case Blocked => R.GateBlocked
    case NotApplicable => R.GateNotApplicable
    case Error => R.GateError
  }

  /** What is reported of an executed step. */
  function Reported(o: Outcome): R.GateOutcome {
    if o.SpawnFailed? then R.GateError else if o.success then R.GatePass else R.GateFail
  }

  /** The two events of an executed step, with its own output as the log. */
  function StepEvents(hash: Bytes -> Digest, step: StepDef, o: Outcome): seq<R.Kind> {
    if Skipped(step) then []
    else [R.GateStarted(step.name),
          R.GateFinished(step.name, Reported(o), Some(R.Artifact(LogName(step), hash(OutputOf(o)))))]
  }

  function GateEvents(hash: Bytes -> Digest, steps: seq<StepDef>, os: seq<Outcome>): seq<R.Kind>
    requires |steps| == |os|
    decreases |steps|
  {
    if steps == [] then []
    else
      var n := |steps| - 1;
      GateEvents(hash, steps[..n], os[..n]) + StepEvents(hash, steps[n], os[n])
  }

  /** Every executed step so far has its own output under its own log name. */
  ghost predicate LogsHeld(files: map<string, Bytes>, steps: seq<StepDef>, os: seq<Outcome>)
    requires |steps| == |os|
  {
    forall i :: 0 <= i < |steps| && !Skipped(steps[i]) ==> LogName(steps[i]) in files && files[LogName(steps[i])] == OutputOf(os[i])
  }

  /** One live step: announce, run, read the log back at once, report; a skipped step is silent. */
  method LiveStep(hash: Bytes -> Digest, dir: RecordDir, step: StepDef, o: Outcome) returns (events: seq<R.Kind>, v: StepVerdict)
    modifies dir
    ensures events == StepEvents(hash, step, o) && v == StepResult(step, o)
  {
    hide LogName, R.Blank;
    if step.env == Some(WINDOWS) {
      v := dir.RunOneStep(step, o);
      return [], v;
    }
    events := [R.GateStarted(step.name)];
    v := dir.RunOneStep(step, o);
    LogNamesNonEmpty(step);
    var log := if v.log == "" then None else Some(R.Artifact(v.log, hash(dir.files[v.log])));
    events := events + [R.GateFinished(step.name, GateOutcomeOf(v.verdict), log)];
  }

  /** The live loop. */
  method LiveGates(hash: Bytes -> Digest, dir: RecordDir, steps: seq<StepDef>, os: seq<Outcome>)
    returns (events: seq<R.Kind>, results: seq<StepVerdict>)
    requires |steps| == |os|
    modifies dir
    ensures events == GateEvents(hash, steps, os)
    ensures |results| == |steps| && forall i :: 0 <= i < |steps| ==> results[i] == StepResult(steps[i], os[i])
  {
    hide StepEvents, StepResult;
    events, results := [], [];
    for i := 0 to |steps|
      invariant events == GateEvents(hash, steps[..i], os[..i])
      invariant |results| == i && forall j :: 0 <= j < i ==> results[j] == StepResult(steps[j], os[j])
    {
      assert steps[..i + 1][..i] == steps[..i] && os[..i + 1][..i] == os[..i];
      var reported, v := LiveStep(hash, dir, steps[i], os[i]);
      events := events + reported;
      results := results + [v];
    }
    assert steps[..|steps|] == steps && os[..|os|] == os;
  }

  /** The files a batch run leaves: a later step with the same log name overwrites. */
  function FilesAfter(files: map<string, Bytes>, steps: seq<StepDef>, os: seq<Outcome>): map<string, Bytes>
    requires |steps| == |os|
    decreases |steps|
  {
    if steps == [] then files
    else
      var n := |steps| - 1;
      var before := FilesAfter(files, steps[..n], os[..n]);
      if Skipped(steps[n]) then before else before[LogName(steps[n]) := OutputOf(os[n])]
  }

  /** The batch form: run every step first, collecting the results. */
  method RunManifest(dir: RecordDir, steps: seq<StepDef>, os: seq<Outcome>) returns (results: seq<StepVerdict>)
    requires |steps| == |os|
    modifies dir
    ensures |results| == |steps| && forall i :: 0 <= i < |steps| ==> results[i] == StepResult(steps[i], os[i])
    ensures dir.files == FilesAfter(old(dir.files), steps, os)
  {
    hide LogName, StepResult;
    results := [];
    for i := 0 to |steps|
      invariant |results| == i && forall j :: 0 <= j < i ==> results[j] == StepResult(steps[j], os[j])
      invariant dir.files == FilesAfter(old(dir.files), steps[..i], os[..i])
    {
      assert steps[..i + 1][..i] == steps[..i] && os[..i + 1][..i] == os[..i];
      var v := dir.RunOneStep(steps[i], os[i]);
      results := results + [v];
    }
    assert steps[..|steps|] == steps && os[..|os|] == os;
  }

  /** Two executed steps never leave different bytes under one log name. */
  ghost predicate NoOverwrite(steps: seq<StepDef>, os: seq<Outcome>)
    requires |steps| == |os|
  {
    forall i, j :: 0 <= i < j < |steps| && !Skipped(steps[i]) && !Skipped(steps[j]) && LogName(steps[i]) == LogName(steps[j])
      ==> OutputOf(os[i]) == OutputOf(os[j])
  }

  /** The evidence of every step survives the whole batch exactly when no log is overwritten. */
  lemma {:induction false} EvidenceSurvivesExactly(files: map<string, Bytes>, steps: seq<StepDef>, os: seq<Outcome>)
    requires |steps| == |os|
    ensures LogsHeld(FilesAfter(files, steps, os), steps, os) <==> NoOverwrite(steps, os)
    decreases |steps|
  {
    hide LogName;
    if steps != [] {
      var n := |steps| - 1;
      EvidenceSurvivesExactly(files, steps[..n], os[..n]);
      var before, after := FilesAfter(files, steps[..n], os[..n]), FilesAfter(files, steps, os);
      if LogsHeld(after, steps, os) {
        forall i, j | 0 <= i < j < |steps| && !Skipped(steps[i]) && !Skipped(steps[j]) && LogName(steps[i]) == LogName(steps[j])
          ensures OutputOf(os[i]) == OutputOf(os[j])
        {
          assert after[LogName(steps[i])] == OutputOf(os[i]) && after[LogName(steps[j])] == OutputOf(os[j]);
        }
      }
      if NoOverwrite(steps, os) {
        assert NoOverwrite(steps[..n], os[..n]);
        forall i | 0 <= i < |steps| && !Skipped(steps[i]) ensures LogName(steps[i]) in after && after[LogName(steps[i])] == OutputOf(os[i]) {
          if i < n {
            assert LogName(steps[i]) in before && before[LogName(steps[..n][i])] == OutputOf(os[..n][i]);
          }
        }
      }
    }
  }

  lemma ValidMeansNoOverwrite(steps: seq<StepDef>, os: seq<Outcome>)
    requires |steps| == |os| && ValidManifest(steps)
    ensures NoOverwrite(steps, os)
  {
    hide LogName;
    forall i, j | 0 <= i < j < |steps| ensures LogName(steps[i]) != LogName(steps[j]) {
      LogNamesDistinct(steps, i, j);
    }
  }

  /** The gate events built afterwards from the results, reading every log back then. */
  method BatchGates(hash: Bytes -> Digest, files: map<string, Bytes>, results: seq<StepVerdict>, ghost steps: seq<StepDef>, ghost os: seq<Outcome>)
    returns (r: Option<seq<R.Kind>>)
    requires |steps| == |os| == |results| && forall i :: 0 <= i < |steps| ==> results[i] == StepResult(steps[i], os[i])
    ensures LogsHeld(files, steps, os) ==> r == Some(GateEvents(hash, steps, os))
  {
    hide LogName;
    var events: seq<R.Kind> := [];
    for i := 0 to |results|
      invariant LogsHeld(files, steps, os) ==> events == GateEvents(hash, steps[..i], os[..i])
    {
      var step := results[i];
      assert steps[..i + 1][..i] == steps[..i] && os[..i + 1][..i] == os[..i];
      LogNamesNonEmpty(steps[i]);
      if step.verdict != Blocked && step.verdict != NotApplicable {
        var log: Option<R.Artifact> := None;
        if step.log != "" {
          if step.log !in files {
            return None;
          }
          log := Some(R.Artifact(step.log, hash(files[step.log])));
        }
        events := events + [R.GateStarted(step.name), R.GateFinished(step.name, GateOutcomeOf(step.verdict), log)];
      }
    }
    assert steps[..|results|] == steps && os[..|results|] == os;
    r := Some(events);
  }

  /** The whole batch path: validate, run everything, then build the events from what is left on disk. */
  method BatchRun(hash: Bytes -> Digest, dir: RecordDir, steps: seq<StepDef>, os: seq<Outcome>)
    returns (r: Option<seq<R.Kind>>, results: seq<StepVerdict>)
    requires |steps| == |os|
    modifies dir
    ensures r.Some? <==> ValidManifest(steps)
    ensures r.Some? ==> r.value == GateEvents(hash, steps, os) && results == Results(steps, os)
    ensures r.None? ==> dir.files == old(dir.files)
  {
    var valid := Validate(steps);
    if valid.Err? {
      return None, [];
    }
    ghost var before := dir.files;
    results := RunManifest(dir, steps, os);
    ValidMeansNoOverwrite(steps, os);
    EvidenceSurvivesExactly(before, steps, os);
    r := BatchGates(hash, dir.files, results, steps, os);
    hide ValidManifest, StepResult, NoOverwrite, LogsHeld, FilesAfter;
    assert results == Results(steps, os);
  }

  lemma LogNamesNonEmpty(step: StepDef)
    ensures LogName(step) != ""
  {
  }

  // ---------------------------------------------------------------- contract and streams

  function ObligationOf(step: StepDef): R.GateObligation {
    R.GateObligation(step.name, step.required,
      if Skipped(step) && HasWaiver(step) then R.Waived(RUNNER_ENVIRONMENT, step.waiveReason.value) else R.Applicable)
  }

  function ContractOf(steps: seq<StepDef>, candidateSchema: Option<nat>): R.Contract {
    R.Contract(seq(|steps|, i requires 0 <= i < |steps| => ObligationOf(steps[i])), true, RUNNER_ENVIRONMENT, candidateSchema)
  }

  method BuildContract(steps: seq<StepDef>) returns (r: Result<R.Contract, ManifestError>)
    ensures r.Ok? <==> ValidManifest(steps)
    ensures r.Ok? ==> r.value == ContractOf(steps, None)
  {
    var valid := Validate(steps);
    if valid.Err? {
      return Err(valid.error);
    }
    var gates: seq<R.GateObligation> := [];
    for i := 0 to |steps|
      invariant |gates| == i && forall j :: 0 <= j < i ==> gates[j] == ObligationOf(steps[j])
    {
      var step := steps[i];
      var applicability := R.Applicable;
      if step.env.Some? && step.waiveReason.Some? && step.env.value == WINDOWS && !R.Blank(step.waiveReason.value) {
        applicability := R.Waived(RUNNER_ENVIRONMENT, step.waiveReason.value);
      }
      gates := gates + [R.GateObligation(step.name, step.required, applicability)];
    }
    assert gates == ContractOf(steps, None).gates;
    r := Ok(R.Contract(gates, true, RUNNER_ENVIRONMENT, None));
  }

  /** The contract waives a step exactly when running it records it as not applicable. */
  lemma WaivedExactlyWhenSkipped(step: StepDef, o: Outcome)
    ensures ObligationOf(step).applicability.Waived? <==> StepResult(step, o).verdict == NotApplicable
    ensures StepResult(step, o).verdict == NotApplicable <==> StepResult(step, o).waived.Some?
  {
  }

  function AgentOutcomeOf(exitCode: Option<int>): (o: R.AgentOutcome)
    ensures forall code :: o == R.ExitedNormally(code) <==> exitCode == Some(code)
    ensures !o.FailedToStart?
  {
    if exitCode.Some? then R.ExitedNormally(exitCode.value) else R.Faulted
  }

  /** The batch stream of `build_events`. */
  function BatchStream(hash: Bytes -> Digest, c: R.Contract, task: R.Artifact, exitCode: Option<int>, diff: R.Artifact,
                       steps: seq<StepDef>, os: seq<Outcome>): seq<R.Kind>
    requires |steps| == |os|
  {
    [R.RunStarted(c, task), R.AgentStarted, R.AgentExited(AgentOutcomeOf(exitCode))] + [R.PatchCaptured(diff)]
    + GateEvents(hash, steps, os) + [R.RunSealed]
  }

  /** The live stream, with the session and candidate receipts where they fall. */
  function LiveStream(hash: Bytes -> Digest, c: R.Contract, task: R.Artifact, exitCode: Option<int>, session: Option<R.Artifact>,
                      diff: R.Artifact, candidate: R.Artifact, steps: seq<StepDef>, os: seq<Outcome>): seq<R.Kind>
    requires |steps| == |os|
  {
    [R.RunStarted(c, task), R.AgentStarted, R.AgentExited(AgentOutcomeOf(exitCode))]
    + (if session.Some? then [R.ProviderSessionCaptured(session.value)] else [])
    + [R.PatchCaptured(diff), R.CandidateStateCaptured(candidate)]
    + GateEvents(hash, steps, os) + [R.RunSealed]
  }

  predicate LiveOnly(k: R.Kind) { k.ProviderSessionCaptured? || k.CandidateStateCaptured? }

  function Core(ks: seq<R.Kind>): seq<R.Kind>
    decreases |ks|
  {
    if ks == [] then [] else (if LiveOnly(ks[0]) then [] else [ks[0]]) + Core(ks[1..])
  }

  lemma {:induction false} CoreConcat(a: seq<R.Kind>, b: seq<R.Kind>)
    ensures Core(a + b) == Core(a) + Core(b)
    decreases |a|
  {
    if a == [] {
      assert a + b == b;
    } else {
      assert (a + b)[1..] == a[1..] + b;
      CoreConcat(a[1..], b);
    }
  }

  lemma {:induction false} CoreKeeps(ks: seq<R.Kind>)
    requires forall i :: 0 <= i < |ks| ==> !LiveOnly(ks[i])
    ensures Core(ks) == ks
    decreases |ks|
  {
    if ks != [] {
      CoreKeeps(ks[1..]);
    }
  }

  lemma {:induction false} GateEventsAreCore(hash: Bytes -> Digest, steps: seq<StepDef>, os: seq<Outcome>)
    requires |steps| == |os|
    ensures forall i :: 0 <= i < |GateEvents(hash, steps, os)| ==> !LiveOnly(GateEvents(hash, steps, os)[i])
    decreases |steps|
  {
    if steps != [] {
      GateEventsAreCore(hash, steps[..|steps| - 1], os[..|os| - 1]);
    }
  }

  /** Without its session and candidate events the live stream is the batch stream, event for event. */
  lemma LiveAgreesWithBatch(hash: Bytes -> Digest, c: R.Contract, task: R.Artifact, exitCode: Option<int>, session: Option<R.Artifact>,
                            diff: R.Artifact, candidate: R.Artifact, steps: seq<StepDef>, os: seq<Outcome>)
    requires |steps| == |os|
    ensures Core(LiveStream(hash, c, task, exitCode, session, diff, candidate, steps, os))
            == BatchStream(hash, c, task, exitCode, diff, steps, os)
  {
    var head := [R.RunStarted(c, task), R.AgentStarted, R.AgentExited(AgentOutcomeOf(exitCode))];
    var receipt := if session.Some? then [R.ProviderSessionCaptured(session.value)] else [];
    var gates := GateEvents(hash, steps, os);
    GateEventsAreCore(hash, steps, os);
    hide GateEvents, AgentOutcomeOf;
    CoreKeeps(head);
    CoreKeeps(gates);
    CoreOfLive(head, receipt, R.PatchCaptured(diff), R.CandidateStateCaptured(candidate), gates);
  }

  lemma CoreOfLive(head: seq<R.Kind>, receipt: seq<R.Kind>, patch: R.Kind, captured: R.Kind, gates: seq<R.Kind>)
    requires Core(head) == head && Core(gates) == gates && !LiveOnly(patch) && LiveOnly(captured)
    requires receipt == [] || (|receipt| == 1 && LiveOnly(receipt[0]))
    ensures Core(head + receipt + [patch, captured] + gates + [R.RunSealed]) == head + [patch] + gates + [R.RunSealed]
  {
    assert Core(receipt) == [];
    CoreKeeps([R.RunSealed]);
    assert [patch, captured][1..] == [captured] && [captured][1..] == [];
    assert Core([captured]) == [];
    assert Core([patch, captured]) == [patch];
    hide Core;
    CoreConcat(head, receipt);
    CoreConcat(head + receipt, [patch, captured]);
    CoreConcat(head + receipt + [patch, captured], gates);
    CoreConcat(head + receipt + [patch, captured] + gates, [R.RunSealed]);
    assert head + [] == head;
  }

  // ---------------------------------------------------------------- verdicts

  /** The ad-hoc reduction of step verdicts. */
  function ReduceSteps(results: seq<StepVerdict>): Verdict {
    if exists i :: 0 <= i < |results| && results[i].verdict == Error then Error
    else if exists i :: 0 <= i < |results| && results[i].required && results[i].verdict == Fail then Fail
    else if exists i :: 0 <= i < |results| && results[i].required && results[i].waived.None? && results[i].verdict in {Blocked, NotApplicable} then Blocked
    else Pass
  }

  function Results(steps: seq<StepDef>, os: seq<Outcome>): seq<StepVerdict>
    requires |steps| == |os|
  {
    seq(|steps|, i requires 0 <= i < |steps| => StepResult(steps[i], os[i]))
  }

  /**
   No false green, and no false red: the ad-hoc verdict, said of the manifest and of what
   its commands did. PASS exactly when nothing failed to spawn and every required step ran
   and succeeded, or was skipped under a reasoned waiver.
   */
  lemma PassExactly(steps: seq<StepDef>, os: seq<Outcome>)
    requires |steps| == |os|
    ensures var v := ReduceSteps(Results(steps, os));
            var unspawned := exists i :: 0 <= i < |steps| && !Skipped(steps[i]) && os[i].SpawnFailed?;
            var failed := exists i :: 0 <= i < |steps| && steps[i].required && !Skipped(steps[i]) && os[i].Exited? && !os[i].success;
            && (v == Error <==> unspawned)
            && (v == Fail <==> !unspawned && failed)
            && (v == Blocked <==> !unspawned && !failed && exists i :: 0 <= i < |steps| && steps[i].required && Skipped(steps[i]) && !HasWaiver(steps[i]))
            && (v == Pass <==>
                  && !unspawned
                  && forall i :: 0 <= i < |steps| && steps[i].required ==>
                       if Skipped(steps[i]) then HasWaiver(steps[i]) else os[i].Exited? && os[i].success)
  {
    hide LogName, R.Blank;
    var rs := Results(steps, os);
    forall i | 0 <= i < |steps|
      ensures rs[i].required == steps[i].required
      ensures rs[i].verdict == Error <==> !Skipped(steps[i]) && os[i].SpawnFailed?
      ensures rs[i].verdict == Fail <==> !Skipped(steps[i]) && os[i].Exited? && !os[i].success
      ensures (rs[i].waived.None? && rs[i].verdict in {Blocked, NotApplicable}) <==> Skipped(steps[i]) && !HasWaiver(steps[i])
    {
      assert rs[i] == StepResult(steps[i], os[i]);
    }
    assert |rs| == |steps|;
    hide Results, Skipped, HasWaiver;
  }

  /** What the canonical reducer must answer, said of the manifest and what its commands did. */
  function CanonicalVerdict(steps: seq<StepDef>, os: seq<Outcome>, exitCode: Option<int>): R.Verdict
    requires |steps| == |os|
  {
    if exitCode != Some(0) || exists i :: 0 <= i < |steps| && steps[i].required && Unspawned(steps[i], os[i]) then R.Error
    else if exists i :: 0 <= i < |steps| && steps[i].required && Failed(steps[i], os[i]) then R.Fail
    else if exists i :: 0 <= i < |steps| && steps[i].required && Skipped(steps[i]) && !HasWaiver(steps[i]) then R.Blocked
    else R.Pass
  }

  /** What the reducer knows of the gates once the steps have been reported. */
  function GatesMap(steps: seq<StepDef>, os: seq<Outcome>): map<string, R.GateProgress>
    requires |steps| == |os|
    decreases |steps|
  {
    if steps == [] then map[]
    else
      var n := |steps| - 1;
      var before := GatesMap(steps[..n], os[..n]);
      if Skipped(steps[n]) then before else before[steps[n].name := R.Finished(Reported(os[n]))]
  }

  predicate DistinctNames(steps: seq<StepDef>) {
    forall i, j :: 0 <= i < j < |steps| ==> steps[i].name != steps[j].name
  }

  lemma {:induction false} GatesMapAt(steps: seq<StepDef>, os: seq<Outcome>)
    requires |steps| == |os| && DistinctNames(steps)
    ensures forall x :: x in GatesMap(steps, os) ==> exists i :: 0 <= i < |steps| && steps[i].name == x
    ensures forall i :: 0 <= i < |steps| ==>
              && (steps[i].name in GatesMap(steps, os) <==> !Skipped(steps[i]))
              && (!Skipped(steps[i]) ==> GatesMap(steps, os)[steps[i].name] == R.Finished(Reported(os[i])))
    decreases |steps|
  {
    if steps != [] {
      var n := |steps| - 1;
      GatesMapAt(steps[..n], os[..n]);
      forall i | 0 <= i < n ensures steps[..n][i] == steps[i] && os[..n][i] == os[i] {}
      forall x | x in GatesMap(steps, os) ensures exists i :: 0 <= i < |steps| && steps[i].name == x {
        if x in GatesMap(steps[..n], os[..n]) {
          var i :| 0 <= i < n && steps[..n][i].name == x;
          assert steps[i].name == x;
        }
      }
    }
  }

  /** A run past `RunStarted`, with nothing reported about gates yet. */
  predicate AwaitsGates(s: R.RunState, c: R.Contract) { s.phase.Running? && s.contract == Some(c) && s.gates == map[] }

  lemma {:induction false} GateEventsReduce(hash: Bytes -> Digest, s: R.RunState, c: R.Contract, steps: seq<StepDef>, os: seq<Outcome>)
    requires |steps| == |os| && DistinctNames(steps) && AwaitsGates(s, c)
    requires forall i :: 0 <= i < |steps| ==> R.Declares(c, steps[i].name)
    ensures R.ReduceFrom(s, GateEvents(hash, steps, os)) == Ok(s.(gates := GatesMap(steps, os)))
    decreases |steps|
  {
    if steps != [] {
      hide R.ReduceFrom, R.Declares, StepEvents, Reported, Skipped;
      var n := |steps| - 1;
      GateEventsReduce(hash, s, c, steps[..n], os[..n]);
      var s1 := s.(gates := GatesMap(steps[..n], os[..n]));
      R.ReduceConcat(s, GateEvents(hash, steps[..n], os[..n]), StepEvents(hash, steps[n], os[n]));
      GatesMapAt(steps[..n], os[..n]);
      StepReduces(hash, s1, c, steps[n], os[n]);
    }
  }

  lemma StepReduces(hash: Bytes -> Digest, s: R.RunState, c: R.Contract, step: StepDef, o: Outcome)
    requires s.phase.Running? && s.contract == Some(c) && R.Declares(c, step.name) && step.name !in s.gates
    ensures R.ReduceFrom(s, StepEvents(hash, step, o))
            == Ok(if Skipped(step) then s else s.(gates := s.gates[step.name := R.Finished(Reported(o))]))
  {
    LogNamesNonEmpty(step);
    hide LogName, Reported;
    if !Skipped(step) {
      var ks := StepEvents(hash, step, o);
      var s1 := s.(gates := s.gates[step.name := R.InProgress]);
      var s2 := s.(gates := s.gates[step.name := R.Finished(Reported(o))]);
      assert R.Apply(s, ks[0]) == Ok(s1);
      assert R.Apply(s1, ks[1]) == Ok(s1.(gates := s1.gates[step.name := R.Finished(Reported(o))]));
      assert s1.gates[step.name := R.Finished(Reported(o))] == s2.gates;
      hide R.Apply;
      var last := [ks[1]];
      assert ks[1..] == last && last[1..] == [];
      assert R.ReduceFrom(s2, []) == Ok(s2);
      assert R.ReduceFrom(s1, last) == Ok(s2);
    }
  }

  lemma ContractIsValid(steps: seq<StepDef>, schema: Option<nat>)
    requires ValidManifest(steps) && (schema.Some? ==> schema.value == R.CONTRACT_SCHEMA)
    ensures R.ValidContract(ContractOf(steps, schema)) && DistinctNames(steps)
    ensures forall i :: 0 <= i < |steps| ==> R.Declares(ContractOf(steps, schema), steps[i].name)
  {
    hide R.Blank, Sanitize;
    var c := ContractOf(steps, schema);
    forall i | 0 <= i < |steps| ensures R.Declares(c, steps[i].name) {
      assert c.gates[i].gate == steps[i].name;
    }
  }

  /** The verdict computed at the seal is the one the manifest calls for. */
  lemma VerdictAtSeal(s: R.RunState, steps: seq<StepDef>, os: seq<Outcome>, schema: Option<nat>, exitCode: Option<int>)
    requires |steps| == |os| && DistinctNames(steps) && s.gates == GatesMap(steps, os)
    requires s.agent == R.Exited(AgentOutcomeOf(exitCode)) && (schema.Some? ==> s.candidate.Some?)
    ensures R.ComputeVerdict(s, ContractOf(steps, schema)) == CanonicalVerdict(steps, os, exitCode)
  {
    var c := ContractOf(steps, schema);
    GatesMapAt(steps, os);
    forall i | 0 <= i < |steps|
      ensures R.GateErrs(s, c.gates[i]) <==> steps[i].required && Unspawned(steps[i], os[i])
      ensures R.GateFails(s, c.gates[i]) <==> steps[i].required && Failed(steps[i], os[i])
      ensures R.GateIsBlocked(s, c.gates[i]) <==> steps[i].required && Skipped(steps[i]) && !HasWaiver(steps[i])
    {
      assert c.gates[i] == ObligationOf(steps[i]);
      GateClassified(s, steps[i], os[i]);
    }
    hide GatesMap, Unspawned, Failed, HasWaiver, Skipped, R.GateErrs, R.GateFails, R.GateIsBlocked;
    assert |c.gates| == |steps|;
  }

  lemma GateClassified(s: R.RunState, step: StepDef, o: Outcome)
    requires step.name in s.gates <==> !Skipped(step)
    requires !Skipped(step) ==> s.gates[step.name] == R.Finished(Reported(o))
    ensures var g := ObligationOf(step);
            && (R.GateErrs(s, g) <==> step.required && Unspawned(step, o))
            && (R.GateFails(s, g) <==> step.required && Failed(step, o))
            && (R.GateIsBlocked(s, g) <==> step.required && Skipped(step) && !HasWaiver(step))
  {
    hide HasWaiver;
  }

  /** Sealing folds the verdict in. */
  lemma SealReduces(s: R.RunState, c: R.Contract)
    requires s.phase.Running? && s.contract == Some(c)
    ensures R.ReduceFrom(s, [R.RunSealed]) == Ok(s.(phase := R.Sealed, verdict := Some(R.ComputeVerdict(s, c))))
  {
    hide R.ComputeVerdict;
    var k := R.RunSealed;
    var t := s.(phase := R.Sealed, verdict := Some(R.ComputeVerdict(s, c)));
    assert R.Apply(s, k) == Ok(t);
    hide R.Apply;
    assert [k][1..] == [];
    assert R.ReduceFrom(t, []) == Ok(t);
  }

  /** From the state before the gates, reporting them and sealing gives the manifest's verdict. */
  lemma TailReduces(hash: Bytes -> Digest, s: R.RunState, steps: seq<StepDef>, os: seq<Outcome>, schema: Option<nat>, exitCode: Option<int>)
    requires |steps| == |os| && ValidManifest(steps) && (schema.Some? ==> schema.value == R.CONTRACT_SCHEMA)
    requires AwaitsGates(s, ContractOf(steps, schema))
    requires s.agent == R.Exited(AgentOutcomeOf(exitCode)) && (schema.Some? ==> s.candidate.Some?)
    ensures var r := R.ReduceFrom(s, GateEvents(hash, steps, os) + [R.RunSealed]);
            r.Ok? && r.value.verdict == Some(CanonicalVerdict(steps, os, exitCode))
  {
    var c := ContractOf(steps, schema);
    ContractIsValid(steps, schema);
    hide ValidManifest, ContractOf, R.Apply, R.ComputeVerdict;
    GateEventsReduce(hash, s, c, steps, os);
    var t := s.(gates := GatesMap(steps, os));
    R.ReduceConcat(s, GateEvents(hash, steps, os), [R.RunSealed]);
    SealReduces(t, c);
    VerdictAtSeal(t, steps, os, schema, exitCode);
  }

  lemma {:induction false} ReduceOne(s: R.RunState, k: R.Kind, rest: seq<R.Kind>)
    requires R.Apply(s, k).Ok?
    ensures R.ReduceFrom(s, [k] + rest) == R.ReduceFrom(R.Apply(s, k).value, rest)
  {
    hide R.Apply;
    assert ([k] + rest)[1..] == rest;
  }

  /** The state after the agent has exited, whatever comes next. */
  function AgentDone(c: R.Contract, exitCode: Option<int>): R.RunState {
    R.Initial.(phase := R.Running, contract := Some(c), agent := R.Exited(AgentOutcomeOf(exitCode)))
  }

  lemma HeadReduces(c: R.Contract, task: R.Artifact, exitCode: Option<int>, rest: seq<R.Kind>)
    requires R.ValidContract(c) && R.ValidArtifact(task) && c.agentRequired
    ensures R.Reduce([R.RunStarted(c, task), R.AgentStarted, R.AgentExited(AgentOutcomeOf(exitCode))] + rest)
            == R.ReduceFrom(AgentDone(c, exitCode), rest)
  {
    hide R.ValidContract;
    var k1, k2, k3 := R.RunStarted(c, task), R.AgentStarted, R.AgentExited(AgentOutcomeOf(exitCode));
    var s1 := R.Initial.(phase := R.Running, contract := Some(c));
    var s2 := s1.(agent := R.Started);
    assert R.Apply(R.Initial, k1) == Ok(s1) && R.Apply(s1, k2) == Ok(s2) && R.Apply(s2, k3) == Ok(AgentDone(c, exitCode));
    hide R.Apply;
    ReduceOne(s2, k3, rest);
    ReduceOne(s1, k2, [k3] + rest);
    ReduceOne(R.Initial, k1, [k2] + ([k3] + rest));
    assert [k1, k2, k3] + rest == [k1] + ([k2] + ([k3] + rest));
  }

  /**
   The batch stream of a validated manifest is accepted by the canonical reducer, and its
   verdict is PASS exactly when the agent exited cleanly and every required step is discharged.
   */
  lemma BatchVerdict(hash: Bytes -> Digest, task: R.Artifact, exitCode: Option<int>, diff: R.Artifact, steps: seq<StepDef>, os: seq<Outcome>)
    requires |steps| == |os| && ValidManifest(steps) && R.ValidArtifact(task) && R.ValidArtifact(diff)
    ensures var r := R.Reduce(BatchStream(hash, ContractOf(steps, None), task, exitCode, diff, steps, os));
            && r.Ok? && r.value.verdict == Some(CanonicalVerdict(steps, os, exitCode))
            && (r.value.verdict == Some(R.Pass) <==>
                  && exitCode == Some(0)
                  && forall i :: 0 <= i < |steps| && steps[i].required ==>
                       if Skipped(steps[i]) then HasWaiver(steps[i]) else os[i].Exited? && os[i].success)
  {
    var c := ContractOf(steps, None);
    ContractIsValid(steps, None);
    ContractFields(steps, None);
    hide ValidManifest, ContractOf, R.ValidContract;
    var tail := GateEvents(hash, steps, os) + [R.RunSealed];
    var patch := R.PatchCaptured(diff);
    var s := AgentDone(c, exitCode).(patch := Some(diff));
    assert R.Apply(AgentDone(c, exitCode), patch) == Ok(s);
    hide R.Apply;
    ReduceOne(AgentDone(c, exitCode), patch, tail);
    HeadReduces(c, task, exitCode, [patch] + tail);
    assert BatchStream(hash, c, task, exitCode, diff, steps, os)
        == [R.RunStarted(c, task), R.AgentStarted, R.AgentExited(AgentOutcomeOf(exitCode))] + ([patch] + tail);
    TailReduces(hash, s, steps, os, None, exitCode);
    PassMeansDischarged(steps, os, exitCode);
  }

  lemma ContractFields(steps: seq<StepDef>, schema: Option<nat>)
    ensures var c := ContractOf(steps, schema); c.agentRequired && c.candidateSchema == schema
  {
  }

  lemma PassMeansDischarged(steps: seq<StepDef>, os: seq<Outcome>, exitCode: Option<int>)
    requires |steps| == |os|
    ensures CanonicalVerdict(steps, os, exitCode) == R.Pass <==>
            && exitCode == Some(0)
            && forall i :: 0 <= i < |steps| && steps[i].required ==>
                 if Skipped(steps[i]) then HasWaiver(steps[i]) else os[i].Exited? && os[i].success
  {
    hide HasWaiver, Skipped;
  }

  lemma CaptureReduces(c: R.Contract, exitCode: Option<int>, session: Option<R.Artifact>, diff: R.Artifact, candidate: R.Artifact, tail: seq<R.Kind>)
    requires R.ValidArtifact(diff) && R.ValidArtifact(candidate) && (session.Some? ==> R.ValidArtifact(session.value))
    ensures R.ReduceFrom(AgentDone(c, exitCode),
              (if session.Some? then [R.ProviderSessionCaptured(session.value)] else []) + ([R.PatchCaptured(diff)] + ([R.CandidateStateCaptured(candidate)] + tail)))
            == R.ReduceFrom(AgentDone(c, exitCode).(session := session, patch := Some(diff), candidate := Some(candidate)), tail)
  {
    var s := AgentDone(c, exitCode);
    var s1 := s.(session := session);
    var s2 := s1.(patch := Some(diff));
    var s3 := s2.(candidate := Some(candidate));
    var patch, captured := R.PatchCaptured(diff), R.CandidateStateCaptured(candidate);
    assert R.Apply(s1, patch) == Ok(s2) && R.Apply(s2, captured) == Ok(s3);
    ReduceOne(s2, captured, tail);
    ReduceOne(s1, patch, [captured] + tail);
    if session.Some? {
      assert R.Apply(s, R.ProviderSessionCaptured(session.value)) == Ok(s1);
      ReduceOne(s, R.ProviderSessionCaptured(session.value), [patch] + ([captured] + tail));
    } else {
      assert [] + ([patch] + ([captured] + tail)) == [patch] + ([captured] + tail);
    }
  }

  lemma LiveShape<T>(head: seq<T>, receipt: seq<T>, a: T, b: T, gates: seq<T>, end: seq<T>)
    ensures head + receipt + [a, b] + gates + end == head + (receipt + ([a] + ([b] + (gates + end))))
  {
  }

  /** The live stream of a ledger-backed run has the same verdict as the batch stream. */
  lemma LiveVerdict(hash: Bytes -> Digest, task: R.Artifact, exitCode: Option<int>, session: Option<R.Artifact>,
                    diff: R.Artifact, candidate: R.Artifact, steps: seq<StepDef>, os: seq<Outcome>)
    requires |steps| == |os| && ValidManifest(steps)
    requires R.ValidArtifact(task) && R.ValidArtifact(diff) && R.ValidArtifact(candidate) && (session.Some? ==> R.ValidArtifact(session.value))
    ensures var c := ContractOf(steps, Some(R.CONTRACT_SCHEMA));
            var r := R.Reduce(LiveStream(hash, c, task, exitCode, session, diff, candidate, steps, os));
            && r.Ok? && r.value.verdict == Some(CanonicalVerdict(steps, os, exitCode))
            && (r.value.verdict == Some(R.Pass) <==>
                  && exitCode == Some(0)
                  && forall i :: 0 <= i < |steps| && steps[i].required ==>
                       if Skipped(steps[i]) then HasWaiver(steps[i]) else os[i].Exited? && os[i].success)
  {
    PassMeansDischarged(steps, os, exitCode);
    var schema := Some(R.CONTRACT_SCHEMA);
    var c := ContractOf(steps, schema);
    ContractIsValid(steps, schema);
    ContractFields(steps, schema);
    hide ValidManifest, ContractOf, R.ValidContract, R.Apply;
    var tail := GateEvents(hash, steps, os) + [R.RunSealed];
    var receipt := if session.Some? then [R.ProviderSessionCaptured(session.value)] else [];
    var rest := receipt + ([R.PatchCaptured(diff)] + ([R.CandidateStateCaptured(candidate)] + tail));
    CaptureReduces(c, exitCode, session, diff, candidate, tail);
    HeadReduces(c, task, exitCode, rest);
    LiveShape([R.RunStarted(c, task), R.AgentStarted, R.AgentExited(AgentOutcomeOf(exitCode))], receipt,
              R.PatchCaptured(diff), R.CandidateStateCaptured(candidate), GateEvents(hash, steps, os), [R.RunSealed]);
    hide AgentOutcomeOf, GateEvents, R.ReduceFrom;
    TailReduces(hash, AgentDone(c, exitCode).(session := session, patch := Some(diff), candidate := Some(candidate)), steps, os, schema, exitCode);
  }

  function ToCanonical(v: Verdict): Option<R.Verdict> {
    match v
    case Pass => Some(R.Pass)
    case Fail => Some(R.Fail)
    case Blocked => Some(R.Blocked)
    case Error => Some(R.Error)
    case Warn | NotApplicable => None
  }

  /**
   The ad-hoc reduction and the canonical verdict agree exactly when the agent exited
   cleanly and no optional step alone failed to spawn, which only the ad-hoc one counts, or
   the agent did not exit cleanly, which only the canonical one counts, and some step failed
   to spawn.
   */
  lemma ReductionsAgreeExactly(steps: seq<StepDef>, os: seq<Outcome>, exitCode: Option<int>)
    requires |steps| == |os|
    ensures var someError := exists i :: 0 <= i < |steps| && Unspawned(steps[i], os[i]);
            var requiredError := exists i :: 0 <= i < |steps| && steps[i].required && Unspawned(steps[i], os[i]);
            ToCanonical(ReduceSteps(Results(steps, os))) == Some(CanonicalVerdict(steps, os, exitCode)) <==>
            if exitCode == Some(0) then someError ==> requiredError else someError
  {
    hide LogName, R.Blank;
    var rs := Results(steps, os);
    forall i | 0 <= i < |steps|
      ensures rs[i].verdict == Error <==> Unspawned(steps[i], os[i])
      ensures rs[i].verdict == Fail <==> Failed(steps[i], os[i])
      ensures (rs[i].waived.None? && rs[i].verdict in {Blocked, NotApplicable}) <==> Skipped(steps[i]) && !HasWaiver(steps[i])
      ensures rs[i].required == steps[i].required
    {
      assert rs[i] == StepResult(steps[i], os[i]);
    }
    assert |rs| == |steps|;
    hide Results, Unspawned, Failed, Skipped, HasWaiver;
  }

  /** An ASCII digit or letter, by its code. */
  predicate Alphanumeric(code: int) { 48 <= code <= 57 || 65 <= code <= 90 || 97 <= code <= 122 }

  /** Sanitized names are plain file names, and plain names are kept as they are. */
  lemma SanitizeSafe(s: string)
    ensures |Sanitize(s)| == |s| && forall i :: 0 <= i < |s| ==> IsPlain(Sanitize(s)[i]) && Sanitize(s)[i] in {s[i], '-'}
    ensures forall i :: 0 <= i < |s| ==> Alphanumeric(Sanitize(s)[i] as int) || Sanitize(s)[i] as int in {45, 95}
    ensures Sanitize(s) == s <==> forall i :: 0 <= i < |s| ==> Alphanumeric(s[i] as int) || s[i] as int in {45, 95}
    ensures Sanitize(Sanitize(s)) == Sanitize(s)
  {
    if Sanitize(s) == s {
      forall i | 0 <= i < |s| ensures IsPlain(s[i]) {
        assert Sanitize(s)[i] == s[i];
      }
    }
  }
}
