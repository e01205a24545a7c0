/**
 Classification of a bound child run's on-disk record against the exact accepted
 command it must belong to (`src/recovery.rs`, `classify_command_child`).
 */
module ChildRecord {
  import opened Base
  import R = Reducer

  type RunId = string

  datatype CommandInfo = CommandInfo(id: string, conversation: string, parent: RunId, text: Bytes)

  datatype LedgerBinding = LedgerBinding(
    schema: nat, runId: RunId, conversation: string, agent: string, role: string, parent: Option<RunId>)

  datatype CommandBinding = CommandBinding(
    schema: nat, commandId: string, conversation: string, parent: RunId, child: RunId, textDigest: Digest)

  /**
   What a run directory holds. `intact` says that every line parses and that the
   chain, the digests and the referenced artifacts verify; a torn last line clears it.
   */
  datatype Record = Record(
    kinds: seq<R.Kind>,
    headRunId: RunId,
    intact: bool,
    ledgerBinding: Option<LedgerBinding>,
    commandBinding: Option<CommandBinding>,
    task: Option<Bytes>)

  const Empty := Record([], "", true, None, None, None)

  datatype State = Absent | PreDispatch | DispatchAmbiguous(progress: R.Progress) | SealedRecord | Invalid

  const SUPPORTED_AGENT := "claude"
  const SUPPORTED_ROLE := "implementer"
  const BINDING_SCHEMA: nat := 1

  predicate LedgerBindingMatches(b: LedgerBinding, run: RunId, cmd: CommandInfo) {
    && b.schema == BINDING_SCHEMA && b.runId == run && b.conversation == cmd.conversation
    && b.agent == SUPPORTED_AGENT && b.role == SUPPORTED_ROLE && b.parent == Some(cmd.parent)
  }

  predicate CommandBindingMatches(hash: Bytes -> Digest, b: CommandBinding, run: RunId, cmd: CommandInfo) {
    && b.schema == BINDING_SCHEMA && b.commandId == cmd.id && b.conversation == cmd.conversation
    && b.parent == cmd.parent && b.child == run && b.textDigest == hash(cmd.text)
  }

  function Classify(hash: Bytes -> Digest, rec: Record, run: RunId, cmd: CommandInfo): (st: State)
  {
    if !rec.intact then Invalid
    else if rec.kinds == [] then Absent
    else if rec.headRunId != run then Invalid
    else match R.Reduce(rec.kinds)
      case Err(_) => Invalid
      case Ok(s) =>
        if rec.ledgerBinding.None? || !LedgerBindingMatches(rec.ledgerBinding.value, run, cmd) then Invalid
        else if rec.commandBinding.None? || !CommandBindingMatches(hash, rec.commandBinding.value, run, cmd) then Invalid
        else if !rec.kinds[0].RunStarted? || rec.kinds[0].task.digest != hash(cmd.text) then Invalid
        else if rec.task != Some(cmd.text) then Invalid
        else if s.verdict.Some? then SealedRecord
        else if R.DispatchProgress(s) == R.NoDispatch then PreDispatch
        else DispatchAmbiguous(R.DispatchProgress(s))
  }

  ghost predicate Dispatched(rec: Record) {
    exists i :: 0 <= i < |rec.kinds| && rec.kinds[i].AgentStarted?
  }

  /** Only a record without `AgentStarted` is ever offered for redrive, whatever is on disk. */
  lemma RedrivableIsUndispatched(hash: Bytes -> Digest, rec: Record, run: RunId, cmd: CommandInfo)
    requires Classify(hash, rec, run, cmd) in {Absent, PreDispatch}
    ensures !Dispatched(rec)
  {
    if rec.kinds != [] {
      R.DispatchProgressExact(rec.kinds);
      assert forall i :: 0 <= i < |rec.kinds| && rec.kinds[i].AgentStarted? ==> R.DispatchEvidence(rec.kinds[i]);
    }
  }

  /** One record is never accepted as belonging to two different commands. */
  lemma AttributedToOneCommand(
    hash: Bytes -> Digest, rec: Record, run: RunId, run': RunId, cmd: CommandInfo, cmd': CommandInfo)
    requires rec.kinds != []
    requires Classify(hash, rec, run, cmd) != Invalid && Classify(hash, rec, run', cmd') != Invalid
    ensures run == run' && cmd == cmd'
  {
  }

  /** The sidecars and head event that a continuation writes for `cmd` under `run`. */
  predicate Honest(hash: Bytes -> Digest, rec: Record, run: RunId, cmd: CommandInfo) {
    && rec.headRunId == run
    && rec.ledgerBinding == Some(LedgerBinding(1, run, cmd.conversation, "claude", "implementer", Some(cmd.parent)))
    && rec.commandBinding == Some(CommandBinding(1, cmd.id, cmd.conversation, cmd.parent, run, hash(cmd.text)))
    && rec.task == Some(cmd.text)
    && (rec.kinds != [] ==> rec.kinds[0].RunStarted? && rec.kinds[0].task.digest == hash(cmd.text))
  }

  /** The order in which a continuation appends its first events. */
  predicate Follows(kinds: seq<R.Kind>, k: R.Kind) {
    match |kinds|
    case 0 => k.RunStarted?
    case 1 => k.CommandBindingCaptured?
    case 2 => k.CandidateStateMaterialized?
    case 3 => k.AgentStarted?
    case _ => !k.RunStarted? && !k.AgentStarted?
  }

  ghost predicate Scripted(kinds: seq<R.Kind>) {
    && R.Reduce(kinds).Ok?
    && forall i :: 0 <= i < |kinds| ==> Follows(kinds[..i], kinds[i])
  }

  /**
   A record written by a continuation is redrivable exactly when it is whole and its
   `AgentStarted` is not there yet, so fail-closed classification blocks nothing else.
   */
  lemma HonestRedrivableExactly(hash: Bytes -> Digest, rec: Record, run: RunId, cmd: CommandInfo)
    requires Honest(hash, rec, run, cmd) && Scripted(rec.kinds)
    ensures Classify(hash, rec, run, cmd) in {Absent, PreDispatch} <==> rec.intact && !Dispatched(rec)
  {
    if rec.intact && rec.kinds != [] {
      R.DispatchProgressExact(rec.kinds);
      var ks := rec.kinds;
      if |ks| <= 3 {
        forall i | 0 <= i < |ks| ensures !R.DispatchEvidence(ks[i]) && !ks[i].RunSealed? {
          assert Follows(ks[..i], ks[i]);
        }
        UnsealedWithoutSeal(ks);
      } else {
        assert Follows(ks[..3], ks[3]);
        assert R.DispatchEvidence(ks[3]);
      }
    }
  }

  lemma {:induction false} UnsealedWithoutSeal(ks: seq<R.Kind>)
    requires R.Reduce(ks).Ok?
    requires forall i :: 0 <= i < |ks| ==> !ks[i].RunSealed?
    ensures R.Reduce(ks).value.verdict.None?
    decreases |ks|
  {
    if ks != [] {
      var init, k := ks[..|ks| - 1], ks[|ks| - 1];
      assert ks == init + [k];
      R.ReduceSnoc(init, k);
      UnsealedWithoutSeal(init);
    }
  }

  /**
   The answer for every record, said of what is on disk: which records are refused, and
   for the others whether a seal or dispatch evidence is among the kinds.
   */
  lemma ClassifiedExactly(hash: Bytes -> Digest, rec: Record, run: RunId, cmd: CommandInfo)
    ensures var st := Classify(hash, rec, run, cmd);
            var sound := rec.intact && rec.kinds != [] && Honest(hash, rec, run, cmd) && R.Reduce(rec.kinds).Ok?;
            var evidence := exists k :: k in rec.kinds && R.DispatchEvidence(k);
            && (st == Absent <==> rec.intact && rec.kinds == [])
            && (st == Invalid <==> !sound && st != Absent)
            && (st == SealedRecord <==> sound && R.RunSealed in rec.kinds)
            && (st == PreDispatch <==> sound && R.RunSealed !in rec.kinds && !evidence)
            && (st.DispatchAmbiguous? <==> sound && R.RunSealed !in rec.kinds && evidence)
            && (st.DispatchAmbiguous? ==> st.progress == Furthest(rec.kinds))
  {
    if R.Reduce(rec.kinds).Ok? {
      R.StateShowsKinds(rec.kinds);
      R.DispatchProgressExact(rec.kinds);
      R.ProgressExactly(rec.kinds);
      hide R.Reduce, R.DispatchEvidence, R.DispatchProgress;
      assert (exists k :: k in rec.kinds && R.DispatchEvidence(k)) <==> exists i :: 0 <= i < |rec.kinds| && R.DispatchEvidence(rec.kinds[i]);
    }
  }

  /** The furthest evidence among the kinds. */
  ghost function Furthest(ks: seq<R.Kind>): R.Progress {
    if (exists k :: k in ks && (k.PatchCaptured? || k.GateStarted?)) then R.AtPostProvider
    else if (exists k :: k in ks && k.ProviderSessionCaptured?) then R.AtSessionCaptured
    else if (exists k :: k in ks && k.AgentExited?) then R.AtAgentExited
    else if (exists k :: k in ks && k.AgentStarted?) then R.AtAgentStarted
    else R.NoDispatch
  }
}
