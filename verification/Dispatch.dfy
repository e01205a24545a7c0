/**
 The command dispatch protocol: request handlers that bind and redrive
 (`crates/o7d/src/routes.rs`), `o7 continue` processes (`src/main.rs`, `continue_run`
 and `continue_execute`), the run-id lock, the command row, the run directories and the
 git branches of the repository. Every step of every process is atomic and interleaves
 freely with the others, and every process may die between any two of its steps. Besides
 the processes the service starts, any number may be started by hand, on any run id and
 with any arguments; all share the service's ledger, repository and runs directory.
 */
module Dispatch {
  import opened Base
  import R = Reducer
  import opened ChildRecord

  type ProcId = nat

  datatype CommandStatus = Accepted | Started | Completed | Rejected

  datatype CommandRow = CommandRow(status: CommandStatus, child: Option<RunId>, updatedAt: nat)

  /** Where an `o7 continue` process is. */
  datatype WorkerPc = Starting | Holding | Cleared | Ready | Branched | Called | Gone

  /**
   `args` is the command as this process was told it, `written` the chain it has appended
   itself, and `ownsBranch` whether it created the branch of its run.
   */
  datatype Worker = Worker(run: RunId, args: CommandInfo, pc: WorkerPc, written: seq<R.Kind>, ownsBranch: bool)

  /** Where a redrive request is; `row` is the command row it read before locking. */
  datatype RedriverPc = Queued | Locked | Redrivable | Finished

  datatype Redriver = Redriver(target: RunId, row: CommandRow, pc: RedriverPc)

  datatype Owner = ByWorker(w: ProcId) | ByRedriver(d: ProcId)

  datatype World = World(
    cmd: CommandInfo,
    row: CommandRow,
    disk: map<RunId, Record>,
    attached: set<RunId>,
    branches: set<RunId>,
    locks: map<RunId, Owner>,
    workers: map<ProcId, Worker>,
    redrivers: map<ProcId, Redriver>,
    minted: set<RunId>,
    toSpawn: set<RunId>,
    calls: seq<ProcId>)

  datatype WorkerStep =
    TryLock | CheckBinding | FailEarly | WriteSidecars | Append(k: R.Kind) | Attach | AddWorktree | CallProvider | Finish | Crash(torn: bool)

  datatype RedriveStep = Begin | Lock | Decide | Rebind(newId: RunId, now: nat) | Die

  datatype Step =
    | Bind(newId: RunId)
    | Spawn(w: ProcId, run: RunId)
    | SpawnLost(run: RunId)
    | ManualSpawn(w: ProcId, run: RunId, args: CommandInfo)
    | Bookkeep(status: CommandStatus, now: nat)
    | Work(w: ProcId, work: WorkerStep)
    | Redrive(d: ProcId, redrive: RedriveStep)

  predicate Active(row: CommandRow) { row.status.Accepted? || row.status.Started? }

  function RecordOf(s: World, run: RunId): Record {
    if run in s.disk then s.disk[run] else Empty
  }

  predicate WorkerAt(s: World, w: ProcId, pcs: set<WorkerPc>) { w in s.workers && s.workers[w].pc in pcs }

  predicate RedriverAt(s: World, d: ProcId, pc: RedriverPc) { d in s.redrivers && s.redrivers[d].pc == pc }

  function MoveWorker(s: World, w: ProcId, pc: WorkerPc): World
    requires w in s.workers
  {
    s.(workers := s.workers[w := s.workers[w].(pc := pc)])
  }

  /** The process is gone; the kernel drops its lock, however it ended. */
  function EndWorker(s: World, w: ProcId): World
    requires w in s.workers
  {
    var run := s.workers[w].run;
    var t := MoveWorker(s, w, Gone);
    if run in s.locks && s.locks[run] == ByWorker(w) then t.(locks := s.locks - {run}) else t
  }

  function EndRedriver(s: World, d: ProcId): World
    requires d in s.redrivers
  {
    var target := s.redrivers[d].target;
    var t := s.(redrivers := s.redrivers[d := s.redrivers[d].(pc := Finished)]);
    if target in s.locks && s.locks[target] == ByRedriver(d) then t.(locks := s.locks - {target}) else t
  }

  function AddWorker(s: World, w: ProcId, run: RunId, args: CommandInfo): World {
    s.(workers := s.workers[w := Worker(run, args, Starting, [], false)])
  }

  predicate CanWork(hash: Bytes -> Digest, s: World, w: ProcId, a: WorkerStep) {
    && w in s.workers
    && var me := s.workers[w];
    match a
    case TryLock => me.pc == Starting
    case CheckBinding => me.pc == Holding
    case FailEarly => me.pc in {Cleared, Ready, Branched, Called}
    case WriteSidecars => me.pc == Cleared
    case Append(k) =>
      && me.pc == (if |me.written| < 2 then Ready else if |me.written| < 4 then Branched else Called)
      && Follows(me.written, k)
      && (|me.written| > 0 ==> me.run in s.attached)
      && (k.RunStarted? ==> k.task.digest == hash(me.args.text))
      && R.Reduce(me.written + [k]).Ok?
    case Attach => me.pc == Ready && |me.written| == 1
    case AddWorktree => me.pc == Ready && |me.written| == 2
    case CallProvider => me.pc == Branched && |me.written| == 4
    case Finish => me.pc == Called && R.RunSealed in me.written
    case Crash(_) => me.pc != Gone
  }

  /** What a continuation writes next to its events before the first of them. */
  function WithSidecars(hash: Bytes -> Digest, rec: Record, run: RunId, cmd: CommandInfo): Record {
    rec.(headRunId := run,
         ledgerBinding := Some(LedgerBinding(BINDING_SCHEMA, run, cmd.conversation, SUPPORTED_AGENT, SUPPORTED_ROLE, Some(cmd.parent))),
         commandBinding := Some(CommandBinding(BINDING_SCHEMA, cmd.id, cmd.conversation, cmd.parent, run, hash(cmd.text))),
         task := Some(cmd.text))
  }

  /** Close the command's bookkeeping if it is active and still bound to `run`. */
  function CloseIfBound(row: CommandRow, run: RunId, status: CommandStatus): CommandRow {
    if Active(row) && row.child == Some(run) then row.(status := status, updatedAt := row.updatedAt + 1) else row
  }

  function DoWork(hash: Bytes -> Digest, s: World, w: ProcId, a: WorkerStep): (t: World)
    requires CanWork(hash, s, w, a)
  {
    var me := s.workers[w];
    var rec := RecordOf(s, me.run);
    match a
    case TryLock =>
      if me.run in s.locks then EndWorker(s, w)
      else MoveWorker(s, w, Holding).(locks := s.locks[me.run := ByWorker(w)])
    case CheckBinding =>
      if me.args.id == s.cmd.id && s.row.child == Some(me.run) then MoveWorker(s, w, Cleared) else EndWorker(s, w)
    case FailEarly =>
      // rejected only while still bound to this run and never attached
      EndWorker(s, w).(row := if me.run in s.attached then s.row else CloseIfBound(s.row, me.run, Rejected))
    case WriteSidecars =>
      MoveWorker(s, w, Ready).(disk := s.disk[me.run := WithSidecars(hash, rec, me.run, me.args)])
    case Append(k) =>
      s.(disk := s.disk[me.run := rec.(kinds := rec.kinds + [k])],
         workers := s.workers[w := me.(written := me.written + [k])])
    case Attach => s.(attached := s.attached + {me.run})
    case AddWorktree =>
      // `git worktree add -b` refuses a branch that exists, and nothing ever deletes one
      if me.run in s.branches then EndWorker(s, w)
      else s.(branches := s.branches + {me.run}, workers := s.workers[w := me.(pc := Branched, ownsBranch := true)])
    case CallProvider => MoveWorker(s, w, Called).(calls := s.calls + [w])
    case Finish => EndWorker(s, w).(row := CloseIfBound(s.row, me.run, Completed))
    case Crash(torn) =>
      EndWorker(s, w).(disk := if torn && me.pc in {Ready, Branched, Called} then s.disk[me.run := rec.(intact := false)] else s.disk)
  }

  predicate CanRedrive(s: World, d: ProcId, a: RedriveStep) {
    match a
    case Begin => d !in s.redrivers && s.row.child.Some? && Active(s.row)
    case Lock => RedriverAt(s, d, Queued)
    case Decide => RedriverAt(s, d, Locked)
    case Rebind(newId, _) => RedriverAt(s, d, Redrivable) && newId !in s.minted
    case Die => d in s.redrivers && s.redrivers[d].pc != Finished
  }

  function MoveRedriver(s: World, d: ProcId, pc: RedriverPc): World
    requires d in s.redrivers
  {
    s.(redrivers := s.redrivers[d := s.redrivers[d].(pc := pc)])
  }

  function DoRedrive(hash: Bytes -> Digest, s: World, d: ProcId, a: RedriveStep): (t: World)
    requires CanRedrive(s, d, a)
  {
    match a
    case Begin => s.(redrivers := s.redrivers[d := Redriver(s.row.child.value, s.row, Queued)])
    case Lock =>
      var target := s.redrivers[d].target;
      if target in s.locks then EndRedriver(s, d)
      else MoveRedriver(s, d, Locked).(locks := s.locks[target := ByRedriver(d)])
    case Decide =>
      var target := s.redrivers[d].target;
      (match Classify(hash, RecordOf(s, target), target, s.cmd)
       case Absent => MoveRedriver(s, d, Redrivable)
       case PreDispatch => MoveRedriver(s, d, Redrivable)
       // scoped catch-up, then complete the command if it is still bound here
       case SealedRecord => EndRedriver(s, d).(row := CloseIfBound(s.row, target, Completed))
       case _ => EndRedriver(s, d))
    case Rebind(newId, now) =>
      var me := s.redrivers[d];
      var t := EndRedriver(s, d).(minted := s.minted + {newId});
      if Active(s.row) && s.row.child == Some(me.target) && s.row.updatedAt == me.row.updatedAt
      then t.(row := s.row.(child := Some(newId), updatedAt := if now <= me.row.updatedAt then me.row.updatedAt + 1 else now),
              toSpawn := s.toSpawn + {newId})
      else t
    case Die => EndRedriver(s, d)
  }

  predicate Enabled(hash: Bytes -> Digest, s: World, a: Step) {
    match a
    case Bind(newId) => s.row.child.None? && newId !in s.minted
    case Spawn(w, run) => run in s.toSpawn && w !in s.workers
    case SpawnLost(run) => run in s.toSpawn
    case ManualSpawn(w, _, _) => w !in s.workers
    case Bookkeep(_, _) => true
    case Work(w, work) => CanWork(hash, s, w, work)
    case Redrive(d, redrive) => CanRedrive(s, d, redrive)
  }

  function Next(hash: Bytes -> Digest, s: World, a: Step): (t: World)
    requires Enabled(hash, s, a)
  {
    match a
    case Bind(newId) =>
      s.(row := CommandRow(Started, Some(newId), s.row.updatedAt + 1),
         minted := s.minted + {newId}, toSpawn := s.toSpawn + {newId})
    case Spawn(w, run) => AddWorker(s, w, run, s.cmd).(toSpawn := s.toSpawn - {run})
    case SpawnLost(run) => s.(toSpawn := s.toSpawn - {run})
    case ManualSpawn(w, run, args) => AddWorker(s, w, run, args)
    case Bookkeep(status, now) => s.(row := s.row.(status := status, updatedAt := now))
    case Work(w, work) => DoWork(hash, s, w, work)
    case Redrive(d, redrive) => DoRedrive(hash, s, d, redrive)
  }

  function Start(cmd: CommandInfo): World {
    World(cmd, CommandRow(Accepted, None, 0), map[], {}, {}, map[], map[], map[], {}, {}, [])
  }

  /** All interleavings: a list of steps taken one after another from `s`. */
  ghost predicate Runs(hash: Bytes -> Digest, s: World, steps: seq<Step>, t: World)
    decreases |steps|
  {
    if steps == [] then s == t
    else Enabled(hash, s, steps[0]) && Runs(hash, Next(hash, s, steps[0]), steps[1..], t)
  }

  // ---------------------------------------------------------------- the invariant

  ghost predicate LocksHeld(s: World) {
    && (forall w :: w in s.workers && s.workers[w].pc in {Holding, Cleared, Ready, Branched, Called} ==>
          s.workers[w].run in s.locks && s.locks[s.workers[w].run] == ByWorker(w))
    && (forall d :: d in s.redrivers && s.redrivers[d].pc in {Locked, Redrivable} ==>
          s.redrivers[d].target in s.locks && s.locks[s.redrivers[d].target] == ByRedriver(d))
  }

  ghost predicate ClearedIsBound(s: World) {
    forall w :: w in s.workers && s.workers[w].pc in {Cleared, Ready, Branched, Called} ==> s.row.child == Some(s.workers[w].run)
  }

  ghost predicate DispatchedIsBound(s: World) {
    forall run :: run in s.disk && Dispatched(s.disk[run]) ==> s.row.child == Some(run)
  }

  ghost predicate RedrivableUndispatched(s: World) {
    forall d :: d in s.redrivers && s.redrivers[d].pc == Redrivable ==> !Dispatched(RecordOf(s, s.redrivers[d].target))
  }

  /** At most one `AgentStarted` in a record. */
  ghost predicate OneBoundary(rec: Record) {
    forall i, j :: 0 <= i < |rec.kinds| && 0 <= j < |rec.kinds| && rec.kinds[i].AgentStarted? && rec.kinds[j].AgentStarted? ==> i == j
  }

  /** How far one process may be, given who owns the branch of its run. */
  ghost predicate WorkerBehindBranch(s: World, w: ProcId)
    requires w in s.workers
  {
    var me := s.workers[w];
    && (|me.written| >= 3 || me.pc in {Branched, Called} ==> me.ownsBranch)
    && (me.ownsBranch ==> me.run in s.branches && me.pc in {Branched, Called, Gone})
    && (me.ownsBranch && |me.written| <= 3 ==> !Dispatched(RecordOf(s, me.run)))
    && (|me.written| >= 4 ==> Dispatched(RecordOf(s, me.run)))
  }

  ghost predicate RecordBehindBranch(s: World, run: RunId)
    requires run in s.disk
  {
    (Dispatched(s.disk[run]) ==> run in s.branches) && OneBoundary(s.disk[run])
  }

  predicate Owns(s: World, w: ProcId, run: RunId) {
    w in s.workers && s.workers[w].ownsBranch && s.workers[w].run == run
  }

  /** One process per run gets past the branch. */
  ghost predicate BranchesExclusive(s: World) {
    && (forall w :: w in s.workers ==> WorkerBehindBranch(s, w))
    && (forall v, w, run :: Owns(s, v, run) && Owns(s, w, run) ==> v == w)
    && (forall run :: run in s.disk ==> RecordBehindBranch(s, run))
  }

  ghost predicate CallsDispatched(s: World) {
    && |s.calls| <= 1
    && (forall w :: w in s.calls ==> WorkerAt(s, w, {Called, Gone}) && |s.workers[w].written| >= 4)
  }

  /** A second process has started its own chain in the record. */
  ghost predicate Restarted(kinds: seq<R.Kind>) { exists i :: 0 < i < |kinds| && kinds[i].RunStarted? }

  predicate EndsIn(kinds: seq<R.Kind>, tail: seq<R.Kind>) {
    |tail| <= |kinds| && kinds[|kinds| - |tail|..] == tail
  }

  /** A process at work appends to a record that ends in its own chain. */
  ghost predicate AtTheEnd(s: World, w: ProcId)
    requires w in s.workers
  {
    var me := s.workers[w];
    && Scripted(me.written)
    && (me.pc in {Ready, Branched, Called} ==> me.run in s.disk && EndsIn(s.disk[me.run].kinds, me.written))
    && (me.pc in {Starting, Holding, Cleared} ==> me.written == [])
  }

  /** Every record is one chain in script order, or visibly holds a second start. */
  ghost predicate RecordsShaped(s: World) {
    && (forall run :: run in s.disk ==> Scripted(s.disk[run].kinds) || Restarted(s.disk[run].kinds))
    && (forall w :: w in s.workers ==> AtTheEnd(s, w))
  }

  ghost predicate Inv(s: World) {
    && LocksHeld(s) && ClearedIsBound(s) && DispatchedIsBound(s) && RedrivableUndispatched(s)
    && BranchesExclusive(s) && CallsDispatched(s) && RecordsShaped(s)
  }

  lemma StartInv(cmd: CommandInfo)
    ensures Inv(Start(cmd))
  {
  }

  // ---------------------------------------------------------------- what a worker's step does

  /** What a step of process `w` leaves alone. */
  ghost predicate OnlyWorker(s: World, t: World, w: ProcId)
    requires w in s.workers
  {
    && w in t.workers && t.workers == s.workers[w := t.workers[w]]
    && t.workers[w].run == s.workers[w].run && t.workers[w].args == s.workers[w].args
    && t.redrivers == s.redrivers && t.minted == s.minted && t.toSpawn == s.toSpawn && t.cmd == s.cmd
    && t.row.child == s.row.child
    && (forall r :: r != s.workers[w].run ==> (r in t.disk <==> r in s.disk) && (r in s.disk ==> t.disk[r] == s.disk[r]))
    && (forall r :: r != s.workers[w].run ==> (r in t.locks <==> r in s.locks) && (r in s.locks ==> t.locks[r] == s.locks[r]))
  }

  lemma EndFrame(hash: Bytes -> Digest, s: World, w: ProcId, a: WorkerStep)
    requires CanWork(hash, s, w, a) && (a.FailEarly? || a.Finish? || a.Crash?)
    ensures OnlyWorker(s, DoWork(hash, s, w, a), w)
  {
    hide R.Reduce, Follows;
  }

  lemma WriteFrame(hash: Bytes -> Digest, s: World, w: ProcId, a: WorkerStep)
    requires CanWork(hash, s, w, a) && (a.WriteSidecars? || a.Append? || a.AddWorktree?)
    ensures OnlyWorker(s, DoWork(hash, s, w, a), w)
  {
    hide R.Reduce, Follows, WithSidecars;
  }

  lemma MoveFrame(hash: Bytes -> Digest, s: World, w: ProcId, a: WorkerStep)
    requires CanWork(hash, s, w, a) && (a.TryLock? || a.CheckBinding? || a.Attach? || a.CallProvider?)
    ensures OnlyWorker(s, DoWork(hash, s, w, a), w)
  {
    hide R.Reduce, Follows, RecordOf;
  }

  lemma WorkFrame(hash: Bytes -> Digest, s: World, w: ProcId, a: WorkerStep)
    requires CanWork(hash, s, w, a)
    ensures OnlyWorker(s, DoWork(hash, s, w, a), w)
  {
    hide R.Reduce, Follows, DoWork, OnlyWorker;
    if a.FailEarly? || a.Finish? || a.Crash? {
      EndFrame(hash, s, w, a);
    } else if a.WriteSidecars? || a.Append? || a.AddWorktree? {
      WriteFrame(hash, s, w, a);
    } else {
      MoveFrame(hash, s, w, a);
    }
  }

  lemma LocksAfter(hash: Bytes -> Digest, s: World, w: ProcId, a: WorkerStep)
    requires CanWork(hash, s, w, a)
    requires s.workers[w].pc in {Holding, Cleared, Ready, Branched, Called} ==>
               s.workers[w].run in s.locks && s.locks[s.workers[w].run] == ByWorker(w)
    ensures var t, run := DoWork(hash, s, w, a), s.workers[w].run;
            && w in t.workers
            && (t.workers[w].pc in {Holding, Cleared, Ready, Branched, Called} ==> run in t.locks && t.locks[run] == ByWorker(w))
            && (run in s.locks && s.locks[run] != ByWorker(w) ==> run in t.locks && t.locks[run] == s.locks[run])
  {
    hide R.Reduce, Follows, RecordOf, WithSidecars;
  }

  /** A step creates the branch of its run exactly when it adds the worktree and the branch is free. */
  predicate Branches(s: World, w: ProcId, a: WorkerStep) { w in s.workers && a.AddWorktree? && s.workers[w].run !in s.branches }

  predicate Ending(a: WorkerStep) { a.FailEarly? || a.Finish? || a.Crash? }

  lemma EndAfter(hash: Bytes -> Digest, s: World, w: ProcId, a: WorkerStep)
    requires CanWork(hash, s, w, a) && Ending(a)
    ensures w in DoWork(hash, s, w, a).workers && DoWork(hash, s, w, a).workers[w] == s.workers[w].(pc := Gone)
    ensures DoWork(hash, s, w, a).branches == s.branches && DoWork(hash, s, w, a).calls == s.calls
  {
    hide R.Reduce, Follows, RecordOf, WithSidecars, CloseIfBound;
  }

  lemma WrittenAfter(hash: Bytes -> Digest, s: World, w: ProcId, a: WorkerStep)
    requires CanWork(hash, s, w, a)
    ensures w in DoWork(hash, s, w, a).workers
    ensures DoWork(hash, s, w, a).workers[w].written == s.workers[w].written + if a.Append? then [a.k] else []
  {
    hide R.Reduce, Follows, RecordOf, WithSidecars;
    if Ending(a) {
      EndAfter(hash, s, w, a);
      hide DoWork;
    }
  }

  lemma OwnershipAfter(hash: Bytes -> Digest, s: World, w: ProcId, a: WorkerStep)
    requires CanWork(hash, s, w, a)
    ensures w in DoWork(hash, s, w, a).workers
    ensures DoWork(hash, s, w, a).workers[w].ownsBranch == (s.workers[w].ownsBranch || Branches(s, w, a))
    ensures DoWork(hash, s, w, a).branches == s.branches + if Branches(s, w, a) then {s.workers[w].run} else {}
  {
    hide R.Reduce, Follows, RecordOf, WithSidecars;
    if Ending(a) {
      EndAfter(hash, s, w, a);
      hide DoWork;
    }
  }

  lemma CallsAfter(hash: Bytes -> Digest, s: World, w: ProcId, a: WorkerStep)
    requires CanWork(hash, s, w, a)
    ensures DoWork(hash, s, w, a).calls == s.calls + if a.CallProvider? then [w] else []
  {
    hide R.Reduce, Follows, RecordOf, WithSidecars;
  }

  /** Which stages a step can reach from which. */
  lemma StageAfter(hash: Bytes -> Digest, s: World, w: ProcId, a: WorkerStep)
    requires CanWork(hash, s, w, a)
    ensures var t, pc := DoWork(hash, s, w, a), s.workers[w].pc;
            && w in t.workers
            && var pc' := t.workers[w].pc;
            && (pc' in {Branched, Called} ==> pc in {Branched, Called} || Branches(s, w, a))
            && (pc in {Branched, Called, Gone} || Branches(s, w, a) ==> pc' in {Branched, Called, Gone})
            && (pc' in {Cleared, Ready, Branched, Called} ==> pc in {Cleared, Ready, Branched, Called} || s.row.child == Some(s.workers[w].run))
            && (pc' in {Ready, Branched, Called} ==> pc in {Ready, Branched, Called} || a.WriteSidecars?)
            && (pc' in {Starting, Holding, Cleared} ==> pc in {Starting, Holding, Cleared} && !a.Append?)
            && (pc in {Called, Gone} || a.CallProvider? ==> pc' in {Called, Gone})
  {
    hide R.Reduce, Follows, RecordOf, WithSidecars;
    if Ending(a) {
      EndAfter(hash, s, w, a);
      hide DoWork;
    }
  }

  /** The four ways a process can leave its run directory. */
  lemma RecordAfter(hash: Bytes -> Digest, s: World, w: ProcId, a: WorkerStep)
    requires CanWork(hash, s, w, a)
    ensures var t, me := DoWork(hash, s, w, a), s.workers[w];
            var rec, rec' := RecordOf(s, me.run), RecordOf(t, me.run);
            && rec' == (match a
                        case Append(k) => rec.(kinds := rec.kinds + [k])
                        case WriteSidecars => WithSidecars(hash, rec, me.run, me.args)
                        case Crash(torn) => if torn && me.pc in {Ready, Branched, Called} then rec.(intact := false) else rec
                        case _ => rec)
            && (me.run in t.disk <==> me.run in s.disk || a.WriteSidecars? || a.Append? || (a.Crash? && a.torn && me.pc in {Ready, Branched, Called}))
  {
    hide R.Reduce, Follows, WithSidecars;
  }

  lemma SidecarsKeepKinds(hash: Bytes -> Digest, rec: Record, run: RunId, cmd: CommandInfo)
    ensures WithSidecars(hash, rec, run, cmd).kinds == rec.kinds
  {
  }

  /** The events of the record after a step, and nothing else about it. */
  lemma KindsAfter(hash: Bytes -> Digest, s: World, w: ProcId, a: WorkerStep)
    requires CanWork(hash, s, w, a)
    ensures RecordOf(DoWork(hash, s, w, a), s.workers[w].run).kinds
            == RecordOf(s, s.workers[w].run).kinds + (if a.Append? then [a.k] else [])
  {
    RecordAfter(hash, s, w, a);
    SidecarsKeepKinds(hash, RecordOf(s, s.workers[w].run), s.workers[w].run, s.workers[w].args);
    hide DoWork, CanWork, WithSidecars;
  }

  // ---------------------------------------------------------------- workers keep the invariant

  lemma WorkKeepsLocks(hash: Bytes -> Digest, s: World, w: ProcId, a: WorkerStep)
    requires LocksHeld(s) && CanWork(hash, s, w, a)
    ensures LocksHeld(DoWork(hash, s, w, a))
  {
    hide R.Reduce, Follows, DoWork;
    WorkFrame(hash, s, w, a);
    LocksAfter(hash, s, w, a);
  }

  lemma WorkKeepsBound(hash: Bytes -> Digest, s: World, w: ProcId, a: WorkerStep)
    requires ClearedIsBound(s) && CanWork(hash, s, w, a)
    ensures ClearedIsBound(DoWork(hash, s, w, a))
  {
    hide R.Reduce, Follows, DoWork;
    WorkFrame(hash, s, w, a);
    StageAfter(hash, s, w, a);
    hide CanWork;
  }

  /** Only the owner of the branch, at the boundary, turns a record into a dispatched one. */
  lemma DispatchedAfter(hash: Bytes -> Digest, s: World, w: ProcId, a: WorkerStep)
    requires CanWork(hash, s, w, a)
    ensures var t, run := DoWork(hash, s, w, a), s.workers[w].run;
            && (Dispatched(RecordOf(s, run)) ==> Dispatched(RecordOf(t, run)))
            && (Dispatched(RecordOf(t, run)) && !Dispatched(RecordOf(s, run)) ==> a.Append? && |s.workers[w].written| == 3 && s.workers[w].pc == Branched)
            && (a.Append? && |s.workers[w].written| == 3 ==> a.k.AgentStarted? && Dispatched(RecordOf(t, run)))
            && (!Dispatched(RecordOf(s, run)) ==> OneBoundary(RecordOf(t, run)))
            && (OneBoundary(RecordOf(s, run)) && !(a.Append? && |s.workers[w].written| == 3) ==> OneBoundary(RecordOf(t, run)))
  {
    hide R.Reduce, DoWork, RecordOf;
    KindsAfter(hash, s, w, a);
    var ks := RecordOf(s, s.workers[w].run).kinds;
    if a.Append? {
      assert (ks + [a.k])[|ks|] == a.k;
      assert forall i :: 0 <= i < |ks| ==> (ks + [a.k])[i] == ks[i];
    } else {
      assert ks + [] == ks;
    }
  }

  /** Records of other runs are not touched, and only the branch owner's can become dispatched. */
  lemma DispatchedElsewhere(hash: Bytes -> Digest, s: World, w: ProcId, a: WorkerStep, run: RunId)
    requires CanWork(hash, s, w, a)
    ensures run != s.workers[w].run ==> RecordOf(DoWork(hash, s, w, a), run) == RecordOf(s, run)
    ensures Dispatched(RecordOf(s, run)) ==> Dispatched(RecordOf(DoWork(hash, s, w, a), run))
    ensures Dispatched(RecordOf(DoWork(hash, s, w, a), run)) && !Dispatched(RecordOf(s, run)) ==>
              run == s.workers[w].run && s.workers[w].pc == Branched && |s.workers[w].written| == 3
  {
    hide R.Reduce, Follows, DoWork, Dispatched, OneBoundary;
    WorkFrame(hash, s, w, a);
    DispatchedAfter(hash, s, w, a);
    hide CanWork;
  }

  lemma NothingIsUndispatched()
    ensures !Dispatched(Empty)
  {
  }

  lemma WorkKeepsDispatchedBound(hash: Bytes -> Digest, s: World, w: ProcId, a: WorkerStep)
    requires DispatchedIsBound(s) && ClearedIsBound(s) && CanWork(hash, s, w, a)
    ensures DispatchedIsBound(DoWork(hash, s, w, a))
  {
    hide R.Reduce, Follows, DoWork, Dispatched;
    var t := DoWork(hash, s, w, a);
    WorkFrame(hash, s, w, a);
    NothingIsUndispatched();
    hide CanWork;
    forall run | run in t.disk && Dispatched(t.disk[run]) ensures t.row.child == Some(run) {
      DispatchedElsewhere(hash, s, w, a, run);
    }
  }

  lemma WorkKeepsRedrivable(hash: Bytes -> Digest, s: World, w: ProcId, a: WorkerStep)
    requires RedrivableUndispatched(s) && LocksHeld(s) && CanWork(hash, s, w, a)
    ensures RedrivableUndispatched(DoWork(hash, s, w, a))
  {
    hide R.Reduce, Follows, DoWork, Dispatched, RecordOf;
    var t := DoWork(hash, s, w, a);
    WorkFrame(hash, s, w, a);
    hide CanWork;
    forall d | d in t.redrivers && t.redrivers[d].pc == Redrivable ensures !Dispatched(RecordOf(t, t.redrivers[d].target)) {
      DispatchedElsewhere(hash, s, w, a, t.redrivers[d].target);
    }
  }

  // ---------------------------------------------------------------- the branch

  /** A dispatched record has its branch. */
  lemma DispatchedHasBranch(s: World, run: RunId)
    requires BranchesExclusive(s) && Dispatched(RecordOf(s, run))
    ensures run in s.disk && run in s.branches
  {
    NothingIsUndispatched();
    hide Dispatched;
    assert run in s.disk ==> RecordBehindBranch(s, run);
  }

  lemma WorkKeepsOwner(hash: Bytes -> Digest, s: World, w: ProcId, a: WorkerStep)
    requires BranchesExclusive(s) && CanWork(hash, s, w, a)
    ensures WorkerBehindBranch(DoWork(hash, s, w, a), w)
  {
    hide R.Reduce, Follows, DoWork, Dispatched, RecordOf, OneBoundary;
    WorkFrame(hash, s, w, a);
    WrittenAfter(hash, s, w, a);
    OwnershipAfter(hash, s, w, a);
    StageAfter(hash, s, w, a);
    DispatchedAfter(hash, s, w, a);
    assert WorkerBehindBranch(s, w);
    if Branches(s, w, a) && Dispatched(RecordOf(s, s.workers[w].run)) {
      DispatchedHasBranch(s, s.workers[w].run);
    }
  }

  lemma WorkKeepsOthers(hash: Bytes -> Digest, s: World, w: ProcId, a: WorkerStep, v: ProcId)
    requires BranchesExclusive(s) && CanWork(hash, s, w, a) && v in s.workers && v != w
    ensures v in DoWork(hash, s, w, a).workers && WorkerBehindBranch(DoWork(hash, s, w, a), v)
  {
    hide R.Reduce, Follows, DoWork, Dispatched, RecordOf, OneBoundary;
    WorkFrame(hash, s, w, a);
    OwnershipAfter(hash, s, w, a);
    DispatchedElsewhere(hash, s, w, a, s.workers[v].run);
    hide CanWork;
    assert WorkerBehindBranch(s, v) && WorkerBehindBranch(s, w);
    assert Owns(s, v, s.workers[v].run) == s.workers[v].ownsBranch;
    assert Owns(s, w, s.workers[v].run) == (s.workers[w].ownsBranch && s.workers[w].run == s.workers[v].run);
  }

  lemma WorkKeepsRecordBranch(hash: Bytes -> Digest, s: World, w: ProcId, a: WorkerStep, run: RunId)
    requires BranchesExclusive(s) && CanWork(hash, s, w, a) && run in DoWork(hash, s, w, a).disk
    ensures RecordBehindBranch(DoWork(hash, s, w, a), run)
  {
    hide R.Reduce, Follows, DoWork, Dispatched, OneBoundary;
    var t := DoWork(hash, s, w, a);
    WorkFrame(hash, s, w, a);
    OwnershipAfter(hash, s, w, a);
    DispatchedElsewhere(hash, s, w, a, run);
    DispatchedAfter(hash, s, w, a);
    assert WorkerBehindBranch(s, w);
    assert run in s.disk ==> RecordBehindBranch(s, run);
    NothingIsUndispatched();
  }

  lemma WorkKeepsBranches(hash: Bytes -> Digest, s: World, w: ProcId, a: WorkerStep)
    requires BranchesExclusive(s) && CanWork(hash, s, w, a)
    ensures BranchesExclusive(DoWork(hash, s, w, a))
  {
    hide R.Reduce, Follows, DoWork, WorkerBehindBranch, RecordBehindBranch;
    var t := DoWork(hash, s, w, a);
    WorkFrame(hash, s, w, a);
    OwnershipAfter(hash, s, w, a);
    hide CanWork;
    forall v | v in t.workers ensures WorkerBehindBranch(t, v) {
      if v == w {
        WorkKeepsOwner(hash, s, w, a);
      } else {
        WorkKeepsOthers(hash, s, w, a, v);
      }
    }
    forall run | run in t.disk ensures RecordBehindBranch(t, run) {
      WorkKeepsRecordBranch(hash, s, w, a, run);
    }
    forall v, u, run | Owns(t, v, run) && Owns(t, u, run) ensures v == u {
      OwnsBefore(hash, s, w, a, v, run);
      OwnsBefore(hash, s, w, a, u, run);
    }
  }

  /** An owner owned before, unless it is the process that just created a branch nobody had. */
  lemma OwnsBefore(hash: Bytes -> Digest, s: World, w: ProcId, a: WorkerStep, v: ProcId, run: RunId)
    requires BranchesExclusive(s) && CanWork(hash, s, w, a) && Owns(DoWork(hash, s, w, a), v, run)
    ensures (Owns(s, v, run) && run in s.branches) || (v == w && run !in s.branches)
  {
    hide R.Reduce, Follows, DoWork, Dispatched, RecordOf;
    WorkFrame(hash, s, w, a);
    OwnershipAfter(hash, s, w, a);
    assert WorkerBehindBranch(s, v);
  }

  lemma CallerOwnsBound(s: World, v: ProcId)
    requires BranchesExclusive(s) && DispatchedIsBound(s) && CallsDispatched(s) && v in s.calls
    ensures v in s.workers && s.workers[v].pc in {Called, Gone} && s.row.child == Some(s.workers[v].run)
    ensures Owns(s, v, s.workers[v].run)
  {
    hide Dispatched;
    assert WorkerBehindBranch(s, v);
    DispatchedHasBranch(s, s.workers[v].run);
  }

  lemma BranchedOwnsBound(s: World, w: ProcId)
    requires BranchesExclusive(s) && ClearedIsBound(s) && WorkerAt(s, w, {Branched})
    ensures Owns(s, w, s.workers[w].run) && s.row.child == Some(s.workers[w].run)
  {
    hide Dispatched;
    assert WorkerBehindBranch(s, w);
  }

  /**
   A process past the branch that has not called the provider is the first that can: an
   earlier caller's record is dispatched, hence bound, hence this very run, whose branch
   has one owner.
   */
  lemma ReadyIsFirst(s: World, w: ProcId)
    requires Inv(s) && WorkerAt(s, w, {Branched})
    ensures s.calls == []
  {
    hide Dispatched, LocksHeld, RedrivableUndispatched, RecordsShaped;
    if s.calls != [] {
      var v := s.calls[0];
      CallerOwnsBound(s, v);
      BranchedOwnsBound(s, w);
    }
  }

  lemma WorkKeepsCalls(hash: Bytes -> Digest, s: World, w: ProcId, a: WorkerStep)
    requires CallsDispatched(s) && CanWork(hash, s, w, a) && (a.CallProvider? ==> s.calls == [])
    ensures CallsDispatched(DoWork(hash, s, w, a))
  {
    hide R.Reduce, Follows, DoWork;
    WorkFrame(hash, s, w, a);
    CallsAfter(hash, s, w, a);
    WrittenAfter(hash, s, w, a);
    StageAfter(hash, s, w, a);
    assert a.CallProvider? ==> |s.workers[w].written| >= 4;
    hide CanWork;
  }

  // ---------------------------------------------------------------- the shape of records

  lemma ScriptedSnoc(ks: seq<R.Kind>, k: R.Kind)
    requires Scripted(ks) && Follows(ks, k) && R.Reduce(ks + [k]).Ok?
    ensures Scripted(ks + [k])
  {
    hide R.Reduce;
    forall i | 0 <= i < |ks + [k]| ensures Follows((ks + [k])[..i], (ks + [k])[i]) {
      if i < |ks| {
        assert (ks + [k])[..i] == ks[..i];
      } else {
        assert (ks + [k])[..i] == ks;
      }
    }
  }

  lemma EmptyIsScripted()
    ensures Scripted([])
  {
  }

  /** A record that ends in a process's own chain keeps its shape when that process appends. */
  lemma AppendKeepsShape(ks: seq<R.Kind>, own: seq<R.Kind>, k: R.Kind)
    requires Scripted(ks) || Restarted(ks)
    requires EndsIn(ks, own) && Scripted(own) && Scripted(own + [k])
    ensures EndsIn(ks + [k], own + [k])
    ensures Scripted(ks + [k]) || Restarted(ks + [k])
  {
    hide R.Reduce;
    var all, chain, at := ks + [k], own + [k], |ks| - |own|;
    assert all[at..] == ks[at..] + [k];
    assert Follows(chain[..0], chain[0]);
    assert all[at] == all[at..][0] == chain[0];
    if at == 0 {
      assert all == chain;
    } else {
      assert Restarted(all);
    }
  }

  /** Two processes at work never share a run. */
  lemma OneAtWork(s: World, v: ProcId, w: ProcId)
    requires LocksHeld(s) && WorkerAt(s, v, {Cleared, Ready, Branched, Called}) && WorkerAt(s, w, {Cleared, Ready, Branched, Called})
    requires s.workers[v].run == s.workers[w].run
    ensures v == w
  {
  }

  lemma WorkKeepsEnd(hash: Bytes -> Digest, s: World, w: ProcId, a: WorkerStep)
    requires RecordsShaped(s) && CanWork(hash, s, w, a)
    ensures AtTheEnd(DoWork(hash, s, w, a), w)
    ensures var ks := RecordOf(DoWork(hash, s, w, a), s.workers[w].run).kinds; Scripted(ks) || Restarted(ks)
  {
    hide R.Reduce, Follows, DoWork, Scripted, Restarted, WithSidecars;
    var t, run := DoWork(hash, s, w, a), s.workers[w].run;
    assert AtTheEnd(s, w);
    EmptyIsScripted();
    WorkFrame(hash, s, w, a);
    WrittenAfter(hash, s, w, a);
    StageAfter(hash, s, w, a);
    KindsAfter(hash, s, w, a);
    RecordAfter(hash, s, w, a);
    if a.Append? {
      ScriptedSnoc(s.workers[w].written, a.k);
      AppendKeepsShape(s.disk[run].kinds, s.workers[w].written, a.k);
    } else {
      assert s.workers[w].written + [] == s.workers[w].written;
      assert RecordOf(s, run).kinds + [] == RecordOf(s, run).kinds;
    }
  }

  lemma WorkKeepsShaped(hash: Bytes -> Digest, s: World, w: ProcId, a: WorkerStep)
    requires RecordsShaped(s) && LocksHeld(s) && CanWork(hash, s, w, a)
    ensures RecordsShaped(DoWork(hash, s, w, a))
  {
    hide R.Reduce, Follows, DoWork, Scripted, Restarted, EndsIn;
    var t, run := DoWork(hash, s, w, a), s.workers[w].run;
    WorkFrame(hash, s, w, a);
    WorkKeepsEnd(hash, s, w, a);
    forall v | v in t.workers ensures AtTheEnd(t, v) {
      if v != w {
        assert AtTheEnd(s, v);
        if s.workers[v].run == run && s.workers[v].pc in {Ready, Branched, Called} {
          RestingKeepsDisk(hash, s, v, w, a);
        }
      }
    }
  }

  /** While another process holds the lock of its run, a process cannot touch the record. */
  lemma RestingKeepsDisk(hash: Bytes -> Digest, s: World, v: ProcId, w: ProcId, a: WorkerStep)
    requires LocksHeld(s) && CanWork(hash, s, w, a) && v != w
    requires WorkerAt(s, v, {Ready, Branched, Called}) && s.workers[v].run == s.workers[w].run
    ensures DoWork(hash, s, w, a).disk == s.disk
  {
    hide R.Reduce, Follows;
    if s.workers[w].pc in {Cleared, Ready, Branched, Called} {
      OneAtWork(s, v, w);
    }
  }

  lemma WorkKeepsInv(hash: Bytes -> Digest, s: World, w: ProcId, a: WorkerStep)
    requires Inv(s) && CanWork(hash, s, w, a)
    ensures Inv(DoWork(hash, s, w, a))
  {
    if a.CallProvider? {
      ReadyIsFirst(s, w);
    }
    hide R.Reduce, DoWork, LocksHeld, ClearedIsBound, DispatchedIsBound, RedrivableUndispatched, BranchesExclusive, RecordsShaped, CallsDispatched;
    WorkKeepsLocks(hash, s, w, a);
    WorkKeepsBound(hash, s, w, a);
    WorkKeepsDispatchedBound(hash, s, w, a);
    WorkKeepsRedrivable(hash, s, w, a);
    WorkKeepsBranches(hash, s, w, a);
    WorkKeepsShaped(hash, s, w, a);
    WorkKeepsCalls(hash, s, w, a);
  }

  // ---------------------------------------------------------------- redrivers keep the invariant

  /** What a step of redriver `d` leaves alone. */
  ghost predicate OnlyRedriver(s: World, t: World, d: ProcId) {
    && d in t.redrivers && t.redrivers == s.redrivers[d := t.redrivers[d]]
    && (d in s.redrivers ==> t.redrivers[d].target == s.redrivers[d].target)
    && t.workers == s.workers && t.disk == s.disk && t.calls == s.calls && t.cmd == s.cmd && t.branches == s.branches
    && s.minted <= t.minted && (forall r :: r in t.toSpawn ==> r in s.toSpawn || (r in t.minted && r !in s.minted))
    && (forall r :: r != t.redrivers[d].target ==> (r in t.locks <==> r in s.locks) && (r in s.locks ==> t.locks[r] == s.locks[r]))
    && (t.row.child != s.row.child ==> d in s.redrivers && s.redrivers[d].pc == Redrivable && s.row.child == Some(s.redrivers[d].target))
  }

  lemma RebindFrame(hash: Bytes -> Digest, s: World, d: ProcId, newId: RunId, now: nat)
    requires CanRedrive(s, d, Rebind(newId, now))
    ensures OnlyRedriver(s, DoRedrive(hash, s, d, Rebind(newId, now)), d)
  {
    hide Classify;
  }

  lemma DecideFrame(hash: Bytes -> Digest, s: World, d: ProcId)
    requires CanRedrive(s, d, Decide)
    ensures OnlyRedriver(s, DoRedrive(hash, s, d, Decide), d)
  {
    hide Classify;
  }

  lemma RedriveFrame(hash: Bytes -> Digest, s: World, d: ProcId, a: RedriveStep)
    requires CanRedrive(s, d, a)
    ensures OnlyRedriver(s, DoRedrive(hash, s, d, a), d)
  {
    hide Classify;
    if a.Rebind? {
      RebindFrame(hash, s, d, a.newId, a.now);
      hide DoRedrive, OnlyRedriver;
    } else if a.Decide? {
      DecideFrame(hash, s, d);
      hide DoRedrive, OnlyRedriver;
    }
  }

  lemma RedriveKeepsLocks(hash: Bytes -> Digest, s: World, d: ProcId, a: RedriveStep)
    requires LocksHeld(s) && CanRedrive(s, d, a)
    ensures LocksHeld(DoRedrive(hash, s, d, a))
  {
    hide Classify;
    RedriveFrame(hash, s, d, a);
  }

  /** A rebind moves the command only off a record that is not dispatched and that nobody works on. */
  lemma RedriveKeepsBound(hash: Bytes -> Digest, s: World, d: ProcId, a: RedriveStep)
    requires Inv(s) && CanRedrive(s, d, a)
    ensures ClearedIsBound(DoRedrive(hash, s, d, a)) && DispatchedIsBound(DoRedrive(hash, s, d, a))
  {
    hide R.Reduce, Classify, DoRedrive, Dispatched, BranchesExclusive, CallsDispatched, RecordsShaped;
    RedriveFrame(hash, s, d, a);
  }

  lemma RedriveKeepsRedrivable(hash: Bytes -> Digest, s: World, d: ProcId, a: RedriveStep)
    requires RedrivableUndispatched(s) && CanRedrive(s, d, a)
    ensures RedrivableUndispatched(DoRedrive(hash, s, d, a))
  {
    hide R.Reduce, Classify, Dispatched;
    RedriveFrame(hash, s, d, a);
    if a.Decide? && Classify(hash, RecordOf(s, s.redrivers[d].target), s.redrivers[d].target, s.cmd) in {Absent, PreDispatch} {
      RedrivableIsUndispatched(hash, RecordOf(s, s.redrivers[d].target), s.redrivers[d].target, s.cmd);
    }
  }

  /** Nothing the branches, the calls and the records depend on changed. */
  lemma SameProcesses(s: World, t: World)
    requires BranchesExclusive(s) && CallsDispatched(s) && RecordsShaped(s)
    requires t.disk == s.disk && t.workers == s.workers && t.branches == s.branches && t.calls == s.calls
    ensures BranchesExclusive(t) && CallsDispatched(t) && RecordsShaped(t)
  {
    hide Dispatched, OneBoundary, Scripted, Restarted, EndsIn;
    forall w | w in t.workers ensures WorkerBehindBranch(t, w) && AtTheEnd(t, w) {
      assert WorkerBehindBranch(s, w) && AtTheEnd(s, w);
    }
    forall run | run in t.disk ensures RecordBehindBranch(t, run) {
      assert RecordBehindBranch(s, run);
    }
    forall v, w, run | Owns(t, v, run) && Owns(t, w, run) ensures v == w {
      assert Owns(s, v, run) && Owns(s, w, run);
    }
  }

  lemma RedriveKeepsInv(hash: Bytes -> Digest, s: World, d: ProcId, a: RedriveStep)
    requires Inv(s) && CanRedrive(s, d, a)
    ensures Inv(DoRedrive(hash, s, d, a))
  {
    RedriveKeepsBound(hash, s, d, a);
    hide R.Reduce, Classify, DoRedrive, LocksHeld, ClearedIsBound, DispatchedIsBound, RedrivableUndispatched, BranchesExclusive, CallsDispatched, RecordsShaped;
    RedriveFrame(hash, s, d, a);
    RedriveKeepsLocks(hash, s, d, a);
    RedriveKeepsRedrivable(hash, s, d, a);
    SameProcesses(s, DoRedrive(hash, s, d, a));
  }

  // ---------------------------------------------------------------- every step keeps the invariant

  lemma SpawnKeepsProcesses(s: World, w: ProcId, run: RunId, args: CommandInfo)
    requires BranchesExclusive(s) && CallsDispatched(s) && RecordsShaped(s) && w !in s.workers
    ensures var t := AddWorker(s, w, run, args); BranchesExclusive(t) && CallsDispatched(t) && RecordsShaped(t)
  {
    EmptyIsScripted();
    hide Dispatched, OneBoundary, Scripted, Restarted, EndsIn;
    var t := AddWorker(s, w, run, args);
    forall v | v in t.workers ensures WorkerBehindBranch(t, v) && AtTheEnd(t, v) {
      assert v != w ==> WorkerBehindBranch(s, v) && AtTheEnd(s, v);
    }
    forall r | r in t.disk ensures RecordBehindBranch(t, r) {
      assert RecordBehindBranch(s, r);
    }
    forall u, v, r | Owns(t, u, r) && Owns(t, v, r) ensures u == v {
      assert Owns(s, u, r) && Owns(s, v, r);
    }
  }

  lemma SpawnKeepsInv(s: World, w: ProcId, run: RunId, args: CommandInfo)
    requires Inv(s) && w !in s.workers
    ensures Inv(AddWorker(s, w, run, args))
  {
    SpawnKeepsProcesses(s, w, run, args);
    hide Dispatched, BranchesExclusive, CallsDispatched, RecordsShaped;
  }

  /** Only what the service itself keeps moved, and a bound command stays bound. */
  lemma ServiceKeepsInv(s: World, t: World)
    requires Inv(s)
    requires t == s.(row := t.row, minted := t.minted, toSpawn := t.toSpawn)
    requires s.row.child.Some? ==> t.row.child == s.row.child
    ensures Inv(t)
  {
    SameProcesses(s, t);
    hide Dispatched, BranchesExclusive, CallsDispatched, RecordsShaped;
  }

  /** Every step of every process, started by the service or by hand, keeps the invariant. */
  lemma StepKeepsInv(hash: Bytes -> Digest, s: World, a: Step)
    requires Inv(s) && Enabled(hash, s, a)
    ensures Inv(Next(hash, s, a))
  {
    hide R.Reduce, DoRedrive, DoWork, Inv;
    match a {
      case Work(w, work) => WorkKeepsInv(hash, s, w, work);
      case Redrive(d, redrive) => RedriveKeepsInv(hash, s, d, redrive);
      case Spawn(w, run) =>
        SpawnKeepsInv(s, w, run, s.cmd);
        ServiceKeepsInv(AddWorker(s, w, run, s.cmd), Next(hash, s, a));
      case ManualSpawn(w, run, args) => SpawnKeepsInv(s, w, run, args);
      case Bind(_) => ServiceKeepsInv(s, Next(hash, s, a));
      case SpawnLost(_) => ServiceKeepsInv(s, Next(hash, s, a));
      case Bookkeep(_, _) => ServiceKeepsInv(s, Next(hash, s, a));
    }
  }

  lemma {:induction false} RunsKeepInv(hash: Bytes -> Digest, s: World, steps: seq<Step>, t: World)
    requires Inv(s) && Runs(hash, s, steps, t)
    ensures Inv(t)
    decreases |steps|
  {
    hide R.Reduce, Inv;
    if steps != [] {
      StepKeepsInv(hash, s, steps[0]);
      RunsKeepInv(hash, Next(hash, s, steps[0]), steps[1..], t);
    }
  }

  // ---------------------------------------------------------------- at most one call

  /** An `AgentStarted` event at a position of a run's record. */
  ghost predicate PassedBoundary(s: World, run: RunId, i: nat) {
    run in s.disk && i < |s.disk[run].kinds| && s.disk[run].kinds[i].AgentStarted?
  }

  lemma BoundaryIsDispatched(s: World, run: RunId, i: nat)
    requires PassedBoundary(s, run, i)
    ensures Dispatched(RecordOf(s, run))
  {
  }

  lemma BoundaryIsBound(s: World, run: RunId, i: nat)
    requires DispatchedIsBound(s) && PassedBoundary(s, run, i)
    ensures s.row.child == Some(run)
  {
    BoundaryIsDispatched(s, run, i);
    hide Dispatched;
  }

  /**
   At most one provider call per command, whatever the interleaving of handlers,
   redrivers and workers, wherever any of them dies, and whatever processes are started
   by hand beside them.
   */
  lemma AtMostOneCall(hash: Bytes -> Digest, cmd: CommandInfo, steps: seq<Step>, t: World)
    requires Runs(hash, Start(cmd), steps, t)
    ensures |t.calls| <= 1
    ensures forall run, run', i, j :: PassedBoundary(t, run, i) && PassedBoundary(t, run', j) ==> run == run' && i == j
    ensures forall run, i :: PassedBoundary(t, run, i) ==> t.row.child == Some(run)
    ensures forall w :: w in t.calls ==> w in t.workers && exists i :: PassedBoundary(t, t.workers[w].run, i)
  {
    hide R.Reduce, Runs;
    StartInv(cmd);
    RunsKeepInv(hash, Start(cmd), steps, t);
    forall run, i | PassedBoundary(t, run, i) ensures t.row.child == Some(run) {
      BoundaryIsBound(t, run, i);
    }
    forall run, i, j | PassedBoundary(t, run, i) && PassedBoundary(t, run, j) ensures i == j {
      assert RecordBehindBranch(t, run);
    }
    forall w | w in t.calls ensures w in t.workers && exists i :: PassedBoundary(t, t.workers[w].run, i) {
      CallerPassedBoundary(t, w);
    }
  }

  lemma CallerPassedBoundary(s: World, w: ProcId)
    requires Inv(s) && w in s.calls
    ensures w in s.workers && exists i :: PassedBoundary(s, s.workers[w].run, i)
  {
    CallerOwnsBound(s, w);
    var run := s.workers[w].run;
    assert WorkerBehindBranch(s, w);
    var i :| 0 <= i < |RecordOf(s, run).kinds| && RecordOf(s, run).kinds[i].AgentStarted?;
    assert PassedBoundary(s, run, i);
  }

  lemma StepKeepsBoundary(hash: Bytes -> Digest, s: World, a: Step, run: RunId, i: nat)
    requires Enabled(hash, s, a) && PassedBoundary(s, run, i)
    ensures PassedBoundary(Next(hash, s, a), run, i)
  {
    hide R.Reduce, DoRedrive, DoWork;
    if a.Redrive? {
      RedriveFrame(hash, s, a.d, a.redrive);
    } else if a.Work? {
      WorkFrame(hash, s, a.w, a.work);
      KindsAfter(hash, s, a.w, a.work);
      RecordAfter(hash, s, a.w, a.work);
      hide CanWork;
    }
  }

  lemma {:induction false} RunsKeepBoundary(hash: Bytes -> Digest, s: World, steps: seq<Step>, t: World, run: RunId, i: nat)
    requires Runs(hash, s, steps, t) && PassedBoundary(s, run, i)
    ensures PassedBoundary(t, run, i)
    decreases |steps|
  {
    hide R.Reduce, PassedBoundary;
    if steps != [] {
      StepKeepsBoundary(hash, s, steps[0], run, i);
      RunsKeepBoundary(hash, Next(hash, s, steps[0]), steps[1..], t, run, i);
    }
  }

  /** Once a run has passed the boundary its command is bound to it for ever. */
  lemma BindingFrozenAfterDispatch(
    hash: Bytes -> Digest, cmd: CommandInfo, steps: seq<Step>, s: World, more: seq<Step>, t: World, run: RunId, i: nat)
    requires Runs(hash, Start(cmd), steps, s) && Runs(hash, s, more, t)
    requires PassedBoundary(s, run, i)
    ensures t.row.child == Some(run)
  {
    hide R.Reduce, Runs;
    StartInv(cmd);
    hide PassedBoundary;
    RunsKeepInv(hash, Start(cmd), steps, s);
    RunsKeepInv(hash, s, more, t);
    RunsKeepBoundary(hash, s, more, t, run, i);
    BoundaryIsBound(t, run, i);
  }

  // ---------------------------------------------------------------- a materialized run id is closed

  /** The branch of the run exists and this process did not create it. */
  predicate ClosedTo(s: World, w: ProcId, run: RunId) { run in s.branches && !Owns(s, w, run) }

  predicate KeepsRun(s: World, t: World, w: ProcId)
    requires w in s.workers
  {
    w in t.workers && t.workers[w].run == s.workers[w].run
  }

  lemma StepKeepsClosed(hash: Bytes -> Digest, s: World, a: Step, w: ProcId, run: RunId)
    requires Enabled(hash, s, a) && ClosedTo(s, w, run)
    ensures ClosedTo(Next(hash, s, a), w, run) && (w in s.workers ==> KeepsRun(s, Next(hash, s, a), w))
  {
    hide R.Reduce, DoRedrive, DoWork;
    if a.Redrive? {
      RedriveFrame(hash, s, a.d, a.redrive);
    } else if a.Work? {
      WorkFrame(hash, s, a.w, a.work);
      OwnershipAfter(hash, s, a.w, a.work);
      hide CanWork;
    }
  }

  lemma {:induction false} RunsKeepClosed(hash: Bytes -> Digest, s: World, steps: seq<Step>, t: World, w: ProcId, run: RunId)
    requires Runs(hash, s, steps, t) && ClosedTo(s, w, run)
    ensures ClosedTo(t, w, run) && (w in s.workers ==> KeepsRun(s, t, w))
    decreases |steps|
  {
    hide R.Reduce, ClosedTo;
    if steps != [] {
      StepKeepsClosed(hash, s, steps[0], w, run);
      RunsKeepClosed(hash, Next(hash, s, steps[0]), steps[1..], t, w, run);
    }
  }

  /** How far a process must be to have appended past materialization or called the provider. */
  predicate PastBranch(s: World, w: ProcId, run: RunId) {
    w in s.workers && s.workers[w].run == run && (|s.workers[w].written| >= 3 || w in s.calls)
  }

  lemma PastBranchOwns(s: World, w: ProcId, run: RunId)
    requires Inv(s) && PastBranch(s, w, run)
    ensures Owns(s, w, run)
  {
    hide Dispatched;
    assert WorkerBehindBranch(s, w);
  }

  /**
   Once the branch of a run id exists, no process other than its creator ever appends
   `CandidateStateMaterialized` or `AgentStarted` under that id or calls the provider.
   */
  lemma MaterializedIdIsClosed(
    hash: Bytes -> Digest, cmd: CommandInfo, steps: seq<Step>, s: World, more: seq<Step>, t: World, run: RunId)
    requires Runs(hash, Start(cmd), steps, s) && Runs(hash, s, more, t) && run in s.branches
    ensures forall w :: PastBranch(t, w, run) ==> Owns(s, w, run)
    ensures forall v, w :: PastBranch(t, v, run) && PastBranch(t, w, run) ==> v == w
  {
    hide R.Reduce, Runs;
    StartInv(cmd);
    hide PastBranch, Owns;
    RunsKeepInv(hash, Start(cmd), steps, s);
    RunsKeepInv(hash, s, more, t);
    forall w | PastBranch(t, w, run) ensures Owns(t, w, run) && Owns(s, w, run) {
      PastBranchOwns(t, w, run);
      if !Owns(s, w, run) {
        RunsKeepClosed(hash, s, more, t, w, run);
      }
    }
  }

  lemma RunsStep(hash: Bytes -> Digest, s: World, a: Step, rest: seq<Step>, t: World)
    requires Enabled(hash, s, a) && Runs(hash, Next(hash, s, a), rest, t)
    ensures Runs(hash, s, [a] + rest, t)
  {
    assert ([a] + rest)[1..] == rest;
  }

  /** The shortest accepted path to the boundary. */
  function Opening(hash: Bytes -> Digest, args: CommandInfo): seq<R.Kind> {
    var a := R.Artifact("artifact", hash(args.text));
    [R.RunStarted(R.Contract([], true, "", None), a), R.CommandBindingCaptured(a),
     R.CandidateStateMaterialized(a, a), R.AgentStarted]
  }

  lemma OpeningAccepted(hash: Bytes -> Digest, args: CommandInfo, n: nat)
    requires n <= 4
    ensures R.Reduce(Opening(hash, args)[..n]).Ok?
  {
    var ks := Opening(hash, args);
    var s1 := R.Apply(R.Initial, ks[0]).value;
    var s2 := R.Apply(s1, ks[1]).value;
    var s3 := R.Apply(s2, ks[2]).value;
    assert R.ReduceFrom(s3, ks[3..]).Ok?;
    assert ks[2..][1..] == ks[3..] && ks[1..][1..] == ks[2..];
    assert R.ReduceFrom(s2, ks[2..]).Ok?;
    assert R.ReduceFrom(s1, ks[1..]).Ok?;
    assert R.Reduce(ks).Ok?;
    R.PrefixAccepted(ks, n);
  }

  /** A process on the shortest path: how much it has written and whether it has its branch. */
  predicate OnTheWay(hash: Bytes -> Digest, s: World, w: ProcId) {
    && w in s.workers
    && var me := s.workers[w];
    && (if me.pc == Ready then |me.written| <= 2 && me.run !in s.branches else me.pc == Branched && 2 <= |me.written| <= 4)
    && me.written == Opening(hash, me.args)[..|me.written|]
    && (|me.written| > 1 ==> me.run in s.attached)
  }

  /** The next step on that path. */
  function OnwardStep(hash: Bytes -> Digest, s: World, w: ProcId): WorkerStep
    requires OnTheWay(hash, s, w)
  {
    var me := s.workers[w];
    if |me.written| == 4 then CallProvider
    else if |me.written| == 1 && me.run !in s.attached then Attach
    else if |me.written| == 2 && me.pc == Ready then AddWorktree
    else Append(Opening(hash, me.args)[|me.written|])
  }

  lemma OnwardEnabled(hash: Bytes -> Digest, s: World, w: ProcId)
    requires OnTheWay(hash, s, w)
    ensures CanWork(hash, s, w, OnwardStep(hash, s, w))
  {
    var me := s.workers[w];
    var n := |me.written|;
    if n < 4 {
      OpeningAccepted(hash, me.args, n + 1);
      assert Opening(hash, me.args)[..n + 1] == me.written + [Opening(hash, me.args)[n]];
    }
    hide R.Reduce;
  }

  lemma OnwardStays(hash: Bytes -> Digest, s: World, w: ProcId)
    requires OnTheWay(hash, s, w) && CanWork(hash, s, w, OnwardStep(hash, s, w)) && |s.workers[w].written| < 4
    ensures OnTheWay(hash, DoWork(hash, s, w, OnwardStep(hash, s, w)), w)
  {
    hide R.Reduce, RecordOf;
    var me := s.workers[w];
    assert Opening(hash, me.args)[..|me.written| + 1] == me.written + [Opening(hash, me.args)[|me.written|]];
  }

  /** From `s` on, process `w` alone went up to its provider call. */
  predicate CalledFrom(hash: Bytes -> Digest, s: World, t: World, w: ProcId) {
    && w in s.workers && w in t.workers
    && t.workers[w].run == s.workers[w].run && t.workers[w].args == s.workers[w].args
    && t.workers[w].pc == Called && t.workers[w].written == Opening(hash, s.workers[w].args)
    && t.workers[w].run in t.attached
    && t.calls == s.calls + [w] && t.row == s.row && t.cmd == s.cmd
  }

  lemma {:induction false} OnwardCalls(hash: Bytes -> Digest, s: World, w: ProcId) returns (steps: seq<Step>, t: World)
    requires OnTheWay(hash, s, w)
    ensures Runs(hash, s, steps, t) && CalledFrom(hash, s, t, w)
    decreases 4 - |s.workers[w].written|, s.workers[w].run !in s.attached, s.workers[w].pc == Ready
  {
    assert |Opening(hash, s.workers[w].args)| == 4;
    hide R.Reduce, Opening, RecordOf;
    var a := OnwardStep(hash, s, w);
    OnwardEnabled(hash, s, w);
    var u := DoWork(hash, s, w, a);
    if |s.workers[w].written| == 4 {
      steps, t := [], u;
    } else {
      OnwardStays(hash, s, w);
      steps, t := OnwardCalls(hash, u, w);
    }
    RunsStep(hash, s, Work(w, a), steps, t);
    steps := [Work(w, a)] + steps;
  }

  /** A process about to start, on an unlocked run id that its command is bound to. */
  predicate MayStart(s: World, w: ProcId) {
    && WorkerAt(s, w, {Starting})
    && var me := s.workers[w];
    me.run !in s.locks && s.row.child == Some(me.run) && me.args.id == s.cmd.id
  }

  lemma FreshIdCanCall(hash: Bytes -> Digest, s: World, w: ProcId) returns (steps: seq<Step>, t: World)
    requires MayStart(s, w) && s.workers[w].written == [] && s.workers[w].run !in s.branches
    ensures Runs(hash, s, steps, t) && CalledFrom(hash, s, t, w)
  {
    hide R.Reduce, Runs, Opening, Follows, RecordOf;
    var s1 := DoWork(hash, s, w, TryLock);
    var s2 := DoWork(hash, s1, w, CheckBinding);
    var s3 := DoWork(hash, s2, w, WriteSidecars);
    assert s3.row == s.row && s3.cmd == s.cmd && s3.calls == s.calls;
    assert s3.workers[w].run == s.workers[w].run && s3.workers[w].args == s.workers[w].args;
    steps, t := OnwardCalls(hash, s3, w);
    RunsStep(hash, s2, Work(w, WriteSidecars), steps, t);
    steps := [Work(w, WriteSidecars)] + steps;
    RunsStep(hash, s1, Work(w, CheckBinding), steps, t);
    steps := [Work(w, CheckBinding)] + steps;
    RunsStep(hash, s, Work(w, TryLock), steps, t);
    steps := [Work(w, TryLock)] + steps;
  }

  ghost predicate CanReachCall(hash: Bytes -> Digest, s: World, w: ProcId) {
    exists steps, t :: Runs(hash, s, steps, t) && w in t.calls
  }

  /**
   In every reachable state a process about to start on its bound and unlocked run id can
   still reach the provider exactly when the branch of that id does not exist yet.
   */
  lemma CallReachableExactly(hash: Bytes -> Digest, cmd: CommandInfo, steps: seq<Step>, s: World, w: ProcId)
    requires Runs(hash, Start(cmd), steps, s) && MayStart(s, w)
    ensures CanReachCall(hash, s, w) <==> s.workers[w].run !in s.branches
  {
    hide R.Reduce, Runs, Dispatched;
    StartInv(cmd);
    RunsKeepInv(hash, Start(cmd), steps, s);
    assert AtTheEnd(s, w) && WorkerBehindBranch(s, w);
    hide Inv;
    if s.workers[w].run !in s.branches {
      var more, t := FreshIdCanCall(hash, s, w);
    } else if CanReachCall(hash, s, w) {
      var more, t :| Runs(hash, s, more, t) && w in t.calls;
      RunsKeepClosed(hash, s, more, t, w, s.workers[w].run);
      RunsKeepInv(hash, s, more, t);
      PastBranchOwns(t, w, s.workers[w].run);
    }
  }

  // ---------------------------------------------------------------- which records are redriven

  /** Every process ever started on the run was told the command as it was accepted. */
  ghost predicate Told(s: World, run: RunId) {
    forall w :: w in s.workers && s.workers[w].run == run ==> s.workers[w].args == s.cmd
  }

  /** At most one process was ever started on the run. */
  ghost predicate Solo(s: World, run: RunId) {
    forall v, w :: v in s.workers && w in s.workers && s.workers[v].run == run && s.workers[w].run == run ==> v == w
  }

  ghost predicate HonestWhenTold(hash: Bytes -> Digest, s: World) {
    forall run :: run in s.disk && Told(s, run) ==> Honest(hash, s.disk[run], run, s.cmd)
  }

  ghost predicate Visited(s: World, run: RunId) { exists w :: w in s.workers && s.workers[w].run == run }

  /** A record nobody worked on is empty, and one that one process worked on is that process's chain. */
  ghost predicate SoloJournals(s: World) {
    && (forall run :: RecordOf(s, run).kinds != [] ==> Visited(s, run))
    && (forall w :: w in s.workers && Solo(s, s.workers[w].run) ==> RecordOf(s, s.workers[w].run).kinds == s.workers[w].written)
  }

  ghost predicate Attributed(hash: Bytes -> Digest, s: World) { HonestWhenTold(hash, s) && SoloJournals(s) }

  /** Each write to a run directory by a process that was told the command keeps it honest. */
  lemma WorkKeepsHonest(hash: Bytes -> Digest, s: World, w: ProcId, a: WorkerStep)
    requires CanWork(hash, s, w, a) && AtTheEnd(s, w) && s.workers[w].args == s.cmd
    requires s.workers[w].run in s.disk ==> Honest(hash, s.disk[s.workers[w].run], s.workers[w].run, s.cmd)
    requires s.workers[w].run in DoWork(hash, s, w, a).disk
    ensures Honest(hash, DoWork(hash, s, w, a).disk[s.workers[w].run], s.workers[w].run, s.cmd)
  {
    hide R.Reduce, DoWork, Scripted;
    RecordAfter(hash, s, w, a);
  }

  lemma WorkKeepsAttributed(hash: Bytes -> Digest, s: World, w: ProcId, a: WorkerStep)
    requires RecordsShaped(s) && Attributed(hash, s) && CanWork(hash, s, w, a)
    ensures Attributed(hash, DoWork(hash, s, w, a))
  {
    hide R.Reduce, DoWork, Scripted, Honest, Restarted, Follows, EndsIn;
    var t, mine := DoWork(hash, s, w, a), s.workers[w].run;
    WorkFrame(hash, s, w, a);
    forall run | run in t.disk && Told(t, run) ensures Honest(hash, t.disk[run], run, t.cmd) {
      SameAudience(s, t, w, run);
      if run == mine {
        assert AtTheEnd(s, w);
        WorkKeepsHonest(hash, s, w, a);
      }
    }
    WorkKeepsSolo(hash, s, w, a);
  }

  /** A step of a process starts nobody, so who was told what on a run stays as it was. */
  lemma SameAudience(s: World, t: World, w: ProcId, run: RunId)
    requires w in s.workers && OnlyWorker(s, t, w)
    ensures Told(t, run) ==> Told(s, run)
    ensures Solo(t, run) ==> Solo(s, run)
    ensures Visited(s, run) ==> Visited(t, run)
  {
    assert forall v :: v in s.workers ==> v in t.workers && t.workers[v].run == s.workers[v].run && t.workers[v].args == s.workers[v].args;
  }

  lemma WorkKeepsSolo(hash: Bytes -> Digest, s: World, w: ProcId, a: WorkerStep)
    requires SoloJournals(s) && CanWork(hash, s, w, a)
    ensures SoloJournals(DoWork(hash, s, w, a))
  {
    hide R.Reduce, DoWork, Follows;
    var t, mine := DoWork(hash, s, w, a), s.workers[w].run;
    WorkFrame(hash, s, w, a);
    KindsAfter(hash, s, w, a);
    WrittenAfter(hash, s, w, a);
    hide CanWork;
    forall run | RecordOf(t, run).kinds != [] ensures Visited(t, run) {
      SameAudience(s, t, w, run);
      assert Visited(s, mine);
    }
    forall v | v in t.workers && Solo(t, t.workers[v].run) ensures RecordOf(t, t.workers[v].run).kinds == t.workers[v].written {
      SameAudience(s, t, w, t.workers[v].run);
      assert Solo(s, s.workers[v].run);
    }
  }

  lemma SpawnKeepsAttributed(hash: Bytes -> Digest, s: World, w: ProcId, run: RunId, args: CommandInfo)
    requires Attributed(hash, s) && w !in s.workers
    ensures Attributed(hash, AddWorker(s, w, run, args))
  {
    hide Honest;
    var t := AddWorker(s, w, run, args);
    assert forall v :: v in s.workers ==> v in t.workers && t.workers[v] == s.workers[v];
    forall r | r in t.disk && Told(t, r) ensures Honest(hash, t.disk[r], r, t.cmd) {
      assert Told(s, r);
    }
    forall r | RecordOf(t, r).kinds != [] ensures Visited(t, r) {
      assert Visited(s, r);
    }
    forall v | v in t.workers && Solo(t, t.workers[v].run) ensures RecordOf(t, t.workers[v].run).kinds == t.workers[v].written {
      assert Solo(s, t.workers[v].run);
      assert v == w ==> !Visited(s, run);
    }
  }

  lemma SameRecords(hash: Bytes -> Digest, s: World, t: World)
    requires Attributed(hash, s) && t.disk == s.disk && t.workers == s.workers && t.cmd == s.cmd
    ensures Attributed(hash, t)
  {
    hide Honest;
    assert forall run :: RecordOf(t, run) == RecordOf(s, run);
    assert forall run :: Told(t, run) == Told(s, run);
    assert forall run :: Solo(t, run) == Solo(s, run);
    assert forall run :: Visited(t, run) == Visited(s, run);
  }

  lemma StepKeepsAttributed(hash: Bytes -> Digest, s: World, a: Step)
    requires Inv(s) && Attributed(hash, s) && Enabled(hash, s, a)
    ensures Attributed(hash, Next(hash, s, a))
  {
    hide R.Reduce, DoRedrive, DoWork, Attributed;
    match a {
      case Work(w, work) => WorkKeepsAttributed(hash, s, w, work);
      case Redrive(d, redrive) =>
        RedriveFrame(hash, s, d, redrive);
        SameRecords(hash, s, Next(hash, s, a));
      case Spawn(w, run) =>
        SpawnKeepsAttributed(hash, s, w, run, s.cmd);
        SameRecords(hash, AddWorker(s, w, run, s.cmd), Next(hash, s, a));
      case ManualSpawn(w, run, args) => SpawnKeepsAttributed(hash, s, w, run, args);
      case Bind(_) => SameRecords(hash, s, Next(hash, s, a));
      case SpawnLost(_) => SameRecords(hash, s, Next(hash, s, a));
      case Bookkeep(_, _) => SameRecords(hash, s, Next(hash, s, a));
    }
  }

  lemma {:induction false} RunsKeepAttributed(hash: Bytes -> Digest, s: World, steps: seq<Step>, t: World)
    requires Inv(s) && Attributed(hash, s) && Runs(hash, s, steps, t)
    ensures Attributed(hash, t)
    decreases |steps|
  {
    hide R.Reduce, Inv, Attributed;
    if steps != [] {
      StepKeepsInv(hash, s, steps[0]);
      StepKeepsAttributed(hash, s, steps[0]);
      RunsKeepAttributed(hash, Next(hash, s, steps[0]), steps[1..], t);
    }
  }

  /** A second start makes the reducer refuse the record. */
  lemma RestartedRefused(ks: seq<R.Kind>)
    requires Restarted(ks)
    ensures R.Reduce(ks).Err?
  {
    if R.Reduce(ks).Ok? {
      var i :| 0 < i < |ks| && ks[i].RunStarted?;
      R.PrefixAccepted(ks, i + 1);
      assert ks[..i + 1] == ks[..i] + [ks[i]];
      R.ReduceSnoc(ks[..i], ks[i]);
      StartedOnce(ks[..i]);
    }
  }

  lemma StartedOnce(ks: seq<R.Kind>)
    requires ks != [] && R.Reduce(ks).Ok?
    ensures !R.Reduce(ks).value.phase.NotStarted?
  {
    var init, k := ks[..|ks| - 1], ks[|ks| - 1];
    assert ks == init + [k];
    R.ReduceSnoc(init, k);
  }

  /** What makes the classifier offer a record that processes of this program wrote. */
  lemma ShapedRedrivableExactly(hash: Bytes -> Digest, rec: Record, run: RunId, cmd: CommandInfo)
    requires Scripted(rec.kinds) || Restarted(rec.kinds)
    ensures R.Reduce(rec.kinds).Ok? <==> !Restarted(rec.kinds)
    ensures Classify(hash, rec, run, cmd) in {Absent, PreDispatch} <==>
            rec.intact && !Dispatched(rec) && !Restarted(rec.kinds) && (rec.kinds == [] || Honest(hash, rec, run, cmd))
  {
    if Restarted(rec.kinds) {
      RestartedRefused(rec.kinds);
    } else if Honest(hash, rec, run, cmd) {
      HonestRedrivableExactly(hash, rec, run, cmd);
    }
    if Classify(hash, rec, run, cmd) in {Absent, PreDispatch} {
      RedrivableIsUndispatched(hash, rec, run, cmd);
    }
  }

  /**
   Redrive is not needlessly refused: in every reachable state a redriver that holds the
   lock goes on to rebind exactly when the record is whole, has no `AgentStarted`, was not
   started twice, and is empty or the accepted command's. Processes told the accepted
   command never spoil the last condition, and a run with one process never the third.
   */
  lemma RedriveExactly(hash: Bytes -> Digest, cmd: CommandInfo, steps: seq<Step>, s: World, d: ProcId)
    requires Runs(hash, Start(cmd), steps, s) && CanRedrive(s, d, Decide)
    ensures var target := s.redrivers[d].target;
            var rec := RecordOf(s, target);
            && (RedriverAt(DoRedrive(hash, s, d, Decide), d, Redrivable) <==>
                rec.intact && !Dispatched(rec) && !Restarted(rec.kinds) && (rec.kinds == [] || Honest(hash, rec, target, s.cmd)))
            && (R.Reduce(rec.kinds).Ok? <==> !Restarted(rec.kinds))
            && (Told(s, target) && rec.kinds != [] ==> Honest(hash, rec, target, s.cmd))
            && (Solo(s, target) ==> !Restarted(rec.kinds))
  {
    hide R.Reduce, Runs, Classify, Honest, Dispatched;
    StartInv(cmd);
    EmptyIsScripted();
    RunsKeepInv(hash, Start(cmd), steps, s);
    RunsKeepAttributed(hash, Start(cmd), steps, s);
    var target := s.redrivers[d].target;
    ShapedRedrivableExactly(hash, RecordOf(s, target), target, s.cmd);
    if Solo(s, target) {
      SoloIsScripted(s, target);
      ScriptedStartsOnce(RecordOf(s, target).kinds);
    }
  }

  lemma ScriptedStartsOnce(ks: seq<R.Kind>)
    requires Scripted(ks)
    ensures !Restarted(ks)
  {
    forall i | 0 < i < |ks| ensures !ks[i].RunStarted? {
      assert Follows(ks[..i], ks[i]);
    }
  }

  lemma SoloIsScripted(s: World, run: RunId)
    requires RecordsShaped(s) && SoloJournals(s) && Solo(s, run)
    ensures Scripted(RecordOf(s, run).kinds)
  {
    EmptyIsScripted();
    hide Scripted, Restarted, EndsIn;
    if RecordOf(s, run).kinds != [] {
      var w :| w in s.workers && s.workers[w].run == run;
      assert AtTheEnd(s, w);
    }
  }

  // ---------------------------------------------------------------- attached in time

  /** Nothing but `RunStarted` is written before the run is in the ledger. */
  ghost predicate AttachedInTime(s: World) {
    forall w :: w in s.workers && |s.workers[w].written| >= 2 ==> s.workers[w].run in s.attached
  }

  lemma AttachedAfter(hash: Bytes -> Digest, s: World, w: ProcId, a: WorkerStep)
    requires CanWork(hash, s, w, a)
    ensures DoWork(hash, s, w, a).attached == s.attached + if a.Attach? then {s.workers[w].run} else {}
    ensures a.Append? && |s.workers[w].written| >= 1 ==> s.workers[w].run in s.attached
  {
    hide R.Reduce, Follows, RecordOf, WithSidecars;
  }

  lemma RedriveKeepsAttached(hash: Bytes -> Digest, s: World, d: ProcId, a: RedriveStep)
    requires CanRedrive(s, d, a)
    ensures DoRedrive(hash, s, d, a).attached == s.attached
  {
    hide Classify;
  }

  lemma StepKeepsAttached(hash: Bytes -> Digest, s: World, a: Step)
    requires AttachedInTime(s) && Enabled(hash, s, a)
    ensures AttachedInTime(Next(hash, s, a)) && s.attached <= Next(hash, s, a).attached
  {
    hide R.Reduce, DoRedrive, DoWork;
    if a.Work? {
      WorkFrame(hash, s, a.w, a.work);
      WrittenAfter(hash, s, a.w, a.work);
      AttachedAfter(hash, s, a.w, a.work);
    } else if a.Redrive? {
      RedriveFrame(hash, s, a.d, a.redrive);
      RedriveKeepsAttached(hash, s, a.d, a.redrive);
    }
    hide CanWork, CanRedrive;
  }

  /** In every reachable state a process has gone past `RunStarted` only on a run that is in the ledger. */
  lemma {:induction false} AlwaysAttachedInTime(hash: Bytes -> Digest, s: World, steps: seq<Step>, t: World)
    requires AttachedInTime(s) && Runs(hash, s, steps, t)
    ensures AttachedInTime(t) && s.attached <= t.attached
    decreases |steps|
  {
    hide R.Reduce, AttachedInTime;
    if steps != [] {
      StepKeepsAttached(hash, s, steps[0]);
      AlwaysAttachedInTime(hash, Next(hash, s, steps[0]), steps[1..], t);
    }
  }

  // ---------------------------------------------------------------- the service alone

  /** Nobody starts a process by hand. */
  ghost predicate ServiceOnly(steps: seq<Step>) {
    forall i :: 0 <= i < |steps| ==> !steps[i].ManualSpawn?
  }

  ghost predicate OneWorkerPerRun(s: World) {
    && s.toSpawn <= s.minted
    && (forall w :: w in s.workers ==> s.workers[w].args == s.cmd && s.workers[w].run in s.minted && s.workers[w].run !in s.toSpawn)
    && (forall run :: Solo(s, run))
  }

  lemma ServiceKeepsOneWorker(hash: Bytes -> Digest, s: World, a: Step)
    requires OneWorkerPerRun(s) && Enabled(hash, s, a) && !a.ManualSpawn?
    ensures OneWorkerPerRun(Next(hash, s, a))
  {
    hide R.Reduce, DoRedrive, DoWork;
    var t := Next(hash, s, a);
    if a.Work? {
      WorkFrame(hash, s, a.w, a.work);
    } else if a.Redrive? {
      RedriveFrame(hash, s, a.d, a.redrive);
    }
    hide CanWork, CanRedrive;
    forall run ensures Solo(t, run) {
      assert Solo(s, run);
    }
  }

  lemma {:induction false} ServiceRunsKeepOneWorker(hash: Bytes -> Digest, s: World, steps: seq<Step>, t: World)
    requires OneWorkerPerRun(s) && Runs(hash, s, steps, t) && ServiceOnly(steps)
    ensures OneWorkerPerRun(t)
    decreases |steps|
  {
    hide R.Reduce, OneWorkerPerRun;
    if steps != [] {
      ServiceKeepsOneWorker(hash, s, steps[0]);
      ServiceRunsKeepOneWorker(hash, Next(hash, s, steps[0]), steps[1..], t);
    }
  }

  /** With the service as the only starter, a record is redriven exactly when it is whole and undispatched. */
  lemma ServiceRedriveExactly(hash: Bytes -> Digest, cmd: CommandInfo, steps: seq<Step>, s: World, d: ProcId)
    requires Runs(hash, Start(cmd), steps, s) && ServiceOnly(steps) && CanRedrive(s, d, Decide)
    ensures var rec := RecordOf(s, s.redrivers[d].target);
            RedriverAt(DoRedrive(hash, s, d, Decide), d, Redrivable) <==> rec.intact && !Dispatched(rec)
  {
    hide R.Reduce, Runs, DoRedrive, Honest, Restarted, Dispatched;
    RedriveExactly(hash, cmd, steps, s, d);
    ServiceRunsKeepOneWorker(hash, Start(cmd), steps, s);
    assert Solo(s, s.redrivers[d].target);
  }

  // ---------------------------------------------------------------- how commands settle

  /** The record is the accepted command's, whole, and the reducer accepts it. */
  ghost predicate SoundRecord(hash: Bytes -> Digest, rec: Record, run: RunId, cmd: CommandInfo) {
    rec.intact && rec.kinds != [] && Honest(hash, rec, run, cmd) && R.Reduce(rec.kinds).Ok?
  }

  /** In script order a seal comes after the boundary. */
  lemma SealedIsDispatched(rec: Record)
    requires Scripted(rec.kinds) && R.RunSealed in rec.kinds
    ensures Dispatched(rec)
  {
    hide R.Reduce;
    var i :| 0 <= i < |rec.kinds| && rec.kinds[i] == R.RunSealed;
    assert Follows(rec.kinds[..i], rec.kinds[i]);
    assert Follows(rec.kinds[..3], rec.kinds[3]);
  }

  lemma SealedIsBound(hash: Bytes -> Digest, s: World, run: RunId)
    requires Inv(s) && SoundRecord(hash, RecordOf(s, run), run, s.cmd) && R.RunSealed in RecordOf(s, run).kinds
    ensures s.row.child == Some(run)
  {
    var rec := RecordOf(s, run);
    if Restarted(rec.kinds) {
      RestartedRefused(rec.kinds);
    }
    SealedIsDispatched(rec);
    hide R.Reduce, Dispatched;
  }

  /**
   What a redriver's decision does to the command in every reachable state: the sealed
   record of an active command completes it, and any other record leaves it as it was.
   */
  lemma DecideSettles(hash: Bytes -> Digest, cmd: CommandInfo, steps: seq<Step>, s: World, d: ProcId)
    requires Runs(hash, Start(cmd), steps, s) && CanRedrive(s, d, Decide)
    ensures var target, t := s.redrivers[d].target, DoRedrive(hash, s, d, Decide);
            var sealedRun := SoundRecord(hash, RecordOf(s, target), target, s.cmd) && R.RunSealed in RecordOf(s, target).kinds;
            && t.row.child == s.row.child
            && (sealedRun && s.row.status in {Accepted, Started} ==> t.row.status == Completed && t.row.child == Some(target))
            && (!sealedRun || s.row.status in {Completed, Rejected} ==> t.row == s.row)
            && (sealedRun ==> t.redrivers[d].pc == Finished && target !in t.locks)
            && t.disk == s.disk && t.minted == s.minted && t.toSpawn == s.toSpawn && t.calls == s.calls
  {
    hide R.Reduce, Runs, Classify, Honest, Dispatched;
    StartInv(cmd);
    RunsKeepInv(hash, Start(cmd), steps, s);
    var target := s.redrivers[d].target;
    ClassifiedExactly(hash, RecordOf(s, target), target, s.cmd);
    if SoundRecord(hash, RecordOf(s, target), target, s.cmd) && R.RunSealed in RecordOf(s, target).kinds {
      SealedIsBound(hash, s, target);
    }
    hide BranchesExclusive, CallsDispatched, RecordsShaped, DispatchedIsBound, ClearedIsBound, RedrivableUndispatched, SoundRecord;
  }

  /**
   A process settles its own command: one that sealed its run completes it if it is still
   active, and one that fails rejects it exactly if its run never got into the ledger.
   */
  lemma WorkerSettles(hash: Bytes -> Digest, s: World, w: ProcId, a: WorkerStep)
    requires Inv(s) && CanWork(hash, s, w, a) && (a.Finish? || a.FailEarly?)
    ensures var t, open := DoWork(hash, s, w, a), s.row.status in {Accepted, Started};
            && t.row.child == s.row.child == Some(s.workers[w].run)
            && t.row.status == (if !open then s.row.status
                                else if a.Finish? then Completed
                                else if s.workers[w].run in s.attached then s.row.status else Rejected)
            && s.workers[w].run !in t.locks
  {
    hide R.Reduce, Follows, BranchesExclusive, CallsDispatched, RecordsShaped, DispatchedIsBound, RedrivableUndispatched;
  }

  /**
   A rebind happens exactly to the row the redriver read, if it is still active; then the
   command is bound to the new run id, and no redriver that read the same row can follow.
   */
  lemma RebindOnce(hash: Bytes -> Digest, s: World, d: ProcId, newId: RunId, now: nat)
    requires CanRedrive(s, d, Rebind(newId, now))
    ensures var me, t := s.redrivers[d], DoRedrive(hash, s, d, Rebind(newId, now));
            var current := s.row.status in {Accepted, Started} && s.row.child == Some(me.target) && s.row.updatedAt == me.row.updatedAt;
            && (current ==> t.row.child == Some(newId) && t.row.status == s.row.status && t.toSpawn == s.toSpawn + {newId}
                            && t.row.updatedAt >= now && t.row.updatedAt > s.row.updatedAt)
            && (!current ==> t.row == s.row && t.toSpawn == s.toSpawn)
            && newId in t.minted && t.redrivers[d].pc == Finished
            && (current ==> forall d', other, then' :: d' != d && CanRedrive(t, d', Rebind(other, then')) && t.redrivers[d'].row == me.row ==>
                  DoRedrive(hash, t, d', Rebind(other, then')).row == t.row)
  {
    hide Classify;
  }

  // ---------------------------------------------------------------- the normal course

  lemma {:induction false} RunsConcat(hash: Bytes -> Digest, s: World, a: seq<Step>, u: World, b: seq<Step>, t: World)
    requires Runs(hash, s, a, u) && Runs(hash, u, b, t)
    ensures Runs(hash, s, a + b, t)
    decreases |a|
  {
    if a == [] {
      assert a + b == b;
    } else {
      RunsConcat(hash, Next(hash, s, a[0]), a[1..], u, b, t);
      assert a + b == [a[0]] + (a[1..] + b);
      RunsStep(hash, s, a[0], a[1..] + b, t);
    }
  }

  /** After its call a process can seal its run and complete its command. */
  lemma CalledCanFinish(hash: Bytes -> Digest, s: World, w: ProcId) returns (steps: seq<Step>, t: World)
    requires WorkerAt(s, w, {Called}) && s.workers[w].written == Opening(hash, s.workers[w].args) && s.workers[w].run in s.attached
    requires s.row.status in {Accepted, Started} && s.row.child == Some(s.workers[w].run)
    ensures Runs(hash, s, steps, t) && t.calls == s.calls && t.row.status == Completed && t.row.child == s.row.child
  {
    var ks, out := Opening(hash, s.workers[w].args), R.AgentExited(R.Faulted);
    ClosingAccepted(hash, s.workers[w].args);
    hide R.Reduce, Opening, RecordOf;
    var s1 := DoWork(hash, s, w, Append(out));
    var s2 := DoWork(hash, s1, w, Append(R.RunSealed));
    t := DoWork(hash, s2, w, Finish);
    RunsStep(hash, s2, Work(w, Finish), [], t);
    steps := [Work(w, Finish)] + [];
    hide Runs, DoWork;
    RunsStep(hash, s1, Work(w, Append(R.RunSealed)), steps, t);
    steps := [Work(w, Append(R.RunSealed))] + steps;
    RunsStep(hash, s, Work(w, Append(out)), steps, t);
    steps := [Work(w, Append(out))] + steps;
  }

  lemma ClosingAccepted(hash: Bytes -> Digest, args: CommandInfo)
    ensures |Opening(hash, args)| == 4
    ensures R.Reduce(Opening(hash, args) + [R.AgentExited(R.Faulted)]).Ok?
    ensures R.Reduce(Opening(hash, args) + [R.AgentExited(R.Faulted)] + [R.RunSealed]).Ok?
  {
    var ks, out := Opening(hash, args), R.AgentExited(R.Faulted);
    OpeningAccepted(hash, args, 4);
    assert ks[..4] == ks;
    R.AcceptedExactly(ks);
    R.AcceptedExactly(ks + [out] + [R.RunSealed]);
    hide R.Reduce;
    var all := ks + [out] + [R.RunSealed];
    R.StateShowsKinds(ks);
    assert R.MayFollow(ks, out) && R.MayFollow(ks + [out], R.RunSealed) by {
      assert ks[3] in ks;
    }
    hide Opening, R.MayFollow;
    forall i | 0 <= i < |all| ensures R.MayFollow(all[..i], all[i]) {
      if i < |ks| {
        assert all[..i] == ks[..i];
      } else if i == |ks| {
        assert all[..i] == ks;
      } else {
        assert all[..i] == ks + [out];
      }
    }
    R.ReduceSnoc(ks + [out], R.RunSealed);
  }

  /** The service's ordinary course: bind, start, call once, seal, complete. */
  lemma AcceptedCommandCompletes(hash: Bytes -> Digest, cmd: CommandInfo, run: RunId) returns (steps: seq<Step>, t: World)
    ensures Runs(hash, Start(cmd), steps, t) && |t.calls| == 1 && t.row.status == Completed && t.row.child == Some(run)
  {
    var s1 := Next(hash, Start(cmd), Bind(run));
    var s2 := Next(hash, s1, Spawn(0, run));
    hide R.Reduce, DoWork, Runs;
    var up, s3 := FreshIdCanCall(hash, s2, 0);
    var down, s4 := CalledCanFinish(hash, s3, 0);
    RunsConcat(hash, s2, up, s3, down, s4);
    RunsStep(hash, s1, Spawn(0, run), up + down, s4);
    RunsStep(hash, Start(cmd), Bind(run), [Spawn(0, run)] + (up + down), s4);
    steps, t := [Bind(run)] + ([Spawn(0, run)] + (up + down)), s4;
  }

  /** A command that a redriver may rebind can still be called and completed, under a fresh run id. */
  lemma RedrivenCommandCompletes(hash: Bytes -> Digest, s: World, d: ProcId, newId: RunId, w: ProcId) returns (steps: seq<Step>, t: World)
    requires RedriverAt(s, d, Redrivable) && s.row == s.redrivers[d].row && s.row.child == Some(s.redrivers[d].target)
    requires s.row.status in {Accepted, Started}
    requires newId !in s.minted && newId !in s.branches && newId !in s.locks && w !in s.workers
    ensures Runs(hash, s, steps, t) && t.calls == s.calls + [w] && t.row.status == Completed && t.row.child == Some(newId)
  {
    hide R.Reduce, DoWork, Runs, Classify;
    var s1 := Next(hash, s, Redrive(d, Rebind(newId, 0)));
    var s2 := Next(hash, s1, Spawn(w, newId));
    var up, s3 := FreshIdCanCall(hash, s2, w);
    var down, s4 := CalledCanFinish(hash, s3, w);
    RunsConcat(hash, s2, up, s3, down, s4);
    RunsStep(hash, s1, Spawn(w, newId), up + down, s4);
    RunsStep(hash, s, Redrive(d, Rebind(newId, 0)), [Spawn(w, newId)] + (up + down), s4);
    steps, t := [Redrive(d, Rebind(newId, 0))] + ([Spawn(w, newId)] + (up + down)), s4;
  }
}
