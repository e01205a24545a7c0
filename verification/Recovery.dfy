/**
 Crash recovery as a transition system over the durable journal and the ledger. A
 process is the live worker or a catch-up; each of its ledger transactions is one step,
 steps of all processes interleave, a process may die anywhere, any projection may
 simply not happen, and a plain recover may fall between any two steps.
 */
module Recovery {
  import opened Base
  import opened Journal
  import opened Ledger
  import opened Projector
  import R = Reducer
  import CR = ChildRecord
  import G = GateRun

  type ProcId = nat

  /** The live worker reads its own journal; catch-up reads the stream it found at start. */
  datatype View = Live | CatchUp(stream: seq<Event>)

  /** How far a process got: the transactions of `attach_run`, then projecting, then sealing. */
  datatype Pc =
    | Idle
    | Seen(status: RunStatus)
    | Ready(status: RunStatus)
    | NeedAttempt
    | Attached(attempt: Option<nat>)
    | Sealing(verdict: R.Verdict, read: RunStatus)
    | Ended

  datatype Proc = Proc(view: View, pc: Pc)

  datatype System = System(id: Identity, journal: seq<Event>, ledger: Ledger, procs: map<ProcId, Proc>)

  datatype Step =
    | Append(e: Event)
    | Begin(p: ProcId, live: bool)
    | CreateRow(p: ProcId)
    | StartRow(p: ProcId)
    | FindAttempt(p: ProcId)
    | MakeAttempt(p: ProcId)
    | ProjectEvent(p: ProcId, i: nat)
    | ReadStatus(p: ProcId)
    | SealRow(p: ProcId)
    | Die(p: ProcId)
    | PlainRecover

  function VerdictOf(journal: seq<Event>): Option<R.Verdict> {
    match R.Reduce(Kinds(journal)) case Ok(s) => s.verdict case Err(_) => None
  }

  ghost predicate GoodJournal(dig: Header -> Digest, run: string, journal: seq<Event>) {
    Chained(dig, run, journal) && R.Reduce(Kinds(journal)).Ok?
  }

  function StreamOf(s: System, p: ProcId): seq<Event>
    requires p in s.procs
  {
    match s.procs[p].view case Live => s.journal case CatchUp(stream) => stream
  }

  predicate Can(s: System, a: Step) {
    match a
    case Append(e) => true
    case Begin(p, _) => p !in s.procs && s.journal != []
    case CreateRow(p) => p in s.procs && s.procs[p].pc.Idle?
    case StartRow(p) => p in s.procs && s.procs[p].pc.Seen?
    case FindAttempt(p) => p in s.procs && s.procs[p].pc.Ready?
    case MakeAttempt(p) => p in s.procs && s.procs[p].pc.NeedAttempt?
    case ProjectEvent(p, i) => p in s.procs && s.procs[p].pc.Attached? && i < |StreamOf(s, p)|
    case ReadStatus(p) => p in s.procs && s.procs[p].pc.Attached? && VerdictOf(StreamOf(s, p)).Some? && s.ledger.row.Some?
    case SealRow(p) => p in s.procs && s.procs[p].pc.Sealing?
    case Die(p) => p in s.procs
    case PlainRecover => true
  }

  ghost predicate Enabled(dig: Header -> Digest, s: System, a: Step) {
    Can(s, a) && (a.Append? ==> GoodJournal(dig, s.id.run, s.journal + [a.e]))
  }

  function Go(s: System, p: ProcId, pc: Pc, l: Ledger): System
    requires p in s.procs
  {
    s.(procs := s.procs[p := s.procs[p].(pc := pc)], ledger := l)
  }

  /** The write that sealing decides on from the status it has read. */
  function SealFrom(l: Ledger, read: RunStatus, v: R.Verdict, allowRepair: bool): Ledger {
    if read == StatusOf(v) then l
    else if allowRepair && read == Interrupted then RepairInterrupted(l, StatusOf(v)).1
    else if IsSettled(read) then l
    else SetRunStatus(l, StatusOf(v)).1
  }

  function Next(s: System, a: Step): (t: System)
    requires Can(s, a)
  {
    var l := s.ledger;
    match a
    case Append(e) => s.(journal := s.journal + [e])
    case Begin(p, live) => s.(procs := s.procs[p := Proc(if live then Live else CatchUp(s.journal), Idle)])
    case CreateRow(p) =>
      var (r, l') := CreateRunWithId(l, s.id);
      Go(s, p, if r.Ok? then Seen(r.value.status) else Ended, l')
    case StartRow(p) =>
      var seen := s.procs[p].pc.status;
      if seen != Queued then Go(s, p, Ready(seen), l)
      else
        var (r, l') := SetRunStatus(l, Running);
        Go(s, p, if r.Ok? then Ready(seen) else Ended, l')
    case FindAttempt(p) =>
      if s.procs[p].pc.status !in {Queued, Running} then Go(s, p, Attached(LatestAttempt(l)), l)
      else if RunningAttempt(l).Some? then Go(s, p, Attached(RunningAttempt(l)), l)
      else Go(s, p, NeedAttempt, l)
    case MakeAttempt(p) =>
      var (r, l') := CreateAttempt(l);
      Go(s, p, if r.Ok? then Attached(Some(r.value)) else Ended, l')
    case ProjectEvent(p, i) =>
      var e := StreamOf(s, p)[i];
      s.(ledger := AppendSystemNote(l, e.header.sequence, NoteFor(s.id, s.procs[p].pc.attempt, e)).1)
    case ReadStatus(p) => Go(s, p, Sealing(VerdictOf(StreamOf(s, p)).value, l.row.value.status), l)
    case SealRow(p) =>
      var pc := s.procs[p].pc;
      Go(s, p, Ended, SealFrom(l, pc.read, pc.verdict, s.procs[p].view.CatchUp?))
    case Die(p) => Go(s, p, Ended, l)
    case PlainRecover => s.(ledger := MarkInterrupted(l))
  }

  function Start(id: Identity): System { System(id, [], EMPTY, map[]) }

  ghost predicate Runs(dig: Header -> Digest, s: System, steps: seq<Step>, t: System)
    decreases |steps|
  {
    if steps == [] then s == t
    else Enabled(dig, s, steps[0]) && Runs(dig, Next(s, steps[0]), steps[1..], t)
  }

  // ---------------------------------------------------------------- the invariant

  /** One attempt at most, and it has the status of its row. */
  ghost predicate AttemptsFollowRow(l: Ledger) {
    match l.row
    case None => l.attempts == [] && l.notes == map[]
    case Some(row) =>
      && row.status != Cancelled
      && (l.attempts == [] || (row.status != Queued && l.attempts == [row.status]))
      && (l.attempts == [] && l.notes != map[] ==> IsSettled(row.status))
  }

  /** Every note is the journal's event at its sequence, under the one attempt there is. */
  ghost predicate NotesMatch(id: Identity, journal: seq<Event>, l: Ledger) {
    forall k :: k in l.notes ==> k < |journal| && l.notes[k] == NoteFor(id, LatestAttempt(l), journal[k])
  }

  predicate IsVerdictStatus(st: RunStatus) { st in {Completed, Failed, RunStatus.Blocked, RunStatus.Error} }

  ghost predicate StatusJustified(id: Identity, journal: seq<Event>, l: Ledger) {
    l.row.Some? ==>
      && journal != [] && l.row.value.id == id
      && (IsVerdictStatus(l.row.value.status) ==>
            VerdictOf(journal).Some? && l.row.value.status == StatusOf(VerdictOf(journal).value))
  }

  ghost predicate GoodProc(s: System, proc: Proc) {
    && s.journal != []
    && (proc.view.CatchUp? ==> proc.view.stream <= s.journal)
    && (!proc.pc.Idle? && !proc.pc.Ended? ==> s.ledger.row.Some?)
    && (proc.pc.Seen? || proc.pc.Ready? ==> (IsSettled(proc.pc.status) ==> IsSettled(s.ledger.row.value.status)))
    && (proc.pc.Attached? ==>
          && proc.pc.attempt == LatestAttempt(s.ledger)
          && (proc.pc.attempt.None? ==> IsSettled(s.ledger.row.value.status)))
    && (proc.pc.Sealing? ==> VerdictOf(s.journal) == Some(proc.pc.verdict))
  }

  ghost predicate Inv(dig: Header -> Digest, s: System) {
    && GoodJournal(dig, s.id.run, s.journal)
    && AttemptsFollowRow(s.ledger)
    && NotesMatch(s.id, s.journal, s.ledger)
    && StatusJustified(s.id, s.journal, s.ledger)
    && (forall p :: p in s.procs ==> GoodProc(s, s.procs[p]))
  }

  lemma StartInv(dig: Header -> Digest, id: Identity)
    ensures Inv(dig, Start(id))
  {
  }

  /** A sealed journal takes no further event. */
  lemma SealedIsWhole(dig: Header -> Digest, run: string, journal: seq<Event>, stream: seq<Event>)
    requires GoodJournal(dig, run, journal) && stream <= journal && VerdictOf(stream).Some?
    ensures stream == journal
  {
    hide R.Reduce;
    assert Kinds(journal)[..|stream|] == Kinds(stream);
    R.SealedPrefixIsWhole(Kinds(journal), |stream|);
  }

  lemma AppendKeepsInv(dig: Header -> Digest, s: System, e: Event)
    requires Inv(dig, s) && Enabled(dig, s, Append(e))
    ensures Inv(dig, Next(s, Append(e)))
  {
    hide R.Reduce, Chained;
    if VerdictOf(s.journal).Some? {
      SealedIsWhole(dig, s.id.run, s.journal + [e], s.journal);
    }
    hide VerdictOf;
    var t := Next(s, Append(e));
    forall p | p in t.procs ensures GoodProc(t, t.procs[p]) {
      assert GoodProc(s, s.procs[p]);
    }
  }

  /** How the ledger may move under a process that is not looking. */
  ghost predicate Evolves(l: Ledger, l': Ledger) {
    l.row.Some? ==>
      && l'.row.Some?
      && (IsSettled(l.row.value.status) ==> IsSettled(l'.row.value.status))
      && (LatestAttempt(l') == LatestAttempt(l) || (l.attempts == [] && !IsSettled(l.row.value.status)))
  }

  lemma BystandersKeep(s: System, t: System)
    requires t.journal == s.journal && Evolves(s.ledger, t.ledger)
    requires forall p :: p in t.procs ==> GoodProc(t, t.procs[p]) || (p in s.procs && t.procs[p] == s.procs[p])
    requires forall p :: p in s.procs ==> GoodProc(s, s.procs[p])
    ensures forall p :: p in t.procs ==> GoodProc(t, t.procs[p])
  {
    hide VerdictOf;
  }

  /** What a step other than an append owes the invariant. */
  ghost predicate StepObligations(s: System, t: System) {
    && t.journal == s.journal && t.id == s.id
    && Evolves(s.ledger, t.ledger)
    && AttemptsFollowRow(t.ledger) && NotesMatch(t.id, t.journal, t.ledger) && StatusJustified(t.id, t.journal, t.ledger)
    && forall p :: p in t.procs ==> GoodProc(t, t.procs[p]) || (p in s.procs && t.procs[p] == s.procs[p])
  }

  lemma RowStep(dig: Header -> Digest, s: System, a: Step)
    requires Inv(dig, s) && Enabled(dig, s, a)
    requires a.Begin? || a.CreateRow? || a.StartRow?
    ensures StepObligations(s, Next(s, a))
  {
    hide VerdictOf, Chained, R.Reduce;
    if !a.Begin? {
      assert GoodProc(s, s.procs[a.p]);
    }
  }

  lemma AttemptStep(dig: Header -> Digest, s: System, a: Step)
    requires Inv(dig, s) && Enabled(dig, s, a)
    requires a.FindAttempt? || a.MakeAttempt?
    ensures StepObligations(s, Next(s, a))
  {
    hide VerdictOf, Chained, R.Reduce;
    assert GoodProc(s, s.procs[a.p]);
    var l, l' := s.ledger, Next(s, a).ledger;
    assert a.FindAttempt? ==> l' == l;
    assert l' != l ==> l.notes == map[] && l.attempts == [] && l'.attempts == [Running];
    assert RunningAttempt(l).Some? ==> RunningAttempt(l) == LatestAttempt(l);
  }

  lemma ReadStep(dig: Header -> Digest, s: System, p: ProcId)
    requires Inv(dig, s) && Enabled(dig, s, ReadStatus(p))
    ensures StepObligations(s, Next(s, ReadStatus(p)))
  {
    hide Chained, R.Reduce;
    assert GoodProc(s, s.procs[p]);
    SealedIsWhole(dig, s.id.run, s.journal, StreamOf(s, p));
  }

  lemma SealStep(dig: Header -> Digest, s: System, p: ProcId)
    requires Inv(dig, s) && Enabled(dig, s, SealRow(p))
    ensures StepObligations(s, Next(s, SealRow(p)))
  {
    hide VerdictOf, Chained, R.Reduce;
    assert GoodProc(s, s.procs[p]);
    var l, l' := s.ledger, Next(s, SealRow(p)).ledger;
    assert l'.notes == l.notes && LatestAttempt(l') == LatestAttempt(l);
  }

  lemma RecoverStep(dig: Header -> Digest, s: System)
    requires Inv(dig, s)
    ensures StepObligations(s, Next(s, PlainRecover))
  {
    hide VerdictOf, Chained, R.Reduce;
    var l, l' := s.ledger, MarkInterrupted(s.ledger);
    assert l'.notes == l.notes && LatestAttempt(l') == LatestAttempt(l);
  }

  lemma ProjectKeepsNotes(id: Identity, journal: seq<Event>, l: Ledger, i: nat)
    requires NotesMatch(id, journal, l) && i < |journal|
    ensures var l' := AppendSystemNote(l, i, NoteFor(id, LatestAttempt(l), journal[i])).1;
            NotesMatch(id, journal, l') && l'.row == l.row && l'.attempts == l.attempts
  {
  }

  lemma ProjectStep(dig: Header -> Digest, s: System, p: ProcId, i: nat)
    requires Inv(dig, s) && Enabled(dig, s, ProjectEvent(p, i))
    ensures StepObligations(s, Next(s, ProjectEvent(p, i)))
  {
    hide VerdictOf, R.Reduce;
    assert GoodProc(s, s.procs[p]);
    var e := StreamOf(s, p)[i];
    assert e == s.journal[i] && e.header.sequence == i;
    ProjectKeepsNotes(s.id, s.journal, s.ledger, i);
    hide Chained, NotesMatch, AppendSystemNote, NoteFor;
    assert Next(s, ProjectEvent(p, i)).procs == s.procs;
  }

  lemma StepKeepsInv(dig: Header -> Digest, s: System, a: Step)
    requires Inv(dig, s) && Enabled(dig, s, a)
    ensures Inv(dig, Next(s, a))
  {
    hide VerdictOf, R.Reduce, Chained;
    match a {
      case Append(e) => AppendKeepsInv(dig, s, e);
      case ProjectEvent(p, i) => ProjectStep(dig, s, p, i);
      case ReadStatus(p) => ReadStep(dig, s, p);
      case SealRow(p) => SealStep(dig, s, p);
      case PlainRecover => RecoverStep(dig, s);
      case Die(_) =>
      case FindAttempt(_) => AttemptStep(dig, s, a);
      case MakeAttempt(_) => AttemptStep(dig, s, a);
      case _ => RowStep(dig, s, a);
    }
    if !a.Append? {
      BystandersKeep(s, Next(s, a));
    }
  }

  lemma {:induction false} RunsKeepInv(dig: Header -> Digest, s: System, steps: seq<Step>, t: System)
    requires Inv(dig, s) && Runs(dig, s, steps, t)
    ensures Inv(dig, t) && t.id == s.id
    decreases |steps|
  {
    hide Inv, R.Reduce;
    if steps != [] {
      StepKeepsInv(dig, s, steps[0]);
      RunsKeepInv(dig, Next(s, steps[0]), steps[1..], t);
    }
  }

  // ---------------------------------------------------------------- safety over whole runs

  /**
   In every reachable state a row exists only after a durable `RunStarted`, every note is
   the journal's event at its sequence, and a verdict status is the verdict of a sealed journal.
   */
  lemma LedgerFollowsJournal(dig: Header -> Digest, id: Identity, steps: seq<Step>, s: System)
    requires Runs(dig, Start(id), steps, s)
    ensures s.ledger.row.Some? ==> s.journal != [] && s.journal[0].header.kind.RunStarted?
    ensures forall k :: k in s.ledger.notes ==> k < |s.journal| && s.ledger.notes[k].event == s.journal[k]
    ensures s.ledger.row.Some? && IsVerdictStatus(s.ledger.row.value.status) ==>
              VerdictOf(s.journal).Some? && Records(s.ledger.row.value.status, VerdictOf(s.journal).value)
    ensures |s.ledger.attempts| <= 1
  {
    StartInv(dig, id);
    RunsKeepInv(dig, Start(id), steps, s);
    hide VerdictOf, Chained;
    if s.ledger.row.Some? {
      assert Kinds(s.journal)[0] == s.journal[0].header.kind;
    }
  }

  /** Every status change there is, and who may make it. */
  ghost predicate LegalMove(s: System, a: Step, from: RunStatus, to: RunStatus) {
    || (from == Queued && to == Running && a.StartRow?)
    || (from == Running && to == Interrupted && a.PlainRecover?)
    || (from == Running && a.SealRow? && VerdictOf(s.journal).Some? && to == StatusOf(VerdictOf(s.journal).value))
    || (from == Interrupted && a.SealRow? && a.p in s.procs && s.procs[a.p].view.CatchUp?
        && VerdictOf(s.journal).Some? && to == StatusOf(VerdictOf(s.journal).value))
  }

  /**
   A status changes only along legal moves: an interrupted run becomes terminal only
   through a catch-up of a sealed journal, and a verdict status never changes at all.
   */
  lemma StatusMovesLegally(dig: Header -> Digest, s: System, a: Step)
    requires Inv(dig, s) && Enabled(dig, s, a) && s.ledger.row.Some?
    ensures var t := Next(s, a);
            && t.ledger.row.Some? && t.ledger.row.value.id == s.ledger.row.value.id
            && (t.ledger.row == s.ledger.row || LegalMove(s, a, s.ledger.row.value.status, t.ledger.row.value.status))
  {
    hide R.Reduce, VerdictOf, Chained;
    if a.SealRow? {
      assert GoodProc(s, s.procs[a.p]);
      SealMoves(s.ledger, s.procs[a.p].pc.read, s.procs[a.p].pc.verdict, s.procs[a.p].view.CatchUp?);
      hide SealFrom, NotesMatch, AttemptsFollowRow, StatusJustified;
    } else {
      hide Inv, NotesMatch, StreamOf;
    }
  }

  /** A plain recover interrupts a running row in one step, from wherever it falls, and with it the run's attempt. */
  lemma RecoverInterrupts(dig: Header -> Digest, s: System)
    requires Inv(dig, s) && s.ledger.row.Some?
    ensures var t, status := Next(s, PlainRecover), s.ledger.row.value.status;
            && t.ledger.row.Some? && t.ledger.row.value.status == (if status == Running then Interrupted else status)
            && t.ledger.notes == s.ledger.notes && t.journal == s.journal && t.procs == s.procs
            && (t.ledger.attempts == [] || t.ledger.attempts == [t.ledger.row.value.status])
  {
    hide R.Reduce, VerdictOf, Chained;
    PlainRecoverExactly(s.ledger);
  }

  /** Sealing writes the verdict's status over `running`, or over `interrupted` when repairing, or nothing. */
  lemma SealMoves(l: Ledger, read: RunStatus, v: R.Verdict, allowRepair: bool)
    requires l.row.Some?
    ensures var l' := SealFrom(l, read, v, allowRepair);
            && l'.row.Some? && l'.row.value.id == l.row.value.id
            && (l'.row == l.row
                || (l'.row.value.status == StatusOf(v)
                    && (l.row.value.status == Running || (allowRepair && l.row.value.status == Interrupted))))
  {
  }

  lemma {:induction false} VerdictNeverChanges(dig: Header -> Digest, s: System, steps: seq<Step>, t: System)
    requires Inv(dig, s) && Runs(dig, s, steps, t)
    requires s.ledger.row.Some? && IsVerdictStatus(s.ledger.row.value.status)
    ensures t.ledger.row == s.ledger.row
    decreases |steps|
  {
    hide Inv, R.Reduce;
    if steps != [] {
      StatusMovesLegally(dig, s, steps[0]);
      StepKeepsInv(dig, s, steps[0]);
      VerdictNeverChanges(dig, Next(s, steps[0]), steps[1..], t);
    }
  }

  // ---------------------------------------------------------------- convergence

  /** The notes a complete projection of `journal` under one attempt leaves. */
  function AllNotes(id: Identity, attempt: Option<nat>, journal: seq<Event>): map<nat, Note> {
    map k: nat | k < |journal| :: NoteFor(id, attempt, journal[k])
  }

  predicate Numbered(events: seq<Event>) {
    forall i :: 0 <= i < |events| ==> events[i].header.sequence == i
  }

  lemma MergeSnoc(id: Identity, attempt: Option<nat>, events: seq<Event>, notes: map<nat, Note>)
    requires events != []
    ensures var n := |events| - 1;
            var merged := AllNotes(id, attempt, events[..n]) + notes;
            AllNotes(id, attempt, events) + notes
            == if n in merged then merged else merged[n := NoteFor(id, attempt, events[n])]
  {
    var n := |events| - 1;
    var merged := AllNotes(id, attempt, events[..n]) + notes;
    var whole := AllNotes(id, attempt, events) + notes;
    assert n in merged <==> n in notes;
    forall k: nat ensures k in whole <==> k in merged || k == n {}
  }

  lemma {:induction false} ProjectionFills(l: Ledger, id: Identity, attempt: Option<nat>, events: seq<Event>)
    requires Numbered(events)
    ensures ProjectAll(l, id, attempt, events).1 == l.(notes := AllNotes(id, attempt, events) + l.notes)
    decreases |events|
  {
    if events == [] {
      assert AllNotes(id, attempt, events) + l.notes == l.notes;
    } else {
      ProjectionFills(l, id, attempt, events[..|events| - 1]);
      MergeSnoc(id, attempt, events, l.notes);
    }
  }

  /** Every note already there was recorded for the same event under the same attempt. */
  predicate Agree(notes: map<nat, Note>, id: Identity, attempt: Option<nat>, events: seq<Event>) {
    forall k :: k in notes && k < |events| ==> notes[k] == NoteFor(id, attempt, events[k])
  }

  lemma AgreeSnoc(notes: map<nat, Note>, id: Identity, attempt: Option<nat>, events: seq<Event>)
    requires events != []
    ensures var n := |events| - 1;
            Agree(notes, id, attempt, events)
            <==> Agree(notes, id, attempt, events[..n]) && (n in notes ==> notes[n] == NoteFor(id, attempt, events[n]))
  {
    var n := |events| - 1;
    assert forall k :: 0 <= k < n ==> events[..n][k] == events[k];
  }

  /** Re-projection succeeds exactly on agreement; old notes stay and missing ones are filled in. */
  lemma {:induction false} ReprojectionExactly(l: Ledger, id: Identity, attempt: Option<nat>, events: seq<Event>)
    requires Numbered(events)
    ensures ProjectAll(l, id, attempt, events).1 == l.(notes := AllNotes(id, attempt, events) + l.notes)
    ensures ProjectAll(l, id, attempt, events).0 <==> Agree(l.notes, id, attempt, events)
    decreases |events|
  {
    ProjectionFills(l, id, attempt, events);
    if events != [] {
      var n := |events| - 1;
      ReprojectionExactly(l, id, attempt, events[..n]);
      AgreeSnoc(l.notes, id, attempt, events);
      hide Agree;
      var notes := ProjectAll(l, id, attempt, events[..n]).1.notes;
      assert n in notes <==> n in l.notes;
      assert n in notes ==> notes[n] == l.notes[n];
    }
  }

  /** The ledger of a run that is fully projected and sealed. */
  function Converged(id: Identity, journal: seq<Event>, v: R.Verdict, attempted: bool): Ledger {
    Ledger(Some(Row(id, StatusOf(v))), if attempted then [StatusOf(v)] else [],
           AllNotes(id, if attempted then Some(0) else None, journal))
  }

  /** Whether the run ever gets an attempt: not if it was interrupted before it had one. */
  predicate Attempted(l: Ledger) { l.attempts != [] || l.row.None? || !IsSettled(l.row.value.status) }

  lemma AttachFinds(id: Identity, journal: seq<Event>, l: Ledger)
    requires AttemptsFollowRow(l) && NotesMatch(id, journal, l) && StatusJustified(id, journal, l)
    ensures var (r, l') := Attach(l, id);
            && r == Ok(if Attempted(l) then Some(0) else None)
            && l'.notes == l.notes
            && l'.row == Some(Row(id, if l.row.Some? && IsSettled(l.row.value.status) then l.row.value.status else Running))
            && l'.attempts == (if Attempted(l) then [l'.row.value.status] else [])
            && forall k :: k in l.notes ==> k < |journal| && l.notes[k] == NoteFor(id, r.value, journal[k])
  {
    hide VerdictOf;
  }

  /** Sealing finishes an open, an interrupted or an already sealed run alike. */
  lemma SealFinishes(l: Ledger, v: R.Verdict)
    requires l.row.Some? && l.row.value.status in {Running, Interrupted, StatusOf(v)}
    requires l.attempts == [] || l.attempts == [l.row.value.status]
    ensures Seal(l, v, true)
            == (Ok(()), l.(row := Some(l.row.value.(status := StatusOf(v))), attempts := if l.attempts == [] then [] else [StatusOf(v)]))
  {
    var st := StatusOf(v);
    assert CloseRunning([Running], st) == [st];
    assert CloseLatestInterrupted([Interrupted], st) == [st];
    assert CloseRunning([], st) == [];
  }

  /**
   From every ledger a run can leave behind, catch-up of the sealed journal ends in the
   crash-free ledger, up to the attempt that was never opened.
   */
  lemma ApplyConverges(id: Identity, journal: seq<Event>, l: Ledger, v: R.Verdict)
    requires AttemptsFollowRow(l) && NotesMatch(id, journal, l) && StatusJustified(id, journal, l)
    requires Numbered(journal) && VerdictOf(journal) == Some(v)
    ensures Apply(l, id, journal, Some(v)) == (Ok(true), Converged(id, journal, v, Attempted(l)))
  {
    hide VerdictOf, Attach, ProjectAll, Seal;
    AttachFinds(id, journal, l);
    var (attached, l1) := Attach(l, id);
    ReprojectionExactly(l1, id, attached.value, journal);
    var l2 := ProjectAll(l1, id, attached.value, journal).1;
    assert l2.notes == AllNotes(id, attached.value, journal);
    SealFinishes(l2, v);
  }

  /** The result a run without any failure leaves. */
  lemma CrashFreeResult(id: Identity, journal: seq<Event>, v: R.Verdict)
    requires Numbered(journal) && VerdictOf(journal) == Some(v)
    ensures Apply(EMPTY, id, journal, Some(v)) == (Ok(true), Converged(id, journal, v, true))
  {
    hide VerdictOf;
    ApplyConverges(id, journal, EMPTY, v);
  }

  /** Ledgers that differ at most in whether an attempt was recorded. */
  function EraseAttempts(l: Ledger): Ledger {
    l.(attempts := [], notes := map k | k in l.notes :: l.notes[k].(attempt := None))
  }

  lemma ConvergedUpToAttempt(id: Identity, journal: seq<Event>, v: R.Verdict, attempted: bool)
    ensures EraseAttempts(Converged(id, journal, v, attempted)) == EraseAttempts(Converged(id, journal, v, true))
  {
    assert EraseAttempts(Converged(id, journal, v, attempted)).notes == AllNotes(id, None, journal);
    assert EraseAttempts(Converged(id, journal, v, true)).notes == AllNotes(id, None, journal);
  }

  /**
   Crash convergence. After any run, one catch-up of the sealed record whose ledger calls
   succeed reports success and leaves one note per event under one attempt and the
   verdict's status; a second catch-up changes nothing.
   */
  lemma CatchUpConverges(
    hash: Bytes -> Digest, dig: Header -> Digest, id: Identity, steps: seq<Step>, s: System, v: R.Verdict, d: Disk)
    requires Runs(dig, Start(id), steps, s) && VerdictOf(s.journal) == Some(v)
    requires d.stream == s.journal && d.verified
    requires d.ledgerBinding.Some? && d.ledgerBinding.value.schema == 1 && IdentityOf(d.ledgerBinding.value) == id
    ensures Resolve(hash, s.ledger.row, d, None) == Ok(id)
    ensures Apply(s.ledger, id, s.journal, Some(v)) == (Ok(true), Converged(id, s.journal, v, Attempted(s.ledger)))
    ensures var l := Converged(id, s.journal, v, Attempted(s.ledger));
            && Resolve(hash, l.row, d, None) == Ok(id)
            && Apply(l, id, s.journal, Some(v)) == (Ok(true), l)
    ensures EraseAttempts(Apply(s.ledger, id, s.journal, Some(v)).1)
            == EraseAttempts(Apply(EMPTY, id, s.journal, Some(v)).1)
    ensures var row := Apply(s.ledger, id, s.journal, Some(v)).1.row;
            && row.Some? && row.value.id == id
            && (row.value.status == Completed <==> v == R.Pass) && (row.value.status == Failed <==> v == R.Fail)
            && (row.value.status == RunStatus.Blocked <==> v == R.Blocked) && (row.value.status == RunStatus.Error <==> v == R.Error)
  {
    StartInv(dig, id);
    RunsKeepInv(dig, Start(id), steps, s);
    VerdictMeansEvents(s.journal);
    var l := Converged(id, s.journal, v, Attempted(s.ledger));
    ResolveHonest(hash, dig, id, s.journal, s.ledger, v, d);
    ApplyConverges(id, s.journal, s.ledger, v);
    hide R.Reduce, Apply, Resolve, VerdictOf, Chained;
    CrashFreeResult(id, s.journal, v);
    ConvergedAgain(id, s.journal, v, Attempted(s.ledger));
    ResolveHonest(hash, dig, id, s.journal, l, v, d);
    ConvergedUpToAttempt(id, s.journal, v, Attempted(s.ledger));
  }

  /** Catch-up of an honest record attaches under the run's own identity. */
  lemma ResolveHonest(hash: Bytes -> Digest, dig: Header -> Digest, id: Identity, journal: seq<Event>, l: Ledger, v: R.Verdict, d: Disk)
    requires GoodJournal(dig, id.run, journal) && StatusJustified(id, journal, l) && VerdictOf(journal) == Some(v) && journal != []
    requires d.stream == journal && d.verified
    requires d.ledgerBinding.Some? && d.ledgerBinding.value.schema == 1 && IdentityOf(d.ledgerBinding.value) == id
    ensures Resolve(hash, l.row, d, None) == Ok(id)
  {
    hide R.Reduce;
    assert d.stream[0].header.runId == id.run;
  }

  /** Catching up once more changes nothing. */
  lemma ConvergedAgain(id: Identity, journal: seq<Event>, v: R.Verdict, attempted: bool)
    requires Numbered(journal) && VerdictOf(journal) == Some(v) && journal != []
    ensures StatusJustified(id, journal, Converged(id, journal, v, attempted))
    ensures Apply(Converged(id, journal, v, attempted), id, journal, Some(v)) == (Ok(true), Converged(id, journal, v, attempted))
  {
    hide VerdictOf, Apply;
    ApplyConverges(id, journal, Converged(id, journal, v, attempted), v);
  }

  lemma NumberedByChain(dig: Header -> Digest, run: string, journal: seq<Event>)
    requires GoodJournal(dig, run, journal)
    ensures Numbered(journal)
  {
    hide R.Reduce;
  }

  lemma VerdictMeansEvents(journal: seq<Event>)
    requires VerdictOf(journal).Some?
    ensures journal != []
  {
  }

  lemma ConvergedEvolves(id: Identity, journal: seq<Event>, l: Ledger, v: R.Verdict)
    requires AttemptsFollowRow(l) && VerdictOf(journal) == Some(v) && journal != []
    ensures var l' := Converged(id, journal, v, Attempted(l));
            Evolves(l, l') && AttemptsFollowRow(l') && NotesMatch(id, journal, l') && StatusJustified(id, journal, l')
  {
    hide VerdictOf, NoteFor;
  }

  /** Processes left over from before a catch-up are as consistent with its result as they were before. */
  lemma CatchUpKeepsInv(dig: Header -> Digest, s: System, v: R.Verdict)
    requires Inv(dig, s) && VerdictOf(s.journal) == Some(v)
    ensures Inv(dig, s.(ledger := Apply(s.ledger, s.id, s.journal, Some(v)).1))
  {
    hide R.Reduce, Apply, Chained, Converged, Evolves, AttemptsFollowRow, NotesMatch, StatusJustified, GoodProc;
    VerdictMeansEvents(s.journal);
    NumberedByChain(dig, s.id.run, s.journal);
    ApplyConverges(s.id, s.journal, s.ledger, v);
    ConvergedEvolves(s.id, s.journal, s.ledger, v);
    BystandersKeep(s, s.(ledger := Apply(s.ledger, s.id, s.journal, Some(v)).1));
  }

  /**
   The ledger after a catch-up is final: in every reachable state, applying the sealed
   record leaves a ledger that no process left over from before can ever change.
   */
  lemma ConvergedIsFinal(dig: Header -> Digest, id: Identity, steps: seq<Step>, s: System, v: R.Verdict, more: seq<Step>, t: System)
    requires Runs(dig, Start(id), steps, s) && VerdictOf(s.journal) == Some(v)
    requires Runs(dig, s.(ledger := Apply(s.ledger, id, s.journal, Some(v)).1), more, t)
    ensures t.ledger == Apply(s.ledger, id, s.journal, Some(v)).1 == Converged(id, s.journal, v, Attempted(s.ledger))
    ensures t.journal == s.journal
  {
    hide R.Reduce, VerdictOf, Runs;
    StartInv(dig, id);
    RunsKeepInv(dig, Start(id), steps, s);
    CatchUpKeepsInv(dig, s, v);
    ApplyConverges(id, s.journal, s.ledger, v);
    hide Inv, Apply, Converged;
    ConvergedStays(dig, s.(ledger := Apply(s.ledger, id, s.journal, Some(v)).1), v, Attempted(s.ledger), more, t);
  }

  lemma {:induction false} ConvergedStays(dig: Header -> Digest, s: System, v: R.Verdict, attempted: bool, steps: seq<Step>, t: System)
    requires Inv(dig, s) && VerdictOf(s.journal) == Some(v) && s.ledger == Converged(s.id, s.journal, v, attempted)
    requires Runs(dig, s, steps, t)
    ensures t.ledger == s.ledger && t.journal == s.journal
    decreases |steps|
  {
    if steps != [] {
      ConvergedStep(dig, s, v, attempted, steps[0]);
      StepKeepsInv(dig, s, steps[0]);
      hide Inv, R.Reduce, Converged;
      ConvergedStays(dig, Next(s, steps[0]), v, attempted, steps[1..], t);
    }
  }

  lemma ConvergedStep(dig: Header -> Digest, s: System, v: R.Verdict, attempted: bool, a: Step)
    requires Inv(dig, s) && VerdictOf(s.journal) == Some(v) && s.ledger == Converged(s.id, s.journal, v, attempted)
    requires Enabled(dig, s, a)
    ensures Next(s, a).ledger == s.ledger && Next(s, a).journal == s.journal && Next(s, a).id == s.id
  {
    hide R.Reduce;
    match a {
      case Append(e) => SealedIsWhole(dig, s.id.run, s.journal + [e], s.journal);
      case ProjectEvent(p, i) => assert GoodProc(s, s.procs[p]);
      case SealRow(p) => assert GoodProc(s, s.procs[p]);
      case _ =>
    }
  }

  /**
   From the commands' outcomes to the ledger: whatever happened to the processes of a
   ledger-backed run whose live stream was sealed, catching it up marks it completed exactly
   when the agent exited with 0 and every required step ran and succeeded or was waived.
   */
  lemma LiveRunRecorded(
    dig: Header -> Digest, id: Identity, steps: seq<Step>, s: System,
    hash: Bytes -> Digest, task: R.Artifact, exitCode: Option<int>, session: Option<R.Artifact>,
    diff: R.Artifact, candidate: R.Artifact, defs: seq<G.StepDef>, os: seq<G.Outcome>)
    requires Runs(dig, Start(id), steps, s) && |defs| == |os| && G.ValidManifest(defs)
    requires R.ValidArtifact(task) && R.ValidArtifact(diff) && R.ValidArtifact(candidate) && (session.Some? ==> R.ValidArtifact(session.value))
    requires Kinds(s.journal) == G.LiveStream(hash, G.ContractOf(defs, Some(R.CONTRACT_SCHEMA)), task, exitCode, session, diff, candidate, defs, os)
    ensures VerdictOf(s.journal).Some?
    ensures var row := Apply(s.ledger, id, s.journal, VerdictOf(s.journal)).1.row;
            && row.Some?
            && (row.value.status == Completed <==>
                  && exitCode == Some(0)
                  && forall i :: 0 <= i < |defs| && defs[i].required ==>
                       if G.Skipped(defs[i]) then G.HasWaiver(defs[i]) else os[i].Exited? && os[i].success)
  {
    G.LiveVerdict(hash, task, exitCode, session, diff, candidate, defs, os);
    hide R.Reduce, G.ValidManifest, G.LiveStream, G.ContractOf, G.CanonicalVerdict, G.Skipped, G.HasWaiver, Runs, Apply;
    RecordedStatus(dig, id, steps, s, VerdictOf(s.journal).value);
  }

  lemma RecordedStatus(dig: Header -> Digest, id: Identity, steps: seq<Step>, s: System, v: R.Verdict)
    requires Runs(dig, Start(id), steps, s) && VerdictOf(s.journal) == Some(v)
    ensures var row := Apply(s.ledger, id, s.journal, Some(v)).1.row; row.Some? && Records(row.value.status, v)
  {
    hide VerdictOf, Runs, Apply;
    StartInv(dig, id);
    RunsKeepInv(dig, Start(id), steps, s);
    ApplyConverges(id, s.journal, s.ledger, v);
  }

  /**
   One attempt per run is needed: once a run with a projected event is resumed, its record
   can no longer be re-projected, because the note was digested under the older attempt.
   */
  lemma ResumedRunConflicts(id: Identity, journal: seq<Event>, l: Ledger, k: nat, v: R.Verdict)
    requires AttemptsFollowRow(l) && NotesMatch(id, journal, l) && StatusJustified(id, journal, l)
    requires Numbered(journal) && k in l.notes && ResumeInterrupted(l).0.Ok?
    ensures Apply(ResumeInterrupted(l).1, id, journal, Some(v)).0 == Ok(false)
  {
    hide VerdictOf;
    var r := ResumeInterrupted(l).1;
    var (attached, l1) := Attach(r, id);
    assert attached == Ok(Some(|l.attempts|)) && l1 == r;
    ReprojectionExactly(l1, id, attached.value, journal);
    assert l.notes[k].attempt == LatestAttempt(l) != attached.value;
  }

  // ---------------------------------------------------------------- the steps and the sequential operations

  /** The transactions of attaching, taken without interruption, are the attach operation. */
  lemma AttachIsItsSteps(s: System, p: ProcId)
    requires p in s.procs && s.procs[p].pc.Idle?
    ensures var s1 := Next(s, CreateRow(p));
            var (r, l) := Attach(s.ledger, s.id);
            if !s1.procs[p].pc.Seen? then r.Err? && l == s1.ledger
            else
              var s2 := Next(s1, StartRow(p));
              if !s2.procs[p].pc.Ready? then r.Err? && l == s2.ledger
              else
                var s3 := Next(s2, FindAttempt(p));
                var s4 := if s3.procs[p].pc.NeedAttempt? then Next(s3, MakeAttempt(p)) else s3;
                l == s4.ledger && s4.procs[p].pc == if r.Ok? then Attached(r.value) else Ended
  {
  }

  /** Sealing is reading the status and then writing what was decided, if nothing happens in between. */
  lemma SealIsReadThenWrite(l: Ledger, v: R.Verdict, allowRepair: bool)
    requires l.row.Some?
    ensures Seal(l, v, allowRepair).1 == SealFrom(l, l.row.value.status, v, allowRepair)
  {
  }

  lemma {:induction false} RunsThen(dig: Header -> Digest, s: System, steps: seq<Step>, t: System, a: Step)
    requires Runs(dig, s, steps, t) && Enabled(dig, t, a)
    ensures Runs(dig, s, steps + [a], Next(t, a))
    decreases |steps|
  {
    hide GoodJournal;
    if steps == [] {
      assert steps + [a] == [a];
      assert Runs(dig, Next(t, a), [a][1..], Next(t, a));
    } else {
      RunsThen(dig, Next(s, steps[0]), steps[1..], t, a);
      assert (steps + [a])[1..] == steps[1..] + [a];
    }
  }

  /** A ledger transaction of process `p` touches only that process and the ledger. */
  lemma OneProcess(s: System, a: Step, p: ProcId)
    requires Can(s, a) && a in {CreateRow(p), StartRow(p), FindAttempt(p), MakeAttempt(p), ReadStatus(p), SealRow(p)}
    ensures var t := Next(s, a);
            && p in t.procs && t.procs[p].view == s.procs[p].view
            && t == s.(ledger := t.ledger, procs := s.procs[p := t.procs[p]])
  {
    hide VerdictOf, SealFrom, RunningAttempt;
  }

  lemma RunsOn(dig: Header -> Digest, s: System, steps: seq<Step>, t: System, a: Step, p: ProcId) returns (steps': seq<Step>, t': System)
    requires Runs(dig, s, steps, t)
    requires Can(t, a) && a in {CreateRow(p), StartRow(p), FindAttempt(p), MakeAttempt(p), ReadStatus(p), SealRow(p)}
    ensures Runs(dig, s, steps', t') && t' == Next(t, a)
    ensures p in t'.procs && t'.procs[p].view == t.procs[p].view
    ensures t' == t.(ledger := t'.ledger, procs := t.procs[p := t'.procs[p]])
  {
    OneProcess(t, a, p);
    hide Runs, Next, VerdictOf;
    RunsThen(dig, s, steps, t, a);
    steps', t' := steps + [a], Next(t, a);
  }

  /** Beginning a catch-up and attaching, step by step. */
  lemma AttachRuns(dig: Header -> Digest, s: System, p: ProcId) returns (steps: seq<Step>, t: System)
    requires p !in s.procs && s.journal != [] && Attach(s.ledger, s.id).0.Ok?
    ensures Runs(dig, s, steps, t)
    ensures var (r, l) := Attach(s.ledger, s.id);
            t == s.(ledger := l, procs := s.procs[p := Proc(CatchUp(s.journal), Attached(r.value))])
  {
    hide Attach;
    var u := Next(s, Begin(p, false));
    assert Enabled(dig, s, Begin(p, false));
    assert u == s.(procs := s.procs[p := Proc(CatchUp(s.journal), Idle)]);
    RunsNone(dig, s);
    hide Runs, Next, Can, Enabled;
    RunsThen(dig, s, [], s, Begin(p, false));
    steps, t := AttachSteps(dig, s, [] + [Begin(p, false)], u, p);
  }

  lemma AttachSteps(dig: Header -> Digest, s: System, done: seq<Step>, u: System, p: ProcId) returns (steps: seq<Step>, t: System)
    requires Runs(dig, s, done, u) && p in u.procs && u.procs[p].pc.Idle? && Attach(u.ledger, u.id).0.Ok?
    ensures Runs(dig, s, steps, t)
    ensures var (r, l) := Attach(u.ledger, u.id);
            t == u.(ledger := l, procs := u.procs[p := u.procs[p].(pc := Attached(r.value))])
  {
    AttachIsItsSteps(u, p);
    hide Attach, Runs, Next, VerdictOf, StreamOf;
    steps, t := RunsOn(dig, s, done, u, CreateRow(p), p);
    steps, t := RunsOn(dig, s, steps, t, StartRow(p), p);
    assert t == u.(ledger := t.ledger, procs := u.procs[p := t.procs[p]]);
    steps, t := RunsOn(dig, s, steps, t, FindAttempt(p), p);
    assert t == u.(ledger := t.ledger, procs := u.procs[p := t.procs[p]]);
    if t.procs[p].pc.NeedAttempt? {
      steps, t := RunsOn(dig, s, steps, t, MakeAttempt(p), p);
      assert t == u.(ledger := t.ledger, procs := u.procs[p := t.procs[p]]);
    }
  }

  lemma RunsNone(dig: Header -> Digest, s: System)
    ensures Runs(dig, s, [], s)
  {
  }

  /** Projecting the first `n` events, step by step, after some steps already taken. */
  lemma {:induction false} ProjectRuns(dig: Header -> Digest, s: System, done: seq<Step>, u: System, p: ProcId, n: nat) returns (steps: seq<Step>, t: System)
    requires Runs(dig, s, done, u) && p in u.procs && StreamOf(u, p) == u.journal && u.procs[p].pc.Attached? && n <= |u.journal|
    ensures Runs(dig, s, steps, t)
    ensures t == u.(ledger := ProjectAll(u.ledger, u.id, u.procs[p].pc.attempt, u.journal[..n]).1)
  {
    hide Runs, GoodJournal;
    if n == 0 {
      steps, t := done, u;
    } else {
      steps, t := ProjectRuns(dig, s, done, u, p, n - 1);
      assert u.journal[..n][..n - 1] == u.journal[..n - 1];
      RunsThen(dig, s, steps, t, ProjectEvent(p, n - 1));
      steps, t := steps + [ProjectEvent(p, n - 1)], Next(t, ProjectEvent(p, n - 1));
    }
  }

  /**
   Catch-up is a run of the transition system: a new process that takes its steps
   without interruption leaves exactly the ledger that applying the sealed journal gives.
   */
  lemma CatchUpIsARun(dig: Header -> Digest, s: System, p: ProcId, v: R.Verdict) returns (steps: seq<Step>, t: System)
    requires Inv(dig, s) && VerdictOf(s.journal) == Some(v) && p !in s.procs
    ensures Runs(dig, s, steps, t)
    ensures t == s.(ledger := Apply(s.ledger, s.id, s.journal, Some(v)).1, procs := s.procs[p := Proc(CatchUp(s.journal), Ended)])
  {
    hide R.Reduce, VerdictOf, Runs, Attach, ProjectAll, Inv, Seal, SealFrom;
    AttachSucceeds(dig, s, v);
    steps, t := AttachRuns(dig, s, p);
    ghost var u, r := t, Attach(s.ledger, s.id).0.value;
    steps, t := ProjectRuns(dig, s, steps, u, p, |s.journal|);
    assert s.journal[..|s.journal|] == s.journal;
    ProjectKeepsRow(u.ledger, s.id, r, s.journal);
    SealIsReadThenWrite(t.ledger, v, true);
    steps, t := SealRuns(dig, s, steps, t, p, v);
    assert t.procs == s.procs[p := Proc(CatchUp(s.journal), Ended)];
  }

  lemma AttachSucceeds(dig: Header -> Digest, s: System, v: R.Verdict)
    requires Inv(dig, s) && VerdictOf(s.journal) == Some(v)
    ensures s.journal != [] && Attach(s.ledger, s.id).0.Ok? && Attach(s.ledger, s.id).1.row.Some?
  {
    VerdictMeansEvents(s.journal);
    AttachFinds(s.id, s.journal, s.ledger);
  }

  lemma SealRuns(dig: Header -> Digest, s: System, done: seq<Step>, u: System, p: ProcId, v: R.Verdict) returns (steps: seq<Step>, t: System)
    requires Runs(dig, s, done, u) && p in u.procs && StreamOf(u, p) == u.journal && u.procs[p].pc.Attached?
    requires VerdictOf(u.journal) == Some(v) && u.ledger.row.Some?
    ensures Runs(dig, s, steps, t)
    ensures t == u.(ledger := SealFrom(u.ledger, u.ledger.row.value.status, v, u.procs[p].view.CatchUp?),
                    procs := u.procs[p := u.procs[p].(pc := Ended)])
  {
    hide Runs, VerdictOf, SealFrom, RunningAttempt;
    steps, t := RunsOn(dig, s, done, u, ReadStatus(p), p);
    assert t.procs[p].pc == Sealing(v, u.ledger.row.value.status) && t.ledger == u.ledger;
    steps, t := RunsOn(dig, s, steps, t, SealRow(p), p);
  }

  lemma {:induction false} ProjectKeepsRow(l: Ledger, id: Identity, attempt: Option<nat>, events: seq<Event>)
    ensures ProjectAll(l, id, attempt, events).1.row == l.row
    decreases |events|
  {
    if events != [] {
      ProjectKeepsRow(l, id, attempt, events[..|events| - 1]);
    }
  }

  lemma GoodPrefix(dig: Header -> Digest, run: string, journal: seq<Event>, n: nat)
    requires GoodJournal(dig, run, journal) && n <= |journal|
    ensures GoodJournal(dig, run, journal[..n])
  {
    ChainedPrefix(dig, run, journal, n);
    R.PrefixAccepted(Kinds(journal), n);
    hide R.Reduce, Chained;
    assert Kinds(journal[..n]) == Kinds(journal)[..n];
  }

  lemma AppendOne(dig: Header -> Digest, s: System, done: seq<Step>, u: System, e: Event) returns (steps: seq<Step>, t: System)
    requires Runs(dig, s, done, u) && GoodJournal(dig, u.id.run, u.journal + [e])
    ensures Runs(dig, s, steps, t) && t == u.(journal := u.journal + [e])
  {
    hide GoodJournal, Runs, StreamOf, VerdictOf;
    RunsThen(dig, s, done, u, Append(e));
    steps, t := done + [Append(e)], Next(u, Append(e));
  }

  /** Appending the journal event by event, from the `n`th on. */
  lemma {:induction false} AppendRuns(dig: Header -> Digest, s: System, done: seq<Step>, u: System, journal: seq<Event>, n: nat) returns (steps: seq<Step>, t: System)
    requires Runs(dig, s, done, u) && GoodJournal(dig, u.id.run, journal) && n <= |journal| && u.journal == journal[..n]
    ensures Runs(dig, s, steps, t) && t == u.(journal := journal)
    decreases |journal| - n
  {
    hide GoodJournal, Runs;
    if n == |journal| {
      assert journal[..n] == journal;
      steps, t := done, u;
    } else {
      GoodPrefix(dig, u.id.run, journal, n + 1);
      assert journal[..n + 1] == journal[..n] + [journal[n]];
      steps, t := AppendOne(dig, s, done, u, journal[n]);
      steps, t := AppendRuns(dig, s, steps, t, journal, n + 1);
    }
  }

  /**
   The live worker is a run of the transition system: started at the first event, it takes
   in what is appended later and ends in the converged ledger of its sealed journal.
   */
  lemma LiveIsARun(dig: Header -> Digest, id: Identity, journal: seq<Event>, v: R.Verdict) returns (steps: seq<Step>, t: System)
    requires GoodJournal(dig, id.run, journal) && VerdictOf(journal) == Some(v)
    ensures Runs(dig, Start(id), steps, t) && t.journal == journal && t.ledger == Converged(id, journal, v, true)
  {
    VerdictMeansEvents(journal);
    NumberedByChain(dig, id.run, journal);
    hide R.Reduce, VerdictOf, GoodJournal, Runs, Attach, ProjectAll, Seal, SealFrom, Converged;
    LiveLedgerResult(id, journal, v);
    steps, t := OpenRuns(dig, id, journal);
    steps, t := AppendRuns(dig, Start(id), steps, t, journal, 1);
    steps, t := ProjectRuns(dig, Start(id), steps, t, 0, |journal|);
    assert journal[..|journal|] == journal;
    steps, t := SealRuns(dig, Start(id), steps, t, 0, v);
  }

  lemma LiveLedgerResult(id: Identity, journal: seq<Event>, v: R.Verdict)
    requires Numbered(journal) && VerdictOf(journal) == Some(v)
    ensures Attach(EMPTY, id).0 == Ok(Some(0))
    ensures var l := ProjectAll(Attach(EMPTY, id).1, id, Some(0), journal).1;
            l.row.Some? && SealFrom(l, l.row.value.status, v, false) == Converged(id, journal, v, true)
  {
    hide VerdictOf, Attach, ProjectAll, Seal, SealFrom;
    UndisturbedRun(id, journal, v);
    CrashFreeResult(id, journal, v);
    AttachFinds(id, journal, EMPTY);
    var l1 := Attach(EMPTY, id).1;
    ReprojectionExactly(l1, id, Some(0), journal);
    SealIsReadThenWrite(ProjectAll(l1, id, Some(0), journal).1, v, false);
    hide Apply, Converged;
  }

  /** The first event, then a live process that attaches. */
  lemma OpenRuns(dig: Header -> Digest, id: Identity, journal: seq<Event>) returns (steps: seq<Step>, t: System)
    requires GoodJournal(dig, id.run, journal) && journal != [] && Attach(EMPTY, id).0.Ok?
    ensures Runs(dig, Start(id), steps, t)
    ensures t == System(id, journal[..1], Attach(EMPTY, id).1, map[0 := Proc(Live, Attached(Attach(EMPTY, id).0.value))])
  {
    GoodPrefix(dig, id.run, journal, 1);
    hide GoodJournal, Runs, Attach;
    var s := Start(id);
    RunsNone(dig, s);
    assert [] + [journal[0]] == journal[..1];
    RunsThen(dig, s, [], s, Append(journal[0]));
    var s1 := Next(s, Append(journal[0]));
    RunsThen(dig, s, [] + [Append(journal[0])], s1, Begin(0, true));
    steps, t := AttachSteps(dig, s, [] + [Append(journal[0])] + [Begin(0, true)], Next(s1, Begin(0, true)), 0);
  }

  /** A live run that is never disturbed ends in the same ledger as catch-up from nothing. */
  lemma UndisturbedRun(id: Identity, journal: seq<Event>, v: R.Verdict)
    requires Numbered(journal) && VerdictOf(journal) == Some(v)
    ensures var (attached, l1) := Attach(EMPTY, id);
            && attached == Ok(Some(0))
            && ProjectAll(l1, id, Some(0), journal).0
            && Seal(ProjectAll(l1, id, Some(0), journal).1, v, false) == (Ok(()), Apply(EMPTY, id, journal, Some(v)).1)
  {
    hide VerdictOf, Attach, ProjectAll, Seal;
    CrashFreeResult(id, journal, v);
    AttachFinds(id, journal, EMPTY);
    var l1 := Attach(EMPTY, id).1;
    ReprojectionExactly(l1, id, Some(0), journal);
    var l2 := ProjectAll(l1, id, Some(0), journal).1;
    assert l2.notes == AllNotes(id, Some(0), journal);
    LiveSealFinishes(l2, v);
  }

  lemma LiveSealFinishes(l: Ledger, v: R.Verdict)
    requires l.row.Some? && l.row.value.status == Running && l.attempts == [Running]
    ensures Seal(l, v, false) == (Ok(()), l.(row := Some(l.row.value.(status := StatusOf(v))), attempts := [StatusOf(v)]))
  {
    assert CloseRunning([Running], StatusOf(v)) == [StatusOf(v)];
  }
}
