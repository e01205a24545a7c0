/**
 The ledger projector and catch-up (`src/ledger_projector.rs`, `src/recovery.rs`). Each
 method issues the ledger transactions of the original in order; the functions beside
 them say what the whole sequence does to the ledger.
 */
module Projector {
  import opened Base
  import opened Journal
  import opened Ledger
  import CR = ChildRecord
  import R = Reducer

  function StatusOf(v: R.Verdict): RunStatus {
    match v
    case Pass => Completed
    case Fail => Failed
    case Blocked => RunStatus.Blocked
    case Error => RunStatus.Error
  }

  /** The status a ledger must show for a verdict. */
  predicate Records(st: RunStatus, v: R.Verdict) {
    && (st == Completed <==> v == R.Pass) && (st == Failed <==> v == R.Fail)
    && (st == RunStatus.Blocked <==> v == R.Blocked) && (st == RunStatus.Error <==> v == R.Error)
  }

  predicate IsSettled(s: RunStatus) {
    match s
    case Completed | Failed | Cancelled | Blocked | Error | Interrupted => true
    case Queued | Running => false
  }

  function NoteFor(id: Identity, attempt: Option<nat>, e: Event): Note {
    Note(id.conversation, id.run, attempt, e)
  }

  datatype CatchUpError = Verification | IdentityMismatch | LedgerFailure

  datatype Receipt = Receipt(isSealed: bool, applied: bool)

  /** A run directory as catch-up reads it; `verified` is the outcome of the content checks. */
  datatype Disk = Disk(
    stream: seq<Event>, verified: bool,
    ledgerBinding: Option<CR.LedgerBinding>, commandBinding: Option<CR.CommandBinding>)

  function IdentityOf(b: CR.LedgerBinding): Identity { Identity(b.runId, b.conversation, b.parent, b.agent, b.role) }

  // ---------------------------------------------------------------- whole operations

  /** Attach to the run, creating row and attempt where they are missing. */
  function Attach(l: Ledger, id: Identity): (Result<Option<nat>, LedgerError>, Ledger) {
    var (created, l1) := CreateRunWithId(l, id);
    if created.Err? then (Err(created.error), l1)
    else
      var seen := created.value.status;
      var (started, l2) := if seen == Queued then SetRunStatus(l1, Running) else (Ok(()), l1);
      if started.Err? then (Err(started.error), l2)
      else if seen !in {Queued, Running} then (Ok(LatestAttempt(l2)), l2)
      else if RunningAttempt(l2).Some? then (Ok(RunningAttempt(l2)), l2)
      else
        var (attempt, l3) := CreateAttempt(l2);
        if attempt.Err? then (Err(attempt.error), l3) else (Ok(Some(attempt.value)), l3)
  }

  /** Project the events one after another; the flag says whether every one was taken. */
  function ProjectAll(l: Ledger, id: Identity, attempt: Option<nat>, events: seq<Event>): (bool, Ledger)
    decreases |events|
  {
    if events == [] then (true, l)
    else
      var n := |events| - 1;
      var (ok, l1) := ProjectAll(l, id, attempt, events[..n]);
      var (r, l2) := AppendSystemNote(l1, events[n].header.sequence, NoteFor(id, attempt, events[n]));
      (ok && r.Ok?, l2)
  }

  function Seal(l: Ledger, v: R.Verdict, allowRepair: bool): (Result<(), LedgerError>, Ledger) {
    if l.row.None? then (Err(NotFound), l)
    else if l.row.value.status == StatusOf(v) then (Ok(()), l)
    else if allowRepair && l.row.value.status == Interrupted then RepairInterrupted(l, StatusOf(v))
    else if IsSettled(l.row.value.status) then (Err(InvalidState), l)
    else SetRunStatus(l, StatusOf(v))
  }

  /** Project the whole stream under `id` and seal it if it is sealed. */
  function Apply(l: Ledger, id: Identity, stream: seq<Event>, verdict: Option<R.Verdict>): (Result<bool, LedgerError>, Ledger) {
    var (attached, l1) := Attach(l, id);
    if attached.Err? then (Err(attached.error), l1)
    else
      var (ok, l2) := ProjectAll(l1, id, attached.value, stream);
      if verdict.None? then (Ok(ok), l2)
      else
        var (r, l3) := Seal(l2, verdict.value, true);
        (Ok(ok && r.Ok?), l3)
  }

  /** Which identity catch-up attaches under, or why it refuses before touching the ledger. */
  function Resolve(hash: Bytes -> Digest, row: Option<Row>, d: Disk, expected: Option<(CR.RunId, CR.CommandInfo)>): Result<Identity, CatchUpError>
  {
    if !d.verified || d.stream == [] then Err(Verification)
    else
      var state := R.Reduce(Kinds(d.stream));
      var run := d.stream[0].header.runId;
      if state.Err? then Err(Verification)
      else if d.ledgerBinding.Some? && (d.ledgerBinding.value.schema != 1 || d.ledgerBinding.value.runId != run) then Err(IdentityMismatch)
      else if state.value.verdict.None? && row.Some? && row.value.status !in {Queued, Running, Interrupted} then Err(Verification)
      else if row.None? && d.ledgerBinding.None? then Err(IdentityMismatch)
      else if row.Some? && d.ledgerBinding.Some? && IdentityOf(d.ledgerBinding.value).(run := row.value.id.run) != row.value.id then Err(IdentityMismatch)
      else if expected.Some? && !ExpectationMet(hash, d, run, expected.value.0, expected.value.1) then Err(IdentityMismatch)
      else Ok(if row.Some? then row.value.id.(run := run) else IdentityOf(d.ledgerBinding.value))
  }

  predicate ExpectationMet(hash: Bytes -> Digest, d: Disk, run: CR.RunId, child: CR.RunId, cmd: CR.CommandInfo)
    requires d.stream != []
  {
    && d.commandBinding.Some? && child == run
    && CR.CommandBindingMatches(hash, d.commandBinding.value, child, cmd)
    && (d.stream[0].header.kind.RunStarted? ==> d.stream[0].header.kind.task.digest == hash(cmd.text))
  }

  /** `note` is there under `key`, and nothing else about the ledger changed. */
  ghost predicate Recorded(l: Ledger, l': Ledger, key: nat, note: Note) {
    && key in l'.notes && l'.notes[key] == note
    && l'.row == l.row && l'.attempts == l.attempts
    && (forall k :: k != key ==> (k in l'.notes <==> k in l.notes) && (k in l.notes ==> l'.notes[k] == l.notes[k]))
  }

  /** Recording a note that does not disagree is appending it. */
  lemma RecordedIsAppended(l: Ledger, l': Ledger, key: nat, note: Note)
    requires Recorded(l, l', key, note) && (key in l.notes ==> l.notes[key] == note)
    ensures AppendSystemNote(l, key, note) == (Ok(()), l')
  {
    assert l'.notes == l.notes[key := note];
    assert key in l.notes ==> l'.notes == l.notes;
  }

  // ---------------------------------------------------------------- the transactions, step by step

  class LiveLedger {
    var db: Ledger

    constructor (db: Ledger)
      ensures this.db == db
    {
      this.db := db;
    }

    method AttachRun(id: Identity) returns (r: Result<Option<nat>, LedgerError>)
      modifies this
      ensures (r, db) == Attach(old(db), id)
    {
      var created, l := CreateRunWithId(db, id).0, CreateRunWithId(db, id).1;
      db := l;
      if created.Err? {
        return Err(created.error);
      }
      var seen := created.value.status;
      if seen == Queued {
        var started := SetRunStatus(db, Running);
        db := started.1;
        if started.0.Err? {
          return Err(started.0.error);
        }
      }
      if seen == Queued || seen == Running {
        var running := RunningAttempt(db);
        if running.Some? {
          return Ok(running);
        }
        var made := CreateAttempt(db);
        db := made.1;
        if made.0.Err? {
          return Err(made.0.error);
        }
        return Ok(Some(made.0.value));
      }
      r := Ok(LatestAttempt(db));
    }

    method Project(id: Identity, attempt: Option<nat>, e: Event) returns (ok: bool)
      modifies this
      ensures ok <==> (e.header.sequence in old(db).notes ==> old(db).notes[e.header.sequence] == NoteFor(id, attempt, e))
      ensures ok ==> Recorded(old(db), db, e.header.sequence, NoteFor(id, attempt, e))
      ensures !ok ==> db == old(db)
    {
      var r := AppendSystemNote(db, e.header.sequence, NoteFor(id, attempt, e));
      db := r.1;
      ok := r.0.Ok?;
    }

    method SealInner(v: R.Verdict, allowRepair: bool) returns (r: Result<(), LedgerError>)
      modifies this
      ensures (r, db) == Seal(old(db), v, allowRepair)
      ensures r.Ok? ==> db.row.Some? && Records(db.row.value.status, v)
      ensures r.Err? ==> db == old(db)
      ensures old(db).row.Some? && old(db).row.value.status == Running ==> r.Ok?
      ensures old(db).row.Some? && old(db).row.value.status == Interrupted ==> r.Ok? == allowRepair
    {
      var target := StatusOf(v);
      if db.row.None? {
        return Err(NotFound);
      }
      var current := db.row.value.status;
      if current == target {
        return Ok(());
      }
      if allowRepair && current == Interrupted {
        var repaired := RepairInterrupted(db, target);
        db := repaired.1;
        return repaired.0;
      }
      if IsSettled(current) {
        return Err(InvalidState);
      }
      var done := SetRunStatus(db, target);
      db := done.1;
      r := done.0;
    }

    /** Re-verify one run's record and re-apply it to the ledger. */
    method CatchUpRecord(hash: Bytes -> Digest, d: Disk, expected: Option<(CR.RunId, CR.CommandInfo)>)
      returns (r: Result<Receipt, CatchUpError>)
      modifies this
      ensures var who := Resolve(hash, old(db).row, d, expected);
              if who.Err? then r == Err(who.error) && db == old(db)
              else
                var verdict := R.Reduce(Kinds(d.stream)).value.verdict;
                var applied := Apply(old(db), who.value, d.stream, verdict);
                && db == applied.1
                && r == (if applied.0.Err? then Err(LedgerFailure) else Ok(Receipt(verdict.Some?, applied.0.value)))
    {
      hide R.Reduce;
      var who := Resolve(hash, db.row, d, expected);
      if who.Err? {
        return Err(who.error);
      }
      var verdict := R.Reduce(Kinds(d.stream)).value.verdict;
      var attempt := AttachRun(who.value);
      if attempt.Err? {
        return Err(LedgerFailure);
      }
      ghost var attached := db;
      var applied := true;
      for i := 0 to |d.stream|
        invariant (applied, db) == ProjectAll(attached, who.value, attempt.value, d.stream[..i])
      {
        ghost var before := db;
        var ok := Project(who.value, attempt.value, d.stream[i]);
        assert d.stream[..i + 1][..i] == d.stream[..i];
        if ok {
          RecordedIsAppended(before, db, d.stream[i].header.sequence, NoteFor(who.value, attempt.value, d.stream[i]));
        }
        if !ok {
          applied := false;
        }
      }
      assert d.stream[..|d.stream|] == d.stream;
      if verdict.Some? {
        var s := SealInner(verdict.value, true);
        if s.Err? {
          applied := false;
        }
      }
      r := Ok(Receipt(verdict.Some?, applied));
    }
  }

  // ---------------------------------------------------------------- what catch-up never does

  /**
   Catch-up attaches only under the one identity that row and binding agree on, and never
   puts an unsealed prefix on top of a terminal row.
   */
  lemma ResolveSound(hash: Bytes -> Digest, row: Option<Row>, d: Disk, expected: Option<(CR.RunId, CR.CommandInfo)>)
    requires Resolve(hash, row, d, expected).Ok? && (row.Some? ==> d.stream != [] && row.value.id.run == d.stream[0].header.runId)
    ensures var id := Resolve(hash, row, d, expected).value;
            && d.verified && d.stream != [] && id.run == d.stream[0].header.runId
            && (row.Some? ==> id == row.value.id)
            && (d.ledgerBinding.Some? ==> id == IdentityOf(d.ledgerBinding.value))
            && (row.Some? && IsSettled(row.value.status) && row.value.status != Interrupted ==>
                  R.Reduce(Kinds(d.stream)).Ok? && R.Reduce(Kinds(d.stream)).value.verdict.Some?)
  {
    hide R.Reduce;
  }

  /** What the command a caller expects asks of the record, check by check. */
  ghost predicate BelongsTo(hash: Bytes -> Digest, d: Disk, child: CR.RunId, cmd: CR.CommandInfo)
    requires d.stream != []
  {
    && d.commandBinding.Some?
    && var b := d.commandBinding.value;
    && b.schema == 1 && b.commandId == cmd.id && b.conversation == cmd.conversation && b.parent == cmd.parent
    && b.child == child == d.stream[0].header.runId && b.textDigest == hash(cmd.text)
    && (d.stream[0].header.kind.RunStarted? ==> d.stream[0].header.kind.task.digest == hash(cmd.text))
  }

  /** Row and binding agree on everything they both say. */
  predicate RowAgrees(id: Identity, b: CR.LedgerBinding) {
    b.conversation == id.conversation && b.agent == id.agent && b.role == id.role && b.parent == id.parent
  }

  /**
   Catch-up goes ahead exactly on a verified, accepted record whose binding, ledger row and
   expected command all agree, and never with an unsealed record on a settled row; it then
   attaches under the row's identity, or the binding's where there is no row.
   */
  lemma ResolveExactly(hash: Bytes -> Digest, row: Option<Row>, d: Disk, expected: Option<(CR.RunId, CR.CommandInfo)>, id: Identity)
    ensures Resolve(hash, row, d, expected) == Ok(id) <==>
            && d.verified && d.stream != [] && R.Reduce(Kinds(d.stream)).Ok?
            && id.run == d.stream[0].header.runId
            && (d.ledgerBinding.Some? ==> d.ledgerBinding.value.schema == 1 && d.ledgerBinding.value.runId == id.run && RowAgrees(id, d.ledgerBinding.value))
            && (row.Some? ==> id == row.value.id.(run := id.run))
            && (row.Some? || d.ledgerBinding.Some?)
            && (row.Some? && R.RunSealed !in Kinds(d.stream) ==> row.value.status in {Queued, Running, Interrupted})
            && (expected.Some? ==> BelongsTo(hash, d, expected.value.0, expected.value.1))
  {
    if R.Reduce(Kinds(d.stream)).Ok? {
      R.StateShowsKinds(Kinds(d.stream));
    }
    hide R.Reduce;
  }

  /** Attaching is refused exactly when the run id already belongs to another identity, and then changes nothing. */
  lemma AttachRefusedExactly(l: Ledger, id: Identity)
    ensures Attach(l, id).0.Err? <==> l.row.Some? && l.row.value.id != id
    ensures Attach(l, id).0.Err? ==> Attach(l, id).1 == l
    ensures Attach(l, id).0.Ok? ==> Attach(l, id).1.row.Some? && Attach(l, id).1.row.value.id == id && Attach(l, id).1.notes == l.notes
  {
  }

  /** A plain recover interrupts a running run with its attempt, and touches no other. */
  lemma PlainRecoverExactly(l: Ledger)
    ensures var t := MarkInterrupted(l);
            if l.row.Some? && l.row.value.status == Running
            then && t.row == Some(Row(l.row.value.id, Interrupted)) && t.notes == l.notes && |t.attempts| == |l.attempts|
                 && forall i :: 0 <= i < |t.attempts| ==> t.attempts[i] == if l.attempts[i] == Running then Interrupted else l.attempts[i]
            else t == l
  {
  }

  ghost predicate InterruptedLater(attempts: seq<RunStatus>, i: nat) { exists j :: i < j < |attempts| && attempts[j] == Interrupted }

  /** A repair turns an interrupted run terminal together with the latest attempt that was interrupted, and only that one. */
  lemma {:induction false} RepairExactly(l: Ledger, to: RunStatus)
    ensures RepairInterrupted(l, to).0.Ok? <==>
            to in {Completed, Failed, RunStatus.Blocked, RunStatus.Error} && l.row.Some? && l.row.value.status == Interrupted
    ensures RepairInterrupted(l, to).0.Err? ==> RepairInterrupted(l, to).1 == l
    ensures RepairInterrupted(l, to).0.Ok? ==>
              var t := RepairInterrupted(l, to).1;
              && t.row == Some(Row(l.row.value.id, to)) && t.notes == l.notes && |t.attempts| == |l.attempts|
              && forall i :: 0 <= i < |l.attempts| ==>
                   t.attempts[i] == if l.attempts[i] == Interrupted && !InterruptedLater(l.attempts, i) then to else l.attempts[i]
  {
    LatestInterrupted(l.attempts, to);
  }

  lemma {:induction false} LatestInterrupted(attempts: seq<RunStatus>, to: RunStatus)
    ensures var t := CloseLatestInterrupted(attempts, to);
            forall i :: 0 <= i < |attempts| ==>
              t[i] == if attempts[i] == Interrupted && !InterruptedLater(attempts, i) then to else attempts[i]
    decreases |attempts|
  {
    if attempts != [] {
      var last := |attempts| - 1;
      assert attempts[last] == Interrupted ==> forall i :: 0 <= i < last ==> InterruptedLater(attempts, i);
      assert !InterruptedLater(attempts, last);
      if attempts[last] != Interrupted {
        LatestInterrupted(attempts[..last], to);
        forall i | 0 <= i < last ensures InterruptedLater(attempts[..last], i) <==> InterruptedLater(attempts, i) {
          LaterIsEarlier(attempts, i);
        }
      }
      hide InterruptedLater;
    }
  }

  lemma LaterIsEarlier(attempts: seq<RunStatus>, i: nat)
    requires attempts != [] && attempts[|attempts| - 1] != Interrupted
    ensures InterruptedLater(attempts[..|attempts| - 1], i) <==> InterruptedLater(attempts, i)
  {
    var init := attempts[..|attempts| - 1];
    assert forall j :: 0 <= j < |init| ==> init[j] == attempts[j];
  }

  /** A resume leaves exactly one running attempt, the new last one, and every earlier one settled as it was or interrupted. */
  lemma ResumeExactly(l: Ledger)
    ensures ResumeInterrupted(l).0.Ok? <==> l.row.Some? && l.row.value.status == Interrupted
    ensures ResumeInterrupted(l).0.Ok? ==>
              var t := ResumeInterrupted(l).1;
              && t.row == Some(Row(l.row.value.id, Running)) && t.notes == l.notes && |t.attempts| == |l.attempts| + 1
              && (forall i :: 0 <= i < |t.attempts| ==> (t.attempts[i] == Running <==> i == |l.attempts|))
              && (forall i :: 0 <= i < |l.attempts| && l.attempts[i] != Running ==> t.attempts[i] == l.attempts[i])
  {
  }

  /** With a collision-free hash one record is never caught up for two different commands. */
  lemma CaughtUpForOneCommand(
    hash: Bytes -> Digest, row: Option<Row>, d: Disk, run: CR.RunId, cmd: CR.CommandInfo, run': CR.RunId, cmd': CR.CommandInfo)
    requires CollisionFree(hash)
    requires Resolve(hash, row, d, Some((run, cmd))).Ok? && Resolve(hash, row, d, Some((run', cmd'))).Ok?
    ensures run == run' && cmd == cmd'
  {
    hide R.Reduce;
    assert hash(cmd.text) == hash(cmd'.text);
  }
}
