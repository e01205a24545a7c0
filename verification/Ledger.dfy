/**
 What the ledger keeps about one run (`crates/o7-ledger/src/sqlite.rs`): its row, its
 attempts in order of attempt number, and the notes keyed by event sequence. Each
 operation is one transaction: it returns its result and the ledger after it. Request
 digests are compared through the requests they are digests of.
 */
module Ledger {
  import opened Base
  import opened Journal
  import R = Reducer

  datatype RunStatus = Queued | Running | Completed | Failed | Blocked | Error | Cancelled | Interrupted

  /** Everything the creation request is digested over. */
  datatype Identity = Identity(run: string, conversation: string, parent: Option<string>, agent: string, role: string)

  datatype Row = Row(id: Identity, status: RunStatus)

  /** Everything a note request is digested over; the payload is the event's provenance. */
  datatype Note = Note(conversation: string, run: string, attempt: Option<nat>, event: Event)

  datatype Ledger = Ledger(row: Option<Row>, attempts: seq<RunStatus>, notes: map<nat, Note>)

  datatype LedgerError = NotFound | IdempotencyConflict | ForbiddenTransition | InvalidState

  const EMPTY := Ledger(None, [], map[])

  function CreateRunWithId(l: Ledger, id: Identity): (Result<Row, LedgerError>, Ledger) {
    if l.row.None? then (Ok(Row(id, Queued)), l.(row := Some(Row(id, Queued))))
    else if l.row.value.id == id then (Ok(l.row.value), l)
    else (Err(IdempotencyConflict), l)
  }

  predicate TransitionAllowed(from: RunStatus, to: RunStatus) {
    (from == Queued && to == Running)
    || (from == Running && to in {Completed, Failed, Cancelled, Interrupted, Blocked, Error})
  }

  function CloseRunning(attempts: seq<RunStatus>, to: RunStatus): (r: seq<RunStatus>)
    ensures |r| == |attempts|
    ensures forall i :: 0 <= i < |r| ==> r[i] == if attempts[i] == Running then to else attempts[i]
  {
    seq(|attempts|, i requires 0 <= i < |attempts| => if attempts[i] == Running then to else attempts[i])
  }

  function SetRunStatus(l: Ledger, to: RunStatus): (Result<(), LedgerError>, Ledger) {
    if l.row.None? then (Err(NotFound), l)
    else if !TransitionAllowed(l.row.value.status, to) then (Err(ForbiddenTransition), l)
    else (Ok(()), l.(row := Some(l.row.value.(status := to)),
                     attempts := if to == Running then l.attempts else CloseRunning(l.attempts, to)))
  }

  function CreateAttempt(l: Ledger): (Result<nat, LedgerError>, Ledger) {
    if l.row.None? then (Err(NotFound), l)
    else if l.row.value.status != Running || Running in l.attempts then (Err(InvalidState), l)
    else (Ok(|l.attempts|), l.(attempts := l.attempts + [Running]))
  }

  function LatestAttempt(l: Ledger): Option<nat> {
    if l.attempts == [] then None else Some(|l.attempts| - 1)
  }

  /** At most one attempt runs at a time, so which one is looked at first does not matter. */
  function RunningAttempt(l: Ledger): (r: Option<nat>)
    ensures r.Some? ==> r.value < |l.attempts| && l.attempts[r.value] == Running
    ensures r.None? <==> Running !in l.attempts
    decreases |l.attempts|
  {
    if l.attempts == [] then None
    else
      var last := |l.attempts| - 1;
      assert l.attempts == l.attempts[..last] + [l.attempts[last]];
      if l.attempts[last] == Running then Some(last) else RunningAttempt(l.(attempts := l.attempts[..last]))
  }

  function AppendSystemNote(l: Ledger, key: nat, note: Note): (Result<(), LedgerError>, Ledger) {
    if key !in l.notes then (Ok(()), l.(notes := l.notes[key := note]))
    else if l.notes[key] == note then (Ok(()), l)
    else (Err(IdempotencyConflict), l)
  }

  /** A plain recover: every row found `running` becomes `interrupted`. */
  function MarkInterrupted(l: Ledger): Ledger { SetRunStatus(l, Interrupted).1 }

  function RepairInterrupted(l: Ledger, to: RunStatus): (Result<(), LedgerError>, Ledger) {
    if to !in {Completed, Failed, Blocked, Error} then (Err(InvalidState), l)
    else if l.row.None? then (Err(NotFound), l)
    else if l.row.value.status != Interrupted then (Err(InvalidState), l)
    else (Ok(()), l.(row := Some(l.row.value.(status := to)), attempts := CloseLatestInterrupted(l.attempts, to)))
  }

  function CloseLatestInterrupted(attempts: seq<RunStatus>, to: RunStatus): (r: seq<RunStatus>)
    ensures |r| == |attempts|
  {
    if attempts == [] then []
    else
      var last := |attempts| - 1;
      if attempts[last] == Interrupted then attempts[last := to]
      else CloseLatestInterrupted(attempts[..last], to) + [attempts[last]]
  }

  /** Resuming opens a second attempt; nothing in the program calls it. */
  function ResumeInterrupted(l: Ledger): (Result<nat, LedgerError>, Ledger) {
    if l.row.None? then (Err(NotFound), l)
    else if l.row.value.status != Interrupted then (Err(InvalidState), l)
    else (Ok(|l.attempts|), l.(row := Some(l.row.value.(status := Running)),
                               attempts := CloseRunning(l.attempts, Interrupted) + [Running]))
  }
}
