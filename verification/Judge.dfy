/**
 The finding judge (`src/judge.rs`): dedupe of findings into representatives, grouping by
 file, the worker pool, the pairing of model verdicts with findings, and the merge. The
 finding id is any function of path, rule and message; what the model answers for a file
 is a parameter.
 */
module Judge {
  import opened Base

  type Id = string

  datatype Finding = Finding(path: string, line: int, rule: string, message: string)

  datatype Rep = Rep(id: Id, path: string, line: int, rule: string, message: string, lines: seq<int>)

  // ---------------------------------------------------------------- dedupe

  function Selected(fs: seq<Finding>, only: Option<string>): seq<Finding>
    decreases |fs|
  {
    if fs == [] then []
    else
      var n := |fs| - 1;
      Selected(fs[..n], only) + if only.None? || only.value == fs[n].path then [fs[n]] else []
  }

  /** Plain grouping: the lines of every finding with one id, in order. */
  function LinesOf(fid: Finding -> Id, fs: seq<Finding>, id: Id): seq<int>
    decreases |fs|
  {
    if fs == [] then []
    else
      var n := |fs| - 1;
      LinesOf(fid, fs[..n], id) + if fid(fs[n]) == id then [fs[n].line] else []
  }

  /** The ids in the order they are first seen. */
  function FirstSeen(fid: Finding -> Id, fs: seq<Finding>): seq<Id>
    decreases |fs|
  {
    if fs == [] then []
    else
      var n := |fs| - 1;
      var ids := FirstSeen(fid, fs[..n]);
      if fid(fs[n]) in ids then ids else ids + [fid(fs[n])]
  }

  ghost predicate IsFirst(fid: Finding -> Id, fs: seq<Finding>, r: Rep) {
    exists i :: 0 <= i < |fs| && fid(fs[i]) == r.id && (forall j :: 0 <= j < i ==> fid(fs[j]) != r.id)
      && r.path == fs[i].path && r.line == fs[i].line && r.rule == fs[i].rule && r.message == fs[i].message
  }

  /** The representatives are the groups: one per id, in first-seen order, each with its own lines. */
  ghost predicate Grouped(fid: Finding -> Id, fs: seq<Finding>, reps: seq<Rep>) {
    && |reps| == |FirstSeen(fid, fs)|
    && forall k :: 0 <= k < |reps| ==>
         reps[k].id == FirstSeen(fid, fs)[k] && reps[k].lines == LinesOf(fid, fs, reps[k].id) && IsFirst(fid, fs, reps[k])
  }

  lemma {:induction false} FirstSeenDistinct(fid: Finding -> Id, fs: seq<Finding>)
    ensures forall i, j :: 0 <= i < j < |FirstSeen(fid, fs)| ==> FirstSeen(fid, fs)[i] != FirstSeen(fid, fs)[j]
    ensures forall id :: id in FirstSeen(fid, fs) <==> exists i :: 0 <= i < |fs| && fid(fs[i]) == id
    decreases |fs|
  {
    if fs != [] {
      var n := |fs| - 1;
      FirstSeenDistinct(fid, fs[..n]);
      forall id | id in FirstSeen(fid, fs[..n]) ensures exists i :: 0 <= i < |fs| && fid(fs[i]) == id {
        var i :| 0 <= i < n && fid(fs[..n][i]) == id;
        assert fid(fs[i]) == id;
      }
      forall i | 0 <= i < |fs| ensures fid(fs[i]) in FirstSeen(fid, fs) {
        if i < n {
          assert fs[..n][i] == fs[i];
        }
      }
    }
  }

  lemma LinesOfNew(fid: Finding -> Id, fs: seq<Finding>, id: Id)
    requires forall i :: 0 <= i < |fs| ==> fid(fs[i]) != id
    ensures LinesOf(fid, fs, id) == []
    decreases |fs|
  {
    if fs != [] {
      LinesOfNew(fid, fs[..|fs| - 1], id);
    }
  }

  /** The index sends each id to its own position. */
  ghost predicate Indexed(idx: map<Id, nat>, reps: seq<Rep>) {
    && (forall k :: 0 <= k < |reps| ==> reps[k].id in idx && idx[reps[k].id] == k)
    && (forall id :: id in idx ==> idx[id] < |reps| && reps[idx[id]].id == id)
  }

  method AddFinding(f: Finding, id: Id, reps: seq<Rep>, idx: map<Id, nat>) returns (reps': seq<Rep>, idx': map<Id, nat>)
    requires Indexed(idx, reps)
    ensures Indexed(idx', reps')
    ensures id in idx ==> LineAdded(reps, id, f.line, reps')
    ensures id !in idx ==> reps' == reps + [Rep(id, f.path, f.line, f.rule, f.message, [f.line])]
  {
    if id in idx {
      var i := idx[id];
      reps', idx' := reps[i := reps[i].(lines := reps[i].lines + [f.line])], idx;
    } else {
      idx' := idx[id := |reps|];
      reps' := reps + [Rep(id, f.path, f.line, f.rule, f.message, [f.line])];
    }
  }

  /** One pass over the findings of the chosen file, with an index from id to position. */
  method Dedupe(fid: Finding -> Id, all: seq<Finding>, only: Option<string>) returns (reps: seq<Rep>, total: nat)
    ensures Grouped(fid, Selected(all, only), reps) && total == |Selected(all, only)|
  {
    reps, total := [], 0;
    var idx: map<Id, nat> := map[];
    for i := 0 to |all|
      invariant Grouped(fid, Selected(all[..i], only), reps) && Indexed(idx, reps)
      invariant total == |Selected(all[..i], only)|
    {
      ghost var fs, before := Selected(all[..i], only), reps;
      assert all[..i + 1][..i] == all[..i];
      if only.None? || only.value == all[i].path {
        total := total + 1;
        IndexKnowsSeen(fid, fs, reps, idx, fid(all[i]));
        reps, idx := AddFinding(all[i], fid(all[i]), reps, idx);
        hide Grouped, Indexed, FirstSeen, LineAdded;
        StepGrouped(fid, fs, all[i], before, reps);
        assert Selected(all[..i + 1], only) == fs + [all[i]];
      } else {
        assert Selected(all[..i + 1], only) == fs;
      }
    }
    assert all[..|all|] == all;
  }

  lemma IndexKnowsSeen(fid: Finding -> Id, fs: seq<Finding>, reps: seq<Rep>, idx: map<Id, nat>, id: Id)
    requires Grouped(fid, fs, reps) && Indexed(idx, reps)
    ensures id in idx <==> id in FirstSeen(fid, fs)
  {
    hide IsFirst, LinesOf;
    if id in FirstSeen(fid, fs) {
      var k :| 0 <= k < |FirstSeen(fid, fs)| && FirstSeen(fid, fs)[k] == id;
      assert reps[k].id == id;
    }
  }

  lemma FirstKept(fid: Finding -> Id, fs: seq<Finding>, f: Finding, r: Rep)
    requires IsFirst(fid, fs, r)
    ensures IsFirst(fid, fs + [f], r)
  {
    var i :| 0 <= i < |fs| && fid(fs[i]) == r.id && (forall j :: 0 <= j < i ==> fid(fs[j]) != r.id)
      && r.path == fs[i].path && r.line == fs[i].line && r.rule == fs[i].rule && r.message == fs[i].message;
    assert (fs + [f])[i] == fs[i];
    assert forall j :: 0 <= j < i ==> (fs + [f])[j] == fs[j];
  }

  /** The representative of one id has gained a line. */
  ghost predicate LineAdded(before: seq<Rep>, id: Id, line: int, reps: seq<Rep>) {
    && |reps| == |before|
    && forall k :: 0 <= k < |reps| ==> reps[k] == if before[k].id == id then before[k].(lines := before[k].lines + [line]) else before[k]
  }

  /** Adding one finding to a grouping, as the pass does it. */
  lemma StepGrouped(fid: Finding -> Id, fs: seq<Finding>, f: Finding, before: seq<Rep>, reps: seq<Rep>)
    requires Grouped(fid, fs, before)
    requires fid(f) in FirstSeen(fid, fs) ==> LineAdded(before, fid(f), f.line, reps)
    requires fid(f) !in FirstSeen(fid, fs) ==> reps == before + [Rep(fid(f), f.path, f.line, f.rule, f.message, [f.line])]
    ensures Grouped(fid, fs + [f], reps)
  {
    var all := fs + [f];
    assert all[..|all| - 1] == fs;
    FirstSeenDistinct(fid, fs);
    forall k | 0 <= k < |before| ensures IsFirst(fid, all, before[k]) {
      FirstKept(fid, fs, f, before[k]);
    }
    if fid(f) !in FirstSeen(fid, fs) {
      LinesOfNew(fid, fs, fid(f));
      var r := reps[|before|];
      assert all[|fs|] == f && forall j :: 0 <= j < |fs| ==> all[j] == fs[j];
      assert IsFirst(fid, all, r);
    } else {
      forall k | 0 <= k < |reps| ensures IsFirst(fid, all, reps[k]) {
        assert IsFirst(fid, all, before[k]);
      }
    }
  }

  /** All lines the representatives hold, with repetitions. */
  function LinesHeld(reps: seq<Rep>): multiset<int>
    decreases |reps|
  {
    if reps == [] then multiset{} else LinesHeld(reps[..|reps| - 1]) + multiset(reps[|reps| - 1].lines)
  }

  /** All lines of the findings, with repetitions. */
  function LinesFound(fs: seq<Finding>): multiset<int>
    decreases |fs|
  {
    if fs == [] then multiset{} else LinesFound(fs[..|fs| - 1]) + multiset{fs[|fs| - 1].line}
  }

  /** All lines of the findings with one of the given ids. */
  function LinesUnder(fid: Finding -> Id, fs: seq<Finding>, ids: seq<Id>): multiset<int>
    decreases |ids|
  {
    if ids == [] then multiset{} else LinesUnder(fid, fs, ids[..|ids| - 1]) + multiset(LinesOf(fid, fs, ids[|ids| - 1]))
  }

  lemma LinesOfSnoc(fid: Finding -> Id, fs: seq<Finding>, f: Finding, id: Id)
    ensures multiset(LinesOf(fid, fs + [f], id)) == multiset(LinesOf(fid, fs, id)) + if fid(f) == id then multiset{f.line} else multiset{}
  {
    assert (fs + [f])[..|fs|] == fs;
  }

  lemma {:induction false} LinesUnderSnoc(fid: Finding -> Id, fs: seq<Finding>, f: Finding, ids: seq<Id>)
    requires forall i, j :: 0 <= i < j < |ids| ==> ids[i] != ids[j]
    ensures LinesUnder(fid, fs + [f], ids) == LinesUnder(fid, fs, ids) + if fid(f) in ids then multiset{f.line} else multiset{}
    decreases |ids|
  {
    hide LinesOf;
    if ids != [] {
      var n := |ids| - 1;
      LinesUnderSnoc(fid, fs, f, ids[..n]);
      LinesOfSnoc(fid, fs, f, ids[n]);
      assert ids[n] !in ids[..n];
      assert fid(f) in ids <==> fid(f) in ids[..n] || fid(f) == ids[n];
    }
  }

  lemma {:induction false} AllLinesUnder(fid: Finding -> Id, fs: seq<Finding>)
    ensures LinesUnder(fid, fs, FirstSeen(fid, fs)) == LinesFound(fs)
    decreases |fs|
  {
    if fs != [] {
      var n := |fs| - 1;
      var init, ids := fs[..n], FirstSeen(fid, fs[..n]);
      AllLinesUnder(fid, init);
      FirstSeenDistinct(fid, init);
      assert fs == init + [fs[n]];
      LinesUnderSnoc(fid, init, fs[n], ids);
      if fid(fs[n]) !in ids {
        LinesOfNew(fid, init, fid(fs[n]));
        var grown := ids + [fid(fs[n])];
        assert grown[..|grown| - 1] == ids;
        assert LinesOf(fid, fs, fid(fs[n])) == [fs[n].line];
      }
    }
  }

  /** Every selected finding's line is kept exactly once: the lines held are the lines found, as multisets. */
  lemma {:induction false} LinesConserved(fid: Finding -> Id, fs: seq<Finding>, reps: seq<Rep>)
    requires Grouped(fid, fs, reps)
    ensures LinesHeld(reps) == LinesFound(fs)
    ensures |LinesHeld(reps)| == |fs|
  {
    AllLinesUnder(fid, fs);
    HeldIsUnder(fid, fs, reps, FirstSeen(fid, fs));
    OneLineEach(fs);
  }

  lemma {:induction false} OneLineEach(fs: seq<Finding>)
    ensures |LinesFound(fs)| == |fs|
    decreases |fs|
  {
    if fs != [] {
      OneLineEach(fs[..|fs| - 1]);
    }
  }

  lemma {:induction false} HeldIsUnder(fid: Finding -> Id, fs: seq<Finding>, reps: seq<Rep>, ids: seq<Id>)
    requires |reps| == |ids| && forall k :: 0 <= k < |reps| ==> reps[k].lines == LinesOf(fid, fs, ids[k])
    ensures LinesHeld(reps) == LinesUnder(fid, fs, ids)
    decreases |reps|
  {
    if reps != [] {
      HeldIsUnder(fid, fs, reps[..|reps| - 1], ids[..|ids| - 1]);
    }
  }

  // ---------------------------------------------------------------- files

  /** Positions of the representatives of one file, in order. */
  function OfFile(reps: seq<Rep>, path: string): seq<nat>
    decreases |reps|
  {
    if reps == [] then []
    else
      var n := |reps| - 1;
      OfFile(reps[..n], path) + if reps[n].path == path then [n] else []
  }

  lemma {:induction false} OfFileExactly(reps: seq<Rep>, path: string)
    ensures forall k: nat :: k in OfFile(reps, path) <==> k < |reps| && reps[k].path == path
    ensures forall i, j :: 0 <= i < j < |OfFile(reps, path)| ==> OfFile(reps, path)[i] < OfFile(reps, path)[j]
    decreases |reps|
  {
    if reps != [] {
      var n := |reps| - 1;
      OfFileExactly(reps[..n], path);
      assert forall k :: 0 <= k < n ==> reps[..n][k] == reps[k];
      var init := OfFile(reps[..n], path);
      assert forall i :: 0 <= i < |init| ==> init[i] in init;
    }
  }

  lemma OfFileSnoc(reps: seq<Rep>, r: Rep, path: string)
    ensures OfFile(reps + [r], path) == OfFile(reps, path) + if r.path == path then [|reps|] else []
  {
    assert (reps + [r])[..|reps|] == reps;
  }

  /** One path is listed exactly when it has representatives, and with all of them. */
  ghost predicate FiledAt(reps: seq<Rep>, files: seq<string>, byFile: map<string, seq<nat>>, p: string) {
    && (p in files <==> OfFile(reps, p) != [])
    && (p in byFile <==> p in files)
    && (p in byFile ==> byFile[p] == OfFile(reps, p))
  }

  ghost predicate Filed(reps: seq<Rep>, files: seq<string>, byFile: map<string, seq<nat>>) {
    && (forall i, j :: 0 <= i < j < |files| ==> files[i] != files[j])
    && (forall p :: FiledAt(reps, files, byFile, p))
    && (forall i, j :: 0 <= i < j < |files| && files[i] in byFile && files[j] in byFile && byFile[files[i]] != [] && byFile[files[j]] != [] ==>
          byFile[files[i]][0] < byFile[files[j]][0])
  }

  method FileOne(reps: seq<Rep>, r: Rep, files: seq<string>, byFile: map<string, seq<nat>>)
    returns (files': seq<string>, byFile': map<string, seq<nat>>)
    requires Filed(reps, files, byFile)
    ensures Filed(reps + [r], files', byFile')
  {
    hide OfFile;
    assert FiledAt(reps, files, byFile, r.path);
    forall i | 0 <= i < |files| && files[i] in byFile && byFile[files[i]] != [] ensures byFile[files[i]][0] < |reps| {
      assert FiledAt(reps, files, byFile, files[i]);
      OfFileExactly(reps, files[i]);
      assert byFile[files[i]][0] in OfFile(reps, files[i]);
    }
    files' := if r.path in byFile then files else files + [r.path];
    byFile' := byFile[r.path := (if r.path in byFile then byFile[r.path] else []) + [|reps|]];
    forall p ensures FiledAt(reps + [r], files', byFile', p) {
      assert FiledAt(reps, files, byFile, p);
      StillFiled(reps, r, files, byFile, files', byFile', p);
    }
    hide FiledAt;
  }

  lemma StillFiled(reps: seq<Rep>, r: Rep, files: seq<string>, byFile: map<string, seq<nat>>,
                   files': seq<string>, byFile': map<string, seq<nat>>, p: string)
    requires FiledAt(reps, files, byFile, r.path) && FiledAt(reps, files, byFile, p)
    requires files' == if r.path in byFile then files else files + [r.path]
    requires byFile' == byFile[r.path := (if r.path in byFile then byFile[r.path] else []) + [|reps|]]
    ensures FiledAt(reps + [r], files', byFile', p)
  {
    OfFileSnoc(reps, r, p);
    hide OfFile;
    if p == r.path {
      assert p in files';
    }
  }

  /** Files in first-seen order and the representatives of each. */
  method GroupByFile(reps: seq<Rep>) returns (files: seq<string>, byFile: map<string, seq<nat>>)
    ensures Filed(reps, files, byFile)
    ensures forall p :: p in files <==> exists k :: 0 <= k < |reps| && reps[k].path == p
    ensures forall i, j :: 0 <= i < j < |files| ==>
              files[i] in byFile && files[j] in byFile && byFile[files[i]] != [] && byFile[files[j]] != []
              && byFile[files[i]][0] < byFile[files[j]][0]
  {
    files, byFile := [], map[];
    for i := 0 to |reps|
      invariant Filed(reps[..i], files, byFile)
    {
      files, byFile := FileOne(reps[..i], reps[i], files, byFile);
      assert reps[..i + 1] == reps[..i] + [reps[i]];
    }
    assert reps[..|reps|] == reps;
    forall p ensures p in files <==> exists k :: 0 <= k < |reps| && reps[k].path == p {
      OfFileExactly(reps, p);
      assert FiledAt(reps, files, byFile, p);
      if p in files {
        assert OfFile(reps, p)[0] in OfFile(reps, p);
      }
    }
    forall i | 0 <= i < |files| ensures files[i] in byFile && byFile[files[i]] != [] {
      assert FiledAt(reps, files, byFile, files[i]);
    }
  }

  // ---------------------------------------------------------------- the worker pool

  datatype WorkerPc = Idle | Working(file: nat) | Done

  /** The shared counter, the workers, and the results in the order they were sent. */
  datatype Pool = Pool(next: nat, workers: map<nat, WorkerPc>, sent: seq<nat>)

  datatype PoolStep = Fetch(w: nat) | Send(w: nat)

  predicate PoolEnabled(p: Pool, a: PoolStep) {
    && a.w in p.workers
    && match a case Fetch(w) => p.workers[w].Idle? case Send(w) => p.workers[w].Working?
  }

  function PoolNext(total: nat, p: Pool, a: PoolStep): Pool
    requires PoolEnabled(p, a)
  {
    match a
    case Fetch(w) =>
      p.(next := p.next + 1, workers := p.workers[w := if p.next < total then Working(p.next) else Done])
    case Send(w) => p.(workers := p.workers[w := Idle], sent := p.sent + [p.workers[w].file])
  }

  ghost predicate PoolRuns(total: nat, p: Pool, steps: seq<PoolStep>, q: Pool)
    decreases |steps|
  {
    if steps == [] then p == q else PoolEnabled(p, steps[0]) && PoolRuns(total, PoolNext(total, p, steps[0]), steps[1..], q)
  }

  ghost predicate Idles(workers: map<nat, WorkerPc>) { forall w :: w in workers ==> workers[w].Idle? }

  ghost predicate AllDone(p: Pool) { p.workers != map[] && forall w :: w in p.workers ==> p.workers[w].Done? }

  /** Every claimed file is with exactly one worker or sent exactly once. */
  ghost predicate PoolInv(total: nat, p: Pool) {
    && (forall i :: i in p.sent ==> i < total && i < p.next)
    && (forall i, j :: 0 <= i < j < |p.sent| ==> p.sent[i] != p.sent[j])
    && (forall w :: w in p.workers && p.workers[w].Working? ==>
          p.workers[w].file < total && p.workers[w].file < p.next && p.workers[w].file !in p.sent)
    && (forall v, w :: v in p.workers && w in p.workers && p.workers[v].Working? && p.workers[v] == p.workers[w] ==> v == w)
    && (forall i :: 0 <= i < total && i < p.next ==> i in p.sent || exists w :: w in p.workers && p.workers[w] == Working(i))
    && ((exists w :: w in p.workers && p.workers[w].Done?) ==> p.next >= total)
  }

  lemma FetchKeepsInv(total: nat, p: Pool, w: nat)
    requires PoolInv(total, p) && PoolEnabled(p, Fetch(w))
    ensures PoolInv(total, PoolNext(total, p, Fetch(w)))
  {
    var q := PoolNext(total, p, Fetch(w));
    forall i | 0 <= i < total && i < q.next ensures i in q.sent || exists v :: v in q.workers && q.workers[v] == Working(i) {
      if i == p.next {
        assert q.workers[w] == Working(i);
      } else if i !in p.sent {
        var v :| v in p.workers && p.workers[v] == Working(i);
        assert q.workers[v] == Working(i);
      }
    }
  }

  lemma SendKeepsInv(total: nat, p: Pool, w: nat)
    requires PoolInv(total, p) && PoolEnabled(p, Send(w))
    ensures PoolInv(total, PoolNext(total, p, Send(w)))
  {
    var q := PoolNext(total, p, Send(w));
    forall i | 0 <= i < total && i < q.next ensures i in q.sent || exists v :: v in q.workers && q.workers[v] == Working(i) {
      if i !in p.sent && i != p.workers[w].file {
        var v :| v in p.workers && p.workers[v] == Working(i);
        assert q.workers[v] == Working(i);
      } else if i == p.workers[w].file {
        assert q.sent[|p.sent|] == i;
      } else {
        assert i in q.sent;
      }
    }
  }

  lemma {:induction false} PoolKeepsInv(total: nat, p: Pool, steps: seq<PoolStep>, q: Pool)
    requires PoolInv(total, p) && PoolRuns(total, p, steps, q)
    ensures PoolInv(total, q)
    decreases |steps|
  {
    hide PoolInv;
    if steps != [] {
      match steps[0] {
        case Fetch(w) => FetchKeepsInv(total, p, w);
        case Send(w) => SendKeepsInv(total, p, w);
      }
      PoolKeepsInv(total, PoolNext(total, p, steps[0]), steps[1..], q);
    }
  }

  /** A listing of the files, each exactly once, in any order. */
  ghost predicate Schedule(order: seq<nat>, total: nat) {
    && (forall i: nat :: i in order <==> i < total)
    && (forall i, j :: 0 <= i < j < |order| ==> order[i] != order[j])
  }

  /** Whatever the interleaving, once every worker has stopped each file was judged exactly once. */
  lemma EachFileOnce(total: nat, workers: map<nat, WorkerPc>, steps: seq<PoolStep>, q: Pool)
    requires Idles(workers) && PoolRuns(total, Pool(0, workers, []), steps, q) && AllDone(q)
    ensures Schedule(q.sent, total)
  {
    PoolKeepsInv(total, Pool(0, workers, []), steps, q);
    var w :| w in q.workers;
  }

  // ---------------------------------------------------------------- pairing and filtering

  /** A model verdict; the echo fields may be missing. */
  datatype Raw = Raw(path: Option<string>, line: Option<int>, rule: Option<string>, cls: string, detail: string)

  datatype Verdict = Verdict(cls: string, detail: string, lines: seq<int>)

  type Key = (string, int, string)

  predicate KnownClass(c: string) { c == "real" || c == "false_positive" || c == "uncertain" }

  function Echo(rv: Raw): Option<Key> {
    if rv.path.Some? && rv.line.Some? && rv.rule.Some? then Some((rv.path.value, rv.line.value, rv.rule.value)) else None
  }

  /** Verdicts whose complete echo names a known finding, with that finding's id. */
  function ByKey(raws: seq<Raw>, keys: map<Key, Id>): seq<(Id, Raw)>
    decreases |raws|
  {
    if raws == [] then []
    else
      var n := |raws| - 1;
      var key := Echo(raws[n]);
      ByKey(raws[..n], keys) + if key.Some? && key.value in keys then [(keys[key.value], raws[n])] else []
  }

  /** Position is the identity when the counts match; otherwise recover by key. */
  function Pair(raws: seq<Raw>, fif: seq<Rep>, keys: map<Key, Id>): seq<(Id, Raw)> {
    if |raws| == |fif| then seq(|raws|, i requires 0 <= i < |raws| => (fif[i].id, raws[i])) else ByKey(raws, keys)
  }

  /** What one file contributes. */
  datatype FileResult = FileResult(skipped: bool, malformed: nat, verdicts: seq<(Id, Verdict)>)

  function LinesFor(lines: map<Id, seq<int>>, id: Id): seq<int> { if id in lines then lines[id] else [] }

  function Kept(pairs: seq<(Id, Raw)>, lines: map<Id, seq<int>>): (r: seq<(Id, Verdict)>)
    ensures |r| <= |pairs|
    decreases |pairs|
  {
    if pairs == [] then []
    else
      var n := |pairs| - 1;
      var (id, rv) := pairs[n];
      Kept(pairs[..n], lines) + if KnownClass(rv.cls) then [(id, Verdict(rv.cls, rv.detail, LinesFor(lines, id)))] else []
  }

  /** A file that could not be read, called or parsed is skipped; otherwise its verdicts are paired and filtered. */
  function FileOutcome(answer: Option<seq<Raw>>, fif: seq<Rep>, keys: map<Key, Id>, lines: map<Id, seq<int>>): FileResult {
    if answer.None? then FileResult(true, 0, [])
    else
      var pairs := Pair(answer.value, fif, keys);
      FileResult(false, |pairs| - |Kept(pairs, lines)|, Kept(pairs, lines))
  }

  method NormalizedClass(c: string) returns (r: Option<string>)
    ensures r == if KnownClass(c) then Some(c) else None
  {
    if c == "real" {
      return Some("real");
    }
    if c == "false_positive" {
      return Some("false_positive");
    }
    if c == "uncertain" {
      return Some("uncertain");
    }
    r := None;
  }

  method JudgeOneFile(answer: Option<seq<Raw>>, fif: seq<Rep>, keys: map<Key, Id>, lines: map<Id, seq<int>>) returns (r: FileResult)
    ensures r == FileOutcome(answer, fif, keys, lines)
    ensures r.skipped <==> answer.None?
    ensures answer.Some? ==> Answered(answer.value, fif, keys, lines, FileMap(r.verdicts))
    ensures answer.Some? ==> r.malformed == |set k: nat | k < |answer.value| && Spoiled(answer.value, fif, keys, k)|
  {
    if answer.Some? {
      OutcomeExactly(answer.value, fif, keys, lines);
    }
    hide Answered, FileMap, Spoiled, KnownClass;
    if answer.None? {
      return FileResult(true, 0, []);
    }
    var pairs := Pair(answer.value, fif, keys);
    var malformed := 0;
    var verdicts: seq<(Id, Verdict)> := [];
    for i := 0 to |pairs|
      invariant verdicts == Kept(pairs[..i], lines)
      invariant malformed == i - |verdicts|
    {
      var (id, rv) := pairs[i];
      assert pairs[..i + 1][..i] == pairs[..i];
      var known := NormalizedClass(rv.cls);
      if known.None? {
        malformed := malformed + 1;
      } else {
        verdicts := verdicts + [(id, Verdict(known.value, rv.detail, LinesFor(lines, id)))];
      }
    }
    assert pairs[..|pairs|] == pairs;
    r := FileResult(false, malformed, verdicts);
  }

  // ---------------------------------------------------------------- merging

  /** The verdicts of one file as a map: a later one for the same id replaces an earlier one. */
  function FileMap(vs: seq<(Id, Verdict)>): map<Id, Verdict>
    decreases |vs|
  {
    if vs == [] then map[] else FileMap(vs[..|vs| - 1])[vs[|vs| - 1].0 := vs[|vs| - 1].1]
  }

  ghost predicate InRange(order: seq<nat>, total: nat) { forall i :: 0 <= i < |order| ==> order[i] < total }

  /** The overlay after merging results in the order they arrived. */
  function Overlay(rs: seq<FileResult>, order: seq<nat>): map<Id, Verdict>
    requires InRange(order, |rs|)
    decreases |order|
  {
    if order == [] then map[] else Overlay(rs, order[..|order| - 1]) + FileMap(rs[order[|order| - 1]].verdicts)
  }

  function Sum(f: nat -> nat, order: seq<nat>): nat
    decreases |order|
  {
    if order == [] then 0 else Sum(f, order[..|order| - 1]) + f(order[|order| - 1])
  }

  function Range(n: nat): seq<nat> { seq(n, i => i) }

  lemma {:induction false} SumConcat(f: nat -> nat, a: seq<nat>, b: seq<nat>)
    ensures Sum(f, a + b) == Sum(f, a) + Sum(f, b)
    decreases |b|
  {
    if b == [] {
      assert a + b == a;
    } else {
      assert (a + b)[..|a + b| - 1] == a + b[..|b| - 1];
      SumConcat(f, a, b[..|b| - 1]);
    }
  }

  /** Taking the largest file out of a schedule leaves a schedule of the rest. */
  lemma ScheduleWithout(order: seq<nat>, n: nat, k: nat)
    requires n > 0 && Schedule(order, n) && k < |order| && order[k] == n - 1
    ensures Schedule(order[..k] + order[k + 1..], n - 1)
  {
    var rest := order[..k] + order[k + 1..];
    forall i: nat ensures i in rest <==> i < n - 1 {
      if i in rest {
        var j :| 0 <= j < |rest| && rest[j] == i;
        var at := if j < k then j else j + 1;
        assert rest[j] == order[at] && order[at] in order;
        assert order[at] != order[k];
      }
      if i < n - 1 {
        assert i in order;
        var j :| 0 <= j < |order| && order[j] == i;
        assert rest[if j < k then j else j - 1] == i;
      }
    }
    forall i, j | 0 <= i < j < |rest| ensures rest[i] != rest[j] {
      assert rest[i] == order[if i < k then i else i + 1] && rest[j] == order[if j < k then j else j + 1];
    }
  }

  lemma TakeLast(order: seq<nat>, n: nat) returns (a: seq<nat>, b: seq<nat>)
    requires n > 0 && Schedule(order, n)
    ensures order == a + ([n - 1] + b) && Schedule(a + b, n - 1)
  {
    assert n - 1 in order;
    var k :| 0 <= k < |order| && order[k] == n - 1;
    a, b := order[..k], order[k + 1..];
    ScheduleWithout(order, n, k);
  }

  lemma SumSplit(f: nat -> nat, a: seq<nat>, x: nat, b: seq<nat>)
    ensures Sum(f, a + ([x] + b)) == Sum(f, a + b) + f(x)
  {
    assert [x][..0] == [];
    assert Sum(f, [x]) == f(x);
    hide Sum;
    SumConcat(f, a, [x] + b);
    SumConcat(f, [x], b);
    SumConcat(f, a, b);
  }

  /** Totals over all files do not depend on the order in which results arrive. */
  lemma {:induction false} SumsAgree(f: nat -> nat, order: seq<nat>, n: nat)
    requires Schedule(order, n)
    ensures Sum(f, order) == Sum(f, Range(n))
    decreases n
  {
    if n == 0 {
      NothingScheduled(order);
    } else {
      var a, b := TakeLast(order, n);
      hide Schedule;
      SumsAgree(f, a + b, n - 1);
      SumSplit(f, a, n - 1, b);
      RangeSnoc(n - 1);
      SumSplit(f, Range(n - 1), n - 1, []);
      hide Sum;
      assert [n - 1] + [] == [n - 1] && Range(n - 1) + [] == Range(n - 1);
    }
  }

  lemma NothingScheduled(order: seq<nat>)
    requires Schedule(order, 0)
    ensures order == [] == Range(0)
  {
    var x := if |order| > 0 then order[0] else 0;
    assert x !in order;
  }

  lemma RangeSnoc(n: nat)
    ensures Range(n + 1) == Range(n) + [n]
  {
  }

  // ---------------------------------------------------------------- the merged result

  function SkippedAt(rs: seq<FileResult>): nat -> nat { (i: nat) => if i < |rs| && rs[i].skipped then 1 else 0 }

  function MalformedAt(rs: seq<FileResult>): nat -> nat { (i: nat) => if i < |rs| then rs[i].malformed else 0 }

  function Classes(vs: seq<(Id, Verdict)>): seq<string> { seq(|vs|, i requires 0 <= i < |vs| => vs[i].1.cls) }

  function ClassAt(rs: seq<FileResult>, c: string): nat -> nat {
    (i: nat) => if i < |rs| then multiset(Classes(rs[i].verdicts))[c] else 0
  }

  datatype Merged = Merged(overlay: map<Id, Verdict>, byClass: map<string, nat>, skipped: nat, malformed: nat)

  /** Drain the results in arrival order. */
  method Merge(rs: seq<FileResult>, order: seq<nat>) returns (m: Merged)
    requires InRange(order, |rs|)
    ensures m.overlay == Overlay(rs, order)
    ensures m.skipped == Sum(SkippedAt(rs), order) && m.malformed == Sum(MalformedAt(rs), order)
    ensures forall c :: (if c in m.byClass then m.byClass[c] else 0) == Sum(ClassAt(rs, c), order)
  {
    m := Merged(map[], map[], 0, 0);
    for i := 0 to |order|
      invariant m.overlay == Overlay(rs, order[..i])
      invariant m.skipped == Sum(SkippedAt(rs), order[..i]) && m.malformed == Sum(MalformedAt(rs), order[..i])
      invariant forall c :: (if c in m.byClass then m.byClass[c] else 0) == Sum(ClassAt(rs, c), order[..i])
    {
      var res := rs[order[i]];
      assert order[..i + 1][..i] == order[..i];
      var byClass := CountClasses(m.byClass, Classes(res.verdicts));
      var overlay := InsertAll(m.overlay, res.verdicts);
      m := Merged(overlay, byClass, m.skipped + (if res.skipped then 1 else 0), m.malformed + res.malformed);
    }
    assert order[..|order|] == order;
  }

  method CountClasses(counts: map<string, nat>, classes: seq<string>) returns (r: map<string, nat>)
    ensures forall c :: (if c in r then r[c] else 0) == (if c in counts then counts[c] else 0) + multiset(classes)[c]
  {
    r := counts;
    for i := 0 to |classes|
      invariant forall c :: (if c in r then r[c] else 0) == (if c in counts then counts[c] else 0) + multiset(classes[..i])[c]
    {
      assert classes[..i + 1] == classes[..i] + [classes[i]];
      r := r[classes[i] := (if classes[i] in r then r[classes[i]] else 0) + 1];
    }
    assert classes[..|classes|] == classes;
  }

  method InsertAll(overlay: map<Id, Verdict>, vs: seq<(Id, Verdict)>) returns (r: map<Id, Verdict>)
    ensures r == overlay + FileMap(vs)
  {
    r := overlay;
    for i := 0 to |vs|
      invariant r == overlay + FileMap(vs[..i])
    {
      assert vs[..i + 1][..i] == vs[..i];
      r := r[vs[i].0 := vs[i].1];
    }
    assert vs[..|vs|] == vs;
  }

  /** Files agree wherever they both have a verdict. */
  ghost predicate Compatible(rs: seq<FileResult>) {
    forall i, j, id :: 0 <= i < |rs| && 0 <= j < |rs| && id in FileMap(rs[i].verdicts) && id in FileMap(rs[j].verdicts)
      ==> FileMap(rs[i].verdicts)[id] == FileMap(rs[j].verdicts)[id]
  }

  /** A file among those merged has a verdict for the id. */
  ghost predicate Answers(rs: seq<FileResult>, order: seq<nat>, id: Id, i: nat) {
    i in order && i < |rs| && id in FileMap(rs[i].verdicts)
  }

  lemma {:induction false} OverlayAt(rs: seq<FileResult>, order: seq<nat>, id: Id)
    requires InRange(order, |rs|)
    ensures id in Overlay(rs, order) <==> exists i: nat :: Answers(rs, order, id, i)
    ensures id in Overlay(rs, order) ==> exists i: nat :: Answers(rs, order, id, i) && Overlay(rs, order)[id] == FileMap(rs[i].verdicts)[id]
    decreases |order|
  {
    hide FileMap;
    if order != [] {
      var n := |order| - 1;
      var init, last := order[..n], order[n];
      OverlayAt(rs, init, id);
      assert order == init + [last];
      if id in FileMap(rs[last].verdicts) {
        assert Answers(rs, order, id, last);
      } else {
        if id in Overlay(rs, init) {
          var i: nat :| Answers(rs, init, id, i) && Overlay(rs, init)[id] == FileMap(rs[i].verdicts)[id];
          assert Answers(rs, order, id, i);
        }
        if i: nat :| Answers(rs, order, id, i) {
          assert Answers(rs, init, id, i);
        }
      }
    }
  }

  lemma ScheduleInRange(order: seq<nat>, n: nat)
    requires Schedule(order, n)
    ensures InRange(order, n)
  {
    forall k | 0 <= k < |order| ensures order[k] < n {
      assert order[k] in order;
    }
  }

  /** With compatible files the overlay is the same for every schedule. */
  lemma CompatibleMeansAgree(rs: seq<FileResult>, a: seq<nat>, b: seq<nat>)
    requires Compatible(rs) && Schedule(a, |rs|) && Schedule(b, |rs|) && InRange(a, |rs|) && InRange(b, |rs|)
    ensures Overlay(rs, a) == Overlay(rs, b)
  {
    forall id ensures id in Overlay(rs, a) <==> id in Overlay(rs, b) {
      SameKeys(rs, a, b, id);
    }
    forall id | id in Overlay(rs, a) && id in Overlay(rs, b) ensures Overlay(rs, a)[id] == Overlay(rs, b)[id] {
      OverlayAt(rs, a, id);
      OverlayAt(rs, b, id);
      hide FileMap, Overlay, Schedule;
    }
  }

  lemma SameKeys(rs: seq<FileResult>, a: seq<nat>, b: seq<nat>, id: Id)
    requires Schedule(a, |rs|) && Schedule(b, |rs|) && InRange(a, |rs|) && InRange(b, |rs|)
    ensures id in Overlay(rs, a) <==> id in Overlay(rs, b)
  {
    OverlayAt(rs, a, id);
    OverlayAt(rs, b, id);
    hide FileMap, Overlay;
    if i: nat :| Answers(rs, a, id, i) {
      assert Answers(rs, b, id, i);
    }
    if i: nat :| Answers(rs, b, id, i) {
      assert Answers(rs, a, id, i);
    }
  }

  /** All files but two, in order. */
  function Others(n: nat, i: nat, j: nat): seq<nat>
  {
    if n == 0 then [] else Others(n - 1, i, j) + if n - 1 == i || n - 1 == j then [] else [n - 1]
  }

  lemma {:induction false} OthersAre(n: nat, i: nat, j: nat)
    ensures forall k: nat :: k in Others(n, i, j) <==> k < n && k != i && k != j
    ensures forall x, y :: 0 <= x < y < |Others(n, i, j)| ==> Others(n, i, j)[x] != Others(n, i, j)[y]
  {
    if n > 0 {
      OthersAre(n - 1, i, j);
      var init := Others(n - 1, i, j);
      assert forall x :: 0 <= x < |init| ==> init[x] in init;
    }
  }

  lemma LastTwo(n: nat, i: nat, j: nat)
    requires i < n && j < n && i != j
    ensures Schedule(Others(n, i, j) + [i, j], n) && InRange(Others(n, i, j) + [i, j], n)
  {
    OthersAre(n, i, j);
    var order := Others(n, i, j) + [i, j];
    hide Others;
    assert order[|order| - 1] == j && order[|order| - 2] == i;
    forall k: nat ensures k in order <==> k < n {
      assert k in order <==> k in Others(n, i, j) || k == i || k == j;
    }
    forall x, y | 0 <= x < y < |order| ensures order[x] != order[y] {
      if x < |Others(n, i, j)| {
        assert order[x] in Others(n, i, j);
      }
    }
    ScheduleInRange(order, n);
  }

  /** The overlay is independent of the schedule exactly when no two files answer differently for one id. */
  lemma ScheduleIndependentExactly(rs: seq<FileResult>)
    ensures (forall a, b :: Schedule(a, |rs|) && Schedule(b, |rs|) && InRange(a, |rs|) && InRange(b, |rs|) ==> Overlay(rs, a) == Overlay(rs, b))
            <==> Compatible(rs)
  {
    if Compatible(rs) {
      forall a, b | Schedule(a, |rs|) && Schedule(b, |rs|) && InRange(a, |rs|) && InRange(b, |rs|) ensures Overlay(rs, a) == Overlay(rs, b) {
        CompatibleMeansAgree(rs, a, b);
      }
    } else {
      var i, j, id :| 0 <= i < |rs| && 0 <= j < |rs| && id in FileMap(rs[i].verdicts) && id in FileMap(rs[j].verdicts)
        && FileMap(rs[i].verdicts)[id] != FileMap(rs[j].verdicts)[id];
      Disagreement(rs, i, j, id);
    }
  }

  lemma LastWins(rs: seq<FileResult>, order: seq<nat>, id: Id)
    requires order != [] && InRange(order, |rs|) && id in FileMap(rs[order[|order| - 1]].verdicts)
    ensures id in Overlay(rs, order) && Overlay(rs, order)[id] == FileMap(rs[order[|order| - 1]].verdicts)[id]
  {
    hide FileMap;
  }

  lemma Disagreement(rs: seq<FileResult>, i: nat, j: nat, id: Id)
    requires i < |rs| && j < |rs| && id in FileMap(rs[i].verdicts) && id in FileMap(rs[j].verdicts)
    requires FileMap(rs[i].verdicts)[id] != FileMap(rs[j].verdicts)[id]
    ensures exists a, b :: Schedule(a, |rs|) && Schedule(b, |rs|) && InRange(a, |rs|) && InRange(b, |rs|) && Overlay(rs, a) != Overlay(rs, b)
  {
    hide Others, FileMap, Schedule, InRange, Overlay;
    LastTwo(|rs|, i, j);
    LastTwo(|rs|, j, i);
    var a, b := Others(|rs|, i, j) + [i, j], Others(|rs|, j, i) + [j, i];
    EndsWith(Others(|rs|, i, j), i, j);
    EndsWith(Others(|rs|, j, i), j, i);
    LastWins(rs, a, id);
    LastWins(rs, b, id);
  }

  lemma EndsWith(s: seq<nat>, i: nat, j: nat)
    ensures s + [i, j] != [] && (s + [i, j])[|s + [i, j]| - 1] == j
  {
  }

  // ---------------------------------------------------------------- which verdict goes to which finding

  /** Verdict `k` of the model is for the finding `id`: by position if the counts match, otherwise by its complete echo. */
  ghost predicate MeantFor(raws: seq<Raw>, fif: seq<Rep>, keys: map<Key, Id>, id: Id, k: nat) {
    && k < |raws|
    && if |raws| == |fif| then fif[k].id == id
       else
         && raws[k].path.Some? && raws[k].line.Some? && raws[k].rule.Some?
         && var key := (raws[k].path.value, raws[k].line.value, raws[k].rule.value);
         key in keys && keys[key] == id
  }

  /** It is kept: its class is one the overlay knows. */
  ghost predicate KeptFor(raws: seq<Raw>, fif: seq<Rep>, keys: map<Key, Id>, id: Id, k: nat) {
    MeantFor(raws, fif, keys, id, k) && KnownClass(raws[k].cls)
  }

  /** It is meant for a finding and dropped for its class. */
  ghost predicate Spoiled(raws: seq<Raw>, fif: seq<Rep>, keys: map<Key, Id>, k: nat) {
    k < |raws| && !KnownClass(raws[k].cls) && exists id :: MeantFor(raws, fif, keys, id, k)
  }

  /** The verdicts of a file are exactly the kept ones, the last one for an id winning. */
  ghost predicate Answered(raws: seq<Raw>, fif: seq<Rep>, keys: map<Key, Id>, lines: map<Id, seq<int>>, m: map<Id, Verdict>) {
    && (forall id :: id in m <==> exists k: nat :: KeptFor(raws, fif, keys, id, k))
    && (forall id, k: nat :: KeptFor(raws, fif, keys, id, k) && (forall j: nat :: KeptFor(raws, fif, keys, id, j) ==> j <= k) ==>
          id in m && m[id] == Verdict(raws[k].cls, raws[k].detail, if id in lines then lines[id] else []))
  }

  /** One more verdict, meant for `id` or for nobody. */
  lemma KeptStep(pairs: seq<(Id, Raw)>, lines: map<Id, seq<int>>, id: Id, rv: Raw)
    ensures FileMap(Kept(pairs + [(id, rv)], lines)) ==
            if KnownClass(rv.cls) then FileMap(Kept(pairs, lines))[id := Verdict(rv.cls, rv.detail, if id in lines then lines[id] else [])]
            else FileMap(Kept(pairs, lines))
    ensures |Kept(pairs + [(id, rv)], lines)| == |Kept(pairs, lines)| + if KnownClass(rv.cls) then 1 else 0
  {
    hide KnownClass;
    var all := pairs + [(id, rv)];
    assert all[..|pairs|] == pairs;
    var vs := Kept(all, lines);
    if KnownClass(rv.cls) {
      assert vs[..|vs| - 1] == Kept(pairs, lines);
    } else {
      assert vs == Kept(pairs, lines);
    }
  }

  /** Answer `k` is the last kept one for `id` among the first `n`. */
  ghost predicate LastFor(raws: seq<Raw>, fif: seq<Rep>, keys: map<Key, Id>, id: Id, n: nat, k: nat) {
    k < n && KeptFor(raws, fif, keys, id, k) && forall j: nat :: k < j < n ==> !KeptFor(raws, fif, keys, id, j)
  }

  /** The entry for `id` is decided by its last kept answer among the first `n`, if there is one. */
  ghost predicate EntryUpTo(raws: seq<Raw>, fif: seq<Rep>, keys: map<Key, Id>, lines: map<Id, seq<int>>, n: nat, m: map<Id, Verdict>, id: Id) {
    && (id in m <==> exists k: nat :: LastFor(raws, fif, keys, id, n, k))
    && (forall k: nat :: LastFor(raws, fif, keys, id, n, k) ==>
          id in m && k < |raws| && m[id] == Verdict(raws[k].cls, raws[k].detail, if id in lines then lines[id] else []))
  }

  ghost predicate AnsweredUpTo(raws: seq<Raw>, fif: seq<Rep>, keys: map<Key, Id>, lines: map<Id, seq<int>>, n: nat, m: map<Id, Verdict>) {
    forall id :: EntryUpTo(raws, fif, keys, lines, n, m, id)
  }

  lemma LastForStep(raws: seq<Raw>, fif: seq<Rep>, keys: map<Key, Id>, id: Id, n: nat, k: nat)
    ensures LastFor(raws, fif, keys, id, n + 1, k) <==>
            if KeptFor(raws, fif, keys, id, n) then k == n else LastFor(raws, fif, keys, id, n, k)
  {
    hide KeptFor;
  }

  /** The pairs made from the first `n` answers. */
  function PairsUpTo(raws: seq<Raw>, fif: seq<Rep>, keys: map<Key, Id>, n: nat): seq<(Id, Raw)>
    requires n <= |raws|
  {
    if |raws| == |fif| then Pair(raws, fif, keys)[..n] else ByKey(raws[..n], keys)
  }

  lemma PairsStep(raws: seq<Raw>, fif: seq<Rep>, keys: map<Key, Id>, n: nat, id: Id)
    requires n < |raws|
    ensures MeantFor(raws, fif, keys, id, n) ==> PairsUpTo(raws, fif, keys, n + 1) == PairsUpTo(raws, fif, keys, n) + [(id, raws[n])]
    ensures (forall x :: !MeantFor(raws, fif, keys, x, n)) ==> PairsUpTo(raws, fif, keys, n + 1) == PairsUpTo(raws, fif, keys, n)
  {
    assert raws[..n + 1][..n] == raws[..n];
    if |raws| == |fif| {
      assert MeantFor(raws, fif, keys, fif[n].id, n);
    } else if Echo(raws[n]).Some? && Echo(raws[n]).value in keys {
      assert MeantFor(raws, fif, keys, keys[Echo(raws[n]).value], n);
    }
  }

  lemma {:induction false} RecordedExactly(raws: seq<Raw>, fif: seq<Rep>, keys: map<Key, Id>, lines: map<Id, seq<int>>, n: nat)
    requires n <= |raws|
    ensures AnsweredUpTo(raws, fif, keys, lines, n, FileMap(Kept(PairsUpTo(raws, fif, keys, n), lines)))
  {
    if n == 0 {
      assert PairsUpTo(raws, fif, keys, 0) == [];
      assert FileMap(Kept([], lines)) == map[];
    } else {
      var last := n - 1;
      RecordedExactly(raws, fif, keys, lines, last);
      var pairs := PairsUpTo(raws, fif, keys, last);
      var m := FileMap(Kept(pairs, lines));
      if id :| MeantFor(raws, fif, keys, id, last) {
        PairsStep(raws, fif, keys, last, id);
        KeptStep(pairs, lines, id, raws[last]);
        hide FileMap, Kept, PairsUpTo, KnownClass;
        AnswerStep(raws, fif, keys, lines, last, id, m);
      } else {
        PairsStep(raws, fif, keys, last, "");
        hide FileMap, Kept, PairsUpTo, KnownClass;
        NoAnswerStep(raws, fif, keys, lines, last, m);
      }
    }
  }

  lemma AnswerStep(raws: seq<Raw>, fif: seq<Rep>, keys: map<Key, Id>, lines: map<Id, seq<int>>, n: nat, id: Id, m: map<Id, Verdict>)
    requires AnsweredUpTo(raws, fif, keys, lines, n, m) && MeantFor(raws, fif, keys, id, n)
    ensures AnsweredUpTo(raws, fif, keys, lines, n + 1,
              if KnownClass(raws[n].cls) then m[id := Verdict(raws[n].cls, raws[n].detail, if id in lines then lines[id] else [])] else m)
  {
    hide KnownClass;
    OneMeaning(raws, fif, keys, n, id);
    assert forall x :: KeptFor(raws, fif, keys, x, n) <==> x == id && KnownClass(raws[n].cls);
    hide MeantFor, KeptFor, EntryUpTo;
    var m' := if KnownClass(raws[n].cls) then m[id := Verdict(raws[n].cls, raws[n].detail, if id in lines then lines[id] else [])] else m;
    var next := n + 1;
    forall x ensures EntryUpTo(raws, fif, keys, lines, next, m', x) {
      EntryStep(raws, fif, keys, lines, n, m, m', x);
    }
  }

  lemma EntryStep(raws: seq<Raw>, fif: seq<Rep>, keys: map<Key, Id>, lines: map<Id, seq<int>>, n: nat, m: map<Id, Verdict>, m': map<Id, Verdict>, id: Id)
    requires EntryUpTo(raws, fif, keys, lines, n, m, id)
    requires if KeptFor(raws, fif, keys, id, n) then id in m' && n < |raws| && m'[id] == Verdict(raws[n].cls, raws[n].detail, if id in lines then lines[id] else [])
             else (id in m' <==> id in m) && (id in m ==> m'[id] == m[id])
    ensures EntryUpTo(raws, fif, keys, lines, n + 1, m', id)
  {
    forall k: nat ensures LastFor(raws, fif, keys, id, n + 1, k) <==> if KeptFor(raws, fif, keys, id, n) then k == n else LastFor(raws, fif, keys, id, n, k) {
      LastForStep(raws, fif, keys, id, n, k);
    }
    hide LastFor, KeptFor;
  }

  lemma OneMeaning(raws: seq<Raw>, fif: seq<Rep>, keys: map<Key, Id>, k: nat, id: Id)
    requires MeantFor(raws, fif, keys, id, k)
    ensures forall x :: MeantFor(raws, fif, keys, x, k) <==> x == id
  {
  }

  lemma NoAnswerStep(raws: seq<Raw>, fif: seq<Rep>, keys: map<Key, Id>, lines: map<Id, seq<int>>, n: nat, m: map<Id, Verdict>)
    requires AnsweredUpTo(raws, fif, keys, lines, n, m) && forall x :: !MeantFor(raws, fif, keys, x, n)
    ensures AnsweredUpTo(raws, fif, keys, lines, n + 1, m)
  {
    hide KnownClass;
    assert forall x :: !KeptFor(raws, fif, keys, x, n);
    hide MeantFor, KeptFor, EntryUpTo;
    var next := n + 1;
    forall x ensures EntryUpTo(raws, fif, keys, lines, next, m, x) {
      EntryStep(raws, fif, keys, lines, n, m, m, x);
    }
  }

  lemma {:induction false} SpoiledCounted(raws: seq<Raw>, fif: seq<Rep>, keys: map<Key, Id>, lines: map<Id, seq<int>>, n: nat)
    requires n <= |raws|
    ensures var pairs := PairsUpTo(raws, fif, keys, n);
            |pairs| - |Kept(pairs, lines)| == |set k: nat | k < n && Spoiled(raws, fif, keys, k)|
  {
    if n == 0 {
      assert PairsUpTo(raws, fif, keys, 0) == [];
      assert (set k: nat | k < 0 && Spoiled(raws, fif, keys, k)) == {};
    } else {
      var last := n - 1;
      SpoiledCounted(raws, fif, keys, lines, last);
      var pairs := PairsUpTo(raws, fif, keys, last);
      SpoiledStep(raws, fif, keys, last);
      if id :| MeantFor(raws, fif, keys, id, last) {
        PairsStep(raws, fif, keys, last, id);
        KeptStep(pairs, lines, id, raws[last]);
        assert Spoiled(raws, fif, keys, last) <==> !KnownClass(raws[last].cls);
      } else {
        PairsStep(raws, fif, keys, last, "");
        assert !Spoiled(raws, fif, keys, last);
      }
      hide PairsUpTo, MeantFor, KnownClass, Kept, Spoiled;
    }
  }

  lemma SpoiledStep(raws: seq<Raw>, fif: seq<Rep>, keys: map<Key, Id>, n: nat)
    ensures |set k: nat | k < n + 1 && Spoiled(raws, fif, keys, k)|
            == |set k: nat | k < n && Spoiled(raws, fif, keys, k)| + if Spoiled(raws, fif, keys, n) then 1 else 0
  {
    hide Spoiled;
    var before, now := set k: nat | k < n && Spoiled(raws, fif, keys, k), set k: nat | k < n + 1 && Spoiled(raws, fif, keys, k);
    assert now == before + if Spoiled(raws, fif, keys, n) then {n} else {};
  }

  /** What one file contributes, said of the model's answers and the findings they are meant for. */
  lemma OutcomeExactly(raws: seq<Raw>, fif: seq<Rep>, keys: map<Key, Id>, lines: map<Id, seq<int>>)
    ensures var r := FileOutcome(Some(raws), fif, keys, lines);
            && !r.skipped && Answered(raws, fif, keys, lines, FileMap(r.verdicts))
            && r.malformed == |set k: nat | k < |raws| && Spoiled(raws, fif, keys, k)|
  {
    RecordedExactly(raws, fif, keys, lines, |raws|);
    SpoiledCounted(raws, fif, keys, lines, |raws|);
    assert raws[..|raws|] == raws;
    assert PairsUpTo(raws, fif, keys, |raws|) == Pair(raws, fif, keys);
    hide FileMap, Kept, KnownClass, Spoiled, Pair;
    AnsweredInTheEnd(raws, fif, keys, lines, FileMap(FileOutcome(Some(raws), fif, keys, lines).verdicts));
  }

  lemma AnsweredInTheEnd(raws: seq<Raw>, fif: seq<Rep>, keys: map<Key, Id>, lines: map<Id, seq<int>>, m: map<Id, Verdict>)
    requires AnsweredUpTo(raws, fif, keys, lines, |raws|, m)
    ensures Answered(raws, fif, keys, lines, m)
  {
    hide KnownClass;
    assert forall id, k: nat :: KeptFor(raws, fif, keys, id, k) ==> k < |raws|;
    hide MeantFor, KeptFor;
    forall id ensures id in m <==> exists k: nat :: KeptFor(raws, fif, keys, id, k) {
      assert EntryUpTo(raws, fif, keys, lines, |raws|, m, id);
      if exists k: nat :: KeptFor(raws, fif, keys, id, k) {
        var k := LastKept(raws, fif, keys, id, |raws|);
        assert LastFor(raws, fif, keys, id, |raws|, k);
      }
    }
    forall id, k: nat | KeptFor(raws, fif, keys, id, k) && (forall j: nat :: KeptFor(raws, fif, keys, id, j) ==> j <= k)
      ensures id in m && m[id] == Verdict(raws[k].cls, raws[k].detail, if id in lines then lines[id] else [])
    {
      assert EntryUpTo(raws, fif, keys, lines, |raws|, m, id);
      assert LastFor(raws, fif, keys, id, |raws|, k);
    }
  }

  // ---------------------------------------------------------------- when the counts match

  /** The findings shown to the model for one file. */
  function Shown(reps: seq<Rep>, path: string): (fif: seq<Rep>)
  {
    var ks := OfFile(reps, path);
    seq(|ks|, i requires 0 <= i < |ks| => if ks[i] < |reps| then reps[ks[i]] else Rep("", "", 0, "", "", []))
  }

  lemma ShownAre(reps: seq<Rep>, path: string)
    requires forall i, j :: 0 <= i < j < |reps| ==> reps[i].id != reps[j].id
    ensures forall i :: 0 <= i < |Shown(reps, path)| ==> Shown(reps, path)[i] in reps && Shown(reps, path)[i].path == path
    ensures forall i, j :: 0 <= i < j < |Shown(reps, path)| ==> Shown(reps, path)[i].id != Shown(reps, path)[j].id
    ensures |Shown(reps, path)| == |OfFile(reps, path)|
    ensures forall i :: 0 <= i < |Shown(reps, path)| ==> OfFile(reps, path)[i] < |reps| && Shown(reps, path)[i] == reps[OfFile(reps, path)[i]]
  {
    OfFileExactly(reps, path);
    var ks := OfFile(reps, path);
    assert forall i :: 0 <= i < |ks| ==> ks[i] in ks;
    hide OfFile;
  }

  ghost predicate Distinct(ids: seq<Id>) { forall i, j :: 0 <= i < j < |ids| ==> ids[i] != ids[j] }

  lemma DistinctSnoc(ids: seq<Id>, id: Id)
    ensures Distinct(ids + [id]) <==> Distinct(ids) && id !in ids
  {
    var all := ids + [id];
    if Distinct(all) {
      forall i | 0 <= i < |ids| ensures ids[i] != id {
        assert all[i] != all[|ids|];
      }
      forall i, j | 0 <= i < j < |ids| ensures ids[i] != ids[j] {
        assert all[i] != all[j];
      }
    }
  }

  function Ids<T>(s: seq<(Id, T)>): (ids: seq<Id>)
    ensures |ids| == |s| && forall i :: 0 <= i < |s| ==> ids[i] == s[i].0
  {
    seq(|s|, i requires 0 <= i < |s| => s[i].0)
  }

  lemma IdsSnoc<T>(s: seq<(Id, T)>)
    requires s != []
    ensures Ids(s) == Ids(s[..|s| - 1]) + [s[|s| - 1].0]
  {
  }

  lemma MapGrows(m: map<Id, Verdict>, id: Id, v: Verdict)
    requires id !in m
    ensures |m[id := v]| == |m| + 1
  {
    assert m[id := v].Keys == m.Keys + {id};
    assert |m[id := v].Keys| == |m.Keys| + 1;
  }

  /** Verdict lists without a repeated id lose nothing as maps. */
  lemma {:induction false} FileMapOf(vs: seq<(Id, Verdict)>)
    ensures forall id :: id in FileMap(vs) <==> id in Ids(vs)
    ensures Distinct(Ids(vs)) ==> |FileMap(vs)| == |vs|
    decreases |vs|
  {
    if vs != [] {
      var n := |vs| - 1;
      FileMapOf(vs[..n]);
      IdsSnoc(vs);
      DistinctSnoc(Ids(vs[..n]), vs[n].0);
      hide Distinct;
      if vs[n].0 !in FileMap(vs[..n]) {
        MapGrows(FileMap(vs[..n]), vs[n].0, vs[n].1);
      }
    }
  }

  /** Filtering keeps a subsequence of the ids, so distinct ids stay distinct. */
  lemma {:induction false} KeptIds(pairs: seq<(Id, Raw)>, lines: map<Id, seq<int>>)
    ensures forall id :: id in Ids(Kept(pairs, lines)) ==> id in Ids(pairs)
    ensures Distinct(Ids(pairs)) ==> Distinct(Ids(Kept(pairs, lines)))
    decreases |pairs|
  {
    hide KnownClass;
    if pairs != [] {
      var n := |pairs| - 1;
      KeptIds(pairs[..n], lines);
      IdsSnoc(pairs);
      DistinctSnoc(Ids(pairs[..n]), pairs[n].0);
      var init, all := Kept(pairs[..n], lines), Kept(pairs, lines);
      if all != init {
        assert all[..|all| - 1] == init;
        IdsSnoc(all);
        DistinctSnoc(Ids(init), pairs[n].0);
      }
      hide Distinct, Kept;
    }
  }

  /** With as many verdicts as findings, a file only answers for its own ids, each at most once. */
  lemma PositionalFile(raws: seq<Raw>, fif: seq<Rep>, keys: map<Key, Id>, lines: map<Id, seq<int>>)
    requires |raws| == |fif| && forall i, j :: 0 <= i < j < |fif| ==> fif[i].id != fif[j].id
    ensures var r := FileOutcome(Some(raws), fif, keys, lines);
            && !r.skipped && |FileMap(r.verdicts)| + r.malformed == |fif|
            && forall id :: id in FileMap(r.verdicts) ==> exists i :: 0 <= i < |fif| && fif[i].id == id
  {
    var pairs := Pair(raws, fif, keys);
    assert Distinct(Ids(pairs));
    KeptIds(pairs, lines);
    var vs := Kept(pairs, lines);
    FileMapOf(vs);
    hide FileMap, Kept, Distinct;
    forall id | id in FileMap(vs) ensures exists i :: 0 <= i < |fif| && fif[i].id == id {
      assert id in Ids(pairs);
      var i :| 0 <= i < |pairs| && Ids(pairs)[i] == id;
      assert fif[i].id == id;
    }
  }

  /** A judging run: the files in order, what the model answered for each, and the shared tables. */
  datatype Run = Run(reps: seq<Rep>, files: seq<string>, answers: seq<Option<seq<Raw>>>, keys: map<Key, Id>, lines: map<Id, seq<int>>)

  ghost predicate GoodRun(run: Run) {
    && |run.files| == |run.answers|
    && (forall i, j :: 0 <= i < j < |run.reps| ==> run.reps[i].id != run.reps[j].id)
    && (forall i, j :: 0 <= i < j < |run.files| ==> run.files[i] != run.files[j])
  }

  /** Every answered file has one verdict per finding. */
  ghost predicate CountsMatch(run: Run)
    requires |run.files| == |run.answers|
  {
    forall i :: 0 <= i < |run.files| && run.answers[i].Some? ==> |run.answers[i].value| == |Shown(run.reps, run.files[i])|
  }

  function ResultsOf(run: Run): seq<FileResult>
    requires |run.files| == |run.answers|
  {
    seq(|run.files|, i requires 0 <= i < |run.files| => FileOutcome(run.answers[i], Shown(run.reps, run.files[i]), run.keys, run.lines))
  }

  /** The ids of a file that was not skipped. */
  function IdsAt(run: Run): nat -> nat {
    (i: nat) => if i < |run.files| && i < |run.answers| && run.answers[i].Some? then |Shown(run.reps, run.files[i])| else 0
  }

  lemma FileResultOf(run: Run, i: nat)
    requires GoodRun(run) && CountsMatch(run) && i < |run.files|
    ensures var r := ResultsOf(run)[i];
            && |FileMap(r.verdicts)| + r.malformed == IdsAt(run)(i)
            && forall id :: id in FileMap(r.verdicts) ==> exists rep :: rep in run.reps && rep.id == id && rep.path == run.files[i]
  {
    var fif := Shown(run.reps, run.files[i]);
    ShownAre(run.reps, run.files[i]);
    hide Shown;
    if run.answers[i].Some? {
      PositionalFile(run.answers[i].value, fif, run.keys, run.lines);
      hide FileMap, FileOutcome;
      var vs := FileOutcome(run.answers[i], fif, run.keys, run.lines).verdicts;
      forall id | id in FileMap(vs) ensures exists rep :: rep in run.reps && rep.id == id && rep.path == run.files[i] {
        var k :| 0 <= k < |fif| && fif[k].id == id;
        assert fif[k] in run.reps;
      }
    } else {
      assert FileMap(ResultsOf(run)[i].verdicts) == map[];
    }
  }

  /** Files answer for disjoint sets of ids. */
  lemma FilesDisjoint(run: Run, i: nat, j: nat, id: Id)
    requires GoodRun(run) && CountsMatch(run) && i < |run.files| && j < |run.files| && i != j
    requires id in FileMap(ResultsOf(run)[i].verdicts)
    ensures id !in FileMap(ResultsOf(run)[j].verdicts)
  {
    FileResultOf(run, i);
    FileResultOf(run, j);
    hide FileMap, ResultsOf, CountsMatch;
    var a :| a in run.reps && a.id == id && a.path == run.files[i];
    if id in FileMap(ResultsOf(run)[j].verdicts) {
      var b :| b in run.reps && b.id == id && b.path == run.files[j];
      SameIdSameRep(run.reps, a, b);
    }
  }

  lemma SameIdSameRep(reps: seq<Rep>, a: Rep, b: Rep)
    requires forall i, j :: 0 <= i < j < |reps| ==> reps[i].id != reps[j].id
    requires a in reps && b in reps && a.id == b.id
    ensures a == b
  {
    var i :| 0 <= i < |reps| && reps[i] == a;
    var j :| 0 <= j < |reps| && reps[j] == b;
    assert i == j;
  }

  lemma MatchingIsCompatible(run: Run)
    requires GoodRun(run) && CountsMatch(run)
    ensures Compatible(ResultsOf(run))
  {
    var rs := ResultsOf(run);
    assert |rs| == |run.files|;
    hide FileMap, ResultsOf, GoodRun, CountsMatch;
    forall i, j, id | 0 <= i < |rs| && 0 <= j < |rs| && id in FileMap(rs[i].verdicts) && id in FileMap(rs[j].verdicts)
      ensures FileMap(rs[i].verdicts)[id] == FileMap(rs[j].verdicts)[id]
    {
      if i != j {
        FilesDisjoint(run, i, j, id);
      }
    }
  }

  lemma DisjointSize(m: map<Id, Verdict>, k: map<Id, Verdict>)
    requires m.Keys !! k.Keys
    ensures |m + k| == |m| + |k|
  {
    assert (m + k).Keys == m.Keys + k.Keys;
    assert |(m + k).Keys| == |m.Keys| + |k.Keys|;
  }

  /** The overlay and the malformed verdicts together account for every id of the files judged so far. */
  lemma {:induction false} OverlayAccounts(run: Run, order: seq<nat>)
    requires GoodRun(run) && CountsMatch(run) && InRange(order, |run.files|)
    requires forall i, j :: 0 <= i < j < |order| ==> order[i] != order[j]
    ensures |Overlay(ResultsOf(run), order)| + Sum(MalformedAt(ResultsOf(run)), order) == Sum(IdsAt(run), order)
    decreases |order|
  {
    var rs := ResultsOf(run);
    assert |rs| == |run.files|;
    if order != [] {
      var n := |order| - 1;
      var init, last := order[..n], order[n];
      OverlayAccounts(run, init);
      FileResultOf(run, last);
      assert last !in init;
      NextIsNew(run, init, last);
      hide FileMap, ResultsOf, GoodRun, CountsMatch, IdsAt;
      var before, mine := Overlay(rs, init), FileMap(rs[last].verdicts);
      DisjointSize(before, mine);
    }
  }

  /**
   When each file's verdict count matches its findings, every schedule of the workers
   leaves the same overlay and the same class counts, and overlay size plus malformed
   verdicts equals the number of ids of the files that were not skipped.
   */
  lemma JudgePool(run: Run, order: seq<nat>, c: string)
    requires GoodRun(run) && CountsMatch(run) && Schedule(order, |run.files|)
    ensures InRange(order, |run.files|) && InRange(Range(|run.files|), |run.files|)
    ensures Overlay(ResultsOf(run), order) == Overlay(ResultsOf(run), Range(|run.files|))
    ensures Sum(ClassAt(ResultsOf(run), c), order) == Sum(ClassAt(ResultsOf(run), c), Range(|run.files|))
    ensures Sum(ClassAt(ResultsOf(run), c), order) == OfClass(Overlay(ResultsOf(run), order), c)
    ensures |Overlay(ResultsOf(run), order)| + Sum(MalformedAt(ResultsOf(run)), order) == Sum(IdsAt(run), Range(|run.files|))
  {
    ScheduleInRange(order, |run.files|);
    RangeIsSchedule(|run.files|);
    MatchingIsCompatible(run);
    CompatibleMeansAgree(ResultsOf(run), order, Range(|run.files|));
    SumsAgree(ClassAt(ResultsOf(run), c), order, |run.files|);
    SumsAgree(IdsAt(run), order, |run.files|);
    OverlayAccounts(run, order);
    ClassesAccount(run, order, c);
  }

  /** How many entries have a class. */
  function OfClass(m: map<Id, Verdict>, c: string): nat { |set id | id in m && m[id].cls == c| }

  lemma OfClassAdd(m: map<Id, Verdict>, id: Id, v: Verdict, c: string)
    requires id !in m
    ensures OfClass(m[id := v], c) == OfClass(m, c) + if v.cls == c then 1 else 0
  {
    var grown := m[id := v];
    var before, after := set x | x in m && m[x].cls == c, set x | x in grown && grown[x].cls == c;
    assert after == before + if v.cls == c then {id} else {};
  }

  lemma OfClassUnion(m: map<Id, Verdict>, k: map<Id, Verdict>, c: string)
    requires m.Keys !! k.Keys
    ensures OfClass(m + k, c) == OfClass(m, c) + OfClass(k, c)
  {
    var union := m + k;
    var a, b, both := set x | x in m && m[x].cls == c, set x | x in k && k[x].cls == c, set x | x in union && union[x].cls == c;
    assert both == a + b && a !! b;
  }

  lemma SubsetSize<T>(a: set<T>, b: set<T>)
    requires a <= b
    ensures |a| <= |b|
  {
    assert b == a + (b - a);
  }

  lemma OfClassBound(m: map<Id, Verdict>, c: string)
    ensures OfClass(m, c) <= |m|
  {
    var ids := set id | id in m && m[id].cls == c;
    SubsetSize(ids, m.Keys);
  }

  lemma {:induction false} FileClasses(vs: seq<(Id, Verdict)>, c: string)
    requires Distinct(Ids(vs))
    ensures multiset(Classes(vs))[c] == OfClass(FileMap(vs), c)
    decreases |vs|
  {
    if vs == [] {
      OfClassBound(FileMap(vs), c);
    } else {
      var n := |vs| - 1;
      IdsSnoc(vs);
      DistinctSnoc(Ids(vs[..n]), vs[n].0);
      FileMapOf(vs[..n]);
      FileClasses(vs[..n], c);
      assert Classes(vs) == Classes(vs[..n]) + [vs[n].1.cls];
      hide Distinct, OfClass;
      OfClassAdd(FileMap(vs[..n]), vs[n].0, vs[n].1, c);
    }
  }

  lemma FileClassesOf(run: Run, i: nat, c: string)
    requires GoodRun(run) && CountsMatch(run) && i < |run.files|
    ensures ClassAt(ResultsOf(run), c)(i) == OfClass(FileMap(ResultsOf(run)[i].verdicts), c)
  {
    var fif := Shown(run.reps, run.files[i]);
    ShownAre(run.reps, run.files[i]);
    hide Shown;
    if run.answers[i].Some? {
      var pairs := Pair(run.answers[i].value, fif, run.keys);
      assert Distinct(Ids(pairs));
      KeptIds(pairs, run.lines);
    }
    FileClasses(ResultsOf(run)[i].verdicts, c);
  }

  /** The files merged before have no id in common with the next one. */
  lemma NextIsNew(run: Run, init: seq<nat>, last: nat)
    requires GoodRun(run) && CountsMatch(run) && |ResultsOf(run)| == |run.files|
    requires InRange(init, |run.files|) && last < |run.files| && last !in init
    ensures Overlay(ResultsOf(run), init).Keys !! FileMap(ResultsOf(run)[last].verdicts).Keys
  {
    var rs := ResultsOf(run);
    hide FileMap, ResultsOf, GoodRun, CountsMatch;
    forall id | id in Overlay(rs, init) ensures id !in FileMap(rs[last].verdicts) {
      OverlayAt(rs, init, id);
      var i: nat :| Answers(rs, init, id, i);
      FilesDisjoint(run, i, last, id);
    }
  }

  /** With matching counts the class counts are exactly the numbers of overlay entries of each class. */
  lemma {:induction false} ClassesAccount(run: Run, order: seq<nat>, c: string)
    requires GoodRun(run) && CountsMatch(run) && InRange(order, |run.files|)
    requires forall i, j :: 0 <= i < j < |order| ==> order[i] != order[j]
    ensures Sum(ClassAt(ResultsOf(run), c), order) == OfClass(Overlay(ResultsOf(run), order), c)
    decreases |order|
  {
    var rs := ResultsOf(run);
    assert |rs| == |run.files|;
    if order == [] {
      OfClassBound(Overlay(rs, order), c);
    } else {
      var n := |order| - 1;
      var init, last := order[..n], order[n];
      ClassesAccount(run, init, c);
      FileClassesOf(run, last, c);
      assert last !in init;
      NextIsNew(run, init, last);
      hide FileMap, ResultsOf, GoodRun, CountsMatch, ClassAt, OfClass;
      OfClassUnion(Overlay(rs, init), FileMap(rs[last].verdicts), c);
    }
  }

  /** The lines of each id. */
  function LinesTable(reps: seq<Rep>): map<Id, seq<int>>
    decreases |reps|
  {
    if reps == [] then map[] else LinesTable(reps[..|reps| - 1])[reps[|reps| - 1].id := reps[|reps| - 1].lines]
  }

  /** The id behind each path, line and rule; a later representative replaces an earlier one. */
  function KeyTable(reps: seq<Rep>): map<Key, Id>
    decreases |reps|
  {
    if reps == [] then map[]
    else
      var r := reps[|reps| - 1];
      KeyTable(reps[..|reps| - 1])[(r.path, r.line, r.rule) := r.id]
  }

  lemma {:induction false} LinesTableAt(reps: seq<Rep>)
    requires forall i, j :: 0 <= i < j < |reps| ==> reps[i].id != reps[j].id
    ensures forall k :: 0 <= k < |reps| ==> reps[k].id in LinesTable(reps) && LinesTable(reps)[reps[k].id] == reps[k].lines
    ensures forall id :: id in LinesTable(reps) ==> exists k :: 0 <= k < |reps| && reps[k].id == id
    decreases |reps|
  {
    if reps != [] {
      var n := |reps| - 1;
      LinesTableAt(reps[..n]);
      assert forall k :: 0 <= k < n ==> reps[..n][k] == reps[k];
    }
  }

  /** Key recovery finds the last representative with that path, line and rule, and only such. */
  lemma {:induction false} KeyTableAt(reps: seq<Rep>, path: string, line: int, rule: string)
    ensures (path, line, rule) in KeyTable(reps) <==> exists k :: 0 <= k < |reps| && reps[k].path == path && reps[k].line == line && reps[k].rule == rule
    ensures forall k :: 0 <= k < |reps| && reps[k].path == path && reps[k].line == line && reps[k].rule == rule
                        && (forall j :: k < j < |reps| ==> (reps[j].path, reps[j].line, reps[j].rule) != (path, line, rule)) ==>
              KeyTable(reps)[(path, line, rule)] == reps[k].id
    decreases |reps|
  {
    if reps != [] {
      var n := |reps| - 1;
      var init := reps[..n];
      KeyTableAt(init, path, line, rule);
      assert forall k :: 0 <= k < n ==> init[k] == reps[k];
      if (reps[n].path, reps[n].line, reps[n].rule) != (path, line, rule) {
        assert forall k :: 0 <= k < |reps| && reps[k].path == path && reps[k].line == line && reps[k].rule == rule ==> k < n && init[k] == reps[k];
      }
    }
  }

  /** With matching counts the answer at each position, and no other, decides the finding shown there. */
  lemma PositionDecides(raws: seq<Raw>, fif: seq<Rep>, keys: map<Key, Id>, lines: map<Id, seq<int>>, p: nat)
    requires |raws| == |fif| && p < |fif| && forall i, j :: 0 <= i < j < |fif| ==> fif[i].id != fif[j].id
    ensures var m := FileMap(FileOutcome(Some(raws), fif, keys, lines).verdicts);
            && (fif[p].id in m <==> KnownClass(raws[p].cls))
            && (fif[p].id in m ==> m[fif[p].id] == Verdict(raws[p].cls, raws[p].detail, if fif[p].id in lines then lines[fif[p].id] else []))
  {
    OutcomeExactly(raws, fif, keys, lines);
    hide FileOutcome, FileMap, KnownClass;
    var id := fif[p].id;
    forall k: nat ensures KeptFor(raws, fif, keys, id, k) <==> k == p && KnownClass(raws[p].cls) {
    }
    hide MeantFor, KeptFor;
  }

  /**
   End to end, for every schedule: with matching counts the overlay holds the finding at
   each position of each answered file exactly when the answer at that position has a known
   class, and then with that class and detail and with all lines of the finding.
   */
  lemma OverlayExactly(run: Run, order: seq<nat>, i: nat, p: nat)
    requires GoodRun(run) && CountsMatch(run) && run.lines == LinesTable(run.reps)
    requires Schedule(order, |run.files|) && InRange(order, |run.files|)
    requires i < |run.files| && run.answers[i].Some? && p < |OfFile(run.reps, run.files[i])|
    ensures p < |run.answers[i].value| && OfFile(run.reps, run.files[i])[p] < |run.reps|
    ensures var rep, raw := run.reps[OfFile(run.reps, run.files[i])[p]], run.answers[i].value[p];
            var overlay := Overlay(ResultsOf(run), order);
            && (rep.id in overlay <==> raw.cls == "real" || raw.cls == "false_positive" || raw.cls == "uncertain")
            && (rep.id in overlay ==> overlay[rep.id] == Verdict(raw.cls, raw.detail, rep.lines))
  {
    var rs, fif, raws := ResultsOf(run), Shown(run.reps, run.files[i]), run.answers[i].value;
    ShownAre(run.reps, run.files[i]);
    hide Shown, OfFile;
    LinesTableAt(run.reps);
    PositionDecides(raws, fif, run.keys, run.lines, p);
    var id := fif[p].id;
    assert rs[i] == FileOutcome(Some(raws), fif, run.keys, run.lines);
    assert |rs| == |run.files|;
    hide FileOutcome, LinesTable, ResultsOf;
    OnlyItsFile(run, order, i, fif[p]);
  }

  lemma OnlyItsFile(run: Run, order: seq<nat>, i: nat, rep: Rep)
    requires GoodRun(run) && CountsMatch(run) && Schedule(order, |run.files|) && InRange(order, |run.files|) && |ResultsOf(run)| == |run.files|
    requires i < |run.files| && rep in run.reps && rep.path == run.files[i]
    ensures var overlay, mine := Overlay(ResultsOf(run), order), FileMap(ResultsOf(run)[i].verdicts);
            && (rep.id in overlay <==> rep.id in mine)
            && (rep.id in overlay ==> overlay[rep.id] == mine[rep.id])
  {
    var rs := ResultsOf(run);
    hide FileMap, ResultsOf, CountsMatch;
    OverlayAt(rs, order, rep.id);
    hide Overlay;
    forall j: nat | Answers(rs, order, rep.id, j) ensures j == i {
      FileResultOf(run, j);
      var other :| other in run.reps && other.id == rep.id && other.path == run.files[j];
      SameIdSameRep(run.reps, other, rep);
      assert run.files[i] == run.files[j];
    }
    assert i in order;
    assert rep.id in FileMap(rs[i].verdicts) ==> Answers(rs, order, rep.id, i);
  }

  /** Answer `k` for file `i` is kept, and meant for the finding `id`. */
  ghost predicate KeptIn(run: Run, id: Id, i: nat, k: nat) {
    && i < |run.files| && i < |run.answers| && run.answers[i].Some?
    && KeptFor(run.answers[i].value, Shown(run.reps, run.files[i]), run.keys, id, k)
  }

  /** Counts matching or not, whatever the overlay holds for an id is an answer that is meant for it. */
  lemma OverlayIsAnswered(run: Run, order: seq<nat>, id: Id) returns (i: nat, k: nat)
    requires |run.files| == |run.answers| && InRange(order, |run.files|) && id in Overlay(ResultsOf(run), order)
    ensures KeptIn(run, id, i, k) && k < |run.answers[i].value|
    ensures var raw := run.answers[i].value[k];
            Overlay(ResultsOf(run), order)[id] == Verdict(raw.cls, raw.detail, if id in run.lines then run.lines[id] else [])
  {
    var rs := ResultsOf(run);
    hide FileMap, Overlay, Shown, FileOutcome, KnownClass;
    OverlayAt(rs, order, id);
    i :| Answers(rs, order, id, i) && Overlay(rs, order)[id] == FileMap(rs[i].verdicts)[id];
    var fif := Shown(run.reps, run.files[i]);
    if run.answers[i].None? {
      SkippedIsEmpty(fif, run.keys, run.lines);
    } else {
      var raws := run.answers[i].value;
      OutcomeExactly(raws, fif, run.keys, run.lines);
      hide ResultsOf;
      k := LastKept(raws, fif, run.keys, id, |raws|);
    }
  }

  lemma SkippedIsEmpty(fif: seq<Rep>, keys: map<Key, Id>, lines: map<Id, seq<int>>)
    ensures FileMap(FileOutcome(None, fif, keys, lines).verdicts) == map[]
  {
  }

  lemma {:induction false} LastKept(raws: seq<Raw>, fif: seq<Rep>, keys: map<Key, Id>, id: Id, n: nat) returns (k: nat)
    requires exists j: nat :: j < n && KeptFor(raws, fif, keys, id, j)
    requires forall j: nat :: KeptFor(raws, fif, keys, id, j) ==> j < n
    ensures KeptFor(raws, fif, keys, id, k) && forall j: nat :: KeptFor(raws, fif, keys, id, j) ==> j <= k
  {
    hide KeptFor;
    if KeptFor(raws, fif, keys, id, n - 1) {
      k := n - 1;
    } else {
      k := LastKept(raws, fif, keys, id, n - 1);
    }
  }

  lemma RangeIsSchedule(n: nat)
    ensures Schedule(Range(n), n) && InRange(Range(n), n)
  {
    forall i: nat ensures i in Range(n) <==> i < n {
      if i < n {
        assert Range(n)[i] == i;
      }
    }
  }

  /**
   Without matching counts the merge can depend on the schedule: a surplus verdict whose
   echo names a finding of another file is recorded for that file's id.
   */
  lemma SurplusCrossesFiles(a: Rep, b: Rep, keys: map<Key, Id>, lines: map<Id, seq<int>>, mine: Raw, stray: Raw, theirs: Raw)
    requires a.id != b.id && Echo(stray).Some? && Echo(stray).value in keys && keys[Echo(stray).value] == b.id
    requires Echo(mine).None? && KnownClass(stray.cls) && KnownClass(theirs.cls) && stray.cls != theirs.cls
    ensures !Compatible([FileOutcome(Some([mine, stray]), [a], keys, lines), FileOutcome(Some([theirs]), [b], keys, lines)])
  {
    hide KnownClass;
    var p := [mine, stray];
    assert p[..1] == [mine] && [mine][..0] == [];
    assert ByKey([mine], keys) == [] && ByKey(p, keys) == [(b.id, stray)];
    var x, y := [(b.id, stray)], [(b.id, theirs)];
    assert x[..0] == [] && y[..0] == [];
    assert Pair(p, [a], keys) == x && Pair([theirs], [b], keys) == y;
    var kx, ky := [(b.id, Verdict(stray.cls, stray.detail, LinesFor(lines, b.id)))], [(b.id, Verdict(theirs.cls, theirs.detail, LinesFor(lines, b.id)))];
    assert Kept(x, lines) == kx && Kept(y, lines) == ky;
    assert kx[..0] == [] && ky[..0] == [];
    assert b.id in FileMap(kx) && b.id in FileMap(ky) && FileMap(kx)[b.id] != FileMap(ky)[b.id];
    var rs := [FileOutcome(Some(p), [a], keys, lines), FileOutcome(Some([theirs]), [b], keys, lines)];
    assert rs[0].verdicts == kx && rs[1].verdicts == ky;
  }
}
