/**
 Candidate-state capture and materialization across the runs of a conversation
 (`src/worktree.rs`, `src/main.rs`). A tree is a map from paths to entries, a patch the
 entries that differ with both sides, and a tree id a collision-free digest of a tree.
 */
module Candidate {
  import opened Base
  import G = GitOutput

  type Path = Bytes

  datatype Blob = Blob(mode: Bytes, oid: Bytes)

  type Tree = map<Path, Blob>

  datatype Change = Change(before: Option<Blob>, after: Option<Blob>)

  type Patch = map<Path, Change>

  function At(t: Tree, p: Path): Option<Blob> { if p in t then Some(t[p]) else None }

  function Diff(base: Tree, t: Tree): Patch {
    map p | p in base.Keys + t.Keys && At(base, p) != At(t, p) :: Change(At(base, p), At(t, p))
  }

  /** A patch applies only where every path it names still has the old side. */
  predicate Applies(t: Tree, patch: Patch) { forall p :: p in patch ==> At(t, p) == patch[p].before }

  function After(t: Tree, patch: Patch, p: Path): Option<Blob> { if p in patch then patch[p].after else At(t, p) }

  function Patched(t: Tree, patch: Patch): Tree {
    map p | p in t.Keys + patch.Keys && After(t, patch, p).Some? :: After(t, patch, p).value
  }

  function Gitlinks(t: Tree): map<Path, Bytes> { map p | p in t && t[p].mode == G.GITLINK_MODE :: t[p].oid }

  /** The listing of a tree: one entry per path. */
  ghost predicate Lists(es: seq<G.TreeEntry>, t: Tree) {
    && (forall e :: e in es ==> e.path in t && t[e.path] == Blob(e.mode, e.oid))
    && (forall p :: p in t ==> exists e :: e in es && e.path == p)
    && (forall e, f :: e in es && f in es && e.path == f.path ==> e == f)
  }

  /** A tree's gitlinks are those that the listing reader finds in any listing of it. */
  lemma GitlinksAreListed(es: seq<G.TreeEntry>, t: Tree)
    requires Lists(es, t)
    ensures G.GitlinkMap(es) == Gitlinks(t)
  {
    var listed := G.GitlinkMap(es);
    forall p ensures p in listed <==> p in Gitlinks(t) {
      if p in Gitlinks(t) {
        var e :| e in es && e.path == p;
      }
    }
  }

  /** No mutation: every path is a submodule at one commit in both trees or in neither. */
  lemma GitlinksAgreeExactly(a: Tree, b: Tree)
    ensures Gitlinks(a) == Gitlinks(b) <==>
            forall p, oid :: At(a, p) == Some(Blob([49, 54, 48, 48, 48, 48], oid)) <==> At(b, p) == Some(Blob([49, 54, 48, 48, 48, 48], oid))
  {
    if Gitlinks(a) == Gitlinks(b) {
      forall p, oid ensures At(a, p) == Some(Blob([49, 54, 48, 48, 48, 48], oid)) <==> At(b, p) == Some(Blob([49, 54, 48, 48, 48, 48], oid)) {
        assert p in Gitlinks(a) <==> p in Gitlinks(b);
        assert p in Gitlinks(a) ==> Gitlinks(a)[p] == Gitlinks(b)[p];
      }
    }
    if forall p, oid :: At(a, p) == Some(Blob([49, 54, 48, 48, 48, 48], oid)) <==> At(b, p) == Some(Blob([49, 54, 48, 48, 48, 48], oid)) {
      forall p ensures p in Gitlinks(a) <==> p in Gitlinks(b) {
        assert p in a ==> (At(a, p) == Some(Blob([49, 54, 48, 48, 48, 48], a[p].oid)) <==> At(b, p) == Some(Blob([49, 54, 48, 48, 48, 48], a[p].oid)));
        assert p in b ==> (At(a, p) == Some(Blob([49, 54, 48, 48, 48, 48], b[p].oid)) <==> At(b, p) == Some(Blob([49, 54, 48, 48, 48, 48], b[p].oid)));
      }
      forall p | p in Gitlinks(a) && p in Gitlinks(b) ensures Gitlinks(a)[p] == Gitlinks(b)[p] {
        assert At(a, p) == Some(Blob([49, 54, 48, 48, 48, 48], a[p].oid));
      }
    }
  }

  /** Applying a captured difference to its base gives the captured tree back, and nothing else. */
  lemma DiffThenApply(base: Tree, t: Tree)
    ensures Applies(base, Diff(base, t)) && Patched(base, Diff(base, t)) == t
  {
    forall p ensures At(Patched(base, Diff(base, t)), p) == At(t, p) {
      assert After(base, Diff(base, t), p) == At(t, p);
    }
    assert forall p :: p in Patched(base, Diff(base, t)) <==> p in t;
  }

  /** A captured difference applies to a tree exactly when that tree still has the old side of every changed path. */
  lemma AppliesExactly(base: Tree, target: Tree, t: Tree)
    ensures Applies(t, Diff(base, target)) <==> forall p :: At(base, p) != At(target, p) ==> At(t, p) == At(base, p)
    ensures forall p :: At(Patched(t, Diff(base, target)), p) == if At(base, p) != At(target, p) then At(target, p) else At(t, p)
  {
    var patch := Diff(base, target);
    forall p ensures p in patch <==> At(base, p) != At(target, p) {
    }
    forall p ensures At(Patched(t, patch), p) == if At(base, p) != At(target, p) then At(target, p) else At(t, p) {
      assert After(t, patch, p) == if At(base, p) != At(target, p) then At(target, p) else At(t, p);
    }
  }

  /** An empty difference means the tree is the base itself. */
  lemma EmptyDiff(base: Tree, t: Tree)
    ensures Diff(base, t) == map[] <==> t == base
  {
    DiffThenApply(base, t);
    assert Patched(base, map[]) == base;
    assert Diff(base, base) == map[];
  }

  /** What staging takes of the files: all but the ignored ones that are not in the index yet. */
  function Kept(index: Tree, files: Tree, ignored: set<Path>): Tree {
    map p | p in files && (p in ignored ==> p in index) :: files[p]
  }

  /** Staging loses nothing exactly when every ignored file is tracked. */
  lemma KeptExactly(index: Tree, files: Tree, ignored: set<Path>)
    ensures Kept(index, files, ignored) == files <==> forall p :: p in files && p in ignored ==> p in index
  {
    assert Kept(index, files, ignored) == files <==> forall p :: p in files ==> p in Kept(index, files, ignored);
  }

  datatype WorktreeError = HiddenIndexFlags | DirtySubmodule | GitlinkMutation | PatchDoesNotApply

  class Worktree {
    var index: Tree
    var files: Tree
    /** Index entries marked assume-unchanged or skip-worktree, which staging leaves alone. */
    var hidden: set<Path>
    /** Paths that the ignore rules match. */
    var ignored: set<Path>
    var submoduleDirty: bool

    constructor (base: Tree)
      ensures index == base && files == base && hidden == {} && ignored == {} && !submoduleDirty
    {
      index, files, hidden, ignored, submoduleDirty := base, base, {}, {}, false;
    }

    /** `git add -A`. */
    method AddAll()
      modifies this`index
      ensures forall p :: At(index, p) ==
                if p in hidden then At(old(index), p)
                else if p in ignored && p !in old(index) then None
                else At(files, p)
    {
      index := map p | p in index.Keys + files.Keys && (if p in hidden then p in index else p in files && (p in ignored ==> p in index))
        :: if p in hidden then index[p] else files[p];
    }

    /**
     Stage, check, freeze one copy of the index, and read patch and tree from that copy.
     `later` is whatever another process makes of the live index once the copy exists.
     */
    method Capture(treeId: Tree -> Digest, base: Tree, later: Tree) returns (r: Result<(Patch, Digest), WorktreeError>)
      modifies this`index
      ensures var staged := Kept(old(index), files, ignored);
              && (r.Ok? <==> hidden == {} && !submoduleDirty && Gitlinks(base) == Gitlinks(staged))
              && (r.Ok? ==> r.value == (Diff(base, staged), treeId(staged)))
      ensures r == Err(HiddenIndexFlags) <==> hidden != {}
    {
      ghost var staged := Kept(index, files, ignored);
      AddAll();
      if hidden != {} {
        return Err(HiddenIndexFlags);
      }
      if submoduleDirty {
        return Err(DirtySubmodule);
      }
      var snapshot := index;
      assert snapshot == staged by {
        assert forall p :: At(index, p) == At(staged, p);
        assert forall p :: p in index <==> At(index, p).Some?;
        assert forall p :: p in staged <==> At(staged, p).Some?;
        assert forall p :: p in index ==> Some(index[p]) == At(index, p) && Some(staged[p]) == At(staged, p);
      }
      index := later;
      var patch := Diff(base, snapshot);
      var tree := snapshot;
      if Gitlinks(base) != Gitlinks(tree) {
        return Err(GitlinkMutation);
      }
      r := Ok((patch, treeId(tree)));
    }

    /** Apply a patch to a fresh checkout of its base; an empty patch is not handed to git. */
    method Apply(treeId: Tree -> Digest, base: Tree, patch: Patch) returns (r: Result<Digest, WorktreeError>)
      requires index == base && files == base
      modifies this`index, this`files
      ensures r.Ok? <==> Applies(base, patch) && hidden == {} && !submoduleDirty && Gitlinks(base) == Gitlinks(Patched(base, patch))
      ensures r.Ok? ==> files == Patched(base, patch) && r.value == treeId(Patched(base, patch))
    {
      if patch != map[] {
        if !Applies(index, patch) {
          return Err(PatchDoesNotApply);
        }
        index := Patched(index, patch);
        files := index;
      } else {
        assert Patched(base, patch) == base;
      }
      if hidden != {} {
        return Err(HiddenIndexFlags);
      }
      if submoduleDirty {
        return Err(DirtySubmodule);
      }
      if Gitlinks(base) != Gitlinks(index) {
        return Err(GitlinkMutation);
      }
      r := Ok(treeId(index));
    }
  }

  // ---------------------------------------------------------------- receipts and inheritance

  datatype Contract = Contract(conversation: string, repository: string, baseCommit: string)

  datatype Receipt = Receipt(
    repository: string, baseCommit: string, runId: string, conversation: string, parent: Option<string>,
    tree: Digest, patch: Patch)

  /** A run directory as its children find it. */
  datatype Run = Run(runId: string, parent: Option<string>, sealedRun: bool, contract: Contract, receipt: Option<Receipt>)

  /** The repository: its identity and the tree of each commit it has. */
  datatype Repo = Repo(id: string, commits: map<string, Tree>)

  datatype CandidateError = NoReceipt | ReceiptDisagrees | WrongParent | WrongConversation | WrongRepository
    | NotSealed | NoSuchCommit | Worktree(e: WorktreeError) | TreeMismatch

  /** The receipt, if it agrees with its own run and contract. */
  function LoadReceipt(run: Run): Result<Receipt, CandidateError> {
    if run.receipt.None? then Err(NoReceipt)
    else
      var r := run.receipt.value;
      if r.conversation != run.contract.conversation || r.repository != run.contract.repository
         || r.baseCommit != run.contract.baseCommit || r.runId != run.runId || r.parent != run.parent
      then Err(ReceiptDisagrees) else Ok(r)
  }

  /** The child's contract, inherited from the verified parent. */
  function Inherit(repo: Repo, parent: Run, parentId: string, conversation: string): Result<Contract, CandidateError> {
    var loaded := LoadReceipt(parent);
    if loaded.Err? then Err(loaded.error)
    else if loaded.value.conversation != conversation then Err(WrongConversation)
    else if loaded.value.runId != parentId then Err(WrongParent)
    else if loaded.value.repository != repo.id then Err(WrongRepository)
    else Ok(Contract(loaded.value.conversation, loaded.value.repository, loaded.value.baseCommit))
  }

  /** The tree a child starts from, or why it does not start. */
  function Materialize(treeId: Tree -> Digest, repo: Repo, parent: Run, parentId: string, conversation: string): Result<Tree, CandidateError>
  {
    var loaded := LoadReceipt(parent);
    if loaded.Err? then Err(loaded.error)
    else if !parent.sealedRun then Err(NotSealed)
    else if loaded.value.runId != parentId then Err(WrongParent)
    else if loaded.value.conversation != conversation then Err(WrongConversation)
    else if loaded.value.repository != repo.id then Err(WrongRepository)
    else if loaded.value.baseCommit !in repo.commits then Err(NoSuchCommit)
    else
      var base := repo.commits[loaded.value.baseCommit];
      if !Applies(base, loaded.value.patch) then Err(Worktree(PatchDoesNotApply))
      else if Gitlinks(base) != Gitlinks(Patched(base, loaded.value.patch)) then Err(Worktree(GitlinkMutation))
      else if treeId(Patched(base, loaded.value.patch)) != loaded.value.tree then Err(TreeMismatch)
      else Ok(Patched(base, loaded.value.patch))
  }

  /** The run's receipt names the run itself: its conversation, repository, base, id and parent. */
  ghost predicate ReceiptOfItself(run: Run) {
    && run.receipt.Some?
    && run.receipt.value.runId == run.runId && run.receipt.value.parent == run.parent
    && Contract(run.receipt.value.conversation, run.receipt.value.repository, run.receipt.value.baseCommit) == run.contract
  }

  /** A child inherits exactly from a run of its own conversation, repository and parent id, and exactly its contract. */
  lemma InheritsExactly(repo: Repo, parent: Run, parentId: string, conversation: string, c: Contract)
    ensures Inherit(repo, parent, parentId, conversation) == Ok(c) <==>
            && ReceiptOfItself(parent) && parent.runId == parentId
            && parent.contract == c && c.conversation == conversation && c.repository == repo.id
  {
  }

  /**
   A child starts exactly from a sealed parent of its own conversation, repository and
   parent id whose patch applies to its base without touching a submodule and gives the
   tree that the receipt names; and it starts from that tree.
   */
  lemma MaterializesExactly(treeId: Tree -> Digest, repo: Repo, parent: Run, parentId: string, conversation: string, t: Tree)
    ensures Materialize(treeId, repo, parent, parentId, conversation) == Ok(t) <==>
            && parent.sealedRun && ReceiptOfItself(parent) && parent.runId == parentId
            && parent.contract.conversation == conversation && parent.contract.repository == repo.id
            && parent.contract.baseCommit in repo.commits
            && var base, patch := repo.commits[parent.contract.baseCommit], parent.receipt.value.patch;
            && (forall p :: p in patch ==> At(base, p) == patch[p].before)
            && t == Patched(base, patch) && Gitlinks(t) == Gitlinks(base) && treeId(t) == parent.receipt.value.tree
  {
  }

  /** The steps of materialization on a fresh worktree, proved to be the function above. */
  method MaterializeInto(treeId: Tree -> Digest, repo: Repo, parent: Run, parentId: string, conversation: string)
    returns (r: Result<Tree, CandidateError>)
    ensures r == Materialize(treeId, repo, parent, parentId, conversation)
  {
    var loaded := LoadReceipt(parent);
    if loaded.Err? {
      return Err(loaded.error);
    }
    var receipt := loaded.value;
    if !parent.sealedRun {
      return Err(NotSealed);
    }
    if receipt.runId != parentId {
      return Err(WrongParent);
    }
    if receipt.conversation != conversation {
      return Err(WrongConversation);
    }
    if receipt.repository != repo.id {
      return Err(WrongRepository);
    }
    if receipt.baseCommit !in repo.commits {
      return Err(NoSuchCommit);
    }
    var base := repo.commits[receipt.baseCommit];
    var wt := new Worktree(base);
    var applied := wt.Apply(treeId, base, receipt.patch);
    if applied.Err? {
      return Err(if Applies(base, receipt.patch) then Worktree(GitlinkMutation) else Worktree(PatchDoesNotApply));
    }
    if applied.value != receipt.tree {
      return Err(TreeMismatch);
    }
    r := Ok(wt.files);
  }

  // ---------------------------------------------------------------- conversations

  /** One turn: the files of the worktree that staging takes when the run is captured. */
  datatype Turn = Turn(runId: string, files: Tree)

  /** The run that an accepted capture of a turn leaves behind, sealed. */
  function Captured(treeId: Tree -> Digest, repo: Repo, contract: Contract, parent: Option<string>, turn: Turn): Option<Run> {
    if contract.baseCommit !in repo.commits then None
    else
      var base := repo.commits[contract.baseCommit];
      if Gitlinks(base) != Gitlinks(turn.files) then None
      else Some(Run(turn.runId, parent, true, contract,
                    Some(Receipt(contract.repository, contract.baseCommit, turn.runId, contract.conversation, parent,
                                 treeId(turn.files), Diff(base, turn.files)))))
  }

  /** Capturing a worktree writes exactly that run, whatever becomes of the live index meanwhile. */
  method WriteReceipt(treeId: Tree -> Digest, repo: Repo, contract: Contract, parent: Option<string>, runId: string, wt: Worktree, later: Tree)
    returns (r: Option<Run>)
    modifies wt`index
    ensures var turn := Turn(runId, Kept(old(wt.index), wt.files, wt.ignored));
            r == if wt.hidden == {} && !wt.submoduleDirty then Captured(treeId, repo, contract, parent, turn) else None
  {
    if contract.baseCommit !in repo.commits {
      return None;
    }
    var captured := wt.Capture(treeId, repo.commits[contract.baseCommit], later);
    if captured.Err? {
      return None;
    }
    r := Some(Run(runId, parent, true, contract,
                  Some(Receipt(contract.repository, contract.baseCommit, runId, contract.conversation, parent,
                               captured.value.1, captured.value.0))));
  }

  /**
   The runs of a conversation and the trees they started from: each later run inherits
   its contract from the one before, starts from what it materializes, and is captured.
   */
  ghost predicate Conversation(treeId: Tree -> Digest, repo: Repo, turns: seq<Turn>, runs: seq<Run>, starts: seq<Tree>)
    decreases |turns|
  {
    && |turns| == |runs| == |starts| >= 1
    && var n := |turns| - 1;
    if n == 0 then
      && runs[0].contract.repository == repo.id && runs[0].contract.baseCommit in repo.commits
      && starts[0] == repo.commits[runs[0].contract.baseCommit]
      && Captured(treeId, repo, runs[0].contract, None, turns[0]) == Some(runs[0])
    else
      && Conversation(treeId, repo, turns[..n], runs[..n], starts[..n])
      && var parent := runs[n - 1];
      && Inherit(repo, parent, parent.runId, parent.contract.conversation) == Ok(runs[n].contract)
      && Materialize(treeId, repo, parent, parent.runId, parent.contract.conversation) == Ok(starts[n])
      && Captured(treeId, repo, runs[n].contract, Some(parent.runId), turns[n]) == Some(runs[n])
  }

  /** A captured run passes every check its children make, and materializes to the captured tree. */
  lemma CapturedIsContinuable(treeId: Tree -> Digest, repo: Repo, contract: Contract, parent: Option<string>, turn: Turn)
    requires contract.repository == repo.id && Captured(treeId, repo, contract, parent, turn).Some?
    ensures var run := Captured(treeId, repo, contract, parent, turn).value;
            && Inherit(repo, run, turn.runId, contract.conversation) == Ok(contract)
            && Materialize(treeId, repo, run, turn.runId, contract.conversation) == Ok(turn.files)
  {
    DiffThenApply(repo.commits[contract.baseCommit], turn.files);
  }

  /**
   Candidate continuity: in a conversation of any length every run carries the first
   run's contract and base commit, its patch applied to that base is the captured tree,
   and each child starts from exactly the tree its parent was captured with.
   */
  lemma {:induction false} Continuity(treeId: Tree -> Digest, repo: Repo, turns: seq<Turn>, runs: seq<Run>, starts: seq<Tree>, i: nat)
    requires Conversation(treeId, repo, turns, runs, starts) && i < |turns|
    ensures runs[0].contract.repository == repo.id && runs[0].contract.baseCommit in repo.commits
    ensures runs[i].contract == runs[0].contract && runs[i].receipt.Some?
    ensures var r, base := runs[i].receipt.value, repo.commits[runs[0].contract.baseCommit];
            && r.baseCommit == runs[0].contract.baseCommit && r.tree == treeId(turns[i].files)
            && Applies(base, r.patch) && Patched(base, r.patch) == turns[i].files
    ensures starts[i] == if i == 0 then repo.commits[runs[0].contract.baseCommit] else turns[i - 1].files
    decreases |turns|
  {
    var n := |turns| - 1;
    if n > 0 {
      var before, so, far := turns[..n], runs[..n], starts[..n];
      Continuity(treeId, repo, before, so, far, if i < n then i else n - 1);
      if i == n {
        PredecessorCaptured(treeId, repo, before, so, far);
      }
    }
    if i == n {
      DiffThenApply(repo.commits[runs[0].contract.baseCommit], turns[i].files);
    }
  }

  lemma PredecessorCaptured(treeId: Tree -> Digest, repo: Repo, turns: seq<Turn>, runs: seq<Run>, starts: seq<Tree>)
    requires Conversation(treeId, repo, turns, runs, starts)
    ensures var m := |turns| - 1;
            && Inherit(repo, runs[m], runs[m].runId, runs[m].contract.conversation) == Ok(runs[m].contract)
            && Materialize(treeId, repo, runs[m], runs[m].runId, runs[m].contract.conversation) == Ok(turns[m].files)
  {
    var m := |turns| - 1;
    ContractIsLocal(treeId, repo, turns, runs, starts);
    CapturedIsContinuable(treeId, repo, runs[m].contract, runs[m].parent, turns[m]);
  }

  lemma ContractIsLocal(treeId: Tree -> Digest, repo: Repo, turns: seq<Turn>, runs: seq<Run>, starts: seq<Tree>)
    requires Conversation(treeId, repo, turns, runs, starts)
    ensures var m := |turns| - 1;
            runs[m].contract.repository == repo.id && Captured(treeId, repo, runs[m].contract, runs[m].parent, turns[m]) == Some(runs[m])
  {
  }

  /** A conversation can always go on: the checks on the parent never refuse an honest capture. */
  lemma AlwaysContinuable(treeId: Tree -> Digest, repo: Repo, turns: seq<Turn>, runs: seq<Run>, starts: seq<Tree>)
    requires Conversation(treeId, repo, turns, runs, starts)
    ensures var last := runs[|runs| - 1];
            && Inherit(repo, last, last.runId, runs[0].contract.conversation) == Ok(runs[0].contract)
            && Materialize(treeId, repo, last, last.runId, runs[0].contract.conversation) == Ok(turns[|turns| - 1].files)
  {
    hide Inherit, Materialize, Applies, Patched, Captured;
    OneStart(treeId, repo, turns, runs, starts);
    hide Conversation;
    Continuity(treeId, repo, turns, runs, starts, |turns| - 1);
    PredecessorCaptured(treeId, repo, turns, runs, starts);
  }

  lemma OneStart(treeId: Tree -> Digest, repo: Repo, turns: seq<Turn>, runs: seq<Run>, starts: seq<Tree>)
    requires Conversation(treeId, repo, turns, runs, starts)
    ensures |turns| == |runs| == |starts| >= 1
  {
  }

  /** Whatever a run directory claims, a child only ever starts from the tree its receipt names. */
  lemma MaterializedAsDeclared(treeId: Tree -> Digest, repo: Repo, parent: Run, parentId: string, conversation: string, t: Tree)
    requires CollisionFree(treeId) && Materialize(treeId, repo, parent, parentId, conversation).Ok?
    requires parent.receipt.Some? && treeId(t) == parent.receipt.value.tree
    ensures Materialize(treeId, repo, parent, parentId, conversation).value == t
  {
  }

  /** A child never starts from another conversation, repository, run or base, nor from an unsealed run. */
  lemma ForeignParentRefused(treeId: Tree -> Digest, repo: Repo, parent: Run, parentId: string, conversation: string)
    requires Materialize(treeId, repo, parent, parentId, conversation).Ok?
    ensures parent.sealedRun && parent.runId == parentId
    ensures Inherit(repo, parent, parentId, conversation) == Ok(parent.contract)
    ensures parent.contract.conversation == conversation && parent.contract.repository == repo.id
    ensures parent.contract.baseCommit in repo.commits
    ensures Gitlinks(Materialize(treeId, repo, parent, parentId, conversation).value) == Gitlinks(repo.commits[parent.contract.baseCommit])
  {
  }
}
