/**
 Readers of git's NUL-delimited output (`src/worktree.rs`): the dirty-submodule check
 over `git status --porcelain=2 -z` and the gitlink reader over `git ls-tree -r -z`.
 Everything is bytes.
 */
module GitOutput {
  import opened Base

  const NUL: byte := 0
  const SP: byte := 32
  const TAB: byte := 9
  const ONE: byte := 49
  const TWO: byte := 50
  const CAPITAL_S: byte := 83
  /** "S...", a clean submodule. */
  const CLEAN_SUBMODULE: Bytes := [83, 46, 46, 46]
  /** The letters of unmerged, untracked and ignored records. */
  const OTHER_TYPES: set<byte> := {117, 63, 33}
  /** "160000", the mode of a submodule entry. */
  const GITLINK_MODE: Bytes := [49, 54, 48, 48, 48, 48]

  function Find(s: Bytes, b: byte): (i: nat)
    requires b in s
    ensures i < |s| && s[i] == b && b !in s[..i]
  {
    if s[0] == b then 0 else
      assert s == [s[0]] + s[1..];
      1 + Find(s[1..], b)
  }

  /** Every maximal run of bytes between separators; always at least one. */
  function Split(s: Bytes, sep: byte): (r: seq<Bytes>)
    ensures |r| >= 1
    decreases |s|
  {
    if sep !in s then [s] else var i := Find(s, sep); [s[..i]] + Split(s[i + 1..], sep)
  }

  lemma FindIs(s: Bytes, b: byte, i: nat)
    requires i < |s| && s[i] == b && b !in s[..i]
    ensures Find(s, b) == i
  {
    if i > 0 {
      assert s[..i][0] == s[0] && s[1..][..i - 1] == s[..i][1..];
      FindIs(s[1..], b, i - 1);
    }
  }

  lemma SplitCut(a: Bytes, sep: byte, rest: Bytes)
    requires sep !in a
    ensures Split(a + [sep] + rest, sep) == [a] + Split(rest, sep)
  {
    var s := a + [sep] + rest;
    assert s[|a|] == sep;
    var i := Find(s, sep);
    assert s[..|a|] == a;
    FindIs(s, sep, |a|);
    assert s[..i] == a && s[i + 1..] == rest;
  }

  // ---------------------------------------------------------------- status

  /** The third space-separated field of a record, if it has one. */
  function SubField(record: Bytes): Option<Bytes> {
    var fields := Split(record, SP);
    if |fields| >= 3 then Some(fields[2]) else None
  }

  predicate CleanSub(sub: Bytes) { !(sub != [] && sub[0] == CAPITAL_S && sub != CLEAN_SUBMODULE) }

  /** What the record walk accepts, given the remaining NUL-separated segments. */
  predicate Accepts(segments: seq<Bytes>)
    decreases |segments|
  {
    if segments == [] then true
    else
      var record := segments[0];
      if record == [] then |segments| == 1
      else if record[0] == ONE || record[0] == TWO then
        && SubField(record).Some? && CleanSub(SubField(record).value)
        && if record[0] == ONE then Accepts(segments[1..])
           else |segments| > 1 && segments[1] != [] && Accepts(segments[2..])
      else record[0] in OTHER_TYPES && Accepts(segments[1..])
  }

  /** Walk the records; a rename takes the next segment with it, whatever it holds. */
  method CheckNoDirtySubmodule(out: Bytes) returns (ok: bool)
    ensures ok <==> Accepts(Split(out, NUL))
  {
    var records := Split(out, NUL);
    var i := 0;
    while i < |records|
      invariant 0 <= i <= |records|
      invariant Accepts(records) <==> Accepts(records[i..])
    {
      var record := records[i];
      i := i + 1;
      if record == [] {
        if i < |records| {
          return false;
        }
      } else if record[0] == ONE || record[0] == TWO {
        var sub := SubField(record);
        if sub.None? || !CleanSub(sub.value) {
          return false;
        }
        if record[0] == TWO {
          if i == |records| || records[i] == [] {
            return false;
          }
          i := i + 1;
        }
      } else if record[0] !in OTHER_TYPES {
        return false;
      }
    }
    ok := true;
  }

  /** One status entry. `head` is the type token, `rest` everything after the submodule field. */
  datatype Entry =
    | Changed(head: Bytes, xy: Bytes, sub: Bytes, rest: Option<Bytes>)
    | Renamed(head: Bytes, xy: Bytes, sub: Bytes, rest: Option<Bytes>, orig: Bytes)
    | Other(line: Bytes)

  predicate Token(t: Bytes) { NUL !in t && SP !in t }

  predicate WellFormed(e: Entry) {
    match e
    case Other(line) => line != [] && line[0] in {117, 63, 33} && NUL !in line
    case Changed(head, xy, sub, rest) =>
      head != [] && head[0] == 49 && Token(head) && Token(xy) && Token(sub) && (rest.Some? ==> NUL !in rest.value)
    case Renamed(head, xy, sub, rest, orig) =>
      && head != [] && head[0] == 50 && Token(head) && Token(xy) && Token(sub) && (rest.Some? ==> NUL !in rest.value)
      && orig != [] && NUL !in orig
  }

  function TrackedLine(head: Bytes, xy: Bytes, sub: Bytes, rest: Option<Bytes>): Bytes {
    head + [SP] + (xy + [SP] + (if rest.Some? then sub + [SP] + rest.value else sub))
  }

  function Line(e: Entry): Bytes {
    if e.Other? then e.line else TrackedLine(e.head, e.xy, e.sub, e.rest)
  }

  /** The NUL-terminated fields of an entry: its line, and a rename's original path. */
  function Fields(e: Entry): seq<Bytes> { if e.Renamed? then [Line(e), e.orig] else [Line(e)] }

  function AllFields(es: seq<Entry>): seq<Bytes>
    decreases |es|
  {
    if es == [] then [] else Fields(es[0]) + AllFields(es[1..])
  }

  /** Every field followed by a NUL. */
  function Terminated(fields: seq<Bytes>): Bytes
    decreases |fields|
  {
    if fields == [] then [] else fields[0] + [NUL] + Terminated(fields[1..])
  }

  function PrintAll(es: seq<Entry>): Bytes { Terminated(AllFields(es)) }

  /** No submodule, or one whose field is exactly `S...`. */
  predicate Clean(e: Entry) { e.Other? || e.sub == [] || e.sub[0] != 83 || e.sub == [83, 46, 46, 46] }

  lemma SubFieldOf(head: Bytes, xy: Bytes, sub: Bytes, rest: Option<Bytes>)
    requires Token(head) && Token(xy) && Token(sub)
    ensures SubField(TrackedLine(head, xy, sub, rest)) == Some(sub)
  {
    var tail := if rest.Some? then sub + [SP] + rest.value else sub;
    SplitCut(head, SP, xy + [SP] + tail);
    SplitCut(xy, SP, tail);
    if rest.Some? {
      SplitCut(sub, SP, rest.value);
    }
  }

  lemma LineShape(e: Entry)
    requires WellFormed(e)
    ensures Line(e) != [] && NUL !in Line(e)
    ensures e.Changed? ==> Line(e)[0] == ONE && SubField(Line(e)) == Some(e.sub)
    ensures e.Renamed? ==> Line(e)[0] == TWO && SubField(Line(e)) == Some(e.sub)
    ensures e.Other? ==> Line(e)[0] in OTHER_TYPES
  {
    if !e.Other? {
      SubFieldOf(e.head, e.xy, e.sub, e.rest);
      hide SubField;
      assert Line(e)[0] == e.head[0];
    }
  }

  ghost predicate NulFree(fields: seq<Bytes>) { forall i :: 0 <= i < |fields| ==> NUL !in fields[i] }

  lemma {:induction false} SplitTerminated(fields: seq<Bytes>)
    requires NulFree(fields)
    ensures Split(Terminated(fields), NUL) == fields + [[]]
    decreases |fields|
  {
    if fields == [] {
      assert Split(Terminated(fields), NUL) == [[]];
    } else {
      var rest := fields[1..];
      SplitTerminated(rest);
      SplitCut(fields[0], NUL, Terminated(rest));
      hide Split, Find;
      Reassociate([fields[0]], rest, [[]]);
      assert fields == [fields[0]] + rest;
    }
  }

  lemma TerminatedCons(a: Bytes, fields: seq<Bytes>)
    ensures Terminated([a] + fields) == a + [NUL] + Terminated(fields)
  {
    assert ([a] + fields)[1..] == fields;
  }

  lemma {:induction false} TerminatedSplit(s: Bytes)
    ensures Terminated(Split(s, NUL)) == s + [NUL] && NulFree(Split(s, NUL))
    decreases |s|
  {
    if NUL in s {
      var i := Find(s, NUL);
      var a, rest := s[..i], s[i + 1..];
      assert s == a + [NUL] + rest;
      TerminatedSplit(rest);
      SplitCut(a, NUL, rest);
      TerminatedCons(a, Split(rest, NUL));
      hide Split, Terminated, Find;
      assert a + [NUL] + (rest + [NUL]) == s + [NUL];
    } else {
      TerminatedCons(s, []);
      assert [s] + [] == [s];
    }
  }

  lemma {:induction false} TerminatedSnoc(fields: seq<Bytes>, last: Bytes)
    ensures Terminated(fields + [last]) == Terminated(fields) + last + [NUL]
    decreases |fields|
  {
    if fields != [] {
      assert (fields + [last])[1..] == fields[1..] + [last];
      TerminatedSnoc(fields[1..], last);
    } else {
      assert (fields + [last])[1..] == [];
    }
  }

  lemma AcceptsStep(e: Entry, tail: seq<Bytes>)
    requires WellFormed(e)
    ensures Accepts(Fields(e) + tail) <==> Clean(e) && Accepts(tail)
  {
    LineShape(e);
    hide SubField, Line, CleanSub;
    var segments := Fields(e) + tail;
    if e.Renamed? {
      assert segments[1] == e.orig && segments[2..] == tail;
    } else {
      assert segments[1..] == tail;
    }
  }

  ghost predicate AllWellFormed(es: seq<Entry>) { forall i :: 0 <= i < |es| ==> WellFormed(es[i]) }

  ghost predicate AllClean(es: seq<Entry>) { forall i :: 0 <= i < |es| ==> Clean(es[i]) }

  lemma Reassociate<T>(a: seq<T>, b: seq<T>, c: seq<T>)
    ensures a + b + c == a + (b + c)
  {
  }

  lemma CleanCons(es: seq<Entry>)
    requires es != []
    ensures AllClean(es) <==> Clean(es[0]) && AllClean(es[1..])
  {
    hide Clean;
    assert es == [es[0]] + es[1..];
  }

  lemma {:induction false} AcceptsFields(es: seq<Entry>, tail: seq<Bytes>)
    requires AllWellFormed(es) && Accepts(tail)
    ensures Accepts(AllFields(es) + tail) <==> AllClean(es)
    decreases |es|
  {
    hide Fields, WellFormed, Clean, Accepts;
    if es == [] {
      assert AllFields(es) + tail == tail;
    } else {
      var e, rest := es[0], es[1..];
      AcceptsFields(rest, tail);
      AcceptsStep(e, AllFields(rest) + tail);
      Reassociate(Fields(e), AllFields(rest), tail);
      CleanCons(es);
    }
  }

  lemma {:induction false} FieldsAreNulFree(es: seq<Entry>)
    requires AllWellFormed(es)
    ensures NulFree(AllFields(es)) && forall i :: 0 <= i < |AllFields(es)| ==> AllFields(es)[i] != []
    decreases |es|
  {
    if es != [] {
      LineShape(es[0]);
      hide Line, SubField;
      FieldsAreNulFree(es[1..]);
    }
  }

  /**
   Printed entries are accepted exactly when no submodule field starts with `S` and says
   anything but clean, whatever bytes a rename's original path holds.
   */
  lemma StatusExactly(es: seq<Entry>)
    requires AllWellFormed(es)
    ensures Accepts(Split(PrintAll(es), NUL)) <==> AllClean(es)
  {
    FieldsAreNulFree(es);
    SplitTerminated(AllFields(es));
    hide Split, AllFields;
    AcceptsFields(es, [[]]);
  }

  // ---------------------------------------------------------------- every accepted byte string

  lemma CutAt(record: Bytes) returns (a: Bytes, rest: Bytes)
    requires |Split(record, SP)| >= 2 && NUL !in record
    ensures Token(a) && NUL !in rest && record == a + [SP] + rest && Split(record, SP) == [a] + Split(rest, SP)
  {
    var i := Find(record, SP);
    a, rest := record[..i], record[i + 1..];
  }

  /** Cut a tracked record with at least three fields into an entry's parts. */
  lemma TrackedParts(record: Bytes) returns (head: Bytes, xy: Bytes, sub: Bytes, rest: Option<Bytes>)
    requires SubField(record).Some? && NUL !in record
    ensures Token(head) && Token(xy) && Token(sub) && (rest.Some? ==> NUL !in rest.value)
    ensures record == TrackedLine(head, xy, sub, rest) && SubField(record) == Some(sub)
  {
    var one, two;
    head, one := CutAt(record);
    xy, two := CutAt(one);
    if SP in two {
      var tail;
      sub, tail := CutAt(two);
      rest := Some(tail);
    } else {
      sub, rest := two, None;
    }
    hide Split, SubField;
    SubFieldOf(head, xy, sub, rest);
  }

  lemma HeadKeeps(head: Bytes, rest: Bytes)
    requires (head + [SP] + rest)[0] != SP
    ensures head != [] && head[0] == (head + [SP] + rest)[0]
  {
  }

  lemma EntryOfRecord(record: Bytes, orig: Bytes) returns (e: Entry)
    requires record != [] && NUL !in record && NUL !in orig
    requires record[0] in OTHER_TYPES
          || (record[0] in {ONE, TWO} && SubField(record).Some? && CleanSub(SubField(record).value) && (record[0] == TWO ==> orig != []))
    ensures WellFormed(e) && Clean(e) && Line(e) == record
    ensures e.Renamed? <==> record[0] == TWO
    ensures e.Renamed? ==> e.orig == orig
  {
    if record[0] in OTHER_TYPES {
      e := Other(record);
    } else {
      var head, xy, sub, rest := TrackedParts(record);
      hide SubField, CleanSub;
      HeadKeeps(head, xy + [SP] + (if rest.Some? then sub + [SP] + rest.value else sub));
      e := if record[0] == ONE then Changed(head, xy, sub, rest) else Renamed(head, xy, sub, rest, orig);
    }
  }

  /** Accepted segments are the fields of some clean entries, up to an empty last one. */
  lemma {:induction false} AcceptedHasEntries(segments: seq<Bytes>) returns (es: seq<Entry>)
    requires Accepts(segments) && NulFree(segments)
    ensures AllWellFormed(es) && AllClean(es) && (segments == AllFields(es) || segments == AllFields(es) + [[]])
    decreases |segments|
  {
    if segments == [] || segments[0] == [] {
      es := [];
    } else {
      var renamed := segments[0][0] == TWO;
      var e := EntryOfRecord(segments[0], if renamed then segments[1] else []);
      var n := if renamed then 2 else 1;
      var rest := AcceptedHasEntries(segments[n..]);
      hide SubField, CleanSub, WellFormed, Clean, Line, Accepts;
      assert segments == Fields(e) + segments[n..];
      es := [e] + rest;
      assert es[1..] == rest;
      hide Fields;
    }
  }

  /**
   For every byte string: it is accepted exactly when it is the printing of clean
   well-formed entries, with or without the very last NUL.
   */
  lemma AcceptedExactly(out: Bytes)
    ensures Accepts(Split(out, NUL)) <==>
            exists es: seq<Entry> :: AllWellFormed(es) && AllClean(es) && (PrintAll(es) == out || (es != [] && PrintAll(es) == out + [NUL]))
  {
    hide Accepts, Split, WellFormed, Clean, AllFields;
    if Accepts(Split(out, NUL)) {
      TerminatedSplit(out);
      var es := AcceptedHasEntries(Split(out, NUL));
      EntriesPrint(out, es);
    }
    if es: seq<Entry> :| AllWellFormed(es) && AllClean(es) && (PrintAll(es) == out || (es != [] && PrintAll(es) == out + [NUL])) {
      PrintingAccepted(out, es);
    }
  }

  lemma EntriesPrint(out: Bytes, es: seq<Entry>)
    requires Split(out, NUL) == AllFields(es) || Split(out, NUL) == AllFields(es) + [[]]
    ensures PrintAll(es) == out || (es != [] && PrintAll(es) == out + [NUL])
  {
    TerminatedSplit(out);
    hide Split, Terminated;
    if Split(out, NUL) == AllFields(es) {
      assert es != [];
    } else {
      TerminatedSnoc(AllFields(es), []);
      assert Terminated(AllFields(es)) + [] + [NUL] == Terminated(AllFields(es)) + [NUL];
      assert out == (out + [NUL])[..|out|];
      assert Terminated(AllFields(es)) == (Terminated(AllFields(es)) + [NUL])[..|out|];
    }
  }

  lemma PrintingAccepted(out: Bytes, es: seq<Entry>)
    requires AllWellFormed(es) && AllClean(es) && (PrintAll(es) == out || (es != [] && PrintAll(es) == out + [NUL]))
    ensures Accepts(Split(out, NUL))
  {
    FieldsAreNulFree(es);
    SplitTerminated(AllFields(es));
    if PrintAll(es) == out {
      StatusExactly(es);
    } else {
      SplitTrailing(out);
      hide Split, Accepts, Terminated;
      assert Split(out, NUL) == (Split(out, NUL) + [[]])[..|Split(out, NUL)|];
      assert AllFields(es) == (AllFields(es) + [[]])[..|AllFields(es)|];
      EmptyAccepted();
      AcceptsFields(es, []);
      assert AllFields(es) + [] == AllFields(es);
    }
  }

  lemma EmptyAccepted()
    ensures Accepts([])
  {
  }

  lemma {:induction false} SplitTrailing(s: Bytes)
    ensures Split(s + [NUL], NUL) == Split(s, NUL) + [[]]
  {
    TerminatedSplit(s);
    SplitTerminated(Split(s, NUL));
  }

  // ---------------------------------------------------------------- gitlinks

  /** One `ls-tree` record; the header is ASCII, the path any bytes. */
  datatype TreeEntry = TreeEntry(mode: Bytes, kind: Bytes, oid: Bytes, path: Bytes)

  predicate HeaderToken(t: Bytes) { Token(t) && TAB !in t }

  predicate GoodTreeEntry(e: TreeEntry) {
    HeaderToken(e.mode) && HeaderToken(e.kind) && HeaderToken(e.oid) && NUL !in e.path
  }

  function Header(e: TreeEntry): Bytes { e.mode + [SP] + (e.kind + [SP] + e.oid) }

  function TreeLine(e: TreeEntry): Bytes { Header(e) + [TAB] + e.path }

  function TreeListing(es: seq<TreeEntry>): Bytes
    decreases |es|
  {
    if es == [] then [] else TreeLine(es[0]) + [NUL] + TreeListing(es[1..])
  }

  /** Everything after the first two space-separated fields, if there is any. */
  function ThirdOnward(header: Bytes): Bytes {
    if SP !in header then []
    else
      var rest := header[Find(header, SP) + 1..];
      if SP !in rest then [] else rest[Find(rest, SP) + 1..]
  }

  /** The gitlink a record holds, if it is one. */
  function GitlinkOf(record: Bytes): Option<(Bytes, Bytes)> {
    if TAB !in record then None
    else
      var tab := Find(record, TAB);
      if Split(record[..tab], SP)[0] == GITLINK_MODE then Some((record[tab + 1..], ThirdOnward(record[..tab]))) else None
  }

  method GitlinkEntries(out: Bytes) returns (entries: set<(Bytes, Bytes)>)
    ensures forall g :: g in entries <==> exists r :: r in Split(out, NUL) && r != [] && GitlinkOf(r) == Some(g)
  {
    hide GitlinkOf, Find;
    entries := {};
    var records := Split(out, NUL);
    for i := 0 to |records|
      invariant forall g :: g in entries <==> exists r :: r in records[..i] && r != [] && GitlinkOf(r) == Some(g)
    {
      assert records[..i + 1] == records[..i] + [records[i]];
      ghost var before := entries;
      var record := records[i];
      var g := GitlinkOf(record);
      if record != [] && g.Some? {
        entries := entries + {g.value};
      }
      forall h | h in entries ensures exists r :: r in records[..i + 1] && r != [] && GitlinkOf(r) == Some(h) {
        if h in before {
          var r :| r in records[..i] && r != [] && GitlinkOf(r) == Some(h);
          assert r in records[..i + 1];
        } else {
          assert record in records[..i + 1];
        }
      }
    }
    assert records[..|records|] == records;
  }

  /** What an arbitrary record must look like to count as a gitlink of that path and object id. */
  ghost predicate ReadsAs(record: Bytes, path: Bytes, oid: Bytes) {
    exists rest :: TAB !in rest && record == [49, 54, 48, 48, 48, 48] + rest + [TAB] + path && RestReadsAs(rest, oid)
  }

  /** After the mode: nothing, or a space and the rest of the header. */
  ghost predicate RestReadsAs(rest: Bytes, oid: Bytes) {
    if rest == [] then oid == [] else rest[0] == SP && AfterReadsAs(rest[1..], oid)
  }

  /** A type alone, or a type, a space and everything up to the tab as the object id. */
  ghost predicate AfterReadsAs(after: Bytes, oid: Bytes) {
    (SP !in after && oid == []) || exists kind :: SP !in kind && after == kind + [SP] + oid
  }

  lemma FirstField(header: Bytes)
    ensures Split(header, SP)[0] == if SP in header then header[..Find(header, SP)] else header
  {
  }

  lemma HeaderCut(mode: Bytes, after: Bytes)
    requires SP !in mode
    ensures Split(mode + [SP] + after, SP)[0] == mode
    ensures ThirdOnward(mode + [SP] + after) == if SP !in after then [] else after[Find(after, SP) + 1..]
  {
    CutFinds(mode, SP, after);
    FirstField(mode + [SP] + after);
    hide Split, Find;
  }

  lemma AfterType(after: Bytes, oid: Bytes)
    ensures AfterReadsAs(after, oid) <==> (if SP !in after then [] else after[Find(after, SP) + 1..]) == oid
  {
    if SP in after {
      var kind := after[..Find(after, SP)];
      assert after == kind + [SP] + after[Find(after, SP) + 1..];
    }
    if kind :| SP !in kind && after == kind + [SP] + oid {
      CutFinds(kind, SP, oid);
    }
  }

  lemma HeaderJoins(mode: Bytes, rest: Bytes, oid: Bytes)
    requires SP !in mode && RestReadsAs(rest, oid)
    ensures Split(mode + rest, SP)[0] == mode && ThirdOnward(mode + rest) == oid
  {
    if rest == [] {
      assert mode + rest == mode;
      FirstField(mode);
    } else {
      hide Split, Find, ThirdOnward, AfterReadsAs;
      assert mode + rest == mode + [SP] + rest[1..];
      HeaderCut(mode, rest[1..]);
      AfterType(rest[1..], oid);
    }
  }

  lemma HeaderParts(header: Bytes) returns (mode: Bytes, rest: Bytes)
    ensures header == mode + rest && SP !in mode && mode == Split(header, SP)[0] && RestReadsAs(rest, ThirdOnward(header))
  {
    FirstField(header);
    hide Split;
    if SP !in header {
      mode, rest := header, [];
    } else {
      mode, rest := header[..Find(header, SP)], header[Find(header, SP)..];
      assert rest[1..] == header[Find(header, SP) + 1..];
      AfterType(rest[1..], ThirdOnward(header));
      hide AfterReadsAs, Find;
    }
  }

  lemma HeaderReads(header: Bytes, oid: Bytes)
    ensures Split(header, SP)[0] == GITLINK_MODE && ThirdOnward(header) == oid <==>
            |header| >= 6 && header[..6] == [49, 54, 48, 48, 48, 48] && RestReadsAs(header[6..], oid)
  {
    hide Split, ThirdOnward, RestReadsAs;
    var mode, rest := HeaderParts(header);
    if mode == GITLINK_MODE {
      assert header[..6] == mode && header[6..] == rest;
    }
    if |header| >= 6 && header[..6] == [49, 54, 48, 48, 48, 48] && RestReadsAs(header[6..], oid) {
      HeaderJoins(GITLINK_MODE, header[6..], oid);
      assert header == GITLINK_MODE + header[6..];
    }
  }

  /** The reader takes exactly those records, with the path after the first tab byte for byte. */
  lemma GitlinkOfExactly(record: Bytes, path: Bytes, oid: Bytes)
    ensures GitlinkOf(record) == Some((path, oid)) <==> ReadsAs(record, path, oid)
  {
    hide Split, ThirdOnward;
    if TAB in record {
      var tab := Find(record, TAB);
      var header := record[..tab];
      assert record == header + [TAB] + record[tab + 1..];
      HeaderReads(header, oid);
      if GitlinkOf(record) == Some((path, oid)) {
        assert header == [49, 54, 48, 48, 48, 48] + header[6..];
        assert record == [49, 54, 48, 48, 48, 48] + header[6..] + [TAB] + path;
      }
      if ReadsAs(record, path, oid) {
        var rest :| TAB !in rest && record == [49, 54, 48, 48, 48, 48] + rest + [TAB] + path && RestReadsAs(rest, oid);
        CutFinds([49, 54, 48, 48, 48, 48] + rest, TAB, path);
        assert header == [49, 54, 48, 48, 48, 48] + rest;
        assert header[6..] == rest;
      }
    }
  }

  lemma CutFinds(a: Bytes, sep: byte, rest: Bytes)
    requires sep !in a
    ensures var s := a + [sep] + rest; sep in s && Find(s, sep) == |a| && s[..|a|] == a && s[|a| + 1..] == rest
  {
    var s := a + [sep] + rest;
    assert s[..|a|] == a && s[|a|] == sep;
    FindIs(s, sep, |a|);
  }

  lemma HeaderClean(e: TreeEntry)
    requires GoodTreeEntry(e)
    ensures TAB !in Header(e) && NUL !in Header(e)
  {
  }

  lemma HeaderMode(e: TreeEntry)
    requires GoodTreeEntry(e)
    ensures Split(Header(e), SP)[0] == e.mode
  {
    SplitCut(e.mode, SP, e.kind + [SP] + e.oid);
  }

  lemma HeaderOid(e: TreeEntry)
    requires GoodTreeEntry(e)
    ensures ThirdOnward(Header(e)) == e.oid
  {
    CutFinds(e.mode, SP, e.kind + [SP] + e.oid);
    CutFinds(e.kind, SP, e.oid);
    hide Find;
  }

  lemma GitlinkOfLine(e: TreeEntry)
    requires GoodTreeEntry(e)
    ensures GitlinkOf(TreeLine(e)) == if e.mode == GITLINK_MODE then Some((e.path, e.oid)) else None
  {
    HeaderClean(e);
    HeaderMode(e);
    HeaderOid(e);
    CutFinds(Header(e), TAB, e.path);
    hide Header, Find, Split, ThirdOnward;
  }

  lemma {:induction false} SplitListing(es: seq<TreeEntry>)
    requires forall i :: 0 <= i < |es| ==> GoodTreeEntry(es[i])
    ensures forall r :: r in Split(TreeListing(es), NUL) && r != [] <==> exists e :: e in es && TreeLine(e) == r
    decreases |es|
  {
    if es == [] {
      assert Split(TreeListing(es), NUL) == [[]];
    } else {
      var e, rest := es[0], es[1..];
      SplitListing(rest);
      assert NUL !in TreeLine(e);
      SplitCut(TreeLine(e), NUL, TreeListing(rest));
      assert TreeLine(e) != [];
      hide TreeLine, Split, GoodTreeEntry;
      assert es == [e] + rest;
      var segments := [TreeLine(e)] + Split(TreeListing(rest), NUL);
      forall r | r in segments && r != [] ensures exists x :: x in es && TreeLine(x) == r {
        if r == TreeLine(e) {
          assert e in es;
        } else {
          var x :| x in rest && TreeLine(x) == r;
          assert x in es;
        }
      }
    }
  }

  function Gitlinks(es: seq<TreeEntry>): set<(Bytes, Bytes)> {
    set e | e in es && e.mode == [49, 54, 48, 48, 48, 48] :: (e.path, e.oid)
  }

  /** Reading a printed listing back gives exactly its submodule entries, paths byte for byte. */
  method ReadListing(es: seq<TreeEntry>) returns (entries: set<(Bytes, Bytes)>)
    requires forall i :: 0 <= i < |es| ==> GoodTreeEntry(es[i])
    ensures entries == Gitlinks(es)
  {
    entries := GitlinkEntries(TreeListing(es));
    SplitListing(es);
    forall e | e in es ensures GitlinkOf(TreeLine(e)) == if e.mode == GITLINK_MODE then Some((e.path, e.oid)) else None {
      GitlinkOfLine(e);
    }
    hide Split, TreeListing, GitlinkOf, TreeLine;
  }

  function GitlinkMap(es: seq<TreeEntry>): map<Bytes, Bytes>
    requires forall e, f :: e in es && f in es && e.path == f.path ==> e == f
  {
    map e | e in es && e.mode == [49, 54, 48, 48, 48, 48] :: e.path := e.oid
  }

  /** The policy check accepts exactly when base and candidate have the same gitlink map. */
  method NoGitlinkMutation(base: seq<TreeEntry>, candidate: seq<TreeEntry>) returns (ok: bool)
    requires forall i :: 0 <= i < |base| ==> GoodTreeEntry(base[i])
    requires forall i :: 0 <= i < |candidate| ==> GoodTreeEntry(candidate[i])
    requires forall e, f :: e in base && f in base && e.path == f.path ==> e == f
    requires forall e, f :: e in candidate && f in candidate && e.path == f.path ==> e == f
    ensures ok <==> GitlinkMap(base) == GitlinkMap(candidate)
  {
    hide GoodTreeEntry;
    var b := ReadListing(base);
    var c := ReadListing(candidate);
    ok := b == c;
    SetsAreMaps(base, candidate);
  }

  lemma SetsAreMaps(base: seq<TreeEntry>, candidate: seq<TreeEntry>)
    requires forall e, f :: e in base && f in base && e.path == f.path ==> e == f
    requires forall e, f :: e in candidate && f in candidate && e.path == f.path ==> e == f
    ensures Gitlinks(base) == Gitlinks(candidate) <==> GitlinkMap(base) == GitlinkMap(candidate)
  {
    forall p, o ensures (p, o) in Gitlinks(base) <==> p in GitlinkMap(base) && GitlinkMap(base)[p] == o {}
    forall p, o ensures (p, o) in Gitlinks(candidate) <==> p in GitlinkMap(candidate) && GitlinkMap(candidate)[p] == o {}
    if Gitlinks(base) == Gitlinks(candidate) {
      forall p ensures p in GitlinkMap(base) <==> p in GitlinkMap(candidate) {
        if p in GitlinkMap(base) {
          assert (p, GitlinkMap(base)[p]) in Gitlinks(candidate);
        }
        if p in GitlinkMap(candidate) {
          assert (p, GitlinkMap(candidate)[p]) in Gitlinks(base);
        }
      }
      assert GitlinkMap(base) == GitlinkMap(candidate);
    }
    if GitlinkMap(base) == GitlinkMap(candidate) {
      forall g ensures g in Gitlinks(base) <==> g in Gitlinks(candidate) {
        assert g == (g.0, g.1);
      }
    }
  }
}
