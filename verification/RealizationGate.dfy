/**
 The three-way wire realization gate (`tools/a1_v2_ledger_gate.py`, `run_steps`) over the
 frozen graph, the facts extracted from the schema and the declared carriers. Rows have
 all five columns, which loading guarantees; report texts are not modelled.
 */
module RealizationGate {
  import opened Base

  datatype Edge = Edge(source: string, target: string, cls: string)

  /** A payload is the name of a payload kind, or nothing. */
  datatype Graph = Graph(
    eventKinds: seq<string>, edges: seq<Edge>, metaTargets: map<string, seq<string>>, expectedPayload: map<string, Option<string>>)

  datatype Field = Field(path: string, source: string, allowed: seq<string>)

  datatype Schema = Schema(
    drafted: bool, eventKinds: seq<string>, presence: map<string, Option<string>>,
    commitments: map<string, string>, fields: seq<Field>)

  /** The two roles a carrier may play, or any other spelling. */
  datatype Role = ArtifactRef | EventPayloadDigest | Unknown(spelling: string)

  datatype Carrier = Carrier(source: string, target: string, cls: string, kind: Role, path: string)

  const WRAP := "CampaignEvent("

  // ---------------------------------------------------------------- vocabulary

  function Elements<T>(s: seq<T>): set<T> { set x | x in s }

  ghost predicate NoDuplicates<T(!new)>(s: seq<T>) { forall i, j :: 0 <= i < j < |s| ==> s[i] != s[j] }

  function CampaignEvent(kind: string): string { WRAP + kind + ")" }

  /** The event kind a carrier source names: the wrapper stripped, or the source itself. */
  function KindOf(source: string): string {
    if WRAP <= source then (if |source| > |WRAP| then source[|WRAP|..|source| - 1] else "") else source
  }

  /** A payload value that counts as one: neither absent nor empty. */
  predicate Bears(v: Option<string>) { v.Some? && v.value != "" }

  function RequiredPairs(g: Graph): set<(string, string)> {
    set k | k in g.expectedPayload && Bears(g.expectedPayload[k]) :: (CampaignEvent(k), g.expectedPayload[k].value)
  }

  function RequiredSources(g: Graph): set<string> {
    set k | k in g.expectedPayload && Bears(g.expectedPayload[k]) :: CampaignEvent(k)
  }

  function CommittedSources(s: Schema): set<string> { set k | k in s.commitments :: CampaignEvent(k) }

  /** The concrete kinds a target stands for. */
  function Expand(g: Graph, target: string): set<string> {
    if target in g.metaTargets then Elements(g.metaTargets[target]) else {target}
  }

  function Triple(c: Carrier): Edge { Edge(c.source, c.target, c.cls) }

  function Lookup(m: map<string, Option<string>>, k: string, missing: string): Option<string> {
    if k in m then m[k] else Some(missing)
  }

  predicate IsDigest(c: Carrier) { c.kind.EventPayloadDigest? }

  predicate IsRef(c: Carrier) { c.kind.ArtifactRef? }

  // ---------------------------------------------------------------- what each check means

  /** Class is a function of source and target in the frozen graph. */
  ghost predicate ClassDetermined(edges: seq<Edge>) {
    forall e, f :: e in edges && f in edges && e.source == f.source && e.target == f.target ==> e.cls == f.cls
  }

  ghost predicate LedgerWellFormed(cs: seq<Carrier>) {
    (forall c :: c in cs ==> IsDigest(c) || IsRef(c)) && NoDuplicates(cs)
  }

  function Paths(fields: seq<Field>): seq<string> { seq(|fields|, i requires 0 <= i < |fields| => fields[i].path) }

  ghost predicate SchemaWellFormed(s: Schema) { NoDuplicates(s.eventKinds) && NoDuplicates(Paths(s.fields)) }

  predicate KindsAgree(g: Graph, s: Schema) { Elements(s.eventKinds) == Elements(g.eventKinds) }

  predicate PresenceAgrees(g: Graph, s: Schema) {
    forall k :: k in Elements(g.eventKinds) + s.presence.Keys ==>
      Lookup(g.expectedPayload, k, "<kind not frozen>") == Lookup(s.presence, k, "<absent from schema>")
  }

  /** The digest rows for one source and target. */
  function DigestRows(cs: seq<Carrier>, pair: (string, string)): set<Carrier> {
    set c | c in cs && IsDigest(c) && (c.source, c.target) == pair
  }

  function DigestPairs(cs: seq<Carrier>): seq<(string, string)>
    decreases |cs|
  {
    if cs == [] then []
    else
      var n := |cs| - 1;
      DigestPairs(cs[..n]) + if IsDigest(cs[n]) then [(cs[n].source, cs[n].target)] else []
  }

  /** Exactly one digest row for each required pair, none for any other. */
  ghost predicate DigestsCounted(g: Graph, cs: seq<Carrier>) {
    forall pair :: multiset(DigestPairs(cs))[pair] == if pair in RequiredPairs(g) then 1 else 0
  }

  predicate AtCommittedPath(s: Schema, c: Carrier) {
    KindOf(c.source) in s.commitments && c.path == s.commitments[KindOf(c.source)]
  }

  predicate DigestPathsAgree(s: Schema, cs: seq<Carrier>) {
    forall c :: c in cs && IsDigest(c) ==> AtCommittedPath(s, c)
  }

  function RefsAt(cs: seq<Carrier>, path: string): set<Carrier> { set c | c in cs && IsRef(c) && c.path == path }

  function DeclaredAt(g: Graph, cs: seq<Carrier>, path: string): set<string> {
    set c, t | c in RefsAt(cs, path) && t in Expand(g, c.target) :: t
  }

  /** Source and whole target domain of one field are those of the carriers at its path. */
  predicate FieldRealized(g: Graph, cs: seq<Carrier>, f: Field) {
    && RefsAt(cs, f.path) != {}
    && (forall c :: c in RefsAt(cs, f.path) ==> c.source == f.source)
    && DeclaredAt(g, cs, f.path) == Elements(f.allowed)
  }

  ghost predicate FieldsRealized(g: Graph, s: Schema, cs: seq<Carrier>) {
    && (forall f :: f in s.fields ==> FieldRealized(g, cs, f))
    && (forall c :: c in cs && IsRef(c) ==> exists f :: f in s.fields && f.path == c.path)
  }

  predicate Forward(g: Graph, cs: seq<Carrier>) { cs != [] && forall c :: c in cs ==> Triple(c) in g.edges }

  ghost predicate Reverse(g: Graph, cs: seq<Carrier>) {
    forall e :: e in g.edges ==> exists c :: c in cs && Triple(c) == e
  }

  ghost predicate PayloadMapRealized(g: Graph, s: Schema, cs: seq<Carrier>) {
    && PresenceAgrees(g, s) && CommittedSources(s) == RequiredSources(g)
    && DigestsCounted(g, cs) && DigestPathsAgree(s, cs)
  }

  /** Everything the gate asks of the realization. */
  ghost predicate Realized(g: Graph, s: Schema, cs: seq<Carrier>) {
    && SchemaWellFormed(s) && LedgerWellFormed(cs)
    && s.drafted && KindsAgree(g, s) && PayloadMapRealized(g, s, cs) && FieldsRealized(g, s, cs)
    && Forward(g, cs) && Reverse(g, cs)
  }

  /** The verdict as a number: no answer, realized, or not. */
  ghost function Verdict(g: Graph, s: Schema, cs: seq<Carrier>): int {
    if !ClassDetermined(g.edges) then 2 else if Realized(g, s, cs) then 0 else 1
  }

  // ---------------------------------------------------------------- the gate itself

  class Report {
    var failed: bool
    var errored: bool

    constructor ()
      ensures !failed && !errored
    {
      failed, errored := false, false;
    }

    /** A failed check fails the target, unless it shows that the gate itself cannot judge. */
    method Add(ok: bool, error: bool)
      modifies this
      ensures failed == (old(failed) || (!ok && !error))
      ensures errored == (old(errored) || (!ok && error))
    {
      if !ok {
        if error {
          errored := true;
        } else {
          failed := true;
        }
      }
    }

    function ExitCode(): int
      reads this
    {
      if errored then 2 else if failed then 1 else 0
    }
  }

  /** A counter dictionary over a list. */
  method CountAll<T(==)>(s: seq<T>) returns (counts: map<T, nat>)
    ensures forall x :: x in counts <==> x in s
    ensures forall x :: x in counts ==> counts[x] == multiset(s)[x]
  {
    counts := map[];
    for i := 0 to |s|
      invariant forall x :: x in counts <==> x in s[..i]
      invariant forall x :: x in counts ==> counts[x] == multiset(s[..i])[x]
    {
      assert s[..i + 1] == s[..i] + [s[i]];
      counts := counts[s[i] := (if s[i] in counts then counts[s[i]] else 0) + 1];
    }
    assert s[..|s|] == s;
  }

  lemma {:induction false} OnceEach<T(!new)>(s: seq<T>)
    ensures NoDuplicates(s) <==> forall x :: x in s ==> multiset(s)[x] <= 1
    decreases |s|
  {
    if s != [] {
      var n := |s| - 1;
      var init, last := s[..n], s[n];
      assert s == init + [last];
      OnceEach(init);
      assert multiset(s) == multiset(init) + multiset{last};
      if NoDuplicates(s) {
        assert last !in init;
      }
      if forall x :: x in s ==> multiset(s)[x] <= 1 {
        assert last in s;
        assert multiset(init)[last] == 0;
        assert last !in init;
        forall x | x in init ensures multiset(init)[x] <= 1 {
          assert x in s;
        }
      }
    }
  }

  method ClassesDetermined(edges: seq<Edge>) returns (ok: bool)
    ensures ok <==> ClassDetermined(edges)
  {
    var pairClass: map<(string, string), set<string>> := map[];
    for i := 0 to |edges|
      invariant forall e :: e in edges[..i] ==> (e.source, e.target) in pairClass && e.cls in pairClass[(e.source, e.target)]
      invariant forall p, k :: p in pairClass && k in pairClass[p] ==> Edge(p.0, p.1, k) in edges[..i]
    {
      assert edges[..i + 1] == edges[..i] + [edges[i]];
      var p := (edges[i].source, edges[i].target);
      pairClass := pairClass[p := (if p in pairClass then pairClass[p] else {}) + {edges[i].cls}];
    }
    assert edges[..|edges|] == edges;
    ok := forall p | p in pairClass :: |pairClass[p]| <= 1;
    if ok {
      forall e, f | e in edges && f in edges && e.source == f.source && e.target == f.target ensures e.cls == f.cls {
        AtMostOne(pairClass[(e.source, e.target)], e.cls, f.cls);
      }
    } else {
      var p :| p in pairClass && |pairClass[p]| > 1;
      var a, b := TwoOf(pairClass[p]);
      assert Edge(p.0, p.1, a) in edges && Edge(p.0, p.1, b) in edges;
    }
  }

  lemma AtMostOne<T>(s: set<T>, a: T, b: T)
    requires |s| <= 1 && a in s && b in s
    ensures a == b
  {
    assert |s - {a}| == |s| - 1;
    assert s - {a} == {};
  }

  lemma TwoOf<T>(s: set<T>) returns (a: T, b: T)
    requires |s| > 1
    ensures a in s && b in s && a != b
  {
    a :| a in s;
    assert |s - {a}| >= 1;
    b :| b in s - {a};
  }

  method LedgerCheck(cs: seq<Carrier>) returns (ok: bool)
    ensures ok <==> LedgerWellFormed(cs)
  {
    ok := true;
    for i := 0 to |cs|
      invariant ok <==> forall c :: c in cs[..i] ==> IsDigest(c) || IsRef(c)
    {
      assert cs[..i + 1] == cs[..i] + [cs[i]];
      assert cs[i] in cs[..i + 1];
      if cs[i].kind.Unknown? {
        ok := false;
      }
    }
    assert cs[..|cs|] == cs;
    var rowCount := CountAll(cs);
    OnceEach(cs);
    if exists row | row in rowCount :: rowCount[row] > 1 {
      ok := false;
    }
  }

  method SchemaCheck(s: Schema) returns (ok: bool)
    ensures ok <==> SchemaWellFormed(s)
  {
    var kindCount := CountAll(s.eventKinds);
    var pathCount := CountAll(Paths(s.fields));
    OnceEach(s.eventKinds);
    OnceEach(Paths(s.fields));
    ok := (forall k | k in kindCount :: kindCount[k] <= 1) && (forall q | q in pathCount :: pathCount[q] <= 1);
  }

  /** The source and target column of the digest rows. */
  method DigestColumn(cs: seq<Carrier>) returns (pairs: seq<(string, string)>)
    ensures pairs == DigestPairs(cs)
  {
    pairs := [];
    for i := 0 to |cs|
      invariant pairs == DigestPairs(cs[..i])
    {
      assert cs[..i + 1][..i] == cs[..i];
      if IsDigest(cs[i]) {
        pairs := pairs + [(cs[i].source, cs[i].target)];
      }
    }
    assert cs[..|cs|] == cs;
  }

  method DigestPathCheck(s: Schema, cs: seq<Carrier>) returns (ok: bool)
    ensures ok <==> DigestPathsAgree(s, cs)
  {
    hide AtCommittedPath;
    for i := 0 to |cs|
      invariant DigestPathsAgree(s, cs[..i])
    {
      assert cs[..i + 1] == cs[..i] + [cs[i]];
      if IsDigest(cs[i]) && !AtCommittedPath(s, cs[i]) {
        assert cs[i] in cs;
        return false;
      }
    }
    assert cs[..|cs|] == cs;
    ok := true;
  }

  method PayloadCheck(g: Graph, s: Schema, cs: seq<Carrier>) returns (ok: bool)
    ensures ok <==> PayloadMapRealized(g, s, cs)
  {
    hide DigestPairs, DigestPathsAgree, RequiredPairs, PresenceAgrees;
    var pairs := DigestColumn(cs);
    var pathsOk := DigestPathCheck(s, cs);
    var structCount := CountAll(pairs);
    var required := RequiredPairs(g);
    var countsOk := forall pair | pair in required + structCount.Keys ::
      (if pair in structCount then structCount[pair] else 0) == (if pair in required then 1 else 0);
    forall pair ensures multiset(pairs)[pair] == if pair in structCount then structCount[pair] else 0 {
      assert pair in multiset(pairs) <==> pair in pairs;
    }
    ok := PresenceAgrees(g, s) && CommittedSources(s) == RequiredSources(g) && countsOk && pathsOk;
  }

  /** Fields and carriers indexed by path; the last fact row for a path wins. */
  method FieldCheck(g: Graph, s: Schema, cs: seq<Carrier>) returns (ok: bool)
    ensures SchemaWellFormed(s) ==> (ok <==> FieldsRealized(g, s, cs))
  {
    var schemaFields: map<string, Field> := map[];
    for i := 0 to |s.fields|
      invariant forall q :: q in schemaFields ==> schemaFields[q] in s.fields[..i] && schemaFields[q].path == q
      invariant forall f :: f in s.fields[..i] ==> f.path in schemaFields
    {
      assert s.fields[..i + 1] == s.fields[..i] + [s.fields[i]];
      schemaFields := schemaFields[s.fields[i].path := s.fields[i]];
    }
    assert s.fields[..|s.fields|] == s.fields;
    var byPath := CarriersByPath(cs);
    ok := (forall q | q in byPath :: q in schemaFields)
      && (forall q | q in schemaFields :: q in byPath && FieldRealized(g, cs, schemaFields[q]));
    if SchemaWellFormed(s) {
      IndexLosesNothing(s, schemaFields);
      assert forall c :: c in cs && IsRef(c) ==> c in RefsAt(cs, c.path);
    }
  }

  method CarriersByPath(cs: seq<Carrier>) returns (byPath: map<string, set<Carrier>>)
    ensures forall q :: q in byPath <==> RefsAt(cs, q) != {}
    ensures forall q :: q in byPath ==> byPath[q] == RefsAt(cs, q)
  {
    byPath := map[];
    for i := 0 to |cs|
      invariant forall q :: q in byPath <==> RefsAt(cs[..i], q) != {}
      invariant forall q :: q in byPath ==> byPath[q] == RefsAt(cs[..i], q)
    {
      assert cs[..i + 1] == cs[..i] + [cs[i]];
      ghost var before := byPath;
      var c := cs[i];
      if IsRef(c) {
        byPath := byPath[c.path := (if c.path in byPath then byPath[c.path] else {}) + {c}];
      }
      forall q ensures RefsAt(cs[..i + 1], q) == RefsAt(cs[..i], q) + (if IsRef(c) && c.path == q then {c} else {}) {
        RefsAtSnoc(cs[..i], c, q);
      }
    }
    assert cs[..|cs|] == cs;
  }

  lemma RefsAtSnoc(cs: seq<Carrier>, c: Carrier, q: string)
    ensures RefsAt(cs + [c], q) == RefsAt(cs, q) + (if IsRef(c) && c.path == q then {c} else {})
  {
  }

  /** With one row per path, indexing by path keeps every row. */
  lemma IndexLosesNothing(s: Schema, byPath: map<string, Field>)
    requires NoDuplicates(Paths(s.fields))
    requires forall q :: q in byPath ==> byPath[q] in s.fields && byPath[q].path == q
    requires forall f :: f in s.fields ==> f.path in byPath
    ensures forall f :: f in s.fields ==> byPath[f.path] == f
  {
    forall f | f in s.fields ensures byPath[f.path] == f {
      var i :| 0 <= i < |s.fields| && s.fields[i] == f;
      var j :| 0 <= j < |s.fields| && s.fields[j] == byPath[f.path];
      assert Paths(s.fields)[i] == Paths(s.fields)[j];
    }
  }

  /** The steps in order over three loaded terms. */
  method RunSteps(g: Graph, s: Schema, cs: seq<Carrier>, r: Report)
    modifies r
    ensures r.errored == (old(r.errored) || !ClassDetermined(g.edges))
    ensures r.failed == (old(r.failed) || !Realized(g, s, cs))
  {
    var premise := ClassesDetermined(g.edges);
    if !premise {
      r.Add(false, true);
    }
    var schemaOk := SchemaCheck(s);
    if s.eventKinds != [] || s.fields != [] {
      r.Add(schemaOk, false);
    }
    var ledgerOk := LedgerCheck(cs);
    if cs != [] {
      r.Add(ledgerOk, false);
    }
    if !s.drafted {
      r.Add(false, false);
      r.Add(false, false);
      r.Add(false, false);
    } else {
      r.Add(KindsAgree(g, s), false);
      var payloads := PayloadCheck(g, s, cs);
      r.Add(payloads, false);
      var fields := FieldCheck(g, s, cs);
      r.Add(fields, false);
    }
    if cs == [] {
      r.Add(false, false);
    } else {
      r.Add(forall c | c in cs :: Triple(c) in g.edges, false);
    }
    var carried := set c | c in cs :: Triple(c);
    r.Add(forall e | e in g.edges :: e in carried, false);
  }

  /** A fresh run exits 0 exactly on a realization, 1 exactly on anything else, 2 when it cannot judge. */
  method Gate(g: Graph, s: Schema, cs: seq<Carrier>) returns (code: int)
    ensures code == Verdict(g, s, cs)
  {
    var r := new Report();
    RunSteps(g, s, cs, r);
    code := r.ExitCode();
  }

  // ---------------------------------------------------------------- what PASS means

  lemma WrapInjective(k: string, j: string)
    requires CampaignEvent(k) == CampaignEvent(j)
    ensures k == j
  {
    KindOfWrapped(k);
    KindOfWrapped(j);
  }

  lemma KindOfWrapped(k: string)
    ensures KindOf(CampaignEvent(k)) == k
  {
    var src := CampaignEvent(k);
    assert src[..|WRAP|] == WRAP;
    assert src[|WRAP|..|src| - 1] == k;
  }

  /** With distinct rows the digest counters are the sizes of row sets. */
  lemma {:induction false} CountsAreRows(cs: seq<Carrier>, pair: (string, string))
    requires NoDuplicates(cs)
    ensures multiset(DigestPairs(cs))[pair] == |DigestRows(cs, pair)|
    decreases |cs|
  {
    if cs != [] {
      var n := |cs| - 1;
      var init, c := cs[..n], cs[n];
      CountsAreRows(init, pair);
      assert c !in DigestRows(init, pair);
      RowsSnoc(init, c, pair);
      hide DigestRows, NoDuplicates;
      assert cs == init + [c];
      assert DigestPairs(cs) == DigestPairs(init) + if IsDigest(c) then [(c.source, c.target)] else [];
    }
  }

  lemma RowsSnoc(cs: seq<Carrier>, c: Carrier, pair: (string, string))
    ensures DigestRows(cs + [c], pair)
            == if IsDigest(c) && (c.source, c.target) == pair then DigestRows(cs, pair) + {c} else DigestRows(cs, pair)
  {
  }

  /** Carriers and frozen edges are the same relations, class included. */
  lemma TriplesAreEdges(g: Graph, s: Schema, cs: seq<Carrier>)
    requires Verdict(g, s, cs) == 0
    ensures (set c | c in cs :: Triple(c)) == Elements(g.edges)
  {
    forall e | e in g.edges ensures e in set c | c in cs :: Triple(c) {
      var c :| c in cs && Triple(c) == e;
    }
  }

  /** Digest rows only ever run from a payload-bearing kind to its own payload, at the schema's path. */
  lemma DigestRowIsRequired(g: Graph, s: Schema, cs: seq<Carrier>, c: Carrier)
    requires Realized(g, s, cs) && c in cs && IsDigest(c)
    ensures exists k :: k in g.expectedPayload && Bears(g.expectedPayload[k])
                        && c.source == CampaignEvent(k) && c.target == g.expectedPayload[k].value
                        && k in s.commitments && c.path == s.commitments[k]
  {
    var pair := (c.source, c.target);
    CountsAreRows(cs, pair);
    assert c in DigestRows(cs, pair);
    assert pair in RequiredPairs(g);
    var k :| k in g.expectedPayload && Bears(g.expectedPayload[k]) && pair == (CampaignEvent(k), g.expectedPayload[k].value);
    KindOfWrapped(k);
  }

  /** Each payload-bearing kind has exactly one digest row, to its own payload, at the schema's path. */
  lemma OneDigestPerPayload(g: Graph, s: Schema, cs: seq<Carrier>, k: string) returns (i: nat)
    requires Verdict(g, s, cs) == 0 && k in g.expectedPayload && Bears(g.expectedPayload[k])
    ensures i < |cs| && IsDigest(cs[i]) && cs[i].source == CampaignEvent(k) && cs[i].target == g.expectedPayload[k].value
    ensures k in s.commitments && cs[i].path == s.commitments[k]
    ensures forall j :: 0 <= j < |cs| && IsDigest(cs[j]) && cs[j].source == CampaignEvent(k) ==> j == i
  {
    var pair := (CampaignEvent(k), g.expectedPayload[k].value);
    assert pair in RequiredPairs(g);
    CountsAreRows(cs, pair);
    var c :| c in DigestRows(cs, pair);
    i :| 0 <= i < |cs| && cs[i] == c;
    SoleRow(g, s, cs, k, c);
    forall j | 0 <= j < |cs| && IsDigest(cs[j]) && cs[j].source == CampaignEvent(k) ensures j == i {
      SoleRow(g, s, cs, k, cs[j]);
      assert Triple(cs[i]) in g.edges && Triple(cs[j]) in g.edges;
      assert cs[i] == cs[j];
    }
  }

  lemma SoleRow(g: Graph, s: Schema, cs: seq<Carrier>, k: string, c: Carrier)
    requires Realized(g, s, cs) && c in cs && IsDigest(c) && c.source == CampaignEvent(k)
    ensures k in g.expectedPayload && g.expectedPayload[k] == Some(c.target) && k in s.commitments && c.path == s.commitments[k]
  {
    DigestRowIsRequired(g, s, cs, c);
    var j :| j in g.expectedPayload && Bears(g.expectedPayload[j]) && c.source == CampaignEvent(j)
      && c.target == g.expectedPayload[j].value && j in s.commitments && c.path == s.commitments[j];
    WrapInjective(k, j);
  }

  /**
   What a field may carry, exactly: the members of every meta-target and every plain target
   that the reference carriers at its path name, and nothing else.
   */
  lemma FieldTargetsExactly(g: Graph, s: Schema, cs: seq<Carrier>, f: Field, t: string)
    requires Verdict(g, s, cs) == 0 && f in s.fields
    ensures t in f.allowed <==>
            exists c :: c in cs && c.kind == ArtifactRef && c.path == f.path
                        && ((c.target in g.metaTargets && t in g.metaTargets[c.target]) || (c.target !in g.metaTargets && t == c.target))
    ensures forall c :: c in cs && c.kind == ArtifactRef && c.path == f.path ==> c.source == f.source
  {
    FieldAgrees(g, cs, f);
    hide FieldRealized, DigestPairs, NoDuplicates, PayloadMapRealized;
    if t in f.allowed {
      var c :| c in cs && c.kind == ArtifactRef && c.path == f.path && StandsFor(g, c.target, t);
    }
    if c :| c in cs && c.kind == ArtifactRef && c.path == f.path
            && ((c.target in g.metaTargets && t in g.metaTargets[c.target]) || (c.target !in g.metaTargets && t == c.target)) {
      assert StandsFor(g, c.target, t);
    }
  }

  /** Nothing a schema field may carry is unlicensed by a frozen edge from that field's source. */
  lemma TargetsAreLicensed(g: Graph, s: Schema, cs: seq<Carrier>, f: Field, t: string)
    requires Verdict(g, s, cs) == 0 && f in s.fields && t in f.allowed
    ensures exists e :: e in g.edges && e.source == f.source
                        && ((e.target in g.metaTargets && t in g.metaTargets[e.target]) || (e.target !in g.metaTargets && t == e.target))
  {
    FieldTargetsExactly(g, s, cs, f, t);
    var c :| c in cs && c.kind == ArtifactRef && c.path == f.path
      && ((c.target in g.metaTargets && t in g.metaTargets[c.target]) || (c.target !in g.metaTargets && t == c.target));
    assert Triple(c) in g.edges;
  }

  /** Every edge that is not a payload relation is carried by an extracted field of its source. */
  lemma OtherEdgesAreFields(g: Graph, s: Schema, cs: seq<Carrier>, e: Edge)
    requires Verdict(g, s, cs) == 0 && e in g.edges
    requires !exists k :: k in g.expectedPayload && g.expectedPayload[k] == Some(e.target) && e.target != "" && e.source == CampaignEvent(k)
    ensures exists c, f :: c in cs && c.kind == ArtifactRef && Triple(c) == e && f in s.fields && f.path == c.path
                           && f.source == e.source
                           && (if e.target in g.metaTargets then forall t :: t in g.metaTargets[e.target] ==> t in f.allowed
                               else e.target in f.allowed)
  {
    var c :| c in cs && Triple(c) == e;
    if IsDigest(c) {
      DigestRowIsRequired(g, s, cs, c);
    }
    var f :| f in s.fields && f.path == c.path;
    FieldAgrees(g, cs, f);
    hide FieldRealized, PayloadMapRealized, NoDuplicates;
    assert forall t :: StandsFor(g, c.target, t) ==> t in f.allowed;
    if e.target !in g.metaTargets {
      assert StandsFor(g, c.target, e.target);
    } else {
      forall t | t in g.metaTargets[e.target] ensures t in f.allowed {
        assert StandsFor(g, c.target, t);
      }
    }
  }

  /** Leaving the class out of the field check loses nothing: no path carries one relation twice. */
  lemma ClassFreeKeyIsAdequate(g: Graph, cs: seq<Carrier>, i: nat, j: nat)
    requires ClassDetermined(g.edges) && Forward(g, cs) && NoDuplicates(cs)
    requires i < |cs| && j < |cs| && IsRef(cs[i]) && IsRef(cs[j])
    requires cs[i].path == cs[j].path && cs[i].source == cs[j].source && cs[i].target == cs[j].target
    ensures i == j
  {
    assert cs[i] in cs && cs[j] in cs;
    assert Triple(cs[i]) in g.edges && Triple(cs[j]) in g.edges;
  }

  // ---------------------------------------------------------------- exit 0, written out

  ghost predicate RowsMatch(s: Schema, cs: seq<Carrier>) {
    && cs != [] && (forall c :: c in cs ==> c.kind in {ArtifactRef, EventPayloadDigest})
    && (forall i, j :: 0 <= i < |cs| && 0 <= j < |cs| && cs[i] == cs[j] ==> i == j)
    && (forall i, j :: 0 <= i < |s.eventKinds| && 0 <= j < |s.eventKinds| && s.eventKinds[i] == s.eventKinds[j] ==> i == j)
    && (forall i, j :: 0 <= i < |s.fields| && 0 <= j < |s.fields| && s.fields[i].path == s.fields[j].path ==> i == j)
  }

  /** Schema and graph have the same kinds and payloads, and exactly the bearing kinds are committed. */
  ghost predicate PayloadsMatch(g: Graph, s: Schema) {
    && (forall k :: k in s.eventKinds <==> k in g.eventKinds)
    && (forall k :: k in g.eventKinds || k in s.presence ==>
          if k !in g.expectedPayload then k in s.presence && s.presence[k] == Some("<kind not frozen>")
          else if k !in s.presence then g.expectedPayload[k] == Some("<absent from schema>")
          else s.presence[k] == g.expectedPayload[k])
    && (forall k :: k in s.commitments <==> k in g.expectedPayload && g.expectedPayload[k] !in {None, Some("")})
  }

  ghost predicate DigestFor(g: Graph, s: Schema, c: Carrier, k: string) {
    && k in g.expectedPayload && g.expectedPayload[k] == Some(c.target) && c.target != ""
    && c.source == "CampaignEvent(" + k + ")" && k in s.commitments && c.path == s.commitments[k]
  }

  /** Digest rows and payload-bearing kinds correspond one to one. */
  ghost predicate DigestsMatch(g: Graph, s: Schema, cs: seq<Carrier>) {
    && (forall c :: c in cs && c.kind == EventPayloadDigest ==> exists k :: DigestFor(g, s, c, k))
    && (forall k :: k in g.expectedPayload && g.expectedPayload[k] !in {None, Some("")} ==>
          exists c :: c in cs && c.kind == EventPayloadDigest && DigestFor(g, s, c, k))
    && (forall b, c, k :: b in cs && c in cs && b.kind == c.kind == EventPayloadDigest && DigestFor(g, s, b, k) && DigestFor(g, s, c, k) ==> b == c)
  }

  ghost predicate StandsFor(g: Graph, target: string, t: string) {
    (target in g.metaTargets && t in g.metaTargets[target]) || (target !in g.metaTargets && t == target)
  }

  /** The reference rows at the field's path have its source and together its whole target domain. */
  ghost predicate FieldMatches(g: Graph, cs: seq<Carrier>, f: Field) {
    && (exists c :: c in cs && c.kind == ArtifactRef && c.path == f.path)
    && (forall c :: c in cs && c.kind == ArtifactRef && c.path == f.path ==> c.source == f.source)
    && (forall t :: t in f.allowed <==> exists c :: c in cs && c.kind == ArtifactRef && c.path == f.path && StandsFor(g, c.target, t))
  }

  /** Fields and reference rows name the same paths. */
  ghost predicate FieldsMatch(g: Graph, s: Schema, cs: seq<Carrier>) {
    && (forall f :: f in s.fields ==> FieldMatches(g, cs, f))
    && (forall c :: c in cs && c.kind == ArtifactRef ==> exists f :: f in s.fields && f.path == c.path)
  }

  ghost predicate EdgesMatch(g: Graph, cs: seq<Carrier>) {
    forall e :: e in g.edges <==> exists c :: c in cs && e == Edge(c.source, c.target, c.cls)
  }

  lemma RowsAgree(s: Schema, cs: seq<Carrier>)
    ensures RowsMatch(s, cs) <==> cs != [] && LedgerWellFormed(cs) && SchemaWellFormed(s)
  {
    assert forall i :: 0 <= i < |s.fields| ==> Paths(s.fields)[i] == s.fields[i].path;
  }

  lemma PayloadsAgreeExactly(g: Graph, s: Schema)
    ensures PayloadsMatch(g, s) <==> KindsAgree(g, s) && PresenceAgrees(g, s) && CommittedSources(s) == RequiredSources(g)
  {
    assert KindsAgree(g, s) <==> forall k :: k in s.eventKinds <==> k in g.eventKinds by {
      assert forall k :: k in Elements(s.eventKinds) <==> k in s.eventKinds;
      assert forall k :: k in Elements(g.eventKinds) <==> k in g.eventKinds;
    }
    CommitmentsAgree(g, s);
    hide CommittedSources, RequiredSources;
    assert forall k :: k in Elements(g.eventKinds) + s.presence.Keys <==> k in g.eventKinds || k in s.presence;
  }

  lemma CommitmentsAgree(g: Graph, s: Schema)
    ensures CommittedSources(s) == RequiredSources(g) <==>
            forall k :: k in s.commitments <==> k in g.expectedPayload && g.expectedPayload[k] !in {None, Some("")}
  {
    forall k
      ensures CampaignEvent(k) in CommittedSources(s) <==> k in s.commitments
      ensures CampaignEvent(k) in RequiredSources(g) <==> k in g.expectedPayload && Bears(g.expectedPayload[k])
    {
      forall j | CampaignEvent(j) == CampaignEvent(k) ensures j == k {
        WrapInjective(j, k);
      }
    }
    assert forall k :: k in g.expectedPayload ==> (Bears(g.expectedPayload[k]) <==> g.expectedPayload[k] !in {None, Some("")});
    if CommittedSources(s) == RequiredSources(g) {
      forall k ensures k in s.commitments <==> k in g.expectedPayload && Bears(g.expectedPayload[k]) {
        assert CampaignEvent(k) in CommittedSources(s) <==> CampaignEvent(k) in RequiredSources(g);
      }
    }
  }

  /** Counting digest rows per pair is the correspondence, once rows are distinct and commitments agree. */
  lemma DigestsAgree(g: Graph, s: Schema, cs: seq<Carrier>)
    requires NoDuplicates(cs) && PayloadsMatch(g, s)
    ensures DigestsMatch(g, s, cs) <==> DigestsCounted(g, cs) && DigestPathsAgree(s, cs)
  {
    forall pair ensures multiset(DigestPairs(cs))[pair] == |DigestRows(cs, pair)| {
      CountsAreRows(cs, pair);
    }
    hide DigestPairs, NoDuplicates;
    if DigestsMatch(g, s, cs) {
      MatchCounts(g, s, cs);
    }
    if DigestsCounted(g, cs) && DigestPathsAgree(s, cs) {
      CountsMatch(g, s, cs);
    }
  }

  lemma MatchCounts(g: Graph, s: Schema, cs: seq<Carrier>)
    requires DigestsMatch(g, s, cs)
    ensures DigestPathsAgree(s, cs)
    ensures forall pair :: |DigestRows(cs, pair)| == if pair in RequiredPairs(g) then 1 else 0
  {
    forall c | c in cs && IsDigest(c) ensures AtCommittedPath(s, c) && (c.source, c.target) in RequiredPairs(g) {
      var k :| DigestFor(g, s, c, k);
      KindOfWrapped(k);
      assert (CampaignEvent(k), g.expectedPayload[k].value) in RequiredPairs(g);
    }
    forall pair ensures |DigestRows(cs, pair)| == if pair in RequiredPairs(g) then 1 else 0 {
      if pair in RequiredPairs(g) {
        SoleRowOf(g, s, cs, pair);
      } else {
        assert DigestRows(cs, pair) == {};
      }
    }
  }

  lemma SoleRowOf(g: Graph, s: Schema, cs: seq<Carrier>, pair: (string, string))
    requires DigestsMatch(g, s, cs) && pair in RequiredPairs(g)
    ensures |DigestRows(cs, pair)| == 1
  {
    var k :| k in g.expectedPayload && Bears(g.expectedPayload[k]) && pair == (CampaignEvent(k), g.expectedPayload[k].value);
    var c :| c in cs && c.kind == EventPayloadDigest && DigestFor(g, s, c, k);
    forall b | b in DigestRows(cs, pair) ensures b == c {
      var j :| DigestFor(g, s, b, j);
      WrapInjective(j, k);
    }
    assert DigestRows(cs, pair) == {c};
  }

  lemma CountsMatch(g: Graph, s: Schema, cs: seq<Carrier>)
    requires PayloadsMatch(g, s) && DigestPathsAgree(s, cs)
    requires forall pair :: |DigestRows(cs, pair)| == if pair in RequiredPairs(g) then 1 else 0
    ensures DigestsMatch(g, s, cs)
  {
    hide DigestFor, DigestPathsAgree, PayloadsMatch, RequiredPairs, DigestRows;
    forall c | c in cs && c.kind == EventPayloadDigest ensures exists k :: DigestFor(g, s, c, k) {
      var k := RowHasKind(g, s, cs, c);
    }
    forall k | k in g.expectedPayload && g.expectedPayload[k] !in {None, Some("")}
      ensures exists c :: c in cs && c.kind == EventPayloadDigest && DigestFor(g, s, c, k)
    {
      var c := KindHasRow(g, s, cs, k);
    }
    forall b, c, k | b in cs && c in cs && b.kind == c.kind == EventPayloadDigest && DigestFor(g, s, b, k) && DigestFor(g, s, c, k) ensures b == c {
      OneRow(g, s, cs, b, c, k);
    }
  }

  lemma OneRow(g: Graph, s: Schema, cs: seq<Carrier>, b: Carrier, c: Carrier, k: string)
    requires b in cs && c in cs && b.kind == c.kind == EventPayloadDigest && DigestFor(g, s, b, k) && DigestFor(g, s, c, k)
    requires |DigestRows(cs, (c.source, c.target))| <= 1
    ensures b == c
  {
    AtMostOne(DigestRows(cs, (c.source, c.target)), b, c);
  }

  lemma RowHasKind(g: Graph, s: Schema, cs: seq<Carrier>, c: Carrier) returns (k: string)
    requires DigestPathsAgree(s, cs) && c in cs && IsDigest(c)
    requires forall pair :: |DigestRows(cs, pair)| == if pair in RequiredPairs(g) then 1 else 0
    ensures DigestFor(g, s, c, k)
  {
    assert c in DigestRows(cs, (c.source, c.target));
    k :| k in g.expectedPayload && Bears(g.expectedPayload[k]) && (c.source, c.target) == (CampaignEvent(k), g.expectedPayload[k].value);
    KindOfWrapped(k);
    assert AtCommittedPath(s, c);
  }

  lemma KindHasRow(g: Graph, s: Schema, cs: seq<Carrier>, k: string) returns (c: Carrier)
    requires DigestPathsAgree(s, cs) && k in g.expectedPayload && g.expectedPayload[k] !in {None, Some("")}
    requires forall pair :: |DigestRows(cs, pair)| == if pair in RequiredPairs(g) then 1 else 0
    ensures c in cs && IsDigest(c) && DigestFor(g, s, c, k)
  {
    var pair := (CampaignEvent(k), g.expectedPayload[k].value);
    assert pair in RequiredPairs(g);
    c :| c in DigestRows(cs, pair);
    KindOfWrapped(k);
    assert AtCommittedPath(s, c);
  }

  lemma FieldsAgree(g: Graph, s: Schema, cs: seq<Carrier>)
    ensures FieldsMatch(g, s, cs) <==> FieldsRealized(g, s, cs)
  {
    forall f ensures FieldRealized(g, cs, f) <==> FieldMatches(g, cs, f) {
      FieldAgrees(g, cs, f);
    }
    hide FieldRealized, FieldMatches;
  }

  lemma FieldAgrees(g: Graph, cs: seq<Carrier>, f: Field)
    ensures FieldRealized(g, cs, f) <==> FieldMatches(g, cs, f)
  {
    assert forall c :: c in RefsAt(cs, f.path) <==> c in cs && c.kind == ArtifactRef && c.path == f.path;
    forall t ensures t in DeclaredAt(g, cs, f.path) <==> exists c :: c in cs && c.kind == ArtifactRef && c.path == f.path && StandsFor(g, c.target, t) {
      forall c: Carrier ensures t in Expand(g, c.target) <==> StandsFor(g, c.target, t) {
      }
    }
    assert DeclaredAt(g, cs, f.path) == Elements(f.allowed) <==> forall t :: t in DeclaredAt(g, cs, f.path) <==> t in f.allowed by {
      assert forall t :: t in Elements(f.allowed) <==> t in f.allowed;
    }
    hide DeclaredAt, Elements;
  }

  lemma EdgesAgree(g: Graph, cs: seq<Carrier>)
    requires cs != []
    ensures EdgesMatch(g, cs) <==> Forward(g, cs) && Reverse(g, cs)
  {
  }

  /** Exit 0, exactly: every condition written out over rows, kinds, payloads, fields and edges. */
  lemma GatePassesExactly(g: Graph, s: Schema, cs: seq<Carrier>)
    ensures Verdict(g, s, cs) == 0 <==>
            && (forall e, f :: e in g.edges && f in g.edges && e.source == f.source && e.target == f.target ==> e.cls == f.cls)
            && s.drafted && RowsMatch(s, cs) && PayloadsMatch(g, s) && DigestsMatch(g, s, cs) && FieldsMatch(g, s, cs) && EdgesMatch(g, cs)
  {
    RowsAgree(s, cs);
    PayloadsAgreeExactly(g, s);
    if NoDuplicates(cs) && PayloadsMatch(g, s) {
      DigestsAgree(g, s, cs);
    }
    FieldsAgree(g, s, cs);
    if cs != [] {
      EdgesAgree(g, cs);
    }
    hide PayloadsMatch, DigestsMatch, FieldsMatch, EdgesMatch, RowsMatch, NoDuplicates, SchemaWellFormed, DigestsCounted, DigestPathsAgree, FieldsRealized, Reverse, PresenceAgrees, KindsAgree;
  }

  // ---------------------------------------------------------------- order does not matter

  lemma SameElements<T>(a: seq<T>, b: seq<T>)
    requires multiset(a) == multiset(b)
    ensures forall x :: x in a <==> x in b
    ensures Elements(a) == Elements(b) && |a| == |b|
  {
    forall x ensures x in a <==> x in b {
      assert x in a <==> x in multiset(a);
      assert x in b <==> x in multiset(b);
    }
    assert |multiset(a)| == |a| && |multiset(b)| == |b|;
  }

  lemma PermutedNoDuplicates<T(!new)>(a: seq<T>, b: seq<T>)
    requires multiset(a) == multiset(b)
    ensures NoDuplicates(a) <==> NoDuplicates(b)
  {
    OnceEach(a);
    OnceEach(b);
    SameElements(a, b);
  }

  /** Distinct paths, said of the rows themselves. */
  lemma DistinctPaths(fields: seq<Field>)
    ensures NoDuplicates(Paths(fields)) <==>
            NoDuplicates(fields) && forall f, h :: f in fields && h in fields && f.path == h.path ==> f == h
  {
    if NoDuplicates(Paths(fields)) {
      forall i, j | 0 <= i < j < |fields| ensures fields[i] != fields[j] {
        assert Paths(fields)[i] != Paths(fields)[j];
      }
      forall f, h | f in fields && h in fields && f.path == h.path ensures f == h {
        var i :| 0 <= i < |fields| && fields[i] == f;
        var j :| 0 <= j < |fields| && fields[j] == h;
        assert Paths(fields)[i] == Paths(fields)[j];
      }
    }
  }

  predicate Permuted(g: Graph, s: Schema, cs: seq<Carrier>, g': Graph, s': Schema, cs': seq<Carrier>) {
    && multiset(cs) == multiset(cs')
    && multiset(s.fields) == multiset(s'.fields) && multiset(s.eventKinds) == multiset(s'.eventKinds)
    && multiset(g.edges) == multiset(g'.edges) && multiset(g.eventKinds) == multiset(g'.eventKinds)
    && g' == g.(edges := g'.edges, eventKinds := g'.eventKinds)
    && s' == s.(fields := s'.fields, eventKinds := s'.eventKinds)
  }

  lemma PermutedSame(g: Graph, s: Schema, cs: seq<Carrier>, g': Graph, s': Schema, cs': seq<Carrier>)
    requires Permuted(g, s, cs, g', s', cs')
    ensures forall c :: c in cs <==> c in cs'
    ensures forall f :: f in s.fields <==> f in s'.fields
    ensures forall e :: e in g.edges <==> e in g'.edges
    ensures Elements(s.eventKinds) == Elements(s'.eventKinds) && Elements(g.eventKinds) == Elements(g'.eventKinds)
    ensures NoDuplicates(cs) <==> NoDuplicates(cs')
    ensures SchemaWellFormed(s) <==> SchemaWellFormed(s')
    ensures |cs| == |cs'|
  {
    SameElements(cs, cs');
    SameElements(s.fields, s'.fields);
    SameElements(g.edges, g'.edges);
    SameElements(s.eventKinds, s'.eventKinds);
    SameElements(g.eventKinds, g'.eventKinds);
    PermutedNoDuplicates(cs, cs');
    PermutedNoDuplicates(s.fields, s'.fields);
    PermutedNoDuplicates(s.eventKinds, s'.eventKinds);
    DistinctPaths(s.fields);
    DistinctPaths(s'.fields);
  }

  lemma PermutedDigests(g: Graph, cs: seq<Carrier>, cs': seq<Carrier>)
    requires NoDuplicates(cs) && NoDuplicates(cs') && forall c :: c in cs <==> c in cs'
    ensures DigestsCounted(g, cs) <==> DigestsCounted(g, cs')
  {
    forall pair ensures multiset(DigestPairs(cs))[pair] == multiset(DigestPairs(cs'))[pair] {
      CountsAreRows(cs, pair);
      CountsAreRows(cs', pair);
      assert DigestRows(cs, pair) == DigestRows(cs', pair);
    }
  }

  lemma PermutedFields(g: Graph, g': Graph, cs: seq<Carrier>, cs': seq<Carrier>, f: Field)
    requires g.metaTargets == g'.metaTargets && forall c :: c in cs <==> c in cs'
    ensures FieldRealized(g, cs, f) <==> FieldRealized(g', cs', f)
  {
    assert RefsAt(cs, f.path) == RefsAt(cs', f.path);
    forall t ensures t in DeclaredAt(g, cs, f.path) <==> t in DeclaredAt(g', cs', f.path) {
      if t in DeclaredAt(g, cs, f.path) {
        var c :| c in RefsAt(cs, f.path) && t in Expand(g, c.target);
        assert t in Expand(g', c.target);
      }
      if t in DeclaredAt(g', cs', f.path) {
        var c :| c in RefsAt(cs', f.path) && t in Expand(g', c.target);
        assert t in Expand(g, c.target);
      }
    }
    assert DeclaredAt(g, cs, f.path) == DeclaredAt(g', cs', f.path);
  }

  lemma PermutedFieldsRealized(g: Graph, s: Schema, cs: seq<Carrier>, g': Graph, s': Schema, cs': seq<Carrier>)
    requires g.metaTargets == g'.metaTargets && (forall c :: c in cs <==> c in cs') && forall f :: f in s.fields <==> f in s'.fields
    requires FieldsRealized(g, s, cs)
    ensures FieldsRealized(g', s', cs')
  {
    forall f | f in s'.fields ensures FieldRealized(g', cs', f) {
      PermutedFields(g, g', cs, cs', f);
    }
    hide FieldRealized;
    forall c | c in cs' && IsRef(c) ensures exists f :: f in s'.fields && f.path == c.path {
      var f :| f in s.fields && f.path == c.path;
      assert f in s'.fields;
    }
  }

  lemma PermutedPayloads(g: Graph, s: Schema, cs: seq<Carrier>, g': Graph, s': Schema, cs': seq<Carrier>)
    requires g.expectedPayload == g'.expectedPayload && Elements(g.eventKinds) == Elements(g'.eventKinds)
    requires s.presence == s'.presence && s.commitments == s'.commitments
    requires NoDuplicates(cs) && NoDuplicates(cs') && forall c :: c in cs <==> c in cs'
    requires PayloadMapRealized(g, s, cs)
    ensures PayloadMapRealized(g', s', cs')
  {
    assert RequiredPairs(g) == RequiredPairs(g') && RequiredSources(g) == RequiredSources(g');
    PermutedDigests(g, cs, cs');
    hide DigestPairs, NoDuplicates, KindOf;
  }

  lemma PermutedRealized(g: Graph, s: Schema, cs: seq<Carrier>, g': Graph, s': Schema, cs': seq<Carrier>)
    requires Permuted(g, s, cs, g', s', cs') && Realized(g, s, cs)
    ensures Realized(g', s', cs')
  {
    PermutedSame(g, s, cs, g', s', cs');
    PermutedFieldsRealized(g, s, cs, g', s', cs');
    PermutedPayloads(g, s, cs, g', s', cs');
    hide PayloadMapRealized, FieldsRealized, SchemaWellFormed, NoDuplicates, Elements;
    forall e | e in g'.edges ensures exists c :: c in cs' && Triple(c) == e {
      var c :| c in cs && Triple(c) == e;
      assert c in cs';
    }
  }

  /** The exit code is the same for every order of carriers, fields, event kinds and edges. */
  lemma OrderDoesNotMatter(g: Graph, s: Schema, cs: seq<Carrier>, g': Graph, s': Schema, cs': seq<Carrier>)
    requires Permuted(g, s, cs, g', s', cs')
    ensures Verdict(g, s, cs) == Verdict(g', s', cs')
  {
    SameElements(g.edges, g'.edges);
    hide Realized;
    if Realized(g, s, cs) {
      PermutedRealized(g, s, cs, g', s', cs');
    }
    if Realized(g', s', cs') {
      PermutedRealized(g', s', cs', g, s, cs);
    }
  }

  /** PASS means that schema and graph have the same event kinds with the same payloads. */
  lemma PayloadsAgree(g: Graph, s: Schema, cs: seq<Carrier>, k: string)
    requires Verdict(g, s, cs) == 0 && k in g.eventKinds && k in g.expectedPayload
    requires g.expectedPayload[k] != Some("<absent from schema>")
    ensures k in s.eventKinds && k in s.presence && s.presence[k] == g.expectedPayload[k]
  {
    hide NoDuplicates, DigestPairs, FieldRealized;
    assert k in Elements(g.eventKinds) && k in Elements(s.eventKinds);
    assert k in Elements(g.eventKinds) + s.presence.Keys;
    assert Lookup(g.expectedPayload, k, "<kind not frozen>") == Lookup(s.presence, k, "<absent from schema>");
  }
}
