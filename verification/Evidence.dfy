/** SDK release evidence: the producer that aggregates it and the verifier that must accept it. */
module Evidence {
  import opened Wrappers
  import opened Collections

  datatype Component = Typescript | Python | Rust

  const COMPONENTS: set<Component> := {Typescript, Python, Rust}
  const CHROMIUM: string := "chromium"
  const FIREFOX: string := "firefox"
  const BROWSERS: set<string> := {CHROMIUM, FIREFOX}
  const PASSED: string := "passed"
  const FAULTS: seq<string> := ["exchange_handoff", "refresh_session", "logout_application_session"]

  type Sha = string
  type Cell = (string, string) // kind and value

  /** The declared matrix of a component, in sorted order. */
  function SortedMatrix(c: Component): seq<Cell> {
    match c
    case Typescript => [("browser-bundle", "vite-8.1.5"), ("node", "20"), ("node", "22"), ("node", "24")]
    case Python => [("python", "3.11"), ("python", "3.12"), ("python", "3.13"), ("python", "3.14")]
    case Rust => [("rust", "stable")]
  }

  function Matrix(c: Component): set<Cell> {
    set cell | cell in SortedMatrix(c)
  }

  function SameServerComponents(browser: string): set<Component> {
    if browser == CHROMIUM then COMPONENTS else if browser == FIREFOX then {Typescript} else {}
  }

  // ----- candidates and fragments -----

  datatype Coordinate = Coordinate(component: Component, version: string, commit: string, run: string,
                                   attempt: string, tag: string)
  datatype Contract = Contract(runtime: Sha, surface: Sha, policy: Sha, claimed: seq<string>)
  datatype Corpus = Corpus(schemaVersion: nat, sha: Sha)
  datatype Descriptor = Descriptor(coordinate: Coordinate, archive: Sha, contract: Contract, corpus: Corpus)

  /** The descriptor filed under each component. */
  type Descriptors = d: map<Component, Descriptor> | d.Keys == COMPONENTS
    witness map c | c in COMPONENTS ::
              Descriptor(Coordinate(c, "", "", "", "", ""), "", Contract("", "", "", []), Corpus(3, ""))

  datatype Fragment = Fragment(schemaVersion: int, descriptor: Sha, archive: Sha, component: Option<Component>,
                               version: string, cell: Cell, status: string, run: string, attempt: string)

  datatype Assignment = Assignment(project: string, application: string)
  datatype Assignments = Assignments(
    backendCustody: Assignment, browserDirect: Assignment, sdks: map<Component, Assignment>)

  datatype BrowserResult = BrowserResult(
    schemaVersion: int, status: string, browser: string, candidates: map<Component, (Sha, string)>, commit: string,
    assignments: Assignments, exactArtifacts: bool, sharedRuntime: bool,
    observed: map<Component, seq<string>>, faults: map<Component, seq<string>>)

  // ----- isolation -----

  datatype Label = Backend | Direct | Sdk(component: Component)

  function Labels(a: Assignments): set<Label> {
    {Backend, Direct} + set c | c in a.sdks :: Sdk(c)
  }

  function At(a: Assignments, l: Label): Assignment
    requires l in Labels(a)
  {
    match l
    case Backend => a.backendCustody
    case Direct => a.browserDirect
    case Sdk(c) => a.sdks[c]
  }

  /** All identities are given and no two assignments share a project or an application. */
  predicate Isolated(a: Assignments) {
    && (forall l :: l in Labels(a) ==> At(a, l).project != "" && At(a, l).application != "")
    && (forall l, m :: l in Labels(a) && m in Labels(a) && l != m ==>
          At(a, l).project != At(a, m).project && At(a, l).application != At(a, m).application)
  }

  predicate Recorded(a: Assignments, l: Label, project: string, application: string) {
    l in Labels(a) && At(a, l) == Assignment(project, application) && project != "" && application != ""
  }

  /** The scan that both sides run over the assignments of a browser. */
  method CheckIsolation(a: Assignments) returns (ok: bool)
    ensures ok <==> Isolated(a)
  {
    var rest := Labels(a);
    var projects: seq<string>, applications: seq<string> := [], [];
    ghost var seen: seq<Label> := [];
    while rest != {}
      invariant |projects| == |applications| == |seen| && Distinct(seen)
      invariant forall l :: l in Labels(a) <==> l in seen || l in rest
      invariant forall l :: l in rest ==> l !in seen
      invariant forall i :: 0 <= i < |seen| ==> Recorded(a, seen[i], projects[i], applications[i])
      decreases rest
    {
      var l :| l in rest;
      var assignment := At(a, l);
      if assignment.project == "" || assignment.application == "" {
        return false;
      }
      projects, applications := projects + [assignment.project], applications + [assignment.application];
      seen, rest := seen + [l], rest - {l};
    }
    SizeTellsDistinct(projects);
    SizeTellsDistinct(applications);
    IsolatedIffDistinct(a, seen, projects, applications);
    ok := |Elements(projects)| == |projects| && |Elements(applications)| == |applications|;
  }

  lemma IsolatedIffDistinct(a: Assignments, seen: seq<Label>, projects: seq<string>, applications: seq<string>)
    requires |projects| == |applications| == |seen| && Distinct(seen)
    requires forall l :: l in Labels(a) <==> l in seen
    requires forall i :: 0 <= i < |seen| ==> Recorded(a, seen[i], projects[i], applications[i])
    ensures Isolated(a) <==> Distinct(projects) && Distinct(applications)
  {
    hide Labels, At;
    if Distinct(projects) && Distinct(applications) {
      forall l, m | l in Labels(a) && m in Labels(a) && l != m
        ensures At(a, l).project != At(a, m).project && At(a, l).application != At(a, m).application
      {
        var i :| 0 <= i < |seen| && seen[i] == l;
        var j :| 0 <= j < |seen| && seen[j] == m;
      }
    }
  }

  // ----- the producer -----

  predicate FragmentMatches(f: Fragment, d: Descriptors, digest: Descriptor -> Sha) {
    && f.component.Some? && f.component.value in d
    && var c := d[f.component.value];
      && f.schemaVersion == 1 && f.status == PASSED && f.descriptor == digest(c) && f.archive == c.archive
      && f.version == c.coordinate.version && f.run == c.coordinate.run && f.attempt == c.coordinate.attempt
      && f.cell in Matrix(f.component.value)
  }

  ghost predicate AllMatch(fragments: seq<Fragment>, d: Descriptors, digest: Descriptor -> Sha) {
    forall i :: 0 <= i < |fragments| ==> FragmentMatches(fragments[i], d, digest)
  }

  ghost predicate Unrepeated(fragments: seq<Fragment>) {
    forall i, j :: 0 <= i < j < |fragments| ==>
      (fragments[i].component, fragments[i].cell) != (fragments[j].component, fragments[j].cell)
  }

  function Observed(fragments: seq<Fragment>, c: Component): set<Cell> {
    set i | 0 <= i < |fragments| && fragments[i].component == Some(c) :: fragments[i].cell
  }

  /** Every fragment matches its candidate, none repeats, and together they fill every matrix. */
  ghost predicate Qualified(fragments: seq<Fragment>, d: Descriptors, digest: Descriptor -> Sha) {
    AllMatch(fragments, d, digest) && Unrepeated(fragments)
    && forall c :: c in COMPONENTS ==> Observed(fragments, c) == Matrix(c)
  }

  lemma ObservedOneMore(fragments: seq<Fragment>, f: Fragment, c: Component)
    ensures Observed(fragments + [f], c) == Observed(fragments, c) + if f.component == Some(c) then {f.cell} else {}
  {
    var all := fragments + [f];
    forall cell | cell in Observed(fragments, c) ensures cell in Observed(all, c) {
      var i :| 0 <= i < |fragments| && fragments[i].component == Some(c) && fragments[i].cell == cell;
      assert all[i] == fragments[i];
    }
    if f.component == Some(c) {
      assert all[|fragments|] == f;
    }
  }

  lemma UnrepeatedOneMore(fragments: seq<Fragment>, f: Fragment)
    requires f.component.Some?
    ensures Unrepeated(fragments + [f]) <==> Unrepeated(fragments) && f.cell !in Observed(fragments, f.component.value)
  {
    var all := fragments + [f];
    assert all[|fragments|] == f;
    assert forall i :: 0 <= i < |fragments| ==> all[i] == fragments[i];
    if f.cell in Observed(fragments, f.component.value) {
      var i :| 0 <= i < |fragments| && fragments[i].component == f.component && fragments[i].cell == f.cell;
      assert (all[i].component, all[i].cell) == (all[|fragments|].component, all[|fragments|].cell);
    }
  }

  lemma PrefixesToo(fragments: seq<Fragment>, k: nat, d: Descriptors, digest: Descriptor -> Sha)
    requires k <= |fragments| && AllMatch(fragments, d, digest) && Unrepeated(fragments)
    ensures AllMatch(fragments[..k], d, digest) && Unrepeated(fragments[..k])
  {
    hide FragmentMatches;
  }

  /** The matrix results, fragment by fragment. */
  method QualificationResults(fragments: seq<Fragment>, d: Descriptors, digest: Descriptor -> Sha) returns (ok: bool)
    ensures ok <==> fragments != [] && Qualified(fragments, d, digest)
  {
    hide Matrix, Observed, Unrepeated, FragmentMatches;
    if fragments == [] {
      return false;
    }
    var observed := map c | c in COMPONENTS :: {};
    NothingObserved();
    var k := 0;
    while k < |fragments|
      invariant 0 <= k <= |fragments| && observed.Keys == COMPONENTS
      invariant AllMatch(fragments[..k], d, digest) && Unrepeated(fragments[..k])
      invariant forall c :: c in COMPONENTS ==> observed[c] == Observed(fragments[..k], c)
    {
      var f := fragments[k];
      assert fragments[..k + 1] == fragments[..k] + [f];
      if !FragmentMatches(f, d, digest) {
        return false;
      }
      MatchNamesComponent(f, d, digest);
      var c := f.component.value;
      UnrepeatedOneMore(fragments[..k], f);
      if f.cell in observed[c] {
        if AllMatch(fragments, d, digest) && Unrepeated(fragments) {
          PrefixesToo(fragments, k + 1, d, digest);
        }
        return false;
      }
      forall e | e in COMPONENTS
        ensures Observed(fragments[..k + 1], e) == Observed(fragments[..k], e) + if e == c then {f.cell} else {}
      {
        ObservedOneMore(fragments[..k], f, e);
      }
      observed := observed[c := observed[c] + {f.cell}];
      k := k + 1;
    }
    assert fragments[..k] == fragments;
    ok := forall c :: c in COMPONENTS ==> observed[c] == Matrix(c);
  }

  lemma NothingObserved()
    ensures Unrepeated([]) && forall c :: Observed([], c) == {}
  {
  }

  lemma MatchNamesComponent(f: Fragment, d: Descriptors, digest: Descriptor -> Sha)
    requires FragmentMatches(f, d, digest)
    ensures f.component.Some? && f.component.value in COMPONENTS
  {
  }

  predicate CandidateAgrees(v: BrowserResult, c: Component, d: Descriptor) {
    c in v.candidates && v.candidates[c] == (d.archive, d.coordinate.version) && v.commit == d.coordinate.commit
  }

  predicate Covers(list: seq<string>, required: seq<string>) {
    Distinct(list) && Elements(list) == Elements(required)
  }

  /** One same-server result attests these candidates with full coverage. */
  predicate Attests(v: BrowserResult, d: Descriptors) {
    var expected := SameServerComponents(v.browser);
    && v.browser in BROWSERS && v.schemaVersion == 1 && v.status == PASSED
    && v.candidates.Keys == d.Keys && (forall c :: c in d ==> CandidateAgrees(v, c, d[c]))
    && v.assignments.sdks.Keys == expected
    && v.exactArtifacts && v.sharedRuntime
    && v.observed.Keys == expected && v.faults.Keys == expected
    && forall c :: c in expected && c in d ==>
         Covers(v.observed[c], d[c].contract.claimed) && Covers(v.faults[c], FAULTS)
  }

  predicate BrowserPassed(v: BrowserResult, d: Descriptors) {
    Attests(v, d) && Isolated(v.assignments)
  }

  /** Each browser has exactly one result, and it passed. */
  ghost predicate BrowsersPassed(results: seq<BrowserResult>, d: Descriptors) {
    && (forall i :: 0 <= i < |results| ==> BrowserPassed(results[i], d))
    && (forall i, j :: 0 <= i < j < |results| ==> results[i].browser != results[j].browser)
    && (forall b :: b in BROWSERS ==> exists i :: 0 <= i < |results| && results[i].browser == b)
  }

  /** All candidates share one source, run, contract and corpus. */
  predicate OneCoordinate(d: Descriptors) {
    forall a, b :: a in d && b in d ==>
      && d[a].coordinate.commit == d[b].coordinate.commit
      && d[a].coordinate.run == d[b].coordinate.run && d[a].coordinate.attempt == d[b].coordinate.attempt
      && d[a].contract.runtime == d[b].contract.runtime && d[a].contract.surface == d[b].contract.surface
      && d[a].contract.policy == d[b].contract.policy && d[a].corpus == d[b].corpus
  }

  datatype Qualification = Qualification(
    browsers: seq<string>, matrix: seq<Cell>, faults: seq<string>, assignments: seq<(string, Assignments)>,
    commit: string)

  datatype Manifest = Manifest(
    schemaVersion: int, status: string, descriptor: Sha, archive: Sha, contract: Contract, coordinate: Coordinate,
    corpus: Corpus, capabilities: seq<(string, string, string)>, qualification: Qualification)

  function Capabilities(claimed: seq<string>): seq<(string, string, string)> {
    seq(|claimed|, i requires 0 <= i < |claimed| => (claimed[i], PASSED, PASSED))
  }

  /** The results that exercised a component, in file order. */
  function Exercising(results: seq<BrowserResult>, c: Component): seq<BrowserResult> {
    if results == [] then []
    else
      var front := Exercising(results[..|results| - 1], c);
      if c in results[|results| - 1].observed then front + [results[|results| - 1]] else front
  }

  function BuildManifest(c: Component, d: Descriptor, results: seq<BrowserResult>, commit: string,
                         digest: Descriptor -> Sha): Manifest {
    var used := Exercising(results, c);
    Manifest(1, PASSED, digest(d), d.archive, d.contract, d.coordinate, d.corpus, Capabilities(d.contract.claimed),
             Qualification(seq(|used|, i requires 0 <= i < |used| => used[i].browser), SortedMatrix(c), FAULTS,
                           seq(|used|, i requires 0 <= i < |used| => (used[i].browser, used[i].assignments)), commit))
  }

  /** The same-server results, file by file. */
  method BrowserResults(results: seq<BrowserResult>, d: Descriptors) returns (ok: bool)
    ensures ok <==> BrowsersPassed(results, d)
  {
    hide Attests, Isolated;
    var seen: set<string> := {};
    var k := 0;
    while k < |results|
      invariant 0 <= k <= |results|
      invariant forall i :: 0 <= i < k ==> BrowserPassed(results[i], d)
      invariant forall i, j :: 0 <= i < j < k ==> results[i].browser != results[j].browser
      invariant forall b :: b in seen <==> exists i :: 0 <= i < k && results[i].browser == b
    {
      var v := results[k];
      if v.browser in seen || !Attests(v, d) {
        return false;
      }
      var isolated := CheckIsolation(v.assignments);
      if !isolated {
        return false;
      }
      seen := seen + {v.browser};
      k := k + 1;
    }
    forall i | 0 <= i < k ensures results[i].browser in BROWSERS {
      AttestsKnownBrowser(results[i], d);
    }
    ok := seen == BROWSERS;
  }

  lemma AttestsKnownBrowser(v: BrowserResult, d: Descriptors)
    requires Attests(v, d)
    ensures v.browser in BROWSERS && v.observed.Keys == v.assignments.sdks.Keys == SameServerComponents(v.browser)
  {
  }

  /** What the producer demands before it writes anything. */
  ghost predicate Accepts(d: Descriptors, fragments: seq<Fragment>, results: seq<BrowserResult>,
                          digest: Descriptor -> Sha) {
    OneCoordinate(d) && fragments != [] && Qualified(fragments, d, digest) && BrowsersPassed(results, d)
  }

  /** One manifest per component, or none at all. */
  method Aggregate(d: Descriptors, fragments: seq<Fragment>, results: seq<BrowserResult>, digest: Descriptor -> Sha)
    returns (r: Option<map<Component, Manifest>>)
    ensures r.Some? <==> Accepts(d, fragments, results, digest)
    ensures r.Some? ==> r.value.Keys == COMPONENTS
    ensures r.Some? ==> forall c :: c in COMPONENTS ==>
              r.value[c] == BuildManifest(c, d[c], results, d[c].coordinate.commit, digest)
  {
    hide Qualified, BrowsersPassed, BuildManifest;
    if !OneCoordinate(d) {
      return None;
    }
    var qualified := QualificationResults(fragments, d, digest);
    if !qualified {
      return None;
    }
    var browsers := BrowserResults(results, d);
    if !browsers {
      return None;
    }
    var commit := d[Typescript].coordinate.commit;
    r := Some(map c | c in COMPONENTS :: BuildManifest(c, d[c], results, commit, digest));
  }

  // ----- the verifier -----

  /** What the caller expects; None where it does not care. */
  datatype Options = Options(component: Component, version: Option<string>, commit: Option<string>, run: Option<string>,
                             attempt: Option<string>, tag: Option<string>)

  predicate Wants(wanted: Option<string>, actual: string) {
    wanted.Some? ==> wanted.value == actual
  }

  predicate OptionsAgree(o: Options, c: Coordinate) {
    Wants(o.version, c.version) && Wants(o.commit, c.commit) && Wants(o.run, c.run) && Wants(o.attempt, c.attempt)
    && Wants(o.tag, c.tag)
  }

  function ExpectedBrowsers(c: Component): seq<string> {
    if c.Typescript? then [CHROMIUM, FIREFOX] else [CHROMIUM]
  }

  predicate EntryShape(entry: (string, Assignments), c: Component) {
    entry.0 in BROWSERS && entry.1.sdks.Keys == SameServerComponents(entry.0) && c in entry.1.sdks
  }

  predicate EntryAccepted(entry: (string, Assignments), c: Component) {
    EntryShape(entry, c) && Isolated(entry.1)
  }

  predicate BoundTo(m: Manifest, d: Descriptor, digest: Descriptor -> Sha) {
    m.schemaVersion == 1 && m.status == PASSED && m.descriptor == digest(d) && m.archive == d.archive
    && m.contract == d.contract && m.coordinate == d.coordinate && m.corpus == d.corpus
    && m.capabilities == Capabilities(d.contract.claimed)
  }

  predicate CoverageComplete(q: Qualification, c: Component, commit: string) {
    Elements(q.matrix) == Matrix(c) && q.browsers == ExpectedBrowsers(c) && q.faults == FAULTS && q.commit == commit
    && |q.assignments| == |ExpectedBrowsers(c)|
  }

  /** Everything the verifier demands of a manifest. */
  predicate Verified(m: Manifest, d: Descriptor, o: Options, digest: Descriptor -> Sha) {
    var c, q := d.coordinate.component, m.qualification;
    && c == o.component && BoundTo(m, d, digest) && OptionsAgree(o, d.coordinate)
    && CoverageComplete(q, c, d.coordinate.commit)
    && (forall i :: 0 <= i < |q.assignments| ==> EntryAccepted(q.assignments[i], c))
    && (forall i :: 0 <= i < |q.assignments| ==> q.assignments[i].0 == ExpectedBrowsers(c)[i])
  }

  /** The verifier's pass over a manifest. */
  method Verify(m: Manifest, d: Descriptor, o: Options, digest: Descriptor -> Sha) returns (ok: bool)
    ensures ok <==> Verified(m, d, o, digest)
  {
    hide BoundTo, OptionsAgree, Isolated, EntryShape, Matrix;
    var c, q := d.coordinate.component, m.qualification;
    if c != o.component || !BoundTo(m, d, digest) || !OptionsAgree(o, d.coordinate) {
      return false;
    }
    if !CoverageComplete(q, c, d.coordinate.commit) {
      return false;
    }
    var observed: seq<string> := [];
    for k := 0 to |q.assignments|
      invariant |observed| == k && forall i :: 0 <= i < k ==> observed[i] == q.assignments[i].0
      invariant forall i :: 0 <= i < k ==> EntryAccepted(q.assignments[i], c)
    {
      if !EntryShape(q.assignments[k], c) {
        return false;
      }
      observed := observed + [q.assignments[k].0];
      var isolated := CheckIsolation(q.assignments[k].1);
      if !isolated {
        return false;
      }
    }
    ok := observed == ExpectedBrowsers(c);
  }

  // ----- agreement -----

  lemma BrowsersDiffer()
    ensures CHROMIUM != FIREFOX && |BROWSERS| == 2
  {
    assert |CHROMIUM| != |FIREFOX|;
    assert BROWSERS == {CHROMIUM} + {FIREFOX};
  }

  /** No repeats, nothing foreign and nothing missing: two results, one per browser. */
  lemma TwoResults(results: seq<BrowserResult>, d: Descriptors)
    requires BrowsersPassed(results, d)
    ensures |results| == 2 && results[0].browser in BROWSERS && results[1].browser in BROWSERS
    ensures results[0].browser != results[1].browser
  {
    hide Isolated, Attests;
    var names := seq(|results|, i requires 0 <= i < |results| => results[i].browser);
    forall i | 0 <= i < |results| ensures names[i] in BROWSERS {
      AttestsKnownBrowser(results[i], d);
    }
    forall b | b in BROWSERS ensures b in names {
      var i :| 0 <= i < |results| && results[i].browser == b;
      assert names[i] == b;
    }
    assert Elements(names) == BROWSERS;
    SizeTellsDistinct(names);
    BrowsersDiffer();
    assert |names| == 2;
    assert names[0] in BROWSERS && names[1] in BROWSERS;
  }

  lemma ExercisingTwo(results: seq<BrowserResult>, c: Component)
    requires |results| == 2
    ensures Exercising(results, c) ==
            (if c in results[0].observed then [results[0]] else [])
            + (if c in results[1].observed then [results[1]] else [])
  {
    var one := results[..1];
    assert one[..0] == [] && Exercising(one[..0], c) == [];
    assert results[..2 - 1] == one && one[0] == results[0];
  }

  /** The assignment entries of a manifest are those of the results that exercised the component. */
  lemma EntriesAccepted(d: Descriptors, results: seq<BrowserResult>, c: Component)
    requires BrowsersPassed(results, d)
    ensures forall i :: 0 <= i < |Exercising(results, c)| ==>
              EntryAccepted((Exercising(results, c)[i].browser, Exercising(results, c)[i].assignments), c)
  {
    hide BrowsersPassed, Isolated, Attests, Exercising, SameServerComponents;
    TwoResults(results, d);
    ExercisingTwo(results, c);
    ResultEntries(results, d, 0);
    ResultEntries(results, d, 1);
  }

  /** The browsers recorded for a component are the expected ones unless firefox came first where both count. */
  lemma ExercisingBrowsers(d: Descriptors, results: seq<BrowserResult>, c: Component)
    requires BrowsersPassed(results, d)
    ensures |Exercising(results, c)| == |ExpectedBrowsers(c)|
    ensures (forall i :: 0 <= i < |ExpectedBrowsers(c)| ==>
               Exercising(results, c)[i].browser == ExpectedBrowsers(c)[i])
            <==> (c.Typescript? ==> results != [] && results[0].browser == CHROMIUM)
  {
    hide BrowsersPassed, Attests, Exercising, CHROMIUM, FIREFOX;
    TwoResults(results, d);
    ExercisingTwo(results, c);
    ResultEntries(results, d, 0);
    ResultEntries(results, d, 1);
    BrowsersDiffer();
    var used := Exercising(results, c);
    if c.Typescript? {
      assert used[0] == results[0] && used[1] == results[1];
      assert used[0].browser == ExpectedBrowsers(c)[0] ==> results[0].browser == CHROMIUM;
    } else {
      assert used[0].browser == ExpectedBrowsers(c)[0];
    }
  }

  /** Components have different matrices, by which a misfiled descriptor shows. */
  lemma MatricesDiffer(a: Component, b: Component)
    requires Matrix(a) == Matrix(b)
    ensures a == b
  {
    assert ("browser-bundle", "vite-8.1.5") in Matrix(Typescript);
    assert ("python", "3.11") in Matrix(Python) && ("rust", "stable") in Matrix(Rust);
    assert |"browser-bundle"| == 14 && |"python"| == 6 && |"rust"| == |"node"| == 4 && "rust"[0] != "node"[0];
    assert forall cell :: cell in Matrix(Python) ==> |cell.0| == 6;
    assert forall cell :: cell in Matrix(Rust) ==> |cell.0| == 4;
  }

  /**
   The verifier accepts what the producer wrote for a component exactly when the caller asks for that
   component, the descriptor filed there names it, the caller's expectations match it, and the browser
   results were in order where both count.
   */
  lemma ManifestsVerify(d: Descriptors, results: seq<BrowserResult>, c: Component, o: Options,
                        digest: Descriptor -> Sha)
    requires BrowsersPassed(results, d)
    ensures Verified(BuildManifest(c, d[c], results, d[c].coordinate.commit, digest), d[c], o, digest) <==>
            && o.component == c == d[c].coordinate.component
            && OptionsAgree(o, d[c].coordinate)
            && (c.Typescript? ==> results != [] && results[0].browser == CHROMIUM)
  {
    hide BrowsersPassed, EntryAccepted, Exercising, Matrix, SortedMatrix, OptionsAgree, ExpectedBrowsers;
    EntriesAccepted(d, results, c);
    ExercisingBrowsers(d, results, c);
    MatrixIsSorted(c);
    if Matrix(c) == Matrix(d[c].coordinate.component) {
      MatricesDiffer(c, d[c].coordinate.component);
    }
  }

  lemma ResultEntries(results: seq<BrowserResult>, d: Descriptors, i: nat)
    requires BrowsersPassed(results, d) && i < |results|
    ensures Isolated(results[i].assignments)
    ensures results[i].observed.Keys == results[i].assignments.sdks.Keys == SameServerComponents(results[i].browser)
  {
    AttestsKnownBrowser(results[i], d);
  }

  lemma MatrixIsSorted(c: Component)
    ensures Elements(SortedMatrix(c)) == Matrix(c)
  {
  }
}
