/** Inputs that the evidence producer accepts, and manifests made from them that its verifier refuses. */
module EvidenceWitnesses {
  import opened Wrappers
  import opened Collections
  import opened Evidence

  // ----- passing fragments -----

  function PassingFragment(c: Component, d: Descriptor, cell: Cell, digest: Descriptor -> Sha): Fragment {
    Fragment(1, digest(d), d.archive, Some(c), d.coordinate.version, cell, PASSED, d.coordinate.run,
             d.coordinate.attempt)
  }

  /** One fragment for each cell of a component's matrix. */
  function FragmentsOf(c: Component, d: Descriptor, digest: Descriptor -> Sha): seq<Fragment> {
    var cells := SortedMatrix(c);
    seq(|cells|, i requires 0 <= i < |cells| => PassingFragment(c, d, cells[i], digest))
  }

  function PassingFragments(d: Descriptors, digest: Descriptor -> Sha): seq<Fragment> {
    FragmentsOf(Typescript, d[Typescript], digest) + FragmentsOf(Python, d[Python], digest)
    + FragmentsOf(Rust, d[Rust], digest)
  }

  lemma CellsAreDistinct(c: Component)
    ensures Distinct(SortedMatrix(c))
  {
    match c {
      case Typescript =>
        assert |"browser-bundle"| != |"node"|;
        assert "20"[1] == '0' && "22"[1] == '2' && "24"[1] == '4';
      case Python =>
        assert "3.11"[3] == '1' && "3.12"[3] == '2' && "3.13"[3] == '3' && "3.14"[3] == '4';
      case Rust =>
    }
  }

  lemma FragmentsOfFillTheMatrix(c: Component, d: Descriptors, digest: Descriptor -> Sha, e: Component)
    ensures var f := FragmentsOf(c, d[c], digest);
            && AllMatch(f, d, digest) && Unrepeated(f)
            && (forall i :: 0 <= i < |f| ==> f[i].component == Some(c))
            && Observed(f, e) == if e == c then Matrix(c) else {}
  {
    hide SortedMatrix;
    CellsAreDistinct(c);
    var f, cells := FragmentsOf(c, d[c], digest), SortedMatrix(c);
    forall cell | cell in Matrix(c) ensures cell in Observed(f, c) {
      var i :| 0 <= i < |cells| && cells[i] == cell;
      assert f[i].cell == cell;
    }
  }

  lemma ObservedJoin(a: seq<Fragment>, b: seq<Fragment>, e: Component)
    ensures Observed(a + b, e) == Observed(a, e) + Observed(b, e)
  {
    var all := a + b;
    forall cell | cell in Observed(a, e) ensures cell in Observed(all, e) {
      var i :| 0 <= i < |a| && a[i].component == Some(e) && a[i].cell == cell;
      assert all[i] == a[i];
    }
    forall cell | cell in Observed(b, e) ensures cell in Observed(all, e) {
      var i :| 0 <= i < |b| && b[i].component == Some(e) && b[i].cell == cell;
      assert all[|a| + i] == b[i];
    }
  }

  lemma UnrepeatedJoin(a: seq<Fragment>, b: seq<Fragment>)
    requires Unrepeated(a) && Unrepeated(b)
    requires forall i, j :: 0 <= i < |a| && 0 <= j < |b| ==> a[i].component != b[j].component
    ensures Unrepeated(a + b)
  {
  }

  lemma PassingFragmentsQualify(d: Descriptors, digest: Descriptor -> Sha)
    ensures PassingFragments(d, digest) != [] && Qualified(PassingFragments(d, digest), d, digest)
  {
    hide FragmentsOf, Observed, Unrepeated, FragmentMatches, Matrix;
    var t, p := FragmentsOf(Typescript, d[Typescript], digest), FragmentsOf(Python, d[Python], digest);
    var r := FragmentsOf(Rust, d[Rust], digest);
    forall e ensures Observed(t + p + r, e) == Matrix(e) {
      FragmentsOfFillTheMatrix(Typescript, d, digest, e);
      FragmentsOfFillTheMatrix(Python, d, digest, e);
      FragmentsOfFillTheMatrix(Rust, d, digest, e);
      ObservedJoin(t, p, e);
      ObservedJoin(t + p, r, e);
    }
    FragmentsOfFillTheMatrix(Typescript, d, digest, Rust);
    FragmentsOfFillTheMatrix(Python, d, digest, Rust);
    FragmentsOfFillTheMatrix(Rust, d, digest, Rust);
    UnrepeatedJoin(t, p);
    UnrepeatedJoin(t + p, r);
    assert r != [] by { OneRustCell(d[Rust], digest); }
  }

  lemma OneRustCell(d: Descriptor, digest: Descriptor -> Sha)
    ensures |FragmentsOf(Rust, d, digest)| == 1
  {
  }

  // ----- passing browser results -----

  /** Each entry once, in order of first occurrence. */
  function Deduplicated(xs: seq<string>): seq<string> {
    if xs == [] then []
    else
      var front := Deduplicated(xs[..|xs| - 1]);
      if xs[|xs| - 1] in front then front else front + [xs[|xs| - 1]]
  }

  lemma {:induction false} DeduplicatedCovers(xs: seq<string>)
    ensures Covers(Deduplicated(xs), xs)
  {
    if xs == [] {
    } else {
      var front, last := xs[..|xs| - 1], xs[|xs| - 1];
      DeduplicatedCovers(front);
      assert xs == front + [last];
      assert Elements(xs) == Elements(front) + {last};
      assert Elements(Deduplicated(front) + [last]) == Elements(Deduplicated(front)) + {last};
      assert last in Deduplicated(front) <==> last in Elements(Deduplicated(front));
    }
  }

  function PassingResult(browser: string, d: Descriptors): BrowserResult {
    var sdks := SameServerComponents(browser);
    BrowserResult(1, PASSED, browser, map c | c in d :: (d[c].archive, d[c].coordinate.version),
                  d[Typescript].coordinate.commit, SampleAssignments(sdks), true, true,
                  map c | c in sdks && c in d :: Deduplicated(d[c].contract.claimed), map c | c in sdks :: FAULTS)
  }

  lemma FaultsCover()
    ensures Covers(FAULTS, FAULTS)
  {
    assert |FAULTS[0]| == 16 && |FAULTS[1]| == 15 && |FAULTS[2]| == 26;
  }

  function Initial(l: Label): char {
    match l
    case Backend => 'b'
    case Direct => 'd'
    case Sdk(c) => if c.Typescript? then 't' else if c.Python? then 'p' else 'r'
  }

  function SampleAssignments(sdks: set<Component>): Assignments {
    Assignments(Assignment("b", "b"), Assignment("d", "d"),
                map c | c in sdks :: Assignment([Initial(Sdk(c))], [Initial(Sdk(c))]))
  }

  lemma SampleIsIsolated(sdks: set<Component>)
    ensures Isolated(SampleAssignments(sdks)) && SampleAssignments(sdks).sdks.Keys == sdks
  {
    var a := SampleAssignments(sdks);
    forall l | l in Labels(a)
      ensures At(a, l).project == At(a, l).application == [Initial(l)]
    {
    }
  }

  lemma PassingResultShape(browser: string, d: Descriptors)
    ensures var v := PassingResult(browser, d);
            && v.browser == browser && v.schemaVersion == 1 && v.status == PASSED && v.exactArtifacts && v.sharedRuntime
            && v.candidates.Keys == d.Keys
            && v.assignments == SampleAssignments(SameServerComponents(browser))
            && v.observed.Keys == v.faults.Keys == SameServerComponents(browser)
            && forall c :: c in SameServerComponents(browser) && c in d ==>
                 v.observed[c] == Deduplicated(d[c].contract.claimed) && v.faults[c] == FAULTS
  {
    hide FAULTS, PASSED, SampleAssignments, Deduplicated;
    assert SameServerComponents(browser) <= COMPONENTS;
  }

  lemma PassingResultAgrees(browser: string, d: Descriptors)
    requires OneCoordinate(d)
    ensures forall c :: c in d ==> CandidateAgrees(PassingResult(browser, d), c, d[c])
  {
    hide FAULTS, PASSED, SampleAssignments, SameServerComponents, Deduplicated;
  }

  lemma PassingResultPasses(browser: string, d: Descriptors)
    requires browser in BROWSERS && OneCoordinate(d)
    ensures BrowserPassed(PassingResult(browser, d), d)
  {
    hide PassingResult, Covers, BROWSERS, PASSED, Isolated, FAULTS, SampleAssignments, SameServerComponents,
      CandidateAgrees, Deduplicated;
    FaultsCover();
    PassingResultShape(browser, d);
    SampleIsIsolated(SameServerComponents(browser));
    PassingResultAgrees(browser, d);
    forall c | c in d ensures Covers(Deduplicated(d[c].contract.claimed), d[c].contract.claimed) {
      DeduplicatedCovers(d[c].contract.claimed);
    }
  }

  /** Candidates that share a coordinate can be accepted, with the results in either order. */
  lemma EitherOrderIsAccepted(d: Descriptors, digest: Descriptor -> Sha, one: string, other: string)
    requires OneCoordinate(d) && {one, other} == BROWSERS && one != other
    ensures Accepts(d, PassingFragments(d, digest), [PassingResult(one, d), PassingResult(other, d)], digest)
  {
    hide OneCoordinate, BrowserPassed, Qualified, PassingFragments;
    PassingFragmentsQualify(d, digest);
    PassingResultPasses(one, d);
    PassingResultPasses(other, d);
    var results := [PassingResult(one, d), PassingResult(other, d)];
    assert results[0].browser == one && results[1].browser == other;
  }

  // ----- accepted runs whose manifests are refused -----

  /** Whatever the candidates: the producer accepts the results in the wrong order, the verifier refuses. */
  lemma FirefoxFirstIsRefused(d: Descriptors, o: Options, digest: Descriptor -> Sha)
    requires OneCoordinate(d)
    ensures var results := [PassingResult(FIREFOX, d), PassingResult(CHROMIUM, d)];
            && Accepts(d, PassingFragments(d, digest), results, digest)
            && !Verified(BuildManifest(Typescript, d[Typescript], results, d[Typescript].coordinate.commit, digest),
                         d[Typescript], o, digest)
  {
    hide OneCoordinate, BrowsersPassed, Verified, Qualified, CHROMIUM, FIREFOX, PassingFragments;
    var results := [PassingResult(FIREFOX, d), PassingResult(CHROMIUM, d)];
    BrowsersDiffer();
    EitherOrderIsAccepted(d, digest, FIREFOX, CHROMIUM);
    assert results[0].browser == FIREFOX;
    ManifestsVerify(d, results, Typescript, o, digest);
  }

  /** Whatever is filed under the wrong component: the producer accepts it, the verifier refuses for any caller. */
  lemma MisfiledIsRefused(d: Descriptors, c: Component, o: Options, digest: Descriptor -> Sha)
    requires OneCoordinate(d) && d[c].coordinate.component != c
    ensures var results := [PassingResult(CHROMIUM, d), PassingResult(FIREFOX, d)];
            && Accepts(d, PassingFragments(d, digest), results, digest)
            && !Verified(BuildManifest(c, d[c], results, d[c].coordinate.commit, digest), d[c], o, digest)
  {
    hide OneCoordinate, BrowsersPassed, Verified, Qualified, CHROMIUM, FIREFOX, PassingFragments;
    BrowsersDiffer();
    EitherOrderIsAccepted(d, digest, CHROMIUM, FIREFOX);
    ManifestsVerify(d, [PassingResult(CHROMIUM, d), PassingResult(FIREFOX, d)], c, o, digest);
  }
}
