/** The normalised surface of the claimed Runtime operations, and what it depends on. */
module Surface {
  import opened Wrappers
  import opened JsonPointer
  import opened Contract
  import opened OpenApi
  import opened JsonText

  const SECURITY: string := "security"
  const PATH_PARAMETERS: string := "pathParameters"
  const OPERATIONS: string := "operations"
  const METHOD: string := "method"
  const PATH: string := "path"
  const CONTRACT: string := "contract"

  datatype Policy = Policy(claimed: set<string>, shared: set<string>, forbidden: set<string>)

  datatype Entry = Entry(verb: string, path: string, contract: Json)
  datatype Surface = Surface(operations: map<string, Entry>, components: Components)

  // ----- the other planes -----

  predicate SameIdentity(a: Operation, b: Operation) {
    a.verb == b.verb && a.path == b.path
  }

  /** The stripped operation without its plane-owned timeout response. */
  function CoreContract(op: Operation): Json {
    var contract := Strip(Obj(op.value), false);
    match Child(contract, "responses")
    case Some(Obj(responses)) => Obj(contract.fields["responses" := Obj(responses - {"408"})])
    case _ => contract
  }

  predicate PlaneAccepted(runtime: Operations, plane: Operations, policy: Policy) {
    && runtime.Keys * plane.Keys == policy.shared
    && (forall i, j :: i in runtime && j in plane && SameIdentity(runtime[i], plane[j]) ==>
          i == j && i in policy.shared && CoreContract(runtime[i]) == CoreContract(plane[j]))
    && (forall i :: i in policy.shared ==> SameIdentity(runtime[i], plane[i]))
    && policy.claimed !! plane.Keys
  }

  // ----- the claimed operations -----

  function RootSecurity(runtime: Json): Json {
    match Child(runtime, SECURITY)
    case Some(v) => v
    case None => Arr([])
  }

  /** The contract of one operation: explicit security, path parameters, no annotations. */
  function RetainedContract(op: Operation, root: Json): Json {
    var secured := if SECURITY in op.value then op.value else op.value[SECURITY := root];
    Strip(Obj(if op.parameters == [] then secured else secured[PATH_PARAMETERS := Arr(op.parameters)]), false)
  }

  predicate Requirement(v: Json) {
    v.Obj? && forall n :: n in v.fields ==> v.fields[n].Arr?
  }

  /** The security schemes a contract names; None if its security is malformed. */
  function SecurityNames(contract: Json): Option<set<string>> {
    match Child(contract, SECURITY)
    case None => Some({})
    case Some(Arr(items)) =>
      if forall i :: 0 <= i < |items| ==> Requirement(items[i])
      then Some(set i, n | 0 <= i < |items| && n in items[i].fields :: n)
      else None
    case Some(_) => None
  }

  predicate Presentable(contract: Json) {
    ReferencesAreStrings(contract, false) && SecurityNames(contract).Some?
  }

  function Selected(runtime: Json, operations: Operations, claimed: set<string>): map<string, Entry>
    requires claimed <= operations.Keys
  {
    map id | id in claimed ::
      Entry(operations[id].verb, operations[id].path, RetainedContract(operations[id], RootSecurity(runtime)))
  }

  function Names(selected: map<string, Entry>): set<string> {
    set id, n | id in selected && SecurityNames(selected[id].contract).Some?
             && n in SecurityNames(selected[id].contract).value :: n
  }

  /** Where the reference worklist starts. */
  function Initial(selected: map<string, Entry>): set<string> {
    (set id, r | id in selected && r in References(selected[id].contract, false) :: r)
    + (set n | n in Names(selected) :: SecurityReference(n))
  }

  /** An optional object that is empty when absent. */
  function Section(v: Json, name: string): Option<map<string, Json>> {
    match Child(v, name)
    case None => Some(map[])
    case Some(Obj(fields)) => Some(fields)
    case Some(_) => None
  }

  predicate SchemesExist(runtime: Json, names: set<string>) {
    match Section(runtime, COMPONENTS)
    case None => false
    case Some(components) =>
      match Section(Obj(components), SECURITY_SCHEMES)
      case None => false
      case Some(schemes) => names <= schemes.Keys
  }

  /** Everything the normaliser demands before it looks at the text of the result. */
  ghost predicate Acceptable(runtime: Json, operations: Operations, planes: seq<Operations>, policy: Policy) {
    && (forall i :: 0 <= i < |planes| ==> PlaneAccepted(operations, planes[i], policy))
    && policy.claimed <= operations.Keys
    && var selected := Selected(runtime, operations, policy.claimed);
      && (forall id :: id in selected ==> Presentable(selected[id].contract))
      && Names(selected) !! policy.forbidden
      && SchemesExist(runtime, Names(selected))
      && forall r :: Reachable(runtime, Initial(selected), r) ==> Usable(runtime, r)
  }

  /** The claimed operations, stripped, with exactly the components reachable from them. */
  ghost predicate IsSurface(runtime: Json, operations: Operations, claimed: set<string>, surface: Surface) {
    && claimed <= operations.Keys
    && surface.operations == Selected(runtime, operations, claimed)
    && exists references :: Spans(runtime, Initial(surface.operations), references)
                         && Collects(runtime, references, surface.components)
  }

  /** The references reachable from the initial ones, each usable. */
  ghost predicate Spans(runtime: Json, initial: set<string>, references: set<string>) {
    forall r :: (r in references <==> Reachable(runtime, initial, r)) && (r in references ==> Usable(runtime, r))
  }

  // ----- the normaliser -----

  /** The surface as it is written out. */
  function SurfaceJson(s: Surface): Json {
    Obj(map[OPERATIONS := Obj(map id | id in s.operations :: EntryJson(s.operations[id])),
            COMPONENTS := Obj(map c | c in s.components :: Obj(s.components[c]))])
  }

  function EntryJson(e: Entry): Json {
    Obj(map[METHOD := Str(e.verb), PATH := Str(e.path), CONTRACT := e.contract])
  }

  /** Does the text of the surface show the word? */
  predicate Mentions(s: Surface, number: real -> string, word: string) {
    Contains(Dump(SurfaceJson(s), number), word)
  }

  /** From the extracted operations on. */
  method Normalize(runtime: Json, operations: Operations, planes: seq<Operations>, policy: Policy,
                   number: real -> string)
    returns (r: Option<Surface>)
    ensures r.Some? ==> Acceptable(runtime, operations, planes, policy)
    ensures r.Some? ==> IsSurface(runtime, operations, policy.claimed, r.value)
    ensures r.Some? ==> forall w :: w in policy.forbidden ==> !Mentions(r.value, number, w)
    ensures r.None? && Acceptable(runtime, operations, planes, policy) ==>
              exists s, w :: IsSurface(runtime, operations, policy.claimed, s)
                          && w in policy.forbidden && Mentions(s, number, w)
  {
    hide PlaneAccepted, Presentable, Usable, Reachable, Collects, Initial, Names, RetainedContract, SchemesExist,
      Mentions;
    if exists i :: 0 <= i < |planes| && !PlaneAccepted(operations, planes[i], policy) {
      return None;
    }
    if !(policy.claimed <= operations.Keys) {
      return None;
    }
    var selected := Selected(runtime, operations, policy.claimed);
    if exists id :: id in selected && !Presentable(selected[id].contract) {
      return None;
    }
    if !(Names(selected) !! policy.forbidden) || !SchemesExist(runtime, Names(selected)) {
      return None;
    }
    ghost var collected;
    var components;
    components, collected := CloseReferences(runtime, Initial(selected));
    if components.None? {
      return None;
    }
    var surface := Surface(selected, components.value);
    assert Spans(runtime, Initial(selected), collected);
    if exists w :: w in policy.forbidden && Mentions(surface, number, w) {
      return None;
    }
    r := Some(surface);
  }

  /** The runtime, control and server documents, with their operations. */
  datatype Documents = Documents(runtime: Json, control: Json, server: Option<Json>)

  predicate Readable(docs: Documents) {
    && OperationsOf(docs.runtime).Some? && OperationsOf(docs.control).Some?
    && (docs.server.Some? ==> OperationsOf(docs.server.value).Some?)
  }

  /** The other planes, control first. */
  function Planes(docs: Documents): seq<Operations>
    requires Readable(docs)
  {
    [OperationsOf(docs.control).value] + if docs.server.Some? then [OperationsOf(docs.server.value).value] else []
  }

  ghost predicate AcceptableDocuments(docs: Documents, policy: Policy) {
    Readable(docs) && Acceptable(docs.runtime, OperationsOf(docs.runtime).value, Planes(docs), policy)
  }

  ghost predicate IsSurfaceOf(docs: Documents, policy: Policy, surface: Surface) {
    && OperationsOf(docs.runtime).Some?
    && IsSurface(docs.runtime, OperationsOf(docs.runtime).value, policy.claimed, surface)
  }

  /**
   The normaliser succeeds exactly when the documents are acceptable and the text of their surface
   shows no forbidden word; no other plane then serves an operation of the surface.
   */
  method NormalizedSurface(docs: Documents, policy: Policy, number: real -> string) returns (r: Option<Surface>)
    ensures r.Some? ==> AcceptableDocuments(docs, policy) && IsSurfaceOf(docs, policy, r.value)
    ensures r.Some? ==> forall w :: w in policy.forbidden ==> !Mentions(r.value, number, w)
    ensures r.None? && AcceptableDocuments(docs, policy) ==>
              exists s, w :: IsSurfaceOf(docs, policy, s) && w in policy.forbidden && Mentions(s, number, w)
    ensures r.Some? ==> ServedByRuntimeOnly(docs, r.value)
  {
    hide OperationsOf, Acceptable, IsSurface, Mentions, ServedByRuntimeOnly;
    var operations := DocumentOperations(docs.runtime);
    var control := DocumentOperations(docs.control);
    if operations.None? || control.None? {
      return None;
    }
    var planes := [control.value];
    if docs.server.Some? {
      var server := DocumentOperations(docs.server.value);
      if server.None? {
        return None;
      }
      planes := planes + [server.value];
    }
    assert planes == Planes(docs);
    r := Normalize(docs.runtime, operations.value, planes, policy, number);
    if r.Some? {
      RuntimeOnly(docs, policy, r.value);
    }
  }

  predicate Serves(plane: Operations, id: string, e: Entry) {
    id in plane || exists other :: other in plane && plane[other].verb == e.verb && plane[other].path == e.path
  }

  /** No other plane serves an operation of the surface, under its own or any other identifier. */
  ghost predicate ServedByRuntimeOnly(docs: Documents, surface: Surface) {
    Readable(docs) && forall id, k :: id in surface.operations && 0 <= k < |Planes(docs)| ==>
      !Serves(Planes(docs)[k], id, surface.operations[id])
  }

  lemma RuntimeOnly(docs: Documents, policy: Policy, surface: Surface)
    requires AcceptableDocuments(docs, policy) && IsSurfaceOf(docs, policy, surface)
    ensures ServedByRuntimeOnly(docs, surface)
  {
    hide OperationsOf, CoreContract, RetainedContract, Presentable, Names, Initial, Reachable, Usable, Collects,
      SchemesExist, Spans;
    var operations: Operations := OperationsOf(docs.runtime).value;
    forall id, k | id in surface.operations && 0 <= k < |Planes(docs)|
      ensures !Serves(Planes(docs)[k], id, surface.operations[id])
    {
      var plane: Operations := Planes(docs)[k];
      assert PlaneAccepted(operations, plane, policy) && id in policy.claimed;
      forall other | other in plane && plane[other].verb == surface.operations[id].verb
        ensures plane[other].path != surface.operations[id].path
      {
        assert SameIdentity(operations[id], plane[other]) ==> other == id;
      }
    }
  }

  /** An accepted surface holds no forbidden word, unless it needs escaping, in any key or string. */
  lemma NoForbiddenVocabulary(surface: Surface, number: real -> string, word: string, text: string)
    requires !Mentions(surface, number, word) && PlainWord(word) && text in Vocabulary(SurfaceJson(surface))
    ensures !Contains(text, word)
  {
    hide Contains, PlainWord, SurfaceJson, Dump, Vocabulary;
    if Contains(text, word) {
      DumpShows(SurfaceJson(surface), number, text, word);
    }
  }

  // ----- what the surface holds -----

  /** The component a reference names is in the surface. */
  predicate Provided(components: Components, reference: string) {
    ComponentOf(reference).Some? && Has(components, ComponentOf(reference).value.0, ComponentOf(reference).value.1)
  }

  lemma SpannedIsProvided(runtime: Json, initial: set<string>, references: set<string>, components: Components,
                          reference: string)
    requires Spans(runtime, initial, references) && Collects(runtime, references, components)
    requires Reachable(runtime, initial, reference)
    ensures Target(runtime, reference).Some? && Provided(components, reference)
  {
    hide Reachable, Target, ComponentOf, Component, Strip, ReferencesAreStrings;
    assert reference in references;
    TargetIsComponent(runtime, reference);
    var (c, n) := ComponentOf(reference).value;
    assert Has(components, c, n);
  }

  /** No reference in a surface dangles: neither from an operation nor from a component. */
  lemma SurfaceIsSelfContained(runtime: Json, operations: Operations, claimed: set<string>, surface: Surface)
    requires IsSurface(runtime, operations, claimed, surface)
    ensures forall id, r :: id in surface.operations && r in References(surface.operations[id].contract, false) ==>
              Provided(surface.components, r)
    ensures forall c, n, r :: Has(surface.components, c, n) && r in References(surface.components[c][n], false) ==>
              Provided(surface.components, r)
  {
    hide Reachable, Target, ComponentOf, Component, Strip, References, Selected, Provided, ReferencesAreStrings;
    var initial := Initial(surface.operations);
    var references :| Spans(runtime, initial, references) && Collects(runtime, references, surface.components);
    forall id, r | id in surface.operations && r in References(surface.operations[id].contract, false)
      ensures Provided(surface.components, r)
    {
      ReachableStart(runtime, initial, r);
      SpannedIsProvided(runtime, initial, references, surface.components, r);
    }
    forall c, n, r | Has(surface.components, c, n) && r in References(surface.components[c][n], false)
      ensures Provided(surface.components, r)
    {
      var q :| q in references && ComponentOf(q) == Some((c, n));
      TargetIsComponent(runtime, q);
      ReachableStep(runtime, initial, q, r);
      SpannedIsProvided(runtime, initial, references, surface.components, r);
    }
  }

  /** The component of every reference that stands in the text of the surface is in the surface. */
  ghost predicate TextIsSelfContained(surface: Surface) {
    && (forall id, r :: id in surface.operations && r in Textual(surface.operations[id].contract) ==>
          Provided(surface.components, r))
    && (forall c, n, r :: Has(surface.components, c, n) && r in Textual(surface.components[c][n]) ==>
          Provided(surface.components, r))
  }

  ghost predicate HiddenAreProvided(surface: Surface) {
    && (forall id, r :: id in surface.operations && r in Hidden(surface.operations[id].contract, false) ==>
          Provided(surface.components, r))
    && (forall c, n, r :: Has(surface.components, c, n) && r in Hidden(surface.components[c][n], false) ==>
          Provided(surface.components, r))
  }

  /** That is so exactly when it is so for the references among names or inside opaque values. */
  lemma TextIsSelfContainedIff(runtime: Json, operations: Operations, claimed: set<string>, surface: Surface)
    requires IsSurface(runtime, operations, claimed, surface)
    ensures TextIsSelfContained(surface) <==> HiddenAreProvided(surface)
  {
    hide IsSurface, Textual, Hidden, References, Provided;
    SurfaceIsSelfContained(runtime, operations, claimed, surface);
    forall id | id in surface.operations
      ensures Textual(surface.operations[id].contract)
           == References(surface.operations[id].contract, false) + Hidden(surface.operations[id].contract, false)
    {
      TextualIsFollowedOrHidden(surface.operations[id].contract, false);
    }
    forall c, n | Has(surface.components, c, n)
      ensures Textual(surface.components[c][n])
           == References(surface.components[c][n], false) + Hidden(surface.components[c][n], false)
    {
      TextualIsFollowedOrHidden(surface.components[c][n], false);
    }
  }

  /**
   A security scheme that a claimed operation names is in the surface exactly when its name needs no
   escaping or another reachable reference names it.
   */
  lemma NamedSchemesArePresent(runtime: Json, operations: Operations, claimed: set<string>, surface: Surface,
                               name: string)
    requires IsSurface(runtime, operations, claimed, surface) && name in Names(surface.operations)
    ensures Has(surface.components, SECURITY_SCHEMES, name) <==>
            || NeedsNoEscaping(name)
            || exists r :: r != SecurityReference(name) && Reachable(runtime, Initial(surface.operations), r)
                        && ComponentOf(r) == Some((SECURITY_SCHEMES, name))
  {
    hide Reachable, Target, ComponentOf, Component, Strip, References, Selected, Names, NeedsNoEscaping,
      ReferencesAreStrings;
    var initial := Initial(surface.operations);
    var references :| Spans(runtime, initial, references) && Collects(runtime, references, surface.components);
    SecurityReferenceNamesItsScheme(name);
    ReachableStart(runtime, initial, SecurityReference(name));
    forall r | Reachable(runtime, initial, r) ensures Provided(surface.components, r) {
      SpannedIsProvided(runtime, initial, references, surface.components, r);
    }
  }

  // ----- what the surface depends on -----

  lemma SameTargetSameEdges(one: Json, two: Json, reference: string)
    requires Target(one, reference) == Target(two, reference)
    ensures Edges(one, reference) == Edges(two, reference)
  {
    hide Target, References;
  }

  lemma {:induction false} SamePaths(one: Json, two: Json, initial: set<string>, path: seq<string>)
    requires forall r :: Reachable(one, initial, r) ==> Target(one, r) == Target(two, r)
    requires IsPath(two, initial, path)
    ensures IsPath(one, initial, path)
    decreases |path|
  {
    hide Target, Edges;
    if |path| <= 1 {
    } else {
      var front := path[..|path| - 1];
      SamePaths(one, two, initial, front);
      assert Reachable(one, initial, front[|front| - 1]);
      SameTargetSameEdges(one, two, path[|path| - 2]);
    }
  }

  lemma SameEdges(one: Json, two: Json, initial: set<string>, path: seq<string>)
    requires forall r :: Reachable(one, initial, r) ==> Target(one, r) == Target(two, r)
    requires IsPath(one, initial, path)
    ensures IsPath(two, initial, path)
  {
    hide Target, Edges;
    forall i | 0 < i < |path| ensures path[i] in Edges(two, path[i - 1]) {
      var front := path[..i];
      assert IsPath(one, initial, front) && front[|front| - 1] == path[i - 1];
      assert Reachable(one, initial, path[i - 1]);
      SameTargetSameEdges(one, two, path[i - 1]);
    }
  }

  lemma SameReachable(one: Json, two: Json, initial: set<string>, reference: string)
    requires forall r :: Reachable(one, initial, r) ==> Target(one, r) == Target(two, r)
    ensures Reachable(one, initial, reference) <==> Reachable(two, initial, reference)
  {
    hide Edges, Target;
    if Reachable(one, initial, reference) {
      var path :| IsPath(one, initial, path) && path[|path| - 1] == reference;
      SameEdges(one, two, initial, path);
    }
    if Reachable(two, initial, reference) {
      var path :| IsPath(two, initial, path) && path[|path| - 1] == reference;
      SamePaths(one, two, initial, path);
    }
  }

  lemma SameComponents(one: Json, two: Json, references: set<string>, a: Components, b: Components)
    requires Collects(one, references, a) && Collects(two, references, b)
    requires forall r :: r in references ==> Target(one, r) == Target(two, r) && Target(one, r).Some?
    ensures a == b
  {
    hide Strip, Target, ComponentOf, Component;
    forall c, n | Has(a, c, n) ensures Has(b, c, n) && a[c][n] == b[c][n] {
      var r :| r in references && ComponentOf(r) == Some((c, n));
      TargetIsComponent(one, r);
      TargetIsComponent(two, r);
    }
    assert forall c, n :: Has(b, c, n) ==> Has(a, c, n);
    SameNested(a, b);
  }

  lemma SameCategory(a: Components, b: Components, category: string)
    requires forall n :: Has(a, category, n) <==> Has(b, category, n)
    requires forall n :: Has(a, category, n) && Has(b, category, n) ==> a[category][n] == b[category][n]
    requires category in a && a[category] != map[]
    ensures category in b && a[category] == b[category]
  {
    var n :| n in a[category];
    assert Has(a, category, n);
    assert forall m :: m in a[category] <==> Has(a, category, m);
    assert forall m :: m in b[category] <==> Has(b, category, m);
  }

  lemma SameNested(a: Components, b: Components)
    requires forall c, n :: Has(b, c, n) ==> Has(a, c, n)
    requires forall c, n :: Has(a, c, n) ==> Has(b, c, n) && a[c][n] == b[c][n]
    requires (forall c :: c in a ==> a[c] != map[]) && (forall c :: c in b ==> b[c] != map[])
    ensures a == b
  {
    forall c | c in a ensures c in b && a[c] == b[c] {
      SameCategory(a, b, c);
    }
    forall c | c in b ensures c in a {
      SameCategory(b, a, c);
    }
  }

  /**
   Two runtime documents that agree on the claimed operations, on the root security and on the
   components reachable from them have the same surface, whatever else they hold.
   */
  lemma SurfaceIsDetermined(one: Json, oneOps: Operations, two: Json, twoOps: Operations, claimed: set<string>,
                            a: Surface, b: Surface)
    requires IsSurface(one, oneOps, claimed, a) && IsSurface(two, twoOps, claimed, b)
    requires forall id :: id in claimed ==> oneOps[id] == twoOps[id]
    requires RootSecurity(one) == RootSecurity(two)
    requires forall r :: Reachable(one, Initial(a.operations), r) ==> Target(one, r) == Target(two, r)
    ensures a == b
  {
    hide Initial, Reachable, Collects, Target, RetainedContract, RootSecurity, ReferencesAreStrings;
    assert a.operations == b.operations;
    var initial := Initial(a.operations);
    var x :| Spans(one, initial, x) && Collects(one, x, a.components);
    var y :| Spans(two, initial, y) && Collects(two, y, b.components);
    forall r ensures r in x <==> r in y {
      SameReachable(one, two, initial, r);
    }
    assert x == y;
    SameComponents(one, two, x, a.components, b.components);
  }
}
