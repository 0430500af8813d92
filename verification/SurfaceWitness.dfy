/**
 Documents that the normaliser accepts and whose surface silently lacks a security scheme that a
 claimed operation names and a schema that it refers to.
 */
module SurfaceWitness {
  import opened Wrappers
  import opened Text
  import opened JsonPointer
  import opened JsonText
  import opened Contract
  import opened OpenApi
  import opened Normal = Surface

  const NAMED: string := "a~1b"
  const FOUND: string := "a/b"
  const CLAIMED: string := "op"
  const HEALTH: string := "ok"
  const GET: string := "get"
  const VERB: string := "GET"
  const HERE: string := "/a"
  const THERE: string := "/health"
  const BODY: string := "body"
  const PROPERTIES: string := "properties"
  const CONTENT: string := "content"
  const SCHEMAS: string := "schemas"
  const SCHEMA_REFERENCE: string := "#/" + (COMPONENTS + "/" + (SCHEMAS + "/" + "s"))
  const FORBIDDEN: string := "OperatorKey"

  const EMPTY := Obj(map[])
  const REQUIREMENT := Obj(map[NAMED := Arr([])])

  /** A property called content, whose schema is elsewhere. */
  const SCHEMA := Obj(map[PROPERTIES := Obj(map[CONTENT := Obj(map[REF := Str(SCHEMA_REFERENCE)])])])

  const VALUE: map<string, Json> :=
    map[OPERATION_ID := Str(CLAIMED), SECURITY := Arr([REQUIREMENT]), BODY := SCHEMA]
  const HEALTH_VALUE: map<string, Json> := map[OPERATION_ID := Str(HEALTH)]

  const RUNTIME_PATHS: map<string, Json> :=
    map[HERE := Obj(map[GET := Obj(VALUE)]), THERE := Obj(map[GET := Obj(HEALTH_VALUE)])]
  const CONTROL_PATHS: map<string, Json> := map[THERE := Obj(map[GET := Obj(HEALTH_VALUE)])]

  const ALL_COMPONENTS :=
    Obj(map[SECURITY_SCHEMES := Obj(map[NAMED := EMPTY, FOUND := EMPTY]), SCHEMAS := Obj(map["s" := EMPTY])])
  const RUNTIME := Obj(map[OPENAPI := Str(VERSION), PATHS := Obj(RUNTIME_PATHS), COMPONENTS := ALL_COMPONENTS])
  const CONTROL := Obj(map[OPENAPI := Str(VERSION), PATHS := Obj(CONTROL_PATHS)])
  const DOCUMENTS := Documents(RUNTIME, CONTROL, None)
  const POLICY := Policy({CLAIMED}, {HEALTH}, {FORBIDDEN})

  const OPERATION := Operation(VERB, HERE, VALUE, [])
  const HEALTH_OPERATION := Operation(VERB, THERE, HEALTH_VALUE, [])
  const RUNTIME_OPERATIONS: Operations := map[CLAIMED := OPERATION, HEALTH := HEALTH_OPERATION]
  const CONTROL_OPERATIONS: Operations := map[HEALTH := HEALTH_OPERATION]

  const SURFACE := Normal.Surface(map[CLAIMED := Entry(VERB, HERE, Obj(VALUE))],
                                  map[SECURITY_SCHEMES := map[FOUND := EMPTY]])

  // ----- the documents -----

  lemma NamesDiffer()
    ensures OPENAPI != PATHS && OPENAPI != COMPONENTS && PATHS != COMPONENTS && HERE != THERE && CLAIMED != HEALTH
    ensures SECURITY != OPENAPI && SECURITY != PATHS && SECURITY != COMPONENTS && SECURITY_SCHEMES != SCHEMAS
    ensures OPERATION_ID != SECURITY && OPERATION_ID != BODY && SECURITY != BODY && NAMED != FOUND
    ensures PARAMETERS != GET
  {
    assert |OPENAPI| == 7 && |PATHS| == 5 && |COMPONENTS| == 10 && |HERE| == 2 && |THERE| == 7 && |SECURITY| == 8;
    assert |SCHEMAS| == 7 && |SECURITY_SCHEMES| == 15 && |OPERATION_ID| == 11 && |BODY| == 4 && |GET| == 3;
    assert |PARAMETERS| == 10 && NAMED[1] != FOUND[1] && CLAIMED[1] != HEALTH[1];
  }

  lemma GetIsAVerb()
    ensures LowerCase(GET) == GET && GET in HTTP_METHODS && UpperCase(GET) == VERB
  {
  }

  /** Documents with one operation under each path. */
  lemma OneGetEach(paths: map<string, Json>)
    requires forall path :: path in paths ==> paths[path].Obj? && paths[path].fields.Keys == {GET}
    ensures Slots(paths) == set path | path in paths :: (path, GET)
    ensures forall path :: path in paths ==> WellFormedItem(paths[path]) && Parameters(paths[path]) == Some([])
  {
    hide LowerCase, HTTP_METHODS, GET, PARAMETERS;
    GetIsAVerb();
    NamesDiffer();
  }

  function IdAt(paths: map<string, Json>, path: string): Option<string> {
    if path !in paths || !paths[path].Obj? || GET !in paths[path].fields then None
    else OperationId(paths[path].fields[GET])
  }

  predicate GetOnly(paths: map<string, Json>) {
    && (forall path :: path in paths ==> paths[path].Obj? && paths[path].fields.Keys == {GET})
    && (forall path :: path in paths ==> IdAt(paths, path).Some?)
    && (forall a, b :: a in paths && b in paths && a != b ==> IdAt(paths, a) != IdAt(paths, b))
  }

  lemma GetSlots(paths: map<string, Json>)
    requires GetOnly(paths)
    ensures WellFormed(paths)
    ensures forall slot :: slot in Slots(paths) ==>
              slot.1 == GET && OperationId(OperationIn(paths, slot)) == IdAt(paths, slot.0)
    ensures forall path :: path in paths ==> (path, GET) in Slots(paths)
  {
    hide Slots, GET, Parameters, WellFormedItem, OperationId;
    OneGetEach(paths);
    forall slot | slot in Slots(paths)
      ensures slot.1 == GET && OperationId(OperationIn(paths, slot)) == IdAt(paths, slot.0)
    {
    }
  }

  lemma GetOperation(paths: map<string, Json>, path: string)
    requires GetOnly(paths) && path in paths && WellFormed(paths) && (path, GET) in Slots(paths)
    ensures paths[path].fields[GET].Obj?
    ensures Extracted(paths, (path, GET)) == Operation(VERB, path, paths[path].fields[GET].fields, [])
  {
    hide Slots, GET, VERB, UpperCase;
    GetIsAVerb();
    OneGetEach(paths);
  }

  lemma GetDocument(document: Json, paths: map<string, Json>)
    requires Paths(document) == Some(paths) && GetOnly(paths)
    ensures OperationsOf(document).Some?
    ensures OperationsOf(document).value.Keys == set path | path in paths :: IdAt(paths, path).value
    ensures forall path :: path in paths ==> paths[path].fields[GET].Obj?
    ensures forall path :: path in paths ==>
              OperationsOf(document).value[IdAt(paths, path).value]
              == Operation(VERB, path, paths[path].fields[GET].fields, [])
  {
    hide Slots, GET, VERB, Extracted, IdAt, OperationId, OperationIn, WellFormedItem;
    GetSlots(paths);
    var ops := OperationsIn(paths, Slots(paths));
    forall path | path in paths
      ensures paths[path].fields[GET].Obj?
      ensures ops[IdAt(paths, path).value] == Operation(VERB, path, paths[path].fields[GET].fields, [])
    {
      GetOperation(paths, path);
      assert ops[IdAt(paths, path).value] == Extracted(paths, (path, GET));
    }
  }

  lemma RuntimePaths()
    ensures Paths(RUNTIME) == Some(RUNTIME_PATHS) && RUNTIME_PATHS.Keys == {HERE, THERE}
    ensures forall path :: path in RUNTIME_PATHS ==>
              RUNTIME_PATHS[path].Obj? && RUNTIME_PATHS[path].fields.Keys == {GET}
    ensures RUNTIME_PATHS[HERE].fields[GET] == Obj(VALUE) && RUNTIME_PATHS[THERE].fields[GET] == Obj(HEALTH_VALUE)
    ensures IdAt(RUNTIME_PATHS, HERE) == Some(CLAIMED) && IdAt(RUNTIME_PATHS, THERE) == Some(HEALTH)
  {
    hide GET, HERE, THERE, CLAIMED, HEALTH, SCHEMA, REQUIREMENT, ALL_COMPONENTS, VERSION;
    NamesDiffer();
    IdentifiersAreGiven();
  }

  lemma RuntimeOperations()
    ensures OperationsOf(RUNTIME) == Some(RUNTIME_OPERATIONS)
  {
    hide OperationsOf, Paths, IdAt, GET, VERB, HERE, THERE, CLAIMED, HEALTH, VALUE, HEALTH_VALUE, RUNTIME,
      RUNTIME_PATHS, RUNTIME_OPERATIONS;
    NamesDiffer();
    RuntimePaths();
    GetDocument(RUNTIME, RUNTIME_PATHS);
    var ops := OperationsOf(RUNTIME).value;
    assert ops[CLAIMED] == OPERATION && ops[HEALTH] == HEALTH_OPERATION;
    assert ops.Keys == {CLAIMED, HEALTH};
    TheTwoOperations(ops);
  }

  lemma TheTwoOperations(ops: Operations)
    requires ops.Keys == {CLAIMED, HEALTH} && ops[CLAIMED] == OPERATION && ops[HEALTH] == HEALTH_OPERATION
    ensures ops == RUNTIME_OPERATIONS
  {
    hide CLAIMED, HEALTH, OPERATION, HEALTH_OPERATION;
    NamesDiffer();
  }

  lemma IdentifiersAreGiven()
    ensures CLAIMED != "" && HEALTH != ""
  {
  }

  lemma ControlOperations()
    ensures OperationsOf(CONTROL) == Some(CONTROL_OPERATIONS)
  {
    hide OperationsOf, GET, VERB, THERE, HEALTH, VERSION;
    NamesDiffer();
    IdentifiersAreGiven();
    assert Paths(CONTROL) == Some(CONTROL_PATHS);
    assert IdAt(CONTROL_PATHS, THERE) == Some(HEALTH);
    GetDocument(CONTROL, CONTROL_PATHS);
    var ops := OperationsOf(CONTROL).value;
    assert ops[HEALTH] == HEALTH_OPERATION;
    assert ops.Keys == {HEALTH} == CONTROL_OPERATIONS.Keys;
    assert ops == CONTROL_OPERATIONS;
  }

  lemma ControlIsAccepted()
    ensures PlaneAccepted(RUNTIME_OPERATIONS, CONTROL_OPERATIONS, POLICY)
  {
    hide CoreContract, CLAIMED, HEALTH, HERE, THERE;
    NamesDiffer();
    assert RUNTIME_OPERATIONS.Keys * CONTROL_OPERATIONS.Keys == {HEALTH};
  }

  // ----- the contract -----

  predicate Ordinary(key: string) {
    !Annotation(key) && !OpaqueKey(key)
  }

  lemma KeysAreOrdinary()
    ensures Ordinary(SECURITY) && NameMap(SECURITY) && Ordinary(OPERATION_ID) && Ordinary(BODY) && !NameMap(BODY)
    ensures Ordinary(PROPERTIES) && NameMap(PROPERTIES) && NameMap(CONTENT)
    ensures SECURITY != REF && OPERATION_ID != REF && BODY != REF && PROPERTIES != REF
  {
    assert |SECURITY| == 8 && |OPERATION_ID| == 11 && |BODY| == 4 && |PROPERTIES| == 10 && |REF| == 4;
    assert SECURITY[0] == 's' && BODY[0] == 'b' && PROPERTIES[0] == 'p' && OPERATION_ID[0] == 'o' && REF[0] == '$';
  }

  /** Stripping leaves it as it is and the collector finds nothing in it. */
  predicate Inert(v: Json, names: bool) {
    Strip(v, names) == v && References(v, names) == {} && ReferencesAreStrings(v, names)
  }

  lemma ObjectIsInert(fields: map<string, Json>, names: bool)
    requires forall k :: k in fields ==> Inert(fields[k], NameMap(k)) && (names || (Ordinary(k) && k != REF))
    ensures Inert(Obj(fields), names)
  {
    hide Annotation, OpaqueKey, NameMap, REF;
  }

  lemma ListIsInert(items: seq<Json>, names: bool)
    requires forall i :: 0 <= i < |items| ==> Inert(items[i], names)
    ensures Inert(Arr(items), names)
  {
  }

  lemma TextIsInert(text: string, names: bool)
    ensures Inert(Str(text), names)
  {
  }

  lemma RequirementIsInert()
    ensures Inert(Arr([REQUIREMENT]), true)
  {
    hide Inert, NameMap, NAMED;
    ListIsInert([], NameMap(NAMED));
    ObjectIsInert(map[NAMED := Arr([])], true);
    ListIsInert([REQUIREMENT], true);
  }

  const INNER := Obj(map[REF := Str(SCHEMA_REFERENCE)])
  const MIDDLE := Obj(map[CONTENT := INNER])

  /** The schema under content is taken for a map of names. */
  lemma SchemaIsInert()
    ensures Inert(SCHEMA, false) && SCHEMA_REFERENCE in Hidden(SCHEMA, false)
  {
    hide Inert, NameMap, Ordinary, SCHEMA_REFERENCE, PROPERTIES, CONTENT, REF, Hidden;
    KeysAreOrdinary();
    TextIsInert(SCHEMA_REFERENCE, NameMap(REF));
    ObjectIsInert(INNER.fields, true);
    ObjectIsInert(MIDDLE.fields, true);
    ObjectIsInert(SCHEMA.fields, false);
    HiddenInside(INNER.fields, SCHEMA_REFERENCE);
    HiddenBelow(MIDDLE.fields, CONTENT, true, SCHEMA_REFERENCE);
    HiddenBelow(SCHEMA.fields, PROPERTIES, false, SCHEMA_REFERENCE);
  }

  lemma HiddenInside(fields: map<string, Json>, r: string)
    requires REF in fields && fields[REF] == Str(r)
    ensures r in Hidden(Obj(fields), true)
  {
    hide REF, Followed, NameMap;
  }

  lemma HiddenBelow(fields: map<string, Json>, k: string, names: bool, r: string)
    requires k in fields && r in Hidden(fields[k], NameMap(k)) && (names || (Ordinary(k) && k != REF))
    ensures r in Hidden(Obj(fields), names)
  {
    hide REF, OpaqueKey, NameMap;
    assert Followed(k, names);
  }

  lemma ContractIsInert()
    ensures Inert(Obj(VALUE), false) && SCHEMA_REFERENCE in Hidden(Obj(VALUE), false)
  {
    hide Inert, NameMap, Ordinary, SCHEMA, REQUIREMENT, SCHEMA_REFERENCE, CLAIMED, BODY, SECURITY, OPERATION_ID,
      REF, Hidden;
    KeysAreOrdinary();
    NamesDiffer();
    TextIsInert(CLAIMED, NameMap(OPERATION_ID));
    RequirementIsInert();
    SchemaIsInert();
    ObjectIsInert(VALUE, false);
    HiddenBelow(VALUE, BODY, false, SCHEMA_REFERENCE);
  }

  lemma ContractIsRetained()
    ensures RetainedContract(OPERATION, RootSecurity(RUNTIME)) == Obj(VALUE)
  {
    hide Strip, References, ReferencesAreStrings, RootSecurity, SCHEMA, REQUIREMENT;
    ContractIsInert();
    assert SECURITY in VALUE;
  }

  lemma ContractNames()
    ensures SecurityNames(Obj(VALUE)) == Some({NAMED})
  {
    hide SCHEMA;
    NamesDiffer();
    var items := [REQUIREMENT];
    assert Child(Obj(VALUE), SECURITY) == Some(Arr(items)) && Requirement(items[0]);
    var names := set i, n | 0 <= i < |items| && n in items[i].fields :: n;
    assert items[0].fields.Keys == {NAMED} && NAMED in items[0].fields;
    assert names == {NAMED};
  }

  lemma ContractAsksForIt()
    ensures Presentable(Obj(VALUE)) && References(Obj(VALUE), false) == {} && SecurityNames(Obj(VALUE)) == Some({NAMED})
    ensures SCHEMA_REFERENCE in Hidden(Obj(VALUE), false)
  {
    hide SecurityNames, References, ReferencesAreStrings, VALUE, Hidden;
    ContractNames();
    ContractIsInert();
  }

  lemma Selection()
    ensures Selected(RUNTIME, RUNTIME_OPERATIONS, {CLAIMED}) == SURFACE.operations
    ensures Names(SURFACE.operations) == {NAMED} && Initial(SURFACE.operations) == {SecurityReference(NAMED)}
  {
    hide RetainedContract, SecurityReference, SecurityNames, References, VALUE, RUNTIME, CLAIMED, HEALTH;
    NamesDiffer();
    ContractIsRetained();
    ContractAsksForIt();
    assert SURFACE.operations[CLAIMED].contract == Obj(VALUE);
  }

  // ----- what it reaches -----

  lemma TargetIsTheOther()
    ensures ComponentOf(SecurityReference(NAMED)) == Some((SECURITY_SCHEMES, FOUND))
    ensures Component(RUNTIME, SECURITY_SCHEMES, FOUND) == Some(EMPTY) && Strip(EMPTY, false) == EMPTY
    ensures Target(RUNTIME, SecurityReference(NAMED)) == Some(EMPTY) && Usable(RUNTIME, SecurityReference(NAMED))
    ensures Edges(RUNTIME, SecurityReference(NAMED)) == {}
  {
    hide ComponentOf, Resolve, SecurityReference, RUNTIME_PATHS;
    NamesDiffer();
    SecurityReferenceMisses();
    ResolveComponent(RUNTIME, SecurityReference(NAMED));
  }

  lemma ReachesOnlyTheOther(r: string)
    ensures Reachable(RUNTIME, {SecurityReference(NAMED)}, r) <==> r == SecurityReference(NAMED)
  {
    hide Edges, SecurityReference, RUNTIME;
    TargetIsTheOther();
    var start := SecurityReference(NAMED);
    ReachableStart(RUNTIME, {start}, start);
    if Reachable(RUNTIME, {start}, r) {
      ReachableIsLeast(RUNTIME, {start}, {start}, r);
    }
  }

  lemma CollectsTheOther()
    ensures Collects(RUNTIME, {SecurityReference(NAMED)}, SURFACE.components)
  {
    hide ComponentOf, Component, SecurityReference, Strip, RUNTIME;
    TargetIsTheOther();
    var start := SecurityReference(NAMED);
    forall c, n | Has(SURFACE.components, c, n) ensures exists r :: r in {start} && ComponentOf(r) == Some((c, n)) {
      assert start in {start};
    }
  }

  lemma SpansTheOther()
    ensures Spans(RUNTIME, {SecurityReference(NAMED)}, {SecurityReference(NAMED)})
  {
    hide Reachable, Usable, SecurityReference, RUNTIME, Target, ComponentOf, Component, Edges;
    TargetIsTheOther();
    forall r ensures Reachable(RUNTIME, {SecurityReference(NAMED)}, r) <==> r == SecurityReference(NAMED) {
      ReachesOnlyTheOther(r);
    }
  }

  lemma SurfaceIsTheirs()
    ensures IsSurfaceOf(DOCUMENTS, POLICY, SURFACE)
  {
    hide Collects, Spans, Selected, Names, Initial, SecurityReference, RUNTIME, VALUE, OperationsOf;
    RuntimeOperations();
    Selection();
    CollectsTheOther();
    SpansTheOther();
  }

  // ----- acceptance -----

  lemma SchemeExists()
    ensures SchemesExist(RUNTIME, {NAMED})
  {
    hide RUNTIME_PATHS;
    NamesDiffer();
  }

  lemma NamedIsAllowed()
    ensures NAMED != FORBIDDEN
  {
    assert |NAMED| != |FORBIDDEN|;
  }

  lemma AcceptableParts(runtime: Json, operations: Operations, plane: Operations, policy: Policy,
                        selected: map<string, Entry>)
    requires PlaneAccepted(operations, plane, policy) && policy.claimed <= operations.Keys
    requires selected == Selected(runtime, operations, policy.claimed)
    requires forall id :: id in selected ==> Presentable(selected[id].contract)
    requires Names(selected) !! policy.forbidden && SchemesExist(runtime, Names(selected))
    requires forall r :: Reachable(runtime, Initial(selected), r) ==> Usable(runtime, r)
    ensures Acceptable(runtime, operations, [plane], policy)
  {
    hide PlaneAccepted, Selected, Presentable, Names, SchemesExist, Reachable, Initial, Usable;
  }

  lemma PolicyClaims()
    ensures POLICY.claimed == {CLAIMED} && {CLAIMED} <= RUNTIME_OPERATIONS.Keys && {NAMED} !! POLICY.forbidden
    ensures SURFACE.operations.Keys == {CLAIMED} && SURFACE.operations[CLAIMED].contract == Obj(VALUE)
  {
    hide VALUE, HEALTH_VALUE, NAMED, FORBIDDEN, CLAIMED, HEALTH;
    NamedIsAllowed();
  }

  lemma OperationsAreAcceptable()
    ensures Acceptable(RUNTIME, RUNTIME_OPERATIONS, [CONTROL_OPERATIONS], POLICY)
  {
    hide Reachable, Usable, Selected, Names, Initial, SecurityReference, Presentable, SchemesExist, RUNTIME, VALUE,
      PlaneAccepted, CLAIMED, HEALTH, NAMED, FORBIDDEN, POLICY, RUNTIME_OPERATIONS, CONTROL_OPERATIONS, SURFACE;
    ControlIsAccepted();
    PolicyClaims();
    Selection();
    ContractAsksForIt();
    SchemeExists();
    TargetIsTheOther();
    forall r | Reachable(RUNTIME, {SecurityReference(NAMED)}, r) ensures Usable(RUNTIME, r) {
      ReachesOnlyTheOther(r);
    }
    AcceptableParts(RUNTIME, RUNTIME_OPERATIONS, CONTROL_OPERATIONS, POLICY, SURFACE.operations);
  }

  lemma DocumentsAreAcceptable()
    ensures AcceptableDocuments(DOCUMENTS, POLICY)
  {
    hide OperationsOf, Acceptable, RUNTIME, CONTROL, RUNTIME_OPERATIONS, CONTROL_OPERATIONS, POLICY;
    RuntimeOperations();
    ControlOperations();
    OperationsAreAcceptable();
    assert Planes(DOCUMENTS) == [CONTROL_OPERATIONS];
  }

  /** A word with a capital K shows nowhere in the text. */
  lemma NothingForbidden(number: real -> string)
    ensures !Mentions(SURFACE, number, FORBIDDEN)
  {
    hide Contains, Dump, SurfaceJson, Vocabulary, Numberless;
    SurfaceAvoids();
    DumpAvoids(SurfaceJson(SURFACE), number, 'K');
    if Contains(Dump(SurfaceJson(SURFACE), number), FORBIDDEN) {
      ContainedCharacters(Dump(SurfaceJson(SURFACE), number), FORBIDDEN, 8);
    }
  }

  predicate Avoids(v: Json) {
    Numberless(v) && forall t :: t in Vocabulary(v) ==> 'K' !in t
  }

  lemma ObjectAvoids(fields: map<string, Json>)
    requires forall k :: k in fields ==> 'K' !in k && Avoids(fields[k])
    ensures Avoids(Obj(fields))
  {
  }

  lemma ListAvoids(items: seq<Json>)
    requires forall i :: 0 <= i < |items| ==> Avoids(items[i])
    ensures Avoids(Arr(items))
  {
  }

  lemma TextAvoids(text: string)
    requires 'K' !in text
    ensures Avoids(Str(text))
  {
  }

  lemma NamesAvoid()
    ensures 'K' !in NAMED && 'K' !in FOUND && 'K' !in CLAIMED && 'K' !in HERE && 'K' !in BODY && 'K' !in PROPERTIES
    ensures 'K' !in CONTENT && 'K' !in SCHEMA_REFERENCE && 'K' !in OPERATION_ID && 'K' !in SECURITY && 'K' !in REF
    ensures 'K' !in SECURITY_SCHEMES && 'K' !in VERB
    ensures 'K' !in OPERATIONS && 'K' !in COMPONENTS && 'K' !in METHOD && 'K' !in PATH && 'K' !in CONTRACT
  {
  }

  lemma SchemaAvoids()
    ensures Avoids(SCHEMA)
  {
    hide Avoids, PROPERTIES, CONTENT, SCHEMA_REFERENCE, REF;
    NamesAvoid();
    TextAvoids(SCHEMA_REFERENCE);
    ObjectAvoids(INNER.fields);
    ObjectAvoids(MIDDLE.fields);
    ObjectAvoids(SCHEMA.fields);
  }

  lemma ValueAvoids()
    ensures Avoids(Obj(VALUE))
  {
    hide Avoids, NAMED, CLAIMED, BODY, OPERATION_ID, SECURITY, SCHEMA;
    NamesAvoid();
    SchemaAvoids();
    TextAvoids(CLAIMED);
    ListAvoids([]);
    ObjectAvoids(map[NAMED := Arr([])]);
    ListAvoids([REQUIREMENT]);
    ObjectAvoids(VALUE);
  }

  lemma EntryAvoids()
    ensures Avoids(EntryJson(SURFACE.operations[CLAIMED]))
  {
    hide Avoids, VALUE, CLAIMED, HERE, VERB, METHOD, PATH, CONTRACT;
    NamesAvoid();
    ValueAvoids();
    TextAvoids(VERB);
    TextAvoids(HERE);
    ObjectAvoids(EntryJson(SURFACE.operations[CLAIMED]).fields);
  }

  lemma ComponentsAvoid()
    ensures Avoids(Obj(map c | c in SURFACE.components :: Obj(SURFACE.components[c])))
  {
    hide Avoids, FOUND, SECURITY_SCHEMES;
    NamesAvoid();
    ObjectAvoids(map[]);
    ObjectAvoids(SURFACE.components[SECURITY_SCHEMES]);
    ObjectAvoids(map c | c in SURFACE.components :: Obj(SURFACE.components[c]));
  }

  lemma SurfaceAvoids()
    ensures Avoids(SurfaceJson(SURFACE))
  {
    hide Avoids, VALUE, CLAIMED, EntryJson, OPERATIONS, COMPONENTS, HERE, VERB, FOUND, SECURITY_SCHEMES;
    NamesAvoid();
    EntryAvoids();
    ComponentsAvoid();
    ObjectAvoids(map id | id in SURFACE.operations :: EntryJson(SURFACE.operations[id]));
    ObjectAvoids(SurfaceJson(SURFACE).fields);
  }

  /**
   The normaliser accepts these documents, and their surface lacks the scheme that the claimed
   operation names and the schema whose reference stands in its text.
   */
  lemma NamedSchemeIsMissing(number: real -> string)
    ensures AcceptableDocuments(DOCUMENTS, POLICY) && IsSurfaceOf(DOCUMENTS, POLICY, SURFACE)
    ensures forall w :: w in POLICY.forbidden ==> !Mentions(SURFACE, number, w)
    ensures NAMED in Names(SURFACE.operations) && !Has(SURFACE.components, SECURITY_SCHEMES, NAMED)
    ensures !TextIsSelfContained(SURFACE)
  {
    hide AcceptableDocuments, IsSurfaceOf, Names, Initial, Selected, VALUE, Mentions;
    DocumentsAreAcceptable();
    SurfaceIsTheirs();
    NothingForbidden(number);
    Selection();
    NamesDiffer();
    SchemaIsMissing();
  }

  lemma SchemaIsMissing()
    ensures !TextIsSelfContained(SURFACE)
  {
    hide Textual, Hidden, References, ComponentOf, VALUE, SCHEMA_REFERENCE, SECURITY_SCHEMES, SCHEMAS;
    ContractAsksForIt();
    TextualIsFollowedOrHidden(Obj(VALUE), false);
    SchemaReferenceIsLocal();
    NamesDiffer();
    assert SCHEMA_REFERENCE in Textual(SURFACE.operations[CLAIMED].contract);
    assert !Provided(SURFACE.components, SCHEMA_REFERENCE);
  }

  lemma SchemaReferenceIsLocal()
    ensures ComponentOf(SCHEMA_REFERENCE) == Some((SCHEMAS, "s"))
  {
    hide Split, DecodeSegment, Unescape, HasEscape, COMPONENTS, SCHEMAS;
    ConstantsArePlain();
    SchemasArePlain();
    assert SCHEMA_REFERENCE[2..] == COMPONENTS + "/" + (SCHEMAS + "/" + "s");
    SplitFirst(COMPONENTS, SCHEMAS + "/" + "s", '/');
    SplitFirst(SCHEMAS, "s", '/');
    SplitPlain("s", '/');
    assert Segments(SCHEMA_REFERENCE) == [COMPONENTS] + ([SCHEMAS] + ["s"]);
  }

  lemma SchemasArePlain()
    ensures '/' !in SCHEMAS && DecodeSegment(SCHEMAS) == SCHEMAS && DecodeSegment("s") == "s"
  {
    hide DecodeSegment, Unescape;
    DecodeIsUnescape(SCHEMAS);
    UnescapeChanges(SCHEMAS);
    DecodeIsUnescape("s");
    UnescapeChanges("s");
  }
}
