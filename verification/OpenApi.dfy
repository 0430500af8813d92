/** The operations of an OpenAPI document, extracted path by path and method by method. */
module OpenApi {
  import opened Wrappers
  import opened JsonPointer

  const HTTP_METHODS: set<string> := {"delete", "get", "head", "options", "patch", "post", "put", "trace"}
  const OPENAPI: string := "openapi"
  const VERSION: string := "3.1.0"
  const PATHS: string := "paths"
  const PARAMETERS: string := "parameters"
  const OPERATION_ID: string := "operationId"

  /** An operation of a plane, keyed by its operation identifier. */
  datatype Operation = Operation(verb: string, path: string, value: map<string, Json>, parameters: seq<Json>)
  type Operations = map<string, Operation>

  /** A path and one of its method keys. */
  type Slot = (string, string)

  function LowerCase(s: string): string {
    seq(|s|, i requires 0 <= i < |s| => if 'A' <= s[i] <= 'Z' then s[i] - 'A' + 'a' else s[i])
  }

  function UpperCase(s: string): string {
    seq(|s|, i requires 0 <= i < |s| => if 'a' <= s[i] <= 'z' then s[i] - 'a' + 'A' else s[i])
  }

  // ----- what a document says -----

  /** The paths of a supported document. */
  function Paths(document: Json): Option<map<string, Json>> {
    if Child(document, OPENAPI) != Some(Str(VERSION)) then None else
    match Child(document, PATHS)
    case Some(Obj(paths)) => Some(paths)
    case _ => None
  }

  function Parameters(item: Json): Option<seq<Json>> {
    match Child(item, PARAMETERS)
    case None => Some([])
    case Some(Arr(items)) => Some(items)
    case Some(_) => None
  }

  predicate WellFormedItem(item: Json) {
    item.Obj? && Parameters(item).Some?
  }

  function OperationId(op: Json): Option<string> {
    match Child(op, OPERATION_ID)
    case Some(Str(id)) => if id == "" then None else Some(id)
    case _ => None
  }

  function Slots(paths: map<string, Json>): (slots: set<Slot>)
    ensures forall slot :: slot in slots ==> slot.0 in paths
  {
    set path, method' | path in paths && paths[path].Obj? && method' in paths[path].fields
                     && LowerCase(method') in HTTP_METHODS :: (path, method')
  }

  function OperationIn(paths: map<string, Json>, slot: Slot): Json
    requires slot in Slots(paths)
  {
    paths[slot.0].fields[slot.1]
  }

  predicate Named(paths: map<string, Json>, slots: set<Slot>)
    requires slots <= Slots(paths)
  {
    forall slot :: slot in slots ==> OperationId(OperationIn(paths, slot)).Some?
  }

  /** No identifier is used twice. */
  predicate Unique(paths: map<string, Json>, slots: set<Slot>)
    requires slots <= Slots(paths)
  {
    forall a, b :: a in slots && b in slots && a != b ==>
      OperationId(OperationIn(paths, a)) != OperationId(OperationIn(paths, b))
  }

  predicate WellFormed(paths: map<string, Json>) {
    && (forall path :: path in paths ==> WellFormedItem(paths[path]))
    && Named(paths, Slots(paths)) && Unique(paths, Slots(paths))
  }

  function Extracted(paths: map<string, Json>, slot: Slot): Operation
    requires slot in Slots(paths) && WellFormedItem(paths[slot.0]) && OperationId(OperationIn(paths, slot)).Some?
  {
    Operation(UpperCase(slot.1), slot.0, OperationIn(paths, slot).fields, Parameters(paths[slot.0]).value)
  }

  /** The operations in some of the slots, by identifier. */
  function OperationsIn(paths: map<string, Json>, slots: set<Slot>): Operations
    requires slots <= Slots(paths) && (forall path :: path in paths ==> WellFormedItem(paths[path]))
    requires Named(paths, slots) && Unique(paths, slots)
  {
    map slot | slot in slots :: OperationId(OperationIn(paths, slot)).value := Extracted(paths, slot)
  }

  /** The operations of a document; None if it is not acceptable. */
  function OperationsOf(document: Json): Option<Operations> {
    if Paths(document).None? || !WellFormed(Paths(document).value) then None
    else Some(OperationsIn(Paths(document).value, Slots(Paths(document).value)))
  }

  // ----- the extraction -----

  lemma OneMoreOperation(paths: map<string, Json>, slots: set<Slot>, slot: Slot)
    requires slots <= Slots(paths) && slot in Slots(paths) && slot !in slots
    requires forall path :: path in paths ==> WellFormedItem(paths[path])
    requires Named(paths, slots) && Unique(paths, slots) && OperationId(OperationIn(paths, slot)).Some?
    ensures var id := OperationId(OperationIn(paths, slot)).value;
            && Named(paths, slots + {slot})
            && (Unique(paths, slots + {slot}) <==> id !in OperationsIn(paths, slots))
            && (id !in OperationsIn(paths, slots) ==>
                  OperationsIn(paths, slots + {slot}) == OperationsIn(paths, slots)[id := Extracted(paths, slot)])
  {
    hide Slots, OperationId, OperationIn, WellFormedItem, Extracted;
    var id := OperationId(OperationIn(paths, slot)).value;
    if id in OperationsIn(paths, slots) {
      var other :| other in slots && OperationId(OperationIn(paths, other)).value == id;
      assert OperationId(OperationIn(paths, other)) == OperationId(OperationIn(paths, slot));
    } else {
      assert forall other :: other in slots ==>
          OperationId(OperationIn(paths, other)).value in OperationsIn(paths, slots);
    }
  }

  /** The loop over paths and methods, in any order. */
  method DocumentOperations(document: Json) returns (r: Option<Operations>)
    ensures r == OperationsOf(document)
  {
    hide Slots, OperationId, OperationIn, WellFormedItem, Extracted, OperationsIn, Named, Unique;
    if Paths(document).None? {
      return None;
    }
    var paths := Paths(document).value;
    if exists path :: path in paths && !WellFormedItem(paths[path]) {
      return None;
    }
    var rest, done := Slots(paths), {};
    var operations: Operations := map[];
    NoOperations(paths);
    while rest != {}
      invariant rest + done == Slots(paths) && rest !! done
      invariant Named(paths, done) && Unique(paths, done) && operations == OperationsIn(paths, done)
      decreases rest
    {
      var slot :| slot in rest;
      var id := OperationId(OperationIn(paths, slot));
      if id.None? {
        NotNamed(paths, slot);
        return None;
      }
      OneMoreOperation(paths, done, slot);
      if id.value in operations {
        NotUnique(paths, done + {slot});
        return None;
      }
      operations := operations[id.value := Extracted(paths, slot)];
      rest, done := rest - {slot}, done + {slot};
    }
    assert done == Slots(paths);
    r := Some(operations);
  }

  lemma NoOperations(paths: map<string, Json>)
    requires forall path :: path in paths ==> WellFormedItem(paths[path])
    ensures Named(paths, {}) && Unique(paths, {}) && OperationsIn(paths, {}) == map[]
  {
  }

  lemma NotNamed(paths: map<string, Json>, slot: Slot)
    requires slot in Slots(paths) && OperationId(OperationIn(paths, slot)).None?
    ensures !Named(paths, Slots(paths))
  {
  }

  lemma NotUnique(paths: map<string, Json>, slots: set<Slot>)
    requires slots <= Slots(paths) && !Unique(paths, slots)
    ensures !Unique(paths, Slots(paths))
  {
    hide Slots, OperationId;
  }

  /** Every method of every path is an operation of the document, as it stands there. */
  lemma EverySlotIsExtracted(document: Json, slot: Slot)
    requires OperationsOf(document).Some? && slot in Slots(Paths(document).value)
    ensures var op, ops := OperationIn(Paths(document).value, slot), OperationsOf(document).value;
            && OperationId(op).Some? && OperationId(op).value in ops
            && var found := ops[OperationId(op).value];
              Obj(found.value) == op && found.verb == UpperCase(slot.1) && found.path == slot.0
  {
    hide Slots;
    var paths := Paths(document).value;
    assert WellFormedItem(paths[slot.0]);
    assert OperationsOf(document).value[OperationId(OperationIn(paths, slot)).value] == Extracted(paths, slot);
  }

  /** ... and there are no others. */
  lemma EveryOperationHasASlot(document: Json, id: string) returns (slot: Slot)
    requires OperationsOf(document).Some? && id in OperationsOf(document).value
    ensures slot in Slots(Paths(document).value) && OperationId(OperationIn(Paths(document).value, slot)) == Some(id)
  {
    hide Slots, OperationId, OperationIn, WellFormedItem;
    var paths := Paths(document).value;
    slot :| slot in Slots(paths) && OperationId(OperationIn(paths, slot)).value == id;
  }
}
