/**
 The SDK contract normaliser: stripping annotations, collecting references, and closing the claimed
 operations under the components they reach.
 */
module Contract {
  import opened Wrappers
  import opened JsonPointer

  const REF: string := "$ref"

  predicate Annotation(key: string) {
    key in {"description", "example", "examples", "externalDocs", "summary", "tags", "title"} || "x-" <= key
  }

  predicate OpaqueKey(key: string) {
    key in {"const", "default", "enum"}
  }

  /** Keys whose children are keyed by arbitrary names rather than by OpenAPI keywords. */
  predicate NameMap(key: string) {
    key in {"$defs", "callbacks", "content", "dependentRequired", "dependentSchemas", "encoding", "headers", "links",
            "mapping", "patternProperties", "properties", "responses", "security"}
  }

  // ----- stripping and references -----

  function Strip(v: Json, names: bool): Json {
    match v
    case Obj(fields) =>
      Obj(map k | k in fields && (names || !Annotation(k)) ::
            if !names && OpaqueKey(k) then fields[k] else Strip(fields[k], NameMap(k)))
    case Arr(items) => Arr(seq(|items|, i requires 0 <= i < |items| => Strip(items[i], names)))
    case _ => v
  }

  /** Is this key followed when looking for references? */
  predicate Followed(k: string, names: bool) {
    names || (k != REF && !OpaqueKey(k))
  }

  function OwnReference(fields: map<string, Json>, names: bool): set<string> {
    if !names && REF in fields && fields[REF].Str? then {fields[REF].s} else {}
  }

  function References(v: Json, names: bool): set<string> {
    match v
    case Obj(fields) =>
      OwnReference(fields, names)
      + (set k, r | k in fields && Followed(k, names) && r in References(fields[k], NameMap(k)) :: r)
    case Arr(items) => set i, r | 0 <= i < |items| && r in References(items[i], names) :: r
    case _ => {}
  }

  /** No reference that would be collected is anything but a string. */
  predicate ReferencesAreStrings(v: Json, names: bool) {
    match v
    case Obj(fields) =>
      (!names && REF in fields ==> fields[REF].Str?)
      && forall k :: k in fields && Followed(k, names) ==> ReferencesAreStrings(fields[k], NameMap(k))
    case Arr(items) => forall i :: 0 <= i < |items| ==> ReferencesAreStrings(items[i], names)
    case _ => true
  }

  /** Stripping what is already stripped changes nothing, in either mode. */
  lemma {:induction false} StripIdempotent(v: Json, names: bool)
    ensures Strip(Strip(v, names), names) == Strip(v, names)
    decreases v
  {
    hide Annotation, OpaqueKey, NameMap;
    match v
    case Obj(fields) =>
      forall k | k in fields ensures Strip(Strip(fields[k], NameMap(k)), NameMap(k)) == Strip(fields[k], NameMap(k)) {
        StripIdempotent(fields[k], NameMap(k));
      }
    case Arr(items) =>
      forall i | 0 <= i < |items| ensures Strip(Strip(items[i], names), names) == Strip(items[i], names) {
        StripIdempotent(items[i], names);
      }
    case _ =>
  }

  /** Stripping adds no reference. */
  lemma {:induction false} StripAddsNoReference(v: Json, names: bool)
    ensures References(Strip(v, names), names) <= References(v, names)
    decreases v
  {
    hide Annotation, OpaqueKey, NameMap;
    match v
    case Obj(fields) =>
      forall k | k in fields
        ensures References(Strip(fields[k], NameMap(k)), NameMap(k)) <= References(fields[k], NameMap(k))
      {
        StripAddsNoReference(fields[k], NameMap(k));
      }
      ReferenceKeyIsKept();
    case Arr(items) =>
      forall i | 0 <= i < |items| ensures References(Strip(items[i], names), names) <= References(items[i], names) {
        StripAddsNoReference(items[i], names);
      }
    case _ =>
  }

  lemma ReferenceKeyIsKept()
    ensures !Annotation(REF) && !OpaqueKey(REF) && !NameMap(REF)
  {
    assert |REF| == 4 && REF[0] == '$';
  }

  /** All strings that occur as values in a document. */
  function Strings(v: Json): set<string> {
    match v
    case Str(s) => {s}
    case Obj(fields) => set k, r | k in fields && r in Strings(fields[k]) :: r
    case Arr(items) => set i, r | 0 <= i < |items| && r in Strings(items[i]) :: r
    case _ => {}
  }

  lemma {:induction false} ReferencesAreInStrings(v: Json, names: bool)
    ensures References(v, names) <= Strings(v)
    decreases v
  {
    hide OpaqueKey, NameMap;
    match v
    case Obj(fields) =>
      forall k | k in fields ensures References(fields[k], NameMap(k)) <= Strings(fields[k]) {
        ReferencesAreInStrings(fields[k], NameMap(k));
      }
    case Arr(items) =>
      forall i | 0 <= i < |items| ensures References(items[i], names) <= Strings(items[i]) {
        ReferencesAreInStrings(items[i], names);
      }
    case _ =>
  }

  lemma {:induction false} WalkStaysInside(v: Json, segments: seq<string>)
    requires Walk(v, segments).Some?
    ensures Strings(Walk(v, segments).value) <= Strings(v)
    decreases |segments|
  {
    hide DecodeSegment;
    if segments == [] {
    } else {
      WalkStaysInside(v.fields[DecodeSegment(segments[0])], segments[1..]);
    }
  }

  // ----- references that are not followed -----

  /** Every string under a "$ref" key, wherever it stands. */
  function Textual(v: Json): set<string> {
    match v
    case Obj(fields) => OwnReference(fields, false) + (set k, r | k in fields && r in Textual(fields[k]) :: r)
    case Arr(items) => set i, r | 0 <= i < |items| && r in Textual(items[i]) :: r
    case _ => {}
  }

  /** Those among names or inside values that are taken as they are. */
  function Hidden(v: Json, names: bool): set<string> {
    match v
    case Obj(fields) =>
      (if names then OwnReference(fields, false) else {})
      + (set k, r | k in fields && Followed(k, names) && r in Hidden(fields[k], NameMap(k)) :: r)
      + (set k, r | k in fields && !Followed(k, names) && r in Textual(fields[k]) :: r)
    case Arr(items) => set i, r | 0 <= i < |items| && r in Hidden(items[i], names) :: r
    case _ => {}
  }

  lemma FieldsSplit(fields: map<string, Json>, names: bool, r: string)
    requires forall k :: k in fields ==>
               Textual(fields[k]) == References(fields[k], NameMap(k)) + Hidden(fields[k], NameMap(k))
    ensures r in Textual(Obj(fields)) <==> r in References(Obj(fields), names) || r in Hidden(Obj(fields), names)
  {
    hide Followed, NameMap;
    if r in Textual(Obj(fields)) && r !in OwnReference(fields, false) {
      var k :| k in fields && r in Textual(fields[k]);
      assert Followed(k, names) ==> r in References(fields[k], NameMap(k)) || r in Hidden(fields[k], NameMap(k));
    }
  }

  /** The collector misses exactly the hidden ones. */
  lemma {:induction false} TextualIsFollowedOrHidden(v: Json, names: bool)
    ensures Textual(v) == References(v, names) + Hidden(v, names)
    decreases v
  {
    hide Followed, NameMap, OwnReference;
    match v
    case Obj(fields) =>
      forall k | k in fields
        ensures Textual(fields[k]) == References(fields[k], NameMap(k)) + Hidden(fields[k], NameMap(k))
      {
        TextualIsFollowedOrHidden(fields[k], NameMap(k));
      }
      forall r ensures r in Textual(v) <==> r in References(v, names) || r in Hidden(v, names) {
        FieldsSplit(fields, names, r);
      }
    case Arr(items) =>
      forall i | 0 <= i < |items| ensures Textual(items[i]) == References(items[i], names) + Hidden(items[i], names) {
        TextualIsFollowedOrHidden(items[i], names);
      }
    case _ =>
  }

  // ----- reachability -----

  /** What a reference contributes: its stripped target, if it names an existing component. */
  function Target(runtime: Json, reference: string): Option<Json> {
    match Resolve(runtime, reference)
    case None => None
    case Some(target) => if ComponentOf(reference).None? then None else Some(Strip(target, false))
  }

  predicate Usable(runtime: Json, reference: string) {
    Target(runtime, reference).Some? && ReferencesAreStrings(Target(runtime, reference).value, false)
  }

  function Edges(runtime: Json, reference: string): set<string> {
    if Target(runtime, reference).Some? then References(Target(runtime, reference).value, false) else {}
  }

  ghost predicate IsPath(runtime: Json, initial: set<string>, path: seq<string>) {
    && path != [] && path[0] in initial
    && forall i :: 0 < i < |path| ==> path[i] in Edges(runtime, path[i - 1])
  }

  ghost predicate Reachable(runtime: Json, initial: set<string>, reference: string) {
    exists path :: IsPath(runtime, initial, path) && path[|path| - 1] == reference
  }

  ghost predicate Closed(runtime: Json, references: set<string>) {
    forall r :: r in references ==> Edges(runtime, r) <= references
  }

  lemma ReachableStart(runtime: Json, initial: set<string>, reference: string)
    requires reference in initial
    ensures Reachable(runtime, initial, reference)
  {
    hide Edges;
    assert IsPath(runtime, initial, [reference]);
  }

  lemma ReachableStep(runtime: Json, initial: set<string>, from: string, to: string)
    requires Reachable(runtime, initial, from) && to in Edges(runtime, from)
    ensures Reachable(runtime, initial, to)
  {
    hide Edges;
    var path :| IsPath(runtime, initial, path) && path[|path| - 1] == from;
    assert IsPath(runtime, initial, path + [to]);
  }

  lemma {:induction false} PathStaysInside(runtime: Json, initial: set<string>, references: set<string>,
                                           path: seq<string>)
    requires Closed(runtime, references) && initial <= references && IsPath(runtime, initial, path)
    ensures path[|path| - 1] in references
    decreases |path|
  {
    hide Edges;
    if |path| <= 1 {
    } else {
      PathStaysInside(runtime, initial, references, path[..|path| - 1]);
    }
  }

  /** Reachability is the least set that holds the initial references and is closed. */
  lemma ReachableIsLeast(runtime: Json, initial: set<string>, references: set<string>, reference: string)
    requires Closed(runtime, references) && initial <= references && Reachable(runtime, initial, reference)
    ensures reference in references
  {
    var path :| IsPath(runtime, initial, path) && path[|path| - 1] == reference;
    PathStaysInside(runtime, initial, references, path);
  }

  lemma EdgesAreFinite(runtime: Json, reference: string)
    ensures Edges(runtime, reference) <= Strings(runtime)
  {
    hide Strip, References, Strings, Walk;
    if Target(runtime, reference).Some? {
      var target := Resolve(runtime, reference).value;
      StripAddsNoReference(target, false);
      ReferencesAreInStrings(target, false);
      WalkStaysInside(runtime, Segments(reference));
    }
  }

  // ----- the worklist -----

  type Components = map<string, map<string, Json>>

  predicate Has(components: Components, category: string, name: string) {
    category in components && name in components[category]
  }

  /** Exactly the components the references name, each one the stripped runtime component. */
  ghost predicate Collects(runtime: Json, references: set<string>, components: Components) {
    && (forall c, n :: Has(components, c, n) <==> exists r :: r in references && ComponentOf(r) == Some((c, n)))
    && (forall c, n :: Has(components, c, n) ==>
          Component(runtime, c, n).Some? && components[c][n] == Strip(Component(runtime, c, n).value, false))
    && (forall c :: c in components ==> components[c] != map[])
  }

  method Enumerate(references: set<string>) returns (list: seq<string>)
    ensures forall r :: r in list <==> r in references
  {
    list := [];
    var rest := references;
    while rest != {}
      invariant forall r :: r in references <==> r in list || r in rest
      decreases rest
    {
      var r :| r in rest;
      list, rest := list + [r], rest - {r};
    }
  }

  function Extended(components: Components, category: string, name: string, value: Json): Components {
    components[category := (if category in components then components[category] else map[])[name := value]]
  }

  lemma TargetIsComponent(runtime: Json, reference: string)
    requires Target(runtime, reference).Some?
    ensures ComponentOf(reference).Some?
    ensures var (c, n) := ComponentOf(reference).value;
            && Component(runtime, c, n).Some?
            && Target(runtime, reference).value == Strip(Component(runtime, c, n).value, false)
  {
    hide Strip, Resolve, ComponentOf, Component;
    ResolveComponent(runtime, reference);
  }

  lemma CollectsOneMore(runtime: Json, references: set<string>, components: Components, reference: string)
    requires Collects(runtime, references, components) && Target(runtime, reference).Some?
    ensures ComponentOf(reference).Some?
    ensures var (c, n) := ComponentOf(reference).value;
            Collects(runtime, references + {reference}, Extended(components, c, n, Target(runtime, reference).value))
  {
    hide Strip, Target, ComponentOf, Component;
    TargetIsComponent(runtime, reference);
    var (c, n) := ComponentOf(reference).value;
    var after := Extended(components, c, n, Target(runtime, reference).value);
    HasOneMore(components, c, n, Target(runtime, reference).value);
    forall c', n' | Has(after, c', n')
      ensures exists r :: r in references + {reference} && ComponentOf(r) == Some((c', n'))
    {
      if c' == c && n' == n {
        assert reference in references + {reference};
      } else {
        var r :| r in references && ComponentOf(r) == Some((c', n'));
        assert r in references + {reference};
      }
    }
  }

  lemma HasOneMore(components: Components, category: string, name: string, value: Json)
    ensures var after := Extended(components, category, name, value);
            && (forall c, n :: Has(after, c, n) <==> Has(components, c, n) || (c == category && n == name))
            && (forall c, n :: Has(after, c, n) ==>
                  after[c][n] == if c == category && n == name then value else components[c][n])
            && (forall c :: c in after && c != category ==> c in components && after[c] == components[c])
            && after[category] != map[]
  {
    assert name in Extended(components, category, name, value)[category];
  }

  /**
   The reference worklist. It ends, and it succeeds exactly when every reachable reference is usable;
   the components are then those of the reachable references, whatever order they were popped in.
   */
  method CloseReferences(runtime: Json, initial: set<string>)
    returns (r: Option<Components>, ghost collected: set<string>)
    ensures r.Some? ==> forall x :: x in collected <==> Reachable(runtime, initial, x)
    ensures r.Some? ==> forall x :: x in collected ==> Usable(runtime, x)
    ensures r.Some? ==> Collects(runtime, collected, r.value)
    ensures r.None? ==> exists x :: Reachable(runtime, initial, x) && !Usable(runtime, x)
  {
    hide Edges, Target, Strings, Reachable, Collects, References, ReferencesAreStrings;
    var queue := Enumerate(initial);
    var done: set<string>, components: Components := {}, map[];
    ghost var universe := Strings(runtime) + initial;
    CollectsNothing(runtime);
    forall x | x in queue ensures Reachable(runtime, initial, x) {
      ReachableStart(runtime, initial, x);
    }
    while queue != []
      invariant forall x :: x in queue ==> x in universe && Reachable(runtime, initial, x)
      invariant forall x :: x in done ==> x in universe && Reachable(runtime, initial, x) && Usable(runtime, x)
      invariant forall x :: x in initial ==> x in done || x in queue
      invariant forall x, y :: x in done && y in Edges(runtime, x) ==> y in done || y in queue
      invariant Collects(runtime, done, components)
      decreases universe - done, |queue|
    {
      var reference := queue[|queue| - 1];
      ghost var before := queue;
      queue := queue[..|queue| - 1];
      assert forall x :: x in before ==> x in queue || x == reference;
      if reference in done {
        continue;
      }
      var target := Target(runtime, reference);
      if target.None? || !ReferencesAreStrings(target.value, false) {
        assert Reachable(runtime, initial, reference) && !Usable(runtime, reference);
        return None, {};
      }
      CollectsOneMore(runtime, done, components, reference);
      var (category, name) := ComponentOf(reference).value;
      components := Extended(components, category, name, target.value);
      ghost var smaller := universe - done;
      done := done + {reference};
      assert reference in smaller && universe - done == smaller - {reference};
      var more := Enumerate(References(target.value, false));
      EdgesAreQueued(runtime, initial, reference, more);
      queue := queue + more;
    }
    collected := done;
    assert Closed(runtime, done);
    forall x | Reachable(runtime, initial, x) ensures x in done {
      ReachableIsLeast(runtime, initial, done, x);
    }
    r := Some(components);
  }

  lemma CollectsNothing(runtime: Json)
    ensures Collects(runtime, {}, map[])
  {
    hide Component, ComponentOf;
  }

  lemma EdgesAreQueued(runtime: Json, initial: set<string>, reference: string, more: seq<string>)
    requires Target(runtime, reference).Some? && Reachable(runtime, initial, reference)
    requires forall x :: x in more <==> x in References(Target(runtime, reference).value, false)
    ensures forall x :: x in more <==> x in Edges(runtime, reference)
    ensures forall x :: x in more ==> x in Strings(runtime) && Reachable(runtime, initial, x)
  {
    hide Target, Strings, Reachable, References;
    EdgesAreFinite(runtime, reference);
    forall x | x in more ensures Reachable(runtime, initial, x) {
      ReachableStep(runtime, initial, reference, x);
    }
  }
}
