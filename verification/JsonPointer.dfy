/** JSON documents, local references into them, and the unescaping of reference segments. */
module JsonPointer {
  import opened Wrappers
  import opened Text

  datatype Json =
    | Null
    | Bool(b: bool)
    | Number(n: real)
    | Str(s: string)
    | Arr(items: seq<Json>)
    | Obj(fields: map<string, Json>)

  // ----- segments -----

  /** str.replace of the two characters "~" and second by one character, left to right. */
  function ReplaceEscape(s: string, second: char, plain: char): string {
    if |s| < 2 then s
    else if s[0] == '~' && s[1] == second then [plain] + ReplaceEscape(s[2..], second, plain)
    else [s[0]] + ReplaceEscape(s[1..], second, plain)
  }

  function DecodeSegment(s: string): string {
    ReplaceEscape(ReplaceEscape(s, '1', '/'), '0', '~')
  }

  /** Unescaping in one pass from the left, as section 4 of RFC 6901 describes its result. */
  function Unescape(s: string): string {
    if |s| < 2 then s
    else if s[0] == '~' && s[1] == '0' then "~" + Unescape(s[2..])
    else if s[0] == '~' && s[1] == '1' then "/" + Unescape(s[2..])
    else [s[0]] + Unescape(s[1..])
  }

  lemma ReplaceHead(s: string)
    requires s != "" && s[0] != '0'
    ensures var r := ReplaceEscape(s, '1', '/'); r != "" && r[0] != '0'
  {
  }

  /** The two successive replacements are the one-pass unescaping, for every string. */
  lemma {:induction false} DecodeIsUnescape(s: string)
    ensures DecodeSegment(s) == Unescape(s)
    decreases |s|
  {
    if |s| < 2 {
    } else {
      if s[0] == '~' && (s[1] == '0' || s[1] == '1') {
        DecodeIsUnescape(s[2..]);
        var rest := ReplaceEscape(s[2..], '1', '/');
        if s[1] == '1' {
          assert ReplaceEscape(s, '1', '/') == "/" + rest;
          assert ("/" + rest)[1..] == rest;
        } else {
          assert s[1..][1..] == s[2..] && s[1..] == "0" + s[2..];
          assert ReplaceEscape(s[1..], '1', '/') == "0" + rest;
          assert ReplaceEscape(s, '1', '/') == "~0" + rest;
          assert ("~0" + rest)[2..] == rest;
        }
      } else {
        DecodeIsUnescape(s[1..]);
        var rest := ReplaceEscape(s[1..], '1', '/');
        assert ReplaceEscape(s, '1', '/') == [s[0]] + rest;
        assert ([s[0]] + rest)[1..] == rest;
        if s[0] == '~' {
          ReplaceHead(s[1..]);
        }
      }
    }
  }

  /** Writing a name as a segment. */
  function Escape(s: string): string {
    if s == "" then ""
    else (if s[0] == '~' then "~0" else if s[0] == '/' then "~1" else [s[0]]) + Escape(s[1..])
  }

  /** Every name has a segment that decodes to it and holds no separator. */
  lemma {:induction false} EscapeRoundTrip(s: string)
    ensures DecodeSegment(Escape(s)) == s && '/' !in Escape(s)
    decreases |s|
  {
    DecodeIsUnescape(Escape(s));
    if s == "" {
    } else {
      EscapeRoundTrip(s[1..]);
      DecodeIsUnescape(Escape(s[1..]));
      var rest := Escape(s[1..]);
      if s[0] == '~' || s[0] == '/' {
        assert Escape(s)[2..] == rest;
      } else if rest != "" {
        assert Escape(s)[1..] == rest;
      }
    }
  }

  // ----- references -----

  const COMPONENTS: string := "components"
  const SECURITY_SCHEMES: string := "securitySchemes"

  predicate Local(reference: string) {
    "#/" <= reference
  }

  function Segments(reference: string): seq<string>
    requires Local(reference)
  {
    Split(reference[2..], '/')
  }

  function Walk(current: Json, segments: seq<string>): Option<Json> {
    if segments == [] then Some(current)
    else if !current.Obj? || DecodeSegment(segments[0]) !in current.fields then None
    else Walk(current.fields[DecodeSegment(segments[0])], segments[1..])
  }

  /** The value a local reference points at; None if it is external or dangling. */
  function Resolve(document: Json, reference: string): Option<Json> {
    if !Local(reference) then None else Walk(document, Segments(reference))
  }

  /** The category and name of a reference to a component. */
  function ComponentOf(reference: string): Option<(string, string)> {
    if !Local(reference) then None else
    var parts := Segments(reference);
    if |parts| != 3 || parts[0] != COMPONENTS then None
    else Some((DecodeSegment(parts[1]), DecodeSegment(parts[2])))
  }

  function Child(v: Json, name: string): Option<Json> {
    if v.Obj? && name in v.fields then Some(v.fields[name]) else None
  }

  /** document.components.category.name */
  function Component(document: Json, category: string, name: string): Option<Json> {
    match Child(document, COMPONENTS)
    case None => None
    case Some(components) =>
      match Child(components, category)
      case None => None
      case Some(members) => Child(members, name)
  }

  /** A component reference points at the component it names, however its segments are escaped. */
  lemma ResolveComponent(document: Json, reference: string)
    requires ComponentOf(reference).Some?
    ensures Resolve(document, reference) ==
            Component(document, ComponentOf(reference).value.0, ComponentOf(reference).value.1)
  {
    hide DecodeSegment, Split;
    var parts := Segments(reference);
    ConstantsArePlain();
    assert parts[1..][1..] == parts[2..] && parts[2..][1..] == [];
    assert parts[1..][0] == parts[1] && parts[2..][0] == parts[2];
    if Child(document, COMPONENTS).Some? {
      var components := document.fields[COMPONENTS];
      assert Walk(document, parts) == Walk(components, parts[1..]);
      if Child(components, DecodeSegment(parts[1])).Some? {
        var members := components.fields[DecodeSegment(parts[1])];
        assert Walk(components, parts[1..]) == Walk(members, parts[2..]);
        if Child(members, DecodeSegment(parts[2])).Some? {
          assert Walk(members, parts[2..]) == Walk(members.fields[DecodeSegment(parts[2])], parts[2..][1..]);
        }
      }
    }
  }

  /** An escape starts at i. */
  predicate EscapeAt(s: string, i: int) {
    0 <= i < |s| - 1 && s[i] == '~' && (s[i + 1] == '0' || s[i + 1] == '1')
  }

  predicate HasEscape(s: string) {
    exists i :: 0 <= i < |s| && EscapeAt(s, i)
  }

  /** Unescaping shortens by one for each escape, so it changes exactly the strings that have one. */
  lemma {:induction false} UnescapeChanges(s: string)
    ensures |Unescape(s)| <= |s|
    ensures Unescape(s) == s <==> !HasEscape(s)
    ensures HasEscape(s) ==> |Unescape(s)| < |s|
    decreases |s|
  {
    if |s| < 2 {
    } else if EscapeAt(s, 0) {
      UnescapeChanges(s[2..]);
    } else {
      var rest := s[1..];
      UnescapeChanges(rest);
      if HasEscape(rest) {
        var i :| 0 <= i < |rest| && EscapeAt(rest, i);
        assert EscapeAt(s, i + 1);
      }
      if HasEscape(s) {
        var i :| 0 <= i < |s| && EscapeAt(s, i);
        assert EscapeAt(rest, i - 1);
      }
      assert Unescape(s)[1..] == Unescape(rest);
    }
  }

  /** A name that can be written as a segment as it is. */
  predicate NeedsNoEscaping(name: string) {
    '/' !in name && !HasEscape(name)
  }

  lemma ConstantsArePlain()
    ensures '/' !in COMPONENTS && '/' !in SECURITY_SCHEMES
    ensures DecodeSegment(COMPONENTS) == COMPONENTS && DecodeSegment(SECURITY_SCHEMES) == SECURITY_SCHEMES
  {
    hide DecodeSegment, Unescape;
    DecodeIsUnescape(COMPONENTS);
    UnescapeChanges(COMPONENTS);
    DecodeIsUnescape(SECURITY_SCHEMES);
    UnescapeChanges(SECURITY_SCHEMES);
  }

  /** The reference the normaliser builds for a security scheme: the name is not escaped. */
  function SecurityReference(name: string): string {
    "#/" + (COMPONENTS + "/" + (SECURITY_SCHEMES + "/" + name))
  }

  lemma SecuritySegments(name: string)
    ensures Local(SecurityReference(name))
    ensures Segments(SecurityReference(name)) == [COMPONENTS] + ([SECURITY_SCHEMES] + Split(name, '/'))
  {
    hide Split;
    ConstantsArePlain();
    assert SecurityReference(name)[2..] == COMPONENTS + "/" + (SECURITY_SCHEMES + "/" + name);
    SplitFirst(COMPONENTS, SECURITY_SCHEMES + "/" + name, '/');
    SplitFirst(SECURITY_SCHEMES, name, '/');
  }

  /** It denotes the scheme of that name exactly when the name needs no escaping. */
  lemma SecurityReferenceNamesItsScheme(name: string)
    ensures ComponentOf(SecurityReference(name)) == Some((SECURITY_SCHEMES, name)) <==> NeedsNoEscaping(name)
  {
    hide Split, DecodeSegment, Unescape, HasEscape, SecurityReference;
    SecuritySegments(name);
    ConstantsArePlain();
    SplitPlain(name, '/');
    DecodeIsUnescape(name);
    UnescapeChanges(name);
  }

  /** A scheme called "a~1b" is looked up as "a/b". */
  lemma SecurityReferenceMisses()
    ensures ComponentOf(SecurityReference("a~1b")) == Some((SECURITY_SCHEMES, "a/b"))
  {
    hide Split, DecodeSegment, SecurityReference;
    var name := "a~1b";
    SecuritySegments(name);
    ConstantsArePlain();
    SplitPlain(name, '/');
    DecodeIsUnescape(name);
    assert name[1..] == "~1b" && name[1..][2..] == "b";
    assert Unescape(name) == "a" + Unescape("~1b") == "a/b";
  }
}
